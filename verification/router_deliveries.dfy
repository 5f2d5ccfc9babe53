/** Which sends of the event router arrive (`src/events/router.rs`), over whole runs: the
    outcome of every send in terms of what the receiver has done, subscribers that keep up,
    the statistics, and the order of the sends. */
module RouterDeliveries {
  import opened Wrappers
  import opened Counting
  import opened Routing
  import opened RouterRuns
  import opened RouterHistory
  import StreamTasks
  import StreamHistories

  // ---- what the receivers have done ----

  /** The capacity a channel was made with. */
  function Capacity(run: seq<Action>, c: ChannelId): nat
    decreases |run|
  {
    if run == [] then 0
    else if run[0].OpenChannel? && run[0].channel == c then run[0].capacity
    else Capacity(run[1..], c)
  }

  /** How many events its receiver has taken out. */
  function Taken(run: seq<Action>, c: ChannelId): nat
    decreases |run|
  {
    if run == [] then 0 else (if run[0] == Receive(c) then 1 else 0) + Taken(run[1..], c)
  }

  predicate HasShut(run: seq<Action>, c: ChannelId) {
    CloseReceiver(c) in run
  }

  lemma ShutSplit(run: seq<Action>, c: ChannelId)
    requires run != []
    ensures HasShut(run, c) <==> run[0] == CloseReceiver(c) || HasShut(run[1..], c)
  {
    assert run == [run[0]] + run[1..];
  }

  lemma SendKeepsChannels(s: Sys)
    requires SnapshotKnown(s) && EntriesKept(s) && Enabled(s, SendNext)
    ensures var r := ApplySend(s).router.channels;
            && r.Keys == s.router.channels.Keys
            && (forall c :: c in r ==> r[c] == s.router.channels[c].(queue := r[c].queue))
  {
    assert Known(s, s.dispatcher.kind, s.dispatcher.snapshot[s.dispatcher.next]);
    hide LocalInv;
  }

  /** A step changes a channel only if it is its receiver's, or a send to it. */
  lemma ChannelStep(s: Sys, a: Action, c: ChannelId)
    requires History(s) && Enabled(s, a) && Disciplined(s, a)
    ensures c in s.router.channels ==>
              && c in Apply(s, a).router.channels
              && var x, y := s.router.channels[c], Apply(s, a).router.channels[c];
                 && y.capacity == x.capacity && (y.open <==> x.open && a != CloseReceiver(c))
                 && |y.received| == |x.received| + (if a == Receive(c) then 1 else 0)
    ensures c !in s.router.channels && c in Apply(s, a).router.channels ==>
              a.OpenChannel? && a.channel == c && Apply(s, a).router.channels[c] == Channel([], a.capacity, true, [])
    ensures c !in s.router.channels ==> a != Receive(c) && a != CloseReceiver(c)
    ensures a.OpenChannel? && a.channel == c ==> c in Apply(s, a).router.channels && c !in s.router.channels
  {
    if a.SendNext? {
      HistoryParts(s);
      SendKeepsChannels(s);
    }
    hide History;
  }

  /** The state of a channel is what its receiver has made of it. */
  lemma {:induction false} ChannelRun(s: Sys, run: seq<Action>, c: ChannelId)
    requires History(s) && ValidRun(s, run) && DisciplinedRun(s, run)
    ensures c in s.router.channels ==>
              && c in Exec(s, run).router.channels
              && var x, y := s.router.channels[c], Exec(s, run).router.channels[c];
                 && y.capacity == x.capacity && (y.open <==> x.open && !HasShut(run, c))
                 && |y.received| == |x.received| + Taken(run, c)
    ensures c !in s.router.channels && c in Exec(s, run).router.channels ==>
              var y := Exec(s, run).router.channels[c];
              y.capacity == Capacity(run, c) && (y.open <==> !HasShut(run, c)) && |y.received| == Taken(run, c)
    decreases |run|
  {
    if run != [] {
      ShutSplit(run, c);
      ChannelStep(s, run[0], c);
      HistoryStep(s, run[0]);
      hide History, Apply, HasShut, Disciplined;
      ChannelRun(Apply(s, run[0]), run[1..], c);
    }
  }

  /** What becomes of a send, from the receiver's side: it fails for good once the receiver
      is gone, it finds the channel full exactly when `capacity` delivered events have not
      been taken out, and otherwise it arrives. */
  function Verdict(run: seq<Action>, log: seq<Attempt>, c: ChannelId): Outcome {
    if HasShut(run, c) then Closed
    else if |DeliveredOf(log)| >= Taken(run, c) + Capacity(run, c) then Full
    else Delivered
  }

  /** Every send of every run is logged with exactly this outcome. */
  lemma SendsAreDecided(limits: RouterLimits, run: seq<Action>)
    requires ValidRun(New(limits), run) && DisciplinedRun(New(limits), run)
    requires Enabled(Exec(New(limits), run), SendNext)
    ensures var s := Exec(New(limits), run); var sub := s.dispatcher.snapshot[s.dispatcher.next];
            var log := Log(s.books, sub.slot);
            Log(ApplySend(s).books, sub.slot)
              == log + [Attempt(s.dispatcher.event, Verdict(run, log, sub.channel))]
  {
    NewHistory(limits);
    HistoryRun(New(limits), run);
    var s := Exec(New(limits), run);
    var sub := s.dispatcher.snapshot[s.dispatcher.next];
    assert Known(s, s.dispatcher.kind, sub);
    assert LocalInv(MineOf(s, s.books.registry[sub.id].sub));
    ChannelRun(New(limits), run, sub.channel);
    hide History, Exec, HasShut, Taken, Capacity, DeliveredOf, Trailing;
  }

  /** No channel ever holds more than its capacity. */
  lemma {:induction false} QueuesAreBounded(s: Sys, run: seq<Action>)
    requires ValidRun(s, run)
    requires forall c :: c in s.router.channels ==> |s.router.channels[c].queue| <= s.router.channels[c].capacity
    ensures forall c :: c in Exec(s, run).router.channels ==>
              |Exec(s, run).router.channels[c].queue| <= Exec(s, run).router.channels[c].capacity
    decreases |run|
  {
    if run != [] { QueuesAreBounded(Apply(s, run[0]), run[1..]); }
  }

  // ---- subscribers that keep up ----

  /** When the next send is to this subscriber, its receiver is there and fewer than
      `capacity` delivered events have not been taken out; and it does not unsubscribe. */
  predicate KeepsUpAt(s: Sys, a: Action, id: SubscriberId)
    requires Enabled(s, a)
  {
    id in s.books.registry ==>
      var sub := s.books.registry[id].sub; var c := Chan(s.router, sub.channel);
      && a != Unsubscribe(s.books.registry[id].kind, id)
      && (a.SendNext? && s.dispatcher.snapshot[s.dispatcher.next] == sub ==>
            c.open && |DeliveredOf(Log(s.books, sub.slot))| < |c.received| + c.capacity)
  }

  ghost predicate KeepsUp(s: Sys, run: seq<Action>, id: SubscriberId)
    requires ValidRun(s, run)
    decreases |run|
  {
    run == [] || (KeepsUpAt(s, run[0], id) && KeepsUp(Apply(s, run[0]), run[1..], id))
  }

  /** All it was offered has arrived, and it is registered. */
  ghost predicate WellServed(s: Sys, id: SubscriberId) {
    id in s.books.registry ==>
      var e := s.books.registry[id]; var log := Log(s.books, e.sub.slot);
      && DeliveredOf(log) == EventsOf(log) && Trailing(log) == 0 && !EndsClosed(log)
      && StreamHistories.Served(s, e.kind, id)
  }

  lemma WellServedOffer(m: Mine, e: Event)
    requires LocalInv(m) && DeliveredOf(m.log) == EventsOf(m.log)
    requires m.channel.open && |DeliveredOf(m.log)| < |m.channel.received| + m.channel.capacity
    ensures var log := LocalStep(m, Offer(e)).log;
            DeliveredOf(log) == EventsOf(log) && Trailing(log) == 0 && !EndsClosed(log)
  {
    var (c, o) := TrySend(m.channel, e);
    assert |m.channel.queue| < m.channel.capacity;
    LogGrows(m.log, Attempt(e, o));
    hide DeliveredOf, EventsOf, Trailing;
  }

  lemma WellServedNew(s: Sys, a: Action, id: SubscriberId)
    requires Enabled(s, a) && id !in s.books.registry && id in Apply(s, a).books.registry
    ensures WellServed(Apply(s, a), id)
  {
    NewIdIsSubscribed(s, a, id);
    var r := Apply(s, a);
    var list := ListOf(r.router.subs, a.kind);
    assert list[|list| - 1] == r.books.registry[id].sub;
  }

  lemma WellServedStep(s: Sys, a: Action, id: SubscriberId)
    requires History(s) && Enabled(s, a) && Disciplined(s, a) && WellServed(s, id) && KeepsUpAt(s, a, id)
    ensures WellServed(Apply(s, a), id)
  {
    if id in s.books.registry {
      var e := s.books.registry[id];
      HistoryParts(s);
      RegistryGrows(s, a, id);
      MineStep(s, a, id);
      StreamHistories.ServedStep(s, a, e.kind, id);
      assert LocalInv(MineOf(s, e.sub));
      hide History, EntriesDistinct, EntriesKept, ListsKnown, SnapshotKnown, Stories, Apply, StreamHistories.Served;
      hide LocalInv, DeliveredOf, EventsOf, Trailing, EndsClosed;
      if LocalPart(s, a, e.sub).Offer? { WellServedOffer(MineOf(s, e.sub), s.dispatcher.event); }
    } else if id in Apply(s, a).books.registry {
      WellServedNew(s, a, id);
    }
  }

  lemma {:induction false} WellServedRun(s: Sys, run: seq<Action>, id: SubscriberId)
    requires History(s) && ValidRun(s, run) && DisciplinedRun(s, run) && WellServed(s, id) && KeepsUp(s, run, id)
    ensures WellServed(Exec(s, run), id)
    decreases |run|
  {
    if run != [] {
      hide History, Apply, WellServed, KeepsUpAt, Disciplined;
      WellServedStep(s, run[0], id);
      HistoryStep(s, run[0]);
      WellServedRun(Apply(s, run[0]), run[1..], id);
    }
  }

  /** A subscriber that keeps up loses nothing: it stays registered, its drop counter is zero,
      and between dispatches its channel has been given every event of its type since it
      subscribed, in order, whatever becomes of the others. */
  lemma KeepingUpLosesNothing(limits: RouterLimits, run: seq<Action>, id: SubscriberId)
    requires ValidRun(New(limits), run) && DisciplinedRun(New(limits), run)
    requires KeepsUp(New(limits), run, id) && id in Exec(New(limits), run).books.registry
    ensures var s := Exec(New(limits), run); var e := s.books.registry[id]; var c := Chan(s.router, e.sub.channel);
            && Registered(s, e.kind, e.sub) && Counter(s.router, e.sub.slot) == 0
            && (s.dispatcher.Quiet? ==> c.received + c.queue == Tail(Published(s.books, e.kind), e.since))
  {
    NewHistory(limits);
    WellServedRun(New(limits), run, id);
    DropCountersAreTrailingFailures(limits, run, id);
    SubscriberSeesItsType(limits, run, id);
    HistoryRun(New(limits), run);
    LimitsNeverChange(New(limits), run);
    var s := Exec(New(limits), run);
    var e := s.books.registry[id];
    hide History, Exec, DeliveredOf, EventsOf, Trailing, KeepsUp, Tail;
    assert !Doomed(s, e.sub);
  }

  /** The same for the stream of a call. */
  lemma StreamsThatKeepUp(
      maxStreams: nat, maxPerClient: nat, limits: RouterLimits, run: seq<StreamTasks.Action>, t: StreamTasks.Tid)
    requires StreamTasks.ValidRun(StreamTasks.New(maxStreams, maxPerClient, limits), run)
    requires var w0 := StreamTasks.New(maxStreams, maxPerClient, limits); var w := StreamTasks.Exec(w0, run);
             && t in w.stages && w.stages[t].Streaming?
             && ValidRun(New(limits), StreamHistories.RouterRun(w0, run))
             && KeepsUp(New(limits), StreamHistories.RouterRun(w0, run), w.stages[t].id)
    ensures var w := StreamTasks.Exec(StreamTasks.New(maxStreams, maxPerClient, limits), run); var s := w.sys;
            && w.stages[t].id in s.books.registry
            && var e := s.books.registry[w.stages[t].id]; var c := Chan(s.router, e.sub.channel);
               && e.kind == w.stages[t].kind && Registered(s, e.kind, e.sub) && Counter(s.router, e.sub.slot) == 0
               && (s.dispatcher.Quiet? ==> c.received + c.queue == Tail(Published(s.books, e.kind), e.since))
  {
    var w0 := StreamTasks.New(maxStreams, maxPerClient, limits);
    StreamHistories.HandlersRunTheRouter(maxStreams, maxPerClient, limits, run);
    StreamHistories.StreamsSeeTheirType(maxStreams, maxPerClient, limits, run, t);
    hide StreamHistories.Linked, StreamHistories.RouterRun, StreamTasks.Exec, Tail, KeepsUp, History;
    KeepingUpLosesNothing(limits, StreamHistories.RouterRun(w0, run), StreamTasks.Exec(w0, run).stages[t].id);
  }

  // ---- statistics, and the order of the sends ----

  function DeliveredLogs(logs: map<Slot, seq<Attempt>>): map<Slot, seq<Event>> {
    map slot | slot in logs :: DeliveredOf(logs[slot])
  }

  /** How many of the dispatches found a subscriber. */
  ghost function Dispatches(s: Sys, run: seq<Action>): nat
    requires ValidRun(s, run)
    decreases |run|
  {
    if run == [] then 0
    else
      (if run[0].Begin? && ListOf(s.router.subs, run[0].kind) != [] then 1 else 0)
      + Dispatches(Apply(s, run[0]), run[1..])
  }

  /** Earlier subscriptions come first; slots are numbered in the order of subscription. */
  ghost predicate InOrder(list: seq<Subscriber>, next: Slot) {
    && (forall i :: 0 <= i < |list| ==> list[i].slot < next)
    && (forall i, j :: 0 <= i < j < |list| ==> list[i].slot < list[j].slot)
  }

  lemma ConsInOrder(head: Subscriber, list: seq<Subscriber>, next: Slot)
    requires InOrder(list, next) && head.slot < next && forall i :: 0 <= i < |list| ==> head.slot < list[i].slot
    ensures InOrder([head] + list, next)
  {
  }

  lemma TailInOrder(list: seq<Subscriber>, next: Slot)
    requires InOrder(list, next) && list != []
    ensures InOrder(list[1..], next) && forall x :: x in list[1..] ==> list[0].slot < x.slot
  {
    var rest := list[1..];
    assert forall i :: 0 <= i < |rest| ==> rest[i] == list[i + 1];
  }

  lemma KeptLater(list: seq<Subscriber>, gone: set<SubscriberId>, next: Slot)
    requires InOrder(list, next) && list != []
    ensures list[0].slot < next && InOrder(list[1..], next)
    ensures var kept := Keep(list[1..], gone); forall i :: 0 <= i < |kept| ==> list[0].slot < kept[i].slot
  {
    TailInOrder(list, next);
    KeepExact(list[1..], gone);
    var kept := Keep(list[1..], gone);
    hide InOrder, Keep;
    assert forall i :: 0 <= i < |kept| ==> kept[i] in kept;
  }

  lemma {:induction false} KeepInOrder(list: seq<Subscriber>, gone: set<SubscriberId>, next: Slot)
    requires InOrder(list, next)
    ensures InOrder(Keep(list, gone), next)
  {
    if list != [] {
      KeptLater(list, gone, next);
      hide InOrder;
      KeepInOrder(list[1..], gone, next);
      ConsInOrder(list[0], Keep(list[1..], gone), next);
      assert [] + Keep(list[1..], gone) == Keep(list[1..], gone);
    }
  }

  ghost predicate AllInOrder(s: Sys) {
    && (forall k :: k in s.router.subs ==> InOrder(s.router.subs[k], s.router.nextSlot))
    && (s.dispatcher.Sending? ==> InOrder(s.dispatcher.snapshot, s.router.nextSlot))
    && (forall slot :: slot in s.books.logs ==> slot < s.router.nextSlot)
  }

  lemma RemoveInOrder(r: Router, kind: Kind, gone: set<SubscriberId>, next: Slot)
    requires forall k :: k in r.subs ==> InOrder(r.subs[k], next)
    ensures forall k :: k in Remove(r, kind, gone).subs ==> InOrder(Remove(r, kind, gone).subs[k], next)
  {
    if kind in r.subs { KeepInOrder(r.subs[kind], gone, next); }
  }

  lemma InOrderSubscribe(s: Sys, kind: Kind, id: SubscriberId, c: ChannelId)
    requires AllInOrder(s)
    ensures AllInOrder(ApplySubscribe(s, kind, id, c))
  {
    var r := ApplySubscribe(s, kind, id, c);
    if r != s {
      var list := ListOf(s.router.subs, kind);
      assert InOrder(list, s.router.nextSlot);
      assert InOrder(r.router.subs[kind], r.router.nextSlot);
    }
  }

  lemma InOrderSend(s: Sys)
    requires AllInOrder(s) && Enabled(s, SendNext)
    ensures AllInOrder(ApplySend(s))
  {
    SendCounts(s);
    hide InOrder, OutcomeFor, Condemned, Log;
  }

  lemma InOrderStep(s: Sys, a: Action)
    requires AllInOrder(s) && Enabled(s, a)
    ensures AllInOrder(Apply(s, a))
  {
    hide InOrder;
    match a
    case Subscribe(kind, id, c) => InOrderSubscribe(s, kind, id, c);
    case SendNext => InOrderSend(s);
    case Unsubscribe(kind, id) => RemoveInOrder(s.router, kind, {id}, s.router.nextSlot);
    case Finish => RemoveInOrder(s.router, s.dispatcher.kind, s.dispatcher.gone, s.router.nextSlot);
    case _ =>
  }

  ghost predicate StatsRight(s: Sys) {
    && s.router.stats.delivered == SumLen(DeliveredLogs(s.books.logs))
    && s.router.stats.delivered + s.router.stats.dropped == SumLen(s.books.logs)
  }

  lemma LogWritten(logs: map<Slot, seq<Attempt>>, slot: Slot, log: seq<Attempt>)
    ensures var before := if slot in logs then logs[slot] else [];
            && SumLen(logs[slot := log]) + |before| == SumLen(logs) + |log|
            && SumLen(DeliveredLogs(logs[slot := log])) + |DeliveredOf(before)|
               == SumLen(DeliveredLogs(logs)) + |DeliveredOf(log)|
  {
    SumLenUpdate(logs, slot, log);
    SumLenUpdate(DeliveredLogs(logs), slot, DeliveredOf(log));
    assert DeliveredLogs(logs[slot := log]) == DeliveredLogs(logs)[slot := DeliveredOf(log)];
  }

  lemma SendCounts(s: Sys)
    requires Enabled(s, SendNext)
    ensures var r, sub := ApplySend(s), s.dispatcher.snapshot[s.dispatcher.next];
            var attempt := Attempt(s.dispatcher.event, OutcomeFor(s.router, sub, s.dispatcher.event));
            var arrived := if attempt.outcome.Delivered? then 1 else 0;
            && r.books.logs == s.books.logs[sub.slot := Log(s.books, sub.slot) + [attempt]]
            && r.router.stats.delivered == s.router.stats.delivered + arrived
            && r.router.stats.dropped == s.router.stats.dropped + 1 - arrived
  {
  }

  lemma StatsSend(s: Sys)
    requires StatsRight(s) && Enabled(s, SendNext)
    ensures StatsRight(ApplySend(s))
  {
    SendCounts(s);
    hide DeliveredOf, EventsOf, Trailing, SumLen, DeliveredLogs, ApplySend, OutcomeFor;
    var sub := s.dispatcher.snapshot[s.dispatcher.next];
    var attempt := Attempt(s.dispatcher.event, OutcomeFor(s.router, sub, s.dispatcher.event));
    var log := Log(s.books, sub.slot);
    LogGrows(log, attempt);
    LogWritten(s.books.logs, sub.slot, log + [attempt]);
  }

  lemma StatsStep(s: Sys, a: Action)
    requires StatsRight(s) && AllInOrder(s) && Enabled(s, a)
    ensures StatsRight(Apply(s, a))
  {
    hide SumLen, DeliveredLogs, DeliveredOf;
    if a.SendNext? {
      StatsSend(s);
    } else if a.Subscribe? {
      LogWritten(s.books.logs, s.router.nextSlot, []);
    }
  }

  lemma DispatchesStep(s: Sys, a: Action)
    requires Enabled(s, a)
    ensures Apply(s, a).router.stats.dispatched == s.router.stats.dispatched
              + if a.Begin? && ListOf(s.router.subs, a.kind) != [] then 1 else 0
  {
  }

  lemma {:induction false} StatsRun(s: Sys, run: seq<Action>)
    requires StatsRight(s) && AllInOrder(s) && ValidRun(s, run)
    ensures StatsRight(Exec(s, run)) && AllInOrder(Exec(s, run))
    ensures Exec(s, run).router.stats.dispatched == s.router.stats.dispatched + Dispatches(s, run)
    decreases |run|
  {
    if run != [] {
      StatsStep(s, run[0]);
      InOrderStep(s, run[0]);
      DispatchesStep(s, run[0]);
      hide StatsRight, AllInOrder, Apply;
      StatsRun(Apply(s, run[0]), run[1..]);
    }
  }

  /** In every reachable state, whatever ids the callers use: `events_delivered` is the number
      of sends that have arrived, `events_dropped` of the others, `events_dispatched` of the
      dispatches that found a subscriber. */
  lemma StatisticsAreRight(limits: RouterLimits, run: seq<Action>)
    requires ValidRun(New(limits), run)
    ensures var s := Exec(New(limits), run);
            && s.router.stats.delivered == SumLen(DeliveredLogs(s.books.logs))
            && s.router.stats.dropped == SumLen(s.books.logs) - SumLen(DeliveredLogs(s.books.logs))
            && s.router.stats.dispatched == Dispatches(New(limits), run)
  {
    StartIsRight(limits);
    StatsRun(New(limits), run);
  }

  lemma StartIsRight(limits: RouterLimits)
    ensures StatsRight(New(limits)) && AllInOrder(New(limits))
  {
    assert DeliveredLogs(map[]) == map[];
    SumLenEmpty<Slot, Attempt>();
    SumLenEmpty<Slot, Event>();
  }

  /** And a dispatch sends in the order in which its subscribers came. */
  lemma SendsInOrderOfSubscription(limits: RouterLimits, run: seq<Action>, i: nat, j: nat)
    requires ValidRun(New(limits), run) && Exec(New(limits), run).dispatcher.Sending?
    requires i < j < |Exec(New(limits), run).dispatcher.snapshot|
    ensures var snapshot := Exec(New(limits), run).dispatcher.snapshot; snapshot[i].slot < snapshot[j].slot
  {
    StartIsRight(limits);
    StatsRun(New(limits), run);
  }

  // ---- a dispatch by itself ----

  /** The steps of a dispatch, one after the other. */
  function Sends(n: nat): seq<Action> {
    if n == 0 then [Finish] else [SendNext] + Sends(n - 1)
  }

  lemma {:induction false} SendAllIsRun(s: Sys, n: nat)
    requires s.dispatcher.Sending? && s.dispatcher.next + n == |s.dispatcher.snapshot|
    ensures ValidRun(s, Sends(n))
    ensures var d := s.dispatcher;
            var (sent, gone) := SendAll(s.router, d.snapshot[d.next..], d.event, d.gone);
            Exec(s, Sends(n)).router == if gone == {} then sent else Evict(sent, d.kind, gone)
    decreases n
  {
    var d := s.dispatcher;
    if n == 0 {
      assert Sends(0)[1..] == [];
      assert Exec(Apply(s, Finish), []) == Apply(s, Finish);
    } else {
      assert d.snapshot[d.next..][1..] == d.snapshot[d.next + 1..];
      assert Sends(n)[1..] == Sends(n - 1);
      SendAllIsRun(Apply(s, SendNext), n - 1);
      hide Send, Condemned, OutcomeFor, Evict;
    }
  }

  /** `dispatch` without interference is its steps in a row. */
  lemma DispatchIsRun(s: Sys, kind: Kind, e: Event)
    requires s.dispatcher.Quiet?
    ensures var n := |ListOf(s.router.subs, kind)|;
            var run := [Begin(kind, e)] + (if n == 0 then [] else Sends(n));
            ValidRun(s, run) && Exec(s, run).router == DispatchAlone(s.router, kind, e)
  {
    var list := ListOf(s.router.subs, kind);
    var r := ApplyBegin(s, kind, e);
    var rest := if |list| == 0 then [] else Sends(|list|);
    assert ([Begin(kind, e)] + rest)[1..] == rest;
    if list == [] {
      assert Exec(r, []) == r;
    } else {
      assert list[0..] == list;
      SendAllIsRun(r, |list|);
      hide Send, Condemned, OutcomeFor, Evict, Sends;
    }
  }
}

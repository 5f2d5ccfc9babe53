/** What each subscriber of the event router sees over a whole run, when every
    subscription uses an id and a channel of its own, as the streaming handlers do
    (`next_subscriber_id` and a new channel per call in `src/grpc/node_service.rs`). */
module RouterHistory {
  import opened Wrappers
  import opened Counting
  import opened Routing
  import opened RouterRuns

  /** Consecutive full-channel failures at the end of a log. */
  function Trailing(log: seq<Attempt>): nat {
    if log == [] then 0
    else
      match log[|log| - 1].outcome
      case Delivered => 0
      case Full => Trailing(log[..|log| - 1]) + 1
      case Closed => Trailing(log[..|log| - 1])
  }

  function EventsOf(log: seq<Attempt>): seq<Event> {
    if log == [] then [] else EventsOf(log[..|log| - 1]) + [log[|log| - 1].event]
  }

  function DeliveredOf(log: seq<Attempt>): seq<Event> {
    if log == [] then []
    else DeliveredOf(log[..|log| - 1]) + (if log[|log| - 1].outcome.Delivered? then [log[|log| - 1].event] else [])
  }

  predicate EndsClosed(log: seq<Attempt>) {
    log != [] && log[|log| - 1].outcome.Closed?
  }

  lemma LogGrows(log: seq<Attempt>, a: Attempt)
    ensures Trailing(log + [a])
        == (match a.outcome case Delivered => 0 case Full => Trailing(log) + 1 case Closed => Trailing(log))
    ensures EventsOf(log + [a]) == EventsOf(log) + [a.event]
    ensures DeliveredOf(log + [a]) == DeliveredOf(log) + (if a.outcome.Delivered? then [a.event] else [])
  {
    assert (log + [a])[..|log|] == log;
  }

  // ---- the discipline of the handlers ----

  predicate NobodyHas(s: Sys, c: ChannelId) {
    forall id :: id in s.books.registry ==> s.books.registry[id].sub.channel != c
  }

  predicate UnusedChannel(s: Sys, c: ChannelId) {
    && c in s.router.channels
    && s.router.channels[c].queue == [] && s.router.channels[c].received == []
    && NobodyHas(s, c)
  }

  predicate Disciplined(s: Sys, a: Action) {
    a.Subscribe? ==> a.id !in s.books.registry && UnusedChannel(s, a.channel)
  }

  ghost predicate DisciplinedRun(s: Sys, run: seq<Action>)
    requires ValidRun(s, run)
    decreases |run|
  {
    run == [] || (Disciplined(s, run[0]) && DisciplinedRun(Apply(s, run[0]), run[1..]))
  }

  // ---- one subscriber on its own ----

  /** A subscriber's drop counter, its send attempts and its channel. */
  datatype Mine = Mine(counter: nat, log: seq<Attempt>, channel: Channel)

  datatype Local = Nothing | Offer(event: Event) | Take | Shut

  function MineOf(s: Sys, sub: Subscriber): Mine {
    Mine(Counter(s.router, sub.slot), Log(s.books, sub.slot), Chan(s.router, sub.channel))
  }

  function LocalStep(m: Mine, op: Local): Mine {
    match op
    case Nothing => m
    case Offer(e) =>
      var (c, o) := TrySend(m.channel, e);
      Mine(match o case Delivered => 0 case Full => m.counter + 1 case Closed => m.counter,
           m.log + [Attempt(e, o)], c)
    case Take =>
      if m.channel.queue == [] then m
      else m.(channel :=
        m.channel.(queue := m.channel.queue[1..], received := m.channel.received + [m.channel.queue[0]]))
    case Shut => m.(channel := m.channel.(open := false))
  }

  /** The part of a step that concerns one subscriber. */
  function LocalPart(s: Sys, a: Action, sub: Subscriber): Local
    requires Enabled(s, a)
  {
    match a
    case SendNext => if s.dispatcher.snapshot[s.dispatcher.next] == sub then Offer(s.dispatcher.event) else Nothing
    case Receive(c) => if c == sub.channel then Take else Nothing
    case CloseReceiver(c) => if c == sub.channel then Shut else Nothing
    case _ => Nothing
  }

  /** The counter counts the full channels since the last delivery, and the channel holds
      or has handed out exactly what was delivered, in order. */
  predicate LocalInv(m: Mine) {
    && m.counter == Trailing(m.log)
    && m.channel.received + m.channel.queue == DeliveredOf(m.log)
  }

  lemma LocalStepInv(m: Mine, op: Local)
    requires LocalInv(m)
    ensures LocalInv(LocalStep(m, op))
  {
    if op.Offer? {
      var (c, o) := TrySend(m.channel, op.event);
      LogGrows(m.log, Attempt(op.event, o));
      hide Trailing, EventsOf, DeliveredOf;
    } else {
      hide Trailing, DeliveredOf;
    }
  }

  // ---- the invariant ----

  ghost predicate EntriesDistinct(s: Sys) {
    forall i, j :: i in s.books.registry && j in s.books.registry && i != j ==>
      && s.books.registry[i].sub.slot != s.books.registry[j].sub.slot
      && s.books.registry[i].sub.channel != s.books.registry[j].sub.channel
  }

  ghost predicate EntriesKept(s: Sys) {
    forall id :: id in s.books.registry ==>
      && s.books.registry[id].sub.id == id
      && s.books.registry[id].sub.slot < s.router.nextSlot
      && s.books.registry[id].sub.channel in s.router.channels
      && LocalInv(MineOf(s, s.books.registry[id].sub))
  }

  predicate Known(s: Sys, kind: Kind, sub: Subscriber) {
    && sub.id in s.books.registry
    && s.books.registry[sub.id].kind == kind
    && s.books.registry[sub.id].sub == sub
  }

  ghost predicate ListsKnown(s: Sys) {
    forall kind :: kind in s.router.subs ==>
      && DistinctIds(s.router.subs[kind])
      && forall sub :: sub in s.router.subs[kind] ==> Known(s, kind, sub)
  }

  predicate Registered(s: Sys, kind: Kind, sub: Subscriber) {
    sub in ListOf(s.router.subs, kind)
  }

  predicate Pending(s: Sys, sub: Subscriber) {
    && s.dispatcher.Sending? && s.dispatcher.next <= |s.dispatcher.snapshot|
    && sub in s.dispatcher.snapshot[s.dispatcher.next..]
  }

  predicate Sent(s: Sys, sub: Subscriber) {
    && s.dispatcher.Sending? && s.dispatcher.next <= |s.dispatcher.snapshot|
    && sub in s.dispatcher.snapshot[..s.dispatcher.next]
  }

  /** Its channel was closed at its last send, or it has reached the drop threshold. */
  predicate Doomed(s: Sys, sub: Subscriber) {
    EndsClosed(Log(s.books, sub.slot)) || Trailing(Log(s.books, sub.slot)) >= s.router.limits.maxDrops
  }

  function Tail(all: seq<Event>, since: nat): seq<Event> {
    if since <= |all| then all[since..] else []
  }

  /** A subscriber still registered, or still to be sent to, has been offered every event
      of its type since it subscribed but the one on its way. */
  ghost predicate EntryStory(s: Sys, id: SubscriberId)
    requires id in s.books.registry
  {
    var e := s.books.registry[id];
    var all := Tail(Published(s.books, e.kind), e.since);
    var offered := EventsOf(Log(s.books, e.sub.slot));
    && e.since <= |Published(s.books, e.kind)|
    && offered <= all
    && (Registered(s, e.kind, e.sub) || Pending(s, e.sub) ==>
          offered + (if Pending(s, e.sub) then [s.dispatcher.event] else []) == all)
    && (Registered(s, e.kind, e.sub) && Doomed(s, e.sub) ==> Sent(s, e.sub))
  }

  ghost predicate Stories(s: Sys) {
    forall id :: id in s.books.registry ==> EntryStory(s, id)
  }

  ghost predicate SnapshotKnown(s: Sys) {
    s.dispatcher.Sending? ==>
      && s.dispatcher.next <= |s.dispatcher.snapshot|
      && DistinctIds(s.dispatcher.snapshot)
      && (forall sub :: sub in s.dispatcher.snapshot ==> Known(s, s.dispatcher.kind, sub))
      && (forall sub :: sub in s.dispatcher.snapshot ==>
            (sub.id in s.dispatcher.gone <==> Sent(s, sub) && Doomed(s, sub)))
      && (forall id :: id in s.dispatcher.gone ==> exists sub :: sub in s.dispatcher.snapshot && sub.id == id)
  }

  ghost predicate History(s: Sys) {
    && 1 <= s.router.limits.maxDrops
    && EntriesDistinct(s) && EntriesKept(s) && ListsKnown(s) && SnapshotKnown(s) && Stories(s)
  }

  // ---- isolation: a step touches a subscriber only through its own part ----

  lemma MineSend(s: Sys, id: SubscriberId)
    requires EntriesDistinct(s) && SnapshotKnown(s) && Enabled(s, SendNext) && id in s.books.registry
    requires s.books.registry[id].sub.id == id
    ensures MineOf(ApplySend(s), s.books.registry[id].sub)
         == LocalStep(MineOf(s, s.books.registry[id].sub), LocalPart(s, SendNext, s.books.registry[id].sub))
  {
    var sub := s.books.registry[id].sub;
    var other := s.dispatcher.snapshot[s.dispatcher.next];
    assert Known(s, s.dispatcher.kind, other);
    if other != sub {
      assert other.id != id;
      assert s.books.registry[other.id].sub.slot != sub.slot;
    }
  }

  lemma MineOther(s: Sys, a: Action, sub: Subscriber)
    requires Enabled(s, a) && !a.SendNext? && sub.slot < s.router.nextSlot && sub.channel in s.router.channels
    ensures MineOf(Apply(s, a), sub) == LocalStep(MineOf(s, sub), LocalPart(s, a, sub))
  {
    if a.Subscribe? {
      var r := ApplySubscribe(s, a.kind, a.id, a.channel);
      assert Counter(r.router, sub.slot) == Counter(s.router, sub.slot);
    }
  }

  /** Whatever the others do, a subscriber's counter, attempts and channel change only by
      its own sends and its own receiver. */
  lemma MineStep(s: Sys, a: Action, id: SubscriberId)
    requires EntriesDistinct(s) && EntriesKept(s) && SnapshotKnown(s) && Enabled(s, a) && Disciplined(s, a)
    requires id in s.books.registry
    ensures MineOf(Apply(s, a), s.books.registry[id].sub)
         == LocalStep(MineOf(s, s.books.registry[id].sub), LocalPart(s, a, s.books.registry[id].sub))
  {
    if a.SendNext? {
      MineSend(s, id);
    } else {
      MineOther(s, a, s.books.registry[id].sub);
    }
  }

  lemma RegistryGrows(s: Sys, a: Action, id: SubscriberId)
    requires Enabled(s, a) && Disciplined(s, a) && id in s.books.registry
    ensures id in Apply(s, a).books.registry && Apply(s, a).books.registry[id] == s.books.registry[id]
  {
  }

  lemma EntriesDistinctStep(s: Sys, a: Action)
    requires EntriesDistinct(s) && EntriesKept(s) && Enabled(s, a) && Disciplined(s, a)
    ensures EntriesDistinct(Apply(s, a))
  {
    hide LocalInv;
    if a.Subscribe? {
      var r := ApplySubscribe(s, a.kind, a.id, a.channel);
      assert r != s ==> r.books.registry == s.books.registry[a.id := r.books.registry[a.id]];
    } else {
      SameRegistry(s, a);
    }
  }

  lemma SameRegistry(s: Sys, a: Action)
    requires Enabled(s, a) && !a.Subscribe?
    ensures Apply(s, a).books.registry == s.books.registry
  {
  }

  lemma FrameOfEntries(s: Sys, a: Action)
    requires Enabled(s, a)
    ensures s.router.nextSlot <= Apply(s, a).router.nextSlot
    ensures s.router.channels.Keys <= Apply(s, a).router.channels.Keys
  {
  }

  /** A new subscription starts with a clean log on an unused channel. */
  lemma NewEntryKept(s: Sys, kind: Kind, id: SubscriberId, c: ChannelId)
    requires id !in s.books.registry && UnusedChannel(s, c)
    requires id in ApplySubscribe(s, kind, id, c).books.registry
    ensures var r := ApplySubscribe(s, kind, id, c); var sub := r.books.registry[id].sub;
            sub.id == id && sub.slot < r.router.nextSlot && sub.channel in r.router.channels && LocalInv(MineOf(r, sub))
  {
  }

  lemma EntriesKeptStep(s: Sys, a: Action)
    requires EntriesDistinct(s) && EntriesKept(s) && SnapshotKnown(s) && Enabled(s, a) && Disciplined(s, a)
    ensures EntriesKept(Apply(s, a)) && EntriesDistinct(Apply(s, a))
  {
    EntriesDistinctStep(s, a);
    FrameOfEntries(s, a);
    hide Apply, LocalInv, EntriesDistinct, SnapshotKnown, LocalStep, LocalPart, MineOf;
    var r := Apply(s, a);
    forall id | id in r.books.registry
      ensures r.books.registry[id].sub.id == id
      ensures r.books.registry[id].sub.slot < r.router.nextSlot
      ensures r.books.registry[id].sub.channel in r.router.channels
      ensures LocalInv(MineOf(r, r.books.registry[id].sub))
    {
      if id in s.books.registry {
        RegistryGrows(s, a, id);
        MineStep(s, a, id);
        LocalStepInv(MineOf(s, s.books.registry[id].sub), LocalPart(s, a, s.books.registry[id].sub));
      } else {
        NewIdIsSubscribed(s, a, id);
        NewEntryKept(s, a.kind, id, a.channel);
      }
    }
  }

  lemma NewIdIsSubscribed(s: Sys, a: Action, id: SubscriberId)
    requires Enabled(s, a) && id !in s.books.registry && id in Apply(s, a).books.registry
    ensures a.Subscribe? && a.id == id && Apply(s, a) == ApplySubscribe(s, a.kind, id, a.channel)
  {
  }

  // ---- the lists and the snapshot ----

  /** Removal by id from known lists. */
  lemma ListsKnownRemove(s: Sys, r: Sys, kind: Kind, gone: set<SubscriberId>)
    requires ListsKnown(s) && r.router.subs == Remove(s.router, kind, gone).subs
    requires r.books.registry == s.books.registry
    ensures ListsKnown(r)
    ensures forall k, sub :: Registered(r, k, sub) <==> Registered(s, k, sub) && !(k == kind && sub.id in gone)
  {
    if kind in s.router.subs {
      KeepOrder(s.router.subs[kind], gone);
    }
  }

  lemma ListsKnownSubscribe(s: Sys, kind: Kind, id: SubscriberId, c: ChannelId)
    requires ListsKnown(s) && id !in s.books.registry
    ensures ListsKnown(ApplySubscribe(s, kind, id, c))
  {
    var r := ApplySubscribe(s, kind, id, c);
    if r != s {
      forall k | k in r.router.subs
        ensures DistinctIds(r.router.subs[k]) && forall sub :: sub in r.router.subs[k] ==> Known(r, k, sub)
      {
        if k in s.router.subs {
          var list := s.router.subs[k];
          forall i | 0 <= i < |list| ensures Known(s, k, list[i]) && Known(r, k, list[i]) && list[i].id != id {
            assert list[i] in list;
          }
        }
      }
    }
  }

  lemma ListsKnownStep(s: Sys, a: Action)
    requires ListsKnown(s) && Enabled(s, a) && Disciplined(s, a)
    ensures ListsKnown(Apply(s, a))
  {
    var r := Apply(s, a);
    if a.Subscribe? {
      ListsKnownSubscribe(s, a.kind, a.id, a.channel);
    } else if a.Unsubscribe? {
      ListsKnownRemove(s, r, a.kind, {a.id});
    } else if a.Finish? {
      if s.dispatcher.gone != {} {
        ListsKnownRemove(s, r, s.dispatcher.kind, s.dispatcher.gone);
      }
    } else {
      assert r.router.subs == s.router.subs && r.books.registry == s.books.registry;
    }
  }

  lemma SnapshotKnownSend(s: Sys)
    requires SnapshotKnown(s) && Enabled(s, SendNext)
    requires EntriesKept(s) && EntriesDistinct(s) && 1 <= s.router.limits.maxDrops
    ensures SnapshotKnown(ApplySend(s))
  {
    var r := ApplySend(s);
    var d := s.dispatcher;
    var now := d.snapshot[d.next];
    assert d.snapshot[..d.next + 1] == d.snapshot[..d.next] + [now];
    assert now !in d.snapshot[..d.next];
    SendDooms(s);
    forall sub | sub in d.snapshot
      ensures sub.id in r.dispatcher.gone <==> Sent(r, sub) && Doomed(r, sub)
    {
      if sub == now {
        assert !Sent(s, now);
      } else {
        assert Known(s, d.kind, sub) && Known(s, d.kind, now);
        var i :| 0 <= i < |d.snapshot| && d.snapshot[i] == sub;
        assert sub.id != now.id;
        assert s.books.registry[sub.id].sub.slot != s.books.registry[now.id].sub.slot;
        assert Log(r.books, sub.slot) == Log(s.books, sub.slot);
      }
    }
  }

  /** The loop condemns a subscriber exactly when its send leaves it doomed. */
  lemma SendDooms(s: Sys)
    requires Enabled(s, SendNext) && SnapshotKnown(s) && EntriesKept(s) && 1 <= s.router.limits.maxDrops
    ensures var now := s.dispatcher.snapshot[s.dispatcher.next];
            Condemned(s.router, now, s.dispatcher.event) <==> Doomed(ApplySend(s), now)
  {
    var now := s.dispatcher.snapshot[s.dispatcher.next];
    assert Known(s, s.dispatcher.kind, now);
    assert LocalInv(MineOf(s, s.books.registry[now.id].sub));
    LogGrows(Log(s.books, now.slot), Attempt(s.dispatcher.event, OutcomeFor(s.router, now, s.dispatcher.event)));
  }

  lemma SnapshotKnownBegin(s: Sys, kind: Kind, e: Event)
    requires ListsKnown(s) && s.dispatcher.Quiet?
    ensures SnapshotKnown(ApplyBegin(s, kind, e))
  {
    var r := ApplyBegin(s, kind, e);
    if r.dispatcher.Sending? {
      assert forall sub :: sub in s.router.subs[kind] ==> Known(s, kind, sub) && Known(r, kind, sub);
    }
  }

  /** Between the phases of a dispatch nothing that the loop has seen changes. */
  lemma OtherFrame(s: Sys, a: Action)
    requires Enabled(s, a) && Disciplined(s, a) && !a.SendNext? && !a.Begin?
    ensures var r := Apply(s, a);
            && (r.dispatcher.Sending? ==> r.dispatcher == s.dispatcher)
            && (forall id :: id in s.books.registry ==>
               id in r.books.registry && r.books.registry[id] == s.books.registry[id])
            && (forall slot: nat :: slot < s.router.nextSlot ==> Log(r.books, slot) == Log(s.books, slot))
            && r.router.limits == s.router.limits
  {
  }

  lemma SnapshotKnownOther(s: Sys, a: Action)
    requires SnapshotKnown(s) && EntriesKept(s) && Enabled(s, a) && Disciplined(s, a)
    requires !a.SendNext? && !a.Begin?
    ensures SnapshotKnown(Apply(s, a))
  {
    OtherFrame(s, a);
    hide Apply, Enabled, Disciplined, LocalInv, MineOf;
    var r := Apply(s, a);
    if r.dispatcher.Sending? {
      var d := s.dispatcher;
      forall sub | sub in d.snapshot
        ensures Known(r, d.kind, sub) && (Sent(r, sub) <==> Sent(s, sub)) && (Doomed(r, sub) <==> Doomed(s, sub))
      {
        assert Known(s, d.kind, sub);
        assert s.books.registry[sub.id].sub.slot < s.router.nextSlot;
      }
    }
  }

  lemma SnapshotKnownStep(s: Sys, a: Action)
    requires History(s) && Enabled(s, a) && Disciplined(s, a)
    ensures SnapshotKnown(Apply(s, a))
  {
    if a.SendNext? {
      SnapshotKnownSend(s);
    } else if a.Begin? {
      SnapshotKnownBegin(s, a.kind, a.event);
    } else {
      SnapshotKnownOther(s, a);
    }
  }

  // ---- the story of every subscription ----

  lemma StrangerIsNotPending(s: Sys, sub: Subscriber)
    requires SnapshotKnown(s) && sub.id !in s.books.registry
    ensures !Pending(s, sub)
  {
    assert s.dispatcher.Sending? ==> forall x :: x in s.dispatcher.snapshot ==> x.id in s.books.registry;
  }

  lemma StorySubscribe(s: Sys, kind: Kind, id: SubscriberId, c: ChannelId, i: SubscriberId)
    requires History(s) && id !in s.books.registry
    requires i in ApplySubscribe(s, kind, id, c).books.registry
    ensures EntryStory(ApplySubscribe(s, kind, id, c), i)
  {
    HistoryParts(s);
    hide History, EntryStory;
    if i in s.books.registry {
      StoryOfOthers(s, kind, id, c, i);
    } else {
      StoryOfNew(s, kind, id, c, i);
    }
  }

  lemma StoryOfOthers(s: Sys, kind: Kind, id: SubscriberId, c: ChannelId, i: SubscriberId)
    requires EntriesKept(s) && Stories(s) && id !in s.books.registry && i in s.books.registry
    ensures i in ApplySubscribe(s, kind, id, c).books.registry && EntryStory(ApplySubscribe(s, kind, id, c), i)
  {
    hide LocalInv;
    var r := ApplySubscribe(s, kind, id, c);
    assert EntryStory(s, i);
    var e := s.books.registry[i];
    assert e.sub.id == i && e.sub.slot < s.router.nextSlot;
    if r != s {
      assert r.router.subs[kind] == ListOf(s.router.subs, kind) + [Subscriber(id, c, s.router.nextSlot)];
      assert Registered(r, e.kind, e.sub) <==> Registered(s, e.kind, e.sub);
    }
  }

  lemma StoryOfNew(s: Sys, kind: Kind, id: SubscriberId, c: ChannelId, i: SubscriberId)
    requires SnapshotKnown(s) && 1 <= s.router.limits.maxDrops && id !in s.books.registry && i !in s.books.registry
    requires i in ApplySubscribe(s, kind, id, c).books.registry
    ensures EntryStory(ApplySubscribe(s, kind, id, c), i)
  {
    StrangerIsNotPending(s, ApplySubscribe(s, kind, id, c).books.registry[i].sub);
    hide SnapshotKnown;
  }

  lemma BeginFacts(s: Sys, kind: Kind, e: Event, k: Kind, sub: Subscriber)
    requires s.dispatcher.Quiet?
    ensures var r := ApplyBegin(s, kind, e);
            && (Registered(r, k, sub) <==> Registered(s, k, sub))
            && (Pending(r, sub) <==> Registered(s, kind, sub))
            && (Pending(r, sub) ==> r.dispatcher.event == e)
            && r.books.registry == s.books.registry
            && Log(r.books, sub.slot) == Log(s.books, sub.slot)
            && (Doomed(r, sub) <==> Doomed(s, sub))
            && Published(r.books, k) == Published(s.books, k) + (if k == kind then [e] else [])
  {
    var r := ApplyBegin(s, kind, e);
    var list := ListOf(s.router.subs, kind);
    assert list[0..] == list;
    if k != kind { assert Published(s.books, k) + [] == Published(s.books, k); }
  }

  lemma TailGrows(all: seq<Event>, since: nat, e: Event)
    requires since <= |all|
    ensures Tail(all + [e], since) == Tail(all, since) + [e]
  {
  }

  lemma StoryBeginSame(s: Sys, e: Event, i: SubscriberId)
    requires s.dispatcher.Quiet? && i in s.books.registry && EntryStory(s, i)
    ensures EntryStory(ApplyBegin(s, s.books.registry[i].kind, e), i)
  {
    hide ApplyBegin, Registered, Pending, Doomed;
    var entry := s.books.registry[i];
    BeginFacts(s, entry.kind, e, entry.kind, entry.sub);
    TailGrows(Published(s.books, entry.kind), entry.since, e);
    QuietMeansNotPending(s, entry.sub);
  }

  lemma QuietMeansNotPending(s: Sys, sub: Subscriber)
    requires s.dispatcher.Quiet?
    ensures !Pending(s, sub) && !Sent(s, sub)
  {
  }

  lemma StoryBeginOther(s: Sys, kind: Kind, e: Event, i: SubscriberId)
    requires ListsKnown(s) && s.dispatcher.Quiet? && i in s.books.registry && EntryStory(s, i)
    requires kind != s.books.registry[i].kind && s.books.registry[i].sub.id == i
    ensures EntryStory(ApplyBegin(s, kind, e), i)
  {
    hide ApplyBegin, Pending, Doomed;
    var entry := s.books.registry[i];
    assert Registered(s, kind, entry.sub) ==> Known(s, kind, entry.sub);
    hide ListsKnown, Registered;
    BeginFacts(s, kind, e, entry.kind, entry.sub);
    QuietMeansNotPending(s, entry.sub);
    assert Published(s.books, entry.kind) + [] == Published(s.books, entry.kind);
  }

  lemma StoryBegin(s: Sys, kind: Kind, e: Event, i: SubscriberId)
    requires History(s) && s.dispatcher.Quiet? && i in s.books.registry
    ensures EntryStory(ApplyBegin(s, kind, e), i)
  {
    hide EntriesDistinct, LocalInv, EntryStory, ListsKnown, ApplyBegin;
    if s.books.registry[i].kind == kind {
      StoryBeginSame(s, e, i);
    } else {
      StoryBeginOther(s, kind, e, i);
    }
  }

  lemma SplitAt<T>(xs: seq<T>, i: nat)
    requires i < |xs|
    ensures xs[i..] == [xs[i]] + xs[i + 1..]
    ensures xs[..i + 1] == xs[..i] + [xs[i]]
  {
  }

  /** Of the subscriber whose turn it is. */
  lemma StorySendNow(s: Sys, i: SubscriberId)
    requires SnapshotKnown(s) && Enabled(s, SendNext) && i in s.books.registry && EntryStory(s, i)
    requires s.dispatcher.snapshot[s.dispatcher.next] == s.books.registry[i].sub
    ensures EntryStory(ApplySend(s), i)
  {
    var r := ApplySend(s);
    var d := s.dispatcher;
    var sub := s.books.registry[i].sub;
    SplitAt(d.snapshot, d.next);
    assert Pending(s, sub) && !Pending(r, sub) && Sent(r, sub);
    LogGrows(Log(s.books, sub.slot), Attempt(d.event, OutcomeFor(s.router, sub, d.event)));
  }

  /** Of any other. */
  lemma StorySendOther(s: Sys, i: SubscriberId)
    requires Enabled(s, SendNext) && i in s.books.registry && EntryStory(s, i)
    requires s.dispatcher.snapshot[s.dispatcher.next].slot != s.books.registry[i].sub.slot
    ensures EntryStory(ApplySend(s), i)
  {
    var r := ApplySend(s);
    var d := s.dispatcher;
    var sub := s.books.registry[i].sub;
    var now := d.snapshot[d.next];
    SplitAt(d.snapshot, d.next);
    assert Log(r.books, sub.slot) == Log(s.books, sub.slot);
    assert Pending(r, sub) <==> Pending(s, sub);
    assert Sent(r, sub) <==> Sent(s, sub);
  }

  lemma StorySend(s: Sys, i: SubscriberId)
    requires History(s) && Enabled(s, SendNext) && i in s.books.registry
    ensures EntryStory(ApplySend(s), i)
  {
    hide LocalInv, ListsKnown, EntryStory, ApplySend;
    var now := s.dispatcher.snapshot[s.dispatcher.next];
    assert Known(s, s.dispatcher.kind, now);
    if s.books.registry[i].sub == now {
      StorySendNow(s, i);
    } else {
      assert now.id != i;
      StorySendOther(s, i);
    }
  }

  /** Who was sent to and is doomed is on the eviction list. */
  lemma SentAndDoomed(s: Sys, i: SubscriberId)
    requires SnapshotKnown(s) && EntriesKept(s) && Enabled(s, Finish) && i in s.books.registry
    ensures var e := s.books.registry[i];
            && !Pending(s, e.sub)
            && (Sent(s, e.sub) && Doomed(s, e.sub) ==> e.kind == s.dispatcher.kind && e.sub.id in s.dispatcher.gone)
  {
    hide LocalInv, Doomed;
    var e := s.books.registry[i];
    assert s.dispatcher.snapshot[..s.dispatcher.next] == s.dispatcher.snapshot;
    assert Sent(s, e.sub) ==> Known(s, s.dispatcher.kind, e.sub);
  }

  lemma FinishRemoves(s: Sys, k: Kind, sub: Subscriber)
    requires ListsKnown(s) && Enabled(s, Finish)
    ensures Registered(ApplyFinish(s), k, sub) <==>
              Registered(s, k, sub) && !(k == s.dispatcher.kind && sub.id in s.dispatcher.gone)
  {
    if s.dispatcher.gone != {} {
      ListsKnownRemove(s, ApplyFinish(s), s.dispatcher.kind, s.dispatcher.gone);
    }
  }

  lemma StoryFinish(s: Sys, i: SubscriberId)
    requires History(s) && Enabled(s, Finish) && i in s.books.registry
    ensures EntryStory(ApplyFinish(s), i)
  {
    HistoryParts(s);
    SentAndDoomed(s, i);
    FinishRemoves(s, s.books.registry[i].kind, s.books.registry[i].sub);
    assert EntryStory(s, i);
    hide History, EntriesKept, ListsKnown, SnapshotKnown, Stories, Registered;
  }

  lemma StoryUnsubscribe(s: Sys, kind: Kind, id: SubscriberId, i: SubscriberId)
    requires History(s) && i in s.books.registry
    ensures EntryStory(ApplyUnsubscribe(s, kind, id), i)
  {
    hide LocalInv, EntriesDistinct;
    assert EntryStory(s, i);
    ListsKnownRemove(s, ApplyUnsubscribe(s, kind, id), kind, {id});
  }

  lemma StoriesStep(s: Sys, a: Action)
    requires History(s) && Enabled(s, a) && Disciplined(s, a)
    ensures Stories(Apply(s, a))
  {
    var r := Apply(s, a);
    forall i | i in r.books.registry ensures EntryStory(r, i) {
      match a
      case Subscribe(kind, id, c) => StorySubscribe(s, kind, id, c, i);
      case Unsubscribe(kind, id) => StoryUnsubscribe(s, kind, id, i);
      case Begin(kind, e) => StoryBegin(s, kind, e, i);
      case SendNext => StorySend(s, i);
      case Finish => StoryFinish(s, i);
      case _ => StoryOther(s, a, i);
    }
  }

  lemma StoryOther(s: Sys, a: Action, i: SubscriberId)
    requires Stories(s) && Enabled(s, a) && (a.OpenChannel? || a.Receive? || a.CloseReceiver?)
    requires i in s.books.registry
    ensures EntryStory(Apply(s, a), i)
  {
    assert EntryStory(s, i);
  }

  lemma LimitsStep(s: Sys, a: Action)
    requires Enabled(s, a)
    ensures Apply(s, a).router.limits == s.router.limits
  {
  }

  lemma HistoryParts(s: Sys)
    requires History(s)
    ensures 1 <= s.router.limits.maxDrops && EntriesDistinct(s) && EntriesKept(s) && ListsKnown(s)
        && SnapshotKnown(s) && Stories(s)
  {
  }

  lemma HistoryStep(s: Sys, a: Action)
    requires History(s) && Enabled(s, a) && Disciplined(s, a)
    ensures History(Apply(s, a))
  {
    hide Apply, EntriesDistinct, EntriesKept, ListsKnown, SnapshotKnown, Stories;
    LimitsStep(s, a);
    EntriesKeptStep(s, a);
    ListsKnownStep(s, a);
    SnapshotKnownStep(s, a);
    StoriesStep(s, a);
  }

  lemma {:induction false} HistoryRun(s: Sys, run: seq<Action>)
    requires History(s) && ValidRun(s, run) && DisciplinedRun(s, run)
    ensures History(Exec(s, run))
    decreases |run|
  {
    if run != [] {
      hide History, Apply;
      HistoryStep(s, run[0]);
      HistoryRun(Apply(s, run[0]), run[1..]);
    }
  }

  lemma NewHistory(limits: RouterLimits)
    ensures History(New(limits))
  {
  }

  // ---- main results ----

  /** Drop counters: a subscriber's counter is the number of full-channel failures since
      its last delivery, and between dispatches every registered subscriber is below the
      threshold and has not been found closed. */
  lemma DropCountersAreTrailingFailures(limits: RouterLimits, run: seq<Action>, id: SubscriberId)
    requires ValidRun(New(limits), run) && DisciplinedRun(New(limits), run)
    requires id in Exec(New(limits), run).books.registry
    ensures var s := Exec(New(limits), run); var e := s.books.registry[id];
            && Counter(s.router, e.sub.slot) == Trailing(Log(s.books, e.sub.slot))
            && (s.dispatcher.Quiet? && Registered(s, e.kind, e.sub) ==>
                  Counter(s.router, e.sub.slot) < AtLeastOne(limits.maxDrops) && !EndsClosed(Log(s.books, e.sub.slot)))
  {
    NewHistory(limits);
    HistoryRun(New(limits), run);
    LimitsNeverChange(New(limits), run);
    var s := Exec(New(limits), run);
    assert LocalInv(MineOf(s, s.books.registry[id].sub));
    assert EntryStory(s, id);
  }

  /** A dispatch evicts exactly the still registered subscribers of its type that its own
      sends found closed or brought to the threshold, and nobody of another type, whoever
      subscribed or unsubscribed between the snapshot and the eviction. */
  lemma EvictionIsExact(limits: RouterLimits, run: seq<Action>, kind: Kind, sub: Subscriber)
    requires ValidRun(New(limits), run) && DisciplinedRun(New(limits), run)
    requires Enabled(Exec(New(limits), run), Finish)
    ensures var s := Exec(New(limits), run);
            Registered(ApplyFinish(s), kind, sub) <==>
              Registered(s, kind, sub) && !(kind == s.dispatcher.kind && sub in s.dispatcher.snapshot && Doomed(s, sub))
    ensures var s := Exec(New(limits), run);
            Registered(s, kind, sub) && Doomed(s, sub) ==> kind == s.dispatcher.kind && sub in s.dispatcher.snapshot
  {
    NewHistory(limits);
    HistoryRun(New(limits), run);
    EvictionFrom(Exec(New(limits), run), kind, sub);
  }

  lemma EvictionFrom(s: Sys, kind: Kind, sub: Subscriber)
    requires History(s) && Enabled(s, Finish)
    ensures Registered(ApplyFinish(s), kind, sub) <==>
              Registered(s, kind, sub) && !(kind == s.dispatcher.kind && sub in s.dispatcher.snapshot && Doomed(s, sub))
    ensures Registered(s, kind, sub) && Doomed(s, sub) ==> kind == s.dispatcher.kind && sub in s.dispatcher.snapshot
  {
    var d := s.dispatcher;
    if d.gone != {} {
      ListsKnownRemove(s, ApplyFinish(s), d.kind, d.gone);
    }
    assert d.snapshot[..d.next] == d.snapshot;
    if Registered(s, kind, sub) {
      assert Known(s, kind, sub) && EntryStory(s, sub.id);
      if sub.id in d.gone {
        var other :| other in d.snapshot && other.id == sub.id;
        assert Known(s, d.kind, other);
      }
    }
  }

  /** What a subscriber is handed: the events delivered to its channel, received or still
      queued, are exactly its successful sends in order; the events offered to it are an
      initial part of those dispatched to its type since it subscribed, and all of them
      while it is registered and no dispatch is under way. */
  lemma SubscriberSeesItsType(limits: RouterLimits, run: seq<Action>, id: SubscriberId)
    requires ValidRun(New(limits), run) && DisciplinedRun(New(limits), run)
    requires id in Exec(New(limits), run).books.registry
    ensures var s := Exec(New(limits), run); var e := s.books.registry[id];
            var log := Log(s.books, e.sub.slot); var c := Chan(s.router, e.sub.channel);
            var all := Tail(Published(s.books, e.kind), e.since);
            && c.received + c.queue == DeliveredOf(log)
            && EventsOf(log) <= all
            && (s.dispatcher.Quiet? && Registered(s, e.kind, e.sub) ==> EventsOf(log) == all)
  {
    NewHistory(limits);
    HistoryRun(New(limits), run);
    var s := Exec(New(limits), run);
    assert LocalInv(MineOf(s, s.books.registry[id].sub));
    assert EntryStory(s, id);
  }

  // ---- isolation over whole runs ----

  ghost function LocalRun(s: Sys, run: seq<Action>, sub: Subscriber): seq<Local>
    requires ValidRun(s, run)
    decreases |run|
  {
    if run == [] then [] else [LocalPart(s, run[0], sub)] + LocalRun(Apply(s, run[0]), run[1..], sub)
  }

  function LocalExec(m: Mine, ops: seq<Local>): Mine
    decreases |ops|
  {
    if ops == [] then m else LocalExec(LocalStep(m, ops[0]), ops[1..])
  }

  /** A step of the subscriber's receiver, after how many of its sends. */
  datatype ReceiverStep = ReceiverStep(sends: nat, shut: bool)

  function ReceiverSteps(ops: seq<Local>, sends: nat): seq<ReceiverStep>
    decreases |ops|
  {
    if ops == [] then []
    else
      match ops[0]
      case Nothing => ReceiverSteps(ops[1..], sends)
      case Offer(_) => ReceiverSteps(ops[1..], sends + 1)
      case Take => [ReceiverStep(sends, false)] + ReceiverSteps(ops[1..], sends)
      case Shut => [ReceiverStep(sends, true)] + ReceiverSteps(ops[1..], sends)
  }

  function OffersIn(ops: seq<Local>): seq<Event> {
    if ops == [] then [] else (if ops[0].Offer? then [ops[0].event] else []) + OffersIn(ops[1..])
  }

  lemma {:induction false} StepsComeLater(ops: seq<Local>, sends: nat)
    ensures forall i :: 0 <= i < |ReceiverSteps(ops, sends)| ==> sends <= ReceiverSteps(ops, sends)[i].sends
    decreases |ops|
  {
    if ops != [] {
      StepsComeLater(ops[1..], if ops[0].Offer? then sends + 1 else sends);
    }
  }

  /** What is offered and when the receiver acts decide everything. */
  lemma {:induction false} SameOps(m: Mine, ops: seq<Local>, ops': seq<Local>, sends: nat)
    requires ReceiverSteps(ops, sends) == ReceiverSteps(ops', sends) && OffersIn(ops) == OffersIn(ops')
    ensures LocalExec(m, ops) == LocalExec(m, ops')
    decreases |ops| + |ops'|
  {
    if ops != [] && ops[0].Nothing? {
      assert OffersIn(ops) == OffersIn(ops[1..]);
      SameOps(m, ops[1..], ops', sends);
    } else if ops' != [] && ops'[0].Nothing? {
      assert OffersIn(ops') == OffersIn(ops'[1..]);
      SameOps(m, ops, ops'[1..], sends);
    } else if ops != [] && ops' != [] {
      SameHead(ops, ops', sends);
      hide LocalStep;
      SameOps(LocalStep(m, ops[0]), ops[1..], ops'[1..], if ops[0].Offer? then sends + 1 else sends);
    }
  }

  lemma SameHead(ops: seq<Local>, ops': seq<Local>, sends: nat)
    requires ops != [] && ops' != [] && !ops[0].Nothing? && !ops'[0].Nothing?
    requires ReceiverSteps(ops, sends) == ReceiverSteps(ops', sends) && OffersIn(ops) == OffersIn(ops')
    ensures ops[0] == ops'[0] && OffersIn(ops[1..]) == OffersIn(ops'[1..])
    ensures var next := if ops[0].Offer? then sends + 1 else sends;
            ReceiverSteps(ops[1..], next) == ReceiverSteps(ops'[1..], next)
  {
    StepsComeLater(ops[1..], sends + 1);
    StepsComeLater(ops'[1..], sends + 1);
    var steps, steps' := ReceiverSteps(ops, sends), ReceiverSteps(ops', sends);
    assert ops[0].Offer? ==> steps == ReceiverSteps(ops[1..], sends + 1);
    assert ops'[0].Offer? ==> steps' == ReceiverSteps(ops'[1..], sends + 1);
    assert !ops[0].Offer? ==>
      steps[0] == ReceiverStep(sends, ops[0].Shut?) && steps[1..] == ReceiverSteps(ops[1..], sends);
    assert !ops'[0].Offer? ==>
      steps'[0] == ReceiverStep(sends, ops'[0].Shut?) && steps'[1..] == ReceiverSteps(ops'[1..], sends);
    assert ops[0].Offer? == ops'[0].Offer?;
    if ops[0].Offer? {
      assert OffersIn(ops)[1..] == OffersIn(ops[1..]) && OffersIn(ops')[1..] == OffersIn(ops'[1..]);
    } else {
      assert OffersIn(ops) == OffersIn(ops[1..]) && OffersIn(ops') == OffersIn(ops'[1..]);
    }
  }

  lemma {:induction false} OffersAreLogged(m: Mine, ops: seq<Local>)
    ensures EventsOf(LocalExec(m, ops).log) == EventsOf(m.log) + OffersIn(ops)
    decreases |ops|
  {
    if ops != [] {
      if ops[0].Offer? { LogGrows(m.log, Attempt(ops[0].event, TrySend(m.channel, ops[0].event).1)); }
      OffersAreLogged(LocalStep(m, ops[0]), ops[1..]);
    }
  }

  lemma {:induction false} EventCount(log: seq<Attempt>)
    ensures |EventsOf(log)| == |log|
  {
    if log != [] { EventCount(log[..|log| - 1]); }
  }

  /** The events of its type that a subscription has seen published. */
  function EventsFor(s: Sys, id: SubscriberId): seq<Event>
    requires id in s.books.registry
  {
    Tail(Published(s.books, s.books.registry[id].kind), s.books.registry[id].since)
  }

  /** Registered, and not among those a dispatch has still to send to. */
  predicate Settled(s: Sys, id: SubscriberId)
    requires id in s.books.registry
  {
    Registered(s, s.books.registry[id].kind, s.books.registry[id].sub) && !Pending(s, s.books.registry[id].sub)
  }

  lemma {:induction false} EntryStays(s: Sys, run: seq<Action>, id: SubscriberId)
    requires ValidRun(s, run) && DisciplinedRun(s, run) && id in s.books.registry
    ensures id in Exec(s, run).books.registry && Exec(s, run).books.registry[id] == s.books.registry[id]
    decreases |run|
  {
    if run != [] {
      RegistryGrows(s, run[0], id);
      hide Apply;
      EntryStays(Apply(s, run[0]), run[1..], id);
    }
  }

  /** The events a subscriber was offered: the first of its type, and all of them while it
      is settled. */
  lemma OfferedEvents(s: Sys, id: SubscriberId)
    requires History(s) && id in s.books.registry
    ensures var log := Log(s.books, s.books.registry[id].sub.slot);
            && EventsOf(log) <= EventsFor(s, id) && |EventsOf(log)| == |log|
            && (Settled(s, id) ==> EventsOf(log) == EventsFor(s, id))
  {
    assert EntryStory(s, id);
    EventCount(Log(s.books, s.books.registry[id].sub.slot));
  }

  lemma {:induction false} MineRun(s: Sys, run: seq<Action>, id: SubscriberId)
    requires History(s) && ValidRun(s, run) && DisciplinedRun(s, run) && id in s.books.registry
    ensures MineOf(Exec(s, run), s.books.registry[id].sub)
         == LocalExec(MineOf(s, s.books.registry[id].sub), LocalRun(s, run, s.books.registry[id].sub))
    decreases |run|
  {
    if run != [] {
      hide History, Apply, LocalPart, LocalStep, MineOf;
      HistoryParts(s);
      HistoryStep(s, run[0]);
      RegistryGrows(s, run[0], id);
      MineStep(s, run[0], id);
      MineRun(Apply(s, run[0]), run[1..], id);
      assert LocalRun(s, run, s.books.registry[id].sub)[1..]
        == LocalRun(Apply(s, run[0]), run[1..], s.books.registry[id].sub);
    }
  }

  /** Isolation: take two subscribers in two runs, whatever their ids and whoever else is
      subscribed, that start with equal channels and logs. If as many events of the type
      were published since each subscribed, and the same, and each receiver took and closed
      after the same numbers of sends, then they end with the same drop counter, the same
      attempts with the same outcomes and the same channel: when both are settled, and also
      when both were sent to equally often. */
  lemma SubscribersAreIsolated(
      s: Sys, run: seq<Action>, id: SubscriberId, s': Sys, run': seq<Action>, id': SubscriberId)
    requires History(s) && ValidRun(s, run) && DisciplinedRun(s, run) && id in s.books.registry
    requires History(s') && ValidRun(s', run') && DisciplinedRun(s', run') && id' in s'.books.registry
    requires MineOf(s, s.books.registry[id].sub) == MineOf(s', s'.books.registry[id'].sub)
    requires id in Exec(s, run).books.registry && id' in Exec(s', run').books.registry
    requires EventsFor(Exec(s, run), id) == EventsFor(Exec(s', run'), id')
    requires ReceiverSteps(LocalRun(s, run, s.books.registry[id].sub), 0)
          == ReceiverSteps(LocalRun(s', run', s'.books.registry[id'].sub), 0)
    requires (Settled(Exec(s, run), id) && Settled(Exec(s', run'), id')) ||
             |Log(Exec(s, run).books, s.books.registry[id].sub.slot)|
             == |Log(Exec(s', run').books, s'.books.registry[id'].sub.slot)|
    ensures MineOf(Exec(s, run), s.books.registry[id].sub) == MineOf(Exec(s', run'), s'.books.registry[id'].sub)
  {
    var sub, sub' := s.books.registry[id].sub, s'.books.registry[id'].sub;
    var ops, ops' := LocalRun(s, run, sub), LocalRun(s', run', sub');
    EntryStays(s, run, id);
    EntryStays(s', run', id');
    HistoryRun(s, run);
    HistoryRun(s', run');
    OfferedEvents(Exec(s, run), id);
    OfferedEvents(Exec(s', run'), id');
    MineRun(s, run, id);
    MineRun(s', run', id');
    var m := MineOf(s, sub);
    OffersAreLogged(m, ops);
    OffersAreLogged(m, ops');
    SameEvents(m, ops, ops', EventsFor(Exec(s, run), id));
    hide History, LocalRun, ReceiverSteps, OffersIn, LocalExec, Exec;
    SameOps(m, ops, ops', 0);
  }

  /** Two initial parts of one sequence that are equally long. */
  lemma SameEvents(m: Mine, ops: seq<Local>, ops': seq<Local>, all: seq<Event>)
    requires EventsOf(LocalExec(m, ops).log) == EventsOf(m.log) + OffersIn(ops) <= all
    requires EventsOf(LocalExec(m, ops').log) == EventsOf(m.log) + OffersIn(ops') <= all
    ensures |EventsOf(LocalExec(m, ops).log)| == |EventsOf(LocalExec(m, ops').log)| ==> OffersIn(ops) == OffersIn(ops')
  {
    var a, b, e := OffersIn(ops), OffersIn(ops'), EventsOf(m.log);
    hide OffersIn, EventsOf, LocalExec;
    if |e + a| == |e + b| {
      assert a == (e + a)[|e|..] && b == (e + b)[|e|..];
      assert e + a == all[..|e + a|] && e + b == all[..|e + b|];
    }
  }

  // ---- the discipline of the handlers ----

  /** Every subscription of the run brings an id and a channel of its own. */
  ghost predicate OwnIdsAndChannels(run: seq<Action>) {
    forall i, j :: 0 <= i < j < |run| && run[i].Subscribe? && run[j].Subscribe? ==>
      run[i].id != run[j].id && run[i].channel != run[j].channel
  }

  /** A channel nobody has subscribed with is empty and was never received from. */
  ghost predicate IdleChannels(s: Sys) {
    forall c :: c in s.router.channels && NobodyHas(s, c) ==>
      s.router.channels[c].queue == [] && s.router.channels[c].received == []
  }

  ghost predicate StillOwn(s: Sys, run: seq<Action>) {
    forall i :: 0 <= i < |run| && run[i].Subscribe? ==>
      run[i].id !in s.books.registry && NobodyHas(s, run[i].channel)
  }

  lemma IdleChannelsStep(s: Sys, a: Action)
    requires IdleChannels(s) && SnapshotKnown(s) && Enabled(s, a) && Disciplined(s, a)
    ensures IdleChannels(Apply(s, a))
  {
    forall id | id in s.books.registry
      ensures id in Apply(s, a).books.registry && Apply(s, a).books.registry[id] == s.books.registry[id]
    {
      RegistryGrows(s, a, id);
    }
    if a.SendNext? {
      assert Known(s, s.dispatcher.kind, s.dispatcher.snapshot[s.dispatcher.next]);
    }
  }

  lemma StillOwnStep(s: Sys, run: seq<Action>)
    requires run != [] && Enabled(s, run[0]) && OwnIdsAndChannels(run) && StillOwn(s, run)
    ensures StillOwn(Apply(s, run[0]), run[1..]) && OwnIdsAndChannels(run[1..])
  {
    var r := Apply(s, run[0]);
    assert forall id :: id in r.books.registry && id !in s.books.registry ==>
      run[0].Subscribe? && id == run[0].id && r.books.registry[id].sub.channel == run[0].channel;
    assert forall id :: id in s.books.registry ==>
      id in r.books.registry && r.books.registry[id] == s.books.registry[id];
  }

  lemma {:induction false} OwnIsDisciplined(s: Sys, run: seq<Action>)
    requires History(s) && IdleChannels(s) && ValidRun(s, run) && OwnIdsAndChannels(run) && StillOwn(s, run)
    ensures DisciplinedRun(s, run)
    decreases |run|
  {
    if run != [] {
      hide EntriesDistinct, EntriesKept, ListsKnown, SnapshotKnown, Stories, Apply;
      assert Disciplined(s, run[0]);
      HistoryStep(s, run[0]);
      IdleChannelsStep(s, run[0]);
      StillOwnStep(s, run);
      hide History, IdleChannels, StillOwn, OwnIdsAndChannels, Disciplined;
      OwnIsDisciplined(Apply(s, run[0]), run[1..]);
    }
  }

  /** The streaming handlers take an id from the counter and make a channel for each call;
      that is all the discipline the results above need. */
  lemma HandlersAreDisciplined(limits: RouterLimits, run: seq<Action>)
    requires ValidRun(New(limits), run) && OwnIdsAndChannels(run)
    ensures DisciplinedRun(New(limits), run)
  {
    NewHistory(limits);
    OwnIsDisciplined(New(limits), run);
  }
}

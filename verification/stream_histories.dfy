/** What the event router does for the streaming calls: a run of `StreamTasks`, seen from
    the router, is a disciplined run of `RouterRuns`, so that the results of
    `RouterHistory` hold for every stream. */
module StreamHistories {
  import opened Wrappers
  import opened Routing
  import opened StreamTasks
  import R = RouterRuns
  import A = StreamAdmission
  import H = RouterHistory

  // ---- the router's side of a run ----

  /** What a step asks of the router. */
  function Moves(w: World, a: Action): seq<R.Action>
    requires Enabled(w, a)
  {
    match a
    case Subscribe(t, kind, channel) =>
      [R.OpenChannel(channel, CHANNEL_CAPACITY), R.Subscribe(kind, w.stages[t].id, channel)]
    case Unsubscribe(t) => [R.Unsubscribe(w.stages[t].kind, w.stages[t].id)]
    case Route(move) => [move]
    case _ => []
  }

  ghost function RouterRun(w: World, run: seq<Action>): seq<R.Action>
    requires ValidRun(w, run)
    decreases |run|
  {
    if run == [] then [] else Moves(w, run[0]) + RouterRun(Apply(w, run[0]), run[1..])
  }

  /** The router gets from `s` to `r` by these moves, and each subscription among them
      brings an id and a channel that nobody else has used. */
  ghost predicate Leads(s: R.Sys, moves: seq<R.Action>, r: R.Sys) {
    R.ValidRun(s, moves) && R.Exec(s, moves) == r && H.DisciplinedRun(s, moves)
  }

  lemma LeadsOne(s: R.Sys, move: R.Action)
    requires R.Enabled(s, move) && H.Disciplined(s, move)
    ensures Leads(s, [move], R.Apply(s, move))
  {
    hide R.Apply, R.Enabled, H.Disciplined;
    var r := R.Apply(s, move);
    assert [move][1..] == [];
    assert R.ValidRun(r, []) && R.Exec(r, []) == r && H.DisciplinedRun(r, []);
  }

  lemma LeadsNone(s: R.Sys)
    ensures Leads(s, [], s)
  {
  }

  lemma LeadsFirst(s: R.Sys, moves: seq<R.Action>, r: R.Sys)
    requires Leads(s, moves, r) && moves != []
    ensures R.Enabled(s, moves[0]) && H.Disciplined(s, moves[0]) && Leads(R.Apply(s, moves[0]), moves[1..], r)
  {
    hide R.Apply, R.Enabled, H.Disciplined;
  }

  lemma {:induction false} LeadsAppend(s: R.Sys, first: seq<R.Action>, r: R.Sys, rest: seq<R.Action>, q: R.Sys)
    requires Leads(s, first, r) && Leads(r, rest, q)
    ensures Leads(s, first + rest, q)
    decreases |first|
  {
    if first == [] {
      assert first + rest == rest;
    } else {
      assert (first + rest)[1..] == first[1..] + rest;
      hide R.Apply, R.Enabled, H.Disciplined;
      LeadsAppend(R.Apply(s, first[0]), first[1..], r, rest, q);
    }
  }

  // ---- one stream ----

  /** A streaming call's subscriber: registered, or condemned by a dispatch that is over. */
  ghost predicate Served(s: R.Sys, kind: Kind, id: SubscriberId) {
    && id in s.books.registry && s.books.registry[id].kind == kind
    && var sub := s.books.registry[id].sub;
       H.Registered(s, kind, sub) || (H.Doomed(s, sub) && !H.Pending(s, sub))
  }

  predicate Drops(move: R.Action, kind: Kind, id: SubscriberId) {
    move == R.Unsubscribe(kind, id)
  }

  lemma ServedSubscribe(s: R.Sys, move: R.Action, kind: Kind, id: SubscriberId)
    requires H.History(s) && R.Enabled(s, move) && H.Disciplined(s, move) && move.Subscribe? && Served(s, kind, id)
    ensures Served(R.Apply(s, move), kind, id)
  {
  }

  /** A send to someone else. */
  lemma OtherSend(s: R.Sys, kind: Kind, sub: Subscriber)
    requires R.Enabled(s, R.SendNext) && sub.slot != s.dispatcher.snapshot[s.dispatcher.next].slot
    ensures var r := R.ApplySend(s);
            && (H.Registered(r, kind, sub) <==> H.Registered(s, kind, sub))
            && (H.Doomed(r, sub) <==> H.Doomed(s, sub))
            && (H.Pending(r, sub) ==> H.Pending(s, sub))
  {
    hide H.Trailing, H.EndsClosed, Condemned, OutcomeFor, Counter, Chan;
    H.SplitAt(s.dispatcher.snapshot, s.dispatcher.next);
    assert R.Log(R.ApplySend(s).books, sub.slot) == R.Log(s.books, sub.slot);
  }

  /** A subscriber that is neither registered nor still to be sent to is not the next one. */
  lemma NotNext(s: R.Sys, sub: Subscriber)
    requires H.EntriesDistinct(s) && H.SnapshotKnown(s) && R.Enabled(s, R.SendNext)
    requires sub.id in s.books.registry && s.books.registry[sub.id].sub == sub && !H.Pending(s, sub)
    ensures sub.slot != s.dispatcher.snapshot[s.dispatcher.next].slot
  {
    var now := s.dispatcher.snapshot[s.dispatcher.next];
    assert H.Known(s, s.dispatcher.kind, now);
    assert now in s.dispatcher.snapshot[s.dispatcher.next..] by { H.SplitAt(s.dispatcher.snapshot, s.dispatcher.next); }
  }

  lemma SendKeepsLists(s: R.Sys)
    requires R.Enabled(s, R.SendNext)
    ensures R.ApplySend(s).router.subs == s.router.subs && R.ApplySend(s).books.registry == s.books.registry
  {
  }

  lemma ServedSend(s: R.Sys, kind: Kind, id: SubscriberId)
    requires H.History(s) && R.Enabled(s, R.SendNext) && Served(s, kind, id)
    ensures Served(R.ApplySend(s), kind, id)
  {
    var sub := s.books.registry[id].sub;
    SendKeepsLists(s);
    if !H.Registered(s, kind, sub) {
      H.HistoryParts(s);
      assert sub.id == id;
      hide H.History, H.EntriesKept, H.ListsKnown, H.Stories, H.EntriesDistinct, H.SnapshotKnown, R.ApplySend;
      hide H.Doomed, H.Pending, H.Registered;
      NotNext(s, sub);
      OtherSend(s, kind, sub);
    }
  }

  lemma ServedFinish(s: R.Sys, kind: Kind, id: SubscriberId)
    requires H.History(s) && R.Enabled(s, R.Finish) && Served(s, kind, id)
    ensures Served(R.ApplyFinish(s), kind, id)
  {
    H.EvictionFrom(s, kind, s.books.registry[id].sub);
  }

  lemma ServedUnsubscribe(s: R.Sys, move: R.Action, kind: Kind, id: SubscriberId)
    requires H.History(s) && move.Unsubscribe? && Served(s, kind, id) && !Drops(move, kind, id)
    ensures Served(R.ApplyUnsubscribe(s, move.kind, move.id), kind, id)
  {
    H.ListsKnownRemove(s, R.ApplyUnsubscribe(s, move.kind, move.id), move.kind, {move.id});
    assert s.books.registry[id].sub.id == id;
  }

  lemma ServedBegin(s: R.Sys, k: Kind, e: Event, kind: Kind, id: SubscriberId)
    requires H.History(s) && s.dispatcher.Quiet? && Served(s, kind, id)
    ensures Served(R.ApplyBegin(s, k, e), kind, id)
  {
    var sub := s.books.registry[id].sub;
    H.BeginFacts(s, k, e, kind, sub);
    if H.Registered(s, k, sub) { assert H.Known(s, k, sub); }
  }

  lemma ServedStep(s: R.Sys, move: R.Action, kind: Kind, id: SubscriberId)
    requires H.History(s) && R.Enabled(s, move) && H.Disciplined(s, move)
    requires Served(s, kind, id) && !Drops(move, kind, id)
    ensures Served(R.Apply(s, move), kind, id)
  {
    match move
    case Subscribe(_, _, _) => ServedSubscribe(s, move, kind, id);
    case Unsubscribe(_, _) => ServedUnsubscribe(s, move, kind, id);
    case Begin(k, e) => ServedBegin(s, k, e, kind, id);
    case SendNext => ServedSend(s, kind, id);
    case Finish => ServedFinish(s, kind, id);
    case _ =>
  }

  lemma {:induction false} ServedMoves(s: R.Sys, moves: seq<R.Action>, r: R.Sys, kind: Kind, id: SubscriberId)
    requires H.History(s) && Leads(s, moves, r) && Served(s, kind, id)
    requires forall i :: 0 <= i < |moves| ==> !Drops(moves[i], kind, id)
    ensures Served(r, kind, id)
    decreases |moves|
  {
    if moves != [] {
      LeadsFirst(s, moves, r);
      hide H.History, Served, Leads, R.Apply, R.Enabled, H.Disciplined;
      ServedStep(s, moves[0], kind, id);
      H.HistoryStep(s, moves[0]);
      ServedMoves(R.Apply(s, moves[0]), moves[1..], r, kind, id);
    }
  }

  // ---- all streams ----

  /** No id that is still to be used has been used. */
  ghost predicate IdsSpent(w: World) {
    forall id :: id in w.sys.books.registry ==> !Unused(w, id)
  }

  ghost predicate StreamsServed(w: World) {
    forall t :: t in w.stages && w.stages[t].Streaming? ==> Served(w.sys, w.stages[t].kind, w.stages[t].id)
  }

  ghost predicate Linked(w: World) {
    Inv(w) && H.History(w.sys) && IdsSpent(w) && StreamsServed(w)
  }

  lemma SubscribeLeads(w: World, a: Action)
    requires IdsSpent(w) && H.EntriesKept(w.sys) && Enabled(w, a) && a.Subscribe?
    ensures Leads(w.sys, Moves(w, a), Apply(w, a).sys)
  {
    var open, add := Moves(w, a)[0], Moves(w, a)[1];
    var s := R.Apply(w.sys, open);
    NamedIsUnused(w, a.t);
    hide H.LocalInv, Unused;
    assert H.UnusedChannel(s, a.channel);
    LeadsOne(w.sys, open);
    LeadsOne(s, add);
    LeadsAppend(w.sys, [open], s, [add], R.Apply(s, add));
    assert Moves(w, a) == [open] + [add];
  }

  lemma OtherMovesLead(w: World, a: Action)
    requires Enabled(w, a) && !a.Subscribe?
    ensures Leads(w.sys, Moves(w, a), Apply(w, a).sys)
  {
    hide Leads, R.Apply, A.Enabled, A.Apply;
    if a.Unsubscribe? || a.Route? {
      var move := Moves(w, a)[0];
      LeadsOne(w.sys, move);
    } else {
      LeadsNone(w.sys);
    }
  }

  lemma MovesLead(w: World, a: Action)
    requires Linked(w) && Enabled(w, a)
    ensures Leads(w.sys, Moves(w, a), Apply(w, a).sys)
  {
    H.HistoryParts(w.sys);
    hide Inv, H.History, H.EntriesKept, StreamsServed, IdsSpent, Leads, Apply, Enabled, Moves;
    if a.Subscribe? {
      SubscribeLeads(w, a);
    } else {
      OtherMovesLead(w, a);
    }
  }

  lemma IdsSpentStep(w: World, a: Action)
    requires IdsUnique(w) && IdsSpent(w) && Enabled(w, a)
    ensures IdsSpent(Apply(w, a))
  {
    var r := Apply(w, a);
    forall id | id in r.sys.books.registry ensures !Unused(r, id) {
      if Unused(r, id) {
        UnusedBefore(w, a, id);
        if a.Route? { H.SameRegistry(w.sys, a.move); }
      }
    }
  }

  /** A call that streams after a step did so before, and the step does not unsubscribe
      it, or it has just been registered. */
  lemma StreamBefore(w: World, a: Action, t: Tid)
    requires Inv(w) && Enabled(w, a) && t in Apply(w, a).stages && Apply(w, a).stages[t].Streaming?
    ensures (a.Subscribe? && a.t == t) ||
      (t in w.stages && w.stages[t] == Apply(w, a).stages[t]
       && forall i :: 0 <= i < |Moves(w, a)| ==> !Drops(Moves(w, a)[i], w.stages[t].kind, w.stages[t].id))
  {
    hide A.Inv, R.Balanced, SubscribersOwned, R.Apply, R.Enabled, A.Apply, A.Enabled, Issued;
    if a.Admission? {
      AdmissionStages(w, a.step);
    } else if a.Unsubscribe? && t != a.t && w.stages[t].id == w.stages[a.t].id {
      assert SameId(w, t, a.t);
    }
  }

  lemma NewStreamServed(w: World, a: Action)
    requires Enabled(w, a) && a.Subscribe? && Apply(w, a).stages[a.t].Streaming?
    ensures Served(Apply(w, a).sys, Apply(w, a).stages[a.t].kind, Apply(w, a).stages[a.t].id)
  {
    var r := Apply(w, a);
    var list := ListOf(r.sys.router.subs, a.kind);
    assert list[|list| - 1] == r.sys.books.registry[w.stages[a.t].id].sub;
  }

  lemma LinkedStep(w: World, a: Action)
    requires Linked(w) && Enabled(w, a)
    ensures Linked(Apply(w, a)) && Leads(w.sys, Moves(w, a), Apply(w, a).sys)
  {
    var r := Apply(w, a);
    StepInv(w, a);
    MovesLead(w, a);
    IdsSpentStep(w, a);
    hide Inv, H.History, IdsSpent, Apply, Moves, Enabled, Served;
    H.HistoryRun(w.sys, Moves(w, a));
    forall t | t in r.stages && r.stages[t].Streaming? ensures Served(r.sys, r.stages[t].kind, r.stages[t].id) {
      StreamBefore(w, a, t);
      if a.Subscribe? && a.t == t {
        NewStreamServed(w, a);
      } else {
        ServedMoves(w.sys, Moves(w, a), r.sys, w.stages[t].kind, w.stages[t].id);
      }
    }
  }

  lemma {:induction false} LinkedRun(w: World, run: seq<Action>)
    requires Linked(w) && ValidRun(w, run)
    ensures Linked(Exec(w, run)) && Leads(w.sys, RouterRun(w, run), Exec(w, run).sys)
    decreases |run|
  {
    if run != [] {
      hide Linked, Apply, Enabled, Moves;
      LinkedStep(w, run[0]);
      var r := Apply(w, run[0]);
      LinkedRun(r, run[1..]);
      LeadsAppend(w.sys, Moves(w, run[0]), r.sys, RouterRun(r, run[1..]), Exec(w, run).sys);
    }
  }

  /** Whatever the streaming calls do, the router's part in it is a run of the router on
      its own, and each subscription in it has an id and a channel of its own. */
  lemma HandlersRunTheRouter(maxStreams: nat, maxPerClient: nat, limits: RouterLimits, run: seq<Action>)
    requires ValidRun(New(maxStreams, maxPerClient, limits), run)
    ensures Leads(R.New(limits), RouterRun(New(maxStreams, maxPerClient, limits), run),
                  Exec(New(maxStreams, maxPerClient, limits), run).sys)
    ensures Linked(Exec(New(maxStreams, maxPerClient, limits), run))
  {
    NewInv(maxStreams, maxPerClient, limits);
    H.NewHistory(limits);
    LinkedRun(New(maxStreams, maxPerClient, limits), run);
  }

  /** Between dispatches a streaming call is without its subscription exactly when its
      channel was closed or its drop counter has reached the threshold; otherwise it has
      been offered every event of its type since it subscribed.  Its channel holds those
      that were delivered, and it never sees another event or another order. */
  lemma StreamsSeeTheirType(
      maxStreams: nat, maxPerClient: nat, limits: RouterLimits, run: seq<Action>, t: Tid)
    requires ValidRun(New(maxStreams, maxPerClient, limits), run)
    requires var w := Exec(New(maxStreams, maxPerClient, limits), run); t in w.stages && w.stages[t].Streaming?
    ensures var w := Exec(New(maxStreams, maxPerClient, limits), run); var s := w.sys;
            && w.stages[t].id in s.books.registry
            && var e := s.books.registry[w.stages[t].id];
               var log := R.Log(s.books, e.sub.slot); var c := Chan(s.router, e.sub.channel);
               var all := H.Tail(R.Published(s.books, e.kind), e.since);
               && e.kind == w.stages[t].kind
               && c.received + c.queue == H.DeliveredOf(log)
               && H.EventsOf(log) <= all
               && (s.dispatcher.Quiet? ==>
                     (!H.Registered(s, e.kind, e.sub) <==>
                       H.EndsClosed(log) || Counter(s.router, e.sub.slot) >= AtLeastOne(limits.maxDrops))
                     && (H.Registered(s, e.kind, e.sub) ==> H.EventsOf(log) == all))
  {
    var w0 := New(maxStreams, maxPerClient, limits);
    HandlersRunTheRouter(maxStreams, maxPerClient, limits, run);
    var w := Exec(w0, run);
    assert Served(w.sys, w.stages[t].kind, w.stages[t].id);
    var moves := RouterRun(w0, run);
    R.LimitsNeverChange(R.New(limits), moves);
    hide Linked, Inv, H.History, RouterRun;
    H.DropCountersAreTrailingFailures(limits, moves, w.stages[t].id);
    H.SubscriberSeesItsType(limits, moves, w.stages[t].id);
  }

  /** Isolation of streams: two streams, in two servers with any other calls, limits and
      clients, that saw the same events of their types and whose receivers acted after the
      same numbers of sends, received and failed alike. */
  lemma StreamsAreIsolated(
      w: World, run: seq<Action>, id: SubscriberId, w': World, run': seq<Action>, id': SubscriberId)
    requires Linked(w) && ValidRun(w, run) && id in w.sys.books.registry
    requires Linked(w') && ValidRun(w', run') && id' in w'.sys.books.registry
    requires SameStream(w.sys, id, w'.sys, id')
    requires SameReceiver(w, run, id, w', run', id')
    requires id in Exec(w, run).sys.books.registry && id' in Exec(w', run').sys.books.registry
    requires H.EventsFor(Exec(w, run).sys, id) == H.EventsFor(Exec(w', run').sys, id')
    requires H.Settled(Exec(w, run).sys, id) && H.Settled(Exec(w', run').sys, id')
    ensures SameStream(Exec(w, run).sys, id, Exec(w', run').sys, id')
  {
    LinkedRun(w, run);
    LinkedRun(w', run');
    H.EntryStays(w.sys, RouterRun(w, run), id);
    H.EntryStays(w'.sys, RouterRun(w', run'), id');
    hide Inv, H.History, H.MineOf, H.EventsFor, H.Settled, H.LocalRun, H.ReceiverSteps, RouterRun, Exec;
    H.SubscribersAreIsolated(w.sys, RouterRun(w, run), id, w'.sys, RouterRun(w', run'), id');
  }

  /** Equal drop counters, equal attempts with equal outcomes, equal channels. */
  ghost predicate SameStream(s: R.Sys, id: SubscriberId, s': R.Sys, id': SubscriberId)
    requires id in s.books.registry && id' in s'.books.registry
  {
    H.MineOf(s, s.books.registry[id].sub) == H.MineOf(s', s'.books.registry[id'].sub)
  }

  /** The two receivers take and close after the same numbers of sends to them. */
  ghost predicate SameReceiver(
      w: World, run: seq<Action>, id: SubscriberId, w': World, run': seq<Action>, id': SubscriberId)
    requires Linked(w) && ValidRun(w, run) && id in w.sys.books.registry
    requires Linked(w') && ValidRun(w', run') && id' in w'.sys.books.registry
  {
    LinkedRun(w, run);
    LinkedRun(w', run');
    H.ReceiverSteps(H.LocalRun(w.sys, RouterRun(w, run), w.sys.books.registry[id].sub), 0)
      == H.ReceiverSteps(H.LocalRun(w'.sys, RouterRun(w', run'), w'.sys.books.registry[id'].sub), 0)
  }
}

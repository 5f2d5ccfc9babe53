/** How streaming calls end (`src/grpc/node_service.rs`): every call can, from every state, by
    steps of its own, and gives back what it has taken. */
module StreamEndings {
  import opened Wrappers
  import opened Routing
  import opened StreamTasks
  import A = StreamAdmission
  import R = RouterRuns
  import H = RouterHistory
  import StreamHistories

  /** What a call does first when it ends. */
  function Leave(w: World, t: Tid): seq<Action>
    requires t in w.stages
  {
    match w.stages[t]
    case Ready => [GiveUp(t)]
    case Named(_) => [GiveUp(t)]
    case Streaming(_, _) => [Unsubscribe(t)]
    case Leaving => []
  }

  function Drop(t: Tid): seq<Action> {
    [Admission(A.ReleaseGlobal(t)), Admission(A.ReleaseClient(t)), Admission(A.DropClient(t))]
  }

  /** The call and its permit are gone; nothing else has changed but its slots. */
  ghost predicate Gone(w: World, t: Tid, r: World)
    requires t in w.stages && t in w.limits.phases && w.limits.phases[t].Holding?
  {
    && r.stages == w.stages - {t} && r.limits.phases == w.limits.phases - {t}
    && r.limits.globalAvailable == w.limits.globalAvailable + 1
    && A.SlotsMoved(w.limits, r.limits, w.limits.phases[t].key, 1)
  }

  lemma DropSteps(w: World, t: Tid)
    requires t in w.stages && w.stages[t].Leaving? && t in w.limits.phases && w.limits.phases[t].Holding?
    ensures ValidRun(w, Drop(t))
    ensures var r := Exec(w, Drop(t));
            r.limits == A.DropAlone(w.limits, t) && r.stages == w.stages - {t} && r.sys == w.sys
  {
    var a1, a2, a3 := Admission(A.ReleaseGlobal(t)), Admission(A.ReleaseClient(t)), Admission(A.DropClient(t));
    var w1 := Apply(w, a1);
    var w2 := Apply(w1, a2);
    var w3 := Apply(w2, a3);
    assert Drop(t)[1..] == [a2, a3] && [a2, a3][1..] == [a3] && [a3][1..] == [];
    assert Exec(w3, []) == w3 && Exec(w2, [a3]) == w3 && Exec(w1, [a2, a3]) == w3;
  }

  /** A call on its way out ends by dropping its permit. */
  lemma LeavingEnds(w: World, t: Tid)
    requires Inv(w) && t in w.stages && w.stages[t].Leaving?
    ensures t in w.limits.phases && w.limits.phases[t].Holding? && ValidRun(w, Drop(t))
    ensures var r := Exec(w, Drop(t)); Gone(w, t, r) && r.sys == w.sys
  {
    assert w.limits.phases[t].Holding?;
    DropSteps(w, t);
    A.DropAloneIsExact(w.limits, t);
    hide A.Inv, A.DropAlone, A.SlotsMoved, Exec, R.Balanced, IdsUnique, SubscribersOwned;
  }

  lemma {:induction false} ExecConcat(w: World, run: seq<Action>, more: seq<Action>)
    requires ValidRun(w, run) && ValidRun(Exec(w, run), more)
    ensures ValidRun(w, run + more) && Exec(w, run + more) == Exec(Exec(w, run), more)
    decreases |run|
  {
    hide Apply, Enabled;
    if run == [] {
      assert run + more == more;
    } else {
      assert (run + more)[1..] == run[1..] + more;
      ExecConcat(Apply(w, run[0]), run[1..], more);
    }
  }

  lemma OneStep(w: World, a: Action)
    requires Enabled(w, a)
    ensures ValidRun(w, [a]) && Exec(w, [a]) == Apply(w, a)
  {
    hide Enabled, Apply;
    assert [a][1..] == [] && Exec(Apply(w, a), []) == Apply(w, a);
  }

  /** The lists after `t` has left. */
  function ListsWithout(w: World, t: Tid): map<Kind, seq<Subscriber>>
    requires t in w.stages
  {
    if w.stages[t].Streaming? then Remove(w.sys.router, w.stages[t].kind, {w.stages[t].id}).subs
    else w.sys.router.subs
  }

  lemma LeaveEffect(w: World, t: Tid)
    requires t in w.stages && !w.stages[t].Leaving?
    ensures var a := Leave(w, t)[0];
            && Enabled(w, a) && Leave(w, t) == [a]
            && Apply(w, a).stages == w.stages[t := Leaving] && Apply(w, a).limits == w.limits
            && Apply(w, a).sys.router.subs == ListsWithout(w, t)
  {
  }

  lemma LeaveStep(w: World, t: Tid)
    requires Inv(w) && t in w.stages
    ensures ValidRun(w, Leave(w, t))
    ensures var r := Exec(w, Leave(w, t));
            && Inv(r) && r.stages == w.stages[t := Leaving] && r.limits == w.limits
            && r.sys.router.subs == ListsWithout(w, t)
  {
    if w.stages[t].Leaving? {
      assert Exec(w, []) == w && w.stages[t := Leaving] == w.stages;
    } else {
      var a := Leave(w, t)[0];
      LeaveEffect(w, t);
      hide Inv, Apply, Enabled, ListsWithout, Leave;
      StepInv(w, a);
      OneStep(w, a);
    }
  }

  lemma EndsFrom(w: World, t: Tid)
    requires Inv(w) && t in w.stages
    ensures t in w.limits.phases && w.limits.phases[t].Holding? && ValidRun(w, Leave(w, t) + Drop(t))
    ensures var r := Exec(w, Leave(w, t) + Drop(t));
            Gone(w, t, r) && r.sys.router.subs == ListsWithout(w, t)
  {
    hide Inv, A.SlotsMoved, Exec, Leave, Drop, ListsWithout, Gone, ValidRun;
    LeaveStep(w, t);
    var q := Exec(w, Leave(w, t));
    LeavingEnds(q, t);
    ExecConcat(w, Leave(w, t), Drop(t));
    assert q.stages - {t} == w.stages - {t};
    SameSlots(w, q, Exec(q, Drop(t)), t);
  }

  /** Whatever has happened, a call can end at once: it unsubscribes if it is subscribed, gives
      back its slots and is gone; no other call and no other subscriber notices. */
  lemma CallsCanEnd(maxStreams: nat, maxPerClient: nat, limits: RouterLimits, w: World, t: Tid)
    requires Reaches(New(maxStreams, maxPerClient, limits), w) && t in w.stages
    ensures t in w.limits.phases && w.limits.phases[t].Holding? && ValidRun(w, Leave(w, t) + Drop(t))
    ensures var r := Exec(w, Leave(w, t) + Drop(t));
            Gone(w, t, r) && r.sys.router.subs == ListsWithout(w, t)
  {
    hide Inv, Exec, Leave, Drop, ListsWithout, Gone, ValidRun;
    ReachedInv(maxStreams, maxPerClient, limits, w);
    EndsFrom(w, t);
  }

  lemma SameSlots(w: World, q: World, r: World, t: Tid)
    requires t in w.stages && t in w.limits.phases && w.limits.phases[t].Holding?
    requires q.limits == w.limits && t in q.stages
    requires q.stages - {t} == w.stages - {t} && Gone(q, t, r)
    ensures Gone(w, t, r)
  {
  }

  lemma ReachedInv(maxStreams: nat, maxPerClient: nat, limits: RouterLimits, w: World)
    requires Reaches(New(maxStreams, maxPerClient, limits), w)
    ensures Inv(w)
  {
    var w0 := New(maxStreams, maxPerClient, limits);
    var run: seq<Action> :| ValidRun(w0, run) && Exec(w0, run) == w;
    NewInv(maxStreams, maxPerClient, limits);
    ExecInv(w0, run);
  }

  /** A call that the router turns away has taken nothing from it and has only its permit to
      give back. */
  lemma RefusedCallLeaves(w: World, a: Action)
    requires Enabled(w, a) && Refused(w, a)
    ensures var r := Apply(w, a);
            && r.stages == w.stages[a.t := Leaving] && r.limits == w.limits
            && r.sys.router.subs == w.sys.router.subs && r.sys.router.tracked == w.sys.router.tracked
            && r.sys.router.stats == w.sys.router.stats
  {
  }

  // ---- the channels of the streams ----

  /** The channels of the streams hold 64 events. */
  ghost predicate ChannelsHold64(s: R.Sys) {
    forall c :: c in s.router.channels ==> s.router.channels[c].capacity == 64
  }

  lemma MoveHolds64(s: R.Sys, move: R.Action)
    requires ChannelsHold64(s) && R.Enabled(s, move) && (move.OpenChannel? ==> move.capacity == 64)
    requires move.SendNext? ==> s.dispatcher.snapshot[s.dispatcher.next].channel in s.router.channels
    ensures ChannelsHold64(R.Apply(s, move))
  {
  }

  lemma SendsToChannels(s: R.Sys)
    requires H.History(s) && R.Enabled(s, R.SendNext)
    ensures s.dispatcher.snapshot[s.dispatcher.next].channel in s.router.channels
  {
    assert H.Known(s, s.dispatcher.kind, s.dispatcher.snapshot[s.dispatcher.next]);
  }

  lemma StepHolds64(w: World, a: Action)
    requires StreamHistories.Linked(w) && ChannelsHold64(w.sys) && Enabled(w, a)
    ensures ChannelsHold64(Apply(w, a).sys)
  {
    match a
    case Subscribe(t, kind, channel) =>
      var open := R.OpenChannel(channel, CHANNEL_CAPACITY);
      MoveHolds64(w.sys, open);
      MoveHolds64(R.Apply(w.sys, open), R.Subscribe(kind, w.stages[t].id, channel));
    case Unsubscribe(t) => MoveHolds64(w.sys, R.Unsubscribe(w.stages[t].kind, w.stages[t].id));
    case Route(move) =>
      if move.SendNext? { SendsToChannels(w.sys); }
      MoveHolds64(w.sys, move);
    case _ =>
  }

  lemma {:induction false} RunHolds64(w: World, run: seq<Action>)
    requires StreamHistories.Linked(w) && ChannelsHold64(w.sys) && ValidRun(w, run)
    ensures ChannelsHold64(Exec(w, run).sys)
    decreases |run|
  {
    if run != [] {
      hide StreamHistories.Linked, ChannelsHold64, Apply, Enabled;
      StepHolds64(w, run[0]);
      StreamHistories.LinkedStep(w, run[0]);
      RunHolds64(Apply(w, run[0]), run[1..]);
    }
  }

  /** In every reachable state every stream's channel holds up to 64 events. */
  lemma StreamsBuffer64(maxStreams: nat, maxPerClient: nat, limits: RouterLimits, run: seq<Action>)
    requires ValidRun(New(maxStreams, maxPerClient, limits), run)
    ensures ChannelsHold64(Exec(New(maxStreams, maxPerClient, limits), run).sys)
  {
    StreamHistories.HandlersRunTheRouter(maxStreams, maxPerClient, limits, []);
    RunHolds64(New(maxStreams, maxPerClient, limits), run);
  }
}

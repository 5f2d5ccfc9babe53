/** The life of a streaming call (`src/grpc/node_service.rs`): acquire a stream slot, call
    the backend, subscribe to the router, stream until the client or the router ends it,
    unsubscribe, give the slot back.  Any number of calls interleave with each other, with
    the idle-client cleanup, with their receivers and with the dispatcher's steps. */
module StreamTasks {
  import opened Wrappers
  import opened Counting
  import opened Routing
  import Decimal
  import A = StreamAdmission
  import R = RouterRuns

  type Tid = A.Tid

  /** Where a call stands while it owns a permit. */
  datatype Stage =
    | Ready                                   // permit acquired, backend call under way
    | Named(id: SubscriberId)                 // backend call done, id taken
    | Streaming(kind: Kind, id: SubscriberId) // subscribed, task running
    | Leaving                                 // nothing left to do but to drop the permit

  datatype World = World(
    limits: A.State,
    sys: R.Sys,
    stages: map<Tid, Stage>,
    nextId: nat)

  datatype Action =
    | Admission(step: A.Action)
    | TakeId(t: Tid)
    | GiveUp(t: Tid)                          // backend error, or the call is cancelled
    | Subscribe(t: Tid, kind: Kind, channel: ChannelId)
    | Unsubscribe(t: Tid)
    | Route(move: R.Action)                   // a dispatcher's step or a receiver's

  function New(maxStreams: nat, maxPerClient: nat, limits: RouterLimits): World {
    World(A.New(maxStreams, maxPerClient), R.New(limits), map[], 1)
  }

  /** The capacity of the channel that each streaming call makes. */
  const CHANNEL_CAPACITY: nat := 64

  /** `next_subscriber_id`. */
  function SubscriberName(n: nat): SubscriberId {
    "sub-" + Decimal.Print(n)
  }

  predicate Enabled(w: World, a: Action) {
    match a
    case Admission(step) =>
      A.Enabled(w.limits, step) && (step.ReleaseGlobal? ==> step.t in w.stages && w.stages[step.t] == Leaving)
    case TakeId(t) => t in w.stages && w.stages[t].Ready?
    case GiveUp(t) => t in w.stages && (w.stages[t].Ready? || w.stages[t].Named?)
    case Subscribe(t, _, channel) => t in w.stages && w.stages[t].Named? && channel !in w.sys.router.channels
    case Unsubscribe(t) => t in w.stages && w.stages[t].Streaming?
    case Route(move) => !ByHandler(move) && R.Enabled(w.sys, move)
  }

  /** The router's steps that only a streaming call takes. */
  predicate ByHandler(move: R.Action) {
    move.OpenChannel? || move.Subscribe? || move.Unsubscribe?
  }

  function StagesAfter(w: World, step: A.Action): map<Tid, Stage>
    requires A.Enabled(w.limits, step)
  {
    match step
    case TryClient(t) => if A.Apply(w.limits, step).phases[t].Holding? then w.stages[t := Ready] else w.stages
    case ReleaseGlobal(t) => w.stages - {t}
    case _ => w.stages
  }

  function Apply(w: World, a: Action): World
    requires Enabled(w, a)
  {
    match a
    case Admission(step) => w.(limits := A.Apply(w.limits, step), stages := StagesAfter(w, step))
    case TakeId(t) => w.(stages := w.stages[t := Named(SubscriberName(w.nextId))], nextId := w.nextId + 1)
    case GiveUp(t) => w.(stages := w.stages[t := Leaving])
    case Subscribe(t, kind, channel) =>
      var s := R.Apply(w.sys, R.OpenChannel(channel, CHANNEL_CAPACITY));
      var id := w.stages[t].id;
      w.(sys := R.Apply(s, R.Subscribe(kind, id, channel)),
         stages := w.stages[t := if Refused(w, a) then Leaving else Streaming(kind, id)])
    case Unsubscribe(t) =>
      w.(sys := R.Apply(w.sys, R.Unsubscribe(w.stages[t].kind, w.stages[t].id)), stages := w.stages[t := Leaving])
    case Route(move) => w.(sys := R.Apply(w.sys, move))
  }

  ghost predicate ValidRun(w: World, run: seq<Action>)
    decreases |run|
  {
    run == [] || (Enabled(w, run[0]) && ValidRun(Apply(w, run[0]), run[1..]))
  }

  ghost function Exec(w: World, run: seq<Action>): World
    requires ValidRun(w, run)
    decreases |run|
  {
    if run == [] then w else Exec(Apply(w, run[0]), run[1..])
  }

  /** The call is turned away by the router, after its backend call has taken effect. */
  predicate Refused(w: World, a: Action) {
    a.Subscribe? && a.t in w.stages && w.stages[a.t].Named?
      && AddSubscriber(w.sys.router, a.kind, w.stages[a.t].id, a.channel).Err?
  }

  // ---- the composed invariant ----

  /** Stages belong to exactly the live permits. */
  ghost predicate StagesArePermits(w: World) {
    && (forall t :: t in w.stages <==> t in w.limits.phases && w.limits.phases[t].Holding?)
  }

  predicate HasId(p: Stage) { p.Named? || p.Streaming? }

  /** Ids are handed out once. */
  ghost predicate IdsUnique(w: World) {
    && (forall t :: t in w.stages && HasId(w.stages[t]) ==> Issued(w.nextId, w.stages[t].id))
    && (forall t, u :: SameId(w, t, u) ==> t == u)
  }

  ghost predicate Issued(nextId: nat, id: SubscriberId) {
    exists n: nat :: n < nextId && id == SubscriberName(n)
  }

  predicate SameId(w: World, t: Tid, u: Tid) {
    && t in w.stages && HasId(w.stages[t])
    && u in w.stages && HasId(w.stages[u])
    && w.stages[t].id == w.stages[u].id
  }

  /** Every registered subscriber belongs to a running task that still owns its permit. */
  ghost predicate OwnedBy(w: World, kind: Kind, id: SubscriberId, t: Tid) {
    t in w.stages && w.stages[t] == Streaming(kind, id)
  }

  ghost predicate SubscribersOwned(w: World) {
    forall kind :: kind in w.sys.router.subs ==>
      && DistinctIds(w.sys.router.subs[kind])
      && forall s :: s in w.sys.router.subs[kind] ==> Owned(w, kind, s.id)
  }

  ghost predicate Owned(w: World, kind: Kind, id: SubscriberId) {
    exists t :: OwnedBy(w, kind, id, t)
  }

  ghost predicate Inv(w: World) {
    A.Inv(w.limits) && R.Balanced(w.sys) && StagesArePermits(w) && IdsUnique(w) && SubscribersOwned(w)
  }

  lemma NewInv(maxStreams: nat, maxPerClient: nat, limits: RouterLimits)
    ensures Inv(New(maxStreams, maxPerClient, limits))
  {
    A.InitInv(maxStreams, maxPerClient);
    WithLimitsInv(limits);
  }

  lemma NamesDiffer(m: nat, n: nat)
    requires SubscriberName(m) == SubscriberName(n)
    ensures m == n
  {
    assert SubscriberName(m)[4..] == Decimal.Print(m) && SubscriberName(n)[4..] == Decimal.Print(n);
    Decimal.PrintInjective(m, n);
  }

  // -- admission steps --

  lemma HoldingChanges(s: A.State, step: A.Action, t: Tid)
    requires A.Enabled(s, step)
    ensures var r := A.Apply(s, step);
            (t in r.phases && r.phases[t].Holding?) <==>
              if step.TryClient? && step.t == t then r.phases[t].Holding?
              else t in s.phases && s.phases[t].Holding? && step != A.ReleaseGlobal(t)
  {
  }

  lemma AdmissionStages(w: World, step: A.Action)
    requires Enabled(w, Admission(step)) && StagesArePermits(w)
    ensures StagesArePermits(Apply(w, Admission(step)))
    ensures forall t :: t in w.stages && w.stages[t] != Leaving ==>
      t in Apply(w, Admission(step)).stages && Apply(w, Admission(step)).stages[t] == w.stages[t]
    ensures forall t :: t in Apply(w, Admission(step)).stages && HasId(Apply(w, Admission(step)).stages[t]) ==>
      t in w.stages && Apply(w, Admission(step)).stages[t] == w.stages[t]
  {
    var r := Apply(w, Admission(step));
    forall t ensures t in r.stages <==> t in r.limits.phases && r.limits.phases[t].Holding? {
      HoldingChanges(w.limits, step, t);
    }
  }

  /** What keeps the ids unique and the subscribers owned while the router stands still. */
  lemma OwnedFrame(w: World, r: World)
    requires SubscribersOwned(w) && r.sys.router.subs == w.sys.router.subs
    requires forall t :: t in w.stages && w.stages[t].Streaming? ==> t in r.stages && r.stages[t] == w.stages[t]
    ensures SubscribersOwned(r)
  {
    forall kind, s | kind in r.sys.router.subs && s in r.sys.router.subs[kind] ensures Owned(r, kind, s.id) {
      assert Owned(w, kind, s.id);
      var t :| OwnedBy(w, kind, s.id, t);
      assert OwnedBy(r, kind, s.id, t);
    }
  }

  lemma IdsFrame(w: World, r: World)
    requires IdsUnique(w) && w.nextId <= r.nextId
    requires forall t :: t in r.stages && HasId(r.stages[t]) ==>
               t in w.stages && HasId(w.stages[t]) && w.stages[t].id == r.stages[t].id
    ensures IdsUnique(r)
  {
    forall t | t in r.stages && HasId(r.stages[t]) ensures Issued(r.nextId, r.stages[t].id) {
      assert Issued(w.nextId, w.stages[t].id);
    }
    forall t, u | SameId(r, t, u) ensures t == u {
      assert SameId(w, t, u);
    }
  }

  lemma AdmissionInv(w: World, step: A.Action)
    requires Inv(w) && Enabled(w, Admission(step))
    ensures Inv(Apply(w, Admission(step)))
  {
    hide A.Inv, R.Balanced, SubscribersOwned, IdsUnique, A.Apply, A.Enabled;
    A.StepInv(w.limits, step);
    AdmissionStages(w, step);
    var r := Apply(w, Admission(step));
    OwnedFrame(w, r);
    IdsFrame(w, r);
  }

  // -- the call's own steps --

  lemma TakeIdInv(w: World, t: Tid)
    requires Inv(w) && Enabled(w, TakeId(t))
    ensures Inv(Apply(w, TakeId(t)))
  {
    hide A.Inv, R.Balanced, SubscribersOwned;
    var r := Apply(w, TakeId(t));
    OwnedFrame(w, r);
    assert Issued(r.nextId, r.stages[t].id);
    forall u | u in r.stages && u != t && HasId(r.stages[u])
      ensures Issued(r.nextId, r.stages[u].id) && r.stages[u].id != r.stages[t].id
    {
      assert Issued(w.nextId, w.stages[u].id);
      var n: nat :| n < w.nextId && w.stages[u].id == SubscriberName(n);
      if SubscriberName(n) == SubscriberName(w.nextId) { NamesDiffer(n, w.nextId); }
    }
    forall u, v | SameId(r, u, v) ensures u == v {
      assert u != t && v != t ==> SameId(w, u, v);
    }
  }

  lemma GiveUpInv(w: World, t: Tid)
    requires Inv(w) && Enabled(w, GiveUp(t))
    ensures Inv(Apply(w, GiveUp(t)))
  {
    hide A.Inv, R.Balanced, SubscribersOwned, IdsUnique;
    OwnedFrame(w, Apply(w, GiveUp(t)));
    IdsFrame(w, Apply(w, GiveUp(t)));
  }

  /** An accepted subscription: one more at the end of its list. */
  lemma Subscribed(w: World, t: Tid, kind: Kind, channel: ChannelId) returns (sub: Subscriber)
    requires Enabled(w, Subscribe(t, kind, channel))
    requires AddSubscriber(w.sys.router, kind, w.stages[t].id, channel).Ok?
    ensures var r := Apply(w, Subscribe(t, kind, channel)); var id := w.stages[t].id;
            && sub.id == id && r.stages == w.stages[t := Streaming(kind, id)]
            && r.sys.router.subs == w.sys.router.subs[kind := ListOf(w.sys.router.subs, kind) + [sub]]
  {
    sub := Subscriber(w.stages[t].id, channel, w.sys.router.nextSlot);
  }

  lemma SubscribeOwned(w: World, t: Tid, kind: Kind, channel: ChannelId)
    requires IdsUnique(w) && SubscribersOwned(w) && Enabled(w, Subscribe(t, kind, channel))
    requires AddSubscriber(w.sys.router, kind, w.stages[t].id, channel).Ok?
    ensures SubscribersOwned(Apply(w, Subscribe(t, kind, channel)))
  {
    var r := Apply(w, Subscribe(t, kind, channel));
    var sub := Subscribed(w, t, kind, channel);
    hide Apply, AddSubscriber, Issued;
    var id := w.stages[t].id;
    var list := ListOf(w.sys.router.subs, kind);
    forall i | 0 <= i < |list| ensures list[i].id != id {
      assert list[i] in list && Owned(w, kind, list[i].id);
      var u :| OwnedBy(w, kind, list[i].id, u);
      assert list[i].id == id ==> SameId(w, t, u);
    }
    forall k, s | k in r.sys.router.subs && s in r.sys.router.subs[k] ensures Owned(r, k, s.id) {
      if k in w.sys.router.subs && s in w.sys.router.subs[k] {
        assert Owned(w, k, s.id);
        var u :| OwnedBy(w, k, s.id, u);
        assert OwnedBy(r, k, s.id, u);
      } else {
        assert OwnedBy(r, k, s.id, t);
      }
    }
  }

  /** To the router a subscribing call is two steps: a new channel, then the subscription. */
  lemma SubscribeMoves(w: World, t: Tid, kind: Kind, channel: ChannelId)
    requires R.Balanced(w.sys) && Enabled(w, Subscribe(t, kind, channel))
    ensures R.Balanced(Apply(w, Subscribe(t, kind, channel)).sys)
  {
    var open := R.OpenChannel(channel, CHANNEL_CAPACITY);
    R.BalancedStep(w.sys, open);
    R.BalancedStep(R.Apply(w.sys, open), R.Subscribe(kind, w.stages[t].id, channel));
  }

  lemma SubscribeStepInv(w: World, t: Tid, kind: Kind, channel: ChannelId)
    requires Inv(w) && Enabled(w, Subscribe(t, kind, channel))
    ensures Inv(Apply(w, Subscribe(t, kind, channel)))
  {
    hide A.Inv, R.Balanced, SubscribersOwned, IdsUnique;
    var r := Apply(w, Subscribe(t, kind, channel));
    SubscribeMoves(w, t, kind, channel);
    IdsFrame(w, r);
    if AddSubscriber(w.sys.router, kind, w.stages[t].id, channel).Ok? {
      SubscribeOwned(w, t, kind, channel);
    } else {
      OwnedFrame(w, r);
    }
  }

  /** A removal that takes away every subscriber of the call that stops streaming. */
  lemma RemoveOwned(w: World, r: World, kind: Kind, gone: set<SubscriberId>)
    requires IdsUnique(w) && SubscribersOwned(w) && r.sys.router.subs == Remove(w.sys.router, kind, gone).subs
    requires forall t :: t in w.stages && w.stages[t].Streaming? ==>
      (t in r.stages && r.stages[t] == w.stages[t]) || (w.stages[t].kind == kind && w.stages[t].id in gone)
    ensures SubscribersOwned(r)
  {
    if kind in w.sys.router.subs { KeepOrder(w.sys.router.subs[kind], gone); }
    forall k, s | k in r.sys.router.subs && s in r.sys.router.subs[k] ensures Owned(r, k, s.id) {
      assert k in w.sys.router.subs && s in w.sys.router.subs[k];
      assert Owned(w, k, s.id);
      var u :| OwnedBy(w, k, s.id, u);
      assert OwnedBy(r, k, s.id, u);
    }
  }

  lemma UnsubscribeInv(w: World, t: Tid)
    requires Inv(w) && Enabled(w, Unsubscribe(t))
    ensures Inv(Apply(w, Unsubscribe(t)))
  {
    hide A.Inv, R.Balanced, SubscribersOwned, IdsUnique, SumLen;
    var r := Apply(w, Unsubscribe(t));
    R.BalancedStep(w.sys, R.Unsubscribe(w.stages[t].kind, w.stages[t].id));
    IdsFrame(w, r);
    RemoveOwned(w, r, w.stages[t].kind, {w.stages[t].id});
  }

  /** Of these steps only an eviction changes the lists. */
  lemma RouteOwned(w: World, move: R.Action)
    requires IdsUnique(w) && SubscribersOwned(w) && Enabled(w, Route(move))
    ensures SubscribersOwned(Apply(w, Route(move)))
  {
    var r := Apply(w, Route(move));
    if move.Finish? && w.sys.dispatcher.gone != {} {
      RemoveOwned(w, r, w.sys.dispatcher.kind, w.sys.dispatcher.gone);
    } else {
      OwnedFrame(w, r);
    }
  }

  lemma RouteInv(w: World, move: R.Action)
    requires Inv(w) && Enabled(w, Route(move))
    ensures Inv(Apply(w, Route(move)))
  {
    R.BalancedStep(w.sys, move);
    RouteOwned(w, move);
    hide A.Inv, R.Balanced, R.Apply, R.Enabled, SubscribersOwned, IdsUnique;
    IdsFrame(w, Apply(w, Route(move)));
  }

  lemma StepInv(w: World, a: Action)
    requires Inv(w) && Enabled(w, a)
    ensures Inv(Apply(w, a))
  {
    hide Inv, Apply;
    match a
    case Admission(step) => AdmissionInv(w, step);
    case TakeId(t) => TakeIdInv(w, t);
    case GiveUp(t) => GiveUpInv(w, t);
    case Subscribe(t, kind, channel) => SubscribeStepInv(w, t, kind, channel);
    case Unsubscribe(t) => UnsubscribeInv(w, t);
    case Route(move) => RouteInv(w, move);
  }

  lemma StepKeepsCaps(w: World, a: Action)
    requires Enabled(w, a)
    ensures Apply(w, a).limits.maxGlobal == w.limits.maxGlobal && Apply(w, a).sys.router.limits == w.sys.router.limits
  {
    if a.Admission? { A.StepKeepsLimits(w.limits, a.step); }
  }

  lemma {:induction false} ExecInv(w: World, run: seq<Action>)
    requires Inv(w) && ValidRun(w, run)
    ensures Inv(Exec(w, run))
    ensures Exec(w, run).limits.maxGlobal == w.limits.maxGlobal && Exec(w, run).sys.router.limits == w.sys.router.limits
    decreases |run|
  {
    if run != [] {
      hide Inv, Apply;
      StepInv(w, run[0]);
      StepKeepsCaps(w, run[0]);
      ExecInv(Apply(w, run[0]), run[1..]);
    }
  }

  // ---- no more subscribers than permits ----

  ghost function IdsIn(subs: map<Kind, seq<Subscriber>>): set<SubscriberId> {
    set kind, i | kind in subs && 0 <= i < |subs[kind]| :: subs[kind][i].id
  }

  ghost function IdsOfList(list: seq<Subscriber>): set<SubscriberId> {
    set i | 0 <= i < |list| :: list[i].id
  }

  lemma {:induction false} DistinctListSize(list: seq<Subscriber>)
    requires DistinctIds(list)
    ensures |IdsOfList(list)| == |list|
  {
    if list != [] {
      var rest := list[..|list| - 1];
      DistinctListSize(rest);
      assert IdsOfList(list) == IdsOfList(rest) + {list[|list| - 1].id};
      assert list[|list| - 1].id !in IdsOfList(rest);
    }
  }

  /** No id twice, in one list or in two. */
  ghost predicate AllDistinct(subs: map<Kind, seq<Subscriber>>) {
    && (forall kind :: kind in subs ==> DistinctIds(subs[kind]))
    && (forall k, l :: k in subs && l in subs && k != l ==> IdsOfList(subs[k]) !! IdsOfList(subs[l]))
  }

  lemma IdsInSplit(subs: map<Kind, seq<Subscriber>>, kind: Kind)
    requires AllDistinct(subs) && kind in subs
    ensures IdsIn(subs) == IdsIn(subs - {kind}) + IdsOfList(subs[kind])
    ensures IdsIn(subs - {kind}) !! IdsOfList(subs[kind])
  {
    var rest := subs - {kind};
    forall id | id in IdsIn(subs) ensures id in IdsIn(rest) || id in IdsOfList(subs[kind]) {
      var k, i :| k in subs && 0 <= i < |subs[k]| && subs[k][i].id == id;
      assert k != kind ==> k in rest && rest[k][i].id == id;
    }
    forall id | id in IdsIn(rest) ensures id in IdsIn(subs) && id !in IdsOfList(subs[kind]) {
      var k, i :| k in rest && 0 <= i < |rest[k]| && rest[k][i].id == id;
      assert k in subs && subs[k][i].id == id && id in IdsOfList(subs[k]);
      assert IdsOfList(subs[k]) !! IdsOfList(subs[kind]);
    }
    forall id | id in IdsOfList(subs[kind]) ensures id in IdsIn(subs) {
      var i :| 0 <= i < |subs[kind]| && subs[kind][i].id == id;
    }
  }

  lemma {:induction false} TotalIsIds(subs: map<Kind, seq<Subscriber>>)
    requires AllDistinct(subs)
    ensures SumLen(subs) == |IdsIn(subs)|
    decreases |subs|
  {
    if subs == map[] {
      assert IdsIn(subs) == {};
    } else {
      var kind :| kind in subs;
      SumLenTake(subs, kind);
      var rest := subs - {kind};
      assert |rest| < |subs| by { assert rest.Keys == subs.Keys - {kind}; }
      TotalIsIds(rest);
      DistinctListSize(subs[kind]);
      IdsInSplit(subs, kind);
    }
  }

  ghost function IsStreaming(): Stage -> bool { (p: Stage) => p.Streaming? }

  function IdAt(w: World, t: Tid): SubscriberId {
    if t in w.stages && HasId(w.stages[t]) then w.stages[t].id else ""
  }

  lemma {:induction false} ImageSize(w: World, tasks: set<Tid>)
    ensures |set t | t in tasks :: IdAt(w, t)| <= |tasks|
    decreases |tasks|
  {
    var image := set t | t in tasks :: IdAt(w, t);
    if tasks == {} {
      assert image == {};
    } else {
      var t :| t in tasks;
      ImageSize(w, tasks - {t});
      var smaller := set u | u in tasks - {t} :: IdAt(w, u);
      assert image == smaller + {IdAt(w, t)};
    }
  }

  lemma OwnedAreDistinct(w: World)
    requires SubscribersOwned(w) && IdsUnique(w)
    ensures AllDistinct(w.sys.router.subs)
  {
    forall k, l | k in w.sys.router.subs && l in w.sys.router.subs && k != l
      ensures IdsOfList(w.sys.router.subs[k]) !! IdsOfList(w.sys.router.subs[l])
    {
      forall id | id in IdsOfList(w.sys.router.subs[k]) ensures id !in IdsOfList(w.sys.router.subs[l]) {
        if id in IdsOfList(w.sys.router.subs[l]) {
          assert Owned(w, k, id) && Owned(w, l, id);
          var t :| OwnedBy(w, k, id, t);
          var u :| OwnedBy(w, l, id, u);
          assert SameId(w, t, u);
        }
      }
    }
  }

  /** Registered subscribers are at most as many as streaming tasks. */
  lemma SubscribersAtMostTasks(w: World)
    requires Inv(w)
    ensures SumLen(w.sys.router.subs) <= Count(w.stages, IsStreaming())
  {
    OwnedAreDistinct(w);
    TotalIsIds(w.sys.router.subs);
    var tasks := Matching(w.stages, IsStreaming());
    ImageSize(w, tasks);
    var image := set t | t in tasks :: IdAt(w, t);
    forall id | id in IdsIn(w.sys.router.subs) ensures id in image {
      var t := OwnerOf(w, id);
      assert t in tasks;
    }
    hide Inv, AllDistinct;
    SubsetSize(IdsIn(w.sys.router.subs), image);
  }

  lemma OwnerOf(w: World, id: SubscriberId) returns (t: Tid)
    requires SubscribersOwned(w) && id in IdsIn(w.sys.router.subs)
    ensures t in w.stages && w.stages[t].Streaming? && w.stages[t].id == id
  {
    var subs: map<Kind, seq<Subscriber>> := w.sys.router.subs;
    var kind, i :| kind in subs && 0 <= i < |subs[kind]| && subs[kind][i].id == id;
    assert subs[kind][i] in subs[kind];
    assert Owned(w, kind, id);
    t :| OwnedBy(w, kind, id, t);
  }

  /** In every reachable state each registered subscriber belongs to a running task that
      holds its permit, and no two to the same one. */
  lemma EverySubscriberHasATask(maxStreams: nat, maxPerClient: nat, limits: RouterLimits, run: seq<Action>)
    requires ValidRun(New(maxStreams, maxPerClient, limits), run)
    ensures var w := Exec(New(maxStreams, maxPerClient, limits), run);
            && SumLen(w.sys.router.subs) <= Count(w.stages, IsStreaming())
            && (forall kind, s :: kind in w.sys.router.subs && s in w.sys.router.subs[kind] ==>
                  exists t :: OwnedBy(w, kind, s.id, t) && t in w.limits.phases && w.limits.phases[t].Holding?)
  {
    NewInv(maxStreams, maxPerClient, limits);
    ExecInv(New(maxStreams, maxPerClient, limits), run);
    var w := Exec(New(maxStreams, maxPerClient, limits), run);
    SubscribersAtMostTasks(w);
    forall kind, s | kind in w.sys.router.subs && s in w.sys.router.subs[kind]
      ensures exists t :: OwnedBy(w, kind, s.id, t) && t in w.limits.phases && w.limits.phases[t].Holding?
    {
      assert Owned(w, kind, s.id);
    }
  }

  /** The ids that the subscriptions of a run use. */
  ghost function SubscribedIds(w: World, run: seq<Action>): seq<SubscriberId>
    requires ValidRun(w, run)
    decreases |run|
  {
    if run == [] then []
    else
      (if run[0].Subscribe? then [w.stages[run[0].t].id] else []) + SubscribedIds(Apply(w, run[0]), run[1..])
  }

  /** An id that a call of this state has not used yet, or one that is still to come. */
  ghost predicate Unused(w: World, id: SubscriberId) {
    (exists t :: t in w.stages && w.stages[t] == Named(id))
      || (exists n: nat :: n >= w.nextId && id == SubscriberName(n))
  }

  lemma UnusedBefore(w: World, a: Action, id: SubscriberId)
    requires IdsUnique(w) && Enabled(w, a) && Unused(Apply(w, a), id)
    ensures Unused(w, id)
    ensures a.Subscribe? ==> id != w.stages[a.t].id
  {
    var r := Apply(w, a);
    if t :| t in r.stages && r.stages[t] == Named(id) {
      if a.Subscribe? {
        assert w.stages[t] == Named(id);
        if id == w.stages[a.t].id { assert SameId(w, t, a.t); }
      }
    } else {
      var n: nat :| n >= r.nextId && id == SubscriberName(n);
      if a.Subscribe? && id == w.stages[a.t].id {
        var m: nat :| m < w.nextId && id == SubscriberName(m);
        NamesDiffer(m, n);
      }
    }
  }

  ghost predicate AllUnused(w: World, ids: seq<SubscriberId>) {
    forall i :: 0 <= i < |ids| ==> Unused(w, ids[i])
  }

  predicate AllDifferent(ids: seq<SubscriberId>) {
    forall i, j :: 0 <= i < j < |ids| ==> ids[i] != ids[j]
  }

  lemma UnusedStep(w: World, a: Action, rest: seq<SubscriberId>)
    requires IdsUnique(w) && Enabled(w, a) && AllUnused(Apply(w, a), rest) && AllDifferent(rest)
    ensures var ids := (if a.Subscribe? then [w.stages[a.t].id] else []) + rest; AllUnused(w, ids) && AllDifferent(ids)
  {
    forall i | 0 <= i < |rest| ensures Unused(w, rest[i]) && (a.Subscribe? ==> rest[i] != w.stages[a.t].id) {
      UnusedBefore(w, a, rest[i]);
    }
    hide IdsUnique, Unused, Apply;
    if a.Subscribe? { NamedIsUnused(w, a.t); }
  }

  lemma {:induction false} IdsAreUnused(w: World, run: seq<Action>)
    requires Inv(w) && ValidRun(w, run)
    ensures AllUnused(w, SubscribedIds(w, run)) && AllDifferent(SubscribedIds(w, run))
    decreases |run|
  {
    if run != [] {
      StepInv(w, run[0]);
      assert IdsUnique(w);
      hide Inv, IdsUnique, AllUnused, AllDifferent, Apply;
      IdsAreUnused(Apply(w, run[0]), run[1..]);
      UnusedStep(w, run[0], SubscribedIds(Apply(w, run[0]), run[1..]));
    }
  }

  lemma NamedIsUnused(w: World, t: Tid)
    requires t in w.stages && w.stages[t].Named?
    ensures Unused(w, w.stages[t].id)
  {
  }

  /** No two subscriptions of a run use the same id. */
  lemma HandlersUseOwnIds(maxStreams: nat, maxPerClient: nat, limits: RouterLimits, run: seq<Action>)
    requires ValidRun(New(maxStreams, maxPerClient, limits), run)
    ensures AllDifferent(SubscribedIds(New(maxStreams, maxPerClient, limits), run))
  {
    NewInv(maxStreams, maxPerClient, limits);
    IdsAreUnused(New(maxStreams, maxPerClient, limits), run);
  }

  /** A task that is not streaming leaves the others one permit short of the budget. */
  lemma StreamingBelowBudget(w: World, t: Tid)
    requires Inv(w) && t in w.stages && !w.stages[t].Streaming?
    ensures Count(w.stages, IsStreaming()) < w.limits.maxGlobal
  {
    hide R.Balanced, IdsUnique, SubscribersOwned;
    var streaming := Matching(w.stages, IsStreaming());
    var holding := Matching(w.limits.phases, A.IsHolding());
    assert t in holding && t !in streaming;
    SubsetSize(streaming + {t}, holding);
    CountMono(w.limits.phases, A.IsHolding(), A.HoldsGlobal());
  }

  lemma {:induction false} ListWithinTotal(subs: map<Kind, seq<Subscriber>>, kind: Kind)
    ensures |ListOf(subs, kind)| <= SumLen(subs)
  {
    if kind in subs { SumLenTake(subs, kind); }
  }

  /** When the stream budget is within both router caps, no call that has got its stream
      slot is ever refused by the router, in any interleaving. */
  lemma NoRefusalWithinCaps(maxStreams: nat, maxPerClient: nat, limits: RouterLimits, run: seq<Action>, a: Action)
    requires maxStreams <= AtLeastOne(limits.maxGlobal) && maxStreams <= AtLeastOne(limits.maxPerType)
    requires ValidRun(New(maxStreams, maxPerClient, limits), run)
    ensures !Refused(Exec(New(maxStreams, maxPerClient, limits), run), a)
  {
    NewInv(maxStreams, maxPerClient, limits);
    ExecInv(New(maxStreams, maxPerClient, limits), run);
    var w := Exec(New(maxStreams, maxPerClient, limits), run);
    if a.Subscribe? && a.t in w.stages && w.stages[a.t].Named? {
      SubscribersAtMostTasks(w);
      StreamingBelowBudget(w, a.t);
      ListWithinTotal(w.sys.router.subs, a.kind);
      SubscribeInv(w.sys.router, a.kind, w.stages[a.t].id, a.channel);
    }
  }

  // ---- and only then ----

  ghost predicate Reaches(w: World, r: World) {
    exists run: seq<Action> :: ValidRun(w, run) && Exec(w, run) == r
  }

  lemma {:induction false} ExecAppend(w: World, run: seq<Action>, a: Action)
    requires ValidRun(w, run) && Enabled(Exec(w, run), a)
    ensures ValidRun(w, run + [a]) && Exec(w, run + [a]) == Apply(Exec(w, run), a)
    decreases |run|
  {
    hide Apply, Enabled;
    if run == [] {
      assert run + [a] == [a] && [a][1..] == [];
      assert Exec(Apply(w, a), []) == Apply(w, a);
    } else {
      assert (run + [a])[1..] == run[1..] + [a];
      ExecAppend(Apply(w, run[0]), run[1..], a);
    }
  }

  lemma ReachesStep(w: World, r: World, a: Action)
    requires Reaches(w, r) && Enabled(r, a)
    ensures Reaches(w, Apply(r, a))
  {
    hide Apply, Enabled;
    var run: seq<Action> :| ValidRun(w, run) && Exec(w, run) == r;
    ExecAppend(w, run, a);
  }

  ghost predicate ClientBelow(key: A.Key, n: nat) {
    exists t: nat :: t < n && key == Decimal.Print(t)
  }

  /** Calls `0 .. n` of as many clients are all streaming invoices. */
  ghost predicate Busy(w: World, n: nat) {
    && Inv(w) && w.limits.cleaner == A.Off
    && (forall t :: t in w.limits.phases ==> t < n)
    && w.limits.globalAvailable == w.limits.maxGlobal - n
    && (forall k :: k in w.limits.perClient ==> ClientBelow(k, n))
    && (forall c :: c in w.sys.router.channels ==> c < n)
    && |ListOf(w.sys.router.subs, "invoice")| == n && w.sys.router.tracked == n
  }

  lemma FreshClient(w: World, n: nat)
    requires Busy(w, n)
    ensures Decimal.Print(n) !in w.limits.perClient
  {
    if Decimal.Print(n) in w.limits.perClient {
      var t: nat :| t < n && Decimal.Print(n) == Decimal.Print(t);
      Decimal.PrintInjective(n, t);
    }
  }

  lemma BusyParts(w: World, n: nat)
    requires Busy(w, n)
    ensures Inv(w) && A.Inv(w.limits) && w.limits.cleaner == A.Off && n !in w.limits.phases
    ensures w.limits.globalAvailable == w.limits.maxGlobal - n
    ensures A.Enabled(w.limits, A.CloneClient(n, Decimal.Print(n)))
    ensures A.ClientAvailable(w.limits, Decimal.Print(n)) == w.limits.maxPerClient
  {
    FreshClient(w, n);
  }

  /** Call `n` gets its slot. */
  lemma AcquireReaches(w0: World, w: World, n: nat) returns (r: World)
    requires Reaches(w0, w) && Busy(w, n) && n < w.limits.maxGlobal && w.limits.maxPerClient > 0
    ensures Reaches(w0, r) && Inv(r) && r.limits == A.AcquireAlone(w.limits, n, Decimal.Print(n)).0
    ensures A.AcquireAlone(w.limits, n, Decimal.Print(n)).1.Ok?
    ensures r == w.(limits := r.limits, stages := w.stages[n := Ready])
    ensures r.limits.maxGlobal == w.limits.maxGlobal && r.limits.maxPerClient == w.limits.maxPerClient
  {
    hide Inv, A.Inv, Busy, A.Apply, A.AcquireAlone, A.ClientAvailable, Apply, Enabled, Reaches, A.SlotsMoved, A.Enabled;
    var key := Decimal.Print(n);
    BusyParts(w, n);
    A.AcquireAloneIsExact(w.limits, n, key);
    ThreeSteps(w, n, key);
    var a1, a2, a3 := Admission(A.CloneClient(n, key)), Admission(A.TryGlobal(n)), Admission(A.TryClient(n));
    var w1 := Apply(w, a1);
    var w2 := Apply(w1, a2);
    r := Apply(w2, a3);
    StepInv(w, a1);
    StepInv(w1, a2);
    StepInv(w2, a3);
    ReachesStep(w0, w, a1);
    ReachesStep(w0, w1, a2);
    ReachesStep(w0, w2, a3);
  }

  /** The three admission steps are `AcquireAlone`. */
  lemma ThreeSteps(w: World, t: Tid, key: A.Key)
    requires A.Enabled(w.limits, A.CloneClient(t, key)) && A.AcquireAlone(w.limits, t, key).1.Ok?
    ensures Enabled(w, Admission(A.CloneClient(t, key)))
    ensures var w1 := Apply(w, Admission(A.CloneClient(t, key)));
            && Enabled(w1, Admission(A.TryGlobal(t)))
            && var w2 := Apply(w1, Admission(A.TryGlobal(t)));
               && Enabled(w2, Admission(A.TryClient(t)))
               && var w3 := Apply(w2, Admission(A.TryClient(t)));
                  && w3.limits == A.AcquireAlone(w.limits, t, key).0
                  && w3 == w.(limits := w3.limits, stages := w.stages[t := Ready])
                  && w3.limits.maxGlobal == w.limits.maxGlobal && w3.limits.maxPerClient == w.limits.maxPerClient
  {
  }

  /** Everything `Busy` says of call `n` and the permits once that call has its id. */
  ghost predicate Poised(w: World, n: nat, r: World) {
    && Inv(r) && Enabled(r, Subscribe(n, "invoice", n))
    && r.limits.cleaner == A.Off && r.sys.router == w.sys.router
    && (forall t :: t in r.limits.phases ==> t < n + 1)
    && r.limits.globalAvailable == r.limits.maxGlobal - (n + 1)
    && (forall k :: k in r.limits.perClient ==> ClientBelow(k, n + 1))
    && r.limits.maxGlobal == w.limits.maxGlobal && r.limits.maxPerClient == w.limits.maxPerClient
  }

  lemma ClientsBelow(w: World, r: World, n: nat)
    requires forall k :: k in w.limits.perClient ==> ClientBelow(k, n)
    requires r.limits.perClient.Keys == w.limits.perClient.Keys + {Decimal.Print(n)}
    ensures forall k :: k in r.limits.perClient ==> ClientBelow(k, n + 1)
  {
    forall k | k in r.limits.perClient ensures ClientBelow(k, n + 1) {
      if k in w.limits.perClient {
        var t: nat :| t < n && k == Decimal.Print(t);
        assert t < n + 1;
      } else {
        assert n < n + 1 && k == Decimal.Print(n);
      }
    }
  }

  lemma NextCallNamed(w0: World, w: World, n: nat) returns (r: World)
    requires Reaches(w0, w) && Busy(w, n) && n < w.limits.maxGlobal && w.limits.maxPerClient > 0
    ensures Reaches(w0, r) && Poised(w, n, r)
  {
    hide Inv, A.Inv, A.AcquireAlone, A.ClientAvailable, Reaches, A.SlotsMoved, ClientBelow;
    BusyParts(w, n);
    A.AcquireAloneIsExact(w.limits, n, Decimal.Print(n));
    var q := AcquireReaches(w0, w, n);
    r := Apply(q, TakeId(n));
    StepInv(q, TakeId(n));
    ReachesStep(w0, q, TakeId(n));
    ClientsBelow(w, r, n);
  }

  lemma {:induction false} BusyReachable(
      maxStreams: nat, maxPerClient: nat, limits: RouterLimits, n: nat) returns (w: World)
    requires maxPerClient > 0 && n <= maxStreams && n <= AtLeastOne(limits.maxGlobal)
        && n <= AtLeastOne(limits.maxPerType)
    ensures Reaches(New(maxStreams, maxPerClient, limits), w) && Busy(w, n)
    ensures w.limits.maxGlobal == maxStreams && w.limits.maxPerClient == maxPerClient
        && w.sys.router.limits == WithLimits(limits).limits
    decreases n
  {
    var w0 := New(maxStreams, maxPerClient, limits);
    if n == 0 {
      NewInv(maxStreams, maxPerClient, limits);
      assert ValidRun(w0, []) && Exec(w0, []) == w0;
      w := w0;
    } else {
      var p := BusyReachable(maxStreams, maxPerClient, limits, n - 1);
      var q := NextCallNamed(w0, p, n - 1);
      w := Apply(q, Subscribe(n - 1, "invoice", n - 1));
      ReachesStep(w0, q, Subscribe(n - 1, "invoice", n - 1));
      BusyNext(p, n - 1, q);
    }
  }

  lemma BusyNext(p: World, n: nat, q: World)
    requires Busy(p, n) && Poised(p, n, q) && n < p.sys.router.limits.maxGlobal && n < p.sys.router.limits.maxPerType
    ensures Busy(Apply(q, Subscribe(n, "invoice", n)), n + 1)
    ensures Apply(q, Subscribe(n, "invoice", n)).limits == q.limits
    ensures Apply(q, Subscribe(n, "invoice", n)).sys.router.limits == p.sys.router.limits
  {
    hide Inv, ClientBelow;
    StepInv(q, Subscribe(n, "invoice", n));
  }

  lemma RefusedWhenFull(p: World, n: nat, q: World)
    requires Busy(p, n) && Poised(p, n, q)
    requires n >= p.sys.router.limits.maxGlobal || n >= p.sys.router.limits.maxPerType
    ensures Enabled(q, Subscribe(n, "invoice", n)) && Refused(q, Subscribe(n, "invoice", n))
  {
    hide Inv, ClientBelow;
  }

  /** With a stream budget above a router cap, a call that holds a slot and whose backend
      call is done can be refused. */
  lemma RefusalReachable(maxStreams: nat, maxPerClient: nat, limits: RouterLimits) returns (w: World, a: Action)
    requires maxPerClient > 0
    requires maxStreams > AtLeastOne(limits.maxGlobal) || maxStreams > AtLeastOne(limits.maxPerType)
    ensures Reaches(New(maxStreams, maxPerClient, limits), w) && Enabled(w, a) && Refused(w, a)
  {
    hide Busy, Poised, Reaches, Refused, Enabled;
    var g, k := AtLeastOne(limits.maxGlobal), AtLeastOne(limits.maxPerType);
    var cap := if g <= k then g else k;
    var p := BusyReachable(maxStreams, maxPerClient, limits, cap);
    w := NextCallNamed(New(maxStreams, maxPerClient, limits), p, cap);
    a := Subscribe(cap, "invoice", cap);
    RefusedWhenFull(p, cap, w);
  }

  /** A call that got its stream slot is never refused by the router exactly when the
      stream budget is within both router caps. */
  lemma CapsDecideRefusals(maxStreams: nat, maxPerClient: nat, limits: RouterLimits)
    requires maxPerClient > 0
    ensures (forall w: World, a: Action :: Reaches(New(maxStreams, maxPerClient, limits), w) ==> !Refused(w, a))
       <==> maxStreams <= AtLeastOne(limits.maxGlobal) && maxStreams <= AtLeastOne(limits.maxPerType)
  {
    if maxStreams <= AtLeastOne(limits.maxGlobal) && maxStreams <= AtLeastOne(limits.maxPerType) {
      forall w: World, a: Action | Reaches(New(maxStreams, maxPerClient, limits), w) ensures !Refused(w, a) {
        var run: seq<Action> :| ValidRun(New(maxStreams, maxPerClient, limits), run)
          && Exec(New(maxStreams, maxPerClient, limits), run) == w;
        NoRefusalWithinCaps(maxStreams, maxPerClient, limits, run, a);
      }
    } else {
      var w, a := RefusalReachable(maxStreams, maxPerClient, limits);
    }
  }

  /** The defaults of `src/grpc/limits.rs` are ordered that way. */
  const DEFAULT_MAX_ACTIVE_STREAMS_GLOBAL: nat := 256
  const DEFAULT_MAX_ACTIVE_STREAMS_PER_CLIENT: nat := 8
  const DEFAULT_ROUTER_LIMITS := RouterLimits(512, 256, 64)

  lemma DefaultsNeverRefuse(run: seq<Action>, a: Action)
    requires ValidRun(New(DEFAULT_MAX_ACTIVE_STREAMS_GLOBAL, DEFAULT_MAX_ACTIVE_STREAMS_PER_CLIENT,
        DEFAULT_ROUTER_LIMITS), run)
    ensures !Refused(Exec(New(DEFAULT_MAX_ACTIVE_STREAMS_GLOBAL, DEFAULT_MAX_ACTIVE_STREAMS_PER_CLIENT,
        DEFAULT_ROUTER_LIMITS), run), a)
  {
    NoRefusalWithinCaps(DEFAULT_MAX_ACTIVE_STREAMS_GLOBAL, DEFAULT_MAX_ACTIVE_STREAMS_PER_CLIENT,
      DEFAULT_ROUTER_LIMITS, run, a);
  }

  // ---- back to baseline ----

  /** When every call has ended, nothing is left registered and every slot is free. */
  lemma NothingLeftBehind(w: World)
    requires Inv(w) && w.limits.phases == map[]
    ensures w.sys.router.subs == map[] && w.sys.router.tracked == 0 && w.limits.globalAvailable == w.limits.maxGlobal
  {
    SubscribersAtMostTasks(w);
    CountNone(w.stages, IsStreaming());
    CountNone(w.limits.phases, A.HoldsGlobal());
    forall kind | kind in w.sys.router.subs ensures |w.sys.router.subs[kind]| == 0 {
      ListWithinTotal(w.sys.router.subs, kind);
    }
  }
}

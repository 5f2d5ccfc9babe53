/** Concurrent-stream budgeting (`src/grpc/stream_limits.rs`).

    `acquire` is not one atomic operation: it clones the client's semaphore under the
    map lock, tries the global semaphore, then tries the client semaphore, and each
    failure gives back what it holds step by step.  Dropping a permit is three steps as
    well, and `cleanup_idle` looks at every entry in turn while it holds the lock.  The
    protocol is a step system over `State`, so that any number of acquires, drops and
    cleanups can interleave between any two steps. */
module StreamAdmission {
  import opened Wrappers
  import opened Counting

  type Key = string
  type Tid = nat
  type SemId = nat

  /** `strong` is `Arc::strong_count`.  Both are `int`, so that an underflow would show. */
  datatype Semaphore = Semaphore(available: int, strong: int)

  /** What one acquire attempt, or the permit it produced, currently holds. */
  datatype Phase =
    | Cloned(key: Key, sem: SemId)         // a clone of the client's semaphore
    | GlobalRefused(key: Key, sem: SemId)  // no global slot; the clone is still alive
    | HasGlobal(key: Key, sem: SemId)      // clone and global slot
    | ClientRefused(key: Key, sem: SemId)  // no client slot; clone and global slot still held
    | GlobalOnly                           // the failed attempt still owns its global slot
    | Holding(key: Key, sem: SemId)        // a live StreamPermit
    | ClientOnly(key: Key, sem: SemId)     // permit being dropped: `_global` is gone
    | ClientReturned(key: Key, sem: SemId) // client slot given back, its Arc not yet dropped
  {
    predicate UsesSem() { !GlobalOnly? }
    predicate Live() { Holding? || ClientOnly? }
    predicate InFlight() { HasGlobal? || ClientRefused? || GlobalOnly? }
  }

  /** `retain` under the lock: the entries still to visit, and the entry whose reference
      count has been read as one while its permits have not been read yet. */
  datatype Cleaner = Off | Scanning(todo: set<Key>) | SawUnshared(key: Key, todo: set<Key>)

  datatype State = State(
    maxGlobal: nat,
    maxPerClient: nat,
    globalAvailable: int,
    perClient: map<Key, SemId>,
    sems: map<SemId, Semaphore>,
    nextSem: SemId,
    phases: map<Tid, Phase>,
    cleaner: Cleaner)

  datatype Action =
    | CloneClient(t: Tid, key: Key)
    | TryGlobal(t: Tid)
    | DropRefusedClone(t: Tid)
    | TryClient(t: Tid)
    | DropFailedClone(t: Tid)
    | DropFailedGlobal(t: Tid)
    | ReleaseGlobal(t: Tid)
    | ReleaseClient(t: Tid)
    | DropClient(t: Tid)
    | StartCleanup
    | ReadStrong(key: Key)
    | ReadAvailable
    | EndCleanup

  function New(maxGlobal: nat, maxPerClient: nat): State {
    State(maxGlobal, maxPerClient, maxGlobal, map[], map[], 0, map[], Off)
  }

  function Sem(s: State, x: SemId): Semaphore {
    if x in s.sems then s.sems[x] else Semaphore(0, 0)
  }

  function AddPermits(s: State, x: SemId, n: int): State {
    s.(sems := s.sems[x := Sem(s, x).(available := Sem(s, x).available + n)])
  }

  function AddStrong(s: State, x: SemId, n: int): State {
    s.(sems := s.sems[x := Sem(s, x).(strong := Sem(s, x).strong + n)])
  }

  /** A map lookup or insert needs the lock, which a running cleanup holds. */
  predicate Enabled(s: State, a: Action) {
    match a
    case CloneClient(t, _) => t !in s.phases && s.cleaner == Off
    case TryGlobal(t) => t in s.phases && s.phases[t].Cloned?
    case DropRefusedClone(t) => t in s.phases && s.phases[t].GlobalRefused?
    case TryClient(t) => t in s.phases && s.phases[t].HasGlobal?
    case DropFailedClone(t) => t in s.phases && s.phases[t].ClientRefused?
    case DropFailedGlobal(t) => t in s.phases && s.phases[t].GlobalOnly?
    case ReleaseGlobal(t) => t in s.phases && s.phases[t].Holding?
    case ReleaseClient(t) => t in s.phases && s.phases[t].ClientOnly?
    case DropClient(t) => t in s.phases && s.phases[t].ClientReturned?
    case StartCleanup => s.cleaner == Off
    case ReadStrong(key) => s.cleaner.Scanning? && key in s.cleaner.todo && key in s.perClient
    case ReadAvailable => s.cleaner.SawUnshared? && s.cleaner.key in s.perClient
    case EndCleanup => s.cleaner == Scanning({})
  }

  /** The client's semaphore, created with every permit free when the map has none. */
  function Ensure(s: State, key: Key): State {
    if key in s.perClient then s
    else s.(perClient := s.perClient[key := s.nextSem],
            sems := s.sems[s.nextSem := Semaphore(s.maxPerClient, 1)],
            nextSem := s.nextSem + 1)
  }

  function Forget(s: State, key: Key): State
    requires key in s.perClient
  {
    AddStrong(s.(perClient := s.perClient - {key}), s.perClient[key], -1)
  }

  function Apply(s: State, a: Action): State
    requires Enabled(s, a)
  {
    match a
    case CloneClient(t, key) =>
      var e := Ensure(s, key);
      var x := e.perClient[key];
      AddStrong(e, x, 1).(phases := s.phases[t := Cloned(key, x)])
    case TryGlobal(t) =>
      var p := s.phases[t];
      if s.globalAvailable > 0
      then s.(globalAvailable := s.globalAvailable - 1, phases := s.phases[t := HasGlobal(p.key, p.sem)])
      else s.(phases := s.phases[t := GlobalRefused(p.key, p.sem)])
    case DropRefusedClone(t) =>
      AddStrong(s, s.phases[t].sem, -1).(phases := s.phases - {t})
    case TryClient(t) =>
      var p := s.phases[t];
      if Sem(s, p.sem).available > 0
      then AddPermits(s, p.sem, -1).(phases := s.phases[t := Holding(p.key, p.sem)])
      else s.(phases := s.phases[t := ClientRefused(p.key, p.sem)])
    case DropFailedClone(t) =>
      AddStrong(s, s.phases[t].sem, -1).(phases := s.phases[t := GlobalOnly])
    case DropFailedGlobal(t) =>
      s.(globalAvailable := s.globalAvailable + 1, phases := s.phases - {t})
    case ReleaseGlobal(t) =>
      var p := s.phases[t];
      s.(globalAvailable := s.globalAvailable + 1, phases := s.phases[t := ClientOnly(p.key, p.sem)])
    case ReleaseClient(t) =>
      var p := s.phases[t];
      AddPermits(s, p.sem, 1).(phases := s.phases[t := ClientReturned(p.key, p.sem)])
    case DropClient(t) =>
      AddStrong(s, s.phases[t].sem, -1).(phases := s.phases - {t})
    case StartCleanup =>
      s.(cleaner := Scanning(s.perClient.Keys))
    case ReadStrong(key) =>
      var todo := s.cleaner.todo - {key};
      if Sem(s, s.perClient[key]).strong == 1
      then s.(cleaner := SawUnshared(key, todo))
      else s.(cleaner := Scanning(todo))
    case ReadAvailable =>
      var next := s.(cleaner := Scanning(s.cleaner.todo));
      if Sem(s, s.perClient[s.cleaner.key]).available == s.maxPerClient
      then Forget(next, s.cleaner.key)
      else next
    case EndCleanup =>
      s.(cleaner := Off)
  }

  // ---- the inductive invariant ----

  ghost function Shares(x: SemId): Phase -> bool { (p: Phase) => p.UsesSem() && p.sem == x }
  ghost function HoldsClient(x: SemId): Phase -> bool { (p: Phase) => p.Live() && p.sem == x }
  ghost function HoldsGlobal(): Phase -> bool { (p: Phase) => p.InFlight() || p.Holding? }
  ghost function InFlight(): Phase -> bool { (p: Phase) => p.InFlight() }
  ghost function IsHolding(): Phase -> bool { (p: Phase) => p.Holding? }
  ghost function LivePermitOf(key: Key): Phase -> bool { (p: Phase) => p.Live() && p.key == key }

  /** Every permit and every reference is accounted for. */
  ghost predicate Accounted(s: State) {
    && 0 <= s.globalAvailable
    && s.globalAvailable + Count(s.phases, HoldsGlobal()) == s.maxGlobal
    && (forall x :: x in s.sems ==> SemAccounted(s, x))
  }

  ghost predicate SemAccounted(s: State, x: SemId)
    requires x in s.sems
  {
    && 0 <= s.sems[x].available
    && s.sems[x].available + Count(s.phases, HoldsClient(x)) == s.maxPerClient
    && s.sems[x].strong == Count(s.phases, Shares(x)) + One(x in s.perClient.Values)
  }

  /** The map reaches each semaphore by at most one key, and every clone or permit for a
      key holds the semaphore the map holds for that key. */
  ghost predicate OneSemaphorePerKey(s: State) {
    && (forall x :: x in s.sems ==> x < s.nextSem)
    && (forall k :: k in s.perClient ==> s.perClient[k] in s.sems)
    && (forall k, l :: k in s.perClient && l in s.perClient && s.perClient[k] == s.perClient[l] ==> k == l)
    && (forall t :: t in s.phases && s.phases[t].UsesSem() ==>
          s.phases[t].key in s.perClient && s.perClient[s.phases[t].key] == s.phases[t].sem)
  }

  ghost predicate CleanerSound(s: State) {
    match s.cleaner
    case Off => true
    case Scanning(todo) => todo <= s.perClient.Keys
    case SawUnshared(key, todo) =>
      && todo <= s.perClient.Keys && key !in todo
      && key in s.perClient && Sem(s, s.perClient[key]).strong == 1
  }

  ghost predicate Inv(s: State) {
    Accounted(s) && OneSemaphorePerKey(s) && CleanerSound(s)
  }

  lemma InitInv(maxGlobal: nat, maxPerClient: nat)
    ensures Inv(New(maxGlobal, maxPerClient))
  {
    CountNone(New(maxGlobal, maxPerClient).phases, HoldsGlobal());
  }

  /** A semaphore whose only reference is the map's has every permit free, so the second
      test of `is_idle` never decides. */
  lemma UnsharedIsFree(s: State, x: SemId)
    requires Inv(s) && x in s.sems && x in s.perClient.Values && s.sems[x].strong == 1
    ensures s.sems[x].available == s.maxPerClient
    ensures forall t :: t in s.phases && s.phases[t].UsesSem() ==> s.phases[t].sem != x
  {
    CountZero(s.phases, Shares(x));
    CountNone(s.phases, HoldsClient(x));
  }

  /** No clone or permit can use a semaphore the heap has never allocated. */
  lemma FreshSemUnused(s: State)
    requires Inv(s)
    ensures Count(s.phases, HoldsClient(s.nextSem)) == 0 && Count(s.phases, Shares(s.nextSem)) == 0
    ensures s.nextSem !in s.perClient.Values
  {
    CountNone(s.phases, HoldsClient(s.nextSem));
    CountNone(s.phases, Shares(s.nextSem));
  }

  lemma EnsureInv(s: State, key: Key)
    requires Inv(s) && s.cleaner == Off
    ensures Inv(Ensure(s, key)) && key in Ensure(s, key).perClient
  {
    hide Accounted, OneSemaphorePerKey;
    if key !in s.perClient {
      EnsureAccounted(s, key);
      EnsureShape(s, key);
    }
  }

  lemma EnsureShape(s: State, key: Key)
    requires OneSemaphorePerKey(s) && key !in s.perClient
    ensures OneSemaphorePerKey(Ensure(s, key))
  {
  }

  lemma EnsureAccounted(s: State, key: Key)
    requires Inv(s) && key !in s.perClient
    ensures Accounted(Ensure(s, key))
  {
    FreshSemUnused(s);
    hide OneSemaphorePerKey;
    var e := Ensure(s, key);
    ValuesInsert(s.perClient, key, s.nextSem);
    forall x | x in e.sems ensures SemAccounted(e, x) {
      if x != s.nextSem { assert SemAccounted(s, x); }
    }
  }

  lemma ValuesInsert<K, V>(m: map<K, V>, k: K, v: V)
    requires k !in m
    ensures m[k := v].Values == m.Values + {v}
  {
    var n := m[k := v];
    assert n[k] == v;
    forall x | x in m.Values ensures x in n.Values {
      var l :| l in m && m[l] == x;
      assert n[l] == x;
    }
  }

  /** The phases of `r` are those of `s` with thread `t` moved to `p`, or gone. */
  ghost predicate Moved(s: State, r: State, t: Tid, p: Option<Phase>) {
    && t in s.phases
    && r.phases == (if p.Some? then s.phases[t := p.value] else s.phases - {t})
    && r == s.(globalAvailable := r.globalAvailable, sems := r.sems, phases := r.phases)
    && (p.Some? && p.value.UsesSem() ==>
          s.phases[t].UsesSem() && p.value.key == s.phases[t].key && p.value.sem == s.phases[t].sem)
  }

  /** Exactly the slots and references that the move implies are given back or taken. */
  ghost predicate Balanced(s: State, r: State, t: Tid, p: Option<Phase>)
    requires t in s.phases
  {
    && 0 <= r.globalAvailable
    && r.globalAvailable == s.globalAvailable + One(HoldsGlobal()(s.phases[t])) - One(p.Some? && HoldsGlobal()(p.value))
    && r.sems.Keys == s.sems.Keys
    && forall x :: x in s.sems ==> SemBalanced(s, r, t, p, x)
  }

  ghost predicate SemBalanced(s: State, r: State, t: Tid, p: Option<Phase>, x: SemId)
    requires t in s.phases && x in s.sems && x in r.sems
  {
    && 0 <= r.sems[x].available
    && r.sems[x].available
       == s.sems[x].available + One(HoldsClient(x)(s.phases[t])) - One(p.Some? && HoldsClient(x)(p.value))
    && r.sems[x].strong == s.sems[x].strong - One(Shares(x)(s.phases[t])) + One(p.Some? && Shares(x)(p.value))
  }

  lemma CountMoved(s: State, r: State, t: Tid, p: Option<Phase>, q: Phase -> bool)
    requires Moved(s, r, t, p)
    ensures Count(r.phases, q) == Count(s.phases, q) - One(q(s.phases[t])) + One(p.Some? && q(p.value))
  {
    if p.Some? { CountUpdate(s.phases, t, p.value, q); } else { CountRemove(s.phases, t, q); }
  }

  lemma BalancedAccounted(s: State, r: State, t: Tid, p: Option<Phase>)
    requires Accounted(s) && Moved(s, r, t, p) && Balanced(s, r, t, p)
    ensures Accounted(r)
  {
    CountMoved(s, r, t, p, HoldsGlobal());
    forall x | x in r.sems ensures SemAccounted(r, x) {
      assert SemAccounted(s, x) && SemBalanced(s, r, t, p, x);
      CountMoved(s, r, t, p, HoldsClient(x));
      CountMoved(s, r, t, p, Shares(x));
    }
  }

  lemma BalancedCleaner(s: State, r: State, t: Tid, p: Option<Phase>)
    requires Inv(s) && Moved(s, r, t, p) && Balanced(s, r, t, p)
    ensures CleanerSound(r)
  {
    if s.cleaner.SawUnshared? {
      var y := s.perClient[s.cleaner.key];
      assert y in s.perClient.Values;
      UnsharedIsFree(s, y);
      assert SemBalanced(s, r, t, p, y);
    }
  }

  lemma BalancedInv(s: State, r: State, t: Tid, p: Option<Phase>)
    requires Inv(s) && Moved(s, r, t, p) && Balanced(s, r, t, p)
    ensures Inv(r)
  {
    BalancedAccounted(s, r, t, p);
    BalancedCleaner(s, r, t, p);
    hide Accounted, CleanerSound, SemBalanced;
    BalancedShape(s, r, t, p);
  }

  lemma BalancedShape(s: State, r: State, t: Tid, p: Option<Phase>)
    requires OneSemaphorePerKey(s) && Moved(s, r, t, p) && r.sems.Keys == s.sems.Keys
    ensures OneSemaphorePerKey(r)
  {
  }

  lemma CloneInv(s: State, t: Tid, key: Key)
    requires Inv(s) && Enabled(s, CloneClient(t, key))
    ensures Inv(Apply(s, CloneClient(t, key)))
  {
    hide Accounted, OneSemaphorePerKey;
    EnsureInv(s, key);
    var e := Ensure(s, key);
    var p := Cloned(key, e.perClient[key]);
    CloneShape(e, t, p);
    CloneAccounted(e, AddStrong(e, p.sem, 1).(phases := e.phases[t := p]), t, p);
  }

  lemma CloneShape(e: State, t: Tid, p: Phase)
    requires OneSemaphorePerKey(e) && p.Cloned? && p.key in e.perClient && p.sem == e.perClient[p.key]
    ensures p.sem in e.sems
    ensures OneSemaphorePerKey(AddStrong(e, p.sem, 1).(phases := e.phases[t := p]))
  {
  }

  lemma CloneAccounted(e: State, r: State, t: Tid, p: Phase)
    requires Accounted(e) && t !in e.phases && p.Cloned? && p.sem in e.sems
    requires r == AddStrong(e, p.sem, 1).(phases := e.phases[t := p])
    ensures Accounted(r)
  {
    CountInsert(e.phases, t, p, HoldsGlobal());
    forall y | y in r.sems ensures SemAccounted(r, y) {
      assert SemAccounted(e, y);
      CountInsert(e.phases, t, p, HoldsClient(y));
      CountInsert(e.phases, t, p, Shares(y));
    }
  }

  /** The thread a step belongs to shares the semaphore it works on. */
  lemma OwnSem(s: State, t: Tid)
    requires Inv(s) && t in s.phases && s.phases[t].UsesSem()
    ensures s.phases[t].sem in s.sems && s.sems[s.phases[t].sem].strong > 0
    ensures 0 <= s.sems[s.phases[t].sem].available
    ensures SemAccounted(s, s.phases[t].sem)
  {
    CountPositive(s.phases, t, Shares(s.phases[t].sem));
    assert SemAccounted(s, s.phases[t].sem);
  }

  /** A thread takes or returns a global slot, or fails to get one. */
  lemma GlobalMove(s: State, t: Tid, n: int, p: Option<Phase>)
    requires Inv(s) && t in s.phases
    requires n == One(HoldsGlobal()(s.phases[t])) - One(p.Some? && HoldsGlobal()(p.value))
    requires 0 <= s.globalAvailable + n
    requires if p.None? then s.phases[t].GlobalOnly? else SameHold(s.phases[t], p.value)
    ensures Inv(s.(globalAvailable := s.globalAvailable + n,
                   phases := if p.Some? then s.phases[t := p.value] else s.phases - {t}))
  {
    hide OneSemaphorePerKey;
    var r := s.(globalAvailable := s.globalAvailable + n,
                phases := if p.Some? then s.phases[t := p.value] else s.phases - {t});
    forall x | x in s.sems ensures SemBalanced(s, r, t, p, x) {
      assert SemAccounted(s, x);
    }
    BalancedInv(s, r, t, p);
  }

  predicate SameHold(o: Phase, p: Phase) {
    o.UsesSem() && p.UsesSem() && o.key == p.key && o.sem == p.sem && o.Live() == p.Live()
  }

  lemma PermitBalanced(s: State, t: Tid, n: int, p: Phase, x: SemId)
    requires t in s.phases && s.phases[t].UsesSem() && p.UsesSem() && p.sem == s.phases[t].sem && p.sem in s.sems
    requires n == One(s.phases[t].Live()) - One(p.Live()) && 0 <= Sem(s, p.sem).available + n
    requires x in s.sems && SemAccounted(s, x)
    ensures SemBalanced(s, AddPermits(s, p.sem, n).(phases := s.phases[t := p]), t, Some(p), x)
  {
  }

  /** Every semaphore of an accounted heap is accounted. */
  lemma AllAccounted(s: State, x: SemId)
    requires Inv(s) && x in s.sems
    ensures SemAccounted(s, x)
  {
  }

  /** A thread takes or returns permits of its own client semaphore. */
  lemma PermitMove(s: State, t: Tid, n: int, p: Phase)
    requires Inv(s) && t in s.phases && s.phases[t].UsesSem() && p.UsesSem()
    requires p.key == s.phases[t].key && p.sem == s.phases[t].sem
    requires n == One(s.phases[t].Live()) - One(p.Live()) && 0 <= Sem(s, p.sem).available + n
    requires HoldsGlobal()(p) == HoldsGlobal()(s.phases[t])
    ensures Inv(AddPermits(s, p.sem, n).(phases := s.phases[t := p]))
  {
    OwnSem(s, t);
    GlobalsNotNegative(s);
    hide Inv, SemAccounted, SemBalanced;
    var r := AddPermits(s, p.sem, n).(phases := s.phases[t := p]);
    forall x | x in s.sems ensures SemBalanced(s, r, t, Some(p), x) {
      AllAccounted(s, x);
      PermitBalanced(s, t, n, p, x);
    }
    BalancedInv(s, r, t, Some(p));
  }

  lemma GlobalsNotNegative(s: State)
    requires Inv(s)
    ensures 0 <= s.globalAvailable
  {
  }

  lemma ArcBalanced(s: State, t: Tid, p: Option<Phase>, x: SemId)
    requires t in s.phases && s.phases[t].UsesSem() && !s.phases[t].Live() && s.phases[t].sem in s.sems
    requires (p.Some? ==> p.value == GlobalOnly) && x in s.sems && SemAccounted(s, x)
    ensures SemBalanced(s, AddStrong(s, s.phases[t].sem, -1)
                             .(phases := if p.Some? then s.phases[t := p.value] else s.phases - {t}), t, p, x)
  {
  }

  /** A thread drops its Arc of the client semaphore, keeping at most a global slot. */
  lemma ArcDrop(s: State, t: Tid, p: Option<Phase>)
    requires Inv(s) && t in s.phases && s.phases[t].UsesSem() && !s.phases[t].Live()
    requires p.Some? ==> p.value == GlobalOnly
    requires HoldsGlobal()(s.phases[t]) == p.Some?
    ensures Inv(AddStrong(s, s.phases[t].sem, -1)
                  .(phases := if p.Some? then s.phases[t := p.value] else s.phases - {t}))
  {
    OwnSem(s, t);
    GlobalsNotNegative(s);
    hide Inv, SemAccounted, SemBalanced;
    var r := AddStrong(s, s.phases[t].sem, -1).(phases := if p.Some? then s.phases[t := p.value] else s.phases - {t});
    forall x | x in s.sems ensures SemBalanced(s, r, t, p, x) {
      AllAccounted(s, x);
      ArcBalanced(s, t, p, x);
    }
    BalancedInv(s, r, t, p);
  }

  predicate ThreadStep(a: Action) {
    !a.CloneClient? && !a.StartCleanup? && !a.ReadStrong? && !a.ReadAvailable? && !a.EndCleanup?
  }

  lemma TryClientInv(s: State, t: Tid)
    requires Inv(s) && Enabled(s, TryClient(t))
    ensures Inv(Apply(s, TryClient(t)))
  {
    hide Inv, SemAccounted;
    var p := s.phases[t];
    OwnSem(s, t);
    if Sem(s, p.sem).available > 0 {
      PermitMove(s, t, -1, Holding(p.key, p.sem));
    } else {
      PermitMove(s, t, 0, ClientRefused(p.key, p.sem));
      assert s.sems[p.sem := s.sems[p.sem]] == s.sems;
    }
  }

  lemma GlobalStepInv(s: State, a: Action)
    requires Inv(s) && Enabled(s, a) && (a.TryGlobal? || a.ReleaseGlobal? || a.DropFailedGlobal?)
    ensures Inv(Apply(s, a))
  {
    hide OneSemaphorePerKey, SemAccounted, CleanerSound;
    var p := s.phases[a.t];
    if a.TryGlobal? {
      if s.globalAvailable > 0 {
        GlobalMove(s, a.t, -1, Some(HasGlobal(p.key, p.sem)));
      } else {
        GlobalMove(s, a.t, 0, Some(GlobalRefused(p.key, p.sem)));
      }
    } else if a.ReleaseGlobal? {
      GlobalMove(s, a.t, 1, Some(ClientOnly(p.key, p.sem)));
    } else {
      GlobalMove(s, a.t, 1, None);
    }
  }

  lemma ThreadStepInv(s: State, a: Action)
    requires Inv(s) && Enabled(s, a) && ThreadStep(a)
    ensures Inv(Apply(s, a))
  {
    hide Inv, SemAccounted;
    if a.TryClient? {
      TryClientInv(s, a.t);
    } else if a.ReleaseClient? {
      OwnSem(s, a.t);
      PermitMove(s, a.t, 1, ClientReturned(s.phases[a.t].key, s.phases[a.t].sem));
    } else if a.DropFailedClone? {
      ArcDrop(s, a.t, Some(GlobalOnly));
    } else if a.DropRefusedClone? || a.DropClient? {
      ArcDrop(s, a.t, None);
    } else {
      GlobalStepInv(s, a);
    }
  }

  lemma ForgetInv(s: State, key: Key)
    requires Inv(s) && s.cleaner.Scanning? && key in s.perClient && key !in s.cleaner.todo
    requires Sem(s, s.perClient[key]).strong == 1
    ensures Inv(Forget(s, key))
    ensures forall t :: t in s.phases && s.phases[t].UsesSem() ==> s.phases[t].key != key
  {
    UnsharedIsFree(s, s.perClient[key]);
    ForgetAccounted(s, key);
    hide Accounted;
    ForgetShape(s, key);
  }

  lemma ForgetShape(s: State, key: Key)
    requires OneSemaphorePerKey(s) && key in s.perClient
    requires forall t :: t in s.phases && s.phases[t].UsesSem() ==> s.phases[t].sem != s.perClient[key]
    ensures OneSemaphorePerKey(Forget(s, key))
    ensures forall t :: t in s.phases && s.phases[t].UsesSem() ==> s.phases[t].key != key
  {
  }

  lemma ForgetAccounted(s: State, key: Key)
    requires Accounted(s) && OneSemaphorePerKey(s) && key in s.perClient
    ensures Accounted(Forget(s, key))
  {
    var x := s.perClient[key];
    ForgetValues(s, key);
    hide Accounted, OneSemaphorePerKey;
    ForgetCounts(s, Forget(s, key), x);
  }

  lemma ForgetValues(s: State, key: Key)
    requires OneSemaphorePerKey(s) && key in s.perClient
    ensures s.perClient[key] in s.perClient.Values && s.perClient[key] in s.sems
    ensures (s.perClient - {key}).Values == s.perClient.Values - {s.perClient[key]}
  {
    var rest := s.perClient - {key};
    forall k | k in s.perClient && k != key ensures s.perClient[k] in rest.Values {
      assert rest[k] == s.perClient[k];
    }
  }

  lemma ForgetCounts(s: State, r: State, x: SemId)
    requires Accounted(s) && x in s.sems && x in s.perClient.Values
    requires r == AddStrong(s.(perClient := r.perClient), x, -1)
    requires r.perClient.Values == s.perClient.Values - {x}
    ensures Accounted(r)
  {
    forall y | y in r.sems ensures SemAccounted(r, y) {
      assert SemAccounted(s, y);
    }
  }

  lemma OnlyTheCleaner(s: State, r: State)
    requires Inv(s) && r == s.(cleaner := r.cleaner) && CleanerSound(r)
    ensures Inv(r)
  {
    forall x | x in r.sems ensures SemAccounted(r, x) { assert SemAccounted(s, x); }
  }

  /** A cleanup step that only moves the cleaner along. */
  lemma ScanInv(s: State, a: Action)
    requires Inv(s) && Enabled(s, a)
    requires a.StartCleanup? || a.ReadStrong? || a.EndCleanup?
    ensures Inv(Apply(s, a))
  {
    hide Accounted, OneSemaphorePerKey;
    OnlyTheCleaner(s, Apply(s, a));
  }

  lemma CleanupInv(s: State, a: Action)
    requires Inv(s) && Enabled(s, a)
    requires a.StartCleanup? || a.ReadStrong? || a.ReadAvailable? || a.EndCleanup?
    ensures Inv(Apply(s, a))
  {
    if a.ReadAvailable? {
      var next := s.(cleaner := Scanning(s.cleaner.todo));
      OnlyTheCleaner(s, next);
      if Sem(s, s.perClient[s.cleaner.key]).available == s.maxPerClient {
        ForgetInv(next, s.cleaner.key);
      }
    } else {
      ScanInv(s, a);
    }
  }

  lemma StepInv(s: State, a: Action)
    requires Inv(s) && Enabled(s, a)
    ensures Inv(Apply(s, a))
  {
    if a.CloneClient? {
      CloneInv(s, a.t, a.key);
    } else if ThreadStep(a) {
      ThreadStepInv(s, a);
    } else {
      CleanupInv(s, a);
    }
  }

  // ---- every run ----

  ghost predicate ValidRun(s: State, run: seq<Action>)
    decreases |run|
  {
    run == [] || (Enabled(s, run[0]) && ValidRun(Apply(s, run[0]), run[1..]))
  }

  ghost function Exec(s: State, run: seq<Action>): State
    requires ValidRun(s, run)
    decreases |run|
  {
    if run == [] then s else Exec(Apply(s, run[0]), run[1..])
  }

  lemma StepKeepsLimits(s: State, a: Action)
    requires Enabled(s, a)
    ensures Apply(s, a).maxGlobal == s.maxGlobal && Apply(s, a).maxPerClient == s.maxPerClient
  {
  }

  lemma {:induction false} ExecInv(s: State, run: seq<Action>)
    requires Inv(s) && ValidRun(s, run)
    ensures Inv(Exec(s, run))
    ensures Exec(s, run).maxGlobal == s.maxGlobal && Exec(s, run).maxPerClient == s.maxPerClient
    decreases |run|
  {
    if run != [] {
      hide Inv, Apply;
      StepInv(s, run[0]);
      StepKeepsLimits(s, run[0]);
      ExecInv(Apply(s, run[0]), run[1..]);
    }
  }

  /** In every interleaving the live permits of one client stay within its budget and all
      live permits stay within the global budget. */
  lemma BudgetsHold(maxGlobal: nat, maxPerClient: nat, run: seq<Action>, key: Key)
    requires ValidRun(New(maxGlobal, maxPerClient), run)
    ensures var s := Exec(New(maxGlobal, maxPerClient), run);
            && Count(s.phases, LivePermitOf(key)) <= maxPerClient
            && Count(s.phases, IsHolding()) <= maxGlobal
  {
    InitInv(maxGlobal, maxPerClient);
    ExecInv(New(maxGlobal, maxPerClient), run);
    var s := Exec(New(maxGlobal, maxPerClient), run);
    LivePermitsBounded(s, key);
    CountMono(s.phases, IsHolding(), HoldsGlobal());
  }

  lemma LivePermitsBounded(s: State, key: Key)
    requires Inv(s)
    ensures Count(s.phases, LivePermitOf(key)) <= s.maxPerClient
  {
    if key in s.perClient {
      var x := s.perClient[key];
      assert SemAccounted(s, x);
      CountMono(s.phases, LivePermitOf(key), HoldsClient(x));
    } else {
      CountNone(s.phases, LivePermitOf(key));
    }
  }

  /** A client's live permits are exactly the slots taken from the semaphore of its entry. */
  lemma LiveIsClientUse(s: State, key: Key)
    requires Inv(s) && key in s.perClient
    ensures Sem(s, s.perClient[key]).available + Count(s.phases, LivePermitOf(key)) == s.maxPerClient
  {
    var x := s.perClient[key];
    assert SemAccounted(s, x);
    CountMono(s.phases, LivePermitOf(key), HoldsClient(x));
    forall t | t in s.phases && HoldsClient(x)(s.phases[t]) ensures LivePermitOf(key)(s.phases[t]) {
      assert s.perClient[s.phases[t].key] == s.perClient[key];
    }
    CountMono(s.phases, HoldsClient(x), LivePermitOf(key));
  }

  /** Global slots are conserved: free, in flight and live slots always add up, and the
      gauges `active_streams` and `active_streams_for` read exactly the slots in use. */
  lemma PermitsConserved(maxGlobal: nat, maxPerClient: nat, run: seq<Action>)
    requires ValidRun(New(maxGlobal, maxPerClient), run)
    ensures var s := Exec(New(maxGlobal, maxPerClient), run);
            && s.globalAvailable + Count(s.phases, InFlight()) + Count(s.phases, IsHolding()) == maxGlobal
            && (forall k :: k in s.perClient ==>
                  Sem(s, s.perClient[k]).available + Count(s.phases, LivePermitOf(k)) == maxPerClient)
  {
    InitInv(maxGlobal, maxPerClient);
    ExecInv(New(maxGlobal, maxPerClient), run);
    var s := Exec(New(maxGlobal, maxPerClient), run);
    CountSplit(s.phases, HoldsGlobal(), InFlight(), IsHolding());
    forall k | k in s.perClient
      ensures Sem(s, s.perClient[k]).available + Count(s.phases, LivePermitOf(k)) == maxPerClient
    {
      LiveIsClientUse(s, k);
    }
  }

  ghost predicate SameClient(s: State, t: Tid, u: Tid) {
    && t in s.phases && s.phases[t].UsesSem()
    && u in s.phases && s.phases[u].UsesSem()
    && s.phases[t].key == s.phases[u].key
  }

  /** Two clones or permits of one client never refer to different semaphores, and a
      reference count of one in the map already means that every permit is free. */
  lemma OneBudgetPerClient(maxGlobal: nat, maxPerClient: nat, run: seq<Action>, t: Tid, u: Tid)
    requires ValidRun(New(maxGlobal, maxPerClient), run)
    ensures var s := Exec(New(maxGlobal, maxPerClient), run);
            && (SameClient(s, t, u) ==> s.phases[t].sem == s.phases[u].sem)
            && (forall k :: k in s.perClient && Sem(s, s.perClient[k]).strong == 1 ==>
                  Sem(s, s.perClient[k]).available == maxPerClient)
  {
    InitInv(maxGlobal, maxPerClient);
    ExecInv(New(maxGlobal, maxPerClient), run);
    var s := Exec(New(maxGlobal, maxPerClient), run);
    forall k | k in s.perClient && Sem(s, s.perClient[k]).strong == 1
      ensures Sem(s, s.perClient[k]).available == maxPerClient
    {
      assert s.perClient[k] in s.perClient.Values;
      UnsharedIsFree(s, s.perClient[k]);
    }
  }

  /** Removing an entry never takes it away from a running acquire or a live permit,
      although reading the count and reading the permits are separate steps. */
  lemma CleanupNeverStrandsAPermit(s: State, t: Tid)
    requires Inv(s) && Enabled(s, ReadAvailable)
    requires t in s.phases && s.phases[t].UsesSem()
    ensures s.phases[t].key in Apply(s, ReadAvailable).perClient
  {
    var x := s.perClient[s.cleaner.key];
    assert x in s.perClient.Values;
    UnsharedIsFree(s, x);
  }

  // ---- return to baseline ----

  ghost predicate VisitsOnly(pass: seq<Action>) {
    forall i :: 0 <= i < |pass| ==> pass[i].ReadStrong? || pass[i].ReadAvailable?
  }

  /** With nothing in flight, the entries left are exactly the ones still to visit. */
  ghost predicate OnlyUnvisited(s: State) {
    && s.phases == map[]
    && (s.cleaner.Scanning? ==> s.perClient.Keys == s.cleaner.todo)
    && (s.cleaner.SawUnshared? ==> s.perClient.Keys == s.cleaner.todo + {s.cleaner.key})
  }

  lemma VisitKeepsOnlyUnvisited(s: State, a: Action)
    requires Inv(s) && OnlyUnvisited(s) && Enabled(s, a) && (a.ReadStrong? || a.ReadAvailable?)
    ensures OnlyUnvisited(Apply(s, a)) && Apply(s, a).cleaner != Off
  {
    if a.ReadStrong? {
      var x := s.perClient[a.key];
      assert x in s.perClient.Values && SemAccounted(s, x);
      CountNone(s.phases, Shares(x));
    } else {
      var x := s.perClient[s.cleaner.key];
      assert x in s.perClient.Values;
      UnsharedIsFree(s, x);
    }
  }

  lemma {:induction false} VisitsKeepOnlyUnvisited(s: State, pass: seq<Action>)
    requires Inv(s) && OnlyUnvisited(s) && VisitsOnly(pass) && ValidRun(s, pass)
    ensures OnlyUnvisited(Exec(s, pass)) && Inv(Exec(s, pass))
    decreases |pass|
  {
    if pass != [] {
      StepInv(s, pass[0]);
      VisitKeepsOnlyUnvisited(s, pass[0]);
      VisitsKeepOnlyUnvisited(Apply(s, pass[0]), pass[1..]);
    }
  }

  lemma {:induction false} ExecAppend(s: State, run: seq<Action>, a: Action)
    requires ValidRun(s, run + [a])
    ensures ValidRun(s, run) && Enabled(Exec(s, run), a)
    ensures Exec(s, run + [a]) == Apply(Exec(s, run), a)
    decreases |run|
  {
    if run == [] {
      assert run + [a] == [a];
      assert ValidRun(Apply(s, a), [a][1..]);
    } else {
      assert (run + [a])[1..] == run[1..] + [a];
      ExecAppend(Apply(s, run[0]), run[1..], a);
    }
  }

  /** Once every acquire has finished and every permit is dropped, one cleanup pass, in
      whatever order it visits the entries, empties the map; every slot is free again. */
  lemma ReturnsToBaseline(s: State, pass: seq<Action>)
    requires Inv(s) && s.phases == map[] && s.cleaner == Off
    requires VisitsOnly(pass) && ValidRun(s, [StartCleanup] + pass + [EndCleanup])
    ensures var r := Exec(s, [StartCleanup] + pass + [EndCleanup]);
            r.perClient == map[] && r.globalAvailable == s.maxGlobal && r.cleaner == Off
  {
    var whole := [StartCleanup] + pass + [EndCleanup];
    ExecAppend(s, [StartCleanup] + pass, EndCleanup);
    assert ([StartCleanup] + pass)[1..] == pass;
    StepInv(s, StartCleanup);
    VisitsKeepOnlyUnvisited(Apply(s, StartCleanup), pass);
    var q := Exec(s, [StartCleanup] + pass);
    assert Exec(s, whole) == Apply(q, EndCleanup);
    assert q.perClient.Keys == {};
    CountNone(q.phases, HoldsGlobal());
    ExecInv(s, [StartCleanup] + pass);
  }

  // ---- the object itself ----

  datatype AcquireError = GlobalLimit | ClientLimit

  /** Free slots of one client; a client without an entry has them all. */
  function ClientAvailable(s: State, key: Key): int {
    if key in s.perClient then Sem(s, s.perClient[key]).available else s.maxPerClient
  }

  predicate IsIdle(s: State, key: Key)
    requires key in s.perClient
  {
    Sem(s, s.perClient[key]).strong == 1 && Sem(s, s.perClient[key]).available == s.maxPerClient
  }

  /** What `acquire` makes of the state when no other step runs in between. */
  function AcquireAlone(s: State, t: Tid, key: Key): (State, Result<SemId, AcquireError>)
    requires Enabled(s, CloneClient(t, key))
  {
    var s1 := Apply(s, CloneClient(t, key));
    var s2 := Apply(s1, TryGlobal(t));
    if s2.phases[t].GlobalRefused? then (Apply(s2, DropRefusedClone(t)), Err(GlobalLimit))
    else AcquireClientAlone(s2, t)
  }

  function AcquireClientAlone(s: State, t: Tid): (State, Result<SemId, AcquireError>)
    requires Enabled(s, TryClient(t))
  {
    var s3 := Apply(s, TryClient(t));
    if s3.phases[t].Holding? then (s3, Ok(s3.phases[t].sem))
    else (Apply(Apply(s3, DropFailedClone(t)), DropFailedGlobal(t)), Err(ClientLimit))
  }

  /** What dropping a permit makes of the state when no other step runs in between. */
  function DropAlone(s: State, t: Tid): State
    requires t in s.phases && s.phases[t].Holding?
  {
    Apply(Apply(Apply(s, ReleaseGlobal(t)), ReleaseClient(t)), DropClient(t))
  }

  /** `r` has the same entries and the same free slots per client as `s`, except that
      `key` has `n` more. */
  ghost predicate SlotsMoved(s: State, r: State, key: Key, n: int) {
    && ClientAvailable(r, key) == ClientAvailable(s, key) + n
    && forall k :: k != key ==> ClientAvailable(r, k) == ClientAvailable(s, k)
  }

  lemma InvOneSemaphore(s: State)
    requires Inv(s)
    ensures OneSemaphorePerKey(s)
  {
  }

  lemma CloneEffect(s: State, t: Tid, key: Key)
    requires Inv(s) && Enabled(s, CloneClient(t, key))
    ensures var r := Apply(s, CloneClient(t, key));
            && Inv(r) && r.cleaner == Off && r.globalAvailable == s.globalAvailable
            && r.perClient.Keys == s.perClient.Keys + {key}
            && r.phases == s.phases[t := Cloned(key, r.perClient[key])]
            && SlotsMoved(s, r, key, 0)
  {
    hide Inv;
    InvOneSemaphore(s);
    StepInv(s, CloneClient(t, key));
    var e := Ensure(s, key);
    assert SlotsMoved(s, e, key, 0);
    ArcEffect(e, e.perClient[key], 1, key);
  }

  lemma ArcEffect(s: State, x: SemId, n: int, key: Key)
    requires x in s.sems
    ensures SlotsMoved(s, AddStrong(s, x, n), key, 0)
  {
  }

  lemma SlotEffect(s: State, key: Key, n: int)
    requires OneSemaphorePerKey(s) && key in s.perClient
    ensures SlotsMoved(s, AddPermits(s, s.perClient[key], n), key, n)
  {
  }

  lemma SlotsMovedSame(s: State, r: State, r': State, key: Key, n: int)
    requires SlotsMoved(s, r, key, n) && r'.perClient == r.perClient && r'.sems == r.sems
        && r'.maxPerClient == r.maxPerClient
    ensures SlotsMoved(s, r', key, n)
  {
  }

  lemma TryGlobalEffect(s: State, t: Tid)
    requires Inv(s) && Enabled(s, TryGlobal(t))
    ensures var r := Apply(s, TryGlobal(t)); var p := s.phases[t];
            && Inv(r)
            && r == (if s.globalAvailable > 0
                     then s.(globalAvailable := s.globalAvailable - 1, phases := s.phases[t := HasGlobal(p.key, p.sem)])
                     else s.(phases := s.phases[t := GlobalRefused(p.key, p.sem)]))
  {
    hide Inv;
    StepInv(s, TryGlobal(t));
  }

  /** A step that gives a global slot back. */
  lemma GiveGlobalEffect(s: State, a: Action)
    requires Inv(s) && Enabled(s, a) && (a.ReleaseGlobal? || a.DropFailedGlobal?)
    ensures var r := Apply(s, a);
            && Inv(r)
            && r == s.(globalAvailable := s.globalAvailable + 1,
                       phases := if a.ReleaseGlobal?
                         then s.phases[a.t := ClientOnly(s.phases[a.t].key, s.phases[a.t].sem)]
                                 else s.phases - {a.t})
  {
    hide Inv;
    StepInv(s, a);
  }

  lemma TryClientEffect(s: State, t: Tid)
    requires Inv(s) && Enabled(s, TryClient(t))
    ensures var r := Apply(s, TryClient(t)); var p := s.phases[t];
            && Inv(r) && r == s.(sems := r.sems, phases := r.phases)
            && (ClientAvailable(s, p.key) > 0 ==>
                  r.phases == s.phases[t := Holding(p.key, p.sem)] && SlotsMoved(s, r, p.key, -1))
            && (ClientAvailable(s, p.key) <= 0 ==>
                  r.phases == s.phases[t := ClientRefused(p.key, p.sem)] && SlotsMoved(s, r, p.key, 0))
  {
    hide Inv;
    InvOneSemaphore(s);
    StepInv(s, TryClient(t));
    SlotEffect(s, s.phases[t].key, -1);
  }

  lemma ReleaseClientEffect(s: State, t: Tid)
    requires Inv(s) && Enabled(s, ReleaseClient(t))
    ensures var r := Apply(s, ReleaseClient(t)); var p := s.phases[t];
            && Inv(r) && r == s.(sems := r.sems, phases := r.phases)
            && r.phases == s.phases[t := ClientReturned(p.key, p.sem)] && SlotsMoved(s, r, p.key, 1)
  {
    hide Inv;
    InvOneSemaphore(s);
    StepInv(s, ReleaseClient(t));
    SlotEffect(s, s.phases[t].key, 1);
  }

  /** Dropping an Arc changes nobody's free slots. */
  lemma DropEffect(s: State, a: Action)
    requires Inv(s) && Enabled(s, a) && (a.DropRefusedClone? || a.DropFailedClone? || a.DropClient?)
    ensures var r := Apply(s, a); var p := s.phases[a.t];
            && Inv(r) && r == s.(sems := r.sems, phases := r.phases)
            && r.phases == (if a.DropFailedClone? then s.phases[a.t := GlobalOnly] else s.phases - {a.t})
            && SlotsMoved(s, r, p.key, 0)
  {
    hide Inv;
    InvOneSemaphore(s);
    StepInv(s, a);
    var p := s.phases[a.t];
    ArcEffect(s, p.sem, -1, p.key);
    SlotsMovedSame(s, AddStrong(s, p.sem, -1), Apply(s, a), p.key, 0);
  }

  lemma SlotsMovedHere(s: State, r: State, key: Key, n: int)
    requires SlotsMoved(s, r, key, n)
    ensures ClientAvailable(r, key) == ClientAvailable(s, key) + n
  {
  }

  lemma SlotsMovedTrans(s: State, m: State, r: State, key: Key, n: int, n': int)
    requires SlotsMoved(s, m, key, n) && SlotsMoved(m, r, key, n')
    ensures SlotsMoved(s, r, key, n + n')
  {
  }

  lemma AcquireClientIsExact(s: State, t: Tid)
    requires Inv(s) && Enabled(s, TryClient(t))
    ensures var (r, outcome) := AcquireClientAlone(s, t); var p := s.phases[t];
            && Inv(r) && r.cleaner == s.cleaner && r.perClient == s.perClient
            && outcome == (if ClientAvailable(s, p.key) > 0 then Ok(p.sem) else Err(ClientLimit))
            && r.globalAvailable == s.globalAvailable + (if outcome.Ok? then 0 else 1)
            && SlotsMoved(s, r, p.key, if outcome.Ok? then -1 else 0)
            && r.phases == (if outcome.Ok? then s.phases[t := Holding(p.key, p.sem)] else s.phases - {t})
  {
    hide Inv, Apply, ClientAvailable, SlotsMoved;
    TryClientEffect(s, t);
    var p := s.phases[t];
    if ClientAvailable(s, p.key) <= 0 {
      var s3 := Apply(s, TryClient(t));
      DropEffect(s3, DropFailedClone(t));
      var s4 := Apply(s3, DropFailedClone(t));
      GiveGlobalEffect(s4, DropFailedGlobal(t));
      var s5 := Apply(s4, DropFailedGlobal(t));
      SlotsMovedTrans(s, s3, s4, p.key, 0, 0);
      SlotsMovedSame(s, s4, s5, p.key, 0);
      assert s4.phases - {t} == s.phases - {t};
    }
  }

  /** An acquire succeeds exactly when both budgets have a free slot; it then takes one of
      each, and a refused acquire changes no availability and keeps nothing. */
  lemma AcquireAloneIsExact(s: State, t: Tid, key: Key)
    requires Inv(s) && t !in s.phases && s.cleaner == Off
    ensures var (r, outcome) := AcquireAlone(s, t, key);
            && Inv(r) && r.cleaner == Off && key in r.perClient
            && outcome == (if s.globalAvailable <= 0 then Err(GlobalLimit)
                           else if ClientAvailable(s, key) <= 0 then Err(ClientLimit)
                           else Ok(r.perClient[key]))
            && r.globalAvailable == s.globalAvailable - (if outcome.Ok? then 1 else 0)
            && SlotsMoved(s, r, key, if outcome.Ok? then -1 else 0)
            && r.perClient.Keys == s.perClient.Keys + {key}
            && r.phases == (if outcome.Ok? then s.phases[t := Holding(key, r.perClient[key])] else s.phases)
  {
    hide Inv, Apply, ClientAvailable, SlotsMoved, AcquireClientAlone;
    CloneEffect(s, t, key);
    var s1 := Apply(s, CloneClient(t, key));
    TryGlobalEffect(s1, t);
    var s2 := Apply(s1, TryGlobal(t));
    SlotsMovedSame(s, s1, s2, key, 0);
    if s.globalAvailable <= 0 {
      DropEffect(s2, DropRefusedClone(t));
      var s3 := Apply(s2, DropRefusedClone(t));
      SlotsMovedTrans(s, s2, s3, key, 0, 0);
      assert s2.phases - {t} == s.phases;
    } else {
      AcquireClientIsExact(s2, t);
      var (s3, outcome) := AcquireClientAlone(s2, t);
      SlotsMovedTrans(s, s2, s3, key, 0, if outcome.Ok? then -1 else 0);
      SlotsMovedHere(s, s2, key, 0);
      assert s2.phases - {t} == s.phases;
      assert s2.phases[t := Holding(key, s2.phases[t].sem)] == s.phases[t := Holding(key, s2.phases[t].sem)];
    }
  }

  /** Dropping a permit gives its global slot and its client slot back and nothing else. */
  lemma DropAloneIsExact(s: State, t: Tid)
    requires Inv(s) && t in s.phases && s.phases[t].Holding?
    ensures var r := DropAlone(s, t);
            && Inv(r) && r.cleaner == s.cleaner && r.perClient == s.perClient
            && r.globalAvailable == s.globalAvailable + 1
            && SlotsMoved(s, r, s.phases[t].key, 1)
            && r.phases == s.phases - {t}
  {
    hide Inv;
    hide Apply, ClientAvailable, SlotsMoved;
    var p := s.phases[t];
    GiveGlobalEffect(s, ReleaseGlobal(t));
    var d1 := Apply(s, ReleaseGlobal(t));
    ReleaseClientEffect(d1, t);
    var d2 := Apply(d1, ReleaseClient(t));
    DropEffect(d2, DropClient(t));
    var d3 := Apply(d2, DropClient(t));
    SlotsMovedBoth(s, d1, d2, d3, p.key);
    assert d2.phases - {t} == s.phases - {t};
  }

  lemma SlotsMovedBoth(s: State, d1: State, d2: State, d3: State, key: Key)
    requires d1.perClient == s.perClient && d1.sems == s.sems && d1.maxPerClient == s.maxPerClient
    requires SlotsMoved(d1, d2, key, 1) && SlotsMoved(d2, d3, key, 0)
    ensures SlotsMoved(s, d3, key, 1)
  {
  }

  /** Dropping a permit gives back exactly what acquiring it took. */
  lemma DropUndoesAcquire(s: State, t: Tid, key: Key)
    requires Inv(s) && t !in s.phases && s.cleaner == Off && AcquireAlone(s, t, key).1.Ok?
    ensures var h := AcquireAlone(s, t, key).0;
            && t in h.phases && h.phases[t].Holding?
            && var r := DropAlone(h, t);
               && Inv(r) && r.globalAvailable == s.globalAvailable && r.phases == s.phases
               && forall k :: ClientAvailable(r, k) == ClientAvailable(s, k)
  {
    hide Inv, Apply, AcquireAlone, DropAlone, ClientAvailable;
    AcquireAloneIsExact(s, t, key);
    var h := AcquireAlone(s, t, key).0;
    DropAloneIsExact(h, t);
    assert h.phases - {t} == s.phases;
  }

  /** One entry's turn in `retain`. */
  function VisitAlone(s: State, key: Key): State
    requires Enabled(s, ReadStrong(key))
  {
    var r := Apply(s, ReadStrong(key));
    if r.cleaner.SawUnshared? then Apply(r, ReadAvailable) else r
  }

  /** A visited entry is forgotten exactly when it is idle. */
  lemma VisitAloneIsExact(s: State, key: Key)
    requires Inv(s) && Enabled(s, ReadStrong(key))
    ensures var r := VisitAlone(s, key);
            && Inv(r) && r.cleaner == Scanning(s.cleaner.todo - {key})
            && r == s.(cleaner := r.cleaner, perClient := r.perClient, sems := r.sems)
            && r.perClient == (if IsIdle(s, key) then s.perClient - {key} else s.perClient)
            && (forall k :: k in r.perClient ==> Sem(r, r.perClient[k]) == Sem(s, s.perClient[k]))
  {
    hide Inv;
    InvOneSemaphore(s);
    StepInv(s, ReadStrong(key));
    var r := Apply(s, ReadStrong(key));
    if r.cleaner.SawUnshared? {
      StepInv(r, ReadAvailable);
    }
  }

  ghost function IdleAmong(s: State, keys: set<Key>): set<Key> {
    set k | k in keys && k in s.perClient && IsIdle(s, k)
  }

  lemma IdleAmongNone(s: State)
    ensures IdleAmong(s, s.perClient.Keys - s.perClient.Keys) == {}
  {
  }

  lemma IdleAmongGrows(s: State, keys: set<Key>, k: Key)
    requires k in s.perClient && k !in keys
    ensures |IdleAmong(s, keys + {k})| == |IdleAmong(s, keys)| + One(IsIdle(s, k))
  {
    assert IdleAmong(s, keys + {k}) == if IsIdle(s, k) then IdleAmong(s, keys) + {k} else IdleAmong(s, keys);
  }

  /** `r` is `s` with the visited idle entries gone. */
  ghost predicate Swept(s: State, r: State, todo: set<Key>) {
    && r.phases == s.phases && r.globalAvailable == s.globalAvailable
    && r.maxGlobal == s.maxGlobal && r.maxPerClient == s.maxPerClient
    && r.perClient.Keys <= s.perClient.Keys
    && (forall k :: k in s.perClient ==> (k in r.perClient <==> k in todo || !IsIdle(s, k)))
    && (forall k :: k in r.perClient ==>
          r.perClient[k] == s.perClient[k] && Sem(r, r.perClient[k]) == Sem(s, s.perClient[k]))
  }

  lemma SweptVisit(s: State, m: State, todo: set<Key>, key: Key)
    requires Inv(m) && m.cleaner == Scanning(todo) && key in todo && todo <= m.perClient.Keys
    requires Swept(s, m, todo)
    ensures Swept(s, VisitAlone(m, key), todo - {key})
  {
    hide Inv, VisitAlone;
    VisitAloneIsExact(m, key);
  }

  lemma SweptStart(s: State)
    ensures Swept(s, s.(cleaner := Scanning(s.perClient.Keys)), s.perClient.Keys)
  {
  }

  lemma SweptEnd(s: State, r: State)
    requires Swept(s, r, {})
    ensures r.phases == s.phases && r.globalAvailable == s.globalAvailable
    ensures forall k :: ClientAvailable(r.(cleaner := Off), k) == ClientAvailable(s, k)
  {
  }

  lemma SweptAll(s: State, r: State)
    requires Swept(s, r, {})
    ensures r.perClient == map k | k in s.perClient && !IsIdle(s, k) :: s.perClient[k]
    ensures forall k :: ClientAvailable(r, k) == ClientAvailable(s, k)
    ensures |r.perClient| <= |s.perClient|
  {
    SubsetSize(r.perClient.Keys, s.perClient.Keys);
  }

  lemma InvCleaner(s: State)
    requires Inv(s)
    ensures s.cleaner.Scanning? ==> s.cleaner.todo <= s.perClient.Keys
  {
  }

  class StreamLimits {
    const maxGlobal: nat
    const maxPerClient: nat
    var globalAvailable: int
    var perClient: map<Key, SemId>
    var sems: map<SemId, Semaphore>
    var nextSem: SemId
    ghost var phases: map<Tid, Phase>
    ghost var cleaner: Cleaner

    ghost function View(): State
      reads this
    {
      State(maxGlobal, maxPerClient, globalAvailable, perClient, sems, nextSem, phases, cleaner)
    }

    constructor (maxGlobal: nat, maxPerClient: nat)
      ensures View() == New(maxGlobal, maxPerClient) && Inv(View())
    {
      this.maxGlobal, this.maxPerClient := maxGlobal, maxPerClient;
      globalAvailable := maxGlobal;
      perClient, sems, nextSem := map[], map[], 0;
      phases, cleaner := map[], Off;
      InitInv(maxGlobal, maxPerClient);
    }

    /** The part of `acquire` under the map lock. */
    method CloneClient(ghost t: Tid, key: Key) returns (x: SemId)
      requires Enabled(View(), Action.CloneClient(t, key))
      modifies this
      ensures View() == Apply(old(View()), Action.CloneClient(t, key)) && x == perClient[key]
    {
      if key !in perClient {
        perClient := perClient[key := nextSem];
        sems := sems[nextSem := Semaphore(maxPerClient, 1)];
        nextSem := nextSem + 1;
      }
      x := perClient[key];
      AddArc(x, 1);
      phases := phases[t := Cloned(key, x)];
    }

    method AddArc(x: SemId, n: int)
      modifies this`sems
      ensures View() == AddStrong(old(View()), x, n)
    {
      var sem := if x in sems then sems[x] else Semaphore(0, 0);
      sems := sems[x := sem.(strong := sem.strong + n)];
    }

    method AddSlots(x: SemId, n: int)
      modifies this`sems
      ensures View() == AddPermits(old(View()), x, n)
    {
      var sem := if x in sems then sems[x] else Semaphore(0, 0);
      sems := sems[x := sem.(available := sem.available + n)];
    }

    method TryGlobal(ghost t: Tid) returns (ok: bool)
      requires Enabled(View(), Action.TryGlobal(t))
      modifies this`globalAvailable, this`phases
      ensures View() == Apply(old(View()), Action.TryGlobal(t)) && ok == phases[t].HasGlobal?
    {
      ok := globalAvailable > 0;
      if ok {
        globalAvailable := globalAvailable - 1;
        phases := phases[t := HasGlobal(phases[t].key, phases[t].sem)];
      } else {
        phases := phases[t := GlobalRefused(phases[t].key, phases[t].sem)];
      }
    }

    method TryClient(ghost t: Tid, x: SemId) returns (ok: bool)
      requires Enabled(View(), Action.TryClient(t)) && x == phases[t].sem
      modifies this`sems, this`phases
      ensures View() == Apply(old(View()), Action.TryClient(t)) && ok == phases[t].Holding?
    {
      ok := x in sems && sems[x].available > 0;
      if ok {
        AddSlots(x, -1);
        phases := phases[t := Holding(phases[t].key, x)];
      } else {
        phases := phases[t := ClientRefused(phases[t].key, x)];
      }
    }

    method DropRefusedClone(ghost t: Tid, x: SemId)
      requires Enabled(View(), Action.DropRefusedClone(t)) && x == phases[t].sem
      modifies this`sems, this`phases
      ensures View() == Apply(old(View()), Action.DropRefusedClone(t))
    {
      AddArc(x, -1);
      phases := phases - {t};
    }

    method DropFailedClone(ghost t: Tid, x: SemId)
      requires Enabled(View(), Action.DropFailedClone(t)) && x == phases[t].sem
      modifies this`sems, this`phases
      ensures View() == Apply(old(View()), Action.DropFailedClone(t))
    {
      AddArc(x, -1);
      phases := phases[t := GlobalOnly];
    }

    method DropFailedGlobal(ghost t: Tid)
      requires Enabled(View(), Action.DropFailedGlobal(t))
      modifies this`globalAvailable, this`phases
      ensures View() == Apply(old(View()), Action.DropFailedGlobal(t))
    {
      globalAvailable := globalAvailable + 1;
      phases := phases - {t};
    }

    method ReleaseGlobal(ghost t: Tid)
      requires Enabled(View(), Action.ReleaseGlobal(t))
      modifies this`globalAvailable, this`phases
      ensures View() == Apply(old(View()), Action.ReleaseGlobal(t))
    {
      globalAvailable := globalAvailable + 1;
      phases := phases[t := ClientOnly(phases[t].key, phases[t].sem)];
    }

    method ReleaseClient(ghost t: Tid, x: SemId)
      requires Enabled(View(), Action.ReleaseClient(t)) && x == phases[t].sem
      modifies this`sems, this`phases
      ensures View() == Apply(old(View()), Action.ReleaseClient(t))
    {
      AddSlots(x, 1);
      phases := phases[t := ClientReturned(phases[t].key, x)];
    }

    method DropClient(ghost t: Tid, x: SemId)
      requires Enabled(View(), Action.DropClient(t)) && x == phases[t].sem
      modifies this`sems, this`phases
      ensures View() == Apply(old(View()), Action.DropClient(t))
    {
      AddArc(x, -1);
      phases := phases - {t};
    }

    /** `acquire`, run without interference; the interleavings are `Apply`'s business. */
    method Acquire(ghost t: Tid, key: Key) returns (r: Result<SemId, AcquireError>)
      requires t !in phases && cleaner == Off
      modifies this
      ensures (View(), r) == AcquireAlone(old(View()), t, key)
    {
      var x := CloneClient(t, key);
      var global := TryGlobal(t);
      if !global {
        DropRefusedClone(t, x);
        return Err(GlobalLimit);
      }
      var client := TryClient(t, x);
      if !client {
        DropFailedClone(t, x);
        DropFailedGlobal(t);
        return Err(ClientLimit);
      }
      return Ok(x);
    }

    /** Dropping a `StreamPermit`: `_global` first, then `_client` and its Arc. */
    method DropPermit(ghost t: Tid, x: SemId)
      requires t in phases && phases[t].Holding? && phases[t].sem == x
      modifies this
      ensures View() == DropAlone(old(View()), t)
    {
      ReleaseGlobal(t);
      ReleaseClient(t, x);
      DropClient(t, x);
    }

    /** Both gauges count the slots in use and never underflow. */
    method ActiveStreams() returns (n: int)
      requires Inv(View())
      ensures 0 <= n <= maxGlobal && n == Count(phases, HoldsGlobal())
    {
      n := maxGlobal - globalAvailable;
    }

    method ActiveStreamsFor(key: Key) returns (n: int)
      requires Inv(View())
      ensures 0 <= n <= maxPerClient && n == Count(phases, LivePermitOf(key))
    {
      if key !in perClient {
        CountNone(phases, LivePermitOf(key));
        return 0;
      }
      n := maxPerClient - sems[perClient[key]].available;
      LiveIsClientUse(View(), key);
    }

    /** The number of entries `cleanup_idle` would remove. */
    method IdleClients() returns (n: nat)
      requires Inv(View())
      ensures n == |IdleAmong(View(), perClient.Keys)|
    {
      hide Inv, IdleAmong;
      InvOneSemaphore(View());
      IdleAmongNone(View());
      n := 0;
      var todo := perClient.Keys;
      while todo != {}
        invariant todo <= perClient.Keys
        invariant n == |IdleAmong(View(), perClient.Keys - todo)|
        decreases |todo|
      {
        var key :| key in todo;
        IdleAmongGrows(View(), perClient.Keys - todo, key);
        assert perClient.Keys - (todo - {key}) == perClient.Keys - todo + {key};
        var sem := sems[perClient[key]];
        if sem.strong == 1 && sem.available == maxPerClient {
          n := n + 1;
        }
        todo := todo - {key};
      }
      assert perClient.Keys - {} == perClient.Keys;
    }

    /** `retain` over the map while the lock is held: it removes exactly the idle entries,
        and no client's free slots change. */
    method CleanupIdle() returns (removed: nat)
      requires Inv(View()) && cleaner == Off
      modifies this
      ensures Inv(View()) && cleaner == Off
      ensures perClient == map k | k in old(perClient) && !IsIdle(old(View()), k) :: old(perClient)[k]
      ensures removed == |old(perClient)| - |perClient|
      ensures phases == old(phases) && globalAvailable == old(globalAvailable)
      ensures forall k :: ClientAvailable(View(), k) == ClientAvailable(old(View()), k)
    {
      hide Inv, Swept, VisitAlone;
      var before := |perClient|;
      var todo := perClient.Keys;
      ghost var start := View();
      StepInv(start, StartCleanup);
      SweptStart(start);
      cleaner := Scanning(todo);
      while todo != {}
        invariant Inv(View()) && cleaner == Scanning(todo)
        invariant Swept(start, View(), todo)
        decreases |todo|
      {
        InvCleaner(View());
        InvOneSemaphore(View());
        var key :| key in todo;
        SweptVisit(start, View(), todo, key);
        VisitAloneIsExact(View(), key);
        VisitOne(key);
        todo := todo - {key};
      }
      SweptAll(start, View());
      ghost var last := View();
      StepInv(last, EndCleanup);
      cleaner := Off;
      SweptEnd(start, last);
      removed := before - |perClient|;
    }

    method VisitOne(key: Key)
      requires Enabled(View(), ReadStrong(key)) && perClient[key] in sems
      modifies this
      ensures View() == VisitAlone(old(View()), key)
    {
      ghost var todo := cleaner.todo - {key};
      var x := perClient[key];
      if sems[x].strong == 1 && sems[x].available == maxPerClient {
        perClient := perClient - {key};
        AddArc(x, -1);
      }
      cleaner := Scanning(todo);
    }
  }
}

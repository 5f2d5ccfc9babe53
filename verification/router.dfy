/** The event router (`src/events/router.rs`): what each operation does to its state.

    `dispatch` is three steps: a snapshot under the read lock, one `try_send` for each
    snapshot entry without any lock, and an eviction under the write lock. */
module Routing {
  import opened Wrappers
  import opened Counting

  type Kind = string
  type SubscriberId = string
  type ChannelId = nat
  type Slot = nat
  type Event = string

  datatype RouterLimits = RouterLimits(maxGlobal: nat, maxPerType: nat, maxDrops: nat)

  datatype SubscribeError = GlobalLimit | TypeLimit

  /** `slot` names the subscriber's own drop counter, shared with every snapshot. */
  datatype Subscriber = Subscriber(id: SubscriberId, channel: ChannelId, slot: Slot)

  /** A bounded channel; `received` is what its receiver has taken out so far. */
  datatype Channel = Channel(queue: seq<Event>, capacity: nat, open: bool, received: seq<Event>)

  datatype Outcome = Delivered | Full | Closed

  datatype Stats = Stats(dispatched: nat, delivered: nat, dropped: nat, evicted: nat)

  datatype Router = Router(
    limits: RouterLimits,
    subs: map<Kind, seq<Subscriber>>,
    tracked: int,
    counters: map<Slot, nat>,
    nextSlot: Slot,
    stats: Stats,
    channels: map<ChannelId, Channel>)

  function AtLeastOne(n: nat): nat {
    if n == 0 then 1 else n
  }

  function WithLimits(limits: RouterLimits): Router {
    Router(RouterLimits(AtLeastOne(limits.maxGlobal), AtLeastOne(limits.maxPerType), AtLeastOne(limits.maxDrops)),
           map[], 0, map[], 0, Stats(0, 0, 0, 0), map[])
  }

  function ListOf(subs: map<Kind, seq<Subscriber>>, kind: Kind): seq<Subscriber> {
    if kind in subs then subs[kind] else []
  }

  function Counter(r: Router, slot: Slot): nat {
    if slot in r.counters then r.counters[slot] else 0
  }

  function Chan(r: Router, c: ChannelId): Channel {
    if c in r.channels then r.channels[c] else Channel([], 0, false, [])
  }

  /** `retain` on one list. */
  function Keep(list: seq<Subscriber>, gone: set<SubscriberId>): seq<Subscriber> {
    if list == [] then []
    else (if list[0].id in gone then [] else [list[0]]) + Keep(list[1..], gone)
  }

  function SetList(subs: map<Kind, seq<Subscriber>>, kind: Kind, list: seq<Subscriber>): map<Kind, seq<Subscriber>> {
    if list == [] then subs - {kind} else subs[kind := list]
  }

  function AddSubscriber(r: Router, kind: Kind, id: SubscriberId, channel: ChannelId): Result<Router, SubscribeError> {
    if |ListOf(r.subs, kind)| >= r.limits.maxPerType then Err(TypeLimit)
    else if r.tracked >= r.limits.maxGlobal then Err(GlobalLimit)
    else
      Ok(r.(subs := r.subs[kind := ListOf(r.subs, kind) + [Subscriber(id, channel, r.nextSlot)]],
            tracked := r.tracked + 1,
            counters := r.counters[r.nextSlot := 0],
            nextSlot := r.nextSlot + 1))
  }

  /** Take every subscriber of `kind` with one of these ids off the list. */
  function Remove(r: Router, kind: Kind, gone: set<SubscriberId>): Router {
    if kind !in r.subs then r
    else
      var kept := Keep(r.subs[kind], gone);
      r.(subs := SetList(r.subs, kind, kept), tracked := r.tracked - (|r.subs[kind]| - |kept|))
  }

  function Removed(r: Router, kind: Kind, gone: set<SubscriberId>): nat {
    KeepShortens(ListOf(r.subs, kind), gone);
    |ListOf(r.subs, kind)| - |Keep(ListOf(r.subs, kind), gone)|
  }

  function DropSubscriber(r: Router, kind: Kind, id: SubscriberId): Router {
    Remove(r, kind, {id})
  }

  function Evict(r: Router, kind: Kind, gone: set<SubscriberId>): Router {
    Remove(r, kind, gone).(stats := r.stats.(evicted := r.stats.evicted + Removed(r, kind, gone)))
  }

  function TrySend(c: Channel, e: Event): (Channel, Outcome) {
    if !c.open then (c, Closed)
    else if |c.queue| < c.capacity then (c.(queue := c.queue + [e]), Delivered)
    else (c, Full)
  }

  function OutcomeFor(r: Router, s: Subscriber, e: Event): Outcome {
    TrySend(Chan(r, s.channel), e).1
  }

  /** One turn of the send loop. */
  function Send(r: Router, s: Subscriber, e: Event): Router {
    var (c, o) := TrySend(Chan(r, s.channel), e);
    var count := Counter(r, s.slot);
    r.(channels := r.channels[s.channel := c],
       counters := r.counters[s.slot := match o case Delivered => 0 case Full => count + 1 case Closed => count],
       stats := if o.Delivered? then r.stats.(delivered := r.stats.delivered + 1)
                else r.stats.(dropped := r.stats.dropped + 1))
  }

  /** Whether that turn puts the subscriber on the eviction list. */
  predicate Condemned(r: Router, s: Subscriber, e: Event) {
    match OutcomeFor(r, s, e)
    case Delivered => false
    case Full => Counter(r, s.slot) + 1 >= r.limits.maxDrops
    case Closed => true
  }

  /** The whole send loop when nothing else runs in between. */
  function SendAll(r: Router, snapshot: seq<Subscriber>, e: Event, gone: set<SubscriberId>): (Router, set<SubscriberId>)
    decreases |snapshot|
  {
    if snapshot == [] then (r, gone)
    else SendAll(Send(r, snapshot[0], e), snapshot[1..], e,
                 if Condemned(r, snapshot[0], e) then gone + {snapshot[0].id} else gone)
  }

  function CountDispatch(r: Router): Router {
    r.(stats := r.stats.(dispatched := r.stats.dispatched + 1))
  }

  function DispatchAlone(r: Router, kind: Kind, e: Event): Router {
    var snapshot := ListOf(r.subs, kind);
    if snapshot == [] then r
    else
      var (sent, gone) := SendAll(CountDispatch(r), snapshot, e, {});
      if gone == {} then sent else Evict(sent, kind, gone)
  }

  // ---- the counter and the caps, for any ids and any callers ----

  ghost predicate RouterInv(r: Router) {
    && 1 <= r.limits.maxGlobal && 1 <= r.limits.maxPerType && 1 <= r.limits.maxDrops
    && r.tracked == SumLen(r.subs)
    && r.tracked <= r.limits.maxGlobal
    && (forall k :: k in r.subs ==> r.subs[k] != [] && |r.subs[k]| <= r.limits.maxPerType)
  }

  lemma WithLimitsInv(limits: RouterLimits)
    ensures RouterInv(WithLimits(limits))
  {
    SumLenEmpty<Kind, Subscriber>();
  }

  lemma {:induction false} KeepShortens(list: seq<Subscriber>, gone: set<SubscriberId>)
    ensures |Keep(list, gone)| <= |list|
  {
    if list != [] { KeepShortens(list[1..], gone); }
  }

  /** Exactly the subscribers with other ids stay, each as often as before. */
  lemma {:induction false} KeepExact(list: seq<Subscriber>, gone: set<SubscriberId>)
    ensures forall s :: multiset(Keep(list, gone))[s] == if s.id in gone then 0 else multiset(list)[s]
    ensures forall s :: s in Keep(list, gone) <==> s in list && s.id !in gone
  {
    if list != [] {
      KeepExact(list[1..], gone);
      assert list == [list[0]] + list[1..];
    }
  }

  ghost predicate DistinctIds(list: seq<Subscriber>) {
    forall i, j :: 0 <= i < j < |list| ==> list[i].id != list[j].id
  }

  lemma {:induction false} KeepOrder(list: seq<Subscriber>, gone: set<SubscriberId>)
    requires DistinctIds(list)
    ensures DistinctIds(Keep(list, gone))
    ensures forall s :: s in Keep(list, gone) <==> s in list && s.id !in gone
  {
    if list != [] {
      var rest := list[1..];
      KeepOrder(rest, gone);
      assert list == [list[0]] + rest;
      forall s | s in rest ensures s.id != list[0].id {
        var i :| 0 <= i < |rest| && rest[i] == s;
        assert list[i + 1] == s;
      }
    }
  }

  /** A subscription is refused exactly when a cap is full, the type's cap first. */
  lemma SubscribeInv(r: Router, kind: Kind, id: SubscriberId, channel: ChannelId)
    requires RouterInv(r)
    ensures var o := AddSubscriber(r, kind, id, channel);
            && (o.Ok? ==> RouterInv(o.value) && o.value.tracked == r.tracked + 1)
            && (o == Err(TypeLimit) <==> |ListOf(r.subs, kind)| == r.limits.maxPerType)
            && (o == Err(GlobalLimit) <==>
                  |ListOf(r.subs, kind)| < r.limits.maxPerType && SumLen(r.subs) == r.limits.maxGlobal)
  {
    SumLenUpdate(r.subs, kind, ListOf(r.subs, kind) + [Subscriber(id, channel, r.nextSlot)]);
  }

  lemma RemoveInv(r: Router, kind: Kind, gone: set<SubscriberId>)
    requires RouterInv(r)
    ensures RouterInv(Remove(r, kind, gone))
    ensures 0 <= Remove(r, kind, gone).tracked == r.tracked - Removed(r, kind, gone)
  {
    if kind in r.subs {
      var kept := Keep(r.subs[kind], gone);
      KeepShortens(r.subs[kind], gone);
      SumLenUpdate(r.subs, kind, kept);
    }
  }

  lemma SendInv(r: Router, s: Subscriber, e: Event)
    requires RouterInv(r)
    ensures RouterInv(Send(r, s, e)) && Send(r, s, e).subs == r.subs && Send(r, s, e).tracked == r.tracked
  {
  }

  // ---- the object itself ----

  class EventRouter {
    const limits: RouterLimits
    var subscribers: map<Kind, seq<Subscriber>>
    var tracked: int
    var counters: map<Slot, nat>
    var nextSlot: Slot
    var stats: Stats
    var channels: map<ChannelId, Channel>

    ghost function View(): Router
      reads this
    {
      Router(limits, subscribers, tracked, counters, nextSlot, stats, channels)
    }

    constructor (limits: RouterLimits)
      ensures View() == WithLimits(limits)
    {
      this.limits :=
        RouterLimits(AtLeastOne(limits.maxGlobal), AtLeastOne(limits.maxPerType), AtLeastOne(limits.maxDrops));
      subscribers, tracked := map[], 0;
      counters, nextSlot := map[], 0;
      stats := Stats(0, 0, 0, 0);
      channels := map[];
    }

    method Subscribe(kind: Kind, id: SubscriberId, channel: ChannelId) returns (r: Result<(), SubscribeError>)
      modifies this
      ensures match AddSubscriber(old(View()), kind, id, channel)
              case Ok(next) => r == Ok(()) && View() == next
              case Err(e) => r == Err(e) && View() == old(View())
      ensures RouterInv(old(View())) ==> RouterInv(View())
    {
      if RouterInv(View()) { SubscribeInv(View(), kind, id, channel); }
      var list := if kind in subscribers then subscribers[kind] else [];
      if |list| >= limits.maxPerType {
        return Err(TypeLimit);
      }
      if tracked >= limits.maxGlobal {
        return Err(GlobalLimit);
      }
      subscribers := subscribers[kind := list + [Subscriber(id, channel, nextSlot)]];
      counters := counters[nextSlot := 0];
      nextSlot := nextSlot + 1;
      tracked := tracked + 1;
      return Ok(());
    }

    /** `list.retain(..)` with the empty list dropped from the map. */
    method RetainOthers(kind: Kind, gone: set<SubscriberId>) returns (removed: nat)
      modifies this`subscribers, this`tracked
      ensures View() == Remove(old(View()), kind, gone) && removed == Removed(old(View()), kind, gone)
    {
      removed := 0;
      if kind in subscribers {
        var list := subscribers[kind];
        var kept: seq<Subscriber> := [];
        for i := 0 to |list|
          invariant View() == old(View())
          invariant kept + Keep(list[i..], gone) == Keep(list, gone)
        {
          assert list[i..][1..] == list[i + 1..];
          if list[i].id !in gone {
            kept := kept + [list[i]];
          }
        }
        assert kept == Keep(list, gone);
        KeepShortens(list, gone);
        removed := |list| - |kept|;
        tracked := tracked - removed;
        if kept == [] {
          subscribers := subscribers - {kind};
        } else {
          subscribers := subscribers[kind := kept];
        }
      }
    }

    method Unsubscribe(kind: Kind, id: SubscriberId)
      modifies this
      ensures View() == DropSubscriber(old(View()), kind, id)
      ensures RouterInv(old(View())) ==> RouterInv(View())
    {
      if RouterInv(View()) { RemoveInv(View(), kind, {id}); }
      var _ := RetainOthers(kind, {id});
    }

    /** One `try_send` with its bookkeeping; true when the subscriber has to go. */
    method SendOne(s: Subscriber, e: Event) returns (condemned: bool)
      modifies this
      ensures View() == Send(old(View()), s, e) && condemned == Condemned(old(View()), s, e)
    {
      var channel := if s.channel in channels then channels[s.channel] else Channel([], 0, false, []);
      var count := if s.slot in counters then counters[s.slot] else 0;
      var (c, o) := TrySend(channel, e);
      channels := channels[s.channel := c];
      match o {
        case Delivered =>
          counters := counters[s.slot := 0];
          stats := stats.(delivered := stats.delivered + 1);
          condemned := false;
        case Full =>
          stats := stats.(dropped := stats.dropped + 1);
          counters := counters[s.slot := count + 1];
          condemned := count + 1 >= limits.maxDrops;
        case Closed =>
          counters := counters[s.slot := count];
          stats := stats.(dropped := stats.dropped + 1);
          condemned := true;
      }
    }

    /** `dispatch`, run without interference. */
    method Dispatch(kind: Kind, e: Event)
      modifies this
      ensures View() == DispatchAlone(old(View()), kind, e)
    {
      var snapshot := if kind in subscribers then subscribers[kind] else [];
      if snapshot == [] {
        return;
      }
      stats := stats.(dispatched := stats.dispatched + 1);
      var toRemove: set<SubscriberId> := {};
      ghost var whole := SendAll(View(), snapshot, e, {});
      for i := 0 to |snapshot|
        invariant SendAll(View(), snapshot[i..], e, toRemove) == whole
      {
        assert snapshot[i..][1..] == snapshot[i + 1..];
        var condemned := SendOne(snapshot[i], e);
        if condemned {
          toRemove := toRemove + {snapshot[i].id};
        }
      }
      if toRemove != {} {
        var removed := RetainOthers(kind, toRemove);
        stats := stats.(evicted := stats.evicted + removed);
      }
    }

    /** The recomputed count; it agrees with the maintained counter. */
    method TotalSubscribers() returns (n: nat)
      requires RouterInv(View())
      ensures n == tracked
    {
      n := 0;
      var rest := subscribers;
      while rest != map[]
        invariant n + SumLen(rest) == SumLen(subscribers)
        decreases |rest|
      {
        var kind :| kind in rest;
        SumLenTake(rest, kind);
        n := n + |rest[kind]|;
        rest := rest - {kind};
      }
      SumLenEmpty<Kind, Subscriber>();
    }
  }
}

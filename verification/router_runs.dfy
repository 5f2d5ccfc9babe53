/** Whole runs of the event router: one dispatcher (the bridge loop) whose three phases
    interleave with subscribes, unsubscribes and the receivers' own steps. */
module RouterRuns {
  import opened Wrappers
  import opened Counting
  import opened Routing

  datatype Dispatcher =
    | Quiet
    | Sending(kind: Kind, event: Event, snapshot: seq<Subscriber>, next: nat, gone: set<SubscriberId>)

  datatype Attempt = Attempt(event: Event, outcome: Outcome)

  /** An accepted subscription; `since` is how many events its type had seen by then. */
  datatype Entry = Entry(kind: Kind, sub: Subscriber, since: nat)

  /** The history of a run, which the router itself does not keep. */
  datatype Books = Books(
    accepted: nat,
    removed: nat,
    snapshots: nat,
    registry: map<SubscriberId, Entry>,
    logs: map<Slot, seq<Attempt>>,
    published: map<Kind, seq<Event>>)

  datatype Sys = Sys(router: Router, dispatcher: Dispatcher, books: Books)

  datatype Action =
    | OpenChannel(channel: ChannelId, capacity: nat)
    | Subscribe(kind: Kind, id: SubscriberId, channel: ChannelId)
    | Unsubscribe(kind: Kind, id: SubscriberId)
    | Receive(channel: ChannelId)
    | CloseReceiver(channel: ChannelId)
    | Begin(kind: Kind, event: Event)
    | SendNext
    | Finish

  function New(limits: RouterLimits): Sys {
    Sys(WithLimits(limits), Quiet, Books(0, 0, 0, map[], map[], map[]))
  }

  function Log(b: Books, slot: Slot): seq<Attempt> {
    if slot in b.logs then b.logs[slot] else []
  }

  function Published(b: Books, kind: Kind): seq<Event> {
    if kind in b.published then b.published[kind] else []
  }

  predicate Enabled(s: Sys, a: Action) {
    match a
    case OpenChannel(c, capacity) => c !in s.router.channels && capacity > 0
    case Subscribe(_, _, c) => c in s.router.channels
    case Unsubscribe(_, _) => true
    case Receive(c) => c in s.router.channels && s.router.channels[c].queue != []
    case CloseReceiver(c) => c in s.router.channels
    case Begin(_, _) => s.dispatcher.Quiet?
    case SendNext => s.dispatcher.Sending? && s.dispatcher.next < |s.dispatcher.snapshot|
    case Finish => s.dispatcher.Sending? && s.dispatcher.next == |s.dispatcher.snapshot|
  }

  function SetChannel(s: Sys, c: ChannelId, ch: Channel): Sys {
    s.(router := s.router.(channels := s.router.channels[c := ch]))
  }

  function ApplySubscribe(s: Sys, kind: Kind, id: SubscriberId, c: ChannelId): Sys {
    match AddSubscriber(s.router, kind, id, c)
    case Err(_) => s
    case Ok(r) =>
      var sub := Subscriber(id, c, s.router.nextSlot);
      s.(router := r,
         books := s.books.(accepted := s.books.accepted + 1,
                           registry := s.books.registry[id := Entry(kind, sub, |Published(s.books, kind)|)],
                           logs := s.books.logs[sub.slot := []]))
  }

  function ApplyUnsubscribe(s: Sys, kind: Kind, id: SubscriberId): Sys {
    s.(router := DropSubscriber(s.router, kind, id),
       books := s.books.(removed := s.books.removed + Removed(s.router, kind, {id})))
  }

  function ApplyBegin(s: Sys, kind: Kind, e: Event): Sys {
    var snapshot := ListOf(s.router.subs, kind);
    var books := s.books.(published := s.books.published[kind := Published(s.books, kind) + [e]]);
    if snapshot == [] then s.(books := books)
    else Sys(CountDispatch(s.router), Sending(kind, e, snapshot, 0, {}),
             books.(snapshots := books.snapshots + |snapshot|))
  }

  function ApplySend(s: Sys): Sys
    requires Enabled(s, SendNext)
  {
    var d := s.dispatcher;
    var sub := d.snapshot[d.next];
    var attempt := Attempt(d.event, OutcomeFor(s.router, sub, d.event));
    Sys(Send(s.router, sub, d.event),
        d.(next := d.next + 1,
           gone := if Condemned(s.router, sub, d.event) then d.gone + {sub.id} else d.gone),
        s.books.(logs := s.books.logs[sub.slot := Log(s.books, sub.slot) + [attempt]]))
  }

  function ApplyFinish(s: Sys): Sys
    requires Enabled(s, Finish)
  {
    s.(router := if s.dispatcher.gone == {} then s.router else Evict(s.router, s.dispatcher.kind, s.dispatcher.gone),
       dispatcher := Quiet)
  }

  function Apply(s: Sys, a: Action): Sys
    requires Enabled(s, a)
  {
    match a
    case OpenChannel(c, capacity) => SetChannel(s, c, Channel([], capacity, true, []))
    case Subscribe(kind, id, c) => ApplySubscribe(s, kind, id, c)
    case Unsubscribe(kind, id) => ApplyUnsubscribe(s, kind, id)
    case Receive(c) =>
      var ch := s.router.channels[c];
      SetChannel(s, c, ch.(queue := ch.queue[1..], received := ch.received + [ch.queue[0]]))
    case CloseReceiver(c) => SetChannel(s, c, s.router.channels[c].(open := false))
    case Begin(kind, e) => ApplyBegin(s, kind, e)
    case SendNext => ApplySend(s)
    case Finish => ApplyFinish(s)
  }

  ghost predicate ValidRun(s: Sys, run: seq<Action>)
    decreases |run|
  {
    run == [] || (Enabled(s, run[0]) && ValidRun(Apply(s, run[0]), run[1..]))
  }

  ghost function Exec(s: Sys, run: seq<Action>): Sys
    requires ValidRun(s, run)
    decreases |run|
  {
    if run == [] then s else Exec(Apply(s, run[0]), run[1..])
  }

  // ---- bookkeeping that holds whatever ids the callers use ----

  function Unsent(d: Dispatcher): int {
    if d.Sending? then |d.snapshot| - d.next else 0
  }

  ghost predicate Balanced(s: Sys) {
    && RouterInv(s.router)
    && s.books.accepted == s.router.tracked + s.books.removed + s.router.stats.evicted
    && s.router.stats.delivered + s.router.stats.dropped + Unsent(s.dispatcher) == s.books.snapshots
    && (s.dispatcher.Sending? ==> s.dispatcher.next <= |s.dispatcher.snapshot|)
  }

  lemma BalancedStep(s: Sys, a: Action)
    requires Balanced(s) && Enabled(s, a)
    ensures Balanced(Apply(s, a))
  {
    match a
    case Subscribe(kind, id, c) => SubscribeInv(s.router, kind, id, c);
    case Unsubscribe(kind, id) => RemoveInv(s.router, kind, {id});
    case SendNext => SendInv(s.router, s.dispatcher.snapshot[s.dispatcher.next], s.dispatcher.event);
    case Finish => RemoveInv(s.router, s.dispatcher.kind, s.dispatcher.gone);
    case _ =>
  }

  lemma {:induction false} BalancedRun(s: Sys, run: seq<Action>)
    requires Balanced(s) && ValidRun(s, run)
    ensures Balanced(Exec(s, run))
    decreases |run|
  {
    if run != [] {
      hide Balanced, Apply;
      BalancedStep(s, run[0]);
      BalancedRun(Apply(s, run[0]), run[1..]);
    }
  }

  /** The cap that a configured number stands for: a zero counts as one. */
  predicate IsCap(cap: nat, configured: nat) {
    if configured == 0 then cap == 1 else cap == configured
  }

  /** In every reachable state: the maintained counter is the recomputed total and never
      underflows, both caps hold, no type has an empty list; accepted subscriptions are
      the current, the removed and the evicted ones; delivered plus dropped is the size of
      all snapshots but for the entries still to be sent. */
  lemma RouterBooksBalance(limits: RouterLimits, run: seq<Action>)
    requires ValidRun(New(limits), run)
    ensures var s := Exec(New(limits), run);
            && IsCap(s.router.limits.maxGlobal, limits.maxGlobal)
            && IsCap(s.router.limits.maxPerType, limits.maxPerType)
            && IsCap(s.router.limits.maxDrops, limits.maxDrops)
            && 0 <= s.router.tracked == SumLen(s.router.subs) <= s.router.limits.maxGlobal
            && (forall k :: k in s.router.subs ==> 0 < |s.router.subs[k]| <= s.router.limits.maxPerType)
            && s.books.accepted == SumLen(s.router.subs) + s.books.removed + s.router.stats.evicted
            && s.router.stats.delivered + s.router.stats.dropped + Unsent(s.dispatcher) == s.books.snapshots
  {
    WithLimitsInv(limits);
    BalancedRun(New(limits), run);
    LimitsNeverChange(New(limits), run);
  }

  lemma {:induction false} LimitsNeverChange(s: Sys, run: seq<Action>)
    requires ValidRun(s, run)
    ensures Exec(s, run).router.limits == s.router.limits
    decreases |run|
  {
    if run != [] {
      LimitsNeverChange(Apply(s, run[0]), run[1..]);
    }
  }
}

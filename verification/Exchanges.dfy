/**
 The part of the .NET backchannel that every protocol controller shares: an in-memory cache
 from a thread (or connection) id to a mutable exchange object, and the event aggregator
 whose one-shot subscriptions (`Where(predicate).Take(1).Subscribe(...)`) assign the state
 of the exchange object they captured.

 `Local` is what one thread id sees of an agent: the states of all exchange objects ever made
 for it in order of creation, which of them is cached, and its pending subscriptions. The
 protocol machines work on `Local`; class `Hub` is the agent-wide form over real objects, and
 its contracts say that every operation acts on one thread's `Local` and on no other's.
 */
module Exchanges {
  import opened Options

  /** A pending subscription: when an event of this kind is published, object `target` gets `next`. */
  datatype Sub<K, S> = Sub(kind: K, target: nat, next: S)

  datatype Local<K(==, !new), S(!new)> = Local(states: seq<S>, cached: Option<nat>, subs: seq<Sub<K, S>>) {

    /** Subscriptions and the cache refer to objects that exist. */
    ghost predicate Valid() {
      && (cached.Some? ==> cached.value < |states|)
      && Targets(subs, |states|)
    }

    /** `cache.Set(id, new Exchange { State = state })` */
    function Create(state: S): Local<K, S> {
      Local(states + [state], Some(|states|), subs)
    }

    /** `exchange.State = state`, whether or not the object is still the cached one. */
    function Assign(target: nat, state: S): Local<K, S> {
      Local(Put(states, target, state), cached, subs)
    }

    /** `UpdateStateOnMessage(exchange, next, event => event.MessageType == kind && ...)` */
    function Subscribe(kind: K, target: nat, next: S): Local<K, S> {
      Local(states, cached, subs + [Sub(kind, target, next)])
    }

    /** `eventAggregator.Publish(event)`: every pending subscription of this kind fires and is gone. */
    function Publish(kind: K): Local<K, S> {
      Local(FireAll(states, subs, kind), cached, Pending(subs, kind))
    }
  }

  /** Indices stand for references, so in every state with `Valid()` the object exists. */
  function Put<S>(states: seq<S>, target: nat, state: S): seq<S> {
    if target < |states| then states[target := state] else states
  }

  function Empty<K(==, !new), S(!new)>(): Local<K, S> {
    Local([], None, [])
  }

  ghost predicate Targets<K, S>(subs: seq<Sub<K, S>>, n: nat) {
    forall i | 0 <= i < |subs| :: subs[i].target < n
  }

  /** The states after the subscriptions of one kind ran in the order in which they subscribed. */
  function FireAll<K(==), S>(states: seq<S>, subs: seq<Sub<K, S>>, kind: K): (fired: seq<S>)
    ensures |fired| == |states|
  {
    if subs == [] then states
    else
      var before := FireAll(states, subs[..|subs| - 1], kind);
      var last := subs[|subs| - 1];
      if last.kind == kind then Put(before, last.target, last.next) else before
  }

  function Pending<K(==, !new), S(!new)>(subs: seq<Sub<K, S>>, kind: K): (pending: seq<Sub<K, S>>)
    ensures forall sub :: sub in pending <==> sub in subs && sub.kind != kind
  {
    if subs == [] then []
    else
      var last := subs[|subs| - 1];
      assert subs == subs[..|subs| - 1] + [last];
      var before := Pending(subs[..|subs| - 1], kind);
      if last.kind == kind then before else before + [last]
  }

  /**
   When all pending subscriptions of a kind assign the same state, publishing that kind moves
   exactly the objects some of them captured, and moves them to that state.
   */
  lemma {:induction false} FireAllAt<K(!new), S(!new)>(states: seq<S>, subs: seq<Sub<K, S>>, kind: K, next: S,
                                       target: nat)
    requires target < |states|
    requires forall sub | sub in subs && sub.kind == kind :: sub.next == next
    ensures FireAll(states, subs, kind)[target]
         == if exists i | 0 <= i < |subs| :: subs[i].kind == kind && subs[i].target == target then next
            else states[target]
  {
    if subs == [] {
    } else {
      var prefix, last := subs[..|subs| - 1], subs[|subs| - 1];
      assert subs == prefix + [last];
      FireAllAt(states, prefix, kind, next, target);
      assert last in subs;
    }
  }

  /** Nothing pending for a kind means publishing it changes no state. */
  lemma {:induction false} FireNothing<K(!new), S(!new)>(states: seq<S>, subs: seq<Sub<K, S>>, kind: K)
    requires forall sub | sub in subs :: sub.kind != kind
    ensures FireAll(states, subs, kind) == states
  {
    if subs == [] {
    } else {
      var prefix, last := subs[..|subs| - 1], subs[|subs| - 1];
      assert subs == prefix + [last];
      assert last in subs;
      FireNothing(states, prefix, kind);
    }
  }

  lemma {:induction false} AllSpent<K(!new), S(!new)>(subs: seq<Sub<K, S>>, kind: K)
    requires forall sub | sub in subs :: sub.kind == kind
    ensures Pending(subs, kind) == []
  {
    if subs == [] {
    } else {
      AllSpent(subs[..|subs| - 1], kind);
      assert subs[|subs| - 1] in subs;
    }
  }

  /** Some pending subscription of this kind captured object `x`. */
  predicate Listening<K(==, !new), S(!new)>(l: Local<K, S>, kind: K, x: nat) {
    exists i | 0 <= i < |l.subs| :: l.subs[i].kind == kind && l.subs[i].target == x
  }

  /** What publishing does to a well-formed agent whose subscriptions of that kind agree on the new state. */
  lemma PublishMoves<K(!new), S(!new)>(l: Local<K, S>, kind: K, next: S)
    requires l.Valid()
    requires forall sub | sub in l.subs && sub.kind == kind :: sub.next == next
    ensures l.Publish(kind).Valid() && |l.Publish(kind).states| == |l.states|
    ensures forall x | 0 <= x < |l.states| ::
              l.Publish(kind).states[x] == if Listening(l, kind, x) then next else l.states[x]
    ensures forall sub | sub in l.Publish(kind).subs :: sub in l.subs && sub.kind != kind
  {
    forall x | 0 <= x < |l.states|
      ensures l.Publish(kind).states[x] == if Listening(l, kind, x) then next else l.states[x]
    {
      FireAllAt(l.states, l.subs, kind, next, x);
    }
    var pending := Pending(l.subs, kind);
    forall i | 0 <= i < |pending| ensures pending[i].target < |l.states| {
      assert pending[i] in l.subs;
    }
  }

  /** From `l` to `l'`, exchange `x` was assigned that state, or left alone; no exchange went away. */
  ghost predicate Becomes<K(!new), S(!new)>(l: Local<K, S>, l': Local<K, S>, x: nat, given: Option<S>) {
    && |l.states| <= |l'.states|
    && (given.Some? ==> x < |l'.states| && l'.states[x] == given.value)
    && (given.None? && x < |l'.states| ==> x < |l.states| && l'.states[x] == l.states[x])
  }

  lemma CreateBecomes<K(!new), S(!new)>(l: Local<K, S>, state: S, x: nat)
    ensures Becomes(l, l.Create(state), x, if x == |l.states| then Some(state) else None)
  {
  }

  lemma AssignBecomes<K(!new), S(!new)>(l: Local<K, S>, y: nat, state: S, x: nat)
    requires y < |l.states|
    ensures Becomes(l, l.Assign(y, state), x, if x == y then Some(state) else None)
  {
  }

  lemma PublishBecomes<K(!new), S(!new)>(l: Local<K, S>, kind: K, next: S, x: nat)
    requires l.Valid() && forall sub | sub in l.subs && sub.kind == kind :: sub.next == next
    ensures Becomes(l, l.Publish(kind), x, if Listening(l, kind, x) then Some(next) else None)
  {
    PublishMoves(l, kind, next);
    if Listening(l, kind, x) {
      var i :| 0 <= i < |l.subs| && l.subs[i].kind == kind && l.subs[i].target == x;
    }
  }

  lemma StaysAsItIs<K(!new), S(!new)>(l: Local<K, S>, l': Local<K, S>, x: nat)
    requires l'.states == l.states
    ensures Becomes(l, l', x, None)
  {
  }

  // ---------------------------------------------------------------------------
  // The agent-wide form
  // ---------------------------------------------------------------------------

  /** TestHarnessCredentialExchange and its two siblings: an id that never changes and a state that does. */
  class Exchange<S> {
    const thread: string
    ghost const index: nat // position among the exchanges made for this thread
    var state: S

    constructor (thread: string, ghost index: nat, state: S)
      ensures this.thread == thread && this.index == index && this.state == state
    {
      this.thread, this.index, this.state := thread, index, state;
    }
  }

  datatype Subscription<K, !S> = Subscription(kind: K, exchange: Exchange<S>, next: S)

  /** One thread's share of the subscriptions of an agent, in the order in which they subscribed. */
  ghost function SubsOf<K, S>(subs: seq<Subscription<K, S>>, thread: string): seq<Sub<K, S>> {
    if subs == [] then []
    else
      var last := subs[|subs| - 1];
      var before := SubsOf(subs[..|subs| - 1], thread);
      if last.exchange.thread == thread then before + [Sub(last.kind, last.exchange.index, last.next)] else before
  }

  lemma {:induction false} SubsOfTargets<K, S>(subs: seq<Subscription<K, S>>, thread: string, n: nat)
    requires forall i | 0 <= i < |subs| :: subs[i].exchange.thread == thread ==> subs[i].exchange.index < n
    ensures Targets(SubsOf(subs, thread), n)
  {
    if subs == [] {
    } else {
      SubsOfTargets(subs[..|subs| - 1], thread, n);
    }
  }

  /** The subscriptions an event leaves pending. */
  ghost function Unmatched<K, S>(subs: seq<Subscription<K, S>>, kind: K, thread: string): seq<Subscription<K, S>> {
    if subs == [] then []
    else
      var last := subs[|subs| - 1];
      var before := Unmatched(subs[..|subs| - 1], kind, thread);
      if last.kind == kind && last.exchange.thread == thread then before else before + [last]
  }

  lemma FireNext<K(!new), S(!new)>(states: seq<S>, subs: seq<Subscription<K, S>>, i: nat, kind: K, thread: string)
    requires i < |subs|
    ensures FireAll(states, SubsOf(subs[..i + 1], thread), kind)
         == if subs[i].kind == kind && subs[i].exchange.thread == thread
            then Put(FireAll(states, SubsOf(subs[..i], thread), kind), subs[i].exchange.index, subs[i].next)
            else FireAll(states, SubsOf(subs[..i], thread), kind)
  {
    assert subs[..i + 1][..i] == subs[..i];
    var before, own := SubsOf(subs[..i], thread), Sub(subs[i].kind, subs[i].exchange.index, subs[i].next);
    assert (before + [own])[..|before|] == before;
  }

  lemma {:induction false} UnmatchedIn<K, S>(subs: seq<Subscription<K, S>>, kind: K, thread: string)
    ensures forall sub | sub in Unmatched(subs, kind, thread) :: sub in subs
  {
    if subs == [] {
    } else {
      UnmatchedIn(subs[..|subs| - 1], kind, thread);
    }
  }

  lemma UnmatchedNext<K, S>(subs: seq<Subscription<K, S>>, i: nat, kind: K, thread: string)
    requires i < |subs|
    ensures Unmatched(subs[..i + 1], kind, thread)
         == if subs[i].kind == kind && subs[i].exchange.thread == thread then Unmatched(subs[..i], kind, thread)
            else Unmatched(subs[..i], kind, thread) + [subs[i]]
  {
    assert subs[..i + 1][..i] == subs[..i];
  }

  /** An event about one thread spends that thread's subscriptions of its kind and nobody else's. */
  lemma {:induction false} UnmatchedSubsOf<K(!new), S(!new)>(subs: seq<Subscription<K, S>>, kind: K, thread: string,
                                                             u: string)
    ensures SubsOf(Unmatched(subs, kind, thread), u)
         == if u == thread then Pending(SubsOf(subs, u), kind) else SubsOf(subs, u)
  {
    if subs == [] {
    } else {
      var prefix, last := subs[..|subs| - 1], subs[|subs| - 1];
      UnmatchedSubsOf(prefix, kind, thread, u);
      var kept := Unmatched(prefix, kind, thread);
      assert (kept + [last])[..|kept|] == kept;
      var seen := SubsOf(prefix, u);
      var own := Sub(last.kind, last.exchange.index, last.next);
      assert (seen + [own])[..|seen|] == seen;
    }
  }

  /** The states of a sequence of exchange objects. */
  ghost function States<S>(exchanges: seq<Exchange<S>>): (states: seq<S>)
    reads exchanges
    ensures |states| == |exchanges|
    ensures forall i | 0 <= i < |states| :: states[i] == exchanges[i].state
  {
    seq(|exchanges|, i requires 0 <= i < |exchanges| reads exchanges => exchanges[i].state)
  }

  class Hub<K(==, !new), S(!new)> {
    var cache: map<string, Exchange<S>>
    var subs: seq<Subscription<K, S>>
    ghost var made: map<string, seq<Exchange<S>>>
    ghost var repr: set<Exchange<S>>

    /** The exchanges made for a thread, oldest first. */
    ghost function Made(thread: string): seq<Exchange<S>>
      reads this`made
    {
      if thread in made then made[thread] else []
    }

    ghost predicate Valid()
      reads this
    {
      && (forall t, i | t in made && 0 <= i < |made[t]| ::
            made[t][i] in repr && made[t][i].thread == t && made[t][i].index == i)
      && (forall t | t in cache :: Known(cache[t]) && cache[t].thread == t)
      && (forall i | 0 <= i < |subs| :: Known(subs[i].exchange))
    }

    ghost predicate Known(exchange: Exchange<S>)
      reads this`made
    {
      && exchange.thread in made
      && exchange.index < |made[exchange.thread]|
      && made[exchange.thread][exchange.index] == exchange
    }

    /** What thread `t` sees of this agent. */
    ghost function View(t: string): (view: Local<K, S>)
      requires Valid()
      reads this, Made(t)
      ensures view.Valid()
    {
      SubsOfTargets(subs, t, |Made(t)|);
      Local(States(Made(t)), if t in cache then Some(cache[t].index) else None, SubsOf(subs, t))
    }

    /** Nothing a thread can see of this agent has changed. */
    twostate lemma Untouched(u: string)
      requires old(Valid()) && Valid()
      requires Made(u) == old(Made(u)) && SubsOf(subs, u) == old(SubsOf(subs, u))
      requires (u in cache) == old(u in cache) && (u in cache ==> cache[u] == old(cache[u]))
      requires forall x | x in Made(u) :: x.state == old(x.state)
      ensures View(u) == old(View(u))
    {
      assert States(Made(u)) == old(States(Made(u)));
    }

    constructor ()
      ensures Valid() && repr == {}
      ensures forall t :: View(t) == Empty()
    {
      cache, subs, made, repr := map[], [], map[], {};
    }

    /** `var x = new Exchange { ThreadId = t, State = state };` */
    method Make(t: string, state: S) returns (x: Exchange<S>)
      requires Valid()
      modifies this`made, this`repr
      ensures Valid() && Known(x) && fresh(x) && repr == old(repr) + {x}
      ensures x.thread == t && x.index == |old(Made(t))| && x.state == state
      ensures Made(t) == old(Made(t)) + [x]
      ensures forall u | u != t :: Made(u) == old(Made(u))
    {
      x := new Exchange(t, |Made(t)|, state);
      made := made[t := Made(t) + [x]];
      repr := repr + {x};
    }

    /** `var x = new Exchange { ThreadId = t, State = state }; cache.Set(t, x);` */
    method Create(t: string, state: S) returns (x: Exchange<S>)
      requires Valid()
      modifies this
      ensures Valid() && fresh(x) && repr == old(repr) + {x}
      ensures t in cache && cache[t] == x && x.index == |old(Made(t))|
      ensures View(t) == old(View(t)).Create(state)
      ensures forall u | u != t :: View(u) == old(View(u))
    {
      x := Make(t, state);
      cache := cache[t := x];
      assert States(Made(t)) == old(States(Made(t))) + [state];
      forall u | u != t ensures View(u) == old(View(u)) {
        Untouched(u);
      }
    }

    /** `x.State = state;` */
    method Assign(x: Exchange<S>, state: S)
      requires Valid() && Known(x)
      modifies x
      ensures Valid()
      ensures View(x.thread) == old(View(x.thread)).Assign(x.index, state)
      ensures forall u | u != x.thread :: View(u) == old(View(u))
    {
      x.state := state;
    }

    /** `UpdateStateOnMessage(x, next, event => event.MessageType == kind && event.ThreadId == x.ThreadId)` */
    method Subscribe(kind: K, x: Exchange<S>, next: S)
      requires Valid() && Known(x)
      modifies this`subs
      ensures Valid()
      ensures View(x.thread) == old(View(x.thread)).Subscribe(kind, x.index, next)
      ensures forall u | u != x.thread :: View(u) == old(View(u))
    {
      subs := subs + [Subscription(kind, x, next)];
      assert subs[..|subs| - 1] == old(subs);
    }

    /** Runs a subscription, if it accepts an event about `t`. */
    method Run(sub: Subscription<K, S>, kind: K, t: string) returns (spent: bool)
      requires Valid() && Known(sub.exchange)
      modifies sub.exchange
      ensures Valid() && spent == (sub.kind == kind && sub.exchange.thread == t)
      ensures View(t).states
           == if spent then Put(old(View(t)).states, sub.exchange.index, sub.next) else old(View(t)).states
      ensures !spent ==> sub.exchange.state == old(sub.exchange.state)
    {
      spent := sub.kind == kind && sub.exchange.thread == t;
      if spent {
        Assign(sub.exchange, sub.next);
      }
    }

    /** Runs the subscriptions that accept an event about `t`, in order, and returns the others. */
    method RunSubscriptions(kind: K, t: string) returns (pending: seq<Subscription<K, S>>)
      requires Valid()
      modifies repr
      ensures Valid()
      ensures pending == Unmatched(subs, kind, t)
      ensures View(t).states == FireAll(old(View(t)).states, SubsOf(subs, t), kind)
      ensures forall u | u != t :: View(u) == old(View(u))
    {
      pending := [];
      ghost var states := View(t).states;
      for i := 0 to |subs|
        invariant Valid()
        invariant pending == Unmatched(subs[..i], kind, t)
        invariant View(t).states == FireAll(states, SubsOf(subs[..i], t), kind)
        invariant forall x | x in repr && x.thread != t :: x.state == old(x.state)
      {
        var sub := subs[i];
        UnmatchedNext(subs, i, kind, t);
        FireNext(states, subs, i, kind, t);
        var spent := Run(sub, kind, t);
        pending := if spent then pending else pending + [sub];
      }
      assert subs[..|subs|] == subs;
      forall u | u != t ensures View(u) == old(View(u)) {
        Untouched(u);
      }
    }

    /**
     `eventAggregator.Publish(new ServiceMessageProcessingEvent { MessageType = kind, ThreadId = t })`:
     the subscriptions whose predicate accepts the event run in order and are spent.
     */
    method Publish(kind: K, t: string)
      requires Valid()
      modifies this`subs, repr
      ensures Valid()
      ensures View(t) == old(View(t)).Publish(kind)
      ensures forall u | u != t :: View(u) == old(View(u))
    {
      var pending := RunSubscriptions(kind, t);
      Keep(pending, kind, t);
    }

    /** Leaves only these subscriptions pending. */
    method Keep(pending: seq<Subscription<K, S>>, ghost kind: K, ghost t: string)
      requires Valid() && pending == Unmatched(subs, kind, t)
      modifies this`subs
      ensures Valid()
      ensures View(t) == old(View(t)).(subs := Pending(old(View(t)).subs, kind))
      ensures forall u | u != t :: View(u) == old(View(u))
    {
      assert forall k | 0 <= k < |pending| :: Known(pending[k].exchange) by {
        UnmatchedIn(subs, kind, t);
        assert forall k | 0 <= k < |pending| :: pending[k] in subs;
      }
      UnmatchedSubsOf(subs, kind, t, t);
      subs := pending;
      forall u | u != t ensures View(u) == old(View(u)) {
        UnmatchedSubsOf(old(subs), kind, t, u);
        Untouched(u);
      }
    }
  }
}

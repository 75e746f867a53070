/**
 The message queues and message stacks shared by the Python backchannels, with any number of
 calls in flight: every call has a program counter, and every step of a call is one step of the
 system. Queues and stacks run the same code over asyncio.Queue and asyncio.LifoQueue.
 */
module MessageQueue {
  import opened Options
  import opened Runs

  datatype Discipline = Fifo | Lifo

  datatype Request = Push(value: string) | Pop

  /** The put or get task behind asyncio.shield: not done, or done with the item of that number. */
  datatype Inner = Pending | Done(item: nat)

  /** The call that waits for the shielded task. */
  datatype Outer = Awaiting | Answered | TimedOut

  datatype Counter =
    | Checking               // is there a queue for the type?
    | Fetching               // there was: look it up
    | Acquiring              // there was none: take the lock
    | Rechecking             // the same again under the lock
    | Refetching
    | Creating
    | Binding(q: nat)
    | Releasing(q: nat)
    | Selected(q: nat)       // back in the push or the pop
    | Running(q: nat, inner: Inner, outer: Outer)
    | Failed                 // KeyError

  /** One push or pop; `timed` when its timeout is positive, otherwise it waits for ever. */
  datatype Call = Call(key: string, request: Request, timed: bool, at: Counter)

  /** Items are numbered in the order they were put; `taken` is the order they left in. */
  datatype Queue = Queue(key: string, put: seq<string>, waiting: seq<nat>, taken: seq<nat>)

  datatype System = System(
    order: Discipline,
    bound: map<string, nat>,  // message_queues, or message_stacks
    lock: Option<nat>,        // the call in the critical section
    queues: seq<Queue>,       // every queue ever created
    calls: seq<Call>)         // every call ever made

  function Fresh(order: Discipline): System {
    System(order, map[], None, [], [])
  }

  datatype Action =
    | Start(key: string, request: Request, timed: bool)
    | Advance(c: nat)  // the next step of call c
    | Work(c: nat)     // its shielded task runs
    | Answer(c: nat)   // the result reaches the call
    | Expire(c: nat)   // the timer does

  function Step(s: System, a: Action): Option<System> {
    match a
    case Start(key, request, timed) => Some(s.(calls := s.calls + [Call(key, request, timed, Checking)]))
    case Advance(c) => if c < |s.calls| then Next(s, c) else None
    case Work(c) => if c < |s.calls| then Perform(s, c) else None
    case Answer(c) =>
      if c < |s.calls| && s.calls[c].at.Running? && s.calls[c].at.inner.Done? && s.calls[c].at.outer.Awaiting?
      then Some(Goto(s, c, s.calls[c].at.(outer := Answered)))
      else None
    case Expire(c) =>
      if c < |s.calls| && s.calls[c].timed && s.calls[c].at.Running? && s.calls[c].at.outer.Awaiting?
      then Some(Goto(s, c, s.calls[c].at.(outer := TimedOut)))
      else None
  }

  function Goto(s: System, c: nat, at: Counter): System
    requires c < |s.calls|
  {
    s.(calls := s.calls[c := s.calls[c].(at := at)])
  }

  /** One step of _get_queue, or the start of the shielded task. */
  function Next(s: System, c: nat): Option<System>
    requires c < |s.calls|
  {
    var key := s.calls[c].key;
    match s.calls[c].at
    case Checking => Some(Goto(s, c, if key in s.bound then Fetching else Acquiring))
    case Fetching => Some(Goto(s, c, if key in s.bound then Selected(s.bound[key]) else Failed))
    case Acquiring => if s.lock.Some? then None else Some(Goto(s.(lock := Some(c)), c, Rechecking))
    case Rechecking => Some(Goto(s, c, if key in s.bound then Refetching else Creating))
    case Refetching =>
      if key in s.bound then Some(Goto(s, c, Releasing(s.bound[key])))
      else Some(Goto(s.(lock := None), c, Failed))
    case Creating => Some(Goto(s.(queues := s.queues + [Queue(key, [], [], [])]), c, Binding(|s.queues|)))
    case Binding(q) => Some(Goto(s.(bound := s.bound[key := q]), c, Releasing(q)))
    case Releasing(q) => Some(Goto(s.(lock := None), c, Selected(q)))
    case Selected(q) =>
      if s.calls[c].request.Push? then Some(Goto(s, c, Running(q, Pending, Awaiting)))
      else Some(Goto(s, c, if key in s.bound then Running(s.bound[key], Pending, Awaiting) else Failed))
    case Running(_, _, _) => None
    case Failed => None
  }

  /** The shielded task, which goes on whether or not its call still waits. A put never blocks. */
  function Perform(s: System, c: nat): Option<System>
    requires c < |s.calls|
  {
    var call := s.calls[c];
    if !call.at.Running? || !call.at.inner.Pending? || call.at.q >= |s.queues| then None
    else
      var queue := s.queues[call.at.q];
      if call.request.Push? then
        Some(Goto(s.(queues := s.queues[call.at.q := Put(queue, call.request.value)]), c,
                  call.at.(inner := Done(|queue.put|))))
      else if queue.waiting == [] then None
      else
        Some(Goto(s.(queues := s.queues[call.at.q := Take(queue, s.order)]), c,
                  call.at.(inner := Done(Chosen(queue, s.order)))))
  }

  function Put(queue: Queue, value: string): Queue {
    queue.(put := queue.put + [value], waiting := queue.waiting + [|queue.put|])
  }

  function Chosen(queue: Queue, order: Discipline): nat
    requires queue.waiting != []
  {
    if order == Fifo then queue.waiting[0] else queue.waiting[|queue.waiting| - 1]
  }

  function Take(queue: Queue, order: Discipline): Queue
    requires queue.waiting != []
  {
    queue.(waiting := if order == Fifo then queue.waiting[1..] else queue.waiting[..|queue.waiting| - 1],
           taken := queue.taken + [Chosen(queue, order)])
  }

  // ---------------------------------------------------------------------------
  // Creation
  // ---------------------------------------------------------------------------

  predicate InSection(at: Counter) {
    at.Rechecking? || at.Refetching? || at.Creating? || at.Binding? || at.Releasing?
  }

  /** The lock is held by the one call in the critical section. */
  ghost predicate Locking(s: System) {
    && (s.lock.Some? ==> s.lock.value < |s.calls|)
    && forall c | 0 <= c < |s.calls| :: InSection(s.calls[c].at) <==> s.lock == Some(c)
  }

  /** The queue a call has been given. */
  function Given(at: Counter): Option<nat> {
    match at
    case Releasing(q) => Some(q)
    case Selected(q) => Some(q)
    case Running(q, _, _) => Some(q)
    case _ => None
  }

  ghost predicate CallOk(s: System, call: Call) {
    && (Given(call.at).Some? ==> call.key in s.bound && s.bound[call.key] == Given(call.at).value)
    && (call.at.Fetching? || call.at.Refetching? ==> call.key in s.bound)
    && (call.at.Creating? || call.at.Binding? ==> call.key !in s.bound)
    && (call.at.Binding? ==> call.at.q < |s.queues| && s.queues[call.at.q].key == call.key)
    && !call.at.Failed?
  }

  /** Every queue is bound to its type, but for the one about to be. */
  ghost predicate QueuesBound(s: System) {
    && (forall key | key in s.bound :: s.bound[key] < |s.queues| && s.queues[s.bound[key]].key == key)
    && forall q | 0 <= q < |s.queues| ::
         (s.queues[q].key in s.bound && s.bound[s.queues[q].key] == q) || AboutToBind(s, q)
  }

  ghost predicate AboutToBind(s: System, q: nat) {
    s.lock.Some? && s.lock.value < |s.calls| && s.calls[s.lock.value].at == Binding(q)
  }

  ghost predicate Bindings(s: System) {
    && Locking(s)
    && QueuesBound(s)
    && CallsOk(s)
  }

  ghost predicate CallsOk(s: System) {
    forall c | 0 <= c < |s.calls| :: CallOk(s, s.calls[c])
  }

  /** What can happen to the bindings while call c makes a step. */
  ghost predicate Grew(s: System, s': System, c: nat)
    requires c < |s.calls|
  {
    && (forall key | key in s.bound :: key in s'.bound && s'.bound[key] == s.bound[key])
    && (forall key | key in s'.bound :: key in s.bound || (InSection(s.calls[c].at) && key == s.calls[c].key))
    && |s.queues| <= |s'.queues|
    && forall q | 0 <= q < |s.queues| :: s'.queues[q].key == s.queues[q].key
  }

  /** What the other calls rely on is not disturbed. */
  lemma CallsStayOk(s: System, s': System, c: nat)
    requires Locking(s) && CallsOk(s) && c < |s.calls| && Grew(s, s', c)
    requires |s'.calls| == |s.calls| && CallOk(s', s'.calls[c])
    requires forall d | 0 <= d < |s.calls| && d != c :: s'.calls[d] == s.calls[d]
    ensures CallsOk(s')
  {
    forall d | 0 <= d < |s.calls| && d != c ensures CallOk(s', s'.calls[d]) {
      assert CallOk(s, s.calls[d]);
      assert InSection(s.calls[c].at) ==> !InSection(s.calls[d].at);
    }
  }

  lemma NextLocks(s: System, c: nat)
    requires Locking(s) && c < |s.calls| && Next(s, c).Some?
    ensures Locking(Next(s, c).value)
  {
    match s.calls[c].at
    case Checking =>
    case Fetching =>
    case Acquiring =>
    case Rechecking =>
    case Refetching =>
    case Creating =>
    case Binding(q) =>
    case Releasing(q) =>
    case Selected(q) =>
  }

  lemma NextBindsQueues(s: System, c: nat)
    requires Locking(s) && QueuesBound(s) && c < |s.calls| && CallOk(s, s.calls[c]) && Next(s, c).Some?
    ensures QueuesBound(Next(s, c).value) && Grew(s, Next(s, c).value, c)
  {
    match s.calls[c].at
    case Checking =>
    case Fetching =>
    case Acquiring =>
    case Rechecking =>
    case Refetching =>
    case Creating =>
    case Binding(q) =>
    case Releasing(q) =>
    case Selected(q) =>
  }

  lemma NextCallOk(s: System, c: nat)
    requires QueuesBound(s) && c < |s.calls| && CallOk(s, s.calls[c]) && Next(s, c).Some?
    ensures CallOk(Next(s, c).value, Next(s, c).value.calls[c])
  {
    match s.calls[c].at
    case Checking =>
    case Fetching =>
    case Acquiring =>
    case Rechecking =>
    case Refetching =>
    case Creating =>
    case Binding(q) =>
    case Releasing(q) =>
    case Selected(q) =>
  }

  lemma NextBinds(s: System, c: nat)
    requires Bindings(s) && c < |s.calls| && Next(s, c).Some?
    ensures Bindings(Next(s, c).value) && Grew(s, Next(s, c).value, c)
  {
    NextLocks(s, c);
    NextBindsQueues(s, c);
    NextCallOk(s, c);
    CallsStayOk(s, Next(s, c).value, c);
  }

  /** The steps of a call that has its queue. */
  lemma RunningBinds(s: System, s': System, c: nat)
    requires Bindings(s) && c < |s.calls| && s.calls[c].at.Running?
    requires s'.bound == s.bound && s'.lock == s.lock && |s'.queues| == |s.queues|
    requires forall q | 0 <= q < |s.queues| :: s'.queues[q].key == s.queues[q].key
    requires exists at: Counter ::
               at.Running? && at.q == s.calls[c].at.q && s'.calls == s.calls[c := s.calls[c].(at := at)]
    ensures Bindings(s') && Grew(s, s', c)
  {
    assert CallOk(s, s.calls[c]);
    CallsStayOk(s, s', c);
  }

  lemma StepBinds(s: System, a: Action)
    requires Bindings(s) && Step(s, a).Some?
    ensures Bindings(Step(s, a).value)
    ensures forall key | key in s.bound :: key in Step(s, a).value.bound && Step(s, a).value.bound[key] == s.bound[key]
  {
    match a
    case Start(_, _, _) => assert forall d | 0 <= d < |s.calls| :: CallOk(s, s.calls[d]);
    case Advance(c) => NextBinds(s, c);
    case Work(c) => RunningBinds(s, Step(s, a).value, c);
    case Answer(c) => RunningBinds(s, Step(s, a).value, c);
    case Expire(c) => RunningBinds(s, Step(s, a).value, c);
  }

  lemma RunBinds(order: Discipline, actions: seq<Action>)
    requires After(Step, Fresh(order), actions).Some?
    ensures Bindings(After(Step, Fresh(order), actions).value)
  {
    forall s, a | Bindings(s) && Step(s, a).Some? ensures Bindings(Step(s, a).value) {
      StepBinds(s, a);
    }
    InvariantHolds(Step, Fresh(order), Bindings, actions);
  }

  /** Once bound, a type stays bound to the same queue. */
  lemma {:induction false} NeverRebound(order: Discipline, actions: seq<Action>, n: nat, key: string)
    requires After(Step, Fresh(order), actions).Some? && n <= |actions|
    ensures After(Step, Fresh(order), actions[..n]).Some?
    ensures var early, late := After(Step, Fresh(order), actions[..n]).value, After(Step, Fresh(order), actions).value;
            key in early.bound ==> key in late.bound && late.bound[key] == early.bound[key]
  {
    PrefixIsRun(Step, Fresh(order), actions, n);
    if n == |actions| {
      assert actions[..n] == actions;
    } else {
      var before := actions[..|actions| - 1];
      assert before[..n] == actions[..n];
      NeverRebound(order, before, n, key);
      RunBinds(order, before);
      StepBinds(After(Step, Fresh(order), before).value, actions[|actions| - 1]);
    }
  }

  /** All callers of a type get the one queue of that type, and no look-up fails. */
  lemma OneQueuePerType(order: Discipline, actions: seq<Action>, c: nat, d: nat)
    requires After(Step, Fresh(order), actions).Some?
    requires c < |After(Step, Fresh(order), actions).value.calls|
    requires d < |After(Step, Fresh(order), actions).value.calls|
    ensures var s := After(Step, Fresh(order), actions).value;
            var p, q := Given(s.calls[c].at), Given(s.calls[d].at);
            && (p.Some? && q.Some? ==> (p == q <==> s.calls[c].key == s.calls[d].key))
            && (forall i, j :: 0 <= i < j < |s.queues| ==> s.queues[i].key != s.queues[j].key)
            && !s.calls[c].at.Failed?
  {
    RunBinds(order, actions);
    var s := After(Step, Fresh(order), actions).value;
    assert CallOk(s, s.calls[c]) && CallOk(s, s.calls[d]);
    forall i, j | 0 <= i < j < |s.queues| ensures s.queues[i].key != s.queues[j].key {
      if s.lock.Some? {
        assert CallOk(s, s.calls[s.lock.value]);
      }
    }
  }

  // ---------------------------------------------------------------------------
  // Conservation
  // ---------------------------------------------------------------------------

  function Upto(n: nat): seq<nat> {
    seq(n, i => i)
  }

  /** Every item put is either taken or waiting; items wait in the order they were put. */
  ghost predicate QueueOk(queue: Queue, order: Discipline) {
    && |queue.taken| + |queue.waiting| == |queue.put|
    && (forall i | 0 <= i < |queue.put| :: i in queue.taken <==> i !in queue.waiting)
    && (forall i | i in queue.taken || i in queue.waiting :: i < |queue.put|)
    && (forall i, j :: 0 <= i < j < |queue.waiting| ==> queue.waiting[i] < queue.waiting[j])
    && (order == Fifo ==> queue.taken + queue.waiting == Upto(|queue.put|))
  }

  lemma PutOk(queue: Queue, order: Discipline, value: string)
    requires QueueOk(queue, order)
    ensures QueueOk(Put(queue, value), order)
  {
    assert forall i | 0 <= i < |queue.waiting| :: queue.waiting[i] in queue.waiting;
    assert Upto(|queue.put| + 1) == Upto(|queue.put|) + [|queue.put|];
    assert queue.taken + (queue.waiting + [|queue.put|]) == (queue.taken + queue.waiting) + [|queue.put|];
  }

  lemma TakeOldestOk(queue: Queue)
    requires QueueOk(queue, Fifo) && queue.waiting != []
    ensures QueueOk(Take(queue, Fifo), Fifo) && queue.waiting[0] !in queue.taken
  {
    var left, i := queue.waiting[1..], queue.waiting[0];
    assert queue.waiting == [i] + left;
    assert i in queue.waiting && i !in left;
    assert (queue.taken + [i]) + left == queue.taken + queue.waiting;
  }

  lemma TakeNewestOk(queue: Queue)
    requires QueueOk(queue, Lifo) && queue.waiting != []
    ensures QueueOk(Take(queue, Lifo), Lifo) && queue.waiting[|queue.waiting| - 1] !in queue.taken
  {
    var left, i := queue.waiting[..|queue.waiting| - 1], queue.waiting[|queue.waiting| - 1];
    assert queue.waiting == left + [i];
    assert i in queue.waiting && i !in left;
  }

  lemma TakeOk(queue: Queue, order: Discipline)
    requires QueueOk(queue, order) && queue.waiting != []
    ensures QueueOk(Take(queue, order), order) && Chosen(queue, order) !in queue.taken
  {
    match order
    case Fifo => TakeOldestOk(queue);
    case Lifo => TakeNewestOk(queue);
  }

  datatype Part = Puts | Takes | TakesOf(outer: Outer)

  /** The call has put that item into queue q, or taken it from there; any item when none is given. */
  predicate Has(call: Call, q: nat, part: Part, item: Option<nat>) {
    && call.at.Running? && call.at.q == q && call.at.inner.Done?
    && (item.Some? ==> call.at.inner.item == item.value)
    && match part
       case Puts => call.request.Push?
       case Takes => call.request.Pop?
       case TakesOf(outer) => call.request.Pop? && call.at.outer == outer
  }

  function Count(calls: seq<Call>, q: nat, part: Part, item: Option<nat>): nat {
    if calls == [] then 0
    else
      Count(calls[..|calls| - 1], q, part, item) + if Has(calls[|calls| - 1], q, part, item) then 1 else 0
  }

  lemma {:induction false} CountChange(calls: seq<Call>, c: nat, call: Call, q: nat, part: Part, item: Option<nat>)
    requires c < |calls|
    ensures Count(calls[c := call], q, part, item) == Count(calls, q, part, item)
         + (if Has(call, q, part, item) then 1 else 0) - if Has(calls[c], q, part, item) then 1 else 0
  {
    var n := |calls| - 1;
    if c == n {
      assert calls[c := call][..n] == calls[..n];
    } else {
      CountChange(calls[..n], c, call, q, part, item);
      assert calls[c := call][..n] == calls[..n][c := call];
    }
  }

  lemma {:induction false} CountNone(calls: seq<Call>, q: nat, part: Part, item: Option<nat>)
    requires forall c | 0 <= c < |calls| :: Given(calls[c].at) != Some(q)
    ensures Count(calls, q, part, item) == 0
  {
    if calls == [] {
    } else {
      CountNone(calls[..|calls| - 1], q, part, item);
    }
  }

  /** Each item was put by one push, and taken by one pop if it was taken at all. */
  ghost predicate Balanced(s: System, q: nat)
    requires q < |s.queues|
  {
    && QueueOk(s.queues[q], s.order)
    && (forall i: nat :: Count(s.calls, q, Puts, Some(i)) == if i < |s.queues[q].put| then 1 else 0)
    && (forall i: nat :: Count(s.calls, q, Takes, Some(i)) == if i in s.queues[q].taken then 1 else 0)
    && Count(s.calls, q, Takes, None) == |s.queues[q].taken|
  }

  ghost predicate Conserved(s: System) {
    forall q | 0 <= q < |s.queues| :: Balanced(s, q)
  }

  /** What changes in the counts when call c goes somewhere else. */
  lemma CountsChange(s: System, c: nat, at: Counter, q: nat)
    requires c < |s.calls|
    ensures forall part, item ::
              Count(Goto(s, c, at).calls, q, part, item) == Count(s.calls, q, part, item)
              + (if Has(s.calls[c].(at := at), q, part, item) then 1 else 0)
              - if Has(s.calls[c], q, part, item) then 1 else 0
  {
    forall part, item
      ensures Count(Goto(s, c, at).calls, q, part, item) == Count(s.calls, q, part, item)
              + (if Has(s.calls[c].(at := at), q, part, item) then 1 else 0)
              - if Has(s.calls[c], q, part, item) then 1 else 0
    {
      CountChange(s.calls, c, s.calls[c].(at := at), q, part, item);
    }
  }

  /** A step of call c in which it puts and takes nothing. */
  lemma StaysBalanced(s: System, s': System, c: nat, at: Counter, q: nat)
    requires q < |s.queues| && q < |s'.queues| && Balanced(s, q) && s'.queues[q] == s.queues[q] && s'.order == s.order
    requires c < |s.calls| && s'.calls == Goto(s, c, at).calls
    requires forall part, item | part in {Puts, Takes} ::
               Has(s.calls[c].(at := at), q, part, item) == Has(s.calls[c], q, part, item)
    ensures Balanced(s', q)
  {
    CountsChange(s, c, at, q);
    var call := s.calls[c].(at := at);
    assert forall item :: Has(call, q, Puts, item) == Has(s.calls[c], q, Puts, item);
    assert forall item :: Has(call, q, Takes, item) == Has(s.calls[c], q, Takes, item);
  }

  lemma NextConserves(s: System, c: nat)
    requires Bindings(s) && Conserved(s) && c < |s.calls| && Next(s, c).Some?
    ensures Conserved(Next(s, c).value)
  {
    var s' := Next(s, c).value;
    forall q | 0 <= q < |s'.queues| ensures Balanced(s', q) {
      if q < |s.queues| {
        assert Balanced(s, q);
        StaysBalanced(s, s', c, s'.calls[c].at, q);
      } else {
        NextBinds(s, c);
        NothingYet(s', q, c);
      }
    }
  }

  /** A new queue is empty, and nothing has come from it. */
  lemma NothingYet(s: System, q: nat, c: nat)
    requires Bindings(s) && q < |s.queues| && s.queues[q] == Queue(s.queues[q].key, [], [], [])
    requires c < |s.calls| && s.calls[c].at == Binding(q)
    ensures Balanced(s, q)
  {
    assert CallOk(s, s.calls[c]);
    forall d | 0 <= d < |s.calls| ensures Given(s.calls[d].at) != Some(q) {
      assert CallOk(s, s.calls[d]);
    }
    forall part, item ensures Count(s.calls, q, part, item) == 0 {
      CountNone(s.calls, q, part, item);
    }
  }

  lemma PutConserves(s: System, c: nat)
    requires c < |s.calls| && Perform(s, c).Some? && Balanced(s, s.calls[c].at.q) && s.calls[c].request.Push?
    ensures Balanced(Perform(s, c).value, s.calls[c].at.q)
  {
    var s', q := Perform(s, c).value, s.calls[c].at.q;
    PutOk(s.queues[q], s.order, s.calls[c].request.value);
    CountsChange(s, c, s'.calls[c].at, q);
  }

  lemma TakeConserves(s: System, c: nat)
    requires c < |s.calls| && Perform(s, c).Some? && Balanced(s, s.calls[c].at.q) && s.calls[c].request.Pop?
    ensures Balanced(Perform(s, c).value, s.calls[c].at.q)
  {
    var s', q := Perform(s, c).value, s.calls[c].at.q;
    TakeOk(s.queues[q], s.order);
    CountsChange(s, c, s'.calls[c].at, q);
  }

  lemma PerformConserves(s: System, c: nat)
    requires Conserved(s) && c < |s.calls| && Perform(s, c).Some?
    ensures Conserved(Perform(s, c).value)
  {
    var s', mine := Perform(s, c).value, s.calls[c].at.q;
    assert Balanced(s, mine);
    if s.calls[c].request.Push? {
      PutConserves(s, c);
    } else {
      TakeConserves(s, c);
    }
    forall q | 0 <= q < |s'.queues| && q != mine ensures Balanced(s', q) {
      assert Balanced(s, q);
      StaysBalanced(s, s', c, s'.calls[c].at, q);
    }
  }

  /** The result reaching its call, or its timer. */
  lemma SettleConserves(s: System, c: nat, outer: Outer)
    requires Conserved(s) && c < |s.calls| && s.calls[c].at.Running?
    ensures Conserved(Goto(s, c, s.calls[c].at.(outer := outer)))
  {
    var s' := Goto(s, c, s.calls[c].at.(outer := outer));
    forall q | 0 <= q < |s'.queues| ensures Balanced(s', q) {
      assert Balanced(s, q);
      StaysBalanced(s, s', c, s'.calls[c].at, q);
    }
  }

  lemma StartConserves(s: System, call: Call)
    requires Conserved(s) && call.at == Checking
    ensures Conserved(s.(calls := s.calls + [call]))
  {
    assert (s.calls + [call])[..|s.calls|] == s.calls;
    forall q | 0 <= q < |s.queues| ensures Balanced(s.(calls := s.calls + [call]), q) {
      assert Balanced(s, q);
    }
  }

  lemma StepConserves(s: System, a: Action)
    requires Bindings(s) && Conserved(s) && Step(s, a).Some?
    ensures Conserved(Step(s, a).value)
  {
    match a
    case Start(key, request, timed) => StartConserves(s, Call(key, request, timed, Checking));
    case Advance(c) => NextConserves(s, c);
    case Work(c) => PerformConserves(s, c);
    case Answer(c) => SettleConserves(s, c, Answered);
    case Expire(c) => SettleConserves(s, c, TimedOut);
  }

  lemma RunConserves(order: Discipline, actions: seq<Action>)
    requires After(Step, Fresh(order), actions).Some?
    ensures Conserved(After(Step, Fresh(order), actions).value) && Bindings(After(Step, Fresh(order), actions).value)
    ensures After(Step, Fresh(order), actions).value.order == order
  {
    var inv := (s: System) => Bindings(s) && Conserved(s) && s.order == order;
    forall s, a | inv(s) && Step(s, a).Some? ensures inv(Step(s, a).value) {
      StepBinds(s, a);
      StepConserves(s, a);
      SameOrder(s, a);
    }
    InvariantHolds(Step, Fresh(order), inv, actions);
  }

  lemma SameOrder(s: System, a: Action)
    requires Step(s, a).Some?
    ensures Step(s, a).value.order == s.order
  {
  }

  lemma {:induction false} TwoCount(calls: seq<Call>, q: nat, part: Part, item: Option<nat>, c: nat, d: nat)
    requires c < d < |calls| && Has(calls[c], q, part, item) && Has(calls[d], q, part, item)
    ensures Count(calls, q, part, item) >= 2
  {
    if d == |calls| - 1 {
      OneCounts(calls[..d], q, part, item, c);
    } else {
      TwoCount(calls[..|calls| - 1], q, part, item, c, d);
    }
  }

  lemma {:induction false} OneCounts(calls: seq<Call>, q: nat, part: Part, item: Option<nat>, c: nat)
    requires c < |calls| && Has(calls[c], q, part, item)
    ensures Count(calls, q, part, item) >= 1
  {
    if c == |calls| - 1 {
    } else {
      OneCounts(calls[..|calls| - 1], q, part, item, c);
    }
  }

  lemma {:induction false} CountParts(calls: seq<Call>, q: nat, item: Option<nat>)
    ensures Count(calls, q, Takes, item)
         == Count(calls, q, TakesOf(Answered), item) + Count(calls, q, TakesOf(Awaiting), item)
            + Count(calls, q, TakesOf(TimedOut), item)
  {
    if calls == [] {
    } else {
      CountParts(calls[..|calls| - 1], q, item);
    }
  }

  /** The pops on queue q whose timer has fired. */
  function TimedOutPops(calls: seq<Call>, q: nat): nat {
    if calls == [] then 0
    else
      var last := calls[|calls| - 1];
      TimedOutPops(calls[..|calls| - 1], q)
      + if last.request.Pop? && last.timed && last.at.Running? && last.at.q == q && last.at.outer == TimedOut then 1
        else 0
  }

  ghost predicate TimersOk(s: System) {
    forall c | 0 <= c < |s.calls| :: s.calls[c].at.Running? && s.calls[c].at.outer == TimedOut ==> s.calls[c].timed
  }

  lemma RunTimers(order: Discipline, actions: seq<Action>)
    requires After(Step, Fresh(order), actions).Some?
    ensures TimersOk(After(Step, Fresh(order), actions).value)
  {
    forall s, a | TimersOk(s) && Step(s, a).Some? ensures TimersOk(Step(s, a).value) {
      StepTimers(s, a);
    }
    InvariantHolds(Step, Fresh(order), TimersOk, actions);
  }

  lemma StepTimers(s: System, a: Action)
    requires TimersOk(s) && Step(s, a).Some?
    ensures TimersOk(Step(s, a).value)
  {
    match a
    case Start(_, _, _) =>
    case Advance(c) =>
    case Work(c) =>
    case Answer(c) =>
    case Expire(c) =>
  }

  lemma {:induction false} LostAtMost(calls: seq<Call>, q: nat)
    requires forall c | 0 <= c < |calls| :: calls[c].at.Running? && calls[c].at.outer == TimedOut ==> calls[c].timed
    ensures Count(calls, q, TakesOf(TimedOut), None) <= TimedOutPops(calls, q)
  {
    if calls == [] {
    } else {
      LostAtMost(calls[..|calls| - 1], q);
    }
  }

  /**
   Conservation, for any number of pushes and pops in any interleaving: what has been put is what
   waits, what pops have returned, what they are about to return, and what was taken for pops that
   had timed out, which is at most one item for each of those.
   */
  lemma Conservation(order: Discipline, actions: seq<Action>, q: nat)
    requires After(Step, Fresh(order), actions).Some? && q < |After(Step, Fresh(order), actions).value.queues|
    ensures var s := After(Step, Fresh(order), actions).value;
            && |s.queues[q].put| == |s.queues[q].waiting| + Count(s.calls, q, TakesOf(Answered), None)
               + Count(s.calls, q, TakesOf(Awaiting), None) + Count(s.calls, q, TakesOf(TimedOut), None)
            && Count(s.calls, q, TakesOf(TimedOut), None) <= TimedOutPops(s.calls, q)
            && forall i: nat ::
                 (if i in s.queues[q].waiting then 1 else 0) + Count(s.calls, q, TakesOf(Answered), Some(i))
                 + Count(s.calls, q, TakesOf(Awaiting), Some(i)) + Count(s.calls, q, TakesOf(TimedOut), Some(i))
                 == Count(s.calls, q, Puts, Some(i))
  {
    RunConserves(order, actions);
    RunTimers(order, actions);
    var s := After(Step, Fresh(order), actions).value;
    assert Balanced(s, q);
    forall item ensures Count(s.calls, q, Takes, item)
                     == Count(s.calls, q, TakesOf(Answered), item) + Count(s.calls, q, TakesOf(Awaiting), item)
                        + Count(s.calls, q, TakesOf(TimedOut), item) {
      CountParts(s.calls, q, item);
    }
    LostAtMost(s.calls, q);
  }

  /** No two pops get the same item, and no two pushes put the same one. */
  lemma EachItemOnce(order: Discipline, actions: seq<Action>, q: nat, item: nat, part: Part, c: nat, d: nat)
    requires After(Step, Fresh(order), actions).Some? && (part == Puts || part == Takes)
    requires c < |After(Step, Fresh(order), actions).value.calls|
    requires d < |After(Step, Fresh(order), actions).value.calls|
    requires Has(After(Step, Fresh(order), actions).value.calls[c], q, part, Some(item))
    requires Has(After(Step, Fresh(order), actions).value.calls[d], q, part, Some(item))
    ensures c == d
  {
    RunConserves(order, actions);
    var s := After(Step, Fresh(order), actions).value;
    assert CallOk(s, s.calls[c]);
    assert Balanced(s, q);
    if c < d {
      TwoCount(s.calls, q, part, Some(item), c, d);
    } else if d < c {
      TwoCount(s.calls, q, part, Some(item), d, c);
    }
  }

  /** A queue is left in the order it was filled; a stack is left by the newest item waiting. */
  lemma LeftInOrder(order: Discipline, actions: seq<Action>, q: nat)
    requires After(Step, Fresh(order), actions).Some? && q < |After(Step, Fresh(order), actions).value.queues|
    ensures var queue := After(Step, Fresh(order), actions).value.queues[q];
            && (order == Fifo ==> queue.taken == Upto(|queue.taken|))
            && (queue.waiting != [] ==> forall i | i in Take(queue, order).waiting ::
                  if order == Fifo then Chosen(queue, order) < i else i < Chosen(queue, order))
  {
    RunConserves(order, actions);
    var s := After(Step, Fresh(order), actions).value;
    assert Balanced(s, q);
    var queue := s.queues[q];
    assert order == Fifo ==> queue.taken == (queue.taken + queue.waiting)[..|queue.taken|];
  }

  /** An item is the value of the push that put it, also when that push has timed out. */
  ghost predicate ValuesOk(s: System) {
    forall c | 0 <= c < |s.calls| :: ValueOk(s, s.calls[c])
  }

  ghost predicate ValueOk(s: System, call: Call) {
    call.at.Running? && call.at.inner.Done? && call.request.Push? ==>
      && call.at.q < |s.queues| && call.at.inner.item < |s.queues[call.at.q].put|
      && s.queues[call.at.q].put[call.at.inner.item] == call.request.value
  }

  lemma RunValues(order: Discipline, actions: seq<Action>)
    requires After(Step, Fresh(order), actions).Some?
    ensures ValuesOk(After(Step, Fresh(order), actions).value)
  {
    forall s, a | ValuesOk(s) && Step(s, a).Some? ensures ValuesOk(Step(s, a).value) {
      StepValues(s, a);
    }
    InvariantHolds(Step, Fresh(order), ValuesOk, actions);
  }

  lemma StepValues(s: System, a: Action)
    requires ValuesOk(s) && Step(s, a).Some?
    ensures ValuesOk(Step(s, a).value)
  {
    match a
    case Start(_, _, _) => assert forall c | 0 <= c < |s.calls| :: ValueOk(s, s.calls[c]);
    case Advance(c) => NextValues(s, c);
    case Work(c) => PerformValues(s, c);
    case Answer(c) => OthersValues(s, Step(s, a).value, c);
    case Expire(c) => OthersValues(s, Step(s, a).value, c);
  }

  /** Queues only grow at their ends, so what the other calls have put stays. */
  lemma OthersValues(s: System, s': System, c: nat)
    requires ValuesOk(s) && c < |s.calls| == |s'.calls| && ValueOk(s', s'.calls[c])
    requires forall d | 0 <= d < |s.calls| && d != c :: s'.calls[d] == s.calls[d]
    requires |s.queues| <= |s'.queues| && forall q | 0 <= q < |s.queues| :: s.queues[q].put <= s'.queues[q].put
    ensures ValuesOk(s')
  {
    forall d | 0 <= d < |s.calls| && d != c ensures ValueOk(s', s'.calls[d]) {
      assert ValueOk(s, s.calls[d]);
    }
  }

  lemma NextValues(s: System, c: nat)
    requires ValuesOk(s) && c < |s.calls| && Next(s, c).Some?
    ensures ValuesOk(Next(s, c).value)
  {
    assert !s.calls[c].at.Running?;
    OthersValues(s, Next(s, c).value, c);
  }

  lemma PerformValues(s: System, c: nat)
    requires ValuesOk(s) && c < |s.calls| && Perform(s, c).Some?
    ensures ValuesOk(Perform(s, c).value)
  {
    OthersValues(s, Perform(s, c).value, c);
  }

  // ---------------------------------------------------------------------------
  // How a call ends, read off the run
  // ---------------------------------------------------------------------------

  /** The call waits for its shielded task, has its result, or has run out of time. */
  ghost predicate Stands(s: System, c: nat, outer: Outer) {
    c < |s.calls| && s.calls[c].at.Running? && s.calls[c].at.outer == outer
  }

  /** What a step does to whether call c has ended in one of the two ways. */
  lemma StepSettles(s: System, a: Action, c: nat)
    requires Step(s, a).Some?
    ensures Stands(Step(s, a).value, c, Answered) <==> Stands(s, c, Answered) || a == Answer(c)
    ensures Stands(Step(s, a).value, c, TimedOut) <==> Stands(s, c, TimedOut) || a == Expire(c)
    ensures a == Answer(c) || a == Expire(c) ==> Stands(s, c, Awaiting)
  {
    match a
    case Start(_, _, _) =>
    case Advance(d) =>
    case Work(d) =>
    case Answer(d) =>
    case Expire(d) =>
  }

  /**
   In every run, a call has its result exactly when its `Answer` is in the run, and has run out of time exactly
   when its `Expire` is; so whichever comes first decides, and the other does not come.
   */
  lemma {:induction false} EndsAsDecided(order: Discipline, actions: seq<Action>, c: nat)
    requires After(Step, Fresh(order), actions).Some?
    ensures Stands(After(Step, Fresh(order), actions).value, c, Answered) <==> Answer(c) in actions
    ensures Stands(After(Step, Fresh(order), actions).value, c, TimedOut) <==> Expire(c) in actions
    ensures !(Answer(c) in actions && Expire(c) in actions)
  {
    if actions == [] {
    } else {
      var before, a := actions[..|actions| - 1], actions[|actions| - 1];
      EndsAsDecided(order, before, c);
      StepSettles(After(Step, Fresh(order), before).value, a, c);
      assert actions == before + [a];
    }
  }

  function Expiries(actions: seq<Action>): nat {
    if actions == [] then 0
    else Expiries(actions[..|actions| - 1]) + if actions[|actions| - 1].Expire? then 1 else 0
  }

  function OutOfTime(calls: seq<Call>): nat {
    if calls == [] then 0
    else
      var at := calls[|calls| - 1].at;
      OutOfTime(calls[..|calls| - 1]) + if at.Running? && at.outer == TimedOut then 1 else 0
  }

  lemma {:induction false} OutOfTimeChange(calls: seq<Call>, c: nat, call: Call)
    requires c < |calls|
    ensures OutOfTime(calls[c := call]) == OutOfTime(calls)
         + (if call.at.Running? && call.at.outer == TimedOut then 1 else 0)
         - if calls[c].at.Running? && calls[c].at.outer == TimedOut then 1 else 0
  {
    var n := |calls| - 1;
    if c == n {
      assert calls[c := call][..n] == calls[..n];
    } else {
      OutOfTimeChange(calls[..n], c, call);
      assert calls[c := call][..n] == calls[..n][c := call];
    }
  }

  lemma StepExpires(s: System, a: Action)
    requires Step(s, a).Some?
    ensures OutOfTime(Step(s, a).value.calls) == OutOfTime(s.calls) + if a.Expire? then 1 else 0
  {
    var s' := Step(s, a).value;
    match a
    case Start(_, _, _) => assert s'.calls[..|s.calls|] == s.calls;
    case Advance(c) => OutOfTimeChange(s.calls, c, s'.calls[c]);
    case Work(c) => OutOfTimeChange(s.calls, c, s'.calls[c]);
    case Answer(c) => OutOfTimeChange(s.calls, c, s'.calls[c]);
    case Expire(c) => OutOfTimeChange(s.calls, c, s'.calls[c]);
  }

  lemma {:induction false} RunExpires(order: Discipline, actions: seq<Action>)
    requires After(Step, Fresh(order), actions).Some?
    ensures OutOfTime(After(Step, Fresh(order), actions).value.calls) == Expiries(actions)
  {
    if actions == [] {
    } else {
      RunExpires(order, actions[..|actions| - 1]);
      StepExpires(After(Step, Fresh(order), actions[..|actions| - 1]).value, actions[|actions| - 1]);
    }
  }

  lemma {:induction false} LostAreOutOfTime(calls: seq<Call>, q: nat)
    ensures Count(calls, q, TakesOf(TimedOut), None) <= OutOfTime(calls)
  {
    if calls == [] {
    } else {
      LostAreOutOfTime(calls[..|calls| - 1], q);
    }
  }

  /** No more items of a queue are lost than timers have fired. */
  lemma LostAtMostExpired(order: Discipline, actions: seq<Action>, q: nat)
    requires After(Step, Fresh(order), actions).Some?
    ensures Count(After(Step, Fresh(order), actions).value.calls, q, TakesOf(TimedOut), None) <= Expiries(actions)
  {
    RunExpires(order, actions);
    LostAreOutOfTime(After(Step, Fresh(order), actions).value.calls, q);
  }

  /** Only a call whose task is done has its result. */
  ghost predicate AnswersOk(s: System) {
    forall c | 0 <= c < |s.calls| ::
      s.calls[c].at.Running? && s.calls[c].at.outer == Answered ==> s.calls[c].at.inner.Done?
  }

  lemma StepAnswers(s: System, a: Action)
    requires AnswersOk(s) && Step(s, a).Some?
    ensures AnswersOk(Step(s, a).value)
  {
    match a
    case Start(_, _, _) =>
    case Advance(c) =>
    case Work(c) =>
    case Answer(c) =>
    case Expire(c) =>
  }

  lemma RunAnswers(order: Discipline, actions: seq<Action>)
    requires After(Step, Fresh(order), actions).Some?
    ensures AnswersOk(After(Step, Fresh(order), actions).value)
  {
    forall s, a | AnswersOk(s) && Step(s, a).Some? ensures AnswersOk(Step(s, a).value) {
      StepAnswers(s, a);
    }
    InvariantHolds(Step, Fresh(order), AnswersOk, actions);
  }

  /** What a pop that has its result returns: the item its get took. */
  function Returned(s: System, c: nat): Option<string> {
    if c < |s.calls| && s.calls[c].request.Pop? && s.calls[c].at.Running? && s.calls[c].at.outer == Answered
       && s.calls[c].at.inner.Done? && s.calls[c].at.q < |s.queues|
       && s.calls[c].at.inner.item < |s.queues[s.calls[c].at.q].put|
    then Some(s.queues[s.calls[c].at.q].put[s.calls[c].at.inner.item])
    else None
  }

  lemma {:induction false} SomeCounts(calls: seq<Call>, q: nat, part: Part, item: Option<nat>) returns (c: nat)
    requires Count(calls, q, part, item) > 0
    ensures c < |calls| && Has(calls[c], q, part, item)
  {
    if Has(calls[|calls| - 1], q, part, item) {
      c := |calls| - 1;
    } else {
      c := SomeCounts(calls[..|calls| - 1], q, part, item);
    }
  }

  /** The push that put the item a pop has taken. */
  lemma TakenWasPut(order: Discipline, actions: seq<Action>, c: nat) returns (d: nat)
    requires After(Step, Fresh(order), actions).Some? && c < |After(Step, Fresh(order), actions).value.calls|
    requires var call := After(Step, Fresh(order), actions).value.calls[c];
             call.request.Pop? && call.at.Running? && call.at.inner.Done?
    ensures var s := After(Step, Fresh(order), actions).value;
            var at := s.calls[c].at;
            && at.q < |s.queues| && at.inner.item < |s.queues[at.q].put|
            && d < |s.calls| && s.calls[d].key == s.calls[c].key
            && s.calls[d].request == Push(s.queues[at.q].put[at.inner.item])
  {
    RunConserves(order, actions);
    RunValues(order, actions);
    var s := After(Step, Fresh(order), actions).value;
    var q, item := s.calls[c].at.q, s.calls[c].at.inner.item;
    assert CallOk(s, s.calls[c]);
    assert Balanced(s, q);
    OneCounts(s.calls, q, Takes, Some(item), c);
    assert item in s.queues[q].taken && item < |s.queues[q].put|;
    d := SomeCounts(s.calls, q, Puts, Some(item));
    assert CallOk(s, s.calls[d]) && ValueOk(s, s.calls[d]);
  }

  /**
   In every run, a pop whose result has reached it returns a value, and a push of the same type gave that value; a pop
   that has run out of time, or still waits, returns nothing.
   */
  lemma AnsweredPopReturns(order: Discipline, actions: seq<Action>, c: nat) returns (d: nat)
    requires After(Step, Fresh(order), actions).Some? && c < |After(Step, Fresh(order), actions).value.calls|
    requires After(Step, Fresh(order), actions).value.calls[c].request.Pop?
    ensures var s := After(Step, Fresh(order), actions).value;
            && (Returned(s, c).Some? <==> Answer(c) in actions)
            && (Answer(c) in actions ==>
                  d < |s.calls| && s.calls[d].key == s.calls[c].key && s.calls[d].request == Push(Returned(s, c).value))
  {
    EndsAsDecided(order, actions, c);
    RunAnswers(order, actions);
    d := 0;
    if Answer(c) in actions {
      d := TakenWasPut(order, actions, c);
    }
  }

  /**
   A pop whose queue has an item can go on to return it, and returns the oldest one from a queue and the newest one
   from a stack.
   */
  lemma PopReturnsItem(order: Discipline, actions: seq<Action>, c: nat)
    requires After(Step, Fresh(order), actions).Some? && c < |After(Step, Fresh(order), actions).value.calls|
    requires var s := After(Step, Fresh(order), actions).value;
             && s.calls[c].request.Pop? && s.calls[c].at.Running? && s.calls[c].at.inner.Pending?
             && s.calls[c].at.outer.Awaiting? && s.calls[c].at.q < |s.queues| && s.queues[s.calls[c].at.q].waiting != []
    ensures var s := After(Step, Fresh(order), actions).value;
            var queue := s.queues[s.calls[c].at.q];
            var item := if order == Fifo then queue.waiting[0] else queue.waiting[|queue.waiting| - 1];
            && item < |queue.put|
            && Step(s, Work(c)).Some? && Step(Step(s, Work(c)).value, Answer(c)).Some?
            && Returned(Step(Step(s, Work(c)).value, Answer(c)).value, c) == Some(queue.put[item])
  {
    RunConserves(order, actions);
    var s := After(Step, Fresh(order), actions).value;
    var q := s.calls[c].at.q;
    assert Balanced(s, q);
    var item := Chosen(s.queues[q], order);
    assert item in s.queues[q].waiting;
  }

  // ---------------------------------------------------------------------------
  // A message lost to a pop that had given up
  // ---------------------------------------------------------------------------

  ghost function Waiting(): System {
    Fresh(Fifo).(bound := map["k" := 0], queues := [Queue("k", [], [], [])],
                 calls := [Call("k", Pop, true, Running(0, Pending, TimedOut))])
  }

  lemma ReachWaiting(reach: System -> bool)
    requires Closed(Step, Fresh(Fifo), reach)
    ensures reach(Waiting())
  {
    var s := Do(Step, Fresh(Fifo), reach, Fresh(Fifo), Start("k", Pop, true));
    s := Do(Step, Fresh(Fifo), reach, s, Advance(0));
    s := Do(Step, Fresh(Fifo), reach, s, Advance(0));
    s := Do(Step, Fresh(Fifo), reach, s, Advance(0));
    s := Do(Step, Fresh(Fifo), reach, s, Advance(0));
    s := Do(Step, Fresh(Fifo), reach, s, Advance(0));
    s := Do(Step, Fresh(Fifo), reach, s, Advance(0));
    s := Do(Step, Fresh(Fifo), reach, s, Advance(0));
    s := Do(Step, Fresh(Fifo), reach, s, Expire(0));
    assert s == Waiting();
  }

  /** The push has put its value and returned; the get of the pop that gave up is still there. */
  ghost function Pushed(value: string): System {
    Waiting().(queues := [Queue("k", [value], [0], [])],
               calls := [Call("k", Pop, true, Running(0, Pending, TimedOut)),
                         Call("k", Push(value), false, Running(0, Done(0), Answered))])
  }

  lemma ReachPushed(reach: System -> bool, value: string)
    requires Closed(Step, Fresh(Fifo), reach)
    ensures reach(Pushed(value))
  {
    ReachWaiting(reach);
    var s := Do(Step, Fresh(Fifo), reach, Waiting(), Start("k", Push(value), false));
    s := Do(Step, Fresh(Fifo), reach, s, Advance(1));
    s := Do(Step, Fresh(Fifo), reach, s, Advance(1));
    s := Do(Step, Fresh(Fifo), reach, s, Advance(1));
    s := Do(Step, Fresh(Fifo), reach, s, Work(1));
    s := Do(Step, Fresh(Fifo), reach, s, Answer(1));
    assert s.queues[0] == Put(Queue("k", [], [], []), value) == Pushed(value).queues[0];
    assert s.queues == Pushed(value).queues && s.calls == Pushed(value).calls;
  }

  /** A pop times out on an empty queue; the message pushed afterwards goes to it all the same. */
  lemma MessageLost(value: string) returns (s: System)
    ensures Reachable(Step, Fresh(Fifo), s)
    ensures s.queues == [Queue("k", [value], [], [0])]
    ensures s.calls == [Call("k", Pop, true, Running(0, Done(0), TimedOut)),
                        Call("k", Push(value), false, Running(0, Done(0), Answered))]
  {
    ReachableIsClosed(Step, Fresh(Fifo));
    ReachPushed(s => Reachable(Step, Fresh(Fifo), s), value);
    s := Do(Step, Fresh(Fifo), s => Reachable(Step, Fresh(Fifo), s), Pushed(value), Work(0));
    assert s.queues[0] == Take(Queue("k", [value], [0], []), Fifo) == Queue("k", [value], [], [0]);
  }
}

/**
 The present-proof exchange between two .NET backchannels (RFC 0037), one thread id, split at
 the awaits. Messages are delivered at any later time and in any order; the network may also
 deliver a message more than once.
 */
module PresentProof {
  import opened Options
  import opened Exchanges
  import opened Runs

  datatype Kind = Request | Presentation | Ack

  datatype State = RequestSent | RequestReceived | PresentationSent | PresentationReceived | Done

  datatype Task =
    | RequestCreated | RequestReady      // send-request (verifier)
    | RequestProcessed                   // the middleware after a request was processed (prover)
    | Presenting(x: nat) | PresentationReady // send-presentation (prover)
    | Verifying(x: nat) | AckReady       // verify-presentation (verifier)

  datatype Thread = Thread(
    verifier: Local<Kind, State>,
    prover: Local<Kind, State>,
    requested: bool,  // the verifier has created the request, under this thread id
    requests: nat,    // how often the prover has processed the request
    received: bool,   // the verifier has processed a presentation
    verified: bool,   // a verification has succeeded
    net: multiset<Kind>,
    tasks: multiset<Task>)

  const UNUSED := Thread(Empty(), Empty(), false, 0, false, false, multiset{}, multiset{})

  datatype Action =
    | SendRequest
    | SendPresentation | Verify // the cache look-ups; with nothing cached they throw
    | Deliver(kind: Kind)
    | Duplicate(kind: Kind)     // the network makes a second copy of a message in flight
    | Resume(task: Task)        // verification succeeds, when it is Verifying
    | Fail(task: Task)          // a handler throws; also: the proof is not valid

  /** How a handler leaves the await it was resumed from. */
  datatype Outcome = Throws | Returns(s: Thread) | Awaits(s: Thread, task: Task)

  function Step(s: Thread, a: Action): Option<Thread> {
    match a
    case SendRequest => if s.requested then None else Some(Then(s.(requested := true), RequestCreated))
    case SendPresentation => if s.prover.cached.None? then None else Some(Then(s, Presenting(s.prover.cached.value)))
    case Verify => if s.verifier.cached.None? then None else Some(Then(s, Verifying(s.verifier.cached.value)))
    case Deliver(kind) => if kind in s.net then Schedule(Receive(Taken(s, kind), kind)) else None
    case Duplicate(kind) => if kind in s.net then Some(Sent(s, kind)) else None
    case Resume(task) => if task in s.tasks then Schedule(Continue(Without(s, task), task)) else None
    case Fail(task) => if task in s.tasks then Some(Without(s, task)) else None
  }

  function Schedule(o: Outcome): Option<Thread> {
    match o
    case Throws => None
    case Returns(s) => Some(s)
    case Awaits(s, task) => Some(Then(s, task))
  }

  function Then(s: Thread, task: Task): Thread {
    s.(tasks := s.tasks + multiset{task})
  }

  function Without(s: Thread, task: Task): Thread {
    s.(tasks := s.tasks - multiset{task})
  }

  function Sent(s: Thread, kind: Kind): Thread {
    s.(net := s.net + multiset{kind})
  }

  function Taken(s: Thread, kind: Kind): Thread {
    s.(net := s.net - multiset{kind})
  }

  function Receive(s: Thread, kind: Kind): Outcome {
    match kind
    // Middlewares/MessageMiddleware.cs, after the framework has processed the request
    case Request => Awaits(s.(requests := s.requests + 1), RequestProcessed)
    case Presentation => Returns(s.(received := true, verifier := s.verifier.Publish(Presentation)))
    // Handlers/PresentationAckHandler.cs; with nothing cached the handler throws, and the message is gone
    case Ack =>
      if s.prover.cached.Some? && IsAt(s.prover, s.prover.cached.value, PresentationSent)
      then Returns(s.(prover := s.prover.Assign(s.prover.cached.value, Done)))
      else Returns(s)
  }

  predicate IsAt(l: Local<Kind, State>, x: nat, state: State) {
    x < |l.states| && l.states[x] == state
  }

  function Continue(s: Thread, task: Task): Outcome {
    match task
    case RequestCreated =>
      var verifier := s.verifier.Create(RequestSent);
      Awaits(s.(verifier := verifier.Subscribe(Presentation, verifier.cached.value, PresentationReceived)),
             RequestReady)
    case RequestReady => Returns(Sent(s, Request))
    case RequestProcessed => Returns(s.(prover := s.prover.Create(RequestReceived)))
    case Presenting(x) =>
      if s.requests == 0 then Throws
      else Awaits(s.(prover := s.prover.Assign(x, PresentationSent)), PresentationReady)
    case PresentationReady => Returns(Sent(s, Presentation))
    case Verifying(x) =>
      if !s.received then Throws
      else Awaits(s.(verified := true, verifier := s.verifier.Assign(x, Done)), AckReady)
    case AckReady => Returns(Sent(s, Ack))
  }

  // ---------------------------------------------------------------------------
  // What every reachable state satisfies, whatever the network does
  // ---------------------------------------------------------------------------

  /** Some exchange of the prover was marked before the presentation went out. */
  ghost predicate Presented(s: Thread) {
    exists x | 0 <= x < |s.prover.states| :: s.prover.states[x] != RequestReceived
  }

  /** Until the verifier has cached its exchange, nothing else has happened. */
  ghost predicate StartOk(s: Thread) {
    && (!s.requested ==> s == UNUSED)
    && (s.verifier.states == [] ==>
          s.verifier == Empty() && s.prover == Empty() && s.net == multiset{} && !s.received && s.requests == 0
          && !s.verified && s.tasks <= multiset{RequestCreated})
  }

  /** The verifier makes one exchange; one event moves it, and then only a verification does. */
  ghost predicate VerifierOk(s: Thread) {
    && |s.verifier.states| <= 1
    && (s.verifier.states != [] ==> s.verifier.cached == Some(0))
    && (forall sub | sub in s.verifier.subs :: sub == Sub(Presentation, 0, PresentationReceived))
    && (s.received ==> s.verifier.subs == [])
    && (s.verified ==> s.received && s.verifier.states == [Done])
  }

  ghost predicate ProverOk(s: Thread) {
    && (s.prover.cached.Some? ==> s.prover.cached.value < |s.prover.states|)
    && (s.prover.states != [] ==> s.prover.cached.Some?)
    && (forall x | 0 <= x < |s.prover.states| :: s.prover.states[x] in {RequestReceived, PresentationSent, Done})
    && (Done in s.prover.states ==> s.verified)
    && (s.received ==> Presented(s))
  }

  ghost predicate NetOk(s: Thread) {
    && (Presentation in s.net ==> Presented(s))
    && (Ack in s.net ==> s.verified)
  }

  ghost predicate TaskOk(s: Thread, task: Task) {
    match task
    case RequestCreated => s.requested && s.verifier == Empty() && !s.received
    case RequestReady | RequestProcessed => s.verifier.states != []
    case Presenting(x) => x < |s.prover.states|
    case PresentationReady => Presented(s)
    case Verifying(x) => x == 0 && s.verifier.states != []
    case AckReady => s.verified
  }

  ghost predicate TasksOk(s: Thread) {
    forall task | task in s.tasks :: TaskOk(s, task)
  }

  ghost predicate LocalsOk(s: Thread) {
    VerifierOk(s) && ProverOk(s) && NetOk(s)
  }

  ghost predicate Ok(s: Thread) {
    StartOk(s) && LocalsOk(s) && TasksOk(s)
  }

  /** Exchanges, marks and flags stay. */
  ghost predicate Grew(s: Thread, s': Thread) {
    && (s.requested ==> s'.requested) && (s.received ==> s'.received) && (s.verified ==> s'.verified)
    && (s.verifier.states != [] ==> s'.verifier.states != [])
    && |s.prover.states| <= |s'.prover.states|
    && (Presented(s) ==> Presented(s'))
  }

  lemma ReceiveOk(s: Thread, kind: Kind)
    requires LocalsOk(s) && s.verifier.states != [] && !Receive(s, kind).Throws?
    requires kind == Presentation ==> Presented(s)
    requires kind == Ack ==> s.verified
    ensures Grew(s, Receive(s, kind).s) && LocalsOk(Receive(s, kind).s) && Receive(s, kind).s.tasks == s.tasks
    ensures Receive(s, kind).Awaits? ==> TaskOk(Receive(s, kind).s, Receive(s, kind).task)
  {
    match kind
    case Request =>
    case Presentation =>
      AllSpent(s.verifier.subs, Presentation);
      if s.received {
        FireNothing(s.verifier.states, s.verifier.subs, Presentation);
      }
    case Ack =>
      if s.prover.cached.Some? {
        MarksStay(s, Receive(s, kind).s);
      }
  }

  lemma MarksStay(s: Thread, s': Thread)
    requires |s.prover.states| <= |s'.prover.states|
    requires forall x | 0 <= x < |s.prover.states| ::
               s.prover.states[x] != RequestReceived ==> s'.prover.states[x] != RequestReceived
    ensures Presented(s) ==> Presented(s')
  {
    if x :| 0 <= x < |s.prover.states| && s.prover.states[x] != RequestReceived {
      assert s'.prover.states[x] != RequestReceived;
    }
  }

  lemma ContinueOk(s: Thread, task: Task)
    requires LocalsOk(s) && TaskOk(s, task) && !Continue(s, task).Throws?
    ensures Grew(s, Continue(s, task).s) && LocalsOk(Continue(s, task).s) && Continue(s, task).s.tasks == s.tasks
    ensures Continue(s, task).Awaits? ==> TaskOk(Continue(s, task).s, Continue(s, task).task)
  {
    match task
    case RequestCreated =>
    case RequestReady =>
    case RequestProcessed => MarksStay(s, Continue(s, task).s);
    case Presenting(x) => assert Continue(s, task).s.prover.states[x] == PresentationSent;
    case PresentationReady =>
    case Verifying(x) =>
    case AckReady =>
  }

  lemma TasksStayOk(s: Thread, s': Thread, gone: Option<Task>)
    requires TasksOk(s) && Grew(s, s')
    requires s'.tasks == if gone.Some? then s.tasks - multiset{gone.value} else s.tasks
    requires s'.verifier == s.verifier || RequestCreated !in s'.tasks
    requires s'.received == s.received || RequestCreated !in s'.tasks
    ensures TasksOk(s')
  {
  }

  lemma ScheduleOk(o: Outcome)
    requires !o.Throws? && TasksOk(o.s) && (o.Awaits? ==> TaskOk(o.s, o.task))
    ensures TasksOk(Schedule(o).value)
  {
  }

  lemma DeliverOk(s: Thread, kind: Kind)
    requires Ok(s) && Step(s, Deliver(kind)).Some?
    ensures Ok(Step(s, Deliver(kind)).value)
  {
    var taken := Taken(s, kind);
    var o := Receive(taken, kind);
    assert s.verifier.states != [];
    ReceiveOk(taken, kind);
    assert TasksOk(Schedule(o).value) by {
      assert RequestCreated in s.tasks ==> TaskOk(s, RequestCreated);
      TasksStayOk(s, o.s, None);
      ScheduleOk(o);
    }
    ReceiveKeeps(taken, kind);
    assert StartOk(Schedule(o).value);
  }

  lemma ResumeOk(s: Thread, task: Task)
    requires Ok(s) && Step(s, Resume(task)).Some?
    ensures Ok(Step(s, Resume(task)).value)
  {
    assert TaskOk(s, task);
    var o := Continue(Without(s, task), task);
    ContinueOk(Without(s, task), task);
    assert RequestCreated in s.tasks ==> TaskOk(s, RequestCreated);
    assert RequestCreated !in Without(s, task).tasks;
    TasksStayOk(s, o.s, Some(task));
    ScheduleOk(o);
  }

  lemma SendRequestOk()
    ensures Ok(Then(UNUSED.(requested := true), RequestCreated))
  {
  }

  /** A handler starting, or failing. */
  lemma StartOrFailOk(s: Thread, s': Thread, task: Task)
    requires Ok(s) && s.verifier.states != [] && TaskOk(s, task) && (s' == Then(s, task) || s' == Without(s, task))
    ensures Ok(s')
  {
    forall t | t in s'.tasks ensures TaskOk(s', t) {
      assert t in s.tasks || t == task;
    }
  }

  lemma FailOk(s: Thread, task: Task)
    requires Ok(s) && task in s.tasks
    ensures Ok(Without(s, task))
  {
    assert TaskOk(s, task);
    if s.verifier.states != [] {
      StartOrFailOk(s, Without(s, task), task);
    }
  }

  lemma DuplicateOk(s: Thread, kind: Kind)
    requires Ok(s) && kind in s.net
    ensures Ok(Sent(s, kind))
  {
    forall t | t in s.tasks ensures TaskOk(Sent(s, kind), t) {
      assert TaskOk(s, t);
    }
  }

  lemma StepOk(s: Thread, a: Action)
    requires Ok(s) && Step(s, a).Some?
    ensures Ok(Step(s, a).value)
  {
    match a
    case SendRequest => SendRequestOk();
    case SendPresentation => StartOrFailOk(s, Step(s, a).value, Presenting(s.prover.cached.value));
    case Verify => StartOrFailOk(s, Step(s, a).value, Verifying(s.verifier.cached.value));
    case Deliver(kind) => DeliverOk(s, kind);
    case Duplicate(kind) => DuplicateOk(s, kind);
    case Resume(task) => ResumeOk(s, task);
    case Fail(task) => FailOk(s, task);
  }

  lemma RunsAreOk(actions: seq<Action>)
    requires After(Step, UNUSED, actions).Some?
    ensures Ok(After(Step, UNUSED, actions).value)
  {
    forall s, a | Ok(s) && Step(s, a).Some? ensures Ok(Step(s, a).value) {
      StepOk(s, a);
    }
    InvariantHolds(Step, UNUSED, s => Ok(s), actions);
  }

  /**
   Agreement, in every run: if some exchange of the prover is done, the verifier's only exchange
   on the thread is done and its verification succeeded.
   */
  lemma Agreement(actions: seq<Action>)
    requires After(Step, UNUSED, actions).Some?
    requires Done in After(Step, UNUSED, actions).value.prover.states
    ensures var s := After(Step, UNUSED, actions).value;
            s.verified && s.verifier.states == [Done] && s.verifier.cached == Some(0)
  {
    RunsAreOk(actions);
  }

  /** The same on every one of any number of interleaved threads. */
  lemma AgreementOnEveryThread(actions: seq<(string, Action)>, t: string)
    requires After(StepOne(Step, UNUSED), map[], actions).Some?
    requires Done in At(After(StepOne(Step, UNUSED), map[], actions).value, UNUSED, t).prover.states
    ensures var s := At(After(StepOne(Step, UNUSED), map[], actions).value, UNUSED, t);
            s.verified && s.verifier.states == [Done] && s.verifier.cached == Some(0)
  {
    Projection(Step, UNUSED, actions, t);
    Agreement(ActionsOf(actions, t));
  }

  // ---------------------------------------------------------------------------
  // Whether an OK ack is dropped by the presentation-sent guard
  // ---------------------------------------------------------------------------

  /** Delivering an ack now would leave the prover's cached exchange short of done. */
  ghost predicate AckDropped(s: Thread) {
    && Ack in s.net
    && var l := Step(s, Deliver(Ack)).value.prover;
       !(l.cached.Some? && IsAt(l, l.cached.value, Done))
  }

  /**
   In every run an ack finds an exchange cached, and is dropped exactly if that exchange is one
   the middleware made after the presentation had been sent on another.
   */
  lemma AckDroppedIff(actions: seq<Action>)
    requires After(Step, UNUSED, actions).Some? && Ack in After(Step, UNUSED, actions).value.net
    ensures var s := After(Step, UNUSED, actions).value;
            && s.prover.cached.Some?
            && (AckDropped(s) <==> IsAt(s.prover, s.prover.cached.value, RequestReceived))
            && (AckDropped(s) ==> |s.prover.states| >= 2)
  {
    RunsAreOk(actions);
    AckDroppedWhen(After(Step, UNUSED, actions).value);
  }

  lemma AckDroppedWhen(s: Thread)
    requires VerifierOk(s) && ProverOk(s) && NetOk(s) && Ack in s.net
    ensures s.prover.cached.Some?
    ensures AckDropped(s) <==> IsAt(s.prover, s.prover.cached.value, RequestReceived)
    ensures AckDropped(s) ==> |s.prover.states| >= 2
  {
    var x :| 0 <= x < |s.prover.states| && s.prover.states[x] != RequestReceived;
    var l := Receive(Taken(s, Ack), Ack).s.prover;
    assert Step(s, Deliver(Ack)).value.prover == l;
  }

  // Without duplicates: one request message is one exchange of the prover.

  function ExactlyOnceStep(s: Thread, a: Action): Option<Thread> {
    if a.Duplicate? then None else Step(s, a)
  }

  /** The request is in exactly one place: in its handler, in flight, in the middleware, or made an exchange. */
  ghost function Requests(s: Thread): nat {
    s.tasks[RequestCreated] + s.tasks[RequestReady] + s.net[Request] + s.tasks[RequestProcessed] + |s.prover.states|
  }

  ghost function RequestTask(task: Task): nat {
    if task in {RequestCreated, RequestReady, RequestProcessed} then 1 else 0
  }

  lemma TaskRequests(s: Thread, task: Task)
    ensures Requests(Then(s, task)) == Requests(s) + RequestTask(task)
    ensures task in s.tasks ==> Requests(Without(s, task)) + RequestTask(task) == Requests(s)
  {
  }

  lemma ContinueRequests(s: Thread, task: Task)
    requires !Continue(s, task).Throws?
    ensures Requests(Schedule(Continue(s, task)).value) == Requests(s) + RequestTask(task)
  {
    if Continue(s, task).Awaits? {
      TaskRequests(Continue(s, task).s, Continue(s, task).task);
    }
  }

  lemma ReceiveKeeps(s: Thread, kind: Kind)
    ensures var o := Receive(s, kind);
            && !o.Throws? && o.s.net == s.net && o.s.tasks == s.tasks && |o.s.prover.states| == |s.prover.states|
            && (o.Awaits? <==> kind == Request) && (o.Awaits? ==> o.task == RequestProcessed)
  {
    match kind
    case Request =>
    case Presentation =>
    case Ack =>
  }

  lemma TakenRequests(s: Thread, kind: Kind)
    requires kind in s.net
    ensures Requests(Taken(s, kind)) + (if kind == Request then 1 else 0) == Requests(s)
  {
  }

  lemma DeliverRequests(s: Thread, kind: Kind)
    requires kind in s.net && Step(s, Deliver(kind)).Some?
    ensures Requests(Step(s, Deliver(kind)).value) == Requests(s)
  {
    var o := Receive(Taken(s, kind), kind);
    TakenRequests(s, kind);
    ReceiveKeeps(Taken(s, kind), kind);
    assert Requests(o.s) == Requests(Taken(s, kind));
    if o.Awaits? {
      TaskRequests(o.s, o.task);
    }
  }

  lemma RequestsNeverGrow(s: Thread, a: Action)
    requires ExactlyOnceStep(s, a).Some?
    ensures Requests(ExactlyOnceStep(s, a).value) <= if a == SendRequest then Requests(s) + 1 else Requests(s)
  {
    match a
    case SendRequest => TaskRequests(s.(requested := true), RequestCreated);
    case SendPresentation => TaskRequests(s, Presenting(s.prover.cached.value));
    case Verify => TaskRequests(s, Verifying(s.verifier.cached.value));
    case Deliver(kind) => DeliverRequests(s, kind);
    case Resume(task) =>
      TaskRequests(s, task);
      ContinueRequests(Without(s, task), task);
    case Fail(task) => TaskRequests(s, task);
  }

  /** One request is one exchange. */
  lemma OneExchange(actions: seq<Action>)
    requires After(ExactlyOnceStep, UNUSED, actions).Some?
    ensures Ok(After(ExactlyOnceStep, UNUSED, actions).value)
    ensures |After(ExactlyOnceStep, UNUSED, actions).value.prover.states| <= 1
  {
    forall s, a | Ok(s) && Requests(s) <= (if s.requested then 1 else 0) && ExactlyOnceStep(s, a).Some?
      ensures Ok(ExactlyOnceStep(s, a).value)
      ensures Requests(ExactlyOnceStep(s, a).value) <= if ExactlyOnceStep(s, a).value.requested then 1 else 0
    {
      StepOk(s, a);
      RequestsNeverGrow(s, a);
      StaysRequested(s, a);
    }
    InvariantHolds(ExactlyOnceStep, UNUSED, s => Ok(s) && Requests(s) <= (if s.requested then 1 else 0), actions);
  }

  lemma StaysRequested(s: Thread, a: Action)
    requires Step(s, a).Some?
    ensures Step(s, a).value.requested == (s.requested || a == SendRequest)
  {
  }

  lemma AckArrives(s: Thread)
    requires VerifierOk(s) && ProverOk(s) && NetOk(s) && Ack in s.net && |s.prover.states| <= 1
    ensures Step(s, Deliver(Ack)).Some? && Step(s, Deliver(Ack)).value.prover.states == [Done]
  {
    var x :| 0 <= x < |s.prover.states| && s.prover.states[x] != RequestReceived;
    var o := Receive(Taken(s, Ack), Ack);
    assert o.s.prover.states == [Done];
  }

  /** Without duplicated messages no ack is dropped: delivering it leaves the prover's exchange done. */
  lemma AckNeverDropped(actions: seq<Action>)
    requires After(ExactlyOnceStep, UNUSED, actions).Some? && Ack in After(ExactlyOnceStep, UNUSED, actions).value.net
    ensures Step(After(ExactlyOnceStep, UNUSED, actions).value, Deliver(Ack)).Some?
    ensures Step(After(ExactlyOnceStep, UNUSED, actions).value, Deliver(Ack)).value.prover.states == [Done]
  {
    OneExchange(actions);
    AckArrives(After(ExactlyOnceStep, UNUSED, actions).value);
  }

  // ---------------------------------------------------------------------------
  // A run without duplicates to its end
  // ---------------------------------------------------------------------------

  /** The request is in flight. */
  ghost function Asked(): Thread {
    UNUSED.(requested := true, net := multiset{Request},
            verifier := Local([RequestSent], Some(0), [Sub(Presentation, 0, PresentationReceived)]))
  }

  /** The presentation is in flight. */
  ghost function PresentationOut(): Thread {
    Asked().(net := multiset{Presentation}, requests := 1, prover := Local([PresentationSent], Some(0), []))
  }

  /** The ack is in flight. */
  ghost function Verified(): Thread {
    PresentationOut().(net := multiset{Ack}, received := true, verified := true, verifier := Local([Done], Some(0), []))
  }

  lemma ReachAsked(reach: Thread -> bool)
    requires Closed(ExactlyOnceStep, UNUSED, reach)
    ensures reach(Asked())
  {
    var s := Do(ExactlyOnceStep, UNUSED, reach, UNUSED, SendRequest);
    s := Do(ExactlyOnceStep, UNUSED, reach, s, Resume(RequestCreated));
    s := Do(ExactlyOnceStep, UNUSED, reach, s, Resume(RequestReady));
    assert s == Asked();
  }

  lemma ReachPresenting(reach: Thread -> bool)
    requires Closed(ExactlyOnceStep, UNUSED, reach)
    ensures reach(Asked().(net := multiset{}, requests := 1, prover := Local([RequestReceived], Some(0), []),
                           tasks := multiset{Presenting(0)}))
  {
    ReachAsked(reach);
    var s := Do(ExactlyOnceStep, UNUSED, reach, Asked(), Deliver(Request));
    s := Do(ExactlyOnceStep, UNUSED, reach, s, Resume(RequestProcessed));
    s := Do(ExactlyOnceStep, UNUSED, reach, s, SendPresentation);
    assert s == Asked().(net := multiset{}, requests := 1, prover := Local([RequestReceived], Some(0), []),
                         tasks := multiset{Presenting(0)});
  }

  lemma ReachPresentationOut(reach: Thread -> bool)
    requires Closed(ExactlyOnceStep, UNUSED, reach)
    ensures reach(PresentationOut())
  {
    ReachPresenting(reach);
    var s := Asked().(net := multiset{}, requests := 1, prover := Local([RequestReceived], Some(0), []),
                      tasks := multiset{Presenting(0)});
    s := Do(ExactlyOnceStep, UNUSED, reach, s, Resume(Presenting(0)));
    s := Do(ExactlyOnceStep, UNUSED, reach, s, Resume(PresentationReady));
    assert s == PresentationOut();
  }

  /** The verifier is about to verify. */
  ghost function VerifyingNow(): Thread {
    PresentationOut().(net := multiset{}, received := true, verifier := Local([PresentationReceived], Some(0), []),
                       tasks := multiset{Verifying(0)})
  }

  lemma ReachVerifyingNow(reach: Thread -> bool)
    requires Closed(ExactlyOnceStep, UNUSED, reach)
    ensures reach(VerifyingNow())
  {
    ReachPresentationOut(reach);
    var s := Do(ExactlyOnceStep, UNUSED, reach, PresentationOut(), Deliver(Presentation));
    s := Do(ExactlyOnceStep, UNUSED, reach, s, Verify);
    assert s == VerifyingNow();
  }

  lemma ReachVerified(reach: Thread -> bool)
    requires Closed(ExactlyOnceStep, UNUSED, reach)
    ensures reach(Verified())
  {
    ReachVerifyingNow(reach);
    var s := Do(ExactlyOnceStep, UNUSED, reach, VerifyingNow(), Resume(Verifying(0)));
    s := Do(ExactlyOnceStep, UNUSED, reach, s, Resume(AckReady));
    assert s == Verified();
  }

  /** A reachable state without duplicates whose ack completes both sides. */
  lemma AckDelivered() returns (before: Thread, after: Thread)
    ensures Reachable(ExactlyOnceStep, UNUSED, before) && Ack in before.net
    ensures ExactlyOnceStep(before, Deliver(Ack)) == Some(after) && after.net == multiset{} && after.tasks == multiset{}
    ensures after.prover.states == [Done] && after.verifier.states == [Done] && after.verified
  {
    ReachableIsClosed(ExactlyOnceStep, UNUSED);
    ReachVerified(s => Reachable(ExactlyOnceStep, UNUSED, s));
    before := Verified();
    after := Do(ExactlyOnceStep, UNUSED, s => Reachable(ExactlyOnceStep, UNUSED, s), before, Deliver(Ack));
  }

  // ---------------------------------------------------------------------------
  // With one duplicate an ack can be dropped for good
  // ---------------------------------------------------------------------------

  /** Two copies of the request are in flight. */
  ghost function Duplicated(): Thread {
    Asked().(net := multiset{Request, Request})
  }

  /** The prover has answered the first one. */
  ghost function AnsweredFirst(): Thread {
    Duplicated().(net := multiset{Request, Presentation}, requests := 1,
                  prover := Local([PresentationSent], Some(0), []))
  }

  /** The second one has replaced the prover's exchange, and the presentation has been verified. */
  ghost function AckOnItsWay(): Thread {
    AnsweredFirst().(net := multiset{Ack}, requests := 2, received := true, verified := true,
                     verifier := Local([Done], Some(0), []),
                     prover := Local([PresentationSent, RequestReceived], Some(1), []))
  }

  lemma ReachDuplicated(reach: Thread -> bool)
    requires Closed(Step, UNUSED, reach)
    ensures reach(Duplicated())
  {
    assert Closed(ExactlyOnceStep, UNUSED, reach);
    ReachAsked(reach);
    var s := Do(Step, UNUSED, reach, Asked(), Duplicate(Request));
    assert s == Duplicated();
  }

  /** The prover is about to answer the first one. */
  ghost function Answering(): Thread {
    Duplicated().(net := multiset{Request}, requests := 1, prover := Local([RequestReceived], Some(0), []),
                  tasks := multiset{Presenting(0)})
  }

  lemma ReachAnswering(reach: Thread -> bool)
    requires Closed(Step, UNUSED, reach)
    ensures reach(Answering())
  {
    ReachDuplicated(reach);
    var s := Do(Step, UNUSED, reach, Duplicated(), Deliver(Request));
    s := Do(Step, UNUSED, reach, s, Resume(RequestProcessed));
    s := Do(Step, UNUSED, reach, s, SendPresentation);
    assert s == Answering();
  }

  lemma ReachAnsweredFirst(reach: Thread -> bool)
    requires Closed(Step, UNUSED, reach)
    ensures reach(AnsweredFirst())
  {
    ReachAnswering(reach);
    var s := Do(Step, UNUSED, reach, Answering(), Resume(Presenting(0)));
    s := Do(Step, UNUSED, reach, s, Resume(PresentationReady));
    assert s == AnsweredFirst();
  }

  /** Both the second request and the presentation have arrived. */
  ghost function Arrived(): Thread {
    AnsweredFirst().(net := multiset{}, requests := 2, received := true,
                     verifier := Local([PresentationReceived], Some(0), []),
                     prover := Local([PresentationSent, RequestReceived], Some(1), []))
  }

  lemma ReachArrived(reach: Thread -> bool)
    requires Closed(Step, UNUSED, reach)
    ensures reach(Arrived())
  {
    ReachAnsweredFirst(reach);
    var s := Do(Step, UNUSED, reach, AnsweredFirst(), Deliver(Request));
    s := Do(Step, UNUSED, reach, s, Resume(RequestProcessed));
    s := Do(Step, UNUSED, reach, s, Deliver(Presentation));
    assert s == Arrived();
  }

  lemma ReachChecking(reach: Thread -> bool)
    requires Closed(Step, UNUSED, reach)
    ensures reach(Arrived().(tasks := multiset{Verifying(0)}))
  {
    ReachArrived(reach);
    var s := Do(Step, UNUSED, reach, Arrived(), Verify);
    assert s == Arrived().(tasks := multiset{Verifying(0)});
  }

  lemma ReachAckOnItsWay(reach: Thread -> bool)
    requires Closed(Step, UNUSED, reach)
    ensures reach(AckOnItsWay())
  {
    ReachChecking(reach);
    var s := Arrived().(tasks := multiset{Verifying(0)});
    s := Do(Step, UNUSED, reach, s, Resume(Verifying(0)));
    s := Do(Step, UNUSED, reach, s, Resume(AckReady));
    assert s == AckOnItsWay();
  }

  /** A reachable state in which the verifier is done, and its only ack is about to be dropped. */
  lemma DroppedAck() returns (s: Thread)
    ensures Reachable(Step, UNUSED, s) && AckDropped(s)
    ensures s.verifier.states == [Done] && s.net == multiset{Ack} && s.tasks == multiset{}
  {
    ReachableIsClosed(Step, UNUSED);
    ReachAckOnItsWay(s => Reachable(Step, UNUSED, s));
    s := AckOnItsWay();
  }
}

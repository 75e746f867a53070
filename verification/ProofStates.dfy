/**
 The states that the two agents answer with while a proof is presented: who assigns which, over all runs;
 and which steps a run makes possible.
 */
module ProofStates {
  import opened Options
  import opened Exchanges
  import opened Runs
  import opened PresentProof

  /** The state an action assigns to the verifier's exchange `x`. */
  function VerifierAssigned(s: Thread, a: Action, x: nat): Option<State> {
    match a
    case Resume(RequestCreated) => if x == |s.verifier.states| then Some(RequestSent) else None
    case Deliver(Presentation) => if Listening(s.verifier, Presentation, x) then Some(PresentationReceived) else None
    case Resume(Verifying(y)) => if x == y then Some(Done) else None
    case _ => None
  }

  /** The state an action assigns to the prover's exchange `x`; the ack only moves one that has been presented on. */
  function ProverAssigned(s: Thread, a: Action, x: nat): Option<State> {
    match a
    case Resume(RequestProcessed) => if x == |s.prover.states| then Some(RequestReceived) else None
    case Resume(Presenting(y)) => if x == y then Some(PresentationSent) else None
    case Deliver(Ack) =>
      if s.prover.cached == Some(x) && x < |s.prover.states| && s.prover.states[x] == PresentationSent then Some(Done)
      else None
    case _ => None
  }

  datatype Agent = Verifier | Prover

  function Of(s: Thread, agent: Agent): Local<Kind, State> {
    if agent == Verifier then s.verifier else s.prover
  }

  function Assigned(s: Thread, a: Action, agent: Agent, x: nat): Option<State> {
    if agent == Verifier then VerifierAssigned(s, a, x) else ProverAssigned(s, a, x)
  }

  /** The state assigned by the last action of the run that concerns the exchange. */
  ghost function LastAssigned(actions: seq<Action>, agent: Agent, x: nat): Option<State>
    requires After(Step, UNUSED, actions).Some?
  {
    if actions == [] then None
    else
      var before := actions[..|actions| - 1];
      var last := Assigned(After(Step, UNUSED, before).value, actions[|actions| - 1], agent, x);
      if last.Some? then last else LastAssigned(before, agent, x)
  }

  lemma VerifierContinues(s: Thread, task: Task, x: nat)
    requires TaskOk(s, task) && !Continue(s, task).Throws?
    ensures Becomes(s.verifier, Continue(s, task).s.verifier, x, VerifierAssigned(s, Resume(task), x))
  {
    match task
    case RequestCreated => CreateBecomes(s.verifier, RequestSent, x);
    case Verifying(y) => AssignBecomes(s.verifier, y, Done, x);
    case _ =>
  }

  lemma ProverContinues(s: Thread, task: Task, x: nat)
    requires TaskOk(s, task) && !Continue(s, task).Throws?
    ensures Becomes(s.prover, Continue(s, task).s.prover, x, ProverAssigned(s, Resume(task), x))
  {
    match task
    case RequestProcessed => CreateBecomes(s.prover, RequestReceived, x);
    case Presenting(y) => AssignBecomes(s.prover, y, PresentationSent, x);
    case _ =>
  }

  lemma ReceiveAssigns(s: Thread, kind: Kind, agent: Agent, x: nat)
    requires LocalsOk(s) && s.verifier.states != []
    ensures Becomes(Of(s, agent), Of(Receive(s, kind).s, agent), x, Assigned(s, Deliver(kind), agent, x))
  {
    match kind
    case Request =>
    case Presentation =>
      forall i | 0 <= i < |s.verifier.subs| ensures s.verifier.subs[i].target < |s.verifier.states| {
        assert s.verifier.subs[i] in s.verifier.subs;
      }
      PublishBecomes(s.verifier, Presentation, PresentationReceived, x);
    case Ack =>
      if s.prover.cached.Some? {
        AssignBecomes(s.prover, s.prover.cached.value, Done, x);
      }
  }

  lemma DeliverAssigns(s: Thread, kind: Kind, agent: Agent, x: nat)
    requires PresentProof.Ok(s) && kind in s.net
    ensures Becomes(Of(s, agent), Of(Step(s, Deliver(kind)).value, agent), x, Assigned(s, Deliver(kind), agent, x))
  {
    ReceiveAssigns(Taken(s, kind), kind, agent, x);
  }

  lemma ContinueAssigns(s: Thread, task: Task, agent: Agent, x: nat)
    requires TaskOk(s, task) && !Continue(s, task).Throws?
    ensures Becomes(Of(s, agent), Of(Continue(s, task).s, agent), x, Assigned(s, Resume(task), agent, x))
  {
    if agent == Verifier {
      VerifierContinues(s, task, x);
    } else {
      ProverContinues(s, task, x);
    }
  }

  lemma WithoutAssigns(s: Thread, task: Task, agent: Agent, x: nat)
    ensures Of(Without(s, task), agent) == Of(s, agent)
    ensures Assigned(Without(s, task), Resume(task), agent, x) == Assigned(s, Resume(task), agent, x)
    ensures TaskOk(s, task) ==> TaskOk(Without(s, task), task)
  {
  }

  lemma ResumeAssigns(s: Thread, task: Task, agent: Agent, x: nat)
    requires TaskOk(s, task) && !Continue(Without(s, task), task).Throws?
    ensures Becomes(Of(s, agent), Of(Continue(Without(s, task), task).s, agent), x, Assigned(s, Resume(task), agent, x))
  {
    WithoutAssigns(s, task, agent, x);
    ContinueAssigns(Without(s, task), task, agent, x);
  }

  lemma StepAssigns(s: Thread, a: Action, agent: Agent, x: nat)
    requires PresentProof.Ok(s) && Step(s, a).Some?
    ensures Becomes(Of(s, agent), Of(Step(s, a).value, agent), x, Assigned(s, a, agent, x))
  {
    match a
    case SendRequest =>
    case SendPresentation =>
    case Verify =>
    case Deliver(kind) => DeliverAssigns(s, kind, agent, x);
    case Duplicate(_) =>
    case Resume(task) =>
      assert TaskOk(s, task);
      ResumeAssigns(s, task, agent, x);
    case Fail(_) =>
  }

  /** In every run, each exchange is at the state assigned by the last action that concerns it. */
  lemma {:induction false} StateIsLastAssigned(actions: seq<Action>, agent: Agent, x: nat)
    requires After(Step, UNUSED, actions).Some?
    ensures var states := Of(After(Step, UNUSED, actions).value, agent).states;
            LastAssigned(actions, agent, x) == if x < |states| then Some(states[x]) else None
  {
    if actions == [] {
    } else {
      var before := actions[..|actions| - 1];
      StateIsLastAssigned(before, agent, x);
      RunsAreOk(before);
      StepAssigns(After(Step, UNUSED, before).value, actions[|actions| - 1], agent, x);
    }
  }

  // ---------------------------------------------------------------------------
  // Which steps are possible after a run
  // ---------------------------------------------------------------------------

  /**
   What a step needs of the run before it: a command, an exchange of its agent; a message, to be in flight. Of the
   handlers under way only a verification may have to throw, without a presentation.
   */
  ghost predicate Enabled(actions: seq<Action>, s: Thread, a: Action) {
    match a
    case SendRequest => SendRequest !in actions
    case SendPresentation => Resume(RequestProcessed) in actions
    case Verify => Resume(RequestCreated) in actions
    case Deliver(kind) => kind in s.net
    case Duplicate(kind) => kind in s.net
    case Resume(Verifying(x)) => Verifying(x) in s.tasks && Deliver(Presentation) in actions
    case Resume(task) => task in s.tasks
    case Fail(task) => task in s.tasks
  }

  predicate Made(l: Local<Kind, State>) {
    l.cached.Some? <==> l.states != []
  }

  /** What a step adds to what the thread remembers. */
  predicate Marks(s: Thread, s': Thread, a: Action) {
    && s'.requested == (s.requested || a == SendRequest)
    && s'.received == (s.received || a == Deliver(Presentation))
    && (s'.requests > 0 <==> s.requests > 0 || a == Deliver(Request))
    && (s'.verifier.cached.Some? <==> s.verifier.cached.Some? || a == Resume(RequestCreated))
    && (s'.prover.cached.Some? <==> s.prover.cached.Some? || a == Resume(RequestProcessed))
    && (Made(s.verifier) ==> Made(s'.verifier)) && (Made(s.prover) ==> Made(s'.prover))
  }

  lemma ContinueMarks(s: Thread, task: Task)
    requires !Continue(s, task).Throws?
    ensures Marks(s, Continue(s, task).s, Resume(task))
  {
    match task
    case RequestCreated =>
    case RequestReady =>
    case RequestProcessed =>
    case Presenting(_) =>
    case PresentationReady =>
    case Verifying(_) =>
    case AckReady =>
  }

  lemma ReceiveMarks(s: Thread, kind: Kind)
    ensures !Receive(s, kind).Throws? && Marks(s, Receive(s, kind).s, Deliver(kind))
  {
    match kind
    case Request =>
    case Presentation =>
    case Ack =>
  }

  lemma ScheduleMarks(s: Thread, o: Outcome, a: Action)
    requires !o.Throws? && Marks(s, o.s, a)
    ensures Marks(s, Schedule(o).value, a)
  {
  }

  lemma StepMarks(s: Thread, a: Action)
    requires Step(s, a).Some?
    ensures Marks(s, Step(s, a).value, a)
  {
    match a
    case SendRequest =>
    case SendPresentation =>
    case Verify =>
    case Deliver(kind) =>
      ReceiveMarks(Taken(s, kind), kind);
      ScheduleMarks(s, Receive(Taken(s, kind), kind), a);
    case Duplicate(_) =>
    case Resume(task) =>
      ContinueMarks(Without(s, task), task);
      ScheduleMarks(s, Continue(Without(s, task), task), a);
    case Fail(_) =>
  }

  /** The thread remembers exactly what the run has done. */
  ghost predicate Remembers(s: Thread, actions: seq<Action>) {
    && s.requested == (SendRequest in actions)
    && s.received == (Deliver(Presentation) in actions)
    && (s.requests > 0 <==> Deliver(Request) in actions)
    && s.verifier.cached.Some? == (Resume(RequestCreated) in actions)
    && s.prover.cached.Some? == (Resume(RequestProcessed) in actions)
    && Made(s.verifier) && Made(s.prover)
  }

  lemma RemembersMore(s: Thread, s': Thread, actions: seq<Action>, a: Action)
    requires Remembers(s, actions) && Marks(s, s', a)
    ensures Remembers(s', actions + [a])
  {
    assert forall b :: b in actions + [a] <==> b in actions || b == a;
  }

  lemma {:induction false} RunRemembers(actions: seq<Action>)
    requires After(Step, UNUSED, actions).Some?
    ensures Remembers(After(Step, UNUSED, actions).value, actions)
  {
    if actions == [] {
    } else {
      var before, a := actions[..|actions| - 1], actions[|actions| - 1];
      RunRemembers(before);
      StepMarks(After(Step, UNUSED, before).value, a);
      RemembersMore(After(Step, UNUSED, before).value, After(Step, UNUSED, actions).value, before, a);
      assert actions == before + [a];
    }
  }

  /** The prover makes an exchange only for a request it has processed. */
  predicate Backed(s: Thread) {
    RequestProcessed in s.tasks || s.prover.states != [] ==> s.requests > 0
  }

  lemma ReceiveBacked(s: Thread, kind: Kind)
    requires Backed(s)
    ensures !Receive(s, kind).Throws? && Backed(Schedule(Receive(s, kind)).value)
  {
    match kind
    case Request =>
    case Presentation =>
    case Ack =>
  }

  lemma ContinueBacked(s: Thread, task: Task)
    requires Backed(s) && !Continue(s, task).Throws? && (task == RequestProcessed ==> s.requests > 0)
    ensures Backed(Schedule(Continue(s, task)).value)
  {
    match task
    case RequestCreated =>
    case RequestReady =>
    case RequestProcessed =>
    case Presenting(_) =>
    case PresentationReady =>
    case Verifying(_) =>
    case AckReady =>
  }

  lemma StepBacked(s: Thread, a: Action)
    requires Backed(s) && Step(s, a).Some?
    ensures Backed(Step(s, a).value)
  {
    match a
    case SendRequest =>
    case SendPresentation =>
    case Verify =>
    case Deliver(kind) => ReceiveBacked(Taken(s, kind), kind);
    case Duplicate(_) =>
    case Resume(task) => ContinueBacked(Without(s, task), task);
    case Fail(_) =>
  }

  lemma ResumeIff(s: Thread, task: Task)
    requires PresentProof.Ok(s) && Backed(s)
    ensures Step(s, Resume(task)).Some? <==> task in s.tasks && (task.Verifying? ==> s.received)
  {
    if task in s.tasks {
      assert TaskOk(s, task);
    }
  }

  lemma OthersIff(s: Thread, a: Action)
    requires !a.Resume?
    ensures Step(s, a).Some?
       <==> match a
            case SendRequest => !s.requested
            case SendPresentation => s.prover.cached.Some?
            case Verify => s.verifier.cached.Some?
            case Deliver(kind) => kind in s.net
            case Duplicate(kind) => kind in s.net
            case Fail(task) => task in s.tasks
  {
    if a.Deliver? {
      ReceiveMarks(Taken(s, a.kind), a.kind);
    }
  }

  /** After every run, whatever it was: a step is possible exactly if the run has done what it needs. */
  lemma StepIff(actions: seq<Action>, a: Action)
    requires After(Step, UNUSED, actions).Some?
    ensures var s := After(Step, UNUSED, actions).value; Step(s, a).Some? <==> Enabled(actions, s, a)
  {
    var s := After(Step, UNUSED, actions).value;
    RunsAreOk(actions);
    RunRemembers(actions);
    forall s, a | Backed(s) && Step(s, a).Some? ensures Backed(Step(s, a).value) {
      StepBacked(s, a);
    }
    InvariantHolds(Step, UNUSED, Backed, actions);
    if a.Resume? {
      ResumeIff(s, a.task);
    } else {
      OthersIff(s, a);
    }
  }
}

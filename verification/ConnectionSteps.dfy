/**
 The states that the two parties answer with while they connect: which action assigns which, over all runs;
 and which steps a run makes possible.
 */
module ConnectionSteps {
  import opened Options
  import opened Exchanges
  import opened Runs
  import opened Connection

  /** The state an action assigns to the inviter's connection. */
  function InviterAssigned(s: Pair, a: Action): Option<State> {
    match a
    case CreateInvitation => Some(Invited)
    case Deliver(Handshake(Request)) => if s.inviter.subs != [] then Some(Requested) else None
    case Resume(HasSent(AcceptRequest)) => Some(Responded)
    case Resume(HasSent(SendPing(Inviter))) => Some(Complete)
    case Deliver(Ping(Inviter)) => if s.inviter.states == [Responded] then Some(Complete) else None
    case _ => None
  }

  /** The state an action assigns to the invitee's connection. */
  function InviteeAssigned(s: Pair, a: Action): Option<State> {
    match a
    case ReceiveInvitation => Some(Invited)
    case Resume(HasSent(AcceptInvitation)) => Some(Requested)
    case Deliver(Handshake(Response)) => if s.invitee.subs != [] then Some(Responded) else None
    case Resume(HasSent(SendPing(Invitee))) => Some(Complete)
    case Deliver(Ping(Invitee)) => if s.invitee.states == [Responded] then Some(Complete) else None
    case _ => None
  }

  function Assigned(s: Pair, a: Action, p: Party): Option<State> {
    if p == Inviter then InviterAssigned(s, a) else InviteeAssigned(s, a)
  }

  /** The state assigned by the last action of the run that concerns the party. */
  ghost function LastAssigned(actions: seq<Action>, p: Party): Option<State>
    requires After(Step, UNUSED, actions).Some?
  {
    if actions == [] then None
    else
      var before := actions[..|actions| - 1];
      var last := Assigned(After(Step, UNUSED, before).value, actions[|actions| - 1], p);
      if last.Some? then last else LastAssigned(before, p)
  }

  ghost predicate Becomes(l: Local<Kind, State>, l': Local<Kind, State>, given: Option<State>) {
    l'.states == if given.Some? then [given.value] else l.states
  }

  lemma ReceiveAssigns(s: Pair, m: Msg, p: Party)
    requires PartiesFit(s)
    ensures Becomes(Of(s, p), Of(Receive(s, m).value, p), Assigned(s, Deliver(m), p))
  {
    match m
    case Handshake(Request) => PublishFits(s.inviter, Request, Requested);
    case Handshake(Response) => PublishFits(s.invitee, Response, Responded);
    case Ping(Inviter) =>
    case Ping(Invitee) =>
  }

  lemma ReturnAssigns(s: Pair, c: Command, p: Party)
    requires PartiesFit(s) && Of(s, By(c)).states != []
    ensures Becomes(Of(s, p), Of(Continue(s, HasSent(c)).value, p), Assigned(s, Resume(HasSent(c)), p))
  {
    if By(c) == Inviter {
      AssignFits(s.inviter, Sub(Request, 0, Requested), AssignedBy(c));
    } else {
      AssignFits(s.invitee, Sub(Response, 0, Responded), AssignedBy(c));
    }
  }

  lemma StepAssigns(s: Pair, a: Action, p: Party)
    requires PartiesFit(s) && PartiesExist(s) && Step(s, a).Some?
    ensures Becomes(Of(s, p), Of(Step(s, a).value, p), Assigned(s, a, p))
  {
    match a
    case CreateInvitation => CreateFits(s.inviter, Sub(Request, 0, Requested));
    case ReceiveInvitation => CreateFits(s.invitee, Sub(Response, 0, Responded));
    case Deliver(m) => ReceiveAssigns(s, m, p);
    case Resume(HasSent(c)) => ReturnAssigns(Without(s, HasSent(c)), c, p);
    case _ =>
  }

  /** In every run, each party is at the state assigned by the last action that concerns it, if there was one. */
  lemma {:induction false} StateIsLastAssigned(actions: seq<Action>, p: Party)
    requires After(Step, UNUSED, actions).Some?
    ensures Of(After(Step, UNUSED, actions).value, p).states
         == if LastAssigned(actions, p).Some? then [LastAssigned(actions, p).value] else []
  {
    if actions == [] {
    } else {
      var before := actions[..|actions| - 1];
      StateIsLastAssigned(before, p);
      AdvancedIff(before, p);
      StepAssigns(After(Step, UNUSED, before).value, actions[|actions| - 1], p);
    }
  }

  // ---------------------------------------------------------------------------
  // Which steps are possible after a run
  // ---------------------------------------------------------------------------

  /** What puts a message on its way: the sending of the command it belongs to, at the other party. */
  function SentBy(m: Msg): Action {
    match m
    case Handshake(Request) => Resume(Sending(AcceptInvitation))
    case Handshake(Response) => Resume(Sending(AcceptRequest))
    case Ping(Inviter) => Resume(Sending(SendPing(Invitee)))
    case Ping(Invitee) => Resume(Sending(SendPing(Inviter)))
  }

  /** What caches the connection that a command looks up. */
  function CachedBy(command: Command): Action {
    match command
    case AcceptInvitation => ReceiveInvitation
    case AcceptRequest => CreateInvitation
    case SendPing(Inviter) => CreateInvitation
    case SendPing(Invitee) => ReceiveInvitation
  }

  /**
   What a step needs of the run before it. Of the commands under way only accept-request may have to throw, if no
   request has been processed.
   */
  ghost predicate Enabled(actions: seq<Action>, tasks: multiset<Task>, a: Action) {
    match a
    case CreateInvitation => CreateInvitation !in actions
    case ReceiveInvitation => CreateInvitation in actions && ReceiveInvitation !in actions
    case Issue(command) => CachedBy(command) in actions
    case Deliver(m) => SentBy(m) in actions
    case Resume(LookedUp(AcceptRequest)) => LookedUp(AcceptRequest) in tasks && Deliver(Handshake(Request)) in actions
    case Resume(task) => task in tasks
    case Fail(task) => task in tasks
  }

  /** What a step adds to what the pair remembers. */
  ghost predicate Marks(s: Pair, s': Pair, a: Action) {
    && s'.requestIn == (s.requestIn || a == Deliver(Handshake(Request)))
    && (s'.inviter.cached.Some? <==> s.inviter.cached.Some? || a == CreateInvitation)
    && (s'.invitee.cached.Some? <==> s.invitee.cached.Some? || a == ReceiveInvitation)
    && forall m :: m in s'.sent <==> m in s.sent || a == SentBy(m)
  }

  lemma ContinueMarks(s: Pair, task: Task)
    requires Continue(s, task).Some?
    ensures Marks(s, Continue(s, task).value, Resume(task))
  {
    match task
    case LookedUp(_) =>
    case Sending(command) => assert forall m :: m == MessageOf(command) <==> Resume(task) == SentBy(m);
    case HasSent(_) =>
  }

  lemma FollowingMarks(s: Pair, s': Pair, task: Task, a: Action)
    requires Marks(s, s', a)
    ensures Marks(s, Following(s', task), a)
  {
  }

  lemma ReceiveMarks(s: Pair, m: Msg)
    ensures Receive(s, m).Some? && Marks(s, Receive(s, m).value, Deliver(m))
  {
    match m
    case Handshake(Request) =>
    case Handshake(Response) =>
    case Ping(_) =>
  }

  lemma StepMarks(s: Pair, a: Action)
    requires Step(s, a).Some?
    ensures Marks(s, Step(s, a).value, a)
  {
    match a
    case CreateInvitation =>
    case ReceiveInvitation =>
    case Issue(_) =>
    case Deliver(m) => ReceiveMarks(s, m);
    case Resume(task) =>
      ContinueMarks(Without(s, task), task);
      FollowingMarks(s, Continue(Without(s, task), task).value, task, a);
    case Fail(_) =>
  }

  /** The pair remembers exactly what the run has done. */
  ghost predicate Remembers(s: Pair, actions: seq<Action>) {
    && s.requestIn == (Deliver(Handshake(Request)) in actions)
    && s.inviter.cached.Some? == (CreateInvitation in actions)
    && s.invitee.cached.Some? == (ReceiveInvitation in actions)
    && forall m :: m in s.sent <==> SentBy(m) in actions
  }

  lemma RemembersMore(s: Pair, s': Pair, actions: seq<Action>, a: Action)
    requires Remembers(s, actions) && Marks(s, s', a)
    ensures Remembers(s', actions + [a])
  {
    assert forall b :: b in actions + [a] <==> b in actions || b == a;
  }

  lemma {:induction false} RunRemembers(actions: seq<Action>)
    requires After(Step, UNUSED, actions).Some?
    ensures Remembers(After(Step, UNUSED, actions).value, actions)
  {
    if actions == [] {
    } else {
      var before, a := actions[..|actions| - 1], actions[|actions| - 1];
      RunRemembers(before);
      StepMarks(After(Step, UNUSED, before).value, a);
      RemembersMore(After(Step, UNUSED, before).value, After(Step, UNUSED, actions).value, before, a);
      assert actions == before + [a];
    }
  }

  lemma StepWhen(s: Pair, a: Action)
    ensures Step(s, a).Some?
       <==> match a
            case CreateInvitation => s.inviter.cached.None?
            case ReceiveInvitation => s.inviter.cached.Some? && s.invitee.cached.None?
            case Issue(command) => Of(s, By(command)).cached.Some?
            case Deliver(m) => m in s.sent
            case Resume(task) => task in s.tasks && (task == LookedUp(AcceptRequest) ==> s.requestIn)
            case Fail(task) => task in s.tasks
  {
    if a.Deliver? {
      ReceiveMarks(s, a.m);
    }
  }

  /** After every run, whatever it was: a step is possible exactly if the run has done what it needs. */
  lemma StepIff(actions: seq<Action>, a: Action)
    requires After(Step, UNUSED, actions).Some?
    ensures var s := After(Step, UNUSED, actions).value; Step(s, a).Some? <==> Enabled(actions, s.tasks, a)
  {
    RunRemembers(actions);
    StepWhen(After(Step, UNUSED, actions).value, a);
  }
}

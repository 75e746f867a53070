/**
 The connection exchange between two .NET backchannels (RFC 0160), one invitation, split at the
 awaits. Unlike in the other two exchanges, accept-invitation, accept-request and send-ping
 assign their state only after the message has been sent, so an answer may overtake it.
 A message, once sent, may be delivered at any later time, again and again, or never.
 */
module Connection {
  import opened Options
  import opened Exchanges
  import opened Runs

  datatype Party = Inviter | Invitee

  datatype State = Invited | Requested | Responded | Complete

  datatype Kind = Request | Response

  datatype Msg = Handshake(kind: Kind) | Ping(to: Party)

  datatype Command = AcceptInvitation | AcceptRequest | SendPing(party: Party)

  /** A command between two awaits: looked up, about to send, sent but not yet assigned. */
  datatype Task = LookedUp(command: Command) | Sending(command: Command) | HasSent(command: Command)

  datatype Pair = Pair(
    inviter: Local<Kind, State>,
    invitee: Local<Kind, State>,
    requestIn: bool,         // the inviter has processed the request
    responseIn: bool,        // the invitee has processed the response
    issued: set<Command>,
    returned: set<Command>,
    sent: set<Msg>,
    tasks: multiset<Task>)

  const UNUSED := Pair(Empty(), Empty(), false, false, {}, {}, {}, multiset{})

  datatype Action =
    | CreateInvitation         // and its subscription for the request
    | ReceiveInvitation
    | Issue(command: Command)  // the cache look-up; not-found when nothing is cached
    | Deliver(m: Msg)
    | Resume(task: Task)
    | Fail(task: Task)

  function Of(s: Pair, p: Party): Local<Kind, State> {
    if p == Inviter then s.inviter else s.invitee
  }

  function With(s: Pair, p: Party, l: Local<Kind, State>): Pair {
    if p == Inviter then s.(inviter := l) else s.(invitee := l)
  }

  function By(command: Command): Party {
    match command
    case AcceptInvitation => Invitee
    case AcceptRequest => Inviter
    case SendPing(p) => p
  }

  function MessageOf(command: Command): Msg {
    match command
    case AcceptInvitation => Handshake(Request)
    case AcceptRequest => Handshake(Response)
    case SendPing(p) => Ping(if p == Inviter then Invitee else Inviter)
  }

  /** The state a command assigns once its message has been sent. */
  function AssignedBy(command: Command): State {
    match command
    case AcceptInvitation => Requested
    case AcceptRequest => Responded
    case SendPing(_) => Complete
  }

  function Step(s: Pair, a: Action): Option<Pair> {
    match a
    case CreateInvitation =>
      if s.inviter.cached.Some? then None
      else Some(s.(inviter := s.inviter.Create(Invited).Subscribe(Request, 0, Requested)))
    case ReceiveInvitation =>
      if s.inviter.cached.None? || s.invitee.cached.Some? then None
      else Some(s.(invitee := s.invitee.Create(Invited)))
    case Issue(command) =>
      if Of(s, By(command)).cached.None? then None
      else Some(Then(s.(issued := s.issued + {command}), LookedUp(command)))
    case Deliver(m) => if m in s.sent then Receive(s, m) else None
    case Resume(task) =>
      if task !in s.tasks || Continue(Without(s, task), task).None? then None
      else Some(Following(Continue(Without(s, task), task).value, task))
    case Fail(task) => if task in s.tasks then Some(Without(s, task)) else None
  }

  function Then(s: Pair, task: Task): Pair {
    s.(tasks := s.tasks + multiset{task})
  }

  function Without(s: Pair, task: Task): Pair {
    s.(tasks := s.tasks - multiset{task})
  }

  function Receive(s: Pair, m: Msg): Option<Pair> {
    match m
    case Handshake(Request) => Some(s.(requestIn := true, inviter := s.inviter.Publish(Request)))
    case Handshake(Response) => Some(s.(responseIn := true, invitee := s.invitee.Publish(Response)))
    // Middlewares/MessageMiddleware.cs
    case Ping(to) => Some(if IsAt(Of(s, to), Responded) then With(s, to, Of(s, to).Assign(0, Complete)) else s)
  }

  predicate IsAt(l: Local<Kind, State>, state: State) {
    l.states == [state]
  }

  /** What resuming a command does to the pair; `Following` is where the command waits next. */
  function Continue(s: Pair, task: Task): Option<Pair> {
    match task
    case LookedUp(AcceptInvitation) => Some(s.(invitee := s.invitee.Subscribe(Response, 0, Responded)))
    case LookedUp(AcceptRequest) => if s.requestIn then Some(s) else None
    case LookedUp(SendPing(p)) => Some(s)
    case Sending(command) => Some(s.(sent := s.sent + {MessageOf(command)}))
    case HasSent(command) =>
      var p := By(command);
      Some(With(s, p, Of(s, p).Assign(0, AssignedBy(command))).(returned := s.returned + {command}))
  }

  function Following(s: Pair, task: Task): Pair {
    match task
    case LookedUp(command) => Then(s, Sending(command))
    case Sending(command) => Then(s, HasSent(command))
    case HasSent(_) => s
  }

  function Rank(l: Local<Kind, State>): nat {
    if l.states == [] then 0
    else match l.states[0] case Invited => 1 case Requested => 2 case Responded => 3 case Complete => 4
  }

  /** Neither party goes back in Invited, Requested, Responded, Complete. */
  predicate Forward(s: Pair, s': Pair) {
    Rank(s.inviter) <= Rank(s'.inviter) && Rank(s.invitee) <= Rank(s'.invitee)
  }

  // ---------------------------------------------------------------------------
  // Runs in which each command is issued at most once
  // ---------------------------------------------------------------------------

  function OnceStep(s: Pair, a: Action): Option<Pair> {
    if a.Issue? && a.command in s.issued then None else Step(s, a)
  }

  /** The step comes too late: a later state has been set by an answer or by the party's own ping. */
  predicate Overtaken(s: Pair, a: Action) {
    match a
    case Resume(HasSent(AcceptInvitation)) => s.responseIn || SendPing(Invitee) in s.returned
    case Resume(HasSent(AcceptRequest)) => SendPing(Inviter) in s.returned
    case Deliver(Handshake(Request)) => !s.requestIn && SendPing(Inviter) in s.returned
    case Deliver(Handshake(Response)) => !s.responseIn && SendPing(Invitee) in s.returned
    case _ => false
  }

  function CleanStep(s: Pair, a: Action): Option<Pair> {
    if Overtaken(s, a) then None else OnceStep(s, a)
  }

  // What holds in every run of commands issued at most once

  /** A command is in one place: at one of its awaits, returned, or failed. */
  ghost predicate OncePerCommand(s: Pair) {
    forall c: Command :: Copies(s, c) <= if c in s.issued then 1 else 0
  }

  ghost function Copies(s: Pair, c: Command): nat {
    s.tasks[LookedUp(c)] + s.tasks[Sending(c)] + s.tasks[HasSent(c)] + if c in s.returned then 1 else 0
  }

  ghost predicate Made(l: Local<Kind, State>) {
    |l.states| <= 1 && l.cached == if l.states == [] then None else Some(0)
  }

  /** The invitee has subscribed for the response, or has had it. */
  ghost predicate AwaitsResponse(s: Pair) {
    s.responseIn || Sub(Response, 0, Responded) in s.invitee.subs
  }

  ghost predicate PartiesOk(s: Pair) {
    && Made(s.inviter) && Made(s.invitee)
    && (s.inviter.states == [] ==> s == UNUSED)
    && (forall sub | sub in s.inviter.subs :: sub == Sub(Request, 0, Requested))
    && (forall sub | sub in s.invitee.subs :: sub == Sub(Response, 0, Responded))
    && (s.inviter.states != [] && !s.requestIn ==> Sub(Request, 0, Requested) in s.inviter.subs)
    && (s.requestIn ==> s.inviter.subs == [])
    && (s.responseIn ==> s.invitee.subs == [])
  }

  ghost predicate MessagesOk(s: Pair) {
    && (s.requestIn ==> Handshake(Request) in s.sent)
    && (s.responseIn ==> Handshake(Response) in s.sent)
    && (Handshake(Request) in s.sent ==> AwaitsResponse(s) && s.invitee.states != [])
    && (Handshake(Response) in s.sent ==> s.requestIn)
    && (forall c | c in s.returned :: MessageOf(c) in s.sent)
    && (forall c :: MessageOf(c) in s.sent ==> c in s.issued)
  }

  ghost predicate TasksOk(s: Pair) {
    forall task | task in s.tasks :: TaskOk(s, task)
  }

  ghost predicate IssuersExist(s: Pair) {
    forall c | c in s.issued :: Of(s, By(c)).states != []
  }

  ghost predicate TaskOk(s: Pair, task: Task) {
    && Of(s, By(task.command)).states != []
    && task.command in s.issued
    && (task == Sending(AcceptInvitation) || task == HasSent(AcceptInvitation) ==> AwaitsResponse(s))
    && (task == Sending(AcceptRequest) || task == HasSent(AcceptRequest) ==> s.requestIn)
    && (task == LookedUp(AcceptInvitation) ==> Handshake(Request) !in s.sent)
    && (task == HasSent(task.command) ==> MessageOf(task.command) in s.sent)
  }

  /** Where the two parties are, as long as no step came too late. */
  ghost predicate StatesOk(s: Pair) {
    && (s.inviter.states != [] ==> InviterState(s, s.inviter.states[0]))
    && (s.invitee.states != [] ==> InviteeState(s, s.invitee.states[0]))
  }

  ghost predicate InviterState(s: Pair, state: State) {
    if SendPing(Inviter) in s.returned then state == Complete
    else if AcceptRequest in s.returned then state == Responded || state == Complete
    else state == if s.requestIn then Requested else Invited
  }

  ghost predicate InviteeState(s: Pair, state: State) {
    if SendPing(Invitee) in s.returned then state == Complete
    else if s.responseIn then state == Responded || state == Complete
    else state == if AcceptInvitation in s.returned then Requested else Invited
  }

  /** What was subscribed, sent and processed, whatever came too late. */
  ghost predicate Wired(s: Pair) {
    PartiesOk(s) && MessagesOk(s)
  }

  /** And where the parties are; nothing here is about the commands under way. */
  ghost predicate Sound(s: Pair) {
    Wired(s) && StatesOk(s)
  }

  /** What concerns the commands under way. */
  ghost predicate Underway(s: Pair) {
    OncePerCommand(s) && TasksOk(s) && IssuersExist(s)
  }

  /** What every run keeps. */
  ghost predicate Kept(s: Pair) {
    Underway(s) && Wired(s)
  }

  /** What a run keeps as long as no step comes too late. */
  ghost predicate Ok(s: Pair) {
    Underway(s) && Sound(s)
  }

  /** The event of a handshake message moves a party that was waiting for it, and only that party. */
  lemma PublishHandshake(l: Local<Kind, State>, kind: Kind, next: State)
    requires Made(l) && l.states != [] && forall sub | sub in l.subs :: sub == Sub(kind, 0, next)
    ensures l.Publish(kind) == Local(if l.subs == [] then l.states else [next], Some(0), [])
  {
    AllSpent(l.subs, kind);
    FireAllAt(l.states, l.subs, kind, next, 0);
    if l.subs != [] {
      assert l.subs[0] in l.subs;
    }
  }

  /** What commands rely on stays. */
  ghost predicate Grew(s: Pair, s': Pair) {
    && s.sent <= s'.sent && s.issued <= s'.issued
    && (s.requestIn ==> s'.requestIn) && (AwaitsResponse(s) ==> AwaitsResponse(s'))
    && (s.inviter.states != [] ==> s'.inviter.states != []) && (s.invitee.states != [] ==> s'.invitee.states != [])
  }

  lemma RequestReceived(s: Pair)
    requires Wired(s) && Handshake(Request) in s.sent
    ensures Receive(s, Handshake(Request)).Some? && Wired(Receive(s, Handshake(Request)).value)
    ensures Grew(s, Receive(s, Handshake(Request)).value)
  {
    PublishHandshake(s.inviter, Request, Requested);
  }

  lemma ResponseReceived(s: Pair)
    requires Wired(s) && Handshake(Response) in s.sent
    ensures Receive(s, Handshake(Response)).Some? && Wired(Receive(s, Handshake(Response)).value)
    ensures Grew(s, Receive(s, Handshake(Response)).value)
  {
    PublishHandshake(s.invitee, Response, Responded);
  }

  lemma PingReceived(s: Pair, to: Party)
    requires Wired(s)
    ensures Receive(s, Ping(to)).Some? && Wired(Receive(s, Ping(to)).value)
    ensures Grew(s, Receive(s, Ping(to)).value)
  {
  }

  lemma IssuersStay(s: Pair, s': Pair)
    requires IssuersExist(s) && Grew(s, s') && s'.issued == s.issued
    ensures IssuersExist(s')
  {
    forall c | c in s'.issued ensures Of(s', By(c)).states != [] {
      assert Of(s, By(c)).states != [];
    }
  }

  lemma ReturnWired(s: Pair, c: Command)
    requires Wired(s) && TaskOk(s, HasSent(c))
    ensures Wired(Continue(s, HasSent(c)).value) && Grew(s, Continue(s, HasSent(c)).value)
  {
  }

  lemma SendWired(s: Pair, c: Command)
    requires Wired(s) && TaskOk(s, Sending(c))
    ensures Wired(Continue(s, Sending(c)).value) && Grew(s, Continue(s, Sending(c)).value)
  {
  }

  lemma ContinueWired(s: Pair, task: Task)
    requires Wired(s) && TaskOk(s, task) && Continue(s, task).Some?
    ensures Wired(Continue(s, task).value) && Grew(s, Continue(s, task).value)
  {
    match task
    case LookedUp(AcceptInvitation) =>
      assert s.invitee.Subscribe(Response, 0, Responded).subs[|s.invitee.subs|] == Sub(Response, 0, Responded);
    case LookedUp(AcceptRequest) =>
    case LookedUp(SendPing(p)) =>
    case Sending(command) => SendWired(s, command);
    case HasSent(command) => ReturnWired(s, command);
  }

  lemma TaskStaysOk(s: Pair, s': Pair, task: Task)
    requires TaskOk(s, task) && Grew(s, s')
    requires task == LookedUp(AcceptInvitation) ==> Handshake(Request) !in s'.sent
    ensures TaskOk(s', task)
  {
  }

  lemma ContinueMoves(s: Pair, task: Task)
    requires Continue(s, task).Some?
    ensures Continue(s, task).value.tasks == s.tasks && Continue(s, task).value.issued == s.issued
    ensures Continue(s, task).value.requestIn == s.requestIn && Continue(s, task).value.responseIn == s.responseIn
    ensures Continue(s, task).value.returned == if task.HasSent? then s.returned + {task.command} else s.returned
  {
  }

  lemma MovesOn(s: Pair, s1: Pair, task: Task, c: Command)
    requires task in s.tasks && Copies(s, task.command) <= 1
    requires s1.tasks == s.tasks - multiset{task}
    requires s1.returned == if task.HasSent? then s.returned + {task.command} else s.returned
    ensures Copies(Following(s1, task), c) == Copies(s, c)
  {
    match task
    case LookedUp(d) => Moved(s.tasks, s1.tasks, LookedUp(d), Sending(d));
    case Sending(d) => Moved(s.tasks, s1.tasks, Sending(d), HasSent(d));
    case HasSent(d) => assert d !in s.returned;
  }

  lemma Moved(before: multiset<Task>, without: multiset<Task>, task: Task, next: Task)
    requires task in before && without == before - multiset{task} && next != task
    ensures forall t :: (without + multiset{next})[t] + (if t == task then 1 else 0)
                     == before[t] + if t == next then 1 else 0
  {
  }

  /** A resumed command moves on; it is still in one place. */
  lemma ResumeCopies(s: Pair, task: Task)
    requires OncePerCommand(s) && task in s.tasks && Continue(Without(s, task), task).Some?
    ensures OncePerCommand(Following(Continue(Without(s, task), task).value, task))
  {
    var s1 := Continue(Without(s, task), task).value;
    ContinueMoves(Without(s, task), task);
    assert Copies(s, task.command) <= 1;
    forall c: Command ensures Copies(Following(s1, task), c) <= if c in Following(s1, task).issued then 1 else 0 {
      assert Copies(s, c) <= if c in s.issued then 1 else 0;
      MovesOn(s, s1, task, c);
    }
  }

  /** Two handlers under way belong to different commands. */
  lemma NotTwice(s: Pair, task: Task, other: Task)
    requires OncePerCommand(s) && task in s.tasks && other in Without(s, task).tasks
    ensures other.command != task.command
  {
    assert Copies(s, task.command) <= 1;
    assert other == task ==> s.tasks[task] >= 2;
  }

  lemma ResumeTasks(s: Pair, task: Task)
    requires OncePerCommand(s) && TasksOk(s) && task in s.tasks && Continue(Without(s, task), task).Some?
    requires Grew(Without(s, task), Continue(Without(s, task), task).value)
    ensures TasksOk(Following(Continue(Without(s, task), task).value, task))
  {
    var s1 := Continue(Without(s, task), task).value;
    forall other | other in s1.tasks ensures TaskOk(s1, other) {
      NotTwice(s, task, other);
      assert TaskOk(s, other);
      TaskStaysOk(Without(s, task), s1, other);
    }
    FollowingOk(Without(s, task), task);
  }

  lemma FollowingOk(s: Pair, task: Task)
    requires TaskOk(s, task) && Continue(s, task).Some? && Grew(s, Continue(s, task).value)
    requires TasksOk(Continue(s, task).value)
    ensures TasksOk(Following(Continue(s, task).value, task))
  {
  }

  lemma ResumeUnderway(s: Pair, task: Task)
    requires Underway(s) && task in s.tasks && Continue(Without(s, task), task).Some?
    requires Grew(Without(s, task), Continue(Without(s, task), task).value)
    ensures Underway(Following(Continue(Without(s, task), task).value, task))
  {
    ContinueMoves(Without(s, task), task);
    assert IssuersExist(Following(Continue(Without(s, task), task).value, task)) by {
      IssuersStay(Without(s, task), Continue(Without(s, task), task).value);
    }
    assert TasksOk(Following(Continue(Without(s, task), task).value, task)) by {
      ResumeTasks(s, task);
    }
    ResumeCopies(s, task);
  }

  lemma WiredWithoutTasks(s: Pair, tasks: multiset<Task>)
    requires Wired(s) && s != UNUSED
    ensures Wired(s.(tasks := tasks))
  {
  }

  lemma ResumeKept(s: Pair, task: Task)
    requires Kept(s) && OnceStep(s, Resume(task)).Some?
    ensures Kept(OnceStep(s, Resume(task)).value)
  {
    assert TaskOk(s, task);
    WiredWithoutTasks(s, Without(s, task).tasks);
    ContinueWired(Without(s, task), task);
    ResumeUnderway(s, task);
    WiredWithoutTasks(Continue(Without(s, task), task).value, OnceStep(s, Resume(task)).value.tasks);
  }

  lemma SameTasksOk(s: Pair, s': Pair)
    requires OncePerCommand(s) && TasksOk(s) && Grew(s, s')
    requires s'.tasks == s.tasks && s'.sent == s.sent && s'.returned == s.returned && s'.issued == s.issued
    ensures OncePerCommand(s') && TasksOk(s')
  {
    forall task | task in s'.tasks ensures TaskOk(s', task) {
      TaskStaysOk(s, s', task);
    }
    forall c: Command ensures Copies(s', c) <= if c in s'.issued then 1 else 0 {
      assert Copies(s', c) == Copies(s, c);
    }
  }

  lemma ReceiveUnderway(s: Pair, m: Msg)
    requires Underway(s) && Receive(s, m).Some? && Grew(s, Receive(s, m).value)
    ensures Underway(Receive(s, m).value)
  {
    SameTasksOk(s, Receive(s, m).value);
    IssuersStay(s, Receive(s, m).value);
  }

  lemma ReceiveWired(s: Pair, m: Msg)
    requires Wired(s) && m in s.sent
    ensures Receive(s, m).Some? && Wired(Receive(s, m).value) && Grew(s, Receive(s, m).value)
  {
    match m
    case Handshake(Request) => RequestReceived(s);
    case Handshake(Response) => ResponseReceived(s);
    case Ping(to) => PingReceived(s, to);
  }

  lemma DeliverKept(s: Pair, m: Msg)
    requires Kept(s) && m in s.sent
    ensures Receive(s, m).Some? && Kept(Receive(s, m).value)
  {
    ReceiveWired(s, m);
    ReceiveUnderway(s, m);
  }

  lemma IssueTasksOk(s: Pair, c: Command)
    requires TasksOk(s) && OncePerCommand(s) && c !in s.issued && Of(s, By(c)).states != []
    requires c == AcceptInvitation ==> Handshake(Request) !in s.sent
    ensures var s' := Then(s.(issued := s.issued + {c}), LookedUp(c)); TasksOk(s') && OncePerCommand(s')
  {
    var s' := Then(s.(issued := s.issued + {c}), LookedUp(c));
    forall task | task in s.tasks ensures TaskOk(s', task) {
      TaskStaysOk(s, s', task);
    }
    forall d: Command ensures Copies(s', d) <= if d in s'.issued then 1 else 0 {
      assert Copies(s, d) <= if d in s.issued then 1 else 0;
    }
  }

  lemma IssueWired(s: Pair, c: Command)
    requires Wired(s) && IssuersExist(s) && Of(s, By(c)).states != []
    ensures var s' := Then(s.(issued := s.issued + {c}), LookedUp(c)); Wired(s') && IssuersExist(s')
  {
  }

  lemma IssueKept(s: Pair, c: Command)
    requires Kept(s) && OnceStep(s, Issue(c)).Some?
    ensures Kept(OnceStep(s, Issue(c)).value)
  {
    assert c == AcceptInvitation ==> MessageOf(c) !in s.sent;
    IssueTasksOk(s, c);
    IssueWired(s, c);
  }

  lemma FailUnderway(s: Pair, task: Task)
    requires Underway(s)
    ensures Underway(Without(s, task))
  {
    var s' := Without(s, task);
    forall d: Command ensures Copies(s', d) <= if d in s'.issued then 1 else 0 {
      assert Copies(s, d) <= if d in s.issued then 1 else 0;
    }
    forall other | other in s'.tasks ensures TaskOk(s', other) {
      TaskStaysOk(s, s', other);
    }
    IssuersStay(s, s');
  }

  lemma FailKept(s: Pair, task: Task)
    requires Kept(s) && task in s.tasks
    ensures Kept(Without(s, task))
  {
    FailUnderway(s, task);
    WiredWithoutTasks(s, Without(s, task).tasks);
  }

  lemma OnceStepKept(s: Pair, a: Action)
    requires Kept(s) && OnceStep(s, a).Some?
    ensures Kept(OnceStep(s, a).value)
  {
    match a
    case CreateInvitation => InvitationKept();
    case ReceiveInvitation => InvitationReceivedKept(s);
    case Issue(c) => IssueKept(s, c);
    case Deliver(m) => DeliverKept(s, m);
    case Resume(task) => ResumeKept(s, task);
    case Fail(task) => FailKept(s, task);
  }

  lemma InvitationKept()
    ensures Kept(UNUSED.(inviter := UNUSED.inviter.Create(Invited).Subscribe(Request, 0, Requested)))
  {
    var s := UNUSED.(inviter := UNUSED.inviter.Create(Invited).Subscribe(Request, 0, Requested));
    assert s.inviter.subs[0] == Sub(Request, 0, Requested);
    assert forall c :: Copies(s, c) == 0;
  }

  lemma InvitationReceivedKept(s: Pair)
    requires Kept(s) && OnceStep(s, ReceiveInvitation).Some?
    ensures Kept(OnceStep(s, ReceiveInvitation).value)
  {
    assert MessageOf(SendPing(Invitee)) in s.sent ==> Of(s, By(SendPing(Invitee))).states != [];
    SameTasksOk(s, OnceStep(s, ReceiveInvitation).value);
  }

  // Where the parties are

  lemma RequestStatesOk(s: Pair)
    requires Sound(s) && Handshake(Request) in s.sent && !Overtaken(s, Deliver(Handshake(Request)))
    ensures StatesOk(Receive(s, Handshake(Request)).value)
  {
    assert AcceptRequest in s.returned ==> MessageOf(AcceptRequest) in s.sent;
    PublishHandshake(s.inviter, Request, Requested);
  }

  lemma ResponseStatesOk(s: Pair)
    requires Sound(s) && Handshake(Response) in s.sent && !Overtaken(s, Deliver(Handshake(Response)))
    ensures StatesOk(Receive(s, Handshake(Response)).value)
  {
    PublishHandshake(s.invitee, Response, Responded);
  }

  lemma PingStatesOk(s: Pair, to: Party)
    requires Sound(s)
    ensures StatesOk(Receive(s, Ping(to)).value)
  {
    assert AcceptRequest in s.returned ==> MessageOf(AcceptRequest) in s.sent;
  }

  lemma ReturnStatesOk(s: Pair, c: Command)
    requires Sound(s) && TaskOk(s, HasSent(c)) && !Overtaken(s, Resume(HasSent(c)))
    ensures StatesOk(Continue(s, HasSent(c)).value)
  {
    assert AcceptRequest in s.returned ==> MessageOf(AcceptRequest) in s.sent;
    match c
    case AcceptInvitation =>
    case AcceptRequest =>
    case SendPing(Inviter) =>
    case SendPing(Invitee) =>
  }

  lemma SameStatesOk(s: Pair, s': Pair)
    requires StatesOk(s) && s'.inviter.states == s.inviter.states && s'.invitee.states == s.invitee.states
    requires s'.requestIn == s.requestIn && s'.responseIn == s.responseIn && s'.returned == s.returned
    ensures StatesOk(s')
  {
  }

  lemma ResumeStatesOk(s: Pair, task: Task)
    requires Ok(s) && CleanStep(s, Resume(task)).Some?
    ensures StatesOk(CleanStep(s, Resume(task)).value)
  {
    match task
    case HasSent(c) =>
      assert TaskOk(s, task);
      ReturnStatesOk(s, c);
      ReturnsAlike(s, c);
      SameStatesOk(Continue(s, HasSent(c)).value, CleanStep(s, Resume(task)).value);
    case _ =>
      StatesStay(s, task);
      SameStatesOk(s, CleanStep(s, Resume(task)).value);
  }

  /** What a command assigns when it returns does not depend on what else is under way. */
  lemma ReturnsAlike(s: Pair, c: Command)
    ensures var t, t' := Continue(s, HasSent(c)).value, Continue(Without(s, HasSent(c)), HasSent(c)).value;
            && t'.inviter == t.inviter && t'.invitee == t.invitee
            && t'.requestIn == t.requestIn && t'.responseIn == t.responseIn && t'.returned == t.returned
  {
  }

  lemma StatesStay(s: Pair, task: Task)
    requires !task.HasSent? && Continue(Without(s, task), task).Some?
    ensures var s' := Following(Continue(Without(s, task), task).value, task);
            && s'.inviter.states == s.inviter.states && s'.invitee.states == s.invitee.states
            && s'.requestIn == s.requestIn && s'.responseIn == s.responseIn && s'.returned == s.returned
  {
  }

  lemma InvitationStatesOk(s: Pair)
    requires Ok(s) && CleanStep(s, ReceiveInvitation).Some?
    ensures StatesOk(CleanStep(s, ReceiveInvitation).value)
  {
    assert forall c | c in s.returned :: MessageOf(c) in s.sent;
    assert forall c | c in s.issued :: Of(s, By(c)).states != [];
  }

  lemma DeliverStatesOk(s: Pair, m: Msg)
    requires Sound(s) && m in s.sent && !Overtaken(s, Deliver(m))
    ensures StatesOk(Receive(s, m).value)
  {
    match m
    case Handshake(Request) => RequestStatesOk(s);
    case Handshake(Response) => ResponseStatesOk(s);
    case Ping(to) => PingStatesOk(s, to);
  }

  lemma CleanStatesOk(s: Pair, a: Action)
    requires Ok(s) && CleanStep(s, a).Some?
    ensures StatesOk(CleanStep(s, a).value)
  {
    match a
    case CreateInvitation =>
    case ReceiveInvitation => InvitationStatesOk(s);
    case Issue(c) => SameStatesOk(s, CleanStep(s, a).value);
    case Deliver(m) => DeliverStatesOk(s, m);
    case Resume(task) => ResumeStatesOk(s, task);
    case Fail(task) => SameStatesOk(s, CleanStep(s, a).value);
  }

  lemma CleanStepOk(s: Pair, a: Action)
    requires Ok(s) && CleanStep(s, a).Some?
    ensures Ok(CleanStep(s, a).value)
  {
    OnceStepKept(s, a);
    CleanStatesOk(s, a);
  }

  lemma ReturnForwardIff(s: Pair, c: Command)
    requires Sound(s) && TaskOk(s, HasSent(c)) && c !in s.returned
    ensures Forward(s, Continue(s, HasSent(c)).value) <==> !Overtaken(s, Resume(HasSent(c)))
  {
    match c
    case AcceptInvitation => assert InviteeState(s, s.invitee.states[0]);
    case AcceptRequest => assert InviterState(s, s.inviter.states[0]);
    case SendPing(p) =>
  }

  lemma DeliverForwardIff(s: Pair, m: Msg)
    requires Sound(s) && m in s.sent
    ensures Receive(s, m).Some?
    ensures Forward(s, Receive(s, m).value) <==> !Overtaken(s, Deliver(m))
  {
    match m
    case Handshake(Request) =>
      PublishHandshake(s.inviter, Request, Requested);
      assert InviterState(s, s.inviter.states[0]);
    case Handshake(Response) =>
      PublishHandshake(s.invitee, Response, Responded);
      assert InviteeState(s, s.invitee.states[0]);
    case Ping(to) =>
  }

  lemma OtherwiseForward(s: Pair, a: Action)
    requires Made(s.inviter) && Made(s.invitee)
    requires Step(s, a).Some? && !a.Deliver? && (a.Resume? ==> !a.task.HasSent?)
    ensures Forward(s, Step(s, a).value)
  {
    if a.Resume? {
      StatesStay(s, a.task);
    }
  }

  /**
   Exactly when a step goes back: as long as none has, the next one does if and only if it comes
   after an answer, or after the party's own ping, that it should have come before.
   */
  lemma ForwardIff(s: Pair, a: Action)
    requires Ok(s) && OnceStep(s, a).Some?
    ensures Forward(s, OnceStep(s, a).value) <==> !Overtaken(s, a)
  {
    match a
    case Deliver(m) => DeliverForwardIff(s, m);
    case Resume(HasSent(c)) =>
      assert TaskOk(s, HasSent(c)) && Copies(s, c) <= 1;
      ReturnForwardIff(s, c);
      ReturnsAlike(s, c);
    case _ => OtherwiseForward(s, a);
  }

  /** Every step of the run moved both parties forward, or not at all. */
  ghost predicate AlwaysForward(step: (Pair, Action) -> Option<Pair>, actions: seq<Action>)
    requires After(step, UNUSED, actions).Some?
    decreases |actions|
  {
    actions == []
    || (var before := actions[..|actions| - 1];
        && AlwaysForward(step, before)
        && Forward(After(step, UNUSED, before).value, After(step, UNUSED, actions).value))
  }

  /** No step of the run came too late. */
  ghost predicate NeverOvertaken(actions: seq<Action>)
    requires After(OnceStep, UNUSED, actions).Some?
  {
    actions == []
    || (var before := actions[..|actions| - 1];
        NeverOvertaken(before) && !Overtaken(After(OnceStep, UNUSED, before).value, actions[|actions| - 1]))
  }

  /**
   For every run of commands issued at most once: both parties only move forward if and only if no step
   is overtaken.
   */
  lemma {:induction false} ForwardRunIff(actions: seq<Action>)
    requires After(OnceStep, UNUSED, actions).Some?
    ensures AlwaysForward(OnceStep, actions) <==> NeverOvertaken(actions)
    ensures NeverOvertaken(actions) ==> Ok(After(OnceStep, UNUSED, actions).value)
  {
    if actions == [] {
      assert forall c :: Copies(UNUSED, c) == 0;
    } else {
      var before, a := actions[..|actions| - 1], actions[|actions| - 1];
      ForwardRunIff(before);
      if NeverOvertaken(before) {
        var s := After(OnceStep, UNUSED, before).value;
        ForwardIff(s, a);
        if !Overtaken(s, a) {
          CleanStepOk(s, a);
        }
      }
    }
  }

  // ---------------------------------------------------------------------------
  // Commands issued in order
  // ---------------------------------------------------------------------------

  /** A command is issued once, after the one before it returned and the peer's message was processed. */
  function DisciplinedStep(s: Pair, a: Action): Option<Pair> {
    match a
    case Issue(AcceptRequest) => if AcceptInvitation in s.returned && s.requestIn then OnceStep(s, a) else None
    case Issue(SendPing(_)) => if AcceptRequest in s.returned && s.responseIn then OnceStep(s, a) else None
    case _ => OnceStep(s, a)
  }

  ghost predicate InOrder(s: Pair) {
    && (AcceptRequest in s.issued ==> AcceptInvitation in s.returned && s.requestIn)
    && (forall p :: SendPing(p) in s.issued ==> AcceptRequest in s.returned && s.responseIn)
  }

  /** What has been processed and has returned stays so. */
  lemma StepKeeps(s: Pair, a: Action)
    requires Step(s, a).Some? && !a.Issue?
    ensures var s' := Step(s, a).value;
            && s'.issued == s.issued && s.returned <= s'.returned
            && (s.requestIn ==> s'.requestIn) && (s.responseIn ==> s'.responseIn)
  {
    match a
    case CreateInvitation =>
    case ReceiveInvitation =>
    case Deliver(m) =>
    case Resume(task) => ContinueMoves(Without(s, task), task);
    case Fail(task) =>
  }

  lemma StaysInOrder(s: Pair, a: Action)
    requires InOrder(s) && DisciplinedStep(s, a).Some?
    ensures InOrder(DisciplinedStep(s, a).value)
  {
    if !a.Issue? {
      StepKeeps(s, a);
    }
  }

  lemma InOrderNotOvertaken(s: Pair, a: Action)
    requires Ok(s) && InOrder(s) && DisciplinedStep(s, a).Some?
    ensures !Overtaken(s, a)
  {
    assert forall p :: SendPing(p) in s.returned ==> MessageOf(SendPing(p)) in s.sent;
    if a.Resume? && a.task.HasSent? {
      assert Copies(s, a.task.command) <= 1;
      assert s.responseIn ==> MessageOf(AcceptRequest) in s.sent;
    }
  }

  lemma DisciplinedRunsAreOk(actions: seq<Action>)
    requires After(DisciplinedStep, UNUSED, actions).Some?
    ensures Ok(After(DisciplinedStep, UNUSED, actions).value) && InOrder(After(DisciplinedStep, UNUSED, actions).value)
  {
    assert Ok(UNUSED) by {
      assert forall c :: Copies(UNUSED, c) == 0;
    }
    forall s, a | Ok(s) && InOrder(s) && DisciplinedStep(s, a).Some?
      ensures Ok(DisciplinedStep(s, a).value) && InOrder(DisciplinedStep(s, a).value)
    {
      InOrderNotOvertaken(s, a);
      CleanStepOk(s, a);
      StaysInOrder(s, a);
    }
    InvariantHolds(DisciplinedStep, UNUSED, s => Ok(s) && InOrder(s), actions);
  }

  /** Commands issued in order: no step takes a party back. */
  lemma DisciplinedForward(actions: seq<Action>, a: Action)
    requires After(DisciplinedStep, UNUSED, actions).Some?
    requires DisciplinedStep(After(DisciplinedStep, UNUSED, actions).value, a).Some?
    ensures Forward(After(DisciplinedStep, UNUSED, actions).value,
                    DisciplinedStep(After(DisciplinedStep, UNUSED, actions).value, a).value)
  {
    DisciplinedRunsAreOk(actions);
    InOrderNotOvertaken(After(DisciplinedStep, UNUSED, actions).value, a);
    ForwardIff(After(DisciplinedStep, UNUSED, actions).value, a);
  }

  /** Commands issued in order: no ping is lost to the guard on Responded. */
  lemma DisciplinedPingCompletes(actions: seq<Action>, to: Party)
    requires After(DisciplinedStep, UNUSED, actions).Some?
    requires Ping(to) in After(DisciplinedStep, UNUSED, actions).value.sent
    ensures Receive(After(DisciplinedStep, UNUSED, actions).value, Ping(to)).Some?
    ensures IsAt(Of(Receive(After(DisciplinedStep, UNUSED, actions).value, Ping(to)).value, to), Complete)
  {
    DisciplinedRunsAreOk(actions);
    PingCompletes(After(DisciplinedStep, UNUSED, actions).value, to);
  }

  lemma PingCompletes(s: Pair, to: Party)
    requires Sound(s) && InOrder(s) && Ping(to) in s.sent
    ensures IsAt(Of(Receive(s, Ping(to)).value, to), Complete)
  {
    var sender := if to == Inviter then Invitee else Inviter;
    assert MessageOf(SendPing(sender)) == Ping(to);
    if to == Inviter {
      assert InviterState(s, s.inviter.states[0]);
    } else {
      assert InviteeState(s, s.invitee.states[0]);
    }
  }

  // ---------------------------------------------------------------------------
  // Exactly when a ping completes its receiver
  // ---------------------------------------------------------------------------

  /**
   Commands issued at most once, and nothing overtaken: a ping completes its receiver if and only if the
   receiver has answered, or has the answer, or has pinged itself.
   */
  lemma PingCompletesIff(actions: seq<Action>, to: Party)
    requires After(OnceStep, UNUSED, actions).Some? && NeverOvertaken(actions)
    requires Ping(to) in After(OnceStep, UNUSED, actions).value.sent
    ensures var s := After(OnceStep, UNUSED, actions).value;
            Receive(s, Ping(to)).Some?
            && (IsAt(Of(Receive(s, Ping(to)).value, to), Complete) <==>
                  SendPing(to) in s.returned || if to == Inviter then AcceptRequest in s.returned else s.responseIn)
  {
    ForwardRunIff(actions);
    SoundPing(After(OnceStep, UNUSED, actions).value, to);
  }

  lemma SoundPing(s: Pair, to: Party)
    requires Sound(s) && IssuersExist(s)
    ensures IsAt(Of(Receive(s, Ping(to)).value, to), Complete) <==>
              SendPing(to) in s.returned || if to == Inviter then AcceptRequest in s.returned else s.responseIn
  {
    assert SendPing(to) in s.returned ==> MessageOf(SendPing(to)) in s.sent;
    assert AcceptRequest in s.returned ==> MessageOf(AcceptRequest) in s.sent;
    if Of(s, to).states != [] {
      if to == Inviter {
        assert InviterState(s, s.inviter.states[0]);
      } else {
        assert InviteeState(s, s.invitee.states[0]);
      }
    }
  }

  // Over all runs of `Step`, whatever is overtaken and however often a command is issued

  /** The step puts the party at responded or complete. */
  predicate Advances(s: Pair, a: Action, p: Party) {
    match a
    case Resume(HasSent(AcceptRequest)) => p == Inviter
    case Resume(HasSent(SendPing(q))) => p == q
    case Deliver(Handshake(Response)) => p == Invitee && s.invitee.subs != []
    case _ => false
  }

  /** The step puts the party at requested. */
  predicate Resets(s: Pair, a: Action, p: Party) {
    match a
    case Resume(HasSent(AcceptInvitation)) => p == Invitee
    case Deliver(Handshake(Request)) => p == Inviter && s.inviter.subs != []
    case _ => false
  }

  /** The last step of the run that assigned requested, responded or complete was not one to requested. */
  ghost predicate Advanced(actions: seq<Action>, p: Party)
    requires After(Step, UNUSED, actions).Some?
  {
    actions != []
    && (var before, a := actions[..|actions| - 1], actions[|actions| - 1];
        var s := After(Step, UNUSED, before).value;
        Advances(s, a, p) || (Advanced(before, p) && !Resets(s, a, p)))
  }

  predicate PastRequested(l: Local<Kind, State>) {
    IsAt(l, Responded) || IsAt(l, Complete)
  }

  /** A party has at most one exchange, which its subscriptions, all of one kind, have captured. */
  ghost predicate Fits(l: Local<Kind, State>, own: Sub<Kind, State>) {
    Made(l) && (l.states == [] ==> l.subs == []) && forall sub | sub in l.subs :: sub == own
  }

  ghost predicate PartiesFit(s: Pair) {
    Fits(s.inviter, Sub(Request, 0, Requested)) && Fits(s.invitee, Sub(Response, 0, Responded))
  }

  ghost predicate PartiesExist(s: Pair) {
    forall task | task in s.tasks :: Of(s, By(task.command)).states != []
  }

  lemma AssignFits(l: Local<Kind, State>, own: Sub<Kind, State>, state: State)
    requires Fits(l, own) && l.states != []
    ensures l.Assign(0, state) == Local([state], Some(0), l.subs) && Fits(l.Assign(0, state), own)
  {
  }

  lemma PublishFits(l: Local<Kind, State>, kind: Kind, next: State)
    requires Fits(l, Sub(kind, 0, next))
    ensures l.Publish(kind) == Local(if l.subs == [] then l.states else [next], l.cached, [])
    ensures Fits(l.Publish(kind), Sub(kind, 0, next))
  {
    if l.states != [] {
      PublishHandshake(l, kind, next);
    }
  }

  lemma CreateFits(l: Local<Kind, State>, own: Sub<Kind, State>)
    requires Fits(l, own) && l.cached.None?
    ensures l.Create(Invited) == Local([Invited], Some(0), [])
  {
  }

  lemma SubscribeFits(l: Local<Kind, State>, kind: Kind, next: State)
    requires Fits(l, Sub(kind, 0, next)) && l.states != []
    ensures Fits(l.Subscribe(kind, 0, next), Sub(kind, 0, next))
  {
  }

  /** The step keeps the parties in shape, and assigns what it says it does. */
  ghost predicate Moves(s: Pair, a: Action, s': Pair, p: Party) {
    && PartiesFit(s')
    && (s.inviter.states != [] ==> s'.inviter.states != []) && (s.invitee.states != [] ==> s'.invitee.states != [])
    && (PastRequested(Of(s', p)) <==> Advances(s, a, p) || (PastRequested(Of(s, p)) && !Resets(s, a, p)))
  }

  lemma ReceiveMoves(s: Pair, m: Msg, p: Party)
    requires PartiesFit(s)
    ensures Moves(s, Deliver(m), Receive(s, m).value, p)
  {
    match m
    case Handshake(Request) => PublishFits(s.inviter, Request, Requested);
    case Handshake(Response) => PublishFits(s.invitee, Response, Responded);
    case Ping(Inviter) =>
      if IsAt(s.inviter, Responded) {
        AssignFits(s.inviter, Sub(Request, 0, Requested), Complete);
      }
    case Ping(Invitee) =>
      if IsAt(s.invitee, Responded) {
        AssignFits(s.invitee, Sub(Response, 0, Responded), Complete);
      }
  }

  lemma ReturnMoves(s: Pair, c: Command, p: Party)
    requires PartiesFit(s) && Of(s, By(c)).states != []
    ensures Moves(s, Resume(HasSent(c)), Continue(s, HasSent(c)).value, p)
  {
    if By(c) == Inviter {
      AssignFits(s.inviter, Sub(Request, 0, Requested), AssignedBy(c));
    } else {
      AssignFits(s.invitee, Sub(Response, 0, Responded), AssignedBy(c));
    }
  }

  lemma LookedUpMoves(s: Pair, c: Command, p: Party)
    requires PartiesFit(s) && Of(s, By(c)).states != [] && Continue(s, LookedUp(c)).Some?
    ensures Moves(s, Resume(LookedUp(c)), Continue(s, LookedUp(c)).value, p)
  {
    if c == AcceptInvitation {
      SubscribeFits(s.invitee, Response, Responded);
    }
  }

  lemma ContinuingMoves(s: Pair, task: Task, p: Party)
    requires PartiesFit(s) && Of(s, By(task.command)).states != [] && Continue(s, task).Some?
    ensures Moves(s, Resume(task), Continue(s, task).value, p)
  {
    match task
    case LookedUp(c) => LookedUpMoves(s, c, p);
    case Sending(c) =>
    case HasSent(c) => ReturnMoves(s, c, p);
  }

  lemma InvitedMoves(s: Pair, p: Party)
    requires PartiesFit(s) && s.inviter.cached.None?
    ensures Moves(s, CreateInvitation, s.(inviter := s.inviter.Create(Invited).Subscribe(Request, 0, Requested)), p)
  {
    CreateFits(s.inviter, Sub(Request, 0, Requested));
  }

  lemma InvitationMoves(s: Pair, p: Party)
    requires PartiesFit(s) && s.invitee.cached.None?
    ensures Moves(s, ReceiveInvitation, s.(invitee := s.invitee.Create(Invited)), p)
  {
    CreateFits(s.invitee, Sub(Response, 0, Responded));
  }

  lemma StepMoves(s: Pair, a: Action, p: Party)
    requires PartiesFit(s) && PartiesExist(s) && Step(s, a).Some?
    ensures Moves(s, a, Step(s, a).value, p)
  {
    match a
    case CreateInvitation => InvitedMoves(s, p);
    case ReceiveInvitation => InvitationMoves(s, p);
    case Issue(c) => StandsStill(s, a, Step(s, a).value, p);
    case Deliver(m) => ReceiveMoves(s, m, p);
    case Resume(task) => ResumeMoves(s, task, p);
    case Fail(task) => StandsStill(s, a, Without(s, task), p);
  }

  lemma StandsStill(s: Pair, a: Action, s': Pair, p: Party)
    requires PartiesFit(s) && (a.Issue? || a.Fail?) && s'.inviter == s.inviter && s'.invitee == s.invitee
    ensures Moves(s, a, s', p)
  {
  }

  lemma ResumeMoves(s: Pair, task: Task, p: Party)
    requires PartiesFit(s) && Of(s, By(task.command)).states != [] && Continue(Without(s, task), task).Some?
    ensures Moves(s, Resume(task), Following(Continue(Without(s, task), task).value, task), p)
  {
    var s1 := Continue(Without(s, task), task).value;
    ContinuingMoves(Without(s, task), task, p);
    MovesAlike(Without(s, task), s, Resume(task), s1, Following(s1, task), p);
  }

  lemma MovesAlike(s: Pair, t: Pair, a: Action, s': Pair, t': Pair, p: Party)
    requires Moves(s, a, s', p)
    requires t.inviter == s.inviter && t.invitee == s.invitee && t'.inviter == s'.inviter && t'.invitee == s'.invitee
    ensures Moves(t, a, t', p)
  {
  }

  /** A handler under way belongs to a command of a party that exists. */
  lemma StepPartiesExist(s: Pair, a: Action, p: Party)
    requires PartiesExist(s) && PartiesFit(s) && Step(s, a).Some? && Moves(s, a, Step(s, a).value, p)
    ensures PartiesExist(Step(s, a).value)
  {
    var s' := Step(s, a).value;
    forall task | task in s'.tasks ensures Of(s', By(task.command)).states != [] {
      NewCommand(s, a, task);
    }
  }

  lemma NewCommand(s: Pair, a: Action, next: Task)
    requires PartiesExist(s) && PartiesFit(s) && Step(s, a).Some? && next in Step(s, a).value.tasks
    ensures Of(s, By(next.command)).states != []
  {
    if a.Resume? {
      FollowsOn(Without(s, a.task), a.task, next);
    } else if !a.Issue? {
      assert next in s.tasks;
    }
  }

  lemma FollowsOn(s: Pair, task: Task, next: Task)
    requires Continue(s, task).Some? && next in Following(Continue(s, task).value, task).tasks
    ensures next in s.tasks || next.command == task.command
  {
    ContinueMoves(s, task);
  }

  lemma {:induction false} AdvancedIff(actions: seq<Action>, p: Party)
    requires After(Step, UNUSED, actions).Some?
    ensures PartiesFit(After(Step, UNUSED, actions).value) && PartiesExist(After(Step, UNUSED, actions).value)
    ensures Advanced(actions, p) <==> PastRequested(Of(After(Step, UNUSED, actions).value, p))
  {
    if actions == [] {
    } else {
      var before, a := actions[..|actions| - 1], actions[|actions| - 1];
      AdvancedIff(before, p);
      StepMoves(After(Step, UNUSED, before).value, a, p);
      StepPartiesExist(After(Step, UNUSED, before).value, a, p);
    }
  }

  /**
   In every run, also one in which a party went back or a command was issued again: a ping completes its
   receiver if and only if, of the steps that put the receiver at requested, responded or complete, the
   last was not one to requested.
   */
  lemma AnyPingCompletesIff(actions: seq<Action>, to: Party)
    requires After(Step, UNUSED, actions).Some?
    ensures IsAt(Of(Receive(After(Step, UNUSED, actions).value, Ping(to)).value, to), Complete)
       <==> Advanced(actions, to)
  {
    AdvancedIff(actions, to);
  }

  // ---------------------------------------------------------------------------
  // Exactly when a party goes back, over all runs of `Step`
  // ---------------------------------------------------------------------------

  /** The step assigns a state that its party is already past. */
  predicate GoesBack(s: Pair, a: Action) {
    match a
    case Resume(HasSent(AcceptInvitation)) => PastRequested(s.invitee)
    case Resume(HasSent(AcceptRequest)) => IsAt(s.inviter, Complete)
    case Deliver(Handshake(Request)) => s.inviter.subs != [] && PastRequested(s.inviter)
    case Deliver(Handshake(Response)) => s.invitee.subs != [] && IsAt(s.invitee, Complete)
    case _ => false
  }

  lemma DeliveryGoesBackIff(s: Pair, m: Msg)
    requires PartiesFit(s)
    ensures Forward(s, Receive(s, m).value) <==> !GoesBack(s, Deliver(m))
  {
    match m
    case Handshake(Request) => PublishFits(s.inviter, Request, Requested);
    case Handshake(Response) => PublishFits(s.invitee, Response, Responded);
    case Ping(to) =>
  }

  lemma ReturnGoesBackIff(s: Pair, c: Command)
    requires PartiesFit(s) && Of(s, By(c)).states != []
    ensures Forward(s, Continue(s, HasSent(c)).value) <==> !GoesBack(s, Resume(HasSent(c)))
  {
    match c
    case AcceptInvitation => AssignFits(s.invitee, Sub(Response, 0, Responded), Requested);
    case AcceptRequest => AssignFits(s.inviter, Sub(Request, 0, Requested), Responded);
    case SendPing(Inviter) => AssignFits(s.inviter, Sub(Request, 0, Requested), Complete);
    case SendPing(Invitee) => AssignFits(s.invitee, Sub(Response, 0, Responded), Complete);
  }

  lemma StepGoesBackIff(s: Pair, a: Action)
    requires PartiesFit(s) && PartiesExist(s) && Step(s, a).Some?
    ensures Forward(s, Step(s, a).value) <==> !GoesBack(s, a)
  {
    match a
    case Deliver(m) => DeliveryGoesBackIff(s, m);
    case Resume(HasSent(c)) => ReturnGoesBackIff(Without(s, HasSent(c)), c);
    case _ => OtherwiseForward(s, a);
  }

  /** No step of the run went back. */
  ghost predicate NeverGoesBack(actions: seq<Action>)
    requires After(Step, UNUSED, actions).Some?
  {
    actions == []
    || (var before := actions[..|actions| - 1];
        NeverGoesBack(before) && !GoesBack(After(Step, UNUSED, before).value, actions[|actions| - 1]))
  }

  /**
   After every run, whatever was overtaken and however often a command was issued: a step takes a party
   back if and only if the party is past the state that the step assigns.
   */
  lemma AnyForwardIff(actions: seq<Action>, a: Action)
    requires After(Step, UNUSED, actions).Some? && Step(After(Step, UNUSED, actions).value, a).Some?
    ensures var s := After(Step, UNUSED, actions).value;
            Forward(s, Step(s, a).value) <==> !GoesBack(s, a)
  {
    AdvancedIff(actions, Inviter);
    StepGoesBackIff(After(Step, UNUSED, actions).value, a);
  }

  /** So both parties only move forward exactly in the runs without such a step. */
  lemma {:induction false} AnyForwardRunIff(actions: seq<Action>)
    requires After(Step, UNUSED, actions).Some?
    ensures AlwaysForward(Step, actions) <==> NeverGoesBack(actions)
  {
    if actions == [] {
    } else {
      var before := actions[..|actions| - 1];
      AnyForwardRunIff(before);
      AnyForwardIff(before, actions[|actions| - 1]);
    }
  }

  // The same, read off the run

  /** The last step of the run that assigned requested, responded or complete was one to complete. */
  ghost predicate Finished(actions: seq<Action>, p: Party)
    requires After(Step, UNUSED, actions).Some?
  {
    actions != []
    && (var before, a := actions[..|actions| - 1], actions[|actions| - 1];
        var s := After(Step, UNUSED, before).value;
        || a == Resume(HasSent(SendPing(p)))
        || (a == Deliver(Ping(p)) && Advanced(before, p))
        || (Finished(before, p) && !Resets(s, a, p) && !Advances(s, a, p)))
  }

  lemma {:induction false} FinishedIff(actions: seq<Action>, p: Party)
    requires After(Step, UNUSED, actions).Some?
    ensures Finished(actions, p) <==> IsAt(Of(After(Step, UNUSED, actions).value, p), Complete)
  {
    if actions == [] {
    } else {
      var before, a := actions[..|actions| - 1], actions[|actions| - 1];
      FinishedIff(before, p);
      AdvancedIff(before, p);
      StepFinishes(After(Step, UNUSED, before).value, a, p);
    }
  }

  /** What puts a party at complete, and what takes it from there. */
  ghost predicate Finishes(s: Pair, a: Action, s': Pair, p: Party) {
    IsAt(Of(s', p), Complete) <==>
      || a == Resume(HasSent(SendPing(p)))
      || (a == Deliver(Ping(p)) && PastRequested(Of(s, p)))
      || (IsAt(Of(s, p), Complete) && !Resets(s, a, p) && !Advances(s, a, p))
  }

  lemma ReceiveFinishes(s: Pair, m: Msg, p: Party)
    requires PartiesFit(s)
    ensures Finishes(s, Deliver(m), Receive(s, m).value, p)
  {
    match m
    case Handshake(Request) => PublishFits(s.inviter, Request, Requested);
    case Handshake(Response) => PublishFits(s.invitee, Response, Responded);
    case Ping(Inviter) =>
    case Ping(Invitee) =>
  }

  lemma ReturnFinishes(s: Pair, c: Command, p: Party)
    requires PartiesFit(s) && Of(s, By(c)).states != []
    ensures Finishes(s, Resume(HasSent(c)), Continue(s, HasSent(c)).value, p)
  {
    if By(c) == Inviter {
      AssignFits(s.inviter, Sub(Request, 0, Requested), AssignedBy(c));
    } else {
      AssignFits(s.invitee, Sub(Response, 0, Responded), AssignedBy(c));
    }
  }

  lemma StepFinishes(s: Pair, a: Action, p: Party)
    requires PartiesFit(s) && PartiesExist(s) && Step(s, a).Some?
    ensures Finishes(s, a, Step(s, a).value, p)
  {
    match a
    case Deliver(m) => ReceiveFinishes(s, m, p);
    case Resume(HasSent(c)) => ReturnFinishes(Without(s, HasSent(c)), c, p);
    case _ => StartsNothing(s, a, p);
  }

  lemma StartsNothing(s: Pair, a: Action, p: Party)
    requires PartiesFit(s) && Step(s, a).Some? && !a.Deliver? && (a.Resume? ==> !a.task.HasSent?)
    ensures IsAt(Of(Step(s, a).value, p), Complete) <==> IsAt(Of(s, p), Complete)
  {
    match a
    case CreateInvitation => CreateFits(s.inviter, Sub(Request, 0, Requested));
    case ReceiveInvitation => CreateFits(s.invitee, Sub(Response, 0, Responded));
    case _ =>
  }

  /**
   Read off the run: accept-invitation, or a first request, takes a party back when the last state assigned
   to it was not requested; accept-request, or a response still waited for, when it was complete.
   */
  lemma GoesBackInRun(actions: seq<Action>, a: Action)
    requires After(Step, UNUSED, actions).Some? && Step(After(Step, UNUSED, actions).value, a).Some?
    ensures var s := After(Step, UNUSED, actions).value;
            Forward(s, Step(s, a).value) <==>
              match a
              case Resume(HasSent(AcceptInvitation)) => !Advanced(actions, Invitee)
              case Resume(HasSent(AcceptRequest)) => !Finished(actions, Inviter)
              case Deliver(Handshake(Request)) => s.inviter.subs == [] || !Advanced(actions, Inviter)
              case Deliver(Handshake(Response)) => s.invitee.subs == [] || !Finished(actions, Invitee)
              case _ => true
  {
    AnyForwardIff(actions, a);
    AdvancedIff(actions, Inviter);
    AdvancedIff(actions, Invitee);
    FinishedIff(actions, Inviter);
    FinishedIff(actions, Invitee);
  }

  /**
   Commands issued at most once: each subscription fires once, so a handshake message that comes again
   changes nothing, whatever has been overtaken.
   */
  lemma HandshakeTakesEffectOnce(actions: seq<Action>, kind: Kind)
    requires After(OnceStep, UNUSED, actions).Some?
    requires var s := After(OnceStep, UNUSED, actions).value;
             if kind == Request then s.requestIn else s.responseIn
    ensures Receive(After(OnceStep, UNUSED, actions).value, Handshake(kind))
         == Some(After(OnceStep, UNUSED, actions).value)
  {
    OnceRunsAreKept(actions);
    SpentHandshake(After(OnceStep, UNUSED, actions).value, kind);
  }

  lemma SpentHandshake(s: Pair, kind: Kind)
    requires Wired(s) && if kind == Request then s.requestIn else s.responseIn
    ensures Receive(s, Handshake(kind)) == Some(s)
  {
    match kind
    case Request => PublishHandshake(s.inviter, Request, Requested);
    case Response => PublishHandshake(s.invitee, Response, Responded);
  }

  lemma OnceRunsAreKept(actions: seq<Action>)
    requires After(OnceStep, UNUSED, actions).Some?
    ensures Kept(After(OnceStep, UNUSED, actions).value)
  {
    assert Kept(UNUSED) by {
      assert forall c :: Copies(UNUSED, c) == 0;
    }
    forall s, a | Kept(s) && OnceStep(s, a).Some? ensures Kept(OnceStep(s, a).value) {
      OnceStepKept(s, a);
    }
    InvariantHolds(OnceStep, UNUSED, s => Kept(s), actions);
  }

  // ---------------------------------------------------------------------------
  // Commands issued too early
  // ---------------------------------------------------------------------------

  /** The invitee is in the middle of accept-invitation: its request is out, its state not yet assigned. */
  ghost function RequestOut(): Pair {
    UNUSED.(inviter := Local([Invited], Some(0), [Sub(Request, 0, Requested)]),
            invitee := Local([Invited], Some(0), [Sub(Response, 0, Responded)]),
            issued := {AcceptInvitation}, sent := {Handshake(Request)}, tasks := multiset{HasSent(AcceptInvitation)})
  }

  /** The inviter is about to answer. */
  ghost function RequestIn(): Pair {
    RequestOut().(inviter := Local([Requested], Some(0), []), requestIn := true,
                  issued := {AcceptInvitation, AcceptRequest},
                  tasks := multiset{HasSent(AcceptInvitation), LookedUp(AcceptRequest)})
  }

  ghost function ResponseOut(): Pair {
    RequestIn().(sent := {Handshake(Request), Handshake(Response)},
                 tasks := multiset{HasSent(AcceptInvitation), HasSent(AcceptRequest)})
  }

  /** The inviter has answered already, and the answer has been processed. */
  ghost function Answered(): Pair {
    RequestOut().(inviter := Local([Requested], Some(0), []), invitee := Local([Responded], Some(0), []),
                  requestIn := true, responseIn := true, issued := {AcceptInvitation, AcceptRequest},
                  sent := {Handshake(Request), Handshake(Response)},
                  tasks := multiset{HasSent(AcceptInvitation), HasSent(AcceptRequest)})
  }

  /** The invitee has pinged back, and that has returned, before accept-request has returned. */
  ghost function PingedEarly(): Pair {
    Answered().(invitee := Local([Complete], Some(0), []),
                issued := {AcceptInvitation, AcceptRequest, SendPing(Invitee)},
                returned := {AcceptInvitation, SendPing(Invitee)},
                sent := {Handshake(Request), Handshake(Response), Ping(Inviter)},
                tasks := multiset{HasSent(AcceptRequest)})
  }

  lemma ReachRequestOut(reach: Pair -> bool)
    requires Closed(OnceStep, UNUSED, reach)
    ensures reach(RequestOut())
  {
    var s := Do(OnceStep, UNUSED, reach, UNUSED, CreateInvitation);
    s := Do(OnceStep, UNUSED, reach, s, ReceiveInvitation);
    s := Do(OnceStep, UNUSED, reach, s, Issue(AcceptInvitation));
    s := Do(OnceStep, UNUSED, reach, s, Resume(LookedUp(AcceptInvitation)));
    s := Do(OnceStep, UNUSED, reach, s, Resume(Sending(AcceptInvitation)));
    assert s == RequestOut();
  }

  lemma ReachRequestIn(reach: Pair -> bool)
    requires Closed(OnceStep, UNUSED, reach)
    ensures reach(RequestIn())
  {
    ReachRequestOut(reach);
    PublishHandshake(RequestOut().inviter, Request, Requested);
    var s := Do(OnceStep, UNUSED, reach, RequestOut(), Deliver(Handshake(Request)));
    s := Do(OnceStep, UNUSED, reach, s, Issue(AcceptRequest));
    assert s == RequestIn();
  }

  lemma ReachResponseOut(reach: Pair -> bool)
    requires Closed(OnceStep, UNUSED, reach)
    ensures reach(ResponseOut())
  {
    ReachRequestIn(reach);
    var s := Do(OnceStep, UNUSED, reach, RequestIn(), Resume(LookedUp(AcceptRequest)));
    s := Do(OnceStep, UNUSED, reach, s, Resume(Sending(AcceptRequest)));
    assert s == ResponseOut();
  }

  lemma ReachAnswered(reach: Pair -> bool)
    requires Closed(OnceStep, UNUSED, reach)
    ensures reach(Answered())
  {
    ReachResponseOut(reach);
    PublishHandshake(ResponseOut().invitee, Response, Responded);
    var s := Do(OnceStep, UNUSED, reach, ResponseOut(), Deliver(Handshake(Response)));
    assert s == Answered();
  }

  /** The response overtakes accept-invitation: the invitee ends at requested although it has the response. */
  lemma ResponseOvertakes() returns (s: Pair)
    ensures Reachable(OnceStep, UNUSED, s)
    ensures AcceptInvitation in s.returned && s.responseIn && s.invitee == Local([Requested], Some(0), [])
  {
    ReachableIsClosed(OnceStep, UNUSED);
    ReachAnswered(s => Reachable(OnceStep, UNUSED, s));
    s := Do(OnceStep, UNUSED, s => Reachable(OnceStep, UNUSED, s), Answered(), Resume(HasSent(AcceptInvitation)));
  }

  /** The ping, too, overtakes: the inviter ignores it, then assigns responded, and never completes. */
  lemma PingLost() returns (before: Pair, after: Pair)
    ensures Reachable(OnceStep, UNUSED, before) && before.inviter == Local([Requested], Some(0), [])
    ensures OnceStep(before, Deliver(Ping(Inviter))) == Some(before)
    ensures Reachable(OnceStep, UNUSED, after) && after.tasks == multiset{} && after.issued == after.returned
    ensures IsAt(after.invitee, Complete) && IsAt(after.inviter, Responded)
  {
    ReachableIsClosed(OnceStep, UNUSED);
    ReachPingedEarly(s => Reachable(OnceStep, UNUSED, s));
    before := PingedEarly();
    after := Do(OnceStep, UNUSED, s => Reachable(OnceStep, UNUSED, s), before, Resume(HasSent(AcceptRequest)));
  }

  /** The invitee is about to ping back. */
  ghost function Pinging(): Pair {
    Answered().(invitee := Local([Requested], Some(0), []),
                issued := {AcceptInvitation, AcceptRequest, SendPing(Invitee)}, returned := {AcceptInvitation},
                tasks := multiset{HasSent(AcceptRequest), LookedUp(SendPing(Invitee))})
  }

  /** The ping is out, its sender's state not yet assigned. */
  ghost function PingOut(): Pair {
    Pinging().(sent := {Handshake(Request), Handshake(Response), Ping(Inviter)},
               tasks := multiset{HasSent(AcceptRequest), HasSent(SendPing(Invitee))})
  }

  lemma ReachPinging(reach: Pair -> bool)
    requires Closed(OnceStep, UNUSED, reach)
    ensures reach(Pinging())
  {
    ReachAnswered(reach);
    var s := Do(OnceStep, UNUSED, reach, Answered(), Resume(HasSent(AcceptInvitation)));
    s := Do(OnceStep, UNUSED, reach, s, Issue(SendPing(Invitee)));
    assert s == Pinging();
  }

  lemma ReachPingOut(reach: Pair -> bool)
    requires Closed(OnceStep, UNUSED, reach)
    ensures reach(PingOut())
  {
    ReachPinging(reach);
    var s := Do(OnceStep, UNUSED, reach, Pinging(), Resume(LookedUp(SendPing(Invitee))));
    s := Do(OnceStep, UNUSED, reach, s, Resume(Sending(SendPing(Invitee))));
    assert s == PingOut();
  }

  lemma ReachPingedEarly(reach: Pair -> bool)
    requires Closed(OnceStep, UNUSED, reach)
    ensures reach(PingedEarly())
  {
    ReachPingOut(reach);
    var s := Do(OnceStep, UNUSED, reach, PingOut(), Resume(HasSent(SendPing(Invitee))));
    assert s == PingedEarly();
  }

  // ---------------------------------------------------------------------------
  // A command issued again
  // ---------------------------------------------------------------------------

  /** Both parties are complete and no command is under way. */
  ghost function BothComplete(): Pair {
    PingedEarly().(inviter := Local([Complete], Some(0), []), tasks := multiset{},
                   returned := {AcceptInvitation, AcceptRequest, SendPing(Invitee)})
  }

  lemma ReachBothComplete(reach: Pair -> bool)
    requires Closed(Step, UNUSED, reach)
    ensures reach(BothComplete())
  {
    assert Closed(OnceStep, UNUSED, reach);
    ReachPingedEarly(reach);
    var s := Do(Step, UNUSED, reach, PingedEarly(), Resume(HasSent(AcceptRequest)));
    s := Do(Step, UNUSED, reach, s, Deliver(Ping(Inviter)));
    assert s == BothComplete();
  }

  /** The second accept-invitation has sent its request. */
  ghost function AcceptingAgain(): Pair {
    BothComplete().(invitee := Local([Complete], Some(0), [Sub(Response, 0, Responded)]),
                    tasks := multiset{HasSent(AcceptInvitation)})
  }

  lemma ReachAcceptingAgain(reach: Pair -> bool)
    requires Closed(Step, UNUSED, reach)
    ensures reach(AcceptingAgain())
  {
    ReachBothComplete(reach);
    var s := Do(Step, UNUSED, reach, BothComplete(), Issue(AcceptInvitation));
    s := Do(Step, UNUSED, reach, s, Resume(LookedUp(AcceptInvitation)));
    s := Do(Step, UNUSED, reach, s, Resume(Sending(AcceptInvitation)));
    assert s == AcceptingAgain();
  }

  /** A second accept-invitation after completion takes the invitee back to requested, and it stays there. */
  lemma AcceptedAgain() returns (before: Pair, after: Pair)
    ensures Reachable(Step, UNUSED, before) && IsAt(before.inviter, Complete) && IsAt(before.invitee, Complete)
    ensures Step(before, Issue(AcceptInvitation)).Some? && before.tasks == multiset{}
    ensures Reachable(Step, UNUSED, after) && after.tasks == multiset{}
    ensures IsAt(after.inviter, Complete) && IsAt(after.invitee, Requested)
  {
    ReachableIsClosed(Step, UNUSED);
    ReachBothComplete(s => Reachable(Step, UNUSED, s));
    ReachAcceptingAgain(s => Reachable(Step, UNUSED, s));
    before := BothComplete();
    after := Do(Step, UNUSED, s => Reachable(Step, UNUSED, s), AcceptingAgain(), Resume(HasSent(AcceptInvitation)));
  }
}

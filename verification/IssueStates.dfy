/**
 The states that the two agents answer with during issuance: which action assigns which state to
 which exchange, over all runs; which steps a run makes possible; and the run from a proposal to a stored
 credential.
 */
module IssueStates {
  import opened Options
  import opened Exchanges
  import opened Runs
  import opened IssueCredential

  datatype Agent = Issuer | Holder

  function Of(s: Thread, agent: Agent): Local<Kind, State> {
    if agent == Issuer then s.issuer else s.holder
  }

  /** The state an action assigns to the issuer's exchange `x`. */
  function IssuerAssigned(s: Thread, a: Action, x: nat): Option<State> {
    match a
    // processing a proposal, and an unsolicited offer, make the exchange
    case Resume(ProposalAdded(_)) => if x == |s.issuer.states| then Some(ProposalReceived) else None
    case Resume(OfferCreated(_)) => if x == |s.issuer.states| then Some(OfferSent) else None
    case Resume(OfferReplying(y)) => if x == y then Some(OfferSent) else None
    case Deliver(Msg(Request, _)) => if Listening(s.issuer, Request, x) then Some(RequestReceived) else None
    case Resume(Issued(y)) => if x == y then Some(CredentialIssued) else None
    case _ => None
  }

  /** The state an action assigns to the holder's exchange `x`. */
  function HolderAssigned(s: Thread, a: Action, x: nat): Option<State> {
    match a
    // send-proposal, and processing an offer on no record, make the exchange
    case Resume(ProposalRecorded(_)) => if x == |s.holder.states| then Some(ProposalSent) else None
    case Resume(OfferAdded(_)) => if x == |s.holder.states| then Some(OfferReceived) else None
    case Resume(OfferUpdated) => if Listening(s.holder, Offer, x) then Some(OfferReceived) else None
    case Resume(Requesting(y)) => if x == y then Some(RequestSent) else None
    case Deliver(Msg(Credential, _)) => if Listening(s.holder, Credential, x) then Some(CredentialReceived) else None
    case Resume(Storing(y)) => if x == y then Some(Done) else None
    case _ => None
  }

  function Assigned(s: Thread, a: Action, agent: Agent, x: nat): Option<State> {
    if agent == Issuer then IssuerAssigned(s, a, x) else HolderAssigned(s, a, x)
  }

  /** The state assigned by the last action of the run that concerns the exchange. */
  ghost function LastAssigned(actions: seq<Action>, agent: Agent, x: nat): Option<State>
    requires After(Step, UNUSED, actions).Some?
  {
    if actions == [] then None
    else
      var before := actions[..|actions| - 1];
      var last := Assigned(After(Step, UNUSED, before).value, actions[|actions| - 1], agent, x);
      if last.Some? then last else LastAssigned(before, agent, x)
  }

  // ---------------------------------------------------------------------------
  // Each step assigns what the tables say
  // ---------------------------------------------------------------------------

  lemma HolderContinues(s: Thread, task: Task, x: nat)
    requires HolderOk(s) && TaskOk(s, task) && OfHolder(task) && !ContinueAsHolder(s, task).Throws?
    ensures Becomes(s.holder, ContinueAsHolder(s, task).s.holder, x, HolderAssigned(s, Resume(task), x))
  {
    match task
    case ProposalRecorded(c) => CreateBecomes(s.holder, ProposalSent, x);
    case OfferAdded(c) => CreateBecomes(s.holder, OfferReceived, x);
    case OfferUpdated => PublishBecomes(s.holder, Offer, OfferReceived, x);
    case Requesting(y) => AssignBecomes(s.holder, y, RequestSent, x);
    case Storing(y) => AssignBecomes(s.holder, y, Done, x);
    case ProposalReady(c) =>
    case OfferUnknown(c) =>
    case OfferStored =>
    case RequestReady(c) =>
  }

  lemma IssuerContinues(s: Thread, task: Task, x: nat)
    requires IssuerOk(s) && TaskOk(s, task) && !OfHolder(task) && !ContinueAsIssuer(s, task).Throws?
    ensures Becomes(s.issuer, ContinueAsIssuer(s, task).s.issuer, x, IssuerAssigned(s, Resume(task), x))
  {
    match task
    case ProposalAdded(c) => CreateBecomes(s.issuer, ProposalReceived, x);
    case ProposalStored =>
      FireNothing(s.issuer.states, s.issuer.subs, Proposal);
      StaysAsItIs(s.issuer, s.issuer.Publish(Proposal), x);
    case OfferReplying(y) => AssignBecomes(s.issuer, y, OfferSent, x);
    case OfferCreated(c) => CreateBecomes(s.issuer, OfferSent, x);
    case Issued(y) => AssignBecomes(s.issuer, y, CredentialIssued, x);
    case ProposalUnknown(c) =>
    case OfferMarked(y, c) =>
    case OfferReady(c) =>
    case Issuing(y) =>
    case IssueReady(y, c) =>
  }

  lemma ContinueAssigns(s: Thread, task: Task, agent: Agent, x: nat)
    requires Causal(s) && TaskOk(s, task) && !Continue(s, task).Throws?
    ensures Becomes(Of(s, agent), Of(Continue(s, task).s, agent), x, Assigned(s, Resume(task), agent, x))
  {
    if OfHolder(task) {
      HolderGrows(s, task);
      HolderContinues(s, task, x);
    } else {
      IssuerGrows(s, task);
      IssuerContinues(s, task, x);
    }
  }

  lemma ReceiveAssigns(s: Thread, m: Msg, agent: Agent, x: nat)
    requires Causal(s) && !Receive(s, m).Throws?
    ensures Becomes(Of(s, agent), Of(Receive(s, m).s, agent), x, Assigned(s, Deliver(m), agent, x))
  {
    match m.kind
    case Proposal =>
    case Offer =>
    case Request => PublishBecomes(s.issuer, Request, RequestReceived, x);
    case Credential => PublishBecomes(s.holder, Credential, CredentialReceived, x);
  }

  lemma StepAssigns(s: Thread, a: Action, agent: Agent, x: nat)
    requires Causal(s) && Step(s, a).Some?
    ensures Becomes(Of(s, agent), Of(Step(s, a).value, agent), x, Assigned(s, a, agent, x))
  {
    match a
    case SendProposal(c) =>
    case SendNewOffer(c) =>
    case SendOffer =>
    case SendRequest =>
    case Issue =>
    case Store =>
    case Deliver(m) => ReceiveAssigns(s, m, agent, x);
    case Resume(task) => ResumeAssigns(s, task, agent, x);
    case Fail(task) =>
  }

  lemma ResumeAssigns(s: Thread, task: Task, agent: Agent, x: nat)
    requires Causal(s) && task in s.tasks && !Continue(Without(s, task), task).Throws?
    ensures Becomes(Of(s, agent), Of(Continue(Without(s, task), task).s, agent), x, Assigned(s, Resume(task), agent, x))
  {
    WithoutCausal(s, task);
    ContinueAssigns(Without(s, task), task, agent, x);
  }

  /** In every run, each exchange is at the state assigned by the last action that concerns it. */
  lemma {:induction false} StateIsLastAssigned(actions: seq<Action>, agent: Agent, x: nat)
    requires After(Step, UNUSED, actions).Some?
    ensures var states := Of(After(Step, UNUSED, actions).value, agent).states;
            LastAssigned(actions, agent, x) == if x < |states| then Some(states[x]) else None
  {
    if actions == [] {
    } else {
      var before := actions[..|actions| - 1];
      StateIsLastAssigned(before, agent, x);
      RunsAreCausal(before);
      StepAssigns(After(Step, UNUSED, before).value, actions[|actions| - 1], agent, x);
    }
  }

  // ---------------------------------------------------------------------------
  // Which steps are possible after a run
  // ---------------------------------------------------------------------------

  predicate MakesIssuer(a: Action) {
    a.Resume? && (a.task.ProposalAdded? || a.task.OfferCreated?)
  }

  predicate MakesHolder(a: Action) {
    a.Resume? && (a.task.ProposalRecorded? || a.task.OfferAdded?)
  }

  predicate StoresOffer(a: Action) {
    a == Resume(OfferStored)
  }

  predicate TakesRequest(a: Action) {
    a.Deliver? && a.m.kind == Request
  }

  predicate Sends(a: Action, m: Msg) {
    && a.Resume?
    && match a.task
       case ProposalReady(c) => m == Msg(Proposal, c)
       case OfferReady(c) => m == Msg(Offer, c)
       case RequestReady(c) => m == Msg(Request, c)
       case IssueReady(_, c) => m == Msg(Credential, c)
       case _ => false
  }

  ghost predicate Did(actions: seq<Action>, what: Action -> bool) {
    exists a | a in actions :: what(a)
  }

  lemma DidNext(actions: seq<Action>, a: Action, what: Action -> bool)
    ensures Did(actions + [a], what) <==> Did(actions, what) || what(a)
  {
    assert a in actions + [a];
    assert forall b :: b in actions + [a] <==> b in actions || b == a;
  }

  /**
   What a step needs of the run before it. A thread is started once; a command needs an exchange of its agent; a
   message must have been sent; and of the handlers under way only two may have to throw: send-request without
   a stored offer, and issue without a request.
   */
  ghost predicate Enabled(actions: seq<Action>, tasks: multiset<Task>, a: Action) {
    match a
    case SendProposal(_) => actions == []
    case SendNewOffer(_) => actions == []
    case SendOffer => Did(actions, MakesIssuer)
    case Issue => Did(actions, MakesIssuer)
    case SendRequest => Did(actions, MakesHolder)
    case Store => Did(actions, MakesHolder)
    case Deliver(m) => Did(actions, b => Sends(b, m))
    case Resume(Requesting(x)) => Requesting(x) in tasks && Did(actions, StoresOffer)
    case Resume(Issuing(x)) => Issuing(x) in tasks && Did(actions, TakesRequest)
    case Resume(task) => task in tasks
    case Fail(task) => task in tasks
  }

  /** An exchange has been made exactly if one is cached. */
  predicate Made(l: Local<Kind, State>) {
    l.cached.Some? <==> l.states != []
  }

  /** What a stretch adds to what the thread remembers. */
  ghost predicate Marks(s: Thread, s': Thread, a: Action) {
    && s'.home == s.home
    && s'.offered == (s.offered || StoresOffer(a)) && s'.requested == (s.requested || TakesRequest(a))
    && (s'.issuer.cached.Some? <==> s.issuer.cached.Some? || MakesIssuer(a))
    && (s'.holder.cached.Some? <==> s.holder.cached.Some? || MakesHolder(a))
    && (Made(s.issuer) ==> Made(s'.issuer)) && (Made(s.holder) ==> Made(s'.holder))
    && forall m :: m in s'.sent <==> m in s.sent || Sends(a, m)
  }

  lemma HolderMarks(s: Thread, task: Task)
    requires OfHolder(task) && !ContinueAsHolder(s, task).Throws?
    ensures Marks(s, ContinueAsHolder(s, task).s, Resume(task))
  {
    match task
    case ProposalRecorded(_) =>
    case ProposalReady(_) =>
    case OfferUnknown(_) =>
    case OfferAdded(_) =>
    case OfferStored =>
    case OfferUpdated =>
    case Requesting(_) =>
    case RequestReady(_) =>
    case Storing(_) =>
  }

  lemma IssuerMarks(s: Thread, task: Task)
    requires !OfHolder(task) && !ContinueAsIssuer(s, task).Throws?
    ensures Marks(s, ContinueAsIssuer(s, task).s, Resume(task))
  {
    match task
    case ProposalUnknown(_) =>
    case ProposalAdded(_) =>
    case ProposalStored =>
    case OfferReplying(_) =>
    case OfferCreated(_) =>
    case OfferMarked(_, _) =>
    case OfferReady(_) =>
    case Issuing(_) =>
    case IssueReady(_, _) =>
    case Issued(_) =>
  }

  lemma ReceiveMarks(s: Thread, m: Msg)
    requires !Receive(s, m).Throws?
    ensures Marks(s, Receive(s, m).s, Deliver(m))
  {
    match m.kind
    case Proposal =>
    case Offer =>
    case Request =>
    case Credential =>
  }

  lemma ScheduleMarks(s: Thread, o: Outcome, a: Action)
    requires !o.Throws? && Marks(s, o.s, a)
    ensures Marks(s, Schedule(o).value, a)
  {
  }

  lemma ResumeMarks(s: Thread, task: Task)
    requires !Continue(Without(s, task), task).Throws?
    ensures Marks(s, Schedule(Continue(Without(s, task), task)).value, Resume(task))
  {
    var o := Continue(Without(s, task), task);
    if OfHolder(task) {
      HolderMarks(Without(s, task), task);
    } else {
      IssuerMarks(Without(s, task), task);
    }
    assert Marks(s, o.s, Resume(task));
    ScheduleMarks(s, o, Resume(task));
  }

  lemma StepMarks(s: Thread, a: Action)
    requires Step(s, a).Some? && !a.SendProposal? && !a.SendNewOffer?
    ensures Marks(s, Step(s, a).value, a)
  {
    match a
    case SendOffer =>
    case SendRequest =>
    case Issue =>
    case Store =>
    case Deliver(m) =>
      ReceiveMarks(s, m);
      ScheduleMarks(s, Receive(s, m), a);
    case Resume(task) => ResumeMarks(s, task);
    case Fail(_) =>
  }

  /** The thread remembers exactly what the run has done. */
  ghost predicate Remembers(s: Thread, actions: seq<Action>) {
    && (s.home.Some? <==> actions != [])
    && s.offered == Did(actions, StoresOffer) && s.requested == Did(actions, TakesRequest)
    && s.issuer.cached.Some? == Did(actions, MakesIssuer) && s.holder.cached.Some? == Did(actions, MakesHolder)
    && Made(s.issuer) && Made(s.holder)
    && forall m :: m in s.sent <==> Did(actions, b => Sends(b, m))
  }

  lemma RemembersMore(s: Thread, s': Thread, actions: seq<Action>, a: Action)
    requires Remembers(s, actions) && actions != [] && Marks(s, s', a)
    ensures Remembers(s', actions + [a])
  {
    DidNext(actions, a, StoresOffer);
    DidNext(actions, a, TakesRequest);
    DidNext(actions, a, MakesIssuer);
    DidNext(actions, a, MakesHolder);
    forall m ensures m in s'.sent <==> Did(actions + [a], b => Sends(b, m)) {
      DidNext(actions, a, b => Sends(b, m));
    }
  }

  lemma RemembersNothing(s: Thread, actions: seq<Action>)
    requires s.home.Some? <==> actions != []
    requires actions == [] || (|actions| == 1 && (actions[0].SendProposal? || actions[0].SendNewOffer?))
    requires !s.offered && !s.requested && s.issuer == Empty() && s.holder == Empty() && s.sent == {}
    ensures Remembers(s, actions)
  {
  }

  lemma {:induction false} RunRemembers(actions: seq<Action>)
    requires After(Step, UNUSED, actions).Some?
    ensures Remembers(After(Step, UNUSED, actions).value, actions)
  {
    if actions == [] {
      RemembersNothing(UNUSED, []);
    } else {
      var before, a := actions[..|actions| - 1], actions[|actions| - 1];
      var s := After(Step, UNUSED, before).value;
      RunRemembers(before);
      assert actions == before + [a];
      if a.SendProposal? || a.SendNewOffer? {
        assert s == UNUSED;
        RemembersNothing(Step(s, a).value, actions);
      } else {
        NotFirst(s, a);
        StepMarks(s, a);
        RemembersMore(s, Step(s, a).value, before, a);
      }
    }
  }

  lemma NotFirst(s: Thread, a: Action)
    requires Step(s, a).Some? && !a.SendProposal? && !a.SendNewOffer?
    ensures s != UNUSED
  {
  }

  /** Whoever has sent an offer, or stored one, has a record. */
  ghost predicate Backed(s: Thread) {
    && (forall task | task in s.tasks && task.OfferReady? :: s.issuerRecord.Some?)
    && (forall m | m in s.sent && m.kind == Offer :: s.issuerRecord.Some?)
    && (s.offered ==> s.holderRecord.Some?)
  }

  lemma HolderBacked(s: Thread, task: Task)
    requires Backed(s) && TaskOk(s, task) && OfHolder(task) && !ContinueAsHolder(s, task).Throws?
    ensures Backed(Schedule(ContinueAsHolder(s, task)).value)
  {
    match task
    case ProposalRecorded(_) =>
    case ProposalReady(_) =>
    case OfferUnknown(_) =>
    case OfferAdded(_) =>
    case OfferStored =>
    case OfferUpdated =>
    case Requesting(_) =>
    case RequestReady(_) =>
    case Storing(_) =>
  }

  lemma IssuerBacked(s: Thread, task: Task)
    requires Backed(s) && !OfHolder(task) && !ContinueAsIssuer(s, task).Throws?
    requires task.OfferMarked? || task.OfferReady? ==> s.issuerRecord.Some?
    ensures Backed(Schedule(ContinueAsIssuer(s, task)).value)
  {
    match task
    case ProposalUnknown(_) =>
    case ProposalAdded(_) =>
    case ProposalStored =>
    case OfferReplying(_) =>
    case OfferCreated(_) =>
    case OfferMarked(_, _) =>
    case OfferReady(_) =>
    case Issuing(_) =>
    case IssueReady(_, _) =>
    case Issued(_) =>
  }

  lemma ResumeBacked(s: Thread, task: Task)
    requires Backed(s) && Causal(s) && Made(s.issuer) && task in s.tasks
    requires !Continue(Without(s, task), task).Throws?
    ensures Backed(Schedule(Continue(Without(s, task), task)).value)
  {
    assert TaskOk(s, task);
    assert task.OfferMarked? || task.OfferReady? ==> s.issuerRecord.Some?;
    WithoutBacked(s, task);
    if OfHolder(task) {
      HolderBacked(Without(s, task), task);
    } else {
      IssuerBacked(Without(s, task), task);
    }
  }

  lemma WithoutBacked(s: Thread, task: Task)
    requires Backed(s)
    ensures Backed(Without(s, task)) && (TaskOk(s, task) ==> TaskOk(Without(s, task), task))
  {
  }

  lemma ThenBacked(s: Thread, task: Task)
    requires Backed(s) && !task.OfferReady?
    ensures Backed(Then(s, task))
  {
  }

  lemma ReceiveBacked(s: Thread, m: Msg)
    requires Backed(s) && !Receive(s, m).Throws?
    ensures Backed(Schedule(Receive(s, m)).value)
  {
    match m.kind
    case Proposal => ThenBacked(s, Receive(s, m).task);
    case Offer => ThenBacked(s, Receive(s, m).task);
    case Request =>
    case Credential =>
  }

  lemma StartBacked(s: Thread, c: Connection)
    requires s == UNUSED
    ensures Backed(Step(s, SendProposal(c)).value) && Backed(Step(s, SendNewOffer(c)).value)
  {
  }

  lemma StepBacked(s: Thread, a: Action)
    requires Backed(s) && Causal(s) && Made(s.issuer) && Step(s, a).Some?
    ensures Backed(Step(s, a).value)
  {
    match a
    case SendProposal(c) => StartBacked(s, c);
    case SendNewOffer(c) => StartBacked(s, c);
    case SendOffer => ThenBacked(s, OfferReplying(s.issuer.cached.value));
    case SendRequest => ThenBacked(s, Requesting(s.holder.cached.value));
    case Issue => ThenBacked(s, Issuing(s.issuer.cached.value));
    case Store => ThenBacked(s, Storing(s.holder.cached.value));
    case Deliver(m) => ReceiveBacked(s, m);
    case Resume(task) => ResumeBacked(s, task);
    case Fail(task) => WithoutBacked(s, task);
  }

  lemma {:induction false} RunBacked(actions: seq<Action>)
    requires After(Step, UNUSED, actions).Some?
    ensures Backed(After(Step, UNUSED, actions).value)
  {
    if actions != [] {
      var before := actions[..|actions| - 1];
      RunBacked(before);
      RunRemembers(before);
      RunsAreCausal(before);
      StepBacked(After(Step, UNUSED, before).value, actions[|actions| - 1]);
    }
  }

  lemma DeliverIff(s: Thread, m: Msg)
    requires Causal(s) && Backed(s)
    ensures Step(s, Deliver(m)).Some? <==> m in s.sent
  {
    if m in s.sent {
      assert Sent(s, m.kind);
      assert m.kind == Request ==> Msg(Offer, s.home.value) in s.sent;
    }
  }

  lemma ResumeIff(s: Thread, task: Task)
    requires Causal(s) && Made(s.issuer) && Made(s.holder)
    ensures Step(s, Resume(task)).Some?
       <==> task in s.tasks && (task.Requesting? ==> s.offered) && (task.Issuing? ==> s.requested)
  {
    if task in s.tasks {
      assert TaskOk(s, task);
    }
  }

  lemma CommandIff(s: Thread)
    ensures Step(s, SendOffer).Some? <==> s.issuer.cached.Some?
    ensures Step(s, Issue).Some? <==> s.issuer.cached.Some?
    ensures Step(s, SendRequest).Some? <==> s.holder.cached.Some?
    ensures Step(s, Store).Some? <==> s.holder.cached.Some?
  {
  }

  lemma StartIff(s: Thread, c: Connection)
    requires Causal(s)
    ensures Step(s, SendProposal(c)).Some? <==> s.home.None?
    ensures Step(s, SendNewOffer(c)).Some? <==> s.home.None?
  {
  }

  /** After every run, whatever it was: a step is possible exactly if the run has done what it needs. */
  lemma StepIff(actions: seq<Action>, a: Action)
    requires After(Step, UNUSED, actions).Some?
    ensures var s := After(Step, UNUSED, actions).value; Step(s, a).Some? <==> Enabled(actions, s.tasks, a)
  {
    var s := After(Step, UNUSED, actions).value;
    RunRemembers(actions);
    RunsAreCausal(actions);
    RunBacked(actions);
    CommandIff(s);
    match a
    case SendProposal(c) => StartIff(s, c);
    case SendNewOffer(c) => StartIff(s, c);
    case Deliver(m) => DeliverIff(s, m);
    case Resume(task) => ResumeIff(s, task);
    case _ =>
  }

  // ---------------------------------------------------------------------------
  // From a proposal to a stored credential
  // ---------------------------------------------------------------------------

  /** What happens between one state an agent answers with and the next. */
  function Stretch(c: Connection, k: nat): seq<Action> {
    match k
    case 0 => [SendProposal(c), Resume(ProposalRecorded(c)), Resume(ProposalReady(c))]
    case 1 => [Deliver(Msg(Proposal, c)), Resume(ProposalUnknown(c)), Resume(ProposalAdded(c)), Resume(ProposalStored)]
    case 2 => [SendOffer, Resume(OfferReplying(0)), Resume(OfferMarked(0, c)), Resume(OfferReady(c))]
    case 3 => [Deliver(Msg(Offer, c)), Resume(OfferStored), Resume(OfferUpdated)]
    case 4 => [SendRequest, Resume(Requesting(0)), Resume(RequestReady(c))]
    case 5 => [Deliver(Msg(Request, c))]
    case 6 => [Issue, Resume(Issuing(0)), Resume(IssueReady(0, c)), Resume(Issued(0))]
    case 7 => [Deliver(Msg(Credential, c))]
    case 8 => [Store, Resume(Storing(0))]
    case _ => []
  }

  /** The run up to milestone k. */
  function Upto(c: Connection, k: nat): seq<Action> {
    if k == 0 then [] else Upto(c, k - 1) + Stretch(c, k - 1)
  }

  /** The states of the issuer's and of the holder's exchanges at each milestone. */
  const MILESTONES: seq<(seq<State>, seq<State>)> := [
    ([], []),
    ([], [ProposalSent]),
    ([ProposalReceived], [ProposalSent]),
    ([OfferSent], [ProposalSent]),
    ([OfferSent], [OfferReceived]),
    ([OfferSent], [RequestSent]),
    ([RequestReceived], [RequestSent]),
    ([CredentialIssued], [RequestSent]),
    ([CredentialIssued], [CredentialReceived]),
    ([CredentialIssued], [Done])]

  /** A relation between runs and the states they end in. */
  ghost predicate Follows(leads: (seq<Action>, Thread) -> bool) {
    forall run, s, a :: leads(run, s) && Step(s, a).Some? ==> leads(run + [a], Step(s, a).value)
  }

  lemma Continued(leads: (seq<Action>, Thread) -> bool, run: seq<Action>, s: Thread, a: Action) returns (s': Thread)
    requires Follows(leads) && leads(run, s) && Step(s, a).Some?
    ensures s' == Step(s, a).value && leads(run + [a], s')
  {
    s' := Step(s, a).value;
  }

  ghost function Proposed(c: Connection): Thread {
    UNUSED.(home := Some(c), holderRecord := Some(c), sent := {Msg(Proposal, c)},
            holder := Local([ProposalSent], Some(0), [Sub(Offer, 0, OfferReceived)]))
  }

  ghost function ProposalIn(c: Connection): Thread {
    Proposed(c).(issuerRecord := Some(c), issuer := Local([ProposalReceived], Some(0), []))
  }

  ghost function Recording(c: Connection): Thread {
    ProposalIn(c).(issuer := Empty(), tasks := multiset{ProposalAdded(c)})
  }

  ghost function OfferMarking(c: Connection): Thread {
    ProposalIn(c).(issuer := Local([OfferSent], Some(0), []), tasks := multiset{OfferMarked(0, c)})
  }

  ghost function OfferOut(c: Connection): Thread {
    ProposalIn(c).(issuer := Local([OfferSent], Some(0), [Sub(Request, 0, RequestReceived)]),
                   sent := {Msg(Proposal, c), Msg(Offer, c)})
  }

  ghost function OfferIn(c: Connection): Thread {
    OfferOut(c).(holder := Local([OfferReceived], Some(0), []), offered := true, published := true, told := {Offer})
  }

  ghost function RequestOut(c: Connection): Thread {
    OfferIn(c).(holder := Local([RequestSent], Some(0), [Sub(Credential, 0, CredentialReceived)]),
                sent := {Msg(Proposal, c), Msg(Offer, c), Msg(Request, c)})
  }

  ghost function RequestIn(c: Connection): Thread {
    RequestOut(c).(issuer := Local([RequestReceived], Some(0), []), requested := true, told := {Offer, Request})
  }

  ghost function IssuingNow(c: Connection): Thread {
    RequestIn(c).(tasks := multiset{IssueReady(0, c)})
  }

  ghost function CredentialOut(c: Connection): Thread {
    RequestIn(c).(issuer := Local([CredentialIssued], Some(0), []),
                  sent := {Msg(Proposal, c), Msg(Offer, c), Msg(Request, c), Msg(Credential, c)})
  }

  ghost function CredentialIn(c: Connection): Thread {
    CredentialOut(c).(holder := Local([CredentialReceived], Some(0), []), credited := true,
                      told := {Offer, Request, Credential})
  }

  ghost function Stored(c: Connection): Thread {
    CredentialIn(c).(holder := Local([Done], Some(0), []))
  }

  ghost function At(c: Connection, k: nat): Thread {
    match k
    case 0 => UNUSED
    case 1 => Proposed(c)
    case 2 => ProposalIn(c)
    case 3 => OfferOut(c)
    case 4 => OfferIn(c)
    case 5 => RequestOut(c)
    case 6 => RequestIn(c)
    case 7 => CredentialOut(c)
    case 8 => CredentialIn(c)
    case _ => Stored(c)
  }

  /** An event that one pending subscription of the cached exchange is waiting for. */
  lemma PublishOne(state: State, kind: Kind, next: State)
    ensures var l := Local([state], Some(0), [Sub(kind, 0, next)]);
            l.Publish(kind) == Local([next], Some(0), []) && Listening(l, kind, 0)
  {
    var l := Local([state], Some(0), [Sub(kind, 0, next)]);
    assert l.subs[0] == Sub(kind, 0, next) && l.subs[..0] == [];
    AllSpent(l.subs, kind);
    FireAllAt(l.states, l.subs, kind, next, 0);
  }

  lemma ReachProposed(leads: (seq<Action>, Thread) -> bool, run: seq<Action>, c: Connection)
    requires Follows(leads) && leads(run, UNUSED)
    ensures leads(run + Stretch(c, 0), Proposed(c))
  {
    var s := Continued(leads, run, UNUSED, SendProposal(c));
    s := Continued(leads, run + [SendProposal(c)], s, Resume(ProposalRecorded(c)));
    s := Continued(leads, run + [SendProposal(c)] + [Resume(ProposalRecorded(c))], s, Resume(ProposalReady(c)));
    assert s == Proposed(c);
    assert run + [SendProposal(c)] + [Resume(ProposalRecorded(c))] + [Resume(ProposalReady(c))] == run + Stretch(c, 0);
  }

  lemma ReachRecording(leads: (seq<Action>, Thread) -> bool, run: seq<Action>, c: Connection)
    requires Follows(leads) && leads(run, Proposed(c))
    ensures leads(run + [Deliver(Msg(Proposal, c)), Resume(ProposalUnknown(c))], Recording(c))
  {
    var s := Continued(leads, run, Proposed(c), Deliver(Msg(Proposal, c)));
    s := Continued(leads, run + [Deliver(Msg(Proposal, c))], s, Resume(ProposalUnknown(c)));
    assert s == Recording(c);
    assert run + [Deliver(Msg(Proposal, c))] + [Resume(ProposalUnknown(c))]
        == run + [Deliver(Msg(Proposal, c)), Resume(ProposalUnknown(c))];
  }

  lemma ReachProposalIn(leads: (seq<Action>, Thread) -> bool, run: seq<Action>, c: Connection)
    requires Follows(leads) && leads(run, Proposed(c))
    ensures leads(run + Stretch(c, 1), ProposalIn(c))
  {
    ReachRecording(leads, run, c);
    var half := run + [Deliver(Msg(Proposal, c)), Resume(ProposalUnknown(c))];
    var s := Continued(leads, half, Recording(c), Resume(ProposalAdded(c)));
    s := Continued(leads, half + [Resume(ProposalAdded(c))], s, Resume(ProposalStored));
    assert s == ProposalIn(c);
    assert half + [Resume(ProposalAdded(c))] + [Resume(ProposalStored)] == run + Stretch(c, 1);
  }

  lemma ReachOfferMarking(leads: (seq<Action>, Thread) -> bool, run: seq<Action>, c: Connection)
    requires Follows(leads) && leads(run, ProposalIn(c))
    ensures leads(run + [SendOffer, Resume(OfferReplying(0))], OfferMarking(c))
  {
    var s := Continued(leads, run, ProposalIn(c), SendOffer);
    s := Continued(leads, run + [SendOffer], s, Resume(OfferReplying(0)));
    assert s == OfferMarking(c);
    assert run + [SendOffer] + [Resume(OfferReplying(0))] == run + [SendOffer, Resume(OfferReplying(0))];
  }

  lemma ReachOfferOut(leads: (seq<Action>, Thread) -> bool, run: seq<Action>, c: Connection)
    requires Follows(leads) && leads(run, ProposalIn(c))
    ensures leads(run + Stretch(c, 2), OfferOut(c))
  {
    ReachOfferMarking(leads, run, c);
    var half := run + [SendOffer, Resume(OfferReplying(0))];
    var s := Continued(leads, half, OfferMarking(c), Resume(OfferMarked(0, c)));
    s := Continued(leads, half + [Resume(OfferMarked(0, c))], s, Resume(OfferReady(c)));
    assert s == OfferOut(c);
    assert half + [Resume(OfferMarked(0, c))] + [Resume(OfferReady(c))] == run + Stretch(c, 2);
  }

  lemma ReachOfferIn(leads: (seq<Action>, Thread) -> bool, run: seq<Action>, c: Connection)
    requires Follows(leads) && leads(run, OfferOut(c))
    ensures leads(run + Stretch(c, 3), OfferIn(c))
  {
    PublishOne(ProposalSent, Offer, OfferReceived);
    var s := Continued(leads, run, OfferOut(c), Deliver(Msg(Offer, c)));
    s := Continued(leads, run + [Deliver(Msg(Offer, c))], s, Resume(OfferStored));
    s := Continued(leads, run + [Deliver(Msg(Offer, c))] + [Resume(OfferStored)], s, Resume(OfferUpdated));
    assert s == OfferIn(c);
    assert run + [Deliver(Msg(Offer, c))] + [Resume(OfferStored)] + [Resume(OfferUpdated)] == run + Stretch(c, 3);
  }

  lemma ReachRequestOut(leads: (seq<Action>, Thread) -> bool, run: seq<Action>, c: Connection)
    requires Follows(leads) && leads(run, OfferIn(c))
    ensures leads(run + Stretch(c, 4), RequestOut(c))
  {
    var s := Continued(leads, run, OfferIn(c), SendRequest);
    s := Continued(leads, run + [SendRequest], s, Resume(Requesting(0)));
    s := Continued(leads, run + [SendRequest] + [Resume(Requesting(0))], s, Resume(RequestReady(c)));
    assert s == RequestOut(c);
    assert run + [SendRequest] + [Resume(Requesting(0))] + [Resume(RequestReady(c))] == run + Stretch(c, 4);
  }

  lemma ReachRequestIn(leads: (seq<Action>, Thread) -> bool, run: seq<Action>, c: Connection)
    requires Follows(leads) && leads(run, RequestOut(c))
    ensures leads(run + Stretch(c, 5), RequestIn(c))
  {
    PublishOne(OfferSent, Request, RequestReceived);
    var s := Continued(leads, run, RequestOut(c), Deliver(Msg(Request, c)));
    assert s == RequestIn(c);
    assert run + [Deliver(Msg(Request, c))] == run + Stretch(c, 5);
  }

  lemma ReachIssuingNow(leads: (seq<Action>, Thread) -> bool, run: seq<Action>, c: Connection)
    requires Follows(leads) && leads(run, RequestIn(c))
    ensures leads(run + [Issue, Resume(Issuing(0))], IssuingNow(c))
  {
    var s := Continued(leads, run, RequestIn(c), Issue);
    s := Continued(leads, run + [Issue], s, Resume(Issuing(0)));
    assert s == IssuingNow(c);
    assert run + [Issue] + [Resume(Issuing(0))] == run + [Issue, Resume(Issuing(0))];
  }

  lemma ReachCredentialOut(leads: (seq<Action>, Thread) -> bool, run: seq<Action>, c: Connection)
    requires Follows(leads) && leads(run, RequestIn(c))
    ensures leads(run + Stretch(c, 6), CredentialOut(c))
  {
    ReachIssuingNow(leads, run, c);
    var half := run + [Issue, Resume(Issuing(0))];
    var s := Continued(leads, half, IssuingNow(c), Resume(IssueReady(0, c)));
    s := Continued(leads, half + [Resume(IssueReady(0, c))], s, Resume(Issued(0)));
    assert s == CredentialOut(c);
    assert half + [Resume(IssueReady(0, c))] + [Resume(Issued(0))] == run + Stretch(c, 6);
  }

  lemma ReachCredentialIn(leads: (seq<Action>, Thread) -> bool, run: seq<Action>, c: Connection)
    requires Follows(leads) && leads(run, CredentialOut(c))
    ensures leads(run + Stretch(c, 7), CredentialIn(c))
  {
    PublishOne(RequestSent, Credential, CredentialReceived);
    var s := Continued(leads, run, CredentialOut(c), Deliver(Msg(Credential, c)));
    assert s == CredentialIn(c);
    assert run + [Deliver(Msg(Credential, c))] == run + Stretch(c, 7);
  }

  lemma ReachStored(leads: (seq<Action>, Thread) -> bool, run: seq<Action>, c: Connection)
    requires Follows(leads) && leads(run, CredentialIn(c))
    ensures leads(run + Stretch(c, 8), Stored(c))
  {
    var s := Continued(leads, run, CredentialIn(c), Store);
    s := Continued(leads, run + [Store], s, Resume(Storing(0)));
    assert s == Stored(c);
    assert run + [Store] + [Resume(Storing(0))] == run + Stretch(c, 8);
  }

  lemma {:induction false} ReachMilestone(leads: (seq<Action>, Thread) -> bool, c: Connection, k: nat)
    requires Follows(leads) && leads([], UNUSED) && k < |MILESTONES|
    ensures leads(Upto(c, k), At(c, k))
  {
    if k > 0 {
      ReachMilestone(leads, c, k - 1);
      match k
      case 1 => ReachProposed(leads, [], c);
      case 2 => ReachProposalIn(leads, Upto(c, 1), c);
      case 3 => ReachOfferOut(leads, Upto(c, 2), c);
      case 4 => ReachOfferIn(leads, Upto(c, 3), c);
      case 5 => ReachRequestOut(leads, Upto(c, 4), c);
      case 6 => ReachRequestIn(leads, Upto(c, 5), c);
      case 7 => ReachCredentialOut(leads, Upto(c, 6), c);
      case 8 => ReachCredentialIn(leads, Upto(c, 7), c);
      case 9 => ReachStored(leads, Upto(c, 8), c);
    }
  }

  /** The run from a proposal to a stored credential takes both agents through these states. */
  lemma IssuedFromProposal(c: Connection, k: nat)
    requires k < |MILESTONES|
    ensures After(Step, UNUSED, Upto(c, k)).Some?
    ensures var s := After(Step, UNUSED, Upto(c, k)).value;
            (s.issuer.states, s.holder.states) == MILESTONES[k] && s.tasks == multiset{}
  {
    forall run, s, a | After(Step, UNUSED, run) == Some(s) && Step(s, a).Some?
      ensures After(Step, UNUSED, run + [a]) == Some(Step(s, a).value)
    {
      Extend(Step, UNUSED, run, a);
    }
    ReachMilestone((run, s) => After(Step, UNUSED, run) == Some(s), c, k);
    match k
    case 0 =>
    case 1 =>
    case 2 =>
    case 3 =>
    case 4 =>
    case 5 =>
    case 6 =>
    case 7 =>
    case 8 =>
    case 9 =>
  }
}

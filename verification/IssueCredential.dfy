/**
 The issue-credential exchange between two .NET backchannels (RFC 0036), one thread id.

 A step is what one command handler or message handler does between two awaits; any number of
 handlers are under way at once. A message, once sent, may be delivered at any later time, in
 any order, again and again, or never. A handler may fail at any await.

 The framework is not part of this model. What is assumed of it: processing a message publishes
 one event with its type and thread id, and a service call fails unless the message it works on
 has been processed.
 */
module IssueCredential {
  import opened Options
  import opened Exchanges
  import opened Runs

  datatype Kind = Proposal | Offer | Request | Credential

  datatype State =
    | ProposalSent | ProposalReceived | OfferSent | OfferReceived | RequestSent | RequestReceived
    | CredentialIssued | CredentialReceived | Done

  type Connection = string

  datatype Msg = Msg(kind: Kind, connection: Connection)

  /** A handler waiting at an await, with the locals it still needs. `x` is an exchange object. */
  datatype Task =
    // send-proposal (holder)
    | ProposalRecorded(c: Connection) | ProposalReady(c: Connection)
    // processing a proposal (issuer)
    | ProposalUnknown(c: Connection) | ProposalAdded(c: Connection) | ProposalStored
    // send-offer (issuer)
    | OfferReplying(x: nat) | OfferCreated(c: Connection)
    | OfferMarked(x: nat, c: Connection) | OfferReady(c: Connection)
    // processing an offer (holder)
    | OfferUnknown(c: Connection) | OfferAdded(c: Connection) | OfferStored | OfferUpdated
    // send-request (holder)
    | Requesting(x: nat) | RequestReady(c: Connection)
    // issue (issuer)
    | Issuing(x: nat) | IssueReady(x: nat, c: Connection) | Issued(x: nat)
    // store (holder)
    | Storing(x: nat)

  datatype Thread = Thread(
    home: Option<Connection>,         // the connection the thread was started on
    issuer: Local<Kind, State>,
    holder: Local<Kind, State>,
    issuerRecord: Option<Connection>, // the wallet record of this thread, with its connection
    holderRecord: Option<Connection>,
    offered: bool,                    // the holder's record has the offer
    published: bool,                  // the offer event was published to the holder
    requested: bool,                  // the issuer processed the request and its event was published
    credited: bool,                   // the holder processed the credential and its event was published
    told: set<Kind>,                  // the messages whose update has reached the exchange that is cached now
    sent: set<Msg>,
    tasks: multiset<Task>)

  const UNUSED := Thread(None, Empty(), Empty(), None, None, false, false, false, false, {}, {}, multiset{})

  datatype Action =
    | SendProposal(c: Connection) // up to the first await, under a thread id nobody has used
    | SendNewOffer(c: Connection) // send-offer without a thread id: CreateOfferAsync
    | SendOffer                   // send-offer with this thread id: the cache look-up
    | SendRequest | Issue | Store // the cache look-ups of these commands; with nothing cached they throw
    | Deliver(m: Msg)             // a message handler, up to its first await
    | Resume(task: Task)          // a handler goes on to its next await
    | Fail(task: Task)            // a handler throws

  /** How a handler leaves the await it was resumed from. */
  datatype Outcome = Throws | Returns(s: Thread) | Awaits(s: Thread, task: Task)

  function Step(s: Thread, a: Action): Option<Thread> {
    match a
    case SendProposal(c) =>
      if s != UNUSED then None
      else Some(Then(s.(home := Some(c), holderRecord := Some(c)), ProposalRecorded(c)))
    case SendNewOffer(c) =>
      if s != UNUSED then None
      else Some(Then(s.(home := Some(c), issuerRecord := Some(c)), OfferCreated(c)))
    case SendOffer => if s.issuer.cached.None? then None else Some(Then(s, OfferReplying(s.issuer.cached.value)))
    case SendRequest => if s.holder.cached.None? then None else Some(Then(s, Requesting(s.holder.cached.value)))
    case Issue => if s.issuer.cached.None? then None else Some(Then(s, Issuing(s.issuer.cached.value)))
    case Store => if s.holder.cached.None? then None else Some(Then(s, Storing(s.holder.cached.value)))
    case Deliver(m) => if m in s.sent then Schedule(Receive(s, m)) else None
    case Resume(task) => if task in s.tasks then Schedule(Continue(Without(s, task), task)) else None
    case Fail(task) => if task in s.tasks then Some(Without(s, task)) else None
  }

  function Without(s: Thread, task: Task): Thread {
    s.(tasks := s.tasks - multiset{task})
  }

  function Schedule(o: Outcome): Option<Thread> {
    match o
    case Throws => None
    case Returns(s) => Some(s)
    case Awaits(s, task) => Some(Then(s, task))
  }

  function Then(s: Thread, task: Task): Thread {
    s.(tasks := s.tasks + multiset{task})
  }

  /** Publishing this kind reaches the cached exchange when one of the pending subscriptions captured it. */
  function Told(told: set<Kind>, l: Local<Kind, State>, kind: Kind): set<Kind> {
    if l.cached.Some? && Listening(l, kind, l.cached.value) then told + {kind} else told
  }

  function Receive(s: Thread, m: Msg): Outcome {
    match m.kind
    case Proposal =>
      var known := s.issuer.cached.Some? && s.issuerRecord == Some(m.connection);
      Awaits(s, if known then ProposalStored else ProposalUnknown(m.connection))
    case Offer =>
      var known := s.holderRecord == Some(m.connection);
      Awaits(s, if known then OfferStored else OfferUnknown(m.connection))
    case Request =>
      if s.issuerRecord.None? then Throws
      else Returns(s.(requested := true, issuer := s.issuer.Publish(Request), told := Told(s.told, s.issuer, Request)))
    case Credential =>
      if s.holderRecord.None? then Throws
      else
        var told := Told(s.told, s.holder, Credential);
        Returns(s.(credited := true, holder := s.holder.Publish(Credential), told := told))
  }

  /** The stretches that send-proposal, processing an offer, send-request and store consist of. */
  predicate OfHolder(task: Task) {
    || task.ProposalRecorded? || task.ProposalReady?
    || task.OfferUnknown? || task.OfferAdded? || task.OfferStored? || task.OfferUpdated?
    || task.Requesting? || task.RequestReady? || task.Storing?
  }

  function Continue(s: Thread, task: Task): Outcome {
    if OfHolder(task) then ContinueAsHolder(s, task) else ContinueAsIssuer(s, task)
  }

  function ContinueAsHolder(s: Thread, task: Task): Outcome
    requires OfHolder(task)
  {
    match task
    // Controllers/IssueCredentialController.cs: send-proposal
    case ProposalRecorded(c) =>
      var holder := s.holder.Create(ProposalSent);
      Awaits(s.(holder := holder.Subscribe(Offer, holder.cached.value, OfferReceived),
                told := s.told - {Offer, Credential}),
             ProposalReady(c))
    case ProposalReady(c) => Returns(s.(sent := s.sent + {Msg(Proposal, c)}))
    // Handlers/CredentialHandler.cs: ProcessOfferAsync
    case OfferUnknown(c) => Awaits(s.(holderRecord := Some(c)), OfferAdded(c))
    case OfferAdded(c) =>
      Awaits(s.(holder := s.holder.Create(OfferReceived), told := s.told - {Credential} + {Offer}), OfferStored)
    case OfferStored => Awaits(s.(offered := true), OfferUpdated)
    case OfferUpdated =>
      Returns(s.(published := true, holder := s.holder.Publish(Offer), told := Told(s.told, s.holder, Offer)))
    // Controllers/IssueCredentialController.cs: send-request, store
    case Requesting(x) =>
      if !s.offered || s.holderRecord.None? then Throws
      else
        var holder := s.holder.Assign(x, RequestSent).Subscribe(Credential, x, CredentialReceived);
        Awaits(s.(holder := holder), RequestReady(s.holderRecord.value))
    case RequestReady(c) => Returns(s.(sent := s.sent + {Msg(Request, c)}))
    case Storing(x) =>
      if s.holderRecord.None? then Throws
      else Returns(s.(holder := s.holder.Assign(x, Done)))
  }

  function ContinueAsIssuer(s: Thread, task: Task): Outcome
    requires !OfHolder(task)
  {
    match task
    // Handlers/CredentialHandler.cs: propose
    case ProposalUnknown(c) => Awaits(s.(issuerRecord := Some(c)), ProposalAdded(c))
    case ProposalAdded(c) =>
      Awaits(s.(issuer := s.issuer.Create(ProposalReceived), told := s.told - {Request}), ProposalStored)
    case ProposalStored => Returns(s.(issuer := s.issuer.Publish(Proposal)))
    // Controllers/IssueCredentialController.cs: send-offer
    case OfferReplying(x) =>
      if s.issuerRecord.None? then Throws
      else Awaits(s.(issuer := s.issuer.Assign(x, OfferSent)), OfferMarked(x, s.issuerRecord.value))
    case OfferCreated(c) =>
      var issuer := s.issuer.Create(OfferSent);
      Awaits(s.(issuer := issuer, told := s.told - {Request}), OfferMarked(issuer.cached.value, c))
    case OfferMarked(x, c) => Awaits(s.(issuer := s.issuer.Subscribe(Request, x, RequestReceived)), OfferReady(c))
    case OfferReady(c) => Returns(s.(sent := s.sent + {Msg(Offer, c)}))
    // Controllers/IssueCredentialController.cs: issue
    case Issuing(x) =>
      if !s.requested || s.issuerRecord.None? then Throws
      else Awaits(s, IssueReady(x, s.issuerRecord.value))
    case IssueReady(x, c) => Awaits(s.(sent := s.sent + {Msg(Credential, c)}), Issued(x))
    case Issued(x) => Returns(s.(issuer := s.issuer.Assign(x, CredentialIssued)))
  }

  // ---------------------------------------------------------------------------
  // What every reachable state satisfies, however messages are delivered
  // ---------------------------------------------------------------------------

  ghost predicate Sent(s: Thread, kind: Kind) {
    s.home.Some? && Msg(kind, s.home.value) in s.sent
  }

  /** What is known while a handler waits at this await. */
  ghost predicate TaskOk(s: Thread, task: Task) {
    && s.home.Some?
    && match task
       case ProposalRecorded(c) => c == s.home.value && s.holderRecord.Some?
       case ProposalReady(c) => c == s.home.value
       case ProposalUnknown(c) => c == s.home.value
       case ProposalAdded(c) => c == s.home.value && s.issuerRecord.Some?
       case ProposalStored => s.issuerRecord.Some?
       case OfferReplying(x) => x < |s.issuer.states|
       case OfferCreated(c) => c == s.home.value && s.issuerRecord.Some?
       case OfferMarked(x, c) => c == s.home.value && x < |s.issuer.states|
       case OfferReady(c) => c == s.home.value
       case OfferUnknown(c) => c == s.home.value && Sent(s, Offer)
       case OfferAdded(c) => c == s.home.value && Sent(s, Offer) && s.holderRecord.Some?
       case OfferStored => Sent(s, Offer) && s.holderRecord.Some?
       case OfferUpdated => s.offered
       case Requesting(x) => x < |s.holder.states|
       case RequestReady(c) => c == s.home.value && s.offered
       case Issuing(x) => x < |s.issuer.states|
       case IssueReady(x, c) => c == s.home.value && s.requested && x < |s.issuer.states|
       case Issued(x) => Sent(s, Credential) && x < |s.issuer.states|
       case Storing(x) => x < |s.holder.states|
  }

  /** Every record, message and handler of the thread is on the connection it was started on. */
  ghost predicate Sited(s: Thread) {
    && (s.home.None? ==> s == UNUSED)
    && (s.issuerRecord.Some? ==> s.issuerRecord == s.home)
    && (s.holderRecord.Some? ==> s.holderRecord == s.home)
    && (forall m | m in s.sent :: Some(m.connection) == s.home)
    && (forall task | task in s.tasks :: TaskOk(s, task))
  }

  /** Each message was caused by the one before it. */
  ghost predicate Chained(s: Thread) {
    && (s.offered ==> Sent(s, Offer))
    && (s.published ==> s.offered)
    && (Sent(s, Request) ==> s.offered)
    && (s.requested ==> Sent(s, Request))
    && (Sent(s, Credential) ==> s.requested)
    && (s.credited ==> Sent(s, Credential))
  }

  /** Which subscriptions an issuer and a holder can have, and what their states reveal. */
  ghost predicate IssuerOk(s: Thread) {
    && s.issuer.Valid()
    && (s.issuer.cached.Some? ==> s.issuerRecord.Some?)
    && (forall sub | sub in s.issuer.subs :: sub.kind == Request && sub.next == RequestReceived)
    && (forall x | 0 <= x < |s.issuer.states| :: IssuerState(s, s.issuer.states[x]))
  }

  ghost predicate IssuerState(s: Thread, state: State) {
    match state
    case ProposalReceived | OfferSent => true
    case RequestReceived => s.requested
    case CredentialIssued => Sent(s, Credential)
    case _ => false
  }

  ghost predicate HolderOk(s: Thread) {
    && s.holder.Valid()
    && (s.holder.cached.Some? ==> s.holderRecord.Some?)
    && (forall sub | sub in s.holder.subs ::
          && sub.kind in {Offer, Credential}
          && sub.next == if sub.kind == Offer then OfferReceived else CredentialReceived)
    && (forall x | 0 <= x < |s.holder.states| :: HolderState(s, s.holder.states[x]))
  }

  ghost predicate HolderState(s: Thread, state: State) {
    match state
    case ProposalSent | OfferReceived | Done => true
    case RequestSent => s.offered
    case CredentialReceived => s.credited
    case _ => false
  }

  ghost predicate Causal(s: Thread) {
    Sited(s) && Chained(s) && IssuerOk(s) && HolderOk(s)
  }

  /** Records, messages and exchange objects are never taken back. */
  ghost predicate Grew(s: Thread, s': Thread) {
    && (s.home.Some? ==> s'.home == s.home)
    && (s.issuerRecord.Some? ==> s'.issuerRecord.Some?) && (s.holderRecord.Some? ==> s'.holderRecord.Some?)
    && (s.offered ==> s'.offered) && (s.published ==> s'.published)
    && (s.requested ==> s'.requested) && (s.credited ==> s'.credited)
    && s.sent <= s'.sent
    && |s.issuer.states| <= |s'.issuer.states| && |s.holder.states| <= |s'.holder.states|
  }

  lemma ScheduleGrows(s: Thread, o: Outcome)
    requires !o.Throws? && Grew(s, o.s)
    ensures Grew(s, Schedule(o).value)
  {
  }

  lemma ResumeGrows(s: Thread, task: Task)
    requires !Continue(Without(s, task), task).Throws?
    ensures Grew(s, Schedule(Continue(Without(s, task), task)).value)
  {
    ContinueGrows(Without(s, task), task);
    ScheduleGrows(s, Continue(Without(s, task), task));
  }

  lemma StepGrows(s: Thread, a: Action)
    requires Step(s, a).Some?
    ensures Grew(s, Step(s, a).value)
  {
    match a
    case SendProposal(c) =>
    case SendNewOffer(c) =>
    case SendOffer => ScheduleGrows(s, Awaits(s, OfferReplying(s.issuer.cached.value)));
    case SendRequest => ScheduleGrows(s, Awaits(s, Requesting(s.holder.cached.value)));
    case Issue => ScheduleGrows(s, Awaits(s, Issuing(s.issuer.cached.value)));
    case Store => ScheduleGrows(s, Awaits(s, Storing(s.holder.cached.value)));
    case Deliver(m) =>
      ReceiveGrows(s, m);
      ScheduleGrows(s, Receive(s, m));
    case Resume(task) => ResumeGrows(s, task);
    case Fail(task) =>
  }

  lemma ReceiveGrows(s: Thread, m: Msg)
    requires !Receive(s, m).Throws?
    ensures Grew(s, Receive(s, m).s)
  {
    match m.kind
    case Proposal =>
    case Offer =>
    case Request =>
    case Credential =>
  }

  /** The stretches of one agent leave the other one's exchanges alone. */
  lemma HolderGrows(s: Thread, task: Task)
    requires OfHolder(task) && !ContinueAsHolder(s, task).Throws?
    ensures Grew(s, ContinueAsHolder(s, task).s) && ContinueAsHolder(s, task).s.issuer == s.issuer
  {
  }

  lemma IssuerGrows(s: Thread, task: Task)
    requires !OfHolder(task) && !ContinueAsIssuer(s, task).Throws?
    ensures Grew(s, ContinueAsIssuer(s, task).s) && ContinueAsIssuer(s, task).s.holder == s.holder
  {
    match task
    case ProposalUnknown(c) =>
    case ProposalAdded(c) =>
    case ProposalStored =>
    case OfferReplying(x) =>
    case OfferCreated(c) =>
    case OfferMarked(x, c) =>
    case OfferReady(c) =>
    case Issuing(x) =>
    case IssueReady(x, c) =>
    case Issued(x) =>
  }

  lemma ContinueGrows(s: Thread, task: Task)
    requires !Continue(s, task).Throws?
    ensures Grew(s, Continue(s, task).s)
  {
    if OfHolder(task) {
      HolderGrows(s, task);
    } else {
      IssuerGrows(s, task);
    }
  }

  lemma TaskStaysOk(s: Thread, s': Thread, task: Task)
    requires Grew(s, s') && TaskOk(s, task)
    ensures TaskOk(s', task)
  {
  }

  lemma ContinueChained(s: Thread, task: Task)
    requires TaskOk(s, task) && Chained(s) && !Continue(s, task).Throws?
    ensures Chained(Continue(s, task).s)
  {
    match task
    case ProposalRecorded(c) =>
    case ProposalReady(c) =>
    case ProposalUnknown(c) =>
    case ProposalAdded(c) =>
    case ProposalStored =>
    case OfferReplying(x) =>
    case OfferCreated(c) =>
    case OfferMarked(x, c) =>
    case OfferReady(c) =>
    case OfferUnknown(c) =>
    case OfferAdded(c) =>
    case OfferStored =>
    case OfferUpdated =>
    case Requesting(x) =>
    case RequestReady(c) =>
    case Issuing(x) =>
    case IssueReady(x, c) =>
    case Issued(x) =>
    case Storing(x) =>
  }

  /** The next await of a handler is reached with what must be known there. */
  lemma NextTaskOk(s: Thread, task: Task)
    requires TaskOk(s, task) && Continue(s, task).Awaits?
    requires s.issuerRecord.Some? ==> s.issuerRecord == s.home
    requires s.holderRecord.Some? ==> s.holderRecord == s.home
    ensures TaskOk(Continue(s, task).s, Continue(s, task).task)
  {
    match task
    case ProposalRecorded(c) =>
    case ProposalUnknown(c) =>
    case ProposalAdded(c) =>
    case OfferReplying(x) =>
    case OfferCreated(c) =>
    case OfferMarked(x, c) =>
    case OfferUnknown(c) =>
    case OfferAdded(c) =>
    case OfferStored =>
    case Requesting(x) =>
    case Issuing(x) =>
    case IssueReady(x, c) =>
    case _ =>
  }

  lemma IssuerStaysOk(s: Thread, s': Thread)
    requires Grew(s, s') && IssuerOk(s) && s'.issuer == s.issuer
    ensures IssuerOk(s')
  {
  }

  lemma HolderStaysOk(s: Thread, s': Thread)
    requires Grew(s, s') && HolderOk(s) && s'.holder == s.holder
    ensures HolderOk(s')
  {
  }

  lemma MadeIssuerOk(s: Thread, s': Thread, state: State)
    requires Grew(s, s') && IssuerOk(s) && s'.issuer == s.issuer.Create(state) && s'.issuerRecord.Some?
    requires state in {ProposalReceived, OfferSent}
    ensures IssuerOk(s')
  {
  }

  lemma AssignedIssuerOk(s: Thread, s': Thread, x: nat, state: State)
    requires Grew(s, s') && IssuerOk(s) && s'.issuer == s.issuer.Assign(x, state) && IssuerState(s', state)
    ensures IssuerOk(s')
  {
  }

  lemma SubscribedIssuerOk(s: Thread, s': Thread, x: nat)
    requires Grew(s, s') && IssuerOk(s) && x < |s.issuer.states|
    requires s'.issuer == s.issuer.Subscribe(Request, x, RequestReceived)
    ensures IssuerOk(s')
  {
  }

  lemma PublishedIssuerOk(s: Thread, s': Thread, kind: Kind)
    requires Grew(s, s') && IssuerOk(s) && s'.issuer == s.issuer.Publish(kind) && (kind == Request ==> s'.requested)
    ensures IssuerOk(s')
  {
    PublishMoves(s.issuer, kind, RequestReceived);
  }

  lemma ContinueIssuer(s: Thread, task: Task)
    requires !OfHolder(task) && TaskOk(s, task) && IssuerOk(s) && !ContinueAsIssuer(s, task).Throws?
    ensures IssuerOk(ContinueAsIssuer(s, task).s)
  {
    IssuerGrows(s, task);
    var s' := ContinueAsIssuer(s, task).s;
    match task
    case ProposalAdded(c) => MadeIssuerOk(s, s', ProposalReceived);
    case ProposalStored => PublishedIssuerOk(s, s', Proposal);
    case OfferReplying(x) => AssignedIssuerOk(s, s', x, OfferSent);
    case OfferCreated(c) => MadeIssuerOk(s, s', OfferSent);
    case OfferMarked(x, c) => SubscribedIssuerOk(s, s', x);
    case Issued(x) => AssignedIssuerOk(s, s', x, CredentialIssued);
    case _ => IssuerStaysOk(s, s');
  }

  lemma MadeHolderOk(s: Thread, s': Thread, state: State)
    requires Grew(s, s') && HolderOk(s) && s'.holder == s.holder.Create(state) && s'.holderRecord.Some?
    requires state in {ProposalSent, OfferReceived}
    ensures HolderOk(s')
  {
  }

  lemma AssignedHolderOk(s: Thread, s': Thread, x: nat, state: State)
    requires Grew(s, s') && HolderOk(s) && s'.holder == s.holder.Assign(x, state) && HolderState(s', state)
    ensures HolderOk(s')
  {
  }

  lemma SubscribedHolderOk(s: Thread, s': Thread, kind: Kind, x: nat)
    requires Grew(s, s') && HolderOk(s) && x < |s.holder.states| && kind in {Offer, Credential}
    requires s'.holder == s.holder.Subscribe(kind, x, if kind == Offer then OfferReceived else CredentialReceived)
    ensures HolderOk(s')
  {
  }

  lemma PublishedHolderOk(s: Thread, s': Thread, kind: Kind)
    requires Grew(s, s') && HolderOk(s) && s'.holder == s.holder.Publish(kind)
    requires kind == Offer || (kind == Credential && s'.credited)
    ensures HolderOk(s')
  {
    PublishMoves(s.holder, kind, if kind == Offer then OfferReceived else CredentialReceived);
  }

  lemma ContinueHolder(s: Thread, task: Task)
    requires OfHolder(task) && TaskOk(s, task) && HolderOk(s) && !ContinueAsHolder(s, task).Throws?
    ensures HolderOk(ContinueAsHolder(s, task).s)
  {
    HolderGrows(s, task);
    var s' := ContinueAsHolder(s, task).s;
    match task
    case ProposalRecorded(c) =>
      var made := s.(holder := s.holder.Create(ProposalSent));
      MadeHolderOk(s, made, ProposalSent);
      SubscribedHolderOk(made, s', Offer, |s.holder.states|);
    case OfferAdded(c) => MadeHolderOk(s, s', OfferReceived);
    case OfferUpdated => PublishedHolderOk(s, s', Offer);
    case Requesting(x) =>
      var moved := s.(holder := s.holder.Assign(x, RequestSent));
      AssignedHolderOk(s, moved, x, RequestSent);
      SubscribedHolderOk(moved, s', Credential, x);
    case Storing(x) => AssignedHolderOk(s, s', x, Done);
    case _ => HolderStaysOk(s, s');
  }

  lemma ContinueHubs(s: Thread, task: Task)
    requires TaskOk(s, task) && IssuerOk(s) && HolderOk(s) && !Continue(s, task).Throws?
    ensures IssuerOk(Continue(s, task).s) && HolderOk(Continue(s, task).s)
  {
    if OfHolder(task) {
      HolderGrows(s, task);
      ContinueHolder(s, task);
      IssuerStaysOk(s, ContinueAsHolder(s, task).s);
    } else {
      IssuerGrows(s, task);
      ContinueIssuer(s, task);
      HolderStaysOk(s, ContinueAsIssuer(s, task).s);
    }
  }

  lemma ReceiveChained(s: Thread, m: Msg)
    requires Causal(s) && m in s.sent && !Receive(s, m).Throws?
    ensures Chained(Receive(s, m).s)
  {
    match m.kind
    case Proposal =>
    case Offer =>
    case Request =>
    case Credential =>
  }

  lemma ReceiveHubs(s: Thread, m: Msg)
    requires Causal(s) && m in s.sent && !Receive(s, m).Throws?
    ensures IssuerOk(Receive(s, m).s) && HolderOk(Receive(s, m).s)
  {
    var s' := Receive(s, m).s;
    ReceiveGrows(s, m);
    if m.kind == Request {
      PublishedIssuerOk(s, s', Request);
      HolderStaysOk(s, s');
    } else if m.kind == Credential {
      PublishedHolderOk(s, s', Credential);
      IssuerStaysOk(s, s');
    }
  }

  /** A handler that has been resumed leaves a causal state and, if it awaits again, in order. */
  ghost predicate Orderly(o: Outcome) {
    match o
    case Throws => true
    case Returns(s) => Causal(s)
    case Awaits(s, task) => Causal(s) && TaskOk(s, task)
  }

  lemma TasksStayOk(s: Thread, s': Thread)
    requires Sited(s) && Grew(s, s') && s'.tasks <= s.tasks
    ensures forall task | task in s'.tasks :: TaskOk(s', task)
  {
    forall task | task in s'.tasks ensures TaskOk(s', task) {
      TaskStaysOk(s, s', task);
    }
  }

  /** From `s` to `s'` records were added and messages sent on the thread's connection only. */
  ghost predicate OnConnection(s: Thread, s': Thread) {
    && (s'.issuerRecord == s.issuerRecord || s'.issuerRecord == s.home)
    && (s'.holderRecord == s.holderRecord || s'.holderRecord == s.home)
    && s'.tasks == s.tasks
    && forall m | m in s'.sent && m !in s.sent :: Some(m.connection) == s.home
  }

  lemma HolderOnConnection(s: Thread, task: Task)
    requires OfHolder(task) && TaskOk(s, task) && !ContinueAsHolder(s, task).Throws?
    requires s.holderRecord.Some? ==> s.holderRecord == s.home
    ensures OnConnection(s, ContinueAsHolder(s, task).s)
  {
  }

  lemma IssuerOnConnection(s: Thread, task: Task)
    requires !OfHolder(task) && TaskOk(s, task) && !ContinueAsIssuer(s, task).Throws?
    requires s.issuerRecord.Some? ==> s.issuerRecord == s.home
    ensures OnConnection(s, ContinueAsIssuer(s, task).s)
  {
    match task
    case ProposalUnknown(c) =>
    case OfferReady(c) =>
    case IssueReady(x, c) =>
    case _ =>
  }

  lemma ContinueSited(s: Thread, task: Task)
    requires TaskOk(s, task) && Sited(s) && !Continue(s, task).Throws?
    ensures Sited(Continue(s, task).s)
  {
    ContinueGrows(s, task);
    if OfHolder(task) {
      HolderOnConnection(s, task);
    } else {
      IssuerOnConnection(s, task);
    }
    StaysSited(s, Continue(s, task).s);
  }

  lemma StaysSited(s: Thread, s': Thread)
    requires Sited(s) && s.home.Some? && Grew(s, s') && OnConnection(s, s')
    ensures Sited(s')
  {
    TasksStayOk(s, s');
  }

  lemma ContinueCausal(s: Thread, task: Task)
    requires TaskOk(s, task) && Causal(s)
    ensures Orderly(Continue(s, task))
  {
    if !Continue(s, task).Throws? {
      ContinueSited(s, task);
      ContinueChained(s, task);
      ContinueHubs(s, task);
      if Continue(s, task).Awaits? {
        NextTaskOk(s, task);
        TaskStaysOk(Continue(s, task).s, Continue(s, task).s, Continue(s, task).task);
      }
    }
  }

  lemma ReceiveCausal(s: Thread, m: Msg)
    requires m in s.sent && Causal(s)
    ensures Orderly(Receive(s, m))
  {
    if !Receive(s, m).Throws? {
      ReceiveGrows(s, m);
      ReceiveChained(s, m);
      ReceiveHubs(s, m);
      TasksStayOk(s, Receive(s, m).s);
    }
  }

  lemma ScheduleCausal(o: Outcome)
    requires Orderly(o) && Schedule(o).Some?
    ensures Causal(Schedule(o).value)
  {
    var s' := Schedule(o).value;
    TasksStayOk(o.s, o.s);
    if o.Awaits? {
      forall task | task in s'.tasks ensures TaskOk(s', task) {
        TaskStaysOk(o.s, s', task);
      }
    }
  }

  lemma StepCausal(s: Thread, a: Action)
    requires Causal(s) && Step(s, a).Some?
    ensures Causal(Step(s, a).value)
  {
    match a
    case SendProposal(c) =>
    case SendNewOffer(c) =>
    case SendOffer => ScheduleCausal(Awaits(s, OfferReplying(s.issuer.cached.value)));
    case SendRequest => ScheduleCausal(Awaits(s, Requesting(s.holder.cached.value)));
    case Issue => ScheduleCausal(Awaits(s, Issuing(s.issuer.cached.value)));
    case Store => ScheduleCausal(Awaits(s, Storing(s.holder.cached.value)));
    case Deliver(m) =>
      ReceiveCausal(s, m);
      ScheduleCausal(Receive(s, m));
    case Resume(task) =>
      WithoutCausal(s, task);
      ContinueCausal(Without(s, task), task);
      ScheduleCausal(Continue(Without(s, task), task));
    case Fail(task) => WithoutCausal(s, task);
  }

  lemma WithoutCausal(s: Thread, task: Task)
    requires Causal(s) && task in s.tasks
    ensures Causal(Without(s, task)) && TaskOk(Without(s, task), task)
  {
    TasksStayOk(s, Without(s, task));
    TaskStaysOk(s, Without(s, task), task);
  }

  // ---------------------------------------------------------------------------
  // Causality, over all runs
  // ---------------------------------------------------------------------------

  lemma RunsAreCausal(actions: seq<Action>)
    requires After(Step, UNUSED, actions).Some?
    ensures Causal(After(Step, UNUSED, actions).value)
  {
    forall s, a | Causal(s) && Step(s, a).Some? ensures Causal(Step(s, a).value) {
      StepCausal(s, a);
    }
    InvariantHolds(Step, UNUSED, s => Causal(s), actions);
  }

  /** The only step by which each of these becomes true. */
  ghost predicate OnlyCause(s: Thread, a: Action, s': Thread) {
    && (!Sent(s, Offer) && Sent(s', Offer) ==> s.home.Some? && a == Resume(OfferReady(s.home.value)))
    && (!s.offered && s'.offered ==> a == Resume(OfferStored))
    && (!Sent(s, Request) && Sent(s', Request) ==> s.home.Some? && a == Resume(RequestReady(s.home.value)))
    && (!s.requested && s'.requested ==> a.Deliver? && a.m.kind == Request)
    && (!Sent(s, Credential) && Sent(s', Credential) ==>
          s.home.Some? && a.Resume? && a.task.IssueReady? && a.task.c == s.home.value)
    && (!s.credited && s'.credited ==> a.Deliver? && a.m.kind == Credential)
  }

  lemma ContinueOnlyCause(s: Thread, task: Task)
    requires s.home.Some? && !Continue(s, task).Throws?
    ensures OnlyCause(s, Resume(task), Continue(s, task).s)
  {
    match task
    case ProposalReady(c) =>
    case OfferReady(c) =>
    case OfferStored =>
    case RequestReady(c) =>
    case IssueReady(x, c) =>
    case _ =>
  }

  lemma ReceiveOnlyCause(s: Thread, m: Msg)
    requires !Receive(s, m).Throws?
    ensures OnlyCause(s, Deliver(m), Receive(s, m).s)
  {
    match m.kind
    case Proposal =>
    case Offer =>
    case Request =>
    case Credential =>
  }

  lemma StepOnlyCause(s: Thread, a: Action)
    requires Step(s, a).Some? && (s.home.None? ==> s == UNUSED)
    ensures OnlyCause(s, a, Step(s, a).value)
  {
    match a
    case SendProposal(c) =>
    case SendNewOffer(c) =>
    case SendOffer =>
    case SendRequest =>
    case Issue =>
    case Store =>
    case Deliver(m) => ReceiveOnlyCause(s, m);
    case Resume(task) =>
      ContinueOnlyCause(Without(s, task), task);
    case Fail(task) =>
  }

  lemma {:induction false} RunGrows(actions: seq<Action>, n: nat)
    requires n <= |actions| && After(Step, UNUSED, actions).Some?
    ensures After(Step, UNUSED, actions[..n]).Some?
    ensures Grew(After(Step, UNUSED, actions[..n]).value, After(Step, UNUSED, actions).value)
  {
    if n == |actions| {
      assert actions[..n] == actions;
    } else {
      var before := actions[..|actions| - 1];
      RunGrows(before, n);
      assert before[..n] == actions[..n];
      StepGrows(After(Step, UNUSED, before).value, actions[|actions| - 1]);
    }
  }

  /** What holds after `n` actions came about at an earlier one, from a causal state. */
  lemma EarlierCause(actions: seq<Action>, n: nat, p: Thread -> bool) returns (i: nat, s: Thread)
    requires n <= |actions| && After(Step, UNUSED, actions).Some? && !p(UNUSED)
    requires After(Step, UNUSED, actions[..n]).Some? && p(After(Step, UNUSED, actions[..n]).value)
    ensures i < n && After(Step, UNUSED, actions[..i]) == Some(s) && Causal(s) && !p(s)
    ensures Step(s, actions[i]).Some? && p(Step(s, actions[i]).value)
    ensures OnlyCause(s, actions[i], Step(s, actions[i]).value)
    ensures s.home.Some? ==> s.home == After(Step, UNUSED, actions).value.home
  {
    i := CameAbout(Step, UNUSED, actions[..n], p);
    assert actions[..n][..i] == actions[..i];
    s := After(Step, UNUSED, actions[..i]).value;
    RunsAreCausal(actions[..i]);
    StepOnlyCause(s, actions[i]);
    RunGrows(actions, i);
  }

  ghost function StateAt(actions: seq<Action>, n: nat): Thread
    requires n <= |actions| && After(Step, UNUSED, actions[..n]).Some?
  {
    After(Step, UNUSED, actions[..n]).value
  }

  /** The one step that sends an offer, request or credential, and what entitles its sender to it. */
  lemma SendingStep(s: Thread, a: Action, kind: Kind)
    requires Causal(s) && Step(s, a).Some? && OnlyCause(s, a, Step(s, a).value)
    requires kind != Proposal && !Sent(s, kind) && Sent(Step(s, a).value, kind)
    ensures s.home.Some? && a.Resume?
    ensures kind == Offer ==> a.task == OfferReady(s.home.value)
    ensures kind == Request ==> a.task == RequestReady(s.home.value) && s.offered
    ensures kind == Credential ==> a.task.IssueReady? && a.task.c == s.home.value && s.requested
  {
    match kind
    case Offer =>
    case Request => assert TaskOk(s, a.task);
    case Credential => assert TaskOk(s, a.task);
  }

  /** A message in flight was sent by one action, at which what entitled its sender to send it held. */
  lemma SentEarlier(actions: seq<Action>, n: nat, kind: Kind, c: Connection) returns (i: nat)
    requires n <= |actions| && After(Step, UNUSED, actions).Some? && After(Step, UNUSED, actions[..n]).Some?
    requires kind != Proposal && Sent(StateAt(actions, n), kind) && After(Step, UNUSED, actions).value.home == Some(c)
    ensures i < n && After(Step, UNUSED, actions[..i]).Some?
    ensures kind == Offer ==> actions[i] == Resume(OfferReady(c))
    ensures kind == Request ==> actions[i] == Resume(RequestReady(c)) && StateAt(actions, i).offered
    ensures kind == Credential ==> actions[i].Resume? && actions[i].task.IssueReady? && actions[i].task.c == c
    ensures kind == Credential ==> StateAt(actions, i).requested
  {
    var s;
    i, s := EarlierCause(actions, n, (s: Thread) => Sent(s, kind));
    SendingStep(s, actions[i], kind);
  }

  lemma StoredEarlier(actions: seq<Action>, n: nat) returns (i: nat)
    requires n <= |actions| && After(Step, UNUSED, actions).Some? && After(Step, UNUSED, actions[..n]).Some?
    requires StateAt(actions, n).offered
    ensures i < n && After(Step, UNUSED, actions[..i]).Some?
    ensures actions[i] == Resume(OfferStored) && Sent(StateAt(actions, i), Offer)
  {
    var s;
    i, s := EarlierCause(actions, n, (s: Thread) => s.offered);
    assert TaskOk(s, OfferStored);
  }

  /** A message processed by the framework was delivered, and had been sent. */
  lemma ProcessedEarlier(actions: seq<Action>, n: nat, kind: Kind, c: Connection) returns (i: nat)
    requires n <= |actions| && After(Step, UNUSED, actions).Some? && After(Step, UNUSED, actions[..n]).Some?
    requires (kind == Request && StateAt(actions, n).requested) || (kind == Credential && StateAt(actions, n).credited)
    requires After(Step, UNUSED, actions).value.home == Some(c)
    ensures i < n && After(Step, UNUSED, actions[..i]).Some?
    ensures actions[i] == Deliver(Msg(kind, c)) && Sent(StateAt(actions, i), kind)
  {
    var s;
    i, s := EarlierCause(actions, n, (s: Thread) => if kind == Request then s.requested else s.credited);
    assert actions[i].m in s.sent;
  }

  /**
   Whatever is delivered when: if some exchange of the holder is at credential-received, then in
   this order the issuer sent an offer, the holder stored it, the holder sent its request, the
   issuer processed it, and the issuer sent the credential, all on the thread's one connection.
   */
  lemma CredentialCausedInOrder(actions: seq<Action>)
    returns (offer: nat, stored: nat, request: nat, processed: nat, issue: nat, received: nat)
    requires After(Step, UNUSED, actions).Some?
    requires CredentialReceived in After(Step, UNUSED, actions).value.holder.states
    ensures offer < stored < request < processed < issue < received < |actions|
    ensures After(Step, UNUSED, actions).value.home.Some?
    ensures var c := After(Step, UNUSED, actions).value.home.value;
            && actions[offer] == Resume(OfferReady(c))
            && actions[stored] == Resume(OfferStored)
            && actions[request] == Resume(RequestReady(c))
            && actions[processed] == Deliver(Msg(Request, c))
            && actions[issue].Resume? && actions[issue].task.IssueReady? && actions[issue].task.c == c
            && actions[received] == Deliver(Msg(Credential, c))
  {
    RunsAreCausal(actions);
    assert actions[..|actions|] == actions;
    var end := After(Step, UNUSED, actions).value;
    var x :| 0 <= x < |end.holder.states| && end.holder.states[x] == CredentialReceived;
    assert HolderState(end, end.holder.states[x]);
    var c := end.home.value;
    received := ProcessedEarlier(actions, |actions|, Credential, c);
    issue := SentEarlier(actions, received, Credential, c);
    processed := ProcessedEarlier(actions, issue, Request, c);
    request := SentEarlier(actions, processed, Request, c);
    stored := StoredEarlier(actions, request);
    offer := SentEarlier(actions, stored, Offer, c);
  }

  /**
   If some exchange of the issuer is at request-received, the holder executed send-request on the
   thread, and before that stored an offer the issuer had sent.
   */
  lemma RequestCausedInOrder(actions: seq<Action>) returns (offer: nat, stored: nat, request: nat, processed: nat)
    requires After(Step, UNUSED, actions).Some?
    requires RequestReceived in After(Step, UNUSED, actions).value.issuer.states
    ensures offer < stored < request < processed < |actions|
    ensures After(Step, UNUSED, actions).value.home.Some?
    ensures var c := After(Step, UNUSED, actions).value.home.value;
            && actions[offer] == Resume(OfferReady(c))
            && actions[stored] == Resume(OfferStored)
            && actions[request] == Resume(RequestReady(c))
            && actions[processed] == Deliver(Msg(Request, c))
  {
    RunsAreCausal(actions);
    assert actions[..|actions|] == actions;
    var end := After(Step, UNUSED, actions).value;
    var x :| 0 <= x < |end.issuer.states| && end.issuer.states[x] == RequestReceived;
    assert IssuerState(end, end.issuer.states[x]);
    var c := end.home.value;
    processed := ProcessedEarlier(actions, |actions|, Request, c);
    request := SentEarlier(actions, processed, Request, c);
    stored := StoredEarlier(actions, request);
    offer := SentEarlier(actions, stored, Offer, c);
  }

  /**
   Any number of threads, interleaved in any way: both facts hold of each thread's own actions,
   whatever the others do.
   */
  lemma CausedOnItsOwnThread(actions: seq<(string, Action)>, t: string)
    requires After(StepOne(Step, UNUSED), map[], actions).Some?
    ensures var s, own := At(After(StepOne(Step, UNUSED), map[], actions).value, UNUSED, t), ActionsOf(actions, t);
            && (RequestReceived in s.issuer.states ==>
                  && s.home.Some? && Resume(RequestReady(s.home.value)) in own
                  && Deliver(Msg(Request, s.home.value)) in own)
            && (CredentialReceived in s.holder.states ==>
                  && s.home.Some? && Deliver(Msg(Credential, s.home.value)) in own
                  && exists x :: Resume(IssueReady(x, s.home.value)) in own)
  {
    Projection(Step, UNUSED, actions, t);
    var own := ActionsOf(actions, t);
    var s := After(Step, UNUSED, own).value;
    if RequestReceived in s.issuer.states {
      var offer, stored, request, processed := RequestCausedInOrder(own);
      assert own[request] in own && own[processed] in own;
    }
    if CredentialReceived in s.holder.states {
      var offer, stored, request, processed, issue, received := CredentialCausedInOrder(own);
      assert own[issue] == Resume(IssueReady(own[issue].task.x, s.home.value));
      assert own[issue] in own && own[received] in own;
    }
  }
}

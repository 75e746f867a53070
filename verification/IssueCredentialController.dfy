/**
 The issue-credential handlers between two awaits, on the cached exchange objects and pending
 subscriptions of a whole agent: each does to its own thread what the step of the protocol
 machine says, and nothing to the other threads. `x` is the exchange a handler looked up.
 */
module IssueCredentialController {
  import opened Options
  import opened Exchanges
  import opened IssueCredential

  /** The exchange object the waiting handler looked up. */
  ghost predicate Captured(hub: Hub<Kind, State>, t: string, task: Task, x: Option<Exchange<State>>)
    reads hub
  {
    task.Requesting? || task.Storing? || task.OfferReplying? || task.OfferMarked? || task.Issued? ==>
      x.Some? && hub.Known(x.value) && x.value.thread == t && x.value.index == task.x
  }

  method ContinueHolder(hub: Hub<Kind, State>, t: string, task: Task, x: Option<Exchange<State>>, ghost s: Thread)
    requires hub.Valid() && hub.View(t) == s.holder && Captured(hub, t, task, x) && !Continue(s, task).Throws?
    modifies hub, hub.repr
    ensures hub.Valid() && hub.View(t) == Continue(s, task).s.holder
    ensures forall u | u != t :: hub.View(u) == old(hub.View(u))
  {
    match task
    case ProposalRecorded(_) =>
      var exchange := hub.Create(t, ProposalSent);
      hub.Subscribe(Offer, exchange, OfferReceived);
    case OfferAdded(_) =>
      var _ := hub.Create(t, OfferReceived);
    case OfferUpdated => hub.Publish(Offer, t);
    case Requesting(_) =>
      hub.Assign(x.value, RequestSent);
      hub.Subscribe(Credential, x.value, CredentialReceived);
    case Storing(_) => hub.Assign(x.value, Done);
    case _ =>
  }

  method ContinueIssuer(hub: Hub<Kind, State>, t: string, task: Task, x: Option<Exchange<State>>, ghost s: Thread)
    requires hub.Valid() && hub.View(t) == s.issuer && Captured(hub, t, task, x) && !Continue(s, task).Throws?
    modifies hub, hub.repr
    ensures hub.Valid() && hub.View(t) == Continue(s, task).s.issuer
    ensures forall u | u != t :: hub.View(u) == old(hub.View(u))
  {
    match task
    case ProposalAdded(_) =>
      var _ := hub.Create(t, ProposalReceived);
    case ProposalStored => hub.Publish(Proposal, t);
    case OfferReplying(_) => hub.Assign(x.value, OfferSent);
    case OfferCreated(_) =>
      var _ := hub.Create(t, OfferSent);
    case OfferMarked(_, _) => hub.Subscribe(Request, x.value, RequestReceived);
    case Issued(_) => hub.Assign(x.value, CredentialIssued);
    case _ =>
  }

  method ReceiveHolder(hub: Hub<Kind, State>, t: string, m: Msg, ghost s: Thread)
    requires hub.Valid() && hub.View(t) == s.holder && !Receive(s, m).Throws?
    modifies hub, hub.repr
    ensures hub.Valid() && hub.View(t) == Receive(s, m).s.holder
    ensures forall u | u != t :: hub.View(u) == old(hub.View(u))
  {
    if m.kind == Credential {
      hub.Publish(Credential, t);
    }
  }

  method ReceiveIssuer(hub: Hub<Kind, State>, t: string, m: Msg, ghost s: Thread)
    requires hub.Valid() && hub.View(t) == s.issuer && !Receive(s, m).Throws?
    modifies hub, hub.repr
    ensures hub.Valid() && hub.View(t) == Receive(s, m).s.issuer
    ensures forall u | u != t :: hub.View(u) == old(hub.View(u))
  {
    if m.kind == Request {
      hub.Publish(Request, t);
    }
  }
}

/**
 The present-proof handlers between two awaits, on the cached exchange objects and pending
 subscriptions of a whole agent. `x` is the exchange a handler looked up.
 */
module PresentProofController {
  import opened Options
  import opened Exchanges
  import opened PresentProof

  ghost predicate Captured(hub: Hub<Kind, State>, t: string, task: Task, x: Option<Exchange<State>>)
    reads hub
  {
    task.Presenting? || task.Verifying? ==>
      x.Some? && hub.Known(x.value) && x.value.thread == t && x.value.index == task.x
  }

  method ContinueProver(hub: Hub<Kind, State>, t: string, task: Task, x: Option<Exchange<State>>, ghost s: Thread)
    requires hub.Valid() && hub.View(t) == s.prover && Captured(hub, t, task, x) && !Continue(s, task).Throws?
    modifies hub, hub.repr
    ensures hub.Valid() && hub.View(t) == Continue(s, task).s.prover
    ensures forall u | u != t :: hub.View(u) == old(hub.View(u))
  {
    match task
    case RequestProcessed =>
      var _ := hub.Create(t, RequestReceived);
    case Presenting(_) => hub.Assign(x.value, PresentationSent);
    case _ =>
  }

  method ContinueVerifier(hub: Hub<Kind, State>, t: string, task: Task, x: Option<Exchange<State>>, ghost s: Thread)
    requires hub.Valid() && hub.View(t) == s.verifier && Captured(hub, t, task, x) && !Continue(s, task).Throws?
    modifies hub, hub.repr
    ensures hub.Valid() && hub.View(t) == Continue(s, task).s.verifier
    ensures forall u | u != t :: hub.View(u) == old(hub.View(u))
  {
    match task
    case RequestCreated =>
      var exchange := hub.Create(t, RequestSent);
      hub.Subscribe(Presentation, exchange, PresentationReceived);
    case Verifying(_) => hub.Assign(x.value, Done);
    case _ =>
  }

  /** Handlers/PresentationAckHandler.cs: with nothing cached the handler throws, before it changes anything. */
  method ReceiveProver(hub: Hub<Kind, State>, t: string, kind: Kind, ghost s: Thread)
    requires hub.Valid() && hub.View(t) == s.prover
    modifies hub, hub.repr
    ensures hub.Valid() && hub.View(t) == Receive(s, kind).s.prover
    ensures forall u | u != t :: hub.View(u) == old(hub.View(u))
  {
    if kind == Ack && t in hub.cache {
      var exchange := hub.cache[t];
      assert hub.Known(exchange);
      if exchange.state == PresentationSent {
        hub.Assign(exchange, Done);
      }
    }
  }

  method ReceiveVerifier(hub: Hub<Kind, State>, t: string, kind: Kind, ghost s: Thread)
    requires hub.Valid() && hub.View(t) == s.verifier
    modifies hub, hub.repr
    ensures hub.Valid() && hub.View(t) == Receive(s, kind).s.verifier
    ensures forall u | u != t :: hub.View(u) == old(hub.View(u))
  {
    if kind == Presentation {
      hub.Publish(Presentation, t);
    }
  }
}

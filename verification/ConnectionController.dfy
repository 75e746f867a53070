/**
 The connection handlers between two awaits, on the cached connections and pending subscriptions
 of a whole agent, for the party `p`. `x` is the connection object a command looked up.
 */
module ConnectionController {
  import opened Options
  import opened Exchanges
  import opened Connection

  ghost predicate Captured(hub: Hub<Kind, State>, t: string, x: Option<Exchange<State>>)
    reads hub
  {
    x.Some? && hub.Known(x.value) && x.value.thread == t && x.value.index == 0
  }

  method CreateInvitation(hub: Hub<Kind, State>, t: string, ghost s: Pair)
    requires hub.Valid() && hub.View(t) == s.inviter && Step(s, Action.CreateInvitation).Some?
    requires s.inviter.states == []
    modifies hub, hub.repr
    ensures hub.Valid() && hub.View(t) == Step(s, Action.CreateInvitation).value.inviter
    ensures forall u | u != t :: hub.View(u) == old(hub.View(u))
  {
    var exchange := hub.Create(t, Invited);
    hub.Subscribe(Request, exchange, Requested);
  }

  method ReceiveInvitation(hub: Hub<Kind, State>, t: string, ghost s: Pair)
    requires hub.Valid() && hub.View(t) == s.invitee && Step(s, Action.ReceiveInvitation).Some?
    modifies hub, hub.repr
    ensures hub.Valid() && hub.View(t) == Step(s, Action.ReceiveInvitation).value.invitee
    ensures forall u | u != t :: hub.View(u) == old(hub.View(u))
  {
    var _ := hub.Create(t, Invited);
  }

  method ContinueCommand(hub: Hub<Kind, State>, t: string, p: Party, task: Task, x: Option<Exchange<State>>,
                         ghost s: Pair)
    requires hub.Valid() && hub.View(t) == Of(s, p) && Captured(hub, t, x)
    requires By(task.command) == p && Continue(s, task).Some?
    modifies hub, hub.repr
    ensures hub.Valid() && hub.View(t) == Of(Continue(s, task).value, p)
    ensures forall u | u != t :: hub.View(u) == old(hub.View(u))
  {
    match task
    case LookedUp(AcceptInvitation) => hub.Subscribe(Response, x.value, Responded);
    case HasSent(AcceptInvitation) => hub.Assign(x.value, Requested);
    case HasSent(AcceptRequest) => hub.Assign(x.value, Responded);
    case HasSent(SendPing(_)) => hub.Assign(x.value, Complete);
    case _ =>
  }

  /** Events of handshake messages; a ping goes through Middlewares/MessageMiddleware.cs. */
  method Receives(hub: Hub<Kind, State>, t: string, p: Party, m: Msg, ghost s: Pair)
    requires hub.Valid() && hub.View(t) == Of(s, p)
    requires |hub.View(t).states| <= 1 && hub.View(t).cached == if hub.View(t).states == [] then None else Some(0)
    modifies hub, hub.repr
    ensures hub.Valid() && hub.View(t) == Of(Receive(s, m).value, p)
    ensures forall u | u != t :: hub.View(u) == old(hub.View(u))
  {
    match m
    case Handshake(Request) =>
      if p == Inviter {
        hub.Publish(Request, t);
      }
    case Handshake(Response) =>
      if p == Invitee {
        hub.Publish(Response, t);
      }
    case Ping(to) =>
      if to == p && t in hub.cache {
        var exchange := hub.cache[t];
        assert hub.Known(exchange);
        if exchange.state == Responded {
          hub.Assign(exchange, Complete);
        }
      }
  }
}

/**
 Whether state updates get lost in issuance. Every handler subscribes before it sends, so a
 processed request or credential reaches the cached exchange, unless the exchange subscribed for it
 has been replaced: a message handler looks the thread up first and caches a new exchange after an
 await, without looking again. An offer reaches whatever exchange there is, if there is one.
 */
module IssueUpdates {
  import opened Options
  import opened Exchanges
  import opened Runs
  import opened IssueCredential

  /** The agent that is waiting for messages of this kind. */
  function Waiting(s: Thread, kind: Kind): Local<Kind, State> {
    if kind == Request then s.issuer else s.holder
  }

  /** The step makes and caches a new exchange for that agent. */
  predicate Makes(a: Action, kind: Kind) {
    && a.Resume?
    && if kind == Request then a.task.ProposalAdded? || a.task.OfferCreated?
       else a.task.ProposalRecorded? || a.task.OfferAdded?
  }

  /** The step subscribes exchange `x` for this kind. */
  predicate Subscribes(a: Action, kind: Kind, x: nat) {
    && a.Resume?
    && match a.task
       case OfferMarked(y, _) => kind == Request && y == x
       case Requesting(y) => kind == Credential && y == x
       case _ => false
  }

  /** The step processes a request or credential and publishes its event. */
  predicate Processes(a: Action, kind: Kind) {
    a.Deliver? && a.m.kind == kind
  }

  ghost predicate SubscribedIn(actions: seq<Action>, kind: Kind, x: nat) {
    exists j | 0 <= j < |actions| :: Subscribes(actions[j], kind, x)
  }

  /** In this run exchange `x` was subscribed for the kind, and later a message of the kind was processed. */
  ghost predicate Heard(actions: seq<Action>, kind: Kind, x: nat) {
    exists i | 0 <= i < |actions| :: Processes(actions[i], kind) && SubscribedIn(actions[..i], kind, x)
  }

  /** The step puts a new exchange in the place of `x`. */
  ghost predicate ReplacesAt(actions: seq<Action>, i: nat, kind: Kind, x: nat)
    requires i < |actions|
  {
    var before := After(Step, UNUSED, actions[..i]);
    before.Some? && Waiting(before.value, kind).cached == Some(x) && Makes(actions[i], kind)
  }

  ghost predicate ReplacedIn(actions: seq<Action>, kind: Kind, x: nat) {
    exists i | 0 <= i < |actions| :: ReplacesAt(actions, i, kind, x)
  }

  // ---------------------------------------------------------------------------
  // What one step does to the subscriptions of the cached exchange
  // ---------------------------------------------------------------------------

  lemma NewIsDeaf(l: Local<Kind, State>, state: State, kind: Kind)
    requires l.Valid()
    ensures !Listening(l.Create(state), kind, |l.states|)
  {
  }

  lemma SubscribeListens(l: Local<Kind, State>, k: Kind, y: nat, next: State, kind: Kind, x: nat)
    ensures Listening(l.Subscribe(k, y, next), kind, x) <==> Listening(l, kind, x) || (k == kind && y == x)
  {
    var l' := l.Subscribe(k, y, next);
    assert l'.subs[|l.subs|] == Sub(k, y, next);
    if Listening(l, kind, x) {
      var i :| 0 <= i < |l.subs| && l.subs[i].kind == kind && l.subs[i].target == x;
      assert l'.subs[i] == l.subs[i];
    }
  }

  lemma PublishListens(l: Local<Kind, State>, k: Kind, kind: Kind, x: nat)
    ensures Listening(l.Publish(k), kind, x) <==> Listening(l, kind, x) && k != kind
  {
    var pending := Pending(l.subs, k);
    if Listening(l, kind, x) && k != kind {
      var i :| 0 <= i < |l.subs| && l.subs[i].kind == kind && l.subs[i].target == x;
      assert l.subs[i] in pending;
      var j :| 0 <= j < |pending| && pending[j] == l.subs[i];
    }
    if Listening(l.Publish(k), kind, x) {
      var j :| 0 <= j < |pending| && pending[j].kind == kind && pending[j].target == x;
      assert pending[j] in l.subs;
    }
  }

  /** From `s` to `s'` by step `a`, as exchange `x` sees it. */
  ghost predicate Hears(s: Thread, a: Action, s': Thread, kind: Kind, x: nat) {
    var l, l' := Waiting(s, kind), Waiting(s', kind);
    if Makes(a, kind) then
      x == |l.states| && !Listening(l', kind, x) && kind !in s'.told
    else
      && l.cached == Some(x)
      && (Listening(l', kind, x) <==> Subscribes(a, kind, x) || (Listening(l, kind, x) && !Processes(a, kind)))
      && (kind in s'.told <==> kind in s.told || (Listening(l, kind, x) && Processes(a, kind)))
  }

  lemma ContinueHears(s: Thread, task: Task, kind: Kind, x: nat)
    requires s.issuer.Valid() && s.holder.Valid() && !Continue(s, task).Throws?
    requires kind in {Request, Credential} && Waiting(Continue(s, task).s, kind).cached == Some(x)
    ensures Hears(s, Resume(task), Continue(s, task).s, kind, x)
  {
    match task
    case ProposalRecorded(c) =>
      NewIsDeaf(s.holder, ProposalSent, kind);
      SubscribeListens(s.holder.Create(ProposalSent), Offer, |s.holder.states|, OfferReceived, kind, x);
    case ProposalAdded(c) => NewIsDeaf(s.issuer, ProposalReceived, kind);
    case ProposalStored => PublishListens(s.issuer, Proposal, kind, x);
    case OfferReplying(y) =>
    case OfferCreated(c) => NewIsDeaf(s.issuer, OfferSent, kind);
    case OfferMarked(y, c) => SubscribeListens(s.issuer, Request, y, RequestReceived, kind, x);
    case OfferAdded(c) => NewIsDeaf(s.holder, OfferReceived, kind);
    case OfferUpdated => PublishListens(s.holder, Offer, kind, x);
    case Requesting(y) =>
      SubscribeListens(s.holder.Assign(y, RequestSent), Credential, y, CredentialReceived, kind, x);
    case Issued(y) =>
    case Storing(y) =>
    case _ =>
  }

  lemma ReceiveHears(s: Thread, m: Msg, kind: Kind, x: nat)
    requires !Receive(s, m).Throws?
    requires kind in {Request, Credential} && Waiting(Receive(s, m).s, kind).cached == Some(x)
    ensures Hears(s, Deliver(m), Receive(s, m).s, kind, x)
  {
    match m.kind
    case Proposal =>
    case Offer =>
    case Request => PublishListens(s.issuer, Request, kind, x);
    case Credential => PublishListens(s.holder, Credential, kind, x);
  }

  lemma StepHears(s: Thread, a: Action, kind: Kind, x: nat)
    requires s.issuer.Valid() && s.holder.Valid() && Step(s, a).Some?
    requires kind in {Request, Credential} && Waiting(Step(s, a).value, kind).cached == Some(x)
    ensures Hears(s, a, Step(s, a).value, kind, x)
  {
    match a
    case SendProposal(c) =>
    case SendNewOffer(c) =>
    case SendOffer =>
    case SendRequest =>
    case Issue =>
    case Store =>
    case Deliver(m) => ReceiveHears(s, m, kind, x);
    case Resume(task) => ContinueHears(Without(s, task), task, kind, x);
    case Fail(task) =>
  }

  // ---------------------------------------------------------------------------
  // What a run has done to the cached exchange
  // ---------------------------------------------------------------------------

  /** The state before the last step of a run, which was a causal one. */
  lemma LastStep(actions: seq<Action>) returns (s: Thread)
    requires actions != [] && After(Step, UNUSED, actions).Some?
    ensures After(Step, UNUSED, actions[..|actions| - 1]) == Some(s) && Causal(s)
    ensures Step(s, actions[|actions| - 1]) == After(Step, UNUSED, actions)
  {
    s := After(Step, UNUSED, actions[..|actions| - 1]).value;
    RunsAreCausal(actions[..|actions| - 1]);
  }

  lemma SubscribedOneMore(actions: seq<Action>, kind: Kind, x: nat)
    requires actions != []
    ensures SubscribedIn(actions, kind, x)
       <==> SubscribedIn(actions[..|actions| - 1], kind, x) || Subscribes(actions[|actions| - 1], kind, x)
  {
    var before := actions[..|actions| - 1];
    if SubscribedIn(before, kind, x) {
      var j :| 0 <= j < |before| && Subscribes(before[j], kind, x);
      assert actions[j] == before[j];
    }
    if SubscribedIn(actions, kind, x) && !Subscribes(actions[|actions| - 1], kind, x) {
      var j :| 0 <= j < |actions| && Subscribes(actions[j], kind, x);
      assert actions[j] == before[j];
    }
  }

  lemma HeardOneMore(actions: seq<Action>, kind: Kind, x: nat)
    requires actions != []
    ensures Heard(actions, kind, x)
       <==> || Heard(actions[..|actions| - 1], kind, x)
            || (Processes(actions[|actions| - 1], kind) && SubscribedIn(actions[..|actions| - 1], kind, x))
  {
    var before := actions[..|actions| - 1];
    if Heard(before, kind, x) {
      var i :| 0 <= i < |before| && Processes(before[i], kind) && SubscribedIn(before[..i], kind, x);
      assert actions[i] == before[i] && actions[..i] == before[..i];
    }
    if Heard(actions, kind, x) {
      var i :| 0 <= i < |actions| && Processes(actions[i], kind) && SubscribedIn(actions[..i], kind, x);
      if i < |before| {
        assert actions[i] == before[i] && actions[..i] == before[..i];
      }
    }
  }

  /** Only exchanges that exist are ever subscribed. */
  lemma {:induction false} SubscribedExists(actions: seq<Action>, kind: Kind, x: nat)
    requires After(Step, UNUSED, actions).Some? && SubscribedIn(actions, kind, x)
    ensures x < |Waiting(After(Step, UNUSED, actions).value, kind).states|
  {
    if actions == [] {
    } else {
      var s := LastStep(actions);
      var a := actions[|actions| - 1];
      SubscribedOneMore(actions, kind, x);
      StepGrows(s, a);
      if Subscribes(a, kind, x) {
        assert TaskOk(s, a.task);
      } else {
        SubscribedExists(actions[..|actions| - 1], kind, x);
      }
    }
  }

  lemma HeardExists(actions: seq<Action>, kind: Kind, x: nat)
    requires After(Step, UNUSED, actions).Some? && Heard(actions, kind, x)
    ensures SubscribedIn(actions, kind, x) && x < |Waiting(After(Step, UNUSED, actions).value, kind).states|
  {
    var i :| 0 <= i < |actions| && Processes(actions[i], kind) && SubscribedIn(actions[..i], kind, x);
    var j :| 0 <= j < i && Subscribes(actions[..i][j], kind, x);
    assert Subscribes(actions[j], kind, x);
    SubscribedExists(actions, kind, x);
  }

  /** Whether the cached exchange has been told, and whether it is still waiting to be, is read off the run. */
  lemma {:induction false} ToldInRun(actions: seq<Action>, kind: Kind, x: nat)
    requires After(Step, UNUSED, actions).Some? && kind in {Request, Credential}
    requires Waiting(After(Step, UNUSED, actions).value, kind).cached == Some(x)
    ensures var s := After(Step, UNUSED, actions).value;
            && (kind in s.told <==> Heard(actions, kind, x))
            && (kind in s.told || Listening(Waiting(s, kind), kind, x) <==> SubscribedIn(actions, kind, x))
  {
    if actions == [] {
    } else {
      var s := LastStep(actions);
      var before, a := actions[..|actions| - 1], actions[|actions| - 1];
      StepHears(s, a, kind, x);
      SubscribedOneMore(actions, kind, x);
      HeardOneMore(actions, kind, x);
      if Makes(a, kind) {
        NewIsUnheard(before, kind, x);
      } else {
        ToldInRun(before, kind, x);
      }
    }
  }

  lemma NewIsUnheard(actions: seq<Action>, kind: Kind, x: nat)
    requires After(Step, UNUSED, actions).Some?
    requires x >= |Waiting(After(Step, UNUSED, actions).value, kind).states|
    ensures !SubscribedIn(actions, kind, x) && !Heard(actions, kind, x)
  {
    if SubscribedIn(actions, kind, x) {
      SubscribedExists(actions, kind, x);
    }
    if Heard(actions, kind, x) {
      HeardExists(actions, kind, x);
    }
  }

  // ---------------------------------------------------------------------------
  // Which exchange is cached
  // ---------------------------------------------------------------------------

  /** One agent's exchanges before and after a step that makes one or does not. */
  ghost predicate Caches(l: Local<Kind, State>, l': Local<Kind, State>, makes: bool) {
    if makes then l'.cached == Some(|l.states|) && |l'.states| == |l.states| + 1
    else l'.cached == l.cached && |l'.states| == |l.states|
  }

  lemma ContinueCaches(s: Thread, task: Task, kind: Kind)
    requires !Continue(s, task).Throws?
    ensures Caches(Waiting(s, kind), Waiting(Continue(s, task).s, kind), Makes(Resume(task), kind))
  {
    match task
    case ProposalRecorded(c) =>
    case ProposalAdded(c) =>
    case OfferCreated(c) =>
    case OfferAdded(c) =>
    case _ =>
  }

  lemma ReceiveCaches(s: Thread, m: Msg, kind: Kind)
    requires !Receive(s, m).Throws?
    ensures Caches(Waiting(s, kind), Waiting(Receive(s, m).s, kind), false)
  {
    match m.kind
    case Proposal =>
    case Offer =>
    case Request =>
    case Credential =>
  }

  lemma StepCaches(s: Thread, a: Action, kind: Kind)
    requires Step(s, a).Some?
    ensures Caches(Waiting(s, kind), Waiting(Step(s, a).value, kind), Makes(a, kind))
  {
    match a
    case SendProposal(c) =>
    case SendNewOffer(c) =>
    case SendOffer =>
    case SendRequest =>
    case Issue =>
    case Store =>
    case Deliver(m) => ReceiveCaches(s, m, kind);
    case Resume(task) => ContinueCaches(Without(s, task), task, kind);
    case Fail(task) =>
  }

  /** The cached exchange is the newest one. */
  ghost predicate LatestCached(l: Local<Kind, State>) {
    l.cached == if l.states == [] then None else Some(|l.states| - 1)
  }

  lemma StaysLatest(l: Local<Kind, State>, l': Local<Kind, State>, makes: bool)
    requires LatestCached(l) && Caches(l, l', makes)
    ensures LatestCached(l')
  {
  }

  lemma {:induction false} RunCachesLatest(actions: seq<Action>, kind: Kind)
    requires After(Step, UNUSED, actions).Some?
    ensures LatestCached(Waiting(After(Step, UNUSED, actions).value, kind))
  {
    if actions == [] {
    } else {
      var s := LastStep(actions);
      var a := actions[|actions| - 1];
      RunCachesLatest(actions[..|actions| - 1], kind);
      StepCaches(s, a, kind);
      StaysLatest(Waiting(s, kind), Waiting(After(Step, UNUSED, actions).value, kind), Makes(a, kind));
    }
  }

  lemma ReplacedOneMore(actions: seq<Action>, kind: Kind, x: nat)
    requires actions != []
    ensures ReplacedIn(actions, kind, x)
       <==> ReplacedIn(actions[..|actions| - 1], kind, x) || ReplacesAt(actions, |actions| - 1, kind, x)
  {
    var before := actions[..|actions| - 1];
    if ReplacedIn(before, kind, x) {
      var i :| 0 <= i < |before| && ReplacesAt(before, i, kind, x);
      assert actions[..i] == before[..i];
      assert ReplacesAt(actions, i, kind, x);
    }
    if ReplacedIn(actions, kind, x) {
      var i :| 0 <= i < |actions| && ReplacesAt(actions, i, kind, x);
      if i < |before| {
        assert actions[..i] == before[..i];
        assert ReplacesAt(before, i, kind, x);
      }
    }
  }

  /** Only exchanges that exist are ever replaced. */
  lemma ReplacedExists(actions: seq<Action>, kind: Kind, x: nat)
    requires After(Step, UNUSED, actions).Some? && ReplacedIn(actions, kind, x)
    ensures x < |Waiting(After(Step, UNUSED, actions).value, kind).states|
  {
    var i :| 0 <= i < |actions| && ReplacesAt(actions, i, kind, x);
    RunsAreCausal(actions[..i]);
    RunGrows(actions, i);
  }

  lemma CachedOneMore(l: Local<Kind, State>, l': Local<Kind, State>, makes: bool, x: nat, before: bool, now: bool)
    requires l.Valid() && Caches(l, l', makes) && x < |l'.states|
    requires if x < |l.states| then l.cached == Some(x) <==> !before else !before
    requires now <==> l.cached == Some(x) && makes
    ensures l'.cached == Some(x) <==> !before && !now
  {
  }

  /** An exchange stays cached until a step replaces it, and never comes back. */
  lemma {:induction false} CachedUntilReplaced(actions: seq<Action>, kind: Kind, x: nat)
    requires After(Step, UNUSED, actions).Some?
    requires x < |Waiting(After(Step, UNUSED, actions).value, kind).states|
    ensures Waiting(After(Step, UNUSED, actions).value, kind).cached == Some(x) <==> !ReplacedIn(actions, kind, x)
  {
    if actions == [] {
    } else {
      var s := LastStep(actions);
      var before, a := actions[..|actions| - 1], actions[|actions| - 1];
      StepCaches(s, a, kind);
      ReplacedOneMore(actions, kind, x);
      if x < |Waiting(s, kind).states| {
        CachedUntilReplaced(before, kind, x);
      } else if ReplacedIn(before, kind, x) {
        ReplacedExists(before, kind, x);
      }
      CachedOneMore(Waiting(s, kind), Waiting(After(Step, UNUSED, actions).value, kind), Makes(a, kind), x,
                    ReplacedIn(before, kind, x), ReplacesAt(actions, |actions| - 1, kind, x));
    }
  }

  ghost predicate NeverReplaces(actions: seq<Action>) {
    forall kind: Kind, x: nat :: !ReplacedIn(actions, kind, x)
  }

  ghost predicate AtMostOneEach(s: Thread) {
    |s.holder.states| <= 1 && |s.issuer.states| <= 1
  }

  lemma TwoIfNotLatest(l: Local<Kind, State>, x: nat)
    requires LatestCached(l) && x < |l.states| && l.cached != Some(x)
    ensures |l.states| > 1
  {
  }

  lemma ReplacedMakesTwo(actions: seq<Action>, kind: Kind, x: nat)
    requires After(Step, UNUSED, actions).Some? && ReplacedIn(actions, kind, x)
    ensures |Waiting(After(Step, UNUSED, actions).value, kind).states| > 1
  {
    RunCachesLatest(actions, kind);
    ReplacedExists(actions, kind, x);
    CachedUntilReplaced(actions, kind, x);
    TwoIfNotLatest(Waiting(After(Step, UNUSED, actions).value, kind), x);
  }

  lemma TwoMakeReplaced(actions: seq<Action>, kind: Kind)
    requires After(Step, UNUSED, actions).Some? && |Waiting(After(Step, UNUSED, actions).value, kind).states| > 1
    ensures ReplacedIn(actions, kind, 0)
  {
    RunCachesLatest(actions, kind);
    CachedUntilReplaced(actions, kind, 0);
  }

  /** A run leaves each agent with at most one exchange if and only if none of its steps replaces one. */
  lemma SingleIffNeverReplaced(actions: seq<Action>)
    requires After(Step, UNUSED, actions).Some?
    ensures AtMostOneEach(After(Step, UNUSED, actions).value) <==> NeverReplaces(actions)
  {
    var s := After(Step, UNUSED, actions).value;
    forall kind: Kind, x: nat | ReplacedIn(actions, kind, x) ensures !AtMostOneEach(s) {
      ReplacedMakesTwo(actions, kind, x);
    }
    if !AtMostOneEach(s) {
      TwoMakeReplaced(actions, if |s.issuer.states| > 1 then Request else Credential);
    }
  }

  // ---------------------------------------------------------------------------
  // Before a request or credential is processed, its receiver has subscribed
  // ---------------------------------------------------------------------------

  /** The message has been sent, or is about to be. */
  ghost predicate Underway(s: Thread, kind: Kind) {
    if kind == Request then Sent(s, Offer) || exists c :: OfferReady(c) in s.tasks
    else Sent(s, Request) || exists c :: RequestReady(c) in s.tasks
  }

  lemma StepUnderway(s: Thread, a: Action, kind: Kind)
    requires Causal(s) && Step(s, a).Some? && kind in {Request, Credential}
    requires Underway(Step(s, a).value, kind) && !Underway(s, kind)
    ensures exists x: nat :: Subscribes(a, kind, x)
  {
    var s' := Step(s, a).value;
    StepOnlyCause(s, a);
    if kind == Request {
      assert !Sent(s', Offer);
      var c :| OfferReady(c) in s'.tasks;
      assert OfferReady(c) !in s.tasks;
      NewTask(s, a, OfferReady(c));
      assert Subscribes(a, kind, a.task.x);
    } else {
      assert !Sent(s', Request);
      var c :| RequestReady(c) in s'.tasks;
      assert RequestReady(c) !in s.tasks;
      NewTask(s, a, RequestReady(c));
      assert Subscribes(a, kind, a.task.x);
    }
  }

  predicate MakesHolder(task: Task) {
    task.OfferUnknown? || task.OfferAdded?
  }

  /** What the awaits of one handler follow on. */
  ghost predicate Follows(task: Task, next: Task) {
    && !next.ProposalRecorded?
    && (next.OfferReady? ==> task.OfferMarked?)
    && (next.RequestReady? ==> task.Requesting?)
    && (MakesHolder(next) ==> MakesHolder(task))
  }

  lemma ContinueFollows(s: Thread, task: Task)
    requires !Continue(s, task).Throws?
    ensures Continue(s, task).s.tasks == s.tasks
    ensures Continue(s, task).Awaits? ==> Follows(task, Continue(s, task).task)
  {
  }

  /** Which step can bring a handler to such an await. */
  lemma NewTask(s: Thread, a: Action, next: Task)
    requires Step(s, a).Some? && next in Step(s, a).value.tasks && next !in s.tasks
    ensures if a.Resume? then Follows(a.task, next) else !next.OfferReady? && !next.RequestReady?
    ensures next.ProposalRecorded? ==> a == SendProposal(next.c)
    ensures MakesHolder(next) && !a.Resume? ==> a.Deliver? && s.holderRecord != Some(a.m.connection)
  {
    match a
    case Deliver(m) => NewReceived(s, m, next);
    case Resume(task) => NewResumed(s, task, next);
    case Fail(task) => assert false;
    case _ => NewCommanded(s, a, next);
  }

  lemma NewCommanded(s: Thread, a: Action, next: Task)
    requires !a.Deliver? && !a.Resume? && !a.Fail?
    requires Step(s, a).Some? && next in Step(s, a).value.tasks && next !in s.tasks
    ensures !next.OfferReady? && !next.RequestReady? && !MakesHolder(next)
    ensures next.ProposalRecorded? ==> a == SendProposal(next.c)
  {
    if a.SendProposal? || a.SendNewOffer? {
      assert s == UNUSED;
    } else {
      assert next.OfferReplying? || next.Requesting? || next.Issuing? || next.Storing?;
    }
  }

  lemma NewResumed(s: Thread, task: Task, next: Task)
    requires !Continue(Without(s, task), task).Throws? && next !in s.tasks
    requires next in Schedule(Continue(Without(s, task), task)).value.tasks
    ensures Follows(task, next)
  {
    ContinueFollows(Without(s, task), task);
    NewScheduled(Without(s, task), Continue(Without(s, task), task), next);
  }

  lemma NewScheduled(s: Thread, o: Outcome, next: Task)
    requires !o.Throws? && o.s.tasks == s.tasks && next in Schedule(o).value.tasks && next !in s.tasks
    ensures o.Awaits? && o.task == next
  {
  }

  lemma NewReceived(s: Thread, m: Msg, next: Task)
    requires !Receive(s, m).Throws? && next in Schedule(Receive(s, m)).value.tasks && next !in s.tasks
    ensures !next.OfferReady? && !next.RequestReady? && !next.ProposalRecorded?
    ensures MakesHolder(next) ==> s.holderRecord != Some(m.connection)
  {
    NewScheduled(s, Receive(s, m), next);
  }

  lemma {:induction false} SubscribedFirst(actions: seq<Action>, kind: Kind) returns (x: nat)
    requires After(Step, UNUSED, actions).Some? && kind in {Request, Credential}
    requires Underway(After(Step, UNUSED, actions).value, kind)
    ensures SubscribedIn(actions, kind, x)
  {
    var s := LastStep(actions);
    var a := actions[|actions| - 1];
    if Underway(s, kind) {
      x := SubscribedFirst(actions[..|actions| - 1], kind);
    } else {
      StepUnderway(s, a, kind);
      x :| Subscribes(a, kind, x);
    }
    SubscribedOneMore(actions, kind, x);
  }

  /** The event of this kind has been published. */
  ghost predicate Processed(s: Thread, kind: Kind) {
    if kind == Request then s.requested else s.credited
  }

  lemma {:induction false} ProcessedIsHeard(actions: seq<Action>, kind: Kind) returns (x: nat)
    requires After(Step, UNUSED, actions).Some? && kind in {Request, Credential}
    requires Processed(After(Step, UNUSED, actions).value, kind)
    ensures Heard(actions, kind, x)
  {
    var s := LastStep(actions);
    var before, a := actions[..|actions| - 1], actions[|actions| - 1];
    if Processed(s, kind) {
      x := ProcessedIsHeard(before, kind);
    } else {
      StepOnlyCause(s, a);
      assert Sent(s, kind);
      x := SubscribedFirst(before, kind);
    }
    HeardOneMore(actions, kind, x);
  }

  // ---------------------------------------------------------------------------
  // Offers
  // ---------------------------------------------------------------------------

  /** The holder's proposal is all that has happened. */
  ghost function Start(c: Connection): Thread {
    Then(UNUSED.(home := Some(c), holderRecord := Some(c)), ProposalRecorded(c))
  }

  ghost predicate Started(s: Thread) {
    forall c | ProposalRecorded(c) in s.tasks :: s == Start(c)
  }

  lemma StepFromStart(c: Connection, d: Connection, a: Action)
    requires Step(Start(c), a).Some?
    ensures ProposalRecorded(d) !in Step(Start(c), a).value.tasks
  {
    assert ProposalRecorded(d) !in Without(Start(c), ProposalRecorded(c)).tasks;
    assert a == Resume(ProposalRecorded(c)) || a == Fail(ProposalRecorded(c));
  }

  lemma StepStarted(s: Thread, a: Action)
    requires Started(s) && Step(s, a).Some?
    ensures Started(Step(s, a).value)
  {
    forall c | ProposalRecorded(c) in Step(s, a).value.tasks ensures Step(s, a).value == Start(c) {
      if ProposalRecorded(c) in s.tasks {
        StepFromStart(c, c, a);
        assert false;
      } else {
        NewTask(s, a, ProposalRecorded(c));
      }
    }
  }

  /** The holder has proposed, and its only exchange is waiting for the offer. */
  ghost predicate Proposed(s: Thread) {
    && s.holder.cached == Some(0) && |s.holder.states| == 1
    && Sub(Offer, 0, OfferReceived) in s.holder.subs
    && !s.published && s.holderRecord.Some?
    && forall task | task in s.tasks :: !MakesHolder(task)
  }

  /** The cached exchange knows of the offer or is waiting for it, and nothing else is. */
  ghost predicate OfferOk(s: Thread) {
    && (Offer in s.told ==> s.holder.cached.Some? && forall sub | sub in s.holder.subs :: sub.kind != Offer)
    && (Offer !in s.told && s.holder.cached.Some? ==> Proposed(s))
  }

  lemma SubscribedExchangeExists(l: Local<Kind, State>)
    requires l.Valid() && l.subs != []
    ensures l.states != []
  {
    assert l.subs[0].target < |l.states|;
  }

  lemma OfferUpdatedOk(s: Thread)
    requires OfferOk(s)
    ensures var s' := ContinueAsHolder(s, OfferUpdated).s;
            && OfferOk(s') && (Offer in s'.told <==> s.holder.cached.Some?)
  {
    if Offer !in s.told && s.holder.cached.Some? {
      var i :| 0 <= i < |s.holder.subs| && s.holder.subs[i] == Sub(Offer, 0, OfferReceived);
      assert Listening(s.holder, Offer, 0);
    }
  }

  lemma SubscribedOfferOk(s: Thread, holder: Local<Kind, State>)
    requires OfferOk(s) && holder.cached == s.holder.cached && |holder.states| == |s.holder.states|
    requires forall sub: Sub<Kind, State> | sub.kind == Offer :: sub in holder.subs <==> sub in s.holder.subs
    ensures OfferOk(s.(holder := holder))
  {
  }

  lemma RequestingOfferOk(s: Thread, x: nat)
    requires OfferOk(s)
    ensures OfferOk(s.(holder := s.holder.Assign(x, RequestSent).Subscribe(Credential, x, CredentialReceived)))
  {
    SubscribedOfferOk(s, s.holder.Assign(x, RequestSent).Subscribe(Credential, x, CredentialReceived));
  }

  lemma OfferStaysOk(s: Thread, s': Thread)
    requires OfferOk(s) && s'.holder == s.holder && s'.tasks == s.tasks && s'.published == s.published
    requires (Offer in s'.told <==> Offer in s.told) && (s.holderRecord.Some? ==> s'.holderRecord.Some?)
    ensures OfferOk(s')
  {
  }

  lemma ProposingOfferOk(s: Thread, c: Connection)
    requires s.holder == Empty() && s.holderRecord.Some? && !s.published && s.tasks == multiset{}
    ensures OfferOk(ContinueAsHolder(s, ProposalRecorded(c)).s)
  {
    var holder := s.holder.Create(ProposalSent).Subscribe(Offer, 0, OfferReceived);
    assert holder.subs[0] == Sub(Offer, 0, OfferReceived);
  }

  lemma OfferAddedOk(s: Thread, c: Connection)
    requires s.holder.Valid() && LatestCached(s.holder) && OfferOk(s)
    requires s.holder.cached.Some? ==> Offer in s.told
    ensures OfferOk(ContinueAsHolder(s, OfferAdded(c)).s)
  {
    if s.holder.subs != [] {
      SubscribedExchangeExists(s.holder);
    }
  }

  lemma IssuerLeavesOffer(s: Thread, task: Task)
    requires !OfHolder(task) && !ContinueAsIssuer(s, task).Throws?
    ensures var s' := ContinueAsIssuer(s, task).s;
            && (Offer in s'.told <==> Offer in s.told)
            && s'.published == s.published && s'.holderRecord == s.holderRecord && s'.tasks == s.tasks
  {
  }

  lemma ContinueOfferOk(s: Thread, task: Task)
    requires s.holder.Valid() && LatestCached(s.holder) && OfferOk(s) && !Continue(s, task).Throws?
    requires task.ProposalRecorded? ==>
               s.holder == Empty() && s.holderRecord.Some? && !s.published && s.tasks == multiset{}
    requires Offer !in s.told && s.holder.cached.Some? ==> !MakesHolder(task)
    ensures OfferOk(Continue(s, task).s)
  {
    if OfHolder(task) {
      HolderOfferOk(s, task);
    } else {
      IssuerGrows(s, task);
      IssuerLeavesOffer(s, task);
      OfferStaysOk(s, ContinueAsIssuer(s, task).s);
    }
  }

  lemma HolderOfferOk(s: Thread, task: Task)
    requires s.holder.Valid() && LatestCached(s.holder) && OfferOk(s)
    requires OfHolder(task) && !ContinueAsHolder(s, task).Throws?
    requires task.ProposalRecorded? ==>
               s.holder == Empty() && s.holderRecord.Some? && !s.published && s.tasks == multiset{}
    requires Offer !in s.told && s.holder.cached.Some? ==> !MakesHolder(task)
    ensures OfferOk(ContinueAsHolder(s, task).s)
  {
    var s' := ContinueAsHolder(s, task).s;
    match task
    case ProposalRecorded(c) => ProposingOfferOk(s, c);
    case OfferAdded(c) => OfferAddedOk(s, c);
    case OfferUpdated => OfferUpdatedOk(s);
    case Requesting(x) => RequestingOfferOk(s, x);
    case Storing(x) => SubscribedOfferOk(s, s.holder.Assign(x, Done));
    case _ => OfferStaysOk(s, s');
  }

  lemma ThenOfferOk(s: Thread, task: Task)
    requires OfferOk(s) && (Offer !in s.told && s.holder.cached.Some? ==> !MakesHolder(task))
    ensures OfferOk(Then(s, task))
  {
  }

  lemma ResumeOfferOk(s: Thread, task: Task)
    requires s.holder.Valid() && Started(s) && LatestCached(s.holder) && OfferOk(s) && Step(s, Resume(task)).Some?
    ensures OfferOk(Step(s, Resume(task)).value)
  {
    var rest := Without(s, task);
    var o := Continue(rest, task);
    assert Offer !in s.told && s.holder.cached.Some? ==> !MakesHolder(task);
    ContinueOfferOk(rest, task);
    if o.Awaits? {
      ContinueFollows(rest, task);
      ThenOfferOk(o.s, o.task);
    }
  }

  lemma ReceiveOfferOk(s: Thread, m: Msg)
    requires Causal(s) && OfferOk(s) && m in s.sent && !Receive(s, m).Throws?
    ensures OfferOk(Schedule(Receive(s, m)).value)
  {
    match m.kind
    case Proposal => ThenOfferOk(s, Receive(s, m).task);
    case Offer => ThenOfferOk(s, Receive(s, m).task);
    case Request =>
    case Credential => SubscribedOfferOk(s, s.holder.Publish(Credential));
  }

  lemma OfferStaysOkWithFewer(s: Thread, s': Thread)
    requires OfferOk(s) && s' == s.(tasks := s'.tasks) && s'.tasks <= s.tasks
    ensures OfferOk(s')
  {
  }

  lemma StepOfferOk(s: Thread, a: Action)
    requires Causal(s) && Started(s) && LatestCached(s.holder) && OfferOk(s) && Step(s, a).Some?
    ensures OfferOk(Step(s, a).value)
  {
    match a
    case SendProposal(c) =>
    case SendNewOffer(c) =>
    case SendOffer => ThenOfferOk(s, OfferReplying(s.issuer.cached.value));
    case SendRequest => ThenOfferOk(s, Requesting(s.holder.cached.value));
    case Issue => ThenOfferOk(s, Issuing(s.issuer.cached.value));
    case Store => ThenOfferOk(s, Storing(s.holder.cached.value));
    case Deliver(m) => ReceiveOfferOk(s, m);
    case Resume(task) => ResumeOfferOk(s, task);
    case Fail(task) => OfferStaysOkWithFewer(s, Without(s, task));
  }

  lemma {:induction false} RunOfferOk(actions: seq<Action>)
    requires After(Step, UNUSED, actions).Some?
    ensures Started(After(Step, UNUSED, actions).value) && OfferOk(After(Step, UNUSED, actions).value)
  {
    if actions == [] {
    } else {
      var s := LastStep(actions);
      RunOfferOk(actions[..|actions| - 1]);
      RunCachesLatest(actions[..|actions| - 1], Offer);
      StepStarted(s, actions[|actions| - 1]);
      StepOfferOk(s, actions[|actions| - 1]);
    }
  }

  // ---------------------------------------------------------------------------
  // Exactly which updates are lost, over all runs
  // ---------------------------------------------------------------------------

  /**
   The cached exchange has missed a processed request or credential exactly when every exchange that
   was subscribed for it beforehand has been replaced; it has missed a published offer exactly
   when there is no cached exchange at all.
   */
  lemma LostIff(actions: seq<Action>)
    requires After(Step, UNUSED, actions).Some?
    ensures var s := After(Step, UNUSED, actions).value;
            && (s.published ==> (Offer !in s.told <==> s.holder.cached.None?))
            && (s.requested ==>
                  && (exists x: nat :: Heard(actions, Request, x))
                  && (Request !in s.told <==>
                        forall x: nat | Heard(actions, Request, x) :: ReplacedIn(actions, Request, x)))
            && (s.credited ==>
                  && (exists x: nat :: Heard(actions, Credential, x))
                  && (Credential !in s.told <==>
                        forall x: nat | Heard(actions, Credential, x) :: ReplacedIn(actions, Credential, x)))
  {
    var s := After(Step, UNUSED, actions).value;
    RunOfferOk(actions);
    if s.requested {
      ProcessedLostIff(actions, Request);
    }
    if s.credited {
      ProcessedLostIff(actions, Credential);
    }
  }

  lemma HeardIsCached(actions: seq<Action>, kind: Kind, x: nat)
    requires After(Step, UNUSED, actions).Some? && Heard(actions, kind, x)
    ensures Waiting(After(Step, UNUSED, actions).value, kind).cached.Some?
    ensures Waiting(After(Step, UNUSED, actions).value, kind).cached == Some(x) <==> !ReplacedIn(actions, kind, x)
  {
    HeardExists(actions, kind, x);
    RunCachesLatest(actions, kind);
    CachedUntilReplaced(actions, kind, x);
  }

  lemma ProcessedLostIff(actions: seq<Action>, kind: Kind)
    requires After(Step, UNUSED, actions).Some? && kind in {Request, Credential}
    requires Processed(After(Step, UNUSED, actions).value, kind)
    ensures exists x: nat :: Heard(actions, kind, x)
    ensures kind !in After(Step, UNUSED, actions).value.told
       <==> forall x: nat | Heard(actions, kind, x) :: ReplacedIn(actions, kind, x)
  {
    var s := After(Step, UNUSED, actions).value;
    var cached, told := Waiting(s, kind).cached, s.told;
    var heard := ProcessedIsHeard(actions, kind);
    assert cached.Some? by {
      HeardIsCached(actions, kind, heard);
    }
    assert kind in told <==> Heard(actions, kind, cached.value) by {
      ToldInRun(actions, kind, cached.value);
    }
    forall x: nat | Heard(actions, kind, x) ensures cached == Some(x) <==> !ReplacedIn(actions, kind, x) {
      HeardIsCached(actions, kind, x);
    }
  }

  /**
   No lost update: in a run in which no exchange is replaced, every processed request and credential
   has reached the exchange that is cached, and so has a published offer if an exchange is cached.
   */
  lemma NoLostUpdate(actions: seq<Action>)
    requires After(Step, UNUSED, actions).Some? && NeverReplaces(actions)
    ensures var s := After(Step, UNUSED, actions).value;
            && (s.published ==> (Offer in s.told <==> s.holder.cached.Some?))
            && (s.requested ==> Request in s.told)
            && (s.credited ==> Credential in s.told)
  {
    LostIff(actions);
  }

  // ---------------------------------------------------------------------------
  // Being told is a change of state
  // ---------------------------------------------------------------------------

  /**
   Whatever the holder has done meanwhile, publishing an offer puts its exchange at offer-received
   the first time; an offer that made the exchange itself, or comes again, or finds none, changes
   nothing.
   */
  lemma OfferTakesEffectOnce(actions: seq<Action>)
    requires After(Step, UNUSED, actions).Some?
    requires Step(After(Step, UNUSED, actions).value, Resume(OfferUpdated)).Some?
    ensures var s := After(Step, UNUSED, actions).value;
            var s' := Step(s, Resume(OfferUpdated)).value;
            && (Offer in s'.told <==> s.holder.cached.Some?)
            && s'.holder.states
               == if Offer in s.told || s.holder.cached.None? then s.holder.states else [OfferReceived]
  {
    RunsAreCausal(actions);
    RunOfferOk(actions);
    RunCachesLatest(actions, Offer);
    OfferMoves(After(Step, UNUSED, actions).value);
  }

  lemma OfferMoves(s: Thread)
    requires HolderOk(s) && OfferOk(s) && LatestCached(s.holder)
    ensures Offer in Told(s.told, s.holder, Offer) <==> s.holder.cached.Some?
    ensures s.holder.Publish(Offer).states
         == if Offer in s.told || s.holder.cached.None? then s.holder.states else [OfferReceived]
  {
    if Offer in s.told {
      FireNothing(s.holder.states, s.holder.subs, Offer);
    } else if s.holder.cached.Some? {
      PublishMoves(s.holder, Offer, OfferReceived);
      var i :| 0 <= i < |s.holder.subs| && s.holder.subs[i] == Sub(Offer, 0, OfferReceived);
      assert Listening(s.holder, Offer, 0);
    }
  }

  function Reached(kind: Kind): State {
    if kind == Request then RequestReceived else CredentialReceived
  }

  /**
   Processing a request or credential that the cached exchange has not been told of yet moves it to
   request-received or credential-received, whatever its state, exactly when it has been subscribed.
   */
  lemma UpdateTakesEffect(actions: seq<Action>, m: Msg, x: nat)
    requires After(Step, UNUSED, actions).Some? && m.kind in {Request, Credential}
    requires Step(After(Step, UNUSED, actions).value, Deliver(m)).Some?
    requires Waiting(After(Step, UNUSED, actions).value, m.kind).cached == Some(x)
    requires m.kind !in After(Step, UNUSED, actions).value.told
    ensures var l := Waiting(After(Step, UNUSED, actions).value, m.kind);
            var s' := Step(After(Step, UNUSED, actions).value, Deliver(m)).value;
            && (m.kind in s'.told <==> SubscribedIn(actions, m.kind, x))
            && |Waiting(s', m.kind).states| == |l.states| > x
            && Waiting(s', m.kind).states[x]
               == if SubscribedIn(actions, m.kind, x) then Reached(m.kind) else l.states[x]
  {
    var s := After(Step, UNUSED, actions).value;
    RunsAreCausal(actions);
    ToldInRun(actions, m.kind, x);
    PublishMoves(Waiting(s, m.kind), m.kind, Reached(m.kind));
  }

  // ---------------------------------------------------------------------------
  // What goes wrong otherwise
  // ---------------------------------------------------------------------------

  lemma Go(reach: Thread -> bool, s: Thread, task: Task) returns (s': Thread)
    requires Closed(Step, UNUSED, reach) && reach(s) && task in s.tasks && !Continue(Without(s, task), task).Throws?
    ensures s' == Schedule(Continue(Without(s, task), task)).value && reach(s')
  {
    s' := Do(Step, UNUSED, reach, s, Resume(task));
  }

  /** An unsolicited offer is on its way. */
  ghost function Offered(c: Connection): Thread {
    UNUSED.(home := Some(c), issuerRecord := Some(c), sent := {Msg(Offer, c)},
            issuer := Local([OfferSent], Some(0), [Sub(Request, 0, RequestReceived)]))
  }

  /** Two deliveries of it have looked the thread up in vain, and the first has made its exchange. */
  ghost function FirstMade(c: Connection): Thread {
    Offered(c).(holderRecord := Some(c), told := {Offer}, holder := Local([OfferReceived], Some(0), []),
                tasks := multiset{OfferUnknown(c), OfferStored})
  }

  /** The holder has requested on it while the second delivery is about to make another exchange. */
  ghost function Requested(c: Connection): Thread {
    FirstMade(c).(offered := true,
                  holder := Local([RequestSent], Some(0), [Sub(Credential, 0, CredentialReceived)]),
                  tasks := multiset{OfferAdded(c), OfferUpdated, RequestReady(c)})
  }

  /** A pending subscription of the cached exchange is told. */
  lemma PublishTells(l: Local<Kind, State>, told: set<Kind>, kind: Kind, next: State)
    requires l.cached == Some(0) && Sub(kind, 0, next) in l.subs
    ensures kind in Told(told, l, kind)
  {
    var i :| 0 <= i < |l.subs| && l.subs[i] == Sub(kind, 0, next);
    assert Listening(l, kind, 0);
  }

  lemma ReachOffered(reach: Thread -> bool, c: Connection)
    requires Closed(Step, UNUSED, reach)
    ensures reach(Offered(c))
  {
    var s := Do(Step, UNUSED, reach, UNUSED, SendNewOffer(c));
    s := Go(reach, s, OfferCreated(c));
    s := Go(reach, s, OfferMarked(0, c));
    s := Go(reach, s, OfferReady(c));
    assert s == Offered(c);
  }

  lemma ReachFirstMade(reach: Thread -> bool, c: Connection)
    requires Closed(Step, UNUSED, reach)
    ensures reach(FirstMade(c))
  {
    ReachOffered(reach, c);
    var s := Do(Step, UNUSED, reach, Offered(c), Deliver(Msg(Offer, c)));
    s := Do(Step, UNUSED, reach, s, Deliver(Msg(Offer, c)));
    s := Go(reach, s, OfferUnknown(c));
    s := Go(reach, s, OfferAdded(c));
    assert s == FirstMade(c);
  }

  lemma ReachRequesting(reach: Thread -> bool, c: Connection)
    requires Closed(Step, UNUSED, reach)
    ensures reach(FirstMade(c).(offered := true, tasks := multiset{OfferUnknown(c), OfferUpdated, Requesting(0)}))
  {
    ReachFirstMade(reach, c);
    var s := Go(reach, FirstMade(c), OfferStored);
    s := Do(Step, UNUSED, reach, s, SendRequest);
    assert s == FirstMade(c).(offered := true, tasks := multiset{OfferUnknown(c), OfferUpdated, Requesting(0)});
  }

  lemma ReachRequested(reach: Thread -> bool, c: Connection)
    requires Closed(Step, UNUSED, reach)
    ensures reach(Requested(c))
  {
    ReachRequesting(reach, c);
    var s := FirstMade(c).(offered := true, tasks := multiset{OfferUnknown(c), OfferUpdated, Requesting(0)});
    s := Go(reach, s, Requesting(0));
    s := Go(reach, s, OfferUnknown(c));
    assert s == Requested(c);
  }

  /** The second delivery has replaced the exchange in the cache, and the request is on its way. */
  ghost function Replaced(c: Connection): Thread {
    Requested(c).(holder := Local([RequestSent, OfferReceived], Some(1), [Sub(Credential, 0, CredentialReceived)]),
                  sent := {Msg(Offer, c), Msg(Request, c)},
                  tasks := multiset{OfferStored, OfferUpdated})
  }

  /** The issuer has answered the request. */
  ghost function Answered(c: Connection): Thread {
    Replaced(c).(issuer := Local([RequestReceived], Some(0), []), requested := true, told := {Offer, Request},
                 sent := {Msg(Offer, c), Msg(Request, c), Msg(Credential, c)},
                 tasks := multiset{OfferStored, OfferUpdated, Issued(0)})
  }

  lemma ReachReplaced(reach: Thread -> bool, c: Connection)
    requires Closed(Step, UNUSED, reach)
    ensures reach(Replaced(c))
  {
    ReachRequested(reach, c);
    var s := Go(reach, Requested(c), OfferAdded(c));
    s := Go(reach, s, RequestReady(c));
    assert s == Replaced(c);
  }

  lemma ReachIssuing(reach: Thread -> bool, c: Connection)
    requires Closed(Step, UNUSED, reach)
    ensures reach(Answered(c).(sent := Replaced(c).sent, tasks := multiset{OfferStored, OfferUpdated, Issuing(0)}))
  {
    ReachReplaced(reach, c);
    assert Replaced(c).issuer.subs[0] == Sub(Request, 0, RequestReceived);
    PublishTells(Replaced(c).issuer, {Offer}, Request, RequestReceived);
    var s := Do(Step, UNUSED, reach, Replaced(c), Deliver(Msg(Request, c)));
    s := Do(Step, UNUSED, reach, s, Issue);
    assert s == Answered(c).(sent := Replaced(c).sent, tasks := multiset{OfferStored, OfferUpdated, Issuing(0)});
  }

  lemma ReachAnswered(reach: Thread -> bool, c: Connection)
    requires Closed(Step, UNUSED, reach)
    ensures reach(Answered(c))
  {
    ReachIssuing(reach, c);
    var s := Answered(c).(sent := Replaced(c).sent, tasks := multiset{OfferStored, OfferUpdated, Issuing(0)});
    s := Go(reach, s, Issuing(0));
    s := Go(reach, s, IssueReady(0, c));
    assert s == Answered(c);
  }

  /**
   A lost update: the holder has processed the credential, but its cached exchange stays at
   offer-received; the state went to the exchange that a second delivery of the offer had replaced.
   */
  lemma LostUpdate(c: Connection) returns (s: Thread)
    ensures Reachable(Step, UNUSED, s)
    ensures s.credited && Credential !in s.told
    ensures s.holder.cached == Some(1) && s.holder.states == [CredentialReceived, OfferReceived]
  {
    ReachableIsClosed(Step, UNUSED);
    ReachAnswered(s => Reachable(Step, UNUSED, s), c);
    s := Do(Step, UNUSED, s => Reachable(Step, UNUSED, s), Answered(c), Deliver(Msg(Credential, c)));
  }

  // ---------------------------------------------------------------------------
  // An offer that no exchange ever hears of
  // ---------------------------------------------------------------------------

  /** The first handler of the offer added its record and failed before it cached an exchange. */
  ghost function Failed(c: Connection): Thread {
    Offered(c).(holderRecord := Some(c))
  }

  lemma ReachFailed(reach: Thread -> bool, c: Connection)
    requires Closed(Step, UNUSED, reach)
    ensures reach(Failed(c))
  {
    ReachOffered(reach, c);
    var s := Do(Step, UNUSED, reach, Offered(c), Deliver(Msg(Offer, c)));
    s := Go(reach, s, OfferUnknown(c));
    s := Do(Step, UNUSED, reach, s, Fail(OfferAdded(c)));
    assert s == Failed(c);
  }

  lemma ReachForgotten(reach: Thread -> bool, c: Connection)
    requires Closed(Step, UNUSED, reach)
    ensures reach(Failed(c).(offered := true, published := true))
  {
    ReachFailed(reach, c);
    var s := Do(Step, UNUSED, reach, Failed(c), Deliver(Msg(Offer, c)));
    s := Go(reach, s, OfferStored);
    s := Go(reach, s, OfferUpdated);
    assert s == Failed(c).(offered := true, published := true);
  }

  /** The holder has a record and no exchange, and no handler is about to make one. */
  ghost predicate Forgotten(s: Thread) {
    && s.holderRecord.Some? && s.holder.states == []
    && forall task | task in s.tasks :: !MakesHolder(task) && !task.ProposalRecorded?
  }

  lemma StaysForgotten(s: Thread, a: Action)
    requires Causal(s) && Forgotten(s) && Step(s, a).Some?
    ensures Forgotten(Step(s, a).value)
  {
    StepGrows(s, a);
    StepCaches(s, a, Credential);
    forall next | next in Step(s, a).value.tasks ensures !MakesHolder(next) && !next.ProposalRecorded? {
      if next !in s.tasks {
        NewTask(s, a, next);
      }
    }
  }

  lemma {:induction false} OfferedHasRecord(actions: seq<Action>)
    requires After(Step, UNUSED, actions).Some? && After(Step, UNUSED, actions).value.offered
    ensures After(Step, UNUSED, actions).value.holderRecord.Some?
  {
    var s := LastStep(actions);
    StepGrows(s, actions[|actions| - 1]);
    if s.offered {
      OfferedHasRecord(actions[..|actions| - 1]);
    } else {
      StepOnlyCause(s, actions[|actions| - 1]);
      assert TaskOk(s, OfferStored);
    }
  }

  /** Nothing that happens from here on gives the holder an exchange. */
  ghost predicate LostForGood(s: Thread) {
    forall more: seq<Action> | After(Step, s, more).Some? :: After(Step, s, more).value.holder.states == []
  }

  lemma ForgottenForGood(s: Thread)
    requires Causal(s) && Forgotten(s)
    ensures LostForGood(s)
  {
    forall s, a | Causal(s) && Forgotten(s) && Step(s, a).Some?
      ensures Causal(Step(s, a).value) && Forgotten(Step(s, a).value)
    {
      StepCausal(s, a);
      StaysForgotten(s, a);
    }
    forall more: seq<Action> | After(Step, s, more).Some? ensures After(Step, s, more).value.holder.states == [] {
      InvariantHolds(Step, s, s => Causal(s) && Forgotten(s), more);
    }
  }

  /** A handler that is about to make the holder's exchange can always go on to do so. */
  lemma MakesExchange(s: Thread, task: Task) returns (more: seq<Action>)
    requires task in s.tasks && MakesHolder(task)
    ensures After(Step, s, more).Some? && After(Step, s, more).value.holder.states != []
  {
    if task.OfferUnknown? {
      var s1 := Step(s, Resume(task)).value;
      var rest := Added(s1, OfferAdded(task.c));
      more := [Resume(task)] + rest;
      assert more == [Resume(task), Resume(OfferAdded(task.c))];
      Extend(Step, s, [], Resume(task));
      Extend(Step, s, [Resume(task)], Resume(OfferAdded(task.c)));
      assert [] + [Resume(task)] == [Resume(task)];
    } else {
      more := Added(s, task);
    }
  }

  lemma Added(s: Thread, task: Task) returns (more: seq<Action>)
    requires task in s.tasks && task.OfferAdded?
    ensures more == [Resume(task)]
    ensures Step(s, Resume(task)).Some? && Step(s, Resume(task)).value.holder.states != []
    ensures After(Step, s, more) == Step(s, Resume(task))
  {
    more := [Resume(task)];
    Extend(Step, s, [], Resume(task));
    assert [] + [Resume(task)] == more;
  }

  /**
   After every run: a published offer is lost for good, so that the holder never gets an exchange, if and only if
   there is none and no handler is under way that is about to make one.
   */
  lemma LostForGoodIff(actions: seq<Action>)
    requires After(Step, UNUSED, actions).Some? && After(Step, UNUSED, actions).value.published
    ensures var s := After(Step, UNUSED, actions).value;
            LostForGood(s) <==> s.holder.cached.None? && forall task | task in s.tasks :: !MakesHolder(task)
  {
    var s := After(Step, UNUSED, actions).value;
    RunsAreCausal(actions);
    RunCachesLatest(actions, Offer);
    RunOfferOk(actions);
    OfferedHasRecord(actions);
    if s.holder.cached.None? && forall task | task in s.tasks :: !MakesHolder(task) {
      assert Forgotten(s);
      ForgottenForGood(s);
    } else if LostForGood(s) {
      NotLost(s);
    }
  }

  lemma NotLost(s: Thread)
    requires LostForGood(s) && LatestCached(s.holder)
    ensures s.holder.cached.None? && forall task | task in s.tasks :: !MakesHolder(task)
  {
    var none: seq<Action> := [];
    assert After(Step, s, none) == Some(s);
    forall task | task in s.tasks ensures !MakesHolder(task) {
      if MakesHolder(task) {
        var more := MakesExchange(s, task);
        assert false;
      }
    }
  }

  /**
   An offer lost without a replacement: a handler that failed after adding the holder's record leaves
   a record without an exchange. Delivered again, the offer is published to nobody, for good.
   */
  lemma OfferLost(c: Connection) returns (actions: seq<Action>)
    ensures After(Step, UNUSED, actions).Some? && NeverReplaces(actions)
    ensures var s := After(Step, UNUSED, actions).value;
            s.published && Offer !in s.told && s.tasks == multiset{} && LostForGood(s)
  {
    ReachableIsClosed(Step, UNUSED);
    ReachForgotten(s => Reachable(Step, UNUSED, s), c);
    var s := Failed(c).(offered := true, published := true);
    actions :| After(Step, UNUSED, actions) == Some(s);
    SingleIffNeverReplaced(actions);
    LostForGoodIff(actions);
  }

  /** In every reachable state: an exchange that replaces another hears of nothing the old one was waiting for. */
  lemma ReplacingExchangeIsDeaf(s: Thread, c: Connection, kind: Kind)
    requires Causal(s) && Step(s, Resume(OfferAdded(c))).Some?
    ensures var s' := Step(s, Resume(OfferAdded(c))).value;
            && s'.holder.cached == Some(|s'.holder.states| - 1)
            && s'.holder.Publish(kind).states[|s'.holder.states| - 1] == OfferReceived
            && Told(s'.told, s'.holder, kind) == s'.told
  {
    NewExchangeIsDeaf(s.holder, kind);
  }

  lemma NewExchangeIsDeaf(l: Local<Kind, State>, kind: Kind)
    requires l.Valid()
    requires forall sub | sub in l.subs :: sub.next == if sub.kind == Offer then OfferReceived else CredentialReceived
    ensures !Listening(l.Create(OfferReceived), kind, |l.states|)
    ensures l.Create(OfferReceived).Publish(kind).states[|l.states|] == OfferReceived
  {
    var next := if kind == Offer then OfferReceived else CredentialReceived;
    FireAllAt(l.states + [OfferReceived], l.subs, kind, next, |l.states|);
  }
}

/**
 The ACA-Py backchannel against the webhook store: the poll loops that answer requests, the swap
 of a thread id for an exchange id, and the issue-credential webhook handlers. While a handler
 sleeps or waits for an answer, other handlers run: `others(k)` is what they do to the store
 during its k-th sleep.
 */
module AcapyBackchannel {
  import opened Options
  import opened Storage
  import opened StoreHistory

  const MAX_TIMEOUT: nat := 5

  /** The store after k sleeps, as long as the handler itself has taken nothing. */
  function Asleep(s: Stored, others: nat -> seq<Op>, k: nat): Stored {
    if k == 0 then s else PerformAll(Asleep(s, others, k - 1), others(k - 1))
  }

  /** Everything the others have done by the end of the k-th sleep. */
  function During(others: nat -> seq<Op>, k: nat): seq<Op> {
    if k == 0 then [] else During(others, k - 1) + others(k - 1)
  }

  lemma AppendLast<T>(a: seq<T>, b: seq<T>)
    requires b != []
    ensures a + b != [] && (a + b)[..|a + b| - 1] == a + b[..|b| - 1] && (a + b)[|a + b| - 1] == b[|b| - 1]
  {
  }

  lemma {:induction false} PerformBoth(s: Stored, earlier: seq<Op>, later: seq<Op>)
    ensures PerformAll(s, earlier + later) == PerformAll(PerformAll(s, earlier), later)
  {
    if later == [] {
      assert earlier + later == earlier;
    } else {
      AppendLast(earlier, later);
      PerformBoth(s, earlier, later[..|later| - 1]);
    }
  }

  lemma {:induction false} AsleepIs(s: Stored, others: nat -> seq<Op>, k: nat)
    ensures Asleep(s, others, k) == PerformAll(s, During(others, k))
  {
    if k == 0 {
    } else {
      AsleepIs(s, others, k - 1);
      PerformBoth(s, During(others, k - 1), others(k - 1));
    }
  }

  // ---------------------------------------------------------------------------
  // What webhooks push
  // ---------------------------------------------------------------------------

  datatype Webhook =
    | Connections(m: Message) | OobInvitation(m: Message) | OutOfBand(m: Message)
    | IssueCredential(m: Message) | IssueCredentialV20(m: Message)
    | Anoncreds(thread: Id, m: Message, response: Option<Message>)
    | PresentProof(m: Message) | PresentProofV20(m: Message)
    | RevocationNotification(m: Message) | RevocationRegistry(m: Message) | ProblemReport(m: Message)

  /** A message filed under one of its own members, if it has that member; otherwise the handler fails. */
  function Filed(m: Message, idMember: string, kind: string, idName: Option<string>): seq<Op> {
    if idMember in m then [PushOp(Some(m[idMember]), kind, m, idName)] else []
  }

  predicate Has(m: Message, member: string, text: string) {
    member in m && m[member] == text
  }

  /** What an issue-credential webhook pushes under its own thread. */
  function CredentialOps(m: Message, idName: string): seq<Op> {
    if Has(m, "state", "deleted") then []
    else
      Filed(m, "thread_id", "credential-msg", Some(idName))
      + if "revocation_id" in m then Filed(m, "thread_id", "revocation-registry-msg", Some(idName)) else []
  }

  function V20Ops(m: Message): seq<Op> {
    CredentialOps(m, "cred_ex_id")
  }

  function ProofOps(m: Message, idName: string): seq<Op> {
    if Has(m, "state", "deleted") then [] else Filed(m, "thread_id", "presentation-msg", Some(idName))
  }

  function ConnectionOps(m: Message): seq<Op> {
    if "request_id" in m then Filed(m, "request_id", "didexchange-msg", None)
    else if Has(m, "connection_protocol", "didexchange/1.0") || Has(m, "connection_protocol", "didexchange/1.1") then
      Filed(m, "invitation_msg_id", "didexchange-msg", None)
    else if Has(m, "connection_protocol", "connections/1.0") then Filed(m, "connection_id", "connection-msg", None)
    else []
  }

  /** The webhook message completed with what the agent answers about the stored credential, if it answers 200. */
  function Completed(m: Message, response: Option<Message>): Message {
    if response.None? then m
    else
      var withId := if "cred_rev_id" in response.value then m["revocation_id" := response.value["cred_rev_id"]] else m;
      if "rev_reg_id" in response.value then withId["revoc_reg_id" := response.value["rev_reg_id"]] else withId
  }

  function AnoncredsOps(thread: Id, m: Message, response: Option<Message>): seq<Op> {
    var message := Completed(m, response);
    if "revocation_id" in message then [PushOp(thread, "revocation-registry-msg", message, None)] else []
  }

  function ReportOps(m: Message): seq<Op> {
    if Has(m, "thread_id", "") then [] else Filed(m, "thread_id", "problem-report-msg", None)
  }

  function WebhookOps(hook: Webhook): seq<Op> {
    match hook
    case Connections(m) => ConnectionOps(m)
    case OobInvitation(m) => Filed(m, "invitation_id", "oob-inviation-msg", None)
    case OutOfBand(m) => Filed(m, "invi_msg_id", "out-of-band-msg", None)
    case IssueCredential(m) => CredentialOps(m, "credential_exchange_id")
    case IssueCredentialV20(m) => V20Ops(m)
    case Anoncreds(thread, m, response) => AnoncredsOps(thread, m, response)
    case PresentProof(m) => ProofOps(m, "pres_ex_id")
    case PresentProofV20(m) => ProofOps(m, "presentation_exchange_id")
    case RevocationNotification(m) => Filed(m, "thread_id", "revocation-notification-msg", None)
    case RevocationRegistry(m) => Filed(m, "cred_def_id", "revocation-registry-msg", None)
    case ProblemReport(m) => ReportOps(m)
  }

  // What that leaves in the store

  lemma PerformOne(s: Stored, op: Op)
    ensures PerformAll(s, [op]) == Perform(s, op)
  {
    assert [op][..0] == [];
  }

  lemma FiledAt(s: Stored, m: Message, idMember: string, kind: string, idName: Option<string>)
    ensures forall i, k :: At(PerformAll(s, Filed(m, idMember, kind, idName)), i, k)
                        == if idMember in m && i == Some(m[idMember]) && k == kind then At(s, i, k) + [m]
                           else At(s, i, k)
  {
    if idMember in m {
      PerformOne(s, PushOp(Some(m[idMember]), kind, m, idName));
      AtPush(s, Some(m[idMember]), kind, m, idName);
    }
  }

  /** An issue-credential webhook, unless it is a deletion, goes to two lists at most, once each. */
  lemma CredentialFiled(s: Stored, m: Message, idName: string)
    ensures forall id, kind ::
              At(PerformAll(s, CredentialOps(m, idName)), id, kind)
              == if !("state" in m && m["state"] == "deleted") && "thread_id" in m && id == Some(m["thread_id"])
                    && (kind == "credential-msg" || (kind == "revocation-registry-msg" && "revocation_id" in m))
                 then At(s, id, kind) + [m]
                 else At(s, id, kind)
  {
    if !Has(m, "state", "deleted") {
      var first := Filed(m, "thread_id", "credential-msg", Some(idName));
      var second := if "revocation_id" in m then Filed(m, "thread_id", "revocation-registry-msg", Some(idName)) else [];
      PerformBoth(s, first, second);
      FiledAt(s, m, "thread_id", "credential-msg", Some(idName));
      FiledAt(PerformAll(s, first), m, "thread_id", "revocation-registry-msg", Some(idName));
      assert "credential-msg"[0] != "revocation-registry-msg"[0];
    }
  }

  /** The id is what the message has under that name. */
  predicate Under(m: Message, member: string, id: Id) {
    id.Some? && id == Find(m, member)
  }

  /** The lists each webhook's message goes to, by what the message holds. */
  predicate GoesTo(hook: Webhook, id: Id, kind: string) {
    match hook
    case Connections(m) => Connection(m, id, kind)
    case OobInvitation(m) => Under(m, "invitation_id", id) && kind == "oob-inviation-msg"
    case OutOfBand(m) => Under(m, "invi_msg_id", id) && kind == "out-of-band-msg"
    case IssueCredential(_) | IssueCredentialV20(_) => Credential(hook.m, id, kind)
    case PresentProof(_) | PresentProofV20(_) => Proof(hook.m, id, kind)
    case RevocationNotification(m) => Under(m, "thread_id", id) && kind == "revocation-notification-msg"
    case RevocationRegistry(m) => Under(m, "cred_def_id", id) && kind == "revocation-registry-msg"
    case ProblemReport(m) => Report(m, id, kind)
    case Anoncreds(_, _, _) => false
  }

  predicate Connection(m: Message, id: Id, kind: string) {
    if "request_id" in m then Under(m, "request_id", id) && kind == "didexchange-msg"
    else if Find(m, "connection_protocol") in {Some("didexchange/1.0"), Some("didexchange/1.1")} then
      Under(m, "invitation_msg_id", id) && kind == "didexchange-msg"
    else
      && Find(m, "connection_protocol") == Some("connections/1.0")
      && Under(m, "connection_id", id) && kind == "connection-msg"
  }

  predicate Report(m: Message, id: Id, kind: string) {
    Under(m, "thread_id", id) && id != Some("") && kind == "problem-report-msg"
  }

  predicate Credential(m: Message, id: Id, kind: string) {
    && Under(m, "thread_id", id) && Find(m, "state") != Some("deleted")
    && (kind == "credential-msg" || (kind == "revocation-registry-msg" && "revocation_id" in m))
  }

  predicate Proof(m: Message, id: Id, kind: string) {
    Under(m, "thread_id", id) && Find(m, "state") != Some("deleted") && kind == "presentation-msg"
  }

  /** The member whose value is indexed against the thread, for the webhooks that have one. */
  function IndexedMember(hook: Webhook): Option<string> {
    match hook
    case IssueCredential(_) => Some("credential_exchange_id")
    case IssueCredentialV20(_) => Some("cred_ex_id")
    case PresentProof(_) => Some("pres_ex_id")
    case PresentProofV20(_) => Some("presentation_exchange_id")
    case _ => None
  }

  lemma FiledUnder(s: Stored, m: Message, member: string, given: string, idName: Option<string>, id: Id, kind: string)
    ensures At(PerformAll(s, Filed(m, member, given, idName)), id, kind)
         == if Under(m, member, id) && kind == given then At(s, id, kind) + [m] else At(s, id, kind)
  {
    FiledAt(s, m, member, given, idName);
  }

  lemma CredentialUnder(s: Stored, m: Message, idName: string, id: Id, kind: string)
    ensures At(PerformAll(s, CredentialOps(m, idName)), id, kind)
         == if Credential(m, id, kind) then At(s, id, kind) + [m] else At(s, id, kind)
  {
    CredentialFiled(s, m, idName);
  }

  lemma ProofUnder(s: Stored, m: Message, idName: string, id: Id, kind: string)
    ensures At(PerformAll(s, ProofOps(m, idName)), id, kind)
         == if Proof(m, id, kind) then At(s, id, kind) + [m] else At(s, id, kind)
  {
    FiledUnder(s, m, "thread_id", "presentation-msg", Some(idName), id, kind);
  }

  lemma ConnectionUnder(s: Stored, m: Message, id: Id, kind: string)
    ensures At(PerformAll(s, ConnectionOps(m)), id, kind)
         == if Connection(m, id, kind) then At(s, id, kind) + [m] else At(s, id, kind)
  {
    FiledUnder(s, m, "request_id", "didexchange-msg", None, id, kind);
    FiledUnder(s, m, "invitation_msg_id", "didexchange-msg", None, id, kind);
    FiledUnder(s, m, "connection_id", "connection-msg", None, id, kind);
  }

  lemma ReportUnder(s: Stored, m: Message, id: Id, kind: string)
    ensures At(PerformAll(s, ReportOps(m)), id, kind)
         == if Report(m, id, kind) then At(s, id, kind) + [m] else At(s, id, kind)
  {
    FiledUnder(s, m, "thread_id", "problem-report-msg", None, id, kind);
  }

  /** Every webhook but the anoncreds one adds its message to those lists, once, and to no other. */
  lemma WebhookFiled(s: Stored, hook: Webhook, id: Id, kind: string)
    requires !hook.Anoncreds?
    ensures At(PerformAll(s, WebhookOps(hook)), id, kind)
         == if GoesTo(hook, id, kind) then At(s, id, kind) + [hook.m] else At(s, id, kind)
  {
    match hook
    case Connections(m) => ConnectionUnder(s, m, id, kind);
    case OobInvitation(m) => FiledUnder(s, m, "invitation_id", "oob-inviation-msg", None, id, kind);
    case OutOfBand(m) => FiledUnder(s, m, "invi_msg_id", "out-of-band-msg", None, id, kind);
    case IssueCredential(m) => CredentialUnder(s, m, "credential_exchange_id", id, kind);
    case IssueCredentialV20(m) => CredentialUnder(s, m, "cred_ex_id", id, kind);
    case PresentProof(m) => ProofUnder(s, m, "pres_ex_id", id, kind);
    case PresentProofV20(m) => ProofUnder(s, m, "presentation_exchange_id", id, kind);
    case RevocationNotification(m) => FiledUnder(s, m, "thread_id", "revocation-notification-msg", None, id, kind);
    case RevocationRegistry(m) => FiledUnder(s, m, "cred_def_id", "revocation-registry-msg", None, id, kind);
    case ProblemReport(m) => ReportUnder(s, m, id, kind);
  }

  /** The entry of the index that says the message of that list has that exchange id. */
  predicate Indexes(p: Pair, m: Message, member: string, kind: string) {
    p.name == kind + "." + member && Some(p.exchange) == Find(m, member)
  }

  lemma FiledBound(m: Message, member: string, kind: string, idName: Option<string>, p: Pair)
    requires idName != Some("")
    ensures p in Bound(Filed(m, member, kind, idName))
       <==> Under(m, member, p.id) && idName.Some? && Indexes(p, m, idName.value, kind)
  {
    if member in m {
      assert Filed(m, member, kind, idName)[..0] == [];
    }
  }

  lemma CredentialBound(m: Message, idName: string, p: Pair)
    requires idName != ""
    ensures p in Bound(CredentialOps(m, idName))
       <==> exists kind :: Credential(m, p.id, kind) && Indexes(p, m, idName, kind)
  {
    if !Has(m, "state", "deleted") {
      var first := Filed(m, "thread_id", "credential-msg", Some(idName));
      var second := if "revocation_id" in m then Filed(m, "thread_id", "revocation-registry-msg", Some(idName)) else [];
      FiledBound(m, "thread_id", "credential-msg", Some(idName), p);
      FiledBound(m, "thread_id", "revocation-registry-msg", Some(idName), p);
      BoundBoth(first, second);
      assert CredentialOps(m, idName) == first + second;
      assert p in Bound(first) ==> Credential(m, p.id, "credential-msg");
      assert p in Bound(second) ==> Credential(m, p.id, "revocation-registry-msg");
    }
  }

  lemma ProofBound(m: Message, idName: string, p: Pair)
    requires idName != ""
    ensures p in Bound(ProofOps(m, idName)) <==> exists kind :: Proof(m, p.id, kind) && Indexes(p, m, idName, kind)
  {
    FiledBound(m, "thread_id", "presentation-msg", Some(idName), p);
    assert p in Bound(ProofOps(m, idName)) ==> Proof(m, p.id, "presentation-msg");
  }

  lemma ConnectionBound(m: Message, p: Pair)
    ensures p !in Bound(ConnectionOps(m))
  {
    FiledBound(m, "request_id", "didexchange-msg", None, p);
    FiledBound(m, "invitation_msg_id", "didexchange-msg", None, p);
    FiledBound(m, "connection_id", "connection-msg", None, p);
  }

  lemma ReportBound(m: Message, p: Pair)
    ensures p !in Bound(ReportOps(m))
  {
    FiledBound(m, "thread_id", "problem-report-msg", None, p);
  }

  lemma NothingBound(hook: Webhook, p: Pair)
    requires !hook.Anoncreds? && IndexedMember(hook).None?
    ensures p !in Bound(WebhookOps(hook))
  {
    match hook
    case Connections(m) => ConnectionBound(m, p);
    case OobInvitation(m) => FiledBound(m, "invitation_id", "oob-inviation-msg", None, p);
    case OutOfBand(m) => FiledBound(m, "invi_msg_id", "out-of-band-msg", None, p);
    case RevocationNotification(m) => FiledBound(m, "thread_id", "revocation-notification-msg", None, p);
    case RevocationRegistry(m) => FiledBound(m, "cred_def_id", "revocation-registry-msg", None, p);
    case ProblemReport(m) => ReportBound(m, p);
  }

  /** An entry the webhook adds to the index. */
  ghost predicate IndexedBy(hook: Webhook, p: Pair) {
    && IndexedMember(hook).Some?
    && exists kind :: GoesTo(hook, p.id, kind) && Indexes(p, hook.m, IndexedMember(hook).value, kind)
  }

  lemma CredentialIndexed(hook: Webhook, p: Pair)
    requires hook.IssueCredential? || hook.IssueCredentialV20?
    ensures IndexedBy(hook, p)
       <==> exists kind :: Credential(hook.m, p.id, kind) && Indexes(p, hook.m, IndexedMember(hook).value, kind)
  {
    assert forall kind :: GoesTo(hook, p.id, kind) <==> Credential(hook.m, p.id, kind);
  }

  lemma ProofIndexed(hook: Webhook, p: Pair)
    requires hook.PresentProof? || hook.PresentProofV20?
    ensures IndexedBy(hook, p)
       <==> exists kind :: Proof(hook.m, p.id, kind) && Indexes(p, hook.m, IndexedMember(hook).value, kind)
  {
    assert forall kind :: GoesTo(hook, p.id, kind) <==> Proof(hook.m, p.id, kind);
  }

  /** And it indexes that member's value against the thread, once for each list, if there is one. */
  lemma WebhookBound(hook: Webhook, p: Pair)
    requires !hook.Anoncreds?
    ensures p in Bound(WebhookOps(hook)) <==> IndexedBy(hook, p)
  {
    match hook
    case IssueCredential(m) =>
      CredentialBound(m, "credential_exchange_id", p);
      CredentialIndexed(hook, p);
    case IssueCredentialV20(m) =>
      CredentialBound(m, "cred_ex_id", p);
      CredentialIndexed(hook, p);
    case PresentProof(m) =>
      ProofBound(m, "pres_ex_id", p);
      ProofIndexed(hook, p);
    case PresentProofV20(m) =>
      ProofBound(m, "presentation_exchange_id", p);
      ProofIndexed(hook, p);
    case _ => NothingBound(hook, p);
  }

  /**
   The message that is filed is the webhook's with two members from the agent's answer: its `cred_rev_id` as
   `revocation_id` and its `rev_reg_id` as `revoc_reg_id`, as far as there is an answer that has them.
   */
  ghost predicate CompletedBy(message: Message, m: Message, response: Option<Message>) {
    && Find(message, "revocation_id")
       == (if response.Some? && "cred_rev_id" in response.value then Some(response.value["cred_rev_id"])
           else Find(m, "revocation_id"))
    && Find(message, "revoc_reg_id")
       == (if response.Some? && "rev_reg_id" in response.value then Some(response.value["rev_reg_id"])
           else Find(m, "revoc_reg_id"))
    && forall name | name != "revocation_id" && name != "revoc_reg_id" :: Find(message, name) == Find(m, name)
  }

  lemma MembersDiffer()
    ensures "revocation_id" != "revoc_reg_id"
  {
    assert "revocation_id"[5] == 'a' && "revoc_reg_id"[5] == '_';
  }

  /** That says what the message is. */
  lemma CompletedIs(message: Message, m: Message, response: Option<Message>)
    ensures message == Completed(m, response) <==> CompletedBy(message, m, response)
  {
    MembersDiffer();
    var completed := Completed(m, response);
    assert CompletedBy(completed, m, response);
    if CompletedBy(message, m, response) {
      SameMessage(message, completed);
    }
  }

  lemma SameMessage(a: Message, b: Message)
    requires forall name :: Find(a, name) == Find(b, name)
    ensures a == b
  {
    assert forall name :: name in a <==> Find(a, name).Some?;
    assert forall name :: name in b <==> Find(b, name).Some?;
    assert forall name | name in a :: a[name] == Find(a, name).value == b[name];
  }

  /** The anoncreds webhook files that message, if it has a revocation id, and nothing else; it indexes nothing. */
  lemma AnoncredsFiled(s: Stored, thread: Id, m: Message, response: Option<Message>, message: Message)
    requires CompletedBy(message, m, response)
    ensures forall id, kind ::
              At(PerformAll(s, AnoncredsOps(thread, m, response)), id, kind)
              == if id == thread && kind == "revocation-registry-msg" && "revocation_id" in message
                 then At(s, id, kind) + [message]
                 else At(s, id, kind)
    ensures Bound(AnoncredsOps(thread, m, response)) == []
  {
    CompletedIs(message, m, response);
    if "revocation_id" in message {
      PerformOne(s, PushOp(thread, "revocation-registry-msg", message, None));
      AtPush(s, thread, "revocation-registry-msg", message, None);
    }
  }

  /** So with both ids answered, the newest revocation message of the thread has each of them where it belongs. */
  lemma BothIdsFiled(s: Stored, thread: Id, m: Message, answer: Message)
    requires "cred_rev_id" in answer && "rev_reg_id" in answer
    ensures var list := At(PerformAll(s, AnoncredsOps(thread, m, Some(answer))), thread, "revocation-registry-msg");
            && list != []
            && Find(list[|list| - 1], "revocation_id") == Some(answer["cred_rev_id"])
            && Find(list[|list| - 1], "revoc_reg_id") == Some(answer["rev_reg_id"])
            && forall name | name != "revocation_id" && name != "revoc_reg_id" ::
                 Find(list[|list| - 1], name) == Find(m, name)
  {
    var message := Completed(m, Some(answer));
    CompletedIs(message, m, Some(answer));
    assert Find(message, "revocation_id").Some?;
    AnoncredsFiled(s, thread, m, Some(answer), message);
  }

  /** Every message that comes into the store comes from a webhook. */
  ghost predicate FromWebhooks(ops: seq<Op>) {
    forall op | op in ops && op.PushOp? :: exists hook :: op in WebhookOps(hook)
  }

  ghost predicate NonEmpty(s: Stored) {
    forall id, kind, m | m in At(s, id, kind) :: m != map[]
  }

  lemma HasMember(m: Message, member: string)
    requires member in m
    ensures m != map[]
  {
  }

  /** Whatever a webhook pushes has the member it is filed under. */
  lemma WebhookNonEmpty(hook: Webhook, op: Op)
    requires op in WebhookOps(hook)
    ensures op.PushOp? && op.m != map[]
  {
    if hook.Anoncreds? {
      HasMember(op.m, "revocation_id");
    } else {
      assert op.PushOp? && exists member :: member in op.m;
    }
  }

  lemma PutNonEmpty(s: Stored, id: Id, kind: string, messages: seq<Message>)
    requires NonEmpty(s) && forall m | m in messages :: m in At(s, id, kind)
    ensures NonEmpty(Put(s, id, kind, messages))
  {
    AtPut(s, id, kind, messages);
  }

  lemma StepNonEmpty(s: Stored, op: Op)
    requires NonEmpty(s) && (op.PushOp? ==> op.m != map[])
    ensures NonEmpty(Perform(s, op))
  {
    match HitOf(s, op)
    case Miss =>
      if op.PushOp? {
        AtPush(s, op.id, op.kind, op.m, op.idName);
      }
    case First(id) => PutNonEmpty(s, id, op.kind, At(s, id, op.kind)[1..]);
    case Last(id) => PutNonEmpty(s, id, op.kind, At(s, id, op.kind)[..|At(s, id, op.kind)| - 1]);
  }

  /** However webhooks and pops interleave, no empty message ever is in the store. */
  lemma {:induction false} StaysNonEmpty(s: Stored, ops: seq<Op>)
    requires NonEmpty(s) && FromWebhooks(ops)
    ensures NonEmpty(PerformAll(s, ops))
  {
    if ops == [] {
    } else {
      var before, op := ops[..|ops| - 1], ops[|ops| - 1];
      assert op in ops && forall o | o in before :: o in ops;
      StaysNonEmpty(s, before);
      if op.PushOp? {
        var hook :| op in WebhookOps(hook);
        WebhookNonEmpty(hook, op);
      }
      StepNonEmpty(PerformAll(s, before), op);
    }
  }

  lemma {:induction false} AsleepNonEmpty(s: Stored, others: nat -> seq<Op>, k: nat)
    requires NonEmpty(s) && forall i: nat :: FromWebhooks(others(i))
    ensures NonEmpty(Asleep(s, others, k))
  {
    if k == 0 {
    } else {
      AsleepNonEmpty(s, others, k - 1);
      StaysNonEmpty(Asleep(s, others, k - 1), others(k - 1));
    }
  }

  // ---------------------------------------------------------------------------
  // Answering a GET request from the store
  // ---------------------------------------------------------------------------

  lemma PopOutcome(s: Stored, id: Id, kind: string)
    ensures At(s, id, kind) == [] ==> Popped(s, PopOp(id, kind)).None? && Perform(s, PopOp(id, kind)) == s
    ensures At(s, id, kind) != [] ==> Popped(s, PopOp(id, kind)) == Some(At(s, id, kind)[0])
  {
  }

  /** After try number i + 1. */
  ghost predicate PollState(start: Stored, others: nat -> seq<Op>, i: nat, id: Id, kind: string, m: Option<Message>,
                            now: Stored) {
    var found := Asleep(start, others, i);
    && now == Perform(found, PopOp(id, kind))
    && (m.None? ==> At(found, id, kind) == [] && now == found)
    && (m.Some? ==> At(found, id, kind) != [] && m.value == At(found, id, kind)[0])
  }

  ghost predicate FoundNone(start: Stored, others: nat -> seq<Op>, tries: nat, id: Id, kind: string) {
    forall k: nat | k < tries :: At(Asleep(start, others, k), id, kind) == []
  }

  lemma FoundNoneAgain(start: Stored, others: nat -> seq<Op>, i: nat, id: Id, kind: string, now: Stored)
    requires FoundNone(start, others, i, id, kind) && PollState(start, others, i, id, kind, None, now)
    ensures FoundNone(start, others, i + 1, id, kind)
    ensures Asleep(start, others, i + 1) == PerformAll(now, others(i))
  {
  }

  lemma TakenNonEmpty(start: Stored, others: nat -> seq<Op>, i: nat, id: Id, kind: string, m: Option<Message>,
                      now: Stored)
    requires PollState(start, others, i, id, kind, m, now)
    ensures NonEmpty(start) && (forall k: nat :: FromWebhooks(others(k))) ==> m != Some(map[])
  {
    if NonEmpty(start) && (forall k: nat :: FromWebhooks(others(k))) && m.Some? {
      AsleepNonEmpty(start, others, i);
      assert m.value in At(Asleep(start, others, i), id, kind);
    }
  }

  method SleepAndTry(store: Store, id: Id, kind: string, others: seq<Op>) returns (m: Option<Message>)
    requires WellFormed(store.Value())
    modifies store
    ensures WellFormed(store.Value())
    ensures var found := PerformAll(old(store.Value()), others);
            && store.Value() == Perform(found, PopOp(id, kind))
            && m == (if At(found, id, kind) == [] then None else Some(At(found, id, kind)[0]))
            && (m.None? ==> store.Value() == found)
  {
    store.RunOthers(others);
    PopOutcome(store.Value(), id, kind);
    m := store.PopResource(id, kind);
  }

  /**
   The poll tries once before each sleep and once after the last; it takes the first message any of
   its tries finds, the oldest there, and nothing else. The answer `{}` is `map[]`: as long as only
   webhooks fill the store, it means that nothing was taken.
   */
  method GetResponse(store: Store, id: Id, kind: string, others: nat -> seq<Op>)
    returns (answer: Message, ghost taken: Option<Message>, ghost tries: nat)
    requires WellFormed(store.Value())
    modifies store
    ensures WellFormed(store.Value()) && 1 <= tries <= MAX_TIMEOUT + 1
    ensures FoundNone(old(store.Value()), others, tries - 1, id, kind)
    ensures PollState(old(store.Value()), others, tries - 1, id, kind, taken, store.Value())
    ensures taken.None? ==> tries == MAX_TIMEOUT + 1
    ensures answer == if taken.Some? then taken.value else map[]
    ensures NonEmpty(old(store.Value())) && (forall k: nat :: FromWebhooks(others(k))) ==>
              (answer == map[] <==> taken.None?)
  {
    ghost var start := store.Value();
    PopOutcome(start, id, kind);
    var m := store.PopResource(id, kind);
    var i := 0;
    while m.None? && i < MAX_TIMEOUT
      invariant WellFormed(store.Value()) && 0 <= i <= MAX_TIMEOUT
      invariant FoundNone(start, others, i, id, kind)
      invariant PollState(start, others, i, id, kind, m, store.Value())
    {
      FoundNoneAgain(start, others, i, id, kind, store.Value());
      m := SleepAndTry(store, id, kind, others(i));
      i := i + 1;
    }
    taken, tries := m, i + 1;
    TakenNonEmpty(start, others, i, id, kind, m, store.Value());
    if m.Some? && m.value != map[] {
      answer := m.value;
    } else {
      answer := map[];
    }
  }

  /**
   What a try finds first is the oldest message of that key still there, in a store filled by any run
   that takes the oldest first, as every run does that pops no latest message of the type (`PollsFindOldest`).
   */
  lemma FindsOldest(ops: seq<Op>, others: nat -> seq<Op>, k: nat, id: Id, kind: string)
    requires OldestFirst(EMPTY, ops + During(others, k), id, kind)
    ensures var found := At(Asleep(PerformAll(EMPTY, ops), others, k), id, kind);
            var pushed := Pushed(ops + During(others, k), id, kind);
            var taken := Taken(EMPTY, ops + During(others, k), id, kind);
            taken <= pushed && found == pushed[|taken|..]
  {
    AsleepIs(PerformAll(EMPTY, ops), others, k);
    PerformBoth(EMPTY, ops, During(others, k));
    History(ops + During(others, k), id, kind);
  }

  /** So polls for a type that nobody pops the latest message of find what was pushed and not yet taken, in order. */
  lemma PollsFindOldest(ops: seq<Op>, others: nat -> seq<Op>, k: nat, id: Id, kind: string)
    requires NeverLatest(ops, kind) && forall i: nat :: NeverLatest(others(i), kind)
    ensures var found := At(Asleep(PerformAll(EMPTY, ops), others, k), id, kind);
            var pushed := Pushed(ops + During(others, k), id, kind);
            var taken := Taken(EMPTY, ops + During(others, k), id, kind);
            taken <= pushed && found == pushed[|taken|..]
  {
    DuringNeverLatest(others, k, kind);
    NeverLatestIsOldestFirst(EMPTY, ops + During(others, k), id, kind);
    FindsOldest(ops, others, k, id, kind);
  }

  lemma {:induction false} DuringNeverLatest(others: nat -> seq<Op>, k: nat, kind: string)
    requires forall i: nat :: NeverLatest(others(i), kind)
    ensures NeverLatest(During(others, k), kind)
  {
    if k == 0 {
    } else {
      DuringNeverLatest(others, k - 1, kind);
    }
  }

  // ---------------------------------------------------------------------------
  // Swapping a thread id for an exchange id
  // ---------------------------------------------------------------------------

  /** What the swap makes of its look number k: nothing yet, or its outcome. */
  function Look(s: Stored, thread: Id, kind: string, idName: string): Option<Result<string, Error>> {
    match Get(s, thread, kind)
    case None => None
    case Some(messages) =>
      if messages == [] then Some(Err(IndexError))
      else if idName !in messages[0] then Some(Err(KeyError))
      else Some(Ok(messages[0][idName]))
  }

  ghost predicate SawNothing(start: Stored, others: nat -> seq<Op>, looks: nat, thread: Id, kind: string,
                             idName: string) {
    forall k: nat | k < looks :: Look(Asleep(start, others, k), thread, kind, idName).None?
  }

  lemma SawNothingAgain(start: Stored, others: nat -> seq<Op>, looks: nat, thread: Id, kind: string, idName: string)
    requires SawNothing(start, others, looks, thread, kind, idName)
    requires Get(Asleep(start, others, looks), thread, kind).None?
    ensures SawNothing(start, others, looks + 1, thread, kind, idName)
    ensures Asleep(start, others, looks + 1) == PerformAll(Asleep(start, others, looks), others(looks))
  {
  }

  /** The outcome after `looks` looks that found nothing, `slept` seconds in all. */
  ghost predicate Swapped(now: Stored, thread: Id, kind: string, idName: string, slept: int, waitTime: int,
                          swapped: Result<string, Error>) {
    if slept > waitTime then swapped == Err(TimeoutError)
    else
      var look := Look(now, thread, kind, idName);
      look.Some? && swapped == if look.value.Ok? && slept == waitTime then Err(TimeoutError) else look.value
  }

  /**
   `looks` counts the looks that found nothing at all; the outcome of the next one, if there is
   time for it, is the outcome of the swap, except that an exchange id found at the very last
   moment is thrown away. The store is left as the others make it.
   */
  method SwapThreadIdForExchangeId(store: Store, thread: Id, kind: string, idName: string,
                                   waitTime: int, sleepTime: int, others: nat -> seq<Op>)
    returns (swapped: Result<string, Error>, looks: nat)
    requires WellFormed(store.Value()) && sleepTime >= 1
    modifies store
    ensures WellFormed(store.Value()) && store.Value() == Asleep(old(store.Value()), others, looks)
    ensures looks > 0 ==> (looks - 1) * sleepTime <= waitTime
    ensures SawNothing(old(store.Value()), others, looks, thread, kind, idName)
    ensures Swapped(store.Value(), thread, kind, idName, looks * sleepTime, waitTime, swapped)
    ensures var list, slept := Get(store.Value(), thread, kind), looks * sleepTime;
            var oldest := if list.Some? && list.value != [] then Find(list.value[0], idName) else None;
            && (swapped == Err(TimeoutError) <==> slept > waitTime || (slept == waitTime && oldest.Some?))
            && (swapped == Err(IndexError) <==> slept <= waitTime && list == Some([]))
            && (swapped == Err(KeyError) <==> slept <= waitTime && list.Some? && list != Some([]) && oldest.None?)
            && (swapped.Ok? ==> oldest == Some(swapped.value))
  {
    ghost var start := store.Value();
    var timeout, exchange, returned := 0, "", false;
    looks := 0;
    while !returned && timeout <= waitTime
      invariant WellFormed(store.Value()) && store.Value() == Asleep(start, others, looks)
      invariant timeout == looks * sleepTime && (looks > 0 ==> timeout - sleepTime <= waitTime)
      invariant SawNothing(start, others, looks, thread, kind, idName)
      invariant returned ==> timeout <= waitTime && Look(store.Value(), thread, kind, idName) == Some(Ok(exchange))
      decreases !returned, waitTime - timeout
    {
      var messages := store.GetResource(thread, kind);
      if messages.None? {
        SawNothingAgain(start, others, looks, thread, kind, idName);
        assert (looks + 1) * sleepTime == timeout + sleepTime;
        store.RunOthers(others(looks));
        timeout := timeout + sleepTime;
        looks := looks + 1;
      } else if messages.value == [] {
        return Err(IndexError), looks;
      } else if idName !in messages.value[0] {
        return Err(KeyError), looks;
      } else {
        exchange := messages.value[0][idName];
        returned := true;
      }
    }
    if timeout >= waitTime {
      swapped := Err(TimeoutError);
    } else {
      swapped := Ok(exchange);
    }
  }

  /** A v2.0 webhook about a credential exchange. */
  function Offered(thread: string, exchange: string): Message {
    map["thread_id" := thread, "cred_ex_id" := exchange]
  }

  /** The webhook comes in the last sleep the swap has time for. */
  function Late(m: Message, waitTime: nat): nat -> seq<Op> {
    (k: nat) => if k + 1 == waitTime then WebhookOps(IssueCredentialV20(m)) else []
  }

  lemma {:induction false} NothingYet(m: Message, waitTime: nat, k: nat)
    requires k < waitTime
    ensures Asleep(EMPTY, Late(m, waitTime), k) == EMPTY
  {
    if k == 0 {
    } else {
      NothingYet(m, waitTime, k - 1);
    }
  }

  lemma OfferedOps(thread: string, exchange: string)
    ensures V20Ops(Offered(thread, exchange))
         == [PushOp(Some(thread), "credential-msg", Offered(thread, exchange), Some("cred_ex_id"))]
  {
    var m := Offered(thread, exchange);
    assert "state" !in m && "revocation_id" !in m;
  }

  lemma PushedAlone(push: Op)
    requires push.PushOp?
    ensures Get(PerformAll(EMPTY, [push]), push.id, push.kind) == Some([push.m])
  {
    assert [push][..0] == [];
    AtPush(EMPTY, push.id, push.kind, push.m, push.idName);
    assert At(Perform(EMPTY, push), push.id, push.kind) == [push.m];
  }

  lemma InTheLastSleep(thread: string, exchange: string, waitTime: nat)
    requires waitTime >= 1
    ensures Look(Asleep(EMPTY, Late(Offered(thread, exchange), waitTime), waitTime), Some(thread), "credential-msg",
                 "cred_ex_id")
         == Some(Ok(exchange))
  {
    var m := Offered(thread, exchange);
    var push := PushOp(Some(thread), "credential-msg", m, Some("cred_ex_id"));
    NothingYet(m, waitTime, waitTime - 1);
    var last: nat := waitTime - 1;
    assert Late(m, waitTime)(last) == WebhookOps(IssueCredentialV20(m)) == V20Ops(m);
    OfferedOps(thread, exchange);
    assert Asleep(EMPTY, Late(m, waitTime), waitTime) == PerformAll(EMPTY, [push]);
    PushedAlone(push);
    assert m["cred_ex_id"] == exchange;
  }

  /**
   An exchange id thrown away: its webhook comes in the last second. Whatever way a swap that looks every second
   meets its contract, it has found the exchange id after exactly the time it was given, and raises
   TimeoutError all the same.
   */
  lemma FoundTooLate(thread: string, exchange: string, waitTime: nat, swapped: Result<string, Error>, looks: nat)
    requires waitTime >= 1 && (looks > 0 ==> looks - 1 <= waitTime)
    requires SawNothing(EMPTY, Late(Offered(thread, exchange), waitTime), looks, Some(thread), "credential-msg",
                        "cred_ex_id")
    requires Swapped(Asleep(EMPTY, Late(Offered(thread, exchange), waitTime), looks), Some(thread), "credential-msg",
                     "cred_ex_id", looks, waitTime, swapped)
    ensures looks == waitTime && swapped == Err(TimeoutError)
    ensures Look(Asleep(EMPTY, Late(Offered(thread, exchange), waitTime), looks), Some(thread), "credential-msg",
                 "cred_ex_id")
         == Some(Ok(exchange))
  {
    InTheLastSleep(thread, exchange, waitTime);
    if looks < waitTime {
      NothingYet(Offered(thread, exchange), waitTime, looks);
    }
  }

  /**
   Once a request has polled away the only message of a thread, every swap for that thread that has any
   time fails at its first look, whatever comes later.
   */
  lemma PollStarvesSwap(s: Stored, id: Id, kind: string, idName: string, m: Message, others: nat -> seq<Op>,
                        sleepTime: nat, waitTime: nat, swapped: Result<string, Error>, looks: nat)
    requires At(s, id, kind) == [m]
    requires SawNothing(Perform(s, PopOp(id, kind)), others, looks, id, kind, idName)
    requires Swapped(Asleep(Perform(s, PopOp(id, kind)), others, looks), id, kind, idName, looks * sleepTime, waitTime,
                     swapped)
    ensures looks == 0 && swapped == Err(IndexError)
  {
    var polled := Perform(s, PopOp(id, kind));
    assert Look(polled, id, kind, idName) == Some(Err(IndexError)) by {
      assert [m][1..] == [];
    }
    assert Asleep(polled, others, 0) == polled;
  }

  // ---------------------------------------------------------------------------
  // The issue-credential webhooks
  // ---------------------------------------------------------------------------

  method HandleIssueCredentialV20(store: Store, m: Message) returns (done: Result<(), Error>)
    requires WellFormed(store.Value())
    modifies store
    ensures WellFormed(store.Value()) && store.Value() == PerformAll(old(store.Value()), V20Ops(m))
    ensures done == if "thread_id" in m then Ok(()) else Err(KeyError)
    ensures forall id, kind ::
              At(store.Value(), id, kind)
              == if !("state" in m && m["state"] == "deleted") && "thread_id" in m && id == Some(m["thread_id"])
                    && (kind == "credential-msg" || (kind == "revocation-registry-msg" && "revocation_id" in m))
                 then At(old(store.Value()), id, kind) + [m]
                 else At(old(store.Value()), id, kind)
  {
    CredentialFiled(store.Value(), m, "cred_ex_id");
    if "thread_id" !in m {
      return Err(KeyError);
    }
    var thread := Some(m["thread_id"]);
    if "state" in m && m["state"] == "deleted" {
      return Ok(());
    }
    ghost var first := [PushOp(thread, "credential-msg", m, Some("cred_ex_id"))];
    store.PushResource(thread, "credential-msg", m, Some("cred_ex_id"));
    assert store.Value() == PerformAll(old(store.Value()), first) by {
      assert first[..0] == [];
    }
    if "revocation_id" in m {
      store.PushResource(thread, "revocation-registry-msg", m, Some("cred_ex_id"));
      assert V20Ops(m)[..1] == first;
    }
    return Ok(());
  }

  /** The message, if it has a revocation id, is added to the revocation messages of the thread; nothing else is. */
  ghost predicate Files(s: Stored, s': Stored, thread: Id, message: Message) {
    forall id, kind ::
      At(s', id, kind)
      == if id == thread && kind == "revocation-registry-msg" && "revocation_id" in message
         then At(s, id, kind) + [message]
         else At(s, id, kind)
  }

  /** `others` is what happens to the store while the handler waits for the agent. */
  method HandleIssueCredentialV20Anoncreds(store: Store, m: Message, response: Option<Message>, others: seq<Op>)
    returns (done: Result<(), Error>)
    requires WellFormed(store.Value())
    modifies store
    ensures WellFormed(store.Value())
    ensures "cred_ex_id" !in m ==> done == Err(KeyError)
    ensures "cred_ex_id" in m ==>
              var thread := DataIdOf(old(store.Value()), "credential-msg", "cred_ex_id", m["cred_ex_id"]);
              done == if thread.Ok? then Ok(()) else Err(thread.error)
    ensures store.Value() ==
            if done.Err? || "cred_id_stored" !in m then old(store.Value())
            else
              var waited := PerformAll(old(store.Value()), others);
              var thread := DataIdOf(old(store.Value()), "credential-msg", "cred_ex_id", m["cred_ex_id"]).value;
              PerformAll(waited, AnoncredsOps(thread, m, response))
    ensures done.Ok? && "cred_id_stored" in m ==>
              exists message ::
                && CompletedBy(message, m, response)
                && Files(PerformAll(old(store.Value()), others), store.Value(),
                         DataIdOf(old(store.Value()), "credential-msg", "cred_ex_id", m["cred_ex_id"]).value, message)
  {
    if "cred_ex_id" !in m {
      return Err(KeyError);
    }
    var name := MappingName("credential-msg", "cred_ex_id");
    var thread: Id := None;
    if name in store.toData {
      if m["cred_ex_id"] !in store.toData[name] {
        return Err(KeyError);
      }
      thread := store.toData[name][m["cred_ex_id"]];
    }
    if "cred_id_stored" !in m {
      return Ok(());
    }
    store.RunOthers(others);
    var message := m;
    if response.Some? {
      if "cred_rev_id" in response.value {
        message := message["revocation_id" := response.value["cred_rev_id"]];
      }
      if "rev_reg_id" in response.value {
        message := message["revoc_reg_id" := response.value["rev_reg_id"]];
      }
    }
    ghost var waited := store.Value();
    CompletedIs(message, m, response);
    AnoncredsFiled(waited, thread, m, response, message);
    if "revocation_id" in message {
      store.PushResource(thread, "revocation-registry-msg", message, None);
      PerformOne(waited, PushOp(thread, "revocation-registry-msg", message, None));
    }
    assert Files(waited, store.Value(), thread, message);
    return Ok(());
  }

  /** No later push binds the exchange id to another thread. */
  ghost predicate KeepsThread(later: seq<Op>, e: string, thread: Id) {
    forall p | p in Bound(later) ::
      p.name == MappingName("credential-msg", "cred_ex_id") && p.exchange == e ==> p.id == thread
  }

  lemma {:induction false} StillLast(bound: seq<Pair>, later: seq<Op>, e: string, thread: Id)
    requires LastThread(bound, MappingName("credential-msg", "cred_ex_id"), e) == Some(thread)
    requires KeepsThread(later, e, thread)
    ensures LastThread(bound + Bound(later), MappingName("credential-msg", "cred_ex_id"), e) == Some(thread)
  {
    if later == [] {
      assert bound + Bound(later) == bound;
    } else {
      var earlier, last := later[..|later| - 1], BoundBy(later[|later| - 1]);
      assert Bound(later) == Bound(earlier) + last;
      assert forall p | p in Bound(earlier) :: p in Bound(later);
      StillLast(bound, earlier, e, thread);
      if last == [] {
        assert Bound(later) == Bound(earlier);
      } else {
        assert last[0] in Bound(later);
        var whole := bound + Bound(later);
        assert whole[..|whole| - 1] == bound + Bound(earlier) && whole[|whole| - 1] == last[0];
      }
    }
  }

  lemma {:induction false} BoundBoth(earlier: seq<Op>, later: seq<Op>)
    ensures Bound(earlier + later) == Bound(earlier) + Bound(later)
  {
    if later == [] {
      assert earlier + later == earlier;
    } else {
      var n := |later| - 1;
      AppendLast(earlier, later);
      BoundBoth(earlier, later[..n]);
      Associates(Bound(earlier), Bound(later[..n]), BoundBy(later[n]));
    }
  }

  /** A v2.0 webhook that is not a deletion binds its exchange id to its thread. */
  lemma WebhookBinds(ops: seq<Op>, m: Message)
    requires V20Ops(m) != [] && "cred_ex_id" in m
    ensures LastThread(Bound(ops + V20Ops(m)), MappingName("credential-msg", "cred_ex_id"), m["cred_ex_id"])
         == Some(Some(m["thread_id"]))
  {
    var p := Pair(MappingName("credential-msg", "cred_ex_id"), Some(m["thread_id"]), m["cred_ex_id"]);
    var other := Pair(MappingName("revocation-registry-msg", "cred_ex_id"), Some(m["thread_id"]), m["cred_ex_id"]);
    BoundBoth(ops, V20Ops(m));
    assert p.name != other.name by {
      assert p.name[0] == 'c' && other.name[0] == 'r';
    }
    BoundByWebhook(m, p, other);
    LastWins(Bound(ops), p, other);
  }

  lemma BoundByWebhook(m: Message, p: Pair, other: Pair)
    requires V20Ops(m) != [] && "cred_ex_id" in m
    requires p == Pair(MappingName("credential-msg", "cred_ex_id"), Some(m["thread_id"]), m["cred_ex_id"])
    requires other == Pair(MappingName("revocation-registry-msg", "cred_ex_id"), Some(m["thread_id"]), m["cred_ex_id"])
    ensures Bound(V20Ops(m)) == if "revocation_id" in m then [p, other] else [p]
  {
    var first := V20Ops(m)[..1];
    assert first[..0] == [];
    assert Bound(first) == [p];
    assert |V20Ops(m)| == 1 ==> V20Ops(m) == first;
  }

  lemma LastWins(bound: seq<Pair>, p: Pair, other: Pair)
    requires p.name != other.name
    ensures LastThread(bound + [p], p.name, p.exchange) == Some(p.id)
    ensures LastThread(bound + [p, other], p.name, p.exchange) == Some(p.id)
  {
    assert (bound + [p])[..|bound|] == bound;
    assert (bound + [p, other])[..|bound| + 1] == bound + [p];
  }

  /**
   The anoncreds webhook that follows a v2.0 webhook for the same credential exchange, whatever
   happens in between, finds the thread of that webhook, and so files its revocation message under it.
   */
  lemma FiledUnderSameThread(before: seq<Op>, m: Message, between: seq<Op>)
    requires V20Ops(m) != [] && "cred_ex_id" in m && KeepsThread(between, m["cred_ex_id"], Some(m["thread_id"]))
    ensures DataIdOf(PerformAll(PerformAll(PerformAll(EMPTY, before), V20Ops(m)), between),
                     "credential-msg", "cred_ex_id", m["cred_ex_id"])
         == Ok(Some(m["thread_id"]))
  {
    WebhookBinds(before, m);
    StillLast(Bound(before + V20Ops(m)), between, m["cred_ex_id"], Some(m["thread_id"]));
    BoundBoth(before + V20Ops(m), between);
    PerformBoth(EMPTY, before, V20Ops(m));
    PerformBoth(EMPTY, before + V20Ops(m), between);
    DataIdIsLastThread(before + V20Ops(m) + between, "credential-msg", "cred_ex_id", m["cred_ex_id"]);
  }

  /** With no v2.0 webhook before it, the revocation message is filed under Python's None, or lost to a KeyError. */
  lemma FiledUnderNoThread(before: seq<Op>, e: string)
    requires LastThread(Bound(before), MappingName("credential-msg", "cred_ex_id"), e).None?
    ensures DataIdOf(PerformAll(EMPTY, before), "credential-msg", "cred_ex_id", e) in {Ok(None), Err(KeyError)}
  {
    DataIdIsLastThread(before, "credential-msg", "cred_ex_id", e);
  }
}

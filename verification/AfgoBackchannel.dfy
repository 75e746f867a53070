/**
 The AFGO backchannel's issue-credential messages in the webhook store. Polling for a state takes
 the newest message away, so whatever the message attaches is saved again for a later issue.
 */
module AfgoBackchannel {
  import opened Options
  import opened Storage
  import StoreHistory

  const STATES := "issue-credential-states-msg"
  const ACTIONS := "issue-credential-actions-msg"
  const DETAILS := "credential-details-msg"
  const CACHE := "credential-cache-msg"
  const REVOCATION := "revocation-registry-msg"

  const PIID := "message.Properties.piid"
  const TYPE := "message.Message.@type"
  const STATE_ID := "message.StateID"

  const MAX_TIMEOUT: nat := 20

  /** The word occurs in the message's text, that is, in a member's name or value. */
  predicate Mentions(m: Message, word: string) {
    exists name | name in m :: Contains(name, word) || Contains(m[name], word)
  }

  predicate Contains(text: string, word: string) {
    exists i | 0 <= i <= |text| :: word <= text[i..]
  }

  predicate Attaches(m: Message) {
    Mentions(m, "filters~attach") || Mentions(m, "/3.0/propose-credential")
  }

  predicate Issues(m: Message) {
    Mentions(m, "credentials~attach") || Mentions(m, "/3.0/issue-credential")
  }

  /** A message on its way out is saved under its thread for the handlers that will need what it attaches. */
  function Resave(s: Stored, m: Message): Stored
    requires PIID in m
  {
    var detailed := if Attaches(m) then Push(s, Some(m[PIID]), DETAILS, m, None) else s;
    if Issues(m) then Push(detailed, Some(m[PIID]), CACHE, m, None) else detailed
  }

  /** The state an actions message stands for, by the table from message types to states. */
  function Stated(m: Message, table: map<string, string>): Result<Message, Error> {
    if TYPE !in m || m[TYPE] !in table then Err(KeyError)
    else Ok(m[STATE_ID := table[m[TYPE]]]["state" := table[m[TYPE]]])
  }

  datatype Act =
    | StatesWebhook(m: Message)
    | ActionsWebhook(m: Message)
    | Other(op: Op)              // pushes and pops of other message types
    | HandOut(kind: string)      // a poll that finds a message
    | FallBack                   // a poll that reads the state off the latest actions message
    | TakeDetails(piid: string)  // issue

  /** The message a poll of that type finds, if any. */
  function Newest(s: Stored, kind: string): Option<Message> {
    Popped(s, PopLatestOp(kind))
  }

  /** What get-latest answers. */
  function Peek(s: Stored, kind: string): Result<Message, Error> {
    if Latest(s).Err? then Err(IndexError)
    else if Get(s, Latest(s).value, kind).None? then Err(KeyError)
    else if Newest(s, kind).None? then Err(IndexError)
    else Ok(Newest(s, kind).value)
  }

  /** The latest actions message with its state written into it, where it is. */
  function Peeked(s: Stored, table: map<string, string>): Result<Message, Error> {
    if Peek(s, ACTIONS).Err? then Peek(s, ACTIONS) else Stated(Peek(s, ACTIONS).value, table)
  }

  function Rewritten(s: Stored, table: map<string, string>): Stored
    requires Peeked(s, table).Ok?
  {
    var latest := Latest(s).value;
    var list := At(s, latest, ACTIONS);
    Put(s, latest, ACTIONS, list[..|list| - 1] + [Peeked(s, table).value])
  }

  /** One step of the store; a step that is not enabled changes nothing. */
  function Do(s: Stored, act: Act, table: map<string, string>): Stored {
    match act
    case StatesWebhook(m) =>
      if PIID !in m then s
      else
        var pushed := Push(s, Some(m[PIID]), STATES, m, None);
        if "revocation_id" in m then Push(pushed, Some(m[PIID]), REVOCATION, m, None) else pushed
    case ActionsWebhook(m) => if PIID in m then Push(s, Some(m[PIID]), ACTIONS, m, None) else s
    case Other(op) => if Own(op.kind) then s else Perform(s, op)
    case HandOut(kind) =>
      if kind !in {STATES, ACTIONS} || Newest(s, kind).None? || PIID !in Newest(s, kind).value then s
      else Resave(Perform(s, PopLatestOp(kind)), Newest(s, kind).value)
    case FallBack =>
      if Peeked(s, table).Err? || PIID !in Peeked(s, table).value then s
      else Resave(Rewritten(s, table), Peeked(s, table).value)
    case TakeDetails(piid) => Perform(s, PopOp(Some(piid), DETAILS))
  }

  function DoAll(s: Stored, acts: seq<Act>, table: map<string, string>): Stored {
    if acts == [] then s else Do(DoAll(s, acts[..|acts| - 1], table), acts[|acts| - 1], table)
  }

  // ---------------------------------------------------------------------------
  // Messages are filed under their own thread
  // ---------------------------------------------------------------------------

  /** The message types this module is about. */
  predicate Own(kind: string) {
    kind == STATES || kind == ACTIONS || kind == DETAILS
  }

  ghost predicate FiledUnder(list: seq<Message>, id: Id) {
    forall m | m in list :: PIID in m && id == Some(m[PIID])
  }

  ghost predicate Keyed(s: Stored) {
    WellFormed(s) && forall id, kind | Own(kind) :: FiledUnder(At(s, id, kind), id)
  }

  lemma PushKeyed(s: Stored, id: Id, kind: string, m: Message, idName: Option<string>)
    requires Keyed(s) && (Own(kind) ==> PIID in m && id == Some(m[PIID]))
    ensures Keyed(Push(s, id, kind, m, idName))
  {
    AtPush(s, id, kind, m, idName);
    assert Own(kind) ==> FiledUnder(At(s, id, kind), id);
  }

  lemma PutKeyed(s: Stored, id: Id, kind: string, list: seq<Message>)
    requires Keyed(s) && (Own(kind) ==> FiledUnder(list, id))
    ensures Keyed(Put(s, id, kind, list))
  {
    AtPut(s, id, kind, list);
    PutWellFormed(s, id, kind, list);
  }

  lemma PerformKeyed(s: Stored, op: Op)
    requires Keyed(s) && (op.PushOp? ==> !Own(op.kind))
    ensures Keyed(Perform(s, op))
  {
    match op
    case PushOp(id, kind, m, idName) => PushKeyed(s, id, kind, m, idName);
    case PopOp(id, kind) =>
      if At(s, id, kind) != [] {
        assert Own(kind) ==> FiledUnder(At(s, id, kind), id);
        PutKeyed(s, id, kind, At(s, id, kind)[1..]);
      }
    case PopLatestOp(kind) =>
      if Newest(s, kind).Some? {
        var id := Latest(s).value;
        assert Own(kind) ==> FiledUnder(At(s, id, kind), id);
        PutKeyed(s, id, kind, At(s, id, kind)[..|At(s, id, kind)| - 1]);
      }
  }

  lemma ResaveKeyed(s: Stored, m: Message)
    requires Keyed(s) && PIID in m
    ensures Keyed(Resave(s, m))
  {
    PushKeyed(s, Some(m[PIID]), DETAILS, m, None);
    PushKeyed(if Attaches(m) then Push(s, Some(m[PIID]), DETAILS, m, None) else s, Some(m[PIID]), CACHE, m, None);
  }

  /** The newest message belongs to the latest thread. */
  lemma NewestKeyed(s: Stored, kind: string)
    requires Keyed(s) && Own(kind) && Newest(s, kind).Some?
    ensures PIID in Newest(s, kind).value && Latest(s) == Ok(Some(Newest(s, kind).value[PIID]))
  {
    assert FiledUnder(At(s, Latest(s).value, kind), Latest(s).value);
  }

  lemma FallBackKeyed(s: Stored, table: map<string, string>)
    requires Keyed(s) && Peeked(s, table).Ok?
    ensures PIID in Peeked(s, table).value && Latest(s) == Ok(Some(Peeked(s, table).value[PIID]))
    ensures Keyed(Rewritten(s, table))
  {
    NewestKeyed(s, ACTIONS);
    assert PIID != STATE_ID && PIID != "state" by {
      assert PIID[8] == 'P';
    }
    var latest := Latest(s).value;
    var list := At(s, latest, ACTIONS);
    assert FiledUnder(list, latest);
    PutKeyed(s, latest, ACTIONS, list[..|list| - 1] + [Peeked(s, table).value]);
  }

  lemma DoKeyed(s: Stored, act: Act, table: map<string, string>)
    requires Keyed(s)
    ensures Keyed(Do(s, act, table))
  {
    match act
    case StatesWebhook(m) =>
      if PIID in m {
        PushKeyed(s, Some(m[PIID]), STATES, m, None);
        PushKeyed(Push(s, Some(m[PIID]), STATES, m, None), Some(m[PIID]), REVOCATION, m, None);
      }
    case ActionsWebhook(m) =>
      if PIID in m {
        PushKeyed(s, Some(m[PIID]), ACTIONS, m, None);
      }
    case Other(op) =>
      if !Own(op.kind) {
        PerformKeyed(s, op);
      }
    case HandOut(kind) =>
      PerformKeyed(s, PopLatestOp(kind));
      if Do(s, act, table) != s {
        ResaveKeyed(Perform(s, PopLatestOp(kind)), Newest(s, kind).value);
      }
    case FallBack =>
      if Do(s, act, table) != s {
        FallBackKeyed(s, table);
        ResaveKeyed(Rewritten(s, table), Peeked(s, table).value);
      }
    case TakeDetails(piid) => PerformKeyed(s, PopOp(Some(piid), DETAILS));
  }

  /** In every run, each credential message is filed under the thread it names. */
  lemma {:induction false} RunKeyed(acts: seq<Act>, table: map<string, string>)
    ensures Keyed(DoAll(EMPTY, acts, table))
  {
    if acts == [] {
    } else {
      RunKeyed(acts[..|acts| - 1], table);
      DoKeyed(DoAll(EMPTY, acts[..|acts| - 1], table), acts[|acts| - 1], table);
    }
  }

  // ---------------------------------------------------------------------------
  // What a poll takes away is kept for issue
  // ---------------------------------------------------------------------------

  function HandedOut(s: Stored, act: Act, table: map<string, string>): Option<Message> {
    match act
    case HandOut(kind) => if kind in {STATES, ACTIONS} then Newest(s, kind) else None
    case FallBack => if Peeked(s, table).Ok? then Some(Peeked(s, table).value) else None
    case _ => None
  }

  /** The message of thread p that the step hands out, when it attaches something. */
  function Saved(s: Stored, act: Act, table: map<string, string>, p: string): seq<Message> {
    var m := HandedOut(s, act, table);
    if m.Some? && Attaches(m.value) && PIID in m.value && m.value[PIID] == p then [m.value] else []
  }

  /** The saved message of thread p that the step takes. */
  function Used(s: Stored, act: Act, p: string): seq<Message> {
    if act == TakeDetails(p) && At(s, Some(p), DETAILS) != [] then [At(s, Some(p), DETAILS)[0]] else []
  }

  function AllSaved(acts: seq<Act>, table: map<string, string>, p: string): seq<Message> {
    if acts == [] then []
    else
      AllSaved(acts[..|acts| - 1], table, p)
      + Saved(DoAll(EMPTY, acts[..|acts| - 1], table), acts[|acts| - 1], table, p)
  }

  function AllUsed(acts: seq<Act>, table: map<string, string>, p: string): seq<Message> {
    if acts == [] then []
    else
      AllUsed(acts[..|acts| - 1], table, p) + Used(DoAll(EMPTY, acts[..|acts| - 1], table), acts[|acts| - 1], p)
  }

  lemma KindsDiffer()
    ensures STATES != DETAILS && ACTIONS != DETAILS && CACHE != DETAILS && REVOCATION != DETAILS && STATES != ACTIONS
  {
    assert STATES[0] == ACTIONS[0] == 'i' && DETAILS[0] == 'c' && REVOCATION[0] == 'r';
    assert CACHE[11] == 'c' && DETAILS[11] == 'd';
    assert STATES[17] == 's' && ACTIONS[17] == 'a';
  }

  lemma PushKeepsIds(s: Stored, m: Message, kind: string)
    requires WellFormed(s) && PIID in m && Latest(s) == Ok(Some(m[PIID]))
    ensures var pushed := Push(s, Some(m[PIID]), kind, m, None);
            && pushed.ids == s.ids && WellFormed(pushed)
            && forall id :: At(pushed, id, DETAILS)
                         == if kind == DETAILS && id == Some(m[PIID]) then At(s, id, DETAILS) + [m]
                            else At(s, id, DETAILS)
  {
    assert s.ids[|s.ids| - 1] == Some(m[PIID]);
    AtPush(s, Some(m[PIID]), kind, m, None);
  }

  /** Saving does not change which thread is the latest, for the message comes from there. */
  lemma ResaveSaves(s: Stored, m: Message)
    requires WellFormed(s) && PIID in m && Latest(s) == Ok(Some(m[PIID]))
    ensures Resave(s, m).ids == s.ids
    ensures forall id :: At(Resave(s, m), id, DETAILS)
                         == if Attaches(m) && id == Some(m[PIID]) then At(s, id, DETAILS) + [m] else At(s, id, DETAILS)
  {
    assert CACHE != DETAILS by {
      KindsDiffer();
    }
    PushKeepsIds(s, m, DETAILS);
    PushKeepsIds(if Attaches(m) then Push(s, Some(m[PIID]), DETAILS, m, None) else s, m, CACHE);
  }

  lemma PopKeepsDetails(s: Stored, kind: string)
    requires WellFormed(s) && kind != DETAILS
    ensures forall id :: At(Perform(s, PopLatestOp(kind)), id, DETAILS) == At(s, id, DETAILS)
    ensures Perform(s, PopLatestOp(kind)).ids == s.ids && WellFormed(Perform(s, PopLatestOp(kind)))
  {
    if Newest(s, kind).Some? {
      var list := At(s, Latest(s).value, kind);
      AtPut(s, Latest(s).value, kind, list[..|list| - 1]);
      PutWellFormed(s, Latest(s).value, kind, list[..|list| - 1]);
    }
  }

  /** Polling and issuing never change which thread counts as the latest, and what is polled is of that thread. */
  lemma LatestStays(s: Stored, act: Act, table: map<string, string>)
    requires Keyed(s) && (act.HandOut? || act.FallBack? || act.TakeDetails?)
    ensures Do(s, act, table).ids == s.ids
    ensures HandedOut(s, act, table).Some? ==>
              PIID in HandedOut(s, act, table).value && Latest(s) == Ok(Some(HandedOut(s, act, table).value[PIID]))
  {
    KindsDiffer();
    match act
    case HandOut(kind) =>
      if HandedOut(s, act, table).Some? {
        NewestKeyed(s, kind);
        PopKeepsDetails(s, kind);
        ResaveSaves(Perform(s, PopLatestOp(kind)), Newest(s, kind).value);
      }
    case FallBack =>
      if HandedOut(s, act, table).Some? {
        FallBackKeyed(s, table);
        ResaveSaves(Rewritten(s, table), Peeked(s, table).value);
      }
    case TakeDetails(piid) =>
  }

  lemma PushKeepsDetails(s: Stored, id: Id, kind: string, m: Message, idName: Option<string>)
    requires kind != DETAILS
    ensures forall i :: At(Push(s, id, kind, m, idName), i, DETAILS) == At(s, i, DETAILS)
  {
    AtPush(s, id, kind, m, idName);
  }

  /** Other webhooks and requests leave the saved details alone. */
  lemma OthersKeepDetails(s: Stored, act: Act, table: map<string, string>, p: string)
    requires WellFormed(s) && (act.StatesWebhook? || act.ActionsWebhook? || act.Other?)
    ensures At(Do(s, act, table), Some(p), DETAILS) == At(s, Some(p), DETAILS)
  {
    KindsDiffer();
    match act
    case StatesWebhook(m) =>
      if PIID in m {
        PushKeepsDetails(s, Some(m[PIID]), STATES, m, None);
        PushKeepsDetails(Push(s, Some(m[PIID]), STATES, m, None), Some(m[PIID]), REVOCATION, m, None);
      }
    case ActionsWebhook(m) =>
      if PIID in m {
        PushKeepsDetails(s, Some(m[PIID]), ACTIONS, m, None);
      }
    case Other(op) =>
      if op.kind != DETAILS {
        PerformKeepsDetails(s, op);
      }
  }

  lemma PerformKeepsDetails(s: Stored, op: Op)
    requires op.kind != DETAILS
    ensures forall i :: At(Perform(s, op), i, DETAILS) == At(s, i, DETAILS)
  {
    forall i ensures At(Perform(s, op), i, DETAILS) == At(s, i, DETAILS) {
      StoreHistory.OneStep(s, op, i, DETAILS);
    }
  }

  lemma HandOutDetails(s: Stored, kind: string, table: map<string, string>, p: string)
    requires Keyed(s) && HandedOut(s, HandOut(kind), table).Some?
    ensures At(Do(s, HandOut(kind), table), Some(p), DETAILS)
         == At(s, Some(p), DETAILS) + Saved(s, HandOut(kind), table, p)
  {
    KindsDiffer();
    NewestKeyed(s, kind);
    PopKeepsDetails(s, kind);
    ResaveSaves(Perform(s, PopLatestOp(kind)), Newest(s, kind).value);
  }

  lemma RewrittenKeepsDetails(s: Stored, table: map<string, string>)
    requires Peeked(s, table).Ok? && ACTIONS != DETAILS
    ensures forall i :: At(Rewritten(s, table), i, DETAILS) == At(s, i, DETAILS)
  {
    var list := At(s, Latest(s).value, ACTIONS);
    AtPut(s, Latest(s).value, ACTIONS, list[..|list| - 1] + [Peeked(s, table).value]);
  }

  lemma FallBackDetails(s: Stored, table: map<string, string>, p: string)
    requires Keyed(s) && Peeked(s, table).Ok?
    ensures At(Do(s, FallBack, table), Some(p), DETAILS)
         == At(s, Some(p), DETAILS) + Saved(s, FallBack, table, p)
  {
    KindsDiffer();
    FallBackKeyed(s, table);
    RewrittenKeepsDetails(s, table);
    ResaveSaves(Rewritten(s, table), Peeked(s, table).value);
  }

  lemma TakeDetailsDetails(s: Stored, piid: string, table: map<string, string>, p: string)
    ensures At(s, Some(p), DETAILS)
         == Used(s, TakeDetails(piid), p) + At(Do(s, TakeDetails(piid), table), Some(p), DETAILS)
  {
    var list := At(s, Some(piid), DETAILS);
    if list != [] {
      AtPut(s, Some(piid), DETAILS, list[1..]);
    }
  }

  lemma StepDetails(s: Stored, act: Act, table: map<string, string>, p: string)
    requires Keyed(s)
    ensures At(s, Some(p), DETAILS) + Saved(s, act, table, p)
         == Used(s, act, p) + At(Do(s, act, table), Some(p), DETAILS)
  {
    match act
    case StatesWebhook(_) => OthersKeepDetails(s, act, table, p);
    case ActionsWebhook(_) => OthersKeepDetails(s, act, table, p);
    case Other(_) => OthersKeepDetails(s, act, table, p);
    case HandOut(kind) =>
      if HandedOut(s, act, table).Some? {
        HandOutDetails(s, kind, table, p);
      }
    case FallBack =>
      if HandedOut(s, act, table).Some? {
        FallBackDetails(s, table, p);
      }
    case TakeDetails(piid) => TakeDetailsDetails(s, piid, table, p);
  }

  /**
   In every run, the details kept for a thread are the attaching messages handed out for it, less
   those issues have used, oldest first: no state poll loses any.
   */
  lemma {:induction false} DetailsKept(acts: seq<Act>, table: map<string, string>, p: string)
    ensures AllSaved(acts, table, p) == AllUsed(acts, table, p) + At(DoAll(EMPTY, acts, table), Some(p), DETAILS)
  {
    if acts == [] {
    } else {
      var earlier, act := acts[..|acts| - 1], acts[|acts| - 1];
      var s := DoAll(EMPTY, earlier, table);
      DetailsKept(earlier, table, p);
      RunKeyed(earlier, table);
      StepDetails(s, act, table, p);
      StoreHistory.Regroup([], AllSaved(earlier, table, p), Saved(s, act, table, p), AllUsed(earlier, table, p),
                           At(s, Some(p), DETAILS), Used(s, act, p), At(Do(s, act, table), Some(p), DETAILS));
    }
  }

  /**
   An issue finds details for its thread exactly when more have been handed out than used, and then the
   oldest of the rest.
   */
  lemma IssueFinds(acts: seq<Act>, table: map<string, string>, p: string)
    ensures var saved, used := AllSaved(acts, table, p), AllUsed(acts, table, p);
            Popped(DoAll(EMPTY, acts, table), PopOp(Some(p), DETAILS))
            == if |saved| > |used| then Some(saved[|used|]) else None
  {
    DetailsKept(acts, table, p);
  }

  // Which messages are kept, in the words that the text of a message is searched for

  /** The word is a part of the text. */
  ghost predicate PartOf(word: string, text: string) {
    exists before, after :: text == before + (word + after)
  }

  lemma ContainsIff(text: string, word: string)
    ensures Contains(text, word) <==> PartOf(word, text)
  {
    if Contains(text, word) {
      var i :| 0 <= i <= |text| && word <= text[i..];
      assert text[i..] == word + text[i..][|word|..];
      assert text == text[..i] + text[i..];
    }
    if PartOf(word, text) {
      var before, after :| text == before + (word + after);
      assert text[|before|..] == word + after;
    }
  }

  /** A message mentions a word exactly when a name or a value in it has the word as a part. */
  lemma MentionsIff(m: Message, word: string)
    ensures Mentions(m, word) <==> exists name | name in m :: PartOf(word, name) || PartOf(word, m[name])
  {
    forall name | name in m
      ensures Contains(name, word) || Contains(m[name], word) <==> PartOf(word, name) || PartOf(word, m[name])
    {
      ContainsIff(name, word);
      ContainsIff(m[name], word);
    }
  }

  lemma AllSavedNext(acts: seq<Act>, act: Act, table: map<string, string>, p: string)
    ensures AllSaved(acts + [act], table, p)
         == AllSaved(acts, table, p) + Saved(DoAll(EMPTY, acts, table), act, table, p)
    ensures AllUsed(acts + [act], table, p) == AllUsed(acts, table, p) + Used(DoAll(EMPTY, acts, table), act, p)
    ensures DoAll(EMPTY, acts + [act], table) == Do(DoAll(EMPTY, acts, table), act, table)
  {
    assert (acts + [act])[..|acts|] == acts;
  }

  /**
   After every run: a message a poll hands out is kept for its thread, after what is kept already, exactly when a
   name or a value in it mentions `filters~attach` or `/3.0/propose-credential`.
   */
  lemma KeptByItsWords(acts: seq<Act>, act: Act, table: map<string, string>)
    requires HandedOut(DoAll(EMPTY, acts, table), act, table).Some?
    ensures var s := DoAll(EMPTY, acts, table);
            var m := HandedOut(s, act, table).value;
            var words := Mentions(m, "filters~attach") || Mentions(m, "/3.0/propose-credential");
            && "message.Properties.piid" in m
            && AllSaved(acts + [act], table, m["message.Properties.piid"])
               == AllSaved(acts, table, m["message.Properties.piid"]) + (if words then [m] else [])
            && At(Do(s, act, table), Some(m["message.Properties.piid"]), "credential-details-msg")
               == At(s, Some(m["message.Properties.piid"]), "credential-details-msg") + if words then [m] else []
  {
    var s := DoAll(EMPTY, acts, table);
    RunKeyed(acts, table);
    LatestStays(s, act, table);
    var p := HandedOut(s, act, table).value[PIID];
    AllSavedNext(acts, act, table, p);
    StepDetails(s, act, table, p);
  }

  /** The same for a copy that only `credentials~attach` and `/3.0/issue-credential` are searched for. */
  lemma CachedByItsWords(acts: seq<Act>, act: Act, table: map<string, string>)
    requires HandedOut(DoAll(EMPTY, acts, table), act, table).Some?
    ensures var s := DoAll(EMPTY, acts, table);
            var m := HandedOut(s, act, table).value;
            var words := Mentions(m, "credentials~attach") || Mentions(m, "/3.0/issue-credential");
            && "message.Properties.piid" in m
            && At(Do(s, act, table), Some(m["message.Properties.piid"]), "credential-cache-msg")
               == At(s, Some(m["message.Properties.piid"]), "credential-cache-msg") + if words then [m] else []
  {
    var s := DoAll(EMPTY, acts, table);
    RunKeyed(acts, table);
    LatestStays(s, act, table);
    match act
    case HandOut(kind) => HandOutCaches(s, kind, table);
    case FallBack => FallBackCaches(s, table);
  }

  lemma CacheDiffers()
    ensures CACHE != STATES && CACHE != ACTIONS && CACHE != DETAILS
  {
    assert CACHE[0] == 'c' && STATES[0] == ACTIONS[0] == 'i' && CACHE[11] == 'c' && DETAILS[11] == 'd';
  }

  lemma ResaveCaches(s: Stored, m: Message)
    requires PIID in m
    ensures At(Resave(s, m), Some(m[PIID]), CACHE)
         == At(s, Some(m[PIID]), CACHE)
            + if Mentions(m, "credentials~attach") || Mentions(m, "/3.0/issue-credential") then [m] else []
  {
    CacheDiffers();
    AtPush(s, Some(m[PIID]), DETAILS, m, None);
    AtPush(if Attaches(m) then Push(s, Some(m[PIID]), DETAILS, m, None) else s, Some(m[PIID]), CACHE, m, None);
  }

  lemma HandOutCaches(s: Stored, kind: string, table: map<string, string>)
    requires Keyed(s) && HandedOut(s, HandOut(kind), table).Some?
    ensures var m := Newest(s, kind).value;
            && PIID in m
            && At(Do(s, HandOut(kind), table), Some(m[PIID]), CACHE)
               == At(s, Some(m[PIID]), CACHE)
                  + if Mentions(m, "credentials~attach") || Mentions(m, "/3.0/issue-credential") then [m] else []
  {
    var m := Newest(s, kind).value;
    CacheDiffers();
    NewestKeyed(s, kind);
    StoreHistory.OneStep(s, PopLatestOp(kind), Some(m[PIID]), CACHE);
    ResaveCaches(Perform(s, PopLatestOp(kind)), m);
  }

  lemma FallBackCaches(s: Stored, table: map<string, string>)
    requires Keyed(s) && Peeked(s, table).Ok?
    ensures var m := Peeked(s, table).value;
            && PIID in m
            && At(Do(s, FallBack, table), Some(m[PIID]), CACHE)
               == At(s, Some(m[PIID]), CACHE)
                  + if Mentions(m, "credentials~attach") || Mentions(m, "/3.0/issue-credential") then [m] else []
  {
    CacheDiffers();
    FallBackKeyed(s, table);
    RewrittenIs(s, table, Some(Peeked(s, table).value[PIID]), CACHE);
    ResaveCaches(Rewritten(s, table), Peeked(s, table).value);
  }

  /** What is kept stays kept as long as no issue takes it. */
  lemma {:induction false} SavedStays(acts: seq<Act>, later: seq<Act>, table: map<string, string>, p: string)
    requires TakeDetails(p) !in later
    ensures AllSaved(acts, table, p) <= AllSaved(acts + later, table, p)
    ensures AllUsed(acts + later, table, p) == AllUsed(acts, table, p)
  {
    if later == [] {
      assert acts + later == acts;
    } else {
      var before, act := later[..|later| - 1], later[|later| - 1];
      assert forall a | a in before :: a in later;
      SavedStays(acts, before, table, p);
      LastApart(acts, later);
      AllSavedNext(acts + before, act, table, p);
      PrefixOfLonger(AllSaved(acts, table, p), AllSaved(acts + before, table, p),
                     Saved(DoAll(EMPTY, acts + before, table), act, table, p));
    }
  }

  lemma LastApart<T>(a: seq<T>, b: seq<T>)
    requires b != []
    ensures a + b == (a + b[..|b| - 1]) + [b[|b| - 1]]
  {
  }

  lemma PrefixOfLonger<T>(a: seq<T>, b: seq<T>, more: seq<T>)
    requires a <= b
    ensures a <= b + more
  {
  }

  /**
   End to end: a poll has handed out a message that mentions the words, and nothing was kept for its thread before.
   Then the next issue of the thread, whatever else happens before it, takes that message.
   */
  lemma IssueFindsKept(acts: seq<Act>, act: Act, later: seq<Act>, table: map<string, string>, p: string)
    requires HandedOut(DoAll(EMPTY, acts, table), act, table).Some?
    requires var m := HandedOut(DoAll(EMPTY, acts, table), act, table).value;
             && (Mentions(m, "filters~attach") || Mentions(m, "/3.0/propose-credential"))
             && PIID in m && m[PIID] == p
    requires At(DoAll(EMPTY, acts, table), Some(p), "credential-details-msg") == [] && TakeDetails(p) !in later
    ensures Popped(DoAll(EMPTY, acts + [act] + later, table), PopOp(Some(p), "credential-details-msg"))
         == HandedOut(DoAll(EMPTY, acts, table), act, table)
  {
    var used := AllUsed(acts, table, p);
    DetailsKept(acts, table, p);
    assert AllSaved(acts, table, p) == used;
    KeptByItsWords(acts, act, table);
    AllSavedNext(acts, act, table, p);
    SavedStays(acts + [act], later, table, p);
    IssueFinds(acts + [act] + later, table, p);
    assert act != TakeDetails(p);
  }

  /**
   Reading the state off the same actions message again leaves it as it is, so the copies saved earlier
   stay the same message.
   */
  lemma StatedTwice(m: Message, table: map<string, string>)
    requires Stated(m, table).Ok?
    ensures Stated(Stated(m, table).value, table) == Stated(m, table)
  {
    assert TYPE[8] == 'M' && STATE_ID[8] == 'S' && TYPE != STATE_ID && TYPE[0] == 'm';
    var stated, state := Stated(m, table).value, table[m[TYPE]];
    assert stated[TYPE] == m[TYPE] && stated[STATE_ID := state] == stated && stated["state" := state] == stated;
  }

  /** The state goes into two members of the message and nothing else changes; a type without a state is a KeyError. */
  lemma StatedIs(m: Message, table: map<string, string>)
    ensures Stated(m, table).Err?
       <==> "message.Message.@type" !in m || m["message.Message.@type"] !in table
    ensures Stated(m, table).Err? ==> Stated(m, table).error == KeyError
    ensures Stated(m, table).Ok? ==>
              var stated, state := Stated(m, table).value, table[m["message.Message.@type"]];
              && "message.StateID" in stated && stated["message.StateID"] == state
              && "state" in stated && stated["state"] == state
              && forall name | name != "message.StateID" && name != "state" ::
                   StoreHistory.Find(stated, name) == StoreHistory.Find(m, name)
  {
    assert STATE_ID != "state" by {
      assert STATE_ID[0] == 'm';
    }
  }

  /** A fall-back replaces the newest actions message of the latest thread by itself with its state; nothing else. */
  lemma RewrittenIs(s: Stored, table: map<string, string>, id: Id, kind: string)
    requires Peeked(s, table).Ok?
    ensures var latest, list := Latest(s).value, At(s, Latest(s).value, "issue-credential-actions-msg");
            && list != [] && Stated(list[|list| - 1], table) == Peeked(s, table)
            && At(Rewritten(s, table), id, kind)
               == if id == latest && kind == "issue-credential-actions-msg"
                  then list[..|list| - 1] + [Peeked(s, table).value]
                  else At(s, id, kind)
  {
    var list := At(s, Latest(s).value, ACTIONS);
    AtPut(s, Latest(s).value, ACTIONS, list[..|list| - 1] + [Peeked(s, table).value]);
  }

  lemma ResaveAt(s: Stored, m: Message, id: Id, kind: string)
    requires PIID in m
    ensures At(Resave(s, m), id, kind)
         == if id == Some(m[PIID]) && Copied(m, kind) then At(s, id, kind) + [m] else At(s, id, kind)
  {
    CacheDiffers();
    AtPush(s, Some(m[PIID]), DETAILS, m, None);
    AtPush(if Attaches(m) then Push(s, Some(m[PIID]), DETAILS, m, None) else s, Some(m[PIID]), CACHE, m, None);
  }

  /** A copy of the message goes to the list of that type when it is handed out. */
  ghost predicate Copied(m: Message, kind: string) {
    || (kind == "credential-details-msg" && (Mentions(m, "filters~attach") || Mentions(m, "/3.0/propose-credential")))
    || (kind == "credential-cache-msg" && (Mentions(m, "credentials~attach") || Mentions(m, "/3.0/issue-credential")))
  }

  lemma PopLatestAt(s: Stored, polled: string, id: Id, kind: string)
    requires Newest(s, polled).Some?
    ensures var list := At(s, Latest(s).value, polled);
            At(Perform(s, PopLatestOp(polled)), id, kind)
            == if Latest(s) == Ok(id) && kind == polled then list[..|list| - 1] else At(s, id, kind)
  {
    var list := At(s, Latest(s).value, polled);
    AtPut(s, Latest(s).value, polled, list[..|list| - 1]);
  }

  lemma HandsOut(s: Stored, polled: string, table: map<string, string>)
    requires Keyed(s) && polled in {"issue-credential-states-msg", "issue-credential-actions-msg"}
    ensures var list := if Latest(s).Ok? then At(s, Latest(s).value, polled) else [];
            if list == [] then Do(s, HandOut(polled), table) == s
            else
              && var m := list[|list| - 1];
              && PIID in m && Latest(s) == Ok(Some(m[PIID])) && Newest(s, polled) == Some(m)
              && Do(s, HandOut(polled), table) == Resave(Perform(s, PopLatestOp(polled)), m)
  {
    if Newest(s, polled).Some? {
      NewestKeyed(s, polled);
    }
  }

  lemma ResavedAt(popped: Stored, m: Message, latest: Id, before: seq<Message>, id: Id, kind: string)
    requires PIID in m && latest == Some(m[PIID]) && At(popped, id, kind) == before
    ensures At(Resave(popped, m), id, kind) == if latest == id && Copied(m, kind) then before + [m] else before
  {
    ResaveAt(popped, m, id, kind);
  }

  /** A poll that finds something takes the newest message of the latest thread, and copies it; nothing else changes. */
  lemma HandOutIs(s: Stored, polled: string, table: map<string, string>, id: Id, kind: string)
    requires Keyed(s) && polled in {"issue-credential-states-msg", "issue-credential-actions-msg"}
    ensures var list := if Latest(s).Ok? then At(s, Latest(s).value, polled) else [];
            var before := if Latest(s) == Ok(id) && kind == polled && list != [] then list[..|list| - 1]
                          else At(s, id, kind);
            At(Do(s, HandOut(polled), table), id, kind)
            == if list != [] && Latest(s) == Ok(id) && Copied(list[|list| - 1], kind) then before + [list[|list| - 1]]
               else before
  {
    var list := if Latest(s).Ok? then At(s, Latest(s).value, polled) else [];
    HandsOut(s, polled, table);
    if list != [] {
      var before := if Latest(s) == Ok(id) && kind == polled then list[..|list| - 1] else At(s, id, kind);
      PopLatestAt(s, polled, id, kind);
      ResavedAt(Perform(s, PopLatestOp(polled)), list[|list| - 1], Latest(s).value, before, id, kind);
    }
  }

  lemma FallsBack(s: Stored, table: map<string, string>)
    requires Keyed(s)
    ensures var list := if Latest(s).Ok? then At(s, Latest(s).value, "issue-credential-actions-msg") else [];
            if list == [] || Stated(list[|list| - 1], table).Err? then Do(s, FallBack, table) == s
            else
              && var m := Stated(list[|list| - 1], table).value;
              && PIID in m && Latest(s) == Ok(Some(m[PIID])) && Peeked(s, table) == Ok(m)
              && Do(s, FallBack, table) == Resave(Rewritten(s, table), m)
  {
    if Peeked(s, table).Ok? {
      FallBackKeyed(s, table);
    }
  }

  /** A fall-back that finds a state writes it into the message where it is, and copies it; nothing else changes. */
  lemma FallBackIs(s: Stored, table: map<string, string>, id: Id, kind: string)
    requires Keyed(s)
    ensures var list := if Latest(s).Ok? then At(s, Latest(s).value, "issue-credential-actions-msg") else [];
            var stated := if list != [] then Stated(list[|list| - 1], table) else Err(KeyError);
            At(Do(s, FallBack, table), id, kind)
            == if stated.Err? || Latest(s) != Ok(id) then At(s, id, kind)
               else if kind == "issue-credential-actions-msg" then list[..|list| - 1] + [stated.value]
               else if Copied(stated.value, kind) then At(s, id, kind) + [stated.value]
               else At(s, id, kind)
  {
    var list := if Latest(s).Ok? then At(s, Latest(s).value, "issue-credential-actions-msg") else [];
    FallsBack(s, table);
    if list != [] && Stated(list[|list| - 1], table).Ok? {
      var m := Stated(list[|list| - 1], table).value;
      var before := if Latest(s) == Ok(id) && kind == "issue-credential-actions-msg" then list[..|list| - 1] + [m]
                    else At(s, id, kind);
      RewrittenIs(s, table, id, kind);
      ResavedAt(Rewritten(s, table), m, Latest(s).value, before, id, kind);
      NoActionsCopied(m);
    }
  }

  lemma NoActionsCopied(m: Message)
    ensures !Copied(m, "issue-credential-actions-msg") && !Copied(m, "issue-credential-states-msg")
  {
    assert "issue-credential-actions-msg"[0] == "issue-credential-states-msg"[0] == 'i';
    assert "credential-details-msg"[0] == "credential-cache-msg"[0] == 'c';
  }

  // ---------------------------------------------------------------------------
  // The handlers, which update the store in place
  // ---------------------------------------------------------------------------

  method HandleIssueCredentialStates(store: Store, m: Message, ghost table: map<string, string>)
    returns (done: Result<(), Error>)
    requires WellFormed(store.Value())
    modifies store
    ensures WellFormed(store.Value()) && store.Value() == Do(old(store.Value()), StatesWebhook(m), table)
    ensures done.Ok? <==> "message.Properties.piid" in m
    ensures done.Err? ==> store.Value() == old(store.Value())
    ensures done.Ok? ==>
              forall id, kind ::
                At(store.Value(), id, kind)
                == if id == Some(m["message.Properties.piid"])
                      && (|| kind == "issue-credential-states-msg"
                          || (kind == "revocation-registry-msg" && "revocation_id" in m))
                   then At(old(store.Value()), id, kind) + [m]
                   else At(old(store.Value()), id, kind)
  {
    if PIID !in m {
      return Err(KeyError);
    }
    var thread := Some(m[PIID]);
    ghost var start := store.Value();
    AtPush(start, thread, STATES, m, None);
    store.PushResource(thread, STATES, m, None);
    assert STATES != REVOCATION by {
      assert STATES[0] == 'i' && REVOCATION[0] == 'r';
    }
    if "revocation_id" in m {
      AtPush(store.Value(), thread, REVOCATION, m, None);
      store.PushResource(thread, REVOCATION, m, None);
    }
    return Ok(());
  }

  method HandleIssueCredentialActions(store: Store, m: Message, ghost table: map<string, string>)
    returns (done: Result<(), Error>)
    requires WellFormed(store.Value())
    modifies store
    ensures WellFormed(store.Value()) && store.Value() == Do(old(store.Value()), ActionsWebhook(m), table)
    ensures done.Ok? <==> "message.Properties.piid" in m
    ensures done.Err? ==> store.Value() == old(store.Value())
    ensures done.Ok? ==>
              forall id, kind ::
                At(store.Value(), id, kind)
                == if id == Some(m["message.Properties.piid"]) && kind == "issue-credential-actions-msg"
                   then At(old(store.Value()), id, kind) + [m]
                   else At(old(store.Value()), id, kind)
  {
    if PIID !in m {
      return Err(KeyError);
    }
    AtPush(store.Value(), Some(m[PIID]), ACTIONS, m, None);
    store.PushResource(Some(m[PIID]), ACTIONS, m, None);
    return Ok(());
  }

  method Save(store: Store, m: Message)
    requires WellFormed(store.Value()) && PIID in m
    modifies store
    ensures WellFormed(store.Value()) && store.Value() == Resave(old(store.Value()), m)
  {
    if Mentions(m, "filters~attach") || Mentions(m, "/3.0/propose-credential") {
      store.PushResource(Some(m[PIID]), DETAILS, m, None);
    }
    if Mentions(m, "credentials~attach") || Mentions(m, "/3.0/issue-credential") {
      store.PushResource(Some(m[PIID]), CACHE, m, None);
    }
  }

  /** Writes the state into the latest actions message, which stays in the store. */
  method StateFromActions(store: Store, table: map<string, string>) returns (m: Result<Message, Error>)
    requires WellFormed(store.Value())
    modifies store
    ensures m == Peeked(old(store.Value()), table)
    ensures store.Value() == if m.Err? then old(store.Value()) else Rewritten(old(store.Value()), table)
    ensures WellFormed(store.Value())
  {
    m := store.GetResourceLatest(ACTIONS);
    assert m == Peek(store.Value(), ACTIONS);
    if m.Err? {
      return;
    }
    if TYPE !in m.value || m.value[TYPE] !in table {
      return Err(KeyError);
    }
    var state := table[m.value[TYPE]];
    var stated := m.value[STATE_ID := state]["state" := state];
    var latest := store.ids[|store.ids| - 1];
    var list := store.items[latest][ACTIONS];
    store.items := store.items[latest := store.items[latest][ACTIONS := list[..|list| - 1] + [stated]]];
    m := Ok(stated);
  }

  /** Whatever other requests and webhooks do to the store while a poll sleeps. */
  method RunOthers(store: Store, acts: seq<Act>, table: map<string, string>)
    requires Keyed(store.Value())
    modifies store
    ensures store.Value() == DoAll(old(store.Value()), acts, table) && Keyed(store.Value())
  {
    for i := 0 to |acts|
      invariant store.Value() == DoAll(old(store.Value()), acts[..i], table) && Keyed(store.Value())
    {
      assert acts[..i + 1][..i] == acts[..i];
      DoKeyed(store.Value(), acts[i], table);
      RunOther(store, acts[i], table);
    }
    assert acts[..|acts|] == acts;
  }

  predicate Polled(kind: string) {
    kind == STATES || kind == ACTIONS
  }

  lemma HandOutOutcome(s: Stored, kind: string, table: map<string, string>)
    requires Keyed(s) && Polled(kind)
    ensures Newest(s, kind).None? ==> Perform(s, PopLatestOp(kind)) == s
    ensures Newest(s, kind).Some? ==>
              && PIID in Newest(s, kind).value && WellFormed(Perform(s, PopLatestOp(kind)))
              && Do(s, HandOut(kind), table) == Resave(Perform(s, PopLatestOp(kind)), Newest(s, kind).value)
    ensures Keyed(Do(s, HandOut(kind), table))
  {
    DoKeyed(s, HandOut(kind), table);
    PerformKeyed(s, PopLatestOp(kind));
    if Newest(s, kind).Some? {
      NewestKeyed(s, kind);
    }
  }

  lemma FallBackOutcome(s: Stored, table: map<string, string>)
    requires Keyed(s)
    ensures Peeked(s, table).Ok? ==>
              && PIID in Peeked(s, table).value && WellFormed(Rewritten(s, table))
              && Do(s, FallBack, table) == Resave(Rewritten(s, table), Peeked(s, table).value)
    ensures Peeked(s, table).Err? ==> Do(s, FallBack, table) == s
    ensures Keyed(Do(s, FallBack, table))
  {
    DoKeyed(s, FallBack, table);
    if Peeked(s, table).Ok? {
      FallBackKeyed(s, table);
    }
  }

  /** Another poll's last try. */
  method HandOutNewest(store: Store, kind: string, ghost table: map<string, string>)
    requires Keyed(store.Value()) && Polled(kind)
    modifies store
    ensures store.Value() == Do(old(store.Value()), HandOut(kind), table)
  {
    HandOutOutcome(store.Value(), kind, table);
    var m := store.PopResourceLatest(kind);
    if m.Ok? && m.value.Some? {
      Save(store, m.value.value);
    }
  }

  /** Another poll's fall-back. */
  method HandOutStated(store: Store, table: map<string, string>)
    requires Keyed(store.Value())
    modifies store
    ensures store.Value() == Do(old(store.Value()), FallBack, table)
  {
    FallBackOutcome(store.Value(), table);
    var m := StateFromActions(store, table);
    if m.Ok? {
      Save(store, m.value);
    }
  }

  method RunOther(store: Store, act: Act, table: map<string, string>)
    requires Keyed(store.Value())
    modifies store
    ensures store.Value() == Do(old(store.Value()), act, table)
  {
    match act
    case StatesWebhook(m) => var _ := HandleIssueCredentialStates(store, m, table);
    case ActionsWebhook(m) => var _ := HandleIssueCredentialActions(store, m, table);
    case Other(op) =>
      if op.kind != STATES && op.kind != ACTIONS && op.kind != DETAILS {
        store.RunOthers([op]);
        assert [op][..0] == [];
      }
    case HandOut(kind) =>
      if Polled(kind) {
        HandOutNewest(store, kind, table);
      }
    case FallBack => HandOutStated(store, table);
    case TakeDetails(piid) => var _ := store.PopResource(Some(piid), DETAILS);
  }

  /** The store after k sleeps of a poll that has found nothing. */
  function Slept(s: Stored, others: nat -> seq<Act>, k: nat, table: map<string, string>): Stored {
    if k == 0 then s else DoAll(Slept(s, others, k - 1, table), others(k - 1), table)
  }

  ghost predicate MissedBefore(s: Stored, others: nat -> seq<Act>, tries: nat, kind: string,
                               table: map<string, string>) {
    forall k: nat | 1 <= k < tries :: Newest(Slept(s, others, k, table), kind).None?
  }

  lemma SleptNext(s: Stored, others: nat -> seq<Act>, k: nat, table: map<string, string>)
    ensures Slept(s, others, k + 1, table) == DoAll(Slept(s, others, k, table), others(k), table)
  {
  }

  lemma MissedAgain(s: Stored, others: nat -> seq<Act>, tries: nat, kind: string, table: map<string, string>)
    requires MissedBefore(s, others, tries, kind, table) && Newest(Slept(s, others, tries, table), kind).None?
    ensures MissedBefore(s, others, tries + 1, kind, table)
  {
  }

  /** How a poll ends that last looked at `found`. */
  ghost predicate Ends(found: Stored, kind: string, table: map<string, string>, answer: Result<Message, Error>,
                       now: Stored) {
    if Latest(found).Err? then answer == Err(IndexError) && now == found
    else if Newest(found, kind).Some? then
      answer == Ok(Newest(found, kind).value) && now == Do(found, HandOut(kind), table)
    else if kind == STATES then answer == Peeked(found, table) && now == Do(found, FallBack, table)
    else answer == Ok(map[]) && now == found
  }

  /**
   The record the request is about plays no part: the poll looks at the latest thread at each of its
   tries, and hands out the newest message of the first try that finds one. A poll for a state that
   finds none falls back on the latest actions message. `{}` is `map[]`.
   */
  method RequestResponseIssueCredential(store: Store, kind: string, table: map<string, string>, others: nat -> seq<Act>)
    returns (answer: Result<Message, Error>, tries: nat)
    requires Keyed(store.Value()) && Polled(kind)
    modifies store
    ensures 1 <= tries <= MAX_TIMEOUT + 1 && Keyed(store.Value())
    ensures MissedBefore(old(store.Value()), others, tries, kind, table)
    ensures var found := Slept(old(store.Value()), others, tries, table);
            && Ends(found, kind, table, answer, store.Value())
            && (Latest(found).Ok? && Newest(found, kind).None? ==> tries == MAX_TIMEOUT + 1)
  {
    ghost var start := store.Value();
    tries := 1;
    assert Slept(start, others, 1, table) == DoAll(start, others(0), table);
    var popped, found := SleepAndTry(store, others(0), kind, table);
    while popped.Ok? && popped.value.None? && tries - 1 < MAX_TIMEOUT
      invariant 1 <= tries <= MAX_TIMEOUT + 1
      invariant found == Slept(start, others, tries, table) && Tried(found, kind, popped, store.Value())
      invariant MissedBefore(start, others, tries, kind, table)
      decreases MAX_TIMEOUT + 1 - tries
    {
      MissedAgain(start, others, tries, kind, table);
      SleptNext(start, others, tries, table);
      popped, found := SleepAndTry(store, others(tries), kind, table);
      tries := tries + 1;
    }
    answer := Answer(store, popped, kind, table, found);
  }

  /** The outcome of one try that looked at `found`. */
  ghost predicate Tried(found: Stored, kind: string, popped: Result<Option<Message>, Error>, now: Stored) {
    && Keyed(found) && now == Perform(found, PopLatestOp(kind))
    && popped == (if Latest(found).Err? then Err(IndexError) else Ok(Newest(found, kind)))
    && (Newest(found, kind).None? ==> now == found)
  }

  method SleepAndTry(store: Store, others: seq<Act>, kind: string, table: map<string, string>)
    returns (popped: Result<Option<Message>, Error>, ghost found: Stored)
    requires Keyed(store.Value()) && Polled(kind)
    modifies store
    ensures found == DoAll(old(store.Value()), others, table) && Tried(found, kind, popped, store.Value())
  {
    RunOthers(store, others, table);
    found := store.Value();
    HandOutOutcome(found, kind, table);
    popped := store.PopResourceLatest(kind);
  }

  /** After the last try of a poll: fall back if it found nothing, and save what it hands out. */
  method Answer(store: Store, popped: Result<Option<Message>, Error>, kind: string, table: map<string, string>,
                ghost found: Stored)
    returns (answer: Result<Message, Error>)
    requires Polled(kind) && Tried(found, kind, popped, store.Value())
    modifies store
    ensures Keyed(store.Value()) && Ends(found, kind, table, answer, store.Value())
  {
    HandOutOutcome(found, kind, table);
    FallBackOutcome(found, table);
    if popped.Err? {
      answer := Err(popped.error);
    } else if popped.value.None? && kind == STATES {
      answer := StateFromActions(store, table);
      if answer.Err? {
        return;
      }
      Save(store, answer.value);
    } else if popped.value.Some? {
      Save(store, popped.value.value);
      answer := Ok(popped.value.value);
    } else {
      answer := Ok(map[]);
    }
  }

  /** What an issue works from: the state message itself, or else the oldest details kept for its thread. */
  method CredentialForIssue(store: Store, m: Message, ghost table: map<string, string>)
    returns (details: Option<Message>)
    requires Keyed(store.Value()) && PIID in m
    modifies store
    ensures Mentions(m, "filters~attach") ==> details == Some(m) && store.Value() == old(store.Value())
    ensures !Mentions(m, "filters~attach") ==>
              && details == Popped(old(store.Value()), PopOp(Some(m[PIID]), DETAILS))
              && store.Value() == Do(old(store.Value()), TakeDetails(m[PIID]), table)
  {
    details := Some(m);
    if !Mentions(m, "filters~attach") {
      details := store.PopResource(Some(m[PIID]), DETAILS);
    }
  }
}

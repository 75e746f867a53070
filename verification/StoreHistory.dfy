/** What holds of the webhook store after any sequence of operations, whoever issued them. */
module StoreHistory {
  import opened Options
  import opened Storage

  // ---------------------------------------------------------------------------
  // Conservation and order, for one id and message type
  // ---------------------------------------------------------------------------

  /** The operation takes a message of that id and type. */
  predicate Takes(s: Stored, op: Op, id: Id, kind: string) {
    !op.PushOp? && op.kind == kind && (HitOf(s, op) == First(id) || HitOf(s, op) == Last(id))
  }

  function Given(op: Op, id: Id, kind: string): seq<Message> {
    if op.PushOp? && op.id == id && op.kind == kind then [op.m] else []
  }

  function Pushed(ops: seq<Op>, id: Id, kind: string): seq<Message> {
    if ops == [] then [] else Pushed(ops[..|ops| - 1], id, kind) + Given(ops[|ops| - 1], id, kind)
  }

  function TakenBy(s: Stored, op: Op, id: Id, kind: string): seq<Message> {
    if Takes(s, op, id, kind) then [Popped(s, op).value] else []
  }

  function Taken(s: Stored, ops: seq<Op>, id: Id, kind: string): seq<Message> {
    if ops == [] then []
    else Taken(s, ops[..|ops| - 1], id, kind) + TakenBy(PerformAll(s, ops[..|ops| - 1]), ops[|ops| - 1], id, kind)
  }

  /** No operation takes the newest of two or more messages of that id and type. */
  predicate OldestFirst(s: Stored, ops: seq<Op>, id: Id, kind: string) {
    ops == []
    || (var before, op := PerformAll(s, ops[..|ops| - 1]), ops[|ops| - 1];
        && OldestFirst(s, ops[..|ops| - 1], id, kind)
        && (op.PopLatestOp? && Takes(before, op, id, kind) ==> |At(before, id, kind)| == 1))
  }

  /** No operation of the run pops the latest message of that type. */
  predicate NeverLatest(ops: seq<Op>, kind: string) {
    forall op | op in ops && op.PopLatestOp? :: op.kind != kind
  }

  lemma {:induction false} NeverLatestIsOldestFirst(s: Stored, ops: seq<Op>, id: Id, kind: string)
    requires NeverLatest(ops, kind)
    ensures OldestFirst(s, ops, id, kind)
  {
    if ops == [] {
    } else {
      var before, op := ops[..|ops| - 1], ops[|ops| - 1];
      assert op in ops && forall o | o in before :: o in ops;
      NeverLatestIsOldestFirst(s, before, id, kind);
    }
  }

  ghost predicate Picks(positions: seq<nat>, part: seq<Message>, whole: seq<Message>) {
    && |positions| == |part|
    && (forall i, j :: 0 <= i < j < |positions| ==> positions[i] < positions[j])
    && forall i | 0 <= i < |positions| :: positions[i] < |whole| && whole[positions[i]] == part[i]
  }

  ghost predicate Subsequence(part: seq<Message>, whole: seq<Message>) {
    exists positions: seq<nat> :: Picks(positions, part, whole)
  }

  /** A list before and after an operation: what came in at its end, what went out at either end. */
  predicate Moves(list: seq<Message>, given: seq<Message>, taken: seq<Message>, rest: seq<Message>) {
    if given != [] then taken == [] && rest == list + given
    else if taken == [] then rest == list
    else
      && list != []
      && ((taken == [list[0]] && rest == list[1..]) || (taken == [list[|list| - 1]] && rest == list[..|list| - 1]))
  }

  lemma OneStep(s: Stored, op: Op, id: Id, kind: string)
    ensures At(Perform(s, op), id, kind) ==
            if op.PushOp? && op.id == id && op.kind == kind then At(s, id, kind) + [op.m]
            else if !Takes(s, op, id, kind) then At(s, id, kind)
            else if op.PopOp? then At(s, id, kind)[1..]
            else At(s, id, kind)[..|At(s, id, kind)| - 1]
  {
    match op
    case PushOp(i, k, m, idName) => AtPush(s, i, k, m, idName);
    case PopOp(i, k) =>
      if At(s, i, k) != [] {
        AtPut(s, i, k, At(s, i, k)[1..]);
      }
    case PopLatestOp(k) =>
      if HitOf(s, op) != Miss {
        var i := Latest(s).value;
        AtPut(s, i, k, At(s, i, k)[..|At(s, i, k)| - 1]);
      }
  }

  lemma StepMoves(s: Stored, op: Op, id: Id, kind: string)
    ensures Moves(At(s, id, kind), Given(op, id, kind), TakenBy(s, op, id, kind), At(Perform(s, op), id, kind))
    ensures !op.PopLatestOp? && Takes(s, op, id, kind) ==>
              At(s, id, kind) + Given(op, id, kind) == TakenBy(s, op, id, kind) + At(Perform(s, op), id, kind)
  {
    OneStep(s, op, id, kind);
  }

  lemma MovesBalance(list: seq<Message>, given: seq<Message>, taken: seq<Message>, rest: seq<Message>)
    requires Moves(list, given, taken, rest)
    ensures multiset(list) + multiset(given) == multiset(taken) + multiset(rest)
    ensures taken == [] || |list| == 1 ==> list + given == taken + rest
  {
    if list != [] {
      assert list == [list[0]] + list[1..] && list == list[..|list| - 1] + [list[|list| - 1]];
    }
  }

  lemma GivenPicks(positions: seq<nat>, list: seq<Message>, m: Message, whole: seq<Message>)
    requires Picks(positions, list, whole)
    ensures Picks(positions + [|whole|], list + [m], whole + [m])
  {
  }

  lemma TakenPicks(positions: seq<nat>, list: seq<Message>, whole: seq<Message>)
    requires Picks(positions, list, whole) && list != []
    ensures Picks(positions[1..], list[1..], whole) && Picks(positions[..|list| - 1], list[..|list| - 1], whole)
  {
  }

  lemma MovesSubsequence(list: seq<Message>, given: seq<Message>, taken: seq<Message>, rest: seq<Message>,
                         whole: seq<Message>)
    requires Moves(list, given, taken, rest) && Subsequence(list, whole) && |given| <= 1
    ensures Subsequence(rest, whole + given)
  {
    var positions: seq<nat> :| Picks(positions, list, whole);
    if given != [] {
      assert given == [given[0]];
      GivenPicks(positions, list, given[0], whole);
    } else {
      assert whole + given == whole;
      if taken != [] {
        TakenPicks(positions, list, whole);
      }
    }
  }

  lemma Associates<T>(a: seq<T>, b: seq<T>, c: seq<T>)
    ensures a + b + c == a + (b + c)
  {
  }

  lemma {:induction false} RemainderInOrder(s: Stored, ops: seq<Op>, id: Id, kind: string)
    ensures Subsequence(At(PerformAll(s, ops), id, kind), At(s, id, kind) + Pushed(ops, id, kind))
  {
    var start := At(s, id, kind);
    if ops == [] {
      assert Picks(seq(|start|, i => i), start, start + []);
    } else {
      var earlier, op := ops[..|ops| - 1], ops[|ops| - 1];
      var before, given := PerformAll(s, earlier), Given(op, id, kind);
      RemainderInOrder(s, earlier, id, kind);
      StepMoves(before, op, id, kind);
      MovesSubsequence(At(before, id, kind), given, TakenBy(before, op, id, kind), At(PerformAll(s, ops), id, kind),
                       start + Pushed(earlier, id, kind));
      Associates(start, Pushed(earlier, id, kind), given);
    }
  }

  lemma {:induction false} NothingLost(s: Stored, ops: seq<Op>, id: Id, kind: string)
    ensures multiset(At(s, id, kind)) + multiset(Pushed(ops, id, kind))
         == multiset(Taken(s, ops, id, kind)) + multiset(At(PerformAll(s, ops), id, kind))
  {
    if ops == [] {
    } else {
      var earlier, op := ops[..|ops| - 1], ops[|ops| - 1];
      var before := PerformAll(s, earlier);
      NothingLost(s, earlier, id, kind);
      StepMoves(before, op, id, kind);
      MovesBalance(At(before, id, kind), Given(op, id, kind), TakenBy(before, op, id, kind),
                   At(PerformAll(s, ops), id, kind));
      RegroupAll(At(s, id, kind), Pushed(earlier, id, kind), Given(op, id, kind), Taken(s, earlier, id, kind),
                 At(before, id, kind), TakenBy(before, op, id, kind), At(PerformAll(s, ops), id, kind));
    }
  }

  lemma RegroupAll<T>(start: seq<T>, pushed: seq<T>, given: seq<T>, taken: seq<T>, list: seq<T>, first: seq<T>,
                      rest: seq<T>)
    requires multiset(start) + multiset(pushed) == multiset(taken) + multiset(list)
    requires multiset(list) + multiset(given) == multiset(first) + multiset(rest)
    ensures multiset(start) + multiset(pushed + given) == multiset(taken + first) + multiset(rest)
  {
    assert multiset(pushed + given) == multiset(pushed) + multiset(given);
    assert multiset(taken + first) == multiset(taken) + multiset(first);
    assert multiset(start) + multiset(pushed + given) == (multiset(start) + multiset(pushed)) + multiset(given);
    assert (multiset(start) + multiset(pushed)) + multiset(given)
        == multiset(taken) + (multiset(list) + multiset(given));
    assert multiset(taken) + (multiset(first) + multiset(rest)) == multiset(taken + first) + multiset(rest);
  }

  lemma {:induction false} InOrder(s: Stored, ops: seq<Op>, id: Id, kind: string)
    requires OldestFirst(s, ops, id, kind)
    ensures At(s, id, kind) + Pushed(ops, id, kind) == Taken(s, ops, id, kind) + At(PerformAll(s, ops), id, kind)
  {
    if ops == [] {
    } else {
      var earlier, op := ops[..|ops| - 1], ops[|ops| - 1];
      InOrder(s, earlier, id, kind);
      var before := PerformAll(s, earlier);
      StepMoves(before, op, id, kind);
      MovesBalance(At(before, id, kind), Given(op, id, kind), TakenBy(before, op, id, kind),
                   At(PerformAll(s, ops), id, kind));
      Regroup(At(s, id, kind), Pushed(earlier, id, kind), Given(op, id, kind),
              Taken(s, earlier, id, kind), At(before, id, kind), TakenBy(before, op, id, kind),
              At(PerformAll(s, ops), id, kind));
    }
  }

  lemma Regroup<T>(start: seq<T>, pushed: seq<T>, given: seq<T>, taken: seq<T>, list: seq<T>, first: seq<T>,
                   rest: seq<T>)
    requires start + pushed == taken + list && list + given == first + rest
    ensures start + (pushed + given) == (taken + first) + rest
  {
    assert start + (pushed + given) == (start + pushed) + given;
    assert (taken + list) + given == taken + (list + given);
    assert taken + (first + rest) == (taken + first) + rest;
  }

  /**
   Any run of operations: for every id and type, the messages pushed are those taken and those
   left; those left are in the order they came; and unless a pop-latest took the newest of
   several, those taken came before those left.
   */
  lemma History(ops: seq<Op>, id: Id, kind: string)
    ensures var left := At(PerformAll(EMPTY, ops), id, kind);
            && multiset(Pushed(ops, id, kind)) == multiset(Taken(EMPTY, ops, id, kind)) + multiset(left)
            && Subsequence(left, Pushed(ops, id, kind))
            && (OldestFirst(EMPTY, ops, id, kind) ==> Pushed(ops, id, kind) == Taken(EMPTY, ops, id, kind) + left)
  {
    assert At(EMPTY, id, kind) + Pushed(ops, id, kind) == Pushed(ops, id, kind);
    NothingLost(EMPTY, ops, id, kind);
    RemainderInOrder(EMPTY, ops, id, kind);
    if OldestFirst(EMPTY, ops, id, kind) {
      InOrder(EMPTY, ops, id, kind);
    }
  }

  // ---------------------------------------------------------------------------
  // The latest id
  // ---------------------------------------------------------------------------

  /** When the id was first pushed to. */
  function FirstPush(ops: seq<Op>, id: Id): nat {
    if ops == [] then 0
    else if ops[0].PushOp? && ops[0].id == id then 0
    else 1 + FirstPush(ops[1..], id)
  }

  lemma {:induction false} FirstPushBefore(ops: seq<Op>, op: Op, id: Id)
    ensures FirstPush(ops, id) <= |ops|
    ensures FirstPush(ops + [op], id) == if FirstPush(ops, id) < |ops| then FirstPush(ops, id)
                                         else |ops| + if op.PushOp? && op.id == id then 0 else 1
  {
    if ops == [] {
    } else {
      assert (ops + [op])[1..] == ops[1..] + [op];
      FirstPushBefore(ops[1..], op, id);
    }
  }

  ghost predicate ByFirstPush(ids: seq<Id>, ops: seq<Op>) {
    && (forall id :: id in ids <==> FirstPush(ops, id) < |ops|)
    && forall i, j :: 0 <= i < j < |ids| ==> FirstPush(ops, ids[i]) < FirstPush(ops, ids[j])
  }

  lemma ByFirstPushNext(ids: seq<Id>, ops: seq<Op>, op: Op)
    requires ByFirstPush(ids, ops)
    ensures ByFirstPush(if op.PushOp? && op.id !in ids then ids + [op.id] else ids, ops + [op])
  {
    forall id
      ensures FirstPush(ops, id) <= |ops|
      ensures FirstPush(ops + [op], id) == if FirstPush(ops, id) < |ops| then FirstPush(ops, id)
                                           else |ops| + if op.PushOp? && op.id == id then 0 else 1
    {
      FirstPushBefore(ops, op, id);
    }
    assert forall i | 0 <= i < |ids| :: ids[i] in ids;
  }

  lemma PerformIds(s: Stored, op: Op)
    requires WellFormed(s)
    ensures WellFormed(Perform(s, op))
    ensures Perform(s, op).ids == if op.PushOp? && op.id !in s.ids then s.ids + [op.id] else s.ids
  {
    match op
    case PushOp(id, kind, m, idName) => AtPush(s, id, kind, m, idName);
    case PopOp(id, kind) =>
      if At(s, id, kind) != [] {
        PutWellFormed(s, id, kind, At(s, id, kind)[1..]);
      }
    case PopLatestOp(kind) =>
      if HitOf(s, op) != Miss {
        var id := Latest(s).value;
        PutWellFormed(s, id, kind, At(s, id, kind)[..|At(s, id, kind)| - 1]);
      }
  }

  lemma IdsStep(s: Stored, ops: seq<Op>, op: Op)
    requires WellFormed(s) && ByFirstPush(s.ids, ops)
    ensures WellFormed(Perform(s, op)) && ByFirstPush(Perform(s, op).ids, ops + [op])
  {
    PerformIds(s, op);
    ByFirstPushNext(s.ids, ops, op);
  }

  lemma {:induction false} IdsInOrder(ops: seq<Op>)
    ensures WellFormed(PerformAll(EMPTY, ops)) && ByFirstPush(PerformAll(EMPTY, ops).ids, ops)
  {
    if ops == [] {
    } else {
      var earlier, op := ops[..|ops| - 1], ops[|ops| - 1];
      IdsInOrder(earlier);
      IdsStep(PerformAll(EMPTY, earlier), earlier, op);
      assert earlier + [op] == ops;
    }
  }

  /**
   A pop-latest or get-latest looks at the id whose first push is the newest of all, however often the
   others are pushed to.
   */
  lemma LatestIsNewest(ops: seq<Op>, id: Id)
    requires FirstPush(ops, id) < |ops|
    ensures Latest(PerformAll(EMPTY, ops)).Ok?
    ensures var latest := Latest(PerformAll(EMPTY, ops)).value;
            && FirstPush(ops, id) <= FirstPush(ops, latest) < |ops|
            && (id != latest ==> FirstPush(ops, id) < FirstPush(ops, latest))
  {
    var ids := PerformAll(EMPTY, ops).ids;
    assert ids != [] && FirstPush(ops, ids[|ids| - 1]) < |ops|
        && (id == ids[|ids| - 1] || FirstPush(ops, id) < FirstPush(ops, ids[|ids| - 1])) by {
      IdsInOrder(ops);
      LastIsNewest(ids, ops, id);
    }
  }

  lemma LastIsNewest(ids: seq<Id>, ops: seq<Op>, id: Id)
    requires ByFirstPush(ids, ops) && FirstPush(ops, id) < |ops|
    ensures ids != []
    ensures var latest := ids[|ids| - 1];
            FirstPush(ops, latest) < |ops| && (id == latest || FirstPush(ops, id) < FirstPush(ops, latest))
  {
    assert id in ids && ids[|ids| - 1] in ids;
  }

  /**
   It comes back with nothing exactly when that one id has no message of the type, whatever waits under
   the others.
   */
  lemma LatestMisses(ops: seq<Op>, kind: string)
    requires Latest(PerformAll(EMPTY, ops)).Ok?
    ensures var latest := Latest(PerformAll(EMPTY, ops)).value;
            Popped(PerformAll(EMPTY, ops), PopLatestOp(kind)).None?
            <==> |Pushed(ops, latest, kind)| == |Taken(EMPTY, ops, latest, kind)|
  {
    var latest := Latest(PerformAll(EMPTY, ops)).value;
    var left := At(PerformAll(EMPTY, ops), latest, kind);
    Amounts(ops, latest, kind);
  }

  lemma Amounts(ops: seq<Op>, id: Id, kind: string)
    ensures |Pushed(ops, id, kind)| == |Taken(EMPTY, ops, id, kind)| + |At(PerformAll(EMPTY, ops), id, kind)|
  {
    History(ops, id, kind);
    Sizes(Pushed(ops, id, kind), Taken(EMPTY, ops, id, kind), At(PerformAll(EMPTY, ops), id, kind));
  }

  lemma Sizes<T>(whole: seq<T>, taken: seq<T>, left: seq<T>)
    requires multiset(whole) == multiset(taken) + multiset(left)
    ensures |whole| == |taken| + |left|
  {
    assert |multiset(whole)| == |multiset(taken)| + |multiset(left)|;
  }

  // ---------------------------------------------------------------------------
  // The index between thread ids and exchange ids
  // ---------------------------------------------------------------------------

  /** A pair bound under a mapping name. */
  datatype Pair = Pair(name: string, id: Id, exchange: string)

  /** What a push binds: nothing without the name of a member, or for an empty name, or if the message lacks it. */
  function BoundBy(op: Op): seq<Pair> {
    if op.PushOp? && op.idName.Some? && op.idName.value != "" && op.idName.value in op.m
    then [Pair(op.kind + "." + op.idName.value, op.id, op.m[op.idName.value])]
    else []
  }

  function Bound(ops: seq<Op>): seq<Pair> {
    if ops == [] then [] else Bound(ops[..|ops| - 1]) + BoundBy(ops[|ops| - 1])
  }

  function Of<K, V>(maps: map<string, map<K, V>>, name: string): map<K, V> {
    if name in maps then maps[name] else map[]
  }

  /** The thread of the last push that bound the exchange id. */
  function LastThread(bound: seq<Pair>, name: string, exchange: string): Option<Id> {
    if bound == [] then None
    else
      var last := bound[|bound| - 1];
      if last.name == name && last.exchange == exchange then Some(last.id)
      else LastThread(bound[..|bound| - 1], name, exchange)
  }

  function LastExchange(bound: seq<Pair>, name: string, id: Id): Option<string> {
    if bound == [] then None
    else
      var last := bound[|bound| - 1];
      if last.name == name && last.id == id then Some(last.exchange)
      else LastExchange(bound[..|bound| - 1], name, id)
  }

  /** What one operation does to the two maps of a name. */
  lemma StepIndex(s: Stored, op: Op, name: string)
    ensures Of(Perform(s, op).toData, name) ==
            if BoundBy(op) != [] && BoundBy(op)[0].name == name
            then Of(s.toData, name)[BoundBy(op)[0].exchange := BoundBy(op)[0].id]
            else Of(s.toData, name)
    ensures Of(Perform(s, op).toExchange, name) ==
            if BoundBy(op) != [] && BoundBy(op)[0].name == name
            then Of(s.toExchange, name)[BoundBy(op)[0].id := BoundBy(op)[0].exchange]
            else Of(s.toExchange, name)
  {
  }

  function Find<K, V>(m: map<K, V>, k: K): Option<V> {
    if k in m then Some(m[k]) else None
  }

  /** The maps hold, for every key, what the last push with that key bound. */
  lemma {:induction false} IndexHoldsTheLast(ops: seq<Op>, name: string)
    ensures forall e :: Find(Of(PerformAll(EMPTY, ops).toData, name), e) == LastThread(Bound(ops), name, e)
    ensures forall id :: Find(Of(PerformAll(EMPTY, ops).toExchange, name), id) == LastExchange(Bound(ops), name, id)
  {
    if ops == [] {
    } else {
      var before, op := Bound(ops[..|ops| - 1]), ops[|ops| - 1];
      IndexHoldsTheLast(ops[..|ops| - 1], name);
      StepIndex(PerformAll(EMPTY, ops[..|ops| - 1]), op, name);
      assert BoundBy(op) == [] ==> Bound(ops) == before;
      assert BoundBy(op) != [] ==> Bound(ops)[..|before|] == before;
    }
  }

  /** Under every name, a thread goes with one exchange and an exchange with one thread. */
  ghost predicate OneToOne(bound: seq<Pair>) {
    forall p, q | p in bound && q in bound && p.name == q.name :: p.id == q.id <==> p.exchange == q.exchange
  }

  ghost predicate MutuallyInverse(s: Stored) {
    && (forall name, id | id in Of(s.toExchange, name) ::
          LooksUp(s.toData, name, Of(s.toExchange, name)[id], id))
    && (forall name, e | e in Of(s.toData, name) ::
          LooksUp(s.toExchange, name, Of(s.toData, name)[e], e))
  }

  predicate LooksUp<K, V(==)>(maps: map<string, map<K, V>>, name: string, key: K, value: V) {
    key in Of(maps, name) && Of(maps, name)[key] == value
  }

  lemma LastOf(bound: seq<Pair>, p: Pair)
    requires OneToOne(bound) && p in bound
    ensures LastThread(bound, p.name, p.exchange) == Some(p.id)
    ensures LastExchange(bound, p.name, p.id) == Some(p.exchange)
  {
    var last := bound[|bound| - 1];
    if |bound| > 1 && last != p {
      LastOf(bound[..|bound| - 1], p);
    }
  }

  lemma Inverse(ops: seq<Op>)
    requires OneToOne(Bound(ops))
    ensures MutuallyInverse(PerformAll(EMPTY, ops))
  {
    var s, bound := PerformAll(EMPTY, ops), Bound(ops);
    forall name, id | id in Of(s.toExchange, name) ensures LooksUp(s.toData, name, Of(s.toExchange, name)[id], id) {
      IndexHoldsTheLast(ops, name);
      var e := Of(s.toExchange, name)[id];
      ExchangeWasBound(bound, name, id);
      LastOf(bound, Pair(name, id, e));
    }
    forall name, e | e in Of(s.toData, name) ensures LooksUp(s.toExchange, name, Of(s.toData, name)[e], e) {
      IndexHoldsTheLast(ops, name);
      var id := Of(s.toData, name)[e];
      ThreadWasBound(bound, name, e);
      LastOf(bound, Pair(name, id, e));
    }
  }

  lemma {:induction false} ThreadWasBound(bound: seq<Pair>, name: string, e: string)
    requires LastThread(bound, name, e).Some?
    ensures Pair(name, LastThread(bound, name, e).value, e) in bound
  {
    if bound[|bound| - 1].name != name || bound[|bound| - 1].exchange != e {
      ThreadWasBound(bound[..|bound| - 1], name, e);
    }
  }

  lemma {:induction false} ExchangeWasBound(bound: seq<Pair>, name: string, id: Id)
    requires LastExchange(bound, name, id).Some?
    ensures Pair(name, id, LastExchange(bound, name, id).value) in bound
  {
    if bound[|bound| - 1].name != name || bound[|bound| - 1].id != id {
      ExchangeWasBound(bound[..|bound| - 1], name, id);
    }
  }

  /** The binding that breaks one-to-one leaves the two maps in disagreement. */
  lemma Broken(ops: seq<Op>, op: Op, p: Pair, q: Pair)
    requires OneToOne(Bound(ops)) && p in Bound(ops) && BoundBy(op) == [q] && p.name == q.name
    requires (p.id == q.id) != (p.exchange == q.exchange)
    ensures !MutuallyInverse(PerformAll(EMPTY, ops + [op]))
  {
    assert (ops + [op])[..|ops|] == ops;
    LastOf(Bound(ops), p);
    IndexHoldsTheLast(ops, p.name);
    StepIndex(PerformAll(EMPTY, ops), op, p.name);
    var s := PerformAll(EMPTY, ops + [op]);
    assert p.id == q.id ==>
        && p.exchange in Of(s.toData, p.name)
        && !LooksUp(s.toExchange, p.name, Of(s.toData, p.name)[p.exchange], p.exchange);
    assert p.id != q.id ==>
        && p.id in Of(s.toExchange, p.name)
        && !LooksUp(s.toData, p.name, Of(s.toExchange, p.name)[p.id], p.id);
  }

  /** An earlier pair that one more pair disagrees with. */
  lemma Clash(bound: seq<Pair>, more: seq<Pair>) returns (p: Pair)
    requires OneToOne(bound) && |more| <= 1 && !OneToOne(bound + more)
    ensures p in bound && more != [] && p.name == more[0].name
    ensures (p.id == more[0].id) != (p.exchange == more[0].exchange)
  {
    var a, b :| && a in bound + more && b in bound + more && a.name == b.name
                && (a.id == b.id) != (a.exchange == b.exchange);
    p := if a in bound then a else b;
  }

  /** After every prefix of the run. */
  ghost predicate AlwaysInverse(ops: seq<Op>) {
    MutuallyInverse(PerformAll(EMPTY, ops)) && (ops == [] || AlwaysInverse(ops[..|ops| - 1]))
  }

  /** The two maps are each other's inverse throughout a run exactly when the pairs it binds are one-to-one. */
  lemma {:induction false} InverseIff(ops: seq<Op>)
    ensures AlwaysInverse(ops) <==> OneToOne(Bound(ops))
  {
    if ops == [] {
    } else {
      var earlier, op := ops[..|ops| - 1], ops[|ops| - 1];
      InverseIff(earlier);
      if OneToOne(Bound(ops)) {
        assert OneToOne(Bound(earlier)) by {
          assert forall p | p in Bound(earlier) :: p in Bound(ops);
        }
        Inverse(ops);
      } else if OneToOne(Bound(earlier)) {
        assert ops == earlier + [op];
        var p := Clash(Bound(earlier), BoundBy(op));
        Broken(earlier, op, p, BoundBy(op)[0]);
      }
    }
  }

  /** What the look-up by exchange id answers: the thread of the last push that bound it, or one of two failures. */
  lemma DataIdIsLastThread(ops: seq<Op>, kind: string, idName: string, e: string)
    ensures var name := kind + "." + idName;
            DataIdOf(PerformAll(EMPTY, ops), kind, idName, e)
            == if LastThread(Bound(ops), name, e).Some? then Ok(LastThread(Bound(ops), name, e).value)
               else if IsBound(Bound(ops), name) then Err(KeyError)
               else Ok(None)
  {
    IndexHoldsTheLast(ops, MappingName(kind, idName));
    NameBound(ops, MappingName(kind, idName));
  }

  /** The look-up by thread id answers the exchange id the last push bound to it, or fails in the same two ways. */
  lemma ExchangeIdIsLastExchange(ops: seq<Op>, kind: string, idName: string, id: Id)
    ensures var name := kind + "." + idName;
            ExchangeIdOf(PerformAll(EMPTY, ops), kind, idName, id)
            == if LastExchange(Bound(ops), name, id).Some? then Ok(Some(LastExchange(Bound(ops), name, id).value))
               else if IsBound(Bound(ops), name) then Err(KeyError)
               else Ok(None)
  {
    IndexHoldsTheLast(ops, MappingName(kind, idName));
    NameBound(ops, MappingName(kind, idName));
  }

  predicate IsBound(bound: seq<Pair>, name: string) {
    exists p :: p in bound && p.name == name
  }

  lemma BoundNext(bound: seq<Pair>, more: seq<Pair>, name: string)
    requires |more| <= 1
    ensures IsBound(bound + more, name) <==> IsBound(bound, name) || (more != [] && more[0].name == name)
  {
    assert forall p :: p in bound + more <==> p in bound || p in more;
    if more != [] && more[0].name == name {
      assert more[0] in bound + more;
    }
  }

  lemma {:induction false} NameBound(ops: seq<Op>, name: string)
    ensures name in PerformAll(EMPTY, ops).toData <==> IsBound(Bound(ops), name)
    ensures name in PerformAll(EMPTY, ops).toExchange <==> IsBound(Bound(ops), name)
  {
    if ops == [] {
    } else {
      NameBound(ops[..|ops| - 1], name);
      NameStep(PerformAll(EMPTY, ops[..|ops| - 1]), ops[|ops| - 1], name);
      BoundNext(Bound(ops[..|ops| - 1]), BoundBy(ops[|ops| - 1]), name);
    }
  }

  lemma NameStep(s: Stored, op: Op, name: string)
    ensures name in Perform(s, op).toData <==> name in s.toData || (BoundBy(op) != [] && BoundBy(op)[0].name == name)
    ensures name in Perform(s, op).toExchange
       <==> name in s.toExchange || (BoundBy(op) != [] && BoundBy(op)[0].name == name)
  {
  }

  // ---------------------------------------------------------------------------
  // Mapping names
  // ---------------------------------------------------------------------------

  /** Two names interfere exactly when they are the same, or one message type extends the other past a dot. */
  lemma NamesInterfereIff(kind: string, idName: string, kind': string, idName': string)
    ensures MappingName(kind, idName) == MappingName(kind', idName')
       <==> || (kind == kind' && idName == idName')
            || Overlap(kind, idName, kind', idName') || Overlap(kind', idName', kind, idName)
  {
    if MappingName(kind, idName) == MappingName(kind', idName') {
      if |kind| == |kind'| {
        SameLength(kind, idName, kind', idName');
      } else if |kind| < |kind'| {
        Longer(kind, idName, kind', idName');
      } else {
        Longer(kind', idName', kind, idName);
      }
    }
  }

  predicate Overlap(kind: string, idName: string, kind': string, idName': string) {
    && |kind| < |kind'| && |idName'| < |idName|
    && kind + "." <= kind' && idName == kind'[|kind| + 1..] + "." + idName'
  }

  lemma SameLength(kind: string, idName: string, kind': string, idName': string)
    requires |kind| == |kind'| && MappingName(kind, idName) == MappingName(kind', idName')
    ensures kind == kind' && idName == idName'
  {
    assert kind == MappingName(kind, idName)[..|kind|] && kind' == MappingName(kind', idName')[..|kind|];
    assert idName == MappingName(kind, idName)[|kind| + 1..] && idName' == MappingName(kind', idName')[|kind| + 1..];
  }

  lemma Longer(kind: string, idName: string, kind': string, idName': string)
    requires |kind| < |kind'| && MappingName(kind, idName) == MappingName(kind', idName')
    ensures Overlap(kind, idName, kind', idName')
  {
    var name := MappingName(kind, idName);
    assert |name| == |kind| + 1 + |idName| == |kind'| + 1 + |idName'|;
    assert kind + "." == name[..|kind| + 1] && name[..|kind| + 1] == kind'[..|kind| + 1];
    assert idName == name[|kind| + 1..] == kind'[|kind| + 1..] + "." + idName';
  }

  /** Types without a dot, or id names without one, never interfere. */
  lemma DotFreeNamesDiffer(kind: string, idName: string, kind': string, idName': string)
    requires ('.' !in kind && '.' !in kind') || ('.' !in idName && '.' !in idName')
    requires MappingName(kind, idName) == MappingName(kind', idName')
    ensures kind == kind' && idName == idName'
  {
    NamesInterfereIff(kind, idName, kind', idName');
    OverlapHasDots(kind, idName, kind', idName');
    OverlapHasDots(kind', idName', kind, idName);
  }

  lemma OverlapHasDots(kind: string, idName: string, kind': string, idName': string)
    ensures Overlap(kind, idName, kind', idName') ==> '.' in kind' && '.' in idName
  {
    if Overlap(kind, idName, kind', idName') {
      assert kind'[|kind|] == (kind + ".")[|kind|];
      assert idName[|idName| - |idName'| - 1] == '.';
    }
  }
}

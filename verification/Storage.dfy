/**
 The webhook store of the Python backchannels: for every id, in the order the ids first came, and
 every message type, a list of messages; and an index between thread ids and exchange ids. The
 source holds a lock in every operation, so the operations are the steps of the store.
 */
module Storage {
  import opened Options

  /** A thread, connection or invitation id; None is Python's None, which is also a legal key. */
  type Id = Option<string>

  /** The members of a webhook message by name, nested ones by their path. */
  type Message = map<string, string>

  datatype Error = IndexError | KeyError | TimeoutError

  datatype Stored = Stored(
    ids: seq<Id>,                                  // the keys of storage, oldest first
    items: map<Id, map<string, seq<Message>>>,     // storage
    toExchange: map<string, map<Id, string>>,      // data_to_exch_id
    toData: map<string, map<string, Id>>)          // exch_to_data_id

  const EMPTY := Stored([], map[], map[], map[])

  ghost predicate WellFormed(s: Stored) {
    && (forall id :: id in s.ids <==> id in s.items)
    && (forall i, j :: 0 <= i < j < |s.ids| ==> s.ids[i] != s.ids[j])
  }

  function Get(s: Stored, id: Id, kind: string): Option<seq<Message>> {
    if id in s.items && kind in s.items[id] then Some(s.items[id][kind]) else None
  }

  function At(s: Stored, id: Id, kind: string): seq<Message> {
    if Get(s, id, kind).Some? then Get(s, id, kind).value else []
  }

  function Put(s: Stored, id: Id, kind: string, messages: seq<Message>): Stored {
    s.(ids := if id in s.ids then s.ids else s.ids + [id],
       items := s.items[id := (if id in s.items then s.items[id] else map[])[kind := messages]])
  }

  function MappingName(kind: string, idName: string): string {
    kind + "." + idName
  }

  /** The pair a push adds to the index: mapping name and exchange id. */
  function Binding(kind: string, m: Message, idName: Option<string>): Option<(string, string)> {
    if idName.Some? && idName.value != "" && idName.value in m
    then Some((MappingName(kind, idName.value), m[idName.value]))
    else None
  }

  function Bind(s: Stored, id: Id, name: string, exchange: string): Stored {
    s.(toExchange := s.toExchange[name := (if name in s.toExchange then s.toExchange[name] else map[])[id := exchange]],
       toData := s.toData[name := (if name in s.toData then s.toData[name] else map[])[exchange := id]])
  }

  function Push(s: Stored, id: Id, kind: string, m: Message, idName: Option<string>): Stored {
    var pushed := Put(s, id, kind, At(s, id, kind) + [m]);
    match Binding(kind, m, idName)
    case Some(b) => Bind(pushed, id, b.0, b.1)
    case None => pushed
  }

  /** The key a pop-latest looks at: the id that came last. */
  function Latest(s: Stored): Result<Id, Error> {
    if s.ids == [] then Err(IndexError) else Ok(s.ids[|s.ids| - 1])
  }

  function DataIdOf(s: Stored, kind: string, idName: string, exchange: string): Result<Id, Error> {
    var name := MappingName(kind, idName);
    if name !in s.toData then Ok(None)
    else if exchange !in s.toData[name] then Err(KeyError)
    else Ok(s.toData[name][exchange])
  }

  function ExchangeIdOf(s: Stored, kind: string, idName: string, id: Id): Result<Option<string>, Error> {
    var name := MappingName(kind, idName);
    if name !in s.toExchange then Ok(None)
    else if id !in s.toExchange[name] then Err(KeyError)
    else Ok(Some(s.toExchange[name][id]))
  }

  datatype Op =
    | PushOp(id: Id, kind: string, m: Message, idName: Option<string>)
    | PopOp(id: Id, kind: string)
    | PopLatestOp(kind: string)

  /** Which end of which list an operation takes a message from, if any. */
  datatype Hit = Miss | First(id: Id) | Last(id: Id)

  function HitOf(s: Stored, op: Op): Hit {
    match op
    case PushOp(_, _, _, _) => Miss
    case PopOp(id, kind) => if At(s, id, kind) == [] then Miss else First(id)
    case PopLatestOp(kind) =>
      if Latest(s).Err? || At(s, Latest(s).value, kind) == [] then Miss else Last(Latest(s).value)
  }

  function Popped(s: Stored, op: Op): Option<Message> {
    match HitOf(s, op)
    case Miss => None
    case First(id) => Some(At(s, id, op.kind)[0])
    case Last(id) => Some(At(s, id, op.kind)[|At(s, id, op.kind)| - 1])
  }

  function Perform(s: Stored, op: Op): Stored {
    if op.PushOp? then Push(s, op.id, op.kind, op.m, op.idName)
    else
      match HitOf(s, op)
      case Miss => s
      case First(id) => Put(s, id, op.kind, At(s, id, op.kind)[1..])
      case Last(id) => Put(s, id, op.kind, At(s, id, op.kind)[..|At(s, id, op.kind)| - 1])
  }

  function PerformAll(s: Stored, ops: seq<Op>): Stored {
    if ops == [] then s else Perform(PerformAll(s, ops[..|ops| - 1]), ops[|ops| - 1])
  }

  lemma AtPut(s: Stored, id: Id, kind: string, messages: seq<Message>)
    ensures forall i, k :: At(Put(s, id, kind, messages), i, k)
                        == if i == id && k == kind then messages else At(s, i, k)
  {
  }

  lemma AtPush(s: Stored, id: Id, kind: string, m: Message, idName: Option<string>)
    ensures forall i, k :: At(Push(s, id, kind, m, idName), i, k)
                        == if i == id && k == kind then At(s, id, kind) + [m] else At(s, i, k)
    ensures Push(s, id, kind, m, idName).ids == if id in s.ids then s.ids else s.ids + [id]
    ensures WellFormed(s) ==> WellFormed(Push(s, id, kind, m, idName))
  {
    AtPut(s, id, kind, At(s, id, kind) + [m]);
    assert Push(s, id, kind, m, idName).items == Put(s, id, kind, At(s, id, kind) + [m]).items;
  }

  lemma PutWellFormed(s: Stored, id: Id, kind: string, messages: seq<Message>)
    requires WellFormed(s)
    ensures WellFormed(Put(s, id, kind, messages))
  {
  }

  lemma WriteTwice<K, V>(m: map<K, V>, k: K, v: V, w: V)
    ensures m[k := v][k := w] == m[k := w]
  {
  }

  // ---------------------------------------------------------------------------
  // The store as it is updated in place
  // ---------------------------------------------------------------------------

  class Store {
    var ids: seq<Id>
    var items: map<Id, map<string, seq<Message>>>
    var toExchange: map<string, map<Id, string>>
    var toData: map<string, map<string, Id>>

    ghost function Value(): Stored
      reads this
    {
      Stored(ids, items, toExchange, toData)
    }

    constructor ()
      ensures Value() == EMPTY && WellFormed(Value())
    {
      ids, items, toExchange, toData := [], map[], map[], map[];
    }

    method AddMapping(id: Id, kind: string, m: Message, idName: Option<string>)
      modifies this
      ensures Value() == match Binding(kind, m, idName)
                         case Some(b) => Bind(old(Value()), id, b.0, b.1)
                         case None => old(Value())
    {
      if idName.None? || idName.value == "" || idName.value !in m {
        return;
      }
      var exchange := m[idName.value];
      var name := MappingName(kind, idName.value);
      WriteTwice(toExchange, name, map[], map[][id := exchange]);
      WriteTwice(toData, name, map[], map[][exchange := id]);
      if name !in toExchange {
        toExchange := toExchange[name := map[]];
      }
      toExchange := toExchange[name := toExchange[name][id := exchange]];
      if name !in toData {
        toData := toData[name := map[]];
      }
      toData := toData[name := toData[name][exchange := id]];
    }

    method PushResource(id: Id, kind: string, m: Message, idName: Option<string>)
      requires WellFormed(Value())
      modifies this
      ensures Value() == Perform(old(Value()), PushOp(id, kind, m, idName)) && WellFormed(Value())
    {
      ghost var was, row, list := Value(), if id in items then items[id] else map[], At(Value(), id, kind);
      if id !in items {
        ids, items := ids + [id], items[id := map[]];
      }
      assert items == was.items[id := row];
      if kind !in items[id] {
        items := items[id := items[id][kind := []]];
      }
      assert row[kind := list] == items[id];
      assert items == was.items[id := row[kind := list]];
      items := items[id := items[id][kind := items[id][kind] + [m]]];
      assert Value() == Put(was, id, kind, list + [m]) by {
        WriteTwice(row, kind, list, list + [m]);
        WriteTwice(was.items, id, row[kind := list], row[kind := list + [m]]);
      }
      PutWellFormed(was, id, kind, list + [m]);
      AddMapping(id, kind, m, idName);
    }

    method PopResource(id: Id, kind: string) returns (popped: Option<Message>)
      requires WellFormed(Value())
      modifies this
      ensures Value() == Perform(old(Value()), PopOp(id, kind)) && WellFormed(Value())
      ensures popped == Popped(old(Value()), PopOp(id, kind))
    {
      if id in items {
        if kind in items[id] {
          if 0 < |items[id][kind]| {
            popped := Some(items[id][kind][0]);
            items := items[id := items[id][kind := items[id][kind][1..]]];
            return;
          }
        }
      }
      popped := None;
    }

    method PopResourceLatest(kind: string) returns (popped: Result<Option<Message>, Error>)
      requires WellFormed(Value())
      modifies this
      ensures Value() == Perform(old(Value()), PopLatestOp(kind)) && WellFormed(Value())
      ensures popped == if old(ids) == [] then Err(IndexError) else Ok(Popped(old(Value()), PopLatestOp(kind)))
    {
      if |ids| == 0 {
        return Err(IndexError);
      }
      var id := ids[|ids| - 1];
      if kind in items[id] {
        if 0 < |items[id][kind]| {
          var list := items[id][kind];
          if |list| > 1 {
            popped := Ok(Some(list[|list| - 1]));
            items := items[id := items[id][kind := list[..|list| - 1]]];
          } else {
            popped := Ok(Some(list[0]));
            assert list[1..] == list[..|list| - 1];
            items := items[id := items[id][kind := list[1..]]];
          }
          return;
        }
      }
      popped := Ok(None);
    }

    method GetResource(id: Id, kind: string) returns (messages: Option<seq<Message>>)
      ensures messages == Get(Value(), id, kind)
    {
      if id in items {
        if kind in items[id] {
          return Some(items[id][kind]);
        }
      }
      return None;
    }

    method GetResourceLatest(kind: string) returns (m: Result<Message, Error>)
      requires WellFormed(Value())
      ensures m.Ok? <==> ids != [] && At(Value(), ids[|ids| - 1], kind) != []
      ensures m.Ok? ==> m.value == Popped(Value(), PopLatestOp(kind)).value
      ensures m == Err(KeyError) <==> ids != [] && Get(Value(), ids[|ids| - 1], kind).None?
      ensures m.Err? ==> m.error == IndexError || m.error == KeyError
    {
      if |ids| == 0 {
        return Err(IndexError);
      }
      var id := ids[|ids| - 1];
      if kind !in items[id] {
        return Err(KeyError);
      }
      var list := items[id][kind];
      if |list| == 0 {
        return Err(IndexError);
      }
      return Ok(list[|list| - 1]);
    }

    /** Whatever other requests and webhooks do to the store while a handler waits. */
    method RunOthers(ops: seq<Op>)
      requires WellFormed(Value())
      modifies this
      ensures Value() == PerformAll(old(Value()), ops) && WellFormed(Value())
    {
      for i := 0 to |ops|
        invariant Value() == PerformAll(old(Value()), ops[..i]) && WellFormed(Value())
      {
        assert ops[..i + 1][..i] == ops[..i];
        match ops[i]
        case PushOp(id, kind, m, idName) => PushResource(id, kind, m, idName);
        case PopOp(id, kind) => var _ := PopResource(id, kind);
        case PopLatestOp(kind) => var _ := PopResourceLatest(kind);
      }
      assert ops[..|ops|] == ops;
    }
  }
}

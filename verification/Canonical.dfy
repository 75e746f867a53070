/**
 The test harness's request log: payloads are written with the keys of their dicts in order, dicts
 within dicts included, and so are dicts that come as JSON text. Lists are left as they are. Of the
 recursion level only whether it is zero matters: `SortedPayload` is level 0, `Nested` any other.
 */
module Canonical {
  import opened Options
  import opened Strings
  import opened Json
  import opened JsonGrammar

  /**
   What a payload is to the sort: a dict, given as such or as text; text that should be one and is not;
   or anything else.
   */
  datatype View = Dict(members: seq<(string, Json)>) | Malformed | Other

  predicate Braced(s: string) {
    |s| > 1 && s[0] == '{' && s[|s| - 1] == '}'
  }

  function ViewOf(v: Json): (view: View)
    ensures view.Dict? ==> WeightMembers(view.members) < Weight(v)
    ensures view.Dict? && Proper(v) ==> Proper(Obj(view.members))
  {
    match v
    case Obj(members) => Dict(members)
    case Str(s) =>
      if !Braced(s) then Other
      else if Loads(s).None? || !Loads(s).value.Obj? then Malformed
      else
        LoadsIsGood(s);
        Dict(Loads(s).value.members)
    case _ => Other
  }

  /**
   Text that begins and ends with a brace is seen as the dict it means, if it means one (`Means`, by the
   grammar and not by the reader), and is malformed if it means none; nothing else is.
   */
  lemma ViewIs(v: Json)
    ensures var braces := v.Str? && |v.s| > 1 && v.s[0] == '{' && v.s[|v.s| - 1] == '}';
            && (forall members :: ViewOf(v) == Dict(members)
                             <==> v == Obj(members) || (braces && Means(v.s, Obj(members))))
            && (ViewOf(v).Malformed? <==> braces && forall members :: !Means(v.s, Obj(members)))
  {
    if v.Str? {
      forall members ensures Loads(v.s) == Some(Obj(members)) <==> Means(v.s, Obj(members)) {
        LoadsIff(v.s, Obj(members));
      }
      if Loads(v.s).Some? && Loads(v.s).value.Obj? {
        assert Means(v.s, Obj(Loads(v.s).value.members));
      }
    }
  }

  function Place(m: (string, Json), sorted: seq<(string, Json)>): (r: seq<(string, Json)>)
    ensures WeightMembers(r) == WeightMember(m) + WeightMembers(sorted)
  {
    if sorted == [] then [m]
    else if Less(m.0, sorted[0].0) then [m] + sorted
    else [sorted[0]] + Place(m, sorted[1..])
  }

  function SortKeys(members: seq<(string, Json)>): (r: seq<(string, Json)>)
    ensures WeightMembers(r) == WeightMembers(members)
  {
    if members == [] then [] else Place(members[0], SortKeys(members[1..]))
  }

  /** None where json.loads raises. */
  function Nested(v: Json): Option<Json>
    decreases Weight(v), 0, 0
  {
    match ViewOf(v)
    case Malformed => None
    case Other => Some(v)
    case Dict(members) =>
      if members == [] then Some(v)
      else
        var sorted := NestedMembers(SortKeys(members));
        if sorted.None? then None else Some(Obj(sorted.value))
  }

  function NestedMembers(members: seq<(string, Json)>): (r: Option<seq<(string, Json)>>)
    ensures r.Some? ==> |r.value| == |members| && forall i | 0 <= i < |members| :: r.value[i].0 == members[i].0
    decreases WeightMembers(members), 1, |members|
  {
    if members == [] then Some([])
    else
      assert WeightMember(members[0]) == Weight(members[0].1) <= WeightMembers(members);
      var first, others := Nested(members[0].1), NestedMembers(members[1..]);
      if first.None? || others.None? then None else Some([(members[0].0, first.value)] + others.value)
  }

  function SortedPayload(v: Json): Option<Json> {
    match ViewOf(v)
    case Malformed => None
    case Other => Some(v)
    case Dict(members) =>
      if members == [] then Some(v)
      else
        var sorted := NestedMembers(SortKeys(members));
        if sorted.None? then None else Some(Str(Dumps(Obj(sorted.value))))
  }

  // ---------------------------------------------------------------------------
  // Sorting the members of a dict
  // ---------------------------------------------------------------------------

  function Find(members: seq<(string, Json)>, name: string): (r: Option<Json>)
    ensures r.Some? ==> Weight(r.value) <= WeightMembers(members)
  {
    if members == [] then None
    else if members[0].0 == name then Some(members[0].1)
    else Find(members[1..], name)
  }

  ghost predicate InKeyOrder(members: seq<(string, Json)>) {
    forall i, j | 0 <= i < j < |members| :: Less(members[i].0, members[j].0)
  }

  lemma {:induction false} PlaceInOrder(m: (string, Json), sorted: seq<(string, Json)>)
    requires InKeyOrder(sorted) && forall x | x in sorted :: x.0 != m.0
    ensures InKeyOrder(Place(m, sorted))
    ensures forall x :: x in Place(m, sorted) <==> x == m || x in sorted
    ensures forall name :: Find(Place(m, sorted), name) == if name == m.0 then Some(m.1) else Find(sorted, name)
  {
    if sorted == [] {
    } else if Less(m.0, sorted[0].0) {
      forall j | 1 <= j < |sorted| ensures Less(m.0, sorted[j].0) {
        LessIsTransitive(m.0, sorted[0].0, sorted[j].0);
      }
    } else {
      LessIsTotal(m.0, sorted[0].0);
      PlaceInOrder(m, sorted[1..]);
      var more := Place(m, sorted[1..]);
      forall j | 0 <= j < |more| ensures Less(sorted[0].0, more[j].0) {
        assert more[j] in more;
      }
    }
  }

  lemma {:induction false} SortKeysInOrder(members: seq<(string, Json)>)
    requires DistinctKeys(members)
    ensures InKeyOrder(SortKeys(members))
    ensures forall x :: x in SortKeys(members) <==> x in members
    ensures forall name :: Find(SortKeys(members), name) == Find(members, name)
  {
    if members == [] {
    } else {
      SortKeysInOrder(members[1..]);
      PlaceInOrder(members[0], SortKeys(members[1..]));
    }
  }

  lemma {:induction false} PlaceFirst(m: (string, Json), sorted: seq<(string, Json)>)
    requires InKeyOrder([m] + sorted)
    ensures Place(m, sorted) == [m] + sorted
  {
    if sorted != [] {
      assert ([m] + sorted)[0] == m && ([m] + sorted)[1] == sorted[0];
    }
  }

  lemma {:induction false} SortKeysAgain(members: seq<(string, Json)>)
    requires InKeyOrder(members)
    ensures SortKeys(members) == members
  {
    if members == [] {
    } else {
      SortKeysAgain(members[1..]);
      assert [members[0]] + members[1..] == members;
      PlaceFirst(members[0], members[1..]);
    }
  }

  lemma {:induction false} FindAbsent(members: seq<(string, Json)>, name: string)
    requires forall x | x in members :: x.0 != name
    ensures Find(members, name).None?
  {
    if members == [] {
    } else {
      FindAbsent(members[1..], name);
    }
  }

  /** Members in order are determined by what each name stands for. */
  lemma {:induction false} InOrderUnique(a: seq<(string, Json)>, b: seq<(string, Json)>)
    requires InKeyOrder(a) && InKeyOrder(b) && forall name :: Find(a, name) == Find(b, name)
    ensures a == b
  {
    assert a != [] ==> Find(a, a[0].0).Some?;
    assert b != [] ==> Find(b, b[0].0).Some?;
    if a != [] {
      SameFirst(a, b);
      forall name ensures Find(a[1..], name) == Find(b[1..], name) {
        if name == a[0].0 {
          RestIsLater(a);
          RestIsLater(b);
          FindAbsent(a[1..], name);
          FindAbsent(b[1..], name);
        } else {
          assert Find(a, name) == Find(b, name);
        }
      }
      InOrderUnique(a[1..], b[1..]);
      assert a == [a[0]] + a[1..] && b == [b[0]] + b[1..];
    }
  }

  lemma RestIsLater(a: seq<(string, Json)>)
    requires a != [] && InKeyOrder(a)
    ensures forall x | x in a[1..] :: Less(a[0].0, x.0) && x.0 != a[0].0
  {
    LessIsStrict(a[0].0);
  }

  lemma SameFirst(a: seq<(string, Json)>, b: seq<(string, Json)>)
    requires a != [] && b != [] && InKeyOrder(a) && InKeyOrder(b) && forall name :: Find(a, name) == Find(b, name)
    ensures a[0] == b[0]
  {
    assert Find(a, a[0].0) == Find(b, a[0].0) && Find(a, b[0].0) == Find(b, b[0].0);
    if a[0].0 != b[0].0 {
      FindInRest(a, b[0].0);
      FindInRest(b, a[0].0);
      LessIsTransitive(a[0].0, b[0].0, a[0].0);
      LessIsStrict(a[0].0);
    }
  }

  lemma FindInRest(a: seq<(string, Json)>, name: string)
    requires a != [] && InKeyOrder(a) && Find(a, name).Some? && name != a[0].0
    ensures Less(a[0].0, name)
  {
    FindIn(a[1..], name);
    RestIsLater(a);
  }

  lemma {:induction false} FindIn(members: seq<(string, Json)>, name: string)
    requires Find(members, name).Some?
    ensures (name, Find(members, name).value) in members
  {
    if members[0].0 != name {
      FindIn(members[1..], name);
    }
  }

  // ---------------------------------------------------------------------------
  // The result is in order, and sorting it again changes nothing
  // ---------------------------------------------------------------------------

  /** The dicts reached through dicts have their keys in order, and no text among their values is a dict's. */
  ghost predicate Ordered(v: Json)
    decreases v
  {
    match v
    case Obj(members) => InKeyOrder(members) && forall m | m in members :: Ordered(m.1)
    case _ => ViewOf(v).Other? || ViewOf(v) == Dict([])
  }

  lemma NestedMembersOf(members: seq<(string, Json)>)
    requires members != []
    ensures NestedMembers(members) ==
            if Nested(members[0].1).None? || NestedMembers(members[1..]).None? then None
            else Some([(members[0].0, Nested(members[0].1).value)] + NestedMembers(members[1..]).value)
  {
  }

  lemma {:induction false} NestedIsOrdered(v: Json)
    requires Proper(v) && Nested(v).Some?
    ensures Ordered(Nested(v).value) && Proper(Nested(v).value)
    decreases Weight(v), 0, 0
  {
    match ViewOf(v)
    case Dict(members) =>
      if members != [] {
        SortKeysInOrder(members);
        ProperMembers(members, SortKeys(members));
        MembersOrdered(SortKeys(members));
        InOrderDistinct(NestedMembers(SortKeys(members)).value);
      }
    case Other =>
  }

  lemma ProperMembers(members: seq<(string, Json)>, sorted: seq<(string, Json)>)
    requires Proper(Obj(members)) && forall x :: x in sorted <==> x in members
    ensures forall m | m in sorted :: Proper(m.1)
  {
  }

  lemma InOrderDistinct(members: seq<(string, Json)>)
    requires InKeyOrder(members)
    ensures DistinctKeys(members)
  {
    forall i, j | 0 <= i < j < |members| ensures members[i].0 != members[j].0 {
      LessIsStrict(members[i].0);
    }
  }

  lemma {:induction false} MembersOrdered(members: seq<(string, Json)>)
    requires InKeyOrder(members) && (forall m | m in members :: Proper(m.1)) && NestedMembers(members).Some?
    ensures InKeyOrder(NestedMembers(members).value)
    ensures forall m | m in NestedMembers(members).value :: Ordered(m.1) && Proper(m.1)
    decreases WeightMembers(members), 1, |members|
  {
    if members == [] {
    } else {
      assert WeightMember(members[0]) == Weight(members[0].1) <= WeightMembers(members);
      NestedMembersOf(members);
      NestedIsOrdered(members[0].1);
      MembersOrdered(members[1..]);
      SameNamesInOrder(members, NestedMembers(members).value);
    }
  }

  lemma SameNamesInOrder(a: seq<(string, Json)>, b: seq<(string, Json)>)
    requires InKeyOrder(a) && |b| == |a| && forall i | 0 <= i < |a| :: b[i].0 == a[i].0
    ensures InKeyOrder(b)
  {
  }

  lemma {:induction false} OrderedStays(v: Json)
    requires Ordered(v)
    ensures Nested(v) == Some(v)
    decreases v, 1
  {
    match v
    case Obj(members) =>
      SortKeysAgain(members);
      OrderedMembersStay(members);
    case _ =>
  }

  lemma {:induction false} OrderedMembersStay(members: seq<(string, Json)>)
    requires forall m | m in members :: Ordered(m.1)
    ensures NestedMembers(members) == Some(members)
    decreases members, 2
  {
    if members == [] {
    } else {
      NestedMembersOf(members);
      OrderedMemberStays(members[0]);
      OrderedMembersStay(members[1..]);
      FirstAndRest(members);
    }
  }

  lemma {:induction false} OrderedMemberStays(m: (string, Json))
    requires Ordered(m.1)
    ensures Nested(m.1) == Some(m.1)
    decreases m, 2
  {
    OrderedStays(m.1);
  }

  /** The text written for a dict is again seen as that dict. */
  lemma WrittenDict(members: seq<(string, Json)>)
    requires Proper(Obj(members))
    ensures ViewOf(Str(Dumps(Obj(members)))) == Dict(members)
  {
    RoundTrip(Obj(members));
  }

  /**
   What is logged is in order at every level of dicts, and sorting what is logged changes nothing, at
   level zero and below it.
   */
  lemma Idempotent(v: Json)
    requires Proper(v)
    ensures Nested(v).Some? ==> Ordered(Nested(v).value) && Nested(Nested(v).value) == Nested(v)
    ensures SortedPayload(v).Some? ==> SortedPayload(SortedPayload(v).value) == SortedPayload(v)
  {
    if Nested(v).Some? {
      NestedIsOrdered(v);
      OrderedStays(Nested(v).value);
    }
    if SortedPayload(v).Some? && ViewOf(v).Dict? && ViewOf(v).members != [] {
      var u := Nested(v).value;
      WrittenDict(u.members);
      SortKeysAgain(u.members);
      OrderedMembersStay(u.members);
    }
  }

  // ---------------------------------------------------------------------------
  // Equal up to the order of keys
  // ---------------------------------------------------------------------------

  /** The same payload, but for the order of keys and for dicts given as text, along paths of dicts. */
  ghost predicate Same(v: Json, w: Json)
    decreases Weight(v), 0
  {
    if IsDict(v) then IsDict(w) && SameMembers(ViewOf(v).members, ViewOf(w).members) else v == w
  }

  ghost predicate SameMembers(a: seq<(string, Json)>, b: seq<(string, Json)>)
    decreases WeightMembers(a), 2
  {
    forall name :: SameAt(a, b, name)
  }

  ghost predicate SameAt(a: seq<(string, Json)>, b: seq<(string, Json)>, name: string)
    decreases WeightMembers(a), 1
  {
    && (Find(a, name).None? <==> Find(b, name).None?)
    && (Find(a, name).Some? && Find(b, name).Some? ==> Same(Find(a, name).value, Find(b, name).value))
  }

  predicate IsDict(v: Json) {
    ViewOf(v).Dict? && ViewOf(v).members != []
  }

  lemma NestedDict(v: Json)
    ensures IsDict(v) ==>
              var sorted := NestedMembers(SortKeys(ViewOf(v).members));
              Nested(v) == if sorted.None? then None else Some(Obj(sorted.value))
    ensures !IsDict(v) && Nested(v).Some? ==> Nested(v) == Some(v)
  {
  }

  /** What a name stands for after the sort: the sorted form of what it stood for before. */
  lemma {:induction false} FindNested(members: seq<(string, Json)>, name: string)
    requires NestedMembers(members).Some?
    ensures Find(members, name).None? ==> Find(NestedMembers(members).value, name).None?
    ensures Find(members, name).Some? ==>
              && Nested(Find(members, name).value).Some?
              && Nested(Find(members, name).value) == Find(NestedMembers(members).value, name)
  {
    if members == [] {
    } else {
      NestedMembersOf(members);
      FindNested(members[1..], name);
      assert NestedMembers(members).value[1..] == NestedMembers(members[1..]).value;
    }
  }

  lemma FindProper(members: seq<(string, Json)>, name: string)
    requires Proper(Obj(members)) && Find(members, name).Some?
    ensures Proper(Find(members, name).value)
  {
    FindIn(members, name);
  }

  lemma {:induction false} SameIff(v: Json, w: Json)
    requires Proper(v) && Proper(w) && Nested(v).Some? && Nested(w).Some?
    ensures Nested(v) == Nested(w) <==> Same(v, w)
    decreases Weight(v), 0
  {
    NestedDict(v);
    NestedDict(w);
    if IsDict(v) && IsDict(w) {
      var a, b := ViewOf(v).members, ViewOf(w).members;
      SameDictsIff(a, b);
    } else {
      NotDictStays(v, w);
      NotDictStays(w, v);
    }
  }

  /** A sorted dict is a dict, so it is not something else left as it was. */
  lemma NotDictStays(v: Json, w: Json)
    ensures IsDict(v) && !IsDict(w) && Nested(v).Some? ==> Nested(v) != Some(w)
  {
    if IsDict(v) {
      SortKeysSize(ViewOf(v).members);
    }
  }

  lemma {:induction false} SortKeysSize(members: seq<(string, Json)>)
    ensures members != [] ==> SortKeys(members) != []
  {
  }

  lemma {:induction false} SameDictsIff(a: seq<(string, Json)>, b: seq<(string, Json)>)
    requires Proper(Obj(a)) && Proper(Obj(b)) && NestedMembers(SortKeys(a)).Some? && NestedMembers(SortKeys(b)).Some?
    ensures NestedMembers(SortKeys(a)).value == NestedMembers(SortKeys(b)).value <==> SameMembers(a, b)
    decreases WeightMembers(a), 2
  {
    var m, n := NestedMembers(SortKeys(a)).value, NestedMembers(SortKeys(b)).value;
    SortKeysInOrder(a);
    SortKeysInOrder(b);
    if m == n {
      forall name ensures SameAt(a, b, name) {
        SameNameIff(a, b, name);
      }
    } else if SameMembers(a, b) {
      forall name ensures Find(m, name) == Find(n, name) {
        assert SameAt(a, b, name);
        SameNameIff(a, b, name);
      }
      KeysStayInOrder(SortKeys(a));
      KeysStayInOrder(SortKeys(b));
      InOrderUnique(m, n);
    }
  }

  lemma KeysStayInOrder(members: seq<(string, Json)>)
    requires InKeyOrder(members) && NestedMembers(members).Some?
    ensures InKeyOrder(NestedMembers(members).value)
  {
  }

  /** What a name stands for in the sorted dict. */
  lemma FindSorted(members: seq<(string, Json)>, name: string)
    requires Proper(Obj(members)) && NestedMembers(SortKeys(members)).Some?
    ensures var found := Find(NestedMembers(SortKeys(members)).value, name);
            if Find(members, name).None? then found.None?
            else Proper(Find(members, name).value) && found.Some? && Nested(Find(members, name).value) == found
  {
    SortKeysInOrder(members);
    assert Find(SortKeys(members), name) == Find(members, name);
    FindNested(SortKeys(members), name);
    if Find(members, name).Some? {
      FindProper(members, name);
    }
  }

  lemma {:induction false} SameNameIff(a: seq<(string, Json)>, b: seq<(string, Json)>, name: string)
    requires Proper(Obj(a)) && Proper(Obj(b)) && NestedMembers(SortKeys(a)).Some? && NestedMembers(SortKeys(b)).Some?
    ensures SameAt(a, b, name)
       <==> Find(NestedMembers(SortKeys(a)).value, name) == Find(NestedMembers(SortKeys(b)).value, name)
    decreases WeightMembers(a), 1
  {
    FindSorted(a, name);
    FindSorted(b, name);
    if Find(a, name).Some? && Find(b, name).Some? {
      SameIff(Find(a, name).value, Find(b, name).value);
    }
  }

  /**
   Two payloads are logged as the same text exactly when they are the same but for the order of keys
   along paths of dicts.
   */
  lemma LoggedAlikeIff(v: Json, w: Json)
    requires Proper(v) && Proper(w) && SortedPayload(v).Some? && SortedPayload(w).Some?
    ensures SortedPayload(v) == SortedPayload(w) <==> Same(v, w)
  {
    var a, b := ViewOf(v), ViewOf(w);
    SameIff(v, w);
    NestedIsOrdered(v);
    NestedIsOrdered(w);
    if a.Dict? && a.members != [] {
      WrittenDict(Nested(v).value.members);
    }
    if b.Dict? && b.members != [] {
      WrittenDict(Nested(w).value.members);
    }
  }

  /** What is logged still is the payload, but for the order of keys. */
  lemma LoggedIsSame(v: Json)
    requires Proper(v) && SortedPayload(v).Some?
    ensures Same(v, SortedPayload(v).value)
  {
    Idempotent(v);
    LoggedAlikeIff(v, SortedPayload(v).value);
  }

  // ---------------------------------------------------------------------------
  // When the log call raises
  // ---------------------------------------------------------------------------

  /** What the names lead to, from dict to dict. */
  function Follow(v: Json, path: seq<string>): Option<Json>
    decreases |path|
  {
    if path == [] then Some(v)
    else if !ViewOf(v).Dict? || Find(ViewOf(v).members, path[0]).None? then None
    else Follow(Find(ViewOf(v).members, path[0]).value, path[1..])
  }

  /** The path leads to text in braces that is not a JSON dict. */
  predicate BrokenAt(v: Json, path: seq<string>) {
    Follow(v, path).Some? && ViewOf(Follow(v, path).value).Malformed?
  }

  ghost predicate Broken(v: Json) {
    exists path :: BrokenAt(v, path)
  }

  lemma {:induction false} MembersRaise(members: seq<(string, Json)>)
    ensures NestedMembers(members).None? <==> exists m | m in members :: Nested(m.1).None?
  {
    if members == [] {
    } else {
      NestedMembersOf(members);
      MembersRaise(members[1..]);
      assert forall m :: m in members <==> m == members[0] || m in members[1..];
    }
  }

  lemma {:induction false} FindOwn(members: seq<(string, Json)>, m: (string, Json))
    requires DistinctKeys(members) && m in members
    ensures Find(members, m.0) == Some(m.1)
  {
    if members[0].0 != m.0 {
      FindOwn(members[1..], m);
    } else {
      var i :| 0 <= i < |members| && members[i] == m;
      assert i == 0;
    }
  }

  lemma BrokenThrough(v: Json, name: string)
    requires ViewOf(v).Dict? && Find(ViewOf(v).members, name).Some?
    requires Broken(Find(ViewOf(v).members, name).value)
    ensures Broken(v)
  {
    var path :| BrokenAt(Find(ViewOf(v).members, name).value, path);
    assert ([name] + path)[1..] == path;
    assert BrokenAt(v, [name] + path);
  }

  lemma BrokenBelow(v: Json) returns (name: string)
    requires ViewOf(v).Dict? && Broken(v)
    ensures Find(ViewOf(v).members, name).Some? && Broken(Find(ViewOf(v).members, name).value)
  {
    var path :| BrokenAt(v, path);
    name := path[0];
    assert BrokenAt(Find(ViewOf(v).members, name).value, path[1..]);
  }

  lemma {:induction false} NestedRaisesIff(v: Json)
    requires Proper(v)
    ensures Nested(v).None? <==> Broken(v)
    decreases Weight(v)
  {
    match ViewOf(v)
    case Malformed => assert BrokenAt(v, []);
    case Other =>
    case Dict(members) =>
      DictRaisesIff(members);
      if Nested(v).None? {
        var m :| m in members && Nested(m.1).None?;
        FindOwn(members, m);
        NestedRaisesIff(m.1);
        BrokenThrough(v, m.0);
      }
      if Broken(v) {
        var name := BrokenBelow(v);
        FindIn(members, name);
        NestedRaisesIff(Find(members, name).value);
      }
  }

  lemma DictRaisesIff(members: seq<(string, Json)>)
    requires DistinctKeys(members)
    ensures NestedMembers(SortKeys(members)).None? <==> exists m | m in members :: Nested(m.1).None?
  {
    SortKeysInOrder(members);
    MembersRaise(SortKeys(members));
  }

  /** The log call raises exactly when some path of names leads to text in braces that is not a JSON dict. */
  lemma RaisesIff(v: Json)
    requires Proper(v)
    ensures SortedPayload(v).None? <==> Broken(v)
  {
    NestedRaisesIff(v);
  }
}

/**
 The ACA-Py backchannel's translation of states by substitution in the serialised text, and what it
 does to the value the text stands for.
 */
module StateTranslation {
  import opened Options
  import opened Strings
  import opened Json

  function Pattern(state: string): string {
    "\"state\": \"" + state + "\""
  }

  function ReplaceStateValues(data: string, oldState: string, newState: string): string {
    Replace(data, Pattern(oldState), Pattern(newState))
  }

  /** The states of the tables: printable, without quotes and backslashes. */
  predicate PlainText(s: string) {
    forall i | 0 <= i < |s| :: Plain(s[i])
  }

  const STATE := "state"

  const ENDING := "\"state"

  /** The members whose name ends the way `"state"` does in the text. */
  predicate Named(name: string) {
    name == STATE || (|name| >= 6 && name[|name| - 6..] == ENDING)
  }

  /** Every member that `pick` picks and that has the old state gets the new one. */
  function Update(v: Json, pick: string -> bool, oldState: string, newState: string): Json {
    match v
    case Lit(_) => v
    case Str(_) => v
    case Arr(items) => Arr(UpdateItems(items, pick, oldState, newState))
    case Obj(members) => Obj(UpdateMembers(members, pick, oldState, newState))
  }

  function UpdateItems(items: seq<Json>, pick: string -> bool, oldState: string, newState: string): seq<Json> {
    if items == [] then []
    else [Update(items[0], pick, oldState, newState)] + UpdateItems(items[1..], pick, oldState, newState)
  }

  function UpdateMember(m: (string, Json), pick: string -> bool, oldState: string, newState: string): (string, Json) {
    if pick(m.0) && m.1 == Str(oldState) then (m.0, Str(newState)) else (m.0, Update(m.1, pick, oldState, newState))
  }

  function UpdateMembers(members: seq<(string, Json)>, pick: string -> bool, oldState: string,
                         newState: string): (r: seq<(string, Json)>)
    ensures |r| == |members| && forall i | 0 <= i < |r| :: r[i].0 == members[i].0
  {
    if members == [] then []
    else [UpdateMember(members[0], pick, oldState, newState)] + UpdateMembers(members[1..], pick, oldState, newState)
  }

  /** The state members, at any depth. */
  function SetStates(v: Json, oldState: string, newState: string): Json {
    Update(v, IsState, oldState, newState)
  }

  predicate IsState(name: string) {
    name == STATE
  }

  // ---------------------------------------------------------------------------
  // Escaped strings
  // ---------------------------------------------------------------------------

  /** A quote occurs only as what a backslash escapes, and everything not plain starts with a backslash. */
  ghost predicate Escaping(piece: char -> string) {
    forall c :: Shape(c, piece(c))
  }

  ghost predicate Shape(c: char, text: string) {
    && text != ""
    && (text == [c] || text[0] == '\\')
    && (forall i | 0 <= i < |text| :: text[i] == '"' ==> i == 1 && |text| == 2 && text[0] == '\\' && c == '"')
    && (Plain(c) ==> text == [c])
    && (c == '"' ==> text == "\\\"")
  }

  lemma HexHasNoQuote(n: nat)
    requires n < 0x10000
    ensures forall i | 0 <= i < 4 :: Hex(n)[i] != '"'
  {
    assert forall d | 0 <= d < 16 :: DIGITS[d] != '"';
  }

  lemma UnitShape(n: nat)
    requires n < 0x10000
    ensures |EscapeUnit(n)| == 6 && EscapeUnit(n)[0] == '\\' && forall i | 0 <= i < 6 :: EscapeUnit(n)[i] != '"'
  {
    HexHasNoQuote(n);
  }

  lemma EscapeCharShape(c: char)
    ensures Shape(c, EscapeChar(c))
  {
    if Plain(c) || ShortLetter(c).Some? {
    } else if c as int < 0x10000 {
      UnitShape(c as int);
    } else {
      UnitShape(High(c));
      UnitShape(Low(c));
    }
  }

  lemma EscapeSpells(s: string)
    ensures Escape(s) == Spell(s, EscapeChar) && Escaping(EscapeChar)
  {
    forall c ensures Shape(c, EscapeChar(c)) {
      EscapeCharShape(c);
    }
    EscapeIsSpell(s);
  }

  lemma {:induction false} SpellBoth(a: string, b: string, piece: char -> string)
    ensures Spell(a + b, piece) == Spell(a, piece) + Spell(b, piece)
  {
    if a == "" {
      assert a + b == b;
    } else {
      SpellBoth(a[1..], b, piece);
      assert (a + b)[1..] == a[1..] + b;
      Associates(piece(a[0]), Spell(a[1..], piece), Spell(b, piece));
    }
  }

  /** In an escaped string, every quote has a backslash before it. */
  lemma {:induction false} QuotesEscaped(s: string, piece: char -> string)
    requires Escaping(piece)
    ensures forall i | 0 <= i < |Spell(s, piece)| ::
              Spell(s, piece)[i] == '"' ==> i > 0 && Spell(s, piece)[i - 1] == '\\'
  {
    if s == "" {
    } else {
      assert Shape(s[0], piece(s[0]));
      QuotesEscaped(s[1..], piece);
    }
  }

  lemma {:induction false} PlainSpells(s: string, piece: char -> string)
    requires Escaping(piece) && PlainText(s)
    ensures Spell(s, piece) == s
  {
    if s == "" {
    } else {
      assert Shape(s[0], piece(s[0]));
      PlainSpells(s[1..], piece);
      assert s == [s[0]] + s[1..];
    }
  }

  /** A string that looks plain when escaped is what it looks. */
  lemma {:induction false} LooksPlain(s: string, piece: char -> string)
    requires Escaping(piece) && forall i | 0 <= i < |Spell(s, piece)| :: Spell(s, piece)[i] != '\\'
    ensures Spell(s, piece) == s
  {
    if s == "" {
    } else {
      var first, more := piece(s[0]), Spell(s[1..], piece);
      assert Shape(s[0], first) && Spell(s, piece) == first + more;
      assert forall i | 0 <= i < |more| :: more[i] == (first + more)[|first| + i];
      assert first[0] == (first + more)[0];
      LooksPlain(s[1..], piece);
      assert s == [s[0]] + s[1..];
    }
  }

  /** What follows a quote in an escaped string is the escape of what follows that quote in the string. */
  lemma {:induction false} AfterQuote(s: string, i: nat, piece: char -> string) returns (b: string)
    requires Escaping(piece) && i < |Spell(s, piece)| && Spell(s, piece)[i] == '"'
    ensures |b| < |s| && s[|s| - |b|..] == b && s[|s| - |b| - 1] == '"' && Spell(s, piece)[i + 1..] == Spell(b, piece)
  {
    var first, more := piece(s[0]), Spell(s[1..], piece);
    assert Shape(s[0], first) && Spell(s, piece) == first + more;
    if i < |first| {
      assert first[i] == '"';
      b := s[1..];
    } else {
      assert more[i - |first|] == '"';
      b := AfterQuote(s[1..], i - |first|, piece);
      assert (first + more)[i + 1..] == more[i - |first| + 1..];
    }
  }

  // ---------------------------------------------------------------------------
  // Where the pattern can match
  // ---------------------------------------------------------------------------

  ghost predicate Escaped(e: string) {
    forall i | 0 <= i < |e| :: e[i] == '"' ==> i > 0 && e[i - 1] == '\\'
  }

  /** What must come after a name for the pattern to match. */
  function Sought(state: string): string {
    ": \"" + state + "\""
  }

  lemma PatternAt(text: string, j: nat, state: string)
    requires j <= |text| && Pattern(state) <= text[j..]
    ensures |text| >= j + 7 && text[j] == '"' && text[j + 1..j + 6] == STATE && text[j + 6] == '"'
    ensures text[j + 1] == 's' && text[j + 2] == 't' && text[j + 3] == 'a' && text[j + 4] == 't' && text[j + 5] == 'e'
    ensures Sought(state) <= text[j + 7..]
  {
    var p := Pattern(state);
    assert p == "\"" + STATE + "\"" + Sought(state);
    assert forall d | 0 <= d < |p| :: text[j + d] == p[d];
    assert p[7..] == Sought(state) && text[j..][..|p|] == p;
    assert text[j + 7..][..|p| - 7] == p[7..];
  }

  /** In a quoted string the pattern can only start at the quote before a final `state`. */
  lemma MatchAt(e: string, tail: string, j: nat, state: string)
    requires Escaped(e) && j < |e| + 2 && (tail == "" || tail[0] != 's')
    requires Pattern(state) <= ("\"" + e + "\"" + tail)[j..]
    ensures j + 5 == |e| && e[j..] == STATE && (j > 0 ==> e[j - 1] == '"') && Sought(state) <= tail
  {
    var text := "\"" + e + "\"" + tail;
    PatternAt(text, j, state);
    var n := |e|;
    assert text[n + 1] == '"' && (forall i | 0 <= i < n :: text[i + 1] == e[i]) && text[n + 2..] == tail;
    assert j + 6 == n + 1;
    assert text[j + 1..j + 6] == e[j..] && text[j + 7..] == tail;
  }

  /** How the text of a name ends when the pattern can start in it. */
  predicate EndsInState(e: string) {
    |e| >= 5 && e[|e| - 5..] == STATE && (|e| > 5 ==> e[|e| - 6] == '"')
  }

  lemma EndingSpells(piece: char -> string)
    requires Escaping(piece)
    ensures Spell(ENDING, piece) == "\\" + ENDING
  {
    assert ENDING[0] == '"' && ENDING[1..] == STATE && Shape('"', piece('"'));
    PlainSpells(STATE, piece);
    assert "\\\"" + STATE == "\\" + ENDING;
  }

  lemma EndsAfter(a: string, e: string)
    requires e == a + ("\\" + ENDING)
    ensures EndsInState(e)
  {
    var n := |a| + 2;
    assert |e| == n + 5 && e[n - 1] == '"';
    assert e[n..] == STATE;
  }

  lemma NamedEnds(name: string, piece: char -> string)
    requires Escaping(piece) && Named(name)
    ensures EndsInState(Spell(name, piece))
  {
    if name == STATE {
      PlainSpells(STATE, piece);
      assert STATE[0..] == STATE;
    } else {
      var a := name[..|name| - 6];
      assert name == a + ENDING;
      SpellBoth(a, ENDING, piece);
      EndingSpells(piece);
      EndsAfter(Spell(a, piece), Spell(name, piece));
    }
  }

  lemma SpellsState(s: string, piece: char -> string)
    requires Escaping(piece) && Spell(s, piece) == STATE
    ensures s == STATE
  {
    LooksPlain(s, piece);
  }

  lemma NamedByQuote(name: string)
    requires |name| >= 6 && name[|name| - 6] == '"' && name[|name| - 5..] == STATE
    ensures Named(name)
  {
    assert name[|name| - 6..] == [name[|name| - 6]] + name[|name| - 5..];
    assert ENDING == ['"'] + STATE;
  }

  lemma EndsNamed(name: string, piece: char -> string)
    requires Escaping(piece) && EndsInState(Spell(name, piece))
    ensures Named(name)
  {
    var e := Spell(name, piece);
    if |e| == 5 {
      assert e[0..] == e;
      SpellsState(name, piece);
    } else {
      var b := AfterQuote(name, |e| - 6, piece);
      SpellsState(b, piece);
      NamedByQuote(name);
    }
  }

  lemma NamedIff(name: string)
    ensures EndsInState(Escape(name)) <==> Named(name)
  {
    EscapeSpells(name);
    if Named(name) {
      NamedEnds(name, EscapeChar);
    } else if EndsInState(Spell(name, EscapeChar)) {
      EndsNamed(name, EscapeChar);
    }
  }

  lemma QuotedIs(e: string, rest: string, state: string)
    requires Escaped(e) && PlainText(state) && "\"" + state + "\"" <= "\"" + e + "\"" + rest
    ensures e == state
  {
    var text, sought := "\"" + e + "\"" + rest, "\"" + state + "\"";
    var n := |state|;
    assert forall i | 0 <= i < |sought| :: text[i] == sought[i];
    assert forall i | 1 <= i <= |e| :: text[i] == e[i - 1];
    assert forall i | 1 <= i <= n :: text[i] == state[i - 1];
    assert text[n + 1] == sought[n + 1] == '"' && text[|e| + 1] == '"';
    assert n > 0 ==> text[n] != '\\';
    assert |e| <= n;
    assert forall i | 1 <= i <= n :: text[i] != '"';
    assert |e| == n;
    assert forall i | 0 <= i < n :: e[i] == text[i + 1];
  }

  lemma AfterColon(sought: string, text: string)
    ensures ": " + sought <= ": " + text <==> sought <= text
  {
    assert (": " + sought)[2..] == sought && (": " + text)[2..] == text;
    if ": " + sought <= ": " + text {
      assert forall i | 0 <= i < |sought| :: sought[i] == (": " + sought)[i + 2] == (": " + text)[i + 2] == text[i];
    }
  }

  /** The sought text comes next exactly when the value is the old state. */
  lemma SoughtIff(v: Json, rest: string, state: string)
    requires Proper(v) && PlainText(state)
    ensures Sought(state) <= ": " + Dumps(v) + rest <==> v == Str(state)
  {
    var text := Dumps(v) + rest;
    assert ": " + Dumps(v) + rest == ": " + text;
    AfterColon("\"" + state + "\"", text);
    assert Sought(state) == ": " + ("\"" + state + "\"");
    if v.Str? {
      StringIs(v.s, rest, state);
    } else {
      NotQuoted(v);
      assert text[0] == Dumps(v)[0] && ("\"" + state + "\"")[0] == '"';
    }
  }

  lemma StringIs(s: string, rest: string, state: string)
    requires PlainText(state)
    ensures "\"" + state + "\"" <= Quote(s) + rest <==> s == state
  {
    EscapeSpells(s);
    EscapeSpells(state);
    QuotesEscaped(s, EscapeChar);
    PlainSpells(state, EscapeChar);
    if "\"" + state + "\"" <= Quote(s) + rest {
      QuotedIs(Escape(s), rest, state);
      PlainEscapeIs(s, state);
    }
  }

  lemma PlainEscapeIs(s: string, state: string)
    requires Escape(s) == state && PlainText(state)
    ensures s == state
  {
    EscapeSpells(s);
    LooksPlain(s, EscapeChar);
  }

  lemma NotQuoted(v: Json)
    requires Proper(v) && !v.Str?
    ensures Dumps(v) != "" && Dumps(v)[0] != '"'
  {
    if v.Lit? {
      LiteralChars(v.text);
    }
  }

  /** The pattern cannot start in a string that is not a name. */
  lemma StringClear(s: string, rest: string, state: string)
    requires Follows(rest)
    ensures Clear(Quote(s), rest, Pattern(state))
  {
    EscapeSpells(s);
    QuotesEscaped(s, EscapeChar);
    forall j | 0 <= j < |Quote(s)| ensures !(Pattern(state) <= (Quote(s) + rest)[j..]) {
      if Pattern(state) <= (Quote(s) + rest)[j..] {
        MatchAt(Escape(s), rest, j, state);
      }
    }
  }

  /** Nor in a text without quotes. */
  lemma NoQuoteClear(piece: string, rest: string, state: string)
    requires forall i | 0 <= i < |piece| :: piece[i] != '"'
    ensures Clear(piece, rest, Pattern(state))
  {
    forall j | 0 <= j < |piece| ensures !(Pattern(state) <= (piece + rest)[j..]) {
      if Pattern(state) <= (piece + rest)[j..] {
        PatternAt(piece + rest, j, state);
      }
    }
  }

  // ---------------------------------------------------------------------------
  // Substitution in the text is an update of the value
  // ---------------------------------------------------------------------------

  /** The update the substitution makes. */
  function Substituted(v: Json, oldState: string, newState: string): Json {
    Update(v, Named, oldState, newState)
  }

  const QUOTED_STATE := "\"state\""

  /** The part of a quoted name before the quote where the pattern starts. */
  function Before(e: string): (before: string)
    requires |e| >= 5
    ensures |before| == |e| - 5
  {
    if |e| == 5 then "" else "\"" + e[..|e| - 6]
  }

  lemma QuotedEnds(e: string)
    requires EndsInState(e)
    ensures "\"" + e + "\"" == Before(e) + QUOTED_STATE
  {
    if |e| == 5 {
      assert e == e[0..] == STATE;
    } else {
      var a := e[..|e| - 6];
      assert e == a + ("\"" + STATE) by {
        assert e == a + e[|e| - 6..] && e[|e| - 6..] == [e[|e| - 6]] + e[|e| - 5..];
      }
      Requoted(a);
    }
  }

  lemma Requoted(a: string)
    ensures "\"" + (a + ("\"" + STATE)) + "\"" == "\"" + a + ("\"" + STATE + "\"")
  {
  }

  lemma PatternSplits(state: string)
    ensures Pattern(state) == QUOTED_STATE + Sought(state)
  {
  }

  lemma Regrouped(a: string, b: string, c: string, d: string)
    ensures a + b + (c + d) == a + ((b + c) + d)
  {
  }

  /** A quoted name and the sought text, cut where the pattern starts. */
  lemma NameSplits(e: string, state: string, rest: string)
    requires EndsInState(e)
    ensures "\"" + e + "\"" + (Sought(state) + rest) == Before(e) + (Pattern(state) + rest)
  {
    QuotedEnds(e);
    PatternSplits(state);
    Regrouped(Before(e), QUOTED_STATE, Sought(state), rest);
  }

  lemma BeforeClear(e: string, rest: string, state: string)
    requires EndsInState(e) && Escaped(e)
    ensures Clear(Before(e), Pattern(state) + rest, Pattern(state))
  {
    NameSplits(e, state, rest);
    var text := Before(e) + (Pattern(state) + rest);
    assert (Sought(state) + rest)[0] == ':';
    forall j | 0 <= j < |Before(e)| ensures !(Pattern(state) <= text[j..]) {
      if Pattern(state) <= text[j..] {
        MatchAt(e, Sought(state) + rest, j, state);
      }
    }
  }

  lemma QuotedState(state: string)
    requires PlainText(state)
    ensures ": " + Quote(state) == Sought(state)
  {
    EscapeSpells(state);
    PlainSpells(state, EscapeChar);
    assert ": " + ("\"" + state + "\"") == Sought(state);
  }

  lemma MemberText(name: string, v: string, rest: string)
    ensures name + ": " + v + rest == name + (": " + v + rest)
  {
  }

  lemma MemberSplits(name: string, state: string, rest: string)
    requires EndsInState(Escape(name)) && PlainText(state)
    ensures DumpsMember((name, Str(state))) + rest == Before(Escape(name)) + (Pattern(state) + rest)
  {
    QuotedState(state);
    MemberText(Quote(name), Quote(state), rest);
    NameSplits(Escape(name), state, rest);
  }

  /** A member whose state is replaced. */
  lemma HitText(name: string, rest: string, oldState: string, newState: string)
    requires Named(name) && PlainText(oldState) && PlainText(newState)
    ensures Replace(DumpsMember((name, Str(oldState))) + rest, Pattern(oldState), Pattern(newState))
         == DumpsMember((name, Str(newState))) + Replace(rest, Pattern(oldState), Pattern(newState))
  {
    var e := Escape(name);
    NamedIff(name);
    EscapeSpells(name);
    QuotesEscaped(name, EscapeChar);
    MemberSplits(name, oldState, rest);
    MemberSplits(name, newState, Replace(rest, Pattern(oldState), Pattern(newState)));
    BeforeClear(e, rest, oldState);
    ReplaceSkips(Before(e), Pattern(oldState) + rest, Pattern(oldState), Pattern(newState));
    ReplaceHits(rest, Pattern(oldState), Pattern(newState));
  }

  /** The name of a member whose state is not replaced, with the colon after it. */
  lemma NameClear(name: string, v: Json, rest: string, state: string)
    requires Proper(v) && PlainText(state) && !(Named(name) && v == Str(state))
    ensures Clear(Quote(name) + ": ", Dumps(v) + rest, Pattern(state))
  {
    var e, value := Escape(name), Dumps(v) + rest;
    EscapeSpells(name);
    QuotesEscaped(name, EscapeChar);
    NamedIff(name);
    SoughtIff(v, rest, state);
    Associates(": ", Dumps(v), rest);
    NoMatch(e, value, state);
  }

  lemma NoMatch(e: string, value: string, state: string)
    requires Escaped(e) && !(EndsInState(e) && Sought(state) <= ": " + value)
    ensures Clear("\"" + e + "\"" + ": ", value, Pattern(state))
  {
    var tail := ": " + value;
    var text := "\"" + e + "\"" + ": " + value;
    Associates("\"" + e + "\"", ": ", value);
    forall j | 0 <= j < |e| + 4 ensures !(Pattern(state) <= text[j..]) {
      if Pattern(state) <= text[j..] {
        if j < |e| + 2 {
          MatchAt(e, tail, j, state);
        } else {
          PatternAt(text, j, state);
        }
      }
    }
  }

  lemma SkipPlain(piece: string, rest: string, oldState: string, newState: string)
    requires forall i | 0 <= i < |piece| :: piece[i] != '"'
    ensures ReplaceStateValues(piece + rest, oldState, newState) == piece + ReplaceStateValues(rest, oldState, newState)
  {
    NoQuoteClear(piece, rest, oldState);
    ReplaceSkips(piece, rest, Pattern(oldState), Pattern(newState));
  }

  lemma Bracketed(open: string, inner: string, close: string, rest: string)
    ensures open + inner + close + rest == open + (inner + (close + rest))
  {
  }

  lemma Listed(first: string, more: string, rest: string)
    ensures first + ", " + more + rest == first + (", " + (more + rest))
  {
  }

  lemma {:induction false} ValueText(v: Json, rest: string, oldState: string, newState: string)
    requires Proper(v) && PlainText(oldState) && PlainText(newState) && Follows(rest)
    ensures ReplaceStateValues(Dumps(v) + rest, oldState, newState)
         == Dumps(Substituted(v, oldState, newState)) + ReplaceStateValues(rest, oldState, newState)
    decreases v, 2
  {
    match v
    case Lit(text) =>
      LiteralChars(text);
      SkipPlain(text, rest, oldState, newState);
    case Str(s) =>
      StringClear(s, rest, oldState);
      ReplaceSkips(Quote(s), rest, Pattern(oldState), Pattern(newState));
    case Arr(items) => ArrText(items, rest, oldState, newState);
    case Obj(members) => ObjText(members, rest, oldState, newState);
  }

  lemma {:induction false} ArrText(items: seq<Json>, rest: string, oldState: string, newState: string)
    requires (forall x | x in items :: Proper(x)) && PlainText(oldState) && PlainText(newState)
    ensures ReplaceStateValues("[" + DumpsItems(items) + "]" + rest, oldState, newState)
         == "[" + DumpsItems(UpdateItems(items, Named, oldState, newState)) + "]"
            + ReplaceStateValues(rest, oldState, newState)
    decreases items, 4
  {
    Bracketed("[", DumpsItems(items), "]", rest);
    SkipPlain("[", DumpsItems(items) + ("]" + rest), oldState, newState);
    ItemsText(items, "]" + rest, oldState, newState);
    SkipPlain("]", rest, oldState, newState);
    Bracketed("[", DumpsItems(UpdateItems(items, Named, oldState, newState)), "]",
              ReplaceStateValues(rest, oldState, newState));
  }

  lemma {:induction false} ItemsText(items: seq<Json>, rest: string, oldState: string, newState: string)
    requires (forall x | x in items :: Proper(x)) && PlainText(oldState) && PlainText(newState) && Follows(rest)
    ensures ReplaceStateValues(DumpsItems(items) + rest, oldState, newState)
         == DumpsItems(UpdateItems(items, Named, oldState, newState)) + ReplaceStateValues(rest, oldState, newState)
    decreases items, 3
  {
    if items == [] {
      assert DumpsItems(items) + rest == rest;
    } else if |items| == 1 {
      ValueText(items[0], rest, oldState, newState);
    } else {
      var more, updated := DumpsItems(items[1..]) + rest, UpdateItems(items[1..], Named, oldState, newState);
      Listed(Dumps(items[0]), DumpsItems(items[1..]), rest);
      ValueText(items[0], ", " + more, oldState, newState);
      SkipPlain(", ", more, oldState, newState);
      ItemsText(items[1..], rest, oldState, newState);
      Listed(Dumps(Substituted(items[0], oldState, newState)), DumpsItems(updated),
             ReplaceStateValues(rest, oldState, newState));
      UpdateItemsCons(items, oldState, newState);
    }
  }

  lemma UpdateItemsCons(items: seq<Json>, oldState: string, newState: string)
    requires |items| > 1
    ensures var updated := UpdateItems(items[1..], Named, oldState, newState);
            DumpsItems(UpdateItems(items, Named, oldState, newState))
            == Dumps(Substituted(items[0], oldState, newState)) + ", " + DumpsItems(updated)
  {
    var all := UpdateItems(items, Named, oldState, newState);
    assert all[1..] == UpdateItems(items[1..], Named, oldState, newState) && |all| > 1;
  }

  lemma {:induction false} MemberReplaced(m: (string, Json), rest: string, oldState: string, newState: string)
    requires Proper(m.1) && PlainText(oldState) && PlainText(newState) && Follows(rest)
    ensures ReplaceStateValues(DumpsMember(m) + rest, oldState, newState)
         == DumpsMember(UpdateMember(m, Named, oldState, newState)) + ReplaceStateValues(rest, oldState, newState)
    decreases m, 3
  {
    if Named(m.0) && m.1 == Str(oldState) {
      HitText(m.0, rest, oldState, newState);
    } else {
      var start := Quote(m.0) + ": ";
      NameClear(m.0, m.1, rest, oldState);
      ReplaceSkips(start, Dumps(m.1) + rest, Pattern(oldState), Pattern(newState));
      ValueText(m.1, rest, oldState, newState);
      Associates(start, Dumps(m.1), rest);
      Associates(start, Dumps(Substituted(m.1, oldState, newState)), ReplaceStateValues(rest, oldState, newState));
    }
  }

  lemma {:induction false} ObjText(members: seq<(string, Json)>, rest: string, oldState: string, newState: string)
    requires (forall m | m in members :: Proper(m.1)) && PlainText(oldState) && PlainText(newState)
    ensures ReplaceStateValues("{" + DumpsMembers(members) + "}" + rest, oldState, newState)
         == "{" + DumpsMembers(UpdateMembers(members, Named, oldState, newState)) + "}"
            + ReplaceStateValues(rest, oldState, newState)
    decreases members, 4
  {
    Bracketed("{", DumpsMembers(members), "}", rest);
    SkipPlain("{", DumpsMembers(members) + ("}" + rest), oldState, newState);
    MembersReplaced(members, "}" + rest, oldState, newState);
    SkipPlain("}", rest, oldState, newState);
    Bracketed("{", DumpsMembers(UpdateMembers(members, Named, oldState, newState)), "}",
              ReplaceStateValues(rest, oldState, newState));
  }

  lemma {:induction false} MembersReplaced(members: seq<(string, Json)>, rest: string, oldState: string,
                                           newState: string)
    requires (forall m | m in members :: Proper(m.1)) && PlainText(oldState) && PlainText(newState) && Follows(rest)
    ensures ReplaceStateValues(DumpsMembers(members) + rest, oldState, newState)
         == DumpsMembers(UpdateMembers(members, Named, oldState, newState))
            + ReplaceStateValues(rest, oldState, newState)
    decreases members, 3
  {
    if members == [] {
      assert DumpsMembers(members) + rest == rest;
    } else if |members| == 1 {
      MemberReplaced(members[0], rest, oldState, newState);
    } else {
      var more, updated := DumpsMembers(members[1..]) + rest, UpdateMembers(members[1..], Named, oldState, newState);
      Listed(DumpsMember(members[0]), DumpsMembers(members[1..]), rest);
      MemberReplaced(members[0], ", " + more, oldState, newState);
      SkipPlain(", ", more, oldState, newState);
      MembersReplaced(members[1..], rest, oldState, newState);
      Listed(DumpsMember(UpdateMember(members[0], Named, oldState, newState)), DumpsMembers(updated),
             ReplaceStateValues(rest, oldState, newState));
      UpdateMembersCons(members, oldState, newState);
    }
  }

  lemma UpdateMembersCons(members: seq<(string, Json)>, oldState: string, newState: string)
    requires |members| > 1
    ensures var updated := UpdateMembers(members[1..], Named, oldState, newState);
            DumpsMembers(UpdateMembers(members, Named, oldState, newState))
            == DumpsMember(UpdateMember(members[0], Named, oldState, newState)) + ", " + DumpsMembers(updated)
  {
    var all := UpdateMembers(members, Named, oldState, newState);
    assert all[1..] == UpdateMembers(members[1..], Named, oldState, newState) && |all| > 1;
  }

  /** For every value: replacing in its text replaces exactly the states of the named members, at any depth. */
  lemma SubstitutionUpdates(v: Json, oldState: string, newState: string)
    requires Proper(v) && PlainText(oldState) && PlainText(newState)
    ensures ReplaceStateValues(Dumps(v), oldState, newState) == Dumps(Substituted(v, oldState, newState))
  {
    ValueText(v, "", oldState, newState);
    assert Dumps(v) + "" == Dumps(v);
    assert Dumps(Substituted(v, oldState, newState)) + "" == Dumps(Substituted(v, oldState, newState));
  }

  // ---------------------------------------------------------------------------
  // When that is the update of the state members
  // ---------------------------------------------------------------------------

  /** Somewhere, a member has the old state and a name that only ends in `"state`. */
  ghost predicate Stray(v: Json, state: string) {
    match v
    case Lit(_) => false
    case Str(_) => false
    case Arr(items) => exists x | x in items :: Stray(x, state)
    case Obj(members) => exists m | m in members :: StrayMember(m, state)
  }

  ghost predicate StrayMember(m: (string, Json), state: string) {
    (Named(m.0) && m.0 != STATE && m.1 == Str(state)) || Stray(m.1, state)
  }

  /** No member's name contains a quote. */
  ghost predicate QuoteFreeNames(v: Json) {
    match v
    case Lit(_) => true
    case Str(_) => true
    case Arr(items) => forall x | x in items :: QuoteFreeNames(x)
    case Obj(members) => forall m | m in members :: '"' !in m.0 && QuoteFreeNames(m.1)
  }

  lemma {:induction false} SubstitutedIff(v: Json, oldState: string, newState: string)
    requires oldState != newState
    ensures Substituted(v, oldState, newState) == SetStates(v, oldState, newState) <==> !Stray(v, oldState)
    decreases v, 1
  {
    match v
    case Lit(_) =>
    case Str(_) =>
    case Arr(items) => ItemsIff(items, oldState, newState);
    case Obj(members) => MembersIff(members, oldState, newState);
  }

  lemma {:induction false} ItemsIff(items: seq<Json>, oldState: string, newState: string)
    requires oldState != newState
    ensures UpdateItems(items, Named, oldState, newState) == UpdateItems(items, IsState, oldState, newState)
            <==> !exists x | x in items :: Stray(x, oldState)
    decreases items, 2
  {
    if items == [] {
    } else {
      var a, b := UpdateItems(items, Named, oldState, newState), UpdateItems(items, IsState, oldState, newState);
      SubstitutedIff(items[0], oldState, newState);
      ItemsIff(items[1..], oldState, newState);
      assert a[1..] == UpdateItems(items[1..], Named, oldState, newState);
      assert b[1..] == UpdateItems(items[1..], IsState, oldState, newState);
      assert a == [a[0]] + a[1..] && b == [b[0]] + b[1..];
      assert forall x :: x in items <==> x == items[0] || x in items[1..];
    }
  }

  lemma {:induction false} MemberIff(m: (string, Json), oldState: string, newState: string)
    requires oldState != newState
    ensures UpdateMember(m, Named, oldState, newState) == UpdateMember(m, IsState, oldState, newState)
       <==> !StrayMember(m, oldState)
    decreases m, 2
  {
    SubstitutedIff(m.1, oldState, newState);
  }

  lemma {:induction false} MembersIff(members: seq<(string, Json)>, oldState: string, newState: string)
    requires oldState != newState
    ensures UpdateMembers(members, Named, oldState, newState) == UpdateMembers(members, IsState, oldState, newState)
            <==> !exists m | m in members :: StrayMember(m, oldState)
    decreases members, 2
  {
    if members == [] {
    } else {
      var a := UpdateMembers(members, Named, oldState, newState);
      var b := UpdateMembers(members, IsState, oldState, newState);
      MemberIff(members[0], oldState, newState);
      MembersIff(members[1..], oldState, newState);
      assert a[1..] == UpdateMembers(members[1..], Named, oldState, newState);
      assert b[1..] == UpdateMembers(members[1..], IsState, oldState, newState);
      assert a == [a[0]] + a[1..] && b == [b[0]] + b[1..];
      assert forall m :: m in members <==> m == members[0] || m in members[1..];
    }
  }

  lemma {:induction false} UpdateIsProper(v: Json, pick: string -> bool, oldState: string, newState: string)
    requires Proper(v)
    ensures Proper(Update(v, pick, oldState, newState))
    decreases v, 1
  {
    match v
    case Lit(_) =>
    case Str(_) =>
    case Arr(items) => ItemsAreProper(items, pick, oldState, newState);
    case Obj(members) => MembersAreProper(members, pick, oldState, newState);
  }

  lemma {:induction false} ItemsAreProper(items: seq<Json>, pick: string -> bool, oldState: string, newState: string)
    requires forall x | x in items :: Proper(x)
    ensures forall x | x in UpdateItems(items, pick, oldState, newState) :: Proper(x)
    decreases items, 2
  {
    if items == [] {
    } else {
      UpdateIsProper(items[0], pick, oldState, newState);
      ItemsAreProper(items[1..], pick, oldState, newState);
    }
  }

  lemma {:induction false} MemberIsProper(m: (string, Json), pick: string -> bool, oldState: string, newState: string)
    requires Proper(m.1)
    ensures Proper(UpdateMember(m, pick, oldState, newState).1)
    decreases m, 2
  {
    UpdateIsProper(m.1, pick, oldState, newState);
  }

  lemma {:induction false} MembersAreProper(members: seq<(string, Json)>, pick: string -> bool, oldState: string,
                                            newState: string)
    requires forall m | m in members :: Proper(m.1)
    ensures forall m | m in UpdateMembers(members, pick, oldState, newState) :: Proper(m.1)
    decreases members, 2
  {
    if members == [] {
    } else {
      MemberIsProper(members[0], pick, oldState, newState);
      MembersAreProper(members[1..], pick, oldState, newState);
    }
  }

  /**
   The substitution is the update of the state members, at any depth and of nothing else, exactly
   when no other member's name ends in `"state` with the old state as its value.
   */
  lemma StructuralIff(v: Json, oldState: string, newState: string)
    requires Proper(v) && PlainText(oldState) && PlainText(newState) && oldState != newState
    ensures ReplaceStateValues(Dumps(v), oldState, newState) == Dumps(SetStates(v, oldState, newState))
       <==> !Stray(v, oldState)
  {
    SubstitutionUpdates(v, oldState, newState);
    SubstitutedIff(v, oldState, newState);
    UpdateIsProper(v, Named, oldState, newState);
    UpdateIsProper(v, IsState, oldState, newState);
    RoundTrip(Substituted(v, oldState, newState));
    RoundTrip(SetStates(v, oldState, newState));
  }

  /** A value with a stray name: any name that goes on with a quote and `state` loses its old state, too. */
  lemma StrayIsReplaced(before: string, oldState: string, newState: string)
    requires PlainText(oldState) && PlainText(newState) && oldState != newState
    ensures var v, w := Obj([(before + ENDING, Str(oldState))]), Obj([(before + ENDING, Str(newState))]);
            && Proper(v) && SetStates(v, oldState, newState) == v
            && ReplaceStateValues(Dumps(v), oldState, newState) == Dumps(w) != Dumps(v)
  {
    var name := before + ENDING;
    assert name[|name| - 6..] == ENDING;
    var v, w := Obj([(name, Str(oldState))]), Obj([(name, Str(newState))]);
    assert (name, Str(oldState)) in v.members && StrayMember((name, Str(oldState)), oldState);
    OneMember(name, Str(oldState), Named, oldState, newState);
    OneMember(name, Str(oldState), IsState, oldState, newState);
    SubstitutionUpdates(v, oldState, newState);
    StructuralIff(v, oldState, newState);
  }

  lemma OneMember(name: string, v: Json, pick: string -> bool, oldState: string, newState: string)
    ensures Update(Obj([(name, v)]), pick, oldState, newState)
         == Obj([UpdateMember((name, v), pick, oldState, newState)])
  {
    assert [(name, v)][1..] == [];
  }

  lemma {:induction false} QuoteFreeNotStray(v: Json, state: string)
    requires QuoteFreeNames(v)
    ensures !Stray(v, state)
    decreases v
  {
    match v
    case Lit(_) =>
    case Str(_) =>
    case Arr(items) =>
      forall x | x in items ensures !Stray(x, state) {
        QuoteFreeNotStray(x, state);
      }
    case Obj(members) =>
      forall m | m in members ensures !StrayMember(m, state) {
        QuoteFreeNotStray(m.1, state);
        assert |m.0| >= 6 ==> m.0[|m.0| - 6] in m.0;
        assert ENDING[0] == '"';
      }
  }

  /**
   So with names free of quotes, whatever the strings hold, reading the new text gives the value with
   its states set.
   */
  lemma QuoteFreeIsStructural(v: Json, oldState: string, newState: string)
    requires Proper(v) && PlainText(oldState) && PlainText(newState) && QuoteFreeNames(v)
    ensures Loads(ReplaceStateValues(Dumps(v), oldState, newState)) == Some(SetStates(v, oldState, newState))
  {
    UpdateIsProper(v, IsState, oldState, newState);
    RoundTrip(SetStates(v, oldState, newState));
    QuoteFreeNotStray(v, oldState);
    if oldState != newState {
      StructuralIff(v, oldState, newState);
    } else {
      SubstitutionUpdates(v, oldState, newState);
      UnchangedWhenSame(v, Named, oldState);
      UnchangedWhenSame(v, IsState, oldState);
    }
  }

  lemma {:induction false} UnchangedWhenSame(v: Json, pick: string -> bool, state: string)
    ensures Update(v, pick, state, state) == v
    decreases v, 1
  {
    match v
    case Lit(_) =>
    case Str(_) =>
    case Arr(items) => ItemsUnchanged(items, pick, state);
    case Obj(members) => MembersUnchanged(members, pick, state);
  }

  lemma {:induction false} ItemsUnchanged(items: seq<Json>, pick: string -> bool, state: string)
    ensures UpdateItems(items, pick, state, state) == items
    decreases items, 2
  {
    if items == [] {
    } else {
      UnchangedWhenSame(items[0], pick, state);
      ItemsUnchanged(items[1..], pick, state);
    }
  }

  lemma {:induction false} MemberUnchanged(m: (string, Json), pick: string -> bool, state: string)
    ensures UpdateMember(m, pick, state, state) == m
    decreases m, 2
  {
    UnchangedWhenSame(m.1, pick, state);
  }

  lemma {:induction false} MembersUnchanged(members: seq<(string, Json)>, pick: string -> bool, state: string)
    ensures UpdateMembers(members, pick, state, state) == members
    decreases members, 2
  {
    if members == [] {
    } else {
      MemberUnchanged(members[0], pick, state);
      MembersUnchanged(members[1..], pick, state);
    }
  }
}

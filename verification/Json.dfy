/**
 JSON as Python's json module reads and writes it with its default settings. Numbers and the other
 literals are kept as their text; an object's members keep the order of a Python dict.
 */
module Json {
  import opened Options

  datatype Json =
    | Lit(text: string)
    | Str(s: string)
    | Arr(items: seq<Json>)
    | Obj(members: seq<(string, Json)>)

  // ---------------------------------------------------------------------------
  // Writing
  // ---------------------------------------------------------------------------

  const DIGITS := "0123456789abcdef"

  function Hex(n: nat): string
    requires n < 0x10000
  {
    [DIGITS[n / 4096], DIGITS[n / 256 % 16], DIGITS[n / 16 % 16], DIGITS[n % 16]]
  }

  function EscapeUnit(n: nat): string
    requires n < 0x10000
  {
    "\\u" + Hex(n)
  }

  /** Printable, and neither a quote nor a backslash. */
  predicate Plain(c: char) {
    ' ' <= c <= '~' && c != '"' && c != '\\'
  }

  /** The letter that stands for the character after a backslash, if there is one. */
  function ShortLetter(c: char): Option<char> {
    if c == '"' || c == '\\' then Some(c)
    else if c == '\n' then Some('n')
    else if c == '\r' then Some('r')
    else if c == '\t' then Some('t')
    else if c as int == 8 then Some('b')
    else if c as int == 12 then Some('f')
    else None
  }

  function High(c: char): nat
    requires c as int >= 0x10000
  {
    0xD800 + (c as int - 0x10000) / 1024
  }

  function Low(c: char): nat
    requires c as int >= 0x10000
  {
    0xDC00 + (c as int - 0x10000) % 1024
  }

  function EscapeChar(c: char): string {
    if Plain(c) then [c]
    else if ShortLetter(c).Some? then ['\\', ShortLetter(c).value]
    else if c as int < 0x10000 then EscapeUnit(c as int)
    else EscapeUnit(High(c)) + EscapeUnit(Low(c))
  }

  function Escape(s: string): string {
    if s == "" then "" else EscapeChar(s[0]) + Escape(s[1..])
  }

  function Quote(s: string): string {
    "\"" + Escape(s) + "\""
  }

  /** json.dumps */
  function Dumps(v: Json): string {
    match v
    case Lit(text) => text
    case Str(s) => Quote(s)
    case Arr(items) => "[" + DumpsItems(items) + "]"
    case Obj(members) => "{" + DumpsMembers(members) + "}"
  }

  function DumpsItems(items: seq<Json>): string {
    if items == [] then ""
    else if |items| == 1 then Dumps(items[0])
    else Dumps(items[0]) + ", " + DumpsItems(items[1..])
  }

  function DumpsMember(m: (string, Json)): string {
    Quote(m.0) + ": " + Dumps(m.1)
  }

  function DumpsMembers(members: seq<(string, Json)>): string {
    if members == [] then ""
    else if |members| == 1 then DumpsMember(members[0])
    else DumpsMember(members[0]) + ", " + DumpsMembers(members[1..])
  }

  // ---------------------------------------------------------------------------
  // Values a Python program can hold
  // ---------------------------------------------------------------------------

  predicate IsDigit(c: char) {
    '0' <= c <= '9'
  }

  predicate LiteralChar(c: char) {
    IsDigit(c) || 'a' <= c <= 'z' || 'A' <= c <= 'Z' || c in {'+', '-', '.'}
  }

  function Digits(text: string): nat {
    if text != "" && IsDigit(text[0]) then 1 + Digits(text[1..]) else 0
  }

  /** Nothing, or an exponent. */
  predicate IsExponent(text: string) {
    || text == ""
    || (&& text[0] in {'e', 'E'}
        && var digits := if |text| > 1 && text[1] in {'+', '-'} then text[2..] else text[1..];
           digits != "" && Digits(digits) == |digits|)
  }

  /** Nothing, or a fraction and an exponent. */
  predicate IsTail(text: string) {
    if text != "" && text[0] == '.' then
      Digits(text[1..]) > 0 && 1 + Digits(text[1..]) <= |text| && IsExponent(text[1 + Digits(text[1..])..])
    else IsExponent(text)
  }

  predicate IsNumber(text: string) {
    var unsigned := if text != "" && text[0] == '-' then text[1..] else text;
    var n := Digits(unsigned);
    n > 0 && n <= |unsigned| && (n == 1 || unsigned[0] != '0') && IsTail(unsigned[n..])
  }

  predicate IsLiteral(text: string) {
    && text != "" && (forall i | 0 <= i < |text| :: LiteralChar(text[i]))
    && (text in {"null", "true", "false", "NaN", "Infinity", "-Infinity"} || IsNumber(text))
  }

  predicate DistinctKeys(members: seq<(string, Json)>) {
    forall i, j | 0 <= i < j < |members| :: members[i].0 != members[j].0
  }

  /** Literals are JSON literals, and an object has one member of a name. */
  predicate Proper(v: Json) {
    match v
    case Lit(text) => IsLiteral(text)
    case Str(_) => true
    case Arr(items) => forall x | x in items :: Proper(x)
    case Obj(members) => DistinctKeys(members) && forall m | m in members :: Proper(m.1)
  }

  /** At most the length of any text the value is read from. */
  function Weight(v: Json): nat {
    match v
    case Lit(text) => |text|
    case Str(s) => |s| + 1
    case Arr(items) => 1 + WeightItems(items)
    case Obj(members) => 1 + WeightMembers(members)
  }

  function WeightItems(items: seq<Json>): nat {
    if items == [] then 0 else Weight(items[0]) + WeightItems(items[1..])
  }

  function WeightMember(m: (string, Json)): nat {
    Weight(m.1)
  }

  function WeightMembers(members: seq<(string, Json)>): nat {
    if members == [] then 0 else WeightMember(members[0]) + WeightMembers(members[1..])
  }

  // ---------------------------------------------------------------------------
  // Reading
  // ---------------------------------------------------------------------------

  function HexDigit(c: char): Option<nat> {
    if '0' <= c <= '9' then Some(c as int - '0' as int)
    else if 'a' <= c <= 'f' then Some(c as int - 'a' as int + 10)
    else if 'A' <= c <= 'F' then Some(c as int - 'A' as int + 10)
    else None
  }

  /** The four hex digits at the start of the text. */
  function Unit(text: string): (n: Option<nat>)
    ensures n.Some? ==> |text| >= 4 && n.value < 0x10000
  {
    if |text| < 4 then None
    else
      var a, b, c, d := HexDigit(text[0]), HexDigit(text[1]), HexDigit(text[2]), HexDigit(text[3]);
      if a.None? || b.None? || c.None? || d.None? then None
      else Some(4096 * a.value + 256 * b.value + 16 * c.value + d.value)
  }

  /** One escape sequence, after its backslash: the character and what is left of the text. */
  function Unescape(text: string): (r: Option<(char, string)>)
    ensures r.Some? ==> |r.value.1| < |text|
  {
    if text == "" then None
    else if text[0] in {'"', '\\', '/'} then Some((text[0], text[1..]))
    else if text[0] == 'n' then Some(('\n', text[1..]))
    else if text[0] == 'r' then Some(('\r', text[1..]))
    else if text[0] == 't' then Some(('\t', text[1..]))
    else if text[0] == 'b' then Some((8 as char, text[1..]))
    else if text[0] == 'f' then Some((12 as char, text[1..]))
    else if text[0] != 'u' || Unit(text[1..]).None? then None
    else
      var n := Unit(text[1..]).value;
      if n < 0xD800 || 0xE000 <= n then Some((n as char, text[5..]))
      else if n < 0xDC00 && "\\u" <= text[5..] && Unit(text[7..]).Some? && 0xDC00 <= Unit(text[7..]).value < 0xE000 then
        Some(((0x10000 + (n - 0xD800) * 1024 + (Unit(text[7..]).value - 0xDC00)) as char, text[11..]))
      else None
  }

  /** The rest of a string literal, up to its closing quote. */
  function Chars(text: string): (r: Option<(string, string)>)
    ensures r.Some? ==> |r.value.0| + 1 + |r.value.1| <= |text|
    decreases |text|
  {
    if text == "" then None
    else if text[0] == '"' then Some(("", text[1..]))
    else if text[0] == '\\' then
      var c := Unescape(text[1..]);
      if c.None? || Chars(c.value.1).None? then None
      else Some(([c.value.0] + Chars(c.value.1).value.0, Chars(c.value.1).value.1))
    else if text[0] < ' ' || Chars(text[1..]).None? then None
    else Some(([text[0]] + Chars(text[1..]).value.0, Chars(text[1..]).value.1))
  }

  function Skip(text: string): (rest: string)
    ensures |rest| <= |text|
  {
    if text != "" && text[0] in {' ', '\t', '\n', '\r'} then Skip(text[1..]) else text
  }

  /** The literal at the start of the text; what may follow a literal is never one of its characters. */
  function Literal(text: string): (n: nat)
    ensures n <= |text|
    ensures forall i | 0 <= i < n :: LiteralChar(text[i])
    ensures n < |text| ==> !LiteralChar(text[n])
  {
    if text != "" && LiteralChar(text[0]) then 1 + Literal(text[1..]) else 0
  }

  function Insert(dict: seq<(string, Json)>, m: (string, Json)): seq<(string, Json)> {
    if dict == [] then [m]
    else if dict[0].0 == m.0 then [m] + dict[1..]
    else [dict[0]] + Insert(dict[1..], m)
  }

  /** The dict built from the pairs: a later value replaces an earlier one where that was. */
  function Dict(pairs: seq<(string, Json)>): seq<(string, Json)> {
    if pairs == [] then [] else Insert(Dict(pairs[..|pairs| - 1]), pairs[|pairs| - 1])
  }

  function Value(text: string): (r: Option<(Json, string)>)
    ensures r.Some? ==> |r.value.1| < |text|
    decreases |text|, 0
  {
    if text == "" then None
    else if text[0] == '"' then
      var s := Chars(text[1..]);
      if s.None? then None else Some((Str(s.value.0), s.value.1))
    else if text[0] == '[' then
      var first := Skip(text[1..]);
      if first != "" && first[0] == ']' then Some((Arr([]), first[1..]))
      else
        var items := Items(first);
        if items.None? then None else Some((Arr(items.value.0), items.value.1))
    else if text[0] == '{' then
      var first := Skip(text[1..]);
      if first != "" && first[0] == '}' then Some((Obj([]), first[1..]))
      else
        var pairs := Pairs(first);
        if pairs.None? then None else Some((Obj(Dict(pairs.value.0)), pairs.value.1))
    else
      var n := Literal(text);
      if IsLiteral(text[..n]) then Some((Lit(text[..n]), text[n..])) else None
  }

  function Items(text: string): (r: Option<(seq<Json>, string)>)
    ensures r.Some? ==> |r.value.1| < |text|
    decreases |text|, 1
  {
    var first := Value(text);
    if first.None? then None
    else
      var next := Skip(first.value.1);
      if next == "" then None
      else if next[0] == ']' then Some(([first.value.0], next[1..]))
      else if next[0] != ',' then None
      else
        var more := Items(Skip(next[1..]));
        if more.None? then None else Some(([first.value.0] + more.value.0, more.value.1))
  }

  /** A name, a colon and a value. */
  function Pair(text: string): (r: Option<((string, Json), string)>)
    ensures r.Some? ==> |r.value.1| < |text|
    decreases |text|, 1
  {
    if text == "" || text[0] != '"' || Chars(text[1..]).None? then None
    else
      var name := Chars(text[1..]).value;
      var colon := Skip(name.1);
      if colon == "" || colon[0] != ':' then None
      else
        var v := Value(Skip(colon[1..]));
        if v.None? then None else Some(((name.0, v.value.0), v.value.1))
  }

  function Pairs(text: string): (r: Option<(seq<(string, Json)>, string)>)
    ensures r.Some? ==> |r.value.1| < |text|
    decreases |text|, 2
  {
    var first := Pair(text);
    if first.None? then None
    else
      var next := Skip(first.value.1);
      if next == "" then None
      else if next[0] == '}' then Some(([first.value.0], next[1..]))
      else if next[0] != ',' then None
      else
        var more := Pairs(Skip(next[1..]));
        if more.None? then None else Some(([first.value.0] + more.value.0, more.value.1))
  }

  /** json.loads; None where it raises JSONDecodeError. */
  function Loads(text: string): Option<Json> {
    var r := Value(Skip(text));
    if r.None? || Skip(r.value.1) != "" then None else Some(r.value.0)
  }

  // ---------------------------------------------------------------------------
  // What is read is proper, and no heavier than its text
  // ---------------------------------------------------------------------------

  lemma {:induction false} InsertDistinct(dict: seq<(string, Json)>, m: (string, Json))
    requires DistinctKeys(dict)
    ensures DistinctKeys(Insert(dict, m))
    ensures forall x | x in Insert(dict, m) :: x == m || (x in dict && x.0 != m.0)
    ensures WeightMembers(Insert(dict, m)) <= WeightMembers(dict) + WeightMember(m)
  {
    if dict == [] {
    } else if dict[0].0 == m.0 {
      assert ([m] + dict[1..])[1..] == dict[1..];
    } else {
      InsertDistinct(dict[1..], m);
      assert Insert(dict, m)[1..] == Insert(dict[1..], m);
      assert forall x | x in dict[1..] :: x in dict && x.0 != dict[0].0;
    }
  }

  lemma {:induction false} WeightOfLast(pairs: seq<(string, Json)>)
    requires pairs != []
    ensures WeightMembers(pairs) == WeightMembers(pairs[..|pairs| - 1]) + WeightMember(pairs[|pairs| - 1])
  {
    if |pairs| > 1 {
      WeightOfLast(pairs[1..]);
      assert pairs[1..][..|pairs| - 2] == pairs[..|pairs| - 1][1..];
    }
  }

  lemma {:induction false} DictIsDistinct(pairs: seq<(string, Json)>)
    ensures DistinctKeys(Dict(pairs)) && WeightMembers(Dict(pairs)) <= WeightMembers(pairs)
    ensures forall x | x in Dict(pairs) :: x in pairs
  {
    if pairs == [] {
    } else {
      DictIsDistinct(pairs[..|pairs| - 1]);
      InsertDistinct(Dict(pairs[..|pairs| - 1]), pairs[|pairs| - 1]);
      WeightOfLast(pairs);
    }
  }

  ghost predicate Good(text: string, v: Json, rest: string) {
    Proper(v) && Weight(v) + |rest| <= |text|
  }

  lemma {:induction false} ValueIsGood(text: string)
    requires Value(text).Some?
    ensures Good(text, Value(text).value.0, Value(text).value.1)
    decreases |text|, 0
  {
    if text[0] == '"' {
    } else if text[0] == '[' {
      var first := Skip(text[1..]);
      if first == "" || first[0] != ']' {
        ItemsAreGood(first);
      }
    } else if text[0] == '{' {
      var first := Skip(text[1..]);
      if first == "" || first[0] != '}' {
        PairsAreGood(first);
        DictIsDistinct(Pairs(first).value.0);
      }
    }
  }

  lemma {:induction false} ItemsAreGood(text: string)
    requires Items(text).Some?
    ensures forall x | x in Items(text).value.0 :: Proper(x)
    ensures WeightItems(Items(text).value.0) + |Items(text).value.1| + 1 <= |text|
    decreases |text|, 1
  {
    ValueIsGood(text);
    var next := Skip(Value(text).value.1);
    if next[0] == ',' {
      ItemsAreGood(Skip(next[1..]));
      assert Items(text).value.0[1..] == Items(Skip(next[1..])).value.0;
    }
  }

  lemma {:induction false} PairsAreGood(text: string)
    requires Pairs(text).Some?
    ensures forall m | m in Pairs(text).value.0 :: Proper(m.1)
    ensures WeightMembers(Pairs(text).value.0) + |Pairs(text).value.1| + 1 <= |text|
    decreases |text|, 2
  {
    PairIsGood(text);
    var next := Skip(Pair(text).value.1);
    if next[0] == ',' {
      PairsAreGood(Skip(next[1..]));
      assert Pairs(text).value.0[1..] == Pairs(Skip(next[1..])).value.0;
    }
  }

  lemma {:induction false} PairIsGood(text: string)
    requires Pair(text).Some?
    ensures Good(text, Pair(text).value.0.1, Pair(text).value.1)
    decreases |text|, 1
  {
    ValueIsGood(Skip(Skip(Chars(text[1..]).value.1)[1..]));
  }

  /** What json.loads returns is a proper value, no heavier than its text. */
  lemma LoadsIsGood(text: string)
    requires Loads(text).Some?
    ensures Proper(Loads(text).value) && Weight(Loads(text).value) <= |text|
  {
    ValueIsGood(Skip(text));
  }

  // ---------------------------------------------------------------------------
  // What is written is read back
  // ---------------------------------------------------------------------------

  lemma Nibbles(n: nat)
    requires n < 0x10000
    ensures 4096 * (n / 4096) + 256 * (n / 256 % 16) + 16 * (n / 16 % 16) + n % 16 == n
  {
    assert n / 256 == 16 * (n / 4096) + n / 256 % 16;
    assert n / 16 == 16 * (n / 256) + n / 16 % 16;
  }

  lemma DigitReads(d: nat)
    requires d < 16
    ensures HexDigit(DIGITS[d]) == Some(d)
  {
  }

  lemma FourRead(a: nat, b: nat, c: nat, d: nat, rest: string)
    requires a < 16 && b < 16 && c < 16 && d < 16
    ensures Unit([DIGITS[a], DIGITS[b], DIGITS[c], DIGITS[d]] + rest) == Some(4096 * a + 256 * b + 16 * c + d)
  {
    DigitReads(a);
    DigitReads(b);
    DigitReads(c);
    DigitReads(d);
    var text := [DIGITS[a], DIGITS[b], DIGITS[c], DIGITS[d]] + rest;
    assert text[0] == DIGITS[a] && text[1] == DIGITS[b] && text[2] == DIGITS[c] && text[3] == DIGITS[d];
  }

  lemma HexReads(n: nat, rest: string)
    requires n < 0x10000
    ensures Unit(Hex(n) + rest) == Some(n)
  {
    Nibbles(n);
    FourRead(n / 4096, n / 256 % 16, n / 16 % 16, n % 16, rest);
  }

  lemma UnescapeUnit(n: nat, rest: string)
    requires n < 0xD800 || 0xE000 <= n < 0x10000
    ensures Unescape(EscapeUnit(n)[1..] + rest) == Some((n as char, rest))
  {
    var text := EscapeUnit(n)[1..] + rest;
    HexReads(n, rest);
    assert text[1..] == Hex(n) + rest && text[5..] == rest;
  }

  lemma TwoUnits(h: string, l: string, high: nat, low: nat, rest: string)
    requires |h| == 4 && |l| == 4 && 0xD800 <= high < 0xDC00 <= low < 0xE000
    requires Unit(h + ("\\u" + l + rest)) == Some(high) && Unit(l + rest) == Some(low)
    ensures Unescape("u" + h + "\\u" + l + rest)
         == Some(((0x10000 + (high - 0xD800) * 1024 + (low - 0xDC00)) as char, rest))
  {
    var text := "u" + h + "\\u" + l + rest;
    assert text[1..] == h + ("\\u" + l + rest);
    assert text[5..] == "\\u" + l + rest && text[7..] == l + rest && text[11..] == rest;
    assert "\\u" <= text[5..];
  }

  lemma UnescapePair(high: nat, low: nat, rest: string)
    requires 0xD800 <= high < 0xDC00 <= low < 0xE000
    ensures Unescape((EscapeUnit(high) + EscapeUnit(low))[1..] + rest)
         == Some(((0x10000 + (high - 0xD800) * 1024 + (low - 0xDC00)) as char, rest))
  {
    var h, l := Hex(high), Hex(low);
    HexReads(high, "\\u" + l + rest);
    HexReads(low, rest);
    TwoUnits(h, l, high, low, rest);
    assert ("\\u" + h + ("\\u" + l))[1..] + rest == "u" + h + "\\u" + l + rest;
  }

  /** The character's text is the character, if that is plain, and otherwise an escape sequence that stands for it. */
  ghost predicate Readable(c: char, text: string) {
    && text != ""
    && if Plain(c) then text == [c] else text[0] == '\\' && forall rest :: Unescape(text[1..] + rest) == Some((c, rest))
  }

  lemma ShortReadable(c: char, e: char)
    requires !Plain(c) && e != 'u' && Unescape([e]) == Some((c, ""))
    ensures Readable(c, ['\\', e])
  {
    forall rest ensures Unescape(['\\', e][1..] + rest) == Some((c, rest)) {
      assert ([e] + rest)[1..] == rest && ['\\', e][1..] == [e];
    }
  }

  lemma UnitReadable(c: char)
    requires !Plain(c) && c as int < 0x10000
    ensures Readable(c, EscapeUnit(c as int))
  {
    forall rest ensures Unescape(EscapeUnit(c as int)[1..] + rest) == Some((c, rest)) {
      UnescapeUnit(c as int, rest);
    }
  }

  lemma PairReadable(c: char, high: nat, low: nat)
    requires 0xD800 <= high < 0xDC00 <= low < 0xE000 && c as int == 0x10000 + (high - 0xD800) * 1024 + (low - 0xDC00)
    ensures Readable(c, EscapeUnit(high) + EscapeUnit(low))
  {
    forall rest ensures Unescape((EscapeUnit(high) + EscapeUnit(low))[1..] + rest) == Some((c, rest)) {
      UnescapePair(high, low, rest);
    }
  }

  lemma ShortReads(c: char)
    requires ShortLetter(c).Some?
    ensures !Plain(c) && ShortLetter(c).value != 'u' && Unescape([ShortLetter(c).value]) == Some((c, ""))
  {
  }

  lemma PairIs(c: char)
    requires c as int >= 0x10000
    ensures 0xD800 <= High(c) < 0xDC00 <= Low(c) < 0xE000
    ensures c as int == 0x10000 + (High(c) - 0xD800) * 1024 + (Low(c) - 0xDC00)
  {
    var n := c as int - 0x10000;
    assert n == n / 1024 * 1024 + n % 1024 && n / 1024 < 0x400;
  }

  lemma EscapeCharReadable(c: char)
    ensures Readable(c, EscapeChar(c))
  {
    if Plain(c) {
    } else if ShortLetter(c).Some? {
      ShortReads(c);
      ShortReadable(c, ShortLetter(c).value);
    } else if c as int < 0x10000 {
      UnitReadable(c);
    } else {
      PairIs(c);
      PairReadable(c, High(c), Low(c));
    }
  }

  /**
   Any spelling of strings character by character; what holds of every spelling like `EscapeChar` is
   proved of this.
   */
  function Spell(s: string, piece: char -> string): string {
    if s == "" then "" else piece(s[0]) + Spell(s[1..], piece)
  }

  lemma {:induction false} EscapeIsSpell(s: string)
    ensures Escape(s) == Spell(s, EscapeChar)
  {
    if s == "" {
    } else {
      EscapeIsSpell(s[1..]);
    }
  }

  lemma PieceReads(c: char, text: string, rest: string)
    requires Readable(c, text) && Chars(rest).Some?
    ensures Chars(text + rest) == Some(([c] + Chars(rest).value.0, Chars(rest).value.1))
  {
    assert (text + rest)[1..] == text[1..] + rest;
    if Plain(c) {
      assert text[1..] + rest == rest;
    }
  }

  lemma QuoteReads(rest: string)
    ensures Chars("" + ("\"" + rest)) == Some(("", rest))
  {
    assert "" + ("\"" + rest) == "\"" + rest && ("\"" + rest)[1..] == rest;
  }

  lemma Associates(a: string, b: string, c: string)
    ensures a + b + c == a + (b + c)
  {
  }

  lemma {:induction false} SpelledReads(s: string, piece: char -> string, rest: string)
    requires forall c :: Readable(c, piece(c))
    ensures Chars(Spell(s, piece) + ("\"" + rest)) == Some((s, rest))
  {
    if s == "" {
      QuoteReads(rest);
    } else {
      var more := Spell(s[1..], piece);
      SpelledReads(s[1..], piece, rest);
      PieceReads(s[0], piece(s[0]), more + ("\"" + rest));
      Associates(piece(s[0]), more, "\"" + rest);
      assert s == [s[0]] + s[1..];
    }
  }

  lemma StringReads(s: string, rest: string)
    ensures Chars(Escape(s) + "\"" + rest) == Some((s, rest))
  {
    forall c ensures Readable(c, EscapeChar(c)) {
      EscapeCharReadable(c);
    }
    EscapeIsSpell(s);
    SpelledReads(s, EscapeChar, rest);
    Associates(Spell(s, EscapeChar), "\"", rest);
  }

  lemma {:induction false} LiteralReads(literal: string, rest: string)
    requires forall i | 0 <= i < |literal| :: LiteralChar(literal[i])
    requires rest == "" || !LiteralChar(rest[0])
    ensures Literal(literal + rest) == |literal|
  {
    if literal == "" {
      assert literal + rest == rest;
    } else {
      LiteralReads(literal[1..], rest);
      assert (literal + rest)[1..] == literal[1..] + rest;
    }
  }

  /** What may follow a value in a text that json.dumps wrote. */
  predicate Follows(rest: string) {
    rest == "" || rest[0] in {',', ']', '}'}
  }

  lemma {:induction false} DictKeeps(members: seq<(string, Json)>)
    requires DistinctKeys(members)
    ensures Dict(members) == members
  {
    if members == [] {
    } else {
      DictKeeps(members[..|members| - 1]);
      InsertAppends(members[..|members| - 1], members[|members| - 1]);
    }
  }

  lemma {:induction false} InsertAppends(dict: seq<(string, Json)>, m: (string, Json))
    requires forall x | x in dict :: x.0 != m.0
    ensures Insert(dict, m) == dict + [m]
  {
    if dict == [] {
    } else {
      InsertAppends(dict[1..], m);
      assert dict == [dict[0]] + dict[1..];
    }
  }

  lemma DumpsStart(v: Json)
    requires Proper(v)
    ensures Dumps(v) != "" && Skip(Dumps(v)) == Dumps(v)
    ensures Dumps(v)[0] != ']' && Dumps(v)[0] != '}' && Dumps(v)[0] != ','
  {
  }

  lemma ItemsOne(text: string, v: Json, rest: string)
    requires Value(text) == Some((v, "]" + rest))
    ensures Items(text) == Some(([v], rest))
  {
  }

  lemma ItemsMore(text: string, v: Json, more: string)
    requires Value(text) == Some((v, ", " + more)) && Skip(more) == more && Items(more).Some?
    ensures Items(text) == Some(([v] + Items(more).value.0, Items(more).value.1))
  {
    SkipComma(more);
  }

  lemma SkipComma(more: string)
    ensures Skip(", " + more) == ", " + more && Skip((", " + more)[1..]) == Skip(more)
  {
    assert (", " + more)[1..] == " " + more && (" " + more)[1..] == more;
  }

  lemma PairsOne(text: string, m: (string, Json), rest: string)
    requires Pair(text) == Some((m, "}" + rest))
    ensures Pairs(text) == Some(([m], rest))
  {
  }

  lemma PairsMore(text: string, m: (string, Json), more: string)
    requires Pair(text) == Some((m, ", " + more)) && Skip(more) == more && Pairs(more).Some?
    ensures Pairs(text) == Some(([m] + Pairs(more).value.0, Pairs(more).value.1))
  {
    SkipComma(more);
  }

  lemma PairOf(text: string, name: string, v: Json, vtext: string, rest: string)
    requires text != "" && text[0] == '"' && Chars(text[1..]) == Some((name, ": " + vtext))
    requires Skip(vtext) == vtext && Value(vtext) == Some((v, rest))
    ensures Pair(text) == Some(((name, v), rest))
  {
    var colon := ": " + vtext;
    assert Skip(colon) == colon && colon[1..] == " " + vtext && (" " + vtext)[1..] == vtext;
  }

  lemma LiteralChars(literal: string)
    requires IsLiteral(literal)
    ensures literal != "" && forall i | 0 <= i < |literal| :: LiteralChar(literal[i])
  {
  }

  lemma LitOf(text: string, n: nat)
    requires 0 < n <= |text| && Literal(text) == n && IsLiteral(text[..n])
    requires text[0] != '"' && text[0] != '[' && text[0] != '{'
    ensures Value(text) == Some((Lit(text[..n]), text[n..]))
  {
  }

  lemma LitReads(literal: string, rest: string)
    requires IsLiteral(literal) && Follows(rest)
    ensures Value(literal + rest) == Some((Lit(literal), rest))
  {
    LiteralChars(literal);
    LiteralReads(literal, rest);
    assert (literal + rest)[..|literal|] == literal && (literal + rest)[|literal|..] == rest;
    LitOf(literal + rest, |literal|);
  }

  lemma ObjOf(text: string, pairs: seq<(string, Json)>, rest: string)
    requires |text| > 1 && text[0] == '{' && text[1] == '"' && Pairs(text[1..]) == Some((pairs, rest))
    ensures Value(text) == Some((Obj(Dict(pairs)), rest))
  {
    assert Skip(text[1..]) == text[1..];
  }

  lemma ArrOf(text: string, items: seq<Json>, rest: string)
    requires |text| > 1 && text[0] == '[' && text[1] != ']' && Skip(text[1..]) == text[1..]
    requires Items(text[1..]) == Some((items, rest))
    ensures Value(text) == Some((Arr(items), rest))
  {
  }

  lemma StrReads(s: string, rest: string)
    ensures Value(Quote(s) + rest) == Some((Str(s), rest))
  {
    StringReads(s, rest);
    AfterQuote(Escape(s), rest);
    StrOf(Quote(s) + rest, s, rest);
  }

  lemma AfterQuote(escaped: string, rest: string)
    ensures ("\"" + escaped + "\"" + rest)[1..] == escaped + "\"" + rest
  {
  }

  lemma StrOf(text: string, s: string, rest: string)
    requires text != "" && text[0] == '"' && Chars(text[1..]) == Some((s, rest))
    ensures Value(text) == Some((Str(s), rest))
  {
  }

  lemma {:induction false} ValueReads(v: Json, rest: string)
    requires Proper(v) && Follows(rest)
    ensures Value(Dumps(v) + rest) == Some((v, rest))
    decreases v, 2
  {
    match v
    case Lit(literal) => LitReads(literal, rest);
    case Str(s) => StrReads(s, rest);
    case Arr(items) => ArrReads(items, rest);
    case Obj(members) => ObjReads(members, rest);
  }

  lemma {:induction false} ArrReads(items: seq<Json>, rest: string)
    requires forall x | x in items :: Proper(x)
    ensures Value("[" + DumpsItems(items) + "]" + rest) == Some((Arr(items), rest))
    decreases items, 4
  {
    var text := "[" + DumpsItems(items) + "]" + rest;
    assert text[1..] == DumpsItems(items) + ("]" + rest);
    if items == [] {
      assert text[1..] == "]" + rest;
    } else {
      ItemsRead(items, rest);
      ArrOf(text, items, rest);
    }
  }

  lemma {:induction false} ObjReads(members: seq<(string, Json)>, rest: string)
    requires DistinctKeys(members) && forall m | m in members :: Proper(m.1)
    ensures Value("{" + DumpsMembers(members) + "}" + rest) == Some((Obj(members), rest))
    decreases members, 4
  {
    var text := "{" + DumpsMembers(members) + "}" + rest;
    assert text[1..] == DumpsMembers(members) + ("}" + rest);
    if members == [] {
      assert text[1..] == "}" + rest;
    } else {
      PairsRead(members, rest);
      ObjOf(text, members, rest);
      DictKeeps(members);
    }
  }

  lemma SkipStart(v: Json, rest: string)
    requires Proper(v)
    ensures var text := Dumps(v) + rest; text != "" && Skip(text) == text && text[0] != ']'
  {
    DumpsStart(v);
  }

  lemma ItemsText(items: seq<Json>, rest: string)
    requires items != [] && Proper(items[0])
    ensures var text := DumpsItems(items) + ("]" + rest);
            && Skip(text) == text && text != "" && text[0] != ']'
            && text == if |items| == 1 then Dumps(items[0]) + ("]" + rest)
                       else Dumps(items[0]) + (", " + (DumpsItems(items[1..]) + ("]" + rest)))
  {
    if |items| == 1 {
      SkipStart(items[0], "]" + rest);
    } else {
      Regroup(Dumps(items[0]), DumpsItems(items[1..]), "]" + rest);
      SkipStart(items[0], ", " + (DumpsItems(items[1..]) + ("]" + rest)));
    }
  }

  lemma {:induction false} ItemsRead(items: seq<Json>, rest: string)
    requires items != [] && forall x | x in items :: Proper(x)
    ensures var text := DumpsItems(items) + ("]" + rest);
            text != "" && Items(text) == Some((items, rest)) && Skip(text) == text && text[0] != ']'
    decreases items, 3
  {
    var text := DumpsItems(items) + ("]" + rest);
    ItemsText(items, rest);
    if |items| == 1 {
      assert Value(text) == Some((items[0], "]" + rest)) by {
        ValueReads(items[0], "]" + rest);
      }
      ItemsOne(text, items[0], rest);
      assert items == [items[0]];
    } else {
      var more := DumpsItems(items[1..]) + ("]" + rest);
      assert Value(text) == Some((items[0], ", " + more)) by {
        ValueReads(items[0], ", " + more);
      }
      assert Items(more) == Some((items[1..], rest)) && Skip(more) == more by {
        ItemsRead(items[1..], rest);
      }
      ItemsCons(text, items, more, rest);
    }
  }

  lemma ItemsCons(text: string, items: seq<Json>, more: string, rest: string)
    requires items != [] && Value(text) == Some((items[0], ", " + more))
    requires Items(more) == Some((items[1..], rest)) && Skip(more) == more
    ensures Items(text) == Some((items, rest))
  {
    assert [items[0]] + items[1..] == items by {
      FirstAndRest(items);
    }
    ItemsMore(text, items[0], more);
  }

  lemma MemberText(m: (string, Json), rest: string)
    ensures var text := DumpsMember(m) + rest;
            text != "" && text[0] == '"' && text[1..] == Escape(m.0) + "\"" + (": " + (Dumps(m.1) + rest))
  {
  }

  lemma {:induction false} PairReads(m: (string, Json), rest: string)
    requires Proper(m.1) && Follows(rest)
    ensures Pair(DumpsMember(m) + rest) == Some((m, rest))
    decreases m, 3
  {
    var text, v := DumpsMember(m) + rest, Dumps(m.1) + rest;
    MemberText(m, rest);
    StringReads(m.0, ": " + v);
    SkipStart(m.1, rest);
    ValueReads(m.1, rest);
    PairOf(text, m.0, m.1, v, rest);
  }

  lemma Regroup(first: string, more: string, end: string)
    ensures first + ", " + more + end == first + (", " + (more + end))
  {
  }

  lemma MemberStart(m: (string, Json))
    ensures DumpsMember(m) != "" && DumpsMember(m)[0] == '"'
  {
  }

  lemma MembersText(members: seq<(string, Json)>, rest: string)
    requires members != []
    ensures var text := DumpsMembers(members) + ("}" + rest);
            && text != "" && text[0] == '"'
            && text == if |members| == 1 then DumpsMember(members[0]) + ("}" + rest)
                       else DumpsMember(members[0]) + (", " + (DumpsMembers(members[1..]) + ("}" + rest)))
  {
    MemberStart(members[0]);
    if |members| > 1 {
      Regroup(DumpsMember(members[0]), DumpsMembers(members[1..]), "}" + rest);
    }
  }

  lemma {:induction false} PairsRead(members: seq<(string, Json)>, rest: string)
    requires members != [] && forall m | m in members :: Proper(m.1)
    ensures var text := DumpsMembers(members) + ("}" + rest);
            text != "" && text[0] == '"' && Pairs(text) == Some((members, rest))
    decreases members, 3
  {
    var text := DumpsMembers(members) + ("}" + rest);
    MembersText(members, rest);
    if |members| == 1 {
      assert members == [members[0]];
      PairReads(members[0], "}" + rest);
      PairsOne(text, members[0], rest);
    } else {
      var more := DumpsMembers(members[1..]) + ("}" + rest);
      assert Pair(text) == Some((members[0], ", " + more)) by {
        PairReads(members[0], ", " + more);
      }
      assert Pairs(more) == Some((members[1..], rest)) && Skip(more) == more by {
        PairsRead(members[1..], rest);
      }
      PairsMore(text, members[0], more);
      FirstAndRest(members);
    }
  }

  lemma FirstAndRest<T>(members: seq<T>)
    requires members != []
    ensures [members[0]] + members[1..] == members
  {
  }

  /** json.loads undoes json.dumps. */
  lemma RoundTrip(v: Json)
    requires Proper(v)
    ensures Loads(Dumps(v)) == Some(v)
  {
    DumpsStart(v);
    ValueReads(v, "");
    assert Dumps(v) + "" == Dumps(v);
  }
}

/**
 The JSON grammar as RFC 8259 gives it, with the three extra words Python accepts, and what a text of
 it means. It knows nothing of the reader: a text is a rendering of a tree that carries every choice
 the writer of the text had. `LoadsIff` says that the reader accepts exactly these texts, and reads
 each of them as what it means.
 */
module JsonGrammar {
  import opened Options
  import opened Json

  /** A character and the text chosen for it. */
  datatype Glyph = Glyph(c: char, text: string)

  /** A text with all its choices: whitespace, spellings of characters, repeated names. */
  datatype Tree =
    | Word(text: string)
    | Quoted(glyphs: seq<Glyph>)
    | List(gap: string, items: seq<Item>)
    | Braces(gap: string, entries: seq<Entry>)

  datatype Item = Item(before: string, tree: Tree, after: string)

  datatype Entry = Entry(before: string, name: seq<Glyph>, between: string, item: Item)

  // ---------------------------------------------------------------------------
  // Texts (sections 2 to 7)
  // ---------------------------------------------------------------------------

  predicate Blank(text: string) {
    forall i | 0 <= i < |text| :: text[i] in {' ', '\t', '\n', '\r'}
  }

  predicate AllDigits(text: string) {
    text != "" && forall i | 0 <= i < |text| :: '0' <= text[i] <= '9'
  }

  predicate IsWhole(text: string) {
    AllDigits(text) && (|text| == 1 || text[0] != '0')
  }

  predicate IsFraction(text: string) {
    text == "" || (text[0] == '.' && AllDigits(text[1..]))
  }

  predicate IsPower(text: string) {
    || text == ""
    || (&& text[0] in {'e', 'E'}
        && (AllDigits(text[1..]) || (|text| > 1 && text[1] in {'+', '-'} && AllDigits(text[2..]))))
  }

  ghost predicate NumeralParts(text: string, minus: string, whole: string, fraction: string, power: string) {
    && text == minus + (whole + (fraction + power))
    && minus in {"", "-"} && IsWhole(whole) && IsFraction(fraction) && IsPower(power)
  }

  ghost predicate IsNumeral(text: string) {
    exists minus, whole, fraction, power :: NumeralParts(text, minus, whole, fraction, power)
  }

  ghost predicate IsWord(text: string) {
    text in {"null", "true", "false", "NaN", "Infinity", "-Infinity"} || IsNumeral(text)
  }

  const LOWER := "0123456789abcdef"

  const UPPER := "0123456789ABCDEF"

  predicate IsHexDigit(c: char, d: nat) {
    d < 16 && (c == LOWER[d] || c == UPPER[d])
  }

  ghost predicate HexParts(text: string, a: nat, b: nat, c: nat, d: nat) {
    |text| == 4 && IsHexDigit(text[0], a) && IsHexDigit(text[1], b) && IsHexDigit(text[2], c) && IsHexDigit(text[3], d)
  }

  /** Four hex digits of either case. */
  ghost predicate IsHex(text: string, n: nat) {
    exists a: nat, b: nat, c: nat, d: nat :: HexParts(text, a, b, c, d) && n == 4096 * a + 256 * b + 16 * c + d
  }

  /** A backslash and a letter, and what they stand for. */
  const SHORT := ['"', '\\', '/', 'b', 'f', 'n', 'r', 't']

  const MEANT := ['"', '\\', '/', 8 as char, 12 as char, '\n', '\r', '\t']

  predicate IsShort(g: Glyph) {
    |g.text| == 2 && g.text[0] == '\\' && exists i | 0 <= i < |SHORT| :: g.text[1] == SHORT[i] && g.c == MEANT[i]
  }

  ghost predicate IsUnit(text: string, n: nat) {
    |text| == 6 && text[..2] == "\\u" && IsHex(text[2..], n)
  }

  /** The two units stand for one character beyond the first 65536. */
  predicate IsSurrogatePair(c: char, high: nat, low: nat) {
    && 0xD800 <= high < 0xDC00 <= low < 0xE000
    && c as int == 0x10000 + (high - 0xD800) * 0x400 + (low - 0xDC00)
  }

  ghost predicate IsGlyph(g: Glyph) {
    || (g.text == [g.c] && ' ' <= g.c && g.c != '"' && g.c != '\\')
    || IsShort(g)
    || IsUnit(g.text, g.c as nat)
    || (|g.text| == 12 && exists high: nat, low: nat ::
          IsUnit(g.text[..6], high) && IsUnit(g.text[6..], low) && IsSurrogatePair(g.c, high, low))
  }

  ghost predicate AreGlyphs(glyphs: seq<Glyph>) {
    forall g | g in glyphs :: IsGlyph(g)
  }

  function Spelling(glyphs: seq<Glyph>): string {
    if glyphs == [] then "" else glyphs[0].text + Spelling(glyphs[1..])
  }

  function Render(t: Tree): string {
    match t
    case Word(text) => text
    case Quoted(glyphs) => "\"" + (Spelling(glyphs) + "\"")
    case List(gap, items) => "[" + ((if items == [] then gap else RenderItems(items)) + "]")
    case Braces(gap, entries) => "{" + ((if entries == [] then gap else RenderEntries(entries)) + "}")
  }

  function RenderItem(i: Item): string {
    i.before + (Render(i.tree) + i.after)
  }

  function RenderItems(items: seq<Item>): string
    requires items != []
  {
    if |items| == 1 then RenderItem(items[0]) else RenderItem(items[0]) + ("," + RenderItems(items[1..]))
  }

  function RenderEntry(e: Entry): string {
    e.before + (("\"" + (Spelling(e.name) + "\"")) + (e.between + (":" + RenderItem(e.item))))
  }

  function RenderEntries(entries: seq<Entry>): string
    requires entries != []
  {
    if |entries| == 1 then RenderEntry(entries[0]) else RenderEntry(entries[0]) + ("," + RenderEntries(entries[1..]))
  }

  ghost predicate Valid(t: Tree) {
    match t
    case Word(text) => IsWord(text)
    case Quoted(glyphs) => AreGlyphs(glyphs)
    case List(gap, items) => Blank(gap) && forall i | i in items :: ValidItem(i)
    case Braces(gap, entries) => Blank(gap) && forall e | e in entries :: ValidEntry(e)
  }

  ghost predicate ValidItem(i: Item) {
    Blank(i.before) && Valid(i.tree) && Blank(i.after)
  }

  ghost predicate ValidEntry(e: Entry) {
    Blank(e.before) && AreGlyphs(e.name) && Blank(e.between) && ValidItem(e.item)
  }

  // ---------------------------------------------------------------------------
  // Meanings
  // ---------------------------------------------------------------------------

  function Spelled(glyphs: seq<Glyph>): string {
    if glyphs == [] then "" else [glyphs[0].c] + Spelled(glyphs[1..])
  }

  function Meaning(t: Tree): Json {
    match t
    case Word(text) => Lit(text)
    case Quoted(glyphs) => Str(Spelled(glyphs))
    case List(_, items) => Arr(Meanings(items))
    case Braces(_, entries) => Obj(Dict(Members(entries)))
  }

  function Meanings(items: seq<Item>): seq<Json> {
    if items == [] then [] else [Meaning(items[0].tree)] + Meanings(items[1..])
  }

  function Members(entries: seq<Entry>): seq<(string, Json)> {
    if entries == [] then []
    else [(Spelled(entries[0].name), Meaning(entries[0].item.tree))] + Members(entries[1..])
  }

  /** The text is one of this grammar, and means the value. */
  ghost predicate Means(text: string, v: Json) {
    exists i: Item :: ValidItem(i) && text == RenderItem(i) && Meaning(i.tree) == v
  }

  // ---------------------------------------------------------------------------
  // Words
  // ---------------------------------------------------------------------------

  lemma {:induction false} DigitsAre(text: string)
    ensures Digits(text) <= |text| && forall i | 0 <= i < Digits(text) :: IsDigit(text[i])
    ensures Digits(text) < |text| ==> !IsDigit(text[Digits(text)])
  {
    if text != "" && IsDigit(text[0]) {
      DigitsAre(text[1..]);
    }
  }

  lemma AllAreDigits(text: string)
    ensures AllDigits(text) <==> text != "" && Digits(text) == |text|
  {
    DigitsAre(text);
  }

  lemma {:induction false} DigitsThen(digits: string, rest: string)
    requires (forall i | 0 <= i < |digits| :: IsDigit(digits[i])) && (rest == "" || !IsDigit(rest[0]))
    ensures Digits(digits + rest) == |digits|
  {
    if digits == "" {
      assert digits + rest == rest;
    } else {
      DigitsThen(digits[1..], rest);
      assert (digits + rest)[1..] == digits[1..] + rest;
    }
  }

  lemma PowerIff(text: string)
    ensures IsExponent(text) <==> IsPower(text)
  {
    if text != "" {
      AllAreDigits(text[1..]);
      if |text| > 1 {
        AllAreDigits(text[2..]);
      }
    }
  }

  ghost predicate TailParts(text: string, fraction: string, power: string) {
    text == fraction + power && IsFraction(fraction) && IsPower(power)
  }

  lemma PowerStart(power: string)
    requires IsPower(power)
    ensures power == "" || (!IsDigit(power[0]) && power[0] != '.')
  {
  }

  lemma TailIs(text: string, fraction: string, power: string)
    requires TailParts(text, fraction, power)
    ensures IsTail(text) && (text == "" || !IsDigit(text[0]))
  {
    PowerStart(power);
    if fraction == "" {
      assert text == power;
      PowerIff(power);
    } else {
      assert text[1..] == fraction[1..] + power;
      DigitsThen(fraction[1..], power);
      assert text[|fraction|..] == power;
      PowerIff(power);
    }
  }

  lemma TailHasParts(text: string) returns (fraction: string, power: string)
    requires IsTail(text)
    ensures TailParts(text, fraction, power)
  {
    if text != "" && text[0] == '.' {
      var n := 1 + Digits(text[1..]);
      fraction, power := text[..n], text[n..];
      DigitsAre(text[1..]);
      assert fraction[1..] == text[1..][..n - 1];
      PowerIff(power);
    } else {
      fraction, power := "", text;
      PowerIff(power);
    }
  }

  lemma NumeralIsNumber(text: string, minus: string, whole: string, fraction: string, power: string)
    requires NumeralParts(text, minus, whole, fraction, power)
    ensures IsNumber(text)
  {
    var tail := fraction + power;
    var unsigned := whole + tail;
    assert text == if minus == "" then unsigned else "-" + unsigned;
    assert minus == "-" ==> text[0] == '-' && text[1..] == unsigned;
    assert unsigned[0] == whole[0];
    TailIs(tail, fraction, power);
    DigitsThen(whole, tail);
    assert unsigned[|whole|..] == tail;
  }

  lemma UnsignedHasParts(unsigned: string) returns (whole: string, fraction: string, power: string)
    requires var n := Digits(unsigned); 0 < n <= |unsigned| && (n == 1 || unsigned[0] != '0') && IsTail(unsigned[n..])
    ensures unsigned == whole + (fraction + power) && IsWhole(whole) && IsFraction(fraction) && IsPower(power)
  {
    var n := Digits(unsigned);
    DigitsAre(unsigned);
    whole := unsigned[..n];
    fraction, power := TailHasParts(unsigned[n..]);
    assert unsigned == whole + unsigned[n..];
  }

  lemma NumberIsNumeral(text: string)
    requires IsNumber(text)
    ensures IsNumeral(text)
  {
    var minus := if text != "" && text[0] == '-' then "-" else "";
    var whole, fraction, power := UnsignedHasParts(text[|minus|..]);
    assert text == minus + text[|minus|..];
    assert NumeralParts(text, minus, whole, fraction, power);
  }

  lemma NumeralChars(text: string, minus: string, whole: string, fraction: string, power: string)
    requires NumeralParts(text, minus, whole, fraction, power)
    ensures text != "" && forall i | 0 <= i < |text| :: LiteralChar(text[i])
  {
    PowerChars(power);
    FractionChars(fraction);
    forall i | 0 <= i < |text| ensures LiteralChar(text[i]) {
      var m, w, f := |minus|, |minus| + |whole|, |minus| + |whole| + |fraction|;
      assert text[i] == if i < m then minus[i] else if i < w then whole[i - m] else if i < f then fraction[i - w]
                        else power[i - f];
    }
  }

  lemma FractionChars(fraction: string)
    requires IsFraction(fraction)
    ensures forall i | 0 <= i < |fraction| :: LiteralChar(fraction[i])
  {
    forall i | 0 <= i < |fraction| ensures LiteralChar(fraction[i]) {
      assert i > 0 ==> fraction[i] == fraction[1..][i - 1];
    }
  }

  lemma PowerChars(power: string)
    requires IsPower(power)
    ensures forall i | 0 <= i < |power| :: LiteralChar(power[i])
  {
    forall i | 0 <= i < |power| ensures LiteralChar(power[i]) {
      assert i > 0 ==> power[i] == power[1..][i - 1];
      assert i > 1 ==> power[i] == power[2..][i - 2];
    }
  }

  /** The words of the grammar are those the reader takes for literals. */
  lemma WordIff(text: string)
    ensures IsWord(text) <==> IsLiteral(text)
  {
    if IsNumeral(text) {
      var minus, whole, fraction, power :| NumeralParts(text, minus, whole, fraction, power);
      NumeralIsNumber(text, minus, whole, fraction, power);
      NumeralChars(text, minus, whole, fraction, power);
    }
    if IsNumber(text) {
      NumberIsNumeral(text);
    }
  }

  // ---------------------------------------------------------------------------
  // The reader reads every such text
  // ---------------------------------------------------------------------------

  lemma HexDigitReads(c: char, d: nat)
    requires IsHexDigit(c, d)
    ensures HexDigit(c) == Some(d)
  {
  }

  lemma FourRead(text: string, a: nat, b: nat, c: nat, d: nat, n: nat)
    requires |text| >= 4 && n == 4096 * a + 256 * b + 16 * c + d
    requires HexDigit(text[0]) == Some(a) && HexDigit(text[1]) == Some(b)
    requires HexDigit(text[2]) == Some(c) && HexDigit(text[3]) == Some(d)
    ensures Unit(text) == Some(n)
  {
  }

  lemma HexReads(text: string, n: nat, rest: string)
    requires IsHex(text, n)
    ensures Unit(text + rest) == Some(n)
  {
    var a: nat, b: nat, c: nat, d: nat :| HexParts(text, a, b, c, d) && n == 4096 * a + 256 * b + 16 * c + d;
    PartsRead(text, a, b, c, d);
    FourRead(text + rest, a, b, c, d, n);
  }

  lemma PartsRead(text: string, a: nat, b: nat, c: nat, d: nat)
    requires HexParts(text, a, b, c, d)
    ensures HexDigit(text[0]) == Some(a) && HexDigit(text[1]) == Some(b)
    ensures HexDigit(text[2]) == Some(c) && HexDigit(text[3]) == Some(d)
  {
    HexDigitReads(text[0], a);
    HexDigitReads(text[1], b);
    HexDigitReads(text[2], c);
    HexDigitReads(text[3], d);
  }

  lemma ShortReads(g: Glyph, rest: string)
    requires IsShort(g)
    ensures Unescape(g.text[1..] + rest) == Some((g.c, rest))
  {
    var i :| 0 <= i < |SHORT| && g.text[1] == SHORT[i] && g.c == MEANT[i];
    assert g.text[1..] + rest == [SHORT[i]] + rest && ([SHORT[i]] + rest)[1..] == rest;
  }

  lemma UnitReads(g: Glyph, rest: string)
    requires IsUnit(g.text, g.c as nat)
    ensures Unescape(g.text[1..] + rest) == Some((g.c, rest))
  {
    HexReads(g.text[2..], g.c as nat, rest);
    UnitText(g.text, rest);
  }

  lemma UnitText(unit: string, rest: string)
    requires |unit| == 6 && unit[..2] == "\\u"
    ensures var text := unit[1..] + rest; text[0] == 'u' && text[1..] == unit[2..] + rest && text[5..] == rest
  {
    assert unit[1] == unit[..2][1];
  }

  lemma PairReads(g: Glyph, high: nat, low: nat, rest: string)
    requires |g.text| == 12 && IsUnit(g.text[..6], high) && IsUnit(g.text[6..], low) && IsSurrogatePair(g.c, high, low)
    ensures Unescape(g.text[1..] + rest) == Some((g.c, rest))
  {
    var h, l := g.text[2..6], g.text[8..];
    assert g.text[..6][2..] == h && g.text[6..][2..] == l;
    HexReads(h, high, "\\u" + l + rest);
    HexReads(l, low, rest);
    TwoUnits(h, l, high, low, rest);
    SurrogateText(g.text, h, l);
    assert g.text[1..] + rest == "u" + h + "\\u" + l + rest;
  }

  lemma SurrogateText(text: string, h: string, l: string)
    requires |text| == 12 && text[..6][..2] == "\\u" && text[6..][..2] == "\\u" && h == text[2..6] && l == text[8..]
    ensures text[1..] == "u" + h + "\\u" + l
  {
    assert text[0] == text[..6][..2][0] && text[1] == text[..6][..2][1];
    assert text[6] == text[6..][..2][0] && text[7] == text[6..][..2][1];
  }

  lemma GlyphReads(g: Glyph, rest: string)
    requires IsGlyph(g) && Chars(rest).Some?
    ensures Chars(g.text + rest) == Some(([g.c] + Chars(rest).value.0, Chars(rest).value.1))
  {
    if g.text == [g.c] && ' ' <= g.c && g.c != '"' && g.c != '\\' {
      assert (g.text + rest)[1..] == rest;
    } else {
      if IsShort(g) {
        ShortReads(g, rest);
      } else if IsUnit(g.text, g.c as nat) {
        UnitReads(g, rest);
        assert g.text[0] == g.text[..2][0];
      } else {
        var high: nat, low: nat :|
          IsUnit(g.text[..6], high) && IsUnit(g.text[6..], low) && IsSurrogatePair(g.c, high, low);
        PairReads(g, high, low, rest);
        assert g.text[0] == g.text[..6][..2][0];
      }
      EscapeReads(g, rest);
    }
  }

  lemma EscapeReads(g: Glyph, rest: string)
    requires g.text != "" && g.text[0] == '\\' && Unescape(g.text[1..] + rest) == Some((g.c, rest)) && Chars(rest).Some?
    ensures Chars(g.text + rest) == Some(([g.c] + Chars(rest).value.0, Chars(rest).value.1))
  {
    assert (g.text + rest)[1..] == g.text[1..] + rest;
  }

  lemma {:induction false} GlyphsRead(glyphs: seq<Glyph>, rest: string)
    requires AreGlyphs(glyphs)
    ensures Chars(Spelling(glyphs) + ("\"" + rest)) == Some((Spelled(glyphs), rest))
  {
    if glyphs == [] {
      QuoteReads(rest);
    } else {
      var more := Spelling(glyphs[1..]);
      GlyphsRead(glyphs[1..], rest);
      GlyphReads(glyphs[0], more + ("\"" + rest));
      Associates(glyphs[0].text, more, "\"" + rest);
    }
  }

  /** No letter or digit of a literal comes next. */
  predicate Ends(rest: string) {
    rest == "" || !LiteralChar(rest[0])
  }

  lemma {:induction false} SkipBlank(blank: string, rest: string)
    requires Blank(blank)
    ensures Skip(blank + rest) == Skip(rest)
  {
    if blank == "" {
      assert blank + rest == rest;
    } else {
      SkipBlank(blank[1..], rest);
      assert (blank + rest)[1..] == blank[1..] + rest;
    }
  }

  lemma BlankEnds(blank: string, rest: string)
    requires Blank(blank) && Ends(rest)
    ensures Ends(blank + rest)
  {
    assert blank == "" ==> blank + rest == rest;
  }

  predicate Mark(c: char) {
    c in {',', ']', '}', ':'}
  }

  lemma SkipToMark(blank: string, rest: string)
    requires Blank(blank) && rest != "" && (Mark(rest[0]) || rest[0] == '"')
    ensures Skip(blank + rest) == rest && Ends(blank + rest)
  {
    SkipBlank(blank, rest);
    BlankEnds(blank, rest);
  }

  lemma RenderStart(t: Tree)
    requires Valid(t)
    ensures Render(t) != "" && Render(t)[0] !in {' ', '\t', '\n', '\r', ',', ']', '}', ':'}
  {
    if t.Word? {
      WordIff(t.text);
    }
  }

  lemma WordReads(text: string, rest: string)
    requires IsWord(text) && Ends(rest)
    ensures Value(text + rest) == Some((Lit(text), rest))
  {
    WordIff(text);
    LiteralReads(text, rest);
    assert (text + rest)[..|text|] == text && (text + rest)[|text|..] == rest;
    LitOf(text + rest, |text|);
  }

  lemma QuotedReads(glyphs: seq<Glyph>, rest: string)
    requires AreGlyphs(glyphs)
    ensures Value("\"" + (Spelling(glyphs) + "\"") + rest) == Some((Str(Spelled(glyphs)), rest))
  {
    GlyphsRead(glyphs, rest);
    var text := "\"" + (Spelling(glyphs) + "\"") + rest;
    QuotedText(Spelling(glyphs), rest);
    StrOf(text, Spelled(glyphs), rest);
  }

  lemma {:induction false} TreeReads(t: Tree, rest: string)
    requires Valid(t) && Ends(rest)
    ensures Value(Render(t) + rest) == Some((Meaning(t), rest))
    decreases t, 2
  {
    match t
    case Word(text) => WordReads(text, rest);
    case Quoted(glyphs) => QuotedReads(glyphs, rest);
    case List(gap, items) => ListReads(gap, items, rest);
    case Braces(gap, entries) => BracesRead(gap, entries, rest);
  }

  lemma {:induction false} ListReads(gap: string, items: seq<Item>, rest: string)
    requires Blank(gap) && forall i | i in items :: ValidItem(i)
    ensures Value(Render(List(gap, items)) + rest) == Some((Arr(Meanings(items)), rest))
    decreases items, 4
  {
    if items == [] {
      EmptyListReads(gap, rest);
    } else {
      ListText(gap, items, rest);
      ItemsRead(items, rest);
    }
  }

  lemma EmptyListReads(gap: string, rest: string)
    requires Blank(gap)
    ensures Value(Render(List(gap, [])) + rest) == Some((Arr([]), rest))
  {
    var text := Render(List(gap, [])) + rest;
    assert text[1..] == gap + ("]" + rest);
    SkipToMark(gap, "]" + rest);
    assert ("]" + rest)[1..] == rest;
  }

  lemma ListText(gap: string, items: seq<Item>, rest: string)
    requires items != []
    ensures var text := Render(List(gap, items)) + rest;
            text[0] == '[' && text[1..] == RenderItems(items) + ("]" + rest)
  {
  }

  lemma {:induction false} BracesRead(gap: string, entries: seq<Entry>, rest: string)
    requires Blank(gap) && forall e | e in entries :: ValidEntry(e)
    ensures Value(Render(Braces(gap, entries)) + rest) == Some((Obj(Dict(Members(entries))), rest))
    decreases entries, 4
  {
    if entries == [] {
      EmptyBracesRead(gap, rest);
    } else {
      BracesText(gap, entries, rest);
      EntriesRead(entries, rest);
    }
  }

  lemma EmptyBracesRead(gap: string, rest: string)
    requires Blank(gap)
    ensures Value(Render(Braces(gap, [])) + rest) == Some((Obj([]), rest))
  {
    var text := Render(Braces(gap, [])) + rest;
    assert text[1..] == gap + ("}" + rest);
    SkipToMark(gap, "}" + rest);
    assert ("}" + rest)[1..] == rest;
  }

  lemma BracesText(gap: string, entries: seq<Entry>, rest: string)
    requires entries != []
    ensures var text := Render(Braces(gap, entries)) + rest;
            text[0] == '{' && text[1..] == RenderEntries(entries) + ("}" + rest)
  {
  }

  /** After the whitespace before it, an item is read, and after the whitespace behind it, its mark comes. */
  lemma {:induction false} ItemReads(i: Item, rest: string)
    requires ValidItem(i) && rest != "" && Mark(rest[0])
    ensures var text := Skip(RenderItem(i) + rest);
            && text == Render(i.tree) + (i.after + rest) && text != "" && !Mark(text[0])
            && Value(text) == Some((Meaning(i.tree), i.after + rest)) && Skip(i.after + rest) == rest
    decreases i, 3
  {
    var text := Render(i.tree) + (i.after + rest);
    assert RenderItem(i) + rest == i.before + text;
    RenderStart(i.tree);
    SkipBlank(i.before, text);
    SkipToMark(i.after, rest);
    TreeReads(i.tree, i.after + rest);
  }

  lemma ItemsText(items: seq<Item>, rest: string)
    requires |items| > 1
    ensures RenderItems(items) + rest == RenderItem(items[0]) + ("," + (RenderItems(items[1..]) + rest))
  {
  }

  lemma {:induction false} ItemsRead(items: seq<Item>, rest: string)
    requires items != [] && forall i | i in items :: ValidItem(i)
    ensures var text := Skip(RenderItems(items) + ("]" + rest));
            text != "" && text[0] != ']' && Items(text) == Some((Meanings(items), rest))
    decreases items, 3
  {
    if |items| == 1 {
      ItemReads(items[0], "]" + rest);
      OneItem(Skip(RenderItem(items[0]) + ("]" + rest)), items, rest);
    } else {
      var more := RenderItems(items[1..]) + ("]" + rest);
      ItemsText(items, "]" + rest);
      ItemReads(items[0], "," + more);
      ItemsRead(items[1..], rest);
      MoreItems(Skip(RenderItem(items[0]) + ("," + more)), items, more, rest);
    }
  }

  lemma OneItem(text: string, items: seq<Item>, rest: string)
    requires |items| == 1 && Value(text).Some? && Value(text).value.0 == Meaning(items[0].tree)
    requires Skip(Value(text).value.1) == "]" + rest
    ensures Items(text) == Some((Meanings(items), rest))
  {
    assert ("]" + rest)[1..] == rest && Meanings(items) == [Meaning(items[0].tree)];
  }

  lemma MoreItems(text: string, items: seq<Item>, more: string, rest: string)
    requires |items| > 1 && Value(text).Some? && Value(text).value.0 == Meaning(items[0].tree)
    requires Skip(Value(text).value.1) == "," + more && Items(Skip(more)) == Some((Meanings(items[1..]), rest))
    ensures Items(text) == Some((Meanings(items), rest))
  {
    assert ("," + more)[1..] == more;
  }

  /** An entry is read like an item. */
  lemma {:induction false} EntryReads(e: Entry, rest: string)
    requires ValidEntry(e) && rest != "" && Mark(rest[0])
    ensures var text := Skip(RenderEntry(e) + rest);
            && text != "" && text[0] == '"' && Pair(text).Some?
            && Pair(text).value.0 == (Spelled(e.name), Meaning(e.item.tree)) && Skip(Pair(text).value.1) == rest
    decreases e, 3
  {
    var value := RenderItem(e.item) + rest;
    var colon := e.between + (":" + value);
    var text := ("\"" + (Spelling(e.name) + "\"")) + colon;
    EntryText(e, rest);
    SkipToMark(e.before, text);
    GlyphsRead(e.name, colon);
    QuotedText(Spelling(e.name), colon);
    SkipToMark(e.between, ":" + value);
    ItemReads(e.item, rest);
    PairOfEntry(text, e, colon, value, rest);
  }

  lemma PairOfEntry(text: string, e: Entry, colon: string, value: string, rest: string)
    requires text != "" && text[0] == '"' && Chars(text[1..]) == Some((Spelled(e.name), colon))
    requires Skip(colon) == ":" + value && Value(Skip(value)).Some?
    requires Value(Skip(value)).value.0 == Meaning(e.item.tree) && Skip(Value(Skip(value)).value.1) == rest
    ensures Pair(text).Some? && Pair(text).value.0 == (Spelled(e.name), Meaning(e.item.tree))
    ensures Skip(Pair(text).value.1) == rest
  {
    assert (":" + value)[1..] == value;
  }

  lemma QuotedText(spelling: string, rest: string)
    ensures (("\"" + (spelling + "\"")) + rest)[1..] == spelling + ("\"" + rest)
  {
  }

  lemma EntryText(e: Entry, rest: string)
    ensures RenderEntry(e) + rest
         == e.before + (("\"" + (Spelling(e.name) + "\"")) + (e.between + (":" + (RenderItem(e.item) + rest))))
  {
  }

  lemma EntriesText(entries: seq<Entry>, rest: string)
    requires |entries| > 1
    ensures RenderEntries(entries) + rest == RenderEntry(entries[0]) + ("," + (RenderEntries(entries[1..]) + rest))
  {
  }

  lemma {:induction false} EntriesRead(entries: seq<Entry>, rest: string)
    requires entries != [] && forall e | e in entries :: ValidEntry(e)
    ensures var text := Skip(RenderEntries(entries) + ("}" + rest));
            text != "" && text[0] == '"' && Pairs(text) == Some((Members(entries), rest))
    decreases entries, 3
  {
    if |entries| == 1 {
      EntryReads(entries[0], "}" + rest);
      OneEntry(Skip(RenderEntry(entries[0]) + ("}" + rest)), entries, rest);
    } else {
      var more := RenderEntries(entries[1..]) + ("}" + rest);
      EntriesText(entries, "}" + rest);
      EntryReads(entries[0], "," + more);
      EntriesRead(entries[1..], rest);
      MoreEntries(Skip(RenderEntry(entries[0]) + ("," + more)), entries, more, rest);
    }
  }

  lemma OneEntry(text: string, entries: seq<Entry>, rest: string)
    requires |entries| == 1 && Pair(text).Some?
    requires Pair(text).value.0 == (Spelled(entries[0].name), Meaning(entries[0].item.tree))
    requires Skip(Pair(text).value.1) == "}" + rest
    ensures Pairs(text) == Some((Members(entries), rest))
  {
    assert Members(entries) == [Pair(text).value.0];
    assert ("}" + rest)[1..] == rest;
  }

  lemma MoreEntries(text: string, entries: seq<Entry>, more: string, rest: string)
    requires |entries| > 1 && Pair(text).Some?
    requires Pair(text).value.0 == (Spelled(entries[0].name), Meaning(entries[0].item.tree))
    requires Skip(Pair(text).value.1) == "," + more && Pairs(Skip(more)) == Some((Members(entries[1..]), rest))
    ensures Pairs(text) == Some((Members(entries), rest))
  {
    assert ("," + more)[1..] == more;
  }

  /** Every text of the grammar is read as what it means. */
  lemma RenderedLoads(i: Item)
    requires ValidItem(i)
    ensures Loads(RenderItem(i)) == Some(Meaning(i.tree))
  {
    RenderStart(i.tree);
    BlankEnds(i.after, "");
    assert i.after + "" == i.after;
    SkipBlank(i.before, Render(i.tree) + i.after);
    SkipBlank(i.after, "");
    TreeReads(i.tree, i.after);
  }

  // ---------------------------------------------------------------------------
  // The reader reads nothing else
  // ---------------------------------------------------------------------------

  lemma HexDigitIs(c: char)
    requires HexDigit(c).Some?
    ensures IsHexDigit(c, HexDigit(c).value)
  {
  }

  lemma UnitIs(text: string)
    requires Unit(text).Some?
    ensures IsHex(text[..4], Unit(text).value)
  {
    var h := text[..4];
    forall i | 0 <= i < 4 ensures HexDigit(text[i]).Some? && IsHexDigit(h[i], HexDigit(text[i]).value) {
      HexDigitIs(text[i]);
    }
    assert HexParts(h, HexDigit(text[0]).value, HexDigit(text[1]).value, HexDigit(text[2]).value,
                    HexDigit(text[3]).value);
  }

  /** The glyph whose text is this backslash and what `Unescape` has read. */
  lemma UnescapedGlyph(text: string) returns (g: Glyph)
    requires Unescape(text).Some?
    ensures IsGlyph(g) && g.c == Unescape(text).value.0 && "\\" + text == g.text + Unescape(text).value.1
  {
    var c := Unescape(text).value.0;
    var n: nat;
    if text[0] != 'u' {
      ShortGlyph(text);
      n := 1;
    } else if Unit(text[1..]).value < 0xD800 || 0xE000 <= Unit(text[1..]).value {
      UnitGlyph(text);
      n := 5;
    } else {
      SurrogateGlyph(text);
      n := 11;
    }
    g := Glyph(c, "\\" + text[..n]);
    Cut(text, n);
  }

  lemma Cut(text: string, n: nat)
    requires n <= |text|
    ensures "\\" + text == ("\\" + text[..n]) + text[n..]
  {
  }

  lemma UnitGlyph(text: string)
    requires Unescape(text).Some? && text[0] == 'u'
    requires Unit(text[1..]).value < 0xD800 || 0xE000 <= Unit(text[1..]).value
    ensures |text| >= 5 && Unescape(text).value.1 == text[5..]
    ensures IsUnit("\\" + text[..5], Unescape(text).value.0 as nat)
  {
    var unit := "\\" + text[..5];
    UnitIs(text[1..]);
    assert unit[2..] == text[1..][..4] && unit[..2] == "\\u";
  }

  lemma ShortGlyph(text: string)
    requires Unescape(text).Some? && text[0] != 'u'
    ensures Unescape(text).value.1 == text[1..]
    ensures IsShort(Glyph(Unescape(text).value.0, "\\" + text[..1]))
  {
    var c := Unescape(text).value.0;
    var i := if text[0] == '"' then 0 else if text[0] == '\\' then 1 else if text[0] == '/' then 2
             else if text[0] == 'b' then 3 else if text[0] == 'f' then 4 else if text[0] == 'n' then 5
             else if text[0] == 'r' then 6 else 7;
    assert text[0] == SHORT[i] && c == MEANT[i];
  }

  lemma SurrogateGlyph(text: string)
    requires Unescape(text).Some? && text[0] == 'u' && 0xD800 <= Unit(text[1..]).value < 0xE000
    ensures |text| >= 11 && Unescape(text).value.1 == text[11..]
    ensures IsGlyph(Glyph(Unescape(text).value.0, "\\" + text[..11]))
  {
    var g := Glyph(Unescape(text).value.0, "\\" + text[..11]);
    var high, low := Unit(text[1..]).value, Unit(text[7..]).value;
    assert IsSurrogatePair(g.c, high, low) && "\\u" <= text[5..];
    assert IsUnit(g.text[..6], high) && IsUnit(g.text[6..], low) by {
      SurrogateUnits(text, g.text);
    }
  }

  lemma SurrogateUnits(text: string, spelled: string)
    requires |text| >= 11 && text[0] == 'u' && "\\u" <= text[5..] && spelled == "\\" + text[..11]
    requires Unit(text[1..]).Some? && Unit(text[7..]).Some?
    ensures IsUnit(spelled[..6], Unit(text[1..]).value) && IsUnit(spelled[6..], Unit(text[7..]).value)
  {
    UnitIs(text[1..]);
    UnitIs(text[7..]);
    assert spelled[..6][2..] == text[1..][..4] && spelled[..6][..2] == "\\u";
    assert text[5] == text[5..][0] && text[6] == text[5..][1];
    assert spelled[6..][2..] == text[7..][..4] && spelled[6..][..2] == "\\u";
  }

  lemma {:induction false} CharsGlyphs(text: string) returns (glyphs: seq<Glyph>)
    requires Chars(text).Some?
    ensures AreGlyphs(glyphs) && Spelled(glyphs) == Chars(text).value.0
    ensures text == Spelling(glyphs) + ("\"" + Chars(text).value.1)
    decreases |text|
  {
    if text[0] == '"' {
      glyphs := [];
      assert text == "" + ("\"" + text[1..]);
    } else {
      var g: Glyph;
      var rest: string;
      if text[0] == '\\' {
        g := UnescapedGlyph(text[1..]);
        rest := Unescape(text[1..]).value.1;
        assert text == "\\" + text[1..];
      } else {
        g, rest := Glyph(text[0], [text[0]]), text[1..];
      }
      assert text == g.text + rest;
      var more := CharsGlyphs(rest);
      glyphs := [g] + more;
      assert glyphs[1..] == more;
      Associates(g.text, Spelling(more), "\"" + Chars(rest).value.1);
    }
  }

  /** The whitespace at the start of a text. */
  lemma {:induction false} Skipped(text: string) returns (blank: string)
    ensures Blank(blank) && text == blank + Skip(text)
  {
    if text != "" && text[0] in {' ', '\t', '\n', '\r'} {
      var more := Skipped(text[1..]);
      blank := [text[0]] + more;
    } else {
      blank := "";
    }
  }

  lemma {:induction false} ValueTree(text: string) returns (t: Tree)
    requires Value(text).Some?
    ensures Valid(t) && Meaning(t) == Value(text).value.0 && text == Render(t) + Value(text).value.1
    decreases |text|, 0
  {
    if text[0] == '"' {
      var glyphs := CharsGlyphs(text[1..]);
      t := Quoted(glyphs);
      assert text == "\"" + text[1..];
    } else if text[0] == '[' {
      t := ListTree(text);
    } else if text[0] == '{' {
      t := BracesTree(text);
    } else {
      var n := Literal(text);
      WordIff(text[..n]);
      t := Word(text[..n]);
      assert text == text[..n] + text[n..];
    }
  }

  lemma {:induction false} ListTree(text: string) returns (t: Tree)
    requires Value(text).Some? && text[0] == '['
    ensures Valid(t) && Meaning(t) == Value(text).value.0 && text == Render(t) + Value(text).value.1
    decreases |text|, 0, 0
  {
    var gap := Skipped(text[1..]);
    var first := Skip(text[1..]);
    if first[0] == ']' {
      t := List(gap, []);
      EmptyText(text, gap, first);
    } else {
      var items := ItemTrees(first, gap);
      t := List("", items);
      Enclosed(text, gap + first, RenderItems(items), "]", Value(text).value.1);
    }
  }

  lemma EmptyText(text: string, gap: string, first: string)
    requires text != "" && first != "" && text[1..] == gap + first
    ensures text == [text[0]] + (gap + [first[0]]) + first[1..]
  {
  }

  lemma Enclosed(text: string, after: string, inner: string, close: string, rest: string)
    requires text != "" && text[1..] == after == inner + (close + rest)
    ensures text == [text[0]] + (inner + close) + rest
  {
  }

  lemma {:induction false} BracesTree(text: string) returns (t: Tree)
    requires Value(text).Some? && text[0] == '{'
    ensures Valid(t) && Meaning(t) == Value(text).value.0 && text == Render(t) + Value(text).value.1
    decreases |text|, 0, 0
  {
    var gap := Skipped(text[1..]);
    var first := Skip(text[1..]);
    if first[0] == '}' {
      t := Braces(gap, []);
      EmptyText(text, gap, first);
    } else {
      var entries := EntryTrees(first, gap);
      t := Braces("", entries);
      Enclosed(text, gap + first, RenderEntries(entries), "}", Value(text).value.1);
    }
  }

  lemma Comma(text: string, first: string, next: string, gap: string, more: string)
    requires text == first + next && next != "" && next[0] == ',' && next[1..] == gap + Skip(next[1..])
    requires gap + Skip(next[1..]) == more
    ensures text == first + ("," + more)
  {
  }

  /** The items read from a text, the first one with this whitespace before it. */
  lemma {:induction false} ItemTrees(text: string, before: string) returns (items: seq<Item>)
    requires Items(text).Some? && Blank(before)
    ensures items != [] && (forall i | i in items :: ValidItem(i)) && Meanings(items) == Items(text).value.0
    ensures before + text == RenderItems(items) + ("]" + Items(text).value.1)
    decreases |text|, 1
  {
    var t := ValueTree(text);
    var after := Skipped(Value(text).value.1);
    var next, own := Skip(Value(text).value.1), Item(before, t, after);
    assert before + text == RenderItem(own) + next;
    if next[0] == ']' {
      items := [own];
      assert next == "]" + next[1..];
    } else {
      var gap := Skipped(next[1..]);
      var more := ItemTrees(Skip(next[1..]), gap);
      items := [own] + more;
      assert items[1..] == more;
      ItemsText(items, "]" + Items(text).value.1);
      Comma(before + text, RenderItem(own), next, gap, RenderItems(more) + ("]" + Items(text).value.1));
    }
  }

  lemma {:induction false} EntryTree(text: string, before: string) returns (e: Entry, next: string)
    requires Pair(text).Some? && Blank(before)
    ensures ValidEntry(e) && (Spelled(e.name), Meaning(e.item.tree)) == Pair(text).value.0
    ensures next == Skip(Pair(text).value.1) && before + text == RenderEntry(e) + next
    decreases |text|, 1
  {
    var named := Chars(text[1..]).value.1;
    var name := CharsGlyphs(text[1..]);
    var between := Skipped(named);
    var value := Skip(named)[1..];
    var gap := Skipped(value);
    var t := ValueTree(Skip(value));
    var after := Skipped(Pair(text).value.1);
    next := Skip(Pair(text).value.1);
    e := Entry(before, name, between, Item(gap, t, after));
    FirstApart(text);
    FirstApart(Skip(named));
    EntryIs(e, text, named, value, next);
  }

  lemma FirstApart(text: string)
    requires text != ""
    ensures text == [text[0]] + text[1..]
  {
  }

  lemma EntryIs(e: Entry, text: string, named: string, value: string, next: string)
    requires text == "\"" + (Spelling(e.name) + ("\"" + named)) && named == e.between + (":" + value)
    requires value == e.item.before + (Render(e.item.tree) + (e.item.after + next))
    ensures e.before + text == RenderEntry(e) + next
  {
    assert value == RenderItem(e.item) + next;
    EntryText(e, next);
  }

  lemma {:induction false} EntryTrees(text: string, before: string) returns (entries: seq<Entry>)
    requires Pairs(text).Some? && Blank(before)
    ensures entries != [] && (forall e | e in entries :: ValidEntry(e)) && Members(entries) == Pairs(text).value.0
    ensures before + text == RenderEntries(entries) + ("}" + Pairs(text).value.1)
    decreases |text|, 2
  {
    var own, next := EntryTree(text, before);
    if next[0] == '}' {
      entries := [own];
      assert next == "}" + next[1..];
    } else {
      var gap := Skipped(next[1..]);
      var more := EntryTrees(Skip(next[1..]), gap);
      entries := [own] + more;
      assert entries[1..] == more;
      EntriesText(entries, "}" + Pairs(text).value.1);
      Comma(before + text, RenderEntry(own), next, gap, RenderEntries(more) + ("}" + Pairs(text).value.1));
    }
  }

  lemma LoadedIsRendered(text: string) returns (i: Item)
    requires Loads(text).Some?
    ensures ValidItem(i) && text == RenderItem(i) && Meaning(i.tree) == Loads(text).value
  {
    var before := Skipped(text);
    var t := ValueTree(Skip(text));
    var after := Skipped(Value(Skip(text)).value.1);
    assert after + "" == after;
    i := Item(before, t, after);
  }

  /** json.loads accepts exactly the texts of the grammar, and reads each of them as what it means. */
  lemma LoadsIff(text: string, v: Json)
    ensures Loads(text) == Some(v) <==> Means(text, v)
  {
    if Means(text, v) {
      var i: Item :| ValidItem(i) && text == RenderItem(i) && Meaning(i.tree) == v;
      RenderedLoads(i);
    }
    if Loads(text) == Some(v) {
      var i := LoadedIsRendered(text);
    }
  }

  // ---------------------------------------------------------------------------
  // Repeated names
  // ---------------------------------------------------------------------------

  /** The last pair of its name. */
  ghost predicate IsLast(pairs: seq<(string, Json)>, i: nat)
    requires i < |pairs|
  {
    forall j | i < j < |pairs| :: pairs[j].0 != pairs[i].0
  }

  /** Where the name comes first, or the number of pairs. */
  function FirstAt(pairs: seq<(string, Json)>, name: string): (i: nat)
    ensures i <= |pairs| && (forall j | 0 <= j < i :: pairs[j].0 != name) && (i < |pairs| ==> pairs[i].0 == name)
  {
    if pairs == [] || pairs[0].0 == name then 0 else 1 + FirstAt(pairs[1..], name)
  }

  ghost predicate ByFirst(dict: seq<(string, Json)>, pairs: seq<(string, Json)>) {
    forall i, j | 0 <= i < j < |dict| :: FirstAt(pairs, dict[i].0) < FirstAt(pairs, dict[j].0)
  }

  lemma FirstBefore(pairs: seq<(string, Json)>, m: (string, Json), name: string)
    ensures FirstAt(pairs + [m], name)
         == if FirstAt(pairs, name) < |pairs| then FirstAt(pairs, name)
            else if m.0 == name then |pairs| else |pairs| + 1
  {
    var all := pairs + [m];
    assert forall j | 0 <= j < |pairs| :: all[j] == pairs[j];
    assert all[|pairs|] == m;
  }

  /** Inserting replaces the value of a name where it stands, or appends the name. */
  lemma {:induction false} Inserted(dict: seq<(string, Json)>, m: (string, Json))
    requires DistinctKeys(dict)
    ensures var r := Insert(dict, m);
            if exists i :: 0 <= i < |dict| && dict[i].0 == m.0
            then |r| == |dict| && forall i | 0 <= i < |dict| :: r[i] == if dict[i].0 == m.0 then m else dict[i]
            else r == dict + [m]
  {
    if dict == [] {
    } else if dict[0].0 == m.0 {
    } else {
      Inserted(dict[1..], m);
      assert dict == [dict[0]] + dict[1..];
      assert forall i | 1 <= i < |dict| :: dict[i] == dict[1..][i - 1];
    }
  }

  /** The last pairs of a run of pairs that goes on with one more. */
  lemma LastBefore(pairs: seq<(string, Json)>, m: (string, Json), i: nat)
    requires i < |pairs|
    ensures IsLast(pairs + [m], i) <==> IsLast(pairs, i) && pairs[i].0 != m.0
  {
    var all := pairs + [m];
    assert forall j | 0 <= j < |pairs| :: all[j] == pairs[j];
    assert all[|pairs|] == m;
  }

  /** A dict has each name once, with its last value, in the order in which the names came first. */
  lemma {:induction false} DictIs(pairs: seq<(string, Json)>)
    ensures forall x :: x in Dict(pairs) <==> exists i | 0 <= i < |pairs| :: IsLast(pairs, i) && pairs[i] == x
    ensures ByFirst(Dict(pairs), pairs)
  {
    if pairs == [] {
    } else {
      var earlier, m := pairs[..|pairs| - 1], pairs[|pairs| - 1];
      assert pairs == earlier + [m];
      DictIs(earlier);
      DictIsDistinct(earlier);
      Inserted(Dict(earlier), m);
      DictHas(earlier, m);
      DictOrder(earlier, m);
    }
  }

  ghost predicate HasLasts(dict: seq<(string, Json)>, pairs: seq<(string, Json)>) {
    forall x :: x in dict <==> exists i | 0 <= i < |pairs| :: IsLast(pairs, i) && pairs[i] == x
  }

  lemma DictHas(earlier: seq<(string, Json)>, m: (string, Json))
    requires HasLasts(Dict(earlier), earlier) && DistinctKeys(Dict(earlier))
    ensures HasLasts(Insert(Dict(earlier), m), earlier + [m])
  {
    var pairs := earlier + [m];
    InsertDistinct(Dict(earlier), m);
    forall x
      ensures x in Insert(Dict(earlier), m) <==> exists i | 0 <= i < |pairs| :: IsLast(pairs, i) && pairs[i] == x
    {
      InsertedMember(Dict(earlier), m, x);
      if x in Dict(earlier) && x.0 != m.0 {
        var i :| 0 <= i < |earlier| && IsLast(earlier, i) && earlier[i] == x;
        LastBefore(earlier, m, i);
        assert pairs[i] == x;
      }
      if x == m {
        assert IsLast(pairs, |earlier|) && pairs[|earlier|] == x;
      }
      if exists i | 0 <= i < |pairs| :: IsLast(pairs, i) && pairs[i] == x {
        var i :| 0 <= i < |pairs| && IsLast(pairs, i) && pairs[i] == x;
        if i < |earlier| {
          LastBefore(earlier, m, i);
          assert earlier[i] == x;
        }
      }
    }
  }

  lemma InsertedMember(dict: seq<(string, Json)>, m: (string, Json), x: (string, Json))
    requires DistinctKeys(dict)
    ensures x in Insert(dict, m) <==> x == m || (x in dict && x.0 != m.0)
  {
    var r := Insert(dict, m);
    Inserted(dict, m);
    if exists i :: 0 <= i < |dict| && dict[i].0 == m.0 {
      var i :| 0 <= i < |dict| && dict[i].0 == m.0;
      assert r[i] == m;
      if x in dict && x.0 != m.0 {
        var j :| 0 <= j < |dict| && dict[j] == x;
        assert r[j] == x;
      }
    }
  }

  lemma {:induction false} LastExists(pairs: seq<(string, Json)>, i: nat) returns (last: nat)
    requires i < |pairs|
    ensures last < |pairs| && IsLast(pairs, last) && pairs[last].0 == pairs[i].0
    decreases |pairs| - i
  {
    if IsLast(pairs, i) {
      last := i;
    } else {
      var j :| i < j < |pairs| && pairs[j].0 == pairs[i].0;
      last := LastExists(pairs, j);
    }
  }

  /** The names of a dict are those of its pairs. */
  lemma NamesKept(dict: seq<(string, Json)>, pairs: seq<(string, Json)>)
    requires HasLasts(dict, pairs)
    ensures forall x | x in dict :: FirstAt(pairs, x.0) < |pairs|
    ensures forall name :: FirstAt(pairs, name) < |pairs| ==> exists i :: 0 <= i < |dict| && dict[i].0 == name
  {
    forall x | x in dict ensures FirstAt(pairs, x.0) < |pairs| {
      var i :| 0 <= i < |pairs| && IsLast(pairs, i) && pairs[i] == x;
    }
    forall name | FirstAt(pairs, name) < |pairs| ensures exists i :: 0 <= i < |dict| && dict[i].0 == name {
      var last := LastExists(pairs, FirstAt(pairs, name));
      assert pairs[last] in dict;
    }
  }

  lemma DictOrder(earlier: seq<(string, Json)>, m: (string, Json))
    requires ByFirst(Dict(earlier), earlier) && DistinctKeys(Dict(earlier)) && HasLasts(Dict(earlier), earlier)
    ensures ByFirst(Insert(Dict(earlier), m), earlier + [m])
  {
    NamesKept(Dict(earlier), earlier);
    Inserted(Dict(earlier), m);
    forall name ensures FirstAt(earlier + [m], name)
                     == if FirstAt(earlier, name) < |earlier| then FirstAt(earlier, name)
                        else if m.0 == name then |earlier| else |earlier| + 1 {
      FirstBefore(earlier, m, name);
    }
    StaysInOrder(Dict(earlier), Insert(Dict(earlier), m), m, name => FirstAt(earlier, name),
                 name => FirstAt(earlier + [m], name), |earlier|);
  }

  /** Of the order of the names nothing is used but where each of them came first. */
  lemma StaysInOrder(dict: seq<(string, Json)>, r: seq<(string, Json)>, m: (string, Json), first: string -> nat,
                     next: string -> nat, n: nat)
    requires forall name :: next(name) == if first(name) < n then first(name) else if m.0 == name then n else n + 1
    requires forall i | 0 <= i < |dict| :: first(dict[i].0) < n
    requires forall i, j | 0 <= i < j < |dict| :: first(dict[i].0) < first(dict[j].0)
    requires |dict| <= |r| <= |dict| + 1 && forall i | 0 <= i < |dict| :: r[i].0 == dict[i].0
    requires |r| == |dict| + 1 ==> r[|dict|] == m && first(m.0) >= n
    ensures forall i, j | 0 <= i < j < |r| :: next(r[i].0) < next(r[j].0)
  {
    forall i, j | 0 <= i < j < |r| ensures next(r[i].0) < next(r[j].0) {
      assert i < |dict|;
    }
  }
}

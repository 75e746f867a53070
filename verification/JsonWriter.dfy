/**
 Which of the many texts of a value json.dumps writes: the one rendering without repeated names, with one
 space after each comma and colon and no other whitespace, and with each character spelled in one way.
 */
module JsonWriter {
  import opened Options
  import opened Json
  import opened JsonGrammar

  /** Printable ASCII stands for itself; then a letter where there is one; then lower-case hex digits. */
  predicate TidyGlyph(g: Glyph) {
    if ' ' <= g.c <= '~' && g.c != '"' && g.c != '\\' then g.text == [g.c]
    else if g.c in {'"', '\\', '\n', '\r', '\t', 8 as char, 12 as char} then |g.text| == 2
    else |g.text| > 2 && forall i | 0 <= i < |g.text| :: !('A' <= g.text[i] <= 'F')
  }

  predicate TidyGlyphs(glyphs: seq<Glyph>) {
    forall g | g in glyphs :: TidyGlyph(g)
  }

  predicate Tidy(t: Tree) {
    match t
    case Word(_) => true
    case Quoted(glyphs) => TidyGlyphs(glyphs)
    case List(gap, items) => gap == "" && TidyItems(items, "")
    case Braces(gap, entries) => gap == "" && TidyEntries(entries, "") && DistinctKeys(Members(entries))
  }

  predicate TidyItem(i: Item, before: string) {
    i.before == before && i.after == "" && Tidy(i.tree)
  }

  predicate TidyItems(items: seq<Item>, before: string) {
    items != [] ==> TidyItem(items[0], before) && TidyItems(items[1..], " ")
  }

  predicate TidyEntry(e: Entry, before: string) {
    e.before == before && TidyGlyphs(e.name) && e.between == "" && TidyItem(e.item, " ")
  }

  predicate TidyEntries(entries: seq<Entry>, before: string) {
    entries != [] ==> TidyEntry(entries[0], before) && TidyEntries(entries[1..], " ")
  }

  // ---------------------------------------------------------------------------
  // Characters
  // ---------------------------------------------------------------------------

  lemma Nibble(a: nat, b: nat, c: nat, d: nat)
    requires a < 16 && b < 16 && c < 16 && d < 16
    ensures var n := 4096 * a + 256 * b + 16 * c + d;
            n < 0x10000 && n / 4096 == a && n / 256 % 16 == b && n / 16 % 16 == c && n % 16 == d
  {
    var n := 4096 * a + 256 * b + 16 * c + d;
    assert n / 256 == 16 * a + b;
    assert n / 16 == 16 * (16 * a + b) + c;
  }

  lemma LowerDigit(c: char, d: nat)
    requires IsHexDigit(c, d) && !('A' <= c <= 'F')
    ensures c == DIGITS[d]
  {
  }

  lemma LowerDigits(text: string, a: nat, b: nat, c: nat, d: nat)
    requires HexParts(text, a, b, c, d) && forall i | 0 <= i < |text| :: !('A' <= text[i] <= 'F')
    ensures a < 16 && b < 16 && c < 16 && d < 16 && text == [DIGITS[a], DIGITS[b], DIGITS[c], DIGITS[d]]
  {
    LowerDigit(text[0], a);
    LowerDigit(text[1], b);
    LowerDigit(text[2], c);
    LowerDigit(text[3], d);
  }

  /** With lower-case digits there is one text for a number. */
  lemma HexIs(text: string, n: nat)
    requires IsHex(text, n) && forall i | 0 <= i < |text| :: !('A' <= text[i] <= 'F')
    ensures n < 0x10000 && text == Hex(n)
  {
    var a: nat, b: nat, c: nat, d: nat :| HexParts(text, a, b, c, d) && n == 4096 * a + 256 * b + 16 * c + d;
    LowerDigits(text, a, b, c, d);
    Nibble(a, b, c, d);
  }

  lemma UnitIsHex(text: string, n: nat)
    requires IsUnit(text, n) && forall i | 0 <= i < |text| :: !('A' <= text[i] <= 'F')
    ensures n < 0x10000 && text == EscapeUnit(n)
  {
    HexIs(text[2..], n);
    assert text == text[..2] + text[2..];
  }

  lemma HalvesAre(c: char, high: nat, low: nat)
    requires IsSurrogatePair(c, high, low)
    ensures c as int >= 0x10000 && high == High(c) && low == Low(c)
  {
    var n := c as int - 0x10000;
    assert n == (high - 0xD800) * 1024 + (low - 0xDC00) && 0 <= low - 0xDC00 < 1024;
  }

  lemma TwoUnitsAre(text: string, high: nat, low: nat)
    requires |text| == 12 && IsUnit(text[..6], high) && IsUnit(text[6..], low)
    requires forall i | 0 <= i < |text| :: !('A' <= text[i] <= 'F')
    ensures high < 0x10000 && low < 0x10000 && text == EscapeUnit(high) + EscapeUnit(low)
  {
    UnitIsHex(text[..6], high);
    UnitIsHex(text[6..], low);
    assert text == text[..6] + text[6..];
  }

  lemma PairIsHex(c: char, text: string, high: nat, low: nat)
    requires high < 0x10000 && low < 0x10000 && text == EscapeUnit(high) + EscapeUnit(low)
    requires IsSurrogatePair(c, high, low)
    ensures text == EscapeChar(c)
  {
    HalvesAre(c, high, low);
  }

  lemma ShortIs(g: Glyph)
    requires IsShort(g) && g.c != '/'
    ensures !Plain(g.c) && g.text == EscapeChar(g.c)
  {
    assert g.text == [g.text[0], g.text[1]];
  }

  lemma ShortGlyphIs(g: Glyph)
    requires IsGlyph(g) && |g.text| == 2
    ensures IsShort(g)
  {
  }

  lemma GlyphWritten(g: Glyph)
    requires IsGlyph(g) && TidyGlyph(g)
    ensures g.text == EscapeChar(g.c)
  {
    if Plain(g.c) {
    } else if |g.text| == 2 {
      ShortGlyphIs(g);
      ShortIs(g);
    } else if |g.text| == 6 {
      UnitIsHex(g.text, g.c as nat);
    } else {
      var high: nat, low: nat :|
        IsUnit(g.text[..6], high) && IsUnit(g.text[6..], low) && IsSurrogatePair(g.c, high, low);
      TwoUnitsAre(g.text, high, low);
      PairIsHex(g.c, g.text, high, low);
    }
  }

  lemma {:induction false} GlyphsWritten(glyphs: seq<Glyph>)
    requires AreGlyphs(glyphs) && TidyGlyphs(glyphs)
    ensures Spelling(glyphs) == Escape(Spelled(glyphs))
  {
    if glyphs != [] {
      GlyphWritten(glyphs[0]);
      GlyphsWritten(glyphs[1..]);
    }
  }

  // ---------------------------------------------------------------------------
  // Every tidy text is what is written
  // ---------------------------------------------------------------------------

  lemma {:induction false} TreeWritten(t: Tree)
    requires Valid(t) && Tidy(t)
    ensures Render(t) == Dumps(Meaning(t))
  {
    match t
    case Word(_) =>
    case Quoted(glyphs) => GlyphsWritten(glyphs);
    case List(gap, items) =>
      ItemsWritten(items, "");
      ListText(items);
    case Braces(gap, entries) =>
      EntriesWritten(entries, "");
      BracesText(entries);
      DictKeeps(Members(entries));
  }

  lemma ListText(items: seq<Item>)
    requires items != [] ==> RenderItems(items) == "" + DumpsItems(Meanings(items))
    ensures Render(List("", items)) == Dumps(Arr(Meanings(items)))
  {
  }

  lemma BracesText(entries: seq<Entry>)
    requires entries != [] ==> RenderEntries(entries) == "" + DumpsMembers(Members(entries))
    ensures Render(Braces("", entries)) == Dumps(Obj(Members(entries)))
  {
    if entries == [] {
      assert Members(entries) == [];
    }
  }

  lemma AfterComma(before: string, first: string, more: string)
    ensures (before + first) + ("," + (" " + more)) == before + (first + ", " + more)
  {
    assert "," + (" " + more) == ", " + more;
  }

  lemma ItemText(i: Item, before: string)
    requires ValidItem(i) && TidyItem(i, before) && Render(i.tree) == Dumps(Meaning(i.tree))
    ensures RenderItem(i) == before + Dumps(Meaning(i.tree))
  {
    assert Render(i.tree) + "" == Render(i.tree);
  }

  lemma ItemsAppend(items: seq<Item>, before: string)
    requires items != [] && RenderItem(items[0]) == before + Dumps(Meaning(items[0].tree))
    requires |items| > 1 ==> RenderItems(items[1..]) == " " + DumpsItems(Meanings(items[1..]))
    ensures RenderItems(items) == before + DumpsItems(Meanings(items))
  {
    assert Meanings(items)[1..] == Meanings(items[1..]);
    AfterComma(before, Dumps(Meaning(items[0].tree)), DumpsItems(Meanings(items[1..])));
  }

  lemma {:induction false} ItemsWritten(items: seq<Item>, before: string)
    requires (forall i | i in items :: ValidItem(i)) && TidyItems(items, before)
    ensures items != [] ==> RenderItems(items) == before + DumpsItems(Meanings(items))
  {
    if items != [] {
      assert ValidItem(items[0]) && TidyItem(items[0], before);
      TreeWritten(items[0].tree);
      ItemText(items[0], before);
      ItemsWritten(items[1..], " ");
      ItemsAppend(items, before);
    }
  }

  lemma NamedText(before: string, name: string, value: string)
    ensures before + (("\"" + (name + "\"")) + ("" + (":" + (" " + value))))
         == before + (("\"" + name + "\"") + ": " + value)
  {
    assert "" + (":" + (" " + value)) == ": " + value;
    assert "\"" + (name + "\"") == "\"" + name + "\"";
  }

  lemma EntryText(e: Entry, before: string)
    requires ValidEntry(e) && TidyEntry(e, before) && Render(e.item.tree) == Dumps(Meaning(e.item.tree))
    ensures RenderEntry(e) == before + DumpsMember((Spelled(e.name), Meaning(e.item.tree)))
  {
    GlyphsWritten(e.name);
    ItemText(e.item, " ");
    NamedText(before, Spelling(e.name), Dumps(Meaning(e.item.tree)));
  }

  lemma EntriesApart(entries: seq<Entry>, before: string, first: string, more: string)
    requires entries != [] && RenderEntry(entries[0]) == before + first
    requires |entries| > 1 ==> RenderEntries(entries[1..]) == " " + more
    ensures RenderEntries(entries) == before + if |entries| == 1 then first else first + ", " + more
  {
    AfterComma(before, first, more);
  }

  lemma MembersApart(entries: seq<Entry>)
    requires entries != []
    ensures Members(entries)[0] == (Spelled(entries[0].name), Meaning(entries[0].item.tree))
    ensures var first := DumpsMember(Members(entries)[0]);
            DumpsMembers(Members(entries))
            == if |entries| == 1 then first else first + ", " + DumpsMembers(Members(entries[1..]))
  {
    assert Members(entries)[1..] == Members(entries[1..]);
  }

  lemma {:induction false} EntriesWritten(entries: seq<Entry>, before: string)
    requires (forall e | e in entries :: ValidEntry(e)) && TidyEntries(entries, before)
    ensures entries != [] ==> RenderEntries(entries) == before + DumpsMembers(Members(entries))
  {
    if entries != [] {
      assert ValidEntry(entries[0]) && ValidItem(entries[0].item) && TidyItem(entries[0].item, " ");
      TreeWritten(entries[0].item.tree);
      EntryText(entries[0], before);
      EntriesWritten(entries[1..], " ");
      EntriesApart(entries, before, DumpsMember(Members(entries)[0]), DumpsMembers(Members(entries[1..])));
      MembersApart(entries);
    }
  }

  // ---------------------------------------------------------------------------
  // Every value has a tidy text
  // ---------------------------------------------------------------------------

  lemma DigitIsLower(d: nat)
    requires d < 16
    ensures IsHexDigit(DIGITS[d], d) && !('A' <= DIGITS[d] <= 'F')
  {
    assert DIGITS[d] == LOWER[d];
  }

  lemma HexIsLower(n: nat)
    requires n < 0x10000
    ensures IsHex(Hex(n), n) && forall i | 0 <= i < 4 :: !('A' <= Hex(n)[i] <= 'F')
  {
    Nibbles(n);
    DigitIsLower(n / 4096);
    DigitIsLower(n / 256 % 16);
    DigitIsLower(n / 16 % 16);
    DigitIsLower(n % 16);
    assert HexParts(Hex(n), n / 4096, n / 256 % 16, n / 16 % 16, n % 16);
  }

  lemma UnitIsTidy(n: nat)
    requires n < 0x10000
    ensures IsUnit(EscapeUnit(n), n) && forall i | 0 <= i < |EscapeUnit(n)| :: !('A' <= EscapeUnit(n)[i] <= 'F')
  {
    HexIsLower(n);
    assert EscapeUnit(n)[2..] == Hex(n) && EscapeUnit(n)[..2] == "\\u";
    assert forall i | 2 <= i < 6 :: EscapeUnit(n)[i] == Hex(n)[i - 2];
  }

  lemma ShortIsTidy(c: char)
    requires !Plain(c) && ShortLetter(c).Some?
    ensures IsShort(Glyph(c, EscapeChar(c))) && TidyGlyph(Glyph(c, EscapeChar(c)))
  {
    var k := if c == '"' then 0 else if c == '\\' then 1 else if c as int == 8 then 3 else if c as int == 12 then 4
             else if c == '\n' then 5 else if c == '\r' then 6 else 7;
    assert SHORT[k] == ShortLetter(c).value && MEANT[k] == c;
  }

  lemma PairIsTidy(c: char)
    requires c as int >= 0x10000
    ensures IsGlyph(Glyph(c, EscapeChar(c))) && TidyGlyph(Glyph(c, EscapeChar(c)))
  {
    var g, high, low := Glyph(c, EscapeChar(c)), High(c), Low(c);
    PairIs(c);
    UnitIsTidy(high);
    UnitIsTidy(low);
    assert g.text[..6] == EscapeUnit(high) && g.text[6..] == EscapeUnit(low);
    assert IsSurrogatePair(c, high, low);
  }

  lemma CharIsTidy(c: char)
    ensures IsGlyph(Glyph(c, EscapeChar(c))) && TidyGlyph(Glyph(c, EscapeChar(c)))
  {
    if Plain(c) {
    } else if ShortLetter(c).Some? {
      ShortIsTidy(c);
    } else if c as int < 0x10000 {
      UnitIsTidy(c as int);
    } else {
      PairIsTidy(c);
    }
  }

  lemma {:induction false} TidyText(s: string) returns (glyphs: seq<Glyph>)
    ensures AreGlyphs(glyphs) && TidyGlyphs(glyphs) && Spelled(glyphs) == s
  {
    if s == "" {
      glyphs := [];
    } else {
      var more := TidyText(s[1..]);
      CharIsTidy(s[0]);
      glyphs := [Glyph(s[0], EscapeChar(s[0]))] + more;
      assert glyphs[1..] == more && s == [s[0]] + s[1..];
    }
  }

  lemma {:induction false} TidyTree(v: Json) returns (t: Tree)
    requires Proper(v)
    ensures Valid(t) && Tidy(t) && Meaning(t) == v
  {
    match v
    case Lit(text) =>
      WordIff(text);
      t := Word(text);
    case Str(s) =>
      var glyphs := TidyText(s);
      t := Quoted(glyphs);
    case Arr(items) =>
      var trees := ItemsOf(items, "");
      t := List("", trees);
    case Obj(members) =>
      var entries := EntriesOf(members, "");
      DictKeeps(members);
      t := Braces("", entries);
  }

  lemma {:induction false} ItemsOf(values: seq<Json>, before: string) returns (items: seq<Item>)
    requires (forall v | v in values :: Proper(v)) && Blank(before)
    ensures (forall i | i in items :: ValidItem(i)) && TidyItems(items, before) && Meanings(items) == values
  {
    if values == [] {
      items := [];
    } else {
      var tree := TidyTree(values[0]);
      var more := ItemsOf(values[1..], " ");
      items := [Item(before, tree, "")] + more;
      assert items[1..] == more && values == [values[0]] + values[1..];
    }
  }

  lemma {:induction false} MemberTree(m: (string, Json)) returns (t: Tree)
    requires Proper(m.1)
    ensures Valid(t) && Tidy(t) && Meaning(t) == m.1
    decreases m
  {
    t := TidyTree(m.1);
  }

  lemma {:induction false} EntriesOf(members: seq<(string, Json)>, before: string) returns (entries: seq<Entry>)
    requires (forall m | m in members :: Proper(m.1)) && Blank(before)
    ensures (forall e | e in entries :: ValidEntry(e)) && TidyEntries(entries, before) && Members(entries) == members
  {
    if members == [] {
      entries := [];
    } else {
      var name := TidyText(members[0].0);
      var tree := MemberTree(members[0]);
      var more := EntriesOf(members[1..], " ");
      entries := [Entry(before, name, "", Item(" ", tree, ""))] + more;
      assert entries[1..] == more && members == [members[0]] + members[1..];
    }
  }

  /** The text json.dumps writes is the tidy one, and there is no other. */
  lemma WrittenIff(v: Json, text: string)
    requires Proper(v)
    ensures text == Dumps(v) <==> exists t :: Valid(t) && Tidy(t) && Meaning(t) == v && Render(t) == text
  {
    var t := TidyTree(v);
    TreeWritten(t);
    if exists t :: Valid(t) && Tidy(t) && Meaning(t) == v && Render(t) == text {
      var other :| Valid(other) && Tidy(other) && Meaning(other) == v && Render(other) == text;
      TreeWritten(other);
    }
  }
}

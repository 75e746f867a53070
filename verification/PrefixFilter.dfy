/** The filter that puts a prefix before every line of a stream of typed tokens. */
module PrefixFilter {
  import opened Strings

  datatype Token = Token(kind: string, value: string)

  /** A str, some tokens, or nothing. */
  datatype Prefix = Text(s: string) | Tokens(tokens: seq<Token>)

  // ---------------------------------------------------------------------------
  // Characters with their types
  // ---------------------------------------------------------------------------

  type Typed = seq<(string, char)>

  function Typing(kind: string, value: string): Typed {
    seq(|value|, i requires 0 <= i < |value| => (kind, value[i]))
  }

  function Chars(tokens: seq<Token>): Typed {
    if tokens == [] then []
    else Chars(tokens[..|tokens| - 1]) + Typing(tokens[|tokens| - 1].kind, tokens[|tokens| - 1].value)
  }

  function Newlines(chars: Typed): nat {
    if chars == [] then 0
    else Newlines(chars[..|chars| - 1]) + if chars[|chars| - 1].1 == '\n' then 1 else 0
  }

  function Concat<T>(lines: seq<seq<T>>): seq<T> {
    if lines == [] then [] else Concat(lines[..|lines| - 1]) + lines[|lines| - 1]
  }

  function CharsOf(lines: seq<seq<Token>>): seq<Typed> {
    seq(|lines|, i requires 0 <= i < |lines| => Chars(lines[i]))
  }

  lemma {:induction false} CharsBoth(a: seq<Token>, b: seq<Token>)
    ensures Chars(a + b) == Chars(a) + Chars(b)
  {
    if b == [] {
      assert a + b == a;
    } else {
      var last := b[|b| - 1];
      CharsBoth(a, b[..|b| - 1]);
      assert (a + b)[..|a + b| - 1] == a + b[..|b| - 1] && (a + b)[|a + b| - 1] == last;
      Associates(Chars(a), Chars(b[..|b| - 1]), Typing(last.kind, last.value));
    }
  }

  lemma {:induction false} NewlinesBoth(a: Typed, b: Typed)
    ensures Newlines(a + b) == Newlines(a) + Newlines(b)
  {
    if b == [] {
      assert a + b == a;
    } else {
      NewlinesBoth(a, b[..|b| - 1]);
      assert (a + b)[..|a| + |b| - 1] == a + b[..|b| - 1];
    }
  }

  lemma {:induction false} ConcatChars(lines: seq<seq<Token>>)
    ensures Chars(Concat(lines)) == Concat(CharsOf(lines))
  {
    if lines == [] {
    } else {
      var n := |lines| - 1;
      ConcatChars(lines[..n]);
      CharsBoth(Concat(lines[..n]), lines[n]);
      assert CharsOf(lines)[..n] == CharsOf(lines[..n]);
    }
  }

  // ---------------------------------------------------------------------------
  // Lines
  // ---------------------------------------------------------------------------

  ghost predicate NoNewline(chars: Typed) {
    forall i | 0 <= i < |chars| :: chars[i].1 != '\n'
  }

  /** A line that ends in its only newline. */
  ghost predicate Ended(chars: Typed) {
    chars != [] && chars[|chars| - 1].1 == '\n' && NoNewline(chars[..|chars| - 1])
  }

  /** All lines but the last end in their only newline; the last has none. */
  ghost predicate AreLines(lines: seq<Typed>) {
    lines != [] && (forall i | 0 <= i < |lines| - 1 :: Ended(lines[i])) && NoNewline(lines[|lines| - 1])
  }

  /** The part of the text before position n is split no other way. */
  lemma {:induction false} FirstLine(a: Typed, b: Typed, restA: Typed, restB: Typed)
    requires (Ended(a) || (NoNewline(a) && restA == [])) && (Ended(b) || (NoNewline(b) && restB == []))
    requires a + restA == b + restB
    ensures a == b && restA == restB && (Ended(a) <==> Ended(b))
  {
    var text := a + restA;
    assert (forall i | 0 <= i < |a| :: a[i] == text[i]) && (forall i | 0 <= i < |b| :: b[i] == text[i]);
    assert Ended(a) ==> a[|a| - 1].1 == '\n' && forall i | 0 <= i < |a| - 1 :: a[..|a| - 1][i] == text[i];
    assert Ended(b) ==> b[|b| - 1].1 == '\n' && forall i | 0 <= i < |b| - 1 :: b[..|b| - 1][i] == text[i];
    assert |a| == |b|;
    assert a == text[..|a|] && restA == text[|a|..] && restB == text[|b|..];
  }

  lemma {:induction false} ConcatBoth<T>(a: seq<seq<T>>, b: seq<seq<T>>)
    ensures Concat(a + b) == Concat(a) + Concat(b)
  {
    if b == [] {
      assert a + b == a;
    } else {
      ConcatBoth(a, b[..|b| - 1]);
      assert (a + b)[..|a| + |b| - 1] == a + b[..|b| - 1];
    }
  }

  lemma ConcatFront<T>(lines: seq<seq<T>>)
    requires lines != []
    ensures Concat(lines) == lines[0] + Concat(lines[1..])
  {
    ConcatBoth([lines[0]], lines[1..]);
    assert lines == [lines[0]] + lines[1..] && Concat([lines[0]]) == Concat([]) + lines[0];
  }

  /** There is one way to split a text into lines. */
  lemma {:induction false} LinesUnique(a: seq<Typed>, b: seq<Typed>)
    requires AreLines(a) && AreLines(b) && Concat(a) == Concat(b)
    ensures a == b
  {
    ConcatFront(a);
    ConcatFront(b);
    FirstLine(a[0], b[0], Concat(a[1..]), Concat(b[1..]));
    assert |a| == 1 <==> !Ended(a[0]);
    assert |b| == 1 <==> !Ended(b[0]);
    if |a| > 1 {
      LinesUnique(a[1..], b[1..]);
    }
    assert a == [a[0]] + a[1..] && b == [b[0]] + b[1..];
  }

  lemma {:induction false} LinesCount(lines: seq<Typed>)
    requires forall i | 0 <= i < |lines| :: Ended(lines[i])
    ensures Newlines(Concat(lines)) == |lines|
  {
    if lines == [] {
    } else {
      var n := |lines| - 1;
      var last := lines[n];
      LinesCount(lines[..n]);
      NewlinesBoth(Concat(lines[..n]), last);
      NoneCount(last[..|last| - 1]);
    }
  }

  lemma {:induction false} NoneCount(chars: Typed)
    requires NoNewline(chars)
    ensures Newlines(chars) == 0
  {
    if chars == [] {
    } else {
      NoneCount(chars[..|chars| - 1]);
    }
  }

  // ---------------------------------------------------------------------------
  // The generator
  // ---------------------------------------------------------------------------

  /** The parts of a value, each with the newline that ended it. */
  function Terminated(parts: seq<string>): string {
    if parts == [] then "" else Terminated(parts[..|parts| - 1]) + parts[|parts| - 1] + "\n"
  }

  lemma {:induction false} TerminatedFront(parts: seq<string>)
    requires parts != []
    ensures Terminated(parts) == parts[0] + "\n" + Terminated(parts[1..])
  {
    if |parts| > 1 {
      TerminatedFront(parts[..|parts| - 1]);
      assert parts[..|parts| - 1][1..] == parts[1..][..|parts| - 2];
    } else {
      assert parts[..0] == [] && parts[1..] == [];
    }
  }

  lemma {:induction false} TerminatedJoin(parts: seq<string>)
    requires parts != []
    ensures Join(parts, '\n') == Terminated(parts[..|parts| - 1]) + parts[|parts| - 1]
  {
    if |parts| > 1 {
      TerminatedJoin(parts[1..]);
      TerminatedFront(parts[..|parts| - 1]);
      assert parts[..|parts| - 1][1..] == parts[1..][..|parts| - 2];
    }
  }

  lemma TypingBoth(kind: string, a: string, b: string)
    ensures Typing(kind, a + b) == Typing(kind, a) + Typing(kind, b)
  {
  }

  lemma NoNewlineIn(kind: string, value: string)
    ensures NoNewline(Typing(kind, value)) <==> '\n' !in value
  {
    if '\n' in value {
      var i :| 0 <= i < |value| && value[i] == '\n';
      assert Typing(kind, value)[i].1 == '\n';
    }
  }

  ghost predicate AllEnded(lines: seq<seq<Token>>) {
    forall line | line in lines :: EndedLine(line)
  }

  ghost predicate EndedLine(line: seq<Token>) {
    line != [] && Ended(Chars(line)) && line[|line| - 1].value == "\n"
  }

  /** One part of a value and its newline, appended to the line and ending it. */
  lemma EndLine(line: seq<Token>, kind: string, part: string)
    requires NoNewline(Chars(line)) && '\n' !in part
    ensures var ended := line + [Token(kind, part), Token(kind, "\n")];
            Chars(ended) == Chars(line) + Typing(kind, part + "\n") && Ended(Chars(ended))
  {
    var added := [Token(kind, part), Token(kind, "\n")];
    CharsBoth(line, added);
    assert added[..1] == [Token(kind, part)] && added[..1][..0] == [];
    assert Chars(added[..1]) == Typing(kind, part);
    TypingBoth(kind, part, "\n");
    NoNewlineIn(kind, part);
    var chars := Chars(line) + Typing(kind, part + "\n");
    assert chars[..|chars| - 1] == Chars(line) + Typing(kind, part);
  }

  lemma AppendToken(line: seq<Token>, token: Token)
    requires NoNewline(Chars(line)) && '\n' !in token.value
    ensures Chars(line + [token]) == Chars(line) + Typing(token.kind, token.value) && NoNewline(Chars(line + [token]))
  {
    assert (line + [token])[..|line|] == line;
    NoNewlineIn(token.kind, token.value);
  }

  /** What the generator has yielded and collected stands for the text read so far. */
  ghost predicate Reads(lines: seq<seq<Token>>, line: seq<Token>, text: Typed) {
    AllEnded(lines) && NoNewline(Chars(line)) && Chars(Concat(lines)) + Chars(line) == text
  }

  lemma ReadsToken(lines: seq<seq<Token>>, line: seq<Token>, token: Token, text: Typed)
    requires Reads(lines, line, text) && '\n' !in token.value
    ensures Reads(lines, line + [token], text + Typing(token.kind, token.value))
  {
    AppendToken(line, token);
  }

  lemma NothingMore(text: Typed)
    ensures text + Chars([]) == text && NoNewline(Chars([]))
  {
  }

  lemma AppendEnded(lines: seq<seq<Token>>, ended: seq<Token>, text: Typed)
    requires AllEnded(lines) && EndedLine(ended)
    requires Chars(Concat(lines)) + Chars(ended) == text
    ensures Reads(lines + [ended], [], text)
  {
    assert AllEnded(lines + [ended]);
    assert Chars(Concat(lines + [ended])) == text by {
      AppendLine(lines, ended);
    }
    NothingMore(text);
  }

  lemma ReadsLine(lines: seq<seq<Token>>, line: seq<Token>, kind: string, part: string, text: Typed)
    requires Reads(lines, line, text) && '\n' !in part
    ensures Reads(lines + [line + [Token(kind, part), Token(kind, "\n")]], [], text + Typing(kind, part + "\n"))
  {
    EndLine(line, kind, part);
    Associates(Chars(Concat(lines)), Chars(line), Typing(kind, part + "\n"));
    AppendEnded(lines, line + [Token(kind, part), Token(kind, "\n")], text + Typing(kind, part + "\n"));
  }

  lemma Associates(a: Typed, b: Typed, c: Typed)
    ensures a + (b + c) == (a + b) + c
  {
  }

  lemma TypingMore(start: Typed, kind: string, a: string, b: string)
    ensures start + Typing(kind, a + b) == start + Typing(kind, a) + Typing(kind, b)
  {
    TypingBoth(kind, a, b);
    Associates(start, Typing(kind, a), Typing(kind, b));
  }

  lemma TerminatedNext(parts: seq<string>, k: nat)
    requires k < |parts|
    ensures Terminated(parts[..k + 1]) == Terminated(parts[..k]) + (parts[k] + "\n")
  {
    assert parts[..k + 1][..k] == parts[..k];
  }

  lemma AllLines(lines: seq<seq<Token>>, line: seq<Token>)
    requires AllEnded(lines) && NoNewline(Chars(line))
    ensures AreLines(CharsOf(lines + [line]))
  {
    assert forall i | 0 <= i < |lines| :: EndedLine(lines[i]);
  }

  lemma LinesAndNewlines(lines: seq<seq<Token>>, line: seq<Token>)
    requires AllEnded(lines) && NoNewline(Chars(line))
    ensures Newlines(Chars(Concat(lines)) + Chars(line)) == |lines|
  {
    assert forall i | 0 <= i < |lines| :: EndedLine(lines[i]);
    LinesCount(CharsOf(lines));
    ConcatChars(lines);
    NoneCount(Chars(line));
    NewlinesBoth(Chars(Concat(lines)), Chars(line));
  }

  /** After the whole stream. */
  lemma ReadsAll(lines: seq<seq<Token>>, line: seq<Token>, text: Typed)
    requires Reads(lines, line, text)
    ensures var all := lines + [line];
            Concat(CharsOf(all)) == text && AreLines(CharsOf(all)) && |all| == Newlines(text) + 1
  {
    AllLines(lines, line);
    LinesAndNewlines(lines, line);
    AppendLine(lines, line);
    ConcatChars(lines + [line]);
  }

  method Lines(stream: seq<Token>) returns (lines: seq<seq<Token>>)
    ensures Concat(CharsOf(lines)) == Chars(stream)
    ensures stream == [] ==> lines == []
    ensures stream != [] ==> AreLines(CharsOf(lines)) && |lines| == Newlines(Chars(stream)) + 1
    ensures forall i | 0 <= i < |lines| :: lines[i] != []
    ensures forall i | 0 <= i < |lines| - 1 :: lines[i][|lines[i]| - 1].value == "\n"
  {
    lines := [];
    var line: seq<Token> := [];
    for i := 0 to |stream|
      invariant Reads(lines, line, Chars(stream[..i])) && (line == [] <==> i == 0)
      invariant i == 0 ==> lines == []
    {
      var kind, value := stream[i].kind, stream[i].value;
      ghost var start := Chars(stream[..i]);
      assert Chars(stream[..i + 1]) == start + Typing(kind, value) by {
        assert stream[..i + 1][..i] == stream[..i];
      }
      if '\n' in value {
        ghost var before := "";
        lines, line, value, before := SplitValue(lines, line, kind, value, start);
        TypingMore(start, kind, before, value);
        ReadsToken(lines, line, Token(kind, value), start + Typing(kind, before));
      } else {
        ReadsToken(lines, line, Token(kind, value), start);
      }
      line := line + [Token(kind, value)];
    }
    assert stream[..|stream|] == stream;
    if line != [] {
      ReadsAll(lines, line, Chars(stream));
      assert forall i | 0 <= i < |lines| :: EndedLine(lines[i]);
      lines := lines + [line];
    }
  }

  /** The inner loop: what a value with newlines adds to the lines, and what it leaves for the next line. */
  method SplitValue(lines: seq<seq<Token>>, line: seq<Token>, kind: string, value: string, ghost start: Typed)
    returns (lines': seq<seq<Token>>, line': seq<Token>, rest: string, ghost before: string)
    requires Reads(lines, line, start)
    ensures value == before + rest && '\n' !in rest
    ensures Reads(lines', line', start + Typing(kind, before))
  {
    lines', line', before := lines, line, "";
    assert start + Typing(kind, "") == start;
    var parts := Split(value, '\n');
    rest := parts[|parts| - 1];
    parts := parts[..|parts| - 1];
    for k := 0 to |parts|
      invariant before == Terminated(parts[..k]) && Reads(lines', line', start + Typing(kind, before))
    {
      ReadsLine(lines', line', kind, parts[k], start + Typing(kind, before));
      TypingMore(start, kind, before, parts[k] + "\n");
      TerminatedNext(parts, k);
      before := before + (parts[k] + "\n");
      line' := line' + [Token(kind, parts[k]), Token(kind, "\n")];
      lines' := lines' + [line'];
      line' := [];
    }
    assert parts[..|parts|] == parts;
    JoinSplit(value, '\n');
    TerminatedJoin(Split(value, '\n'));
  }

  lemma AppendLine(lines: seq<seq<Token>>, line: seq<Token>)
    ensures Chars(Concat(lines + [line])) == Chars(Concat(lines)) + Chars(line)
  {
    assert (lines + [line])[..|lines|] == lines;
    CharsBoth(Concat(lines), line);
  }

  /** The prefix before each of the lines. */
  function Prefixed(prefix: seq<Token>, lines: seq<seq<Token>>): seq<Token> {
    if lines == [] then [] else Prefixed(prefix, lines[..|lines| - 1]) + prefix + lines[|lines| - 1]
  }

  /** The output, and the lines it was made from. */
  method Filter(prefix: Prefix, stream: seq<Token>) returns (output: seq<Token>, lines: seq<seq<Token>>)
    ensures output == Prefixed(match prefix case Text(s) => [Token("Generic", s)] case Tokens(ts) => ts, lines)
    ensures Concat(CharsOf(lines)) == Chars(stream)
    ensures stream == [] ==> lines == []
    ensures stream != [] ==> AreLines(CharsOf(lines)) && |lines| == Newlines(Chars(stream)) + 1
  {
    var start := [];
    match prefix {
      case Text(s) => start := [Token("Generic", s)];
      case Tokens(ts) => start := ts;
    }
    lines := Lines(stream);
    output := [];
    for i := 0 to |lines|
      invariant output == Prefixed(start, lines[..i])
    {
      assert lines[..i + 1][..i] == lines[..i];
      output := output + start + lines[i];
    }
    assert lines[..|lines|] == lines;
  }
}

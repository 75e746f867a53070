/** Python's operations on strings that the transformations below rest on. */
module Strings {

  /** str.replace: every leftmost, non-overlapping occurrence. */
  function Replace(text: string, old_: string, new_: string): string
    requires old_ != ""
    decreases |text|
  {
    if text == "" then ""
    else if old_ <= text then new_ + Replace(text[|old_|..], old_, new_)
    else [text[0]] + Replace(text[1..], old_, new_)
  }

  /** No occurrence starts within the piece. */
  ghost predicate Clear(piece: string, rest: string, pattern: string) {
    forall i | 0 <= i < |piece| :: !(pattern <= (piece + rest)[i..])
  }

  lemma {:induction false} ReplaceSkips(piece: string, rest: string, old_: string, new_: string)
    requires old_ != "" && Clear(piece, rest, old_)
    ensures Replace(piece + rest, old_, new_) == piece + Replace(rest, old_, new_)
  {
    if piece == "" {
      assert piece + rest == rest;
    } else {
      var text := piece + rest;
      assert text[0..] == text && text[1..] == piece[1..] + rest;
      forall i | 0 <= i < |piece[1..]| ensures !(old_ <= (piece[1..] + rest)[i..]) {
        assert (piece[1..] + rest)[i..] == text[i + 1..];
      }
      ReplaceSkips(piece[1..], rest, old_, new_);
      assert piece == [piece[0]] + piece[1..];
    }
  }

  lemma ReplaceHits(rest: string, old_: string, new_: string)
    requires old_ != ""
    ensures Replace(old_ + rest, old_, new_) == new_ + Replace(rest, old_, new_)
  {
    assert old_ <= old_ + rest && (old_ + rest)[|old_|..] == rest;
  }

  /** The order of strings, by code point. */
  predicate Less(a: string, b: string) {
    b != "" && (a == "" || a[0] < b[0] || (a[0] == b[0] && Less(a[1..], b[1..])))
  }

  /** The first `n` characters agree, and there `a` ends or has the smaller character. */
  predicate FirstDiffers(a: string, b: string, n: nat) {
    n <= |a| && n < |b| && a[..n] == b[..n] && (n == |a| || a[n] as int < b[n] as int)
  }

  /** That is the order by code point: what decides is the first place where the strings differ. */
  lemma {:induction false} LessIff(a: string, b: string)
    ensures Less(a, b) <==> exists n: nat :: FirstDiffers(a, b, n)
  {
    forall n: nat | FirstDiffers(a, b, n) && n > 0 ensures a[0] == b[0] {
      assert a[..n][0] == b[..n][0];
    }
    if b != "" && (a == "" || a[0] != b[0]) {
      assert Less(a, b) ==> FirstDiffers(a, b, 0);
    } else if b != "" {
      LessIff(a[1..], b[1..]);
      if Less(a, b) {
        var n: nat :| FirstDiffers(a[1..], b[1..], n);
        assert a[..n + 1] == [a[0]] + a[1..][..n] && b[..n + 1] == [b[0]] + b[1..][..n];
        assert FirstDiffers(a, b, n + 1);
      }
      if exists n: nat :: FirstDiffers(a, b, n) {
        var n: nat :| FirstDiffers(a, b, n);
        assert n > 0 && a[1..][..n - 1] == a[..n][1..] && b[1..][..n - 1] == b[..n][1..];
        assert FirstDiffers(a[1..], b[1..], n - 1);
      }
    }
  }

  lemma {:induction false} LessIsStrict(a: string)
    ensures !Less(a, a)
  {
    if a != "" {
      LessIsStrict(a[1..]);
    }
  }

  lemma {:induction false} LessIsTransitive(a: string, b: string, c: string)
    requires Less(a, b) && Less(b, c)
    ensures Less(a, c)
  {
    if a != "" && a[0] == b[0] == c[0] {
      LessIsTransitive(a[1..], b[1..], c[1..]);
    }
  }

  lemma {:induction false} LessIsTotal(a: string, b: string)
    ensures Less(a, b) || a == b || Less(b, a)
  {
    if a != "" && b != "" && a[0] == b[0] {
      LessIsTotal(a[1..], b[1..]);
      assert a == [a[0]] + a[1..] && b == [b[0]] + b[1..];
    }
  }

  /** str.split with a one-character separator. */
  function Split(s: string, separator: char): (parts: seq<string>)
    ensures parts != [] && forall p | p in parts :: separator !in p
  {
    if s == "" then [""]
    else
      var more := Split(s[1..], separator);
      if s[0] == separator then [""] + more else [[s[0]] + more[0]] + more[1..]
  }

  function Join(parts: seq<string>, separator: char): string {
    if parts == [] then ""
    else if |parts| == 1 then parts[0]
    else parts[0] + [separator] + Join(parts[1..], separator)
  }

  lemma {:induction false} JoinSplit(s: string, separator: char)
    ensures Join(Split(s, separator), separator) == s
  {
    if s == "" {
    } else {
      var more := Split(s[1..], separator);
      JoinSplit(s[1..], separator);
      if s[0] == separator {
        assert Split(s, separator)[1..] == more;
      } else {
        assert |more| > 1 ==> Split(s, separator)[1..] == more[1..];
      }
      assert s == [s[0]] + s[1..];
    }
  }

  lemma {:induction false} SplitJoin(parts: seq<string>, separator: char)
    requires parts != [] && forall p | p in parts :: separator !in p
    ensures Split(Join(parts, separator), separator) == parts
    decreases |parts|, |parts[0]|
  {
    var s := Join(parts, separator);
    if parts[0] == "" {
      if |parts| > 1 {
        SplitJoin(parts[1..], separator);
        assert s[1..] == Join(parts[1..], separator);
      }
    } else {
      var shorter := [parts[0][1..]] + parts[1..];
      assert forall p | p in shorter :: separator !in p by {
        assert parts[0] in parts;
      }
      SplitJoin(shorter, separator);
      assert shorter[1..] == parts[1..];
      assert s[1..] == Join(shorter, separator);
      assert s[0] == parts[0][0] && s[0] in parts[0];
      assert parts[0] == [s[0]] + parts[0][1..] && parts == [parts[0]] + parts[1..];
    }
  }
}

/**
 * The two JavaScript string operations the chat client relies on:
 * `String.prototype.split` with a one-character separator and
 * `String.prototype.trim`.
 */
module Text {

  /** ECMAScript WhiteSpace and LineTerminator code points: what `trim()` removes. */
  predicate IsWhitespace(c: char) {
    if c <= '\U{00A0}' then
      ('\U{0009}' <= c <= '\U{000D}') || c == '\U{0020}' || c == '\U{00A0}'
    else
      c == '\U{1680}' || ('\U{2000}' <= c <= '\U{200A}') || ('\U{2028}' <= c <= '\U{2029}') ||
      c == '\U{202F}' || c == '\U{205F}' || c == '\U{3000}' || c == '\U{FEFF}'
  }

  /** A string made of whitespace only (the empty string included). */
  predicate IsBlank(s: string) {
    forall i :: 0 <= i < |s| ==> IsWhitespace(s[i])
  }

  /** Leading whitespace removed: the longest blank prefix goes, nothing else. */
  function TrimStart(s: string): (r: string)
    ensures |r| <= |s| && r == s[|s| - |r|..]
    ensures IsBlank(s[..|s| - |r|])
    ensures r == [] || !IsWhitespace(r[0])
  {
    if s == [] || !IsWhitespace(s[0]) then s
    else
      TrimStart(s[1..])
  }

  /** Trailing whitespace removed: the longest blank suffix goes, nothing else. */
  function TrimEnd(s: string): (r: string)
    ensures |r| <= |s| && r == s[..|r|]
    ensures IsBlank(s[|r|..])
    ensures r == [] || !IsWhitespace(r[|r| - 1])
  {
    if s == [] || !IsWhitespace(s[|s| - 1]) then s
    else
      TrimEnd(s[..|s| - 1])
  }

  /** `s.trim()`: `s` with both its leading and its trailing whitespace removed. */
  function Trim(s: string): (r: string)
  {
    TrimEnd(TrimStart(s))
  }

  /**
   * What `trim()` returns, characterised: a slice of `s` that neither starts nor
   * ends with whitespace, with only whitespace cut away on either side.
   */
  lemma TrimIsSlice(s: string)
    ensures exists i, j :: 0 <= i <= j <= |s| && Trim(s) == s[i..j]
                           && IsBlank(s[..i]) && IsBlank(s[j..])
  {
    var t := TrimStart(s);
    var i := |s| - |t|;
    var r := TrimEnd(t);
    var j := i + |r|;
    assert r == s[i..j] by {
      assert r == t[..|r|] && t == s[i..];
    }
    assert t[|r|..] == s[j..];
  }

  /** Neither end of a trimmed text is whitespace. */
  lemma TrimEnds(s: string)
    ensures Trim(s) == [] || (!IsWhitespace(Trim(s)[0]) && !IsWhitespace(Trim(s)[|Trim(s)| - 1]))
  {
    var t := TrimStart(s);
    var r := TrimEnd(t);
    if r != [] {
      assert r[0] == t[0];
    }
  }

  /** `s.trim() !== ""` exactly when `s` holds a non-whitespace character. */
  lemma TrimEmptyIffBlank(s: string)
    ensures Trim(s) == [] <==> IsBlank(s)
  {
    var t := TrimStart(s);
    var n := |s| - |t|;
    assert t[0..] == t;
    if t == [] {
      assert s[..n] == s;
    } else {
      assert s[n] == t[0];
    }
  }

  /** Trimming twice is trimming once. */
  lemma TrimIdempotent(s: string)
    ensures Trim(Trim(s)) == Trim(s)
  {
    var r := Trim(s);
    TrimEnds(s);
    if r != [] {
      assert TrimStart(r) == r;
    }
  }

  /**
   * `s.split(sep)` for a one-character separator: the maximal separator-free
   * pieces between separators, in order. There is always at least one piece,
   * and `""` splits to `[""]`.
   */
  function Split(s: string, sep: char): (r: seq<string>)
    ensures |r| >= 1
  {
    SplitFrom(s, sep, 0, 0)
  }

  /** The pieces of `s[start..]`, with `s[start..i]` already scanned and free of `sep`. */
  function SplitFrom(s: string, sep: char, start: nat, i: nat): (r: seq<string>)
    requires start <= i <= |s|
    ensures |r| >= 1
    decreases |s| - i
  {
    if i == |s| then [s[start..]]
    else if s[i] == sep then [s[start..i]] + SplitFrom(s, sep, i + 1, i + 1)
    else SplitFrom(s, sep, start, i + 1)
  }

  /** `parts.join(sep)`, the inverse of `Split`. */
  function Join(parts: seq<string>, sep: char): string
  {
    if parts == [] then []
    else if |parts| == 1 then parts[0]
    else parts[0] + [sep] + Join(parts[1..], sep)
  }

  /** Every piece of the scan from `start` is separator-free, and the pieces join back to `s[start..]`. */
  lemma {:induction false} SplitFromPieces(s: string, sep: char, start: nat, i: nat)
    requires start <= i <= |s|
    requires sep !in s[start..i]
    ensures forall k :: 0 <= k < |SplitFrom(s, sep, start, i)| ==> sep !in SplitFrom(s, sep, start, i)[k]
    ensures Join(SplitFrom(s, sep, start, i), sep) == s[start..]
    decreases |s| - i
  {
    if i < |s| {
      if s[i] == sep {
        SplitFromPieces(s, sep, i + 1, i + 1);
        assert s[start..] == s[start..i] + [sep] + s[i + 1..];
        var r := SplitFrom(s, sep, start, i);
        assert r[1..] == SplitFrom(s, sep, i + 1, i + 1);
      } else {
        assert s[start..i + 1] == s[start..i] + [s[i]];
        SplitFromPieces(s, sep, start, i + 1);
      }
    }
  }

  /** No piece of a split contains the separator. */
  lemma SplitPieces(s: string, sep: char)
    ensures forall k :: 0 <= k < |Split(s, sep)| ==> sep !in Split(s, sep)[k]
  {
    SplitFromPieces(s, sep, 0, 0);
  }

  /** Splitting loses nothing: joining the pieces back gives the original string. */
  lemma JoinSplit(s: string, sep: char)
    ensures Join(Split(s, sep), sep) == s
  {
    SplitFromPieces(s, sep, 0, 0);
    assert s[0..] == s;
  }

  /** Scanning over separator-free characters does not change the pieces. */
  lemma {:induction false} SplitFromScan(s: string, sep: char, start: nat, i: nat, j: nat)
    requires start <= i <= j <= |s|
    requires sep !in s[i..j]
    ensures SplitFrom(s, sep, start, i) == SplitFrom(s, sep, start, j)
    decreases j - i
  {
    if i < j {
      assert s[i] == s[i..j][0];
      assert s[i + 1..j] == s[i..j][1..];
      SplitFromScan(s, sep, start, i + 1, j);
    }
  }

  /** The pieces of a suffix do not depend on what precedes it. */
  lemma {:induction false} SplitFromShift(pre: string, t: string, sep: char, a: nat, b: nat)
    requires a <= b <= |t|
    ensures SplitFrom(pre + t, sep, |pre| + a, |pre| + b) == SplitFrom(t, sep, a, b)
    decreases |t| - b
  {
    var w := pre + t;
    if b == |t| {
      assert w[|pre| + a..] == t[a..];
    } else {
      assert w[|pre| + b] == t[b];
      if t[b] == sep {
        assert w[|pre| + a..|pre| + b] == t[a..b];
        SplitFromShift(pre, t, sep, b + 1, b + 1);
      } else {
        SplitFromShift(pre, t, sep, a, b + 1);
      }
    }
  }

  /** A string without the separator is its own only piece. */
  lemma SplitNoSeparator(s: string, sep: char)
    requires sep !in s
    ensures Split(s, sep) == [s]
  {
    assert s[0..|s|] == s;
    SplitFromScan(s, sep, 0, 0, |s|);
  }

  /** A separator-free piece followed by the separator splits off as the first piece. */
  lemma SplitAfterPiece(p: string, t: string, sep: char)
    requires sep !in p
    ensures Split(p + [sep] + t, sep) == [p] + Split(t, sep)
  {
    var w := p + [sep] + t;
    assert w[0..|p|] == p;
    SplitFromScan(w, sep, 0, 0, |p|);
    assert w[|p|] == sep;
    assert w == (p + [sep]) + t;
    SplitFromShift(p + [sep], t, sep, 0, 0);
  }

  /** Joining separator-free pieces and splitting again gives back the pieces. */
  lemma {:induction false} SplitJoin(parts: seq<string>, sep: char)
    requires |parts| >= 1
    requires forall k :: 0 <= k < |parts| ==> sep !in parts[k]
    ensures Split(Join(parts, sep), sep) == parts
  {
    if |parts| == 1 {
      SplitNoSeparator(parts[0], sep);
    } else {
      SplitJoin(parts[1..], sep);
      SplitAfterPiece(parts[0], Join(parts[1..], sep), sep);
    }
  }
}

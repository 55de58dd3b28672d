/** The parts of java.lang.String the task core relies on: `trim`, `isBlank`
    and `split` with a one-character separator. */
module JavaLang {

  /** The characters `String.trim` removes: every char up to U+0020. The model
      uses this set for `String.isBlank` too, whereas Java's `isBlank` tests
      `Character.isWhitespace`, a different set: U+0001 is removed by `trim`
      but is not whitespace, and U+2003 is whitespace but `trim` keeps it. */
  predicate IsSpace(c: char) {
    c <= ' '
  }

  /** `String.isBlank`: empty, or whitespace only. */
  predicate IsBlank(s: string) {
    forall i :: 0 <= i < |s| ==> IsSpace(s[i])
  }

  /** Drops the leading whitespace of `s`. */
  function TrimStart(s: string): (r: string)
    ensures |r| <= |s| && r == s[|s| - |r|..]
    ensures r == [] || !IsSpace(r[0])
    ensures IsBlank(s[..|s| - |r|])
  {
    if s != [] && IsSpace(s[0]) then TrimStart(s[1..]) else s
  }

  /** Drops the trailing whitespace of `s`. */
  function TrimEnd(s: string): (r: string)
    ensures |r| <= |s| && r == s[..|r|]
    ensures r == [] || !IsSpace(r[|r| - 1])
    ensures IsBlank(s[|r|..])
  {
    if s != [] && IsSpace(s[|s| - 1]) then
      var r := TrimEnd(s[..|s| - 1]);
      assert s[|r|..] == s[..|s| - 1][|r|..] + [s[|s| - 1]];
      r
    else s
  }

  /** `String.trim`. */
  function Trim(s: string): string {
    TrimEnd(TrimStart(s))
  }

  /** Where `trim`'s result sits in `s`: after the leading whitespace. */
  function TrimOffset(s: string): nat
    ensures TrimOffset(s) + |Trim(s)| <= |s|
  {
    |s| - |TrimStart(s)|
  }

  /** `trim`'s result has no whitespace at either end. */
  lemma TrimEnds(s: string)
    ensures Trim(s) == [] || (!IsSpace(Trim(s)[0]) && !IsSpace(Trim(s)[|Trim(s)| - 1]))
  {
    var u := TrimStart(s);
    var t := TrimEnd(u);
    if t != [] {
      assert t[0] == u[0];
    }
  }

  /** `trim` cuts `s` into blank edges around a result with no whitespace at
      either end: the result is the slice of `s` at `TrimOffset(s)`, and what
      lies before and after it is blank. */
  lemma TrimShape(s: string)
    ensures var i, t := TrimOffset(s), Trim(s);
      i + |t| <= |s| && t == s[i..i + |t|] && IsBlank(s[..i]) && IsBlank(s[i + |t|..])
    ensures Trim(s) == [] || (!IsSpace(Trim(s)[0]) && !IsSpace(Trim(s)[|Trim(s)| - 1]))
  {
    EdgesAround(s, TrimStart(s), TrimOffset(s), Trim(s));
    TrimEnds(s);
  }

  /** The sequence reasoning behind `TrimShape`, for any `u` that is a suffix
      of `s` after a blank prefix of length `i` and any `t` that is a prefix of
      `u` before a blank suffix. */
  lemma EdgesAround(s: string, u: string, i: nat, t: string)
    requires i + |u| == |s| && u == s[i..] && IsBlank(s[..i])
    requires |t| <= |u| && t == u[..|t|] && IsBlank(u[|t|..])
    ensures i + |t| <= |s| && t == s[i..i + |t|] && IsBlank(s[..i]) && IsBlank(s[i + |t|..])
  {
    SliceOfSuffix(s, i, |t|);
  }

  /** Slices of the suffix `s[i..]` are slices of `s`. */
  lemma SliceOfSuffix(s: string, i: nat, k: nat)
    requires i + k <= |s|
    ensures s[i..][..k] == s[i..i + k] && s[i..][k..] == s[i + k..]
  {
  }

  /** A string is its three consecutive slices. */
  lemma Reassemble(s: string, i: nat, j: nat)
    requires i <= j <= |s|
    ensures s == s[..i] + s[i..j] + s[j..]
  {
    assert s[..j] == s[..i] + s[i..j];
  }

  /** A string is blank exactly when trimming empties it. */
  lemma BlankIffTrimEmpty(s: string)
    ensures IsBlank(s) <==> Trim(s) == []
  {
    TrimShape(s);
    var u := TrimStart(s);
    var i := TrimOffset(s);
    if Trim(s) == [] {
      assert IsBlank(u[0..]);
      assert u == [];
      assert s[..i] == s;
    } else {
      assert s[i] == Trim(s)[0];
    }
  }

  /** Trimming twice is trimming once. */
  lemma TrimIdempotent(s: string)
    ensures Trim(Trim(s)) == Trim(s)
  {
    TrimShape(s);
    var t := Trim(s);
    assert TrimStart(t) == t;
    assert TrimEnd(t) == t;
  }

  /** Each non-space character of `s` survives `trim`. */
  lemma TrimKeepsContent(s: string, k: nat)
    requires k < |s| && !IsSpace(s[k])
    ensures var i := TrimOffset(s); i <= k < i + |Trim(s)| && Trim(s)[k - i] == s[k]
  {
    TrimShape(s);
    var t := Trim(s);
    var i := TrimOffset(s);
    BlankPrefixChar(s, i, k);
    BlankSuffixChar(s, i + |t|, k);
    var u := TrimStart(s);
    assert t == u[..|t|] && u == s[i..];
    assert t[k - i] == s[i..][k - i];
  }

  /** A character inside a blank prefix is whitespace. */
  lemma BlankPrefixChar(s: string, i: nat, k: nat)
    requires i <= |s| && k < |s| && IsBlank(s[..i])
    ensures k < i ==> IsSpace(s[k])
  {
    if k < i {
      assert s[..i][k] == s[k];
    }
  }

  /** A character inside a blank suffix is whitespace. */
  lemma BlankSuffixChar(s: string, j: nat, k: nat)
    requires j <= |s| && k < |s| && IsBlank(s[j..])
    ensures j <= k ==> IsSpace(s[k])
  {
    if j <= k {
      assert s[j..][k - j] == s[k];
    }
  }

  /** Leading whitespace makes no difference to `TrimStart`. */
  lemma {:induction false} TrimStartBlankPrefix(b: string, x: string)
    requires IsBlank(b)
    ensures TrimStart(b + x) == TrimStart(x)
  {
    if b != [] {
      assert (b + x)[1..] == b[1..] + x;
      TrimStartBlankPrefix(b[1..], x);
    } else {
      assert b + x == x;
    }
  }

  /** Trailing whitespace makes no difference to `TrimEnd`. */
  lemma {:induction false} TrimEndBlankSuffix(x: string, b: string)
    requires IsBlank(b)
    ensures TrimEnd(x + b) == TrimEnd(x)
  {
    if b != [] {
      assert (x + b)[..|x + b| - 1] == x + b[..|b| - 1];
      TrimEndBlankSuffix(x, b[..|b| - 1]);
    } else {
      assert x + b == x;
    }
  }

  /** A string with no whitespace at either end is its own trim, and not blank. */
  lemma TrimOfClean(s: string)
    requires s != [] && !IsSpace(s[0]) && !IsSpace(s[|s| - 1])
    ensures Trim(s) == s && !IsBlank(s)
  {
  }

  /** Whitespace around a string with no whitespace at either end is what `trim` removes. */
  lemma TrimPadded(a: string, w: string, b: string)
    requires IsBlank(a) && IsBlank(b)
    requires w != [] && !IsSpace(w[0]) && !IsSpace(w[|w| - 1])
    ensures Trim(a + w + b) == w && !IsBlank(a + w + b)
  {
    assert a + w + b == a + (w + b);
    TrimStartBlankPrefix(a, w + b);
    assert (w + b)[0] == w[0];
    assert TrimStart(w + b) == w + b;
    TrimEndBlankSuffix(w, b);
    assert TrimEnd(w) == w;
    BlankIffTrimEmpty(a + w + b);
  }

  /** Every piece of `s` between separators, empty ones included; there is one
      more piece than there are separators. */
  function Pieces(s: string, sep: char): (r: seq<string>)
    ensures |r| >= 1
    ensures forall i :: 0 <= i < |r| ==> sep !in r[i]
  {
    if s == [] then [[]]
    else
      var rest := Pieces(s[1..], sep);
      if s[0] == sep then [[]] + rest
      else [[s[0]] + rest[0]] + rest[1..]
  }

  /** Glues the pieces back together with the separator between them. */
  function Join(parts: seq<string>, sep: char): string {
    if parts == [] then []
    else if |parts| == 1 then parts[0]
    else parts[0] + [sep] + Join(parts[1..], sep)
  }

  /** Drops the empty strings at the end of `parts`. */
  function DropTrailingEmpty(parts: seq<string>): (r: seq<string>)
    ensures |r| <= |parts| && r == parts[..|r|]
    ensures r == [] || r[|r| - 1] != []
    ensures forall i :: |r| <= i < |parts| ==> parts[i] == []
  {
    if parts != [] && parts[|parts| - 1] == [] then DropTrailingEmpty(parts[..|parts| - 1])
    else parts
  }

  /** `String.split` with a one-character regular expression and limit 0: with
      no separator the string itself is the one element (so `""` gives `[""]`);
      otherwise the pieces, interior empty ones kept and trailing empty ones dropped. */
  function Split(s: string, sep: char): (r: seq<string>)
    ensures forall i :: 0 <= i < |r| ==> sep !in r[i]
  {
    if sep !in s then [s] else DropTrailingEmpty(Pieces(s, sep))
  }

  /** Joining the pieces gives back the original string. */
  lemma {:induction false} JoinPieces(s: string, sep: char)
    ensures Join(Pieces(s, sep), sep) == s
  {
    if s != [] {
      var rest := Pieces(s[1..], sep);
      JoinPieces(s[1..], sep);
      if s[0] == sep {
        assert Pieces(s, sep) == [[]] + rest;
        assert s == [] + [sep] + s[1..];
      } else {
        if |rest| > 1 {
          assert rest == [rest[0]] + rest[1..];
          assert Join(rest, sep) == rest[0] + [sep] + Join(rest[1..], sep);
          assert s == [s[0]] + s[1..];
        } else {
          assert s == [s[0]] + s[1..];
        }
      }
    }
  }

  /** The last piece is empty exactly when `s` is empty or ends with the separator. */
  lemma {:induction false} LastPieceEmpty(s: string, sep: char)
    ensures var p := Pieces(s, sep); p[|p| - 1] == [] <==> (s == [] || s[|s| - 1] == sep)
  {
    if s != [] {
      var rest := Pieces(s[1..], sep);
      LastPieceEmpty(s[1..], sep);
      if s[0] != sep && |rest| == 1 {
        if s[1..] != [] {
          assert s[|s| - 1] == s[1..][|s[1..]| - 1];
        }
      } else if |s| > 1 {
        assert s[|s| - 1] == s[1..][|s[1..]| - 1];
      }
    }
  }

  /** A string with no separator is its own single segment. */
  lemma SplitWithoutSeparator(s: string, sep: char)
    requires sep !in s
    ensures Split(s, sep) == [s]
  {
  }

  /** More than one segment means the separator occurs. */
  lemma SplitCountNeedsSeparator(s: string, sep: char)
    ensures |Split(s, sep)| > 1 ==> sep in s
  {
    if sep !in s {
      SplitWithoutSeparator(s, sep);
    }
  }

  /** Split undoes Join when nothing is dropped: for a non-empty string that does
      not end with the separator, joining the segments gives the string back. */
  lemma SplitRoundTrip(s: string, sep: char)
    requires s != [] && s[|s| - 1] != sep
    ensures Join(Split(s, sep), sep) == s
  {
    JoinPieces(s, sep);
    if sep in s {
      LastPieceEmpty(s, sep);
      assert DropTrailingEmpty(Pieces(s, sep)) == Pieces(s, sep);
    }
  }

  /** Every piece of a string made only of separators is empty. */
  lemma {:induction false} PiecesOfSeparators(s: string, sep: char)
    requires forall i :: 0 <= i < |s| ==> s[i] == sep
    ensures forall i :: 0 <= i < |Pieces(s, sep)| ==> Pieces(s, sep)[i] == []
  {
    if s != [] {
      PiecesOfSeparators(s[1..], sep);
    }
  }

  /** A non-empty string of separators only splits into no segment at all. */
  lemma SplitOfSeparatorsOnly(s: string, sep: char)
    requires s != [] && forall i :: 0 <= i < |s| ==> s[i] == sep
    ensures Split(s, sep) == []
  {
    assert s[0] == sep;
    PiecesOfSeparators(s, sep);
  }

  /** Two non-empty separator-free parts around one separator split into those two parts. */
  lemma SplitTwoParts(a: string, b: string, sep: char)
    requires a != [] && b != [] && sep !in a && sep !in b
    ensures Split(a + [sep] + b, sep) == [a, b]
  {
    var s := a + [sep] + b;
    assert s[|a|] == sep;
    PiecesAround(a, b, sep);
    LastPieceEmpty(s, sep);
    assert s[|s| - 1] == b[|b| - 1];
  }

  /** The pieces of `a + [sep] + rest` when `a` has no separator. */
  lemma {:induction false} PiecesAround(a: string, b: string, sep: char)
    requires sep !in a && sep !in b
    ensures Pieces(a + [sep] + b, sep) == [a, b]
  {
    if a == [] {
      assert a + [sep] + b == [sep] + b;
      assert ([sep] + b)[1..] == b;
      PiecesNoSeparator(b, sep);
    } else {
      PiecesAround(a[1..], b, sep);
      assert (a + [sep] + b)[1..] == a[1..] + [sep] + b;
      assert [a[0]] + a[1..] == a;
    }
  }

  /** The only piece of a separator-free string is the string itself. */
  lemma {:induction false} PiecesNoSeparator(s: string, sep: char)
    requires sep !in s
    ensures Pieces(s, sep) == [s]
  {
    if s != [] {
      assert sep !in s[1..] by {
        forall i | 0 <= i < |s[1..]| ensures s[1..][i] != sep {
          assert s[1..][i] == s[i + 1];
        }
      }
      PiecesNoSeparator(s[1..], sep);
      assert [s[0]] + s[1..] == s;
    }
  }
}

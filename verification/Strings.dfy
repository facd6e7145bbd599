/** String helpers with the meaning of Rust's `split`, `strip_prefix` and `strip_suffix`. */
module Strings {

  /** The pieces of `s` between occurrences of `sep`; always at least one piece. */
  function Split(s: string, sep: char): (pieces: seq<string>)
    ensures |pieces| >= 1
    ensures forall i | 0 <= i < |pieces| :: sep !in pieces[i]
  {
    if |s| == 0 then [""]
    else
      var rest := Split(s[1..], sep);
      if s[0] == sep then [""] + rest
      else [[s[0]] + rest[0]] + rest[1..]
  }

  /** Appending one separated piece appends one piece to the split. */
  lemma {:induction false} SplitAppend(s: string, sep: char, piece: string)
    requires sep !in piece
    ensures Split(s + [sep] + piece, sep) == Split(s, sep) + [piece]
  {
    if |s| == 0 {
      SplitWithout(piece, sep);
      assert (s + [sep] + piece)[1..] == piece;
    } else {
      SplitAppend(s[1..], sep, piece);
      assert (s + [sep] + piece)[1..] == s[1..] + [sep] + piece;
    }
  }

  /** A stretch between separators, or between one and an end of the string. */
  predicate SegmentAt(s: string, sep: char, i: nat, j: nat) {
    && i <= j <= |s| && (i == 0 || s[i - 1] == sep) && (j == |s| || s[j] == sep)
    && forall k | i <= k < j :: s[k] != sep
  }

  /** The pieces of a split are the segments of the string. */
  lemma {:induction false} PieceIsSegment(s: string, sep: char, k: nat) returns (i: nat, j: nat)
    requires k < |Split(s, sep)|
    ensures SegmentAt(s, sep, i, j) && s[i..j] == Split(s, sep)[k] && (i == 0 <==> k == 0)
  {
    if |s| == 0 || (s[0] == sep && k == 0) {
      i, j := 0, 0;
    } else {
      i, j := PieceIsSegment(s[1..], sep, if s[0] == sep then k - 1 else k);
      var tail := s[1..];
      assert forall m | 0 <= m < |tail| :: tail[m] == s[m + 1];
      if s[0] == sep || k > 0 {
        assert s[i + 1..j + 1] == tail[i..j];
        i, j := i + 1, j + 1;
      } else {
        assert s[..j + 1] == [s[0]] + tail[..j];
        j := j + 1;
      }
    }
  }

  lemma {:induction false} SegmentIsPiece(s: string, sep: char, i: nat, j: nat) returns (k: nat)
    requires SegmentAt(s, sep, i, j)
    ensures k < |Split(s, sep)| && s[i..j] == Split(s, sep)[k] && (i == 0 <==> k == 0)
    decreases |s|
  {
    if |s| == 0 || (s[0] == sep && i == 0) {
      k := 0;
    } else {
      var tail := s[1..];
      assert forall m | 0 <= m < |tail| :: tail[m] == s[m + 1];
      if i == 0 {
        k := SegmentIsPiece(tail, sep, 0, j - 1);
        assert s[..j] == [s[0]] + tail[..j - 1];
      } else {
        k := SegmentIsPiece(tail, sep, i - 1, j - 1);
        assert s[i..j] == tail[i - 1..j - 1];
        k := if s[0] == sep then k + 1 else k;
      }
    }
  }

  /** Every position lies in a segment, or just behind it. */
  lemma SegmentAround(s: string, sep: char, p: nat) returns (i: nat, j: nat)
    requires p <= |s|
    ensures SegmentAt(s, sep, i, j) && i <= p <= j
  {
    i, j := p, p;
    while i > 0 && s[i - 1] != sep
      invariant i <= p && forall k | i <= k < p :: s[k] != sep
    {
      i := i - 1;
    }
    while j < |s| && s[j] != sep
      invariant p <= j <= |s| && forall k | i <= k < j :: s[k] != sep
    {
      j := j + 1;
    }
  }

  predicate Run(s: string, inner: char -> bool, edge: char -> bool) {
    s != "" && edge(s[0]) && edge(s[|s| - 1]) && forall i | 0 <= i < |s| :: inner(s[i])
  }

  predicate AllRun(pieces: seq<string>, inner: char -> bool, edge: char -> bool) {
    forall k | 0 <= k < |pieces| :: Run(pieces[k], inner, edge)
  }

  /** Over the characters: runs of inner characters between single separators, with an edge character at both ends of each. */
  predicate Separated(s: string, sep: char, inner: char -> bool, edge: char -> bool) {
    && s != "" && edge(s[0]) && edge(s[|s| - 1])
    && (forall i | 0 <= i < |s| :: s[i] == sep || inner(s[i]))
    && forall i | 0 < i < |s| - 1 && s[i] == sep :: edge(s[i - 1]) && edge(s[i + 1])
  }

  lemma SeparatedIff(s: string, sep: char, inner: char -> bool, edge: char -> bool)
    requires !edge(sep)
    ensures Separated(s, sep, inner, edge) <==> AllRun(Split(s, sep), inner, edge)
  {
    if Separated(s, sep, inner, edge) {
      forall k | 0 <= k < |Split(s, sep)| ensures Run(Split(s, sep)[k], inner, edge) {
        var i, j := PieceIsSegment(s, sep, k);
        SeparatedRun(s, sep, inner, edge, i, j);
      }
    }
    if AllRun(Split(s, sep), inner, edge) {
      forall i: nat, j: nat | SegmentAt(s, sep, i, j) ensures Run(s[i..j], inner, edge) {
        var k := SegmentIsPiece(s, sep, i, j);
      }
      RunsSeparate(s, sep, inner, edge);
    }
  }

  lemma SeparatedRun(s: string, sep: char, inner: char -> bool, edge: char -> bool, i: nat, j: nat)
    requires !edge(sep) && Separated(s, sep, inner, edge) && SegmentAt(s, sep, i, j)
    ensures Run(s[i..j], inner, edge)
  {
    assert s[0] != sep && s[|s| - 1] != sep;
    assert i > 0 ==> i < |s| && edge(s[i]);
    assert i < j;
    assert forall k | i <= k < j :: s[i..j][k - i] == s[k];
    assert j < |s| ==> edge(s[j - 1]);
  }

  lemma RunsSeparate(s: string, sep: char, inner: char -> bool, edge: char -> bool)
    requires !edge(sep) && forall i: nat, j: nat | SegmentAt(s, sep, i, j) :: Run(s[i..j], inner, edge)
    ensures Separated(s, sep, inner, edge)
  {
    var _, first := SegmentAround(s, sep, 0);
    assert Run(s[0..first], inner, edge);
    var last, _ := SegmentAround(s, sep, |s|);
    assert Run(s[last..|s|], inner, edge);
    forall p | 0 <= p < |s| && s[p] != sep ensures inner(s[p]) {
      var i, j := SegmentAround(s, sep, p);
      assert Run(s[i..j], inner, edge) && s[i..j][p - i] == s[p];
    }
    forall p | 0 < p < |s| - 1 && s[p] == sep ensures edge(s[p - 1]) && edge(s[p + 1]) {
      var i, j := SegmentAround(s, sep, p);
      assert Run(s[i..p], inner, edge);
      var k, l := SegmentAround(s, sep, p + 1);
      assert Run(s[p + 1..l], inner, edge);
    }
  }

  /** The last piece follows the last separator. */
  lemma {:induction false} LastPiece(s: string, sep: char)
    requires |Split(s, sep)| > 1
    ensures var last := Split(s, sep)[|Split(s, sep)| - 1];
      |last| < |s| && s == s[..|s| - |last| - 1] + [sep] + last
  {
    var last := Split(s, sep)[|Split(s, sep)| - 1];
    if s[0] == sep && |Split(s[1..], sep)| == 1 {
      if sep in s[1..] {
        SplitsAtSeparator(s[1..], sep);
      }
      SplitWithout(s[1..], sep);
    } else {
      LastPiece(s[1..], sep);
      assert s == [s[0]] + s[1..];
    }
  }

  lemma {:induction false} SplitsAtSeparator(s: string, sep: char)
    requires sep in s
    ensures |Split(s, sep)| > 1
  {
    if s[0] != sep {
      SplitsAtSeparator(s[1..], sep);
    }
  }

  lemma {:induction false} SplitWithout(s: string, sep: char)
    requires sep !in s
    ensures Split(s, sep) == [s]
  {
    if |s| > 0 {
      SplitWithout(s[1..], sep);
      assert s == [s[0]] + s[1..];
    }
  }

  /** A character in no piece, and not the separator, does not occur. */
  lemma {:induction false} PiecesCover(s: string, sep: char, c: char)
    requires c != sep && forall i | 0 <= i < |Split(s, sep)| :: c !in Split(s, sep)[i]
    ensures c !in s
  {
    if |s| > 0 {
      var pieces, rest := Split(s, sep), Split(s[1..], sep);
      forall i | 0 <= i < |rest| ensures c !in rest[i] {
        if s[0] == sep {
          assert pieces[i + 1] == rest[i];
        } else if i == 0 {
          assert pieces[0] == [s[0]] + rest[0];
        } else {
          assert pieces[i] == rest[i];
        }
      }
      PiecesCover(s[1..], sep, c);
      assert s[0] != c by {
        assert s[0] != sep ==> s[0] == pieces[0][0];
      }
    }
  }

  /** `suffix` ends `s`. */
  predicate EndsWith(s: string, suffix: string) {
    |suffix| <= |s| && s[|s| - |suffix|..] == suffix
  }

  lemma EndsWithLast(s: string, suffix: string)
    requires |suffix| > 0
    ensures EndsWith(s, suffix) ==> s[|s| - 1] == suffix[|suffix| - 1]
  {
    if EndsWith(s, suffix) {
      assert s[|s| - |suffix|..][|suffix| - 1] == s[|s| - 1];
    }
  }

  // ---------- UTF-8 lengths ----------

  function Utf8Width(c: char): nat {
    if c < '\U{80}' then 1 else if c < '\U{800}' then 2 else if c < '\U{10000}' then 3 else 4
  }

  /** The number of bytes of the string's UTF-8 text. */
  function Utf8Length(s: string): (n: nat)
    ensures n >= |s|
  {
    if s == "" then 0 else Utf8Width(s[0]) + Utf8Length(s[1..])
  }
}

/**
 Sequences cut at a separator: the newline-delimited lines of the write-ahead
 log and the slash-delimited segments of a request path.

 `Split` is Go's `bytes.Split`/`strings.Split` with a one-element separator and
 `Join` is `strings.Join`.  The lemmas let a proof move freely between a flat
 sequence and its pieces.
 */
module Separated {

  function Split<T(==)>(s: seq<T>, sep: T): (r: seq<seq<T>>)
    ensures |r| >= 1
  {
    if s == [] then [[]] else Push(s[0], Split(s[1..], sep), sep)
  }

  /** The pieces once `x` is put in front: a new empty piece, or a longer first one. */
  function Push<T(==)>(x: T, pieces: seq<seq<T>>, sep: T): seq<seq<T>>
    requires |pieces| >= 1
  {
    if x == sep then [[]] + pieces else [[x] + pieces[0]] + pieces[1..]
  }

  function Join<T>(pieces: seq<seq<T>>, sep: T): seq<T>
    requires |pieces| >= 1
  {
    if |pieces| == 1 then pieces[0] else pieces[0] + [sep] + Join(pieces[1..], sep)
  }

  /** No piece contains the separator. */
  ghost predicate Clean<T>(pieces: seq<seq<T>>, sep: T) {
    forall i :: 0 <= i < |pieces| ==> sep !in pieces[i]
  }

  /** Every piece followed by a separator. */
  function Terminated<T>(pieces: seq<seq<T>>, sep: T): seq<T> {
    if pieces == [] then [] else pieces[0] + [sep] + Terminated(pieces[1..], sep)
  }

  /** Every piece preceded by a separator. */
  function Led<T>(pieces: seq<seq<T>>, sep: T): seq<T> {
    if pieces == [] then [] else [sep] + pieces[0] + Led(pieces[1..], sep)
  }

  /** Position in `Join(pieces)` at which piece `i` starts. */
  function Offset<T>(pieces: seq<seq<T>>, i: nat): nat
    requires i <= |pieces|
  {
    if i == 0 then 0 else |pieces[0]| + 1 + Offset(pieces[1..], i - 1)
  }

  /** Index of the piece that position `p` falls in (a separator belongs to the piece it ends). */
  function PieceAt<T>(pieces: seq<seq<T>>, p: nat): (i: nat)
    requires |pieces| >= 1
    ensures i < |pieces|
  {
    if p <= |pieces[0]| || |pieces| == 1 then 0 else 1 + PieceAt(pieces[1..], p - |pieces[0]| - 1)
  }

  lemma {:induction false} SplitIsClean<T>(s: seq<T>, sep: T)
    ensures Clean(Split(s, sep), sep)
  {
    if s != [] { SplitIsClean(s[1..], sep); }
  }

  lemma {:induction false} JoinSplit<T>(s: seq<T>, sep: T)
    ensures Join(Split(s, sep), sep) == s
  {
    if s != [] {
      var rest := Split(s[1..], sep);
      JoinSplit(s[1..], sep);
      if s[0] == sep {
        assert ([[]] + rest)[1..] == rest;
      } else {
        var first := [[s[0]] + rest[0]];
        assert (first + rest[1..])[1..] == rest[1..];
      }
    }
  }

  lemma {:induction false} SplitWithout<T>(s: seq<T>, sep: T)
    requires sep !in s
    ensures Split(s, sep) == [s]
  {
    if s != [] {
      SplitWithout(s[1..], sep);
      assert [s[0]] + s[1..] == s;
    }
  }

  lemma PushConcat<T>(x: T, a: seq<seq<T>>, b: seq<seq<T>>, sep: T)
    requires |a| >= 1
    ensures Push(x, a + b, sep) == Push(x, a, sep) + b
  {
    assert (a + b)[1..] == a[1..] + b;
  }

  lemma {:induction false} SplitConcat<T>(a: seq<T>, b: seq<T>, sep: T)
    ensures Split(a + [sep] + b, sep) == Split(a, sep) + Split(b, sep)
  {
    var whole := a + [sep] + b;
    if a == [] {
      assert whole[1..] == b;
    } else {
      SplitConcat(a[1..], b, sep);
      assert whole[1..] == a[1..] + [sep] + b;
      PushConcat(a[0], Split(a[1..], sep), Split(b, sep), sep);
    }
  }

  lemma {:induction false} SplitJoin<T>(pieces: seq<seq<T>>, sep: T)
    requires |pieces| >= 1 && Clean(pieces, sep)
    ensures Split(Join(pieces, sep), sep) == pieces
  {
    SplitWithout(pieces[0], sep);
    if |pieces| > 1 {
      assert Clean(pieces[1..], sep);
      SplitJoin(pieces[1..], sep);
      SplitConcat(pieces[0], Join(pieces[1..], sep), sep);
    }
  }

  lemma {:induction false} JoinIsLed<T>(pieces: seq<seq<T>>, sep: T)
    requires |pieces| >= 1
    ensures Join(pieces, sep) == pieces[0] + Led(pieces[1..], sep)
  {
    if |pieces| > 1 {
      JoinIsLed(pieces[1..], sep);
      assert pieces[0] + [sep] + (pieces[1..][0] + Led(pieces[1..][1..], sep))
          == pieces[0] + ([sep] + pieces[1..][0] + Led(pieces[1..][1..], sep));
    }
  }

  /** A joined sequence is what precedes piece `i`, the piece, and what follows it. */
  lemma {:induction false} JoinAround<T>(pieces: seq<seq<T>>, sep: T, i: nat)
    requires i < |pieces|
    ensures Join(pieces, sep) == Terminated(pieces[..i], sep) + pieces[i] + Led(pieces[i + 1..], sep)
    ensures |Terminated(pieces[..i], sep)| == Offset(pieces, i)
  {
    if i == 0 {
      JoinIsLed(pieces, sep);
    } else {
      JoinAround(pieces[1..], sep, i - 1);
      assert pieces[1..][..i - 1] == pieces[..i][1..];
      assert pieces[1..][i..] == pieces[i + 1..];
      assert pieces[0] + [sep] + (Terminated(pieces[1..][..i - 1], sep) + pieces[i] + Led(pieces[i + 1..], sep))
          == (pieces[0] + [sep] + Terminated(pieces[..i][1..], sep)) + pieces[i] + Led(pieces[i + 1..], sep);
    }
  }

  /** Piece `i` occupies the positions from its offset on. */
  lemma PieceBounds<T>(pieces: seq<seq<T>>, sep: T, i: nat)
    requires i < |pieces|
    ensures Offset(pieces, i) + |pieces[i]| <= |Join(pieces, sep)|
    ensures Join(pieces, sep)[Offset(pieces, i)..Offset(pieces, i) + |pieces[i]|] == pieces[i]
  {
    JoinAround(pieces, sep, i);
  }

  lemma {:induction false} TerminatedConcat<T>(a: seq<seq<T>>, b: seq<seq<T>>, sep: T)
    ensures Terminated(a + b, sep) == Terminated(a, sep) + Terminated(b, sep)
  {
    if a == [] {
      assert a + b == b;
    } else {
      TerminatedConcat(a[1..], b, sep);
      assert (a + b)[1..] == a[1..] + b;
    }
  }

  /** The last piece is what follows the last separator. */
  lemma JoinLast<T>(pieces: seq<seq<T>>, sep: T)
    requires |pieces| >= 1
    ensures Join(pieces, sep) == Terminated(pieces[..|pieces| - 1], sep) + pieces[|pieces| - 1]
  {
    var n := |pieces| - 1;
    JoinAround(pieces, sep, n);
    var none: seq<seq<T>>, last := pieces[n + 1..], Terminated(pieces[..n], sep) + pieces[n];
    assert none == [] && Led(none, sep) == [];
    assert last + [] == last;
  }

  /** `PieceAt` returns the piece whose span holds the position. */
  lemma {:induction false} PieceAtBounds<T>(pieces: seq<seq<T>>, sep: T, p: nat)
    requires |pieces| >= 1 && p <= |Join(pieces, sep)|
    ensures var i := PieceAt(pieces, p);
            Offset(pieces, i) <= p <= Offset(pieces, i) + |pieces[i]|
  {
    if p > |pieces[0]| && |pieces| > 1 {
      PieceAtBounds(pieces[1..], sep, p - |pieces[0]| - 1);
    }
  }

  /** Offsets depend only on the lengths of the pieces before. */
  lemma {:induction false} OffsetStable<T>(a: seq<seq<T>>, b: seq<seq<T>>, i: nat)
    requires i <= |a| && i <= |b|
    requires forall j :: 0 <= j < i ==> |a[j]| == |b[j]|
    ensures Offset(a, i) == Offset(b, i)
  {
    if i > 0 {
      forall j | 0 <= j < i - 1 ensures |a[1..][j]| == |b[1..][j]| {
        assert a[1..][j] == a[j + 1] && b[1..][j] == b[j + 1];
      }
      OffsetStable(a[1..], b[1..], i - 1);
    }
  }

  /** Stepping to the next piece moves past the piece and one separator. */
  lemma {:induction false} OffsetStep<T>(pieces: seq<seq<T>>, i: nat)
    requires i < |pieces|
    ensures Offset(pieces, i + 1) == Offset(pieces, i) + |pieces[i]| + 1
  {
    if i > 0 { OffsetStep(pieces[1..], i - 1); }
  }
}

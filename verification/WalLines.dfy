/**
 The lines of the write-ahead log (WAL) of the audit queue: how a line is
 classified, and what the log holds as a bag of texts.
 */
module WalLines {
  import opened Separated

  type byte = b: int | 0 <= b < 256
  type Bytes = seq<byte>

  const NL: byte := 10
  const SPACE: byte := 32
  const TILDE: byte := 126

  predicate IsSpace(b: byte) {
    9 <= b <= 13 || b == SPACE
  }

  function TrimLeft(s: Bytes): Bytes {
    if s != [] && IsSpace(s[0]) then TrimLeft(s[1..]) else s
  }

  function TrimRight(s: Bytes): Bytes {
    if s != [] && IsSpace(s[|s| - 1]) then TrimRight(s[..|s| - 1]) else s
  }

  /** Go's `strings.TrimSpace`, on the ASCII spaces. */
  function Trim(s: Bytes): Bytes {
    TrimRight(TrimLeft(s))
  }

  predicate IsBlank(line: Bytes) {
    Trim(line) == []
  }

  predicate IsTombstone(line: Bytes) {
    Trim(line) != [] && Trim(line)[0] == TILDE
  }

  /** Neither blank nor tombstoned: the lines that compaction keeps. */
  predicate IsKept(line: Bytes) {
    !IsBlank(line) && !IsTombstone(line)
  }

  /** A kept line that decodes: an event still waiting for delivery. */
  predicate IsPending(line: Bytes, readable: Bytes -> bool) {
    IsKept(line) && readable(line)
  }

  function Lines(data: Bytes): seq<Bytes> {
    Split(data, NL)
  }

  /** The kept lines in file order. */
  function Kept(lines: seq<Bytes>): seq<Bytes> {
    if lines == [] then []
    else (if IsKept(lines[0]) then [lines[0]] else []) + Kept(lines[1..])
  }

  /** How many of the lines are pending events. */
  function Pending(lines: seq<Bytes>, readable: Bytes -> bool): nat {
    if lines == [] then 0
    else (if IsPending(lines[0], readable) then 1 else 0) + Pending(lines[1..], readable)
  }

  function Text(line: Bytes): multiset<Bytes> {
    if IsKept(line) then multiset{Trim(line)} else multiset{}
  }

  /** The trimmed texts of the kept lines, with multiplicity. */
  function Texts(lines: seq<Bytes>): multiset<Bytes> {
    if lines == [] then multiset{} else Text(lines[0]) + Texts(lines[1..])
  }

  /** The complete lines: all but the last piece, which no newline ends. */
  function Complete(lines: seq<Bytes>): seq<Bytes>
    requires |lines| >= 1
  {
    lines[..|lines| - 1]
  }

  function Tail(lines: seq<Bytes>): Bytes
    requires |lines| >= 1
  {
    lines[|lines| - 1]
  }

  // ---------------------------------------------------------------- trimming

  lemma {:induction false} TrimLeftFacts(s: Bytes)
    ensures |TrimLeft(s)| <= |s| && TrimLeft(s) == s[|s| - |TrimLeft(s)|..]
    ensures TrimLeft(s) != [] ==> !IsSpace(TrimLeft(s)[0])
    ensures forall i :: 0 <= i < |s| - |TrimLeft(s)| ==> IsSpace(s[i])
  {
    if s != [] && IsSpace(s[0]) { TrimLeftFacts(s[1..]); }
  }

  lemma {:induction false} TrimRightFacts(s: Bytes)
    ensures |TrimRight(s)| <= |s| && TrimRight(s) == s[..|TrimRight(s)|]
    ensures TrimRight(s) != [] ==> !IsSpace(TrimRight(s)[|TrimRight(s)| - 1])
    ensures forall i :: |TrimRight(s)| <= i < |s| ==> IsSpace(s[i])
  {
    if s != [] && IsSpace(s[|s| - 1]) { TrimRightFacts(s[..|s| - 1]); }
  }

  /** Whether a line is blank or tombstoned is decided by its first byte that is not a space. */
  lemma TrimHead(s: Bytes)
    ensures Trim(s) == [] <==> TrimLeft(s) == []
    ensures Trim(s) != [] ==> Trim(s)[0] == TrimLeft(s)[0]
  {
    TrimLeftFacts(s);
    TrimRightFacts(TrimLeft(s));
  }

  lemma {:induction false} TrimLeftAfterSpaces(p: Bytes, s: Bytes)
    requires forall i :: 0 <= i < |p| ==> IsSpace(p[i])
    ensures TrimLeft(p + s) == TrimLeft(s)
  {
    if p == [] {
      assert p + s == s;
    } else {
      assert (p + s)[1..] == p[1..] + s;
      TrimLeftAfterSpaces(p[1..], s);
    }
  }

  lemma {:induction false} TrimLeftPrefix(p: Bytes, s: Bytes)
    requires TrimLeft(p) != []
    ensures TrimLeft(p + s) == TrimLeft(p) + s
  {
    assert p != [];
    if IsSpace(p[0]) {
      assert (p + s)[1..] == p[1..] + s;
      TrimLeftPrefix(p[1..], s);
    }
  }

  /** A trimmed line occurs, as it is, somewhere in the line. */
  lemma TrimIsPart(s: Bytes) returns (at: nat)
    ensures at + |Trim(s)| <= |s| && s[at..at + |Trim(s)|] == Trim(s)
  {
    TrimLeftFacts(s);
    TrimRightFacts(TrimLeft(s));
    at := |s| - |TrimLeft(s)|;
  }

  /** A line without spaces at its two ends is its own text. */
  lemma TrimOfTrimmed(s: Bytes)
    requires s != [] && !IsSpace(s[0]) && !IsSpace(s[|s| - 1])
    ensures Trim(s) == s
  {
  }

  /** A line starting with a byte that is no space is not blank, and is tombstoned exactly by `~`. */
  lemma HeadDecides(s: Bytes)
    requires s != [] && !IsSpace(s[0])
    ensures !IsBlank(s) && (IsTombstone(s) <==> s[0] == TILDE)
  {
    TrimHead(s);
  }

  lemma BlankLine()
    ensures IsBlank([]) && !IsKept([])
  {
    assert TrimLeft([]) == [];
  }

  // ------------------------------------------------------------ bags of lines

  lemma {:induction false} KeptConcat(a: seq<Bytes>, b: seq<Bytes>)
    ensures Kept(a + b) == Kept(a) + Kept(b)
  {
    if a == [] {
      assert a + b == b;
    } else {
      assert (a + b)[1..] == a[1..] + b;
      KeptConcat(a[1..], b);
    }
  }

  lemma {:induction false} KeptOfKept(lines: seq<Bytes>)
    ensures Kept(Kept(lines)) == Kept(lines)
    ensures forall i :: 0 <= i < |Kept(lines)| ==> IsKept(Kept(lines)[i]) && Kept(lines)[i] in lines
  {
    if lines != [] {
      KeptOfKept(lines[1..]);
      if IsKept(lines[0]) {
        assert Kept(lines)[1..] == Kept(lines[1..]);
      } else {
        assert Kept(lines) == Kept(lines[1..]);
      }
    }
  }

  lemma {:induction false} KeptSize(lines: seq<Bytes>, sep: byte)
    ensures |Terminated(Kept(lines), sep)| <= |Terminated(lines, sep)|
  {
    if lines != [] {
      KeptSize(lines[1..], sep);
      if IsKept(lines[0]) {
        assert Kept(lines)[1..] == Kept(lines[1..]);
      } else {
        assert Kept(lines) == Kept(lines[1..]);
      }
    }
  }

  /** The kept lines alone determine the texts and the pending count. */
  lemma {:induction false} KeptCarries(lines: seq<Bytes>, readable: Bytes -> bool)
    ensures Texts(Kept(lines)) == Texts(lines)
    ensures Pending(Kept(lines), readable) == Pending(lines, readable)
  {
    if lines != [] {
      KeptCarries(lines[1..], readable);
      if IsKept(lines[0]) {
        assert Kept(lines)[1..] == Kept(lines[1..]);
      } else {
        assert Kept(lines) == Kept(lines[1..]);
      }
    }
  }

  lemma {:induction false} TextsConcat(a: seq<Bytes>, b: seq<Bytes>)
    ensures Texts(a + b) == Texts(a) + Texts(b)
  {
    if a == [] {
      assert a + b == b;
    } else {
      assert (a + b)[1..] == a[1..] + b;
      TextsConcat(a[1..], b);
    }
  }

  lemma {:induction false} PendingConcat(a: seq<Bytes>, b: seq<Bytes>, readable: Bytes -> bool)
    ensures Pending(a + b, readable) == Pending(a, readable) + Pending(b, readable)
  {
    if a == [] {
      assert a + b == b;
    } else {
      assert (a + b)[1..] == a[1..] + b;
      PendingConcat(a[1..], b, readable);
    }
  }

  function PendingOne(line: Bytes, readable: Bytes -> bool): nat {
    if IsPending(line, readable) then 1 else 0
  }

  lemma AroundLine(lines: seq<Bytes>, i: nat, readable: Bytes -> bool)
    requires i < |lines|
    ensures Texts(lines) == Texts(lines[..i]) + Text(lines[i]) + Texts(lines[i + 1..])
    ensures Pending(lines, readable)
         == Pending(lines[..i], readable) + PendingOne(lines[i], readable) + Pending(lines[i + 1..], readable)
  {
    assert lines == lines[..i] + lines[i..];
    assert lines[i..][1..] == lines[i + 1..];
    TextsConcat(lines[..i], lines[i..]);
    PendingConcat(lines[..i], lines[i..], readable);
  }

  /** Replacing one line exchanges its own contribution and nothing else. */
  lemma Replace(lines: seq<Bytes>, i: nat, line: Bytes, readable: Bytes -> bool)
    requires i < |lines|
    ensures Texts(lines[i := line]) == Texts(lines) - Text(lines[i]) + Text(line)
    ensures Text(lines[i]) <= Texts(lines)
    ensures Pending(lines[i := line], readable) + PendingOne(lines[i], readable)
         == Pending(lines, readable) + PendingOne(line, readable)
  {
    AroundLine(lines, i, readable);
    AroundLine(lines[i := line], i, readable);
    assert lines[i := line][..i] == lines[..i];
    assert lines[i := line][i + 1..] == lines[i + 1..];
  }

  lemma {:induction false} TextMember(lines: seq<Bytes>, i: nat)
    requires i < |lines| && IsKept(lines[i])
    ensures Trim(lines[i]) in Texts(lines)
  {
    if i > 0 { TextMember(lines[1..], i - 1); }
  }

  lemma {:induction false} TextWitness(lines: seq<Bytes>, t: Bytes) returns (i: nat)
    requires t in Texts(lines)
    ensures i < |lines| && IsKept(lines[i]) && Trim(lines[i]) == t
  {
    assert lines != [];
    if t in Text(lines[0]) {
      i := 0;
    } else {
      i := TextWitness(lines[1..], t);
      i := i + 1;
    }
  }
}

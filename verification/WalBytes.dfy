/**
 The byte-level operations on the write-ahead log file: append, in-place
 tombstone, locate and compaction, and what each does to the lines.

 The file is its content; a file that does not exist reads as an empty one in
 every operation of the queue.
 */
module WalBytes {
  import opened Separated
  import opened WalLines

  // ------------------------------------------------------------------ append

  predicate EndsLine(data: Bytes) {
    data == [] || data[|data| - 1] == NL
  }

  /** The newline an append writes first when the file does not end with one. */
  function Seal(data: Bytes): Bytes {
    if EndsLine(data) then [] else [NL]
  }

  /** The bytes `appendWALLocked` hands to one write. */
  function AppendOut(data: Bytes, line: Bytes): Bytes {
    Seal(data) + line + [NL]
  }

  function Appended(data: Bytes, line: Bytes): Bytes {
    data + AppendOut(data, line)
  }

  /** The file after only the first `cut` bytes of the append reached it. */
  function TornAppend(data: Bytes, line: Bytes, cut: nat): Bytes
    requires cut <= |AppendOut(data, line)|
  {
    data + AppendOut(data, line)[..cut]
  }

  /** The lines an append leaves before its own: a non-empty tail becomes a line. */
  function Closed(lines: seq<Bytes>): seq<Bytes>
    requires |lines| >= 1
  {
    if Tail(lines) == [] then Complete(lines) else lines
  }

  /** What a torn append leaves after `Closed`: the start of its line, and the newline if all arrived. */
  function Fragment(data: Bytes, line: Bytes, cut: nat): seq<Bytes>
    requires cut <= |AppendOut(data, line)|
  {
    if cut < |Seal(data)| then []
    else if cut < |Seal(data)| + |line| + 1 then [line[..cut - |Seal(data)|]]
    else [line, []]
  }

  lemma {:induction false} TerminatedEnds(pieces: seq<Bytes>)
    requires pieces != []
    ensures Terminated(pieces, NL) != []
    ensures Terminated(pieces, NL)[|Terminated(pieces, NL)| - 1] == NL
  {
    if |pieces| > 1 { TerminatedEnds(pieces[1..]); }
  }

  lemma TailEmpty(data: Bytes)
    ensures Tail(Lines(data)) == [] <==> EndsLine(data)
  {
    var lines := Lines(data);
    JoinSplit(data, NL);
    JoinLast(lines, NL);
    SplitIsClean(data, NL);
    if Tail(lines) == [] {
      if Complete(lines) != [] { TerminatedEnds(Complete(lines)); }
    } else {
      assert data[|data| - 1] == Tail(lines)[|Tail(lines)| - 1];
    }
  }

  lemma SealedBytes(data: Bytes)
    ensures Terminated(Closed(Lines(data)), NL) == data + Seal(data)
  {
    var lines := Lines(data);
    JoinSplit(data, NL);
    JoinLast(lines, NL);
    TailEmpty(data);
    if Tail(lines) != [] {
      assert lines == Complete(lines) + [Tail(lines)];
      TerminatedConcat(Complete(lines), [Tail(lines)], NL);
      assert Terminated([Tail(lines)], NL) == Tail(lines) + [NL];
    }
  }

  lemma SealedLines(data: Bytes, last: Bytes)
    requires NL !in last
    ensures Lines(data + Seal(data) + last) == Closed(Lines(data)) + [last]
  {
    var pieces := Closed(Lines(data)) + [last];
    SplitIsClean(data, NL);
    SealedBytes(data);
    JoinLast(pieces, NL);
    assert pieces[..|pieces| - 1] == Closed(Lines(data));
    SplitJoin(pieces, NL);
  }

  /** An append puts the line on a line of its own, after everything that was there. */
  lemma AppendLines(data: Bytes, line: Bytes)
    requires NL !in line
    ensures Lines(Appended(data, line)) == Closed(Lines(data)) + [line, []]
  {
    var sealed, none: Bytes := data + Seal(data) + line, [];
    var closed, end: seq<Bytes> := Closed(Lines(data)), [[]];
    SealedLines(data, line);
    SplitConcat(sealed, none, NL);
    assert Lines(none) == end;
    AppendedIs(data, line);
    assert (closed + [line]) + end == closed + [line, []];
  }

  lemma AppendedIs(data: Bytes, line: Bytes)
    ensures var none: Bytes := []; Appended(data, line) == (data + Seal(data) + line) + [NL] + none
  {
  }

  /**
   A torn append is contained: whatever byte it was cut at, the lines before it
   are those of the file, and only a fragment of its own line follows.
   */
  lemma TornAppendLines(data: Bytes, line: Bytes, cut: nat)
    requires NL !in line && cut <= |AppendOut(data, line)|
    ensures Lines(TornAppend(data, line, cut))
         == (if Fragment(data, line, cut) == [] then Lines(data)
             else Closed(Lines(data)) + Fragment(data, line, cut))
  {
    var n := |Seal(data)|;
    if cut < n {
      assert TornAppend(data, line, cut) == data;
    } else if cut < n + |line| + 1 {
      assert AppendOut(data, line)[..cut] == Seal(data) + line[..cut - n];
      assert TornAppend(data, line, cut) == data + Seal(data) + line[..cut - n];
      SealedLines(data, line[..cut - n]);
    } else {
      assert AppendOut(data, line)[..cut] == AppendOut(data, line);
      AppendLines(data, line);
    }
  }

  /** After a torn append of one line, the next append still lands on a line of its own. */
  lemma AppendAfterTorn(data: Bytes, torn: Bytes, cut: nat, line: Bytes)
    requires NL !in torn && NL !in line && cut <= |AppendOut(data, torn)|
    ensures exists before: seq<Bytes> ::
              && Lines(Appended(TornAppend(data, torn, cut), line)) == before + [line, []]
              && Complete(Lines(data)) <= before
  {
    var after := TornAppend(data, torn, cut);
    TornAppendLines(data, torn, cut);
    AppendLines(after, line);
    assert Complete(Lines(data)) <= Closed(Lines(data));
    assert Complete(Lines(data)) <= Closed(Lines(after));
  }

  /** Sealing and appending keep the texts: the file gains exactly the appended line's. */
  lemma ClosedCarries(lines: seq<Bytes>, readable: Bytes -> bool)
    requires |lines| >= 1
    ensures Texts(Closed(lines)) == Texts(lines)
    ensures Kept(Closed(lines)) == Kept(lines)
    ensures Pending(Closed(lines), readable) == Pending(lines, readable)
    ensures Pending(Complete(lines), readable) + PendingOne(Tail(lines), readable) == Pending(lines, readable)
  {
    PendingSplits(lines, readable);
    if Tail(lines) == [] {
      EmptyTail(lines);
      BlankLine();
    }
  }

  lemma PendingSplits(lines: seq<Bytes>, readable: Bytes -> bool)
    requires |lines| >= 1
    ensures Pending(Complete(lines), readable) + PendingOne(Tail(lines), readable) == Pending(lines, readable)
  {
    var body: seq<Bytes>, last: seq<Bytes> := Complete(lines), [Tail(lines)];
    assert lines == body + last;
    PendingConcat(body, last, readable);
    assert last[1..] == [];
  }

  lemma EmptyTail(lines: seq<Bytes>)
    requires |lines| >= 1 && Tail(lines) == []
    ensures Texts(Complete(lines)) == Texts(lines) && Kept(Complete(lines)) == Kept(lines)
  {
    var body: seq<Bytes>, last: seq<Bytes> := Complete(lines), [Tail(lines)];
    assert lines == body + last;
    BlankLine();
    assert last[1..] == [];
    TextsConcat(body, last);
    KeptConcat(body, last);
  }

  // --------------------------------------------------------------- tombstone

  function Blanks(n: nat): (r: Bytes)
    ensures |r| == n && forall i :: 0 <= i < n ==> r[i] == SPACE
  {
    seq(n, _ => SPACE)
  }

  /** `~` followed by spaces, `n` bytes in all. */
  function TombstoneBytes(n: nat): (r: Bytes)
    ensures |r| == n && (n > 0 ==> r[0] == TILDE)
    ensures forall i :: 1 <= i < n ==> r[i] == SPACE
  {
    if n == 0 then [] else [TILDE] + Blanks(n - 1)
  }

  function WriteAt(data: Bytes, offset: nat, buf: Bytes): (r: Bytes)
    requires offset + |buf| <= |data|
    ensures |r| == |data|
    ensures r[offset..offset + |buf|] == buf
    ensures forall i :: 0 <= i < |data| && !(offset <= i < offset + |buf|) ==> r[i] == data[i]
  {
    data[..offset] + buf + data[offset + |buf|..]
  }

  lemma WriteMiddle(before: Bytes, line: Bytes, after: Bytes, p: nat, buf: Bytes)
    requires p + |buf| <= |line|
    ensures WriteAt(before + line + after, |before| + p, buf)
         == before + (line[..p] + buf + line[p + |buf|..]) + after
  {
    assert (before + line + after)[..|before| + p] == before + line[..p];
    assert (before + line + after)[|before| + p + |buf|..] == line[p + |buf|..] + after;
  }

  /** Overwriting `buf` inside line `i` changes that line only. */
  lemma WriteLine(data: Bytes, i: nat, p: nat, buf: Bytes)
    requires i < |Lines(data)| && p + |buf| <= |Lines(data)[i]| && NL !in buf
    ensures Offset(Lines(data), i) + |Lines(data)[i]| <= |data|
    ensures var line := Lines(data)[i];
            Lines(WriteAt(data, Offset(Lines(data), i) + p, buf))
            == Lines(data)[i := line[..p] + buf + line[p + |buf|..]]
  {
    var lines := Lines(data);
    var line' := lines[i][..p] + buf + lines[i][p + |buf|..];
    JoinSplit(data, NL);
    SplitIsClean(data, NL);
    JoinAround(lines, NL, i);
    WriteMiddle(Terminated(lines[..i], NL), lines[i], Led(lines[i + 1..], NL), p, buf);
    RejoinLine(lines, i, line');
  }

  lemma RejoinLine(lines: seq<Bytes>, i: nat, line: Bytes)
    requires i < |lines| && Clean(lines, NL) && NL !in line
    ensures Lines(Terminated(lines[..i], NL) + line + Led(lines[i + 1..], NL)) == lines[i := line]
  {
    var lines' := lines[i := line];
    JoinAround(lines', NL, i);
    assert lines'[..i] == lines[..i];
    assert lines'[i + 1..] == lines[i + 1..];
    SplitJoin(lines', NL);
  }

  /** A line whose first byte was overwritten by `~` reads as tombstoned, however much followed. */
  lemma TornTombstoneReads(line: Bytes, cut: nat)
    requires 1 <= cut <= |line|
    ensures IsTombstone(TombstoneBytes(|line|)[..cut] + line[cut..])
  {
    HeadDecides(TombstoneBytes(|line|)[..cut] + line[cut..]);
  }

  /**
   A tombstone write cut at any byte leaves every other line as it was and its
   own line either untouched or read as tombstoned.
   */
  lemma TornTombstoneLines(data: Bytes, i: nat, cut: nat)
    requires i < |Lines(data)| && cut <= |Lines(data)[i]|
    ensures Offset(Lines(data), i) + |Lines(data)[i]| <= |data|
    ensures var line := Lines(data)[i];
            var after := Lines(WriteAt(data, Offset(Lines(data), i), TombstoneBytes(|line|)[..cut]));
            && |after| == |Lines(data)|
            && (forall j :: 0 <= j < |after| && j != i ==> after[j] == Lines(data)[j])
            && |after[i]| == |line|
            && (if cut == 0 then after[i] == line else IsTombstone(after[i]))
  {
    var line := Lines(data)[i];
    var buf := TombstoneBytes(|line|)[..cut];
    WriteLine(data, i, 0, buf);
    assert line[..0] + buf + line[cut..] == buf + line[cut..];
    if cut > 0 { TornTombstoneReads(line, cut); } else { assert buf + line[cut..] == line; }
  }

  // ------------------------------------------------------------------ locate

  /** The bytes at the remembered offset are those of the target. */
  predicate HintHits(data: Bytes, target: Bytes, hint: int) {
    0 <= hint && |target| > 0 && hint + |target| <= |data| && data[hint..hint + |target|] == target
  }

  predicate Matches(line: Bytes, target: Bytes) {
    IsKept(line) && Trim(line) == Trim(target)
  }

  /** Index of the first kept line with the target's text, or the number of lines. */
  function FirstMatch(lines: seq<Bytes>, target: Bytes): (i: nat)
    ensures i <= |lines|
    ensures i < |lines| ==> Matches(lines[i], target)
    ensures forall j :: 0 <= j < i ==> !Matches(lines[j], target)
  {
    if lines == [] || Matches(lines[0], target) then 0 else 1 + FirstMatch(lines[1..], target)
  }

  datatype Location = Missing | Found(offset: nat, length: nat)

  /** `locateLineLocked`: the remembered offset first, then a scan. */
  function Locate(data: Bytes, target: Bytes, hint: int): (r: Location)
    ensures r.Found? ==> r.offset + r.length <= |data|
  {
    if HintHits(data, target, hint) then Found(hint, |target|)
    else
      var i := FirstMatch(Lines(data), target);
      if i < |Lines(data)| then
        JoinSplit(data, NL);
        PieceBounds(Lines(data), NL, i);
        Found(Offset(Lines(data), i), |Lines(data)[i]|)
      else Missing
  }

  /** The file after `tombstoneWAL` wrote the first `cut` bytes of its tombstone. */
  function Struck(data: Bytes, target: Bytes, hint: int, cut: nat): (r: Bytes)
    ensures |r| == |data|
  {
    match Locate(data, target, hint)
    case Missing => data
    case Found(offset, length) =>
      WriteAt(data, offset, TombstoneBytes(length)[..if cut <= length then cut else length])
  }

  /** The file after a whole tombstone was written for the target. */
  function Settled(data: Bytes, target: Bytes, hint: int): Bytes {
    Struck(data, target, hint, |data|)
  }

  lemma HitBeforeBreak(before: Bytes, line: Bytes, after: Bytes, p: nat, target: Bytes)
    requires p <= |line| && NL !in target && (after == [] || after[0] == NL)
    requires |before| + p + |target| <= |before + line + after|
    requires (before + line + after)[|before| + p..|before| + p + |target|] == target
    ensures p + |target| <= |line| && line[p..p + |target|] == target
  {
    var data := before + line + after;
    assert after != [] ==> data[|before| + |line|] == NL;
    assert forall k :: 0 <= k < |target| ==> data[|before| + p + k] == target[k];
    assert data[|before| + p..|before| + p + |target|] == line[p..p + |target|];
  }

  /** A hit lies within one line, because the target holds no newline. */
  lemma HitInLine(data: Bytes, target: Bytes, hint: nat)
    requires HintHits(data, target, hint) && NL !in target
    ensures var i := PieceAt(Lines(data), hint);
            var p := hint - Offset(Lines(data), i);
            0 <= p && p + |target| <= |Lines(data)[i]| && Lines(data)[i][p..p + |target|] == target
  {
    var lines := Lines(data);
    JoinSplit(data, NL);
    PieceAtBounds(lines, NL, hint);
    var i := PieceAt(lines, hint);
    JoinAround(lines, NL, i);
    HitBeforeBreak(Terminated(lines[..i], NL), lines[i], Led(lines[i + 1..], NL), hint - Offset(lines, i), target);
  }

  // -------------------------------------------------------------- compaction

  /** `compact`: the kept lines joined by newlines and ended by one. */
  function Compacted(data: Bytes): Bytes {
    var kept := Kept(Lines(data));
    if kept == [] then [] else Join(kept, NL) + [NL]
  }

  lemma TerminatedJoin(pieces: seq<Bytes>)
    requires pieces != []
    ensures Terminated(pieces, NL) == Join(pieces, NL) + [NL]
  {
    var n := |pieces| - 1;
    JoinLast(pieces, NL);
    assert pieces == pieces[..n] + [pieces[n]];
    TerminatedConcat(pieces[..n], [pieces[n]], NL);
    assert Terminated([pieces[n]], NL) == pieces[n] + [NL];
  }

  lemma TerminatedLines(pieces: seq<Bytes>)
    requires Clean(pieces, NL)
    ensures Lines(Terminated(pieces, NL)) == pieces + [[]]
  {
    var all := pieces + [[]];
    JoinLast(all, NL);
    assert all[..|pieces|] == pieces;
    assert Join(all, NL) == Terminated(pieces, NL);
    SplitJoin(all, NL);
  }

  lemma CompactedIsTerminated(data: Bytes)
    ensures Compacted(data) == Terminated(Kept(Lines(data)), NL)
    ensures Lines(Compacted(data)) == Kept(Lines(data)) + [[]]
  {
    var kept := Kept(Lines(data));
    SplitIsClean(data, NL);
    KeptOfKept(Lines(data));
    forall i | 0 <= i < |kept| ensures NL !in kept[i] {
      assert kept[i] in Lines(data);
    }
    if kept != [] { TerminatedJoin(kept); }
    TerminatedLines(kept);
  }

  /** Compaction keeps the exact sequence of kept lines and is idempotent. */
  lemma CompactionKeeps(data: Bytes)
    ensures Kept(Lines(Compacted(data))) == Kept(Lines(data))
    ensures Compacted(Compacted(data)) == Compacted(data)
  {
    var kept := Kept(Lines(data));
    CompactedIsTerminated(data);
    KeptConcat(kept, [[]]);
    BlankLine();
    assert Kept([[]]) == [];
    KeptOfKept(Lines(data));
    assert Kept(Lines(Compacted(data))) == kept;
  }

  /** Compaction grows the file by at most one byte, and only when its last line had no newline. */
  lemma CompactionSize(data: Bytes)
    ensures |Compacted(data)| <= |data| + |Seal(data)|
  {
    var lines := Lines(data);
    CompactedIsTerminated(data);
    ClosedCarries(lines, _ => true);
    SealedBytes(data);
    KeptSize(Closed(lines), NL);
  }
}

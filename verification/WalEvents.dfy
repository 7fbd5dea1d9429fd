/**
 The log as the queue itself writes it: every line is an encoded event, the
 start of one cut by a crash, or a tombstone.  `readable` stands for
 `json.Unmarshal` succeeding and `isEvent` for the encodings passed to Enqueue.
 */
module WalEvents {
  import opened Separated
  import opened WalLines
  import opened WalBytes
  import opened WalTombstone

  predicate OccursAt(a: Bytes, b: Bytes, p: nat) {
    p + |a| <= |b| && b[p..p + |a|] == a
  }

  ghost predicate Occurs(a: Bytes, b: Bytes) {
    exists p: nat :: OccursAt(a, b, p)
  }

  /** What an encoder of JSON objects guarantees of each event line. */
  ghost predicate Encodes(isEvent: Bytes -> bool, readable: Bytes -> bool) {
    forall e: Bytes | isEvent(e) ::
      && e != [] && NL !in e && !IsSpace(e[0]) && !IsSpace(e[|e| - 1]) && e[0] != TILDE
      && readable(e)
      && (forall k: nat | k < |e| :: !readable(e[..k]))
  }

  /** No event line lies inside another one. */
  ghost predicate NestingFree(isEvent: Bytes -> bool) {
    forall a: Bytes, b: Bytes | isEvent(a) && isEvent(b) && Occurs(a, b) :: a == b
  }

  ghost predicate IsFragment(line: Bytes, isEvent: Bytes -> bool) {
    exists e: Bytes :: isEvent(e) && line <= e
  }

  /** A kept line is an event or its start; any other line hides no event. */
  ghost predicate Shaped(line: Bytes, isEvent: Bytes -> bool) {
    if IsKept(line) then IsFragment(line, isEvent)
    else forall e: Bytes | isEvent(e) :: !Occurs(e, line)
  }

  ghost predicate WellFormed(lines: seq<Bytes>, isEvent: Bytes -> bool) {
    forall i :: 0 <= i < |lines| ==> Shaped(lines[i], isEvent)
  }

  lemma OccursInPrefix(a: Bytes, line: Bytes, e: Bytes)
    requires Occurs(a, line) && line <= e
    ensures Occurs(a, e)
  {
    var p: nat :| OccursAt(a, line, p);
    assert e[p..p + |a|] == line[p..p + |a|];
    assert OccursAt(a, e, p);
  }

  lemma ShapedHit(line: Bytes, t: Bytes, isEvent: Bytes -> bool)
    requires NestingFree(isEvent) && isEvent(t)
    requires Shaped(line, isEvent) && Occurs(t, line)
    ensures line == t && IsKept(line)
  {
    var e: Bytes :| isEvent(e) && line <= e;
    OccursInPrefix(t, line, e);
  }

  lemma ShapedText(line: Bytes, t: Bytes, isEvent: Bytes -> bool)
    requires NestingFree(isEvent) && isEvent(t)
    requires Shaped(line, isEvent) && Trim(line) == t
    ensures line == t
  {
    var at := TrimIsPart(line);
    assert OccursAt(t, line, at);
    ShapedHit(line, t, isEvent);
  }

  lemma EventFacts(e: Bytes, isEvent: Bytes -> bool, readable: Bytes -> bool)
    requires Encodes(isEvent, readable) && isEvent(e)
    ensures e != [] && NL !in e && Trim(e) == e && IsKept(e) && IsPending(e, readable) && Text(e) == multiset{e}
  {
    TrimOfTrimmed(e);
    HeadDecides(e);
  }

  /** A line that decodes is a whole event. */
  lemma ShapedPending(line: Bytes, isEvent: Bytes -> bool, readable: Bytes -> bool)
    requires Encodes(isEvent, readable) && Shaped(line, isEvent) && IsPending(line, readable)
    ensures isEvent(line)
  {
    var e: Bytes :| isEvent(e) && line <= e;
    assert e[..|line|] == line;
    if |line| == |e| { assert e == line; }
  }

  lemma FragmentShaped(e: Bytes, k: nat, isEvent: Bytes -> bool, readable: Bytes -> bool)
    requires Encodes(isEvent, readable) && isEvent(e) && k <= |e|
    ensures Shaped(e[..k], isEvent)
    ensures IsKept(e[..k]) <==> k > 0
  {
    if k > 0 {
      HeadDecides(e[..k]);
      assert e[..k] <= e;
    } else {
      BlankLine();
    }
  }

  /** A struck line hides no event: neither the tombstone nor the bytes left of the old line hold one. */
  lemma StruckOccurs(e: Bytes, line: Bytes, cut: nat, isEvent: Bytes -> bool, readable: Bytes -> bool)
    requires Encodes(isEvent, readable) && isEvent(e) && 1 <= cut <= |line|
    requires Occurs(e, TombstoneBytes(|line|)[..cut] + line[cut..])
    ensures Occurs(e, line)
  {
    var struck := TombstoneBytes(|line|)[..cut] + line[cut..];
    var p: nat :| OccursAt(e, struck, p);
    assert struck[p] == e[0];
    assert p >= cut;
    assert line[p..p + |e|] == struck[p..p + |e|];
    assert OccursAt(e, line, p);
  }

  lemma StrikeShaped(line: Bytes, cut: nat, isEvent: Bytes -> bool, readable: Bytes -> bool)
    requires Encodes(isEvent, readable) && NestingFree(isEvent)
    requires IsFragment(line, isEvent) && 1 <= cut <= |line|
    ensures var struck := TombstoneBytes(|line|)[..cut] + line[cut..];
            Shaped(struck, isEvent) && IsTombstone(struck)
  {
    var struck := TombstoneBytes(|line|)[..cut] + line[cut..];
    TornTombstoneReads(line, cut);
    forall e: Bytes | isEvent(e) ensures !Occurs(e, struck) {
      if Occurs(e, struck) {
        StruckOccurs(e, line, cut, isEvent, readable);
        var whole: Bytes :| isEvent(whole) && line <= whole;
        OccursInPrefix(e, line, whole);
      }
    }
  }

  lemma AppendShaped(lines: seq<Bytes>, more: seq<Bytes>, isEvent: Bytes -> bool)
    requires |lines| >= 1 && WellFormed(lines, isEvent) && WellFormed(more, isEvent)
    ensures WellFormed(Closed(lines) + more, isEvent)
  {
  }

  lemma EmptyLineShaped(isEvent: Bytes -> bool, readable: Bytes -> bool)
    requires Encodes(isEvent, readable)
    ensures Shaped([], isEvent)
  {
    BlankLine();
  }

  // ------------------------------------------------------------------ locate

  /** Index of the line `locateLineLocked` settles on. */
  function LocatedIndex(data: Bytes, target: Bytes, hint: int): nat {
    if HintHits(data, target, hint) then PieceAt(Lines(data), hint) else FirstMatch(Lines(data), target)
  }

  lemma HintWhole(data: Bytes, t: Bytes, hint: int, isEvent: Bytes -> bool)
    requires NestingFree(isEvent) && WellFormed(Lines(data), isEvent)
    requires isEvent(t) && NL !in t && HintHits(data, t, hint)
    ensures var i := PieceAt(Lines(data), hint);
            Lines(data)[i] == t && hint == Offset(Lines(data), i)
  {
    HitInLine(data, t, hint);
    var lines := Lines(data);
    var i := PieceAt(lines, hint);
    assert OccursAt(t, lines[i], hint - Offset(lines, i));
    ShapedHit(lines[i], t, isEvent);
  }

  lemma ScanWhole(lines: seq<Bytes>, t: Bytes, isEvent: Bytes -> bool)
    requires NestingFree(isEvent) && WellFormed(lines, isEvent)
    requires isEvent(t) && Trim(t) == t && t in Texts(lines)
    ensures FirstMatch(lines, t) < |lines| && lines[FirstMatch(lines, t)] == t
  {
    var w := TextWitness(lines, t);
    assert FirstMatch(lines, t) <= w;
    ShapedText(lines[FirstMatch(lines, t)], t, isEvent);
  }

  /** In a log the queue wrote, locating an event finds a whole line with exactly its bytes. */
  lemma LocateWhole(data: Bytes, t: Bytes, hint: int, isEvent: Bytes -> bool, readable: Bytes -> bool)
    requires Encodes(isEvent, readable) && NestingFree(isEvent)
    requires WellFormed(Lines(data), isEvent) && isEvent(t)
    requires t in Texts(Lines(data))
    ensures var i := LocatedIndex(data, t, hint);
            && i < |Lines(data)| && Lines(data)[i] == t
            && Locate(data, t, hint) == Found(Offset(Lines(data), i), |t|)
  {
    EventFacts(t, isEvent, readable);
    if HintHits(data, t, hint) {
      HintWhole(data, t, hint, isEvent);
    } else {
      ScanWhole(Lines(data), t, isEvent);
    }
  }

  /** The struck line: `cut` bytes of a tombstone over the event. */
  function StruckLine(t: Bytes, cut: nat): Bytes {
    var n := if cut <= |t| then cut else |t|;
    TombstoneBytes(|t|)[..n] + t[n..]
  }

  lemma NoNewline(length: nat, n: nat)
    requires n <= length
    ensures NL !in TombstoneBytes(length)[..n]
  {
    forall k | 0 <= k < n ensures TombstoneBytes(length)[..n][k] != NL {
      assert TombstoneBytes(length)[..n][k] == TombstoneBytes(length)[k];
    }
  }

  lemma StrikeLines(data: Bytes, t: Bytes, hint: int, cut: nat, i: nat)
    requires i < |Lines(data)| && Lines(data)[i] == t
    requires Locate(data, t, hint) == Found(Offset(Lines(data), i), |t|)
    ensures Lines(Struck(data, t, hint, cut)) == Lines(data)[i := StruckLine(t, cut)]
  {
    var n := if cut <= |t| then cut else |t|;
    var buf := TombstoneBytes(|t|)[..n];
    NoNewline(|t|, n);
    WriteLine(data, i, 0, buf);
    assert t[..0] + buf + t[|buf|..] == StruckLine(t, cut);
    assert Struck(data, t, hint, cut) == WriteAt(data, Offset(Lines(data), i) + 0, buf);
  }

  /** Replacing one complete line or the tail changes the complete lines or the tail only. */
  lemma ReplaceParts(lines: seq<Bytes>, i: nat, line: Bytes, readable: Bytes -> bool)
    requires i < |lines|
    ensures var after := lines[i := line];
            if i < |lines| - 1 then
              && Tail(after) == Tail(lines)
              && Pending(Complete(after), readable) + PendingOne(lines[i], readable)
                 == Pending(Complete(lines), readable) + PendingOne(line, readable)
            else Tail(after) == line && Complete(after) == Complete(lines)
  {
    if i < |lines| - 1 {
      assert Complete(lines[i := line]) == Complete(lines)[i := line];
      Replace(Complete(lines), i, line, readable);
    }
  }

  /** Striking an event's line, wholly or in part, removes exactly one copy of it. */
  lemma StrikeRemovesOne(data: Bytes, t: Bytes, hint: int, cut: nat, isEvent: Bytes -> bool, readable: Bytes -> bool)
    requires Encodes(isEvent, readable) && NestingFree(isEvent)
    requires WellFormed(Lines(data), isEvent) && isEvent(t)
    requires t in Texts(Lines(data)) && cut >= 1
    ensures var lines, after := Lines(data), Lines(Struck(data, t, hint, cut));
            var i := LocatedIndex(data, t, hint);
            && i < |lines| && |after| == |lines|
            && WellFormed(after, isEvent)
            && Texts(after) == Texts(lines) - multiset{t}
            && Pending(after, readable) == Pending(lines, readable) - 1
            && Pending(Complete(after), readable)
               == Pending(Complete(lines), readable) - (if i == |lines| - 1 then 0 else 1)
  {
    var i := LocatedIndex(data, t, hint);
    LocateWhole(data, t, hint, isEvent, readable);
    StrikeLines(data, t, hint, cut, i);
    StruckLineReplaces(Lines(data), t, cut, i, isEvent, readable);
  }

  /** An event replaced by its struck line, in a well-formed sequence of lines. */
  lemma StruckLineReplaces(lines: seq<Bytes>, t: Bytes, cut: nat, i: nat, isEvent: Bytes -> bool, readable: Bytes -> bool)
    requires Encodes(isEvent, readable) && NestingFree(isEvent)
    requires WellFormed(lines, isEvent) && isEvent(t) && i < |lines| && lines[i] == t && cut >= 1
    ensures var after := lines[i := StruckLine(t, cut)];
            && WellFormed(after, isEvent)
            && Texts(after) == Texts(lines) - multiset{t}
            && Pending(after, readable) == Pending(lines, readable) - 1
            && Pending(Complete(after), readable)
               == Pending(Complete(lines), readable) - (if i == |lines| - 1 then 0 else 1)
  {
    var struck := StruckLine(t, cut);
    EventFacts(t, isEvent, readable);
    assert t <= t;
    StrikeShaped(t, if cut <= |t| then cut else |t|, isEvent, readable);
    Replace(lines, i, struck, readable);
    ReplaceParts(lines, i, struck, readable);
  }
}

/**
 Why the protocol needs events that do not occur inside one another: for every
 event inside another, a log and a run in which settling the inner one destroys the
 outer one, which nobody accepted.
 */
module AuditMiss {
  import opened Separated
  import opened WalLines
  import opened WalBytes
  import opened WalBatch
  import opened WalTombstone
  import opened WalEvents
  import opened AuditQueue
  import opened AuditProtocol

  /** An event `inner` and an event `before + inner + after` around it. */
  datatype Nested = Nested(before: Bytes, inner: Bytes, after: Bytes) {
    function Outer(): Bytes { before + inner + after }

    /** A tombstone of the right length, then the two events. */
    function Log(): Bytes { Terminated([TombstoneBytes(|before| + |inner|), inner, Outer()], NL) }

    function Packed(): Bytes { Terminated([inner, Outer()], NL) }

    /** Where the inner event is read in the log; inside the outer one once the log is packed. */
    function Hint(): nat { |before| + |inner| + 1 }

    function Damaged(): Bytes { before + TombstoneBytes(|inner|) + after }
  }

  ghost predicate NestedEvents(n: Nested, isEvent: Bytes -> bool, readable: Bytes -> bool) {
    Encodes(isEvent, readable) && isEvent(n.inner) && isEvent(n.Outer()) && n.before != []
  }

  lemma TombstoneIsClean(n: nat)
    requires n > 0
    ensures NL !in TombstoneBytes(n) && IsTombstone(TombstoneBytes(n))
  {
    HeadDecides(TombstoneBytes(n));
  }

  lemma OuterIsClean(n: Nested, isEvent: Bytes -> bool, readable: Bytes -> bool)
    requires NestedEvents(n, isEvent, readable)
    ensures NL !in n.inner && NL !in n.Outer() && NL !in TombstoneBytes(|n.before| + |n.inner|)
  {
    TombstoneIsClean(|n.before| + |n.inner|);
  }

  lemma TwoLines(a: Bytes, b: Bytes)
    requires NL !in a && NL !in b
    ensures Lines(Terminated([a, b], NL)) == [a, b, []]
  {
    var pieces: seq<Bytes>, end: seq<Bytes> := [a, b], [[]];
    TerminatedLines(pieces);
    assert pieces + end == [a, b, []];
  }

  lemma ThreeLines(a: Bytes, b: Bytes, c: Bytes)
    requires NL !in a && NL !in b && NL !in c
    ensures Lines(Terminated([a, b, c], NL)) == [a, b, c, []]
  {
    var pieces: seq<Bytes>, end: seq<Bytes> := [a, b, c], [[]];
    TerminatedLines(pieces);
    assert pieces + end == [a, b, c, []];
  }

  lemma LogLines(n: Nested, isEvent: Bytes -> bool, readable: Bytes -> bool)
    requires NestedEvents(n, isEvent, readable)
    ensures Lines(n.Log()) == [TombstoneBytes(|n.before| + |n.inner|), n.inner, n.Outer(), []]
    ensures Lines(n.Packed()) == [n.inner, n.Outer(), []]
  {
    OuterIsClean(n, isEvent, readable);
    LinesOf(n);
  }

  lemma LinesOf(n: Nested)
    requires NL !in n.inner && NL !in n.Outer() && NL !in TombstoneBytes(|n.before| + |n.inner|)
    ensures Lines(n.Log()) == [TombstoneBytes(|n.before| + |n.inner|), n.inner, n.Outer(), []]
    ensures Lines(n.Packed()) == [n.inner, n.Outer(), []]
  {
    ThreeLines(TombstoneBytes(|n.before| + |n.inner|), n.inner, n.Outer());
    TwoLines(n.inner, n.Outer());
  }

  lemma KeptCons(x: Bytes, rest: seq<Bytes>)
    ensures Kept([x] + rest) == (if IsKept(x) then [x] else []) + Kept(rest)
  {
    assert ([x] + rest)[1..] == rest;
  }

  lemma TextsCons(x: Bytes, rest: seq<Bytes>)
    ensures Texts([x] + rest) == Text(x) + Texts(rest)
  {
    assert ([x] + rest)[1..] == rest;
  }

  lemma EmptyEnd()
    ensures var end: seq<Bytes> := [[]]; Kept(end) == [] && Texts(end) == multiset{}
  {
    var end: seq<Bytes> := [[]];
    BlankLine();
    assert end[1..] == [];
  }

  lemma KeptLog(tomb: Bytes, a: Bytes, b: Bytes)
    requires IsTombstone(tomb) && IsKept(a) && IsKept(b)
    ensures Kept([tomb, a, b, []]) == [a, b]
  {
    var end: seq<Bytes> := [[]];
    EmptyEnd();
    KeptCons(b, end);
    KeptCons(a, [b] + end);
    KeptCons(tomb, [a] + ([b] + end));
    assert [tomb, a, b, []] == [tomb] + ([a] + ([b] + end));
  }

  lemma LogPacks(n: Nested, isEvent: Bytes -> bool, readable: Bytes -> bool)
    requires NestedEvents(n, isEvent, readable)
    ensures Compacted(n.Log()) == n.Packed()
  {
    LogLines(n, isEvent, readable);
    TombstoneIsClean(|n.before| + |n.inner|);
    EventFacts(n.inner, isEvent, readable);
    EventFacts(n.Outer(), isEvent, readable);
    KeptLog(TombstoneBytes(|n.before| + |n.inner|), n.inner, n.Outer());
    CompactedIsTerminated(n.Log());
  }

  lemma SecondIsFirstItem(lines: seq<Bytes>, readable: Bytes -> bool)
    requires |lines| >= 2 && !IsPending(lines[0], readable) && IsPending(lines[1], readable)
    ensures var items := PendingItems(lines, 0, readable); items != [] && items[0] == Item(lines[1], |lines[0]| + 1)
  {
    var rest := lines[1..];
    assert rest[0] == lines[1];
    assert PendingItems(lines, 0, readable) == PendingItems(rest, 0 + |lines[0]| + 1, readable);
  }

  /** The inner event is the first of the batch, at the hint. */
  lemma LogBatch(n: Nested, isEvent: Bytes -> bool, readable: Bytes -> bool, limit: nat)
    requires NestedEvents(n, isEvent, readable) && limit >= 1
    ensures var batch := Batch(n.Log(), limit, readable); batch != [] && batch[0] == Item(n.inner, n.Hint())
  {
    LogLines(n, isEvent, readable);
    TombstoneIsClean(|n.before| + |n.inner|);
    EventFacts(n.inner, isEvent, readable);
    FirstOfBatch(n.Log(), TombstoneBytes(|n.before| + |n.inner|), n.inner, n.Outer(), readable, limit);
  }

  lemma FirstOfBatch(data: Bytes, tomb: Bytes, a: Bytes, b: Bytes, readable: Bytes -> bool, limit: nat)
    requires Lines(data) == [tomb, a, b, []] && IsTombstone(tomb) && IsPending(a, readable) && limit >= 1
    ensures var batch := Batch(data, limit, readable); batch != [] && batch[0] == Item(a, |tomb| + 1)
  {
    var lines := Complete(Lines(data));
    assert lines == [tomb, a, b];
    SecondIsFirstItem(lines, readable);
  }

  lemma PackedBytes(n: Nested)
    ensures n.Packed() == (n.inner + [NL] + n.before) + n.inner + (n.after + [NL])
  {
    var two: seq<Bytes>, one: seq<Bytes> := [n.inner, n.Outer()], [n.Outer()];
    assert two[1..] == one && one[1..] == [];
    assert Terminated(one, NL) == n.Outer() + [NL];
  }

  lemma HitAfter(head: Bytes, target: Bytes, tail: Bytes)
    requires target != []
    ensures HintHits(head + target + tail, target, |head|)
  {
  }

  lemma SecondPiece(lines: seq<Bytes>, p: nat)
    requires |lines| >= 2 && p <= |lines[1]|
    ensures PieceAt(lines, |lines[0]| + 1 + p) == 1 && Offset(lines, 1) == |lines[0]| + 1
  {
    assert lines[1..][0] == lines[1];
    assert PieceAt(lines[1..], p) == 0;
    assert Offset(lines[1..], 0) == 0;
  }

  lemma HintInside(n: Nested, isEvent: Bytes -> bool, readable: Bytes -> bool)
    requires NestedEvents(n, isEvent, readable)
    ensures HintHits(n.Packed(), n.inner, n.Hint()) && PieceAt(Lines(n.Packed()), n.Hint()) == 1
    ensures Offset(Lines(n.Packed()), 1) == |n.inner| + 1
  {
    LogLines(n, isEvent, readable);
    EventFacts(n.inner, isEvent, readable);
    SecondPiece(Lines(n.Packed()), |n.before|);
    PackedBytes(n);
    HitAfter(n.inner + [NL] + n.before, n.inner, n.after + [NL]);
  }

  /** A hit inside a line replaces those bytes of the line by a tombstone. */
  lemma StrikeInLine(data: Bytes, i: nat, p: nat, target: Bytes, hint: nat)
    requires HintHits(data, target, hint) && i < |Lines(data)| && p + |target| <= |Lines(data)[i]|
    requires hint == Offset(Lines(data), i) + p
    ensures var line := Lines(data)[i];
            Lines(WalBytes.Settled(data, target, hint))
            == Lines(data)[i := line[..p] + TombstoneBytes(|target|) + line[p + |target|..]]
  {
    var tomb := TombstoneBytes(|target|);
    TombstoneIsClean(|target|);
    WriteLine(data, i, p, tomb);
    assert tomb[..|target|] == tomb;
  }

  /** The strike damages the outer event and leaves the inner one. */
  lemma StrikeInOuter(n: Nested, isEvent: Bytes -> bool, readable: Bytes -> bool)
    requires NestedEvents(n, isEvent, readable)
    ensures Lines(WalBytes.Settled(n.Packed(), n.inner, n.Hint())) == [n.inner, n.Damaged(), []]
  {
    var outer := n.Outer();
    LogLines(n, isEvent, readable);
    HintInside(n, isEvent, readable);
    StrikeInLine(n.Packed(), 1, |n.before|, n.inner, n.Hint());
    assert outer[..|n.before|] == n.before && outer[|n.before| + |n.inner|..] == n.after;
  }

  /**
   The remembered offset is compared without line boundaries.  For every event inside
   another: the inner one is read at the hint, a compaction moves the lines so that the
   hint lies inside the outer one, and settling the inner one then damages the outer
   one and leaves the inner one live.
   */
  lemma SettleCanMiss(n: Nested, isEvent: Bytes -> bool, readable: Bytes -> bool, limit: nat)
    requires NestedEvents(n, isEvent, readable) && limit >= 1
    ensures var batch := Batch(n.Log(), limit, readable); batch != [] && batch[0] == Item(n.inner, n.Hint())
    ensures LineAt(Compacted(n.Log()), n.Hint()) == n.Outer()
    ensures var after := WalBytes.Settled(Compacted(n.Log()), n.inner, n.Hint());
            Lines(after) == [n.inner, n.Damaged(), []] && !LosesOne(Compacted(n.Log()), after, n.inner)
  {
    LogBatch(n, isEvent, readable, limit);
    LogPacks(n, isEvent, readable);
    LogLines(n, isEvent, readable);
    HintInside(n, isEvent, readable);
    StrikeInOuter(n, isEvent, readable);
    EventFacts(n.inner, isEvent, readable);
    EventFacts(n.Outer(), isEvent, readable);
    assert |n.Outer()| > |n.inner|;
    assert !Matches(n.Outer(), n.inner);
    SettleExact(n.Packed(), n.inner, n.Hint());
  }

  lemma DamagedIsNotOuter(n: Nested, isEvent: Bytes -> bool, readable: Bytes -> bool)
    requires NestedEvents(n, isEvent, readable)
    ensures n.Outer() !in Text(n.Damaged())
  {
    var outer, damaged := n.Outer(), n.Damaged();
    EventFacts(n.inner, isEvent, readable);
    assert damaged[|n.before|] == TILDE && outer[|n.before|] == n.inner[0];
    assert |damaged| == |outer|;
    var at := TrimIsPart(damaged);
  }

  lemma OuterIsGone(n: Nested, isEvent: Bytes -> bool, readable: Bytes -> bool)
    requires NestedEvents(n, isEvent, readable)
    ensures n.Outer() !in Texts([n.inner, n.Damaged(), []])
  {
    var end: seq<Bytes> := [[]];
    EventFacts(n.inner, isEvent, readable);
    DamagedIsNotOuter(n, isEvent, readable);
    EmptyEnd();
    TextsCons(n.Damaged(), end);
    TextsCons(n.inner, [n.Damaged()] + end);
    assert [n.inner, n.Damaged(), []] == [n.inner] + ([n.Damaged()] + end);
    assert |n.Outer()| > |n.inner|;
  }

  /** The configuration of the protocol, without the assumption that events do not nest. */
  ghost predicate Usual(c: Config) {
    Encodes(c.isEvent, c.readable) && c.batchSize >= 1 && c.concurrency >= 1
  }

  /**
   So conservation fails for such events: a run from a log that holds both, at whose
   end the outer event is gone although the sink never accepted it and no dead
   letter was due for it.
   */
  lemma NestedEventIsLost(c: Config, n: Nested)
    requires Usual(c) && NestedEvents(n, c.isEvent, c.readable)
    ensures var steps := [ReadBatch, SinkAccepts(0), Compact, Settle(0)];
            && Legal(c, Init(c, n.Log()), steps)
            && var s := Exec(c, Init(c, n.Log()), steps);
               var h, t := s.history, n.Outer();
               && t in h.appended && t !in Texts(Lines(s.wal))
               && t !in h.accepted && t !in h.dead && t !in h.unwritten
  {
    var s0 := Init(c, n.Log());
    InnerAccepted(c, n);
    OuterStruck(c, n, Exec(c, s0, [ReadBatch, SinkAccepts(0)]));
    RunConcat(c, s0, [ReadBatch, SinkAccepts(0)], [Compact, Settle(0)]);
    assert [ReadBatch, SinkAccepts(0)] + [Compact, Settle(0)] == [ReadBatch, SinkAccepts(0), Compact, Settle(0)];
  }

  /** The inner event was read at the hint and accepted, and nothing else happened. */
  ghost predicate InnerIsAccepted(n: Nested, s: State) {
    && s.wal == n.Log() && s.drainer.Working? && s.drainer.batch != [] && s.drainer.lo == 0 < s.drainer.hi <= |s.drainer.batch|
    && s.drainer.batch[0] == Entry(n.inner, n.Hint(), false, Accepted)
    && n.Outer() in s.history.appended && n.Outer() !in s.history.accepted
    && n.Outer() !in s.history.dead && n.Outer() !in s.history.unwritten
  }

  lemma InnerAccepted(c: Config, n: Nested)
    requires Usual(c) && NestedEvents(n, c.isEvent, c.readable)
    ensures Legal(c, Init(c, n.Log()), [ReadBatch, SinkAccepts(0)])
    ensures InnerIsAccepted(n, Exec(c, Init(c, n.Log()), [ReadBatch, SinkAccepts(0)]))
  {
    var s0 := Init(c, n.Log());
    LogBatch(n, c.isEvent, c.readable, c.batchSize);
    OuterIsAppended(n, c.isEvent, c.readable);
    var s1 := Apply(c, s0, ReadBatch);
    assert s1.drainer.batch[0] == Entry(n.inner, n.Hint(), false, Sent);
    assert |n.Outer()| > |n.inner|;
    RunTwo(c, s0, ReadBatch, SinkAccepts(0));
  }

  lemma OuterStruck(c: Config, n: Nested, s: State)
    requires NestedEvents(n, c.isEvent, c.readable) && InnerIsAccepted(n, s)
    ensures Legal(c, s, [Compact, Settle(0)])
    ensures var s' := Exec(c, s, [Compact, Settle(0)]);
            var h, t := s'.history, n.Outer();
            && t in h.appended && t !in Texts(Lines(s'.wal))
            && t !in h.accepted && t !in h.dead && t !in h.unwritten
  {
    LogPacks(n, c.isEvent, c.readable);
    StrikeInOuter(n, c.isEvent, c.readable);
    OuterIsGone(n, c.isEvent, c.readable);
    RunTwo(c, s, Compact, Settle(0));
  }

  lemma OuterIsAppended(n: Nested, isEvent: Bytes -> bool, readable: Bytes -> bool)
    requires NestedEvents(n, isEvent, readable)
    ensures n.Outer() in Texts(Lines(n.Log()))
  {
    var tomb: Bytes := TombstoneBytes(|n.before| + |n.inner|);
    LogLines(n, isEvent, readable);
    EventFacts(n.Outer(), isEvent, readable);
    var last: seq<Bytes> := [n.Outer(), []];
    assert Lines(n.Log()) == [tomb, n.inner] + last;
    TextsConcat([tomb, n.inner], last);
  }
}

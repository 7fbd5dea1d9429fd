/**
 What every step of the audit queue keeps, hence what holds in every run: no
 appended event is lost undelivered, and the drainer always finds the lines it
 settles.
 */
module AuditSafety {
  import opened WalLines
  import opened WalBytes
  import opened WalBatch
  import opened WalEvents
  import opened AuditQueue
  import opened AuditProtocol

  /** Every copy of `t` that entered the log is still live in it or was struck from it. */
  ghost predicate LogConserved(s: State, t: Bytes) {
    Texts(Lines(s.wal))[t] + s.history.struck[t] == s.history.appended[t] + s.history.torn[t]
  }

  /** No copy is settled, nor about to be, that the sink did not accept and no dead letter was due for. */
  ghost predicate SettledWasAnswered(s: State, t: Bytes) {
    s.history.struck[t] + s.history.settledMem[t] + Bag(Replied, BatchOf(s.drainer))[t]
    <= s.history.accepted[t] + s.history.dead[t] + s.history.unwritten[t]
  }

  /** Open entries with a text never outnumber the live lines with that text. */
  ghost predicate OpenIsLive(s: State, t: Bytes) {
    Bag(Open, BatchOf(s.drainer))[t] <= Texts(Lines(s.wal))[t]
  }

  /** Every memory event is queued, held by the drainer, settled or counted as lost. */
  ghost predicate MemoryConserved(s: State, t: Bytes) {
    multiset(s.mem)[t] + HeldBy(s.drainer)[t] + s.history.settledMem[t] + s.history.memLost[t]
    == s.history.memIn[t]
  }

  ghost predicate Counts(s: State, t: Bytes) {
    LogConserved(s, t) && SettledWasAnswered(s, t) && OpenIsLive(s, t) && MemoryConserved(s, t)
  }

  ghost predicate AllEvents(c: Config, lines: seq<Bytes>) {
    forall i :: 0 <= i < |lines| ==> c.isEvent(lines[i])
  }

  ghost predicate BatchEvents(c: Config, batch: seq<Entry>) {
    forall i :: 0 <= i < |batch| ==> c.isEvent(batch[i].line)
  }

  ghost predicate SomeSettled(batch: seq<Entry>) {
    exists i :: 0 <= i < |batch| && batch[i].phase.Settled?
  }

  ghost predicate UntouchedFrom(batch: seq<Entry>, hi: nat) {
    forall i :: hi <= i < |batch| ==> batch[i].phase.Sent?
  }

  /** Rounds advance through the batch: untouched from `hi` on; progress means something settled. */
  ghost predicate DrainerOk(c: Config, d: Drainer) {
    && BatchEvents(c, BatchOf(d))
    && match d
       case Working(batch, lo, hi, progressed) =>
         && lo <= hi <= |batch| && (batch != [] ==> lo < hi)
         && UntouchedFrom(batch, hi) && (progressed ==> SomeSettled(batch))
       case Delaying(batch, hi, progressed) =>
         hi <= |batch| && UntouchedFrom(batch, hi) && (progressed ==> SomeSettled(batch))
       case Returning(batch, next, progressed, _) =>
         next <= |batch| && (progressed ==> SomeSettled(batch))
       case _ => true
  }

  ghost predicate Shapes(c: Config, s: State) {
    WellFormed(Lines(s.wal), c.isEvent) && AllEvents(c, s.mem) && DrainerOk(c, s.drainer)
  }

  ghost predicate Inv(c: Config, s: State) {
    Shapes(c, s) && forall t: Bytes :: Counts(s, t)
  }

  // --------------------------------------------------------------- log effects

  lemma LineTexts(line: Bytes)
    ensures Texts([line]) == Text(line)
    ensures Texts([line, []]) == Text(line)
  {
    var none: seq<Bytes> := [];
    BlankLine();
    assert [line][1..] == none;
    assert [line, []][1..] == [[]] && [[]][1..] == none;
  }

  lemma FragmentsShaped(c: Config, data: Bytes, line: Bytes, cut: nat)
    requires Good(c) && c.isEvent(line) && cut <= |AppendOut(data, line)|
    ensures WellFormed(Fragment(data, line, cut), c.isEvent)
  {
    EmptyLineShaped(c.isEvent, c.readable);
    FragmentShaped(line, |line|, c.isEvent, c.readable);
    assert line[..|line|] == line;
    var n := |Seal(data)|;
    if n <= cut < n + |line| + 1 { FragmentShaped(line, cut - n, c.isEvent, c.readable); }
  }

  lemma TornEffect(c: Config, data: Bytes, line: Bytes, cut: nat)
    requires Good(c) && c.isEvent(line) && WellFormed(Lines(data), c.isEvent)
    requires cut <= |AppendOut(data, line)|
    ensures WellFormed(Lines(TornAppend(data, line, cut)), c.isEvent)
    ensures Texts(Lines(TornAppend(data, line, cut))) == Texts(Lines(data)) + Texts(Fragment(data, line, cut))
  {
    EventFacts(line, c.isEvent, c.readable);
    TornAppendLines(data, line, cut);
    FragmentsShaped(c, data, line, cut);
    AppendShaped(Lines(data), Fragment(data, line, cut), c.isEvent);
    ClosedCarries(Lines(data), c.readable);
    TextsConcat(Closed(Lines(data)), Fragment(data, line, cut));
  }

  lemma AppendEffect(c: Config, data: Bytes, line: Bytes)
    requires Good(c) && c.isEvent(line) && WellFormed(Lines(data), c.isEvent)
    ensures WellFormed(Lines(Appended(data, line)), c.isEvent)
    ensures Texts(Lines(Appended(data, line))) == Texts(Lines(data)) + One(line)
  {
    var n := |AppendOut(data, line)|;
    assert AppendOut(data, line)[..n] == AppendOut(data, line);
    TornEffect(c, data, line, n);
    EventFacts(line, c.isEvent, c.readable);
    LineTexts(line);
  }

  lemma CompactEffect(c: Config, data: Bytes)
    requires Good(c) && WellFormed(Lines(data), c.isEvent)
    ensures WellFormed(Lines(Compacted(data)), c.isEvent)
    ensures Texts(Lines(Compacted(data))) == Texts(Lines(data))
  {
    var lines := Lines(data);
    CompactedIsTerminated(data);
    KeptOfKept(lines);
    KeptCarries(lines, c.readable);
    TextsConcat(Kept(lines), [[]]);
    LineTexts([]);
    BlankLine();
    EmptyLineShaped(c.isEvent, c.readable);
    forall i | 0 <= i < |Kept(lines)| ensures Shaped(Kept(lines)[i], c.isEvent) {
      assert Kept(lines)[i] in lines;
    }
  }

  /** The line a cut tombstone leaves. */
  function BuriedCut(line: Bytes, cut: nat): Bytes
    requires cut <= |line|
  {
    TombstoneBytes(|line|)[..cut] + line[cut..]
  }

  lemma BuryLines(data: Bytes, i: nat, cut: nat)
    requires i < |Lines(data)| && cut <= |Lines(data)[i]|
    ensures Lines(BuriedAtOffset(data, i, cut)) == Lines(data)[i := BuriedCut(Lines(data)[i], cut)]
  {
    var line := Lines(data)[i];
    var buf := TombstoneBytes(|line|)[..cut];
    WriteLine(data, i, 0, buf);
    assert line[..0] + buf + line[cut..] == buf + line[cut..];
  }

  lemma BuryEffect(c: Config, data: Bytes, i: nat, cut: nat)
    requires Good(c) && WellFormed(Lines(data), c.isEvent)
    requires i < |Lines(data)| && IsKept(Lines(data)[i]) && cut <= |Lines(data)[i]|
    ensures WellFormed(Lines(BuriedAtOffset(data, i, cut)), c.isEvent)
    ensures Texts(Lines(BuriedAtOffset(data, i, cut))) + (if cut == 0 then multiset{} else One(Trim(Lines(data)[i])))
         == Texts(Lines(data))
  {
    var lines := Lines(data);
    var line := lines[i];
    BuryLines(data, i, cut);
    if cut == 0 {
      assert BuriedCut(line, cut) == line;
      assert lines[i := line] == lines;
    } else {
      StrikeShaped(line, cut, c.isEvent, c.readable);
      Replace(lines, i, BuriedCut(line, cut), c.readable);
    }
  }

  // ------------------------------------------------------------ batch effects

  lemma {:induction false} FreshOpen(items: seq<Item>)
    requires forall i :: 0 <= i < |items| ==> Trim(items[i].line) == items[i].line
    ensures Bag(Open, WalEntries(items)) == ItemTexts(items)
  {
    if items != [] {
      assert WalEntries(items)[1..] == WalEntries(items[1..]);
      FreshOpen(items[1..]);
    }
  }

  lemma {:induction false} NoneOfKind(kind: Kind, batch: seq<Entry>)
    requires forall i :: 0 <= i < |batch| ==> !Is(kind, batch[i])
    ensures Bag(kind, batch) == multiset{}
  {
    if batch != [] { NoneOfKind(kind, batch[1..]); }
  }

  lemma {:induction false} FreshHeld(mem: seq<Bytes>)
    ensures Bag(Held, MemoryEntries(mem)) == multiset(mem)
  {
    if mem != [] {
      assert MemoryEntries(mem)[1..] == MemoryEntries(mem[1..]);
      FreshHeld(mem[1..]);
      assert mem == [mem[0]] + mem[1..];
    }
  }

  /** Batch items of a log the queue wrote are events. */
  lemma BatchItemsAreEvents(c: Config, data: Bytes)
    requires Good(c) && WellFormed(Lines(data), c.isEvent)
    ensures forall i :: 0 <= i < |Batch(data, c.batchSize, c.readable)| ==>
              var line := Batch(data, c.batchSize, c.readable)[i].line;
              c.isEvent(line) && Trim(line) == line
  {
    var batch := Batch(data, c.batchSize, c.readable);
    var lines := Complete(Lines(data));
    var items := PendingItems(lines, 0, c.readable);
    forall i | 0 <= i < |batch| ensures c.isEvent(batch[i].line) && Trim(batch[i].line) == batch[i].line {
      assert batch[i] == items[i];
      ItemsAre(lines, 0, c.readable, items[i]);
      var k :| 0 <= k < |lines| && IsPending(lines[k], c.readable)
               && items[i] == Item(lines[k], 0 + Separated.Offset(lines, k));
      assert lines[k] == Lines(data)[k];
      ShapedPending(lines[k], c.isEvent, c.readable);
      EventFacts(lines[k], c.isEvent, c.readable);
    }
  }

  lemma ReadOpen(c: Config, s: State)
    requires Good(c) && Shapes(c, s)
    ensures Bag(Open, Batched(c, s)) <= Texts(Lines(s.wal))
  {
    var items := Batch(s.wal, c.batchSize, c.readable);
    BatchItemsAreEvents(c, s.wal);
    BatchWithinTexts(s.wal, c.batchSize, c.readable);
    FreshOpen(items);
    NoneOfKind(Open, MemoryEntries(s.mem));
    BagConcat(Open, WalEntries(items), MemoryEntries(s.mem));
  }

  lemma ReadReplied(c: Config, s: State)
    ensures Bag(Replied, Batched(c, s)) == multiset{}
  {
    NoneOfKind(Replied, Batched(c, s));
  }

  lemma ReadHeld(c: Config, s: State)
    ensures Bag(Held, Batched(c, s)) == multiset(s.mem)
  {
    var logged := WalEntries(Batch(s.wal, c.batchSize, c.readable));
    FreshHeld(s.mem);
    NoneOfKind(Held, logged);
    BagConcat(Held, logged, MemoryEntries(s.mem));
  }

  lemma ReadShapes(c: Config, s: State)
    requires Good(c) && Shapes(c, s)
    ensures BatchEvents(c, Batched(c, s)) && UntouchedFrom(Batched(c, s), 0)
  {
    BatchItemsAreEvents(c, s.wal);
  }

  lemma PhaseKeepsDrainer(c: Config, d: Drainer, i: nat, p: Phase)
    requires d.Working? && DrainerOk(c, d) && d.lo <= i < d.hi && !d.batch[i].phase.Settled?
    ensures DrainerOk(c, SetPhase(d, i, p))
  {
    var d' := SetPhase(d, i, p);
    if d.progressed {
      var k :| 0 <= k < |d.batch| && d.batch[k].phase.Settled?;
      assert d'.batch[k].phase.Settled?;
    }
  }

  // ------------------------------------------- counting, one text at a time

  /** A changed phase exchanges the entry's share in each bag. */
  lemma PhaseCounts(d: Drainer, i: nat, p: Phase, t: Bytes)
    requires d.Working? && i < |d.batch|
    ensures var e, d' := d.batch[i], SetPhase(d, i, p);
            var e' := e.(phase := p);
            && Bag(Open, BatchOf(d'))[t] + Share(Open, e)[t] == Bag(Open, BatchOf(d))[t] + Share(Open, e')[t]
            && Bag(Replied, BatchOf(d'))[t] + Share(Replied, e)[t]
               == Bag(Replied, BatchOf(d))[t] + Share(Replied, e')[t]
            && HeldBy(d')[t] + Share(Held, e)[t] == HeldBy(d)[t] + Share(Held, e')[t]
  {
    var e' := d.batch[i].(phase := p);
    BagReplace(Open, d.batch, i, e');
    BagReplace(Replied, d.batch, i, e');
    BagReplace(Held, d.batch, i, e');
    assert (Bag(Open, d.batch[i := e']) + Share(Open, d.batch[i]))[t] == (Bag(Open, d.batch) + Share(Open, e'))[t];
    assert (Bag(Replied, d.batch[i := e']) + Share(Replied, d.batch[i]))[t]
        == (Bag(Replied, d.batch) + Share(Replied, e'))[t];
    assert (Bag(Held, d.batch[i := e']) + Share(Held, d.batch[i]))[t] == (Bag(Held, d.batch) + Share(Held, e'))[t];
  }

  /** The same drainer and memory over a log that gained `more` texts on the books. */
  lemma GrowthCounts(s: State, s': State, more: multiset<Bytes>, t: Bytes)
    requires Counts(s, t) && s'.drainer == s.drainer && s'.mem == s.mem
    requires Texts(Lines(s'.wal)) == Texts(Lines(s.wal)) + more
    requires s'.history == s.history.(appended := s'.history.appended, torn := s'.history.torn)
    requires s'.history.appended + s'.history.torn == s.history.appended + s.history.torn + more
    ensures Counts(s', t)
  {
    assert (s'.history.appended + s'.history.torn)[t] == (s.history.appended + s.history.torn + more)[t];
  }

  /** One more memory event, booked. */
  lemma MemoryInCounts(s: State, s': State, line: Bytes, t: Bytes)
    requires Counts(s, t) && s'.drainer == s.drainer && s'.wal == s.wal
    requires s'.mem == s.mem + [line]
    requires s'.history == s.history.(memIn := s.history.memIn + One(line))
    ensures Counts(s', t)
  {
  }

  lemma AppendKeeps(c: Config, s: State, line: Bytes)
    requires Good(c) && Inv(c, s) && c.isEvent(line)
    ensures Inv(c, AfterAppend(s, line))
  {
    var s' := AfterAppend(s, line);
    AppendEffect(c, s.wal, line);
    forall t: Bytes ensures Counts(s', t) {
      assert Counts(s, t);
      GrowthCounts(s, s', One(line), t);
    }
  }

  lemma TornKeeps(c: Config, s: State, line: Bytes, cut: nat)
    requires Good(c) && Inv(c, s) && c.isEvent(line) && cut <= |AppendOut(s.wal, line)|
    ensures Inv(c, TornState(s, line, cut))
  {
    var torn := TornState(s, line, cut);
    TornEffect(c, s.wal, line, cut);
    forall t: Bytes ensures Counts(torn, t) {
      assert Counts(s, t);
      GrowthCounts(s, torn, Texts(Fragment(s.wal, line, cut)), t);
    }
  }

  lemma MemoryInKeeps(c: Config, s: State, s': State, line: Bytes)
    requires Inv(c, s) && c.isEvent(line)
    requires s'.drainer == s.drainer && s'.wal == s.wal && s'.mem == s.mem + [line]
    requires s'.history == s.history.(memIn := s.history.memIn + One(line))
    ensures Inv(c, s')
  {
    forall t: Bytes ensures Counts(s', t) {
      assert Counts(s, t);
      MemoryInCounts(s, s', line, t);
    }
  }

  /** One memory event dropped on the spot, booked twice. */
  lemma DroppedKeeps(c: Config, s: State, s': State, line: Bytes)
    requires Inv(c, s) && s'.drainer == s.drainer && s'.wal == s.wal && s'.mem == s.mem
    requires var h := s.history;
             s'.history == h.(memIn := h.memIn + One(line), memLost := h.memLost + One(line))
    ensures Inv(c, s')
  {
    forall t: Bytes ensures Counts(s', t) {
      assert Counts(s, t);
    }
  }

  lemma AppendFailsKeeps(c: Config, s: State, line: Bytes, cut: nat)
    requires Good(c) && Inv(c, s) && c.isEvent(line) && cut <= |AppendOut(s.wal, line)|
    ensures Inv(c, AfterAppendFails(c, s, line, cut))
  {
    var torn := TornState(s, line, cut);
    TornKeeps(c, s, line, cut);
    if |s.mem| < c.channelCap {
      MemoryInKeeps(c, torn, AfterAppendFails(c, s, line, cut), line);
    } else {
      DroppedKeeps(c, torn, AfterAppendFails(c, s, line, cut), line);
    }
  }

  lemma CompactKeeps(c: Config, s: State)
    requires Good(c) && Inv(c, s)
    ensures Inv(c, s.(wal := Compacted(s.wal)))
  {
    var s' := s.(wal := Compacted(s.wal));
    CompactEffect(c, s.wal);
    forall t: Bytes ensures Counts(s', t) {
      assert Counts(s, t);
    }
  }

  lemma BuryCounts(s: State, i: nat, cut: nat, recorded: bool, t: Bytes)
    requires Counts(s, t) && s.drainer.Top?
    requires i < |Lines(s.wal)| && cut <= |Lines(s.wal)[i]|
    requires Texts(Lines(BuriedAtOffset(s.wal, i, cut)))[t]
             + (if cut == 0 then 0 else One(Trim(Lines(s.wal)[i]))[t]) == Texts(Lines(s.wal))[t]
    ensures Counts(AfterBury(s, i, cut, recorded), t)
  {
  }

  lemma BuryKeeps(c: Config, s: State, i: nat, cut: nat, recorded: bool)
    requires Good(c) && Inv(c, s) && s.drainer.Top?
    requires i < |Lines(s.wal)| && IsKept(Lines(s.wal)[i]) && cut <= |Lines(s.wal)[i]|
    ensures Inv(c, AfterBury(s, i, cut, recorded))
  {
    var s' := AfterBury(s, i, cut, recorded);
    BuryEffect(c, s.wal, i, cut);
    forall t: Bytes ensures Counts(s', t) {
      assert Counts(s, t);
      BuryCounts(s, i, cut, recorded, t);
    }
  }

  /** A batch read from the channel and the log leaves the books balanced. */
  lemma StartedBalance(s: State, s': State, batch: seq<Entry>, t: Bytes)
    requires Counts(s, t) && BatchOf(s.drainer) == [] && HeldPart(s.drainer) == []
    requires BatchOf(s'.drainer) == batch && HeldPart(s'.drainer) == batch
    requires s'.wal == s.wal && s'.mem == [] && s'.history == s.history
    requires Bag(Open, batch)[t] <= Texts(Lines(s.wal))[t]
    requires Bag(Replied, batch)[t] == 0
    requires Bag(Held, batch)[t] == multiset(s.mem)[t]
    ensures Counts(s', t)
  {
  }

  lemma StartedShapes(c: Config, s: State, batch: seq<Entry>, pending: nat)
    requires Good(c) && Shapes(c, s) && BatchEvents(c, batch) && UntouchedFrom(batch, 0)
    ensures Shapes(c, Started(c, s, batch, pending))
  {
  }

  lemma StartedKeeps(c: Config, s: State, s': State, batch: seq<Entry>)
    requires Inv(c, s) && s.drainer.Top? && Shapes(c, s')
    requires BatchOf(s'.drainer) == batch && HeldPart(s'.drainer) == batch
    requires s'.wal == s.wal && s'.mem == [] && s'.history == s.history
    requires Bag(Open, batch) <= Texts(Lines(s.wal))
    requires Bag(Replied, batch) == multiset{}
    requires Bag(Held, batch) == multiset(s.mem)
    ensures Inv(c, s')
  {
    forall t: Bytes ensures Counts(s', t) {
      assert Counts(s, t);
      StartedBalance(s, s', batch, t);
    }
  }

  lemma ReadKeeps(c: Config, s: State)
    requires Good(c) && Inv(c, s) && s.drainer.Top?
    ensures Inv(c, Started(c, s, Batched(c, s), PendingNow(c, s)))
  {
    ReadOpen(c, s);
    ReadReplied(c, s);
    ReadHeld(c, s);
    ReadShapes(c, s);
    StartedShapes(c, s, Batched(c, s), PendingNow(c, s));
    StartedKeeps(c, s, Started(c, s, Batched(c, s), PendingNow(c, s)), Batched(c, s));
  }

  lemma ReadFailsKeeps(c: Config, s: State)
    requires Good(c) && Inv(c, s) && s.drainer.Top?
    ensures Inv(c, Started(c, s, MemoryEntries(s.mem), 0))
  {
    FreshHeld(s.mem);
    NoneOfKind(Open, MemoryEntries(s.mem));
    NoneOfKind(Replied, MemoryEntries(s.mem));
    StartedShapes(c, s, MemoryEntries(s.mem), 0);
    StartedKeeps(c, s, Started(c, s, MemoryEntries(s.mem), 0), MemoryEntries(s.mem));
  }

  // ---------------------------------------------------------------- deliveries

  /** Entry `i` moves to phase `p`; the books may gain an answer for it. */
  lemma PhaseBalance(s: State, s': State, i: nat, p: Phase, t: Bytes)
    requires Counts(s, t) && s.drainer.Working? && i < |s.drainer.batch| && !Finished(s.drainer.batch[i].phase)
    requires !p.Settled? && s'.drainer == SetPhase(s.drainer, i, p) && s'.mem == s.mem && s'.wal == s.wal
    requires var h, h' := s.history, s'.history;
             && h' == h.(accepted := h'.accepted, dead := h'.dead, unwritten := h'.unwritten)
             && h'.accepted[t] + h'.dead[t] + h'.unwritten[t]
                >= h.accepted[t] + h.dead[t] + h.unwritten[t]
                   + (if Answered(p) && !Answered(s.drainer.batch[i].phase) then One(s.drainer.batch[i].line)[t] else 0)
    ensures Counts(s', t)
  {
    var e := s.drainer.batch[i];
    PhaseCounts(s.drainer, i, p, t);
    ShareOfPhase(e, p, t);
  }

  /** A phase that is not settled keeps an unfinished entry open and held, and may make it replied. */
  lemma ShareOfPhase(e: Entry, p: Phase, t: Bytes)
    requires !Finished(e.phase) && !p.Settled?
    ensures var e' := e.(phase := p);
            && Share(Open, e')[t] <= Share(Open, e)[t]
            && Share(Held, e')[t] == Share(Held, e)[t]
            && Share(Replied, e')[t] <= Share(Replied, e)[t] + if Answered(p) && !Answered(e.phase) then One(e.line)[t] else 0
  {
  }

  lemma AnswerKeeps(c: Config, s: State, s': State, i: nat, p: Phase)
    requires Inv(c, s) && s.drainer.Working? && s.drainer.lo <= i < s.drainer.hi
    requires s.drainer.batch[i].phase.Sent? && Answered(p)
    requires s'.drainer == SetPhase(s.drainer, i, p) && s'.mem == s.mem && s'.wal == s.wal
    requires var h, line := s.history, One(s.drainer.batch[i].line);
             || s'.history == h.(accepted := h.accepted + line)
             || s'.history == h.(dead := h.dead + line)
             || s'.history == h.(unwritten := h.unwritten + line)
    ensures Inv(c, s')
  {
    PhaseKeepsDrainer(c, s.drainer, i, p);
    forall t: Bytes ensures Counts(s', t) {
      assert Counts(s, t);
      PhaseBalance(s, s', i, p, t);
    }
  }

  /** The line of an answered log entry is in the log: `tombstoneWAL` finds it. */
  lemma AnsweredIsLive(c: Config, s: State, i: nat)
    requires Good(c) && Inv(c, s)
    requires s.drainer.Working? && i < |s.drainer.batch| && Is(Open, s.drainer.batch[i])
    ensures var e := s.drainer.batch[i];
            && c.isEvent(e.line) && e.line in Texts(Lines(s.wal))
            && Locate(s.wal, e.line, e.offset).Found?
            && Locate(s.wal, e.line, e.offset).length == |e.line|
  {
    var e := s.drainer.batch[i];
    BagMember(Open, s.drainer.batch, i);
    assert Counts(s, e.line);
    LocateWhole(s.wal, e.line, e.offset, c.isEvent, c.readable);
  }

  /** An answered log entry that is finished leaves the open and the replied entries. */
  lemma FinishedCounts(d: Drainer, i: nat, p: Phase, t: Bytes)
    requires d.Working? && i < |d.batch| && Finished(p)
    requires !d.batch[i].fromMemory && Answered(d.batch[i].phase)
    ensures var d', one := SetPhase(d, i, p), One(d.batch[i].line)[t];
            && Bag(Open, BatchOf(d'))[t] + one == Bag(Open, BatchOf(d))[t]
            && Bag(Replied, BatchOf(d'))[t] + one == Bag(Replied, BatchOf(d))[t]
            && HeldBy(d')[t] == HeldBy(d)[t]
  {
    PhaseCounts(d, i, p, t);
  }

  lemma StrikeBalance(s: State, s': State, line: Bytes, t: Bytes)
    requires Counts(s, t) && s'.mem == s.mem
    requires Bag(Open, BatchOf(s'.drainer))[t] + One(line)[t] == Bag(Open, BatchOf(s.drainer))[t]
    requires Bag(Replied, BatchOf(s'.drainer))[t] + One(line)[t] == Bag(Replied, BatchOf(s.drainer))[t]
    requires HeldBy(s'.drainer)[t] == HeldBy(s.drainer)[t]
    requires s'.history == s.history.(struck := s.history.struck + One(line))
    requires Texts(Lines(s'.wal))[t] + One(line)[t] == Texts(Lines(s.wal))[t]
    ensures Counts(s', t)
  {
  }

  lemma StrikeKeeps(c: Config, s: State, i: nat, cut: nat, p: Phase)
    requires Good(c) && Inv(c, s)
    requires s.drainer.Working? && s.drainer.lo <= i < s.drainer.hi
    requires !s.drainer.batch[i].fromMemory && Answered(s.drainer.batch[i].phase)
    requires cut >= 1 && Finished(p)
    ensures Inv(c, Cut(s, i, cut).(drainer := SetPhase(s.drainer, i, p)))
  {
    var e := s.drainer.batch[i];
    var s' := Cut(s, i, cut).(drainer := SetPhase(s.drainer, i, p));
    AnsweredIsLive(c, s, i);
    StrikeRemovesOne(s.wal, e.line, e.offset, cut, c.isEvent, c.readable);
    PhaseKeepsDrainer(c, s.drainer, i, p);
    forall t: Bytes ensures Counts(s', t) {
      assert Counts(s, t);
      FinishedCounts(s.drainer, i, p, t);
      StrikeBalance(s, s', e.line, t);
    }
  }

  lemma SettleMemoryCounts(s: State, i: nat, t: Bytes)
    requires Counts(s, t) && s.drainer.Working? && i < |s.drainer.batch|
    requires s.drainer.batch[i].fromMemory && Answered(s.drainer.batch[i].phase)
    ensures Counts(AfterSettle(s, i), t)
  {
    PhaseCounts(s.drainer, i, Phase.Settled, t);
  }

  lemma SettleMemoryKeeps(c: Config, s: State, i: nat)
    requires Inv(c, s) && s.drainer.Working? && s.drainer.lo <= i < s.drainer.hi
    requires s.drainer.batch[i].fromMemory && Answered(s.drainer.batch[i].phase)
    ensures Inv(c, AfterSettle(s, i))
  {
    PhaseKeepsDrainer(c, s.drainer, i, Phase.Settled);
    forall t: Bytes ensures Counts(AfterSettle(s, i), t) {
      assert Counts(s, t);
      SettleMemoryCounts(s, i, t);
    }
  }

  /** The gauge, the delay, the wake token and the flags are not on the books. */
  lemma InvIgnores(c: Config, s: State, s': State)
    requires Inv(c, s) && s'.wal == s.wal && s'.mem == s.mem && s'.drainer == s.drainer && s'.history == s.history
    ensures Inv(c, s')
  {
    forall t: Bytes ensures Counts(s', t) {
      assert Counts(s, t);
    }
  }

  lemma SettleKeeps(c: Config, s: State, i: nat)
    requires Good(c) && Inv(c, s) && s.drainer.Working? && s.drainer.lo <= i < s.drainer.hi
    requires Answered(s.drainer.batch[i].phase)
    ensures Inv(c, AfterSettle(s, i))
  {
    var e := s.drainer.batch[i];
    if e.fromMemory {
      SettleMemoryKeeps(c, s, i);
    } else {
      AnsweredIsLive(c, s, i);
      EventFacts(e.line, c.isEvent, c.readable);
      StrikeKeeps(c, s, i, |s.wal|, Phase.Settled);
      InvIgnores(c, Cut(s, i, |s.wal|).(drainer := SetPhase(s.drainer, i, Phase.Settled)), AfterSettle(s, i));
    }
  }

  lemma FailedKeeps(c: Config, s: State, s': State, i: nat)
    requires Inv(c, s) && s.drainer.Working? && s.drainer.lo <= i < s.drainer.hi
    requires !Finished(s.drainer.batch[i].phase)
    requires s' == s.(drainer := SetPhase(s.drainer, i, Failed))
    ensures Inv(c, s')
  {
    PhaseKeepsDrainer(c, s.drainer, i, Failed);
    forall t: Bytes ensures Counts(s', t) {
      assert Counts(s, t);
      PhaseBalance(s, s', i, Failed, t);
    }
  }

  lemma SettleFailsKeeps(c: Config, s: State, i: nat, cut: nat)
    requires Good(c) && Inv(c, s) && s.drainer.Working? && s.drainer.lo <= i < s.drainer.hi
    requires !s.drainer.batch[i].fromMemory && Answered(s.drainer.batch[i].phase)
    ensures Inv(c, Cut(s, i, cut).(drainer := SetPhase(s.drainer, i, Failed)))
  {
    if cut == 0 { FailedKeeps(c, s, s.(drainer := SetPhase(s.drainer, i, Failed)), i); } else { StrikeKeeps(c, s, i, cut, Failed); }
  }

  // -------------------------------------------------------- between the rounds

  /** The drainer moved on with the same batch. */
  lemma SameBatchKeeps(c: Config, s: State, s': State)
    requires Inv(c, s) && s'.wal == s.wal && s'.mem == s.mem && s'.history == s.history
    requires BatchOf(s'.drainer) == BatchOf(s.drainer) && HeldPart(s'.drainer) == HeldPart(s.drainer)
    requires DrainerOk(c, s'.drainer)
    ensures Inv(c, s')
  {
    forall t: Bytes ensures Counts(s', t) {
      assert Counts(s, t);
    }
  }

  lemma NextRoundOk(c: Config, d: Drainer, progressed: bool)
    requires Good(c) && DrainerOk(c, d) && (d.Working? || d.Delaying?)
    requires progressed ==> SomeSettled(d.batch)
    ensures var d' := NextRound(c, d.batch, d.hi, progressed);
            DrainerOk(c, d') && BatchOf(d') == d.batch && HeldPart(d') == d.batch
  {
    assert d.batch[0..] == d.batch;
  }

  lemma EndRoundOk(c: Config, s: State)
    requires Good(c) && DrainerOk(c, s.drainer) && s.drainer.Working?
    ensures DrainerOk(c, AfterEndRound(c, s).drainer)
  {
    var d := s.drainer;
    if RoundDelivered(d) {
      var i :| d.lo <= i < d.hi && d.batch[i].phase.Settled?;
      assert SomeSettled(d.batch);
    }
    NextRoundOk(c, d, RoundDelivered(d) || d.progressed);
  }

  /** Between two rounds only the drainer's place in its batch changes. */
  ghost predicate OnlyPlaceMoves(s: State, s': State) {
    && s'.wal == s.wal && s'.mem == s.mem && s'.history == s.history && s'.backlog == s.backlog
    && s'.passes == s.passes && s'.closing == s.closing
    && BatchOf(s'.drainer) == BatchOf(s.drainer) && HeldPart(s'.drainer) == HeldPart(s.drainer)
    && !s'.drainer.Top? && !s'.drainer.Waiting?
  }

  lemma RoundKeepsParts(c: Config, s: State, step: Step)
    requires Enabled(c, s, step) && RoundStep(step)
    ensures OnlyPlaceMoves(s, Apply(c, s, step))
  {
    var batch := s.drainer.batch;
    assert batch[0..] == batch;
  }

  lemma HeldStep(d: Drainer, d': Drainer)
    requires d.Returning? && d.next < |d.batch| && d' == Returning(d.batch, d.next + 1, d.progressed, d.stop)
    ensures HeldBy(d) == Share(Held, d.batch[d.next]) + HeldBy(d')
  {
    assert HeldPart(d)[1..] == HeldPart(d');
  }

  /** One entry of the batch goes back to memory, or is counted as lost, or stays with the log. */
  ghost predicate GivesBack(s: State, s': State)
    requires s.drainer.Returning? && s.drainer.next < |s.drainer.batch|
  {
    var d, e, h := s.drainer, s.drainer.batch[s.drainer.next], s.history;
    && s'.wal == s.wal && s'.drainer == Returning(d.batch, d.next + 1, d.progressed, d.stop)
    && (|| (!GoesBack(e) && s'.mem == s.mem && s'.history == h)
        || (GoesBack(e) && s'.mem == s.mem + [e.line] && s'.history == h)
        || (GoesBack(e) && s'.mem == s.mem && s'.history == h.(memLost := h.memLost + One(e.line))))
  }

  lemma ReturnOneGivesBack(c: Config, s: State)
    requires s.drainer.Returning? && s.drainer.next < |s.drainer.batch|
    ensures GivesBack(s, AfterReturnOne(c, s))
  {
  }

  lemma ReturnOneCounts(s: State, s': State, t: Bytes)
    requires s.drainer.Returning? && s.drainer.next < |s.drainer.batch| && GivesBack(s, s') && Counts(s, t)
    ensures Counts(s', t)
  {
    var e := s.drainer.batch[s.drainer.next];
    HeldStep(s.drainer, s'.drainer);
    assert HeldBy(s.drainer)[t] == Share(Held, e)[t] + HeldBy(s'.drainer)[t];
  }

  lemma ReturnOneShapes(c: Config, s: State)
    requires Shapes(c, s) && s.drainer.Returning? && s.drainer.next < |s.drainer.batch|
    ensures Shapes(c, AfterReturnOne(c, s))
  {
  }

  lemma ReturnOneKeeps(c: Config, s: State)
    requires Inv(c, s) && s.drainer.Returning? && s.drainer.next < |s.drainer.batch|
    ensures Inv(c, AfterReturnOne(c, s))
  {
    ReturnOneShapes(c, s);
    ReturnOneGivesBack(c, s);
    forall t: Bytes ensures Counts(AfterReturnOne(c, s), t) {
      assert Counts(s, t);
      ReturnOneCounts(s, AfterReturnOne(c, s), t);
    }
  }

  /** Dropping the batch once nothing of it is held. */
  lemma DropBatchKeeps(c: Config, s: State, s': State)
    requires Inv(c, s) && HeldPart(s.drainer) == []
    requires s'.wal == s.wal && s'.mem == s.mem && s'.history == s.history
    requires s'.drainer.Top? || s'.drainer.Waiting? || s'.drainer.Done?
    ensures Inv(c, s')
  {
    forall t: Bytes ensures Counts(s', t) {
      assert Counts(s, t);
    }
  }

  lemma RestartCounts(c: Config, s: State, t: Bytes)
    requires Counts(s, t)
    ensures Counts(Restarted(c, s), t)
  {
    assert HeldPart(Restarted(c, s).drainer) == [];
  }

  lemma RestartKeeps(c: Config, s: State)
    requires Inv(c, s)
    ensures Inv(c, Restarted(c, s))
  {
    forall t: Bytes ensures Counts(Restarted(c, s), t) {
      assert Counts(s, t);
      RestartCounts(c, s, t);
    }
  }

  lemma CrashInAppendKeeps(c: Config, s: State, line: Bytes, cut: nat)
    requires Good(c) && Inv(c, s) && c.isEvent(line) && cut <= |AppendOut(s.wal, line)|
    ensures Inv(c, Restarted(c, TornState(s, line, cut)))
  {
    TornKeeps(c, s, line, cut);
    RestartKeeps(c, TornState(s, line, cut));
  }

  lemma CrashInSettleKeeps(c: Config, s: State, i: nat, cut: nat)
    requires Good(c) && Inv(c, s) && s.drainer.Working? && s.drainer.lo <= i < s.drainer.hi
    requires !s.drainer.batch[i].fromMemory && Answered(s.drainer.batch[i].phase)
    ensures Inv(c, Restarted(c, Cut(s, i, cut)))
  {
    SettleFailsKeeps(c, s, i, cut);
    var failed := Cut(s, i, cut).(drainer := SetPhase(s.drainer, i, Failed));
    RestartKeeps(c, failed);
    HeldSame(s.drainer, i);
  }

  lemma BothEmpty(a: multiset<Bytes>, b: multiset<Bytes>, x: multiset<Bytes>, y: multiset<Bytes>)
    requires a + x == b + y && x == multiset{} && y == multiset{}
    ensures a == b
  {
    assert a == a + x && b == b + y;
  }

  lemma HeldSame(d: Drainer, i: nat)
    requires d.Working? && i < |d.batch| && !d.batch[i].fromMemory
    ensures HeldBy(SetPhase(d, i, Failed)) == HeldBy(d)
  {
    var e := d.batch[i].(phase := Failed);
    BagReplace(Held, d.batch, i, e);
    BothEmpty(Bag(Held, d.batch[i := e]), Bag(Held, d.batch), Share(Held, d.batch[i]), Share(Held, e));
  }

  // --------------------------------------------------------------------- runs

  lemma OutsideStepKeeps(c: Config, s: State, step: Step)
    requires Good(c) && Inv(c, s) && Enabled(c, s, step)
    requires OutsideStep(step)
    ensures Inv(c, Apply(c, s, step))
  {
    match step
    case Append(line) => AppendKeeps(c, s, line);
    case AppendFails(line, cut) => AppendFailsKeeps(c, s, line, cut);
    case Wake => InvIgnores(c, s, Apply(c, s, step));
    case Close => InvIgnores(c, s, Apply(c, s, step));
    case Compact => CompactKeeps(c, s);
    case Crash => RestartKeeps(c, s);
    case CrashInAppend(line, cut) => CrashInAppendKeeps(c, s, line, cut);
    case CrashInSettle(i, cut) => CrashInSettleKeeps(c, s, i, cut);
  }

  lemma DeliveryStepKeeps(c: Config, s: State, step: Step)
    requires Good(c) && Inv(c, s) && Enabled(c, s, step)
    requires DeliveryStep(step)
    ensures Inv(c, Apply(c, s, step))
  {
    match step
    case SinkAccepts(i) => AnswerKeeps(c, s, Apply(c, s, step), i, Accepted);
    case SinkRefuses(i, _) => AnswerKeeps(c, s, Apply(c, s, step), i, Refused);
    case SinkFails(i) => FailedKeeps(c, s, Apply(c, s, step), i);
    case Settle(i) => SettleKeeps(c, s, i);
    case SettleFails(i, cut) => SettleFailsKeeps(c, s, i, cut);
  }

  lemma PassStepKeeps(c: Config, s: State, step: Step)
    requires Good(c) && Inv(c, s) && Enabled(c, s, step)
    requires !OutsideStep(step) && !DeliveryStep(step) && !RoundStep(step)
    ensures Inv(c, Apply(c, s, step))
  {
    match step
    case Bury(i, cut, recorded) => BuryKeeps(c, s, i, cut, recorded);
    case ReadBatch => ReadKeeps(c, s);
    case ReadFails => ReadFailsKeeps(c, s);
    case NothingRead => DropBatchKeeps(c, s, Apply(c, s, step));
    case TakeWake => DropBatchKeeps(c, s, Apply(c, s, step));
    case StopWaiting => DropBatchKeeps(c, s, Apply(c, s, step));
    case ReturnOne => ReturnOneKeeps(c, s);
    case EndPass => DropBatchKeeps(c, s, Apply(c, s, step));
  }

  lemma RoundStepKeeps(c: Config, s: State, step: Step)
    requires Good(c) && Inv(c, s) && Enabled(c, s, step) && RoundStep(step)
    ensures Inv(c, Apply(c, s, step))
  {
    RoundKeepsParts(c, s, step);
    if step.EndRound? {
      EndRoundOk(c, s);
    } else if step.DelayOver? {
      NextRoundOk(c, s.drainer, s.drainer.progressed);
    }
    SameBatchKeeps(c, s, Apply(c, s, step));
  }

  /** Every step of every actor keeps the invariant. */
  lemma StepKeeps(c: Config, s: State, step: Step)
    requires Good(c) && Inv(c, s) && Enabled(c, s, step)
    ensures Inv(c, Apply(c, s, step))
  {
    if OutsideStep(step) {
      OutsideStepKeeps(c, s, step);
    } else if DeliveryStep(step) {
      DeliveryStepKeeps(c, s, step);
    } else if RoundStep(step) {
      RoundStepKeeps(c, s, step);
    } else {
      PassStepKeeps(c, s, step);
    }
  }

  lemma {:induction false} RunKeeps(c: Config, s: State, steps: seq<Step>)
    requires Good(c) && Inv(c, s) && Legal(c, s, steps)
    ensures Inv(c, Exec(c, s, steps))
    decreases |steps|
  {
    if steps != [] {
      StepKeeps(c, s, steps[0]);
      RunKeeps(c, Apply(c, s, steps[0]), steps[1..]);
    }
  }

  lemma InitInv(c: Config, wal: Bytes)
    requires Good(c) && WellFormed(Lines(wal), c.isEvent)
    ensures Inv(c, Init(c, wal))
  {
    var s := Init(c, wal);
    assert BatchOf(s.drainer) == [] && HeldPart(s.drainer) == [];
    forall t: Bytes ensures Counts(s, t) {
    }
  }

  /**
   In every run, crashes and restarts included: a text's successful appends and
   torn remains are its live and its struck copies; struck copies never exceed
   those the sink accepted plus those a dead letter was due for.  So a text is
   live, accepted or due for a dead letter at least as often as it was appended,
   and an event whose append failed is queued, held, settled or counted as lost.
   */
  lemma NoEventLost(c: Config, wal: Bytes, steps: seq<Step>, t: Bytes)
    requires Good(c) && WellFormed(Lines(wal), c.isEvent) && Legal(c, Init(c, wal), steps)
    ensures var s := Exec(c, Init(c, wal), steps);
            var h, live := s.history, Texts(Lines(s.wal))[t];
            && h.appended[t] + h.torn[t] == live + h.struck[t]
            && h.struck[t] + h.settledMem[t] <= h.accepted[t] + h.dead[t] + h.unwritten[t]
            && h.appended[t] + h.torn[t] <= live + h.accepted[t] + h.dead[t] + h.unwritten[t]
            && multiset(s.mem)[t] + HeldBy(s.drainer)[t] + h.settledMem[t] + h.memLost[t] == h.memIn[t]
  {
    InitInv(c, wal);
    RunKeeps(c, Init(c, wal), steps);
    assert Counts(Exec(c, Init(c, wal), steps), t);
  }

  /** An append tears a copy of an event into the log only when cut right before its own newline. */
  lemma TornCopy(c: Config, data: Bytes, line: Bytes, cut: nat, t: Bytes)
    requires Good(c) && c.isEvent(line) && c.isEvent(t) && cut < |AppendOut(data, line)|
    ensures Texts(Fragment(data, line, cut))[t] == if t == line && cut == |Seal(data)| + |line| then 1 else 0
  {
    var n := |Seal(data)|;
    EventFacts(line, c.isEvent, c.readable);
    if cut >= n {
      var part := line[..cut - n];
      LineTexts(part);
      FragmentShaped(line, cut - n, c.isEvent, c.readable);
      if part == line {
      } else if IsKept(part) && Trim(part) == t {
        ShapedText(part, t, c.isEvent);
        assert false;
      }
    }
  }

  /**
   In every run an answered log entry finds its line: settling it overwrites one
   whole line holding exactly its bytes, and no other line of the log.
   */
  lemma SettleFinds(c: Config, wal: Bytes, steps: seq<Step>, i: nat)
    requires Good(c) && WellFormed(Lines(wal), c.isEvent) && Legal(c, Init(c, wal), steps)
    requires var d := Exec(c, Init(c, wal), steps).drainer;
             d.Working? && d.lo <= i < d.hi <= |d.batch| && Answered(d.batch[i].phase) && !d.batch[i].fromMemory
    ensures var s := Exec(c, Init(c, wal), steps);
            var line := s.drainer.batch[i].line;
            var k := LocatedIndex(s.wal, line, s.drainer.batch[i].offset);
            && k < |Lines(s.wal)| && Lines(s.wal)[k] == line
            && Lines(AfterSettle(s, i).wal) == Lines(s.wal)[k := TombstoneBytes(|line|)]
            && |AfterSettle(s, i).wal| == |s.wal|
  {
    InitInv(c, wal);
    RunKeeps(c, Init(c, wal), steps);
    SettleFindsNow(c, Exec(c, Init(c, wal), steps), i);
  }

  lemma SettleFindsNow(c: Config, s: State, i: nat)
    requires Good(c) && Inv(c, s)
    requires s.drainer.Working? && i < |s.drainer.batch|
    requires Answered(s.drainer.batch[i].phase) && !s.drainer.batch[i].fromMemory
    ensures var line := s.drainer.batch[i].line;
            var k := LocatedIndex(s.wal, line, s.drainer.batch[i].offset);
            && k < |Lines(s.wal)| && Lines(s.wal)[k] == line
            && Lines(AfterSettle(s, i).wal) == Lines(s.wal)[k := TombstoneBytes(|line|)]
            && |AfterSettle(s, i).wal| == |s.wal|
  {
    var e := s.drainer.batch[i];
    var k := LocatedIndex(s.wal, e.line, e.offset);
    AnsweredIsLive(c, s, i);
    LocateWhole(s.wal, e.line, e.offset, c.isEvent, c.readable);
    StrikeLines(s.wal, e.line, e.offset, |s.wal|, k);
    assert StruckLine(e.line, |s.wal|) == TombstoneBytes(|e.line|);
  }
}

/**
 The audit queue of `packages/go/auditq` as an object over its file, channels
 and gauge.  Each method is one critical section of the source; a write error
 is a number `cut` of bytes that reached the file before it.
 */
module AuditQueue {
  import opened Basics
  import opened Separated
  import opened WalLines
  import opened WalBytes
  import opened WalBatch

  /** Progress of one batch entry: sent, answered by the sink, finished for this pass. */
  datatype Phase = Sent | Accepted | Refused | Settled | Failed

  /** One event of a batch; a memory event stands for its encoding. */
  datatype Entry = Entry(line: Bytes, offset: nat, fromMemory: bool, phase: Phase)

  function WalEntries(items: seq<Item>): (r: seq<Entry>)
    ensures |r| == |items|
    ensures forall i :: 0 <= i < |r| ==> r[i] == Entry(items[i].line, items[i].offset, false, Sent)
  {
    seq(|items|, i requires 0 <= i < |items| => Entry(items[i].line, items[i].offset, false, Sent))
  }

  function MemoryEntries(mem: seq<Bytes>): (r: seq<Entry>)
    ensures |r| == |mem|
    ensures forall i :: 0 <= i < |r| ==> r[i] == Entry(mem[i], 0, true, Sent)
  {
    seq(|mem|, i requires 0 <= i < |mem| => Entry(mem[i], 0, true, Sent))
  }

  /** `nextRetryDelay`: double, but never past the maximum. */
  function NextRetryDelay(current: int, maxDelay: int): int {
    if current <= 0 || current > maxDelay / 2 then maxDelay else 2 * current
  }

  // ------------------------------------------------------- the source's loops

  /** `completeLines`: drops an unterminated last line. */
  method CompleteLines(data: Bytes) returns (r: Bytes)
    ensures r == Terminated(Complete(Lines(data)), NL)
    ensures Lines(r) == Complete(Lines(data)) + [[]]
  {
    var end := |data|;
    while end > 0 && data[end - 1] != NL
      invariant 0 <= end <= |data|
      invariant NL !in data[end..]
    {
      end := end - 1;
    }
    r := data[..end];
    CompleteIs(data, r, data[end..]);
  }

  lemma CompleteIs(data: Bytes, head: Bytes, tail: Bytes)
    requires data == head + tail && NL !in tail && EndsLine(head)
    ensures head == Terminated(Complete(Lines(data)), NL) && Lines(head) == Complete(Lines(data)) + [[]]
  {
    var lines := Lines(data);
    JoinSplit(data, NL);
    JoinLast(lines, NL);
    SplitIsClean(data, NL);
    if Complete(lines) != [] { TerminatedEnds(Complete(lines)); }
    LastBreak(Terminated(Complete(lines), NL), Tail(lines), head, tail);
    TerminatedLines(Complete(lines));
  }

  /** A sequence splits in only one way into a part ending in a newline and a rest without one. */
  lemma LastBreak(a: Bytes, b: Bytes, c: Bytes, d: Bytes)
    requires a + b == c + d && NL !in b && NL !in d
    requires EndsLine(a) && EndsLine(c)
    ensures a == c && b == d
  {
    var s := a + b;
    assert forall i :: |a| <= i < |s| ==> s[i] == b[i - |a|];
    assert forall i :: |c| <= i < |s| ==> s[i] == d[i - |c|];
    assert c != [] ==> s[|c| - 1] == c[|c| - 1];
    assert |c| <= |a|;
    assert a == s[..|a|] && c == s[..|c|] && b == s[|a|..] && d == s[|c|..];
  }

  /** `countPendingLines`: the events that replay after a restart. */
  method CountPendingLines(data: Bytes, readable: Bytes -> bool) returns (pending: nat)
    ensures pending == Pending(Complete(Lines(data)), readable)
  {
    var whole := CompleteLines(data);
    var pieces := Split(whole, NL);
    pending := 0;
    var i := 0;
    while i < |pieces|
      invariant 0 <= i <= |pieces|
      invariant pending == Pending(pieces[..i], readable)
    {
      assert pieces[..i + 1] == pieces[..i] + [pieces[i]];
      PendingConcat(pieces[..i], [pieces[i]], readable);
      if IsKept(pieces[i]) && readable(pieces[i]) { pending := pending + 1; }
      i := i + 1;
    }
    assert pieces[..i] == Complete(Lines(data)) + [[]];
    PendingConcat(Complete(Lines(data)), [[]], readable);
    BlankLine();
  }

  /** The buffer of a tombstone: spaces, then `~` over the first. */
  method TombstoneBuffer(length: nat) returns (r: Bytes)
    ensures r == TombstoneBytes(length)
  {
    if length == 0 { return []; }
    var buf := new byte[length](_ => 0);
    var i := 0;
    while i < length
      invariant 0 <= i <= length
      invariant forall k :: 0 <= k < i ==> buf[k] == SPACE
    {
      buf[i] := SPACE;
      i := i + 1;
    }
    buf[0] := TILDE;
    r := buf[..];
  }

  /** `locateLineLocked`: the remembered offset first, then the first live line with the same text. */
  method LocateLine(data: Bytes, target: Bytes, hint: int) returns (at: Location)
    ensures at == Locate(data, target, hint)
  {
    if 0 <= hint && |target| > 0 && hint + |target| <= |data| && data[hint..hint + |target|] == target {
      return Found(hint, |target|);
    }
    var pieces := Split(data, NL);
    var i, off := 0, 0;
    while i < |pieces|
      invariant 0 <= i <= |pieces|
      invariant off == Offset(pieces, i)
      invariant forall j :: 0 <= j < i ==> !Matches(pieces[j], target)
    {
      var text := Trim(pieces[i]);
      if text != [] && text[0] != TILDE && text == Trim(target) {
        return Found(off, |pieces[i]|);
      }
      OffsetStep(pieces, i);
      off := off + |pieces[i]| + 1;
      i := i + 1;
    }
    return Missing;
  }

  /** The filter of `compact` and the content it writes to the temporary file. */
  method CompactContent(data: Bytes) returns (content: Bytes, eventsKept: nat)
    ensures content == Compacted(data)
    ensures eventsKept == |Kept(Lines(data))|
  {
    var lines := Split(data, NL);
    var kept: seq<Bytes> := [];
    eventsKept := 0;
    var i := 0;
    while i < |lines|
      invariant 0 <= i <= |lines|
      invariant kept == Kept(lines[..i]) && eventsKept == |kept|
    {
      assert lines[..i + 1] == lines[..i] + [lines[i]];
      KeptConcat(lines[..i], [lines[i]]);
      var trimmed := Trim(lines[i]);
      if trimmed != [] && trimmed[0] != TILDE {
        kept := kept + [lines[i]];
        eventsKept := eventsKept + 1;
      }
      i := i + 1;
    }
    assert lines[..i] == lines;
    if |kept| > 0 { content := Join(kept, NL) + [NL]; } else { content := []; }
  }

  // ---------------------------------------------------------------- the object

  /** Settling fails only for a log entry whose tombstone was cut; a line no longer there counts as settled. */
  predicate Settles(wal: Bytes, entry: Entry, cut: nat) {
    var at := Locate(wal, entry.line, entry.offset);
    entry.fromMemory || at.Missing? || cut >= at.length
  }

  class Queue {
    const readable: Bytes -> bool
    const batchSize: nat
    const channelCap: nat

    var wal: Bytes            // content of the write-ahead log file
    var mem: seq<Bytes>       // memCh
    var wakePending: bool     // wakeCh, capacity 1
    var backlog: int          // metrics.backlogEvents
    var dead: seq<Bytes>      // records of the dead-letter file

    constructor (readable: Bytes -> bool, batchSize: nat, channelCap: nat, wal: Bytes)
      ensures this.readable == readable && this.batchSize == batchSize && this.channelCap == channelCap
      ensures this.wal == wal && mem == [] && !wakePending && backlog == 0 && dead == []
    {
      this.readable, this.batchSize, this.channelCap := readable, batchSize, channelCap;
      this.wal, mem, wakePending, backlog, dead := wal, [], false, 0, [];
    }

    method Replay()
      modifies this`backlog
      ensures backlog == Pending(Complete(Lines(wal)), readable)
    {
      var pending := CountPendingLines(wal, readable);
      backlog := pending;
    }

    /** `appendWALLocked`; the write fails when fewer than all bytes reach the file. */
    method AppendWAL(line: Bytes, cut: nat) returns (ok: bool)
      modifies this`wal
      ensures ok <==> cut >= |AppendOut(old(wal), line)|
      ensures wal == TornAppend(old(wal), line, Min(cut, |AppendOut(old(wal), line)|))
    {
      var out: Bytes := [];
      if |wal| > 0 && wal[|wal| - 1] != NL { out := out + [NL]; }
      out := out + line;
      out := out + [NL];
      assert out == AppendOut(wal, line);
      ok := cut >= |out|;
      wal := wal + out[..Min(cut, |out|)];
    }

    /** `Enqueue`, with the wake that follows the critical section. */
    method Enqueue(line: Bytes, cut: nat)
      modifies this`wal, this`mem, this`backlog, this`wakePending
      ensures wakePending
      ensures var n := |AppendOut(old(wal), line)|;
              && wal == TornAppend(old(wal), line, Min(cut, n))
              && (cut >= n ==> mem == old(mem) && backlog == old(backlog) + 1)
              && (cut < n && |old(mem)| < channelCap ==> mem == old(mem) + [line] && backlog == old(backlog) + 1)
              && (cut < n && |old(mem)| >= channelCap ==> mem == old(mem) && backlog == old(backlog))
    {
      var ok := AppendWAL(line, cut);
      if !ok {
        if |mem| < channelCap {
          mem := mem + [line];
          backlog := backlog + 1;
        }
      } else {
        backlog := backlog + 1;
      }
      wakePending := true;
    }

    /** `writeTombstoneAtLocked`: overwrites in place, cut after `cut` bytes. */
    method WriteTombstoneAt(offset: nat, length: nat, cut: nat)
      requires offset + length <= |wal|
      modifies this`wal
      ensures wal == WriteAt(old(wal), offset, TombstoneBytes(length)[..Min(cut, length)])
    {
      var buf := TombstoneBuffer(length);
      var n := Min(cut, length);
      wal := wal[..offset] + buf[..n] + wal[offset + n..];
    }

    /** `tombstoneWAL`: true when the event may be considered settled. */
    method TombstoneWAL(target: Bytes, hint: int, cut: nat) returns (ok: bool)
      modifies this`wal, this`backlog
      ensures wal == Struck(old(wal), target, hint, cut)
      ensures ok <==> Locate(old(wal), target, hint).Missing? || cut >= Locate(old(wal), target, hint).length
      ensures backlog == if ok then old(backlog) - 1 else old(backlog)
    {
      var at := LocateLine(wal, target, hint);
      match at {
        case Missing =>
          ok := true;
        case Found(offset, length) =>
          WriteTombstoneAt(offset, length, cut);
          ok := cut >= length;
      }
      if ok { backlog := backlog - 1; }
    }

    /** `settleDelivered`: a memory event only leaves the backlog. */
    method SettleDelivered(entry: Entry, cut: nat) returns (settled: Entry)
      modifies this`wal, this`backlog
      ensures wal == if entry.fromMemory then old(wal) else Struck(old(wal), entry.line, entry.offset, cut)
      ensures settled == entry.(phase := if Settles(old(wal), entry, cut) then Settled else Failed)
      ensures backlog == if settled.phase.Settled? then old(backlog) - 1 else old(backlog)
    {
      if entry.fromMemory {
        backlog := backlog - 1;
        return entry.(phase := Settled);
      }
      var ok := TombstoneWAL(entry.line, entry.offset, cut);
      settled := entry.(phase := if ok then Settled else Failed);
    }

    /** `settleRejected`: the dead-letter record comes before the tombstone, and its failure does not stop it. */
    method SettleRejected(entry: Entry, recorded: bool, cut: nat) returns (settled: Entry)
      modifies this`wal, this`backlog, this`dead
      ensures dead == if recorded then old(dead) + [entry.line] else old(dead)
      ensures wal == if entry.fromMemory then old(wal) else Struck(old(wal), entry.line, entry.offset, cut)
      ensures settled == entry.(phase := if Settles(old(wal), entry, cut) then Settled else Failed)
      ensures backlog == if settled.phase.Settled? then old(backlog) - 1 else old(backlog)
    {
      if recorded { dead := dead + [entry.line]; }
      settled := SettleDelivered(entry, cut);
    }

    /** The body of the read loop: an unreadable line is dead-lettered and tombstoned, a readable one counted. */
    method ReadLine(raw: Bytes, offset: nat, entries0: seq<Entry>, pending0: nat,
                    ghost data: Bytes, ghost pieces: seq<Bytes>, ghost i: nat, ghost buried0: seq<Bytes>)
      returns (entries: seq<Entry>, pending: nat, ghost buried: seq<Bytes>)
      requires i < |pieces| && raw == pieces[i]
      requires Visited(data, pieces, i, batchSize, readable, entries0, pending0, offset, wal, buried0)
      modifies this`wal, this`dead
      ensures Visited(data, pieces, i + 1, batchSize, readable, entries, pending, offset + |raw| + 1, wal, buried)
      ensures || (buried == buried0 && dead == old(dead))
              || (buried == buried0 + [raw] && dead == old(dead) + [raw])
    {
      VisitOne(data, pieces, i, batchSize, readable, entries0, pending0, offset, wal, buried0);
      entries, pending, buried := entries0, pending0, buried0;
      if IsKept(raw) {
        if !readable(raw) {
          dead := dead + [raw];
          buried := buried + [raw];
          WriteTombstoneAt(offset, |raw|, |raw|);
        } else {
          pending := pending + 1;
          if |entries| < batchSize { entries := entries + [Entry(raw, offset, false, Sent)]; }
        }
      }
    }

    /** The log part of `readBatch`: pending lines in file order; unreadable lines are buried. */
    method ReadPending() returns (entries: seq<Entry>, pending: nat)
      modifies this`wal, this`dead
      ensures entries == WalEntries(Batch(old(wal), batchSize, readable))
      ensures pending == Pending(Complete(Lines(old(wal))), readable)
      ensures wal == AfterRead(old(wal), readable)
      ensures dead == old(dead) + Unreadable(Complete(Lines(old(wal))), readable)
    {
      ghost var data, dead0 := wal, dead;
      var whole := CompleteLines(wal);
      var pieces := Split(whole, NL);
      var i: nat, offset: nat := 0, 0;
      entries, pending := [], 0;
      VisitNone(data, pieces, batchSize, readable);
      ghost var buried: seq<Bytes> := [];
      while i < |pieces|
        invariant Visited(data, pieces, i, batchSize, readable, entries, pending, offset, wal, buried)
        invariant dead == dead0 + buried
      {
        entries, pending, buried := ReadLine(pieces[i], offset, entries, pending, data, pieces, i, buried);
        offset := offset + |pieces[i]| + 1;
        i := i + 1;
      }
      VisitAll(data, pieces, batchSize, readable, entries, pending, offset, wal, buried);
    }

    /** The non-blocking receives that empty the channel. */
    method TakeMemory() returns (entries: seq<Entry>)
      modifies this`mem
      ensures mem == [] && entries == MemoryEntries(old(mem)) && |entries| == |old(mem)|
    {
      ghost var waiting := mem;
      entries := [];
      while mem != []
        invariant |mem| <= |waiting| && mem == waiting[|waiting| - |mem|..]
        invariant entries == MemoryEntries(waiting[..|waiting| - |mem|])
        decreases |mem|
      {
        ghost var k := |waiting| - |mem|;
        assert waiting[..k + 1] == waiting[..k] + [waiting[k]];
        entries := entries + [Entry(mem[0], 0, true, Sent)];
        mem := mem[1..];
      }
      assert waiting[..|waiting|] == waiting;
    }

    /** `readBatch`: the pending lines, then every event waiting in memory; the gauge is set from both. */
    method ReadBatch() returns (entries: seq<Entry>)
      modifies this`wal, this`mem, this`backlog, this`dead
      ensures entries == WalEntries(Batch(old(wal), batchSize, readable)) + MemoryEntries(old(mem))
      ensures backlog == Pending(Complete(Lines(old(wal))), readable) + |old(mem)|
      ensures mem == [] && wal == AfterRead(old(wal), readable)
      ensures dead == old(dead) + Unreadable(Complete(Lines(old(wal))), readable)
    {
      var pending;
      entries, pending := ReadPending();
      var waiting := TakeMemory();
      entries := entries + waiting;
      backlog := pending + |waiting|;
    }

    /** `returnMemory`: unsettled memory events go back to the channel while it has room. */
    method ReturnMemory(batch: seq<Entry>)
      modifies this`mem
      ensures mem == Returned(old(mem), batch, channelCap)
    {
      var i := 0;
      while i < |batch|
        invariant 0 <= i <= |batch|
        invariant Returned(mem, batch[i..], channelCap) == Returned(old(mem), batch, channelCap)
      {
        assert batch[i..][1..] == batch[i + 1..];
        if batch[i].fromMemory && !batch[i].phase.Settled? && |mem| < channelCap {
          mem := mem + [batch[i].line];
        }
        i := i + 1;
      }
    }

    /** `compact` when every file operation succeeds. */
    method Compact()
      modifies this`wal
      ensures wal == Compacted(old(wal))
    {
      var content, _ := CompactContent(wal);
      wal := content;
    }
  }

  /** The memory channel after the entries of a batch were offered back one by one. */
  function Returned(mem: seq<Bytes>, batch: seq<Entry>, cap: nat): seq<Bytes>
    decreases |batch|
  {
    if batch == [] then mem
    else
      var goesBack := batch[0].fromMemory && !batch[0].phase.Settled? && |mem| < cap;
      Returned(if goesBack then mem + [batch[0].line] else mem, batch[1..], cap)
  }

  // ----------------------------------------------------- support for ReadBatch

  function FirstItems(lines: seq<Bytes>, limit: nat, readable: Bytes -> bool): seq<Item> {
    var items := PendingItems(lines, 0, readable);
    if |items| <= limit then items else items[..limit]
  }

  /** The lines once the first `k` complete ones have been visited. */
  function Partly(lines: seq<Bytes>, tail: Bytes, k: nat, readable: Bytes -> bool): (r: seq<Bytes>)
    requires k <= |lines|
    ensures |r| >= 1
  {
    Buried(lines[..k], readable) + lines[k..] + [tail]
  }

  /** What visiting piece `i` adds to the items, the dead letters and the offset. */
  lemma VisitItems(pieces: seq<Bytes>, i: nat, limit: nat, readable: Bytes -> bool)
    requires i < |pieces|
    ensures var raw, before, after := pieces[i], pieces[..i], pieces[..i + 1];
            var offset := |Terminated(before, NL)|;
            && |Terminated(after, NL)| == offset + |raw| + 1
            && PendingItems(after, 0, readable)
               == PendingItems(before, 0, readable) + (if IsPending(raw, readable) then [Item(raw, offset)] else [])
            && FirstItems(after, limit, readable)
               == FirstItems(before, limit, readable)
                  + (if IsPending(raw, readable) && |FirstItems(before, limit, readable)| < limit
                     then [Item(raw, offset)] else [])
            && Unreadable(after, readable)
               == Unreadable(before, readable) + (if IsUnreadable(raw, readable) then [raw] else [])
  {
    var raw, before := pieces[i], pieces[..i];
    assert pieces[..i + 1] == before + [raw];
    var none: seq<Bytes> := [];
    assert [raw][1..] == none;
    ItemsConcat(before, [raw], 0, readable);
    BuriedConcat(before, [raw], readable);
    TerminatedConcat(before, [raw], NL);
  }

  lemma VisitKept(lines: seq<Bytes>, tail: Bytes, pieces: seq<Bytes>, i: nat, readable: Bytes -> bool)
    requires pieces == lines + [[]] && i < |pieces| && IsPending(pieces[i], readable)
    ensures i < |lines| && Partly(lines, tail, i + 1, readable) == Partly(lines, tail, i, readable)
  {
    BlankLine();
    PartlyStep(lines, tail, i, readable);
  }

  lemma VisitBury(data: Bytes, lines: seq<Bytes>, tail: Bytes, pieces: seq<Bytes>, i: nat, readable: Bytes -> bool)
    requires lines == Complete(Lines(data)) && tail == Tail(Lines(data))
    requires pieces == lines + [[]] && i < |pieces| && IsUnreadable(pieces[i], readable)
    ensures i < |lines|
    ensures var now := Join(Partly(lines, tail, i, readable), NL);
            var offset, n := |Terminated(pieces[..i], NL)|, |pieces[i]|;
            && offset + n <= |now|
            && WriteAt(now, offset, TombstoneBytes(n)[..n]) == Join(Partly(lines, tail, i + 1, readable), NL)
  {
    BlankLine();
    assert pieces[..i] == lines[..i];
    PartlyBury(data, lines, tail, i, readable);
    assert TombstoneBytes(|pieces[i]|)[..|pieces[i]|] == TombstoneBytes(|pieces[i]|);
  }

  /** The state of the read loop before piece `i`. */
  ghost predicate Visited(data: Bytes, pieces: seq<Bytes>, i: nat, limit: nat, readable: Bytes -> bool,
                          entries: seq<Entry>, pending: nat, offset: nat, now: Bytes, buried: seq<Bytes>)
  {
    var lines := Complete(Lines(data));
    && pieces == lines + [[]] && i <= |pieces|
    && offset == |Terminated(pieces[..i], NL)|
    && pending == |PendingItems(pieces[..i], 0, readable)|
    && entries == WalEntries(FirstItems(pieces[..i], limit, readable))
    && now == Join(Partly(lines, Tail(Lines(data)), Min(i, |lines|), readable), NL)
    && buried == Unreadable(pieces[..i], readable)
  }

  lemma VisitNone(data: Bytes, pieces: seq<Bytes>, limit: nat, readable: Bytes -> bool)
    requires pieces == Complete(Lines(data)) + [[]]
    ensures Visited(data, pieces, 0, limit, readable, [], 0, 0, data, [])
  {
    var lines := Lines(data);
    assert Partly(Complete(lines), Tail(lines), 0, readable) == lines;
    JoinSplit(data, NL);
  }

  lemma VisitOne(data: Bytes, pieces: seq<Bytes>, i: nat, limit: nat, readable: Bytes -> bool,
                 entries: seq<Entry>, pending: nat, offset: nat, now: Bytes, buried: seq<Bytes>)
    requires i < |pieces| && Visited(data, pieces, i, limit, readable, entries, pending, offset, now, buried)
    ensures var raw := pieces[i];
            var next := offset + |raw| + 1;
            if IsUnreadable(raw, readable) then
              && offset + |raw| <= |now|
              && Visited(data, pieces, i + 1, limit, readable, entries, pending, next,
                         WriteAt(now, offset, TombstoneBytes(|raw|)[..|raw|]), buried + [raw])
            else if IsPending(raw, readable) then
              Visited(data, pieces, i + 1, limit, readable,
                      if |entries| < limit then entries + [Entry(raw, offset, false, Sent)] else entries,
                      pending + 1, next, now, buried)
            else Visited(data, pieces, i + 1, limit, readable, entries, pending, next, now, buried)
  {
    var lines, tail := Complete(Lines(data)), Tail(Lines(data));
    VisitItems(pieces, i, limit, readable);
    if IsUnreadable(pieces[i], readable) {
      VisitBury(data, lines, tail, pieces, i, readable);
    } else if IsPending(pieces[i], readable) {
      VisitKept(lines, tail, pieces, i, readable);
    } else if i < |lines| {
      PartlyStep(lines, tail, i, readable);
    }
  }

  lemma VisitAll(data: Bytes, pieces: seq<Bytes>, limit: nat, readable: Bytes -> bool,
                 entries: seq<Entry>, pending: nat, offset: nat, now: Bytes, buried: seq<Bytes>)
    requires Visited(data, pieces, |pieces|, limit, readable, entries, pending, offset, now, buried)
    ensures entries == WalEntries(Batch(data, limit, readable))
    ensures pending == Pending(Complete(Lines(data)), readable)
    ensures now == AfterRead(data, readable)
    ensures buried == Unreadable(Complete(Lines(data)), readable)
  {
    assert pieces[..|pieces|] == pieces;
    ReadEnd(data, limit, readable);
  }

  lemma PartlyStep(lines: seq<Bytes>, tail: Bytes, k: nat, readable: Bytes -> bool)
    requires k < |lines|
    ensures Partly(lines, tail, k + 1, readable)
         == Partly(lines, tail, k, readable)[k := BuriedLine(lines[k], readable)]
    ensures !IsUnreadable(lines[k], readable) ==>
              Partly(lines, tail, k + 1, readable) == Partly(lines, tail, k, readable)
  {
    assert lines[..k + 1] == lines[..k] + [lines[k]];
    BuriedConcat(lines[..k], [lines[k]], readable);
    assert Buried([lines[k]], readable) == [BuriedLine(lines[k], readable)];
    assert lines[k..] == [lines[k]] + lines[k + 1..];
  }

  /** Tombstoning a line at its own offset replaces that line. */
  lemma BuryAt(part: seq<Bytes>, k: nat)
    requires k < |part|
    ensures Offset(part, k) + |part[k]| <= |Join(part, NL)|
    ensures var tomb := TombstoneBytes(|part[k]|);
            WriteAt(Join(part, NL), Offset(part, k), tomb) == Join(part[k := tomb], NL)
  {
    var tomb := TombstoneBytes(|part[k]|);
    JoinAround(part, NL, k);
    WriteMiddle(Terminated(part[..k], NL), part[k], Led(part[k + 1..], NL), 0, tomb);
    assert part[k][..0] + tomb + part[k][|part[k]|..] == tomb;
    var after := part[k := tomb];
    assert after[..k] == part[..k] && after[k + 1..] == part[k + 1..];
    JoinAround(after, NL, k);
  }

  /** Tombstoning the unreadable line `k` at its own offset is one more visited line. */
  lemma PartlyBury(data: Bytes, lines: seq<Bytes>, tail: Bytes, k: nat, readable: Bytes -> bool)
    requires lines == Complete(Lines(data)) && tail == Tail(Lines(data))
    requires k < |lines| && IsUnreadable(lines[k], readable)
    ensures var now := Join(Partly(lines, tail, k, readable), NL);
            var offset := |Terminated(lines[..k], NL)|;
            && offset + |lines[k]| <= |now|
            && WriteAt(now, offset, TombstoneBytes(|lines[k]|)) == Join(Partly(lines, tail, k + 1, readable), NL)
  {
    var part := Partly(lines, tail, k, readable);
    assert part[k] == lines[k];
    PartlyClean(data, k, readable);
    PartlyOffset(lines, tail, k, readable);
    PartlyStep(lines, tail, k, readable);
    BuryAt(part, k);
  }

  lemma PartlyClean(data: Bytes, k: nat, readable: Bytes -> bool)
    requires k <= |Complete(Lines(data))|
    ensures Clean(Partly(Complete(Lines(data)), Tail(Lines(data)), k, readable), NL)
  {
    SplitIsClean(data, NL);
    BuriedClean(Complete(Lines(data))[..k], readable);
  }

  lemma PartlyOffset(lines: seq<Bytes>, tail: Bytes, k: nat, readable: Bytes -> bool)
    requires k < |lines|
    ensures Offset(Partly(lines, tail, k, readable), k) == |Terminated(lines[..k], NL)|
  {
    var part := Partly(lines, tail, k, readable);
    BuriedAt(lines[..k], readable);
    assert forall j :: 0 <= j < k ==> part[j] == Buried(lines[..k], readable)[j];
    OffsetStable(part, lines, k);
    JoinAround(lines, NL, k);
  }

  lemma ReadEnd(data: Bytes, limit: nat, readable: Bytes -> bool)
    ensures var lines := Complete(Lines(data));
            && PendingItems(lines + [[]], 0, readable) == PendingItems(lines, 0, readable)
            && FirstItems(lines + [[]], limit, readable) == Batch(data, limit, readable)
            && |PendingItems(lines, 0, readable)| == Pending(lines, readable)
            && Unreadable(lines + [[]], readable) == Unreadable(lines, readable)
            && Partly(lines, Tail(Lines(data)), |lines|, readable) == Buried(lines, readable) + [Tail(Lines(data))]
  {
    var lines := Complete(Lines(data));
    BlankLine();
    ItemsConcat(lines, [[]], 0, readable);
    assert PendingItems([[]], |Terminated(lines, NL)|, readable) == [];
    BuriedConcat(lines, [[]], readable);
    assert Unreadable([[]], readable) == [];
    ItemsCount(lines, 0, readable);
    assert lines[..|lines|] == lines;
  }
}

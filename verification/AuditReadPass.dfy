/**
 The object and the state machine agree: one call of `Queue.ReadBatch`, which
 buries every unreadable line on its way, is a run of burying steps followed by
 one reading step.
 */
module AuditReadPass {
  import opened WalLines
  import opened WalBytes
  import opened WalBatch
  import opened AuditQueue
  import opened AuditProtocol
  import opened AuditSafety

  /** The state once the first `k` complete lines were visited. */
  function VisitedState(c: Config, s: State, k: nat): State
    requires k <= |Complete(Lines(s.wal))|
  {
    var lines, h := Complete(Lines(s.wal)), s.history;
    var buried := Texts(Unreadable(lines[..k], c.readable));
    s.(wal := Separated.Join(Partly(lines, Tail(Lines(s.wal)), k, c.readable), NL),
       history := h.(dead := h.dead + buried, struck := h.struck + buried))
  }

  lemma {:induction false} RunSnoc(c: Config, s: State, steps: seq<Step>, step: Step)
    requires Legal(c, s, steps) && Enabled(c, Exec(c, s, steps), step)
    ensures Legal(c, s, steps + [step])
    ensures Exec(c, s, steps + [step]) == Apply(c, Exec(c, s, steps), step)
    decreases |steps|
  {
    if steps == [] {
      assert steps + [step] == [step] && [step][1..] == [];
      assert Legal(c, Apply(c, s, step), []);
    } else {
      assert (steps + [step])[1..] == steps[1..] + [step];
      RunSnoc(c, Apply(c, s, steps[0]), steps[1..], step);
    }
  }

  lemma UnreadableSnoc(lines: seq<Bytes>, k: nat, readable: Bytes -> bool)
    requires k < |lines|
    ensures Texts(Unreadable(lines[..k + 1], readable))
         == Texts(Unreadable(lines[..k], readable))
            + (if IsUnreadable(lines[k], readable) then Text(lines[k]) else multiset{})
  {
    assert lines[..k + 1] == lines[..k] + [lines[k]];
    BuriedConcat(lines[..k], [lines[k]], readable);
    TextsConcat(Unreadable(lines[..k], readable), Unreadable([lines[k]], readable));
    LineTexts(lines[k]);
  }

  /** The lines in the middle of the visit: line `k` is still as it was. */
  lemma VisitedLines(c: Config, s: State, k: nat)
    requires k < |Complete(Lines(s.wal))|
    ensures var now := Lines(VisitedState(c, s, k).wal);
            && now == Partly(Complete(Lines(s.wal)), Tail(Lines(s.wal)), k, c.readable)
            && k < |Complete(now)| && now[k] == Lines(s.wal)[k]
  {
    var lines := Complete(Lines(s.wal));
    PartlyClean(s.wal, k, c.readable);
    Separated.SplitJoin(Partly(lines, Tail(Lines(s.wal)), k, c.readable), NL);
  }

  lemma VisitStep(c: Config, s: State, k: nat)
    requires s.drainer.Top? && k < |Complete(Lines(s.wal))| && IsUnreadable(Lines(s.wal)[k], c.readable)
    ensures var now, n := VisitedState(c, s, k), |Lines(s.wal)[k]|;
            && Enabled(c, now, Bury(k, n, true))
            && Apply(c, now, Bury(k, n, true)) == VisitedState(c, s, k + 1)
  {
    var now, line := VisitedState(c, s, k), Lines(s.wal)[k];
    var lines, tail := Complete(Lines(s.wal)), Tail(Lines(s.wal));
    VisitedLines(c, s, k);
    PartlyBury(s.wal, lines, tail, k, c.readable);
    PartlyOffset(lines, tail, k, c.readable);
    assert TombstoneBytes(|line|)[..|line|] == TombstoneBytes(|line|);
    UnreadableSnoc(lines, k, c.readable);
    BlankLine();
    VisitHistory(s.history, Texts(Unreadable(lines[..k], c.readable)), One(Trim(line)));
  }

  lemma VisitSkip(c: Config, s: State, k: nat)
    requires k < |Complete(Lines(s.wal))| && !IsUnreadable(Lines(s.wal)[k], c.readable)
    ensures VisitedState(c, s, k + 1) == VisitedState(c, s, k)
  {
    var lines := Complete(Lines(s.wal));
    PartlyStep(lines, Tail(Lines(s.wal)), k, c.readable);
    UnreadableSnoc(lines, k, c.readable);
  }

  lemma VisitHistory(h: History, seen: multiset<Bytes>, more: multiset<Bytes>)
    ensures h.dead + seen + more == h.dead + (seen + more)
    ensures h.struck + seen + more == h.struck + (seen + more)
  {
  }

  /** These burying steps take the machine to the state once `k` lines were visited. */
  ghost predicate Buries(c: Config, s: State, steps: seq<Step>, k: nat) {
    && k <= |Complete(Lines(s.wal))|
    && Legal(c, s, steps) && Exec(c, s, steps) == VisitedState(c, s, k)
  }

  lemma BuryOneMore(c: Config, s: State, steps: seq<Step>, k: nat)
    requires s.drainer.Top? && k < |Complete(Lines(s.wal))| && Buries(c, s, steps, k)
    requires IsUnreadable(Lines(s.wal)[k], c.readable)
    ensures Buries(c, s, steps + [Bury(k, |Lines(s.wal)[k]|, true)], k + 1)
  {
    VisitStep(c, s, k);
    RunSnoc(c, s, steps, Bury(k, |Lines(s.wal)[k]|, true));
  }

  lemma {:induction false} BuryingRun(c: Config, s: State, k: nat) returns (steps: seq<Step>)
    requires s.drainer.Top? && k <= |Complete(Lines(s.wal))|
    ensures Buries(c, s, steps, k)
  {
    if k == 0 {
      VisitNothing(c, s);
      steps := [];
    } else {
      steps := BuryingRun(c, s, k - 1);
      if IsUnreadable(Lines(s.wal)[k - 1], c.readable) {
        BuryOneMore(c, s, steps, k - 1);
        steps := steps + [Bury(k - 1, |Lines(s.wal)[k - 1]|, true)];
      } else {
        VisitSkip(c, s, k - 1);
      }
    }
  }

  lemma VisitNothing(c: Config, s: State)
    ensures VisitedState(c, s, 0) == s
  {
    var lines := Lines(s.wal);
    assert Partly(Complete(lines), Tail(lines), 0, c.readable) == lines;
    Separated.JoinSplit(s.wal, NL);
    assert s.history.dead + multiset{} == s.history.dead;
    assert s.history.struck + multiset{} == s.history.struck;
  }

  /**
   The whole call: the machine reaches the file, the batch, the gauge and the
   dead letters that `Queue.ReadBatch` promises.
   */
  lemma ReadBatchIsRun(c: Config, s: State) returns (steps: seq<Step>)
    requires s.drainer.Top?
    ensures Legal(c, s, steps)
    ensures var s', lines := Exec(c, s, steps), Complete(Lines(s.wal));
            && s'.wal == AfterRead(s.wal, c.readable)
            && s'.drainer.Working?
            && s'.drainer.batch == WalEntries(Batch(s.wal, c.batchSize, c.readable)) + MemoryEntries(s.mem)
            && s'.mem == [] && s'.backlog == Pending(lines, c.readable) + |s.mem|
            && s'.history.dead == s.history.dead + Texts(Unreadable(lines, c.readable))
  {
    var lines := Complete(Lines(s.wal));
    var burying := BuryingRun(c, s, |lines|);
    assert lines[..|lines|] == lines;
    ReadEnd(s.wal, c.batchSize, c.readable);
    ReadIsStable(s.wal, c.batchSize, c.readable);
    RunSnoc(c, s, burying, ReadBatch);
    steps := burying + [ReadBatch];
  }
}

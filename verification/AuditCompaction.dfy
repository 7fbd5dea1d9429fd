/**
 Compaction as file operations.  The log is read and filtered, the kept lines
 are written to a temporary file, and a rename puts it in place; the process may
 die, or an operation fail, at every point.  `walMu` is held throughout, so no
 other step of the queue falls in between.
 */
module AuditCompaction {
  import opened WalLines
  import opened WalBytes

  datatype Temp = NoTemp | Temp(content: Bytes)

  datatype Pass =
    | NoPass
    | Writing(content: Bytes, written: nat)   // the temporary file holds content[..written]
    | Flushed(content: Bytes)                 // synced and closed, about to be renamed

  datatype Files = Files(wal: Bytes, temp: Temp, pass: Pass)

  datatype FileStep = Begin | WriteSome(n: nat) | Sync | Rename | OperationFails | Die

  predicate Enabled(f: Files, step: FileStep) {
    match step
    case Begin => f.pass.NoPass?
    case WriteSome(n) => f.pass.Writing? && f.pass.written + n <= |f.pass.content|
    case Sync => f.pass.Writing? && f.pass.written == |f.pass.content|
    case Rename => f.pass.Flushed? && f.temp.Temp?
    case OperationFails => !f.pass.NoPass?
    case Die => true
  }

  function Apply(f: Files, step: FileStep): Files
    requires Enabled(f, step)
  {
    match step
    case Begin => f.(temp := Temp([]), pass := Writing(Compacted(f.wal), 0))
    case WriteSome(n) =>
      var written := f.pass.written + n;
      f.(temp := Temp(f.pass.content[..written]), pass := Writing(f.pass.content, written))
    case Sync => f.(pass := Flushed(f.pass.content))
    case Rename => Files(f.temp.content, NoTemp, NoPass)
    case OperationFails => f.(temp := NoTemp, pass := NoPass)
    case Die => f.(pass := NoPass)
  }

  predicate Legal(f: Files, steps: seq<FileStep>)
    decreases |steps|
  {
    steps == [] || (Enabled(f, steps[0]) && Legal(Apply(f, steps[0]), steps[1..]))
  }

  function Exec(f: Files, steps: seq<FileStep>): Files
    requires Legal(f, steps)
    decreases |steps|
  {
    if steps == [] then f else Exec(Apply(f, steps[0]), steps[1..])
  }

  /** What is being written is the compacted log, and the temporary file holds the part written. */
  predicate PassOk(f: Files) {
    match f.pass
    case NoPass => true
    case Writing(content, written) =>
      content == Compacted(f.wal) && written <= |content| && f.temp == Temp(content[..written])
    case Flushed(content) => content == Compacted(f.wal) && f.temp == Temp(content)
  }

  lemma StepKeepsLines(f: Files, step: FileStep)
    requires PassOk(f) && Enabled(f, step)
    ensures PassOk(Apply(f, step))
    ensures Apply(f, step).wal == f.wal || Apply(f, step).wal == Compacted(f.wal)
    ensures Kept(Lines(Apply(f, step).wal)) == Kept(Lines(f.wal))
  {
    if step.Rename? {
      CompactionKeeps(f.wal);
    } else {
      OthersKeepLog(f, step);
    }
  }

  lemma OthersKeepLog(f: Files, step: FileStep)
    requires PassOk(f) && Enabled(f, step) && !step.Rename?
    ensures PassOk(Apply(f, step)) && Apply(f, step).wal == f.wal
  {
    match step
    case Begin => assert Compacted(f.wal)[..0] == [];
    case Sync => assert f.pass.content[..|f.pass.content|] == f.pass.content;
    case _ =>
  }

  /**
   However often compaction starts, fails or is cut short, and whatever an
   earlier process left in the temporary file, the log holds the same kept lines
   in the same order.
   */
  lemma {:induction false} CompactionIsCrashSafe(f: Files, steps: seq<FileStep>)
    requires PassOk(f) && Legal(f, steps)
    ensures Kept(Lines(Exec(f, steps).wal)) == Kept(Lines(f.wal))
    decreases |steps|
  {
    if steps != [] {
      StepKeepsLines(f, steps[0]);
      CompactionIsCrashSafe(Apply(f, steps[0]), steps[1..]);
    }
  }
}

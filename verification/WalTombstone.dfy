/**
 What `tombstoneWAL` does to the log: exactly when it removes one copy of the
 event it was asked to settle.
 */
module WalTombstone {
  import opened Separated
  import opened WalLines
  import opened WalBytes

  /** The line that holds the remembered offset. */
  function LineAt(data: Bytes, hint: nat): Bytes {
    Lines(data)[PieceAt(Lines(data), hint)]
  }

  /**
   A condition a caller can test beforehand: some kept line has the target's
   text, and if the bytes at the remembered offset equal the target then the
   line around that offset has the target's text.
   */
  predicate SettleCondition(data: Bytes, target: Bytes, hint: int) {
    && Trim(target) in Texts(Lines(data))
    && (HintHits(data, target, hint) ==> Matches(LineAt(data, hint), target))
  }

  /** The log lost one copy of `text` and nothing else. */
  predicate LosesOne(before: Bytes, after: Bytes, text: Bytes) {
    && text in Texts(Lines(before))
    && Texts(Lines(after)) == Texts(Lines(before)) - multiset{text}
  }

  predicate AllSpace(s: Bytes) {
    TrimLeft(s) == []
  }

  lemma AllSpaceFacts(s: Bytes)
    ensures AllSpace(s) <==> forall i :: 0 <= i < |s| ==> IsSpace(s[i])
  {
    TrimLeftFacts(s);
    if TrimLeft(s) != [] { assert s[|s| - |TrimLeft(s)|] == TrimLeft(s)[0]; }
  }

  /** A strike behind spaces only kills the line. */
  lemma StrikeAtHead(pre: Bytes, target: Bytes, post: Bytes)
    requires IsKept(target) && AllSpace(pre)
    ensures IsKept(pre + target + post)
    ensures IsTombstone(pre + TombstoneBytes(|target|) + post)
  {
    assert target != [] by { BlankLine(); }
    AllSpaceFacts(pre);
    var tomb := TombstoneBytes(|target|);
    TrimHead(target);
    TrimHead(pre + target + post);
    assert pre + target + post == pre + (target + post);
    TrimLeftAfterSpaces(pre, target + post);
    TrimLeftPrefix(target, post);
    TrimHead(pre + tomb + post);
    assert pre + tomb + post == pre + (tomb + post);
    TrimLeftAfterSpaces(pre, tomb + post);
    assert TrimLeft(tomb) == tomb;
    TrimLeftPrefix(tomb, post);
  }

  /** A strike behind something else leaves the line kept or not as it was. */
  lemma StrikeInside(pre: Bytes, target: Bytes, post: Bytes)
    requires !AllSpace(pre)
    ensures IsKept(pre + TombstoneBytes(|target|) + post) == IsKept(pre + target + post)
  {
    var tomb := TombstoneBytes(|target|);
    TrimHead(pre + target + post);
    TrimHead(pre + tomb + post);
    assert pre + target + post == pre + (target + post);
    assert pre + tomb + post == pre + (tomb + post);
    TrimLeftPrefix(pre, target + post);
    TrimLeftPrefix(pre, tomb + post);
  }

  /** Text in front of the target makes the line's text longer than the target's. */
  lemma LongerText(pre: Bytes, target: Bytes, post: Bytes)
    requires !AllSpace(pre) && Trim(target) != []
    ensures |Trim(pre + target + post)| > |Trim(target)|
  {
    var x := TrimLeft(pre);
    assert pre + target + post == pre + (target + post);
    TrimLeftPrefix(pre, target + post);
    var y := x + (target + post);
    var u := TrimLeft(target);
    TrimLeftFacts(target);
    TrimRightFacts(u);
    var v := TrimRight(u);
    var at := |target| - |u| + |v| - 1;
    assert target[at] == u[|v| - 1] == v[|v| - 1];
    assert y[|x| + at] == target[at];
    TrimRightFacts(y);
  }

  /** The effect of a strike at the remembered offset on the texts. */
  lemma StruckAtHint(data: Bytes, target: Bytes, hint: nat)
    requires NL !in target && IsKept(target) && HintHits(data, target, hint)
    ensures LosesOne(data, Settled(data, target, hint), Trim(target)) <==> SettleCondition(data, target, hint)
  {
    var lines := Lines(data);
    var i := PieceAt(lines, hint);
    var p := hint - Offset(lines, i);
    HitInLine(data, target, hint);
    var pre, post := lines[i][..p], lines[i][p + |target|..];
    var tomb := TombstoneBytes(|target|);
    assert lines[i] == pre + target + post;
    WriteLine(data, i, p, tomb);
    assert tomb[..|target|] == tomb;
    var line' := pre + tomb + post;
    assert Lines(Settled(data, target, hint)) == lines[i := line'];
    Replace(lines, i, line', _ => true);
    if AllSpace(pre) {
      StrikeAtHead(pre, target, post);
      assert Text(lines[i]) == multiset{Trim(lines[i])} && Text(line') == multiset{};
      assert Texts(lines[i := line']) == Texts(lines) - multiset{Trim(lines[i])};
      if Trim(lines[i]) != Trim(target) {
        assert Texts(lines[i := line'])[Trim(target)] == Texts(lines)[Trim(target)];
      }
    } else {
      StrikeInside(pre, target, post);
      LongerText(pre, target, post);
      assert |Text(line')| == |Text(lines[i])|;
      assert |Texts(lines[i := line'])| == |Texts(lines)|;
    }
  }

  /** Without a hit the scan strikes the first kept line with the target's text, whole. */
  lemma StruckByScan(data: Bytes, target: Bytes, hint: int)
    requires NL !in target && IsKept(target) && !HintHits(data, target, hint)
    ensures LosesOne(data, Settled(data, target, hint), Trim(target)) <==> Trim(target) in Texts(Lines(data))
  {
    var lines := Lines(data);
    var t := Trim(target);
    if t in Texts(lines) {
      var w := TextWitness(lines, t);
      var i := FirstMatch(lines, target);
      assert i <= w;
      JoinSplit(data, NL);
      PieceBounds(lines, NL, i);
      var tomb := TombstoneBytes(|lines[i]|);
      assert tomb[..|lines[i]|] == tomb;
      TornTombstoneLines(data, i, |lines[i]|);
      var after := Lines(Settled(data, target, hint));
      assert after == lines[i := after[i]];
      Replace(lines, i, after[i], _ => true);
    }
  }

  /**
   `tombstoneWAL` removes exactly one live copy of the event it settles if and
   only if the condition holds; the file length never changes and all bytes
   outside the located span stay.
   */
  lemma SettleExact(data: Bytes, target: Bytes, hint: int)
    requires NL !in target && IsKept(target)
    ensures LosesOne(data, Settled(data, target, hint), Trim(target)) <==> SettleCondition(data, target, hint)
    ensures |Settled(data, target, hint)| == |data|
    ensures forall k :: 0 <= k < |data| && Settled(data, target, hint)[k] != data[k] ==>
              var at := Locate(data, target, hint);
              at.Found? && at.offset <= k < at.offset + at.length
  {
    if HintHits(data, target, hint) {
      StruckAtHint(data, target, hint);
    } else {
      StruckByScan(data, target, hint);
    }
  }
}

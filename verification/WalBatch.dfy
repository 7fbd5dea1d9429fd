/**
 One read pass of the drainer over the log: the pending events with their
 offsets, and the unreadable lines it buries on the way.
 */
module WalBatch {
  import opened Separated
  import opened WalLines
  import opened WalBytes

  datatype Item = Item(line: Bytes, offset: nat)

  /** The pending lines in file order, each with the offset it starts at. */
  function PendingItems(lines: seq<Bytes>, base: nat, readable: Bytes -> bool): seq<Item> {
    if lines == [] then []
    else
      (if IsPending(lines[0], readable) then [Item(lines[0], base)] else [])
      + PendingItems(lines[1..], base + |lines[0]| + 1, readable)
  }

  /** The first `limit` pending events among the complete lines. */
  function Batch(data: Bytes, limit: nat, readable: Bytes -> bool): seq<Item> {
    var items := PendingItems(Complete(Lines(data)), 0, readable);
    if |items| <= limit then items else items[..limit]
  }

  predicate IsUnreadable(line: Bytes, readable: Bytes -> bool) {
    IsKept(line) && !readable(line)
  }

  /** The kept lines that do not decode, in file order: what a read pass dead-letters. */
  function Unreadable(lines: seq<Bytes>, readable: Bytes -> bool): seq<Bytes> {
    if lines == [] then []
    else (if IsUnreadable(lines[0], readable) then [lines[0]] else []) + Unreadable(lines[1..], readable)
  }

  function BuriedLine(line: Bytes, readable: Bytes -> bool): (r: Bytes)
    ensures |r| == |line|
  {
    if IsUnreadable(line, readable) then TombstoneBytes(|line|) else line
  }

  /** The lines after every unreadable one was tombstoned. */
  function Buried(lines: seq<Bytes>, readable: Bytes -> bool): (r: seq<Bytes>)
    ensures |r| == |lines|
  {
    if lines == [] then [] else [BuriedLine(lines[0], readable)] + Buried(lines[1..], readable)
  }

  /** The file after a read pass: the unterminated tail is left alone. */
  function AfterRead(data: Bytes, readable: Bytes -> bool): Bytes {
    Join(Buried(Complete(Lines(data)), readable) + [Tail(Lines(data))], NL)
  }

  // ------------------------------------------------- the batch, characterised

  lemma {:induction false} ItemsConcat(a: seq<Bytes>, b: seq<Bytes>, base: nat, readable: Bytes -> bool)
    ensures PendingItems(a + b, base, readable)
         == PendingItems(a, base, readable) + PendingItems(b, base + |Terminated(a, NL)|, readable)
  {
    if a == [] {
      assert a + b == b;
    } else {
      assert (a + b)[1..] == a[1..] + b;
      ItemsConcat(a[1..], b, base + |a[0]| + 1, readable);
    }
  }

  lemma {:induction false} ItemsCount(lines: seq<Bytes>, base: nat, readable: Bytes -> bool)
    ensures |PendingItems(lines, base, readable)| == Pending(lines, readable)
  {
    if lines != [] { ItemsCount(lines[1..], base + |lines[0]| + 1, readable); }
  }

  /** An item is a pending line at its own offset, and every pending line is an item. */
  ghost predicate IsItem(item: Item, lines: seq<Bytes>, base: nat, readable: Bytes -> bool) {
    exists i :: 0 <= i < |lines| && IsPending(lines[i], readable) && item == Item(lines[i], base + Offset(lines, i))
  }

  lemma IsItemCons(item: Item, lines: seq<Bytes>, base: nat, readable: Bytes -> bool)
    requires lines != []
    ensures IsItem(item, lines, base, readable) <==>
            || (IsPending(lines[0], readable) && item == Item(lines[0], base))
            || IsItem(item, lines[1..], base + |lines[0]| + 1, readable)
  {
    var rest, next := lines[1..], base + |lines[0]| + 1;
    if IsItem(item, lines, base, readable) {
      var i :| 0 <= i < |lines| && IsPending(lines[i], readable) && item == Item(lines[i], base + Offset(lines, i));
      if i > 0 { assert rest[i - 1] == lines[i]; }
    }
    if IsPending(lines[0], readable) && item == Item(lines[0], base) {
      assert Offset(lines, 0) == 0;
    }
    if IsItem(item, rest, next, readable) {
      var i :| 0 <= i < |rest| && IsPending(rest[i], readable) && item == Item(rest[i], next + Offset(rest, i));
      assert lines[i + 1] == rest[i];
    }
  }

  lemma {:induction false} ItemsAre(lines: seq<Bytes>, base: nat, readable: Bytes -> bool, item: Item)
    ensures item in PendingItems(lines, base, readable) <==> IsItem(item, lines, base, readable)
  {
    if lines != [] {
      ItemsAre(lines[1..], base + |lines[0]| + 1, readable, item);
      IsItemCons(item, lines, base, readable);
    }
  }

  ghost predicate Ascending(items: seq<Item>, base: nat) {
    && (forall k :: 0 <= k < |items| ==> base <= items[k].offset)
    && (forall j, k :: 0 <= j < k < |items| ==> items[j].offset < items[k].offset)
  }

  lemma AscendingCons(item: Item, items: seq<Item>, base: nat)
    requires Ascending(items, base) && item.offset < base
    ensures Ascending([item] + items, item.offset)
  {
    var all := [item] + items;
    forall k | 0 <= k < |all| ensures item.offset <= all[k].offset {
      if k > 0 { assert all[k] == items[k - 1]; }
    }
    forall j, k | 0 <= j < k < |all| ensures all[j].offset < all[k].offset {
      assert all[k] == items[k - 1];
      if j > 0 { assert all[j] == items[j - 1]; }
    }
  }

  lemma {:induction false} ItemsOrdered(lines: seq<Bytes>, base: nat, readable: Bytes -> bool)
    ensures Ascending(PendingItems(lines, base, readable), base)
  {
    if lines != [] {
      var next := base + |lines[0]| + 1;
      var rest := PendingItems(lines[1..], next, readable);
      ItemsOrdered(lines[1..], next, readable);
      if IsPending(lines[0], readable) {
        AscendingCons(Item(lines[0], base), rest, next);
      } else {
        assert PendingItems(lines, base, readable) == rest;
      }
    }
  }

  /** Items occupy whole terminated lines of the file. */
  predicate WholeLineAt(data: Bytes, item: Item) {
    && item.offset + |item.line| < |data|
    && data[item.offset..item.offset + |item.line|] == item.line
    && data[item.offset + |item.line|] == NL
    && (item.offset > 0 ==> data[item.offset - 1] == NL)
  }

  lemma CompleteLineWhole(data: Bytes, i: nat)
    requires i < |Complete(Lines(data))|
    ensures WholeLineAt(data, Item(Lines(data)[i], Offset(Complete(Lines(data)), i)))
  {
    var lines := Lines(data);
    OffsetStable(lines, Complete(lines), i);
    JoinSplit(data, NL);
    JoinAround(lines, NL, i);
    var before, after := Terminated(lines[..i], NL), Led(lines[i + 1..], NL);
    assert after[0] == NL;
    if i > 0 { TerminatedEnds(lines[..i]); }
  }

  /**
   A read pass takes the first `limit` pending events in file order: each entry
   is a whole line of the file at its recorded offset, offsets ascend, and an
   event is left out only when the batch is full of earlier ones.
   */
  lemma BatchExact(data: Bytes, limit: nat, readable: Bytes -> bool)
    ensures var batch := Batch(data, limit, readable);
            var lines := Complete(Lines(data));
            && |batch| == (if Pending(lines, readable) <= limit then Pending(lines, readable) else limit)
            && (forall k :: 0 <= k < |batch| ==> IsPending(batch[k].line, readable) && WholeLineAt(data, batch[k]))
            && (forall j, k :: 0 <= j < k < |batch| ==> batch[j].offset < batch[k].offset)
            && (forall i :: 0 <= i < |lines| && IsPending(lines[i], readable) ==>
                  || Item(lines[i], Offset(lines, i)) in batch
                  || (|batch| == limit && forall k :: 0 <= k < |batch| ==> batch[k].offset < Offset(lines, i)))
  {
    var lines := Complete(Lines(data));
    var items := PendingItems(lines, 0, readable);
    var batch := Batch(data, limit, readable);
    ItemsCount(lines, 0, readable);
    ItemsOrdered(lines, 0, readable);
    forall k | 0 <= k < |batch| ensures IsPending(batch[k].line, readable) && WholeLineAt(data, batch[k]) {
      assert batch[k] == items[k];
      ItemsAre(lines, 0, readable, items[k]);
      var i :| 0 <= i < |lines| && IsPending(lines[i], readable) && items[k] == Item(lines[i], 0 + Offset(lines, i));
      CompleteLineWhole(data, i);
    }
    forall i | 0 <= i < |lines| && IsPending(lines[i], readable)
      ensures || Item(lines[i], Offset(lines, i)) in batch
              || (|batch| == limit && forall k :: 0 <= k < |batch| ==> batch[k].offset < Offset(lines, i))
    {
      var item := Item(lines[i], Offset(lines, i));
      assert item == Item(lines[i], 0 + Offset(lines, i));
      ItemsAre(lines, 0, readable, item);
      var m :| 0 <= m < |items| && items[m] == item;
      if m < |batch| { assert batch[m] == item; }
    }
  }

  // ----------------------------------------------- the batch as a bag of texts

  function ItemTexts(items: seq<Item>): multiset<Bytes> {
    if items == [] then multiset{} else multiset{Trim(items[0].line)} + ItemTexts(items[1..])
  }

  lemma {:induction false} ItemTextsConcat(a: seq<Item>, b: seq<Item>)
    ensures ItemTexts(a + b) == ItemTexts(a) + ItemTexts(b)
  {
    if a == [] {
      assert a + b == b;
    } else {
      assert (a + b)[1..] == a[1..] + b;
      ItemTextsConcat(a[1..], b);
    }
  }

  lemma {:induction false} ItemsWithinTexts(lines: seq<Bytes>, base: nat, readable: Bytes -> bool)
    ensures ItemTexts(PendingItems(lines, base, readable)) <= Texts(lines)
  {
    if lines != [] {
      var rest := PendingItems(lines[1..], base + |lines[0]| + 1, readable);
      ItemsWithinTexts(lines[1..], base + |lines[0]| + 1, readable);
      if IsPending(lines[0], readable) {
        assert PendingItems(lines, base, readable)[1..] == rest;
      } else {
        assert PendingItems(lines, base, readable) == rest;
      }
    }
  }

  lemma ItemsPrefix(items: seq<Item>, limit: nat)
    requires limit <= |items|
    ensures ItemTexts(items[..limit]) <= ItemTexts(items)
  {
    assert items == items[..limit] + items[limit..];
    ItemTextsConcat(items[..limit], items[limit..]);
  }

  lemma CompleteWithinTexts(lines: seq<Bytes>)
    requires |lines| >= 1
    ensures Texts(Complete(lines)) <= Texts(lines)
  {
    var body: seq<Bytes>, last: seq<Bytes> := Complete(lines), [Tail(lines)];
    assert lines == body + last;
    TextsConcat(body, last);
  }

  /** The entries of a batch never outnumber, text by text, the kept lines of the log. */
  lemma BatchWithinTexts(data: Bytes, limit: nat, readable: Bytes -> bool)
    ensures ItemTexts(Batch(data, limit, readable)) <= Texts(Lines(data))
  {
    var lines := Lines(data);
    var items := PendingItems(Complete(lines), 0, readable);
    ItemsWithinTexts(Complete(lines), 0, readable);
    if |items| > limit { ItemsPrefix(items, limit); }
    CompleteWithinTexts(lines);
  }

  // ------------------------------------------------------------------ burying

  lemma {:induction false} BuriedConcat(a: seq<Bytes>, b: seq<Bytes>, readable: Bytes -> bool)
    ensures Buried(a + b, readable) == Buried(a, readable) + Buried(b, readable)
    ensures Unreadable(a + b, readable) == Unreadable(a, readable) + Unreadable(b, readable)
  {
    UnreadableConcat(a, b, readable);
    if a == [] {
      assert a + b == b;
    } else {
      var rest: seq<Bytes>, first: seq<Bytes> := a[1..], [BuriedLine(a[0], readable)];
      assert (a + b)[1..] == rest + b && (a + b)[0] == a[0];
      BuriedConcat(rest, b, readable);
      assert first + (Buried(rest, readable) + Buried(b, readable)) == (first + Buried(rest, readable)) + Buried(b, readable);
    }
  }

  lemma {:induction false} UnreadableConcat(a: seq<Bytes>, b: seq<Bytes>, readable: Bytes -> bool)
    ensures Unreadable(a + b, readable) == Unreadable(a, readable) + Unreadable(b, readable)
  {
    if a == [] {
      assert a + b == b;
    } else {
      var rest: seq<Bytes>, first: seq<Bytes> := a[1..], if IsUnreadable(a[0], readable) then [a[0]] else [];
      assert (a + b)[1..] == rest + b && (a + b)[0] == a[0];
      UnreadableConcat(rest, b, readable);
      assert first + (Unreadable(rest, readable) + Unreadable(b, readable))
          == (first + Unreadable(rest, readable)) + Unreadable(b, readable);
    }
  }

  lemma BuriedLineFacts(line: Bytes, readable: Bytes -> bool)
    ensures IsPending(BuriedLine(line, readable), readable) == IsPending(line, readable)
    ensures IsPending(line, readable) ==> BuriedLine(line, readable) == line
    ensures !IsUnreadable(BuriedLine(line, readable), readable)
    ensures NL !in line ==> NL !in BuriedLine(line, readable)
  {
    if IsUnreadable(line, readable) {
      BlankLine();
      HeadDecides(TombstoneBytes(|line|));
    }
  }

  lemma {:induction false} BuriedAt(lines: seq<Bytes>, readable: Bytes -> bool)
    ensures forall i :: 0 <= i < |lines| ==> Buried(lines, readable)[i] == BuriedLine(lines[i], readable)
  {
    if lines != [] { BuriedAt(lines[1..], readable); }
  }

  lemma BuriedClean(lines: seq<Bytes>, readable: Bytes -> bool)
    requires Clean(lines, NL)
    ensures Clean(Buried(lines, readable), NL)
  {
    BuriedAt(lines, readable);
    forall i | 0 <= i < |lines| ensures NL !in Buried(lines, readable)[i] {
      BuriedLineFacts(lines[i], readable);
    }
  }

  lemma {:induction false} NoneUnreadable(lines: seq<Bytes>, readable: Bytes -> bool)
    ensures Unreadable(Buried(lines, readable), readable) == []
  {
    if lines != [] {
      var buried := Buried(lines, readable);
      BuriedLineFacts(lines[0], readable);
      assert buried[0] == BuriedLine(lines[0], readable) && buried[1..] == Buried(lines[1..], readable);
      NoneUnreadable(lines[1..], readable);
    }
  }

  /** Burying touches no pending line and moves no offset. */
  lemma {:induction false} BuriedKeepsItems(lines: seq<Bytes>, base: nat, readable: Bytes -> bool)
    ensures PendingItems(Buried(lines, readable), base, readable) == PendingItems(lines, base, readable)
    ensures Unreadable(Buried(lines, readable), readable) == []
  {
    NoneUnreadable(lines, readable);
    if lines != [] {
      var first, rest, buried := lines[0], lines[1..], Buried(lines, readable);
      BuriedLineFacts(first, readable);
      assert buried[0] == BuriedLine(first, readable) && buried[1..] == Buried(rest, readable);
      BuriedKeepsItems(rest, base + |first| + 1, readable);
    }
  }

  /**
   A read pass loses no pending event and buries every unreadable line: reading
   the file it leaves behind gives the same batch and finds nothing to bury.
   */
  lemma ReadIsStable(data: Bytes, limit: nat, readable: Bytes -> bool)
    ensures var after := AfterRead(data, readable);
            && Batch(after, limit, readable) == Batch(data, limit, readable)
            && Pending(Complete(Lines(after)), readable) == Pending(Complete(Lines(data)), readable)
            && Tail(Lines(after)) == Tail(Lines(data))
            && Unreadable(Complete(Lines(after)), readable) == []
            && AfterRead(after, readable) == after
  {
    var lines := Lines(data);
    var buried := Buried(Complete(lines), readable);
    var after := buried + [Tail(lines)];
    SplitIsClean(data, NL);
    BuriedClean(Complete(lines), readable);
    BuriedKeepsItems(Complete(lines), 0, readable);
    SplitJoin(after, NL);
    assert Complete(after) == buried;
    ItemsCount(Complete(lines), 0, readable);
    ItemsCount(buried, 0, readable);
    BuriedTwice(Complete(lines), readable);
  }

  lemma {:induction false} BuriedTwice(lines: seq<Bytes>, readable: Bytes -> bool)
    ensures Buried(Buried(lines, readable), readable) == Buried(lines, readable)
  {
    if lines != [] {
      BuriedLineFacts(lines[0], readable);
      assert Buried(lines, readable)[1..] == Buried(lines[1..], readable);
      BuriedTwice(lines[1..], readable);
    }
  }
}

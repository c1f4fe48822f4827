/** The malleability table of a dataset: how many servers were in use when a range of blocks was written. */
module Intervals {
  datatype Interval = Interval(value: int, left: int, right: int)
  {
    predicate Has(id: int) { left <= id <= right }
  }

  /** The value of the first entry that contains `id`, or -1. */
  function Value(table: seq<Interval>, id: int): int
  {
    if table == [] then -1
    else if table[0].Has(id) then table[0].value
    else Value(table[1..], id)
  }

  /** Position of the first entry that contains the whole of [left, right], or the table's length. */
  function Cover(table: seq<Interval>, left: int, right: int): (k: nat)
    ensures k <= |table|
    ensures k < |table| ==> table[k].left <= left && right <= table[k].right
    ensures forall i :: 0 <= i < k ==> !(table[i].left <= left && right <= table[i].right)
  {
    if table == [] then 0
    else if table[0].left <= left && right <= table[0].right then 0
    else 1 + Cover(table[1..], left, right)
  }

  /** The table after a range has been recorded. An entry that already contains the range is cut short
      at the range's right end, except that block zero is never re-recorded. */
  function WithInterval(table: seq<Interval>, value: int, left: int, right: int): seq<Interval>
  {
    var k := Cover(table, left, right);
    if left > right then table
    else if k == |table| then table + [Interval(value, left, right)]
    else if left == 0 && right == 0 then table
    else table[k := Interval(value, table[k].left, right)]
  }

  lemma {:induction false} ValueConcat(a: seq<Interval>, b: seq<Interval>, id: int)
    ensures Value(a + b, id) == if exists i :: 0 <= i < |a| && a[i].Has(id) then Value(a, id) else Value(b, id)
  {
    if a == [] {
      assert a + b == b;
    } else {
      assert (a + b)[1..] == a[1..] + b;
      ValueConcat(a[1..], b, id);
      if exists i :: 0 <= i < |a[1..]| && a[1..][i].Has(id) {
        var i :| 0 <= i < |a[1..]| && a[1..][i].Has(id);
        assert a[i + 1].Has(id);
      }
      if !a[0].Has(id) && exists i :: 0 <= i < |a| && a[i].Has(id) {
        var i :| 0 <= i < |a| && a[i].Has(id);
        assert a[1..][i - 1].Has(id);
      }
    }
  }

  /** Recording a range that no entry contains never changes the answer for a block the table already knew. */
  lemma RecordKeepsAnswers(table: seq<Interval>, value: int, left: int, right: int, id: int)
    requires left <= right && Cover(table, left, right) == |table|
    ensures Value(WithInterval(table, value, left, right), id)
         == if exists i :: 0 <= i < |table| && table[i].Has(id) then Value(table, id)
            else if left <= id <= right then value else -1
  {
    ValueConcat(table, [Interval(value, left, right)], id);
  }

  lemma {:induction false} ValueSplit(table: seq<Interval>, k: nat, id: int)
    requires k < |table|
    ensures Value(table, id)
         == if exists i :: 0 <= i < k && table[i].Has(id) then Value(table[..k], id)
            else if table[k].Has(id) then table[k].value else Value(table[k + 1..], id)
  {
    assert table == table[..k] + table[k..];
    ValueConcat(table[..k], table[k..], id);
    assert table[k..][1..] == table[k + 1..];
    if exists i :: 0 <= i < k && table[i].Has(id) {
      var i :| 0 <= i < k && table[i].Has(id);
      assert table[..k][i].Has(id);
    }
  }

  /** What a table answers once entry k has been given a new value and cut short at `right`. */
  function RerecordedValue(table: seq<Interval>, k: nat, value: int, right: int, id: int): int
    requires k < |table|
  {
    if exists i :: 0 <= i < k && table[i].Has(id) then Value(table[..k], id)
    else if table[k].left <= id <= right then value
    else Value(table[k + 1..], id)
  }

  /** Re-recording a contained range: blocks up to its right end take the new value, even those left of
      the range; blocks of the old entry past it fall through to later entries. */
  lemma RerecordEffect(table: seq<Interval>, value: int, left: int, right: int, id: int)
    requires left <= right && !(left == 0 && right == 0)
    requires Cover(table, left, right) < |table|
    ensures Value(WithInterval(table, value, left, right), id)
         == RerecordedValue(table, Cover(table, left, right), value, right, id)
  {
    var k := Cover(table, left, right);
    var after := WithInterval(table, value, left, right);
    ValueSplit(after, k, id);
    assert after[..k] == table[..k] && after[k + 1..] == table[k + 1..];
    assert forall i :: 0 <= i < k ==> after[i] == table[i];
  }

  /** The part of dataset_info that follows blocks across changes of the server count. */
  class Dataset {
    var intervals: seq<Interval>
    var firstBlock: int
    var lastBlock: int

    constructor ()
      ensures intervals == [] && firstBlock == -1 && lastBlock == -1
    {
      intervals, firstBlock, lastBlock := [], -1, -1;
    }

    method GetValueFromInterval(id: int) returns (v: int)
      ensures v == Value(intervals, id)
    {
      assert intervals[0..] == intervals;
      for i := 0 to |intervals|
        invariant Value(intervals, id) == Value(intervals[i..], id)
      {
        if intervals[i].left <= id && id <= intervals[i].right {
          return intervals[i].value;
        }
        assert intervals[i..][1..] == intervals[i + 1..];
      }
      assert intervals[|intervals|..] == [];
      return -1;
    }

    method GetIntervalPointer(left: int, right: int) returns (k: nat)
      ensures k == Cover(intervals, left, right)
    {
      assert intervals[0..] == intervals;
      for i := 0 to |intervals|
        invariant Cover(intervals, left, right) == i + Cover(intervals[i..], left, right)
      {
        if left >= intervals[i].left && right <= intervals[i].right {
          return i;
        }
        assert intervals[i..][1..] == intervals[i + 1..];
      }
      return |intervals|;
    }

    method SetInterval(value: int, left: int, right: int)
      modifies this`intervals
      ensures intervals == WithInterval(old(intervals), value, left, right)
    {
      if left > right {
        return;
      }
      var k := GetIntervalPointer(left, right);
      if k == |intervals| {
        intervals := intervals + [Interval(value, left, right)];
      } else {
        if left == 0 && right == 0 {
          return;
        }
        intervals := intervals[k := Interval(value, intervals[k].left, right)];
      }
    }

    /** What set_data notes about the range of data blocks written so far. */
    method NoteBlock(b: int)
      modifies this`firstBlock, this`lastBlock
      ensures lastBlock == if b > old(lastBlock) && b != 0 then b else old(lastBlock)
      ensures firstBlock == if old(firstBlock) == -1 && b != 0 then b else old(firstBlock)
    {
      if b > lastBlock && b != 0 {
        lastBlock := b;
      }
      if firstBlock == -1 && b != 0 {
        firstBlock := b;
      }
    }

    /** update_dataset: the first call records block zero and the range written so far; later calls record nothing. */
    method UpdateDataset(n: int)
      modifies this`intervals
      ensures intervals == AfterUpdate(old(intervals), n, firstBlock, lastBlock)
    {
      if |intervals| == 0 {
        SetInterval(n, 0, 0);
        SetInterval(n, firstBlock, lastBlock);
      }
    }
  }

  function AfterUpdate(table: seq<Interval>, n: int, first: int, last: int): seq<Interval>
  {
    if table == [] then WithInterval(WithInterval([], n, 0, 0), n, first, last) else table
  }

  /** The table of a file whose first range of blocks is [first, last]. */
  lemma FirstUpdate(n: int, first: int, last: int)
    requires 1 <= first <= last
    ensures AfterUpdate([], n, first, last) == [Interval(n, 0, 0), Interval(n, first, last)]
  {
    assert WithInterval([], n, 0, 0) == [Interval(n, 0, 0)];
  }

  /** The server count under which a block is looked up: its recorded one, or else the current one. */
  function CountFor(table: seq<Interval>, n: int, b: int): int
  {
    var v := Value(table, b);
    if v == -1 then n else v
  }

  /** Recording the table moves nothing: every block is looked up as before. */
  lemma UpdateMovesNothing(table: seq<Interval>, n: int, first: int, last: int, b: int)
    ensures CountFor(AfterUpdate(table, n, first, last), n, b) == CountFor(table, n, b)
  {
    if table == [] {
      var zero := Interval(n, 0, 0);
      assert WithInterval([], n, 0, 0) == [zero];
      var two := WithInterval([zero], n, first, last);
      assert Value([zero], b) == if zero.Has(b) then n else -1;
      if first <= last {
        if Cover([zero], first, last) == 1 {
          RecordKeepsAnswers([zero], n, first, last, b);
        } else {
          assert two == [zero] || two == [Interval(n, 0, last)];
          assert Value([Interval(n, 0, last)], b) == if 0 <= b <= last then n else -1;
        }
      }
    }
  }
}

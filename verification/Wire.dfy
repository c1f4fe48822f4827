/** Messages that carry a structure and the list it points to: dataset descriptions and deployments. */
module Wire {
  import opened Bytes
  import opened Intervals
  import opened Store
  import P = Prefetch

  const TWO31 := 0x8000_0000

  // --------------------------------------------------------------- integers

  predicate Int32(x: int) { -TWO31 <= x < TWO31 }

  /** A 32-bit int in memory. */
  function EncodeInt(x: int): (s: seq<byte>)
    requires Int32(x)
    ensures |s| == 4
  {
    P.Encode32(if x < 0 then x + TWO32 else x)
  }

  function DecodeInt(s: seq<byte>): (x: int)
    requires |s| == 4
    ensures Int32(x)
  {
    var u := P.Decode32(s);
    if u >= TWO31 then u - TWO32 else u
  }

  lemma IntRoundTrip(x: int)
    requires Int32(x)
    ensures DecodeInt(EncodeInt(x)) == x
  {
    P.DecodeEncode(if x < 0 then x + TWO32 else x);
  }

  // --------------------------------------------------------------- messages

  /** Sizes of the structure's fields before and after its count, and of one element of its list. */
  datatype Layout = Layout(before: nat, after: nat, item: nat)
  {
    function Size(): nat { before + 4 + after }
  }

  /** A structure, byte for byte, and its list. */
  datatype Message = Message(before: seq<byte>, after: seq<byte>, items: seq<seq<byte>>)

  ghost predicate Fits(m: Message, l: Layout)
  {
    && |m.before| == l.before && |m.after| == l.after && |m.items| < TWO31
    && forall i :: 0 <= i < |m.items| ==> |m.items[i]| == l.item
  }

  function Fixed(m: Message): (s: seq<byte>)
    requires |m.items| < TWO31
    ensures |s| == |m.before| + 4 + |m.after|
  {
    m.before + EncodeInt(|m.items|) + m.after
  }

  ghost function Concat(items: seq<seq<byte>>): seq<byte>
  {
    if items == [] then [] else items[0] + Concat(items[1..])
  }

  lemma {:induction false} ConcatSnoc(items: seq<seq<byte>>, i: nat)
    requires i < |items|
    ensures Concat(items[..i + 1]) == Concat(items[..i]) + items[i]
  {
    if i == 0 {
      assert items[..1] == [items[0]] && items[..0] == [];
      assert items[..1][1..] == [];
    } else {
      ConcatSnoc(items[1..], i - 1);
      assert items[..i + 1][1..] == items[1..][..i];
      assert items[..i][1..] == items[1..][..i - 1];
    }
  }

  lemma {:induction false} ConcatFits(items: seq<seq<byte>>, i: nat, len: nat)
    requires i <= |items| && forall j :: 0 <= j < |items| ==> |items[j]| == len
    ensures |Concat(items[..i])| == i * len <= |items| * len
  {
    MulMono(i, |items|, len);
    if i > 0 {
      ConcatFits(items, i - 1, len);
      ConcatSnoc(items, i - 1);
      MulAdd(i - 1, 1, len);
    }
  }

  /** Copies the elements one behind the other. */
  method CopyItems(buffer: array<byte>, start: nat, items: seq<seq<byte>>, len: nat)
    requires buffer.Length == start + |items| * len && forall i :: 0 <= i < |items| ==> |items[i]| == len
    modifies buffer
    ensures start <= buffer.Length && buffer[..] == old(buffer[..start]) + Concat(items)
  {
    ConcatFits(items, 0, len);
    ghost var head := buffer[..start];
    var offset := start;
    for i := 0 to |items|
      invariant offset == start + |Concat(items[..i])| <= buffer.Length
      invariant buffer[..offset] == head + Concat(items[..i])
    {
      ConcatSnoc(items, i);
      ConcatFits(items, i + 1, len);
      ghost var done := Concat(items[..i]);
      Copy(buffer, offset, items[i]);
      assert (head + done) + items[i] == head + (done + items[i]);
      offset := offset + len;
    }
    ConcatFits(items, |items|, len);
    assert items[..|items|] == items;
    assert buffer[..offset] == buffer[..];
  }

  /** The sending side: the buffer is as large as computed beforehand and is filled exactly. */
  method Send(m: Message, l: Layout) returns (msg: seq<byte>)
    requires Fits(m, l)
    ensures msg == Fixed(m) + Concat(m.items) && |msg| == l.Size() + |m.items| * l.item
  {
    MulMono(0, |m.items|, l.item);
    var buffer := new byte[l.Size() + |m.items| * l.item];
    var fixed := Fixed(m);
    Copy(buffer, 0, fixed);
    assert buffer[..|fixed|] == fixed;
    CopyItems(buffer, |fixed|, m.items, l.item);
    msg := buffer[..];
  }

  /** memcpy to a place in a buffer. */
  method Copy(buffer: array<byte>, at: nat, data: seq<byte>)
    requires at + |data| <= buffer.Length
    modifies buffer
    ensures buffer[..at + |data|] == old(buffer[..at]) + data
  {
    forall i | 0 <= i < |data| {
      buffer[at + i] := data[i];
    }
  }

  // -------------------------------------------------------------- receiving

  /** Memory from the start of a received message on: the message, and what lies behind it. */
  datatype Memory = Memory(msg: seq<byte>, behind: nat -> byte)
  {
    function At(from: nat, len: nat): (s: seq<byte>)
      ensures |s| == len
      ensures from + len <= |msg| ==> s == msg[from..from + len]
    {
      seq(len, i requires 0 <= i < len => if from + i < |msg| then msg[from + i] else behind(from + i))
    }

    /** It starts with the text of the no-key message; for deployments a shorter message is not compared. */
    predicate NoKey(guarded: bool)
    {
      (guarded ==> |msg| >= 22) && At(0, 22) == NO_KEY
    }
  }

  /** `count` elements from `from` on. */
  ghost function Items(mem: Memory, from: nat, count: nat, len: nat): seq<seq<byte>>
    decreases count
  {
    if count == 0 then [] else [mem.At(from, len)] + Items(mem, from + len, count - 1, len)
  }

  lemma {:induction false} ItemsOfConcat(mem: Memory, from: nat, items: seq<seq<byte>>, len: nat)
    requires from <= |mem.msg| && mem.msg[from..] == Concat(items) && forall i :: 0 <= i < |items| ==> |items[i]| == len
    ensures Items(mem, from, |items|, len) == items
    decreases |items|
  {
    if items != [] {
      var s := mem.msg[from..];
      assert s[..len] == items[0] && s[len..] == Concat(items[1..]);
      assert mem.msg[from..from + len] == s[..len] && mem.msg[from + len..] == s[len..];
      ItemsOfConcat(mem, from + len, items[1..], len);
    }
  }

  ghost function Received(mem: Memory, l: Layout, guarded: bool): Option<Message>
  {
    if mem.NoKey(guarded) then None else
    Some(Message(mem.At(0, l.before), mem.At(l.before + 4, l.after), Items(mem, l.Size(), Announced(mem, l), l.item)))
  }

  /** How many elements the structure says follow it. */
  function Announced(mem: Memory, l: Layout): nat
  {
    var count := DecodeInt(mem.At(l.before, 4));
    if count < 0 then 0 else count
  }

  method ReadItems(mem: Memory, from: nat, count: nat, len: nat) returns (items: seq<seq<byte>>)
    ensures items == Items(mem, from, count, len)
  {
    items := [];
    var at: nat := from;
    for i := 0 to count
      invariant items + Items(mem, at, count - i, len) == Items(mem, from, count, len)
    {
      assert items + Items(mem, at, count - i, len) == (items + [mem.At(at, len)]) + Items(mem, at + len, count - i - 1, len);
      items := items + [mem.At(at, len)];
      at := at + len;
    }
    assert items + [] == items;
  }

  /** The receiving side, of any message: one that starts like the no-key message is not taken for a structure, and the
      count in the structure is trusted. */
  method Receive(mem: Memory, l: Layout, guarded: bool) returns (r: Option<Message>)
    ensures r == Received(mem, l, guarded)
  {
    if mem.NoKey(guarded) {
      return None;
    }
    var items := ReadItems(mem, l.Size(), Announced(mem, l), l.item);
    return Some(Message(mem.At(0, l.before), mem.At(l.before + 4, l.after), items));
  }

  lemma {:induction false} SameItems(mem: Memory, mem': Memory, from: nat, count: nat, len: nat)
    requires mem.msg == mem'.msg && from + count * len <= |mem.msg|
    ensures Items(mem, from, count, len) == Items(mem', from, count, len)
    decreases count
  {
    if count > 0 {
      MulAdd(count - 1, 1, len);
      MulMono(0, count - 1, len);
      SameItems(mem, mem', from + len, count - 1, len);
    }
  }

  /** A message at least as long as it announces is read without what lies behind it. */
  lemma BehindUnread(mem: Memory, mem': Memory, l: Layout, guarded: bool)
    requires mem.msg == mem'.msg && 22 <= l.Size() && l.Size() + Announced(mem, l) * l.item <= |mem.msg|
    ensures Received(mem, l, guarded) == Received(mem', l, guarded)
  {
    MulMono(0, Announced(mem, l), l.item);
    SameItems(mem, mem', l.Size(), Announced(mem, l), l.item);
  }

  /** A structure arrives as it was sent if and only if it does not start with the text of the no-key message. */
  lemma RoundTrip(m: Message, l: Layout, behind: nat -> byte, guarded: bool)
    requires Fits(m, l) && l.before >= 22
    ensures var mem := Memory(Fixed(m) + Concat(m.items), behind);
            && (Received(mem, l, guarded) == Some(m) <==> m.before[..22] != NO_KEY)
            && (m.before[..22] == NO_KEY ==> Received(mem, l, guarded) == None)
  {
    var list := Concat(m.items);
    var msg := Fixed(m) + list;
    Slices(m.before, EncodeInt(|m.items|), m.after, list, msg, l.before, l.Size());
    assert msg[0..22] == m.before[..22] && msg[0..l.before] == m.before;
    IntRoundTrip(|m.items|);
    ItemsOfConcat(Memory(msg, behind), l.Size(), m.items, l.item);
  }

  lemma Slices(a: seq<byte>, b: seq<byte>, c: seq<byte>, d: seq<byte>, s: seq<byte>, i: nat, k: nat)
    requires s == a + b + c + d && |b| == 4 && i == |a| && k == i + 4 + |c|
    ensures k <= |s| && s[..i] == a && s[i..i + 4] == b && s[i + 4..k] == c && s[k..] == d
  {
  }

  /** Sent and received: dataset descriptions with their intervals, deployments with a 512-byte line per node. */
  method Transfer(m: Message, l: Layout, behind: nat -> byte, guarded: bool) returns (r: Option<Message>)
    requires Fits(m, l) && l.before >= 22
    ensures r == if m.before[..22] == NO_KEY then None else Some(m)
  {
    var msg := Send(m, l);
    RoundTrip(m, l, behind, guarded);
    r := Receive(Memory(msg, behind), l, guarded);
  }

  // --------------------------------------------------------------- datasets

  predicate IntervalOk(e: Interval) { Int32(e.value) && Int32(e.left) && Int32(e.right) }

  function EncodeInterval(e: Interval): (s: seq<byte>)
    requires IntervalOk(e)
    ensures |s| == 12
  {
    EncodeInt(e.value) + EncodeInt(e.left) + EncodeInt(e.right)
  }

  function DecodeInterval(s: seq<byte>): Interval
    requires |s| == 12
  {
    Interval(DecodeInt(s[..4]), DecodeInt(s[4..8]), DecodeInt(s[8..]))
  }

  lemma IntervalRoundTrip(e: Interval)
    requires IntervalOk(e)
    ensures DecodeInterval(EncodeInterval(e)) == e
    ensures var s := EncodeInterval(e); DecodeInt(s[..4]) == e.value && DecodeInt(s[4..8]) == e.left && DecodeInt(s[8..]) == e.right
  {
    var s := EncodeInterval(e);
    assert s[..4] == EncodeInt(e.value) && s[4..8] == EncodeInt(e.left) && s[8..] == EncodeInt(e.right);
    IntRoundTrip(e.value);
    IntRoundTrip(e.left);
    IntRoundTrip(e.right);
  }

  function EncodeTable(t: seq<Interval>): (s: seq<seq<byte>>)
    requires forall i :: 0 <= i < |t| ==> IntervalOk(t[i])
    ensures |s| == |t| && forall i :: 0 <= i < |t| ==> s[i] == EncodeInterval(t[i])
  {
    seq(|t|, i requires 0 <= i < |t| => EncodeInterval(t[i]))
  }

  function DecodeTable(s: seq<seq<byte>>): (t: seq<Interval>)
    requires forall i :: 0 <= i < |s| ==> |s[i]| == 12
    ensures |t| == |s| && forall i :: 0 <= i < |t| ==> t[i] == DecodeInterval(s[i])
  {
    seq(|s|, i requires 0 <= i < |s| => DecodeInterval(s[i]))
  }

  lemma TableRoundTrip(table: seq<Interval>)
    requires forall i :: 0 <= i < |table| ==> IntervalOk(table[i])
    ensures DecodeTable(EncodeTable(table)) == table
  {
    forall i | 0 <= i < |table| ensures DecodeTable(EncodeTable(table))[i] == table[i] {
      IntervalRoundTrip(table[i]);
    }
  }

  /** A dataset with any number of intervals: both sides look every block up with the same server count. */
  lemma DatasetRoundTrip(before: seq<byte>, after: seq<byte>, table: seq<Interval>, l: Layout, behind: nat -> byte)
    requires |table| < TWO31 && forall i :: 0 <= i < |table| ==> IntervalOk(table[i])
    requires l.item == 12 && |before| == l.before >= 22 && |after| == l.after && before[..22] != NO_KEY
    ensures var m := Message(before, after, EncodeTable(table));
            && Received(Memory(Fixed(m) + Concat(m.items), behind), l, false) == Some(m)
            && DecodeTable(m.items) == table
            && forall id :: Value(DecodeTable(m.items), id) == Value(table, id)
  {
    RoundTrip(Message(before, after, EncodeTable(table)), l, behind, false);
    TableRoundTrip(table);
  }
}

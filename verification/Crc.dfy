/** The checksums of crc.c: table look-ups proved equal to bit-serial polynomial division. */
module Crc {
  import opened CrcTables

  /** The byte a C `char` stands for. */
  function ByteOf(c: char): bv8 { (c as int % 256) as bv8 }

  function BytesOf(s: string): (r: seq<bv8>)
    ensures |r| == |s| && forall i :: 0 <= i < |s| ==> r[i] == ByteOf(s[i])
  {
    seq(|s|, i requires 0 <= i < |s| => ByteOf(s[i]))
  }

  /** A register fed one byte at a time. */
  function Feed<T>(step: (T, bv8) -> T, seed: T, s: seq<bv8>): T
  {
    if s == [] then seed else step(Feed(step, seed, s[..|s| - 1]), s[|s| - 1])
  }

  // ------------------------------------------------------------ the reference

  /** One step of division by x^16 + x^12 + x^5 + 1, most significant bit first. */
  function Bit16(x: bv16): bv16 { if x & 0x8000 != 0 then (x << 1) ^ 0x1021 else x << 1 }

  function Byte16(x: bv16): bv16 { Bit16(Bit16(Bit16(Bit16(Bit16(Bit16(Bit16(Bit16(x)))))))) }

  /** The register with the next byte added at its leading end. */
  function Whole16(crc: bv16, b: bv8): bv16 { crc ^ Lead16(b) }

  function Lead16(x: bv8): bv16 { (x as bv16) << 8 }

  function BitByBit16(crc: bv16, b: bv8): bv16 { Byte16(Whole16(crc, b)) }

  /** Remainder of the message read bit by bit. */
  function BitSerial16(s: seq<bv8>): bv16 { Feed(BitByBit16, 0, s) }

  /** One step of the reflected division by 0x95ac9329ac4bc9b5, least significant bit first. */
  function Bit64(x: bv64): bv64 { if x & 1 != 0 then (x >> 1) ^ 0x95ac9329ac4bc9b5 else x >> 1 }

  function Byte64(x: bv64): bv64 { Bit64(Bit64(Bit64(Bit64(Bit64(Bit64(Bit64(Bit64(x)))))))) }

  function Whole64(crc: bv64, b: bv8): bv64 { crc ^ Lead64(b) }

  function Lead64(x: bv8): bv64 { x as bv64 }

  function BitByBit64(crc: bv64, b: bv8): bv64 { Byte64(Whole64(crc, b)) }

  function BitSerial64(seed: bv64, s: seq<bv8>): bv64 { Feed(BitByBit64, seed, s) }

  // ---------------------------------------------------------------- the tables

  /** A single byte reduced bit by bit, as it enters each register. */
  function Reduce16(x: bv8): bv16 { Byte16(Lead16(x)) }

  function Reduce64(x: bv8): bv64 { Byte64(Lead64(x)) }

  function EntryOf<T>(row: seq<T>, c: bv8): T
    requires |row| == 8 && c < 8
  {
    row[c as nat]
  }

  /** The entries of a row are those of `base` shifted by its first one. */
  ghost predicate Shifts<T>(op: (T, T) -> T, row: seq<T>, base: seq<T>)
  {
    && |row| == 8 == |base|
    && row[0] == op(row[0], base[0]) && row[1] == op(row[0], base[1]) && row[2] == op(row[0], base[2]) && row[3] == op(row[0], base[3])
    && row[4] == op(row[0], base[4]) && row[5] == op(row[0], base[5]) && row[6] == op(row[0], base[6]) && row[7] == op(row[0], base[7])
  }

  lemma ShiftsAt<T>(op: (T, T) -> T, row: seq<T>, base: seq<T>, c: bv8)
    requires Shifts(op, row, base) && c < 8
    ensures EntryOf(row, c) == op(row[0], EntryOf(base, c))
  {
    if c < 4 {
      assert c == 0 || c == 1 || c == 2 || c == 3;
    } else {
      assert c == 4 || c == 5 || c == 6 || c == 7;
    }
  }

  ghost predicate Shifts16(row: seq<bv16>, base: seq<bv16>)
  {
    && |row| == 8 == |base|
    && row[0] == Xor16(row[0], base[0]) && row[1] == Xor16(row[0], base[1]) && row[2] == Xor16(row[0], base[2]) && row[3] == Xor16(row[0], base[3])
    && row[4] == Xor16(row[0], base[4]) && row[5] == Xor16(row[0], base[5]) && row[6] == Xor16(row[0], base[6]) && row[7] == Xor16(row[0], base[7])
  }

  lemma ShiftsXor16(row: seq<bv16>, base: seq<bv16>)
    requires Shifts16(row, base)
    ensures Shifts(Xor16, row, base)
  {
  }

  ghost predicate Shifts64(row: seq<bv64>, base: seq<bv64>)
  {
    && |row| == 8 == |base|
    && row[0] == Xor64(row[0], base[0]) && row[1] == Xor64(row[0], base[1]) && row[2] == Xor64(row[0], base[2]) && row[3] == Xor64(row[0], base[3])
    && row[4] == Xor64(row[0], base[4]) && row[5] == Xor64(row[0], base[5]) && row[6] == Xor64(row[0], base[6]) && row[7] == Xor64(row[0], base[7])
  }

  lemma ShiftsXor64(row: seq<bv64>, base: seq<bv64>)
    requires Shifts64(row, base)
    ensures Shifts(Xor64, row, base)
  {
  }

  // Every row is a shift of the first one, and starts right: a quarter of the 16-bit table at a time.
  lemma Rows16A(h: bv8)
    requires 0 <= h < 8
    ensures Shifts16(Row16A(h), Row16A(0)) && Row16A(h)[0] == Reduce16(h << 3)
  {
    if h < 4 {
      assert h == 0 || h == 1 || h == 2 || h == 3;
    } else {
      assert h == 4 || h == 5 || h == 6 || h == 7;
    }
  }

  lemma Rows16B(h: bv8)
    requires 8 <= h < 16
    ensures Shifts16(Row16B(h), Row16A(0)) && Row16B(h)[0] == Reduce16(h << 3)
  {
    if h < 12 {
      assert h == 8 || h == 9 || h == 10 || h == 11;
    } else {
      assert h == 12 || h == 13 || h == 14 || h == 15;
    }
  }

  lemma Rows16C(h: bv8)
    requires 16 <= h < 24
    ensures Shifts16(Row16C(h), Row16A(0)) && Row16C(h)[0] == Reduce16(h << 3)
  {
    if h < 20 {
      assert h == 16 || h == 17 || h == 18 || h == 19;
    } else {
      assert h == 20 || h == 21 || h == 22 || h == 23;
    }
  }

  lemma Rows16D(h: bv8)
    requires 24 <= h < 32
    ensures Shifts16(Row16D(h), Row16A(0)) && Row16D(h)[0] == Reduce16(h << 3)
  {
    if h < 28 {
      assert h == 24 || h == 25 || h == 26 || h == 27;
    } else {
      assert h == 28 || h == 29 || h == 30 || h == 31;
    }
  }

  lemma Rows16(h: bv8)
    requires h < 32
    ensures Shifts16(Row16(h), Row16(0)) && Row16(h)[0] == Reduce16(h << 3)
  {
    if h < 8 { Rows16A(h); } else if h < 16 { Rows16B(h); } else if h < 24 { Rows16C(h); } else { Rows16D(h); }
  }

  /** The first row is right. */
  lemma FirstRow16(c: bv8)
    requires c < 8
    ensures EntryOf(Row16(0), c) == Reduce16(c)
  {
    if c < 4 {
      assert c == 0 || c == 1 || c == 2 || c == 3;
    } else {
      assert c == 4 || c == 5 || c == 6 || c == 7;
    }
  }

  // Every row is a shift of the first one, and starts right: a quarter of the 64-bit table at a time.
  lemma Rows64A(h: bv8)
    requires 0 <= h < 8
    ensures Shifts64(Row64A(h), Row64A(0)) && Row64A(h)[0] == Reduce64(h << 3)
  {
    if h < 4 {
      assert h == 0 || h == 1 || h == 2 || h == 3;
    } else {
      assert h == 4 || h == 5 || h == 6 || h == 7;
    }
  }

  lemma Rows64B(h: bv8)
    requires 8 <= h < 16
    ensures Shifts64(Row64B(h), Row64A(0)) && Row64B(h)[0] == Reduce64(h << 3)
  {
    if h < 12 {
      assert h == 8 || h == 9 || h == 10 || h == 11;
    } else {
      assert h == 12 || h == 13 || h == 14 || h == 15;
    }
  }

  lemma Rows64C(h: bv8)
    requires 16 <= h < 24
    ensures Shifts64(Row64C(h), Row64A(0)) && Row64C(h)[0] == Reduce64(h << 3)
  {
    if h < 20 {
      assert h == 16 || h == 17 || h == 18 || h == 19;
    } else {
      assert h == 20 || h == 21 || h == 22 || h == 23;
    }
  }

  lemma Rows64D(h: bv8)
    requires 24 <= h < 32
    ensures Shifts64(Row64D(h), Row64A(0)) && Row64D(h)[0] == Reduce64(h << 3)
  {
    if h < 28 {
      assert h == 24 || h == 25 || h == 26 || h == 27;
    } else {
      assert h == 28 || h == 29 || h == 30 || h == 31;
    }
  }

  lemma Rows64(h: bv8)
    requires h < 32
    ensures Shifts64(Row64(h), Row64(0)) && Row64(h)[0] == Reduce64(h << 3)
  {
    if h < 8 { Rows64A(h); } else if h < 16 { Rows64B(h); } else if h < 24 { Rows64C(h); } else { Rows64D(h); }
  }

  /** The first row is right. */
  lemma FirstRow64(c: bv8)
    requires c < 8
    ensures EntryOf(Row64(0), c) == Reduce64(c)
  {
    if c < 4 {
      assert c == 0 || c == 1 || c == 2 || c == 3;
    } else {
      assert c == 4 || c == 5 || c == 6 || c == 7;
    }
  }

  // ----------------------------------------------------------------- one byte

  function Entry16(x: bv8): bv16 { EntryOf(Row16(x >> 3), x & 7) }

  function Entry64(x: bv8): bv64 { EntryOf(Row64(x >> 3), x & 7) }

  function Xor16(a: bv16, b: bv16): bv16 { a ^ b }

  function Xor64(a: bv64, b: bv64): bv64 { a ^ b }

  function Index16(crc: bv16, b: bv8): bv8 { (((crc >> 8) ^ (b as bv16)) & 0xff) as bv8 }

  function Index64(crc: bv64, b: bv8): bv8 { ((crc & 0xff) as bv8) ^ b }

  function Moved16(crc: bv16): bv16 { crc << 8 }

  function Moved64(crc: bv64): bv64 { crc >> 8 }

  /** The loop bodies of crc16 and crc64, over the table `entry`. */
  function TableStep16(entry: bv8 -> bv16, crc: bv16, b: bv8): bv16 { Xor16(Moved16(crc), entry(Index16(crc, b))) }

  function TableStep64(entry: bv8 -> bv64, crc: bv64, b: bv8): bv64 { Xor64(entry(Index64(crc, b)), Moved64(crc)) }

  lemma Split16(x: bv8)
    ensures Lead16(x) == Xor16(Lead16((x >> 3) << 3), Lead16(x & 7))
  {
  }

  /** The table is linear, like the reduction, so it is right if its first row and column are. */
  lemma Lookup16(x: bv8)
    ensures Entry16(x) == Reduce16(x)
  {
    var h, c := x >> 3, x & 7;
    Rows16(h);
    ShiftsXor16(Row16(h), Row16(0));
    ShiftsAt(Xor16, Row16(h), Row16(0), c);
    FirstRow16(c);
    Split16(x);
    Byte16Linear(Lead16(h << 3), Lead16(c));
  }

  lemma Split64(x: bv8)
    ensures Lead64(x) == Xor64(Lead64((x >> 3) << 3), Lead64(x & 7))
  {
  }

  /** The table is linear, like the reduction, so it is right if its first row and column are. */
  lemma Lookup64(x: bv8)
    ensures Entry64(x) == Reduce64(x)
  {
    var h, c := x >> 3, x & 7;
    Rows64(h);
    ShiftsXor64(Row64(h), Row64(0));
    ShiftsAt(Xor64, Row64(h), Row64(0), c);
    FirstRow64(c);
    Split64(x);
    Byte64Linear(Lead64(h << 3), Lead64(c));
  }

  function Iter<T>(f: T -> T, n: nat, x: T): T { if n == 0 then x else f(Iter(f, n - 1, x)) }

  lemma IterEight<T>(f: T -> T, x: T)
    ensures Iter(f, 8, x) == f(f(f(f(f(f(f(f(x))))))))
  {
    assert Iter(f, 3, x) == f(f(f(x)));
    assert Iter(f, 6, x) == f(f(f(Iter(f, 3, x))));
  }

  ghost predicate LinearAt<T>(f: T -> T, op: (T, T) -> T, x: T, y: T) { f(op(x, y)) == op(f(x), f(y)) }

  lemma {:induction false} IterLinear<T(!new)>(f: T -> T, op: (T, T) -> T, n: nat, x: T, y: T)
    requires forall a, b :: LinearAt(f, op, a, b)
    ensures Iter(f, n, op(x, y)) == op(Iter(f, n, x), Iter(f, n, y))
  {
    if n > 0 {
      IterLinear(f, op, n - 1, x, y);
      assert LinearAt(f, op, Iter(f, n - 1, x), Iter(f, n - 1, y));
    }
  }

  /** One division step: subtract c when the leading bit was set. */
  function Cond<T>(op: (T, T) -> T, lead: bool, p: T, c: T): T { if lead then op(p, c) else p }

  /** Exclusive-or is a commutative group in which every element is its own inverse. */
  ghost predicate GroupAt<T>(op: (T, T) -> T, a: T, b: T, c: T)
  {
    op(op(a, b), c) == op(a, op(b, c)) && op(op(a, b), b) == a && op(b, a) == op(a, b)
  }

  lemma CondLinear<T(!new)>(op: (T, T) -> T, ox: bool, oy: bool, p: T, q: T, c: T)
    requires forall a, b, c :: GroupAt(op, a, b, c)
    ensures Cond(op, ox != oy, op(p, q), c) == op(Cond(op, ox, p, c), Cond(op, oy, q, c))
  {
    assert GroupAt(op, p, q, c) && GroupAt(op, q, c, c);
    assert GroupAt(op, p, c, q) && GroupAt(op, p, c, op(q, c));
    assert GroupAt(op, c, op(q, c), c);
  }

  /** A step that is a shift and a conditional subtraction is linear. */
  lemma StepLinear<T(!new)>(f: T -> T, op: (T, T) -> T, x: T, y: T, ox: bool, oy: bool, p: T, q: T, c: T)
    requires forall a, b, c :: GroupAt(op, a, b, c)
    requires f(x) == Cond(op, ox, p, c) && f(y) == Cond(op, oy, q, c) && f(op(x, y)) == Cond(op, ox != oy, op(p, q), c)
    ensures LinearAt(f, op, x, y)
  {
    CondLinear(op, ox, oy, p, q, c);
  }

  lemma Xor16Left(a: bv16, b: bv16, c: bv16, ab: bv16)
    requires ab == Xor16(a, b)
    ensures Xor16(ab, c) == a ^ b ^ c
  {
  }

  lemma Xor16Right(a: bv16, b: bv16, c: bv16, bc: bv16)
    requires bc == Xor16(b, c)
    ensures Xor16(a, bc) == a ^ b ^ c
  {
  }

  lemma Xor16Comm(a: bv16, b: bv16)
    ensures Xor16(a, b) == Xor16(b, a)
  {
  }

  lemma Xor16Cancel(a: bv16, b: bv16, ab: bv16)
    requires ab == Xor16(a, b)
    ensures Xor16(ab, b) == a
  {
  }

  lemma Xor16Group(a: bv16, b: bv16, c: bv16)
    ensures GroupAt(Xor16, a, b, c)
  {
    Xor16Left(a, b, c, Xor16(a, b));
    Xor16Right(a, b, c, Xor16(b, c));
    Xor16Cancel(a, b, Xor16(a, b));
    Xor16Comm(a, b);
  }

  lemma ShiftLaw16(x: bv16, y: bv16, z: bv16, x': bv16, y': bv16)
    requires z == x ^ y && x' == x << 1 && y' == y << 1
    ensures z << 1 == x' ^ y'
    ensures (z & 0x8000 != 0) == ((x & 0x8000 != 0) != (y & 0x8000 != 0))
  {
  }

  lemma Bit16Cond(z: bv16, h: bv16, lead: bool, b: bv16)
    requires h == z << 1 && lead == (z & 0x8000 != 0) && b == Bit16(z)
    ensures b == Cond(Xor16, lead, h, 0x1021)
  {
  }

  lemma XorOf16(a: bv16, b: bv16, c: bv16)
    requires c == a ^ b
    ensures c == Xor16(a, b)
  {
  }

  /** The leading bits and shifted registers of two registers, and of their sum. */
  lemma Shifted16(x: bv16, y: bv16, z: bv16) returns (ox: bool, oy: bool, p: bv16, q: bv16)
    requires z == Xor16(x, y)
    ensures Bit16(x) == Cond(Xor16, ox, p, 0x1021) && Bit16(y) == Cond(Xor16, oy, q, 0x1021)
    ensures Bit16(z) == Cond(Xor16, ox != oy, Xor16(p, q), 0x1021)
  {
    ox, oy, p, q := x & 0x8000 != 0, y & 0x8000 != 0, x << 1, y << 1;
    var pq, oz := z << 1, z & 0x8000 != 0;
    ShiftLaw16(x, y, z, p, q);
    XorOf16(p, q, pq);
    Bit16Cond(x, p, ox, Bit16(x));
    Bit16Cond(y, q, oy, Bit16(y));
    Bit16Cond(z, pq, oz, Bit16(z));
  }

  lemma Bit16Linear(x: bv16, y: bv16)
    ensures LinearAt(Bit16, Xor16, x, y)
  {
    var ox, oy, p, q := Shifted16(x, y, Xor16(x, y));
    forall a, b, c ensures GroupAt(Xor16, a, b, c) { Xor16Group(a, b, c); }
    StepLinear(Bit16, Xor16, x, y, ox, oy, p, q, 0x1021);
  }

  /** Reducing a byte is linear over exclusive-or. */
  lemma Byte16Linear(x: bv16, y: bv16)
    ensures Byte16(Xor16(x, y)) == Xor16(Byte16(x), Byte16(y))
  {
    forall a, b ensures LinearAt(Bit16, Xor16, a, b) { Bit16Linear(a, b); }
    IterLinear(Bit16, Xor16, 8, x, y);
    IterEight(Bit16, x);
    IterEight(Bit16, y);
    IterEight(Bit16, Xor16(x, y));
  }

  /** A register with nothing to reduce in its leading byte only shifts. */
  lemma Byte16Clear(x: bv16)
    requires x & 0xff00 == 0
    ensures Byte16(x) == x << 8
  {
  }

  lemma Xor64Left(a: bv64, b: bv64, c: bv64, ab: bv64)
    requires ab == Xor64(a, b)
    ensures Xor64(ab, c) == a ^ b ^ c
  {
  }

  lemma Xor64Right(a: bv64, b: bv64, c: bv64, bc: bv64)
    requires bc == Xor64(b, c)
    ensures Xor64(a, bc) == a ^ b ^ c
  {
  }

  lemma Xor64Comm(a: bv64, b: bv64)
    ensures Xor64(a, b) == Xor64(b, a)
  {
  }

  lemma Xor64Cancel(a: bv64, b: bv64, ab: bv64)
    requires ab == Xor64(a, b)
    ensures Xor64(ab, b) == a
  {
  }

  lemma Xor64Group(a: bv64, b: bv64, c: bv64)
    ensures GroupAt(Xor64, a, b, c)
  {
    Xor64Left(a, b, c, Xor64(a, b));
    Xor64Right(a, b, c, Xor64(b, c));
    Xor64Cancel(a, b, Xor64(a, b));
    Xor64Comm(a, b);
  }

  lemma ShiftLaw64(x: bv64, y: bv64, z: bv64, x': bv64, y': bv64)
    requires z == x ^ y && x' == x >> 1 && y' == y >> 1
    ensures z >> 1 == x' ^ y'
    ensures (z & 1 != 0) == ((x & 1 != 0) != (y & 1 != 0))
  {
  }

  lemma XorOf64(a: bv64, b: bv64, c: bv64)
    requires c == a ^ b
    ensures c == Xor64(a, b)
  {
  }

  lemma Bit64Cond(z: bv64, h: bv64, lead: bool, b: bv64)
    requires h == z >> 1 && lead == (z & 1 != 0) && b == Bit64(z)
    ensures b == Cond(Xor64, lead, h, 0x95ac9329ac4bc9b5)
  {
  }

  lemma Shifted64(x: bv64, y: bv64, z: bv64) returns (ox: bool, oy: bool, p: bv64, q: bv64)
    requires z == Xor64(x, y)
    ensures Bit64(x) == Cond(Xor64, ox, p, 0x95ac9329ac4bc9b5) && Bit64(y) == Cond(Xor64, oy, q, 0x95ac9329ac4bc9b5)
    ensures Bit64(z) == Cond(Xor64, ox != oy, Xor64(p, q), 0x95ac9329ac4bc9b5)
  {
    ox, oy, p, q := x & 1 != 0, y & 1 != 0, x >> 1, y >> 1;
    var pq, oz := z >> 1, z & 1 != 0;
    ShiftLaw64(x, y, z, p, q);
    XorOf64(p, q, pq);
    Bit64Cond(x, p, ox, Bit64(x));
    Bit64Cond(y, q, oy, Bit64(y));
    Bit64Cond(z, pq, oz, Bit64(z));
  }

  lemma Bit64Linear(x: bv64, y: bv64)
    ensures LinearAt(Bit64, Xor64, x, y)
  {
    var ox, oy, p, q := Shifted64(x, y, Xor64(x, y));
    forall a, b, c ensures GroupAt(Xor64, a, b, c) { Xor64Group(a, b, c); }
    StepLinear(Bit64, Xor64, x, y, ox, oy, p, q, 0x95ac9329ac4bc9b5);
  }

  /** Reducing a byte is linear over exclusive-or. */
  lemma Byte64Linear(x: bv64, y: bv64)
    ensures Byte64(Xor64(x, y)) == Xor64(Byte64(x), Byte64(y))
  {
    forall a, b ensures LinearAt(Bit64, Xor64, a, b) { Bit64Linear(a, b); }
    IterLinear(Bit64, Xor64, 8, x, y);
    IterEight(Bit64, x);
    IterEight(Bit64, y);
    IterEight(Bit64, Xor64(x, y));
  }

  /** A register with nothing to reduce in its leading byte only shifts. */
  lemma Byte64Clear(x: bv64)
    requires x & 0xff == 0
    ensures Byte64(x) == x >> 8
  {
  }

  /** The part of the register that does not meet the next byte. */
  function Rest16(crc: bv16): bv16 { crc & 0xff }

  lemma Parts16(crc: bv16, b: bv8, index: bv8, whole: bv16, lead: bv16, rest: bv16)
    requires index == Index16(crc, b) && whole == Whole16(crc, b) && lead == Lead16(index) && rest == Rest16(crc)
    ensures whole == Xor16(lead, rest)
  {
  }

  lemma Rest16Moves(crc: bv16, rest: bv16)
    requires rest == Rest16(crc)
    ensures Moved16(rest) == Moved16(crc) && rest & 0xff00 == 0
  {
  }

  /** A register is reduced by reducing its leading byte and moving the rest. */
  ghost predicate HalvesAt16(reduce: bv16 -> bv16, lead: bv16, rest: bv16)
  {
    rest & 0xff00 == 0 ==> reduce(Xor16(lead, rest)) == Xor16(reduce(lead), Moved16(rest))
  }

  lemma Halves16(lead: bv16, rest: bv16)
    ensures HalvesAt16(Byte16, lead, rest)
  {
    if rest & 0xff00 == 0 {
      Byte16Linear(lead, rest);
      Byte16Clear(rest);
    }
  }

  ghost predicate EntryAt16(entry: bv8 -> bv16, reduce: bv16 -> bv16, x: bv8) { entry(x) == reduce(Lead16(x)) }

  lemma Step16Over(entry: bv8 -> bv16, reduce: bv16 -> bv16, crc: bv16, b: bv8)
    requires forall x :: EntryAt16(entry, reduce, x)
    requires forall lead, rest :: HalvesAt16(reduce, lead, rest)
    ensures TableStep16(entry, crc, b) == reduce(Whole16(crc, b))
  {
    var index, rest := Index16(crc, b), Rest16(crc);
    assert EntryAt16(entry, reduce, index);
    assert HalvesAt16(reduce, Lead16(index), rest);
    Parts16(crc, b, index, Whole16(crc, b), Lead16(index), rest);
    Rest16Moves(crc, rest);
    Xor16Comm(Moved16(crc), entry(index));
  }

  /** One table step is eight steps of division. */
  lemma Step16(crc: bv16, b: bv8)
    ensures TableStep16(Entry16, crc, b) == BitByBit16(crc, b)
  {
    forall x ensures EntryAt16(Entry16, Byte16, x) { Lookup16(x); }
    forall lead, rest ensures HalvesAt16(Byte16, lead, rest) { Halves16(lead, rest); }
    Step16Over(Entry16, Byte16, crc, b);
  }

  /** The part of the register that does not meet the next byte. */
  function Rest64(crc: bv64): bv64 { crc & 0xffff_ffff_ffff_ff00 }

  lemma Parts64(crc: bv64, b: bv8, index: bv8, whole: bv64, lead: bv64, rest: bv64)
    requires index == Index64(crc, b) && whole == Whole64(crc, b) && lead == Lead64(index) && rest == Rest64(crc)
    ensures whole == Xor64(lead, rest)
  {
  }

  lemma Rest64Moves(crc: bv64, rest: bv64, moved: bv64, moved': bv64)
    requires rest == Rest64(crc) && moved == Moved64(crc) && moved' == Moved64(rest)
    ensures moved' == moved
  {
  }

  lemma Rest64Clear(crc: bv64, rest: bv64)
    requires rest == Rest64(crc)
    ensures rest & 0xff == 0
  {
  }

  /** A register is reduced by reducing its leading byte and moving the rest. */
  ghost predicate HalvesAt64(reduce: bv64 -> bv64, lead: bv64, rest: bv64)
  {
    rest & 0xff == 0 ==> reduce(Xor64(lead, rest)) == Xor64(reduce(lead), Moved64(rest))
  }

  lemma Halves64(lead: bv64, rest: bv64)
    ensures HalvesAt64(Byte64, lead, rest)
  {
    if rest & 0xff == 0 {
      Byte64Linear(lead, rest);
      Byte64Clear(rest);
    }
  }

  ghost predicate EntryAt64(entry: bv8 -> bv64, reduce: bv64 -> bv64, x: bv8) { entry(x) == reduce(Lead64(x)) }

  lemma Step64Over(entry: bv8 -> bv64, reduce: bv64 -> bv64, crc: bv64, b: bv8)
    requires forall x :: EntryAt64(entry, reduce, x)
    requires forall lead, rest :: HalvesAt64(reduce, lead, rest)
    ensures TableStep64(entry, crc, b) == reduce(Whole64(crc, b))
  {
    var index, rest := Index64(crc, b), Rest64(crc);
    assert EntryAt64(entry, reduce, index);
    assert HalvesAt64(reduce, Lead64(index), rest);
    Parts64(crc, b, index, Whole64(crc, b), Lead64(index), rest);
    Rest64Moves(crc, rest, Moved64(crc), Moved64(rest));
    Rest64Clear(crc, rest);
    Xor64Comm(Moved64(crc), entry(index));
  }

  /** One table step is eight steps of division. */
  lemma Step64(crc: bv64, b: bv8)
    ensures TableStep64(Entry64, crc, b) == BitByBit64(crc, b)
  {
    forall x ensures EntryAt64(Entry64, Byte64, x) { Lookup64(x); }
    forall lead, rest ensures HalvesAt64(Byte64, lead, rest) { Halves64(lead, rest); }
    Step64Over(Entry64, Byte64, crc, b);
  }

  // ------------------------------------------------------------ the checksums

  /** Two steps that agree on every register and byte agree on every message. */
  lemma {:induction false} FeedAgrees<T(!new)>(f: (T, bv8) -> T, g: (T, bv8) -> T, seed: T, s: seq<bv8>)
    requires forall r: T, b: bv8 :: f(r, b) == g(r, b)
    ensures Feed(f, seed, s) == Feed(g, seed, s)
  {
    if s != [] {
      FeedAgrees(f, g, seed, s[..|s| - 1]);
    }
  }

  /** Feeding a message in two parts gives the same register as feeding it whole. */
  lemma {:induction false} FeedConcat<T>(f: (T, bv8) -> T, seed: T, a: seq<bv8>, b: seq<bv8>)
    ensures Feed(f, Feed(f, seed, a), b) == Feed(f, seed, a + b)
    decreases |b|
  {
    if b == [] {
      assert a + b == a;
    } else {
      FeedConcat(f, seed, a, b[..|b| - 1]);
      assert (a + b)[..|a + b| - 1] == a + b[..|b| - 1];
    }
  }

  /** The loop of both checksums, over whatever step they use. */
  method FeedAll<T>(f: (T, bv8) -> T, seed: T, buf: seq<bv8>) returns (crc: T)
    ensures crc == Feed(f, seed, buf)
  {
    crc := seed;
    for counter := 0 to |buf|
      invariant crc == Feed(f, seed, buf[..counter])
    {
      assert buf[..counter + 1][..counter] == buf[..counter];
      crc := f(crc, buf[counter]);
    }
    assert buf[..|buf|] == buf;
  }

  /** crc16 computes the bit-serial remainder of every byte string. */
  method Crc16(buf: seq<bv8>) returns (crc: bv16)
    ensures crc == BitSerial16(buf)
  {
    crc := FeedAll((r: bv16, b: bv8) => TableStep16(Entry16, r, b), 0, buf);
    forall r, b ensures TableStep16(Entry16, r, b) == BitByBit16(r, b) { Step16(r, b); }
    FeedAgrees((r: bv16, b: bv8) => TableStep16(Entry16, r, b), BitByBit16, 0, buf);
  }

  /** crc64 continues the reflected remainder from any starting register. */
  method Crc64(seed: bv64, s: seq<bv8>) returns (crc: bv64)
    ensures crc == BitSerial64(seed, s)
  {
    crc := FeedAll((r: bv64, b: bv8) => TableStep64(Entry64, r, b), seed, s);
    forall r, b ensures TableStep64(Entry64, r, b) == BitByBit64(r, b) { Step64(r, b); }
    FeedAgrees((r: bv64, b: bv8) => TableStep64(Entry64, r, b), BitByBit64, seed, s);
  }

  /** Checksumming a message in two parts gives the same register as checksumming it whole. */
  lemma Crc64Streams(seed: bv64, a: seq<bv8>, b: seq<bv8>)
    ensures BitSerial64(BitSerial64(seed, a), b) == BitSerial64(seed, a + b)
  {
    FeedConcat(BitByBit64, seed, a, b);
  }

  /** The checksum of a name, as placement uses it. */
  function NameCrc(name: string): (r: nat)
    ensures r < 0x1_0000
  {
    BitSerial16(BytesOf(name)) as nat
  }

  method OfName(name: string) returns (crc: nat)
    ensures crc == NameCrc(name)
  {
    var r := Crc16(BytesOf(name));
    crc := r as nat;
  }
}

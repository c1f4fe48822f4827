/** Bytes, byte ranges and the few facts about division the striping arithmetic rests on. */
module Bytes {
  newtype byte = x: int | 0 <= x < 256

  const TWO32 := 0x1_0000_0000

  datatype Option<T> = None | Some(value: T)

  /** `base` with the bytes starting at `at` replaced by `data`. */
  function Splice<T>(base: seq<T>, at: nat, data: seq<T>): (r: seq<T>)
    requires at + |data| <= |base|
    ensures |r| == |base|
    ensures forall i :: 0 <= i < |base| ==> r[i] == if at <= i < at + |data| then data[i - at] else base[i]
  {
    base[..at] + data + base[at + |data|..]
  }

  /** The smallest k with k * b >= x: what `ceil((double) x / b)` computes. */
  function CeilDiv(x: nat, b: nat): nat
    requires b > 0
  {
    (x + b - 1) / b
  }

  function Min(a: nat, b: nat): nat { if a < b then a else b }

  function Max(a: nat, b: nat): nat { if a < b then b else a }

  lemma MulMono(a: int, b: int, c: int)
    requires a <= b && c >= 0
    ensures a * c <= b * c
  {
  }

  lemma MulAdd(a: int, b: int, c: int)
    ensures (a + b) * c == a * c + b * c
  {
  }

  lemma MulSub(a: int, b: int, c: int)
    ensures (a - b) * c == a * c - b * c
  {
  }

  /** Only 0 times b is closer than b to zero. */
  lemma SmallMultiple(d: int, b: int)
    requires b > 0 && -b < d * b < b
    ensures d == 0
  {
    if d >= 1 {
      MulMono(1, d, b);
    } else if d <= -1 {
      MulMono(d, -1, b);
    }
  }

  /** Division with remainder has one solution. */
  lemma DivModUnique(x: int, b: int, q: int, m: int)
    requires b > 0 && 0 <= m < b && x == q * b + m
    ensures x / b == q && x % b == m
  {
    var q', m' := x / b, x % b;
    assert x == q' * b + m';
    MulSub(q, q', b);
    SmallMultiple(q - q', b);
  }

  /** CeilDiv rounds up to the next multiple of b. */
  lemma CeilDivBounds(x: nat, b: nat)
    requires b > 0
    ensures x > 0 ==> (CeilDiv(x, b) - 1) * b < x
    ensures x <= CeilDiv(x, b) * b
  {
    var q := CeilDiv(x, b);
    assert x + b - 1 == q * b + (x + b - 1) % b;
    assert (q - 1) * b == q * b - b;
  }

  /** x lies in the block of b bytes numbered x / b. */
  lemma BlockOf(x: nat, b: nat)
    requires b > 0
    ensures (x / b) * b <= x < (x / b + 1) * b
    ensures x % b == x - (x / b) * b
  {
    assert x == (x / b) * b + x % b;
    assert (x / b + 1) * b == (x / b) * b + b;
  }

  /** A position between two block bounds is in that block. */
  lemma InBlock(x: nat, b: nat, q: nat)
    requires b > 0 && q * b <= x < (q + 1) * b
    ensures x / b == q && x % b == x - q * b
  {
    assert (q + 1) * b == q * b + b;
    DivModUnique(x, b, q, x - q * b);
  }
}

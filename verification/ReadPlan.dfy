/** How imss_sread cuts a range into block reads, and when that agrees with read() at the end of the file. */
module ReadPlan {
  import opened Bytes
  import opened Store

  /** Last block the loop visits. */
  function EndBlock(size: nat, st: nat, off: nat, n: nat): nat
    requires size > 0
  {
    if st < n then CeilDiv(off + st, size) else CeilDiv(off + n, size)
  }

  /** Bytes asked of the first block, and whether the end of the file was seen there. */
  function FirstRead(size: nat, st: nat, off: nat, n: nat): (int, bool)
    requires size > 0
  {
    var start := off % size;
    var want: int :=
      if n < st - start && n < size then n
      else if st < size then st - start
      else size - start;
    var fit := if start + want > size then size - start else want;
    if off + fit > st then (st - off, true) else (fit, false)
  }

  /** The ranges for which imss_sread returns what read() promises: exactly the bytes up to the end of the file. */
  predicate Clips(size: nat, st: nat, off: nat, n: nat)
    requires size > 0
  {
    || off + n <= st
    || size <= st < StartOf(size, off / size + 2)
    || EndBlock(size, st, off, n) <= off / size + 1
  }

  lemma FirstReadFacts(size: nat, st: nat, off: nat, n: nat)
    requires size > 0 && off < st && n > 0
    ensures FirstRead(size, st, off, n).0 == Min(Min(n, st - off), size - off % size) > 0
    ensures FirstRead(size, st, off, n).1 <==> off + n > st && size <= st < StartOf(size, off / size + 2)
  {
    BlockOf(off, size);
    FirstPiece(size, off, n);
    var q := off / size;
    MulSub(q + 1, q, size);
    if q >= 1 {
      MulMono(1, q, size);
    } else {
      assert q * size == 0;
    }
  }

  /** The walk of the reading loop: at block b, `done` bytes read. */
  ghost predicate Reads(size: nat, st: nat, off: nat, n: nat, b: nat, done: nat)
  {
    && size > 0 && b > 0 && done <= n
    && (done == 0 ==> b == off / size + 1)
    && (done > 0 ==> b > off / size + 1)
    && (done > 0 && b <= EndBlock(size, st, off, n) ==>
         done < n && if off + n > st && st < size then b == EndBlock(size, st, off, n) && off + done == st else off + done == StartOf(size, b))
    && (done > 0 && b > EndBlock(size, st, off, n) ==>
         done == if EndBlock(size, st, off, n) == off / size + 1 then FirstRead(size, st, off, n).0 else n)
  }

  /** Bytes the loop asks for at block b. */
  function ReadBytes(size: nat, st: nat, off: nat, n: nat, b: nat, done: nat): int
    requires size > 0
  {
    if done == 0 then FirstRead(size, st, off, n).0
    else if b != EndBlock(size, st, off, n) then size
    else n - done
  }

  /** The last block visited is the one in which the range ends, or would end if it were as long as the file at most. */
  lemma EndBounds(size: nat, st: nat, off: nat, n: nat)
    requires size > 0 && off < st && n > 0
    ensures EndBlock(size, st, off, n) >= off / size + 1
    ensures (EndBlock(size, st, off, n) - 1) * size < off + Min(st, n) <= EndBlock(size, st, off, n) * size
    ensures EndBlock(size, st, off, n) == off / size + 1 <==> (if st < n then st else n) <= size - off % size
    ensures off + n <= st ==> EndBlock(size, st, off, n) == CeilDiv(off + n, size)
  {
    var m := if st < n then st else n;
    FirstPiece(size, off, m);
    CeilDivBounds(off + m, size);
  }

  /** After a first read that did not see the end of the file, the walk is on a block bound, or at its last block. */
  lemma FirstStep(size: nat, st: nat, off: nat, n: nat)
    requires size > 0 && off < st && n > 0
    requires !FirstRead(size, st, off, n).1 && EndBlock(size, st, off, n) > off / size + 1
    ensures FirstRead(size, st, off, n).0 < n
    ensures if off + n > st && st < size then FirstRead(size, st, off, n).0 == st - off && EndBlock(size, st, off, n) == off / size + 2
            else FirstRead(size, st, off, n).0 == size - off % size
  {
    FirstReadFacts(size, st, off, n);
    EndBounds(size, st, off, n);
    BlockOf(off, size);
    FirstPiece(size, off, n);
    if st < size && off + n > st {
      ShortFile(size, st, off, n);
    }
  }

  lemma ShortFile(size: nat, st: nat, off: nat, n: nat)
    requires size > 0 && off < st < size && n > 0
    ensures off / size == 0 && EndBlock(size, st, off, n) <= 2
  {
    InBlock(off, size, 0);
    var e := if st < n then off + st else off + n;
    CeilDivBounds(e, size);
    if CeilDiv(e, size) >= 3 {
      MulMono(2, CeilDiv(e, size) - 1, size);
    }
  }

  lemma LaterStep(size: nat, st: nat, off: nat, n: nat, b: nat, done: nat)
    requires Reads(size, st, off, n, b, done) && off < st && n > 0 && b <= EndBlock(size, st, off, n) && done > 0
    ensures b < EndBlock(size, st, off, n) ==> done + size < n && off + done + size == StartOf(size, b + 1)
    ensures off + n <= st && b == EndBlock(size, st, off, n) ==> n - done <= size
  {
    EndBounds(size, st, off, n);
    var end := EndBlock(size, st, off, n);
    MulSub(b, b - 1, size);
    if b < end {
      MulMono(b, end - 1, size);
    } else {
      CeilDivBounds(off + n, size);
    }
  }

  /** Every step asks for at least one byte, none past the buffer, and moves to the next block. */
  lemma ReadStep(size: nat, st: nat, off: nat, n: nat, b: nat, done: nat)
    requires Reads(size, st, off, n, b, done) && off < st && n > 0 && b <= EndBlock(size, st, off, n)
    ensures 0 < ReadBytes(size, st, off, n, b, done) && done + ReadBytes(size, st, off, n, b, done) <= n
    ensures done > 0 || !FirstRead(size, st, off, n).1 ==>
              Reads(size, st, off, n, b + 1, done + ReadBytes(size, st, off, n, b, done))
    ensures done == 0 || off + n <= st ==>
              Lines(size, b, if done == 0 then off % size else 0, off + done, ReadBytes(size, st, off, n, b, done))
  {
    if done == 0 {
      FirstReadFacts(size, st, off, n);
      FirstPiece(size, off, n);
      EndBounds(size, st, off, n);
      if !FirstRead(size, st, off, n).1 && b < EndBlock(size, st, off, n) {
        FirstStep(size, st, off, n);
      }
    } else {
      LaterStep(size, st, off, n, b, done);
    }
  }

  /** What the loop has read when it ends tells whether the range was clipped at the end of the file. */
  lemma ReadTotal(size: nat, st: nat, off: nat, n: nat, b: nat, done: nat, seen: bool)
    requires size > 0 && off < st && n > 0 && done > 0
    requires if seen then FirstRead(size, st, off, n).1 && done == FirstRead(size, st, off, n).0
             else !FirstRead(size, st, off, n).1 && Reads(size, st, off, n, b, done) && b > EndBlock(size, st, off, n)
    ensures done == Min(n, st - off) <==> Clips(size, st, off, n)
    ensures Clips(size, st, off, n) && off + n > st ==> done == FirstRead(size, st, off, n).0
    ensures off + n <= st ==> done == n
  {
    FirstReadFacts(size, st, off, n);
    FirstPiece(size, off, n);
    EndBounds(size, st, off, n);
  }

  // ------------------------------------------------------------------ pieces

  // Marker: facts about the pieces of a read, used where a proof names one.
  predicate OnPiece(j: int) { true }

  /** Where the piece that starts j bytes into a read of n bytes ends. */
  function PieceEnd(size: nat, off: nat, n: nat, j: nat): (e: nat)
    requires size > 0 && j <= n
    ensures j <= e <= n
  {
    Min(n, j + size - (off + j) % size)
  }

  predicate StartsPiece(size: nat, off: nat, n: nat, j: nat)
    requires size > 0
  {
    j < n && (j == 0 || (off + j) % size == 0)
  }

  lemma PieceLines(size: nat, off: nat, n: nat, j: nat)
    requires size > 0 && StartsPiece(size, off, n, j)
    ensures j < PieceEnd(size, off, n, j)
    ensures Lines(size, BlockAt(size, off + j), (off + j) % size, off + j, PieceEnd(size, off, n, j) - j)
  {
    PositionOf(size, off + j);
  }

  /** As long as the file does not end, the loop asks for one piece after the other. */
  lemma StepIsPiece(size: nat, st: nat, off: nat, n: nat, b: nat, done: nat)
    requires Reads(size, st, off, n, b, done) && off < st && n > 0 && b <= EndBlock(size, st, off, n)
    requires done == 0 || off + n <= st
    ensures StartsPiece(size, off, Min(n, st - off), done)
    ensures PieceEnd(size, off, Min(n, st - off), done) == done + ReadBytes(size, st, off, n, b, done)
  {
    if done == 0 {
      FirstReadFacts(size, st, off, n);
    } else {
      LaterStep(size, st, off, n, b, done);
      EndBounds(size, st, off, n);
      PositionIn(size, b, 0);
    }
  }

  /** No piece starts inside another. */
  lemma InsidePiece(size: nat, off: nat, n: nat, j: nat, k: nat)
    requires size > 0 && StartsPiece(size, off, n, j) && j < k < PieceEnd(size, off, n, j)
    ensures !StartsPiece(size, off, n, k)
  {
    var q := (off + j) / size;
    BlockOf(off + j, size);
    MulSub(q + 1, q, size);
    InBlock(off + k, size, q);
  }

  // ----------------------------------------------------------- the whole loop

  function ReadLen(size: nat, st: nat, off: nat, n: nat, b: nat, done: nat): nat
    requires size > 0
  {
    if ReadBytes(size, st, off, n, b, done) < 0 then 0 else ReadBytes(size, st, off, n, b, done)
  }

  lemma ReadStepBy(size: nat, st: nat, off: nat, n: nat, b: nat, done: nat, len: nat)
    requires Reads(size, st, off, n, b, done) && off < st && n > 0 && b <= EndBlock(size, st, off, n)
    requires len == ReadLen(size, st, off, n, b, done)
    ensures 0 < len && done + len <= n
    ensures done > 0 || !FirstRead(size, st, off, n).1 ==> Reads(size, st, off, n, b + 1, done + len)
  {
    ReadStep(size, st, off, n, b, done);
  }

  /** When the range is clipped at the end of the file, only its first block is read. */
  lemma ClipSteps(size: nat, st: nat, off: nat, n: nat)
    requires size > 0 && off < st && n > 0 && Clips(size, st, off, n)
    ensures off + n <= st || FirstRead(size, st, off, n).1 || EndBlock(size, st, off, n) == off / size + 1
  {
    FirstReadFacts(size, st, off, n);
    EndBounds(size, st, off, n);
  }

  // ------------------------------------------- reads that are not clipped right

  /** How many bytes an unclipped read has when it comes to its last block. */
  function Before(size: nat, st: nat, off: nat, n: nat): (k: nat)
    requires size > 0
    ensures k <= n
  {
    var k: int := if st < size then st - off else (EndBlock(size, st, off, n) - 1) * size - off;
    if k < 0 then 0 else Min(n, k)
  }

  /** An unclipped read does not notice the end of the file in its first block, and goes on to a later one. */
  lemma OverStarts(size: nat, st: nat, off: nat, n: nat)
    requires size > 0 && off < st && n > 0 && !Clips(size, st, off, n)
    ensures !FirstRead(size, st, off, n).1 && EndBlock(size, st, off, n) > off / size + 1 && off + n > st
  {
    FirstReadFacts(size, st, off, n);
    EndBounds(size, st, off, n);
  }

  lemma BeforeIs(size: nat, st: nat, off: nat, n: nat, end: nat, k: nat)
    requires size > 0 && off < st && n > 0 && !Clips(size, st, off, n) && end == EndBlock(size, st, off, n) && k == Before(size, st, off, n)
    ensures 0 < k < n && end > off / size + 1
    ensures if st < size then off + k == st && off / size == 0 && end == 2 else off + k == StartOf(size, end)
  {
    OverStarts(size, st, off, n);
    EndBounds(size, st, off, n);
    if st < size {
      ShortFile(size, st, off, n);
    } else {
      BlockOf(off, size);
      MulMono(off / size + 1, end - 1, size);
      MulSub(off / size + 1, off / size, size);
    }
  }

  /** The last block is the file's last one, or lies behind it. */
  lemma LastReaches(size: nat, st: nat, off: nat, n: nat, end: nat)
    requires size > 0 && off < st && n > 0 && !Clips(size, st, off, n) && end == EndBlock(size, st, off, n)
    ensures end > 0 && st <= StartOf(size, end) + size
  {
    OverStarts(size, st, off, n);
    CeilDivBounds(if st < n then off + st else off + n, size);
    MulSub(end, end - 1, size);
  }

  /** What is known of the last block of an unclipped read and of the bytes before it. */
  ghost predicate Past(size: nat, st: nat, off: nat, n: nat, k: nat, end: nat)
  {
    0 < k < n && off + n > st && end > 0 && st <= StartOf(size, end) + size && (off + k == st || off + k == StartOf(size, end))
  }

  lemma PastIs(size: nat, st: nat, off: nat, n: nat, k: nat, end: nat)
    requires size > 0 && off < st && n > 0 && !Clips(size, st, off, n) && end == EndBlock(size, st, off, n) && k == Before(size, st, off, n)
    ensures Past(size, st, off, n, k, end)
  {
    OverStarts(size, st, off, n);
    BeforeIs(size, st, off, n, end, k);
    LastReaches(size, st, off, n, end);
  }

  /** The request at a block before the last one, on whose bound `k` more bytes end. */
  lemma PieceBefore(size: nat, off: nat, k: nat, b: nat, done: nat, end: nat)
    requires size > 0 && done > 0 && 0 < b < end && off + done == StartOf(size, b) && off + k == StartOf(size, end)
    ensures IsPiece(size, off, k, done, b, 0, size)
  {
    PositionIn(size, b, 0);
    MulMono(b, end - 1, size);
    MulSub(b, b - 1, size);
  }

  /** The first request. */
  lemma PieceAtStart(size: nat, off: nat, k: nat, len: nat)
    requires size > 0 && k > 0 && len == Min(k, size - off % size)
    ensures IsPiece(size, off, k, 0, off / size + 1, off % size, len)
  {
  }

  lemma OverFirst(size: nat, st: nat, off: nat, n: nat, end: nat, k: nat)
    requires size > 0 && off < st && n > 0 && !Clips(size, st, off, n) && end == EndBlock(size, st, off, n) && k == Before(size, st, off, n)
    ensures FirstRead(size, st, off, n).0 == Min(k, size - off % size)
  {
    BeforeIs(size, st, off, n, end, k);
    OverStarts(size, st, off, n);
    FirstStep(size, st, off, n);
    BlockOf(off, size);
    if st >= size {
      MulMono(off / size + 1, end - 1, size);
      MulSub(off / size + 1, off / size, size);
    }
  }

  /** The requests of an unclipped read are the pieces of the bytes before its last block, and then all the rest of the range
      at once. */
  lemma OverStep(size: nat, st: nat, off: nat, n: nat, b: nat, done: nat, end: nat, k: nat)
    requires Reads(size, st, off, n, b, done) && off < st && n > 0 && !Clips(size, st, off, n)
    requires end == EndBlock(size, st, off, n) && k == Before(size, st, off, n) && b <= end
    ensures b == end ==> done == k && 0 < done < n && ReadBytes(size, st, off, n, b, done) == n - done
    ensures b < end ==> IsPiece(size, off, k, done, b, if done == 0 then off % size else 0, ReadBytes(size, st, off, n, b, done))
  {
    BeforeIs(size, st, off, n, end, k);
    OverStarts(size, st, off, n);
    if b < end {
      if done == 0 {
        OverFirst(size, st, off, n, end, k);
        PieceAtStart(size, off, k, FirstRead(size, st, off, n).0);
      } else {
        PieceBefore(size, off, k, b, done, end);
      }
    }
  }

  // ------------------------------------------------------ pieces by number

  /** The request (b, o, len) is the piece of the read that starts at j. */
  ghost predicate IsPiece(size: nat, off: nat, n: nat, j: nat, b: nat, o: nat, len: nat)
  {
    && size > 0 && StartsPiece(size, off, n, j) && j + len == PieceEnd(size, off, n, j)
    && b == BlockAt(size, off + j) && o == (off + j) % size
  }

  /** How many blocks a range touches, and how many of its bytes lie before its k-th block. */
  function Blocks(size: nat, off: nat, n: nat): int
    requires size > 0
  {
    CeilDiv(off + n, size) - off / size
  }

  function Cut(size: nat, off: nat, n: nat, k: nat): (c: nat)
    requires size > 0
    ensures c <= n
  {
    if k == 0 then 0 else Min(n, Cut(size, off, n, k - 1) + size - if k == 1 then off % size else 0)
  }

  lemma {:induction false} CutClosed(size: nat, off: nat, n: nat, k: nat)
    requires size > 0 && k > 0
    ensures k * size >= off % size && Cut(size, off, n, k) == Min(n, k * size - off % size)
  {
    MulMono(1, k, size);
    if k > 1 {
      CutClosed(size, off, n, k - 1);
      MulSub(k, 1, size);
    }
  }

  lemma {:induction false} CutMono(size: nat, off: nat, n: nat, j: nat, k: nat)
    requires size > 0 && j <= k
    ensures Cut(size, off, n, j) <= Cut(size, off, n, k)
  {
    if j < k {
      CutMono(size, off, n, j, k - 1);
    }
  }

  /** Up to the last block, the k-th piece starts on its block's bound. */
  lemma CutAt(size: nat, off: nat, n: nat, k: nat)
    requires size > 0 && n > 0 && 0 < k < Blocks(size, off, n)
    ensures Cut(size, off, n, k) < n && off + Cut(size, off, n, k) == StartOf(size, off / size + 1 + k)
  {
    var q, end := off / size, CeilDiv(off + n, size);
    BlockOf(off, size);
    CeilDivBounds(off + n, size);
    MulMono(q + k, end - 1, size);
    CutClosed(size, off, n, k);
    MulAdd(q, k, size);
  }

  lemma CutLast(size: nat, off: nat, n: nat)
    requires size > 0 && n > 0
    ensures Blocks(size, off, n) > 0 && Cut(size, off, n, Blocks(size, off, n)) == n
  {
    var q, end := off / size, CeilDiv(off + n, size);
    BlockOf(off, size);
    CeilDivBounds(off + n, size);
    FirstPiece(size, off, n);
    CutClosed(size, off, n, end - q);
    MulAdd(q, end - q, size);
  }

  /** Where the k-th piece starts. */
  lemma CutPosition(size: nat, off: nat, n: nat, k: nat, c: nat, o: nat)
    requires size > 0 && n > 0 && k < Blocks(size, off, n) && c == Cut(size, off, n, k) && o == if k == 0 then off % size else 0
    ensures c < n && o < size && (off + c) % size == o && BlockAt(size, off + c) == off / size + 1 + k
  {
    if k > 0 {
      CutAt(size, off, n, k);
      PositionIn(size, off / size + 1 + k, 0);
    }
  }

  lemma CutNext(size: nat, off: nat, n: nat, k: nat, c: nat, o: nat)
    requires size > 0 && c == Cut(size, off, n, k) < n && o == (if k == 0 then off % size else 0) < size
    ensures Cut(size, off, n, k + 1) == Min(n, c + size - o) > c
  {
  }

  /** The k-th request of a range asks for its k-th piece, which is never empty. */
  lemma CutPiece(size: nat, off: nat, n: nat, k: nat, o: nat)
    requires size > 0 && n > 0 && k < Blocks(size, off, n) && o == if k == 0 then off % size else 0
    ensures Cut(size, off, n, k) < Cut(size, off, n, k + 1)
    ensures Min(size - o, n - Cut(size, off, n, k)) == Cut(size, off, n, k + 1) - Cut(size, off, n, k)
    ensures IsPiece(size, off, n, Cut(size, off, n, k), off / size + 1 + k, o, Cut(size, off, n, k + 1) - Cut(size, off, n, k))
  {
    var c := Cut(size, off, n, k);
    CutPosition(size, off, n, k, c, o);
    CutNext(size, off, n, k, c, o);
  }
}

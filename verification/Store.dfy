/** The records of one file on its data servers, and what they say about the file's bytes. */
module Store {
  import opened Bytes
  import opened Intervals

  /** Blocks of one file held by one server. Block 0 is the stat header; data starts at block 1. */
  type Records = map<nat, seq<byte>>

  /** Reply of a server that does not hold the block: "$ERRIMSS_NO_KEY_AVAIL$". */
  const NO_KEY: seq<byte> := [36, 69, 82, 82, 73, 77, 83, 83, 95, 78, 79, 95, 75, 69, 89, 95, 65, 86, 65, 73, 76, 36]

  // Markers: the quantified facts below speak about a byte, block or record only where a proof names it.
  predicate OnByte(p: int) { true }
  predicate OnBlock(b: int) { true }
  predicate OnRecord(s: int, b: int) { true }
  predicate OnPosition(s: int, p: int) { true }

  // -------------------------------------------------------------- positions

  /** The block of a file position, and the position of a block's first byte. */
  function BlockAt(size: nat, p: nat): nat
    requires size > 0
  {
    p / size + 1
  }

  function StartOf(size: nat, b: nat): nat
    requires b > 0
  {
    (b - 1) * size
  }

  /** A position computed from block and offset falls in that block, at that offset. */
  lemma PositionIn(size: nat, b: nat, off: nat)
    requires b > 0 && off < size
    ensures BlockAt(size, StartOf(size, b) + off) == b && (StartOf(size, b) + off) % size == off
  {
    DivModUnique(StartOf(size, b) + off, size, b - 1, off);
  }

  lemma PositionOf(size: nat, p: nat)
    requires size > 0
    ensures StartOf(size, BlockAt(size, p)) + p % size == p
  {
    BlockOf(p, size);
  }

  /** The part of block b that starts at `off` and the file positions from `at` on are the same bytes. */
  ghost predicate Lines(size: nat, b: nat, off: nat, at: nat, n: nat)
  {
    size > 0 && b > 0 && off + n <= size && at == StartOf(size, b) + off
  }

  /** The first piece of a range: up to the end of its block, or the whole range. */
  lemma FirstPiece(size: nat, off: nat, n: nat)
    requires size > 0 && n > 0
    ensures Lines(size, off / size + 1, off % size, off, Min(n, size - off % size))
    ensures CeilDiv(off + n, size) >= off / size + 1
    ensures CeilDiv(off + n, size) == off / size + 1 <==> n <= size - off % size
    ensures off + size - off % size == StartOf(size, off / size + 2)
  {
    var q, end := off / size, CeilDiv(off + n, size);
    BlockOf(off, size);
    CeilDivBounds(off + n, size);
    MulSub(q + 1, q, size);
    if end <= q { MulMono(end, q, size); }
    if end == q + 1 {
    } else if end >= q + 2 {
      MulMono(q + 1, end - 1, size);
    }
  }

  /** A later piece starts on a block bound: a whole block, or what is left for the last one. */
  lemma NextPiece(size: nat, off: nat, n: nat, b: nat, done: nat)
    requires size > 0 && n > 0 && b > 0 && done <= n && off + done == StartOf(size, b)
    requires b <= CeilDiv(off + n, size)
    ensures b < CeilDiv(off + n, size) ==>
              done + size < n && Lines(size, b, 0, off + done, size) && off + done + size == StartOf(size, b + 1)
    ensures b == CeilDiv(off + n, size) ==> 0 < n - done <= size && Lines(size, b, 0, off + done, n - done)
  {
    var end := CeilDiv(off + n, size);
    CeilDivBounds(off + n, size);
    MulSub(b, b - 1, size);
    if b < end {
      MulMono(b, end - 1, size);
    }
  }

  /** How many bytes of a range go into block b once `done` of them have been handled. The skip of an already
      finished last block never happens: see PieceStep. */
  function PieceBytes(size: nat, off: nat, n: nat, b: nat, done: nat): nat
    requires size > 0 && done <= n
  {
    if done == 0 then (if n < size - off % size then n else size - off % size)
    else if b == CeilDiv(off + n, size) then n - done
    else size
  }

  /** Where the walk over a range's blocks stands: at block b, `done` bytes handled. */
  ghost predicate Walk(size: nat, off: nat, n: nat, b: nat, done: nat)
  {
    && size > 0 && b > 0 && done <= n
    && (done == 0 ==> b == off / size + 1)
    && (done > 0 && b <= CeilDiv(off + n, size) ==> off + done == StartOf(size, b))
    && (b > CeilDiv(off + n, size) ==> done == n)
  }

  /** Each step of the walk handles a non-empty piece that lies in its block, and moves on to the next. */
  lemma PieceStep(size: nat, off: nat, n: nat, b: nat, done: nat)
    requires Walk(size, off, n, b, done) && n > 0 && b <= CeilDiv(off + n, size)
    ensures 0 < PieceBytes(size, off, n, b, done) && done + PieceBytes(size, off, n, b, done) <= n
    ensures Lines(size, b, if done == 0 then off % size else 0, off + done, PieceBytes(size, off, n, b, done))
    ensures Walk(size, off, n, b + 1, done + PieceBytes(size, off, n, b, done))
  {
    if done == 0 {
      FirstPiece(size, off, n);
    } else {
      NextPiece(size, off, n, b, done);
    }
  }

  /** A byte of the written stretch lies in block b at the matching offset; any other byte does not. */
  lemma WrittenAt(size: nat, b: nat, off: nat, at: nat, n: nat, p: nat)
    requires Lines(size, b, off, at, n)
    ensures at <= p < at + n <==> BlockAt(size, p) == b && off <= p % size < off + n
    ensures at <= p < at + n ==> p - at == p % size - off
  {
    if at <= p < at + n {
      PositionIn(size, b, p - StartOf(size, b));
    } else {
      PositionOf(size, p);
    }
  }

  // ---------------------------------------------------------------- records

  /** A record with `data` stored at `off`; a record that was absent starts from whatever its buffer held. */
  function Stored(rec: Records, b: nat, off: nat, data: seq<byte>, leftover: seq<byte>): Records
    requires off + |data| <= |if b in rec then rec[b] else leftover|
  {
    rec[b := Splice(if b in rec then rec[b] else leftover, off, data)]
  }

  /** Every record is a whole block. */
  ghost predicate Shaped(size: nat, servers: seq<Records>)
  {
    forall s, b {:trigger OnRecord(s, b)} ::
      OnRecord(s, b) && 0 <= s < |servers| && b in servers[s] ==> |servers[s][b]| == size
  }

  /** The store after `data` went to the servers `where`. */
  ghost predicate StoredOn(before: seq<Records>, after: seq<Records>, where: set<nat>,
                           b: nat, off: nat, data: seq<byte>, leftover: (nat, nat) -> seq<byte>)
  {
    && |after| == |before|
    && forall s {:trigger OnRecord(s, b)} :: OnRecord(s, b) && 0 <= s < |after| ==>
        && (s in where ==> off + |data| <= |if b in before[s] then before[s][b] else leftover(s, b)|)
        && after[s] == if s in where then Stored(before[s], b, off, data, leftover(s, b)) else before[s]
  }

  lemma StoredShaped(size: nat, before: seq<Records>, after: seq<Records>, where: set<nat>,
                     b: nat, off: nat, data: seq<byte>, leftover: (nat, nat) -> seq<byte>)
    requires Shaped(size, before) && (forall s, c :: |leftover(s, c)| == size)
    requires StoredOn(before, after, where, b, off, data, leftover)
    ensures Shaped(size, after)
  {
    forall s, c | OnRecord(s, c) && 0 <= s < |after| && c in after[s] ensures |after[s][c]| == size {
      assert OnRecord(s, b);
    }
  }

  // --------------------------------------------------------- byte by byte

  function ByteOf(rec: seq<byte>, i: nat): byte { if i < |rec| then rec[i] else 0 }

  /** What server s has for position p of the file: the byte in its record, or the one a record allocated there would
      start with. */
  function ByteAt(size: nat, servers: seq<Records>, leftover: (nat, nat) -> seq<byte>, s: nat, p: nat): byte
    requires size > 0
  {
    var b := BlockAt(size, p);
    ByteOf(if s < |servers| && b in servers[s] then servers[s][b] else leftover(s, b), p % size)
  }

  /** What a write does to the servers. Blocks lo up to hi have a record on the servers `where` gives, and everyone who
      had one still has. At the positions from `off` on those servers now have `data`; all other bytes, and all bytes of
      other servers, are what they were. */
  ghost predicate Effect(size: nat, servers: seq<Records>, servers': seq<Records>, leftover: (nat, nat) -> seq<byte>,
                         off: nat, data: seq<byte>, lo: nat, hi: nat, where: nat -> set<nat>)
    requires size > 0
  {
    && |servers'| == |servers|
    && (forall s: nat, b: nat {:trigger OnRecord(s, b)} :: OnRecord(s, b) && s < |servers| ==>
         (b in servers'[s] <==> b in servers[s] || (lo <= b < hi && s in where(b))))
    && (forall s: nat, p: nat {:trigger OnPosition(s, p)} :: OnPosition(s, p) && s < |servers| ==>
         ByteAt(size, servers', leftover, s, p)
         == if off <= p < off + |data| && s in where(BlockAt(size, p)) then data[p - off] else ByteAt(size, servers, leftover, s, p))
  }

  lemma SplicedByte(base: seq<byte>, off: nat, data: seq<byte>, i: nat)
    requires off + |data| <= |base|
    ensures ByteOf(Splice(base, off, data), i) == if off <= i < off + |data| then data[i - off] else ByteOf(base, i)
  {
  }

  /** One byte of one server's records after one block was stored there. */
  lemma RecordByte(rec: Records, b: nat, off: nat, data: seq<byte>, leftover: seq<byte>, i: nat)
    requires off + |data| <= |if b in rec then rec[b] else leftover|
    ensures ByteOf(Stored(rec, b, off, data, leftover)[b], i)
         == if off <= i < off + |data| then data[i - off] else ByteOf(if b in rec then rec[b] else leftover, i)
  {
    SplicedByte(if b in rec then rec[b] else leftover, off, data, i);
  }

  /** One position after one block was stored. */
  lemma StoredByte(size: nat, before: seq<Records>, after: seq<Records>, where: set<nat>, b: nat, off: nat, at: nat, data: seq<byte>,
                   leftover: (nat, nat) -> seq<byte>, s: nat, p: nat)
    requires Lines(size, b, off, at, |data|) && s < |before| && (forall s, c :: |leftover(s, c)| == size) && Shaped(size, before)
    requires StoredOn(before, after, where, b, off, data, leftover)
    ensures ByteAt(size, after, leftover, s, p)
         == if at <= p < at + |data| && s in where then data[p - at] else ByteAt(size, before, leftover, s, p)
  {
    assert OnRecord(s, b);
    WrittenAt(size, b, off, at, |data|, p);
    if s in where {
      RecordByte(before[s], b, off, data, leftover(s, b), p % size);
    }
  }

  /** Storing a part of one block. */
  lemma StoreEffect(size: nat, before: seq<Records>, after: seq<Records>, b: nat, off: nat, at: nat, data: seq<byte>,
                    leftover: (nat, nat) -> seq<byte>, where: nat -> set<nat>)
    requires Lines(size, b, off, at, |data|) && (forall s, c :: |leftover(s, c)| == size) && Shaped(size, before)
    requires StoredOn(before, after, where(b), b, off, data, leftover)
    ensures Effect(size, before, after, leftover, at, data, b, b + 1, where)
  {
    forall s: nat, c: nat | OnRecord(s, c) && s < |before|
      ensures c in after[s] <==> c in before[s] || (b <= c < b + 1 && s in where(c))
    {
      assert OnRecord(s, b);
    }
    forall s: nat, p: nat | OnPosition(s, p) && s < |before|
      ensures ByteAt(size, after, leftover, s, p)
           == if at <= p < at + |data| && s in where(BlockAt(size, p)) then data[p - at] else ByteAt(size, before, leftover, s, p)
    {
      StoredByte(size, before, after, where(b), b, off, at, data, leftover, s, p);
      WrittenAt(size, b, off, at, |data|, p);
    }
  }

  /** One more block. */
  lemma EffectExtends(size: nat, servers0: seq<Records>, servers1: seq<Records>, servers2: seq<Records>, leftover: (nat, nat) -> seq<byte>,
                      off: nat, done: seq<byte>, chunk: seq<byte>, lo: nat, b: nat, where: nat -> set<nat>)
    requires size > 0 && lo <= b && Effect(size, servers0, servers1, leftover, off, done, lo, b, where)
    requires Effect(size, servers1, servers2, leftover, off + |done|, chunk, b, b + 1, where)
    ensures Effect(size, servers0, servers2, leftover, off, done + chunk, lo, b + 1, where)
  {
  }

  // --------------------------------------------------------- finding blocks

  /** The server a block is looked up on: placed by the count recorded for it, or else by the current count. */
  function WhereIs(place: (nat, nat) -> nat, table: seq<Interval>, n: nat, b: nat): nat
  {
    var count := CountFor(table, n, b);
    if count > 0 then place(count, b) else 0
  }

  /** Recording the table moves no block. */
  lemma UpdateFound(place: (nat, nat) -> nat, table: seq<Interval>, n: nat, first: int, last: int, b: nat)
    ensures WhereIs(place, AfterUpdate(table, n, first, last), n, b) == WhereIs(place, table, n, b)
  {
    UpdateMovesNothing(table, n, first, last, b);
  }
}

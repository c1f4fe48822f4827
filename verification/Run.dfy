/** Whole runs: a striped, replicated file on a growing set of servers against one array of bytes. */
module Run {
  import opened Bytes
  import opened Intervals
  import opened Placement
  import opened Store
  import opened ReadPlan
  import opened Replies
  import opened Reader
  import opened StripedFile

  datatype Op =
    | WriteAt(off: nat, data: seq<byte>)
    | ReadAt(off: nat, n: nat, mem: seq<byte>)  // n bytes into memory: the caller's buffer and what lies behind it
    | Join                                      // one more data server

  datatype Out = Wrote(count: int) | Got(ret: int, mem: seq<byte>) | Joined

  /** The reference: the bytes of the file, which servers hold a record of each block, and what each server has for each
      position, or would start a record with. The first `pinned` blocks are looked up with the server count `pinnedAt`. */
  datatype Flat = Flat(bytes: seq<byte>, pinned: nat, pinnedAt: nat, servers: nat, held: (nat, nat) -> bool, at: (nat, nat) -> byte)

  function WithBytes(bytes: seq<byte>, off: nat, data: seq<byte>): (r: seq<byte>)
    requires off <= |bytes|
    ensures |r| == Max(|bytes|, off + |data|)
    ensures forall p :: 0 <= p < |r| ==> r[p] == if off <= p < off + |data| then data[p - off] else bytes[p]
  {
    bytes[..off] + data + if off + |data| <= |bytes| then bytes[off + |data|..] else []
  }

  /** What a read of n bytes should give. */
  ghost function Expected(m: Flat, off: nat, n: nat): (r: seq<byte>)
    ensures |r| == if off < |m.bytes| then Min(n, |m.bytes| - off) else 0
  {
    if off < |m.bytes| then m.bytes[off..off + Min(n, |m.bytes| - off)] else []
  }

  ghost predicate Right(flat: seq<byte>, ret: int, mem: seq<byte>)
  {
    ret == |flat| && |flat| <= |mem| && mem[..|flat|] == flat
  }

  /** How files are striped: block size, copies, whether server counts are recorded, the placement policy, and what lies in
      memory behind the record of a block. */
  datatype Layout = Layout(size: nat, copies: nat, malleable: bool, place: (nat, nat) -> nat, beyond: (nat, nat, nat) -> byte)
  {
    ghost predicate Ok() { size > 0 && copies > 0 && forall n: nat, b: nat :: n > 0 ==> place(n, b) < n }

    /** The server count block b is looked up with, its first server, and all servers asked for it, in order. */
    function Count(m: Flat, b: nat): nat { if 1 <= b <= m.pinned then m.pinnedAt else m.servers }

    function Primary(m: Flat, b: nat): nat { if Count(m, b) > 0 then place(Count(m, b), b) else 0 }

    function List(m: Flat, b: nat): seq<nat>
    {
      if Count(m, b) > 0 && copies > 0 then Replicas(Count(m, b), copies, Primary(m, b), copies) else []
    }

    /** The servers a write of block b goes to. */
    ghost function Where(m: Flat, b: nat): set<nat>
    {
      if m.servers > 0 && copies > 0 then Elements(Replicas(m.servers, copies, Primary(m, b), copies)) else {}
    }

    // ------------------------------------------------------------------- steps

    /** Writes are not empty and leave no gap; a read fits its memory. */
    ghost predicate Legal(m: Flat, op: Op)
    {
      match op
      case WriteAt(off, data) => data != [] && off <= |m.bytes|
      case ReadAt(_, n, mem) => n <= |mem|
      case Join => true
    }

    /** Server s has a record of block b after a write of n bytes at `off`. */
    ghost predicate HeldThen(m: Flat, off: nat, n: nat, s: nat, b: nat)
    {
      m.held(s, b) || (InRange(size, off, n, b) && s in Where(m, b))
    }

    /** What server s has for position p after a write. */
    ghost function AtThen(m: Flat, off: nat, data: seq<byte>, s: nat, p: nat): byte
      requires size > 0
    {
      if off <= p < off + |data| && s in Where(m, BlockAt(size, p)) then data[p - off] else m.at(s, p)
    }

    ghost function Step(m: Flat, op: Op): Flat
      requires size > 0 && Legal(m, op)
    {
      match op
      case WriteAt(off, data) =>
        Flat(WithBytes(m.bytes, off, data),
             if malleable && m.bytes == [] then CeilDiv(|data|, size) else m.pinned,
             if malleable && m.bytes == [] then m.servers else m.pinnedAt,
             m.servers, (s: nat, b: nat) => HeldThen(m, off, |data|, s, b), (s: nat, p: nat) => AtThen(m, off, data, s, p))
      case ReadAt(_, _, _) => m
      case Join => m.(servers := m.servers + 1)
    }

    ghost predicate AllLegal(m: Flat, ops: seq<Op>)
      requires size > 0
      decreases |ops|
    {
      ops == [] || (Legal(m, ops[0]) && AllLegal(Step(m, ops[0]), ops[1..]))
    }

    ghost function After(m: Flat, ops: seq<Op>): Flat
      requires size > 0 && AllLegal(m, ops)
      decreases |ops|
    {
      if ops == [] then m else After(Step(m, ops[0]), ops[1..])
    }

    // ----------------------------------------------------------------- answers

    /** What server s sends for `len` bytes of block b. */
    ghost function ReplyOf(m: Flat, s: nat, b: nat, off: nat, len: nat): (r: Reply)
      ensures r.Some? ==> |r.value| == len
    {
      if b > 0 && m.held(s, b) then Some(seq(len, i requires 0 <= i < len => ByteIn(m, s, b, off + i))) else None
    }

    /** Byte i from the start of the record server s has of block b. */
    ghost function ByteIn(m: Flat, s: nat, b: nat, i: nat): byte
      requires b > 0
    {
      if i < size then m.at(s, StartOf(size, b) + i) else beyond(s, b, i)
    }

    /** What the servers of a list send, one after the other. */
    ghost function Replies(m: Flat, list: seq<nat>, b: nat, off: nat, len: nat): (r: seq<Reply>)
      ensures |r| == |list| && forall i :: 0 <= i < |r| ==> r[i] == ReplyOf(m, list[i], b, off, len)
    {
      seq(|list|, i requires 0 <= i < |list| => ReplyOf(m, list[i], b, off, len))
    }

    ghost function Ask(m: Flat): Asks { (b: nat, off: nat, len: nat) => Replies(m, List(m, b), b, off, len) }

    /** `out` is what the reference answers. */
    ghost predicate Answers(m: Flat, op: Op, out: Out)
      requires size > 0 && Legal(m, op)
    {
      match op
      case WriteAt(_, data) => out == Wrote(|data|)
      case Join => out == Joined
      case ReadAt(off, n, mem) => out.Got? && ReadAnswers(m, off, n, mem, out.ret, out.mem)
    }

    /** The answer to a read: exactly what comes of the replies that the servers asked give. */
    ghost predicate ReadAnswers(m: Flat, off: nat, n: nat, mem: seq<byte>, ret: int, mem': seq<byte>)
      requires size > 0 && n <= |mem|
    {
      Sreads(size, |m.bytes|, off, n, Ask(m), mem, ret, mem')
    }

    ghost predicate AllAnswered(m: Flat, ops: seq<Op>, out: seq<Out>)
      requires size > 0 && AllLegal(m, ops)
      decreases |ops|
    {
      && |out| == |ops|
      && (ops != [] ==> Answers(m, ops[0], out[0]) && AllAnswered(Step(m, ops[0]), ops[1..], out[1..]))
    }

    // ------------------------------------------------------------ finding a block

    /** The first server asked that has any record of block b. */
    ghost function Source(m: Flat, b: nat): Option<nat> { FirstHolder(m, List(m, b), b) }

    /** The record server s has of block b holds all the file's bytes. */
    ghost predicate UpToDate(m: Flat, s: nat, b: nat)
      requires size > 0
    {
      m.held(s, b) && forall p: nat {:trigger OnByte(p)} :: OnByte(p) && p < |m.bytes| && BlockAt(size, p) == b ==> m.at(s, p) == m.bytes[p]
    }

    /** Block b is read from an up-to-date server, or from none. */
    ghost predicate Found(m: Flat, b: nat)
      requires size > 0
    {
      Source(m, b).Some? && UpToDate(m, Source(m, b).value, b)
    }

    ghost predicate Lost(m: Flat, b: nat) { Source(m, b).None? }

    /** The first server asked is up to date. */
    ghost predicate AtFirst(m: Flat, b: nat)
      requires size > 0
    {
      UpToDate(m, Primary(m, b), b)
    }

    /** No server asked has fallen behind. */
    ghost predicate NoneBehind(m: Flat, b: nat)
      requires size > 0
    {
      forall i :: 0 <= i < |List(m, b)| && m.held(List(m, b)[i], b) ==> UpToDate(m, List(m, b)[i], b)
    }

    ghost predicate AllFound(m: Flat, off: nat, n: nat)
      requires size > 0
    {
      forall b: nat {:trigger OnBlock(b)} :: OnBlock(b) && InRange(size, off, n, b) ==> Found(m, b)
    }

    ghost predicate AllAtFirst(m: Flat, off: nat, n: nat)
      requires size > 0
    {
      forall b: nat {:trigger OnBlock(b)} :: OnBlock(b) && InRange(size, off, n, b) ==> AtFirst(m, b)
    }

    ghost predicate NoneBehindIn(m: Flat, off: nat, n: nat)
      requires size > 0
    {
      forall b: nat {:trigger OnBlock(b)} :: OnBlock(b) && InRange(size, off, n, b) ==> NoneBehind(m, b)
    }

    ghost predicate SomeLost(m: Flat, off: nat, n: nat)
    {
      exists b: nat :: InRange(size, off, n, b) && Lost(m, b)
    }

    /** The bytes of a range as the servers that are read have them. */
    ghost function Sent(m: Flat, off: nat, n: nat): (r: seq<byte>)
      requires size > 0
      ensures |r| == n
    {
      seq(n, i requires 0 <= i < n => SentAt(m, off + i))
    }

    ghost function SentAt(m: Flat, p: nat): byte
      requires size > 0
    {
      match Source(m, BlockAt(size, p))
      case None => 0
      case Some(s) => m.at(s, p)
    }
  }

  ghost function FirstHolder(m: Flat, list: seq<nat>, b: nat): Option<nat>
  {
    if list == [] then None else if m.held(list[0], b) then Some(list[0]) else FirstHolder(m, list[1..], b)
  }

  // ------------------------------------------------------- what answers mean

  /** The first data sent is the first holder's. */
  lemma {:induction false} FirstFromHolder(l: Layout, m: Flat, list: seq<nat>, b: nat, off: nat, len: nat)
    requires b > 0
    ensures First(l.Replies(m, list, b, off, len))
         == match FirstHolder(m, list, b) case None => None case Some(s) => l.ReplyOf(m, s, b, off, len)
    decreases |list|
  {
    if list != [] {
      FirstFromHolder(l, m, list[1..], b, off, len);
      assert l.Replies(m, list, b, off, len)[1..] == l.Replies(m, list[1..], b, off, len);
    }
  }

  /** The `len` bytes from position `at` on are those of block b from o on. */
  ghost predicate Spans(size: nat, b: nat, o: nat, at: nat, len: nat)
    requires size > 0
  {
    && b > 0 && StartOf(size, b) + o == at && o + len <= size
    && forall p: nat {:trigger OnByte(p)} :: OnByte(p) && at <= p < at + len ==> BlockAt(size, p) == b
  }

  lemma LinesSpan(size: nat, b: nat, o: nat, at: nat, len: nat)
    requires Lines(size, b, o, at, len)
    ensures Spans(size, b, o, at, len)
  {
    forall p: nat | OnByte(p) && at <= p < at + len ensures BlockAt(size, p) == b {
      WrittenAt(size, b, o, at, len, p);
    }
  }

  /** The request for the piece at j, and its replies. */
  lemma PieceAsked(l: Layout, m: Flat, off: nat, flat: seq<byte>, j: nat) returns (b: nat, o: nat, piece: seq<byte>)
    requires l.size > 0 && StartsPiece(l.size, off, |flat|, j)
    ensures piece == PieceOf(l.size, off, flat, j) && j + |piece| <= |flat| && piece == flat[j..j + |piece|]
    ensures b == BlockAt(l.size, off + j) && InRange(l.size, off, |flat|, b) && Spans(l.size, b, o, off + j, |piece|)
    ensures AskedAt(l.size, off, |flat|, l.Ask(m), j) == l.Replies(m, l.List(m, b), b, o, |piece|)
  {
    b, o, piece := BlockAt(l.size, off + j), (off + j) % l.size, PieceOf(l.size, off, flat, j);
    PieceLines(l.size, off, |flat|, j);
    LinesSpan(l.size, b, o, off + j, |piece|);
    PieceInRange(l.size, off, |flat|, j);
  }

  /** A server sends whatever it has for the positions of a piece. */
  lemma PieceFrom(l: Layout, m: Flat, s: nat, b: nat, o: nat, at: nat, piece: seq<byte>)
    requires b > 0 && m.held(s, b) && StartOf(l.size, b) + o == at && o + |piece| <= l.size
    requires forall i :: 0 <= i < |piece| ==> piece[i] == m.at(s, at + i)
    ensures l.ReplyOf(m, s, b, o, |piece|) == Some(piece)
  {
    var r := l.ReplyOf(m, s, b, o, |piece|).value;
    forall i | 0 <= i < |piece| ensures r[i] == piece[i] {
      assert r[i] == l.ByteIn(m, s, b, o + i) && StartOf(l.size, b) + (o + i) == at + i;
    }
    assert r == piece;
  }

  /** An up-to-date server sends the file's bytes. */
  lemma PieceRight(l: Layout, m: Flat, s: nat, b: nat, o: nat, at: nat, piece: seq<byte>)
    requires l.size > 0 && Spans(l.size, b, o, at, |piece|) && Slice(m, at, piece) && l.UpToDate(m, s, b)
    ensures l.ReplyOf(m, s, b, o, |piece|) == Some(piece)
  {
    forall i | 0 <= i < |piece| ensures piece[i] == m.at(s, at + i) {
      assert OnByte(at + i);
    }
    PieceFrom(l, m, s, b, o, at, piece);
  }

  lemma {:induction false} HolderHolds(m: Flat, list: seq<nat>, b: nat)
    ensures FirstHolder(m, list, b).Some? ==> FirstHolder(m, list, b).value in list && m.held(FirstHolder(m, list, b).value, b)
    ensures FirstHolder(m, list, b).None? <==> forall i :: 0 <= i < |list| ==> !m.held(list[i], b)
    ensures list != [] && m.held(list[0], b) ==> FirstHolder(m, list, b) == Some(list[0])
  {
    if list != [] {
      HolderHolds(m, list[1..], b);
      assert forall i :: 0 < i < |list| ==> list[i] == list[1..][i - 1];
    }
  }

  /** What is sent for a piece is what its block's source has. */
  lemma BlockSent(l: Layout, m: Flat, b: nat, o: nat, at: nat, piece: seq<byte>)
    requires l.size > 0 && Spans(l.size, b, o, at, |piece|) && !l.Lost(m, b)
    requires forall i :: 0 <= i < |piece| ==> piece[i] == l.SentAt(m, at + i)
    ensures First(l.Replies(m, l.List(m, b), b, o, |piece|)) == Some(piece)
  {
    FirstFromHolder(l, m, l.List(m, b), b, o, |piece|);
    HolderHolds(m, l.List(m, b), b);
    var s := l.Source(m, b).value;
    forall i | 0 <= i < |piece| ensures piece[i] == m.at(s, at + i) {
      assert OnByte(at + i);
    }
    PieceFrom(l, m, s, b, o, at, piece);
  }

  lemma PieceSent(l: Layout, m: Flat, off: nat, sent: seq<byte>, j: nat)
    requires l.size > 0 && StartsPiece(l.size, off, |sent|, j) && !l.SomeLost(m, off, |sent|)
    requires forall i :: 0 <= i < |sent| ==> sent[i] == l.SentAt(m, off + i)
    ensures First(AskedAt(l.size, off, |sent|, l.Ask(m), j)) == Some(PieceOf(l.size, off, sent, j))
  {
    var b, o, piece := PieceAsked(l, m, off, sent, j);
    assert !l.Lost(m, b);
    forall i | 0 <= i < |piece| ensures piece[i] == l.SentAt(m, off + j + i) {
      assert piece[i] == sent[j + i];
    }
    BlockSent(l, m, b, o, off + j, piece);
  }

  /** Every piece is what the servers that are read have. */
  lemma RangeSent(l: Layout, m: Flat, off: nat, n: nat)
    requires l.size > 0 && !l.SomeLost(m, off, n)
    ensures AllSent(l.size, off, l.Ask(m), l.Sent(m, off, n))
  {
    var sent := l.Sent(m, off, n);
    forall j: nat | OnPiece(j) && StartsPiece(l.size, off, |sent|, j)
      ensures First(AskedAt(l.size, off, |sent|, l.Ask(m), j)) == Some(PieceOf(l.size, off, sent, j))
    {
      PieceSent(l, m, off, sent, j);
    }
  }

  /** The lookups of a layout give servers. */
  ghost predicate Looks(l: Layout, m: Flat)
  {
    l.Ok() && l.copies <= m.servers && (m.pinned > 0 ==> l.copies <= m.pinnedAt)
  }

  lemma BlockFirst(l: Layout, m: Flat, b: nat, o: nat, at: nat, piece: seq<byte>)
    requires Looks(l, m) && Spans(l.size, b, o, at, |piece|) && Slice(m, at, piece) && l.AtFirst(m, b)
    ensures l.List(m, b) != [] && l.ReplyOf(m, l.List(m, b)[0], b, o, |piece|) == Some(piece)
  {
    ReplicaZero(l.Count(m, b), l.copies, l.Primary(m, b));
    PieceRight(l, m, l.Primary(m, b), b, o, at, piece);
  }

  /** `flat` is what the file has from `off` on. */
  ghost predicate Slice(m: Flat, off: nat, flat: seq<byte>)
  {
    off + |flat| <= |m.bytes| && flat == m.bytes[off..off + |flat|]
  }

  lemma SubSlice(m: Flat, off: nat, flat: seq<byte>, j: nat, piece: seq<byte>)
    requires Slice(m, off, flat) && j + |piece| <= |flat| && piece == flat[j..j + |piece|]
    ensures Slice(m, off + j, piece)
  {
  }

  lemma FirstAsked(l: Layout, m: Flat, off: nat, flat: seq<byte>, j: nat)
    requires Looks(l, m) && Slice(m, off, flat) && l.AllAtFirst(m, off, |flat|) && StartsPiece(l.size, off, |flat|, j)
    ensures AskedAt(l.size, off, |flat|, l.Ask(m), j) != []
    ensures AskedAt(l.size, off, |flat|, l.Ask(m), j)[0] == Some(PieceOf(l.size, off, flat, j))
  {
    var b, o, piece := PieceAsked(l, m, off, flat, j);
    SubSlice(m, off, flat, j, piece);
    assert OnBlock(b);
    BlockFirst(l, m, b, o, off + j, piece);
  }

  /** Every piece is what the first server asked sends, when that is up to date. */
  lemma RangeFirst(l: Layout, m: Flat, off: nat, flat: seq<byte>)
    requires Looks(l, m) && Slice(m, off, flat) && l.AllAtFirst(m, off, |flat|)
    ensures AllFirst(l.size, off, l.Ask(m), flat)
  {
    forall j: nat | OnPiece(j) && StartsPiece(l.size, off, |flat|, j)
      ensures AskedAt(l.size, off, |flat|, l.Ask(m), j) != []
      ensures AskedAt(l.size, off, |flat|, l.Ask(m), j)[0] == Some(PieceOf(l.size, off, flat, j))
    {
      FirstAsked(l, m, off, flat, j);
    }
  }

  lemma BlockSame(l: Layout, m: Flat, list: seq<nat>, b: nat, o: nat, at: nat, piece: seq<byte>)
    requires l.size > 0 && Spans(l.size, b, o, at, |piece|) && Slice(m, at, piece)
    requires forall i :: 0 <= i < |list| && m.held(list[i], b) ==> l.UpToDate(m, list[i], b)
    ensures Same(l.Replies(m, list, b, o, |piece|), piece)
  {
    forall i | 0 <= i < |list| && m.held(list[i], b) ensures l.ReplyOf(m, list[i], b, o, |piece|) == Some(piece) {
      PieceRight(l, m, list[i], b, o, at, piece);
    }
  }

  lemma SameAsked(l: Layout, m: Flat, off: nat, flat: seq<byte>, j: nat)
    requires l.size > 0 && Slice(m, off, flat) && l.NoneBehindIn(m, off, |flat|) && StartsPiece(l.size, off, |flat|, j)
    ensures Same(AskedAt(l.size, off, |flat|, l.Ask(m), j), PieceOf(l.size, off, flat, j))
  {
    var b, o, piece := PieceAsked(l, m, off, flat, j);
    SubSlice(m, off, flat, j, piece);
    assert OnBlock(b);
    BlockSame(l, m, l.List(m, b), b, o, off + j, piece);
  }

  /** All servers that send a piece send the file's bytes, when none has fallen behind. */
  lemma RangeSame(l: Layout, m: Flat, off: nat, flat: seq<byte>)
    requires l.size > 0 && Slice(m, off, flat) && l.NoneBehindIn(m, off, |flat|)
    ensures AllSame(l.size, off, l.Ask(m), flat)
  {
    forall j: nat | OnPiece(j) && StartsPiece(l.size, off, |flat|, j)
      ensures Same(AskedAt(l.size, off, |flat|, l.Ask(m), j), PieceOf(l.size, off, flat, j))
    {
      SameAsked(l, m, off, flat, j);
    }
  }

  lemma FoundByte(l: Layout, m: Flat, off: nat, n: nat, i: nat)
    requires l.size > 0 && off + n <= |m.bytes| && l.AllFound(m, off, n) && i < n
    ensures l.SentAt(m, off + i) == m.bytes[off + i]
  {
    PieceInRange(l.size, off, n, i);
    assert OnBlock(BlockAt(l.size, off + i)) && OnByte(off + i);
  }

  /** Where all blocks are found, what is sent is right. */
  lemma FoundSent(l: Layout, m: Flat, off: nat, n: nat)
    requires l.size > 0 && off + n <= |m.bytes| && l.AllFound(m, off, n)
    ensures !l.SomeLost(m, off, n) && l.Sent(m, off, n) == m.bytes[off..off + n]
  {
    forall b: nat | InRange(l.size, off, n, b) ensures !l.Lost(m, b) {
      assert OnBlock(b);
    }
    var sent, flat := l.Sent(m, off, n), m.bytes[off..off + n];
    forall i | 0 <= i < n ensures sent[i] == flat[i] {
      FoundByte(l, m, off, n, i);
    }
  }

  /** A read that touches a lost block fails. */
  lemma LostFails(l: Layout, m: Flat, off: nat, n: nat, mem: seq<byte>)
    requires l.size > 0 && 0 < n <= |mem| && l.SomeLost(m, off, n)
    ensures ReadAll(l.size, off, n, l.Ask(m), 0, mem).None?
  {
    var lost: nat :| InRange(l.size, off, n, lost) && l.Lost(m, lost);
    var j := BlockPiece(l.size, off, n, lost);
    var b, o, piece := PieceAsked(l, m, off, mem[..n], j);
    FirstFromHolder(l, m, l.List(m, b), b, o, |piece|);
    ReadMissing(l.size, off, n, l.Ask(m), mem, 0, j);
  }

  lemma BlockPiece(size: nat, off: nat, n: nat, b: nat) returns (j: nat)
    requires n > 0 && InRange(size, off, n, b)
    ensures StartsPiece(size, off, n, j) && BlockAt(size, off + j) == b
  {
    BlockStarts(size, off, n, b);
    j := if b == off / size + 1 then 0 else StartOf(size, b) - off;
  }

  lemma FirstMeans(l: Layout, m: Flat, off: nat, flat: seq<byte>, mem: seq<byte>)
    requires Looks(l, m) && 0 < |flat| <= |mem| && Slice(m, off, flat) && l.AllAtFirst(m, off, |flat|)
    ensures Unmasked(l.size, off, flat, mem) ==> ReadAll(l.size, off, |flat|, l.Ask(m), 0, mem) == Some(flat + mem[|flat|..])
    ensures !Unmasked(l.size, off, flat, mem) && l.NoneBehindIn(m, off, |flat|) ==> ReadAll(l.size, off, |flat|, l.Ask(m), 0, mem) == None
  {
    RangeFirst(l, m, off, flat);
    assert Filled(flat, mem, 0) == mem;
    if Unmasked(l.size, off, flat, mem) {
      ReadFirst(l.size, off, l.Ask(m), flat, mem, 0);
      assert flat[..|flat|] == flat;
    } else if l.NoneBehindIn(m, off, |flat|) {
      RangeSame(l, m, off, flat);
      var j: nat :| OnPiece(j) && StartsPiece(l.size, off, |flat|, j) && !PlainAt(l.size, off, flat, mem, j);
      ReadFooled(l.size, off, l.Ask(m), flat, mem, 0, j);
    }
  }

  lemma SentMeans(l: Layout, m: Flat, off: nat, sent: seq<byte>, mem: seq<byte>)
    requires l.size > 0 && 0 < |sent| <= |mem| && sent == l.Sent(m, off, |sent|) && !l.SomeLost(m, off, |sent|) && AllUnmistakable(l.size, off, sent)
    ensures ReadAll(l.size, off, |sent|, l.Ask(m), 0, mem).Some? && ReadAll(l.size, off, |sent|, l.Ask(m), 0, mem).value[..|sent|] == sent
  {
    RangeSent(l, m, off, |sent|);
    ReadSent(l.size, off, l.Ask(m), sent, mem, 0);
  }

  /** What an answer to a read means, where it is clipped right. A read of a lost block fails. Otherwise, if what the
      servers send cannot be mistaken, that is what is read: it is right if and only if they have the file's bytes. */
  lemma ReadMeans(l: Layout, m: Flat, off: nat, n: nat, mem: seq<byte>, ret: int, mem': seq<byte>, k: nat)
    requires l.size > 0 && 0 < n <= |mem| && off < |m.bytes| && Clips(l.size, |m.bytes|, off, n) && k == Min(n, |m.bytes| - off)
    requires l.ReadAnswers(m, off, n, mem, ret, mem')
    ensures l.SomeLost(m, off, k) ==> ret == -1
    ensures !l.SomeLost(m, off, k) && AllUnmistakable(l.size, off, l.Sent(m, off, k)) ==>
      Right(l.Sent(m, off, k), ret, mem') && (Right(Expected(m, off, n), ret, mem') <==> l.Sent(m, off, k) == Expected(m, off, n))
  {
    if l.SomeLost(m, off, k) {
      LostFails(l, m, off, k, mem);
    } else if AllUnmistakable(l.size, off, l.Sent(m, off, k)) {
      SentMeans(l, m, off, l.Sent(m, off, k), mem);
    }
  }

  /** What the source of block b sends for its first `len` bytes, and for what lies behind the block. */
  ghost function LastSent(l: Layout, m: Flat, b: nat, len: nat): (r: seq<byte>)
    ensures l.Source(m, b).Some? && b > 0 && m.held(l.Source(m, b).value, b) ==> |r| == len
  {
    match l.Source(m, b)
    case None => []
    case Some(s) => match l.ReplyOf(m, s, b, 0, len) case None => [] case Some(r) => r
  }

  lemma LastTaken(l: Layout, m: Flat, b: nat, len: nat, front: seq<byte>, k: nat)
    requires b > 0 && k + len <= |front|
    ensures l.Lost(m, b) ==> AndLast(Some(front), l.Ask(m)(b, 0, len), k).None?
    ensures !l.Lost(m, b) && Unmistakable(LastSent(l, m, b, len)) ==>
      |LastSent(l, m, b, len)| == len && AndLast(Some(front), l.Ask(m)(b, 0, len), k).Some?
      && AndLast(Some(front), l.Ask(m)(b, 0, len), k).value[..k + len] == front[..k] + LastSent(l, m, b, len)
  {
    var replies, last := l.Ask(m)(b, 0, len), LastSent(l, m, b, len);
    FirstFromHolder(l, m, l.List(m, b), b, 0, len);
    HolderHolds(m, l.List(m, b), b);
    if l.Lost(m, b) {
      TakeNone(replies, front[k..]);
    } else if Unmistakable(last) {
      TakeSure(replies, front[k..], last);
      var w := Take(replies, front[k..]).value;
      assert (front[..k] + w)[..k + len] == front[..k] + w[..len];
    }
  }

  /** What an answer to a read means where it is not clipped right: never the count that is promised, but either a failure or
      all n bytes. It fails if a block before the last one, or that one, is lost. Otherwise, if what the servers send
      cannot be mistaken, it gives the bytes before the last block, and then that block and whatever lies behind it. */
  lemma OverMeans(l: Layout, m: Flat, off: nat, n: nat, mem: seq<byte>, ret: int, mem': seq<byte>, k: nat, end: nat)
    requires l.size > 0 && 0 < n <= |mem| && off < |m.bytes| && !Clips(l.size, |m.bytes|, off, n) && l.ReadAnswers(m, off, n, mem, ret, mem')
    requires k == Before(l.size, |m.bytes|, off, n) && end == EndBlock(l.size, |m.bytes|, off, n)
    ensures (ret == -1 || ret == n) && ret != |Expected(m, off, n)| && Past(l.size, |m.bytes|, off, n, k, end)
    ensures l.SomeLost(m, off, k) || l.Lost(m, end) ==> ret == -1
    ensures !l.SomeLost(m, off, k) && !l.Lost(m, end) && AllUnmistakable(l.size, off, l.Sent(m, off, k)) && Unmistakable(LastSent(l, m, end, n - k)) ==>
      Right(l.Sent(m, off, k) + LastSent(l, m, end, n - k), ret, mem')
  {
    PastIs(l.size, |m.bytes|, off, n, k, end);
    var front := ReadAll(l.size, off, k, l.Ask(m), 0, mem);
    if l.SomeLost(m, off, k) {
      LostFails(l, m, off, k, mem);
    } else {
      if AllUnmistakable(l.size, off, l.Sent(m, off, k)) {
        SentMeans(l, m, off, l.Sent(m, off, k), mem);
      }
      if front.Some? {
        LastTaken(l, m, end, n - k, front.value, k);
      }
    }
  }

  lemma LastByte(l: Layout, m: Flat, off: nat, n: nat, k: nat, end: nat, i: nat, last: seq<byte>)
    requires l.size > 0 && Past(l.size, |m.bytes|, off, n, k, end) && !l.Lost(m, end) && k <= i && off + i < |m.bytes|
    requires last == LastSent(l, m, end, n - k)
    ensures i < n && |last| == n - k && last[i - k] == l.SentAt(m, off + i)
  {
    HolderHolds(m, l.List(m, end), end);
    PositionIn(l.size, end, i - k);
  }

  lemma OverByte(l: Layout, m: Flat, off: nat, n: nat, k: nat, end: nat, i: nat, sent: seq<byte>, last: seq<byte>)
    requires l.size > 0 && Past(l.size, |m.bytes|, off, n, k, end) && !l.Lost(m, end) && off + i < |m.bytes|
    requires sent == l.Sent(m, off, k) && last == LastSent(l, m, end, n - k)
    ensures i < |sent + last| && (sent + last)[i] == l.SentAt(m, off + i)
  {
    if i >= k {
      LastByte(l, m, off, n, k, end, i, last);
    }
  }

  /** The bytes of the file are in front of what such a read gives, if all their blocks are found. */
  lemma OverFront(l: Layout, m: Flat, off: nat, n: nat, k: nat, end: nat, sent: seq<byte>, last: seq<byte>, flat: seq<byte>)
    requires l.size > 0 && Past(l.size, |m.bytes|, off, n, k, end) && !l.Lost(m, end) && off < |m.bytes|
    requires sent == l.Sent(m, off, k) && last == LastSent(l, m, end, n - k) && flat == Expected(m, off, n) && l.AllFound(m, off, |flat|)
    ensures flat <= sent + last
  {
    forall i | 0 <= i < |flat| ensures i < |sent + last| && flat[i] == (sent + last)[i] {
      FoundByte(l, m, off, |flat|, i);
      OverByte(l, m, off, n, k, end, i, sent, last);
    }
    OverByte(l, m, off, n, k, end, |flat| - 1, sent, last);
  }

  /** It is right when all blocks are found and the file's bytes cannot be mistaken. */
  lemma FoundMeans(l: Layout, m: Flat, off: nat, n: nat, mem: seq<byte>, ret: int, mem': seq<byte>)
    requires l.size > 0 && 0 < n <= |mem| && off < |m.bytes| && Clips(l.size, |m.bytes|, off, n) && l.ReadAnswers(m, off, n, mem, ret, mem')
    requires l.AllFound(m, off, |Expected(m, off, n)|) && AllUnmistakable(l.size, off, Expected(m, off, n))
    ensures Right(Expected(m, off, n), ret, mem')
  {
    FoundSent(l, m, off, |Expected(m, off, n)|);
    ReadMeans(l, m, off, n, mem, ret, mem', |Expected(m, off, n)|);
  }

  /** When all blocks are up to date at their first server, it is right if the file's bytes are not mistaken, and nothing
      else in memory changes; if they are and no server has fallen behind, the read fails. */
  lemma AtFirstMeans(l: Layout, m: Flat, off: nat, n: nat, mem: seq<byte>, ret: int, mem': seq<byte>)
    requires Looks(l, m) && 0 < n <= |mem| && off < |m.bytes| && Clips(l.size, |m.bytes|, off, n) && l.ReadAnswers(m, off, n, mem, ret, mem')
    requires l.AllAtFirst(m, off, |Expected(m, off, n)|)
    ensures Unmasked(l.size, off, Expected(m, off, n), mem) ==>
      ret == |Expected(m, off, n)| && mem' == Expected(m, off, n) + mem[|Expected(m, off, n)|..]
    ensures !Unmasked(l.size, off, Expected(m, off, n), mem) && l.NoneBehindIn(m, off, |Expected(m, off, n)|) ==> ret == -1
  {
    FirstMeans(l, m, off, Expected(m, off, n), mem);
  }

  // ----------------------------------------------------------- the relation

  ghost function LayoutOf(f: File): Layout { Layout(f.blockSize, f.copies, f.malleable, f.place, f.beyond) }

  /** The servers hold exactly the records of the reference, byte by byte. */
  ghost predicate SameStore(size: nat, servers: seq<Records>, leftover: (nat, nat) -> seq<byte>, m: Flat)
    requires size > 0
  {
    && |servers| == m.servers
    && (forall s: nat, b: nat {:trigger OnRecord(s, b)} :: OnRecord(s, b) ==> (m.held(s, b) <==> s < |servers| && b in servers[s]))
    && (forall s: nat, p: nat {:trigger OnPosition(s, p)} :: OnPosition(s, p) ==> m.at(s, p) == ByteAt(size, servers, leftover, s, p))
  }

  ghost predicate SameTable(table: seq<Interval>, malleable: bool, m: Flat)
  {
    && (malleable && m.bytes != [] <==> table != [])
    && (if table == [] then m.pinned == 0
        else && |table| == 2 && table[0].left == table[0].right == 0 && table[1].left == 1 && table[1].right == m.pinned
             && table[0].value == table[1].value == m.pinnedAt)
  }

  /** The distributed file has the size of the reference, and its servers hold exactly what the reference says. */
  ghost predicate Tracks(f: File, m: Flat)
    reads f, f.ds
  {
    && f.Valid() && f.size == |m.bytes|
    && SameStore(f.blockSize, f.servers, f.leftover, m) && SameTable(f.ds.intervals, f.malleable, m)
  }

  /** The empty array, on n servers whose records would start with `leftover`. */
  ghost function NewFlat(size: nat, n: nat, leftover: (nat, nat) -> seq<byte>): Flat
    requires size > 0
  {
    Flat([], 0, 0, n, (s: nat, b: nat) => false, (s: nat, p: nat) => ByteOf(leftover(s, BlockAt(size, p)), p % size))
  }

  /** A file that was just created tracks it. */
  lemma NewTracks(f: File)
    requires f.Valid() && f.size == 0 && f.ds.intervals == [] && forall i :: 0 <= i < |f.servers| ==> f.servers[i] == map[]
    ensures Tracks(f, NewFlat(f.blockSize, |f.servers|, f.leftover))
  {
  }

  lemma TracksLooks(f: File, m: Flat)
    requires Tracks(f, m)
    ensures Looks(LayoutOf(f), m)
  {
  }

  /** The reference looks blocks up as the file does. */
  lemma SameLookup(f: File, m: Flat, b: nat)
    requires Tracks(f, m) && b > 0
    ensures f.Count(b) == LayoutOf(f).Count(m, b) && f.Primary(b) == LayoutOf(f).Primary(m, b)
    ensures f.Seen().List(b) == LayoutOf(f).List(m, b)
    ensures f.Pinned(b) <==> b <= m.pinned
  {
    f.CountBounds(b);
    assert OnReplicas(f.Count(b), f.Primary(b));
    var t := f.ds.intervals;
    if t != [] {
      var rest := t[1..];
      assert rest[0] == t[1] && rest[1..] == [];
      assert Value(rest, b) == if rest[0].Has(b) then rest[0].value else -1;
    }
  }

  lemma SameWhere(f: File, m: Flat, b: nat)
    requires Tracks(f, m) && b > 0
    ensures WhereOf(f.place, f.listOf, f.ds.intervals, |f.servers|)(b) == LayoutOf(f).Where(m, b)
    ensures forall s :: s in LayoutOf(f).Where(m, b) ==> s < |f.servers|
  {
    SameLookup(f, m, b);
    f.CountBounds(b);
    assert OnReplicas(|f.servers|, f.Primary(b));
    ReplicaList(|f.servers|, f.copies, f.Primary(b), f.listOf(|f.servers|, f.Primary(b)));
  }

  // -------------------------------------------------------------- the steps

  ghost predicate GoesTo(l: Layout, m: Flat, where: nat -> set<nat>)
  {
    forall b: nat {:trigger OnBlock(b)} :: OnBlock(b) && b > 0 ==> where(b) == l.Where(m, b) && forall s :: s in where(b) ==> s < m.servers
  }

  lemma WriteRecord(l: Layout, servers: seq<Records>, servers': seq<Records>, leftover: (nat, nat) -> seq<byte>, m: Flat, off: nat, data: seq<byte>,
                    lo: nat, hi: nat, where: nat -> set<nat>, s: nat, b: nat)
    requires l.size > 0 && SameStore(l.size, servers, leftover, m) && GoesTo(l, m, where)
    requires lo == off / l.size + 1 && hi == CeilDiv(off + |data|, l.size) + 1 && Effect(l.size, servers, servers', leftover, off, data, lo, hi, where)
    ensures l.HeldThen(m, off, |data|, s, b) <==> s < |servers'| && b in servers'[s]
  {
    assert OnRecord(s, b) && OnBlock(b);
  }

  lemma WriteByte(l: Layout, servers: seq<Records>, servers': seq<Records>, leftover: (nat, nat) -> seq<byte>, m: Flat, off: nat, data: seq<byte>,
                  lo: nat, hi: nat, where: nat -> set<nat>, s: nat, p: nat)
    requires l.size > 0 && SameStore(l.size, servers, leftover, m) && GoesTo(l, m, where)
    requires Effect(l.size, servers, servers', leftover, off, data, lo, hi, where)
    ensures l.AtThen(m, off, data, s, p) == ByteAt(l.size, servers', leftover, s, p)
  {
    assert OnPosition(s, p) && OnBlock(BlockAt(l.size, p));
  }

  lemma WriteStore(l: Layout, servers: seq<Records>, servers': seq<Records>, leftover: (nat, nat) -> seq<byte>, m: Flat, off: nat, data: seq<byte>,
                   lo: nat, hi: nat, where: nat -> set<nat>)
    requires l.size > 0 && SameStore(l.size, servers, leftover, m) && l.Legal(m, WriteAt(off, data)) && GoesTo(l, m, where)
    requires lo == off / l.size + 1 && hi == CeilDiv(off + |data|, l.size) + 1 && Effect(l.size, servers, servers', leftover, off, data, lo, hi, where)
    ensures SameStore(l.size, servers', leftover, l.Step(m, WriteAt(off, data)))
  {
    var m' := l.Step(m, WriteAt(off, data));
    forall s: nat, b: nat | OnRecord(s, b) ensures m'.held(s, b) <==> s < |servers'| && b in servers'[s] {
      WriteRecord(l, servers, servers', leftover, m, off, data, lo, hi, where, s, b);
    }
    forall s: nat, p: nat | OnPosition(s, p) ensures m'.at(s, p) == ByteAt(l.size, servers', leftover, s, p) {
      WriteByte(l, servers, servers', leftover, m, off, data, lo, hi, where, s, p);
    }
  }

  method DoWrite(f: File, off: nat, data: seq<byte>, ghost m: Flat) returns (out: Out)
    requires Tracks(f, m) && LayoutOf(f).Legal(m, WriteAt(off, data))
    modifies f, f.ds
    ensures Tracks(f, LayoutOf(f).Step(m, WriteAt(off, data))) && out == Wrote(|data|)
  {
    ghost var servers, where := f.servers, WhereOf(f.place, f.listOf, f.ds.intervals, |f.servers|);
    forall b: nat | OnBlock(b) && b > 0
      ensures where(b) == LayoutOf(f).Where(m, b) && forall s :: s in where(b) ==> s < |servers|
    {
      SameWhere(f, m, b);
    }
    var ret := f.Write(data, off);
    out := Wrote(ret);
    WriteStore(LayoutOf(f), servers, f.servers, f.leftover, m, off, data, off / f.blockSize + 1, CeilDiv(off + |data|, f.blockSize) + 1, where);
  }

  /** A server of the file sends what the reference says, also past the end of a block. */
  lemma SameReply(f: File, m: Flat, s: nat, b: nat, o: nat, len: nat)
    requires Tracks(f, m) && b > 0
    ensures f.Seen().ReplyOf(s, b, o, len) == LayoutOf(f).ReplyOf(m, s, b, o, len)
  {
    assert OnRecord(s, b);
    if m.held(s, b) {
      var r, r' := f.Seen().Reply(s, b, o, len), LayoutOf(f).ReplyOf(m, s, b, o, len).value;
      forall i | 0 <= i < len ensures r[i] == r'[i] {
        SameByte(f, m, s, b, o + i);
      }
      assert r == r';
    }
  }

  lemma SameByte(f: File, m: Flat, s: nat, b: nat, i: nat)
    requires Tracks(f, m) && b > 0 && s < |f.servers| && b in f.servers[s]
    ensures |f.servers[s][b]| == f.blockSize
    ensures LayoutOf(f).ByteIn(m, s, b, i) == if i < f.blockSize then f.servers[s][b][i] else f.beyond(s, b, i)
  {
    assert OnRecord(s, b);
    if i < f.blockSize {
      assert OnPosition(s, StartOf(f.blockSize, b) + i);
      PositionIn(f.blockSize, b, i);
    }
  }

  lemma SameReplies(f: File, m: Flat, b: nat, o: nat, len: nat)
    requires Tracks(f, m) && b > 0
    ensures f.Seen().Asked(b, o, len) == LayoutOf(f).Replies(m, LayoutOf(f).List(m, b), b, o, len)
  {
    SameLookup(f, m, b);
    var list := LayoutOf(f).List(m, b);
    forall i | 0 <= i < |list| ensures f.Seen().ReplyOf(list[i], b, o, len) == LayoutOf(f).ReplyOf(m, list[i], b, o, len) {
      SameReply(f, m, list[i], b, o, len);
    }
  }

  /** Asking the servers is asking the reference. */
  lemma AsksSame(f: File, m: Flat)
    requires Tracks(f, m)
    ensures SameAsks(f.Seen().Ask(), LayoutOf(f).Ask(m))
  {
    forall b: nat, o: nat, len: nat | b > 0 ensures f.Seen().Ask()(b, o, len) == LayoutOf(f).Ask(m)(b, o, len) {
      SameReplies(f, m, b, o, len);
    }
  }

  /** A read answers from the reference and changes nothing. */
  method ReadInto(f: File, buf: array<byte>, off: nat, n: nat, ghost m: Flat) returns (ret: int)
    requires Tracks(f, m) && n <= buf.Length
    modifies f.ds, buf
    ensures Tracks(f, m) && LayoutOf(f).ReadAnswers(m, off, n, old(buf[..]), ret, buf[..])
  {
    ghost var mem := buf[..];
    ret := f.Read(buf, n, off);
    AsksSame(f, m);
    SameSreads(f.blockSize, f.size, off, n, f.Seen().Ask(), LayoutOf(f).Ask(m), mem, ret, buf[..]);
  }

  method DoRead(f: File, off: nat, n: nat, mem: seq<byte>, ghost m: Flat) returns (out: Out)
    requires Tracks(f, m) && n <= |mem|
    modifies f.ds
    ensures Tracks(f, m) && LayoutOf(f).Answers(m, ReadAt(off, n, mem), out)
  {
    var buf := new byte[|mem|](i requires 0 <= i < |mem| => mem[i]);
    assert buf[..] == mem;
    var ret := ReadInto(f, buf, off, n, m);
    out := Got(ret, buf[..]);
  }

  method DoJoin(f: File, ghost m: Flat) returns (out: Out)
    requires Tracks(f, m)
    modifies f
    ensures Tracks(f, LayoutOf(f).Step(m, Join)) && out == Joined
  {
    f.Grow();
    out := Joined;
  }

  /** Any sequence of writes, reads and joins is answered as by the reference, which the servers keep to. */
  method Execute(f: File, ops: seq<Op>, ghost m: Flat) returns (out: seq<Out>)
    requires Tracks(f, m) && LayoutOf(f).AllLegal(m, ops)
    modifies f, f.ds
    ensures Tracks(f, LayoutOf(f).After(m, ops)) && LayoutOf(f).AllAnswered(m, ops, out)
    decreases |ops|
  {
    if ops == [] {
      return [];
    }
    var first;
    match ops[0] {
      case WriteAt(off, data) => first := DoWrite(f, off, data, m);
      case ReadAt(off, n, mem) => first := DoRead(f, off, n, mem, m);
      case Join => first := DoJoin(f, m);
    }
    var rest := Execute(f, ops[1..], LayoutOf(f).Step(m, ops[0]));
    out := [first] + rest;
  }
}

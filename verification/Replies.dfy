/** What a client makes of the replies to its block requests: a function from replies and memory to the result of a read. */
module Replies {
  import opened Bytes
  import opened Store
  import opened ReadPlan

  // -------------------------------------------------------------- one request

  /** How the client tells the no-key message from data: it compares the first 22 bytes in its buffer. */
  predicate LooksMissing(window: seq<byte>)
  {
    |window| >= 22 && window[..22] == NO_KEY
  }

  /** Data that is not the no-key message whatever follows it in the buffer. */
  ghost predicate Unmistakable(piece: seq<byte>)
  {
    piece[..Min(22, |piece|)] != NO_KEY[..Min(22, |piece|)]
  }

  /** Memory from the start of a receive buffer on once `text` has been received there. */
  function Landed(w: seq<byte>, text: seq<byte>): (r: seq<byte>)
    ensures |r| == |w|
  {
    text[..Min(|text|, |w|)] + w[Min(|text|, |w|)..]
  }

  lemma NeverMissing(w: seq<byte>, piece: seq<byte>)
    requires Unmistakable(piece) && |piece| <= |w|
    ensures !LooksMissing(Landed(w, piece))
  {
    var k, r := Min(22, |piece|), Landed(w, piece);
    assert |r| >= 22 ==> r[..22][..k] == piece[..k];
  }

  /** The replies of the servers asked for a piece, in order; none from a server that does not have the block. */
  type Reply = Option<seq<byte>>

  /** get_ndata: one reply after the other lands in the buffer, until one does not look like the no-key message, which is
      what a server without the block sends. The result is the memory from the buffer on. */
  function Take(replies: seq<Reply>, w: seq<byte>): (r: Option<seq<byte>>)
    ensures r.Some? ==> |r.value| == |w|
    decreases |replies|
  {
    if replies == [] then None
    else if replies[0].None? then Take(replies[1..], Landed(w, NO_KEY + [0]))
    else if LooksMissing(Landed(w, replies[0].value)) then Take(replies[1..], Landed(w, replies[0].value))
    else Some(Landed(w, replies[0].value))
  }

  /** The first reply that is data. */
  function First(replies: seq<Reply>): Reply
  {
    if replies == [] then None else if replies[0].Some? then replies[0] else First(replies[1..])
  }

  /** All replies that are data are `piece`. */
  ghost predicate Same(replies: seq<Reply>, piece: seq<byte>)
  {
    forall i :: 0 <= i < |replies| && replies[i].Some? ==> replies[i].value == piece
  }

  /** There is no first data exactly when no reply is data. */
  lemma {:induction false} FirstNone(replies: seq<Reply>)
    ensures First(replies).None? <==> forall i :: 0 <= i < |replies| ==> replies[i].None?
  {
    if replies != [] {
      FirstNone(replies[1..]);
      assert forall i :: 0 < i < |replies| ==> replies[i] == replies[1..][i - 1];
    }
  }

  /** The first data is taken if it cannot be mistaken. */
  lemma {:induction false} TakeSure(replies: seq<Reply>, w: seq<byte>, piece: seq<byte>)
    requires First(replies) == Some(piece) && Unmistakable(piece) && |piece| <= |w|
    ensures Take(replies, w).Some? && Take(replies, w).value[..|piece|] == piece
    decreases |replies|
  {
    if replies[0].Some? {
      NeverMissing(w, piece);
    } else {
      TakeSure(replies[1..], Landed(w, NO_KEY + [0]), piece);
    }
  }

  /** Nothing is taken when no server has the block. */
  lemma {:induction false} TakeNone(replies: seq<Reply>, w: seq<byte>)
    requires First(replies).None?
    ensures Take(replies, w).None?
    decreases |replies|
  {
    if replies != [] {
      TakeNone(replies[1..], Landed(w, NO_KEY + [0]));
    }
  }

  /** Data once mistaken stays mistaken: the no-key message only confirms it. */
  lemma StillMissing(w: seq<byte>, piece: seq<byte>)
    requires |piece| <= |w| && LooksMissing(Landed(w, piece))
    ensures LooksMissing(Landed(Landed(w, NO_KEY + [0]), piece))
    ensures Landed(Landed(w, piece), piece) == Landed(w, piece)
  {
    var v, u := Landed(w, piece), Landed(Landed(w, NO_KEY + [0]), piece);
    forall i | 0 <= i < 22 ensures u[i] == NO_KEY[i] {
      assert v[..22][i] == v[i];
    }
    assert u[..22] == NO_KEY;
  }

  /** Nothing is taken when what all servers send is mistaken. */
  lemma {:induction false} TakeFooled(replies: seq<Reply>, w: seq<byte>, piece: seq<byte>)
    requires Same(replies, piece) && |piece| <= |w| && LooksMissing(Landed(w, piece))
    ensures Take(replies, w).None?
    decreases |replies|
  {
    if replies != [] {
      StillMissing(w, piece);
      assert Same(replies[1..], piece);
      TakeFooled(replies[1..], if replies[0].Some? then Landed(w, piece) else Landed(w, NO_KEY + [0]), piece);
    }
  }

  // -------------------------------------------------------------- whole reads

  /** The replies to a request: block, offset in it, bytes. */
  type Asks = (nat, nat, nat) -> seq<Reply>

  /** The replies for the piece that starts j bytes into a read of n bytes at `off`. */
  function AskedAt(size: nat, off: nat, n: nat, ask: Asks, j: nat): seq<Reply>
    requires size > 0 && j <= n
  {
    ask(BlockAt(size, off + j), (off + j) % size, PieceEnd(size, off, n, j) - j)
  }

  /** A read of n bytes at `off`, piece by piece from the j-th byte on, into memory. It fails with the first piece that
      none of the servers delivers. */
  function ReadAll(size: nat, off: nat, n: nat, ask: Asks, j: nat, mem: seq<byte>): (r: Option<seq<byte>>)
    requires size > 0 && j <= n <= |mem|
    ensures r.Some? ==> |r.value| == |mem|
    decreases n - j
  {
    if j == n then Some(mem) else
    match Take(AskedAt(size, off, n, ask, j), mem[j..])
    case None => None
    case Some(w) => ReadAll(size, off, n, ask, PieceEnd(size, off, n, j), mem[..j] + w)
  }

  /** A read of n bytes that is not clipped right at the end of the file: the bytes before its last block piece by piece, and
      then all that is left at once from the start of that block, even if that is more than a block. */
  function ReadOver(size: nat, st: nat, off: nat, n: nat, ask: Asks, mem: seq<byte>): (r: Option<seq<byte>>)
    requires size > 0 && n <= |mem|
    ensures r.Some? ==> |r.value| == |mem|
  {
    var k, end := Before(size, st, off, n), EndBlock(size, st, off, n);
    AndLast(ReadAll(size, off, k, ask, 0, mem), ask(end, 0, n - k), k)
  }

  /** Once the first k bytes are in memory: one more request, whose replies go right behind them. */
  function AndLast(front: Option<seq<byte>>, replies: seq<Reply>, k: nat): (r: Option<seq<byte>>)
    ensures r.Some? ==> front.Some? && |r.value| == |front.value|
  {
    if front.None? || k > |front.value| then None else
    match Take(replies, front.value[k..])
    case None => None
    case Some(w) => Some(front.value[..k] + w)
  }

  /** imss_sread of n bytes at `off` from a file of `st` bytes, given the replies to its requests: nothing at or past the end;
      the pieces of the range where it is clipped right at the end of the file; else a read that goes past the end. */
  ghost predicate Sreads(size: nat, st: nat, off: nat, n: nat, ask: Asks, mem: seq<byte>, ret: int, mem': seq<byte>)
    requires size > 0 && n <= |mem|
  {
    if off >= st || n == 0 then ret == 0 && mem' == mem
    else if Clips(size, st, off, n) then Returns(ReadAll(size, off, Min(n, st - off), ask, 0, mem), Min(n, st - off), ret, mem')
    else Returns(ReadOver(size, st, off, n, ask, mem), n, ret, mem')
  }

  /** A read of k bytes returns what it gives. */
  ghost predicate Returns(all: Option<seq<byte>>, k: nat, ret: int, mem: seq<byte>)
  {
    match all
    case None => ret == -1
    case Some(r) => ret == k && mem == r
  }

  ghost predicate OnBound(size: nat, off: nat, n: nat, j: nat)
    requires size > 0
  {
    j == n || StartsPiece(size, off, n, j)
  }

  lemma NextBound(size: nat, off: nat, n: nat, j: nat)
    requires size > 0 && StartsPiece(size, off, n, j)
    ensures OnBound(size, off, n, PieceEnd(size, off, n, j))
  {
    var e := PieceEnd(size, off, n, j);
    if e < n {
      var q := (off + j) / size;
      BlockOf(off + j, size);
      MulAdd(q, 1, size);
      DivModUnique(off + e, size, q + 1, 0);
    }
  }

  /** Reads that get the same replies give the same result. */
  lemma {:induction false} SameRead(size: nat, off: nat, n: nat, ask: Asks, ask': Asks, j: nat, mem: seq<byte>)
    requires size > 0 && j <= n <= |mem| && OnBound(size, off, n, j)
    requires forall k: nat {:trigger OnPiece(k)} :: OnPiece(k) && StartsPiece(size, off, n, k) ==>
      AskedAt(size, off, n, ask, k) == AskedAt(size, off, n, ask', k)
    ensures ReadAll(size, off, n, ask, j, mem) == ReadAll(size, off, n, ask', j, mem)
    decreases n - j
  {
    if j < n {
      assert OnPiece(j);
      NextBound(size, off, n, j);
      var w := Take(AskedAt(size, off, n, ask, j), mem[j..]);
      if w.Some? {
        SameRead(size, off, n, ask, ask', PieceEnd(size, off, n, j), mem[..j] + w.value);
      }
    }
  }

  /** All requests for blocks of data get the same replies. */
  ghost predicate SameAsks(ask: Asks, ask': Asks)
  {
    forall b: nat, o: nat, len: nat {:trigger ask(b, o, len)} {:trigger ask'(b, o, len)} :: b > 0 ==> ask(b, o, len) == ask'(b, o, len)
  }

  lemma SameReads(size: nat, off: nat, n: nat, ask: Asks, ask': Asks, mem: seq<byte>)
    requires size > 0 && 0 < n <= |mem| && SameAsks(ask, ask')
    ensures ReadAll(size, off, n, ask, 0, mem) == ReadAll(size, off, n, ask', 0, mem)
  {
    SameRead(size, off, n, ask, ask', 0, mem);
  }

  lemma SameSreads(size: nat, st: nat, off: nat, n: nat, ask: Asks, ask': Asks, mem: seq<byte>, ret: int, mem': seq<byte>)
    requires size > 0 && n <= |mem| && SameAsks(ask, ask') && Sreads(size, st, off, n, ask, mem, ret, mem')
    ensures Sreads(size, st, off, n, ask', mem, ret, mem')
  {
    if off < st && n > 0 {
      if Clips(size, st, off, n) {
        SameReads(size, off, Min(n, st - off), ask, ask', mem);
      } else {
        var k, end := Before(size, st, off, n), EndBlock(size, st, off, n);
        PastIs(size, st, off, n, k, end);
        SameReads(size, off, k, ask, ask', mem);
      }
    }
  }

  /** Piece j of `flat`. */
  function PieceOf(size: nat, off: nat, flat: seq<byte>, j: nat): (r: seq<byte>)
    requires size > 0 && j <= |flat|
    ensures |r| == PieceEnd(size, off, |flat|, j) - j
  {
    flat[j..PieceEnd(size, off, |flat|, j)]
  }

  /** Every piece of `flat` is the first data that is sent for it. */
  ghost predicate AllSent(size: nat, off: nat, ask: Asks, flat: seq<byte>)
    requires size > 0
  {
    forall j: nat {:trigger OnPiece(j)} :: OnPiece(j) && StartsPiece(size, off, |flat|, j) ==>
      First(AskedAt(size, off, |flat|, ask, j)) == Some(PieceOf(size, off, flat, j))
  }

  /** Every piece of `flat` is what the first server asked for it sends. */
  ghost predicate AllFirst(size: nat, off: nat, ask: Asks, flat: seq<byte>)
    requires size > 0
  {
    forall j: nat {:trigger OnPiece(j)} :: OnPiece(j) && StartsPiece(size, off, |flat|, j) ==>
      var replies := AskedAt(size, off, |flat|, ask, j); replies != [] && replies[0] == Some(PieceOf(size, off, flat, j))
  }

  /** Every piece of `flat` is what all servers asked for it send, if they have the block. */
  ghost predicate AllSame(size: nat, off: nat, ask: Asks, flat: seq<byte>)
    requires size > 0
  {
    forall j: nat {:trigger OnPiece(j)} :: OnPiece(j) && StartsPiece(size, off, |flat|, j) ==>
      Same(AskedAt(size, off, |flat|, ask, j), PieceOf(size, off, flat, j))
  }

  /** No piece can be taken for the no-key message, whatever is in memory. */
  ghost predicate AllUnmistakable(size: nat, off: nat, flat: seq<byte>)
    requires size > 0
  {
    forall j: nat {:trigger OnPiece(j)} :: OnPiece(j) && StartsPiece(size, off, |flat|, j) ==> Unmistakable(PieceOf(size, off, flat, j))
  }

  /** Piece j, received in front of what is in memory, is not taken for the no-key message. */
  ghost predicate PlainAt(size: nat, off: nat, flat: seq<byte>, mem: seq<byte>, j: nat)
    requires size > 0 && j <= |flat|
  {
    j <= |mem| && !LooksMissing(Landed(mem[j..], PieceOf(size, off, flat, j)))
  }

  /** Reading into `mem` finds no piece whose bytes are taken for the no-key message. */
  ghost predicate Unmasked(size: nat, off: nat, flat: seq<byte>, mem: seq<byte>)
    requires size > 0
  {
    forall j: nat {:trigger OnPiece(j)} :: OnPiece(j) && StartsPiece(size, off, |flat|, j) ==> PlainAt(size, off, flat, mem, j)
  }

  lemma SamePiece(size: nat, off: nat, n: nat, ask: Asks, ask': Asks, j: nat)
    requires size > 0 && SameAsks(ask, ask') && j <= n
    ensures AskedAt(size, off, n, ask, j) == AskedAt(size, off, n, ask', j)
  {
  }

  lemma SameSent(size: nat, off: nat, ask: Asks, ask': Asks, flat: seq<byte>)
    requires size > 0 && SameAsks(ask, ask') && AllSent(size, off, ask', flat)
    ensures AllSent(size, off, ask, flat)
  {
    forall j: nat | OnPiece(j) && StartsPiece(size, off, |flat|, j)
      ensures First(AskedAt(size, off, |flat|, ask, j)) == Some(PieceOf(size, off, flat, j))
    {
      SamePiece(size, off, |flat|, ask, ask', j);
    }
  }

  lemma SameFirst(size: nat, off: nat, ask: Asks, ask': Asks, flat: seq<byte>)
    requires size > 0 && SameAsks(ask, ask') && AllFirst(size, off, ask', flat)
    ensures AllFirst(size, off, ask, flat)
  {
    forall j: nat | OnPiece(j) && StartsPiece(size, off, |flat|, j)
      ensures var replies := AskedAt(size, off, |flat|, ask, j); replies != [] && replies[0] == Some(PieceOf(size, off, flat, j))
    {
      SamePiece(size, off, |flat|, ask, ask', j);
    }
  }

  // ----------------------------------------------------------- what they give

  /** Memory with the first j bytes of `flat` in front. */
  ghost function Filled(flat: seq<byte>, mem: seq<byte>, j: nat): (r: seq<byte>)
    requires j <= |flat| <= |mem|
    ensures |r| == |mem|
  {
    flat[..j] + mem[j..]
  }

  /** Receiving the next piece fills memory further and leaves the rest alone. */
  lemma Advance(flat: seq<byte>, mem: seq<byte>, j: nat, e: nat)
    requires j <= e <= |flat| <= |mem|
    ensures Filled(flat, mem, j)[j..] == mem[j..]
    ensures Filled(flat, mem, j)[..j] + Landed(mem[j..], flat[j..e]) == Filled(flat, mem, e)
  {
  }

  /** When the first servers send `flat` and nothing is mistaken, exactly these bytes are read and nothing else changes. */
  lemma {:induction false} ReadFirst(size: nat, off: nat, ask: Asks, flat: seq<byte>, mem: seq<byte>, j: nat)
    requires size > 0 && j <= |flat| <= |mem| && OnBound(size, off, |flat|, j)
    requires AllFirst(size, off, ask, flat) && Unmasked(size, off, flat, mem)
    ensures ReadAll(size, off, |flat|, ask, j, Filled(flat, mem, j)) == Some(Filled(flat, mem, |flat|))
    decreases |flat| - j
  {
    if j < |flat| {
      var e := PieceEnd(size, off, |flat|, j);
      assert OnPiece(j);
      Advance(flat, mem, j, e);
      NextBound(size, off, |flat|, j);
      ReadFirst(size, off, ask, flat, mem, e);
    }
  }

  /** When `sent` is what the first servers that have the blocks send, and cannot be mistaken, that is what is read. */
  lemma {:induction false} ReadSent(size: nat, off: nat, ask: Asks, sent: seq<byte>, mem: seq<byte>, j: nat)
    requires size > 0 && j <= |sent| <= |mem| && OnBound(size, off, |sent|, j) && mem[..j] == sent[..j]
    requires AllSent(size, off, ask, sent) && AllUnmistakable(size, off, sent)
    ensures ReadAll(size, off, |sent|, ask, j, mem).Some? && ReadAll(size, off, |sent|, ask, j, mem).value[..|sent|] == sent
    decreases |sent| - j
  {
    if j < |sent| {
      var e, piece := PieceEnd(size, off, |sent|, j), PieceOf(size, off, sent, j);
      assert OnPiece(j);
      TakeSure(AskedAt(size, off, |sent|, ask, j), mem[j..], piece);
      var w := Take(AskedAt(size, off, |sent|, ask, j), mem[j..]).value;
      assert (mem[..j] + w)[..e] == mem[..j] + w[..e - j];
      assert sent[..e] == sent[..j] + piece;
      NextBound(size, off, |sent|, j);
      ReadSent(size, off, ask, sent, mem[..j] + w, e);
    } else {
      assert sent[..j] == sent;
    }
  }

  /** A read fails when no server has one of its blocks. */
  lemma {:induction false} ReadMissing(size: nat, off: nat, n: nat, ask: Asks, mem: seq<byte>, j: nat, gone: nat)
    requires size > 0 && j <= n <= |mem| && StartsPiece(size, off, n, j) && j <= gone
    requires StartsPiece(size, off, n, gone) && First(AskedAt(size, off, n, ask, gone)).None?
    ensures ReadAll(size, off, n, ask, j, mem).None?
    decreases n - j
  {
    if j == gone {
      TakeNone(AskedAt(size, off, n, ask, j), mem[j..]);
    } else {
      var e := PieceEnd(size, off, n, j);
      if gone < e {
        InsidePiece(size, off, n, j, gone);
      }
      NextBound(size, off, n, j);
      var w := Take(AskedAt(size, off, n, ask, j), mem[j..]);
      if w.Some? {
        ReadMissing(size, off, n, ask, mem[..j] + w.value, e, gone);
      }
    }
  }

  /** A read fails when a piece is mistaken wherever it comes from. */
  lemma {:induction false} ReadFooled(size: nat, off: nat, ask: Asks, flat: seq<byte>, mem: seq<byte>, j: nat, masked: nat)
    requires size > 0 && j <= |flat| <= |mem| && StartsPiece(size, off, |flat|, j) && j <= masked
    requires AllFirst(size, off, ask, flat) && AllSame(size, off, ask, flat)
    requires StartsPiece(size, off, |flat|, masked) && !PlainAt(size, off, flat, mem, masked)
    ensures ReadAll(size, off, |flat|, ask, j, Filled(flat, mem, j)).None?
    decreases |flat| - j
  {
    var e, piece := PieceEnd(size, off, |flat|, j), PieceOf(size, off, flat, j);
    assert OnPiece(j);
    Advance(flat, mem, j, e);
    if !PlainAt(size, off, flat, mem, j) {
      TakeFooled(AskedAt(size, off, |flat|, ask, j), mem[j..], piece);
    } else {
      if masked < e {
        InsidePiece(size, off, |flat|, j, masked);
      }
      NextBound(size, off, |flat|, j);
      ReadFooled(size, off, ask, flat, mem, e, masked);
    }
  }
}

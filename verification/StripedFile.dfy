/** Reading and writing one file whose blocks are striped and replicated over data servers. */
module StripedFile {
  import opened Bytes
  import opened Placement
  import opened Intervals
  import opened Store
  import opened ReadPlan
  import opened Replies
  import opened Reader

  /** The servers a block is written to: its first one as it is looked up, the others counted from there. */
  ghost function WhereOf(place: (nat, nat) -> nat, listOf: (nat, nat) -> seq<nat>, table: seq<Interval>, n: nat): nat -> set<nat>
  {
    (b: nat) => Elements(listOf(n, WhereIs(place, table, n, b)))
  }

  class File {
    const blockSize: nat
    const copies: nat
    const malleable: bool
    /** Server of block b when n servers are in use. */
    const place: (nat, nat) -> nat
    /** Servers of the copies of a block whose first copy is on server p of n, in order. */
    const listOf: (nat, nat) -> seq<nat>
    /** What the memory of a fresh record holds, and what lies behind a record. */
    const leftover: (nat, nat) -> seq<byte>
    const beyond: (nat, nat, nat) -> byte

    var servers: seq<Records>
    var size: nat
    const ds: Dataset

    constructor (policy: Policy, name: string, blockSize: nat, n: nat, replFactor: nat, malleable: bool,
                 leftover: (nat, nat) -> seq<byte>, beyond: (nat, nat, nat) -> byte)
      requires blockSize > 0 && n > 0 && replFactor > 0
      requires forall s, b :: |leftover(s, b)| == blockSize
      ensures Valid() && fresh(ds)
      ensures this.blockSize == blockSize && |servers| == n && this.malleable == malleable
      ensures copies == Min(replFactor, n)
      ensures forall m: nat, b: nat :: m > 0 ==> place(m, b) == FindServer(policy, m, b, name)
      ensures size == 0 && ds.intervals == [] && this.leftover == leftover
      ensures forall i :: 0 <= i < n ==> servers[i] == map[]
    {
      this.blockSize := blockSize;
      var copies := if replFactor < n then replFactor else n;
      this.copies := copies;
      this.malleable := malleable;
      this.place := (m: nat, b: nat) => if m > 0 then FindServer(policy, m, b, name) else 0;
      this.listOf := (m: nat, p: nat) => if m > 0 then Replicas(m, copies, p, copies) else [];
      this.leftover := leftover;
      this.beyond := beyond;
      servers := seq(n, i => map[]);
      size := 0;
      ds := new Dataset();
    }

    // ------------------------------------------------------------- invariants

    /** The table is empty or records block zero and one range of data blocks, both at the same count. */
    ghost predicate TableShape()
      reads this, ds
    {
      ds.intervals != [] ==>
        && |ds.intervals| == 2
        && ds.intervals[0].value == ds.intervals[1].value
        && copies <= ds.intervals[0].value <= |servers|
        && ds.intervals[0].left == ds.intervals[0].right == 0
        && 1 <= ds.intervals[1].left <= ds.intervals[1].right
    }

    /** Between calls a malleable file that has data has a table, and only then a range of blocks. */
    ghost predicate TableOk()
      reads this, ds
    {
      && TableShape()
      && (!malleable ==> ds.intervals == [])
      && (malleable && size > 0 ==> ds.intervals != [])
      && (malleable && ds.intervals == [] ==> ds.firstBlock == -1 && ds.lastBlock == -1)
    }

    ghost predicate Wired()
    {
      && blockSize > 0
      && (forall m: nat, b: nat :: m > 0 ==> place(m, b) < m)
      && (forall s, b :: |leftover(s, b)| == blockSize)
      && (forall m: nat, p: nat {:trigger OnReplicas(m, p)} ::
           OnReplicas(m, p) && 0 < copies <= m ==> listOf(m, p) == Replicas(m, copies, p, copies))
    }

    ghost predicate Shape()
      reads this
    {
      && Wired()
      && 0 < copies <= |servers|
      && Shaped(blockSize, servers)
    }

    ghost predicate Valid()
      reads this, ds
    {
      Shape() && TableOk()
    }

    /** The server count a block is looked up with, and the server. */
    function Count(b: nat): int
      reads this, ds
    {
      CountFor(ds.intervals, |servers|, b)
    }

    function Primary(b: nat): nat
      reads this, ds
    {
      WhereIs(place, ds.intervals, |servers|, b)
    }

    /** Looking a block up always yields one of the servers. */
    lemma CountBounds(b: nat)
      requires Shape() && TableShape()
      ensures copies <= Count(b) <= |servers| && Primary(b) < Count(b)
      ensures Count(b) == if ds.intervals != [] && (b == 0 || ds.intervals[1].Has(b)) then ds.intervals[0].value else |servers|
    {
      if ds.intervals != [] {
        var rest := ds.intervals[1..];
        assert rest[0] == ds.intervals[1] && rest[1..] == [];
        assert Value(rest, b) == if rest[0].Has(b) then rest[0].value else -1;
      }
    }

    // ------------------------------------------------------------------ write

    method GetDataLocation(b: nat) returns (s: nat)
      requires Shape() && TableShape()
      ensures s == Primary(b)
    {
      CountBounds(b);
      var entry := ds.GetValueFromInterval(b);
      var n := if entry == -1 then |servers| else entry;
      s := place(n, b);
    }

    /** The loop of set_data: the block goes to one server after the other. */
    method SendTo(list: seq<nat>, b: nat, data: seq<byte>, off: nat)
      requires Shape() && off + |data| <= blockSize && Distinct(list) && AllIn(list, |servers|)
      modifies this`servers
      ensures StoredOn(old(servers), servers, Elements(list), b, off, data, leftover)
    {
      ghost var before := servers;
      for i := 0 to |list|
        invariant StoredOn(before, servers, Elements(list[..i]), b, off, data, leftover)
      {
        var s := list[i];
        assert OnRecord(s, b);
        servers := servers[s := Stored(servers[s], b, off, data, leftover(s, b))];
        NextServer(list, i);
      }
      assert list[..|list|] == list;
    }

    /** set_data: one block, stored at all its copies. */
    method SetData(b: nat, data: seq<byte>, off: nat, ghost at: nat)
      requires Shape() && TableShape() && Lines(blockSize, b, off, at, |data|)
      modifies this`servers, ds`firstBlock, ds`lastBlock
      ensures Shape() && TableShape()
      ensures Effect(blockSize, old(servers), servers, leftover, at, data, b, b + 1, WhereOf(place, listOf, ds.intervals, |servers|))
      ensures malleable ==> ds.lastBlock == if old(ds.lastBlock) < b then b else old(ds.lastBlock)
      ensures malleable ==> ds.firstBlock == if old(ds.firstBlock) == -1 then b else old(ds.firstBlock)
      ensures !malleable ==> ds.firstBlock == old(ds.firstBlock) && ds.lastBlock == old(ds.lastBlock)
    {
      var primary := GetDataLocation(b);
      if malleable {
        ds.NoteBlock(b);
      }
      ghost var before, where := servers, WhereOf(place, listOf, ds.intervals, |servers|);
      SendCopies(b, data, off, primary);
      StoredShaped(blockSize, before, servers, where(b), b, off, data, leftover);
      StoreEffect(blockSize, before, servers, b, off, at, data, leftover, where);
    }

    method SendCopies(b: nat, data: seq<byte>, off: nat, primary: nat)
      requires Shape() && TableShape() && off + |data| <= blockSize && primary == Primary(b)
      modifies this`servers
      ensures StoredOn(old(servers), servers, Elements(listOf(|servers|, primary)), b, off, data, leftover)
      ensures forall s :: s in Elements(listOf(|servers|, primary)) ==> s < |servers|
    {
      CountBounds(b);
      var list := listOf(|servers|, primary);
      assert OnReplicas(|servers|, primary);
      ReplicaList(|servers|, copies, primary, list);
      SendTo(list, b, data, off);
    }

    /** How far a write has come: `done` is stored from position `off` on, and blocks lo up to hi are written. */
    ghost predicate Progress(table: seq<Interval>, servers0: seq<Records>, off: nat, done: seq<byte>, lo: nat, hi: nat)
      reads this, ds
    {
      && Shape() && TableShape() && ds.intervals == table
      && Effect(blockSize, servers0, servers, leftover, off, done, lo, hi, WhereOf(place, listOf, table, |servers0|))
    }

    method StoreChunk(b: nat, chunk: seq<byte>, blockOffset: nat, ghost table: seq<Interval>,
                      ghost servers0: seq<Records>, ghost off: nat, ghost done: seq<byte>, ghost lo: nat)
      requires Progress(table, servers0, off, done, lo, b) && lo <= b && Lines(blockSize, b, blockOffset, off + |done|, |chunk|)
      modifies this`servers, ds`firstBlock, ds`lastBlock
      ensures Progress(table, servers0, off, done + chunk, lo, b + 1)
      ensures malleable ==> ds.lastBlock == if old(ds.lastBlock) < b then b else old(ds.lastBlock)
      ensures malleable ==> ds.firstBlock == if old(ds.firstBlock) == -1 then b else old(ds.firstBlock)
      ensures !malleable ==> ds.firstBlock == old(ds.firstBlock) && ds.lastBlock == old(ds.lastBlock)
    {
      ghost var before := servers;
      SetData(b, chunk, blockOffset, off + |done|);
      EffectExtends(blockSize, servers0, before, servers, leftover, off, done, chunk, lo, b, WhereOf(place, listOf, table, |servers0|));
    }

    /** One turn of the loop of imss_write. */
    method StoreTurn(data: seq<byte>, b: nat, stored: nat, count: nat, blockOffset: nat, ghost table: seq<Interval>,
                     ghost servers0: seq<Records>, ghost off: nat, ghost lo: nat)
      requires stored + count <= |data| && Progress(table, servers0, off, data[..stored], lo, b) && lo <= b
      requires Lines(blockSize, b, blockOffset, off + stored, count)
      modifies this`servers, ds`firstBlock, ds`lastBlock
      ensures Progress(table, servers0, off, data[..stored + count], lo, b + 1)
      ensures malleable ==> ds.lastBlock == if old(ds.lastBlock) < b then b else old(ds.lastBlock)
      ensures malleable ==> ds.firstBlock == if old(ds.firstBlock) == -1 then b else old(ds.firstBlock)
      ensures !malleable ==> ds.firstBlock == old(ds.firstBlock) && ds.lastBlock == old(ds.lastBlock)
    {
      var chunk := data[stored..stored + count];
      assert data[..stored] + chunk == data[..stored + count];
      StoreChunk(b, chunk, blockOffset, table, servers0, off, data[..stored], lo);
    }

    /** A loop of block writes: like LoopOk, each write lying in its block, and all of the range written at the end. */
    static ghost predicate StoreOk(size: nat, off: nat, n: nat, startBlk: nat, endBlk: nat, startOffset: nat,
                                   at: (nat, nat) -> bool, bytes: (nat, nat) -> nat)
      requires size > 0
    {
      && at(startBlk, 0)
      && forall b: nat, done: nat {:trigger OnTurn(b, done)} :: OnTurn(b, done) && at(b, done) ==>
           if b <= endBlk then
             && 0 < bytes(b, done) && done + bytes(b, done) <= n
             && Lines(size, b, if done == 0 then startOffset else 0, off + done, bytes(b, done))
             && at(b + 1, done + bytes(b, done))
           else done == n
    }

    /** The loop of imss_write. */
    method StoreLoop(data: seq<byte>, startBlk: nat, endBlk: nat, startOffset: nat, bytes: (nat, nat) -> nat,
                     ghost at: (nat, nat) -> bool, ghost off: nat, ghost table: seq<Interval>, ghost servers0: seq<Records>)
      requires Progress(table, servers0, off, [], startBlk, startBlk) && |data| > 0 && 0 < startBlk <= endBlk
      requires StoreOk(blockSize, off, |data|, startBlk, endBlk, startOffset, at, bytes)
      modifies this`servers, ds`firstBlock, ds`lastBlock
      ensures Progress(table, servers0, off, data, startBlk, endBlk + 1)
      ensures malleable && old(ds.firstBlock) == -1 && old(ds.lastBlock) == -1 ==> ds.firstBlock == startBlk && ds.lastBlock == endBlk
    {
      var currBlk: nat, stored: nat, blockOffset: nat := startBlk, 0, startOffset;
      while currBlk <= endBlk
        invariant startBlk <= currBlk <= endBlk + 1 && at(currBlk, stored) && stored <= |data|
        invariant blockOffset == if stored == 0 then startOffset else 0
        invariant Progress(table, servers0, off, data[..stored], startBlk, currBlk)
        invariant malleable && old(ds.firstBlock) == -1 && old(ds.lastBlock) == -1 ==>
          if currBlk == startBlk then ds.firstBlock == ds.lastBlock == -1 else ds.firstBlock == startBlk && ds.lastBlock == currBlk - 1
      {
        assert OnTurn(currBlk, stored);
        var count := bytes(currBlk, stored);
        StoreTurn(data, currBlk, stored, count, blockOffset, table, servers0, off, startBlk);
        stored := stored + count;
        blockOffset := 0;
        currBlk := currBlk + 1;
      }
      assert OnTurn(currBlk, stored);
      assert data[..|data|] == data;
    }

    /** The block writes of imss_write. */
    method StoreRange(data: seq<byte>, off: nat)
      requires Shape() && TableShape() && |data| > 0
      modifies this`servers, ds`firstBlock, ds`lastBlock
      ensures Progress(old(ds.intervals), old(servers), off, data, off / blockSize + 1, CeilDiv(off + |data|, blockSize) + 1)
      ensures malleable && old(ds.firstBlock) == -1 && old(ds.lastBlock) == -1 ==>
        1 <= ds.firstBlock == off / blockSize + 1 <= ds.lastBlock == CeilDiv(off + |data|, blockSize)
    {
      var startBlk: nat, startOffset: nat := off / blockSize + 1, off % blockSize;
      var endBlk, b0, total := CeilDiv(off + |data|, blockSize), blockSize, |data|;
      var bytes := (b: nat, done: nat) => if b0 > 0 && done <= total then PieceBytes(b0, off, total, b, done) else 0;
      ghost var at := (b: nat, done: nat) => Walk(b0, off, total, b, done);
      WalkStores(b0, off, total, at, bytes);
      StoreLoop(data, startBlk, endBlk, startOffset, bytes, at, off, ds.intervals, servers);
    }

    /** imss_write. The servers of the copies of each block of the range get the bytes; everything else stays as it is, in
        these records and in all others. A record that was not there before is otherwise what its memory held. */
    method Write(data: seq<byte>, off: nat) returns (ret: nat)
      requires Valid() && |data| > 0
      modifies this`servers, this`size, ds
      ensures Valid() && ret == |data| && size == Max(old(size), off + |data|)
      ensures Effect(blockSize, old(servers), servers, leftover, off, data, off / blockSize + 1, CeilDiv(off + |data|, blockSize) + 1,
                     WhereOf(place, listOf, old(ds.intervals), |servers|))
      ensures ds.intervals == if !malleable || old(ds.intervals) != [] then old(ds.intervals) else
                [Interval(|servers|, 0, 0), Interval(|servers|, off / blockSize + 1, CeilDiv(off + |data|, blockSize))]
    {
      ghost var table := ds.intervals;
      StoreRange(data, off);
      if malleable {
        if table == [] {
          FirstUpdate(|servers|, ds.firstBlock, ds.lastBlock);
        }
        ds.UpdateDataset(|servers|);
      }
      if off + |data| > size {
        size := off + |data|;
      }
      ret := |data|;
    }

    // ------------------------------------------------------------------- grow

    /** The table pins block b to the server count it was recorded with. */
    predicate Pinned(b: nat)
      reads ds
    {
      Value(ds.intervals, b) != -1
    }

    /** A data server joins: no byte moves, and a pinned block is asked for on the same servers as before. */
    method Grow()
      requires Valid()
      modifies this`servers
      ensures Valid() && servers == old(servers) + [map[]]
      ensures forall b: nat :: Pinned(b) ==> Primary(b) == old(Primary(b)) && Seen().List(b) == old(Seen().List(b))
    {
      servers := servers + [map[]];
      assert Shaped(blockSize, servers);
    }

    /** Any number of servers join. */
    method GrowBy(k: nat)
      requires Valid()
      modifies this`servers
      ensures Valid() && |servers| == old(|servers|) + k && servers[..old(|servers|)] == old(servers)
      ensures forall b: nat :: Pinned(b) ==> Primary(b) == old(Primary(b)) && Seen().List(b) == old(Seen().List(b))
    {
      ghost var n := |servers|;
      for i := 0 to k
        invariant Valid() && |servers| == n + i && servers[..n] == old(servers)
        invariant forall b: nat :: Pinned(b) ==> Primary(b) == old(Primary(b)) && Seen().List(b) == old(Seen().List(b))
      {
        Grow();
      }
    }

    // ------------------------------------------------------------------- read

    /** What a reader sees of the file. */
    function Seen(): View
      reads this, ds
    {
      View(blockSize, copies, servers, place, listOf, ds.intervals, beyond)
    }

    lemma SeenOk()
      requires Shape() && TableShape()
      ensures Seen().Ok()
    {
      forall b: nat | OnBlock(b)
        ensures copies <= Seen().Count(b) <= |servers| && Seen().Primary(b) < Seen().Count(b)
      {
        CountBounds(b);
      }
    }

    /** imss_sread of n bytes at `off`. */
    method Read(buf: array<byte>, n: nat, off: nat) returns (ret: int)
      requires Valid() && n <= buf.Length
      modifies buf, ds`intervals
      ensures ds.intervals == old(ds.intervals) && Valid()
      ensures Sreads(blockSize, size, off, n, old(Seen()).Ask(), old(buf[..]), ret, buf[..])
    {
      SeenOk();
      ret := Sread(Seen(), size, buf, n, off);
      if off < size && ret > 0 && malleable {
        ds.UpdateDataset(|servers|);
      }
      assert ds.intervals == old(ds.intervals);
    }
  }

  // ------------------------------------------------------------------ ranges

  /** The blocks of a range. */
  predicate InRange(size: nat, off: nat, n: nat, b: nat)
  {
    size > 0 && off / size + 1 <= b <= CeilDiv(off + n, size)
  }

  lemma PieceInRange(size: nat, off: nat, n: nat, j: nat)
    requires size > 0 && j < n
    ensures InRange(size, off, n, BlockAt(size, off + j))
  {
    BlockOf(off, size);
    BlockOf(off + j, size);
    CeilDivBounds(off + n, size);
    if (off + j) / size < off / size {
      MulMono((off + j) / size + 1, off / size, size);
    }
    if CeilDiv(off + n, size) <= (off + j) / size {
      MulMono(CeilDiv(off + n, size), (off + j) / size, size);
    }
  }

  /** Each block of a range has a piece. */
  lemma BlockStarts(size: nat, off: nat, n: nat, b: nat)
    requires size > 0 && n > 0 && off / size + 1 <= b <= CeilDiv(off + n, size)
    ensures b == off / size + 1 || off < StartOf(size, b)
    ensures var j := if b == off / size + 1 then 0 else StartOf(size, b) - off; StartsPiece(size, off, n, j) && BlockAt(size, off + j) == b
  {
    if b > off / size + 1 {
      CutAt(size, off, n, b - off / size - 1);
      PositionIn(size, b, 0);
      BlockOf(off, size);
      MulMono(off / size + 1, b - 1, size);
    }
  }

  lemma NextServer(list: seq<nat>, i: nat)
    requires Distinct(list) && i < |list|
    ensures Elements(list[..i + 1]) == Elements(list[..i]) + {list[i]} && list[i] !in Elements(list[..i])
    ensures i + 1 == |list| ==> list[..i + 1] == list
  {
    assert list[..i + 1] == list[..i] + [list[i]];
  }

  /** The writes of a range are well formed. */
  lemma WalkStores(size: nat, off: nat, n: nat, at: (nat, nat) -> bool, bytes: (nat, nat) -> nat)
    requires size > 0 && n > 0
    requires forall b: nat, done: nat {:trigger OnTurn(b, done)} :: OnTurn(b, done) ==>
      && at(b, done) == Walk(size, off, n, b, done)
      && (done <= n ==> bytes(b, done) == PieceBytes(size, off, n, b, done))
    ensures 1 <= off / size + 1 <= CeilDiv(off + n, size)
    ensures File.StoreOk(size, off, n, off / size + 1, CeilDiv(off + n, size), off % size, at, bytes)
  {
    FirstPiece(size, off, n);
    forall b: nat, done: nat | OnTurn(b, done) && at(b, done) && b <= CeilDiv(off + n, size)
      ensures 0 < bytes(b, done) && done + bytes(b, done) <= n && at(b + 1, done + bytes(b, done))
      ensures Lines(size, b, if done == 0 then off % size else 0, off + done, bytes(b, done))
    {
      PieceStep(size, off, n, b, done);
      assert OnTurn(b + 1, done + bytes(b, done));
    }
    assert OnTurn(off / size + 1, 0);
  }
}

/** What joins of servers do to a file: which blocks can still be read, and which are lost. */
module Joins {
  import opened Bytes
  import opened Placement
  import opened Store
  import opened Replies
  import opened Reader
  import opened StripedFile
  import opened Run

  /** The blocks of a file. */
  predicate InFile(l: Layout, m: Flat, b: nat)
  {
    l.size > 0 && 1 <= b <= CeilDiv(|m.bytes|, l.size)
  }

  ghost predicate Sane(l: Layout, m: Flat)
  {
    Looks(l, m) && (m.bytes == [] ==> m.pinned == 0) && (m.pinned > 0 ==> m.pinnedAt <= m.servers)
  }

  /** k more servers. */
  function Joined(m: Flat, k: nat): Flat { m.(servers := m.servers + k) }

  /** Exactly the servers `who` have a record of block b, and all of them are up to date. */
  ghost predicate HeldBy(l: Layout, m: Flat, b: nat, who: set<nat>)
    requires l.size > 0
  {
    forall s: nat {:trigger OnRecord(s, b)} :: OnRecord(s, b) ==> (m.held(s, b) <==> s in who) && (s in who ==> l.UpToDate(m, s, b))
  }

  /** No server has joined since the file was created: every block is up to date on all servers of its copies, and
      on no others is there anything of it. */
  ghost predicate Settled(l: Layout, m: Flat)
  {
    && Sane(l, m) && (m.pinned > 0 ==> m.pinnedAt == m.servers)
    && forall b: nat {:trigger OnBlock(b)} :: OnBlock(b) ==> HeldBy(l, m, b, if InFile(l, m, b) then l.Where(m, b) else {})
  }

  lemma CeilMono(a: nat, b: nat, size: nat)
    requires size > 0 && a <= b
    ensures CeilDiv(a, size) <= CeilDiv(b, size)
  {
    var x, y := CeilDiv(a, size), CeilDiv(b, size);
    CeilDivBounds(a, size);
    CeilDivBounds(b, size);
    if y < x {
      MulMono(y, x - 1, size);
    }
  }

  lemma CeilNext(a: nat, size: nat)
    requires size > 0
    ensures a / size <= CeilDiv(a, size)
  {
    BlockOf(a, size);
    CeilDivBounds(a, size);
    if CeilDiv(a, size) < a / size {
      MulMono(CeilDiv(a, size) + 1, a / size, size);
    }
  }

  /** Which blocks a file has after a write without a gap: those it had, and those of the range. */
  lemma FileAfter(l: Layout, m: Flat, off: nat, n: nat, b: nat)
    requires l.size > 0 && n > 0 && off <= |m.bytes|
    ensures 1 <= b <= CeilDiv(Max(|m.bytes|, off + n), l.size) <==> InFile(l, m, b) || InRange(l.size, off, n, b)
  {
    CeilMono(|m.bytes|, Max(|m.bytes|, off + n), l.size);
    CeilMono(off + n, Max(|m.bytes|, off + n), l.size);
    CeilMono(off, |m.bytes|, l.size);
    CeilNext(off, l.size);
  }

  /** The block of a position inside the file is one of its blocks. */
  lemma PositionInFile(l: Layout, m: Flat, p: nat)
    requires l.size > 0 && p < |m.bytes|
    ensures InFile(l, m, BlockAt(l.size, p))
  {
    PieceInRange(l.size, 0, |m.bytes|, p);
  }

  lemma PrimaryBound(l: Layout, m: Flat, b: nat)
    requires Sane(l, m) && b > 0
    ensures l.copies <= l.Count(m, b) <= m.servers && l.Primary(m, b) < l.Count(m, b)
  {
  }

  lemma PrimaryInWhere(l: Layout, m: Flat, b: nat)
    requires Sane(l, m) && b > 0
    ensures l.Primary(m, b) in l.Where(m, b)
  {
    PrimaryBound(l, m, b);
    ReplicaList(m.servers, l.copies, l.Primary(m, b), Replicas(m.servers, l.copies, l.Primary(m, b), l.copies));
  }

  // ------------------------------------------------------------- one write

  /** A write moves no lookup. */
  lemma SamePrimary(l: Layout, m: Flat, off: nat, data: seq<byte>, b: nat)
    requires Sane(l, m) && l.Legal(m, WriteAt(off, data)) && b > 0
    ensures Sane(l, l.Step(m, WriteAt(off, data)))
    ensures l.Primary(l.Step(m, WriteAt(off, data)), b) == l.Primary(m, b) && l.Where(l.Step(m, WriteAt(off, data)), b) == l.Where(m, b)
  {
  }

  /** A server stays up to date over a write that does not pass it by; one that had nothing of a new block is up to date
      once it gets it. */
  lemma UpToDateThen(l: Layout, m: Flat, off: nat, data: seq<byte>, s: nat, b: nat)
    requires l.size > 0 && l.Legal(m, WriteAt(off, data)) && l.HeldThen(m, off, |data|, s, b)
    requires InRange(l.size, off, |data|, b) ==> s in l.Where(m, b)
    requires InFile(l, m, b) ==> l.UpToDate(m, s, b)
    ensures l.UpToDate(l.Step(m, WriteAt(off, data)), s, b)
  {
    var m' := l.Step(m, WriteAt(off, data));
    forall p: nat | OnByte(p) && p < |m'.bytes| && BlockAt(l.size, p) == b ensures m'.at(s, p) == m'.bytes[p] {
      if off <= p < off + |data| {
        PieceInRange(l.size, off, |data|, p - off);
      } else {
        PositionInFile(l, m, p);
      }
    }
  }

  /** While a block is held by exactly the servers it is written to, it stays so. */
  lemma HeldThenBy(l: Layout, m: Flat, off: nat, data: seq<byte>, b: nat, who: set<nat>)
    requires Sane(l, m) && l.Legal(m, WriteAt(off, data)) && who == l.Where(m, b)
    requires HeldBy(l, m, b, if InFile(l, m, b) then who else {})
    ensures HeldBy(l, l.Step(m, WriteAt(off, data)), b, if InFile(l, l.Step(m, WriteAt(off, data)), b) then who else {})
  {
    var m' := l.Step(m, WriteAt(off, data));
    FileAfter(l, m, off, |data|, b);
    forall s: nat | OnRecord(s, b) ensures (m'.held(s, b) <==> InFile(l, m', b) && s in who) && (InFile(l, m', b) && s in who ==> l.UpToDate(m', s, b)) {
      if InFile(l, m', b) && s in who {
        UpToDateThen(l, m, off, data, s, b);
      }
    }
  }

  /** While no server joins, writes keep all copies up to date. */
  lemma SettledWrite(l: Layout, m: Flat, off: nat, data: seq<byte>)
    requires Settled(l, m) && l.Legal(m, WriteAt(off, data))
    ensures Settled(l, l.Step(m, WriteAt(off, data)))
  {
    var m' := l.Step(m, WriteAt(off, data));
    forall b: nat | OnBlock(b) ensures HeldBy(l, m', b, if InFile(l, m', b) then l.Where(m', b) else {}) {
      HeldThenBy(l, m, off, data, b, l.Where(m, b));
      if b > 0 {
        SamePrimary(l, m, off, data, b);
      }
    }
    SamePrimary(l, m, off, data, 1);
  }

  /** A new file is settled, and so is every file written and read without joins. */
  lemma NewSettled(l: Layout, n: nat, leftover: (nat, nat) -> seq<byte>)
    requires l.Ok() && l.copies <= n
    ensures Settled(l, NewFlat(l.size, n, leftover)) && (l.copies == 1 ==> OneCopy(l, NewFlat(l.size, n, leftover)))
  {
    NothingHeld(l, NewFlat(l.size, n, leftover));
  }

  lemma NothingHeld(l: Layout, m: Flat)
    requires Sane(l, m) && m.bytes == [] && forall s: nat, b: nat :: !m.held(s, b)
    ensures Settled(l, m) && (l.copies == 1 ==> OneCopy(l, m))
  {
    CeilDivBounds(0, l.size);
    forall b: nat | OnBlock(b) ensures !InFile(l, m, b) && HeldBy(l, m, b, {}) {
    }
  }

  lemma {:induction false} SettledRun(l: Layout, m: Flat, ops: seq<Op>)
    requires Settled(l, m) && l.AllLegal(m, ops) && Join !in ops
    ensures Settled(l, l.After(m, ops))
    decreases |ops|
  {
    if ops != [] {
      match ops[0] {
        case WriteAt(off, data) => SettledWrite(l, m, off, data);
        case ReadAt(_, _, _) =>
      }
      SettledRun(l, l.Step(m, ops[0]), ops[1..]);
    }
  }

  // ------------------------------------------------------- recorded blocks

  /** Every block recorded in the interval table is up to date at the server that is asked first. */
  ghost predicate PinnedFirst(l: Layout, m: Flat)
  {
    Sane(l, m) && forall b: nat {:trigger OnBlock(b)} :: OnBlock(b) && 1 <= b <= m.pinned ==> l.AtFirst(m, b)
  }

  lemma PinnedWrite(l: Layout, m: Flat, off: nat, data: seq<byte>)
    requires PinnedFirst(l, m) && l.Legal(m, WriteAt(off, data))
    ensures PinnedFirst(l, l.Step(m, WriteAt(off, data)))
  {
    var m' := l.Step(m, WriteAt(off, data));
    forall b: nat | OnBlock(b) && 1 <= b <= m'.pinned ensures l.AtFirst(m', b) {
      SamePrimary(l, m, off, data, b);
      PrimaryInWhere(l, m, b);
      if b > m.pinned {
        NewPinned(l, m, off, data, b);
      }
      UpToDateThen(l, m, off, data, l.Primary(m, b), b);
    }
    SamePrimary(l, m, off, data, 1);
  }

  /** Blocks are recorded with the first write, which gives them whole. */
  lemma NewPinned(l: Layout, m: Flat, off: nat, data: seq<byte>, b: nat)
    requires Sane(l, m) && l.Legal(m, WriteAt(off, data)) && m.pinned < b <= l.Step(m, WriteAt(off, data)).pinned
    ensures InRange(l.size, off, |data|, b) && !InFile(l, m, b)
  {
    CeilDivBounds(0, l.size);
  }

  /** Growing never loses a recorded block: over any run, with any joins, overwrites and copies, every recorded block stays
      up to date where it is asked for first. */
  lemma {:induction false} PinnedRun(l: Layout, m: Flat, ops: seq<Op>)
    requires PinnedFirst(l, m) && l.AllLegal(m, ops)
    ensures PinnedFirst(l, l.After(m, ops)) && (m.pinned > 0 ==> l.After(m, ops).pinned == m.pinned)
    decreases |ops|
  {
    if ops != [] {
      match ops[0] {
        case WriteAt(off, data) => PinnedWrite(l, m, off, data);
        case ReadAt(_, _, _) =>
        case Join => PinnedJoin(l, m);
      }
      PinnedRun(l, l.Step(m, ops[0]), ops[1..]);
    }
  }

  lemma PinnedJoin(l: Layout, m: Flat)
    requires PinnedFirst(l, m)
    ensures PinnedFirst(l, l.Step(m, Join))
  {
    var m' := l.Step(m, Join);
    forall b: nat | OnBlock(b) && 1 <= b <= m'.pinned ensures l.AtFirst(m', b) {
      SameBlock(l, m, 1, l.Primary(m, b), b);
    }
  }

  /** A join changes no record. */
  lemma SameBlock(l: Layout, m: Flat, k: nat, s: nat, b: nat)
    requires l.size > 0
    ensures l.UpToDate(Joined(m, k), s, b) <==> l.UpToDate(m, s, b)
  {
  }

  lemma PinnedRange(l: Layout, m: Flat, off: nat, n: nat)
    requires PinnedFirst(l, m) && CeilDiv(off + n, l.size) <= m.pinned
    ensures l.AllAtFirst(m, off, n)
  {
  }

  /** So every read of recorded blocks whose data is not mistaken is right. */
  lemma PinnedReadRight(l: Layout, m: Flat, off: nat, n: nat, mem: seq<byte>, ret: int, mem': seq<byte>)
    requires PinnedFirst(l, m) && 0 < n <= |mem| && off + n <= |m.bytes| && CeilDiv(off + n, l.size) <= m.pinned
    requires Unmasked(l.size, off, Expected(m, off, n), mem) && l.ReadAnswers(m, off, n, mem, ret, mem')
    ensures ret == n && mem' == Expected(m, off, n) + mem[n..]
  {
    PinnedRange(l, m, off, n);
    assert |Expected(m, off, n)| == n;
    AtFirstMeans(l, m, off, n, mem, ret, mem');
  }

  // ----------------------------------------------------------- after joins

  /** Some server asked for block b after k joins is one it was written to. */
  ghost predicate Meets(l: Layout, m: Flat, k: nat, b: nat)
  {
    exists i :: 0 <= i < |l.List(Joined(m, k), b)| && l.List(Joined(m, k), b)[i] in l.Where(m, b)
  }

  /** A block of a settled file is found after any number of joins if and only if the servers then asked for it meet
      those it was written to; otherwise it is lost. */
  lemma FoundIffMeets(l: Layout, m: Flat, k: nat, b: nat)
    requires Settled(l, m) && InFile(l, m, b)
    ensures l.Found(Joined(m, k), b) <==> Meets(l, m, k, b)
    ensures l.Lost(Joined(m, k), b) <==> !Meets(l, m, k, b)
    ensures l.NoneBehind(Joined(m, k), b)
  {
    var m', list := Joined(m, k), l.List(Joined(m, k), b);
    assert OnBlock(b);
    HolderHolds(m', list, b);
    forall i | 0 <= i < |list| ensures m'.held(list[i], b) <==> list[i] in l.Where(m, b) {
      assert OnRecord(list[i], b);
    }
    forall s: nat | m.held(s, b) ensures l.UpToDate(m', s, b) {
      assert OnRecord(s, b);
      SameBlock(l, m, k, s, b);
    }
  }

  ghost predicate AllMet(l: Layout, m: Flat, k: nat, off: nat, n: nat)
  {
    forall b: nat {:trigger OnBlock(b)} :: OnBlock(b) && InRange(l.size, off, n, b) ==> Meets(l, m, k, b)
  }

  lemma MetOrLost(l: Layout, m: Flat, k: nat, off: nat, n: nat)
    requires Settled(l, m) && off + n <= |m.bytes|
    ensures AllMet(l, m, k, off, n) ==> l.AllFound(Joined(m, k), off, n)
    ensures !AllMet(l, m, k, off, n) ==> l.SomeLost(Joined(m, k), off, n)
  {
    forall b: nat | OnBlock(b) && InRange(l.size, off, n, b)
      ensures l.Found(Joined(m, k), b) <==> Meets(l, m, k, b)
      ensures l.Lost(Joined(m, k), b) <==> !Meets(l, m, k, b)
    {
      CeilMono(off + n, |m.bytes|, l.size);
      FoundIffMeets(l, m, k, b);
    }
  }

  /** A read of a settled file after joins, of data that cannot be mistaken, returns the file's bytes if and only if
      every block of the range is still met, and fails otherwise. */
  lemma ReadAfterJoins(l: Layout, m: Flat, k: nat, off: nat, n: nat, mem: seq<byte>, ret: int, mem': seq<byte>)
    requires Settled(l, m) && 0 < n <= |mem| && off + n <= |m.bytes| && AllUnmistakable(l.size, off, Expected(m, off, n))
    requires l.ReadAnswers(Joined(m, k), off, n, mem, ret, mem')
    ensures if AllMet(l, m, k, off, n) then Right(Expected(m, off, n), ret, mem') else ret == -1
  {
    MetOrLost(l, m, k, off, n);
    assert Expected(Joined(m, k), off, n) == Expected(m, off, n);
    if AllMet(l, m, k, off, n) {
      FoundMeans(l, Joined(m, k), off, n, mem, ret, mem');
    } else {
      ReadMeans(l, Joined(m, k), off, n, mem, ret, mem', n);
    }
  }

  /** The numbers at, at + 1, ..., at + n - 1. */
  function Range(at: nat, n: nat): (r: set<nat>)
    ensures forall p :: p in r <==> at <= p < at + n
  {
    if n == 0 then {} else Range(at, n - 1) + {at + n - 1}
  }

  lemma RangeSize(at: nat, n: nat)
    ensures |Range(at, n)| == n
  {
  }

  lemma SubsetSize(a: set<nat>, b: set<nat>)
    requires a <= b
    ensures |a| <= |b|
  {
    if a != {} {
      var x :| x in a;
      SubsetSize(a - {x}, b - {x});
    }
  }

  lemma DisjointSize(a: set<nat>, b: set<nat>)
    requires a !! b
    ensures |a + b| == |a| + |b|
  {
  }

  lemma TwoMajorities(x: set<nat>, y: set<nat>, n: nat) returns (s: nat)
    requires |x| + |y| > n && forall s :: s in x + y ==> s < n
    ensures s in x && s in y
  {
    if x !! y {
      DisjointSize(x, y);
      RangeSize(0, n);
      SubsetSize(x + y, Range(0, n));
    }
    s :| s in x && s in y;
  }

  /** With more than half of all servers holding a copy, no join loses anything. */
  lemma MajorityMeets(l: Layout, m: Flat, k: nat, b: nat)
    requires Sane(l, m) && 2 * l.copies > m.servers + k && b > 0
    ensures Meets(l, m, k, b)
  {
    var m' := Joined(m, k);
    var list, before := l.List(m', b), Replicas(m.servers, l.copies, l.Primary(m, b), l.copies);
    PrimaryBound(l, m, b);
    PrimaryBound(l, m', b);
    ReplicaList(l.Count(m', b), l.copies, l.Primary(m', b), list);
    ReplicaList(m.servers, l.copies, l.Primary(m, b), before);
    var i := ListsMeet(list, before, m.servers + k);
  }

  lemma ListsMeet(x: seq<nat>, y: seq<nat>, n: nat) returns (i: nat)
    requires AllIn(x, n) && AllIn(y, n) && |Elements(x)| + |Elements(y)| > n
    ensures i < |x| && x[i] in Elements(y)
  {
    var s := TwoMajorities(Elements(x), Elements(y), n);
    i :| 0 <= i < |x| && x[i] == s;
  }

  // ---------------------------------------------------------- without copies

  /** Without copies: every block is up to date where it is looked up, and there is nothing of it elsewhere. */
  ghost predicate OneCopy(l: Layout, m: Flat)
  {
    && Sane(l, m) && l.copies == 1
    && forall b: nat {:trigger OnBlock(b)} :: OnBlock(b) ==> HeldBy(l, m, b, if InFile(l, m, b) then {l.Primary(m, b)} else {})
  }

  predicate Moves(l: Layout, m: Flat, b: nat) { b > m.pinned && l.place(m.servers + 1, b) != l.place(m.servers, b) }

  /** One more server changes where no written block is looked up: not the pinned ones, and the others only if the
      placement policy says the same for both counts. */
  ghost predicate Harmless(l: Layout, m: Flat)
  {
    forall b: nat {:trigger OnBlock(b)} :: OnBlock(b) && InFile(l, m, b) ==> !Moves(l, m, b)
  }

  lemma OnlyOne(l: Layout, m: Flat, b: nat)
    requires Sane(l, m) && l.copies == 1 && b > 0
    ensures l.List(m, b) == [l.Primary(m, b)] && l.Where(m, b) == {l.Primary(m, b)}
  {
    ReplicaZero(l.Count(m, b), 1, l.Primary(m, b));
    ReplicaZero(m.servers, 1, l.Primary(m, b));
    var r := Replicas(m.servers, 1, l.Primary(m, b), 1);
    assert r == [l.Primary(m, b)];
  }

  lemma OneCopyWrite(l: Layout, m: Flat, off: nat, data: seq<byte>)
    requires OneCopy(l, m) && l.Legal(m, WriteAt(off, data))
    ensures OneCopy(l, l.Step(m, WriteAt(off, data)))
  {
    var m' := l.Step(m, WriteAt(off, data));
    forall b: nat | OnBlock(b) ensures HeldBy(l, m', b, if InFile(l, m', b) then {l.Primary(m', b)} else {}) {
      if b > 0 {
        OnlyOne(l, m, b);
        SamePrimary(l, m, off, data, b);
      }
      HeldThenBy(l, m, off, data, b, l.Where(m, b));
    }
    SamePrimary(l, m, off, data, 1);
  }

  /** After a join, a block of a file without copies is found or lost, as its lookup stays or moves. */
  lemma OneCopyBlock(l: Layout, m: Flat, b: nat)
    requires OneCopy(l, m) && InFile(l, m, b)
    ensures l.Primary(l.Step(m, Join), b) == l.Primary(m, b) <==> !Moves(l, m, b)
    ensures l.Found(l.Step(m, Join), b) <==> !Moves(l, m, b)
    ensures l.Lost(l.Step(m, Join), b) <==> Moves(l, m, b)
  {
    var m', s := l.Step(m, Join), l.Primary(l.Step(m, Join), b);
    OnlyOne(l, m', b);
    assert OnBlock(b) && OnRecord(s, b);
    HolderHolds(m', [s], b);
    SameBlock(l, m, 1, s, b);
  }

  /** Without copies, a join loses nothing if and only if it is harmless; a block whose placement changes is lost. */
  lemma OneCopyJoin(l: Layout, m: Flat)
    requires OneCopy(l, m)
    ensures Harmless(l, m) ==> OneCopy(l, l.Step(m, Join))
    ensures Harmless(l, m) <==> forall b: nat {:trigger OnBlock(b)} :: OnBlock(b) && InFile(l, m, b) ==> l.Found(l.Step(m, Join), b)
    ensures forall b: nat {:trigger OnBlock(b)} :: OnBlock(b) && InFile(l, m, b) && Moves(l, m, b) ==> l.Lost(l.Step(m, Join), b)
  {
    var m' := l.Step(m, Join);
    forall b: nat | OnBlock(b) && InFile(l, m, b)
      ensures l.Primary(m', b) == l.Primary(m, b) <==> !Moves(l, m, b)
      ensures l.Found(m', b) <==> !Moves(l, m, b)
      ensures l.Lost(m', b) <==> Moves(l, m, b)
    {
      OneCopyBlock(l, m, b);
    }
    if Harmless(l, m) {
      forall b: nat | OnBlock(b) ensures HeldBy(l, m', b, if InFile(l, m', b) then {l.Primary(m', b)} else {}) {
        HeldAfterJoin(l, m, b, if InFile(l, m, b) then {l.Primary(m, b)} else {});
      }
    }
  }

  lemma HeldAfterJoin(l: Layout, m: Flat, b: nat, who: set<nat>)
    requires l.size > 0 && HeldBy(l, m, b, who)
    ensures HeldBy(l, l.Step(m, Join), b, who)
  {
    forall s: nat | OnRecord(s, b) && s in who ensures l.UpToDate(l.Step(m, Join), s, b) {
      SameBlock(l, m, 1, s, b);
    }
  }

  /** Over any run whose joins are harmless, a file without copies keeps every block up to date where it is looked up,
      and nowhere is there an outdated record. */
  ghost predicate HarmlessRun(l: Layout, m: Flat, ops: seq<Op>)
    requires l.size > 0 && l.AllLegal(m, ops)
    decreases |ops|
  {
    ops == [] || ((ops[0].Join? ==> Harmless(l, m)) && HarmlessRun(l, l.Step(m, ops[0]), ops[1..]))
  }

  lemma {:induction false} OneCopyRun(l: Layout, m: Flat, ops: seq<Op>)
    requires OneCopy(l, m) && l.AllLegal(m, ops) && HarmlessRun(l, m, ops)
    ensures OneCopy(l, l.After(m, ops))
    decreases |ops|
  {
    if ops != [] {
      match ops[0] {
        case WriteAt(off, data) => OneCopyWrite(l, m, off, data);
        case ReadAt(_, _, _) =>
        case Join => OneCopyJoin(l, m);
      }
      OneCopyRun(l, l.Step(m, ops[0]), ops[1..]);
    }
  }

  /** Under round robin a file without copies always loses a block to a join once more blocks than servers were
      written after the interval table was recorded: any read of it fails from then on. */
  lemma JoinLoses(l: Layout, m: Flat, name: string) returns (b: nat)
    requires OneCopy(l, m) && forall k: nat, b: nat :: k > 0 ==> l.place(k, b) == RoundRobin(k, b, name)
    requires m.pinned + m.servers < CeilDiv(|m.bytes|, l.size)
    ensures InFile(l, m, b) && l.Lost(l.Step(m, Join), b)
  {
    b := RoundRobinMoves(m.servers, name, m.pinned + 1);
    assert l.place(m.servers + 1, b) != l.place(m.servers, b);
    OneCopyJoin(l, m);
    assert OnBlock(b);
  }

  /** On the file itself: a server joins that moves block b, and the next read that touches b fails. */
  method JoinThenRead(f: File, b: nat, off: nat, n: nat, mem: seq<byte>, ghost m: Flat) returns (out: Out)
    requires Tracks(f, m) && OneCopy(LayoutOf(f), m) && Moves(LayoutOf(f), m, b)
    requires InRange(f.blockSize, off, n, b) && 0 < n <= |mem| && off + n <= |m.bytes|
    modifies f, f.ds
    ensures out.Got? && out.ret == -1
  {
    ghost var l, m' := LayoutOf(f), LayoutOf(f).Step(m, Join);
    CeilMono(off + n, |m.bytes|, l.size);
    OneCopyBlock(l, m, b);
    out := DoJoin(f, m);
    out := DoRead(f, off, n, mem, m');
    ReadMeans(l, m', off, n, mem, out.ret, out.mem, n);
  }

  // ------------------------------------------------------ silent wrong bytes

  /** What a read of n bytes at r, o bytes into a block, gets from a record that started as `first` and was written once:
      the new bytes, and for all others what was there at first. */
  ghost function Stale(first: seq<byte>, o: nat, off: nat, data: seq<byte>, r: nat, n: nat): (t: seq<byte>)
    ensures |t| == n
  {
    seq(n, i requires 0 <= i < n => if off <= r + i < off + |data| then data[r + i - off] else ByteOf(first, o + i))
  }

  /** In the reference: once a moved block has been written again, it is read from its new server. */
  lemma MovedSource(l: Layout, m: Flat, off: nat, data: seq<byte>, b: nat, s: nat)
    requires OneCopy(l, m) && InFile(l, m, b) && Moves(l, m, b) && s == l.place(m.servers + 1, b)
    requires l.Legal(m, WriteAt(off, data)) && InRange(l.size, off, |data|, b)
    ensures var m1 := l.Step(m, Join); var m2 := l.Step(m1, WriteAt(off, data));
            l.Source(m2, b) == Some(s) && l.Where(m1, b) == {s} && !m.held(s, b)
  {
    var m1 := l.Step(m, Join);
    var m2 := l.Step(m1, WriteAt(off, data));
    SamePrimary(l, m1, off, data, b);
    OnlyOne(l, m1, b);
    OnlyOne(l, m2, b);
    HolderHolds(m2, [s], b);
    assert OnBlock(b) && OnRecord(s, b);
  }

  /** One byte of it, where the file and the reference agree. */
  lemma StaleByte(f: File, l: Layout, m: Flat, off: nat, data: seq<byte>, b: nat, s: nat, o: nat, p: nat)
    requires Tracks(f, m) && l == LayoutOf(f) && OneCopy(l, m) && InFile(l, m, b) && Moves(l, m, b) && s == l.place(m.servers + 1, b)
    requires l.Legal(m, WriteAt(off, data)) && InRange(l.size, off, |data|, b) && Lines(l.size, b, o, p, 1)
    ensures l.SentAt(l.Step(l.Step(m, Join), WriteAt(off, data)), p)
         == if off <= p < off + |data| then data[p - off] else ByteOf(f.leftover(s, b), o)
  {
    MovedSource(l, m, off, data, b, s);
    WrittenAt(l.size, b, o, p, 1, p);
    assert OnPosition(s, p) && OnRecord(s, b);
  }

  lemma StaleSent(f: File, l: Layout, m: Flat, off: nat, data: seq<byte>, b: nat, s: nat, o: nat, r: nat, n: nat)
    requires Tracks(f, m) && l == LayoutOf(f) && OneCopy(l, m) && InFile(l, m, b) && Moves(l, m, b) && s == l.place(m.servers + 1, b)
    requires l.Legal(m, WriteAt(off, data)) && InRange(l.size, off, |data|, b) && n > 0 && Lines(l.size, b, o, r, n)
    ensures var m2 := l.Step(l.Step(m, Join), WriteAt(off, data));
            !l.SomeLost(m2, r, n) && l.Sent(m2, r, n) == Stale(f.leftover(s, b), o, off, data, r, n)
  {
    var m2 := l.Step(l.Step(m, Join), WriteAt(off, data));
    MovedSource(l, m, off, data, b, s);
    OneBlock(l.size, b, o, r, n);
    var sent, stale := l.Sent(m2, r, n), Stale(f.leftover(s, b), o, off, data, r, n);
    forall i | 0 <= i < n ensures sent[i] == stale[i] {
      StaleByte(f, l, m, off, data, b, s, o + i, r + i);
    }
  }

  /** A range inside one block. */
  lemma OneBlock(size: nat, b: nat, o: nat, r: nat, n: nat)
    requires n > 0 && Lines(size, b, o, r, n)
    ensures forall c: nat :: InRange(size, r, n, c) ==> c == b
  {
    PositionIn(size, b, o);
    FirstPiece(size, r, n);
  }

  /** On the file itself: a server joins that moves block b, the block is written in part, and a read inside it returns
      the full count. The bytes that were not written again are what the memory of the new server's record held. */
  method JoinWriteRead(f: File, b: nat, off: nat, data: seq<byte>, r: nat, n: nat, mem: seq<byte>, ghost o: nat, ghost m: Flat, ghost s: nat)
    returns (out: Out)
    requires Tracks(f, m) && OneCopy(LayoutOf(f), m) && InFile(LayoutOf(f), m, b) && Moves(LayoutOf(f), m, b) && s == f.place(m.servers + 1, b)
    requires data != [] && off <= |m.bytes| && InRange(f.blockSize, off, |data|, b)
    requires 0 < n <= |mem| && r + n <= Max(|m.bytes|, off + |data|) && Lines(f.blockSize, b, o, r, n)
    requires AllUnmistakable(f.blockSize, r, Stale(f.leftover(s, b), o, off, data, r, n))
    modifies f, f.ds
    ensures out.Got? && Right(Stale(f.leftover(s, b), o, off, data, r, n), out.ret, out.mem)
  {
    ghost var l := LayoutOf(f);
    ghost var m1 := l.Step(m, Join);
    ghost var m2 := l.Step(m1, WriteAt(off, data));
    StaleSent(f, l, m, off, data, b, s, o, r, n);
    out := DoJoin(f, m);
    out := DoWrite(f, off, data, m1);
    out := DoRead(f, r, n, mem, m2);
    ReadMeans(l, m2, r, n, mem, out.ret, out.mem, n);
  }
}

/** The synchronous, the asynchronous and the prefetching reader give the same answer. */
module Readers {
  import opened Bytes
  import opened Placement
  import opened Store
  import opened ReadPlan
  import opened Replies
  import opened Reader
  import opened StripedFile
  import opened Run
  import J = Joins
  import L = AsyncLines
  import A = AsyncRead
  import P = Prefetch

  /** Block ids fit 32 bits, and the only one that can be mistaken in a prefetch reply is not among them. */
  predicate IdsFit(size: nat, off: nat, n: nat)
  {
    size > 0 && CeilDiv(off + n, size) < TWO32 && !InRange(size, off, n, P.MASKED_ID)
  }

  /** When the asynchronous reader can be relied on: the first servers have all blocks, no temporary buffer looks like the
      no-key message at first, and the handles are handed back or no reply is late; or no receive ever waits, wherever the
      blocks are. */
  ghost predicate Reliable(v: View, off: nat, flat: seq<byte>, tracked: bool, temps: nat -> seq<byte>, net: L.Network)
    requires v.size > 0
  {
    || (AllFirst(v.size, off, v.Ask(), flat) && (forall i: nat :: !LooksMissing(temps(i)))
        && (tracked || L.Prompt(net, A.PlanFor(v, off, |flat|), temps)))
    || (!tracked && net.Instant() && v.size >= 22)
  }

  /** A block whose piece is sent is not missing. */
  lemma SentThere(v: View, off: nat, flat: seq<byte>, c: nat, b: nat)
    requires v.Ok() && AllSent(v.size, off, v.Ask(), flat) && StartsPiece(v.size, off, |flat|, c) && b == BlockAt(v.size, off + c)
    ensures !v.Missing(b)
  {
    assert OnPiece(c);
    var replies := AskedAt(v.size, off, |flat|, v.Ask(), c);
    FirstNone(replies);
    var i :| 0 <= i < |replies| && replies[i].Some?;
    assert v.Has(v.List(b)[i], b);
  }

  lemma SentHasSource(v: View, off: nat, flat: seq<byte>, r: P.Request, t: P.Turns, k: nat)
    requires v.Ok() && AllSent(v.size, off, v.Ask(), flat) && |flat| > 0 && t.Of(v, off, flat, r) && k < t.count
    requires t.start + k < TWO32 && t.start + k != P.MASKED_ID
    ensures t.Sourced(k)
  {
    assert OnPiece(k);
    P.PieceStarts(v.size, off, |flat|, k, t.cut(k), t.start);
    SentThere(v, off, flat, t.cut(k), t.start + k);
    P.HeldHasSource(v, off, flat, r, t, k);
  }

  lemma SetUp(v: View, off: nat, n: nat, flat: seq<byte>, r: P.Request) returns (t: P.Turns)
    requires v.Ok() && n > 0 && |flat| == n && IdsFit(v.size, off, n)
    ensures t.Of(v, off, flat, r) && t.start + t.count <= TWO32 && !(t.start <= P.MASKED_ID < t.start + t.count)
  {
    CutLast(v.size, off, n);
    var start, count := off / v.size + 1, Blocks(v.size, off, n);
    t := P.TurnsOf(v, off, flat, r, start, count);
    P.TurnsAre(v, off, flat, r, start, count);
  }

  /** The prefetching reader, when every block is on one of its servers and none is outdated. */
  method PrefetchAll(v: View, st: nat, buf: array<byte>, n: nat, off: nat, configured: nat, stride: nat,
                     after: nat -> seq<byte>, ghost flat: seq<byte>) returns (ret: nat)
    requires v.Ok() && 0 < n <= buf.Length && off + n <= st && |flat| == n
    requires AllSent(v.size, off, v.Ask(), flat) && P.RightAnywhere(v, off, flat)
    requires IdsFit(v.size, off, n)
    modifies buf
    ensures ret == n && buf[..n] == flat
  {
    ghost var r := P.RequestOf(v, n, off, configured, stride, after);
    ghost var t := SetUp(v, off, n, flat, r);
    ghost var stop;
    ret, stop := P.PrefetchRead(v, st, buf, n, off, configured, stride, after, flat, t);
    if stop < t.count {
      SentHasSource(v, off, flat, r, t, stop);
    } else {
      P.RightSent(v, off, flat, r, t, t.count);
    }
  }

  lemma ReliableShown(v: View, off: nat, flat: seq<byte>, tracked: bool, temps: nat -> seq<byte>, net: L.Network, p: L.Plan)
    requires v.size > 0 && |flat| > 0 && AllSent(v.size, off, v.Ask(), flat) && AllUnmistakable(v.size, off, flat) && p == A.PlanFor(v, off, |flat|)
    requires (forall i: nat :: |temps(i)| == v.size) && Reliable(v, off, flat, tracked, temps, net)
    ensures if tracked then L.Plain(p, temps) && A.Cuts(p, flat) else A.AllShown(p, temps, net, flat)
  {
    A.PlanFollows(v, off, |flat|);
    A.FollowsFits(v, off, |flat|, p);
    if !tracked && net.Instant() && v.size >= 22 {
      A.FollowsSent(v.size, off, p, v.Ask(), flat);
      A.InstantRight(p, temps, net, flat);
    } else {
      A.FollowsFirst(v.size, off, p, v.Ask(), flat, temps);
      if !tracked {
        A.PromptRight(p, temps, net, flat);
      }
    }
  }

  /** No receive is refused or has to wait, and there are turns for all requests. */
  ghost predicate Unhindered(v: View, n: nat, tracked: bool, net: L.Network)
  {
    !tracked && net.AlwaysAtOnce() && v.size >= 22 && n <= L.MAX_CONCURRENT_REQUESTS * net.turns
  }

  lemma UnhinderedEnds(v: View, off: nat, flat: seq<byte>, tracked: bool, temps: nat -> seq<byte>, net: L.Network, p: L.Plan)
    requires v.size > 0 && |flat| > 0 && AllSent(v.size, off, v.Ask(), flat) && AllUnmistakable(v.size, off, flat) && p == A.PlanFor(v, off, |flat|)
    requires forall i: nat :: |temps(i)| == v.size
    ensures Unhindered(v, |flat|, tracked, net) ==> net.Number(p, temps, net.turns, 0) == p.count
  {
    if Unhindered(v, |flat|, tracked, net) {
      A.PlanFollows(v, off, |flat|);
      A.FollowsFits(v, off, |flat|, p);
      A.FollowsSent(v.size, off, p, v.Ask(), flat);
      A.InstantEnds(p, temps, net, flat);
      A.CutCount(p, p.count);
    }
  }

  /** imss_read_async, where it can be relied on. */
  method AsyncAll(v: View, st: nat, buf: array<byte>, n: nat, off: nat, tracked: bool, temps: nat -> seq<byte>,
                  net: L.Network, ghost flat: seq<byte>) returns (ret: Option<nat>)
    requires v.Ok() && 0 < n <= buf.Length && off + n <= st && |flat| == n
    requires AllSent(v.size, off, v.Ask(), flat) && AllUnmistakable(v.size, off, flat)
    requires (forall i: nat :: |temps(i)| == v.size) && Reliable(v, off, flat, tracked, temps, net)
    modifies buf
    ensures ret == None || ret == Some(n)
    ensures ret.Some? ==> buf[..n] == flat
    ensures Unhindered(v, n, tracked, net) ==> ret == Some(n)
  {
    ghost var p := A.PlanFor(v, off, n);
    ReliableShown(v, off, flat, tracked, temps, net, p);
    UnhinderedEnds(v, off, flat, tracked, temps, net, p);
    ret := A.ReadAsync(v, st, buf, n, off, tracked, temps, net, p, flat);
  }

  /** The synchronous reader, when every block is on one of its servers and no data is mistaken. */
  method SyncAll(v: View, st: nat, buf: array<byte>, n: nat, off: nat, ghost flat: seq<byte>) returns (ret: int)
    requires v.Ok() && 0 < n <= buf.Length && off + n <= st && |flat| == n
    requires AllSent(v.size, off, v.Ask(), flat) && AllUnmistakable(v.size, off, flat)
    modifies buf
    ensures ret == n && buf[..n] == flat
  {
    ReadSent(v.size, off, v.Ask(), flat, buf[..], 0);
    ret := Sread(v, st, buf, n, off);
  }

  /** Three reads of the same range inside the file, each by its own reader, return the same count and bytes, when every
      block of the range is on one of its servers and no server has an outdated record of it. */
  method ReadThreeWays(v: View, st: nat, off: nat, n: nat, sync: array<byte>, async: array<byte>, pre: array<byte>,
                       tracked: bool, temps: nat -> seq<byte>, net: L.Network,
                       configured: nat, stride: nat, after: nat -> seq<byte>, ghost flat: seq<byte>)
    returns (r1: int, r2: Option<nat>, r3: nat)
    requires v.Ok() && n > 0 && off + n <= st && |flat| == n
    requires AllSent(v.size, off, v.Ask(), flat) && AllUnmistakable(v.size, off, flat) && P.RightAnywhere(v, off, flat)
    requires sync != async && async != pre && sync != pre && n <= sync.Length && n <= async.Length && n <= pre.Length
    requires IdsFit(v.size, off, n)
    requires (forall i: nat :: |temps(i)| == v.size) && Reliable(v, off, flat, tracked, temps, net)
    modifies sync, async, pre
    ensures r1 == n == r3 && (r2 == None || r2 == Some(n))
    ensures Unhindered(v, n, tracked, net) ==> r2 == Some(n)
    ensures sync[..n] == pre[..n] == flat && (r2.Some? ==> async[..n] == flat)
  {
    r1 := SyncAll(v, st, sync, n, off, flat);
    r2 := AsyncAll(v, st, async, n, off, tracked, temps, net, flat);
    r3 := PrefetchAll(v, st, pre, n, off, configured, stride, after, flat);
  }

  // --------------------------------------------- files without old records

  /** No server at all has an outdated record of the range. */
  ghost predicate NoneOld(l: Layout, m: Flat, off: nat, n: nat)
    requires l.size > 0
  {
    forall s: nat, b: nat {:trigger OnRecord(s, b)} :: OnRecord(s, b) && InRange(l.size, off, n, b) && m.held(s, b) ==> l.UpToDate(m, s, b)
  }

  /** A server that is up to date with a block sends the file's bytes. */
  lemma HolderSends(f: File, m: Flat, off: nat, flat: seq<byte>, j: nat, s: nat)
    requires Tracks(f, m) && Slice(m, off, flat) && StartsPiece(f.blockSize, off, |flat|, j)
    requires LayoutOf(f).UpToDate(m, s, BlockAt(f.blockSize, off + j))
    ensures f.Seen().PieceSent(s, off, flat, j)
  {
    var l := LayoutOf(f);
    var b, o, piece := PieceAsked(l, m, off, flat, j);
    SubSlice(m, off, flat, j, piece);
    PieceRight(l, m, s, b, o, off + j, piece);
    PieceLines(f.blockSize, off, |flat|, j);
    SameReply(f, m, s, b, (off + j) % f.blockSize, |piece|);
    PositionOf(f.blockSize, off + j);
  }

  /** Where no record is outdated, whoever has a block sends the file's bytes. */
  lemma FileRight(f: File, m: Flat, off: nat, flat: seq<byte>)
    requires Tracks(f, m) && Slice(m, off, flat) && NoneOld(LayoutOf(f), m, off, |flat|)
    ensures P.RightAnywhere(f.Seen(), off, flat)
  {
    var v := f.Seen();
    forall j: nat, s: nat | OnPiece(j) && StartsPiece(v.size, off, |flat|, j) && s < |v.servers| && BlockAt(v.size, off + j) in v.servers[s]
      ensures v.PieceSent(s, off, flat, j)
    {
      PieceInRange(f.blockSize, off, |flat|, j);
      assert OnRecord(s, BlockAt(v.size, off + j));
      HolderSends(f, m, off, flat, j, s);
    }
  }

  lemma FoundAll(l: Layout, m: Flat, off: nat, flat: seq<byte>)
    requires l.size > 0 && Slice(m, off, flat) && l.AllFound(m, off, |flat|)
    ensures AllSent(l.size, off, l.Ask(m), flat)
  {
    FoundSent(l, m, off, |flat|);
    RangeSent(l, m, off, |flat|);
  }

  /** Where all blocks are found, the servers asked send the file's bytes. */
  lemma FileSent(f: File, m: Flat, off: nat, flat: seq<byte>)
    requires Tracks(f, m) && Slice(m, off, flat) && LayoutOf(f).AllFound(m, off, |flat|)
    ensures AllSent(f.blockSize, off, f.Seen().Ask(), flat)
  {
    FoundAll(LayoutOf(f), m, off, flat);
    AsksSame(f, m);
    SameSent(f.blockSize, off, f.Seen().Ask(), LayoutOf(f).Ask(m), flat);
  }

  /** Where the first servers are up to date, they do. */
  lemma FileFirst(f: File, m: Flat, off: nat, flat: seq<byte>)
    requires Tracks(f, m) && Slice(m, off, flat) && LayoutOf(f).AllAtFirst(m, off, |flat|)
    ensures AllFirst(f.blockSize, off, f.Seen().Ask(), flat)
  {
    TracksLooks(f, m);
    RangeFirst(LayoutOf(f), m, off, flat);
    AsksSame(f, m);
    SameFirst(f.blockSize, off, f.Seen().Ask(), LayoutOf(f).Ask(m), flat);
  }

  /** The three readers on a file, wherever all blocks of the range are found and no record of them is outdated: all return
      the bytes of the array the file stands for. */
  method ReadFileThreeWays(f: File, off: nat, n: nat, sync: array<byte>, async: array<byte>, pre: array<byte>,
                           tracked: bool, temps: nat -> seq<byte>, net: L.Network,
                           configured: nat, stride: nat, after: nat -> seq<byte>, ghost m: Flat)
    returns (r1: int, r2: Option<nat>, r3: nat)
    requires Tracks(f, m) && n > 0 && off + n <= |m.bytes| && LayoutOf(f).AllFound(m, off, n) && NoneOld(LayoutOf(f), m, off, n)
    requires sync != async && async != pre && sync != pre && n <= sync.Length && n <= async.Length && n <= pre.Length
    requires AllUnmistakable(f.blockSize, off, m.bytes[off..off + n])
    requires IdsFit(f.blockSize, off, n)
    requires (forall i: nat :: |temps(i)| == f.blockSize) && Reliable(f.Seen(), off, m.bytes[off..off + n], tracked, temps, net)
    modifies sync, async, pre
    ensures r1 == n == r3 && (r2 == None || r2 == Some(n))
    ensures Unhindered(f.Seen(), n, tracked, net) ==> r2 == Some(n)
    ensures sync[..n] == pre[..n] == m.bytes[off..off + n] && (r2.Some? ==> async[..n] == m.bytes[off..off + n])
  {
    f.SeenOk();
    FileSent(f, m, off, m.bytes[off..off + n]);
    FileRight(f, m, off, m.bytes[off..off + n]);
    r1, r2, r3 := ReadThreeWays(f.Seen(), f.size, off, n, sync, async, pre, tracked, temps, net, configured, stride, after, m.bytes[off..off + n]);
  }

  // ------------------------------------------------------- which files those are

  /** While no server has joined, and without copies after harmless joins, every record is up to date, and the first
      server asked has one. */
  lemma UpToDate(l: Layout, m: Flat, off: nat, n: nat, b: nat, s: nat)
    requires J.Settled(l, m) || J.OneCopy(l, m)
    requires InRange(l.size, off, n, b) && off + n <= |m.bytes|
    ensures l.AtFirst(m, b) && (m.held(s, b) ==> l.UpToDate(m, s, b))
  {
    J.CeilMono(off + n, |m.bytes|, l.size);
    J.PrimaryInWhere(l, m, b);
    assert OnBlock(b) && OnRecord(s, b) && OnRecord(l.Primary(m, b), b);
  }

  lemma FirstFound(l: Layout, m: Flat, b: nat)
    requires J.Sane(l, m) && b > 0 && l.AtFirst(m, b)
    ensures l.Found(m, b)
  {
    J.PrimaryBound(l, m, b);
    ReplicaZero(l.Count(m, b), l.copies, l.Primary(m, b));
    HolderHolds(m, l.List(m, b), b);
  }

  lemma SettledFresh(l: Layout, m: Flat, off: nat, n: nat)
    requires (J.Settled(l, m) || J.OneCopy(l, m)) && off + n <= |m.bytes|
    ensures l.AllAtFirst(m, off, n) && l.AllFound(m, off, n) && NoneOld(l, m, off, n)
  {
    forall s: nat, b: nat | OnRecord(s, b) && InRange(l.size, off, n, b) && m.held(s, b) ensures l.UpToDate(m, s, b) {
      UpToDate(l, m, off, n, b, s);
    }
    forall b: nat | OnBlock(b) && InRange(l.size, off, n, b) ensures l.AtFirst(m, b) && l.Found(m, b) {
      UpToDate(l, m, off, n, b, 0);
      FirstFound(l, m, b);
    }
  }

  /** After joins they are exactly those where the servers asked now meet the servers that hold the blocks. */
  lemma JoinedFresh(l: Layout, m: Flat, k: nat, off: nat, n: nat)
    requires J.Settled(l, m) && off + n <= |m.bytes|
    ensures NoneOld(l, J.Joined(m, k), off, n)
    ensures l.AllFound(J.Joined(m, k), off, n) <==> J.AllMet(l, m, k, off, n)
  {
    J.MetOrLost(l, m, k, off, n);
    forall s: nat, b: nat | OnRecord(s, b) && InRange(l.size, off, n, b) && J.Joined(m, k).held(s, b) ensures l.UpToDate(J.Joined(m, k), s, b) {
      UpToDate(l, m, off, n, b, s);
      J.SameBlock(l, m, k, s, b);
    }
    if l.AllFound(J.Joined(m, k), off, n) {
      FoundSent(l, J.Joined(m, k), off, n);
    }
  }
}

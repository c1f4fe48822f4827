/** Reading a range of a striped file from the data servers, one block after the other. */
module Reader {
  import opened Bytes
  import opened Placement
  import opened Intervals
  import opened Store
  import opened ReadPlan
  import opened Replies

  // Marker, like those of Store: names the replica arithmetic only where it is needed.
  predicate OnReplicas(n: int, p: int) { true }

  // And this the turns of the reading loop.
  predicate OnTurn(b: int, done: int) { true }
  predicate OnLoop(b: int, done: int, mem: seq<byte>) { true }

  /** What a reader sees: the records on the servers, and how blocks are looked up. */
  datatype View = View(
    size: nat,                              // bytes in a block
    copies: nat,
    servers: seq<Records>,
    place: (nat, nat) -> nat,               // server of block b when n servers are in use
    listOf: (nat, nat) -> seq<nat>,         // servers of all copies, in order, from n and the first one's server
    table: seq<Interval>,
    beyond: (nat, nat, nat) -> byte)        // memory behind a record
  {
    function Count(b: nat): int { CountFor(table, |servers|, b) }

    function Primary(b: nat): nat { WhereIs(place, table, |servers|, b) }

    /** The servers get_ndata asks for block b, in order. */
    function List(b: nat): seq<nat> { if Count(b) >= 0 then listOf(Count(b), Primary(b)) else [] }

    ghost predicate Ok()
    {
      && size > 0 && 0 < copies <= |servers|
      && Shaped(size, servers)
      && (forall m: nat, p: nat {:trigger OnReplicas(m, p)} ::
           OnReplicas(m, p) && copies <= m ==> listOf(m, p) == Replicas(m, copies, p, copies))
      && (forall b: nat {:trigger OnBlock(b)} :: OnBlock(b) ==> copies <= Count(b) <= |servers| && Primary(b) < Count(b))
    }

    lemma ListOk(b: nat)
      requires Ok()
      ensures |List(b)| == copies && List(b)[0] == Primary(b) && Distinct(List(b)) && AllIn(List(b), |servers|)
    {
      assert OnBlock(b) && OnReplicas(Count(b), Primary(b));
      ReplicaList(Count(b), copies, Primary(b), List(b));
    }

    predicate Has(s: nat, b: nat) { s < |servers| && b in servers[s] }

    /** None of the servers asked for block b has it. */
    ghost predicate Missing(b: nat) { NoneHas(List(b), b) }

    ghost predicate NoneHas(list: seq<nat>, b: nat) { forall i :: 0 <= i < |list| ==> !Has(list[i], b) }

    /** What server s sends for `len` bytes of block b: the record, and past its end whatever lies there. */
    function Reply(s: nat, b: nat, off: nat, len: nat): (r: seq<byte>)
      requires s < |servers| && b in servers[s]
      ensures |r| == len
      ensures forall i :: 0 <= i < len && off + i < |servers[s][b]| ==> r[i] == servers[s][b][off + i]
    {
      seq(len, i requires 0 <= i < len => if off + i < |servers[s][b]| then servers[s][b][off + i] else beyond(s, b, off + i))
    }

    /** Server s has block b and sends exactly `piece` for the requested bytes. */
    ghost predicate Sends(s: nat, b: nat, off: nat, piece: seq<byte>)
    {
      s < |servers| && b in servers[s] && Reply(s, b, off, |piece|) == piece
    }

    /** The request for the piece that starts j bytes into a read at `off`: block, offset in it, bytes. */
    ghost predicate PieceSent(s: nat, off: nat, flat: seq<byte>, j: nat)
      requires size > 0 && j <= |flat|
    {
      Sends(s, BlockAt(size, off + j), (off + j) % size, flat[j..PieceEnd(size, off, |flat|, j)])
    }

    /** The reply of server s, and the replies of all servers asked, in order. */
    function ReplyOf(s: nat, b: nat, off: nat, len: nat): (r: Reply)
      ensures r.Some? ==> |r.value| == len
    {
      if Has(s, b) then Some(Reply(s, b, off, len)) else None
    }

    function Asked(b: nat, off: nat, len: nat): (r: seq<Reply>)
      ensures |r| == |List(b)| && forall i :: 0 <= i < |r| ==> r[i] == ReplyOf(List(b)[i], b, off, len)
    {
      seq(|List(b)|, i requires 0 <= i < |List(b)| => ReplyOf(List(b)[i], b, off, len))
    }

    function Ask(): Asks { (b: nat, off: nat, len: nat) => Asked(b, off, len) }
  }

  predicate AllIn(list: seq<nat>, n: nat) { forall i :: 0 <= i < |list| ==> list[i] < n }

  // ------------------------------------------------------------- one request

  /** Receives a reply at buf[at..], as far as memory is modelled. */
  method Deliver(buf: array<byte>, at: nat, text: seq<byte>)
    requires at <= buf.Length
    modifies buf
    ensures buf[..at] == old(buf[..at]) && buf[at..] == Landed(old(buf[at..]), text)
  {
    ghost var w := buf[at..];
    var n := Min(|text|, buf.Length - at);
    forall i | 0 <= i < n {
      buf[at + i] := text[i];
    }
    assert buf[at..] == Landed(w, text);
  }

  /** One request: the reply lands in the buffer, and the client looks whether it is the no-key message. */
  method AskOne(v: View, s: nat, b: nat, buf: array<byte>, at: nat, len: nat, off: nat) returns (hit: bool)
    requires s < |v.servers| && at + len <= buf.Length
    modifies buf
    ensures buf[..at] == old(buf[..at])
    ensures match v.ReplyOf(s, b, off, len)
            case None => !hit && buf[at..] == Landed(old(buf[at..]), NO_KEY + [0])
            case Some(r) => buf[at..] == Landed(old(buf[at..]), r) && hit == !LooksMissing(buf[at..])
  {
    if b in v.servers[s] {
      var reply := v.Reply(s, b, off, len);
      Deliver(buf, at, reply);
      hit := !LooksMissing(buf[at..]);
    } else {
      Deliver(buf, at, NO_KEY + [0]);
      hit := false;
    }
  }

  /** The first loop of get_ndata: the servers to ask, in order. */
  method ReplicaServers(v: View, b: nat) returns (list: seq<nat>)
    requires v.Ok()
    ensures list == v.List(b) && |list| == v.copies && list[0] == v.Primary(b) && AllIn(list, |v.servers|)
  {
    assert OnBlock(b);
    var n, primary := v.Count(b), v.Primary(b);
    assert OnReplicas(n, primary);
    v.ListOk(b);
    list := [];
    for i := 0 to v.copies
      invariant list == v.List(b)[..i]
    {
      list := list + [Replica(n, v.copies, primary, i)];
    }
  }

  /** The second loop of get_ndata: asks in turn until a reply does not look like the no-key message. */
  method AskInTurn(v: View, list: seq<nat>, b: nat, buf: array<byte>, at: nat, len: nat, off: nat, ghost replies: seq<Reply>) returns (ret: int)
    requires AllIn(list, |v.servers|) && at + len <= buf.Length
    requires |replies| == |list| && forall i :: 0 <= i < |list| ==> replies[i] == v.ReplyOf(list[i], b, off, len)
    modifies buf
    ensures buf[..at] == old(buf[..at])
    ensures match Take(replies, old(buf[at..]))
            case None => ret == -1
            case Some(w) => ret == len && buf[at..] == w
  {
    for i := 0 to |list|
      invariant buf[..at] == old(buf[..at]) && Take(replies[i..], buf[at..]) == Take(replies, old(buf[at..]))
    {
      assert replies[i..][1..] == replies[i + 1..];
      var hit := AskOne(v, list[i], b, buf, at, len, off);
      if hit {
        return len;
      }
    }
    return -1;
  }

  /** get_ndata: `len` bytes of block b from offset `off`, received at buf[at..]. */
  method GetNData(v: View, b: nat, buf: array<byte>, at: nat, len: nat, off: nat) returns (ret: int)
    requires v.Ok() && at + len <= buf.Length
    modifies buf
    ensures buf[..at] == old(buf[..at])
    ensures match Take(v.Asked(b, off, len), old(buf[at..]))
            case None => ret == -1
            case Some(w) => ret == len && buf[at..] == w
  {
    var list := ReplicaServers(v, b);
    ret := AskInTurn(v, list, b, buf, at, len, off, v.Asked(b, off, len));
  }

  // --------------------------------------------------------- a loop of reads

  /** A loop of block reads, whatever decides their sizes: `bytes` gives the size of the read at block b after
      `done` bytes, `at` says which (b, done) the loop can be at. */
  ghost predicate LoopOk(startBlk: nat, endBlk: nat, n: nat, once: bool, at: (nat, nat) -> bool, bytes: (nat, nat) -> nat)
  {
    && at(startBlk, 0)
    && forall b: nat, done: nat {:trigger OnTurn(b, done)} :: OnTurn(b, done) && at(b, done) && b <= endBlk ==>
         && 0 < bytes(b, done) && done + bytes(b, done) <= n
         && (!once ==> at(b + 1, done + bytes(b, done)))
  }

  /** `rest` tells what such a loop makes of memory once `done` bytes are read: at block b, what comes of the request there;
      behind the last block, with all `total` bytes read, nothing more. */
  ghost predicate UnfoldsAt(ask: Asks, endBlk: nat, startOffset: nat, once: bool, bytes: (nat, nat) -> nat, total: nat,
                            rest: (nat, seq<byte>) -> Option<seq<byte>>, b: nat, done: nat, mem: seq<byte>)
    requires done <= |mem|
  {
    if b > endBlk then done == total && rest(done, mem) == Some(mem) else
    var w := Take(ask(b, if done == 0 then startOffset else 0, bytes(b, done)), mem[done..]);
    && (once ==> done + bytes(b, done) == total)
    && rest(done, mem) == match w
                          case None => None
                          case Some(r) => if once then Some(mem[..done] + r) else rest(done + bytes(b, done), mem[..done] + r)
  }

  ghost predicate Unfolds(ask: Asks, endBlk: nat, startOffset: nat, once: bool, at: (nat, nat) -> bool, bytes: (nat, nat) -> nat, n: nat,
                          total: nat, rest: (nat, seq<byte>) -> Option<seq<byte>>)
  {
    forall b: nat, done: nat, mem: seq<byte> {:trigger OnLoop(b, done, mem)} ::
      OnLoop(b, done, mem) && at(b, done) && done <= n <= |mem| ==> UnfoldsAt(ask, endBlk, startOffset, once, bytes, total, rest, b, done, mem)
  }

  lemma TurnUnfolds(ask: Asks, endBlk: nat, startOffset: nat, once: bool, at: (nat, nat) -> bool, bytes: (nat, nat) -> nat, n: nat,
                    total: nat, rest: (nat, seq<byte>) -> Option<seq<byte>>, b: nat, done: nat, o: nat, len: nat,
                    mem: seq<byte>, mem': seq<byte>, ret: int)
    requires Unfolds(ask, endBlk, startOffset, once, at, bytes, n, total, rest) && at(b, done) && b <= endBlk && done <= n <= |mem| == |mem'|
    requires mem'[..done] == mem[..done] && o == (if done == 0 then startOffset else 0) && len == bytes(b, done)
    requires match Take(ask(b, o, len), mem[done..]) case None => ret == -1 case Some(w) => ret == len && mem'[done..] == w
    ensures ret == -1 ==> rest(done, mem).None?
    ensures ret != -1 && once ==> rest(done, mem) == Some(mem') && done + len == total
    ensures ret != -1 && !once ==> rest(done, mem) == rest(done + len, mem')
  {
    assert OnLoop(b, done, mem);
    assert mem' == mem[..done] + mem'[done..];
  }

  /** One turn of the loop. */
  method Turn(v: View, buf: array<byte>, b: nat, o: nat, done: nat, len: nat, ghost endBlk: nat, ghost startOffset: nat, ghost once: bool,
              ghost at: (nat, nat) -> bool, ghost bytes: (nat, nat) -> nat, ghost n: nat, ghost total: nat,
              ghost rest: (nat, seq<byte>) -> Option<seq<byte>>)
    returns (ret: int, next: nat)
    requires v.Ok() && 0 < len && done + len <= n <= buf.Length && at(b, done) && b <= endBlk
    requires o == (if done == 0 then startOffset else 0) && len == bytes(b, done)
    requires Unfolds(v.Ask(), endBlk, startOffset, once, at, bytes, n, total, rest)
    modifies buf
    ensures (ret == len || ret == -1) && next == done + len
    ensures ret == -1 ==> rest(done, old(buf[..])).None?
    ensures ret != -1 && once ==> rest(done, old(buf[..])) == Some(buf[..]) && next == total
    ensures ret != -1 && !once ==> rest(done, old(buf[..])) == rest(next, buf[..])
  {
    ghost var mem := buf[..];
    assert mem[done..] == buf[done..] && mem[..done] == buf[..done];
    ret := GetNData(v, b, buf, done, len, o);
    next := done + len;
    ghost var mem' := buf[..];
    assert mem'[done..] == buf[done..] && mem'[..done] == buf[..done];
    TurnUnfolds(v.Ask(), endBlk, startOffset, once, at, bytes, n, total, rest, b, done, o, len, mem, mem', ret);
  }

  /** The loop of imss_sread. */
  method ReadLoop(v: View, buf: array<byte>, n: nat, startBlk: nat, endBlk: nat, startOffset: nat, once: bool, bytes: (nat, nat) -> nat,
                  ghost at: (nat, nat) -> bool, ghost total: nat, ghost rest: (nat, seq<byte>) -> Option<seq<byte>>)
    returns (ret: int)
    requires v.Ok() && n <= buf.Length && startBlk <= endBlk && LoopOk(startBlk, endBlk, n, once, at, bytes)
    requires Unfolds(v.Ask(), endBlk, startOffset, once, at, bytes, n, total, rest)
    modifies buf
    ensures Returns(rest(0, old(buf[..])), total, ret, buf[..])
  {
    ghost var mem := buf[..];
    var currBlk: nat, byteCount: nat, blockOffset: nat := startBlk, 0, startOffset;
    while currBlk <= endBlk
      invariant at(currBlk, byteCount) && byteCount <= n && blockOffset == (if byteCount == 0 then startOffset else 0)
      invariant rest(byteCount, buf[..]) == rest(0, mem)
    {
      assert OnTurn(currBlk, byteCount);
      var toRead := bytes(currBlk, byteCount);
      var next;
      ret, next := Turn(v, buf, currBlk, blockOffset, byteCount, toRead, endBlk, startOffset, once, at, bytes, n, total, rest);
      if ret < 0 {
        return;
      }
      byteCount := next;
      if once {
        return byteCount;
      }
      blockOffset := 0;
      currBlk := currBlk + 1;
    }
    assert OnLoop(currBlk, byteCount, buf[..]);
    ret := byteCount;
  }

  // ---------------------------------------------------- what the loop amounts to

  /** A piece and its request. */
  lemma PieceIs(size: nat, off: nat, total: nat, ask: Asks, b: nat, o: nat, done: nat, len: nat)
    requires IsPiece(size, off, total, done, b, o, len)
    ensures size > 0 && done < total && PieceEnd(size, off, total, done) == done + len <= total
    ensures AskedAt(size, off, total, ask, done) == ask(b, o, len)
  {
  }

  /** Reading on is one request, and then the rest. */
  ghost predicate ThenRest(size: nat, off: nat, total: nat, ask: Asks, b: nat, o: nat, done: nat, len: nat, mem: seq<byte>)
    requires size > 0 && done + len <= total <= |mem|
  {
    ReadAll(size, off, total, ask, done, mem)
    == match Take(ask(b, o, len), mem[done..]) case None => None case Some(r) => ReadAll(size, off, total, ask, done + len, mem[..done] + r)
  }

  lemma PieceThen(size: nat, off: nat, total: nat, ask: Asks, b: nat, o: nat, done: nat, len: nat, mem: seq<byte>)
    requires IsPiece(size, off, total, done, b, o, len) && total <= |mem|
    ensures size > 0 && done + len <= total && ThenRest(size, off, total, ask, b, o, done, len, mem)
  {
    PieceIs(size, off, total, ask, b, o, done, len);
  }

  /** What is left of a read of `total` bytes. */
  ghost function AllFrom(size: nat, off: nat, total: nat, ask: Asks): (nat, seq<byte>) -> Option<seq<byte>>
    requires size > 0
  {
    (done: nat, mem: seq<byte>) => if done <= total <= |mem| then ReadAll(size, off, total, ask, done, mem) else None
  }

  /** What is left of a read of n bytes whose first k are read piece by piece, and the others at once from block `endBlk`. */
  ghost function OverFrom(size: nat, off: nat, n: nat, k: nat, ask: Asks, endBlk: nat): (nat, seq<byte>) -> Option<seq<byte>>
    requires size > 0 && k < n
  {
    (done: nat, mem: seq<byte>) =>
      if n > |mem| then None else if done > k then Some(mem) else AndLast(ReadAll(size, off, k, ask, done, mem), ask(endBlk, 0, n - k), k)
  }

  // -------------------------------------------------------------- imss_sread

  lemma StepPiece(size: nat, st: nat, off: nat, n: nat, b: nat, done: nat)
    requires size > 0 && Reads(size, st, off, n, b, done) && off < st && n > 0
    requires b <= EndBlock(size, st, off, n) && (done == 0 || off + n <= st)
    ensures 0 < ReadBytes(size, st, off, n, b, done)
    ensures IsPiece(size, off, Min(n, st - off), done, b, if done == 0 then off % size else 0, ReadBytes(size, st, off, n, b, done))
  {
    StepIsPiece(size, st, off, n, b, done);
    ReadStep(size, st, off, n, b, done);
    if done > 0 {
      PositionIn(size, b, 0);
    }
  }

  /** `at` and `bytes` describe the loop of a read of n bytes at `off`. */
  ghost predicate Describes(size: nat, st: nat, off: nat, n: nat, at: (nat, nat) -> bool, bytes: (nat, nat) -> nat)
    requires size > 0
  {
    forall b: nat, done: nat {:trigger OnTurn(b, done)} :: OnTurn(b, done) ==>
      && at(b, done) == (Reads(size, st, off, n, b, done) && (FirstRead(size, st, off, n).1 ==> done == 0))
      && bytes(b, done) == ReadLen(size, st, off, n, b, done)
  }

  lemma AllUnfolds(size: nat, off: nat, total: nat, ask: Asks, endBlk: nat, startOffset: nat, once: bool, bytes: (nat, nat) -> nat,
                   b: nat, done: nat, o: nat, len: nat, mem: seq<byte>)
    requires size > 0 && b <= endBlk && o == (if done == 0 then startOffset else 0) && len == bytes(b, done) && (once ==> done + len == total)
    requires done + len <= total <= |mem| && ThenRest(size, off, total, ask, b, o, done, len, mem)
    ensures UnfoldsAt(ask, endBlk, startOffset, once, bytes, total, AllFrom(size, off, total, ask), b, done, mem)
  {
  }

  lemma OverFromIs(size: nat, off: nat, n: nat, k: nat, ask: Asks, endBlk: nat, done: nat, mem: seq<byte>)
    requires size > 0 && done <= k < n <= |mem|
    ensures OverFrom(size, off, n, k, ask, endBlk)(done, mem) == AndLast(ReadAll(size, off, k, ask, done, mem), ask(endBlk, 0, n - k), k)
  {
  }

  lemma FrontUnfolds(size: nat, off: nat, n: nat, k: nat, ask: Asks, endBlk: nat, startOffset: nat, bytes: (nat, nat) -> nat,
                     b: nat, done: nat, o: nat, len: nat, mem: seq<byte>)
    requires size > 0 && b <= endBlk && o == (if done == 0 then startOffset else 0) && len == bytes(b, done)
    requires done + len <= k < n <= |mem| && ThenRest(size, off, k, ask, b, o, done, len, mem)
    ensures UnfoldsAt(ask, endBlk, startOffset, false, bytes, n, OverFrom(size, off, n, k, ask, endBlk), b, done, mem)
  {
    OverFromIs(size, off, n, k, ask, endBlk, done, mem);
    var w := Take(ask(b, o, len), mem[done..]);
    if w.Some? {
      OverFromIs(size, off, n, k, ask, endBlk, done + len, mem[..done] + w.value);
    }
  }

  /** Where a read is clipped right, its requests are the pieces of what it should give. */
  lemma ClipTurn(size: nat, st: nat, off: nat, n: nat, b: nat, done: nat, endBlk: nat, once: bool, total: nat)
    requires size > 0 && 0 < n && off < st && endBlk == EndBlock(size, st, off, n) && total == Min(n, st - off)
    requires once == FirstRead(size, st, off, n).1 && Clips(size, st, off, n) && Reads(size, st, off, n, b, done) && (once ==> done == 0)
    ensures b <= endBlk ==> IsPiece(size, off, total, done, b, if done == 0 then off % size else 0, ReadLen(size, st, off, n, b, done))
    ensures b <= endBlk && once ==> ReadLen(size, st, off, n, b, done) == total
    ensures b > endBlk ==> done == total
  {
    ClipSteps(size, st, off, n);
    EndBounds(size, st, off, n);
    if b <= endBlk {
      StepPiece(size, st, off, n, b, done);
      if once {
        ReadTotal(size, st, off, n, b, ReadLen(size, st, off, n, b, done), true);
      }
    } else {
      ReadTotal(size, st, off, n, b, done, false);
    }
  }

  lemma ClipUnfolds(size: nat, st: nat, off: nat, n: nat, ask: Asks, at: (nat, nat) -> bool, bytes: (nat, nat) -> nat, endBlk: nat, startOffset: nat,
                    once: bool, total: nat, b: nat, done: nat, mem: seq<byte>)
    requires size > 0 && 0 < n <= |mem| && off < st && endBlk == EndBlock(size, st, off, n) && startOffset == off % size && total == Min(n, st - off)
    requires once == FirstRead(size, st, off, n).1 && Describes(size, st, off, n, at, bytes) && Clips(size, st, off, n)
    requires at(b, done) && done <= n
    ensures UnfoldsAt(ask, endBlk, startOffset, once, bytes, total, AllFrom(size, off, total, ask), b, done, mem)
  {
    assert OnTurn(b, done);
    ClipTurn(size, st, off, n, b, done, endBlk, once, total);
    if b <= endBlk {
      PieceThen(size, off, total, ask, b, if done == 0 then startOffset else 0, done, bytes(b, done), mem);
      AllUnfolds(size, off, total, ask, endBlk, startOffset, once, bytes, b, done, if done == 0 then startOffset else 0, bytes(b, done), mem);
    }
  }

  /** Where it is not, they are those of a read past the end. */
  lemma OverUnfolds(size: nat, st: nat, off: nat, n: nat, ask: Asks, at: (nat, nat) -> bool, bytes: (nat, nat) -> nat, endBlk: nat, startOffset: nat,
                    k: nat, b: nat, done: nat, mem: seq<byte>)
    requires size > 0 && 0 < n <= |mem| && off < st && endBlk == EndBlock(size, st, off, n) && startOffset == off % size
    requires k == Before(size, st, off, n) < n
    requires Describes(size, st, off, n, at, bytes) && !Clips(size, st, off, n)
    requires at(b, done) && done <= n
    ensures UnfoldsAt(ask, endBlk, startOffset, false, bytes, n, OverFrom(size, off, n, k, ask, endBlk), b, done, mem)
  {
    assert OnTurn(b, done);
    if b <= endBlk {
      OverStep(size, st, off, n, b, done, endBlk, k);
      ReadStep(size, st, off, n, b, done);
      if b < endBlk {
        PieceThen(size, off, k, ask, b, if done == 0 then startOffset else 0, done, bytes(b, done), mem);
        FrontUnfolds(size, off, n, k, ask, endBlk, startOffset, bytes, b, done, if done == 0 then startOffset else 0, bytes(b, done), mem);
      }
    } else {
      BeforeIs(size, st, off, n, endBlk, k);
    }
  }

  lemma RangeStep(size: nat, st: nat, off: nat, n: nat, at: (nat, nat) -> bool, bytes: (nat, nat) -> nat, b: nat, done: nat)
    requires size > 0 && off < st && n > 0 && Describes(size, st, off, n, at, bytes)
    requires at(b, done) && b <= EndBlock(size, st, off, n)
    ensures 0 < bytes(b, done) && done + bytes(b, done) <= n
    ensures !FirstRead(size, st, off, n).1 ==> at(b + 1, done + bytes(b, done))
  {
    assert OnTurn(b, done);
    var len := bytes(b, done);
    ReadStepBy(size, st, off, n, b, done, len);
    assert OnTurn(b + 1, done + len);
  }

  /** The loop the range asks for is well formed. */
  lemma RangeLoop(size: nat, st: nat, off: nat, n: nat, at: (nat, nat) -> bool, bytes: (nat, nat) -> nat,
                  startBlk: nat, endBlk: nat, once: bool)
    requires size > 0 && off < st && n > 0 && Describes(size, st, off, n, at, bytes)
    requires startBlk == off / size + 1 && endBlk == EndBlock(size, st, off, n) && once == FirstRead(size, st, off, n).1
    ensures LoopOk(startBlk, endBlk, n, once, at, bytes)
  {
    assert at(startBlk, 0) by { assert OnTurn(startBlk, 0); }
    forall b: nat, done: nat | OnTurn(b, done) && at(b, done) && b <= endBlk
      ensures 0 < bytes(b, done) && done + bytes(b, done) <= n
      ensures !once ==> at(b + 1, done + bytes(b, done))
    {
      RangeStep(size, st, off, n, at, bytes, b, done);
    }
  }

  lemma RangeUnfolds(size: nat, st: nat, off: nat, n: nat, ask: Asks, at: (nat, nat) -> bool, bytes: (nat, nat) -> nat, endBlk: nat, startOffset: nat,
                     once: bool)
    returns (total: nat, rest: (nat, seq<byte>) -> Option<seq<byte>>)
    requires size > 0 && 0 < n && off < st && endBlk == EndBlock(size, st, off, n) && startOffset == off % size
    requires once == FirstRead(size, st, off, n).1 && Describes(size, st, off, n, at, bytes)
    ensures Unfolds(ask, endBlk, startOffset, once, at, bytes, n, total, rest)
    ensures forall mem: seq<byte>, ret: int, mem': seq<byte> :: n <= |mem| && Returns(rest(0, mem), total, ret, mem') ==>
      Sreads(size, st, off, n, ask, mem, ret, mem')
  {
    if Clips(size, st, off, n) {
      total := Min(n, st - off);
      rest := AllFrom(size, off, total, ask);
      forall b: nat, done: nat, mem: seq<byte> | OnLoop(b, done, mem) && at(b, done) && done <= n <= |mem|
        ensures UnfoldsAt(ask, endBlk, startOffset, once, bytes, total, rest, b, done, mem)
      {
        ClipUnfolds(size, st, off, n, ask, at, bytes, endBlk, startOffset, once, total, b, done, mem);
      }
    } else {
      var k := Before(size, st, off, n);
      OverStarts(size, st, off, n);
      BeforeIs(size, st, off, n, endBlk, k);
      total := n;
      rest := OverFrom(size, off, n, k, ask, endBlk);
      forall b: nat, done: nat, mem: seq<byte> | OnLoop(b, done, mem) && at(b, done) && done <= n <= |mem|
        ensures UnfoldsAt(ask, endBlk, startOffset, once, bytes, total, rest, b, done, mem)
      {
        OverUnfolds(size, st, off, n, ask, at, bytes, endBlk, startOffset, k, b, done, mem);
      }
    }
  }

  /** imss_sread of n bytes at `off` from a file of `st` bytes: result and memory, from the replies of the servers asked. */
  method Sread(v: View, st: nat, buf: array<byte>, n: nat, off: nat) returns (ret: int)
    requires v.Ok() && n <= buf.Length
    modifies buf
    ensures Sreads(v.size, st, off, n, v.Ask(), old(buf[..]), ret, buf[..])
  {
    if off >= st || n == 0 {
      return 0;
    }
    var startBlk: nat, startOffset: nat := off / v.size + 1, off % v.size;
    var endBlk := EndBlock(v.size, st, off, n);
    var once := FirstRead(v.size, st, off, n).1;
    var size := v.size;
    var bytes := (b: nat, done: nat) => if size > 0 then ReadLen(size, st, off, n, b, done) else 0;
    ghost var at := (b: nat, done: nat) => Reads(size, st, off, n, b, done) && (once ==> done == 0);
    EndBounds(size, st, off, n);
    RangeLoop(size, st, off, n, at, bytes, startBlk, endBlk, once);
    ghost var total, rest := RangeUnfolds(size, st, off, n, v.Ask(), at, bytes, endBlk, startOffset, once);
    ret := ReadLoop(v, buf, n, startBlk, endBlk, startOffset, once, bytes, at, total, rest);
  }
}

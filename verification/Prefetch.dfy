/** Prefetching: a server packs the blocks that follow the one asked for, the client unpacks and reads them. */
module Prefetch {
  import opened Bytes
  import opened Placement
  import opened Store
  import opened ReadPlan
  import opened Replies
  import opened Reader

  // ------------------------------------------------------------ the packets

  /** Four bytes, least significant first. */
  function Encode32(x: nat): (s: seq<byte>)
    ensures |s| == 4
  {
    [(x % 256) as byte, (x / 256 % 256) as byte, (x / 65536 % 256) as byte, (x / 16777216 % 256) as byte]
  }

  function Decode32(s: seq<byte>): (x: nat)
    requires |s| == 4
    ensures x < TWO32
  {
    s[0] as int + 256 * s[1] as int + 65536 * s[2] as int + 16777216 * s[3] as int
  }

  lemma DecodeEncode(x: nat)
    requires x < TWO32
    ensures Decode32(Encode32(x)) == x
  {
    var a := x / 256;
    var b := a / 256;
    assert x / 65536 == b && x / 16777216 == b / 256;
    assert x == 256 * a + x % 256 && a == 256 * b + a % 256 && b == 256 * (b / 256) + b % 256;
  }

  /** The id that follows: 32-bit arithmetic. */
  function Next(id: nat, stride: nat): nat { (id + stride) % TWO32 }

  function IdAt(id: nat, stride: nat, i: nat): nat
    decreases i
  {
    if i == 0 then id else IdAt(Next(id, stride), stride, i - 1)
  }

  /** The server holds a whole block under this id. */
  predicate Whole(rec: Records, size: nat, id: nat) { id in rec && |rec[id]| == size }

  /** The ids id, id + stride, ..., k of them. */
  ghost function Ids(id: nat, stride: nat, k: nat): set<nat>
    decreases k
  {
    if k == 0 then {} else {id} + Ids(Next(id, stride), stride, k - 1)
  }

  lemma {:induction false} IdsAt(id: nat, stride: nat, k: nat, x: nat)
    ensures x in Ids(id, stride, k) <==> exists i :: 0 <= i < k && IdAt(id, stride, i) == x
    decreases k
  {
    if k > 0 {
      IdsAt(Next(id, stride), stride, k - 1, x);
      if x == id {
        assert IdAt(id, stride, 0) == x;
        assert exists i :: 0 <= i < k && IdAt(id, stride, i) == x;
      } else if x in Ids(id, stride, k) {
        var i :| 0 <= i < k - 1 && IdAt(Next(id, stride), stride, i) == x;
        assert IdAt(id, stride, i + 1) == x;
        assert exists i :: 0 <= i < k && IdAt(id, stride, i) == x;
      } else {
        forall i | 0 <= i < k ensures IdAt(id, stride, i) != x {
          if i > 0 {
            assert IdAt(Next(id, stride), stride, i - 1) != x;
          }
        }
      }
    }
  }

  ghost predicate AllWhole(rec: Records, size: nat, id: nat, stride: nat, k: nat)
    decreases k
  {
    k == 0 || (Whole(rec, size, id) && AllWhole(rec, size, Next(id, stride), stride, k - 1))
  }

  /** k records, one after the other: id and data. */
  ghost function Packed(rec: Records, size: nat, id: nat, stride: nat, k: nat): seq<byte>
    requires AllWhole(rec, size, id, stride, k)
    decreases k
  {
    if k == 0 then [] else Encode32(id) + rec[id] + Packed(rec, size, Next(id, stride), stride, k - 1)
  }

  lemma {:induction false} AllWholeAt(rec: Records, size: nat, id: nat, stride: nat, k: nat)
    ensures AllWhole(rec, size, id, stride, k) <==> forall i :: 0 <= i < k ==> Whole(rec, size, IdAt(id, stride, i))
    decreases k
  {
    if k > 0 {
      AllWholeAt(rec, size, Next(id, stride), stride, k - 1);
      if AllWhole(rec, size, id, stride, k) {
        forall i | 0 <= i < k ensures Whole(rec, size, IdAt(id, stride, i)) {
          if i > 0 {
            assert Whole(rec, size, IdAt(Next(id, stride), stride, i - 1));
          }
        }
      } else if Whole(rec, size, id) {
        var i :| 0 <= i < k - 1 && !Whole(rec, size, IdAt(Next(id, stride), stride, i));
        assert IdAt(id, stride, i + 1) == IdAt(Next(id, stride), stride, i);
      } else {
        assert !Whole(rec, size, IdAt(id, stride, 0));
      }
    }
  }

  lemma {:induction false} PackedSnoc(rec: Records, size: nat, id: nat, stride: nat, k: nat)
    requires AllWhole(rec, size, id, stride, k) && Whole(rec, size, IdAt(id, stride, k))
    ensures AllWhole(rec, size, id, stride, k + 1)
    ensures Packed(rec, size, id, stride, k + 1)
         == Packed(rec, size, id, stride, k) + Encode32(IdAt(id, stride, k)) + rec[IdAt(id, stride, k)]
    decreases k
  {
    if k > 0 {
      PackedSnoc(rec, size, Next(id, stride), stride, k - 1);
    }
  }

  lemma {:induction false} IdSnoc(id: nat, stride: nat, k: nat)
    ensures IdAt(id, stride, k + 1) == Next(IdAt(id, stride, k), stride)
    decreases k
  {
    if k > 0 {
      IdSnoc(Next(id, stride), stride, k - 1);
    }
  }

  /** How many whole blocks id, id + stride, ... are there in a row and fit. */
  function RunLength(rec: Records, size: nat, id: nat, stride: nat, limit: nat): nat
    decreases limit
  {
    if 4 + size <= limit && Whole(rec, size, id) then 1 + RunLength(rec, size, Next(id, stride), stride, limit - 4 - size) else 0
  }

  lemma {:induction false} RunWhole(rec: Records, size: nat, id: nat, stride: nat, limit: nat)
    ensures AllWhole(rec, size, id, stride, RunLength(rec, size, id, stride, limit))
    ensures |Packed(rec, size, id, stride, RunLength(rec, size, id, stride, limit))| <= limit
    decreases limit
  {
    if 4 + size <= limit && Whole(rec, size, id) {
      RunWhole(rec, size, Next(id, stride), stride, limit - 4 - size);
    }
  }

  /** HierarchicalMapGetPrefetch: packs the longest run of whole blocks start, start + stride, ... that is present and
      fits. */
  method Pack(rec: Records, size: nat, start: nat, stride: nat, buffer: array<byte>) returns (len: nat, ghost k: nat)
    requires start < TWO32
    modifies buffer
    ensures AllWhole(rec, size, start, stride, k) && len <= buffer.Length
    ensures buffer[..len] == Packed(rec, size, start, stride, k)
    ensures len + 4 + size > buffer.Length || !Whole(rec, size, IdAt(start, stride, k))
    ensures len == 0 <==> k == 0
    ensures k == RunLength(rec, size, start, stride, buffer.Length)
  {
    len, k := 0, 0;
    var current := start;
    while len + 4 + size <= buffer.Length
      invariant len <= buffer.Length && current == IdAt(start, stride, k)
      invariant AllWhole(rec, size, start, stride, k) && buffer[..len] == Packed(rec, size, start, stride, k)
      invariant len == 0 <==> k == 0
      invariant k + RunLength(rec, size, current, stride, buffer.Length - len) == RunLength(rec, size, start, stride, buffer.Length)
      decreases buffer.Length - len
    {
      if current !in rec {
        break;
      }
      if |rec[current]| != size {
        break;
      }
      PackedSnoc(rec, size, start, stride, k);
      IdSnoc(start, stride, k);
      ghost var before := buffer[..len];
      var record := Encode32(current) + rec[current];
      forall i | 0 <= i < |record| {
        buffer[len + i] := record[i];
      }
      assert buffer[..len + |record|] == before + record;
      assert before + record == before + Encode32(current) + rec[current];
      len := len + 4 + size;
      current := Next(current, stride);
      k := k + 1;
    }
  }

  /** parse_prefetch_buffer as a function: records from the front, a later one replacing an earlier one. */
  ghost function Parsed(s: seq<byte>, size: nat, m: map<nat, seq<byte>>): map<nat, seq<byte>>
    decreases |s|
  {
    if |s| < 4 + size then m else Parsed(s[4 + size..], size, m[Decode32(s[..4]) := s[4..4 + size]])
  }

  method Parse(s: seq<byte>, size: nat, m0: map<nat, seq<byte>>) returns (m: map<nat, seq<byte>>)
    ensures m == Parsed(s, size, m0)
  {
    m := m0;
    var pos := 0;
    while pos + 4 + size <= |s|
      invariant pos <= |s| && Parsed(s[pos..], size, m) == Parsed(s, size, m0)
      decreases |s| - pos
    {
      assert s[pos..][..4] == s[pos..pos + 4];
      assert s[pos..][4..4 + size] == s[pos + 4..pos + 4 + size];
      assert s[pos..][4 + size..] == s[pos + 4 + size..];
      m := m[Decode32(s[pos..pos + 4]) := s[pos + 4..pos + 4 + size]];
      pos := pos + 4 + size;
    }
  }

  /** Parsing a packed buffer yields exactly the packed blocks on top of what was known, ids and data, even when the
      ids wrap around. */
  lemma {:induction false} ParsePacked(rec: Records, size: nat, id: nat, stride: nat, k: nat, m: map<nat, seq<byte>>)
    requires id < TWO32 && AllWhole(rec, size, id, stride, k)
    ensures Parsed(Packed(rec, size, id, stride, k), size, m).Keys == m.Keys + Ids(id, stride, k)
    ensures forall x :: x in Parsed(Packed(rec, size, id, stride, k), size, m) ==>
      Parsed(Packed(rec, size, id, stride, k), size, m)[x] == if x in rec && x in Ids(id, stride, k) then rec[x] else if x in m then m[x] else []
    decreases k
  {
    var s := Packed(rec, size, id, stride, k);
    if k > 0 {
      var rest := Packed(rec, size, Next(id, stride), stride, k - 1);
      DecodeEncode(id);
      assert s[..4] == Encode32(id) && s[4..4 + size] == rec[id] && s[4 + size..] == rest;
      ParsePacked(rec, size, Next(id, stride), stride, k - 1, m[id := rec[id]]);
    }
  }

  lemma {:induction false} IdsWhole(rec: Records, size: nat, id: nat, stride: nat, k: nat)
    requires AllWhole(rec, size, id, stride, k)
    ensures forall x :: x in Ids(id, stride, k) ==> x in rec
    decreases k
  {
    if k > 0 {
      IdsWhole(rec, size, Next(id, stride), stride, k - 1);
    }
  }

  lemma NextSmall(id: nat, n: nat)
    requires id + n < TWO32
    ensures Next(id, n) == id + n
  {
  }

  lemma {:induction false} IdClosed(id: nat, n: nat, i: nat)
    requires id + i * n < TWO32
    ensures IdAt(id, n, i) == id + i * n
    decreases i
  {
    if i > 0 {
      MulAdd(i - 1, 1, n);
      MulMono(0, i - 1, n);
      NextSmall(id, n);
      IdClosed(id + n, n, i - 1);
    }
  }

  /** The i-th id is i strides on, in 32 bits. */
  lemma {:induction false} IdWraps(id: nat, stride: nat, i: nat)
    requires id < TWO32
    ensures IdAt(id, stride, i) == (id + i * stride) % TWO32
    decreases i
  {
    if i == 0 {
      DivModUnique(id, TWO32, 0, id);
    } else {
      IdWraps(Next(id, stride), stride, i - 1);
      AddMod(id + stride, (i - 1) * stride, TWO32);
      MulAdd(i - 1, 1, stride);
    }
  }

  lemma SameRest(x: nat, i: nat, n: nat)
    requires n > 0
    ensures (x + i * n) % n == x % n
  {
    BlockOf(x, n);
    MulAdd(x / n, i, n);
    DivModUnique(x + i * n, n, x / n + i, x % n);
  }

  /** While ids do not wrap, every packed block has the server of the first one, when the stride is the number of
      servers. */
  lemma SameServer(n: nat, name: string, id: nat, i: nat)
    requires n > 0 && id + i * n < TWO32
    ensures RoundRobin(n, IdAt(id, n, i), name) == RoundRobin(n, id, name)
  {
    IdClosed(id, n, i);
    SameRest(Crc.NameCrc(name) % n + id, i, n);
  }

  // --------------------------------------------------------- asking for them

  /** The block id whose four bytes read "$ERR". */
  const MASKED_ID := 0x52524524

  /** A packed reply can be taken for the no-key message only when it starts with one particular block. */
  lemma PackedLooksMissing(id: nat, rest: seq<byte>)
    requires id < TWO32
    ensures LooksMissing(Encode32(id) + rest) <==> id == MASKED_ID && |rest| >= 18 && rest[..18] == NO_KEY[4..]
  {
    var w := Encode32(id) + rest;
    DecodeEncode(id);
    assert Encode32(MASKED_ID) == NO_KEY[..4];
    if |w| >= 22 {
      assert w[..22] == Encode32(id) + rest[..18];
      assert NO_KEY == NO_KEY[..4] + NO_KEY[4..];
      if w[..22] == NO_KEY {
        assert w[..22][..4] == Encode32(id) && w[..22][4..] == rest[..18];
      }
    }
  }

  /** The size a client asks for, and the one the server uses: never less than one record. */
  function AskedSize(total: nat, blocks: nat, n: nat): nat
    requires n > 0
  {
    total / n + blocks / n * 4
  }

  function BufferSize(asked: nat, configured: nat, size: nat): (r: nat)
    ensures r >= 4 + size
  {
    Max(if asked == 0 then configured else asked, 4 + size)
  }

  lemma DivAtLeast(total: nat, m: nat, n: nat)
    requires n > 0 && total >= m * n
    ensures total / n >= m
  {
    var q := total / n;
    BlockOf(total, n);
    if q < m {
      MulMono(q + 1, m, n);
      MulAdd(q, 1, n);
    }
  }

  lemma ShareOf(total: nat, blocks: nat, n: nat, size: nat, k: nat)
    requires n > 0 && total >= blocks * size && k == blocks / n
    ensures total / n >= k * size
  {
    BlockOf(blocks, n);
    assert k * n * size == k * size * n;
    MulMono(k * n, blocks, size);
    DivAtLeast(total, k * size, n);
  }

  /** The buffer has room for a server's share of the range, when that is made of whole blocks. */
  lemma ShareFits(total: nat, blocks: nat, n: nat, size: nat, configured: nat)
    requires n > 0 && total >= blocks * size
    ensures BufferSize(AskedSize(total, blocks, n), configured, size) >= blocks / n * (4 + size)
  {
    var k := blocks / n;
    ShareOf(total, blocks, n, size, k);
    assert k * (4 + size) == k * 4 + k * size;
  }

  /** What a server packs for a request. */
  ghost function TextOf(rec: Records, size: nat, b: nat, stride: nat, limit: nat): seq<byte>
  {
    RunWhole(rec, size, b, stride, limit);
    Packed(rec, size, b, stride, RunLength(rec, size, b, stride, limit))
  }

  /** A server's answer to a prefetch request: the longest run that fits, which starts with the block asked for, or the
      no-key message when that is not there. */
  method Answer(rec: Records, size: nat, b: nat, stride: nat, asked: nat, configured: nat) returns (reply: seq<byte>)
    requires b < TWO32
    ensures reply == if Whole(rec, size, b) then TextOf(rec, size, b, stride, BufferSize(asked, configured, size)) else NO_KEY + [0]
  {
    var buffer := new byte[BufferSize(asked, configured, size)];
    var len;
    ghost var k;
    len, k := Pack(rec, size, b, stride, buffer);
    if len == 0 {
      return NO_KEY + [0];
    }
    reply := buffer[..len];
  }

  /** k blocks from id on come from server s. */
  ghost function Mark(src: map<nat, nat>, id: nat, stride: nat, k: nat, s: nat): map<nat, nat>
    decreases k
  {
    if k == 0 then src else Mark(src, Next(id, stride), stride, k - 1, s)[id := s]
  }

  lemma {:induction false} MarkIs(src: map<nat, nat>, id: nat, stride: nat, k: nat, s: nat)
    ensures Mark(src, id, stride, k, s).Keys == src.Keys + Ids(id, stride, k)
    ensures forall x :: x in Mark(src, id, stride, k, s) ==>
      Mark(src, id, stride, k, s)[x] == if x in Ids(id, stride, k) then s else if x in src then src[x] else s
    decreases k
  {
    if k > 0 {
      MarkIs(src, Next(id, stride), stride, k - 1, s);
    }
  }

  /** What a request for block b is asked with: the size of the read and its number of blocks, the server's own
      setting, the number of servers it was started with, and what lies behind each reply in memory. */
  datatype Request = Request(n: nat, count: nat, configured: nat, stride: nat, after: nat -> seq<byte>)
  {
    function Limit(v: View, b: nat): (r: nat)
      ensures r >= 4 + v.size
    {
      BufferSize(if v.Count(b) > 0 then AskedSize(n, count, v.Count(b)) else 0, configured, v.size)
    }

    /** The i-th server asked has block b, and its reply is taken for data. */
    ghost predicate Hit(v: View, s: nat, b: nat, i: nat)
    {
      v.Has(s, b) && Whole(v.servers[s], v.size, b) && !LooksMissing(TextOf(v.servers[s], v.size, b, stride, Limit(v, b)) + after(i))
    }

    /** The first of the servers from the i-th on that is a hit. */
    ghost function FirstHit(v: View, b: nat, i: nat): Option<nat>
      decreases |v.List(b)| - i
    {
      if i >= |v.List(b)| then None
      else if Hit(v, v.List(b)[i], b, i) then Some(v.List(b)[i]) else FirstHit(v, b, i + 1)
    }

    /** Which server each unpacked block came from, once block b has been asked for. */
    ghost function Then(v: View, src: map<nat, nat>, b: nat): map<nat, nat>
    {
      if b in src then src else
      match FirstHit(v, b, 0)
      case None => src
      case Some(s) =>
        if s < |v.servers| then Mark(src, b, stride, RunLength(v.servers[s], v.size, b, stride, Limit(v, b)), s) else src
    }
  }

  /** Only one block can be mistaken: for the others, the first server asked that has it is the hit. */
  lemma {:induction false} HitIfHeld(r: Request, v: View, b: nat, i: nat)
    requires v.Ok() && b < TWO32 && b != MASKED_ID && i <= |v.List(b)|
    ensures r.FirstHit(v, b, i).None? <==> v.NoneHas(v.List(b)[i..], b)
    ensures i < |v.List(b)| && v.Has(v.List(b)[i], b) ==> r.FirstHit(v, b, i) == Some(v.List(b)[i])
    decreases |v.List(b)| - i
  {
    if i < |v.List(b)| {
      var s, list := v.List(b)[i], v.List(b);
      assert list[i..] == [s] + list[i + 1..];
      HitIfHeld(r, v, b, i + 1);
      if v.Has(s, b) {
        assert OnRecord(s, b);
        PlainText(v.servers[s], v.size, b, r.stride, r.Limit(v, b), r.after(i));
      }
    }
  }

  lemma PlainText(rec: Records, size: nat, b: nat, stride: nat, limit: nat, after: seq<byte>)
    requires b < TWO32 && b != MASKED_ID && Whole(rec, size, b) && limit >= 4 + size
    ensures !LooksMissing(TextOf(rec, size, b, stride, limit) + after)
  {
    RunWhole(rec, size, b, stride, limit);
    var k := RunLength(rec, size, b, stride, limit);
    var rest := rec[b] + Packed(rec, size, Next(b, stride), stride, k - 1) + after;
    PackedLooksMissing(b, rest);
    assert TextOf(rec, size, b, stride, limit) + after == Encode32(b) + rest;
  }

  /** One request: the answer, and whether the client takes it for data. */
  method AskOne(v: View, s: nat, b: nat, r: Request, i: nat) returns (text: seq<byte>, hit: bool)
    requires v.Ok() && s < |v.servers| && b < TWO32
    ensures hit <==> r.Hit(v, s, b, i)
    ensures hit ==> text == TextOf(v.servers[s], v.size, b, r.stride, r.Limit(v, b))
  {
    assert OnRecord(s, b);
    var asked := if v.Count(b) > 0 then AskedSize(r.n, r.count, v.Count(b)) else 0;
    text := Answer(v.servers[s], v.size, b, r.stride, asked, r.configured);
    if b !in v.servers[s] {
      assert (text + r.after(i))[..22] == NO_KEY;
    }
    hit := !LooksMissing(text + r.after(i));
  }

  /** get_ndata_prefetch: asks the servers of a block's copies in turn, until a reply is taken for data. */
  method GetPrefetch(v: View, b: nat, r: Request) returns (reply: Option<seq<byte>>)
    requires v.Ok() && b < TWO32
    ensures match r.FirstHit(v, b, 0)
            case None => reply == None
            case Some(s) => s < |v.servers| && Whole(v.servers[s], v.size, b)
                            && reply == Some(TextOf(v.servers[s], v.size, b, r.stride, r.Limit(v, b)))
  {
    var list := ReplicaServers(v, b);
    for i := 0 to |list|
      invariant r.FirstHit(v, b, i) == r.FirstHit(v, b, 0)
    {
      var text, hit := AskOne(v, list[i], b, r, i);
      if hit {
        return Some(text);
      }
    }
    return None;
  }

  // ------------------------------------------------------------- the reader

  /** Everything unpacked so far is the record of the server it came from. */
  ghost predicate FromSources(v: View, m: map<nat, seq<byte>>, src: map<nat, nat>)
  {
    && m.Keys == src.Keys
    && forall x: nat {:trigger OnBlock(x)} :: OnBlock(x) && x in src ==>
         src[x] < |v.servers| && x in v.servers[src[x]] && m[x] == v.servers[src[x]][x]
  }

  lemma UnpackKeeps(v: View, m: map<nat, seq<byte>>, src: map<nat, nat>, s: nat, b: nat, stride: nat, limit: nat)
    requires FromSources(v, m, src) && s < |v.servers| && b < TWO32 && Whole(v.servers[s], v.size, b) && limit >= 4 + v.size
    ensures var src' := Mark(src, b, stride, RunLength(v.servers[s], v.size, b, stride, limit), s);
            FromSources(v, Parsed(TextOf(v.servers[s], v.size, b, stride, limit), v.size, m), src') && b in src'
  {
    var rec := v.servers[s];
    var k := RunLength(rec, v.size, b, stride, limit);
    RunWhole(rec, v.size, b, stride, limit);
    ParsePacked(rec, v.size, b, stride, k, m);
    IdsWhole(rec, v.size, b, stride, k);
    MarkIs(src, b, stride, k, s);
    assert b in Ids(b, stride, k);
  }

  /** find_data_on_prefetch. */
  method FindData(m: map<nat, seq<byte>>, b: nat, buf: array<byte>, at: nat, len: nat, o: nat) returns (found: bool)
    requires b in m ==> o + len <= |m[b]|
    requires at + len <= buf.Length
    modifies buf
    ensures found <==> b in m
    ensures buf[..] == if found then Splice(old(buf[..]), at, m[b][o..o + len]) else old(buf[..])
  {
    if b in m {
      var data := m[b][o..o + len];
      ghost var before := buf[..];
      forall i | 0 <= i < len {
        buf[at + i] := data[i];
      }
      assert buf[..] == Splice(before, at, data);
      return true;
    }
    return false;
  }

  /** One turn of the reader's loop: the block comes from what is already unpacked, or a server is asked. */
  method FetchBlock(v: View, b: nat, buf: array<byte>, at: nat, len: nat, o: nat, m: map<nat, seq<byte>>, r: Request, ghost src: map<nat, nat>)
    returns (found: bool, m': map<nat, seq<byte>>)
    requires v.Ok() && b < TWO32 && FromSources(v, m, src) && at + len <= buf.Length && o + len <= v.size
    modifies buf
    ensures FromSources(v, m', r.Then(v, src, b)) && (found <==> b in r.Then(v, src, b))
    ensures found ==> OnBlock(b) && |v.servers[r.Then(v, src, b)[b]][b]| == v.size
                      && buf[..] == Splice(old(buf[..]), at, v.servers[r.Then(v, src, b)[b]][b][o..o + len])
    ensures !found ==> buf[..] == old(buf[..])
  {
    m' := m;
    if b in m {
      assert OnBlock(b) && OnRecord(src[b], b);
    }
    found := FindData(m, b, buf, at, len, o);
    if !found {
      var reply := GetPrefetch(v, b, r);
      if reply.Some? {
        ghost var s := r.FirstHit(v, b, 0).value;
        UnpackKeeps(v, m, src, s, b, r.stride, r.Limit(v, b));
        assert OnBlock(b) && OnRecord(r.Then(v, src, b)[b], b);
        m' := Parse(reply.value, v.size, m);
        found := FindData(m', b, buf, at, len, o);
      }
    }
  }

  /** What was copied from server s is right exactly when that server sends the piece. */
  lemma PieceIff(v: View, off: nat, flat: seq<byte>, j: nat, b: nat, o: nat, len: nat, s: nat)
    requires IsPiece(v.size, off, |flat|, j, b, o, len) && o + len <= v.size
    requires s < |v.servers| && b in v.servers[s] && |v.servers[s][b]| == v.size
    ensures v.servers[s][b][o..o + len] == flat[j..j + len] <==> v.PieceSent(s, off, flat, j)
  {
    assert v.servers[s][b][o..o + len] == v.Reply(s, b, o, len);
  }

  lemma PrefixIff(before: seq<byte>, buf: seq<byte>, piece: seq<byte>, flat: seq<byte>, c: nat, d: nat)
    requires c <= d <= |flat| <= |before| && |piece| == d - c && buf == Splice(before, c, piece)
    ensures buf[..d] == flat[..d] <==> before[..c] == flat[..c] && piece == flat[c..d]
  {
    assert buf[..d] == before[..c] + piece;
    assert flat[..d] == flat[..c] + flat[c..d];
    assert (before[..c] + piece)[..c] == before[..c] && (before[..c] + piece)[c..] == piece;
    assert flat[..d][..c] == flat[..c] && flat[..d][c..] == flat[c..d];
  }

  // Markers: facts about one request and about one server's piece, used where a proof names it.
  predicate OnAsk(src: map<nat, nat>, b: int) { true }

  predicate OnSent(s: int, j: int) { true }

  /** The turns of a read, by number: how many bytes lie before the j-th piece, where the blocks come from once another
      has been asked for, and which servers send the j-th piece as it is in the file. */
  datatype Turns = Turns(start: nat, count: nat, cut: nat -> nat, asked: (map<nat, nat>, nat) -> map<nat, nat>, sends: (nat, nat) -> bool)
  {
    /** Where the blocks come from that are unpacked when the k-th turn starts. */
    ghost function Sources(k: nat): map<nat, nat>
    {
      if k == 0 then map[] else asked(Sources(k - 1), start + k - 1)
    }

    /** Piece k has a source. */
    ghost predicate Sourced(k: nat) { start + k in Sources(k + 1) }

    /** Piece k has a source that sends it as it is in the file. */
    ghost predicate Sent(k: nat) { Sourced(k) && sends(Sources(k + 1)[start + k], k) }

    /** So do the first k. */
    ghost predicate AllSourced(k: nat) { k == 0 || (AllSourced(k - 1) && Sourced(k - 1)) }

    ghost predicate AllSent(k: nat) { k == 0 || (AllSent(k - 1) && Sent(k - 1)) }

    /** These are the turns of the request r for the |flat| bytes at `off`. */
    ghost predicate Of(v: View, off: nat, flat: seq<byte>, r: Request)
      requires v.size > 0
    {
      && count == Blocks(v.size, off, |flat|) && start == off / v.size + 1
      && (forall j: nat {:trigger OnPiece(j)} :: OnPiece(j) ==> cut(j) == Cut(v.size, off, |flat|, j))
      && (forall src: map<nat, nat>, b: nat {:trigger OnAsk(src, b)} :: OnAsk(src, b) ==> asked(src, b) == r.Then(v, src, b))
      && (forall s: nat, j: nat {:trigger OnSent(s, j)} :: OnSent(s, j) ==>
           sends(s, j) == SendsCut(v, off, flat, s, j))
    }

    lemma {:induction false} AllSentAt(k: nat, j: nat)
      requires j < k
      ensures AllSent(k) ==> Sent(j)
      ensures AllSourced(k) ==> Sourced(j)
    {
      if j < k - 1 {
        AllSentAt(k - 1, j);
      }
    }
  }

  ghost function CutsOf(size: nat, off: nat, n: nat): nat -> nat
    requires size > 0
  {
    (j: nat) => Cut(size, off, n, j)
  }

  ghost predicate SendsCut(v: View, off: nat, flat: seq<byte>, s: nat, j: nat)
    requires v.size > 0
  {
    v.PieceSent(s, off, flat, Cut(v.size, off, |flat|, j))
  }

  ghost function TurnsOf(v: View, off: nat, flat: seq<byte>, r: Request, start: nat, count: nat): Turns
    requires v.size > 0
  {
    Turns(start, count, CutsOf(v.size, off, |flat|), (src: map<nat, nat>, b: nat) => r.Then(v, src, b),
          (s: nat, j: nat) => SendsCut(v, off, flat, s, j))
  }

  lemma TurnsAre(v: View, off: nat, flat: seq<byte>, r: Request, start: nat, count: nat)
    requires v.size > 0 && start == off / v.size + 1 && count == Blocks(v.size, off, |flat|)
    ensures TurnsOf(v, off, flat, r, start, count).Of(v, off, flat, r)
  {
  }

  /** The request (b, o, len) of a turn is the j-th piece, which starts at `at`. */
  ghost predicate Shape(v: View, off: nat, n: nat, b: nat, j: nat, at: nat, o: nat, len: nat)
    requires v.size > 0
  {
    IsPiece(v.size, off, n, at, b, o, len) && at + len <= n && o + len <= v.size && at == Cut(v.size, off, n, j)
  }

  /** One turn of the reader's loop, seen from the bytes to read. */
  method FetchAt(v: View, off: nat, b: nat, buf: array<byte>, at: nat, len: nat, o: nat, m: map<nat, seq<byte>>, r: Request,
                 ghost j: nat, ghost flat: seq<byte>, ghost src: map<nat, nat>, ghost t: Turns)
    returns (found: bool, m': map<nat, seq<byte>>)
    requires v.Ok() && b < TWO32 && FromSources(v, m, src) && at + len <= |flat| <= buf.Length
    requires Shape(v, off, |flat|, b, j, at, o, len) && t.Of(v, off, flat, r)
    modifies buf
    ensures FromSources(v, m', t.asked(src, b)) && (found <==> b in t.asked(src, b))
    ensures found ==> (buf[..at + len] == flat[..at + len] <==> old(buf[..at]) == flat[..at] && t.sends(t.asked(src, b)[b], j))
  {
    ghost var before := buf[..];
    assert OnBlock(b) && OnAsk(src, b);
    found, m' := FetchBlock(v, b, buf, at, len, o, m, r, src);
    if found {
      ghost var s := t.asked(src, b)[b];
      assert OnSent(s, j);
      PieceIff(v, off, flat, at, b, o, len, s);
      PrefixIff(before, buf[..], v.servers[s][b][o..o + len], flat, at, at + len);
    }
  }

  /** The offset in its block and the length of the k-th piece. */
  method PieceShape(v: View, off: nat, r: Request, k: nat, at: nat, start: nat, ghost flat: seq<byte>, ghost t: Turns) returns (o: nat, len: nat)
    requires v.Ok() && |flat| == r.n > 0 && t.Of(v, off, flat, r) && k < t.count && at == t.cut(k) && start == t.start
    ensures 0 < len && at + len == t.cut(k + 1) <= r.n && Shape(v, off, |flat|, start + k, k, at, o, len)
  {
    assert OnPiece(k) && OnPiece(k + 1);
    o := if k == 0 then off % v.size else 0;
    len := Min(v.size - o, r.n - at);
    CutPiece(v.size, off, r.n, k, o);
  }

  /** After k turns, `at` bytes are read, every block had a source, and the bytes are the file's if every source sent
      them. */
  ghost predicate Reached(v: View, buf: array<byte>, flat: seq<byte>, m: map<nat, seq<byte>>, t: Turns, k: nat, at: nat)
    reads buf
  {
    && at == t.cut(k) <= |flat| <= buf.Length && FromSources(v, m, t.Sources(k)) && t.AllSourced(k)
    && (t.AllSent(k) <==> buf[..at] == flat[..at])
  }

  /** The k-th turn. */
  method FetchPiece(v: View, off: nat, k: nat, buf: array<byte>, at: nat, m: map<nat, seq<byte>>, r: Request, start: nat,
                    ghost flat: seq<byte>, ghost t: Turns)
    returns (found: bool, next: nat, m': map<nat, seq<byte>>)
    requires v.Ok() && 0 < |flat| == r.n && t.Of(v, off, flat, r) && k < t.count && start == t.start && start + k < TWO32
    requires Reached(v, buf, flat, m, t, k, at)
    modifies buf
    ensures if found then Reached(v, buf, flat, m', t, k + 1, next) else !t.Sourced(k) && next == t.cut(k + 1)
  {
    var o, len := PieceShape(v, off, r, k, at, start, flat, t);
    found, m' := FetchAt(v, off, start + k, buf, at, len, o, m, r, k, flat, t.Sources(k), t);
    next := at + len;
  }

  /** Past the checks of imss_sread_prefetch_v2. */
  method PrefetchRange(v: View, buf: array<byte>, off: nat, r: Request, start: nat, ghost flat: seq<byte>, ghost t: Turns)
    returns (ret: nat, ghost stop: nat)
    requires v.Ok() && 0 < r.n <= buf.Length && |flat| == r.n && start == t.start && start + r.count <= TWO32 && t.Of(v, off, flat, r)
    requires t.count == r.count && t.cut(0) == 0
    modifies buf
    ensures stop <= r.count && t.AllSourced(stop)
    ensures stop == r.count ==> ret == t.cut(r.count) <= r.n && (t.AllSent(r.count) <==> buf[..ret] == flat[..ret])
    ensures stop < r.count ==> !t.Sourced(stop) && ret == t.cut(stop + 1)
  {
    var m: map<nat, seq<byte>> := map[];
    ret, stop := 0, 0;
    for k := 0 to r.count
      invariant Reached(v, buf, flat, m, t, k, ret) && stop == k
    {
      var found;
      found, ret, m := FetchPiece(v, off, k, buf, ret, m, r, start, flat, t);
      if !found {
        return;
      }
      stop := k + 1;
    }
  }

  /** The request a read of n bytes at `off` makes. */
  function RequestOf(v: View, n: nat, off: nat, configured: nat, stride: nat, after: nat -> seq<byte>): Request
    requires v.size > 0
  {
    Request(n, CeilDiv(off + n, v.size) - Min(off / v.size, CeilDiv(off + n, v.size)), configured, stride, after)
  }

  /** imss_sread_prefetch_v2 of n bytes at `off` from a file of `st` bytes; `flat` stands for what is stored there, `t` for
      the turns of the read. A range that reaches past the end is refused. When every block has a source, n is returned,
      and the bytes are the file's if and only if every source sends its piece. Otherwise the read stops at the first
      block without a source, `stop` blocks into the range, and counts it all the same. */
  method PrefetchRead(v: View, st: nat, buf: array<byte>, n: nat, off: nat, configured: nat, stride: nat,
                      after: nat -> seq<byte>, ghost flat: seq<byte>, ghost t: Turns) returns (ret: nat, ghost stop: nat)
    requires v.Ok() && n <= buf.Length && |flat| == n && CeilDiv(off + n, v.size) < TWO32
    requires t.Of(v, off, flat, RequestOf(v, n, off, configured, stride, after))
    modifies buf
    ensures off >= st || n == 0 || off + n > st ==> ret == 0 && buf[..] == old(buf[..])
    ensures off + n <= st && n > 0 ==> stop <= t.count && t.AllSourced(stop)
    ensures off + n <= st && n > 0 && stop == t.count ==> ret == n && (buf[..n] == flat <==> t.AllSent(t.count))
    ensures off + n <= st && n > 0 && stop < t.count ==> !t.Sourced(stop) && ret == t.cut(stop + 1)
  {
    if off >= st || n == 0 || off + n > st {
      return 0, 0;
    }
    CutLast(v.size, off, n);
    var r, start := RequestOf(v, n, off, configured, stride, after), off / v.size + 1;
    assert flat[..n] == flat;
    assert OnPiece(0) && OnPiece(r.count);
    ret, stop := PrefetchRange(v, buf, off, r, start, flat, t);
  }

  // ------------------------------------------------------- what sources are

  lemma {:induction false} FirstHitHas(v: View, r: Request, b: nat, i: nat)
    requires r.FirstHit(v, b, i).Some?
    ensures v.Has(r.FirstHit(v, b, i).value, b) && Whole(v.servers[r.FirstHit(v, b, i).value], v.size, b)
    decreases |v.List(b)| - i
  {
    if i < |v.List(b)| && !r.Hit(v, v.List(b)[i], b, i) {
      FirstHitHas(v, r, b, i + 1);
    }
  }

  ghost predicate AllHave(v: View, src: map<nat, nat>)
  {
    forall x :: x in src ==> v.Has(src[x], x)
  }

  lemma ThenHas(v: View, r: Request, src: map<nat, nat>, b: nat)
    requires v.Ok() && b < TWO32 && AllHave(v, src)
    ensures AllHave(v, r.Then(v, src, b))
  {
    if b !in src && r.FirstHit(v, b, 0).Some? {
      var s := r.FirstHit(v, b, 0).value;
      FirstHitHas(v, r, b, 0);
      var len := RunLength(v.servers[s], v.size, b, r.stride, r.Limit(v, b));
      RunWhole(v.servers[s], v.size, b, r.stride, r.Limit(v, b));
      IdsWhole(v.servers[s], v.size, b, r.stride, len);
      MarkIs(src, b, r.stride, len, s);
    }
  }

  /** A source has the block. */
  lemma {:induction false} SourceHas(v: View, off: nat, flat: seq<byte>, r: Request, t: Turns, k: nat)
    requires v.Ok() && t.Of(v, off, flat, r) && t.start + k <= TWO32
    ensures AllHave(v, t.Sources(k))
  {
    if k > 0 {
      SourceHas(v, off, flat, r, t, k - 1);
      assert OnAsk(t.Sources(k - 1), t.start + k - 1);
      ThenHas(v, r, t.Sources(k - 1), t.start + k - 1);
    }
  }

  lemma ThenFinds(v: View, r: Request, src: map<nat, nat>, b: nat)
    requires v.Ok() && b < TWO32 && b != MASKED_ID && !v.Missing(b)
    ensures b in r.Then(v, src, b)
  {
    HitIfHeld(r, v, b, 0);
    assert v.List(b)[0..] == v.List(b);
    if b !in src {
      FirstHitHas(v, r, b, 0);
      var s := r.FirstHit(v, b, 0).value;
      MarkIs(src, b, r.stride, RunLength(v.servers[s], v.size, b, r.stride, r.Limit(v, b)), s);
      assert b in Ids(b, r.stride, RunLength(v.servers[s], v.size, b, r.stride, r.Limit(v, b)));
    }
  }

  /** A block that some server asked for it has, and that is not the one that can be mistaken, has a source. */
  lemma HeldHasSource(v: View, off: nat, flat: seq<byte>, r: Request, t: Turns, k: nat)
    requires v.Ok() && t.Of(v, off, flat, r)
    requires t.start + k < TWO32 && t.start + k != MASKED_ID && !v.Missing(t.start + k)
    ensures t.Sourced(k)
  {
    assert OnAsk(t.Sources(k), t.start + k);
    ThenFinds(v, r, t.Sources(k), t.start + k);
  }

  /** Every server that has a block of the range has the right bytes for it. */
  ghost predicate RightAnywhere(v: View, off: nat, flat: seq<byte>)
    requires v.size > 0
  {
    forall j: nat {:trigger OnPiece(j)} :: OnPiece(j) && StartsPiece(v.size, off, |flat|, j) ==>
      forall s :: 0 <= s < |v.servers| && BlockAt(v.size, off + j) in v.servers[s] ==> v.PieceSent(s, off, flat, j)
  }

  /** When no server has an outdated record, the sources send the file's bytes. */
  lemma {:induction false} RightSent(v: View, off: nat, flat: seq<byte>, r: Request, t: Turns, k: nat)
    requires v.Ok() && RightAnywhere(v, off, flat) && |flat| > 0 && t.Of(v, off, flat, r) && t.AllSourced(k)
    requires k <= t.count && t.start + t.count <= TWO32
    ensures t.AllSent(k)
  {
    if k > 0 {
      RightSent(v, off, flat, r, t, k - 1);
      RightTurn(v, off, flat, r, t, k - 1, t.start + k - 1);
    }
  }

  lemma RightTurn(v: View, off: nat, flat: seq<byte>, r: Request, t: Turns, j: nat, b: nat)
    requires v.Ok() && RightAnywhere(v, off, flat) && |flat| > 0 && t.Of(v, off, flat, r) && t.Sourced(j)
    requires j < t.count && b == t.start + j < TWO32
    ensures t.Sent(j)
  {
    var s := t.Sources(j + 1)[b];
    SourceHas(v, off, flat, r, t, j + 1);
    assert OnPiece(j) && OnSent(s, j);
    PieceStarts(v.size, off, |flat|, j, t.cut(j), t.start);
    RightFrom(v, off, flat, t.cut(j), b, s);
  }

  lemma PieceStarts(size: nat, off: nat, n: nat, j: nat, c: nat, start: nat)
    requires size > 0 && n > 0 && j < Blocks(size, off, n) && c == Cut(size, off, n, j) && start == off / size + 1
    ensures StartsPiece(size, off, n, c) && BlockAt(size, off + c) == start + j
  {
    CutPiece(size, off, n, j, if j == 0 then off % size else 0);
  }

  lemma RightFrom(v: View, off: nat, flat: seq<byte>, c: nat, b: nat, s: nat)
    requires v.Ok() && RightAnywhere(v, off, flat) && StartsPiece(v.size, off, |flat|, c) && BlockAt(v.size, off + c) == b && v.Has(s, b)
    ensures v.PieceSent(s, off, flat, c)
  {
    assert OnPiece(c);
  }

  /** No record's id comes within a stride of wrapping around. */
  ghost predicate NoWrap(v: View, stride: nat)
  {
    forall s, x :: 0 <= s < |v.servers| && x in v.servers[s] ==> x + stride < TWO32
  }

  lemma {:induction false} IdsApart(v: View, s: nat, id: nat, stride: nat, k: nat)
    requires NoWrap(v, stride) && s < |v.servers| && AllWhole(v.servers[s], v.size, id, stride, k)
    ensures forall x :: x in Ids(id, stride, k) ==> x == id || x >= id + stride
    decreases k
  {
    if k > 0 {
      NextSmall(id, stride);
      IdsApart(v, s, id + stride, stride, k - 1);
    }
  }

  /** The first request of a read, from the first server, whose packed run goes on to the next block on the stride. */
  lemma FirstPacks(v: View, r: Request, start: nat)
    requires v.Ok() && start + r.stride < TWO32 && start != MASKED_ID && r.stride > 0 && r.Limit(v, start) >= 2 * (4 + v.size)
    requires v.Has(v.Primary(start), start) && v.Has(v.Primary(start), start + r.stride)
    ensures var src := r.Then(v, map[], start);
            && start in src && start + r.stride in src
            && src[start] == v.Primary(start) && src[start + r.stride] == v.Primary(start)
  {
    var s, limit := v.Primary(start), r.Limit(v, start);
    v.ListOk(start);
    HitIfHeld(r, v, start, 0);
    assert v.List(start)[0..] == v.List(start);
    assert OnRecord(s, start) && OnRecord(s, start + r.stride);
    NextSmall(start, r.stride);
    var rec := v.servers[s];
    assert RunLength(rec, v.size, start + r.stride, r.stride, limit - 4 - v.size) >= 1;
    var k := RunLength(rec, v.size, start, r.stride, limit);
    assert k == 1 + RunLength(rec, v.size, start + r.stride, r.stride, limit - 4 - v.size);
    assert start + r.stride in Ids(start + r.stride, r.stride, k - 1);
    MarkIs(map[], start, r.stride, k, s);
  }

  /** Requests for the blocks in between leave it alone. */
  lemma ThenKeeps(v: View, r: Request, src: map<nat, nat>, b: nat, x: nat)
    requires v.Ok() && NoWrap(v, r.stride) && b < x < b + r.stride && x in src
    ensures x in r.Then(v, src, b) && r.Then(v, src, b)[x] == src[x]
  {
    if b !in src && r.FirstHit(v, b, 0).Some? {
      var s := r.FirstHit(v, b, 0).value;
      FirstHitHas(v, r, b, 0);
      var len := RunLength(v.servers[s], v.size, b, r.stride, r.Limit(v, b));
      RunWhole(v.servers[s], v.size, b, r.stride, r.Limit(v, b));
      IdsApart(v, s, b, r.stride, len);
      MarkIs(src, b, r.stride, len, s);
    }
  }

  /** The block one stride after the first of a read is taken from the first one's server if that has any record of it and
      two records fit, outdated or not, whatever its own first server holds. */
  lemma {:induction false} NeighbourFromSameServer(v: View, off: nat, flat: seq<byte>, r: Request, t: Turns, k: nat)
    requires v.Ok() && t.Of(v, off, flat, r) && NoWrap(v, r.stride) && t.start != MASKED_ID && r.stride > 0
    requires v.Has(v.Primary(t.start), t.start) && v.Has(v.Primary(t.start), t.start + r.stride) && r.Limit(v, t.start) >= 2 * (4 + v.size)
    requires 1 <= k <= r.stride + 1
    ensures t.start + r.stride in t.Sources(k) && t.Sources(k)[t.start + r.stride] == v.Primary(t.start)
  {
    var x := t.start + r.stride;
    if k == 1 {
      assert OnAsk(map[], t.start);
      FirstPacks(v, r, t.start);
    } else {
      NeighbourFromSameServer(v, off, flat, r, t, k - 1);
      assert OnAsk(t.Sources(k - 1), t.start + k - 1);
      if k <= r.stride {
        ThenKeeps(v, r, t.Sources(k - 1), t.start + k - 1, x);
      }
    }
  }
}

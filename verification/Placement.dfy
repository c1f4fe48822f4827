/** Where a block lives: the distribution policies and the replica arithmetic. */
module Placement {
  import opened Bytes
  import Crc

  /** LOCAL and ZCOPY differ from RR in how bytes travel, not in where they go. */
  datatype Policy = RoundRobinPolicy | HashPolicy | LocalPolicy | ZeroCopyPolicy


  // ---------------------------------------------------------------- policies

  /** (a mod n + b) mod n drops the inner reduction. */
  lemma AddMod(a: nat, b: nat, n: nat)
    requires n > 0
    ensures (a % n + b) % n == (a + b) % n
  {
    var q := (a % n + b) / n;
    assert a + b == (a / n) * n + (a % n + b) == (a / n + q) * n + (a % n + b) % n;
    DivModUnique(a + b, n, a / n + q, (a % n + b) % n);
  }

  /** The server `msg` places after server `start` of n. */
  function After(n: nat, start: nat, msg: nat): (s: nat)
    requires n > 0
    ensures s < n
  {
    (start % n + msg) % n
  }

  /** Block `msg` of a file goes `msg` servers after the one its name hashes to. */
  function RoundRobin(n: nat, msg: nat, name: string): (s: nat)
    requires n > 0
    ensures s < n
  {
    After(n, Crc.NameCrc(name), msg)
  }

  /** Decimal digits, as printed by "%d" for a non-negative number. */
  function Decimal(x: nat): (s: string)
    ensures |s| > 0
    ensures forall i :: 0 <= i < |s| ==> '0' <= s[i] <= '9'
  {
    if x < 10 then [('0' as int + x) as char] else Decimal(x / 10) + [('0' as int + x % 10) as char]
  }

  /** The key "<name>$<block>" that identifies a block: servers file it under this, Hashed hashes it. */
  function BlockKey(name: string, msg: nat): string
  {
    name + "$" + Decimal(msg)
  }

  /** A C `char` in arithmetic: the byte, sign-extended. */
  function SignedChar(c: char): (x: int)
    ensures -128 <= x < 128 && (c as int - x) % 256 == 0
  {
    var v := c as int % 256;
    if v < 128 then v else v - 256
  }

  /** Hash and multiplier after the first k characters, in 32-bit wrap-around arithmetic. */
  function HashState(key: string, k: nat): (r: (nat, nat))
    requires k <= |key|
    ensures r.0 < TWO32 && r.1 < TWO32
  {
    if k == 0 then (0, 63689)
    else
      var (h, a) := HashState(key, k - 1);
      ((h * a + SignedChar(key[k - 1])) % TWO32, (a * 378551) % TWO32)
  }

  function HashPlace(n: nat, msg: nat, name: string): (s: nat)
    requires n > 0
    ensures s < n
  {
    HashState(BlockKey(name, msg), |BlockKey(name, msg)|).0 % n
  }

  /** The server that holds block `msg` of a file created as `name` when n servers are in use. */
  function FindServer(policy: Policy, n: nat, msg: nat, name: string): (s: nat)
    requires n > 0
    ensures s < n
  {
    match policy
    case HashPolicy => HashPlace(n, msg, name)
    case _ => RoundRobin(n, msg, name)
  }

  method Hashed(n: nat, msg: nat, name: string) returns (s: nat)
    requires n > 0
    ensures s == HashPlace(n, msg, name)
  {
    var key := BlockKey(name, msg);
    var a, hash := 63689, 0;
    for i := 0 to |key|
      invariant (hash, a) == HashState(key, i)
    {
      hash := (hash * a + SignedChar(key[i])) % TWO32;
      a := (a * 378551) % TWO32;
    }
    s := hash % n;
  }

  // ------------------------------------------------------ what the hash computes

  /** The multiplier after j characters, were it not cut to 32 bits. */
  function Multiplier(j: nat): nat
  {
    if j == 0 then 63689 else Multiplier(j - 1) * 378551
  }

  /** The product of the multipliers from the one numbered lo up to, not including, hi. */
  function Product(lo: nat, hi: nat): nat
    requires lo <= hi
    decreases hi - lo
  {
    if lo == hi then 1 else Product(lo, hi - 1) * Multiplier(hi - 1)
  }

  /** Each of the first k characters, times all the multipliers used after it up to the n-th. */
  function Weighted(key: string, k: nat, n: nat): int
    requires k <= n && k <= |key|
  {
    if k == 0 then 0 else Weighted(key, k - 1, n) + SignedChar(key[k - 1]) * Product(k, n)
  }

  lemma {:induction false} WeightedNext(key: string, k: nat, n: nat)
    requires k <= n && k <= |key|
    ensures Weighted(key, k, n + 1) == Weighted(key, k, n) * Multiplier(n)
  {
    if k > 0 {
      WeightedNext(key, k - 1, n);
      var c, p, x := SignedChar(key[k - 1]), Product(k, n), Multiplier(n);
      MulAdd(Weighted(key, k - 1, n), c * p, x);
      MulSwap(c, p, x);
      assert Product(k, n + 1) == p * x;
    }
  }

  lemma ModAdd(x: int, k: int, m: nat)
    requires m > 0
    ensures (x + k * m) % m == x % m
  {
    assert x == x / m * m + x % m;
    MulAdd(x / m, k, m);
    DivModUnique(x + k * m, m, x / m + k, x % m);
  }

  lemma MulSwap(a: int, b: int, c: int)
    ensures a * b * c == a * c * b && a * b * c == a * (b * c)
  {
  }

  lemma ModLeft(x: int, y: int, c: int, m: nat)
    requires m > 0
    ensures (x % m * y + c) % m == (x * y + c) % m
  {
    var p, r := x / m, x % m;
    MulAdd(p * m, r, y);
    MulSwap(p, m, y);
    assert x * y == p * y * m + r * y;
    ModAdd(r * y + c, p * y, m);
  }

  lemma ModMul(x: int, y: int, c: int, m: nat)
    requires m > 0
    ensures (x % m * (y % m) + c) % m == (x * y + c) % m
  {
    ModLeft(x, y % m, c, m);
    ModLeft(y, x, c, m);
    assert x * (y % m) == y % m * x && y * x == x * y;
  }

  /** The hash of a key is the sum of its characters, each times the product of all later multipliers, modulo 2^32:
      cutting every step to 32 bits changes nothing. */
  lemma {:induction false} HashClosed(key: string, k: nat)
    requires k <= |key|
    ensures HashState(key, k) == (Weighted(key, k, k) % TWO32, Multiplier(k) % TWO32)
  {
    if k > 0 {
      HashClosed(key, k - 1);
      var c := SignedChar(key[k - 1]);
      WeightedNext(key, k - 1, k - 1);
      ModMul(Weighted(key, k - 1, k - 1), Multiplier(k - 1), c, TWO32);
      ModMul(Multiplier(k - 1), 378551, 0, TWO32);
      assert Product(k, k) == 1;
    }
  }

  // --------------------------------------------------------- what is computed

  /** RoundRobin of the code, on the checksum of the name. */
  method RoundRobinServer(n: nat, msg: nat, name: string) returns (s: nat)
    requires n > 0
    ensures s == RoundRobin(n, msg, name) == (Crc.NameCrc(name) + msg) % n
  {
    var crc := Crc.OfName(name);
    s := (crc % n + msg) % n;
    AddMod(Crc.NameCrc(name), msg, n);
  }

  /** The server of a hashed block is its key's weighted sum of characters, cut to 32 bits, modulo the servers. */
  lemma HashServer(n: nat, msg: nat, name: string)
    requires n > 0
    ensures HashPlace(n, msg, name) == Weighted(BlockKey(name, msg), |BlockKey(name, msg)|, |BlockKey(name, msg)|) % TWO32 % n
  {
    HashClosed(BlockKey(name, msg), |BlockKey(name, msg)|);
  }

  /** find_server. */
  method FindServerBy(policy: Policy, n: nat, msg: nat, name: string) returns (s: nat)
    requires n > 0
    ensures s == FindServer(policy, n, msg, name)
    ensures policy.HashPolicy? ==> s == Weighted(BlockKey(name, msg), |BlockKey(name, msg)|, |BlockKey(name, msg)|) % TWO32 % n
    ensures !policy.HashPolicy? ==> s == (Crc.NameCrc(name) + msg) % n
  {
    match policy
    case HashPolicy =>
      s := Hashed(n, msg, name);
      HashServer(n, msg, name);
    case RoundRobinPolicy => s := RoundRobinServer(n, msg, name);
    case LocalPolicy => s := RoundRobinServer(n, msg, name);
    case ZeroCopyPolicy => s := RoundRobinServer(n, msg, name);
  }

  // ------------------------------------------------------- keys do not collide

  /** Reading the digits back. */
  function Parse(s: string): int
  {
    if s == [] then 0 else 10 * Parse(s[..|s| - 1]) + (s[|s| - 1] as int - '0' as int)
  }

  lemma {:induction false} ParseDecimal(x: nat)
    ensures Parse(Decimal(x)) == x
  {
    var s := Decimal(x);
    if x < 10 {
      assert s[..|s| - 1] == [];
    } else {
      ParseDecimal(x / 10);
      assert s[..|s| - 1] == Decimal(x / 10);
    }
  }

  lemma LastDollar(a: string, x: nat, i: nat)
    requires |a| < i < |BlockKey(a, x)|
    ensures BlockKey(a, x)[i] != '$'
  {
    assert BlockKey(a, x)[i] == Decimal(x)[i - |a| - 1];
  }

  /** The key is the name, a '$', and the block number in decimal. */
  lemma BlockKeyReads(name: string, msg: nat)
    ensures var key := BlockKey(name, msg);
            |key| > |name| && key[..|name|] == name && key[|name|] == '$' && Parse(key[|name| + 1..]) == msg
  {
    var key := BlockKey(name, msg);
    assert key[|name| + 1..] == Decimal(msg);
    ParseDecimal(msg);
  }

  /** Two blocks share a server key only if they are the same block of the same file. */
  lemma BlockKeyInjective(a: string, x: nat, b: string, y: nat)
    requires BlockKey(a, x) == BlockKey(b, y)
    ensures a == b && x == y
  {
    var k := BlockKey(a, x);
    forall i | |a| < i < |k| ensures k[i] != '$' { LastDollar(a, x, i); }
    forall i | |b| < i < |k| ensures k[i] != '$' { LastDollar(b, y, i); }
    assert k[|a|] == '$' && k[|b|] == '$';
    assert k[..|a|] == a && k[..|b|] == b;
    assert k[|a| + 1..] == Decimal(x) && k[|b| + 1..] == Decimal(y);
    ParseDecimal(x);
    ParseDecimal(y);
  }

  // ---------------------------------------------------------------- replicas

  /** Server holding copy i of a block whose first copy is on server s. */
  function Replica(n: nat, r: nat, s: nat, i: nat): (t: nat)
    requires 0 < r && 0 < n
    ensures t < n
  {
    (s + i * (n / r)) % n
  }

  lemma ReplicaZero(n: nat, r: nat, s: nat)
    requires 0 < r && s < n
    ensures Replica(n, r, s, 0) == s
  {
    assert 0 * (n / r) == 0;
  }

  /** Two numbers less than n apart leave different remainders. */
  lemma NearModDiffers(x: nat, y: nat, n: nat)
    requires x < y < x + n
    ensures x % n != y % n
  {
    if x % n == y % n {
      assert x == (x / n) * n + x % n && y == (y / n) * n + y % n;
      MulSub(y / n, x / n, n);
      SmallMultiple(y / n - x / n, n);
    }
  }

  /** The next copy is one stride further around the ring of servers. */
  lemma ReplicaNext(n: nat, r: nat, s: nat, i: nat)
    requires 0 < r && 0 < n
    ensures Replica(n, r, s, i + 1) == (Replica(n, r, s, i) + n / r) % n
  {
    StrideNext(n, s, n / r, i);
  }

  lemma StrideNext(n: nat, s: nat, d: nat, i: nat)
    requires 0 < n
    ensures (s + (i + 1) * d) % n == ((s + i * d) % n + d) % n
  {
    var x := s + i * d;
    assert s + (i + 1) * d == x + d by {
      MulAdd(i, 1, d);
    }
    AddMod(x, d, n);
  }

  /** How far server t is ahead of server s around the ring. */
  function Ahead(n: nat, s: nat, t: nat): nat
    requires s < n && t < n
  {
    if s <= t then t - s else t + n - s
  }

  lemma AheadBy(n: nat, x: nat, e: nat)
    requires e < n
    ensures Ahead(n, x % n, (x + e) % n) == e
  {
    AddMod(x, e, n);
    var y := x % n + e;
    if y < n {
      DivModUnique(y, n, 0, y);
    } else {
      DivModUnique(y, n, 1, y - n);
    }
  }

  /** The copies are spread evenly: copy j is j - i strides ahead of copy i, and any two copies are at least a stride apart,
      both ways around. */
  lemma ReplicasSpread(n: nat, r: nat, s: nat, i: nat, j: nat)
    requires 1 <= r <= n && i < j < r
    ensures Ahead(n, Replica(n, r, s, i), Replica(n, r, s, j)) == (j - i) * (n / r)
    ensures n / r <= Ahead(n, Replica(n, r, s, i), Replica(n, r, s, j)) <= n - n / r
    ensures n / r <= Ahead(n, Replica(n, r, s, j), Replica(n, r, s, i))
  {
    var d := n / r;
    var e := (j - i) * d;
    assert n == d * r + n % r;
    MulSub(j, i, d);
    MulMono(1, j - i, d);
    MulMono(j - i, r - 1, d);
    MulSub(r, 1, d);
    StrideFits(n, r, i, j);
    AheadBy(n, s + i * d, e);
  }

  /** The span of the copies stays below one turn around the servers. */
  lemma StrideFits(n: nat, r: nat, i: nat, j: nat)
    requires 1 <= r <= n && i < j < r
    ensures i * (n / r) < j * (n / r) < i * (n / r) + n
  {
    var d := n / r;
    assert n == d * r + n % r;
    assert d >= 1 by {
      if d <= 0 { MulMono(d, 0, r); }
    }
    MulSub(j, i, d);
    MulMono(1, j - i, d);
    MulMono(j - i, r - 1, d);
    MulSub(r, 1, d);
  }

  /** With at most as many copies as servers, no two copies share a server. */
  lemma ReplicasDistinct(n: nat, r: nat, s: nat, i: nat, j: nat)
    requires 1 <= r <= n && i < j < r
    ensures Replica(n, r, s, i) != Replica(n, r, s, j)
  {
    StrideFits(n, r, i, j);
    NearModDiffers(s + i * (n / r), s + j * (n / r), n);
  }

  function Replicas(n: nat, r: nat, s: nat, k: nat): (t: seq<nat>)
    requires 0 < r && 0 < n
    ensures |t| == k
    ensures forall i :: 0 <= i < k ==> t[i] == Replica(n, r, s, i)
  {
    seq(k, i requires 0 <= i < k => Replica(n, r, s, i))
  }

  /** The servers of the first k copies. */
  function Holders(n: nat, r: nat, s: nat, k: nat): set<nat>
    requires 0 < r && 0 < n
  {
    if k == 0 then {} else Holders(n, r, s, k - 1) + {Replica(n, r, s, k - 1)}
  }

  lemma {:induction false} HolderIff(n: nat, r: nat, s: nat, k: nat, t: nat)
    requires 0 < r && 0 < n
    ensures t in Holders(n, r, s, k) <==> exists i :: 0 <= i < k && Replica(n, r, s, i) == t
  {
    if k > 0 {
      HolderIff(n, r, s, k - 1, t);
    }
  }

  lemma {:induction false} HoldersAreReplicas(n: nat, r: nat, s: nat, k: nat)
    requires 0 < r && 0 < n
    ensures Holders(n, r, s, k) == set t | t in Replicas(n, r, s, k)
  {
    if k > 0 {
      HoldersAreReplicas(n, r, s, k - 1);
      assert Replicas(n, r, s, k) == Replicas(n, r, s, k - 1) + [Replica(n, r, s, k - 1)];
    }
  }

  /** Copy k goes to a server none of the earlier copies went to. */
  lemma NextHolderIsNew(n: nat, r: nat, s: nat, k: nat)
    requires 1 <= r <= n && k < r
    ensures Replica(n, r, s, k) !in Holders(n, r, s, k)
  {
    HolderIff(n, r, s, k, Replica(n, r, s, k));
    forall j | 0 <= j < k ensures Replica(n, r, s, j) != Replica(n, r, s, k) {
      ReplicasDistinct(n, r, s, j, k);
    }
  }

  /** A block has exactly as many holders as copies, its first server among them. */
  lemma {:induction false} HolderCount(n: nat, r: nat, s: nat, k: nat)
    requires 1 <= r <= n && k <= r && s < n
    ensures |Holders(n, r, s, k)| == k && (k > 0 ==> s in Holders(n, r, s, k))
  {
    if k > 0 {
      HolderCount(n, r, s, k - 1);
      NextHolderIsNew(n, r, s, k - 1);
      if k == 1 {
        ReplicaZero(n, r, s);
      }
    }
  }

  /** Entry j of a list whose entries 0 and k were exchanged. */
  function Swapped(t: seq<nat>, k: nat, j: nat): nat
    requires k < |t| && j < |t|
  {
    if j == 0 then t[k] else if j == k then t[0] else t[j]
  }

  /** `t` is `base` with the local server, if it is among them, exchanged with the first. */
  ghost predicate LocalFirst(base: seq<nat>, local: int, t: seq<nat>)
  {
    && |t| == |base|
    && (local !in base ==> t == base)
    && (forall k :: 0 <= k < |base| && base[k] == local ==> forall j :: 0 <= j < |t| ==> t[j] == Swapped(base, k, j))
  }

  ghost predicate Distinct(t: seq<nat>)
  {
    forall i, j :: 0 <= i < j < |t| ==> t[i] != t[j]
  }

  ghost function Elements(list: seq<nat>): set<nat> { set s | s in list }

  /** The list of a block's servers: its first one first, each once, all in range. */
  lemma ReplicaList(n: nat, r: nat, s: nat, list: seq<nat>)
    requires 1 <= r <= n && s < n && list == Replicas(n, r, s, r)
    ensures |list| == r && list[0] == s && Distinct(list) && (forall i :: 0 <= i < r ==> list[i] < n)
    ensures Elements(list) == Holders(n, r, s, r) && |Elements(list)| == r
  {
    ReplicaZero(n, r, s);
    ReplicasAreDistinct(n, r, s);
    HoldersAreReplicas(n, r, s, r);
    HolderCount(n, r, s, r);
  }

  lemma ReplicasAreDistinct(n: nat, r: nat, s: nat)
    requires 1 <= r <= n
    ensures Distinct(Replicas(n, r, s, r))
  {
    forall i, j | 0 <= i < j < r ensures Replica(n, r, s, i) != Replica(n, r, s, j) {
      ReplicasDistinct(n, r, s, i, j);
    }
  }

  /** Asking the local server first asks the same servers, each once, and the local one first if it holds a copy. */
  lemma LocalFirstPermutes(base: seq<nat>, local: int, t: seq<nat>)
    requires Distinct(base) && LocalFirst(base, local, t)
    ensures multiset(t) == multiset(base) && Distinct(t)
    ensures local in base ==> t[0] == local
  {
    if local in base {
      var k :| 0 <= k < |base| && base[k] == local;
      assert t == base[0 := base[k]][k := base[0]];
    }
  }

  /** Fills the replica list, moving the local server to the front when it turns up. */
  method ReplicaOrder(n: nat, r: nat, s: nat, local: int) returns (servers: array<nat>)
    requires 1 <= r <= n
    ensures fresh(servers) && LocalFirst(Replicas(n, r, s, r), local, servers[..])
  {
    ghost var base := Replicas(n, r, s, r);
    ReplicasAreDistinct(n, r, s);
    servers := new nat[r];
    ghost var at := r;
    for i := 0 to r
      invariant at == r || at < i
      invariant at == r ==> forall j :: 0 <= j < i ==> servers[j] == base[j] != local
      invariant at != r ==> base[at] == local && forall j :: 0 <= j < i ==> servers[j] == Swapped(base, at, j)
    {
      servers[i] := Replica(n, r, s, i);
      assert servers[i] == base[i];
      if servers[i] == local {
        servers[0], servers[i] := servers[i], servers[0];
        at := i;
      }
    }
  }

  // ----------------------------------------------------------------- balance

  /** How many of the m blocks first, first + 1, ... of a file go to server s; the file's name hashes to `start`. */
  ghost function CountOn(n: nat, start: nat, first: nat, m: nat, s: nat): nat
    requires n > 0
  {
    if m == 0 then 0
    else CountOn(n, start, first, m - 1, s) + if After(n, start, first + m - 1) == s then 1 else 0
  }

  /** How many blocks after x (taken modulo n) server s comes up first. */
  function Distance(n: nat, x: nat, s: nat): (d: nat)
    requires s < n
    ensures d < n
  {
    if x % n <= s then s - x % n else s + n - x % n
  }

  lemma HitIff(n: nat, x: nat, j: nat, s: nat)
    requires s < n
    ensures (x + j) % n == s <==> j % n == Distance(n, x, s)
  {
    var d, a, b := Distance(n, x, s), x % n, j % n;
    AddMod(x, j, n);
    AddMod(j, a, n);
    assert (x + j) % n == (b + a) % n;
    if b + a < n {
      DivModUnique(b + a, n, 0, b + a);
    } else {
      DivModUnique(b + a, n, 1, b + a - n);
    }
  }

  /** Stepping past a multiple of n raises the quotient by one. */
  lemma QuotientStep(t: nat, n: nat)
    requires n > 0
    ensures (t + 1) / n == t / n + (if (t + 1) % n == 0 then 1 else 0)
  {
    var q, m := t / n, t % n;
    assert t == q * n + m;
    if m == n - 1 {
      MulSub(q + 1, q, n);
      DivModUnique(t + 1, n, q + 1, 0);
    } else {
      DivModUnique(t + 1, n, q, m + 1);
    }
  }

  lemma ShiftedMultiple(m: nat, n: nat, d: nat)
    requires d < n
    ensures (m + n - d) % n == 0 <==> m % n == d
  {
    var q, k := m / n, m % n;
    assert m == q * n + k;
    MulSub(q + 1, q, n);
    if k < d {
      DivModUnique(m + n - d, n, q, n + k - d);
    } else {
      DivModUnique(m + n - d, n, q + 1, k - d);
    }
  }

  /** The exact share of server s among m consecutive blocks. */
  lemma {:induction false} CountExact(n: nat, start: nat, first: nat, m: nat, s: nat)
    requires s < n
    ensures CountOn(n, start, first, m, s) == (m + n - 1 - Distance(n, start + first, s)) / n
  {
    var d := Distance(n, start + first, s);
    if m == 0 {
      DivModUnique(n - 1 - d, n, 0, n - 1 - d);
    } else {
      CountExact(n, start, first, m - 1, s);
      AddMod(start, first + m - 1, n);
      HitIff(n, start + first, m - 1, s);
      ShiftedMultiple(m - 1, n, d);
      QuotientStep(m - 1 + n - 1 - d, n);
    }
  }

  /** Any m consecutive blocks are spread so that no server gets two more than another. */
  lemma RoundRobinBalanced(n: nat, start: nat, first: nat, m: nat, s: nat, t: nat)
    requires s < n && t < n
    ensures CountOn(n, start, first, m, s) <= CountOn(n, start, first, m, t) + 1
  {
    CountExact(n, start, first, m, s);
    CountExact(n, start, first, m, t);
    QuotientNear(m + n - 1 - Distance(n, start + first, s), m + n - 1 - Distance(n, start + first, t), n);
  }

  lemma QuotientNear(a: nat, b: nat, n: nat)
    requires n > 0 && a < b + n
    ensures a / n <= b / n + 1
  {
    BlockOf(a, n);
    BlockOf(b, n);
    if a / n >= b / n + 2 {
      MulMono(b / n + 2, a / n, n);
    }
  }

  /** Any n consecutive blocks visit every server exactly once. */
  lemma RoundRobinCovers(n: nat, start: nat, first: nat, s: nat)
    requires s < n
    ensures CountOn(n, start, first, n, s) == 1
  {
    CountExact(n, start, first, n, s);
    var d := Distance(n, start + first, s);
    DivModUnique(n + n - 1 - d, n, 1, n - 1 - d);
  }

  lemma ModStep(x: nat, q: nat, n: nat)
    requires n > 0 && x == q * n + (n - 1)
    ensures x % n == n - 1 && (x + 1) % n == 0
  {
    DivModUnique(x, n, q, n - 1);
    MulSub(q, -1, n);
    DivModUnique(x + 1, n, q + 1, 0);
  }

  /** Where counting modulo n wraps around, counting modulo n + 1 does not. */
  lemma WrapDiffers(x: nat, q: nat, n: nat)
    requires n > 0 && x == q * n + (n - 1)
    ensures x % (n + 1) != x % n || (x + 1) % (n + 1) != (x + 1) % n
  {
    ModStep(x, q, n);
    if x % (n + 1) == n - 1 {
      var d := x / (n + 1);
      assert x + 1 == d * (n + 1) + n;
      DivModUnique(x + 1, n + 1, d, n);
    }
  }

  lemma WrapNear(x: nat, n: nat) returns (k: nat)
    requires n > 0
    ensures k <= n && (x + k) % (n + 1) != (x + k) % n
  {
    k := n - 1 - x % n;
    WrapDiffers(x + k, x / n, n);
    if (x + k) % (n + 1) == (x + k) % n {
      k := k + 1;
    }
  }

  /** Adding a server moves at least one of any n + 1 consecutive blocks. */
  lemma AfterMoves(n: nat, start: nat, first: nat) returns (b: nat)
    requires n > 0
    ensures first <= b <= first + n && After(n + 1, start, b) != After(n, start, b)
  {
    var k := WrapNear(start + first, n);
    b := first + k;
    AddMod(start, b, n);
    AddMod(start, b, n + 1);
  }

  lemma RoundRobinMoves(n: nat, name: string, first: nat) returns (b: nat)
    requires n > 0
    ensures first <= b <= first + n && RoundRobin(n + 1, b, name) != RoundRobin(n, b, name)
  {
    b := AfterMoves(n, Crc.NameCrc(name), first);
  }
}

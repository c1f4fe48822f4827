/** The table of attached deployments: an array with a list of free positions. */
module SlotTable {
  const ELEMENTS := 5120

  /** The free list: first the positions past the end of the array, in order, then released ones, each once. */
  ghost predicate FreeOk(free: seq<nat>, len: nat, max: nat)
  {
    && len <= max && max - len <= |free|
    && (forall i :: 0 <= i < max - len ==> free[i] == len + i)
    && (forall i :: max - len <= i < |free| ==> free[i] < len)
    && (forall i, j :: max - len <= i < j < |free| ==> free[i] != free[j])
  }

  /** No position is free twice, and all lie below the limit. */
  lemma FreeDistinct(free: seq<nat>, len: nat, max: nat)
    requires FreeOk(free, len, max)
    ensures forall i, j :: 0 <= i < j < |free| ==> free[i] != free[j]
    ensures forall i :: 0 <= i < |free| ==> free[i] < max
    ensures forall p :: len <= p < max ==> p in free
  {
    forall p | len <= p < max ensures p in free {
      assert free[p - len] == p;
    }
  }

  /** The positions below `max` that are not free. */
  ghost function UsedIn(free: seq<nat>, max: nat): (u: set<nat>)
    ensures forall p: nat :: p in u <==> p < max && p !in free
  {
    set p: nat | p < max && p !in free
  }

  /** Taking the first free position: it is inside the array, or right behind it. */
  lemma TakeHead(free: seq<nat>, len: nat, max: nat)
    requires FreeOk(free, len, max) && free != []
    ensures free[0] <= len && FreeOk(free[1..], if free[0] < len then len else len + 1, max)
    ensures free[0] !in UsedIn(free, max) && UsedIn(free[1..], max) == UsedIn(free, max) + {free[0]}
  {
    FreeDistinct(free, len, max);
    assert forall p :: p in free <==> p == free[0] || p in free[1..];
  }

  /** With nothing free, the array is full up to the limit. */
  lemma NoneFree(len: nat, max: nat)
    requires FreeOk([], len, max)
    ensures len == max && FreeOk([], len + 1, max + 1) && UsedIn([], max + 1) == UsedIn([], max) + {max}
  {
  }

  class Table<T> {
    var slots: seq<T>
    var free: seq<nat>
    var max: nat

    ghost predicate Valid()
      reads this
    {
      FreeOk(free, |slots|, max)
    }

    ghost function Used(): set<nat>
      reads this
    {
      UsedIn(free, max)
    }

    /** The elements in use, by position. */
    ghost function Elements(): map<nat, T>
      reads this
      requires Valid()
    {
      FreeDistinct(free, |slots|, max);
      map p | p in Used() :: slots[p]
    }

    constructor ()
      ensures Valid() && Elements() == map[] && max == ELEMENTS
    {
      slots := [];
      var list: seq<nat> := [];
      for i := 0 to ELEMENTS
        invariant |list| == i && forall j :: 0 <= j < i ==> list[j] == j
      {
        list := list + [i];
      }
      free, max := list, ELEMENTS;
      new;
      FreeDistinct(free, 0, max);
    }

    /** GInsert: takes a position that was not in use, and leaves the other elements where they are. A position from
        the free list that is not inside the array is the one right behind it. The table grows when none is free. */
    method Insert(item: T) returns (pos: nat)
      requires Valid()
      modifies this
      ensures Valid() && pos !in old(Used()) && pos in Used()
      ensures Elements() == old(Elements())[pos := item]
      ensures max == if old(free) == [] then old(max) + 1 else old(max)
      ensures old(free) != [] ==> old(free)[0] <= old(|slots|) && pos == old(free)[0]
      ensures old(free) == [] ==> pos == old(max) == old(|slots|)
    {
      FreeDistinct(free, |slots|, max);
      if free == [] {
        NoneFree(|slots|, max);
        slots := slots + [item];
        max := max + 1;
        pos := max - 1;
      } else {
        TakeHead(free, |slots|, max);
        pos := free[0];
        free := free[1..];
        slots := if pos < |slots| then slots[pos := item] else slots + [item];
      }
    }

    /** The end of release_imss: an element in use is cleared and its position goes to the end of the free list. */
    method Release(pos: nat, empty: T)
      requires Valid() && pos in Used()
      modifies this
      ensures Valid() && Elements() == old(Elements()) - {pos} && max == old(max)
      ensures free == old(free) + [pos]
    {
      FreeDistinct(free, |slots|, max);
      slots := slots[pos := empty];
      free := free + [pos];
      FreeDistinct(free, |slots|, max);
    }
  }

  /** Used and free positions share out the table between them. */
  lemma Partition<T>(t: Table<T>)
    requires t.Valid()
    ensures forall p: nat :: p < t.max <==> (p in t.Used()) != (p in t.free)
  {
    FreeDistinct(t.free, |t.slots|, t.max);
  }

  // -------------------------------------------------------------------- runs

  datatype Op<T> = InsertOp(item: T) | ReleaseOp(pos: nat)

  /** The operations turn m into m' as they would on a map, `out` being the positions they answer: an insertion takes a
      position that is not in use, a release of a position that is not in use does nothing. */
  ghost predicate Replays<T>(m: map<nat, T>, ops: seq<Op<T>>, out: seq<nat>, m': map<nat, T>)
    decreases |ops|
  {
    if ops == [] then out == [] && m == m'
    else
      && out != []
      && match ops[0]
         case InsertOp(item) => out[0] !in m && Replays(m[out[0] := item], ops[1..], out[1..], m')
         case ReleaseOp(pos) => out[0] == pos && Replays(m - {pos}, ops[1..], out[1..], m')
  }

  /** Any sequence of insertions and releases. */
  method RunAll<T>(t: Table<T>, ops: seq<Op<T>>, empty: T) returns (out: seq<nat>)
    requires t.Valid()
    modifies t
    ensures t.Valid() && Replays(old(t.Elements()), ops, out, t.Elements())
    decreases |ops|
  {
    if ops == [] {
      return [];
    }
    ghost var before := t.Elements();
    var pos;
    match ops[0] {
      case InsertOp(item) =>
        pos := t.Insert(item);
      case ReleaseOp(p) =>
        pos := p;
        Partition(t);
        if p < t.max && p !in t.free {
          t.Release(p, empty);
        } else {
          assert before - {p} == before;
        }
    }
    var rest := RunAll(t, ops[1..], empty);
    out := [pos] + rest;
  }

  /** Over any run an element stays at its position until that is released. */
  lemma {:induction false} HandleStays<T>(m: map<nat, T>, ops: seq<Op<T>>, out: seq<nat>, m': map<nat, T>, pos: nat)
    requires Replays(m, ops, out, m') && pos in m && ReleaseOp(pos) !in ops
    ensures pos in m' && m'[pos] == m[pos]
    decreases |ops|
  {
    if ops != [] {
      match ops[0]
      case InsertOp(item) => HandleStays(m[out[0] := item], ops[1..], out[1..], m', pos);
      case ReleaseOp(p) => HandleStays(m - {p}, ops[1..], out[1..], m', pos);
    }
  }
}

/** Any sequence of operations on a configuration list, seen as an insertion-ordered dictionary. */
module ConfigRun {
  import opened Bytes
  import opened Config
  import opened ConfigList

  datatype Op =
    | SetOp(key: string, value: Option<string>)     // no value: delete
    | GetOp(key: string)
    | DeleteOp(key: string)
    | PruneOp(keys: seq<string>)

  /** Keys in the order they were first set, and their values. */
  datatype Dict = Dict(order: seq<string>, values: map<string, string>)

  /** The keys that satisfy `keep`, in their order. */
  function Filtered(order: seq<string>, keep: string -> bool): seq<string>
  {
    if order == [] then [] else (if keep(order[0]) then [order[0]] else []) + Filtered(order[1..], keep)
  }

  function Only(keys: seq<string>): string -> bool { (k: string) => k in keys }

  function Not(key: string): string -> bool { (k: string) => k != key }

  function Put(d: Dict, key: string, value: string): Dict
  {
    Dict(if key in d.values then d.order else d.order + [key], d.values[key := value])
  }

  function Drop(d: Dict, key: Option<string>): Dict
  {
    match key
    case None => d
    case Some(k) => Dict(Filtered(d.order, Not(k)), d.values - {k})
  }

  function Keep(d: Dict, keys: seq<string>): Dict
  {
    if keys == [] then d else Dict(Filtered(d.order, Only(keys)), map k | k in d.values && k in keys :: d.values[k])
  }

  function Apply(d: Dict, op: Op): Dict
  {
    match op
    case SetOp(key, value) =>
      if value.None? then Drop(d, NormKey(key))
      else (match NormKey(key) case None => d case Some(k) => Put(d, k, Trim(value.value)))
    case GetOp(_) => d
    case DeleteOp(key) => Drop(d, NormKey(key))
    case PruneOp(keys) => Keep(d, NormKeys(keys))
  }

  /** What a get finds. */
  function Answer(d: Dict, op: Op): Option<string>
  {
    match op
    case GetOp(key) => (match NormKey(key) case None => None case Some(k) => if k in d.values then Some(d.values[k]) else None)
    case _ => None
  }

  function ApplyAll(d: Dict, ops: seq<Op>): Dict
    decreases |ops|
  {
    if ops == [] then d else ApplyAll(Apply(d, ops[0]), ops[1..])
  }

  function Answers(d: Dict, ops: seq<Op>): seq<Option<string>>
    decreases |ops|
  {
    if ops == [] then [] else [Answer(d, ops[0])] + Answers(Apply(d, ops[0]), ops[1..])
  }

  // Marker: facts about a key, used where a proof names it.
  predicate OnKey(k: string) { true }

  /** The list is the dictionary, entry by entry. */
  ghost predicate Is(c: seq<Entry>, d: Dict)
  {
    && Keys(c) == d.order
    && (forall k {:trigger OnKey(k)} :: OnKey(k) ==> Lookup(c, k) == if k in d.values then Some(d.values[k]) else None)
    && (forall k {:trigger OnKey(k)} :: OnKey(k) ==> (k in d.values <==> k in d.order))
  }

  lemma PutIs(c: seq<Entry>, d: Dict, key: string, value: string)
    requires Is(c, d)
    ensures Is(Config.Put(c, key, value), Put(d, key, value))
  {
    var c', d' := Config.Put(c, key, value), Put(d, key, value);
    assert OnKey(key);
    PutLookup(c, key, value, key);
    forall k | OnKey(k)
      ensures Lookup(c', k) == if k in d'.values then Some(d'.values[k]) else None
      ensures k in d'.values <==> k in d'.order
    {
      PutLookup(c, key, value, k);
    }
  }

  lemma {:induction false} FilteredHas(order: seq<string>, keep: string -> bool, k: string)
    ensures k in Filtered(order, keep) <==> k in order && keep(k)
  {
    if order != [] {
      FilteredHas(order[1..], keep, k);
    }
  }

  lemma {:induction false} NoneFiltered(order: seq<string>, key: string)
    requires key !in order
    ensures Filtered(order, Not(key)) == order
  {
    if order != [] {
      NoneFiltered(order[1..], key);
    }
  }

  lemma {:induction false} OneFiltered(order: seq<string>, key: string, k: nat)
    requires k < |order| && order[k] == key && forall i, j :: 0 <= i < j < |order| ==> order[i] != order[j]
    ensures Filtered(order, Not(key)) == order[..k] + order[k + 1..]
  {
    if k == 0 {
      NoneFiltered(order[1..], key);
    } else {
      OneFiltered(order[1..], key, k - 1);
      assert order[..k] == [order[0]] + order[1..][..k - 1];
    }
  }

  lemma RemoveOrder(c: seq<Entry>, key: string)
    requires forall i, j :: 0 <= i < j < |c| ==> c[i].key != c[j].key
    ensures Keys(Remove(c, key)) == Filtered(Keys(c), Not(key))
  {
    var k := Index(c, key);
    if k < |c| {
      RemoveKeys(c, key, k);
      OneFiltered(Keys(c), key, k);
    } else {
      NoneFiltered(Keys(c), key);
    }
  }

  lemma RemoveIs(c: seq<Entry>, d: Dict, key: string)
    requires Is(c, d) && forall i, j :: 0 <= i < j < |c| ==> c[i].key != c[j].key
    ensures Is(Remove(c, key), Drop(d, Some(key)))
  {
    var c', d' := Remove(c, key), Drop(d, Some(key));
    RemoveOrder(c, key);
    forall k | OnKey(k)
      ensures Lookup(c', k) == if k in d'.values then Some(d'.values[k]) else None
      ensures k in d'.values <==> k in d'.order
    {
      RemoveLookup(c, key, k);
      FilteredHas(d.order, Not(key), k);
    }
  }

  lemma {:induction false} KeptOrder(c: seq<Entry>, keys: seq<string>)
    ensures Keys(Kept(c, keys)) == Filtered(Keys(c), Only(keys))
  {
    if c != [] {
      KeptOrder(c[1..], keys);
      assert Keys(c)[1..] == Keys(c[1..]);
    }
  }

  lemma KeptIs(c: seq<Entry>, d: Dict, keys: seq<string>)
    requires Is(c, d) && keys != []
    ensures Is(Kept(c, keys), Keep(d, keys))
  {
    var c', d' := Kept(c, keys), Keep(d, keys);
    KeptOrder(c, keys);
    forall k | OnKey(k)
      ensures Lookup(c', k) == if k in d'.values then Some(d'.values[k]) else None
      ensures k in d'.values <==> k in d'.order
    {
      KeptLookup(c, keys, k);
      FilteredHas(d.order, Only(keys), k);
    }
  }

  /** One operation on the list. */
  method Do(l: List, op: Op, ghost d: Dict) returns (out: Option<string>)
    requires l.Valid() && Is(l.Contents(), d)
    modifies l, l.nodes
    ensures l.Valid() && (forall i :: 0 <= i < |l.nodes| ==> l.nodes[i] in old(l.nodes) || fresh(l.nodes[i]))
    ensures Is(l.Contents(), Apply(d, op)) && out == Answer(d, op)
  {
    out := None;
    match op {
      case SetOp(key, value) =>
        if NormKey(key).Some? {
          if value.None? {
            RemoveIs(l.Contents(), d, NormKey(key).value);
          } else {
            PutIs(l.Contents(), d, NormKey(key).value, Trim(value.value));
          }
        }
        l.Set(key, value);
      case GetOp(key) =>
        assert NormKey(key).Some? ==> OnKey(NormKey(key).value);
        out := l.Get(key);
      case DeleteOp(key) =>
        if NormKey(key).Some? {
          RemoveIs(l.Contents(), d, NormKey(key).value);
        }
        l.Delete(key);
      case PruneOp(keys) =>
        if NormKeys(keys) != [] {
          KeptIs(l.Contents(), d, NormKeys(keys));
        }
        l.Prune(keys);
    }
  }

  /** Any sequence of set, get, delete and prune is answered as by an insertion-ordered dictionary. */
  method RunAll(l: List, ops: seq<Op>, ghost d: Dict) returns (out: seq<Option<string>>)
    requires l.Valid() && Is(l.Contents(), d)
    modifies l, l.nodes
    ensures l.Valid() && Is(l.Contents(), ApplyAll(d, ops)) && out == Answers(d, ops)
    decreases |ops|
  {
    if ops == [] {
      return [];
    }
    var first := Do(l, ops[0], d);
    var rest := RunAll(l, ops[1..], Apply(d, ops[0]));
    out := [first] + rest;
  }

  /** A key's last set, if nothing deleted or pruned it since, is what a get finds. */
  lemma {:induction false} LastSetWins(d: Dict, k: string, ops: seq<Op>)
    requires k in d.values && forall i :: 0 <= i < |ops| ==> Leaves(ops[i], k)
    ensures k in ApplyAll(d, ops).values && ApplyAll(d, ops).values[k] == d.values[k]
    decreases |ops|
  {
    if ops != [] {
      assert Leaves(ops[0], k);
      LastSetWins(Apply(d, ops[0]), k, ops[1..]);
    }
  }

  /** The operation does not concern key k. */
  predicate Leaves(op: Op, k: string)
  {
    match op
    case SetOp(key, _) => NormKey(key) != Some(k)
    case GetOp(_) => true
    case DeleteOp(key) => NormKey(key) != Some(k)
    case PruneOp(keys) => NormKeys(keys) == [] || k in NormKeys(keys)
  }
}

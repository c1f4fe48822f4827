/** The configuration list: a singly linked list of key-value pairs that behaves like an insertion-ordered map. */
module ConfigList {
  import opened Bytes
  import opened Config

  // --------------------------------------------------- the map it stands for

  function Lookup(c: seq<Entry>, key: string): (r: Option<string>)
    ensures r.Some? <==> exists i :: 0 <= i < |c| && c[i].key == key
  {
    var k := Index(c, key);
    if k < |c| then Some(c[k].value) else None
  }

  function Keys(c: seq<Entry>): (r: seq<string>)
    ensures |r| == |c| && forall i :: 0 <= i < |c| ==> r[i] == c[i].key
  {
    seq(|c|, i requires 0 <= i < |c| => c[i].key)
  }

  function Remove(c: seq<Entry>, key: string): seq<Entry>
  {
    var k := Index(c, key);
    if k < |c| then c[..k] + c[k + 1..] else c
  }

  /** The entries whose key is among `keys`, in their order. */
  function Kept(c: seq<Entry>, keys: seq<string>): seq<Entry>
  {
    if c == [] then [] else (if c[0].key in keys then [c[0]] else []) + Kept(c[1..], keys)
  }

  function Without(c: seq<Entry>, key: string): seq<Entry>
  {
    match NormKey(key)
    case None => c
    case Some(k) => Remove(c, k)
  }

  /** Keys that name something, normalised. */
  function NormKeys(keys: seq<string>): seq<string>
  {
    if keys == [] then [] else (match NormKey(keys[0]) case None => [] case Some(k) => [k]) + NormKeys(keys[1..])
  }

  lemma NormStep(acc: seq<string>, keys: seq<string>, i: nat)
    requires i < |keys|
    ensures acc + NormKeys(keys[i..])
         == (match NormKey(keys[i]) case None => acc case Some(k) => acc + [k]) + NormKeys(keys[i + 1..])
  {
    assert keys[i..][1..] == keys[i + 1..];
  }

  lemma SaveStep(text: string, c: seq<Entry>, k: nat)
    requires k < |c|
    ensures text + SaveText(c[k..]) == text + Line(c[k]) + SaveText(c[k + 1..])
  {
    assert c[k..][1..] == c[k + 1..];
  }

  lemma IndexAt(c: seq<Entry>, key: string, k: nat)
    requires k <= |c| && (forall i :: 0 <= i < k ==> c[i].key != key) && (k < |c| ==> c[k].key == key)
    ensures Index(c, key) == k
  {
  }

  /** A set key has its new value, every other key the old one, and the order stays. */
  lemma PutLookup(c: seq<Entry>, key: string, value: string, other: string)
    ensures Lookup(Put(c, key, value), other) == if other == key then Some(value) else Lookup(c, other)
    ensures Keys(Put(c, key, value)) == if key in Keys(c) then Keys(c) else Keys(c) + [key]
  {
    var d, k, o := Put(c, key, value), Index(c, key), Index(c, other);
    if other == key {
      IndexAt(d, key, k);
    } else {
      IndexAt(d, other, if o < |c| then o else |d|);
    }
    if k < |c| {
      assert Keys(c)[k] == key;
    }
  }

  lemma RemoveOk(c: seq<Entry>, key: string)
    requires Ok(c)
    ensures Ok(Remove(c, key))
  {
    var d, k := Remove(c, key), Index(c, key);
    assert forall i :: 0 <= i < |d| ==> d[i] == c[if i < k then i else i + 1];
  }

  /** The order of the other keys stays. */
  lemma RemoveKeys(c: seq<Entry>, key: string, k: nat)
    requires k == Index(c, key) < |c|
    ensures Keys(Remove(c, key)) == Keys(c)[..k] + Keys(c)[k + 1..]
  {
    var d := Remove(c, key);
    assert forall i :: 0 <= i < |d| ==> d[i] == c[if i < k then i else i + 1];
  }

  /** A deleted key is gone and every other key keeps its value. */
  lemma RemoveLookup(c: seq<Entry>, key: string, other: string)
    requires forall i, j :: 0 <= i < j < |c| ==> c[i].key != c[j].key
    ensures Lookup(Remove(c, key), other) == if other == key then None else Lookup(c, other)
  {
    var d, k, o := Remove(c, key), Index(c, key), Index(c, other);
    if k < |c| {
      assert forall i :: 0 <= i < k ==> d[i] == c[i];
      assert forall i :: k <= i < |d| ==> d[i] == c[i + 1];
      if other == key || o == |c| {
        IndexAt(d, other, |d|);
      } else if o < k {
        IndexAt(d, other, o);
      } else {
        IndexAt(d, other, o - 1);
      }
    }
  }

  /** Pruning keeps exactly the entries asked for, with their values. */
  lemma {:induction false} KeptLookup(c: seq<Entry>, keys: seq<string>, key: string)
    ensures Lookup(Kept(c, keys), key) == if key in keys then Lookup(c, key) else None
  {
    if c != [] {
      KeptLookup(c[1..], keys, key);
      LookupStep(c, key);
      if c[0].key in keys {
        LookupStep(Kept(c, keys), key);
        assert Kept(c, keys)[1..] == Kept(c[1..], keys);
      } else {
        assert Kept(c, keys) == Kept(c[1..], keys);
      }
    }
  }

  lemma LookupStep(c: seq<Entry>, key: string)
    requires c != []
    ensures Lookup(c, key) == if c[0].key == key then Some(c[0].value) else Lookup(c[1..], key)
  {
  }

  lemma KeptStep(c: seq<Entry>, k: nat, keys: seq<string>)
    requires k < |c|
    ensures c[..k] + Kept(c[k..], keys) == (if c[k].key in keys then c[..k + 1] else c[..k]) + Kept(c[k + 1..], keys)
  {
    assert c[k..][1..] == c[k + 1..];
    assert c[..k + 1] == c[..k] + [c[k]];
  }

  lemma {:induction false} KeptOk(c: seq<Entry>, keys: seq<string>)
    requires Ok(c)
    ensures Ok(Kept(c, keys)) && forall i :: 0 <= i < |Kept(c, keys)| ==> Kept(c, keys)[i] in c
  {
    if c != [] {
      assert forall i :: 0 <= i < |c[1..]| ==> c[1..][i] == c[i + 1];
      KeptOk(c[1..], keys);
      var rest := Kept(c[1..], keys);
      forall i | 0 <= i < |rest| ensures rest[i].key != c[0].key && rest[i] in c {
        var j :| 0 <= j < |c[1..]| && c[1..][j] == rest[i];
      }
    }
  }

  // ------------------------------------------------------------ trimming

  /** cfg_trim. */
  method TrimSpaces(s: string) returns (r: string)
    ensures r == Trim(s)
  {
    var t := s;
    while t != [] && IsSpace(t[0])
      invariant TrimLeft(t) == TrimLeft(s)
      decreases |t|
    {
      t := t[1..];
    }
    r := t;
    while r != [] && IsSpace(r[|r| - 1])
      invariant TrimRight(r) == TrimRight(t)
      decreases |r|
    {
      r := r[..|r| - 1];
    }
  }

  /** cfg_norm_key. */
  method NormalizeKey(s: string) returns (r: Option<string>)
    ensures r == NormKey(s)
  {
    var t := TrimSpaces(s);
    if t == [] {
      return None;
    }
    var key := "";
    for i := 0 to |t|
      invariant |key| == i && forall j :: 0 <= j < i ==> key[j] == Lower(t[j])
    {
      key := key + [Lower(t[i])];
    }
    assert key == LowerAll(t);
    return Some(key);
  }

  // ---------------------------------------------------------------- the list

  class Node {
    const key: string
    var value: string
    var next: Node?

    constructor (key: string, value: string)
      ensures this.key == key && this.value == value && next == null
    {
      this.key, this.value, next := key, value, null;
    }
  }

  // Marker: the facts about the links speak of a node only where a proof names it.
  predicate OnNode(i: int) { true }

  function NextOf(nodes: seq<Node>, i: int): Node?
  {
    if -1 <= i < |nodes| - 1 then nodes[i + 1] else null
  }

  ghost predicate Apart(nodes: seq<Node>)
  {
    forall i, j {:trigger OnNode(i), OnNode(j)} :: OnNode(i) && OnNode(j) && 0 <= i < j < |nodes| ==> nodes[i] != nodes[j]
  }

  /** The entries of the nodes. */
  ghost function EntriesOf(nodes: seq<Node>): (c: seq<Entry>)
    reads nodes
    ensures |c| == |nodes| && forall i :: 0 <= i < |c| ==> c[i] == Entry(nodes[i].key, nodes[i].value)
  {
    seq(|nodes|, i requires 0 <= i < |nodes| reads nodes => Entry(nodes[i].key, nodes[i].value))
  }

  lemma ApartWithout(nodes: seq<Node>, at: nat)
    requires Apart(nodes) && at < |nodes|
    ensures Apart(nodes[..at] + nodes[at + 1..])
  {
    var after := nodes[..at] + nodes[at + 1..];
    forall i, j | OnNode(i) && OnNode(j) && 0 <= i < j < |after| ensures after[i] != after[j] {
      assert OnNode(i + 1) && OnNode(j + 1);
    }
  }

  lemma NextWithout(nodes: seq<Node>, at: nat, after: seq<Node>, i: int)
    requires at < |nodes| && after == nodes[..at] + nodes[at + 1..] && -1 <= i < |after|
    ensures NextOf(after, i) == NextOf(nodes, if i < at - 1 then i else i + 1)
    ensures i >= 0 ==> after[i] == nodes[if i < at then i else i + 1]
  {
  }

  lemma EntriesWithout(nodes: seq<Node>, at: nat)
    requires at < |nodes|
    ensures EntriesOf(nodes[..at] + nodes[at + 1..]) == EntriesOf(nodes)[..at] + EntriesOf(nodes)[at + 1..]
  {
  }

  class List {
    var head: Node?
    /** The nodes, in order. */
    ghost var nodes: seq<Node>

    ghost predicate Linked()
      reads this, nodes
    {
      && head == NextOf(nodes, -1) && Apart(nodes)
      && (forall i {:trigger OnNode(i)} :: OnNode(i) && 0 <= i < |nodes| ==> nodes[i].next == NextOf(nodes, i))
    }

    ghost function Contents(): seq<Entry>
      reads this, nodes
    {
      EntriesOf(nodes)
    }

    ghost predicate Valid()
      reads this, nodes
    {
      Linked() && Ok(Contents())
    }

    constructor ()
      ensures Valid() && Contents() == []
    {
      head, nodes := null, [];
    }

    /** Walks the list up to the node with this key. */
    method Seek(key: string) returns (prev: Node?, cur: Node?, ghost k: nat)
      requires Linked()
      ensures k == Index(Contents(), key) <= |nodes|
      ensures cur == NextOf(nodes, k - 1) && prev == NextOf(nodes, k - 2)
    {
      prev, cur, k := null, head, 0;
      while cur != null
        invariant k <= |nodes| && cur == NextOf(nodes, k - 1) && prev == NextOf(nodes, k - 2)
        invariant forall i :: 0 <= i < k ==> nodes[i].key != key
        decreases |nodes| - k
      {
        if key == cur.key {
          break;
        }
        assert OnNode(k);
        prev := cur;
        cur := cur.next;
        k := k + 1;
      }
      IndexAt(Contents(), key, k);
    }

    /** cfg_get. */
    method Get(key: string) returns (r: Option<string>)
      requires Linked()
      ensures r == match NormKey(key) case None => None case Some(k) => Lookup(Contents(), k)
    {
      var tkey := NormalizeKey(key);
      match tkey {
        case None => return None;
        case Some(k) =>
          var prev, cur;
          ghost var at;
          prev, cur, at := Seek(k);
          return if cur == null then None else Some(cur.value);
      }
    }

    /** Hangs a new node behind the last one. */
    method Append(prev: Node?, key: string, value: string)
      requires Linked() && prev == NextOf(nodes, |nodes| - 2)
      modifies this, nodes
      ensures Linked() && |nodes| == |old(nodes)| + 1 && nodes[..|nodes| - 1] == old(nodes)
      ensures forall n :: n in nodes ==> n in old(nodes) || fresh(n)
      ensures Contents() == old(Contents()) + [Entry(key, value)]
    {
      ghost var last := |nodes| - 1;
      assert OnNode(last);
      var node := new Node(key, value);
      if prev == null {
        head := node;
      } else {
        prev.next := node;
      }
      nodes := nodes + [node];
    }

    /** Takes node `at` out of the list. */
    method Unlink(prev: Node?, cur: Node, ghost at: nat)
      requires Linked() && at < |nodes| && cur == nodes[at] && prev == NextOf(nodes, at - 2)
      modifies this, nodes
      ensures Linked() && nodes == old(nodes)[..at] + old(nodes)[at + 1..] && (forall n :: n in nodes ==> n in old(nodes))
      ensures Contents() == old(Contents())[..at] + old(Contents())[at + 1..]
    {
      assert OnNode(at) && OnNode(at - 1);
      ghost var c, before := Contents(), nodes;
      if prev == null {
        head := cur.next;
      } else {
        prev.next := cur.next;
      }
      nodes := nodes[..at] + nodes[at + 1..];
      ApartWithout(before, at);
      NextWithout(before, at, nodes, -1);
      forall i | OnNode(i) && 0 <= i < |nodes| ensures nodes[i].next == NextOf(nodes, i) {
        NextWithout(before, at, nodes, i);
        assert OnNode(i + 1);
      }
      assert EntriesOf(before) == c;
      EntriesWithout(before, at);
    }

    /** cfg_set; a missing value deletes. */
    method Set(key: string, value: Option<string>)
      requires Valid()
      modifies this, nodes
      ensures Valid() && (forall n :: n in nodes ==> n in old(nodes) || fresh(n))
      ensures value.Some? ==> Contents() == Config.Set(old(Contents()), key, value.value)
      ensures value.None? ==> Contents() == Without(old(Contents()), key)
    {
      if value.None? {
        Delete(key);
        return;
      }
      var tkey := NormalizeKey(key);
      match tkey {
        case None =>
        case Some(k) =>
          SetOk(Contents(), key, value.value);
          var tvalue := TrimSpaces(value.value);
          Store(k, tvalue);
      }
    }

    method Store(k: string, value: string)
      requires Linked()
      modifies this, nodes
      ensures Linked() && Contents() == Put(old(Contents()), k, value)
      ensures forall n :: n in nodes ==> n in old(nodes) || fresh(n)
    {
      var prev, cur;
      ghost var at;
      prev, cur, at := Seek(k);
      if cur != null {
        Update(cur, at, value);
      } else {
        Append(prev, k, value);
      }
    }

    method Update(cur: Node, ghost at: nat, value: string)
      requires Linked() && at < |nodes| && cur == nodes[at]
      modifies cur`value
      ensures Linked() && Contents() == old(Contents())[at := Entry(cur.key, value)]
    {
      ghost var c := Contents();
      cur.value := value;
      forall i | 0 <= i < |nodes| ensures Contents()[i] == c[at := Entry(cur.key, value)][i] {
        assert OnNode(i) && OnNode(at);
      }
    }

    method Drop(k: string)
      requires Linked()
      modifies this, nodes
      ensures Linked() && Contents() == Remove(old(Contents()), k) && (forall n :: n in nodes ==> n in old(nodes))
    {
      var prev, cur;
      ghost var at;
      prev, cur, at := Seek(k);
      if cur != null {
        Unlink(prev, cur, at);
      }
    }

    /** cfg_delete. */
    method Delete(key: string)
      requires Valid()
      modifies this, nodes
      ensures Valid() && (forall n :: n in nodes ==> n in old(nodes))
      ensures Contents() == Without(old(Contents()), key)
    {
      var tkey := NormalizeKey(key);
      match tkey {
        case None =>
        case Some(k) =>
          RemoveOk(Contents(), k);
          Drop(k);
      }
    }

    /** One turn of the loop of cfg_prune, at the node with index k. */
    method Visit(prev: Node?, cur: Node, ghost k: nat, keys: seq<string>) returns (prev': Node?, cur': Node?, ghost k': nat)
      requires Linked() && k < |nodes| && cur == nodes[k] && prev == NextOf(nodes, k - 2)
      modifies this, nodes
      ensures Linked() && k' <= |nodes| && cur' == NextOf(nodes, k' - 1) && prev' == NextOf(nodes, k' - 2)
      ensures |nodes| - k' == |old(nodes)| - k - 1 && (forall i :: 0 <= i < |nodes| ==> nodes[i] in old(nodes))
      ensures Contents()[..k'] + Kept(Contents()[k'..], keys) == old(Contents())[..k] + Kept(old(Contents())[k..], keys)
    {
      assert OnNode(k);
      ghost var c := Contents();
      KeptStep(c, k, keys);
      if cur.key !in keys {
        prev', cur', k' := prev, cur.next, k;
        Unlink(prev, cur, k);
        assert Contents()[..k] == c[..k] && Contents()[k..] == c[k + 1..];
      } else {
        prev', cur', k' := cur, cur.next, k + 1;
      }
    }

    /** The loop of cfg_prune. */
    method PruneTo(keys: seq<string>)
      requires Linked()
      modifies this, nodes
      ensures Linked() && Contents() == Kept(old(Contents()), keys) && (forall n :: n in nodes ==> n in old(nodes))
    {
      var prev: Node?, cur := null, head;
      ghost var k: nat := 0;
      assert Contents()[..0] == [] && Contents()[0..] == Contents();
      while cur != null
        invariant Linked() && k <= |nodes| && cur == NextOf(nodes, k - 1) && prev == NextOf(nodes, k - 2)
        invariant forall i :: 0 <= i < |nodes| ==> nodes[i] in old(nodes)
        invariant Contents()[..k] + Kept(Contents()[k..], keys) == Kept(old(Contents()), keys)
        decreases |nodes| - k
      {
        prev, cur, k := Visit(prev, cur, k, keys);
      }
      assert Contents()[..k] == Contents() && Contents()[k..] == [];
    }

    /** cfg_prune: nothing happens when no key names anything. */
    method Prune(keys: seq<string>)
      requires Valid()
      modifies this, nodes
      ensures Valid() && (forall n :: n in nodes ==> n in old(nodes))
      ensures Contents() == if NormKeys(keys) == [] then old(Contents()) else Kept(old(Contents()), NormKeys(keys))
    {
      var tkeys := NormAll(keys);
      if tkeys != [] {
        KeptOk(Contents(), tkeys);
        PruneTo(tkeys);
      }
    }

    static method NormAll(keys: seq<string>) returns (tkeys: seq<string>)
      ensures tkeys == NormKeys(keys)
    {
      tkeys := [];
      for i := 0 to |keys|
        invariant tkeys + NormKeys(keys[i..]) == NormKeys(keys)
      {
        NormStep(tkeys, keys, i);
        var k := NormalizeKey(keys[i]);
        if k.Some? {
          tkeys := tkeys + [k.value];
        }
      }
      assert keys[|keys|..] == [];
    }

    /** One chunk of cfg_load. */
    method LoadChunk(line: string)
      requires Valid()
      modifies this, nodes
      ensures Valid() && (forall i :: 0 <= i < |nodes| ==> nodes[i] in old(nodes) || fresh(nodes[i]))
      ensures Contents() == LoadLine(old(Contents()), line)
    {
      var s := Before(Before(line, NUL), '#');
      var k := Find(s, '=');
      if k < |s| {
        Set(s[..k], Some(s[k + 1..]));
      }
    }

    /** cfg_load, from the text of the file. */
    method Load(text: string)
      requires Valid()
      modifies this, nodes
      ensures Valid() && Contents() == LoadText(old(Contents()), text)
    {
      var t := text;
      while t != []
        invariant Valid() && (forall i :: 0 <= i < |nodes| ==> nodes[i] in old(nodes) || fresh(nodes[i]))
        invariant LoadText(Contents(), t) == LoadText(old(Contents()), text)
        decreases |t|
      {
        var n := Chunk(t);
        LoadChunk(t[..n]);
        t := t[n..];
      }
    }

    /** cfg_save: the text it writes. */
    method Save() returns (text: string)
      requires Linked()
      ensures text == SaveText(Contents())
    {
      text := "";
      var cur := head;
      ghost var k: nat := 0;
      assert Contents()[0..] == Contents();
      while cur != null
        invariant k <= |nodes| && cur == NextOf(nodes, k - 1)
        invariant text + SaveText(Contents()[k..]) == SaveText(Contents())
        decreases |nodes| - k
      {
        assert OnNode(k);
        SaveStep(text, Contents(), k);
        text := text + (cur.key + "=" + cur.value + "\n");
        cur := cur.next;
        k := k + 1;
      }
      assert Contents()[k..] == [];
    }
  }
}

/** The front end's index of open paths: a table per directory that stands for one map from paths to entries. */
module PathIndex {
  import opened Bytes
  import opened Paths
  import opened Tables

  datatype Stat = Stat(isDir: bool, size: nat)
  datatype Item = Item(fd: int, stat: Stat, aux: int)

  class Index {
    var dirs: Dirs<Item>
    /** The flat map the tables stand for. */
    ghost var flat: map<string, Item>

    ghost predicate Valid()
      reads this
    {
      Mirrors(dirs, flat, Up())
    }

    ghost predicate Tidy()
      reads this
    {
      InParent(dirs, Up())
    }

    constructor ()
      ensures Valid() && Tidy() && flat == map[]
    {
      dirs, flat := map[ROOT := map[]], map[];
    }

    /** HierarchicalMapPut: adds an entry unless the path has one. */
    method Put(k: string, item: Item)
      requires Valid() && |k| >= ROOT_LEN
      modifies this
      ensures Valid() && (old(Tidy()) ==> Tidy())
      ensures flat == if k in old(flat) then old(flat) else old(flat)[k := item]
    {
      var off, parent := FindLastParentDir(k);
      var table := if parent in dirs then dirs[parent] else map[];
      PutKeeps(dirs, flat, Up(), k, item, table);
      if k in table {
        dirs := dirs[parent := table];
      } else {
        dirs := dirs[parent := table[k := item]];
        flat := flat[k := item];
      }
      if item.stat.isDir && k !in dirs {
        NewTableKeeps(dirs, flat, Up(), k);
        dirs := dirs[k := map[]];
      }
    }

    /** HierarchicalMapSearch. */
    method Search(k: string) returns (r: Option<Item>)
      requires Valid() && |k| >= ROOT_LEN
      ensures r == if k in flat then Some(flat[k]) else None
    {
      var off, parent := FindLastParentDir(k);
      assert OnPath(k);
      if parent in dirs && k in dirs[parent] {
        return Some(dirs[parent][k]);
      }
      return None;
    }

    /** HierarchicalMapUpdate: a new stat for a path that has an entry. */
    method Update(k: string, stat: Stat)
      requires Valid() && |k| >= ROOT_LEN && (Parent(k) in dirs ==> k in flat)
      modifies this
      ensures Valid() && (old(Tidy()) ==> Tidy())
      ensures flat == if k in old(flat) then old(flat)[k := old(flat)[k].(stat := stat)] else old(flat)
    {
      var off, parent := FindLastParentDir(k);
      assert OnPath(k);
      if parent in dirs {
        var item := dirs[parent][k].(stat := stat);
        PutKeeps(dirs, flat, Up(), k, item, dirs[parent]);
        dirs := dirs[parent := dirs[parent][k := item]];
        flat := flat[k := item];
      }
    }

    /** HierarchicalMapErase. */
    method Erase(k: string)
      requires Valid() && |k| >= ROOT_LEN
      modifies this
      ensures Valid() && (old(Tidy()) ==> Tidy()) && flat == old(flat) - {k}
    {
      var off, parent := FindLastParentDir(k);
      EraseKeeps(dirs, flat, Up(), k);
      if parent in dirs {
        dirs := dirs[parent := dirs[parent] - {k}];
      }
      flat := flat - {k};
    }

    /** HierarchicalMapRename of a path that has an entry. The entry is found under its new name if and only if that
        name is in the same directory and was not taken by another; otherwise it is lost. Nothing else changes. Only a
        new name in the same directory leaves every path in its parent's table. */
    method Rename(name: string, newName: string) returns (ok: bool)
      requires Valid() && |name| >= ROOT_LEN && |newName| >= ROOT_LEN && name in flat
      modifies this
      ensures Valid() && ok
      ensures flat == if Parent(newName) == Parent(name) && (newName !in old(flat) || newName == name)
                      then (old(flat) - {name})[newName := old(flat)[name]] else old(flat) - {name}
      ensures old(Tidy()) ==> (Tidy() <==> Parent(newName) == Parent(name))
    {
      var off, parent := FindLastParentDir(name);
      assert OnPath(name) && OnPath(newName);
      var node := dirs[parent][name];
      EraseKeeps(dirs, flat, Up(), name);
      dirs := dirs[parent := dirs[parent] - {name}];
      flat := flat - {name};
      if newName !in dirs[parent] {
        InsertKeeps(dirs, flat, Up(), parent, newName, node);
        dirs := dirs[parent := dirs[parent][newName := node]];
        flat := if Parent(newName) == parent then flat[newName := node] else flat;
      } else {
        assert OnPath(parent) && Has(old(dirs), parent, newName);
      }
      ok := true;
    }
  }

  datatype Op =
    | PutOp(k: string, item: Item) | UpdateOp(k: string, stat: Stat) | EraseOp(k: string) | RenameOp(k: string, to: string)

  /** What the operations mean on a flat map. */
  function Apply(m: map<string, Item>, op: Op): map<string, Item>
  {
    match op
    case PutOp(k, item) => if k in m then m else m[k := item]
    case UpdateOp(k, stat) => if k in m then m[k := m[k].(stat := stat)] else m
    case EraseOp(k) => m - {k}
    case RenameOp(k, to) => if k in m then (m - {k})[to := m[k]] else m
  }

  /** The operations promised to work: updates and renames of entries that exist, renames to a free name in the same
      directory. */
  ghost predicate Allowed(m: map<string, Item>, op: Op)
  {
    && |op.k| >= ROOT_LEN
    && (op.UpdateOp? || op.RenameOp? ==> op.k in m)
    && (op.RenameOp? ==> |op.to| >= ROOT_LEN && Parent(op.to) == Parent(op.k) && (op.to !in m || op.to == op.k))
  }

  ghost predicate AllAllowed(m: map<string, Item>, ops: seq<Op>)
    decreases |ops|
  {
    ops == [] || (Allowed(m, ops[0]) && AllAllowed(Apply(m, ops[0]), ops[1..]))
  }

  function ApplyAll(m: map<string, Item>, ops: seq<Op>): map<string, Item>
    decreases |ops|
  {
    if ops == [] then m else ApplyAll(Apply(m, ops[0]), ops[1..])
  }

  /** Any sequence of allowed operations leaves the tables standing for the flat map. */
  method RunAll(x: Index, ops: seq<Op>)
    requires x.Valid() && x.Tidy() && AllAllowed(x.flat, ops)
    modifies x
    ensures x.Valid() && x.Tidy() && x.flat == ApplyAll(old(x.flat), ops)
    decreases |ops|
  {
    if ops == [] {
      return;
    }
    ghost var before := x.flat;
    match ops[0] {
      case PutOp(k, item) => x.Put(k, item);
      case UpdateOp(k, stat) => x.Update(k, stat);
      case EraseOp(k) => x.Erase(k);
      case RenameOp(k, to) => var ok := x.Rename(k, to);
    }
    RunAll(x, ops[1..]);
  }
}

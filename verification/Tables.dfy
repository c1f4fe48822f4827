/** Entries kept in one table per directory, looked up as if there were one map. */
module Tables {
  import opened Paths

  /** A table of entries for each directory. */
  type Dirs<T> = map<string, map<string, T>>

  // Marker: the facts below speak of a path only where a proof names it.
  predicate OnPath(k: string) { true }

  /** The table of directory d has an entry for k. */
  predicate Has<T>(dirs: Dirs<T>, d: string, k: string) { d in dirs && k in dirs[d] }

  /** Looking a path up in the table of its parent, as `up` gives it, is looking it up in the flat map. */
  ghost predicate Mirrors<T>(dirs: Dirs<T>, flat: map<string, T>, up: string -> string)
  {
    forall k {:trigger OnPath(k)} :: OnPath(k) ==>
      (k in flat <==> Has(dirs, up(k), k)) && (k in flat && Has(dirs, up(k), k) ==> dirs[up(k)][k] == flat[k])
  }

  /** Every path is in the table of its parent directory. */
  ghost predicate InParent<T>(dirs: Dirs<T>, up: string -> string)
  {
    forall d, k {:trigger OnPath(d), OnPath(k)} :: OnPath(d) && OnPath(k) && Has(dirs, d, k) ==> up(k) == d
  }

  lemma PutKeeps<T>(dirs: Dirs<T>, flat: map<string, T>, up: string -> string, k: string, item: T, table: map<string, T>)
    requires Mirrors(dirs, flat, up) && table == if up(k) in dirs then dirs[up(k)] else map[]
    ensures Mirrors(dirs[up(k) := table[k := item]], flat[k := item], up)
    ensures Mirrors(dirs[up(k) := table], flat, up)
    ensures InParent(dirs, up) ==> InParent(dirs[up(k) := table[k := item]], up) && InParent(dirs[up(k) := table], up)
    ensures k in flat <==> k in table
  {
    assert OnPath(k);
  }

  lemma NewTableKeeps<T>(dirs: Dirs<T>, flat: map<string, T>, up: string -> string, k: string)
    requires Mirrors(dirs, flat, up) && k !in dirs
    ensures Mirrors(dirs[k := map[]], flat, up)
    ensures InParent(dirs, up) ==> InParent(dirs[k := map[]], up)
  {
  }

  lemma EraseKeeps<T>(dirs: Dirs<T>, flat: map<string, T>, up: string -> string, k: string)
    requires Mirrors(dirs, flat, up)
    ensures up(k) in dirs ==> Mirrors(dirs[up(k) := dirs[up(k)] - {k}], flat - {k}, up)
    ensures up(k) !in dirs ==> Mirrors(dirs, flat - {k}, up) && k !in flat
    ensures InParent(dirs, up) && up(k) in dirs ==> InParent(dirs[up(k) := dirs[up(k)] - {k}], up)
  {
    assert OnPath(k);
  }

  /** An entry put back under another name is found there exactly when that name belongs to the same table. */
  lemma InsertKeeps<T>(dirs: Dirs<T>, flat: map<string, T>, up: string -> string, d: string, k: string, item: T)
    requires Mirrors(dirs, flat, up) && d in dirs && k !in dirs[d]
    ensures Mirrors(dirs[d := dirs[d][k := item]], if up(k) == d then flat[k := item] else flat, up)
    ensures InParent(dirs, up) ==> (InParent(dirs[d := dirs[d][k := item]], up) <==> up(k) == d)
  {
    var dirs' := dirs[d := dirs[d][k := item]];
    assert OnPath(d) && OnPath(k);
    assert Has(dirs', d, k);
  }

  /** Parent directories, for everything long enough to have one. */
  function Up(): string -> string
  {
    (k: string) => if |k| >= ROOT_LEN then Parent(k) else k
  }
}

/** The client's pool of dataset descriptions, and renaming of files in it. */
module DatasetPool {
  import opened Intervals
  import opened Paths
  import opened Placement
  import opened Store
  import opened Tables

  /** What a client knows about a dataset. Only its uri changes in a rename; blocks are placed by the original name. */
  class DatasetInfo {
    var uri: string
    const originalName: string
    const isDir: bool
    const policy: Policy
    var intervals: seq<Interval>

    constructor (uri: string, isDir: bool, policy: Policy)
      ensures this.uri == uri == originalName && this.isDir == isDir && this.policy == policy && intervals == []
    {
      this.uri, this.originalName, this.isDir, this.policy, intervals := uri, uri, isDir, policy, [];
    }

    /** The server block b is looked up on when the deployment has n servers. */
    function ServerOf(n: nat, b: nat): nat
      reads this`intervals
    {
      var m := CountFor(intervals, n, b);
      if m > 0 then FindServer(policy, m, b, originalName) else 0
    }
  }

  /** It is the server on which the striped file looks the block up, under the name the file was created with. */
  lemma ServedWhereWritten(file: DatasetInfo, n: nat, b: nat)
    requires n > 0
    ensures file.ServerOf(n, b)
         == WhereIs((m: nat, c: nat) => if m > 0 then FindServer(file.policy, m, c, file.originalName) else 0, file.intervals, n, b)
  {
  }

  /** What is left of the flat map when directory d gets a new, empty table. */
  ghost function WithoutChildren<T>(flat: map<string, T>, d: string, up: string -> string): map<string, T>
  {
    map k | k in flat && up(k) != d :: flat[k]
  }

  lemma EmptyTableKeeps<T>(dirs: Dirs<T>, flat: map<string, T>, up: string -> string, d: string)
    requires Mirrors(dirs, flat, up)
    ensures Mirrors(dirs[d := map[]], WithoutChildren(flat, d, up), up)
    ensures InParent(dirs, up) ==> InParent(dirs[d := map[]], up)
  {
  }

  class Pool {
    var dirs: Dirs<DatasetInfo>
    /** The flat map the tables stand for. */
    ghost var flat: map<string, DatasetInfo>

    ghost predicate Valid()
      reads this
    {
      Mirrors(dirs, flat, Up()) && InParent(dirs, Up())
    }

    constructor ()
      ensures Valid() && flat == map[]
    {
      dirs, flat := map[ROOT := map[]], map[];
    }

    /** find_dataset_by_uri_hash_pool. */
    method Find(uri: string) returns (code: int, info: DatasetInfo?)
      requires Valid() && |uri| >= ROOT_LEN
      ensures code == 1 <==> uri in flat
      ensures info == if uri in flat then flat[uri] else null
      ensures code == -1 <==> Parent(uri) !in dirs
    {
      var off, parent := FindLastParentDir(uri);
      assert OnPath(uri);
      if parent !in dirs {
        return -1, null;
      }
      if uri in dirs[parent] {
        return 1, dirs[parent][uri];
      }
      return 0, null;
    }

    /** add_dataset_entry_in_pool. An entry with the same uri is replaced. A directory starts with an empty table, so
        everything the pool had below it is forgotten. */
    method Add(uri: string, info: DatasetInfo)
      requires Valid() && |uri| >= ROOT_LEN
      modifies this
      ensures Valid()
      ensures flat == if info.isDir then WithoutChildren(old(flat)[uri := info], uri, Up()) else old(flat)[uri := info]
    {
      var off, parent := FindLastParentDir(uri);
      var table: map<string, DatasetInfo> := if parent in dirs then dirs[parent] else map[];
      PutKeeps(dirs, flat, Up(), uri, info, table);
      dirs := dirs[parent := table[uri := info]];
      flat := flat[uri := info];
      if info.isDir {
        EmptyTableKeeps(dirs, flat, Up(), uri);
        dirs := dirs[uri := map[]];
        flat := WithoutChildren(flat, uri, Up());
      }
    }

    /** release_dataset. */
    method Release(uri: string) returns (ret: int)
      requires Valid() && |uri| >= ROOT_LEN
      modifies this
      ensures Valid() && flat == old(flat) - {uri}
      ensures ret == if Parent(uri) in old(dirs) then 0 else -1
    {
      var off, parent := FindLastParentDir(uri);
      EraseKeeps(dirs, flat, Up(), uri);
      flat := flat - {uri};
      if parent !in dirs {
        return -1;
      }
      dirs := dirs[parent := dirs[parent] - {uri}];
      return 0;
    }

    /** replace_uri_base_path_regular_file: the record `file` moves to its new uri, in whatever directory that is. */
    method Rename(uri: string, newUri: string, ghost file: DatasetInfo) returns (ok: bool)
      requires Valid() && |uri| >= ROOT_LEN && |newUri| >= ROOT_LEN && (uri in flat ==> flat[uri] == file && !file.isDir)
      modifies this, file`uri
      ensures Valid() && ok == (uri in old(flat))
      ensures flat == if ok then (old(flat) - {uri})[newUri := file] else old(flat)
      ensures file.uri == if ok then newUri else old(file.uri)
    {
      var code, info := Find(uri);
      if info == null {
        return false;
      }
      info.uri := newUri;
      var off, parent := FindLastParentDir(uri);
      EraseKeeps(dirs, flat, Up(), uri);
      dirs := dirs[parent := dirs[parent] - {uri}];
      flat := flat - {uri};
      Add(newUri, info);
      return true;
    }
  }

  /** Renaming a file any number of times, also across directories: its record is found under the last name, and
      every block is still looked up on the same server. */
  method RenameAll(pool: Pool, file: DatasetInfo, uri: string, names: seq<string>) returns (last: string)
    requires pool.Valid() && uri in pool.flat && pool.flat[uri] == file && !file.isDir
    requires |uri| >= ROOT_LEN && forall i :: 0 <= i < |names| ==> |names[i]| >= ROOT_LEN
    modifies pool, file`uri
    ensures pool.Valid() && last == (if names == [] then uri else names[|names| - 1])
    ensures last in pool.flat && pool.flat[last] == file && (names != [] ==> file.uri == last)
    ensures forall n: nat, b: nat :: file.ServerOf(n, b) == old(file.ServerOf(n, b))
    ensures forall k :: k in old(pool.flat) && k != uri && k !in names ==> k in pool.flat && pool.flat[k] == old(pool.flat)[k]
  {
    last := uri;
    for i := 0 to |names|
      invariant pool.Valid() && last in pool.flat && pool.flat[last] == file && |last| >= ROOT_LEN
      invariant last == if i == 0 then uri else names[i - 1]
      invariant i > 0 ==> file.uri == last
      invariant forall k :: k in old(pool.flat) && k != uri && k !in names ==> k in pool.flat && pool.flat[k] == old(pool.flat)[k]
    {
      var ok := pool.Rename(last, names[i], file);
      last := names[i];
    }
  }
}

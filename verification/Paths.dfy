/** Where a path's parent directories end, and which metadata server looks after it. */
module Paths {
  import opened Placement

  const ROOT := "imss://"
  const ROOT_LEN := 7

  ghost predicate IsUri(u: string) { |u| >= ROOT_LEN && u[..ROOT_LEN] == ROOT }

  /** The first '/' at or after j, or the length. */
  function SlashFrom(u: string, j: nat): (k: nat)
    requires j <= |u|
    ensures j <= k <= |u| && (k < |u| ==> u[k] == '/') && forall i :: j <= i < k ==> u[i] != '/'
    decreases |u| - j
  {
    if j == |u| || u[j] == '/' then j else SlashFrom(u, j + 1)
  }

  /** The last '/' in u[lo..hi], or -1. */
  function SlashBefore(u: string, lo: nat, hi: nat): (k: int)
    requires lo <= hi <= |u|
    ensures k == -1 || (lo <= k < hi && u[k] == '/')
    ensures forall i :: lo <= i < hi && k < i ==> u[i] != '/'
  {
    if lo == hi then -1 else if u[hi - 1] == '/' then hi - 1 else SlashBefore(u, lo, hi - 1)
  }

  /** The top-level directory or file that a path is in. */
  function First(u: string): string
    requires |u| >= ROOT_LEN
  {
    u[..SlashFrom(u, ROOT_LEN)]
  }

  /** The end of a path without its trailing '/'. */
  function End(u: string): (e: nat)
    requires |u| >= ROOT_LEN
    ensures ROOT_LEN <= e <= |u|
  {
    if |u| > ROOT_LEN && u[|u| - 1] == '/' then |u| - 1 else |u|
  }

  function LastSlash(u: string): int
    requires |u| >= ROOT_LEN
  {
    SlashBefore(u, ROOT_LEN, End(u))
  }

  /** The directory a path is in; the root for top-level entries. */
  function Parent(u: string): (p: string)
    requires |u| >= ROOT_LEN
    ensures |p| >= ROOT_LEN
  {
    if LastSlash(u) == -1 then ROOT else u[..LastSlash(u)]
  }

  method FindFirstParentDir(u: string) returns (offset: nat, dir: string)
    requires |u| >= ROOT_LEN
    ensures dir == First(u) && offset == if SlashFrom(u, ROOT_LEN) < |u| then |dir| else 0
  {
    offset := 0;
    for j := ROOT_LEN to |u|
      invariant offset == 0 && SlashFrom(u, ROOT_LEN) == SlashFrom(u, j)
    {
      if u[j] == '/' {
        offset := j;
        break;
      }
    }
    dir := if offset > 0 then u[..offset] else u;
  }

  method FindLastParentDir(u: string) returns (offset: nat, dir: string)
    requires |u| >= ROOT_LEN
    ensures dir == Parent(u) && offset == if LastSlash(u) == -1 then 0 else |dir|
  {
    var len: nat := |u| - ROOT_LEN;
    if len > 0 && u[ROOT_LEN + len - 1] == '/' {
      len := len - 1;
    }
    var j: nat := len;
    while j > 0
      invariant j <= len && SlashBefore(u, ROOT_LEN, ROOT_LEN + j) == LastSlash(u)
    {
      if u[ROOT_LEN + j - 1] == '/' {
        break;
      }
      j := j - 1;
    }
    if j > 0 {
      offset := ROOT_LEN + j - 1;
      dir := u[..offset];
    } else {
      offset := 0;
      dir := ROOT;
    }
  }

  /** The metadata server of a path. */
  function MetaServer(policy: Policy, n: nat, u: string): nat
    requires n > 0 && |u| >= ROOT_LEN
  {
    FindServer(policy, n, 0, First(u))
  }

  /** How the code finds it: the server of block 0 of the top-level directory. */
  method FindMetaServer(policy: Policy, n: nat, u: string) returns (s: nat)
    requires n > 0 && |u| >= ROOT_LEN
    ensures s == MetaServer(policy, n, u) && s < n
  {
    var _, dir := FindFirstParentDir(u);
    s := FindServerBy(policy, n, 0, dir);
  }

  lemma SlashFromIs(u: string, j: nat, k: nat)
    requires j <= k <= |u| && (k < |u| ==> u[k] == '/') && forall i :: j <= i < k ==> u[i] != '/'
    ensures SlashFrom(u, j) == k
  {
  }

  /** One trailing '/' makes no difference to a path's end. */
  lemma EndOf(front: string, name: string, trail: string)
    requires |front| >= ROOT_LEN && name != [] && '/' !in name && (trail == "" || trail == "/")
    ensures End(front + name + trail) == |front| + |name|
  {
    var u := front + name + trail;
    assert trail == "" ==> u[|u| - 1] == name[|name| - 1];
  }

  /** The parent of an entry `name` in directory `dir` is `dir`: nothing between it and the end is a '/', a trailing one aside. */
  lemma ParentOf(dir: string, name: string, trail: string)
    requires |dir| >= ROOT_LEN && name != [] && '/' !in name && (trail == "" || trail == "/")
    ensures Parent(dir + "/" + name + trail) == dir && LastSlash(dir + "/" + name + trail) == |dir|
  {
    var u := dir + "/" + name + trail;
    EndOf(dir + "/", name, trail);
    assert u[|dir|] == '/' && forall i :: |dir| < i < |dir| + 1 + |name| ==> u[i] == name[i - |dir| - 1];
    assert u[..|dir|] == dir;
  }

  /** The parent of a top-level entry is the root. */
  lemma TopParent(root: string, name: string, trail: string)
    requires |root| == ROOT_LEN && name != [] && '/' !in name && (trail == "" || trail == "/")
    ensures Parent(root + name + trail) == ROOT && LastSlash(root + name + trail) == -1
  {
    var u := root + name + trail;
    EndOf(root, name, trail);
    assert forall i :: ROOT_LEN <= i < ROOT_LEN + |name| ==> u[i] == name[i - ROOT_LEN];
  }

  /** A parent that is not just the root is in the same top-level directory. */
  lemma ParentKeepsFirst(u: string)
    requires |u| >= ROOT_LEN && LastSlash(u) != -1
    ensures First(Parent(u)) == First(u)
  {
    var l, f := LastSlash(u), SlashFrom(u, ROOT_LEN);
    SlashFromIs(Parent(u), ROOT_LEN, f);
  }

  /** Every step up makes a path shorter, until the root is reached. */
  lemma ParentShorter(u: string)
    requires IsUri(u) && u != ROOT
    ensures IsUri(Parent(u)) && |Parent(u)| < |u|
  {
    assert u[..|u|] == u;
    if LastSlash(u) != -1 {
      assert Parent(u)[..ROOT_LEN] == u[..ROOT_LEN];
    }
  }

  /** The path and all directories above it, up to the root. */
  ghost function Chain(u: string): (c: seq<string>)
    requires IsUri(u)
    ensures c != [] && c[0] == u && c[|c| - 1] == ROOT
    decreases |u|
  {
    if u == ROOT then [u] else ParentShorter(u); [u] + Chain(Parent(u))
  }

  lemma ChainStep(u: string, i: nat) returns (p: string)
    requires IsUri(u) && 0 < i < |Chain(u)|
    ensures p == Parent(u) && IsUri(p) && |p| < |u| && i - 1 < |Chain(p)| && Chain(u)[i] == Chain(p)[i - 1]
  {
    p := Parent(u);
    ParentShorter(u);
  }

  lemma ChainRoot(u: string, i: nat)
    requires u == ROOT && IsUri(u) && i < |Chain(u)|
    ensures Chain(u)[i] == ROOT
  {
  }

  lemma {:induction false} ChainFirst(u: string, i: nat)
    requires IsUri(u) && i < |Chain(u)| && Chain(u)[i] != ROOT
    ensures |Chain(u)[i]| >= ROOT_LEN && First(Chain(u)[i]) == First(u)
    decreases |u|
  {
    if i > 0 {
      var p := ChainStep(u, i);
      if p != ROOT {
        ChainFirst(p, i - 1);
        ParentKeepsFirst(u);
      } else {
        ChainRoot(p, i - 1);
      }
    }
  }

  /** A whole top-level subtree is on one metadata server: all directories above a path, except the root. */
  lemma ChainOnOneServer(policy: Policy, n: nat, u: string, i: nat)
    requires n > 0 && IsUri(u) && i < |Chain(u)| && Chain(u)[i] != ROOT
    ensures |Chain(u)[i]| >= ROOT_LEN && MetaServer(policy, n, Chain(u)[i]) == MetaServer(policy, n, u)
  {
    ChainFirst(u, i);
  }
}

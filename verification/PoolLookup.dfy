// Which storage pool a path belongs to: the pool with the longest matching directory.
module PoolLookup {
  import opened Common
  import opened Strings
  import opened Pieces
  import opened Paths

  datatype Pool = Pool(name: string, path: string)

  /** cleanPoolPath */
  function CleanPool(path: string): string {
    if Blank(path) then "" else Clean(path)
  }

  /** pathHasPoolPrefix */
  predicate HasPoolPrefix(path: string, pool: string) {
    path == pool || (pool <= path && |path| > |pool| && (path[|pool|] == '/' || path[|pool|] == '\\'))
  }

  /** The pool's directory is there and contains the cleaned path. */
  predicate Matches(path: string, p: Pool) {
    CleanPool(p.path) != "" && HasPoolPrefix(path, CleanPool(p.path))
  }

  function Length(p: Pool): nat { |CleanPool(p.path)| }

  /** The first pool among those with the longest matching directory. */
  function Best(path: string, pools: seq<Pool>): Option<Pool> {
    if pools == [] then None
    else
      var p := pools[|pools| - 1];
      var before := Best(path, pools[..|pools| - 1]);
      if Matches(path, p) && (before.None? || Length(p) > Length(before.value)) then Some(p) else before
  }

  /** The directory of the pool of a path; empty if there is none. */
  function PoolTarget(path: string, pools: seq<Pool>): string {
    if CleanPool(path) == "" then ""
    else match Best(CleanPool(path), pools) case None => "" case Some(p) => p.path
  }

  /** The name of the pool of a path; empty if there is none. */
  function PoolName(path: string, pools: seq<Pool>): string {
    if CleanPool(path) == "" then ""
    else match Best(CleanPool(path), pools) case None => "" case Some(p) => p.name
  }

  /** storagePoolTargetForPath; a pool with empty fields stands for no match. */
  method PoolTargetForPath(path: string, pools: seq<Pool>) returns (best: Pool)
    ensures CleanPool(path) == "" ==> best == Pool("", "")
    ensures CleanPool(path) != "" ==>
              best == match Best(CleanPool(path), pools) case None => Pool("", "") case Some(p) => p
  {
    hide CleanPool, HasPoolPrefix;
    best := Pool("", "");
    var clean := CleanPool(path);
    if clean == "" {
      return;
    }
    var bestLength := 0;
    for i := 0 to |pools|
      invariant match Best(clean, pools[..i]) case None => best == Pool("", "")
                  && bestLength == 0 case Some(p) => best == p && bestLength == Length(p) > 0
    {
      assert pools[..i + 1][..i] == pools[..i];
      var poolPath := CleanPool(pools[i].path);
      if poolPath == "" || !HasPoolPrefix(clean, poolPath) {
        continue;
      }
      if |poolPath| > bestLength {
        best := pools[i];
        bestLength := |poolPath|;
      }
    }
    assert pools[..|pools|] == pools;
  }

  /** storagePoolNameForPath */
  method PoolNameForPath(path: string, pools: seq<Pool>) returns (bestName: string)
    ensures bestName == PoolName(path, pools)
  {
    hide CleanPool, HasPoolPrefix;
    bestName := "";
    var clean := CleanPool(path);
    if clean == "" {
      return;
    }
    var bestLength := 0;
    for i := 0 to |pools|
      invariant match Best(clean, pools[..i]) case None => bestName == ""
                  && bestLength == 0 case Some(p) => bestName == p.name && bestLength == Length(p) > 0
    {
      assert pools[..i + 1][..i] == pools[..i];
      var poolPath := CleanPool(pools[i].path);
      if poolPath == "" || !HasPoolPrefix(clean, poolPath) {
        continue;
      }
      if |poolPath| > bestLength {
        bestName := pools[i].name;
        bestLength := |poolPath|;
      }
    }
    assert pools[..|pools|] == pools;
  }

  /** The pool has a directory, and the path is it or continues behind it with a slash or a backslash. */
  predicate Within(path: string, p: Pool) {
    var dir := CleanPool(p.path);
    dir != "" && (path == dir || dir + "/" <= path || dir + "\\" <= path)
  }

  lemma MatchIsWithin(path: string, p: Pool)
    ensures Matches(path, p) <==> Within(path, p)
  {
    hide CleanPool;
    var dir := CleanPool(p.path);
    if HasPoolPrefix(path, dir) && path != dir {
      assert path[..|dir| + 1] == dir + [path[|dir|]];
    }
    if dir + "/" <= path {
      assert path[|dir|] == (dir + "/")[|dir|];
    }
    if dir + "\\" <= path {
      assert path[|dir|] == (dir + "\\")[|dir|];
    }
  }

  /** The answer is the pool that the path is within whose directory is longest, the first of equals; without an answer
      the path is within none. */
  lemma BestIsFirstLongest(path: string, pools: seq<Pool>) returns (i: nat)
    ensures Best(path, pools).None? ==> forall q :: q in pools ==> !Within(path, q)
    ensures Best(path, pools).Some? ==>
              && i < |pools| && Best(path, pools).value == pools[i] && Within(path, pools[i])
              && forall j :: 0 <= j < |pools| && Within(path, pools[j]) ==>
                   |CleanPool(pools[j].path)| <= |CleanPool(pools[i].path)|
                   && (j < i ==> |CleanPool(pools[j].path)| < |CleanPool(pools[i].path)|)
  {
    hide Within, Matches, CleanPool;
    forall q ensures Matches(path, q) <==> Within(path, q) {
      MatchIsWithin(path, q);
    }
    BestIsLongest(path, pools);
    i := 0;
    if Best(path, pools).Some? {
      i := BestAt(path, pools);
    }
  }

  lemma {:induction false} BestAt(path: string, pools: seq<Pool>) returns (i: nat)
    requires Best(path, pools).Some?
    ensures i < |pools| && pools[i] == Best(path, pools).value
    ensures forall j :: 0 <= j < i && Matches(path, pools[j]) ==> Length(pools[j]) < Length(pools[i])
  {
    hide Matches, Length;
    var n := |pools| - 1;
    var before := Best(path, pools[..n]);
    if Matches(path, pools[n]) && (before.None? || Length(pools[n]) > Length(before.value)) {
      i := n;
      BestIsLongest(path, pools[..n]);
      forall j | 0 <= j < n && Matches(path, pools[j]) ensures Length(pools[j]) < Length(pools[n]) {
        assert pools[j] in pools[..n];
      }
    } else {
      i := BestAt(path, pools[..n]);
      assert forall j :: 0 <= j < n ==> pools[..n][j] == pools[j];
    }
  }

  lemma {:induction false} BestIsLongest(path: string, pools: seq<Pool>)
    ensures Best(path, pools).None? ==> forall q :: q in pools ==> !Matches(path, q)
    ensures Best(path, pools).Some? ==>
              && Best(path, pools).value in pools && Matches(path, Best(path, pools).value)
              && forall q :: q in pools && Matches(path, q) ==> Length(q) <= Length(Best(path, pools).value)
  {
    hide Matches, Length;
    if pools != [] {
      BestIsLongest(path, pools[..|pools| - 1]);
      assert pools == pools[..|pools| - 1] + [pools[|pools| - 1]];
    }
  }

  /** Two matching directories of the same length are the same directory. */
  lemma SameLengthSamePath(path: string, p: Pool, q: Pool)
    requires Matches(path, p) && Matches(path, q) && Length(p) == Length(q)
    ensures CleanPool(p.path) == CleanPool(q.path)
  {
    hide CleanPool;
    assert CleanPool(p.path) == path[..Length(p)] && CleanPool(q.path) == path[..Length(q)];
  }

  ghost predicate DistinctPaths(pools: seq<Pool>) {
    forall p, q :: p in pools && q in pools && CleanPool(p.path) == CleanPool(q.path) ==> p == q
  }

  /** With distinct directories the order of the pools does not matter. */
  lemma OrderIrrelevant(path: string, pools: seq<Pool>, others: seq<Pool>)
    requires multiset(pools) == multiset(others) && DistinctPaths(pools)
    ensures Best(path, pools) == Best(path, others)
  {
    forall p ensures p in pools <==> p in others {
      assert p in multiset(pools) <==> p in multiset(others);
    }
    BestIsLongest(path, pools);
    BestIsLongest(path, others);
    hide Matches, Length, Best;
    if Best(path, pools).Some? && Best(path, others).Some? {
      SameLengthSamePath(path, Best(path, pools).value, Best(path, others).value);
    }
  }

  /** On clean absolute paths without backslashes a pool matches exactly if its components are the first
      components of the path, except that the root directory matches itself only. */
  lemma MatchIsComponentPrefix(path: string, pool: string)
    requires Rooted(path) && Rooted(pool) && '\\' !in path
    ensures HasPoolPrefix(Clean(path), Clean(pool)) <==>
              Components(pool) <= Components(path) && (Components(pool) == [] ==> Components(path) == [])
  {
    ComponentsResolved(path);
    ComponentsResolved(pool);
    NoBackslash(path);
    hide Components;
    PrefixOfComponents(Components(path), Components(pool));
  }

  lemma {:induction false} JoinNoBackslash(cs: seq<string>)
    requires forall i :: 0 <= i < |cs| ==> '\\' !in cs[i]
    ensures '\\' !in Join(cs, '/')
  {
    if |cs| > 1 {
      JoinNoBackslash(cs[1..]);
    }
  }

  lemma {:induction false} SplitNoBackslash(s: string)
    requires '\\' !in s
    ensures forall i :: 0 <= i < |Split(s, '/')| ==> '\\' !in Split(s, '/')[i]
  {
    if s != "" {
      SplitNoBackslash(s[1..]);
    }
  }

  lemma {:induction false} ResolveNoBackslash(cs: seq<string>, rooted: bool, acc: seq<string>)
    requires forall i :: 0 <= i < |cs| ==> '\\' !in cs[i]
    requires forall i :: 0 <= i < |acc| ==> '\\' !in acc[i]
    ensures forall i :: 0 <= i < |Resolve(cs, rooted, acc)| ==> '\\' !in Resolve(cs, rooted, acc)[i]
    decreases |cs|
  {
    if cs != [] {
      ResolveNoBackslash(cs[1..], rooted, acc);
      ResolveNoBackslash(cs[1..], rooted, acc + [cs[0]]);
      if acc != [] {
        ResolveNoBackslash(cs[1..], rooted, acc[..|acc| - 1]);
      }
    }
  }

  lemma NoBackslash(path: string)
    requires '\\' !in path
    ensures '\\' !in Join(Components(path), '/')
  {
    SplitNoBackslash(path);
    ResolveNoBackslash(Split(path, '/'), Rooted(path), []);
    JoinNoBackslash(Components(path));
  }

  lemma PrefixOfComponents(cs: seq<string>, ds: seq<string>)
    requires Resolved(cs, true) && Resolved(ds, true) && '\\' !in Join(cs, '/')
    ensures HasPoolPrefix("/" + Join(cs, '/'), "/" + Join(ds, '/')) <==> ds <= cs && (ds == [] ==> cs == [])
  {
    if HasPoolPrefix("/" + Join(cs, '/'), "/" + Join(ds, '/')) {
      PrefixComponents(cs, ds);
    }
    if ds <= cs && ds != [] && ds != cs {
      ComponentsPrefix(ds, cs[|ds|..]);
      assert cs == ds + cs[|ds|..];
    }
    hide HasPoolPrefix, Resolved, Join;
    assert ds == cs ==> HasPoolPrefix("/" + Join(cs, '/'), "/" + Join(cs, '/')) by {
      Reflexive("/" + Join(cs, '/'));
    }
  }

  lemma Reflexive(path: string)
    ensures HasPoolPrefix(path, path)
  {
  }

  lemma ComponentsPrefix(ds: seq<string>, rest: seq<string>)
    requires ds != [] && rest != []
    ensures HasPoolPrefix("/" + Join(ds + rest, '/'), "/" + Join(ds, '/'))
  {
    JoinConcat(ds, rest, '/');
    hide Join;
    var path, pool := "/" + Join(ds + rest, '/'), "/" + Join(ds, '/');
    assert path == pool + ("/" + Join(rest, '/'));
    assert pool <= path && path[|pool|] == '/';
  }

  lemma PrefixComponents(cs: seq<string>, ds: seq<string>)
    requires Resolved(cs, true) && Resolved(ds, true) && '\\' !in Join(cs, '/')
    requires HasPoolPrefix("/" + Join(cs, '/'), "/" + Join(ds, '/'))
    ensures ds <= cs && (ds == [] ==> cs == [])
  {
    var path, pool := "/" + Join(cs, '/'), "/" + Join(ds, '/');
    if path == pool {
      assert Join(cs, '/') == path[1..] == pool[1..] == Join(ds, '/');
      SameJoin(cs, ds);
    } else {
      var rest := LongerPath(Join(cs, '/'), Join(ds, '/'));
      SplitLonger(cs, ds, rest);
    }
  }

  lemma LongerPath(cs: string, ds: string) returns (rest: string)
    requires '\\' !in cs && HasPoolPrefix("/" + cs, "/" + ds) && "/" + cs != "/" + ds
    ensures cs == ds + "/" + rest
  {
    var path, pool := "/" + cs, "/" + ds;
    var k := |pool|;
    assert path[k] == cs[k - 1] && cs[k - 1] in cs;
    rest := path[k + 1..];
    assert path == pool + "/" + rest;
    assert cs == path[1..];
  }

  lemma SplitLonger(cs: seq<string>, ds: seq<string>, rest: string)
    requires Resolved(cs, true) && Resolved(ds, true) && Join(cs, '/') == Join(ds, '/') + "/" + rest
    ensures ds != [] && ds <= cs
  {
    assert cs != [];
    SplitJoin(cs, '/');
    assert cs[0] != "";
    SplitAt(Join(ds, '/'), rest, '/');
    hide Split;
    if ds == [] {
      SplitWord("", "", '/');
    } else {
      SplitJoin(ds, '/');
    }
  }

  lemma SameJoin(cs: seq<string>, ds: seq<string>)
    requires Resolved(cs, true) && Resolved(ds, true) && Join(cs, '/') == Join(ds, '/')
    ensures cs == ds
  {
    if cs != [] && ds != [] {
      SplitJoin(cs, '/');
      SplitJoin(ds, '/');
    } else if cs != [] {
      NonEmptyJoin(cs);
    } else if ds != [] {
      NonEmptyJoin(ds);
    }
  }

  lemma NonEmptyJoin(cs: seq<string>)
    requires cs != [] && cs[0] != ""
    ensures Join(cs, '/') != ""
  {
  }
}

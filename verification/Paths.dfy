// Slash-separated paths: the lexical cleaning of path/filepath, and path.Base.
module Paths {
  import opened Strings
  import opened Pieces

  predicate NoSlash(s: string) { '/' !in s }

  // ---------- Cleaning ----------

  /** Drop empty and . components, and let .. take back the component before it. */
  function Resolve(cs: seq<string>, rooted: bool, acc: seq<string>): seq<string>
    decreases |cs|
  {
    if cs == [] then acc
    else if cs[0] == "" || cs[0] == "." then Resolve(cs[1..], rooted, acc)
    else if cs[0] == ".." then
      if acc != [] && acc[|acc| - 1] != ".." then Resolve(cs[1..], rooted, acc[..|acc| - 1])
      else if rooted then Resolve(cs[1..], rooted, acc)
      else Resolve(cs[1..], rooted, acc + [".."])
    else Resolve(cs[1..], rooted, acc + [cs[0]])
  }

  predicate Rooted(path: string) { path != "" && path[0] == '/' }

  function Components(path: string): seq<string> {
    Resolve(Split(path, '/'), Rooted(path), [])
  }

  /** filepath.Clean */
  function Clean(path: string): string {
    var cs := Components(path);
    if Rooted(path) then "/" + Join(cs, '/') else if cs == [] then "." else Join(cs, '/')
  }

  /** What Resolve leaves: proper components, and .. only in front of a path that is not rooted. */
  predicate Resolved(cs: seq<string>, rooted: bool) {
    && (forall i :: 0 <= i < |cs| ==> NoSlash(cs[i]) && cs[i] != "" && cs[i] != ".")
    && (rooted ==> forall i :: 0 <= i < |cs| ==> cs[i] != "..")
    && (forall i, j :: 0 <= i < j < |cs| && cs[j] == ".." ==> cs[i] == "..")
  }

  lemma {:induction false} ResolveResolves(cs: seq<string>, rooted: bool, acc: seq<string>)
    requires Resolved(acc, rooted) && forall i :: 0 <= i < |cs| ==> NoSlash(cs[i])
    ensures Resolved(Resolve(cs, rooted, acc), rooted)
    decreases |cs|
  {
    if cs != [] {
      var c := cs[0];
      if c == "" || c == "." {
        ResolveResolves(cs[1..], rooted, acc);
      } else if c == ".." {
        if acc != [] && acc[|acc| - 1] != ".." {
          ResolveResolves(cs[1..], rooted, acc[..|acc| - 1]);
        } else if rooted {
          ResolveResolves(cs[1..], rooted, acc);
        } else {
          Dots(acc);
          ResolveResolves(cs[1..], rooted, acc + [".."]);
        }
      } else {
        ResolveResolves(cs[1..], rooted, acc + [c]);
      }
    }
  }

  lemma {:induction false} Dots(acc: seq<string>)
    requires Resolved(acc, false) && (acc == [] || acc[|acc| - 1] == "..")
    ensures Resolved(acc + [".."], false)
  {
  }

  lemma {:induction false} ResolveFixed(cs: seq<string>, rooted: bool, acc: seq<string>)
    requires Resolved(acc + cs, rooted)
    ensures Resolve(cs, rooted, acc) == acc + cs
    decreases |cs|
  {
    if cs != [] {
      assert (acc + cs)[|acc|] == cs[0];
      assert acc + [cs[0]] + cs[1..] == acc + cs;
      if cs[0] == ".." && acc != [] {
        assert (acc + cs)[|acc| - 1] == acc[|acc| - 1];
      }
      ResolveFixed(cs[1..], rooted, acc + [cs[0]]);
    }
  }

  lemma ComponentsResolved(path: string)
    ensures Resolved(Components(path), Rooted(path))
  {
    ResolveResolves(Split(path, '/'), Rooted(path), []);
  }

  /** The components of a cleaned path are those of the path. */
  lemma ComponentsOfClean(path: string)
    ensures Rooted(Clean(path)) == Rooted(path)
    ensures Components(Clean(path)) == Components(path)
  {
    var cs, rooted := Components(path), Rooted(path);
    ComponentsResolved(path);
    hide Components, Resolve, Split;
    if rooted {
      RootedComponents(cs);
    } else if cs == [] {
      DotComponents();
    } else {
      RelativeComponents(cs);
    }
  }

  lemma DotComponents()
    ensures Components(".") == [] && !Rooted(".")
  {
    SplitWord(".", "", '/');
    assert Resolve(["."], false, []) == Resolve([], false, []);
  }

  lemma RootedComponents(cs: seq<string>)
    requires Resolved(cs, true)
    ensures Components("/" + Join(cs, '/')) == cs
  {
    SplitWord("", Join(cs, '/'), '/');
    assert "" + "/" + Join(cs, '/') == "/" + Join(cs, '/');
    var parts := if cs == [] then [""] else cs;
    if cs == [] {
      SplitWord("", "", '/');
    } else {
      SplitJoin(cs, '/');
    }
    assert Split("/" + Join(cs, '/'), '/') == [""] + parts;
    assert ([""] + parts)[1..] == parts;
    assert [] + cs == cs;
    ResolveFixed(cs, true, []);
    if cs == [] {
      assert Resolve([""], true, []) == Resolve([], true, []);
    }
  }

  lemma RelativeComponents(cs: seq<string>)
    requires Resolved(cs, false) && cs != []
    ensures Components(Join(cs, '/')) == cs && !Rooted(Join(cs, '/'))
  {
    SplitJoin(cs, '/');
    assert cs[0] != "" && NoSlash(cs[0]) && Join(cs, '/')[0] == cs[0][0];
    assert cs[0][0] in cs[0];
    assert [] + cs == cs;
    ResolveFixed(cs, false, []);
  }

  /** Cleaning is idempotent. */
  lemma CleanTwice(path: string)
    ensures Clean(Clean(path)) == Clean(path)
  {
    ComponentsOfClean(path);
    hide Components;
  }

  /** A rooted path is not blank. */
  lemma RootedNotBlank(path: string)
    requires Rooted(path)
    ensures !Blank(path)
  {
    assert !IsSpace(path[0]);
    hide IsSpace;
    SolidWithin(path, 0, 1, |path|);
  }

  // ---------- The last component ----------

  /** path.Base of a slash-separated path. */
  function Base(path: string): string {
    if path == "" then "."
    else if path[|path| - 1] == '/' then if |path| == 1 then "/" else Base(path[..|path| - 1])
    else LastComponent(path)
  }

  function LastComponent(path: string): string {
    if path == "" || path[|path| - 1] == '/' then "" else LastComponent(path[..|path| - 1]) + [path[|path| - 1]]
  }

  lemma {:induction false} LastOf(prefix: string, last: string)
    requires '/' !in last
    ensures LastComponent(prefix + "/" + last) == last
  {
    var path := prefix + "/" + last;
    if last != "" {
      LastOf(prefix, last[..|last| - 1]);
      assert path[..|path| - 1] == prefix + "/" + last[..|last| - 1];
      assert path[|path| - 1] == last[|last| - 1] && last[|last| - 1] in last;
    }
  }

  lemma BaseOf(prefix: string, last: string)
    requires '/' !in last && last != ""
    ensures Base(prefix + "/" + last) == last
  {
    LastOf(prefix, last);
  }

  lemma {:induction false} BaseNotEmpty(path: string)
    ensures Base(path) != ""
  {
    if path != "" && path[|path| - 1] == '/' && |path| != 1 {
      BaseNotEmpty(path[..|path| - 1]);
    }
  }
}

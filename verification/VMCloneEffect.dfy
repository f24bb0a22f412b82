// What the disks of a clone are: fresh copies with the content of the originals, as far as the requests
// name them.
module VMCloneEffect {
  import opened Common
  import opened Strings
  import opened Paths
  import opened DomainConfig
  import opened DeviceValidation
  import opened CloneRewrite
  import opened CloneEffect
  import opened DiskRenaming
  import opened PoolLookup
  import opened Commands
  import opened Storage
  import opened Provisioning
  import opened VMCreation
  import opened VMClone

  function TargetAt(dirs: Dirs, d: CloneDisk): string {
    At(dirs, (TrimSpace(d.pool), TrimSpace(d.targetName)))
  }

  /** The position of the last request for a source path. */
  ghost predicate LastFor(items: seq<CloneDisk>, path: string, k: nat) {
    k < |items| && items[k].sourcePath == path && forall j :: k < j < |items| ==> items[j].sourcePath != path
  }

  /** The path map sends a source path to the copy made last of it. */
  lemma {:induction false} PathMapLast(dirs: Dirs, items: seq<CloneDisk>, path: string) returns (k: nat)
    ensures path in PathMap(dirs, items) ==>
              LastFor(items, path, k) && PathMap(dirs, items)[path] == TargetAt(dirs, items[k])
    ensures path !in PathMap(dirs, items) ==> forall j :: 0 <= j < |items| ==> items[j].sourcePath != path
  {
    hide *;
    k := 0;
    if items == [] {
      EmptyPathMap(dirs);
    } else {
      var n := |items| - 1;
      var before := PathMapLast(dirs, items[..n], path);
      k := if items[n].sourcePath == path then n else before;
      LastPath(dirs, items);
      LastForMore(items, path, before);
    }
  }

  lemma EmptyPathMap(dirs: Dirs)
    ensures PathMap(dirs, []) == map[]
  {
  }

  lemma LastPath(dirs: Dirs, items: seq<CloneDisk>)
    requires items != []
    ensures var n := |items| - 1;
            PathMap(dirs, items) == PathMap(dirs, items[..n])[items[n].sourcePath := TargetAt(dirs, items[n])]
  {
  }

  lemma LastForMore(items: seq<CloneDisk>, path: string, before: nat)
    requires items != []
    ensures var n := |items| - 1;
            (items[n].sourcePath == path ==> LastFor(items, path, n))
            && (items[n].sourcePath != path && LastFor(items[..n], path, before) ==> LastFor(items, path, before))
  {
  }

  // ---------- The copies are new ----------

  predicate IsNewCopy(was: State, now: State, path: string, content: nat) {
    path !in was.files && path in now.files && now.files[path] == content && !Blank(path)
  }

  lemma CopyIsNew(dirs: Dirs, was: State, now: State, vm: string, items: seq<CloneDisk>, contents: seq<nat>, k: nat)
    requires Provisioned(dirs, was, now, vm, CopyTargets(items), contents) && k < |items|
    ensures k < |contents|
    ensures IsNewCopy(was, now, TargetAt(dirs, items[k]), contents[k])
  {
    hide At, TrimSpace, Proper, Keeps, NewOnly, OthersSame, Blank;
    assert MadeAt(dirs, was, now, CopyTargets(items)[k], contents[k]);
    assert CopyTargets(items)[k] == (TrimSpace(items[k].pool), TrimSpace(items[k].targetName));
    ProperNotBlank(dirs, CopyTargets(items)[k]);
  }

  lemma ProperNotBlank(dirs: Dirs, v: (string, string))
    requires Proper(dirs, v)
    ensures !Blank(At(dirs, v))
  {
    RootedNotBlank(At(dirs, v));
    hide TrimSpace, VolumePath, Blank;
  }

  /** Every copy is a new file. */
  lemma MappedIsNew(dirs: Dirs, was: State, now: State, vm: string, items: seq<CloneDisk>, contents: seq<nat>,
                    path: string)
    returns (k: nat)
    requires Provisioned(dirs, was, now, vm, CopyTargets(items), contents)
    ensures path in PathMap(dirs, items) ==>
              && LastFor(items, path, k) && k < |contents| && PathMap(dirs, items)[path] == TargetAt(dirs, items[k])
              && IsNewCopy(was, now, TargetAt(dirs, items[k]), contents[k])
    ensures path !in PathMap(dirs, items) ==> forall j :: 0 <= j < |items| ==> items[j].sourcePath != path
  {
    hide *;
    k := PathMapLast(dirs, items, path);
    if path in PathMap(dirs, items) {
      LastWithin(items, path, k);
      CopyIsNew(dirs, was, now, vm, items, contents, k);
    }
  }

  lemma LastWithin(items: seq<CloneDisk>, path: string, k: nat)
    requires LastFor(items, path, k)
    ensures k < |items| && items[k].sourcePath == path
  {
  }

  lemma FilledFits(dirs: Dirs, was: State, now: State, options: CloneRequest, items: seq<CloneDisk>,
                   disks: seq<ConfigDisk>, contents: seq<nat>)
    requires Provisioned(dirs, was, now, options.name, CopyTargets(items), contents) && CloneAccepted(items, disks)
    ensures var c := Filled(dirs, options, items); CopiesNamed(c) && Lookup(c.diskPaths, "") == ""
  {
    hide Provisioned, PathMap, CopyTargets, Blank, TargetKey, NamesItsDisk;
    forall p | p in PathMap(dirs, items) ensures !Blank(PathMap(dirs, items)[p]) && p != "" {
      var k := MappedIsNew(dirs, was, now, options.name, items, contents, p);
      NamedNotEmpty(items[k], disks);
      assert IsNewCopy(was, now, TargetAt(dirs, items[k]), contents[k]);
    }
  }

  lemma NamedNotEmpty(d: CloneDisk, disks: seq<ConfigDisk>)
    requires NamesItsDisk(d, disks)
    ensures d.sourcePath != ""
  {
  }

  // ---------- The disks of the clone ----------

  /** A source document whose disks can be followed through the rewrite. */
  predicate TidyDomain(doc: Xml.Forest) {
    DomainDoc(doc) && TidyDisks(DomainDevices(doc))
  }

  /** The file a copy is taken from is the disk itself. */
  predicate FromItself(dirs: Dirs, d: CloneDisk, targets: seq<Pool>) {
    SourceAt(dirs, d, targets) == d.sourcePath
  }

  /** One disk of the clone beside the source's: if requests name its path, it is the copy the last of them made, a
      new file, with the same content if that copy was taken from the disk itself; otherwise the path stays or is
      dropped. The backing chain stays in any case. */
  ghost predicate CloneDiskOf(dirs: Dirs, was: State, now: State, options: CloneRequest, items: seq<CloneDisk>,
                              targets: seq<Pool>, before: DiskEntry, after: DiskEntry)
  {
    && after.name == before.name && after.device == before.device && after.backing == before.backing
    && (forall k: nat :: LastFor(items, before.Path(), k) ==>
          && after.Path() == TargetAt(dirs, items[k]) && after.Path() !in was.files && after.Path() in now.files
          && (before.Path() in was.files && FromItself(dirs, items[k], targets) ==>
                now.files[after.Path()] == was.files[before.Path()]))
    && (!Covered(items, before) ==> after.Path() == if Disconnects(options) then "" else before.Path())
  }

  /** Some request names the disk's path. */
  ghost predicate Covered(items: seq<CloneDisk>, d: DiskEntry) {
    exists k :: 0 <= k < |items| && items[k].sourcePath == d.Path()
  }

  lemma CloneDiskShape(dirs: Dirs, was: State, now: State, options: CloneRequest, items: seq<CloneDisk>,
                       targets: seq<Pool>, contents: seq<nat>, before: DiskEntry, after: DiskEntry)
    requires Provisioned(dirs, was, now, options.name, CopyTargets(items), contents)
    requires Copied(dirs, was, items, targets, contents)
    requires EntryRenamed(Filled(dirs, options, items), before, after)
    ensures CloneDiskOf(dirs, was, now, options, items, targets, before, after)
  {
    hide *;
    SamePolicy(dirs, options, items);
    var k := MappedIsNew(dirs, was, now, options.name, items, contents, before.Path());
    if before.Path() in PathMap(dirs, items) {
      LastWithin(items, before.Path(), k);
      RenamedToCopy(dirs, options, items, before, after, was, now, contents, k);
      ShapeCovered(dirs, was, now, options, items, targets, contents, before, after, k);
    } else {
      ShapeBare(dirs, was, now, options, items, targets, before, after);
    }
  }

  lemma RenamedToCopy(dirs: Dirs, options: CloneRequest, items: seq<CloneDisk>, before: DiskEntry, after: DiskEntry,
                      was: State, now: State, contents: seq<nat>, k: nat)
    requires EntryRenamed(Filled(dirs, options, items), before, after) && k < |items| && k < |contents|
    requires before.Path() in PathMap(dirs, items) && PathMap(dirs, items)[before.Path()] == TargetAt(dirs, items[k])
    requires IsNewCopy(was, now, TargetAt(dirs, items[k]), contents[k])
    ensures after.Path() == TargetAt(dirs, items[k])
    ensures after.name == before.name && after.device == before.device && after.backing == before.backing
  {
    BlankEmpty();
    hide Blank, PathMap, TargetAt, Disconnects;
  }

  lemma ShapeCovered(dirs: Dirs, was: State, now: State, options: CloneRequest, items: seq<CloneDisk>,
                     targets: seq<Pool>, contents: seq<nat>, before: DiskEntry, after: DiskEntry, k: nat)
    requires LastFor(items, before.Path(), k) && k < |contents|
    requires IsNewCopy(was, now, TargetAt(dirs, items[k]), contents[k])
    requires Copied(dirs, was, items, targets, contents) && after.Path() == TargetAt(dirs, items[k])
    requires after.name == before.name && after.device == before.device && after.backing == before.backing
    ensures CloneDiskOf(dirs, was, now, options, items, targets, before, after)
  {
    hide TargetAt, SourceAt, Disconnects, Blank;
    forall j: nat | LastFor(items, before.Path(), j) ensures j == k {
    }
    assert Covered(items, before);
  }

  lemma ShapeBare(dirs: Dirs, was: State, now: State, options: CloneRequest, items: seq<CloneDisk>, targets: seq<Pool>,
                  before: DiskEntry, after: DiskEntry)
    requires EntryRenamed(Filled(dirs, options, items), before, after) && before.Path() !in PathMap(dirs, items)
    requires forall j :: 0 <= j < |items| ==> items[j].sourcePath != before.Path()
    requires Disconnects(Filled(dirs, options, items)) == Disconnects(options)
    ensures CloneDiskOf(dirs, was, now, options, items, targets, before, after)
  {
    hide TargetAt, FromItself, Disconnects, PathMap;
  }

  lemma SamePolicy(dirs: Dirs, options: CloneRequest, items: seq<CloneDisk>)
    ensures Disconnects(Filled(dirs, options, items)) == Disconnects(options)
  {
  }

  /** The disks of the clone are those of the source in the same order, as CloneDiskOf says. */
  lemma ClonedDisks(dirs: Dirs, was: State, now: State, vm: string, options: CloneRequest, requests: seq<CloneDisk>,
                    targets: seq<Pool>, run: CloneRun)
    requires Cloned(dirs, was, now, vm, options, requests, targets, run) && TidyDomain(was.domains[vm])
    ensures var before, after := ConfigDisks(was.domains[vm]), ConfigDisks(now.domains[options.name]);
            && |after| == |before|
            && forall i :: 0 <= i < |before| ==>
                 CloneDiskOf(dirs, was, now, options, run.items, targets, before[i], after[i])
  {
    SettledTargets(requests, run.disks);
    hide Provisioned, Copied, CloneAccepted, SettledAll, CloneDoc, ConfigDisks, DomainDoc, TidyDisks, Filled;
    hide CopiesNamed, Describes, EntryRenamed, CloneDiskOf;
    var c := Filled(dirs, options, run.items);
    FilledFits(dirs, was, now, options, run.items, run.disks, run.contents);
    CloneDisks(c, was.domains[vm]);
    var before, after := ConfigDisks(was.domains[vm]), ConfigDisks(now.domains[options.name]);
    forall i | 0 <= i < |before| ensures CloneDiskOf(dirs, was, now, options, run.items, targets, before[i], after[i]) {
      CloneDiskShape(dirs, was, now, options, run.items, targets, run.contents, before[i], after[i]);
    }
  }

  /** No disk of the clone is a file that existed before. */
  predicate SharesNothing(was: State, after: seq<DiskEntry>) {
    forall i :: 0 <= i < |after| ==> after[i].Path() !in was.files
  }

  /** The clone shares no file with what was there before exactly if every disk with an existing file is
      named by a request, or unnamed disks are disconnected. */
  lemma CloneShares(dirs: Dirs, was: State, now: State, vm: string, options: CloneRequest, requests: seq<CloneDisk>,
                    targets: seq<Pool>, run: CloneRun)
    requires Cloned(dirs, was, now, vm, options, requests, targets, run) && TidyDomain(was.domains[vm])
    requires "" !in was.files
    ensures SharesNothing(was, ConfigDisks(now.domains[options.name])) <==>
              forall i :: (0 <= i < |ConfigDisks(was.domains[vm])|
                           && ConfigDisks(was.domains[vm])[i].Path() in was.files) ==>
                Covered(run.items, ConfigDisks(was.domains[vm])[i]) || Disconnects(options)
  {
    hide *;
    BothDefined(dirs, was, now, vm, options, requests, targets, run);
    ClonedDisks(dirs, was, now, vm, options, requests, targets, run);
    var before, after := ConfigDisks(was.domains[vm]), ConfigDisks(now.domains[options.name]);
    forall i | 0 <= i < |before|
      ensures after[i].Path() in was.files <==>
                before[i].Path() in was.files && !(Covered(run.items, before[i]) || Disconnects(options))
    {
      DiskShares(dirs, was, now, options, run.items, targets, before[i], after[i]);
    }
    SharesEach(was, after);
  }

  lemma BothDefined(dirs: Dirs, was: State, now: State, vm: string, options: CloneRequest, requests: seq<CloneDisk>,
                    targets: seq<Pool>, run: CloneRun)
    requires Cloned(dirs, was, now, vm, options, requests, targets, run)
    ensures vm in was.domains && options.name in now.domains && FitsSource(was, vm, requests, run.disks, run.items)
    ensures Provisioned(dirs, was, now, options.name, CopyTargets(run.items), run.contents)
  {
    SettledTargets(requests, run.disks);
    hide CloneAccepted, SettledAll, CopyTargets, Provisioned, Describes, ConfigDisks;
  }

  lemma SharesEach(was: State, after: seq<DiskEntry>)
    ensures SharesNothing(was, after) <==> forall i :: 0 <= i < |after| ==> after[i].Path() !in was.files
  {
  }

  lemma DiskShares(dirs: Dirs, was: State, now: State, options: CloneRequest, items: seq<CloneDisk>, targets: seq<Pool>,
                   before: DiskEntry, after: DiskEntry)
    requires CloneDiskOf(dirs, was, now, options, items, targets, before, after) && "" !in was.files
    ensures after.Path() in was.files <==>
              before.Path() in was.files && !(Covered(items, before) || Disconnects(options))
  {
    if Covered(items, before) {
      var k := LastRequest(items, before.Path());
    }
    hide FromItself, Disconnects, TargetAt;
  }

  /** Among the requests for a path there is a last one. */
  lemma {:induction false} LastRequest(items: seq<CloneDisk>, path: string) returns (k: nat)
    requires exists j :: 0 <= j < |items| && items[j].sourcePath == path
    ensures LastFor(items, path, k)
  {
    var n := |items| - 1;
    if items[n].sourcePath == path {
      k := n;
    } else {
      var j :| 0 <= j < |items| && items[j].sourcePath == path;
      assert items[..n][j] == items[j];
      k := LastRequest(items[..n], path);
    }
  }

  // ---------- Copies that no disk uses ----------

  /** A disk that no request names already has that path, and keeps it. */
  ghost predicate Dangling(items: seq<CloneDisk>, options: CloneRequest, before: seq<DiskEntry>, path: string) {
    !Disconnects(options) && exists i :: 0 <= i < |before| && before[i].Path() == path && !Covered(items, before[i])
  }

  /** Copies have different paths, none of them blank. */
  lemma CopiesDiffer(dirs: Dirs, was: State, now: State, vm: string, items: seq<CloneDisk>, contents: seq<nat>, j: nat,
                     k: nat)
    requires Provisioned(dirs, was, now, vm, CopyTargets(items), contents) && j < |items| && k < |items|
    ensures TargetAt(dirs, items[j]) == TargetAt(dirs, items[k]) ==> j == k
    ensures TargetAt(dirs, items[k]) != ""
  {
    BlankEmpty();
    CopyIsNew(dirs, was, now, vm, items, contents, k);
    hide TrimSpace, At, Blank, MadeAt, Keeps, OthersSame;
    assert forall i :: 0 <= i < |items| ==> At(dirs, CopyTargets(items)[i]) == TargetAt(dirs, items[i]);
  }

  /** Every request names a disk of the source. */
  lemma RequestNamesDisk(was: State, vm: string, requests: seq<CloneDisk>, disks: seq<ConfigDisk>,
                         items: seq<CloneDisk>, k: nat)
    returns (i: nat)
    requires FitsSource(was, vm, requests, disks, items) && k < |items|
    ensures i < |ConfigDisks(was.domains[vm])| && ConfigDisks(was.domains[vm])[i].Path() == items[k].sourcePath
  {
    hide ConfigDisks, SettledAll, TargetKey, ByName;
    assert NamesItsDisk(items[k], disks);
    ByNameKey(disks, items[k].name);
    i :| 0 <= i < |disks| && disks[i] == ByName(disks)[items[k].name];
    assert ListsDisk(disks[i], ConfigDisks(was.domains[vm])[i]);
  }

  /** A disk of the clone that has a copy's path. */
  lemma DiskWithCopy(dirs: Dirs, was: State, now: State, options: CloneRequest, items: seq<CloneDisk>,
                     targets: seq<Pool>, contents: seq<nat>, before: DiskEntry, after: DiskEntry, k: nat)
    requires Provisioned(dirs, was, now, options.name, CopyTargets(items), contents) && k < |items|
    requires CloneDiskOf(dirs, was, now, options, items, targets, before, after)
    ensures after.Path() == TargetAt(dirs, items[k]) <==> Becomes(items, options, before, k, TargetAt(dirs, items[k]))
  {
    hide *;
    BlankEmpty();
    CopiesDiffer(dirs, was, now, options.name, items, contents, k, k);
    if exists j :: 0 <= j < |items| && items[j].sourcePath == before.Path() {
      var m := LastRequest(items, before.Path());
      LastWithin(items, before.Path(), m);
      CopiesDiffer(dirs, was, now, options.name, items, contents, m, k);
      CoveredBecomes(dirs, was, now, options, items, targets, before, after, k, m);
    } else {
      BareBecomes(dirs, was, now, options, items, targets, before, after, k);
    }
  }

  /** There is at most one last request for a path. */
  lemma LastUnique(items: seq<CloneDisk>, path: string, j: nat, k: nat)
    requires LastFor(items, path, j)
    ensures LastFor(items, path, k) ==> j == k
    ensures exists i :: 0 <= i < |items| && items[i].sourcePath == path
  {
  }

  lemma CoveredBecomes(dirs: Dirs, was: State, now: State, options: CloneRequest, items: seq<CloneDisk>,
                       targets: seq<Pool>, before: DiskEntry, after: DiskEntry, k: nat, m: nat)
    requires CloneDiskOf(dirs, was, now, options, items, targets, before, after) && k < |items|
    requires LastFor(items, before.Path(), m) && (TargetAt(dirs, items[m]) == TargetAt(dirs, items[k]) ==> m == k)
    ensures after.Path() == TargetAt(dirs, items[k]) <==> Becomes(items, options, before, k, TargetAt(dirs, items[k]))
  {
    LastUnique(items, before.Path(), m, k);
    hide TargetAt, FromItself, Disconnects;
  }

  lemma BareBecomes(dirs: Dirs, was: State, now: State, options: CloneRequest, items: seq<CloneDisk>,
                    targets: seq<Pool>, before: DiskEntry, after: DiskEntry, k: nat)
    requires CloneDiskOf(dirs, was, now, options, items, targets, before, after) && k < |items|
    requires !(exists j :: 0 <= j < |items| && items[j].sourcePath == before.Path()) && TargetAt(dirs, items[k]) != ""
    ensures after.Path() == TargetAt(dirs, items[k]) <==> Becomes(items, options, before, k, TargetAt(dirs, items[k]))
  {
    hide TargetAt, FromItself, Disconnects;
  }

  /** A disk of the source becomes one that uses the k-th copy. */
  ghost predicate Becomes(items: seq<CloneDisk>, options: CloneRequest, d: DiskEntry, k: nat, path: string) {
    LastFor(items, d.Path(), k) || (!Covered(items, d) && d.Path() == path && !Disconnects(options))
  }

  /** A copy is an orphan, one that no disk of the clone uses, exactly if a later request names the same disk and
      no other disk of the source has the copy's path already. */
  lemma OrphanCopy(dirs: Dirs, was: State, now: State, vm: string, options: CloneRequest, requests: seq<CloneDisk>,
                   targets: seq<Pool>, run: CloneRun, k: nat)
    requires Cloned(dirs, was, now, vm, options, requests, targets, run) && TidyDomain(was.domains[vm])
    requires k < |run.items|
    ensures var path := TargetAt(dirs, run.items[k]);
            UsesPath(now.domains[options.name], path) <==>
              LastFor(run.items, run.items[k].sourcePath, k)
                || Dangling(run.items, options, ConfigDisks(was.domains[vm]), path)
  {
    hide *;
    BothDefined(dirs, was, now, vm, options, requests, targets, run);
    ClonedDisks(dirs, was, now, vm, options, requests, targets, run);
    var i := RequestNamesDisk(was, vm, requests, run.disks, run.items, k);
    var before, after := ConfigDisks(was.domains[vm]), ConfigDisks(now.domains[options.name]);
    var path := TargetAt(dirs, run.items[k]);
    forall j | 0 <= j < |before| ensures after[j].Path() == path <==> Becomes(run.items, options, before[j], k, path) {
      DiskWithCopy(dirs, was, now, options, run.items, targets, run.contents, before[j], after[j], k);
    }
    OrphanAmong(now.domains[options.name], before, run.items, options, i, k, path);
  }

  lemma OrphanAmong(doc: Xml.Forest, before: seq<DiskEntry>, items: seq<CloneDisk>, options: CloneRequest, i: nat,
                    k: nat, path: string)
    requires |ConfigDisks(doc)| == |before| && k < |items| && i < |before| && before[i].Path() == items[k].sourcePath
    requires forall j :: 0 <= j < |before| ==>
               (ConfigDisks(doc)[j].Path() == path <==> Becomes(items, options, before[j], k, path))
    ensures UsesPath(doc, path) <==> LastFor(items, items[k].sourcePath, k) || Dangling(items, options, before, path)
  {
    hide ConfigDisks, Disconnects, Covered;
  }

  // ---------- Where copies are taken from ----------

  /** A disk directly in the directory of a listed pool, and no pool path being the disk's path, is looked
      up in that pool. */
  lemma DirectlyInPool(dir: PoolDir, base: string, pools: seq<Pool>, p: Pool)
    requires p in pools && CleanPool(p.path) == dir && '/' !in base && '\\' !in base && base != ""
    requires forall q :: q in pools ==> CleanPool(q.path) != VolumePath(dir, base)
    requires DistinctPaths(pools)
    ensures Best(VolumePath(dir, base), pools) == Some(p)
  {
    var path := VolumePath(dir, base);
    hide CleanPool;
    assert Matches(path, p) by {
      assert dir <= path && path[|dir|] == '/';
    }
    BestIsLongest(path, pools);
    var best := Best(path, pools).value;
    NoLonger(dir, base, CleanPool(best.path));
    hide Best, Matches, Length;
    SameLength(path, p, best);
  }

  lemma SameLength(path: string, p: Pool, q: Pool)
    requires Matches(path, p) && Matches(path, q) && |CleanPool(p.path)| == |CleanPool(q.path)|
    ensures CleanPool(p.path) == CleanPool(q.path)
  {
    hide CleanPool;
    SameLengthSamePath(path, p, q);
  }

  lemma NoLonger(dir: string, base: string, other: string)
    requires '/' !in base && '\\' !in base && HasPoolPrefix(VolumePath(dir, base), other)
    requires other != VolumePath(dir, base)
    ensures |other| <= |dir|
  {
    var path := VolumePath(dir, base);
    forall k | |dir| < k < |path| ensures path[k] != '/' && path[k] != '\\' {
      assert path[k] == base[k - |dir| - 1] && base[k - |dir| - 1] in base;
    }
  }

  /** The directory a file is in. */
  function Folder(path: string): string {
    var n := |LastComponent(path)| + 1;
    if n <= |path| then path[..|path| - n] else ""
  }

  /** The path is some text that is empty or ends in a slash, and the last component. */
  lemma {:induction false} FrontAndLast(path: string) returns (front: string)
    ensures path == front + LastComponent(path) && (front == "" || front[|front| - 1] == '/')
    ensures '/' !in LastComponent(path)
  {
    if path == "" || path[|path| - 1] == '/' {
      front := path;
    } else {
      var n := |path| - 1;
      front := FrontAndLast(path[..n]);
      LastMore(path, n);
      hide LastComponent;
      assert path == path[..n] + [path[n]];
      assert front + LastComponent(path[..n]) + [path[n]] == front + (LastComponent(path[..n]) + [path[n]]);
    }
  }

  lemma LastMore(path: string, n: nat)
    requires |path| == n + 1 && path[n] != '/'
    ensures LastComponent(path) == LastComponent(path[..n]) + [path[n]]
  {
  }

  lemma LastIsSuffix(path: string)
    ensures |LastComponent(path)| <= |path| && path[|path| - |LastComponent(path)|..] == LastComponent(path)
    ensures '/' !in LastComponent(path)
    ensures |LastComponent(path)| < |path| ==> path[|path| - |LastComponent(path)| - 1] == '/'
  {
    var front := FrontAndLast(path);
    hide LastComponent;
  }

  /** A copy is taken from the disk itself exactly if the disk lies directly in the directory of the pool that its
      path is looked up in, under a name without white space at its ends. */
  lemma TakenFromItself(dirs: Dirs, d: CloneDisk, targets: seq<Pool>)
    requires LastComponent(d.sourcePath) != ""
    ensures FromItself(dirs, d, targets) <==>
              && TrimSpace(SourcePool(d, targets)) in dirs
              && d.sourcePath == Folder(d.sourcePath) + "/" + LastComponent(d.sourcePath)
              && Folder(d.sourcePath) == dirs[TrimSpace(SourcePool(d, targets))]
              && IsTrimmed(LastComponent(d.sourcePath))
  {
    hide *;
    BaseIsLast(d.sourcePath);
    TakenFrom(dirs, d, targets, LastComponent(d.sourcePath));
    if TrimSpace(SourcePool(d, targets)) in dirs {
      SameText(d.sourcePath, dirs[TrimSpace(SourcePool(d, targets))], LastComponent(d.sourcePath));
    }
  }

  lemma BaseIsLast(path: string)
    requires LastComponent(path) != ""
    ensures Base(path) == LastComponent(path) && path != ""
  {
  }

  lemma TakenFrom(dirs: Dirs, d: CloneDisk, targets: seq<Pool>, last: string)
    requires Base(d.sourcePath) == last && d.sourcePath != ""
    ensures var pool := TrimSpace(SourcePool(d, targets));
            FromItself(dirs, d, targets) <==> pool in dirs && d.sourcePath == VolumePath(dirs[pool], TrimSpace(last))
  {
    hide Base, SourcePool, TrimSpace, Clean;
  }

  /** When a directory and the trimmed name make up the path. */
  lemma SameText(path: string, dir: string, last: string)
    requires last == LastComponent(path)
    ensures path == VolumePath(dir, TrimSpace(last)) <==>
              path == Folder(path) + "/" + last && Folder(path) == dir && IsTrimmed(last)
  {
    LastIsSuffix(path);
    TrimmedPart(last);
    hide TrimSpace, LastComponent, IsTrimmed;
    if path == VolumePath(dir, TrimSpace(last)) {
      LastOf(dir, TrimSpace(last));
    }
    SplitPath(path, dir);
  }

  lemma SplitPath(path: string, dir: string)
    ensures path == dir + "/" + LastComponent(path) <==>
              path == Folder(path) + "/" + LastComponent(path) && Folder(path) == dir
  {
    LastIsSuffix(path);
    hide LastComponent;
    if path == dir + "/" + LastComponent(path) {
      assert path[..|dir|] == dir;
    }
  }

  lemma TrimmedPart(s: string)
    requires '/' !in s
    ensures '/' !in TrimSpace(s)
  {
    hide IsSpace;
  }

  /** The copy of a disk that is a volume of a listed pool is taken from the disk itself. */
  lemma VolumeFromItself(dirs: Dirs, d: CloneDisk, targets: seq<Pool>, p: Pool, base: string)
    requires p in targets && DistinctPaths(targets) && p.name in dirs && p.name != ""
    requires CleanPool(p.path) == dirs[p.name]
    requires IsTrimmed(p.name) && IsTrimmed(base) && '/' !in base && '\\' !in base && base !in {"", ".", ".."}
    requires d.sourcePath == VolumePath(dirs[p.name], base)
    requires forall q :: q in targets ==> CleanPool(q.path) != d.sourcePath
    ensures FromItself(dirs, d, targets)
  {
    hide TrimSpace, Best, Clean;
    DirectlyInPool(dirs[p.name], base, targets, p);
    CleanVolumePath(dirs[p.name], base);
    RootedNotBlank(d.sourcePath);
    BaseOf(dirs[p.name], base);
    hide Base, Blank;
  }
}

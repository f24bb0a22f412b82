// Cloning a machine: which requests are accepted, the copies and the definition, and what the clone's
// disks are.
module VMClone {
  import opened Common
  import opened Strings
  import opened Paths
  import opened Xml
  import opened DomainConfig
  import opened DeviceValidation
  import opened CloneRewrite
  import opened PoolLookup
  import opened Commands
  import opened Storage
  import opened Provisioning
  import opened VMCreation

  datatype CloneDisk = CloneDisk(name: string, pool: string, sourcePath: string, targetName: string)

  // ---------- Which disk requests are accepted ----------

  /** The request trimmed, with the disk's own path where it gives none. */
  function Settled(q: CloneDisk, disks: seq<ConfigDisk>): CloneDisk {
    var name, path := TrimSpace(q.name), TrimSpace(q.sourcePath);
    CloneDisk(name, TrimSpace(q.pool), if path == "" && name in ByName(disks) then ByName(disks)[name].path else path,
              TrimSpace(q.targetName))
  }

  function SettledAll(requests: seq<CloneDisk>, disks: seq<ConfigDisk>): (r: seq<CloneDisk>)
    ensures |r| == |requests| && forall i :: 0 <= i < |requests| ==> r[i] == Settled(requests[i], disks)
  {
    seq(|requests|, i requires 0 <= i < |requests| => Settled(requests[i], disks))
  }

  function TargetKey(d: CloneDisk): string { d.pool + "/" + d.targetName }

  predicate NamesItsDisk(d: CloneDisk, disks: seq<ConfigDisk>) {
    && d.name != "" && d.pool != "" && d.targetName != ""
    && d.name in ByName(disks) && d.sourcePath != "" && d.sourcePath == ByName(disks)[d.name].path
  }

  /** Each request names a disk with its path, and no two have the same target. */
  ghost predicate CloneAccepted(items: seq<CloneDisk>, disks: seq<ConfigDisk>) {
    && (forall k :: 0 <= k < |items| ==> NamesItsDisk(items[k], disks))
    && (forall j, k :: 0 <= j < k < |items| ==> TargetKey(items[j]) != TargetKey(items[k]))
  }

  /** The request as it stands: names, pools and target names are given, the name is that of a listed disk with a path,
      and a path that is given is that path. */
  predicate RequestFits(q: CloneDisk, disks: seq<ConfigDisk>) {
    && !Blank(q.name) && !Blank(q.pool) && !Blank(q.targetName) && TrimSpace(q.name) in ByName(disks)
    && ByName(disks)[TrimSpace(q.name)].path != ""
    && (Blank(q.sourcePath) || TrimSpace(q.sourcePath) == ByName(disks)[TrimSpace(q.name)].path)
  }

  lemma SettledFits(q: CloneDisk, disks: seq<ConfigDisk>)
    ensures NamesItsDisk(Settled(q, disks), disks) <==> RequestFits(q, disks)
  {
    hide TrimSpace, ByName;
  }

  /** Requests are accepted exactly if each fits and no two have the same pool and target name. */
  lemma AcceptedMeans(requests: seq<CloneDisk>, disks: seq<ConfigDisk>)
    ensures CloneAccepted(SettledAll(requests, disks), disks) <==>
              && (forall k :: 0 <= k < |requests| ==> RequestFits(requests[k], disks))
              && (forall j, k :: 0 <= j < k < |requests| ==>
                    TrimSpace(requests[j].pool) + "/" + TrimSpace(requests[j].targetName)
                      != TrimSpace(requests[k].pool) + "/" + TrimSpace(requests[k].targetName))
  {
    hide RequestFits, NamesItsDisk, ByName, TrimSpace;
    forall k | 0 <= k < |requests|
      ensures NamesItsDisk(SettledAll(requests, disks)[k], disks) <==> RequestFits(requests[k], disks)
      ensures TargetKey(SettledAll(requests, disks)[k])
           == TrimSpace(requests[k].pool) + "/" + TrimSpace(requests[k].targetName)
    {
      SettledFits(requests[k], disks);
    }
  }

  ghost predicate Keys(seen: set<string>, items: seq<CloneDisk>) {
    forall t :: t in seen <==> exists k :: 0 <= k < |items| && TargetKey(items[k]) == t
  }

  lemma AcceptOne(items: seq<CloneDisk>, disks: seq<ConfigDisk>, seen: set<string>, d: CloneDisk)
    requires CloneAccepted(items, disks) && Keys(seen, items)
    ensures CloneAccepted(items + [d], disks) <==> NamesItsDisk(d, disks) && TargetKey(d) !in seen
    ensures Keys(seen + {TargetKey(d)}, items + [d])
  {
    hide TargetKey, NamesItsDisk;
    var more := items + [d];
    assert more[|items|] == d;
    forall k | 0 <= k < |items| ensures more[k] == items[k] {
    }
    forall t | t in seen ensures exists k :: 0 <= k < |more| && TargetKey(more[k]) == t {
      var k :| 0 <= k < |items| && TargetKey(items[k]) == t;
      assert TargetKey(more[k]) == t;
    }
  }

  lemma AcceptedPrefix(items: seq<CloneDisk>, disks: seq<ConfigDisk>, k: nat)
    requires CloneAccepted(items, disks) && k <= |items|
    ensures CloneAccepted(items[..k], disks)
  {
    hide TargetKey, NamesItsDisk;
  }

  lemma NextSettled(requests: seq<CloneDisk>, disks: seq<ConfigDisk>, i: nat)
    requires i < |requests|
    ensures SettledAll(requests[..i + 1], disks) == SettledAll(requests[..i], disks) + [Settled(requests[i], disks)]
    ensures SettledAll(requests, disks)[..i + 1] == SettledAll(requests[..i + 1], disks)
  {
    hide Settled, SettledAll;
    assert requests[..i + 1] == requests[..i] + [requests[i]];
  }

  /** The checks on one request; an empty answer means that it names its disk. */
  method CheckClone(q: CloneDisk, sourceByName: map<string, ConfigDisk>, ghost disks: seq<ConfigDisk>)
    returns (d: CloneDisk, problem: string)
    requires sourceByName == ByName(disks)
    ensures problem == "" <==> NamesItsDisk(Settled(q, disks), disks)
    ensures problem == "" ==> d == Settled(q, disks)
  {
    hide TrimSpace, ByName;
    d := CloneDisk(TrimSpace(q.name), TrimSpace(q.pool), TrimSpace(q.sourcePath), TrimSpace(q.targetName));
    if d.name == "" || d.pool == "" || d.targetName == "" {
      return d, "clone disk name, pool and target are required";
    }
    if d.name !in sourceByName {
      return d, "clone disk target not found";
    }
    var source := sourceByName[d.name];
    if d.sourcePath == "" {
      d := d.(sourcePath := source.path);
    }
    if source.path == "" || d.sourcePath != source.path {
      return d, "clone disk source path mismatch";
    }
    return d, "";
  }

  /** validateVMCloneDisks */
  method ValidateCloneDisks(requests: seq<CloneDisk>, disks: seq<ConfigDisk>) returns (r: Result<seq<CloneDisk>>)
    ensures r.Ok? <==> CloneAccepted(SettledAll(requests, disks), disks)
    ensures r.Ok? ==> r.value == SettledAll(requests, disks)
  {
    hide ByName, Settled, SettledAll, NamesItsDisk, TargetKey, CloneAccepted, Keys;
    var sourceByName, _, _ := IndexDisks(disks);
    var items: seq<CloneDisk>, seenTargets: set<string> := [], {};
    NothingSettled(disks);
    for i := 0 to |requests|
      invariant items == SettledAll(requests[..i], disks) && CloneAccepted(items, disks) && Keys(seenTargets, items)
    {
      var d, problem := CheckClone(requests[i], sourceByName, disks);
      AcceptOne(items, disks, seenTargets, Settled(requests[i], disks));
      NextSettled(requests, disks, i);
      if CloneAccepted(SettledAll(requests, disks), disks) {
        AcceptedPrefix(SettledAll(requests, disks), disks, i + 1);
      }
      if problem != "" {
        return Err(problem);
      }
      if TargetKey(d) in seenTargets {
        return Err("clone disk target duplicated");
      }
      seenTargets := seenTargets + {TargetKey(d)};
      items := items + [d];
    }
    assert requests[..|requests|] == requests;
    return Ok(items);
  }

  lemma NothingSettled(disks: seq<ConfigDisk>)
    ensures forall rs: seq<CloneDisk> :: |rs| == 0 ==> SettledAll(rs, disks) == []
    ensures CloneAccepted([], disks) && Keys({}, [])
  {
  }

  // ---------- The run ----------

  function CopyTargets(ds: seq<CloneDisk>): (r: seq<(string, string)>)
    ensures |r| == |ds| && forall i :: 0 <= i < |ds| ==> r[i] == (TrimSpace(ds[i].pool), TrimSpace(ds[i].targetName))
  {
    seq(|ds|, i requires 0 <= i < |ds| => (TrimSpace(ds[i].pool), TrimSpace(ds[i].targetName)))
  }

  lemma SettledTargets(requests: seq<CloneDisk>, disks: seq<ConfigDisk>)
    ensures CopyTargets(SettledAll(requests, disks)) == CopyTargets(requests)
  {
    hide SettledAll, TrimSpace, ByName;
  }

  /** The pool the copy is taken from. */
  function SourcePool(d: CloneDisk, targets: seq<Pool>): string {
    var name := PoolName(d.sourcePath, targets);
    if name == "" then d.pool else name
  }

  /** The volume the copy is taken from: the file of that base name in that pool. */
  function SourceAt(dirs: Dirs, d: CloneDisk, targets: seq<Pool>): string {
    At(dirs, (SourcePool(d, targets), Base(d.sourcePath)))
  }

  /** diskPaths: the copy made last of every source path. */
  function PathMap(dirs: Dirs, items: seq<CloneDisk>): map<string, string> {
    if items == [] then map[]
    else
      var d := items[|items| - 1];
      PathMap(dirs, items[..|items| - 1])[d.sourcePath := At(dirs, (TrimSpace(d.pool), TrimSpace(d.targetName)))]
  }

  /** The i-th copy can be made: its source is there, if only as an earlier copy, and its own path is free of what was
      there and of the copies before it. */
  ghost predicate CanCopyDisk(dirs: Dirs, was: State, before: seq<CloneDisk>, d: CloneDisk, targets: seq<Pool>) {
    var paths := was.files.Keys + PathsAt(dirs, CopyTargets(before));
    var p, m := TrimSpace(SourcePool(d, targets)), TrimSpace(Base(d.sourcePath));
    var q, n := TrimSpace(d.pool), TrimSpace(d.targetName);
    AsksCopy(p, q, m, n, "", false) && ListedIn(dirs, paths, p, m) && FreeIn(dirs, paths, q, n)
  }

  ghost predicate CanCopyDisks(dirs: Dirs, was: State, items: seq<CloneDisk>, targets: seq<Pool>) {
    items == [] || var n := |items| - 1;
      CanCopyDisks(dirs, was, items[..n], targets) && CanCopyDisk(dirs, was, items[..n], items[n], targets)
  }

  lemma {:induction false} CanCopyFirst(dirs: Dirs, was: State, items: seq<CloneDisk>, targets: seq<Pool>, i: nat)
    requires i < |items|
    ensures CanCopyDisks(dirs, was, items, targets) ==> CanCopyDisk(dirs, was, items[..i], items[i], targets)
    ensures CanCopyDisks(dirs, was, items[..i + 1], targets) <==>
              CanCopyDisks(dirs, was, items[..i], targets) && CanCopyDisk(dirs, was, items[..i], items[i], targets)
    decreases |items|
  {
    hide CanCopyDisk;
    var n := |items| - 1;
    assert items[..i + 1][..i] == items[..i];
    if i < n {
      assert items[..n][..i] == items[..i];
      CanCopyFirst(dirs, was, items[..n], targets, i);
    }
  }

  /** Every copy has the content its source had at the start. */
  ghost predicate Copied(dirs: Dirs, was: State, items: seq<CloneDisk>, targets: seq<Pool>, contents: seq<nat>) {
    && |contents| == |items|
    && forall k :: 0 <= k < |items| && SourceAt(dirs, items[k], targets) in was.files ==>
         contents[k] == was.files[SourceAt(dirs, items[k], targets)]
  }

  /** Where the copying stands after i disks. */
  ghost predicate Copying(run: Run, now: State, log: seq<Event>, items: seq<CloneDisk>, i: nat, targets: seq<Pool>,
                          contents: seq<nat>, diskPaths: map<string, string>)
    requires i <= |items|
  {
    && Making(run, now, log, CopyTargets(items[..i]), contents)
    && diskPaths == PathMap(run.dirs, items[..i]) && Copied(run.dirs, run.was, items[..i], targets, contents)
  }

  lemma CopyingStart(run: Run, log: seq<Event>, items: seq<CloneDisk>, targets: seq<Pool>)
    requires run.from == |log|
    ensures Copying(run, run.was, log, items, 0, targets, [], map[])
  {
    MakingStart(run, log);
    assert CopyTargets(items[..0]) == [];
  }

  lemma CopiedOne(dirs: Dirs, was: State, items: seq<CloneDisk>, i: nat, targets: seq<Pool>, contents: seq<nat>,
                  content: nat)
    requires i < |items| && Copied(dirs, was, items[..i], targets, contents)
    requires var s := SourceAt(dirs, items[i], targets); s in was.files ==> content == was.files[s]
    ensures Copied(dirs, was, items[..i + 1], targets, contents + [content])
  {
    hide SourceAt;
  }

  lemma CopyingOne(host: Host, run: Run, mid: State, now: State, before: seq<Event>, after: seq<Event>,
                   items: seq<CloneDisk>, i: nat, targets: seq<Pool>, contents: seq<nat>,
                     diskPaths: map<string, string>,
                   content: nat)
    requires run.dirs == host.dirs && run.choices == host.choices && i < |items| && before <= after
    requires Copying(run, mid, before, items, i, targets, contents, diskPaths)
    requires var v := CopyTargets(items)[i];
             && Tried(true, run.choices, mid, now, after, |before|, At(run.dirs, v))
             && Proper(run.dirs, v) && host.Made(mid, now, TrimSpace(v.0), TrimSpace(v.1), content)
    requires var s := SourceAt(run.dirs, items[i], targets); s in mid.files && content == mid.files[s]
    ensures Copying(run, now, after, items, i + 1, targets, contents + [content],
                    diskPaths[items[i].sourcePath := At(run.dirs, CopyTargets(items)[i])])
  {
    hide TrimSpace, Proper, At, SourceAt, Tried, Copied;
    var v := CopyTargets(items)[i];
    NextCopy(run.dirs, items, i);
    hide PathMap, CopyTargets;
    MakingOne(host, run, mid, now, before, after, CopyTargets(items[..i]), contents, v, content);
    MakingBroken(run, mid, before, CopyTargets(items[..i]), contents);
    MakingProper(run, mid, before, CopyTargets(items[..i]), contents);
    hide Making, Broken;
    CopiedOne(run.dirs, run.was, items, i, targets, contents, content);
  }

  lemma NextCopy(dirs: Dirs, items: seq<CloneDisk>, i: nat)
    requires i < |items|
    ensures CopyTargets(items[..i + 1]) == CopyTargets(items[..i]) + [CopyTargets(items)[i]]
    ensures PathMap(dirs, items[..i + 1])
              == PathMap(dirs, items[..i])[items[i].sourcePath := At(dirs, CopyTargets(items)[i])]
    ensures At(dirs, CopyTargets(items)[i]) in PathsAt(dirs, CopyTargets(items))
  {
    hide TrimSpace, At;
    assert items[..i + 1][..i] == items[..i];
  }

  lemma SomeCopies(dirs: Dirs, items: seq<CloneDisk>, i: nat)
    requires i <= |items|
    ensures PathsAt(dirs, CopyTargets(items[..i])) <= PathsAt(dirs, CopyTargets(items))
    ensures CopyTargets(items[..0]) == []
  {
    hide At, TrimSpace;
    forall v | v in CopyTargets(items[..i]) ensures v in CopyTargets(items) {
      var k :| 0 <= k < i && CopyTargets(items[..i])[k] == v;
      assert CopyTargets(items)[k] == v;
    }
  }

  /** Copy one disk. */
  method CopyDisk(host: Host, items: seq<CloneDisk>, i: nat, targets: seq<Pool>, diskPaths: map<string, string>,
                  ghost run: Run, ghost contents: seq<nat>)
    returns (ok: bool, path: string, ghost content: nat)
    requires host.Valid() && run.dirs == host.dirs && run.choices == host.choices
    requires i < |items| && run.wanted == PathsAt(run.dirs, CopyTargets(items))
    requires Copying(run, host.state, host.log, items, i, targets, contents, diskPaths)
    modifies host
    ensures host.Valid() && old(host.log) <= host.log
    ensures ok ==>
              Copying(run, host.state, host.log, items, i + 1, targets, contents + [content],
                      diskPaths[items[i].sourcePath := path])
    ensures !ok ==> Broken(run, host.state, host.log, CopyTargets(items[..i]), contents)
    ensures ok <==>
              CanCopyDisk(run.dirs, run.was, items[..i], items[i], targets)
                && Smooth(host.choices, host.log, |old(host.log)|)
  {
    hide TrimSpace, Copying, Broken, Tried, PoolName, Base, PathsAt, Clean, AsksCopy, FreeIn, ListedIn, Smooth;
    ghost var mid, log := host.state, host.log;
    CopyingMakes(run, mid, log, items, i, targets, contents, diskPaths);
    MakingPaths(run, mid, log, CopyTargets(items[..i]), contents);
    var d := items[i];
    var sourcePool := PoolNameForPath(d.sourcePath, targets);
    if sourcePool == "" {
      sourcePool := d.pool;
    }
    NextCopy(run.dirs, items, i);
    AtPath(host, CopyTargets(items)[i]);
    var volume := host.CloneStorageVolumeToPool(sourcePool, d.pool, Base(d.sourcePath), d.targetName, "", false);
    ok, path, content := volume.Ok?, "", 0;
    if ok {
      path := volume.value.path;
      content := mid.files[SourceAt(host.dirs, d, targets)];
      CopyingOne(host, run, mid, host.state, log, host.log, items, i, targets, contents, diskPaths, content);
    } else {
      CopyingFailed(run, mid, host.state, log, host.log, items, i, targets, contents, diskPaths);
    }
  }

  lemma CopyingFailed(run: Run, mid: State, now: State, before: seq<Event>, after: seq<Event>, items: seq<CloneDisk>,
                      i: nat, targets: seq<Pool>, contents: seq<nat>, diskPaths: map<string, string>)
    requires i < |items| && before <= after && run.wanted == PathsAt(run.dirs, CopyTargets(items))
    requires Copying(run, mid, before, items, i, targets, contents, diskPaths)
    requires Tried(false, run.choices, mid, now, after, |before|, At(run.dirs, CopyTargets(items)[i]))
    ensures Broken(run, now, after, CopyTargets(items[..i]), contents)
  {
    NextCopy(run.dirs, items, i);
    hide Making, Broken, Tried, CopyTargets, PathMap, At, PathsAt;
    MakingFailed(run, mid, now, before, after, CopyTargets(items[..i]), contents, At(run.dirs, CopyTargets(items)[i]));
  }

  method CopyDisks(host: Host, items: seq<CloneDisk>, targets: seq<Pool>, ghost run: Run)
    returns (ok: bool, made: seq<(string, string)>, diskPaths: map<string, string>, ghost contents: seq<nat>)
    requires host.Valid() && run.dirs == host.dirs && run.choices == host.choices
    requires run.was == host.state && run.from == |host.log| && run.wanted == PathsAt(run.dirs, CopyTargets(items))
    modifies host
    ensures host.Valid() && old(host.log) <= host.log
    ensures Broken(run, host.state, host.log, made, contents) && PathsAt(run.dirs, made) <= run.wanted
    ensures ok ==> Making(run, host.state, host.log, made, contents)
    ensures ok ==> made == CopyTargets(items) && diskPaths == PathMap(host.dirs, items)
                   && Copied(host.dirs, run.was, items, targets, contents)
    ensures ok <==> CanCopyDisks(run.dirs, run.was, items, targets) && Smooth(host.choices, host.log, run.from)
  {
    hide *;
    NoCopies(run.dirs, run.was, items, targets);
    SmoothHere(host.choices, host.log);
    made, diskPaths, contents := [], map[], [];
    CopyingStart(run, host.log, items, targets);
    SomeCopies(run.dirs, items, 0);
    for i := 0 to |items|
      invariant host.Valid() && old(host.log) <= host.log && made == CopyTargets(items[..i])
      invariant Copying(run, host.state, host.log, items, i, targets, contents, diskPaths)
      invariant CanCopyDisks(run.dirs, run.was, items[..i], targets) && Smooth(host.choices, host.log, run.from)
    {
      ghost var between := host.log;
      CopyingMakes(run, host.state, between, items, i, targets, contents, diskPaths);
      MakingFrom(run, host.state, between, CopyTargets(items[..i]), contents);
      var done, path, content := CopyDisk(host, items, i, targets, diskPaths, run, contents);
      SmoothJoin(host.choices, between, host.log, run.from);
      CanCopyFirst(run.dirs, run.was, items, targets, i);
      if !done {
        SomeCopies(run.dirs, items, i);
        return false, made, diskPaths, contents;
      }
      NextCopy(run.dirs, items, i);
      made := made + [(TrimSpace(items[i].pool), TrimSpace(items[i].targetName))];
      diskPaths := diskPaths[items[i].sourcePath := path];
      contents := contents + [content];
    }
    CopyingMakes(run, host.state, host.log, items, |items|, targets, contents, diskPaths);
    assert items[..|items|] == items;
    MakingBroken(run, host.state, host.log, made, contents);
    return true, made, diskPaths, contents;
  }

  lemma NoCopies(dirs: Dirs, was: State, items: seq<CloneDisk>, targets: seq<Pool>)
    ensures CanCopyDisks(dirs, was, items[..0], targets)
  {
  }

  lemma CopyingMakes(run: Run, now: State, log: seq<Event>, items: seq<CloneDisk>, i: nat, targets: seq<Pool>,
                     contents: seq<nat>, diskPaths: map<string, string>)
    requires i <= |items| && Copying(run, now, log, items, i, targets, contents, diskPaths)
    ensures Making(run, now, log, CopyTargets(items[..i]), contents)
    ensures diskPaths == PathMap(run.dirs, items[..i]) && Copied(run.dirs, run.was, items[..i], targets, contents)
  {
  }

  // ---------- The clone ----------

  /** What a clone worked on: the disks read off the source, the requests, and the contents copied. */
  datatype CloneRun = CloneRun(disks: seq<ConfigDisk>, items: seq<CloneDisk>, contents: seq<nat>)

  /** The options with the copies filled in. */
  function Filled(dirs: Dirs, options: CloneRequest, items: seq<CloneDisk>): CloneRequest {
    options.(diskPaths := PathMap(dirs, items))
  }

  /** The requests were fit for the source machine. */
  ghost predicate FitsSource(was: State, vm: string, requests: seq<CloneDisk>, disks: seq<ConfigDisk>,
                             items: seq<CloneDisk>) {
    && vm in was.domains && Describes(disks, was.domains[vm])
    && items == SettledAll(requests, disks) && CloneAccepted(items, disks)
  }

  /** The clone is there: the copies, and the rewritten definition as far as disks go. */
  ghost predicate Cloned(dirs: Dirs, was: State, now: State, vm: string, options: CloneRequest,
                         requests: seq<CloneDisk>, targets: seq<Pool>, run: CloneRun)
  {
    && FitsSource(was, vm, requests, run.disks, run.items)
    && Provisioned(dirs, was, now, options.name, CopyTargets(requests), run.contents)
    && Copied(dirs, was, run.items, targets, run.contents)
    && options.name in now.domains
    && ConfigDisks(now.domains[options.name])
      == ConfigDisks(CloneDoc(Filled(dirs, options, run.items), was.domains[vm]))
  }

  /** Reading the source and checking the request. */
  method ReadSource(host: Host, vm: string, requests: seq<CloneDisk>, config: seq<ConfigDisk>)
    returns (r: Result<(Forest, seq<CloneDisk>)>)
    ensures r.Ok? <==> FitsSource(host.state, vm, requests, config, SettledAll(requests, config))
    ensures r.Ok? ==> r.value.1 == SettledAll(requests, config) && r.value.0 == host.state.domains[vm]
    ensures r.Ok? ==> CopyTargets(r.value.1) == CopyTargets(requests)
  {
    hide Describes, CloneAccepted, SettledAll, CopyTargets;
    if vm !in host.state.domains || !Describes(config, host.state.domains[vm]) {
      return Err("command failed");
    }
    var items := ValidateCloneDisks(requests, config);
    if items.Err? {
      return Err(items.message);
    }
    SettledTargets(requests, config);
    return Ok((host.state.domains[vm], items.value));
  }

  /** CloneVM; targets are the pools its listing shows, running and config what the queries about the source answer, and
      settings counts what is set behind the definition: the description, and the start if asked for. Whatever fails
      and whenever, either the clone is defined and has all its copies, or the host is as before but for files that
      may stay. It succeeds exactly if the checks pass, the copies can be made, and no command fails. */
  method CloneVM(host: Host, vm: string, options: CloneRequest, requests: seq<CloneDisk>, targets: seq<Pool>,
                 running: bool, config: Option<seq<ConfigDisk>>, settings: nat)
    returns (r: Result<()>, ghost run: CloneRun)
    requires host.Valid()
    modifies host
    ensures host.Valid() && old(host.log) <= host.log
    ensures var copies := CopyTargets(requests);
            Outcome(Run(host.dirs, host.choices, old(host.state), |old(host.log)|, PathsAt(host.dirs, copies)),
                    host.state, host.log, options.name, copies, run.contents)
    ensures r.Ok? ==> Defined(old(host.state), host.state, options.name)
    ensures Defined(old(host.state), host.state, options.name) ==>
              && Cloned(host.dirs, old(host.state), host.state, vm, options, requests, targets, run)
              && DefinedAs(host.state, host.log, |old(host.log)|, options.name,
                           CloneDoc(Filled(host.dirs, options, run.items), old(host.state.domains[vm])))
    ensures r.Ok? ==> vm in old(host.state.domains)
                      && SetUp(host.log, |old(host.log)|, options.name,
                               CloneDoc(Filled(host.dirs, options, run.items), old(host.state.domains[vm])), settings)
    ensures r.Ok? <==> && MayClone(old(host.state), vm, options.name, requests, running, config)
                       && CanCopyDisks(host.dirs, old(host.state), SettledAll(requests, config.value), targets)
                       && Smooth(host.choices, host.log, |old(host.log)|)
  {
    hide *;
    ghost var start := host.log;
    MayCloneIs(host.state, vm, options.name, requests, running, config);
    ghost var copies := CopyTargets(requests);
    ghost var all := Run(host.dirs, host.choices, host.state, |host.log|, PathsAt(host.dirs, copies));
    run := CloneRun([], [], []);
    NothingDone(all, host.log, options.name, copies, run.contents);
    var answered: bool := *;
    if |requests| == 0 {
      return Err("clone disk is required"), run;
    }
    if running {
      return Err("vm is running"), run;
    }
    if answered && options.name in host.state.domains {
      return Err("clone vm already exists"), run;
    }
    if config.None? {
      return Err("command failed"), run;
    }
    var source := ReadSource(host, vm, requests, config.value);
    if source.Err? {
      return Err(source.message), run;
    }
    var doc, items := source.value.0, source.value.1;
    var ok, made, diskPaths, contents := CopyDisks(host, items, targets, all);
    run := CloneRun(config.value, items, contents);
    ghost var copied := host.log;
    if !ok {
      Abandon(host, made, all, contents);
      SmoothJoin(host.choices, copied, host.log, |start|);
      AbandonedOutcome(all, host.state, host.log, options.name, copies, contents);
      return Err("command failed"), run;
    }
    var next := CloneDoc(options.(diskPaths := diskPaths), doc);
    ghost var mid, log := host.state, host.log;
    MakingDomains(all, mid, log, made, contents);
    DefineWorks(host.choices(|log|), mid, options.name, next);
    DefineEffect(host.choices(|log|), mid, options.name, next, false);
    var defined := host.Do(Define(options.name, next, false));
    ghost var tried := host.log;
    SmoothOne(host.choices, log, tried);
    SmoothJoin(host.choices, log, tried, |start|);
    if !defined {
      MakingStutter(all, mid, log, host.log[|log|], made, contents);
      MakingBroken(all, mid, host.log, made, contents);
      Abandon(host, made, all, contents);
      SmoothJoin(host.choices, tried, host.log, |start|);
      AbandonedOutcome(all, host.state, host.log, options.name, copies, contents);
      return Err("command failed"), run;
    }
    DefinedRun(all, mid, host.state, log, host.log[|log|], options.name, next, made, contents);
    r := Settle(host, options.name, settings, all, made, contents);
    SmoothJoin(host.choices, tried, host.log, |start|);
    assert |start| <= |tried|;
    StandingProvisioned(all, host.state, host.log, options.name, made, contents);
    StandingOutcome(all, host.state, host.log, options.name, made, contents);
    ClonedNow(host.dirs, all.was, host.state, vm, options, requests, targets, run, next);
    NowDefinedAs(host.state, host.log, |start|, |log|, options.name, next);
    FilledWith(host.dirs, options, items);
    if r.Ok? {
      NowSetUp(host.log, |start|, |log|, options.name, next, settings);
    }
  }

  lemma FilledWith(dirs: Dirs, options: CloneRequest, items: seq<CloneDisk>)
    ensures Filled(dirs, options, items) == options.(diskPaths := PathMap(dirs, items))
  {
    hide PathMap;
  }

  /** The checks of a clone request pass. */
  ghost predicate MayClone(was: State, vm: string, name: string, requests: seq<CloneDisk>, running: bool,
                           config: Option<seq<ConfigDisk>>)
  {
    && requests != [] && !running && name !in was.domains
    && config.Some? && FitsSource(was, vm, requests, config.value, SettledAll(requests, config.value))
  }

  lemma MayCloneIs(was: State, vm: string, name: string, requests: seq<CloneDisk>, running: bool,
                   config: Option<seq<ConfigDisk>>)
    ensures MayClone(was, vm, name, requests, running, config) <==>
              && requests != [] && !running && name !in was.domains
              && config.Some? && FitsSource(was, vm, requests, config.value, SettledAll(requests, config.value))
  {
    hide FitsSource, SettledAll;
  }

  lemma StandingProvisioned(run: Run, now: State, log: seq<Event>, vm: string, volumes: seq<(string, string)>,
                            contents: seq<nat>)
    requires Standing(run, now, log, vm, volumes, contents)
    ensures vm in now.domains && Provisioned(run.dirs, run.was, now, vm, volumes, contents)
  {
  }

  lemma ClonedNow(dirs: Dirs, was: State, now: State, vm: string, options: CloneRequest, requests: seq<CloneDisk>,
                  targets: seq<Pool>, run: CloneRun, next: Forest)
    requires FitsSource(was, vm, requests, run.disks, run.items) && Copied(dirs, was, run.items, targets, run.contents)
    requires Provisioned(dirs, was, now, options.name, CopyTargets(run.items), run.contents)
    requires options.name in now.domains
    requires ConfigDisks(now.domains[options.name]) == ConfigDisks(next)
    requires next == CloneDoc(options.(diskPaths := PathMap(dirs, run.items)), was.domains[vm])
    ensures Cloned(dirs, was, now, vm, options, requests, targets, run) && vm in was.domains
  {
    SettledTargets(requests, run.disks);
    hide CloneAccepted, SettledAll, Describes, ConfigDisks, CloneDoc, Copied, Provisioned;
  }
}

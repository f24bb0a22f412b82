// CreateVM: what it makes, and what is there at every moment and at the end of every run.
module VMCreation {
  import opened Common
  import opened Strings
  import opened Xml
  import opened DomainConfig
  import opened Commands
  import opened Storage
  import opened Provisioning

  datatype NewVolume = NewVolume(pool: string, name: string, format: string, capacity: int)

  datatype Template = Template(sourcePool: string, targetPool: string, sourceName: string, targetName: string,
                               format: string, convert: bool)

  /** settings counts what is set behind the definition: memory statistics, and if asked for description and start. */
  datatype CreateRequest = CreateRequest(name: string, template: Option<Template>, disks: seq<NewVolume>, settings: nat)

  function Volumes(disks: seq<NewVolume>): (r: seq<(string, string)>)
    ensures |r| == |disks| && forall i :: 0 <= i < |disks| ==> r[i] == (disks[i].pool, disks[i].name)
  {
    seq(|disks|, i requires 0 <= i < |disks| => (disks[i].pool, disks[i].name))
  }

  function Wanted(request: CreateRequest): seq<(string, string)> {
    match request.template
    case Some(t) => [(t.targetPool, t.targetName)]
    case None => Volumes(request.disks)
  }

  function Zeros(n: nat): (r: seq<nat>)
    ensures |r| == n && forall i :: 0 <= i < n ==> r[i] == 0
  {
    seq(n, i => 0)
  }

  /** The content of each wanted volume: that of the template, or blank. */
  function Initial(dirs: Dirs, was: State, request: CreateRequest): seq<nat> {
    match request.template
    case Some(t) =>
      var source := At(dirs, (t.sourcePool, t.sourceName));
      [if source in was.files then was.files[source] else 0]
    case None => Zeros(|request.disks|)
  }

  // ---------- When it works ----------

  /** Each volume is asked for in order, and its path is free of what was there and of the volumes before it. */
  ghost predicate CanMakeDisks(dirs: Dirs, was: State, disks: seq<NewVolume>) {
    disks == [] || var n := |disks| - 1;
      CanMakeDisks(dirs, was, disks[..n]) && CanMakeDisk(dirs, was, disks[..n], disks[n])
  }

  ghost predicate CanMakeDisk(dirs: Dirs, was: State, before: seq<NewVolume>, d: NewVolume) {
    && Asks(d.pool, d.name, d.format, d.capacity)
    && FreeIn(dirs, was.files.Keys + PathsAt(dirs, Volumes(before)), TrimSpace(d.pool), TrimSpace(d.name))
  }

  predicate CanCopyTemplate(dirs: Dirs, was: State, t: Template) {
    var p, q, m, n := TrimSpace(t.sourcePool), TrimSpace(t.targetPool), TrimSpace(t.sourceName),
      TrimSpace(t.targetName);
    && AsksCopy(p, q, m, n, t.format, t.convert) && ListedIn(dirs, was.files.Keys, p, m)
    && FreeIn(dirs, was.files.Keys, q, n)
  }

  /** Nothing that is known before stands in the way of the volumes. */
  ghost predicate CanMake(dirs: Dirs, was: State, request: CreateRequest) {
    match request.template
    case Some(t) => CanCopyTemplate(dirs, was, t)
    case None => CanMakeDisks(dirs, was, request.disks)
  }

  lemma {:induction false} CanMakeFirst(dirs: Dirs, was: State, disks: seq<NewVolume>, i: nat)
    requires i < |disks|
    ensures CanMakeDisks(dirs, was, disks) ==> CanMakeDisk(dirs, was, disks[..i], disks[i])
    ensures CanMakeDisks(dirs, was, disks[..i + 1]) <==>
              CanMakeDisks(dirs, was, disks[..i]) && CanMakeDisk(dirs, was, disks[..i], disks[i])
    decreases |disks|
  {
    hide CanMakeDisk;
    var n := |disks| - 1;
    assert disks[..i + 1][..i] == disks[..i];
    if i < n {
      assert disks[..n][..i] == disks[..i];
      CanMakeFirst(dirs, was, disks[..n], i);
    }
  }

  // ---------- At every moment ----------

  /** The definition of the machine is new. */
  predicate Defined(was: State, now: State, vm: string) {
    vm in now.domains && vm !in was.domains
  }

  ghost predicate OthersSame(was: State, now: State, vm: string) {
    forall v :: v != vm ==>
      (v in now.domains <==> v in was.domains) && (v in was.domains ==> now.domains[v] == was.domains[v])
  }

  /** All that is new are the machine and its volumes, each with its content. */
  ghost predicate Provisioned(dirs: Dirs, was: State, now: State, vm: string, volumes: seq<(string, string)>,
                              contents: seq<nat>)
  {
    && Keeps(was, now.(domains := was.domains)) && OthersSame(was, now, vm)
    && AllMade(dirs, was, now, volumes, contents) && NewOnly(was, now, PathsAt(dirs, volumes))
  }

  /** At any moment: no file that was there is lost or altered, no other definition changes, and the new
      definition is there only if all its volumes are. */
  ghost predicate Safe(was: State, s: State, vm: string, paths: set<string>) {
    && Keeps(was, s.(domains := was.domains)) && OthersSame(was, s, vm)
    && (s.domains == was.domains || paths <= s.files.Keys)
  }

  ghost predicate AllSafe(run: Run, log: seq<Event>, vm: string) {
    forall k :: run.from <= k < |log| ==> Safe(run.was, log[k].state, vm, run.wanted)
  }

  lemma KeepingIsSafe(run: Run, log: seq<Event>, vm: string)
    requires AllKeep(run.was, log, run.from)
    ensures AllSafe(run, log, vm)
  {
    forall k | run.from <= k < |log| ensures Safe(run.was, log[k].state, vm, run.wanted) {
      assert Keeps(run.was, log[k].state);
    }
  }

  lemma SafeStep(run: Run, before: seq<Event>, e: Event, vm: string)
    requires AllSafe(run, before, vm) && Safe(run.was, e.state, vm, run.wanted)
    ensures AllSafe(run, before + [e], vm)
  {
    hide Safe;
  }

  // ---------- Making the volumes ----------

  /** Make one volume more. */
  method MakeDisk(host: Host, disk: NewVolume, ghost run: Run, ghost before: seq<NewVolume>, ghost contents: seq<nat>)
    returns (ok: bool)
    requires host.Valid() && run.dirs == host.dirs && run.choices == host.choices
    requires Making(run, host.state, host.log, Volumes(before), contents)
    requires At(run.dirs, (disk.pool, disk.name)) in run.wanted
    modifies host
    ensures host.Valid() && old(host.log) <= host.log
    ensures ok ==> Making(run, host.state, host.log, Volumes(before) + [(disk.pool, disk.name)], contents + [0])
    ensures !ok ==> Broken(run, host.state, host.log, Volumes(before), contents)
    ensures ok <==> CanMakeDisk(run.dirs, run.was, before, disk) && Smooth(host.choices, host.log, |old(host.log)|)
  {
    hide TrimSpace, Making, Broken, Tried, At, Asks, FreeIn, Smooth, Volumes;
    ghost var mid, log, v, made := host.state, host.log, (disk.pool, disk.name), Volumes(before);
    MakingPaths(run, mid, log, made, contents);
    AtPath(host, v);
    var volume := host.CreateStorageVolume(disk.pool, disk.name, disk.format, disk.capacity);
    ok := volume.Ok?;
    if ok {
      MakingOne(host, run, mid, host.state, log, host.log, made, contents, v, 0);
    } else {
      MakingFailed(run, mid, host.state, log, host.log, made, contents, At(run.dirs, v));
    }
  }

  lemma NextVolume(dirs: Dirs, disks: seq<NewVolume>, i: nat)
    requires i < |disks|
    ensures Volumes(disks[..i + 1]) == Volumes(disks[..i]) + [(disks[i].pool, disks[i].name)]
    ensures Zeros(i + 1) == Zeros(i) + [0]
    ensures At(dirs, (disks[i].pool, disks[i].name)) in PathsAt(dirs, Volumes(disks))
  {
    hide At;
    assert Volumes(disks)[i] == (disks[i].pool, disks[i].name);
  }

  /** The volumes made are among those of the request. */
  lemma SomeVolumes(dirs: Dirs, disks: seq<NewVolume>, i: nat)
    requires i <= |disks|
    ensures PathsAt(dirs, Volumes(disks[..i])) <= PathsAt(dirs, Volumes(disks))
    ensures Volumes(disks[..0]) == [] && Zeros(0) == []
  {
    hide At;
    forall v | v in Volumes(disks[..i]) ensures v in Volumes(disks) {
      var k :| 0 <= k < i && Volumes(disks[..i])[k] == v;
      assert Volumes(disks)[k] == v;
    }
  }

  method CreateDisks(host: Host, disks: seq<NewVolume>, ghost run: Run)
    returns (ok: bool, made: seq<(string, string)>, ghost contents: seq<nat>)
    requires host.Valid() && run.dirs == host.dirs && run.choices == host.choices
    requires run.was == host.state && run.from == |host.log| && run.wanted == PathsAt(run.dirs, Volumes(disks))
    modifies host
    ensures host.Valid() && old(host.log) <= host.log
    ensures Broken(run, host.state, host.log, made, contents) && PathsAt(run.dirs, made) <= run.wanted
    ensures ok ==> Making(run, host.state, host.log, made, contents)
    ensures ok ==> made == Volumes(disks) && contents == Zeros(|disks|)
    ensures ok <==> CanMakeDisks(run.dirs, run.was, disks) && Smooth(host.choices, host.log, run.from)
  {
    hide *;
    NoDisks(run.dirs, run.was, disks);
    SmoothHere(host.choices, host.log);
    made, contents := [], [];
    MakingStart(run, host.log);
    SomeVolumes(run.dirs, disks, 0);
    for i := 0 to |disks|
      invariant host.Valid() && old(host.log) <= host.log
      invariant Making(run, host.state, host.log, made, contents)
      invariant made == Volumes(disks[..i]) && contents == Zeros(i)
      invariant CanMakeDisks(run.dirs, run.was, disks[..i]) && Smooth(host.choices, host.log, run.from)
    {
      NextVolume(run.dirs, disks, i);
      ghost var between := host.log;
      MakingFrom(run, host.state, between, made, contents);
      var done := MakeDisk(host, disks[i], run, disks[..i], contents);
      SmoothJoin(host.choices, between, host.log, run.from);
      CanMakeFirst(run.dirs, run.was, disks, i);
      if !done {
        SomeVolumes(run.dirs, disks, i);
        return false, made, contents;
      }
      made := made + [(disks[i].pool, disks[i].name)];
      contents := contents + [0];
    }
    assert disks[..|disks|] == disks;
    MakingBroken(run, host.state, host.log, made, contents);
    return true, made, contents;
  }

  lemma NoDisks(dirs: Dirs, was: State, disks: seq<NewVolume>)
    ensures CanMakeDisks(dirs, was, disks[..0])
  {
  }

  lemma MakingFrom(run: Run, now: State, log: seq<Event>, made: seq<(string, string)>, contents: seq<nat>)
    requires Making(run, now, log, made, contents)
    ensures run.from <= |log|
  {
    hide Growing, AllKeep;
  }

  /** While volumes are made the files are those that were there and the volumes. */
  lemma MakingPaths(run: Run, now: State, log: seq<Event>, made: seq<(string, string)>, contents: seq<nat>)
    requires Making(run, now, log, made, contents)
    ensures now.files.Keys == run.was.files.Keys + PathsAt(run.dirs, made)
  {
    hide At, Proper, AllKeep;
    forall v | v in made ensures At(run.dirs, v) in now.files {
      var k :| 0 <= k < |made| && made[k] == v;
      assert MadeAt(run.dirs, run.was, now, made[k], contents[k]);
    }
  }

  method CopyTemplate(host: Host, t: Template, ghost run: Run)
    returns (ok: bool, made: seq<(string, string)>, ghost contents: seq<nat>)
    requires host.Valid() && run.dirs == host.dirs && run.choices == host.choices
    requires run.was == host.state && run.from == |host.log|
    requires run.wanted == PathsAt(run.dirs, [(t.targetPool, t.targetName)])
    modifies host
    ensures host.Valid() && old(host.log) <= host.log
    ensures Broken(run, host.state, host.log, made, contents) && PathsAt(run.dirs, made) <= run.wanted
    ensures ok ==> Making(run, host.state, host.log, made, contents)
    ensures ok ==> made == [(t.targetPool, t.targetName)]
                   && var source := At(host.dirs, (t.sourcePool, t.sourceName));
                      source in run.was.files && contents == [run.was.files[source]]
    ensures ok <==> CanCopyTemplate(run.dirs, run.was, t) && Smooth(host.choices, host.log, run.from)
  {
    hide TrimSpace, Making, Broken, Tried, AsksCopy, ListedIn, FreeIn, Smooth;
    ghost var log := host.log;
    var v := (t.targetPool, t.targetName);
    MakingStart(run, log);
    AtPath(host, v);
    var volume := host.CloneStorageVolumeToPool(t.sourcePool, t.targetPool, t.sourceName, t.targetName, t.format,
                                                t.convert);
    ok := volume.Ok?;
    made, contents := [], [];
    if ok {
      ghost var content := run.was.files[At(host.dirs, (t.sourcePool, t.sourceName))];
      MakingOne(host, run, run.was, host.state, log, host.log, [], [], v, content);
      made, contents := [v], [content];
      assert [] + made == made && [] + contents == contents;
      MakingBroken(run, host.state, host.log, made, contents);
    } else {
      MakingFailed(run, run.was, host.state, log, host.log, [], [], At(run.dirs, v));
    }
  }

  /** The volumes of the request: a copy of the template, or new ones. */
  method MakeVolumes(host: Host, request: CreateRequest, ghost run: Run)
    returns (ok: bool, made: seq<(string, string)>, ghost contents: seq<nat>)
    requires host.Valid() && run.dirs == host.dirs && run.choices == host.choices
    requires run.was == host.state && run.from == |host.log| && run.wanted == PathsAt(run.dirs, Wanted(request))
    modifies host
    ensures host.Valid() && old(host.log) <= host.log
    ensures Broken(run, host.state, host.log, made, contents) && PathsAt(run.dirs, made) <= run.wanted
    ensures ok ==> Making(run, host.state, host.log, made, contents)
    ensures ok ==> made == Wanted(request) && contents == Initial(host.dirs, run.was, request)
    ensures ok <==> CanMake(run.dirs, run.was, request) && Smooth(host.choices, host.log, run.from)
  {
    hide TrimSpace, Making, Broken, PathsAt, CanCopyTemplate, CanMakeDisks, Smooth;
    match request.template
    case Some(t) => ok, made, contents := CopyTemplate(host, t, run);
    case None => ok, made, contents := CreateDisks(host, request.disks, run);
  }

  // ---------- Defining the machine ----------

  lemma DefinedNow(run: Run, mid: State, now: State, vm: string, doc: Forest, made: seq<(string, string)>,
                   contents: seq<nat>)
    requires Growing(run, mid, made, contents) && vm !in mid.domains
    requires now == mid.(domains := mid.domains[vm := doc])
    ensures Provisioned(run.dirs, run.was, now, vm, made, contents) && Defined(run.was, now, vm)
  {
    hide At, Proper, PathsAt;
  }

  lemma ProvisionedSafe(dirs: Dirs, was: State, now: State, vm: string, made: seq<(string, string)>, contents: seq<nat>)
    requires Provisioned(dirs, was, now, vm, made, contents)
    ensures Safe(was, now, vm, PathsAt(dirs, made))
  {
    hide At, Proper, Keeps, OthersSame;
    forall p | p in PathsAt(dirs, made) ensures p in now.files {
      var k :| 0 <= k < |made| && p == At(dirs, made[k]);
      assert MadeAt(dirs, was, now, made[k], contents[k]);
    }
  }

  /** The run up to the definition and on: what holds from then on. */
  ghost predicate Standing(run: Run, now: State, log: seq<Event>, vm: string, made: seq<(string, string)>,
                           contents: seq<nat>) {
    && Provisioned(run.dirs, run.was, now, vm, made, contents) && Defined(run.was, now, vm)
    && AllSafe(run, log, vm)
  }

  lemma DefinedRun(run: Run, mid: State, now: State, before: seq<Event>, e: Event, vm: string, doc: Forest,
                   made: seq<(string, string)>, contents: seq<nat>)
    requires Making(run, mid, before, made, contents) && vm !in mid.domains && run.wanted == PathsAt(run.dirs, made)
    requires now == mid.(domains := mid.domains[vm := doc]) && e.state == now
    ensures Standing(run, now, before + [e], vm, made, contents)
  {
    DefinedNow(run, mid, now, vm, doc, made, contents);
    ProvisionedSafe(run.dirs, run.was, now, vm, made, contents);
    KeepingIsSafe(run, before, vm);
    SafeStep(run, before, e, vm);
    hide Growing, Provisioned, AllKeep, AllSafe, PathsAt;
  }

  /** At most one definition has changed, and not in its disks. */
  ghost predicate Adjusted(a: State, b: State, vm: string) {
    && b.files == a.files && b.domains.Keys == a.domains.Keys
    && (forall v :: v in b.domains && v != vm ==> b.domains[v] == a.domains[v])
    && (vm in b.domains ==> ConfigDisks(b.domains[vm]) == ConfigDisks(a.domains[vm]))
  }

  lemma AdjustEffect(c: Choice, s: State, vm: string)
    ensures Adjusted(s, Effect(c, s, Adjust(vm)), vm)
  {
    hide ConfigDisks;
  }

  lemma StillStanding(run: Run, mid: State, now: State, before: seq<Event>, e: Event, vm: string,
                      made: seq<(string, string)>, contents: seq<nat>)
    requires Standing(run, mid, before, vm, made, contents) && run.wanted == PathsAt(run.dirs, made) && e.state == now
    requires Adjusted(mid, now, vm)
    ensures Standing(run, now, before + [e], vm, made, contents)
  {
    StillProvisioned(run.dirs, run.was, mid, now, vm, made, contents);
    ProvisionedSafe(run.dirs, run.was, now, vm, made, contents);
    SafeStep(run, before, e, vm);
    hide Provisioned, AllSafe, PathsAt;
  }

  lemma StillProvisioned(dirs: Dirs, was: State, mid: State, now: State, vm: string, made: seq<(string, string)>,
                         contents: seq<nat>)
    requires Provisioned(dirs, was, mid, vm, made, contents) && Defined(was, mid, vm)
    requires Adjusted(mid, now, vm)
    ensures Provisioned(dirs, was, now, vm, made, contents) && Defined(was, now, vm)
  {
    hide At, Proper;
    assert AllMade(dirs, was, now, made, contents);
    hide AllMade;
  }

  function Adjusts(vm: string, settings: nat): (r: seq<Command>)
    ensures |r| == settings
  {
    seq(settings, i => Adjust(vm))
  }

  /** The settings made after the definition: memory statistics, description, start. The first failure ends
      the call; the machine stays. */
  method Settle(host: Host, vm: string, settings: nat, ghost run: Run, ghost made: seq<(string, string)>,
                ghost contents: seq<nat>)
    returns (r: Result<()>)
    requires host.Valid() && run.choices == host.choices && run.wanted == PathsAt(run.dirs, made)
    requires vm in host.state.domains && Standing(run, host.state, host.log, vm, made, contents)
    modifies host
    ensures host.Valid() && old(host.log) <= host.log
    ensures vm in host.state.domains && Standing(run, host.state, host.log, vm, made, contents)
    ensures ConfigDisks(host.state.domains[vm]) == old(ConfigDisks(host.state.domains[vm]))
    ensures r.Ok? <==> Smooth(host.choices, host.log, |old(host.log)|)
    ensures r.Ok? ==> Gives(host.log, |old(host.log)|, Adjusts(vm, settings))
  {
    hide Standing, ConfigDisks, Smooth;
    SmoothHere(host.choices, host.log);
    for step := 0 to settings
      invariant host.Valid() && old(host.log) <= host.log && Smooth(host.choices, host.log, |old(host.log)|)
      invariant |host.log| == |old(host.log)| + step && Gives(host.log, |old(host.log)|, Adjusts(vm, step))
      invariant vm in host.state.domains && Standing(run, host.state, host.log, vm, made, contents)
      invariant ConfigDisks(host.state.domains[vm]) == old(ConfigDisks(host.state.domains[vm]))
    {
      ghost var before := host.log;
      var ok := SettleOne(host, vm, run, made, contents);
      SmoothOne(host.choices, before, host.log);
      SmoothJoin(host.choices, before, host.log, |old(host.log)|);
      GivesMore(before, host.log, |old(host.log)|, Adjusts(vm, step), Adjust(vm));
      assert Adjusts(vm, step + 1) == Adjusts(vm, step) + [Adjust(vm)];
      if !ok {
        return Err("command failed");
      }
    }
    return Ok(());
  }

  method SettleOne(host: Host, vm: string, ghost run: Run, ghost made: seq<(string, string)>, ghost contents: seq<nat>)
    returns (ok: bool)
    requires host.Valid() && run.choices == host.choices && run.wanted == PathsAt(run.dirs, made)
    requires vm in host.state.domains && Standing(run, host.state, host.log, vm, made, contents)
    modifies host
    ensures host.Valid() && old(host.log) <= host.log
    ensures vm in host.state.domains && Standing(run, host.state, host.log, vm, made, contents)
    ensures ConfigDisks(host.state.domains[vm]) == old(ConfigDisks(host.state.domains[vm]))
    ensures |host.log| == |old(host.log)| + 1 && host.log[|old(host.log)|].command == Adjust(vm)
    ensures (ok <==> host.choices(|old(host.log)|).ok)
  {
    hide *;
    ghost var mid, log := host.state, host.log;
    AdjustWorks(host.choices(|log|), mid, vm);
    AdjustEffect(host.choices(|log|), mid, vm);
    ok := host.Do(Adjust(vm));
    StillStanding(run, mid, host.state, log, host.log[|log|], vm, made, contents);
    SameDisks(mid, host.state, vm);
  }

  lemma AdjustWorks(c: Choice, s: State, vm: string)
    ensures Works(c, s, Adjust(vm)) <==> c.ok && vm in s.domains
  {
  }

  lemma SameDisks(a: State, b: State, vm: string)
    requires Adjusted(a, b, vm) && vm in a.domains
    ensures vm in b.domains && ConfigDisks(b.domains[vm]) == ConfigDisks(a.domains[vm])
  {
  }

  /** What every run of a creation leads to: the machine with its volumes, or the host as it was but for files
      that may stay; and at every moment all is safe. */
  ghost predicate Outcome(run: Run, now: State, log: seq<Event>, vm: string, volumes: seq<(string, string)>,
                          contents: seq<nat>)
  {
    && AllSafe(run, log, vm)
    && (Defined(run.was, now, vm) ==> Provisioned(run.dirs, run.was, now, vm, volumes, contents))
    && (!Defined(run.was, now, vm) ==> RolledBack(run, now, log))
  }

  lemma StandingOutcome(run: Run, now: State, log: seq<Event>, vm: string, volumes: seq<(string, string)>,
                        contents: seq<nat>)
    requires Standing(run, now, log, vm, volumes, contents)
    ensures Outcome(run, now, log, vm, volumes, contents) && Defined(run.was, now, vm)
  {
  }

  lemma AbandonedOutcome(run: Run, now: State, log: seq<Event>, vm: string, volumes: seq<(string, string)>,
                         contents: seq<nat>)
    requires RolledBack(run, now, log) && AllKeep(run.was, log, run.from)
    ensures Outcome(run, now, log, vm, volumes, contents) && !Defined(run.was, now, vm)
  {
    KeepingIsSafe(run, log, vm);
  }

  lemma NothingDone(run: Run, log: seq<Event>, vm: string, volumes: seq<(string, string)>, contents: seq<nat>)
    requires run.from == |log|
    ensures Outcome(run, run.was, log, vm, volumes, contents) && !Defined(run.was, run.was, vm)
  {
  }

  /** That document was given to define the machine, and the machine has its disks. */
  ghost predicate DefinedAs(now: State, log: seq<Event>, from: nat, vm: string, doc: Forest) {
    && (exists k :: from <= k < |log| && log[k].command == Define(vm, doc, false))
    && vm in now.domains && ConfigDisks(now.domains[vm]) == ConfigDisks(doc)
  }

  lemma NowDefinedAs(now: State, log: seq<Event>, from: nat, k: nat, vm: string, doc: Forest)
    requires from <= k < |log| && log[k].command == Define(vm, doc, false)
    requires vm in now.domains && ConfigDisks(now.domains[vm]) == ConfigDisks(doc)
    ensures DefinedAs(now, log, from, vm, doc)
  {
    hide ConfigDisks;
  }

  /** Since then the log has the definition of the machine as that document and, in a row, all its settings. */
  ghost predicate SetUp(log: seq<Event>, from: nat, vm: string, doc: Forest, settings: nat) {
    exists at :: from <= at && Gives(log, at, [Define(vm, doc, false)] + Adjusts(vm, settings))
  }

  lemma NowSetUp(log: seq<Event>, from: nat, at: nat, vm: string, doc: Forest, settings: nat)
    requires from <= at < |log| && log[at].command == Define(vm, doc, false)
    requires Gives(log, at + 1, Adjusts(vm, settings))
    ensures SetUp(log, from, vm, doc, settings)
  {
    hide Gives, Adjusts;
    GivesFirst(log, at, Define(vm, doc, false), Adjusts(vm, settings));
  }

  /** CreateVM; printed is the document virt-install prints. Whatever fails and whenever, either the machine is defined
      as that document and has all its volumes, or the host is as before but for files that may stay. It succeeds
      exactly if the name is free, the volumes can be made, there is a document, and no command fails. */
  method CreateVM(host: Host, request: CreateRequest, printed: Option<Forest>) returns (r: Result<()>)
    requires host.Valid()
    modifies host
    ensures host.Valid() && old(host.log) <= host.log
    ensures var wanted := Wanted(request);
            Outcome(Run(host.dirs, host.choices, old(host.state), |old(host.log)|, PathsAt(host.dirs, wanted)),
                    host.state, host.log, request.name, wanted, Initial(host.dirs, old(host.state), request))
    ensures r.Ok? ==> Defined(old(host.state), host.state, request.name)
    ensures Defined(old(host.state), host.state, request.name) ==>
              printed.Some? && DefinedAs(host.state, host.log, |old(host.log)|, request.name, printed.value)
    ensures r.Ok? ==> printed.Some?
                      && SetUp(host.log, |old(host.log)|, request.name, printed.value, request.settings)
    ensures r.Ok? <==> && request.name !in old(host.state.domains) && CanMake(host.dirs, old(host.state), request)
                       && printed.Some? && Smooth(host.choices, host.log, |old(host.log)|)
  {
    hide *;
    ghost var start := host.log;
    ghost var wanted, vm := Wanted(request), request.name;
    ghost var run := Run(host.dirs, host.choices, host.state, |host.log|, PathsAt(host.dirs, wanted));
    ghost var initial := Initial(host.dirs, host.state, request);
    NothingDone(run, host.log, vm, wanted, initial);
    var answered: bool := *;
    if answered && request.name in host.state.domains {
      return Err("vm already exists");
    }
    var ok, made, contents := MakeVolumes(host, request, run);
    ghost var volumesMade := host.log;
    if !ok || printed.None? {
      Abandon(host, made, run, contents);
      SmoothJoin(host.choices, volumesMade, host.log, |start|);
      AbandonedOutcome(run, host.state, host.log, vm, wanted, initial);
      return Err("command failed");
    }
    var doc := printed.value;
    ghost var mid, log := host.state, host.log;
    MakingDomains(run, mid, log, made, contents);
    DefineWorks(host.choices(|log|), mid, request.name, doc);
    DefineEffect(host.choices(|log|), mid, request.name, doc, false);
    var defined := host.Do(Define(request.name, doc, false));
    ghost var tried := host.log;
    SmoothOne(host.choices, log, tried);
    SmoothJoin(host.choices, log, tried, |start|);
    if !defined {
      MakingStutter(run, mid, log, host.log[|log|], made, contents);
      MakingBroken(run, mid, host.log, made, contents);
      Abandon(host, made, run, contents);
      SmoothJoin(host.choices, tried, host.log, |start|);
      AbandonedOutcome(run, host.state, host.log, vm, wanted, initial);
      return Err("command failed");
    }
    DefinedRun(run, mid, host.state, log, host.log[|log|], vm, doc, made, contents);
    StandingHas(run, host.state, host.log, vm, made, contents);
    r := Settle(host, request.name, request.settings, run, made, contents);
    SmoothJoin(host.choices, tried, host.log, |start|);
    assert |start| <= |tried|;
    StandingOutcome(run, host.state, host.log, vm, made, contents);
    NowDefinedAs(host.state, host.log, |start|, |log|, vm, doc);
    if r.Ok? {
      NowSetUp(host.log, |start|, |log|, vm, doc, request.settings);
    }
  }

  lemma StandingHas(run: Run, now: State, log: seq<Event>, vm: string, volumes: seq<(string, string)>,
                    contents: seq<nat>)
    requires Standing(run, now, log, vm, volumes, contents)
    ensures vm in now.domains
  {
  }

  lemma DefineWorks(c: Choice, s: State, vm: string, doc: Forest)
    ensures Works(c, s, Define(vm, doc, false)) <==> c.ok && vm !in s.domains
  {
  }

  lemma MakingDomains(run: Run, now: State, log: seq<Event>, made: seq<(string, string)>, contents: seq<nat>)
    requires Making(run, now, log, made, contents)
    ensures now.domains == run.was.domains
  {
    hide AllMade, PathsAt, AllKeep;
  }

  lemma DefineEffect(c: Choice, s: State, vm: string, doc: Forest, same: bool)
    ensures var works, t := Works(c, s, Define(vm, doc, same)), Effect(c, s, Define(vm, doc, same));
            if works then t == s.(domains := s.domains[vm := doc]) && (same || vm !in s.domains) else t == s
  {
  }
}

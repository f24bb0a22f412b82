// Removing the volumes of a machine: which files can go, and that no other machine loses one.
module Deletion {
  import opened Common
  import opened Strings
  import opened Paths
  import opened DomainConfig
  import opened DeviceValidation
  import opened Commands
  import opened Storage
  import opened Provisioning

  /** A file may go only as one of these volumes, and only if no machine uses it, ISO images excepted. */
  ghost predicate MayErase(dirs: Dirs, domains: map<string, Xml.Forest>, volumes: seq<(string, string)>, path: string) {
    exists v :: v in volumes && At(dirs, v) == path && (IsIso(TrimSpace(v.1)) || !Used(domains, path))
  }

  /** Nothing has changed but that some files are gone that may go. */
  ghost predicate Erased(dirs: Dirs, a: State, b: State, volumes: seq<(string, string)>) {
    && b.domains == a.domains
    && (forall p :: p in b.files ==> p in a.files && b.files[p] == a.files[p])
    && (forall p :: p in a.files && p !in b.files ==> MayErase(dirs, a.domains, volumes, p))
  }

  ghost predicate AllErased(dirs: Dirs, was: State, log: seq<Event>, from: nat, volumes: seq<(string, string)>) {
    forall k :: from <= k < |log| ==> Erased(dirs, was, log[k].state, volumes)
  }

  /** The first i volumes are gone. */
  ghost predicate Gone(dirs: Dirs, now: State, volumes: seq<(string, string)>, i: nat) {
    forall k :: 0 <= k < i && k < |volumes| ==> At(dirs, volumes[k]) !in now.files
  }

  lemma EraseOne(dirs: Dirs, was: State, mid: State, now: State, volumes: seq<(string, string)>, i: nat)
    requires i < |volumes| && Erased(dirs, was, mid, volumes) && Gone(dirs, mid, volumes, i)
    requires now == mid.(files := mid.files - {At(dirs, volumes[i])})
    requires IsIso(TrimSpace(volumes[i].1)) || !Used(mid.domains, At(dirs, volumes[i]))
    ensures Erased(dirs, was, now, volumes) && Gone(dirs, now, volumes, i + 1)
  {
    hide At, IsIso, Used, TrimSpace;
    assert MayErase(dirs, was.domains, volumes, At(dirs, volumes[i]));
  }

  lemma ErasedStep(dirs: Dirs, was: State, mid: State, now: State, before: seq<Event>, after: seq<Event>, from: nat,
                   volumes: seq<(string, string)>)
    requires AllErased(dirs, was, before, from, volumes) && Erased(dirs, was, mid, volumes)
    requires Erased(dirs, was, now, volumes)
    requires before <= after && forall k :: |before| <= k < |after| ==> after[k].state == mid || after[k].state == now
    ensures AllErased(dirs, was, after, from, volumes)
  {
    hide Erased;
    forall k | from <= k < |after| ensures Erased(dirs, was, after[k].state, volumes) {
      assert k < |before| ==> after[k] == before[k];
    }
  }

  lemma EraseStart(dirs: Dirs, was: State, log: seq<Event>, volumes: seq<(string, string)>)
    ensures Erased(dirs, was, was, volumes) && AllErased(dirs, was, log, |log|, volumes) && Gone(dirs, was, volumes, 0)
  {
  }

  // ---------- Deleting volumes in order ----------

  /** For each volume the commands of its deletion, and whether it may go. */
  function DeleteSteps(dirs: Dirs, domains: map<string, Xml.Forest>, volumes: seq<(string, string)>): (r: seq<Step>)
    ensures |r| == |volumes|
    ensures forall i :: 0 <= i < |volumes| ==>
              r[i] == Step(VolumeCommands(dirs, domains, volumes[i]), MayGo(dirs, domains, volumes[i]))
  {
    seq(|volumes|, i requires 0 <= i < |volumes| =>
      Step(VolumeCommands(dirs, domains, volumes[i]), MayGo(dirs, domains, volumes[i])))
  }

  /** The volume may go, and is there once those before it are gone. */
  ghost predicate CanDelete(dirs: Dirs, was: State, before: seq<(string, string)>, v: (string, string)) {
    && MayGo(dirs, was.domains, v)
    && ListedIn(dirs, was.files.Keys - PathsAt(dirs, before), TrimSpace(v.0), TrimSpace(v.1))
  }

  ghost predicate CanDeleteAll(dirs: Dirs, was: State, volumes: seq<(string, string)>) {
    volumes == [] || var n := |volumes| - 1;
      CanDeleteAll(dirs, was, volumes[..n]) && CanDelete(dirs, was, volumes[..n], volumes[n])
  }

  lemma {:induction false} CanDeleteFirst(dirs: Dirs, was: State, volumes: seq<(string, string)>, i: nat)
    requires i < |volumes|
    ensures CanDeleteAll(dirs, was, volumes) ==> CanDelete(dirs, was, volumes[..i], volumes[i])
    ensures CanDeleteAll(dirs, was, volumes[..i + 1]) <==>
              CanDeleteAll(dirs, was, volumes[..i]) && CanDelete(dirs, was, volumes[..i], volumes[i])
    decreases |volumes|
  {
    hide CanDelete;
    var n := |volumes| - 1;
    assert volumes[..i + 1][..i] == volumes[..i];
    if i < n {
      assert volumes[..n][..i] == volumes[..i];
      CanDeleteFirst(dirs, was, volumes[..n], i);
    }
  }

  lemma NothingToDelete(dirs: Dirs, was: State, volumes: seq<(string, string)>)
    ensures CanDeleteAll(dirs, was, volumes[..0]) && PathsAt(dirs, volumes[..0]) == {}
  {
  }

  /** Delete volumes one after the other until one deletion fails. */
  method DeleteVolumes(host: Host, volumes: seq<(string, string)>) returns (r: Result<()>)
    requires host.Valid()
    modifies host
    ensures host.Valid() && old(host.log) <= host.log
    ensures Erased(host.dirs, old(host.state), host.state, volumes)
    ensures AllErased(host.dirs, old(host.state), host.log, |old(host.log)|, volumes)
    ensures r.Ok? ==> Gone(host.dirs, host.state, volumes, |volumes|)
    ensures Ran(host.choices, old(host.state), old(host.log), host.state, host.log,
                Plan(DeleteSteps(host.dirs, old(host.state.domains), volumes)))
    ensures r.Ok? <==>
              CanDeleteAll(host.dirs, old(host.state), volumes) && Smooth(host.choices, host.log, |old(host.log)|)
  {
    hide *;
    NothingToDelete(host.dirs, host.state, volumes);
    SmoothHere(host.choices, host.log);
    ghost var was, from := host.state, |host.log|;
    EraseStart(host.dirs, was, host.log, volumes);
    ghost var steps := DeleteSteps(host.dirs, was.domains, volumes);
    ThroughStart(host.choices, was, host.log, steps);
    for i := 0 to |volumes|
      invariant host.Valid() && old(host.log) <= host.log
      invariant Through(host.choices, was, old(host.log), host.state, host.log, steps, i)
      invariant Erased(host.dirs, was, host.state, volumes) && AllErased(host.dirs, was, host.log, from, volumes)
      invariant Gone(host.dirs, host.state, volumes, i)
      invariant host.state.files.Keys == was.files.Keys - PathsAt(host.dirs, volumes[..i])
      invariant CanDeleteAll(host.dirs, was, volumes[..i]) && Smooth(host.choices, host.log, from)
    {
      ghost var between := host.log;
      r := DeleteOne(host, volumes, i, was, from, old(host.log));
      SmoothJoin(host.choices, between, host.log, from);
      CanDeleteFirst(host.dirs, was, volumes, i);
      if r.Err? {
        return r;
      }
    }
    ThroughAll(host.choices, was, old(host.log), host.state, host.log, steps);
    assert volumes[..|volumes|] == volumes;
    return Ok(());
  }

  method DeleteOne(host: Host, volumes: seq<(string, string)>, i: nat, ghost was: State, ghost from: nat,
                   ghost before: seq<Event>)
    returns (r: Result<()>)
    requires host.Valid() && i < |volumes| && Erased(host.dirs, was, host.state, volumes)
    requires AllErased(host.dirs, was, host.log, from, volumes) && Gone(host.dirs, host.state, volumes, i)
    requires Through(host.choices, was, before, host.state, host.log, DeleteSteps(host.dirs, was.domains, volumes), i)
    requires host.state.files.Keys == was.files.Keys - PathsAt(host.dirs, volumes[..i])
    modifies host
    ensures host.Valid() && old(host.log) <= host.log
    ensures Erased(host.dirs, was, host.state, volumes) && AllErased(host.dirs, was, host.log, from, volumes)
    ensures r.Ok? ==> Gone(host.dirs, host.state, volumes, i + 1)
    ensures var steps := DeleteSteps(host.dirs, was.domains, volumes);
            if r.Ok? then Through(host.choices, was, before, host.state, host.log, steps, i + 1)
            else Ran(host.choices, was, before, host.state, host.log, Plan(steps))
    ensures r.Ok? <==>
              CanDelete(host.dirs, was, volumes[..i], volumes[i]) && Smooth(host.choices, host.log, |old(host.log)|)
    ensures r.Ok? ==> host.state.files.Keys == was.files.Keys - PathsAt(host.dirs, volumes[..i + 1])
  {
    hide TrimSpace, Erased, AllErased, Gone, Used, IsIso, Excused, Through, Plan, Ran, Done, VolumeCommands, PathsAt,
      Smooth;
    ghost var mid, log := host.state, host.log;
    assert volumes[..i + 1] == volumes[..i] + [volumes[i]];
    PathsMore(host.dirs, volumes[..i], volumes[i]);
    SameDomains(host.dirs, was, mid, volumes);
    r := host.DeleteStorageVolume(volumes[i].0, volumes[i].1);
    if r.Ok? {
      EraseOne(host.dirs, was, mid, host.state, volumes, i);
    }
    ErasedStep(host.dirs, was, mid, host.state, log, host.log, from, volumes);
    StepTaken(host.choices, was, before, mid, log, host.state, host.log, DeleteSteps(host.dirs, was.domains, volumes),
              i);
  }

  lemma SameDomains(dirs: Dirs, was: State, s: State, volumes: seq<(string, string)>)
    requires Erased(dirs, was, s, volumes)
    ensures s.domains == was.domains
  {
  }

  // ---------- Deleting a machine ----------

  /** The volumes behind the disks, as deleteConfigDisksAfterUndefine collects them. */
  function DiskVolumes(disks: seq<ConfigDisk>): seq<(string, string)> {
    if disks == [] then []
    else DiskVolumes(disks[..|disks| - 1]) + if DiskVolume(disks[|disks| - 1]) == ("", "") then []
      else [DiskVolume(disks[|disks| - 1])]
  }

  lemma {:induction false} VolumeOfDisk(disks: seq<ConfigDisk>, v: (string, string))
    ensures v in DiskVolumes(disks) <==> v != ("", "") && exists d :: d in disks && DiskVolume(d) == v
  {
    hide DiskVolume;
    if disks != [] {
      var n := |disks| - 1;
      VolumeOfDisk(disks[..n], v);
      assert disks == disks[..n] + [disks[n]];
    }
  }

  method CollectVolumes(disks: seq<ConfigDisk>) returns (volumes: seq<(string, string)>)
    ensures volumes == DiskVolumes(disks)
  {
    hide TrimSpace, Base, Slashed;
    volumes := [];
    for i := 0 to |disks|
      invariant volumes == DiskVolumes(disks[..i])
    {
      assert disks[..i + 1][..i] == disks[..i];
      var v := DiskVolume(disks[i]);
      if v.0 == "" || v.1 == "" {
        NoVolume(disks[i]);
        continue;
      }
      volumes := volumes + [v];
    }
    assert disks[..|disks|] == disks;
  }

  lemma NoVolume(d: ConfigDisk)
    ensures DiskVolume(d).0 == "" || DiskVolume(d).1 == "" ==> DiskVolume(d) == ("", "")
  {
    hide TrimSpace, Slashed;
    BaseNotEmpty(Slashed(TrimSpace(d.path)));
  }

  /** At any moment of a deletion: the other definitions are as before, and while the machine is defined
      nothing is lost; after that only volumes of its disks may go that no remaining machine uses. */
  ghost predicate Deleting(dirs: Dirs, was: State, s: State, vm: string, volumes: seq<(string, string)>) {
    s == was || (s.domains == was.domains - {vm} && Erased(dirs, was.(domains := s.domains), s, volumes))
  }

  ghost predicate AllDeleting(dirs: Dirs, was: State, log: seq<Event>, from: nat, vm: string,
                              volumes: seq<(string, string)>) {
    forall k :: from <= k < |log| ==> Deleting(dirs, was, log[k].state, vm, volumes)
  }

  lemma UndefineFailed(dirs: Dirs, was: State, log: seq<Event>, e: Event, vm: string, volumes: seq<(string, string)>)
    requires e.state == was
    ensures Deleting(dirs, was, was, vm, volumes) && AllDeleting(dirs, was, log, |log|, vm, volumes)
    ensures AllDeleting(dirs, was, log + [e], |log|, vm, volumes)
  {
  }

  lemma DeletedRun(dirs: Dirs, was: State, mid: State, now: State, before: seq<Event>, e: Event, after: seq<Event>,
                   vm: string, volumes: seq<(string, string)>)
    requires mid == was.(domains := was.domains - {vm}) && e.state == mid && before + [e] <= after
    requires Erased(dirs, mid, now, volumes) && AllErased(dirs, mid, after, |before| + 1, volumes)
    ensures Deleting(dirs, was, now, vm, volumes) && AllDeleting(dirs, was, after, |before|, vm, volumes)
    ensures vm !in now.domains
  {
    EraseStart(dirs, mid, before, volumes);
    hide MayErase;
    forall k | |before| <= k < |after| ensures Deleting(dirs, was, after[k].state, vm, volumes) {
      assert k == |before| ==> after[k] == e;
      assert Erased(dirs, mid, after[k].state, volumes);
    }
  }

  /** deleteConfigDisksAfterUndefine */
  method DeleteConfigDisksAfterUndefine(host: Host, vm: string, disks: seq<ConfigDisk>) returns (r: Result<()>)
    requires host.Valid()
    modifies host
    ensures host.Valid() && old(host.log) <= host.log
    ensures Deleting(host.dirs, old(host.state), host.state, vm, DiskVolumes(disks))
    ensures AllDeleting(host.dirs, old(host.state), host.log, |old(host.log)|, vm, DiskVolumes(disks))
    ensures r.Ok? ==> vm !in host.state.domains && Gone(host.dirs, host.state, DiskVolumes(disks), |DiskVolumes(disks)|)
    ensures Ran(host.choices, old(host.state), old(host.log), host.state, host.log,
                RemoveCommands(host.dirs, old(host.state), vm, disks))
    ensures r.Ok? <==>
              && CanDeleteAll(host.dirs, old(host.state).(domains := old(host.state.domains) - {vm}),
                              DiskVolumes(disks))
              && Smooth(host.choices, host.log, |old(host.log)|)
  {
    hide *;
    ghost var was, log := host.state, host.log;
    var volumes := CollectVolumes(disks);
    UndefineEffect(host.choices(|log|), was, vm);
    var ok := host.Do(Undefine(vm));
    RanUndefine(host.choices, host.dirs, was, log, host.state, vm, disks);
    SmoothOne(host.choices, log, host.log);
    if !ok {
      UndefineFailed(host.dirs, was, log, host.log[|log|], vm, volumes);
      return Err("command failed");
    }
    ghost var mid, between := host.state, host.log;
    r := DeleteVolumes(host, volumes);
    SmoothJoin(host.choices, between, host.log, |log|);
    RanRemoved(host, was, log, mid, between, vm, disks);
    DeletedRun(host.dirs, was, mid, host.state, log, host.log[|log|], host.log, vm, volumes);
  }

  /** The commands of the whole removal. */
  function RemoveCommands(dirs: Dirs, s: State, vm: string, disks: seq<ConfigDisk>): seq<Command> {
    [Undefine(vm)] + Plan(DeleteSteps(dirs, s.domains - {vm}, DiskVolumes(disks)))
  }

  lemma RanUndefine(choices: Choices, dirs: Dirs, was: State, log: seq<Event>, now: State, vm: string,
                    disks: seq<ConfigDisk>)
    requires now == Effect(choices(|log|), was, Undefine(vm))
    ensures var after := log + [Event(Undefine(vm), now)];
            && Ran(choices, was, log, now, after, [Undefine(vm)])
            && (Done(choices, |log|, was, [Undefine(vm)]) <==> Works(choices(|log|), was, Undefine(vm)))
            && (!Works(choices(|log|), was, Undefine(vm)) ==>
                  Ran(choices, was, log, now, after, RemoveCommands(dirs, was, vm, disks)))
  {
    hide Ran, Done, Works, Effect, Plan, DeleteSteps, DiskVolumes;
    RanStart(choices, was, log);
    RanOne(choices, was, log, was, log, now, [], Undefine(vm));
    assert [] + [Undefine(vm)] == [Undefine(vm)];
    if !Works(choices(|log|), was, Undefine(vm)) {
      RanStuck(choices, was, log, now, log + [Event(Undefine(vm), now)], [Undefine(vm)],
               Plan(DeleteSteps(dirs, was.domains - {vm}, DiskVolumes(disks))));
    }
  }

  lemma RanRemoved(host: Host, was: State, log: seq<Event>, mid: State, between: seq<Event>, vm: string,
                   disks: seq<ConfigDisk>)
    requires Ran(host.choices, was, log, mid, between, [Undefine(vm)]) && Done(host.choices, |log|, was, [Undefine(vm)])
    requires mid.domains == was.domains - {vm}
    requires Ran(host.choices, mid, between, host.state, host.log,
                 Plan(DeleteSteps(host.dirs, mid.domains, DiskVolumes(disks))))
    ensures Ran(host.choices, was, log, host.state, host.log, RemoveCommands(host.dirs, was, vm, disks))
  {
    hide Ran, Done, Plan, DeleteSteps, DiskVolumes;
    RanJoin(host.choices, was, log, mid, between, host.state, host.log, [Undefine(vm)],
            Plan(DeleteSteps(host.dirs, mid.domains, DiskVolumes(disks))));
  }

  lemma UndefineEffect(c: Choice, s: State, vm: string)
    ensures Works(c, s, Undefine(vm)) <==> c.ok
    ensures Effect(c, s, Undefine(vm)) == if Works(c, s, Undefine(vm)) then s.(domains := s.domains - {vm}) else s
  {
  }

  /** The queries in front of a deletion are answered well: the machine is there and stopped, its disks are listed. */
  predicate MayDelete(was: State, vm: string, stopped: bool, config: Option<seq<ConfigDisk>>) {
    vm in was.domains && stopped && config.Some? && Describes(config.value, was.domains[vm])
  }

  /** DeleteVM; stopped and config are what the queries answer. Whatever fails, either nothing happens, or what happens
      is about the machine's own disks: the commands are exactly those of the removal. */
  method DeleteVM(host: Host, vm: string, stopped: bool, config: Option<seq<ConfigDisk>>) returns (r: Result<()>)
    requires host.Valid()
    modifies host
    ensures host.Valid() && old(host.log) <= host.log
    ensures !MayDelete(old(host.state), vm, stopped, config) ==>
              r.Err? && host.state == old(host.state) && host.log == old(host.log)
    ensures MayDelete(old(host.state), vm, stopped, config) ==>
              var disks := config.value;
              && Ran(host.choices, old(host.state), old(host.log), host.state, host.log,
                     RemoveCommands(host.dirs, old(host.state), vm, disks))
              && Deleting(host.dirs, old(host.state), host.state, vm, DiskVolumes(disks))
              && AllDeleting(host.dirs, old(host.state), host.log, |old(host.log)|, vm, DiskVolumes(disks))
              && (r.Ok? <==> && CanDeleteAll(host.dirs, old(host.state).(domains := old(host.state.domains) - {vm}),
                                             DiskVolumes(disks))
                             && Smooth(host.choices, host.log, |old(host.log)|))
              && (r.Ok? ==> && vm !in host.state.domains
                            && Gone(host.dirs, host.state, DiskVolumes(disks), |DiskVolumes(disks)|))
  {
    hide Describes, Ran, Deleting, AllDeleting, DiskVolumes, CanDeleteAll, Smooth, Gone, RemoveCommands;
    if vm !in host.state.domains {
      return Err("command failed");
    }
    if !stopped {
      return Err("vm must be stopped before delete");
    }
    if config.None? || !Describes(config.value, host.state.domains[vm]) {
      return Err("command failed");
    }
    r := DeleteConfigDisksAfterUndefine(host, vm, config.value);
  }

  // ---------- Other machines ----------

  lemma IsoPath(dir: string, name: string)
    ensures IsIso(VolumePath(dir, name)) <==> IsIso(name)
  {
    var path := VolumePath(dir, name);
    assert ToLower(path)[|path| - |name|..] == ToLower(name);
    if |name| >= 4 {
      assert ToLower(path)[|path| - 4..] == ToLower(name)[|name| - 4..];
    } else if |path| >= 4 {
      assert ToLower(path)[|path| - |name| - 1] == '/';
      assert ToLower(path)[|path| - 4..][3 - |name|] == '/';
    }
  }

  lemma NotErased(dirs: Dirs, domains: map<string, Xml.Forest>, volumes: seq<(string, string)>, path: string)
    requires path != "" && Used(domains, path) && !IsIso(path)
    ensures !MayErase(dirs, domains, volumes, path)
  {
    hide IsIso, Used;
    forall v | v in volumes && At(dirs, v) == path ensures !IsIso(TrimSpace(v.1)) {
      if TrimSpace(v.0) in dirs {
        IsoPath(dirs[TrimSpace(v.0)], TrimSpace(v.1));
      }
    }
  }

  /** At any moment what is gone is a volume of the machine, and an ISO image or no path of a disk of any remaining
      machine: a disk's own file is never taken from another machine. */
  lemma OthersKeepDisks(dirs: Dirs, was: State, s: State, vm: string, volumes: seq<(string, string)>, path: string)
    requires Deleting(dirs, was, s, vm, volumes) && path in was.files && path !in s.files && path != ""
    ensures path in PathsAt(dirs, volumes)
    ensures IsIso(path) || forall other :: other in was.domains && other != vm ==> !UsesPath(was.domains[other], path)
  {
    hide IsIso, UsesPath, At, Used;
    assert MayErase(dirs, s.domains, volumes, path);
    if Used(s.domains, path) && !IsIso(path) {
      NotErased(dirs, s.domains, volumes, path);
    }
    UsersRemain(was.domains, s.domains, vm, path);
    hide MayErase, Erased;
    assert path in PathsAt(dirs, volumes) by {
      ErasedAt(dirs, s.domains, volumes, path);
    }
  }

  lemma ErasedAt(dirs: Dirs, domains: map<string, Xml.Forest>, volumes: seq<(string, string)>, path: string)
    requires MayErase(dirs, domains, volumes, path)
    ensures path in PathsAt(dirs, volumes)
  {
    hide At, IsIso, Used;
  }

  lemma UsersRemain(domains: map<string, Xml.Forest>, left: map<string, Xml.Forest>, vm: string, path: string)
    requires left == domains - {vm}
    ensures !Used(left, path) ==> forall other :: other in domains && other != vm ==> !UsesPath(domains[other], path)
  {
    hide UsesPath;
    forall other | other in domains && other != vm && UsesPath(domains[other], path) ensures Used(left, path) {
      assert other in left && left[other] == domains[other];
    }
  }

  /** A machine depends on a file as a disk's own file, or as a backing file or the medium of another device. */
  lemma DependsHow(doc: Xml.Forest, path: string)
    ensures Depends(doc, path) <==> UsesPath(doc, path) || DependsOtherwise(doc, path)
  {
    hide AllDisks, NormalOnly, Chain;
    if UsesPath(doc, path) {
      var i :| 0 <= i < |ConfigDisks(doc)| && ConfigDisks(doc)[i].Path() == path;
      NormalOnlyMember(AllDisks(doc), ConfigDisks(doc)[i]);
      var k :| 0 <= k < |AllDisks(doc)| && AllDisks(doc)[k] == ConfigDisks(doc)[i];
      assert AllDisks(doc)[k].Needs(path);
    }
    if DependsOtherwise(doc, path) {
      var k :| 0 <= k < |AllDisks(doc)|
        && (path in Chain(AllDisks(doc)[k].backing)
            || (AllDisks(doc)[k].device != "disk" && AllDisks(doc)[k].Path() == path));
      assert AllDisks(doc)[k].Needs(path);
    }
    if Depends(doc, path) && !DependsOtherwise(doc, path) {
      var k :| 0 <= k < |AllDisks(doc)| && AllDisks(doc)[k].Needs(path);
      assert path !in Chain(AllDisks(doc)[k].backing);
      NormalOnlyMember(AllDisks(doc), AllDisks(doc)[k]);
      var i :| 0 <= i < |ConfigDisks(doc)| && ConfigDisks(doc)[i] == AllDisks(doc)[k];
    }
  }

  /** The machine would lose a file it depends on. */
  ghost predicate Loses(doc: Xml.Forest, was: State, now: State) {
    exists path :: path in was.files && path !in now.files && Depends(doc, path)
  }

  /** A successful deletion takes a file another machine depends on exactly if one of the deleted machine's
      volumes is such a file. Then it is an ISO image, or the other machine has it as a backing file or as the
      medium of another device only: the search for users looks at neither. */
  lemma TakesFromOther(dirs: Dirs, was: State, now: State, vm: string, volumes: seq<(string, string)>, other: string)
    requires Deleting(dirs, was, now, vm, volumes) && Gone(dirs, now, volumes, |volumes|)
    requires other in was.domains && "" !in was.files
    ensures Loses(was.domains[other], was, now) <==>
              exists v :: v in volumes && At(dirs, v) in was.files && Depends(was.domains[other], At(dirs, v))
    ensures other != vm ==>
              forall path :: path in was.files && path !in now.files && Depends(was.domains[other], path) ==>
                IsIso(path) || (DependsOtherwise(was.domains[other], path) && !UsesPath(was.domains[other], path))
  {
    hide At, IsIso, Depends, UsesPath, DependsOtherwise;
    forall v | v in volumes ensures At(dirs, v) !in now.files {
      var k :| 0 <= k < |volumes| && volumes[k] == v;
    }
    forall path | path in was.files && path !in now.files ensures path in PathsAt(dirs, volumes) {
      OthersKeepDisks(dirs, was, now, vm, volumes, path);
    }
    forall path | path in was.files && path !in now.files && Depends(was.domains[other], path) && other != vm
      && !IsIso(path)
      ensures DependsOtherwise(was.domains[other], path) && !UsesPath(was.domains[other], path)
    {
      OthersKeepDisks(dirs, was, now, vm, volumes, path);
      DependsHow(was.domains[other], path);
    }
    hide Deleting, Gone;
  }

  // ---------- The machine's own disks ----------

  /** The disk is a volume in the directory of the pool recorded for it. */
  predicate InOwnPool(dirs: Dirs, d: ConfigDisk) {
    DiskVolume(d) != ("", "") && At(dirs, DiskVolume(d)) == d.path
  }

  /** A successful deletion removes every disk that is a volume of its own pool. */
  lemma OwnDisksGone(dirs: Dirs, now: State, disks: seq<ConfigDisk>, d: ConfigDisk)
    requires Gone(dirs, now, DiskVolumes(disks), |DiskVolumes(disks)|) && d in disks && InOwnPool(dirs, d)
    ensures d.path !in now.files
  {
    hide DiskVolume, At;
    VolumeOfDisk(disks, DiskVolume(d));
    var k :| 0 <= k < |DiskVolumes(disks)| && DiskVolumes(disks)[k] == DiskVolume(d);
  }
}

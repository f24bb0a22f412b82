// Changing the devices of a stopped machine: new volumes are made, the definition is replaced, and only
// then volumes of deleted disks are removed.
module DeviceUpdate {
  import opened Common
  import opened Strings
  import opened Xml
  import opened DeviceRewrite
  import opened DomainConfig
  import opened DeviceEffect
  import opened DeviceElements
  import opened InterfaceEffect
  import opened DeviceValidation
  import opened Commands
  import opened Storage
  import opened Provisioning
  import opened VMCreation
  import opened Deletion

  function AsVolumes(disks: seq<NewDisk>): (r: seq<NewVolume>)
    ensures |r| == |disks| && forall i :: 0 <= i < |disks| ==>
              r[i] == NewVolume(disks[i].pool, disks[i].name, disks[i].format, disks[i].capacity)
  {
    seq(|disks|,
        i requires 0 <= i < |disks| => NewVolume(disks[i].pool, disks[i].name, disks[i].format, disks[i].capacity))
  }

  /** The disk elements of the new volumes. */
  function NewFragments(dirs: Dirs, disks: seq<NewDisk>): (r: seq<DiskFragment>)
    ensures |r| == |disks|
    ensures forall i :: 0 <= i < |disks| ==>
              r[i] == DiskFragment(At(dirs, (disks[i].pool, disks[i].name)), disks[i].target, disks[i].bus,
                                   disks[i].format)
  {
    seq(|disks|,
        i requires 0 <= i < |disks| => DiskFragment(At(dirs, (disks[i].pool, disks[i].name)), disks[i].target,
                                                    disks[i].bus, disks[i].format))
  }

  function FullEdit(dirs: Dirs, edit: DeviceEdit, deletes: seq<string>, news: seq<NewDisk>): DeviceEdit {
    edit.(newDisks := NewFragments(dirs, NormaliseAll(news)), deletedTargets := Trimmed(deletes))
  }

  /** What a run worked on: the disks read off the machine, the volumes of each pool, and the volumes to delete. */
  datatype UpdateInfo = UpdateInfo(config: seq<ConfigDisk>, listing: map<string, set<string>>,
                                   erase: seq<(string, string)>)

  function ErasedVolumes(actions: seq<DeleteAction>): seq<(string, string)> {
    if actions == [] then []
    else
      var a := actions[|actions| - 1];
      ErasedVolumes(actions[..|actions| - 1]) + if a.pool != "" && a.volume != "" then [(a.pool, a.volume)] else []
  }

  /** The request passed the checks against the machine's definition. */
  ghost predicate Passed(doc: Forest, deletes: seq<string>, news: seq<NewDisk>, info: UpdateInfo) {
    && Describes(info.config, doc) && DeletesAccepted(deletes, info.config)
    && NewDisksAccepted(news, Trimmed(Names(ConfigDisks(doc))), info.listing)
  }

  /** The new volumes of a request. */
  function NewVolumes(news: seq<NewDisk>): seq<(string, string)> {
    Volumes(AsVolumes(NormaliseAll(news)))
  }

  /** The state right after the new definition: the new volumes are there, blank, and nothing is removed. */
  ghost function Redefined(dirs: Dirs, was: State, vm: string, next: Forest, made: seq<(string, string)>): State {
    State(was.files + map p | p in PathsAt(dirs, made) :: 0, was.domains[vm := next])
  }

  /** After the definition: some of the volumes to delete may be gone. */
  ghost predicate Updated(dirs: Dirs, was: State, s: State, vm: string, next: Forest, made: seq<(string, string)>,
                          info: UpdateInfo) {
    Erased(dirs, Redefined(dirs, was, vm, next, made), s, info.erase)
  }

  /** At any moment: before the definition nothing that was there changes, after it Updated holds. */
  ghost predicate AllUpdating(run: Run, log: seq<Event>, vm: string, next: Forest, made: seq<(string, string)>,
                              info: UpdateInfo)
  {
    forall k :: run.from <= k < |log| ==>
      Keeps(run.was, log[k].state) || Updated(run.dirs, run.was, log[k].state, vm, next, made, info)
  }

  lemma KeepingUpdates(run: Run, log: seq<Event>, vm: string, next: Forest, made: seq<(string, string)>,
                       info: UpdateInfo)
    requires AllKeep(run.was, log, run.from)
    ensures AllUpdating(run, log, vm, next, made, info)
  {
    hide Keeps, Updated;
  }

  lemma RedefinedNow(run: Run, mid: State, now: State, vm: string, next: Forest, made: seq<(string, string)>)
    requires Growing(run, mid, made, Zeros(|made|))
    requires now == mid.(domains := mid.domains[vm := next])
    ensures now == Redefined(run.dirs, run.was, vm, next, made)
  {
    hide At, Proper;
    var was, paths := run.was, PathsAt(run.dirs, made);
    forall p | p in paths ensures p in mid.files && mid.files[p] == 0 && p !in was.files {
      var k :| 0 <= k < |made| && p == At(run.dirs, made[k]);
      assert MadeAt(run.dirs, was, mid, made[k], Zeros(|made|)[k]);
    }
    hide PathsAt, AllMade;
    assert mid.files == was.files + map p | p in paths :: 0;
  }

  /** From the definition on. */
  lemma RedefinedRun(run: Run, mid: State, now: State, before: seq<Event>, e: Event, vm: string, next: Forest,
                     made: seq<(string, string)>, info: UpdateInfo)
    requires Making(run, mid, before, made, Zeros(|made|)) && e.state == now
    requires now == mid.(domains := mid.domains[vm := next])
    ensures Updated(run.dirs, run.was, now, vm, next, made, info)
    ensures now == Redefined(run.dirs, run.was, vm, next, made)
    ensures AllUpdating(run, before + [e], vm, next, made, info)
  {
    RedefinedNow(run, mid, now, vm, next, made);
    EraseStart(run.dirs, now, before, info.erase);
    KeepingUpdates(run, before, vm, next, made, info);
    hide Growing, Erased, Keeps, Redefined;
    assert Updated(run.dirs, run.was, now, vm, next, made, info);
    hide Updated;
  }

  lemma ErasingUpdates(run: Run, mid: State, now: State, before: seq<Event>, after: seq<Event>, vm: string,
                       next: Forest, made: seq<(string, string)>, info: UpdateInfo)
    requires mid == Redefined(run.dirs, run.was, vm, next, made) && before <= after
    requires AllUpdating(run, before, vm, next, made, info)
    requires Erased(run.dirs, mid, now, info.erase) && AllErased(run.dirs, mid, after, |before|, info.erase)
    ensures Updated(run.dirs, run.was, now, vm, next, made, info)
    ensures AllUpdating(run, after, vm, next, made, info)
  {
    hide Erased, Keeps;
    forall k | run.from <= k < |after|
      ensures Keeps(run.was, after[k].state) || Updated(run.dirs, run.was, after[k].state, vm, next, made, info)
    {
      assert k < |before| ==> after[k] == before[k];
    }
  }

  method CollectErased(actions: seq<DeleteAction>) returns (volumes: seq<(string, string)>)
    ensures volumes == ErasedVolumes(actions)
  {
    volumes := [];
    for i := 0 to |actions|
      invariant volumes == ErasedVolumes(actions[..i])
    {
      assert actions[..i + 1][..i] == actions[..i];
      if actions[i].pool != "" && actions[i].volume != "" {
        volumes := volumes + [(actions[i].pool, actions[i].volume)];
      }
    }
    assert actions[..|actions|] == actions;
  }

  /** The volumes to delete are exactly those of the disks the request names, where a disk has one. */
  ghost predicate ErasesRequested(erase: seq<(string, string)>, deletes: seq<string>, config: seq<ConfigDisk>) {
    forall v :: v in erase <==> v != ("", "") && IsRequested(v, deletes, config)
  }

  ghost predicate IsRequested(v: (string, string), deletes: seq<string>, config: seq<ConfigDisk>) {
    exists q :: q in deletes && TrimSpace(q) in ByName(config) && DiskVolume(ByName(config)[TrimSpace(q)]) == v
  }

  /** What a request works on, from what the queries answer. */
  function InfoOf(deletes: seq<string>, config: seq<ConfigDisk>, listing: map<string, set<string>>): UpdateInfo {
    UpdateInfo(config, listing, ErasedVolumes(DeleteActions(deletes, config)))
  }

  /** The machine is there, its disks are listed, and the request passes the checks. */
  ghost predicate MayUpdate(was: State, vm: string, deletes: seq<string>, news: seq<NewDisk>,
                            config: Option<seq<ConfigDisk>>, listing: map<string, set<string>>)
  {
    vm in was.domains && config.Some? && Passed(was.domains[vm], deletes, news, InfoOf(deletes, config.value, listing))
  }

  /** Reading the machine and checking the request. */
  method Check(host: Host, vm: string, deletes: seq<string>, news: seq<NewDisk>, config: Option<seq<ConfigDisk>>,
               listing: map<string, set<string>>)
    returns (r: Result<(Forest, seq<NewDisk>, seq<(string, string)>)>)
    ensures r.Ok? <==> MayUpdate(host.state, vm, deletes, news, config, listing)
    ensures r.Ok? ==>
              r.value == (host.state.domains[vm], NormaliseAll(news), InfoOf(deletes, config.value, listing).erase)
    ensures r.Ok? ==> ErasesRequested(r.value.2, deletes, config.value)
  {
    hide Describes, DeletesAccepted, NewDisksAccepted, ErasedVolumes, DeleteActions, ErasesRequested, NormaliseAll,
      Trimmed,
      Names, ConfigDisks, FromDisks, Targets;
    if config.None? || vm !in host.state.domains || !Describes(config.value, host.state.domains[vm]) {
      return Err("command failed");
    }
    var doc := host.state.domains[vm];
    var disks := ValidateNewDisks(news, Names(ConfigDisks(doc)), listing);
    if disks.Err? {
      return Err(disks.message);
    }
    var actions := ValidateDeletedDisks(deletes, config.value);
    if actions.Err? {
      return Err(actions.message);
    }
    var erase := CollectErased(actions.value);
    EraseFromDisks(actions.value, deletes, config.value);
    return Ok((doc, disks.value, erase));
  }

  lemma {:induction false} ErasedAction(actions: seq<DeleteAction>, v: (string, string))
    ensures v in ErasedVolumes(actions) <==>
              v.0 != "" && v.1 != "" && exists a :: a in actions && (a.pool, a.volume) == v
  {
    if actions != [] {
      var n := |actions| - 1;
      assert actions == actions[..n] + [actions[n]];
      ErasedAction(actions[..n], v);
    }
  }

  lemma EraseFromDisks(actions: seq<DeleteAction>, deletes: seq<string>, config: seq<ConfigDisk>)
    requires FromDisks(actions, config) && Targets(actions) == Trimmed(deletes)
    ensures ErasesRequested(ErasedVolumes(actions), deletes, config)
  {
    hide DiskVolume, TrimSpace, ByName, ErasedVolumes;
    forall v ensures v in ErasedVolumes(actions) <==> v != ("", "") && IsRequested(v, deletes, config) {
      ErasedAction(actions, v);
      if v in ErasedVolumes(actions) {
        var a :| a in actions && (a.pool, a.volume) == v;
        assert a.target in Targets(actions);
        var q :| q in deletes && TrimSpace(q) == a.target;
        assert DiskVolume(ByName(config)[TrimSpace(q)]) == v;
      }
      if v != ("", "") && IsRequested(v, deletes, config) {
        var q :| q in deletes && TrimSpace(q) in ByName(config) && DiskVolume(ByName(config)[TrimSpace(q)]) == v;
        assert TrimSpace(q) in Trimmed(deletes);
        var a :| a in actions && a.target == TrimSpace(q);
        NoVolume(ByName(config)[TrimSpace(q)]);
        assert (a.pool, a.volume) == v;
      }
    }
  }

  /** updateVMDevicesFromConfig; edit holds the interface changes, resizes the paths of the disks to grow, config and
      listing are what the queries answer. It succeeds exactly if the checks pass, the new volumes can be made, the
      deleted ones can go, and no command fails. */
  method UpdateVMDevices(host: Host, vm: string, edit: DeviceEdit, deletes: seq<string>, news: seq<NewDisk>,
                         resizes: seq<string>, config: Option<seq<ConfigDisk>>, listing: map<string, set<string>>)
    returns (r: Result<()>, ghost defined: bool)
    requires host.Valid()
    modifies host
    ensures host.Valid() && old(host.log) <= host.log
    ensures var was, made := old(host.state), NewVolumes(news);
            var run := Run(host.dirs, host.choices, was, |old(host.log)|, PathsAt(host.dirs, made));
            if !MayUpdate(was, vm, deletes, news, config, listing) then
              r.Err? && !defined && host.state == was && host.log == old(host.log)
            else
              var info := InfoOf(deletes, config.value, listing);
              var next := EditDevices(FullEdit(host.dirs, edit, deletes, news), was.domains[vm]);
              && ErasesRequested(info.erase, deletes, info.config) && AllUpdating(run, host.log, vm, next, made, info)
              && (!defined ==> RolledBack(run, host.state, host.log))
              && (defined ==> Updated(host.dirs, was, host.state, vm, next, made, info))
              && (r.Ok? ==> defined && Gone(host.dirs, host.state, info.erase, |info.erase|))
              && (r.Ok? ==> exists at :: |old(host.log)| <= at
                                         && Gives(host.log, at, [Define(vm, next, true)] + Resizes(resizes)))
              && (r.Ok? <==> && CanMakeDisks(host.dirs, was, AsVolumes(NormaliseAll(news)))
                             && CanDeleteAll(host.dirs, Redefined(host.dirs, was, vm, next, made), info.erase)
                             && Smooth(host.choices, host.log, |old(host.log)|))
  {
    hide *;
    ghost var start, wanted := host.log, NewVolumes(news);
    ghost var run := Run(host.dirs, host.choices, host.state, |host.log|, PathsAt(host.dirs, wanted));
    defined := false;
    var checked := Check(host, vm, deletes, news, config, listing);
    if checked.Err? {
      return Err(checked.message), defined;
    }
    MayUpdateIs(host.state, vm, deletes, news, config, listing);
    var doc, disks, erase := checked.value.0, checked.value.1, checked.value.2;
    var document := EditDevices(FullEdit(host.dirs, edit, deletes, news), doc);
    ghost var info := InfoOf(deletes, config.value, listing);
    NothingUpdated(run, host.log, vm, document, wanted, info);
    WantedMade(news);
    var ok, made, contents := CreateDisks(host, AsVolumes(disks), run);
    ghost var volumesMade := host.log;
    if !ok {
      Abandon(host, made, run, contents);
      SmoothJoin(host.choices, volumesMade, host.log, |start|);
      KeepingUpdates(run, host.log, vm, document, wanted, info);
      return Err("command failed"), defined;
    }
    ghost var mid, log := host.state, host.log;
    DefineSame(host.choices(|log|), mid, vm, document);
    DefineEffect(host.choices(|log|), mid, vm, document, true);
    var done := host.Do(Define(vm, document, true));
    ghost var tried := host.log;
    SmoothOne(host.choices, log, tried);
    SmoothJoin(host.choices, log, tried, |start|);
    if !done {
      MakingStutter(run, mid, log, host.log[|log|], made, contents);
      MakingBroken(run, mid, host.log, made, contents);
      Abandon(host, made, run, contents);
      SmoothJoin(host.choices, tried, host.log, |start|);
      KeepingUpdates(run, host.log, vm, document, wanted, info);
      return Err("command failed"), defined;
    }
    defined := true;
    RedefinedRun(run, mid, host.state, log, host.log[|log|], vm, document, made, info);
    var resized := ResizeDisks(host, resizes, run, vm, document, made, info);
    ghost var after, events := host.state, host.log;
    SmoothJoin(host.choices, tried, events, |start|);
    if !resized {
      return Err("command failed"), defined;
    }
    r := DeleteVolumes(host, erase);
    SmoothJoin(host.choices, events, host.log, |start|);
    GivesLonger(events, host.log, |tried|, Resizes(resizes));
    GivesFirst(host.log, |log|, Define(vm, document, true), Resizes(resizes));
    ErasingUpdates(run, after, host.state, events, host.log, vm, document, made, info);
  }

  function Resizes(paths: seq<string>): (r: seq<Command>)
    ensures |r| == |paths| && forall i :: 0 <= i < |paths| ==> r[i] == Resize(paths[i])
  {
    seq(|paths|, i requires 0 <= i < |paths| => Resize(paths[i]))
  }

  /** Grow disks; contents are not concerned. */
  method ResizeDisks(host: Host, resizes: seq<string>, ghost run: Run, ghost vm: string, ghost next: Forest,
                     ghost made: seq<(string, string)>, ghost info: UpdateInfo)
    returns (ok: bool)
    requires host.Valid() && AllUpdating(run, host.log, vm, next, made, info)
    requires Updated(run.dirs, run.was, host.state, vm, next, made, info)
    modifies host
    ensures host.Valid() && old(host.log) <= host.log && host.state == old(host.state)
    ensures AllUpdating(run, host.log, vm, next, made, info)
    ensures ok <==> Smooth(host.choices, host.log, |old(host.log)|)
    ensures ok ==> Gives(host.log, |old(host.log)|, Resizes(resizes))
  {
    hide *;
    SmoothHere(host.choices, host.log);
    NothingResized(host.log, resizes);
    for i := 0 to |resizes|
      invariant host.Valid() && old(host.log) <= host.log && host.state == old(host.state)
      invariant AllUpdating(run, host.log, vm, next, made, info) && Smooth(host.choices, host.log, |old(host.log)|)
      invariant |host.log| == |old(host.log)| + i && Gives(host.log, |old(host.log)|, Resizes(resizes[..i]))
    {
      ghost var before := host.log;
      ResizeEffect(host.choices(|before|), host.state, resizes[i]);
      ok := host.Do(Resize(resizes[i]));
      UpdatingMore(run, before, host.log[|before|], vm, next, made, info);
      SmoothOne(host.choices, before, host.log);
      SmoothJoin(host.choices, before, host.log, |old(host.log)|);
      GivesMore(before, host.log, |old(host.log)|, Resizes(resizes[..i]), Resize(resizes[i]));
      assert Resizes(resizes[..i + 1]) == Resizes(resizes[..i]) + [Resize(resizes[i])];
      if !ok {
        return false;
      }
    }
    assert resizes[..|resizes|] == resizes;
    return true;
  }

  lemma NothingResized(log: seq<Event>, paths: seq<string>)
    ensures Gives(log, |log|, Resizes(paths[..0]))
  {
  }

  lemma ResizeEffect(c: Choice, s: State, path: string)
    ensures Effect(c, s, Resize(path)) == s && (Works(c, s, Resize(path)) <==> c.ok)
  {
  }

  lemma UpdatingMore(run: Run, log: seq<Event>, e: Event, vm: string, next: Forest, made: seq<(string, string)>,
                     info: UpdateInfo)
    requires AllUpdating(run, log, vm, next, made, info) && Updated(run.dirs, run.was, e.state, vm, next, made, info)
    ensures AllUpdating(run, log + [e], vm, next, made, info)
  {
    hide Updated, Keeps;
  }

  lemma DefineSame(c: Choice, s: State, vm: string, doc: Forest)
    ensures Works(c, s, Define(vm, doc, true)) <==> c.ok
  {
  }

  lemma MayUpdateIs(was: State, vm: string, deletes: seq<string>, news: seq<NewDisk>, config: Option<seq<ConfigDisk>>,
                    listing: map<string, set<string>>)
    requires MayUpdate(was, vm, deletes, news, config, listing)
    ensures vm in was.domains && config.Some? && InfoOf(deletes, config.value, listing).config == config.value
  {
    hide Passed, ErasedVolumes, DeleteActions;
  }

  lemma WantedMade(news: seq<NewDisk>)
    ensures NewVolumes(news) == Volumes(AsVolumes(NormaliseAll(news)))
    ensures |NewVolumes(news)| == |AsVolumes(NormaliseAll(news))|
  {
    hide Normalise;
  }

  lemma NothingUpdated(run: Run, log: seq<Event>, vm: string, next: Forest, made: seq<(string, string)>,
                       info: UpdateInfo)
    requires run.from == |log|
    ensures RolledBack(run, run.was, log) && AllUpdating(run, log, vm, next, made, info)
  {
  }

  // ---------- What the new definition says ----------

  lemma RequestedFragments(dirs: Dirs, edit: DeviceEdit, deletes: seq<string>, news: seq<NewDisk>)
    ensures var disks := FullEdit(dirs, edit, deletes, news).newDisks;
            |disks| == |news| && forall i :: 0 <= i < |news| ==>
              disks[i] == DiskFragment(At(dirs, (TrimSpace(news[i].pool), TrimSpace(news[i].name))),
                                       TrimSpace(news[i].target), TrimSpace(news[i].bus),
                                       ToLower(TrimSpace(news[i].format)))
  {
    hide TrimSpace, ToLower, At;
  }

  /** The new definition ends with one disk per request, in order: the image file of the new volume, in the format and
      on the bus the request asks for, trimmed and the format in lower case. */
  lemma NewDisksDefined(dirs: Dirs, edit: DeviceEdit, deletes: seq<string>, news: seq<NewDisk>, doc: Forest)
    requires DomainDoc(doc)
    ensures var after := DomainDiskNodes(EditDevices(FullEdit(dirs, edit, deletes, news), doc));
            && |news| <= |after|
            && forall i :: 0 <= i < |news| ==>
                 var d := news[i];
                 SetupOf(after[|after| - |news| + i])
                   == DiskSetup("file", "disk", "qemu", ToLower(TrimSpace(d.format)),
                                At(dirs, (TrimSpace(d.pool), TrimSpace(d.name))), TrimSpace(d.target), TrimSpace(d.bus))
  {
    hide *;
    var e := FullEdit(dirs, edit, deletes, news);
    var after := DomainDiskNodes(EditDevices(e, doc));
    DiskElementsAfter(e, doc);
    RequestedFragments(dirs, edit, deletes, news);
    forall i | 0 <= i < |news|
      ensures SetupOf(after[|after| - |news| + i])
           == DiskSetup("file", "disk", "qemu", ToLower(TrimSpace(news[i].format)),
                        At(dirs, (TrimSpace(news[i].pool), TrimSpace(news[i].name))), TrimSpace(news[i].target),
                        TrimSpace(news[i].bus))
    {
      assert e.newDisks[i].format == ToLower(TrimSpace(news[i].format));
    }
  }

  lemma {:induction false} KeptNames(ds: seq<DiskEntry>, deleted: set<string>, d: DiskEntry)
    requires forall x :: x in ds ==> x.device == "disk"
    ensures d in Keep(ds, deleted) <==> d in ds && d.name !in deleted
  {
    if ds != [] {
      KeptNames(ds[1..], deleted, d);
      assert EqualFold("disk", "disk");
    }
  }

  lemma TrimmedMeans(deletes: seq<string>, name: string)
    ensures name in Trimmed(deletes) <==> exists q :: q in deletes && TrimSpace(q) == name
  {
    hide TrimSpace;
  }

  /** Of the disks that were there, the new definition keeps exactly those that no deletion names. */
  lemma DeletedDisksLeave(dirs: Dirs, edit: DeviceEdit, deletes: seq<string>, news: seq<NewDisk>, doc: Forest)
    requires DomainDoc(doc) && PlainDisks(DomainDevices(doc))
    ensures var after := ConfigDisks(EditDevices(FullEdit(dirs, edit, deletes, news), doc));
            && |news| <= |after|
            && forall d :: d in after[..|after| - |news|] <==>
                             d in ConfigDisks(doc) && !exists q :: q in deletes && TrimSpace(q) == d.name
  {
    var e := FullEdit(dirs, edit, deletes, news);
    assert e.deletedTargets == Trimmed(deletes) && |e.newDisks| == |news|;
    hide *;
    ConfigDisksAfter(e, doc);
    EntryPaths(e.newDisks);
    var kept := Keep(ConfigDisks(doc), e.deletedTargets);
    assert (kept + Entries(e.newDisks))[..|kept|] == kept;
    OnlyDisksListed(doc);
    forall d ensures d in kept <==> d in ConfigDisks(doc) && !exists q :: q in deletes && TrimSpace(q) == d.name {
      KeptNames(ConfigDisks(doc), e.deletedTargets, d);
      TrimmedMeans(deletes, d.name);
    }
  }

  lemma OnlyDisksListed(doc: Forest)
    ensures forall d :: d in ConfigDisks(doc) ==> d.device == "disk"
  {
    hide AllDisks;
    forall d | d in ConfigDisks(doc) ensures d.device == "disk" {
      NormalOnlyMember(AllDisks(doc), d);
    }
  }

  /** The interfaces are what the interface changes alone make of them. */
  lemma InterfacesAsAsked(dirs: Dirs, edit: DeviceEdit, deletes: seq<string>, news: seq<NewDisk>, doc: Forest)
    requires DomainDoc(doc) && PlainNics(DomainDevices(doc))
    ensures Nics(EditDevices(FullEdit(dirs, edit, deletes, news), doc)) == Nics(EditDevices(edit, doc))
  {
    var e := FullEdit(dirs, edit, deletes, news);
    SameEdits(e, edit, Nics(doc));
    hide *;
    InterfacesAfter(e, doc);
    InterfacesAfter(edit, doc);
  }

  lemma {:induction false} SameEdits(e: DeviceEdit, f: DeviceEdit, ns: seq<NicEntry>)
    requires e.sources == f.sources && e.deletedInterfaces == f.deletedInterfaces
    ensures EditedNics(e, ns) == EditedNics(f, ns)
  {
    hide Blank, ToLower, Applied;
    if ns != [] {
      SameEdits(e, f, ns[1..]);
    }
  }

  // ---------- What no machine loses ----------

  lemma {:induction false} EntryPaths(ds: seq<DiskFragment>)
    ensures |Entries(ds)| == |ds| && forall i :: 0 <= i < |ds| ==> Entries(ds)[i].Path() == ds[i].path
  {
    if ds != [] {
      EntryPaths(ds[1..]);
    }
  }

  /** The new definition uses every new volume. */
  lemma NewVolumesUsed(dirs: Dirs, edit: DeviceEdit, deletes: seq<string>, news: seq<NewDisk>, doc: Forest, i: nat)
    requires DomainDoc(doc) && PlainDisks(DomainDevices(doc)) && i < |news|
    ensures var d := NormaliseAll(news)[i]; UsesPath(EditDevices(FullEdit(dirs, edit, deletes, news), doc),
                                                     At(dirs, (d.pool, d.name)))
  {
    var e := FullEdit(dirs, edit, deletes, news);
    var d := NormaliseAll(news)[i];
    assert e.newDisks[i].path == At(dirs, (d.pool, d.name)) && |e.newDisks| == |news| by {
      hide Normalise, At;
    }
    hide *;
    ConfigDisksAfter(e, doc);
    EntryPaths(e.newDisks);
    AddedDiskUsed(EditDevices(e, doc), Keep(ConfigDisks(doc), e.deletedTargets), Entries(e.newDisks), i);
  }

  lemma AddedDiskUsed(doc: Forest, kept: seq<DiskEntry>, added: seq<DiskEntry>, i: nat)
    requires ConfigDisks(doc) == kept + added && i < |added|
    ensures UsesPath(doc, added[i].Path())
  {
    hide ConfigDisks;
    assert ConfigDisks(doc)[|kept| + i] == added[i];
  }

  lemma LastChar(s: string, suffix: string)
    requires suffix != ""
    ensures HasSuffix(s, suffix) ==> s != "" && s[|s| - 1] == suffix[|suffix| - 1]
  {
  }

  lemma NewIsNoIso(d: NewDisk)
    requires FieldsOk(d) && IsTrimmed(d.name)
    ensures !IsIso(d.name)
  {
    assert TrimSpace(d.name) == d.name;
    hide TrimSpace, ToLower, EqualFold, HasSuffix;
    LastChar(ToLower(d.name), ".qcow2");
    LastChar(ToLower(d.name), ".img");
    LastChar(ToLower(d.name), ".iso");
  }

  /** Whatever the request deletes, a file that a definition uses after the update stays, ISO images excepted. */
  lemma UsedFilesStay(dirs: Dirs, was: State, s: State, vm: string, next: Forest, made: seq<(string, string)>,
                      info: UpdateInfo, path: string)
    requires Updated(dirs, was, s, vm, next, made, info)
    requires path in was.files || path in PathsAt(dirs, made)
    requires path != "" && !IsIso(path) && Used(was.domains[vm := next], path)
    ensures path in s.files
  {
    hide IsIso, Used, PathsAt;
    NotErased(dirs, s.domains, info.erase, path);
  }

  /** A completed update takes a file that a machine depends on exactly if one of the requested disks' volumes is
      such a file. Then it is an ISO image, or that machine has it only behind a disk or in another device. */
  lemma UpdateTakes(dirs: Dirs, was: State, now: State, vm: string, next: Forest, made: seq<(string, string)>,
                    info: UpdateInfo, user: string)
    requires Updated(dirs, was, now, vm, next, made, info) && Gone(dirs, now, info.erase, |info.erase|)
    requires user in now.domains && "" !in was.files && "" !in PathsAt(dirs, made)
    ensures now.domains == was.domains[vm := next]
    ensures var there := Redefined(dirs, was, vm, next, made);
            && (Loses(now.domains[user], there, now) <==>
                  exists v :: v in info.erase && At(dirs, v) in there.files && Depends(now.domains[user], At(dirs, v)))
            && forall path :: path in there.files && path !in now.files && Depends(now.domains[user], path) ==>
                 IsIso(path) || (DependsOtherwise(now.domains[user], path) && !UsesPath(now.domains[user], path))
  {
    hide At, IsIso, Depends, UsesPath, DependsOtherwise, PathsAt;
    var there := Redefined(dirs, was, vm, next, made);
    forall v | v in info.erase ensures At(dirs, v) !in now.files {
      var k :| 0 <= k < |info.erase| && info.erase[k] == v;
    }
    forall path | path in there.files && path !in now.files
      ensures path in PathsAt(dirs, info.erase) && (IsIso(path) || !UsesPath(now.domains[user], path))
    {
      Unprotected(dirs, now.domains, info.erase, path, user);
    }
    forall path | path in there.files && path !in now.files && Depends(now.domains[user], path) && !IsIso(path)
      ensures DependsOtherwise(now.domains[user], path) && !UsesPath(now.domains[user], path)
    {
      DependsHow(now.domains[user], path);
    }
    ErasedPaths(dirs, info.erase);
    hide Updated, Gone;
  }

  lemma ErasedPaths(dirs: Dirs, volumes: seq<(string, string)>)
    ensures forall path :: path in PathsAt(dirs, volumes) <==> exists v :: v in volumes && At(dirs, v) == path
  {
    hide At;
  }

  lemma Unprotected(dirs: Dirs, domains: map<string, Forest>, volumes: seq<(string, string)>, path: string,
                    user: string)
    requires MayErase(dirs, domains, volumes, path) && path != "" && user in domains
    ensures path in PathsAt(dirs, volumes) && (IsIso(path) || !UsesPath(domains[user], path))
  {
    ErasedAt(dirs, domains, volumes, path);
    if !IsIso(path) && UsesPath(domains[user], path) {
      assert Used(domains, path);
      NotErased(dirs, domains, volumes, path);
    }
    hide UsesPath, IsIso, At;
  }

  /** A volume the update made is never removed by it, at no moment. */
  lemma NewVolumesStay(dirs: Dirs, was: State, s: State, vm: string, edit: DeviceEdit, deletes: seq<string>,
                       news: seq<NewDisk>, info: UpdateInfo, i: nat)
    requires vm in was.domains && Passed(was.domains[vm], deletes, news, info) && i < |news|
    requires DomainDoc(was.domains[vm]) && PlainDisks(DomainDevices(was.domains[vm]))
    requires Updated(dirs, was, s, vm, EditDevices(FullEdit(dirs, edit, deletes, news), was.domains[vm]),
                     NewVolumes(news), info)
    requires var d := NormaliseAll(news)[i]; d.pool in dirs
    ensures var d := NormaliseAll(news)[i]; At(dirs, (d.pool, d.name)) in s.files
  {
    var d := NormaliseAll(news)[i];
    var next := EditDevices(FullEdit(dirs, edit, deletes, news), was.domains[vm]);
    var path := At(dirs, (d.pool, d.name));
    NewVolumesUsed(dirs, edit, deletes, news, was.domains[vm], i);
    NewVolumePath(dirs, was, deletes, news, info, was.domains[vm], i);
    assert Used(was.domains[vm := next], path) by {
      assert was.domains[vm := next][vm] == next;
    }
    hide *;
    UsedFilesStay(dirs, was, s, vm, next, NewVolumes(news), info, path);
  }

  lemma NewVolumePath(dirs: Dirs, was: State, deletes: seq<string>, news: seq<NewDisk>, info: UpdateInfo, doc: Forest,
                      i: nat)
    requires Passed(doc, deletes, news, info) && i < |news|
    requires var d := NormaliseAll(news)[i]; d.pool in dirs
    ensures var d := NormaliseAll(news)[i];
            At(dirs, (d.pool, d.name)) != "" && !IsIso(At(dirs, (d.pool, d.name)))
              && At(dirs, (d.pool, d.name)) in PathsAt(dirs, NewVolumes(news))
  {
    hide *;
    var d := NormaliseAll(news)[i];
    PassedFits(deletes, news, info, doc, i);
    NewIsNoIso(d);
    NewVolumeAt(dirs, news, i);
    IsoPath(dirs[d.pool], d.name);
  }

  lemma PassedFits(deletes: seq<string>, news: seq<NewDisk>, info: UpdateInfo, doc: Forest, i: nat)
    requires Passed(doc, deletes, news, info) && i < |news|
    ensures var d := NormaliseAll(news)[i];
            FieldsOk(d) && IsTrimmed(d.name) && TrimSpace(d.pool) == d.pool && TrimSpace(d.name) == d.name
  {
    var d := NormaliseAll(news)[i];
    hide DeletesAccepted, Describes, TrimSpace, ConfigDisks, Names, Trimmed, FieldsOk;
    assert Fits(d, NormaliseAll(news[..i]), Trimmed(Names(ConfigDisks(doc))), info.listing);
  }

  lemma NewVolumeAt(dirs: Dirs, news: seq<NewDisk>, i: nat)
    requires i < |news|
    requires var d := NormaliseAll(news)[i];
             TrimSpace(d.pool) == d.pool && TrimSpace(d.name) == d.name && d.pool in dirs
    ensures var d := NormaliseAll(news)[i];
            && At(dirs, (d.pool, d.name)) == VolumePath(dirs[d.pool], d.name) && VolumePath(dirs[d.pool], d.name) != ""
            && At(dirs, (d.pool, d.name)) in PathsAt(dirs, NewVolumes(news))
  {
    hide TrimSpace, Normalise;
    var d := NormaliseAll(news)[i];
    assert NewVolumes(news)[i] == (d.pool, d.name);
  }
}

// The two migrations that copy disks, each of them a run as Migration describes it.
module VMMigration {
  import opened Common
  import opened DomainConfig
  import opened PoolLookup
  import opened Commands
  import opened Storage
  import opened Provisioning
  import opened Deletion
  import opened MigrationXml
  import opened Migration
  import opened MigrationEffect

  // ---------- The side of the target ----------

  /** The cold side of the target: copy, write the document, define it, remove the temporary file. */
  method SendStopped(target: Host, vm: string, disks: seq<ConfigDisk>, pools: seq<Pool>, source: State, text: nat,
                     ghost x: Setting)
    returns (ok: bool)
    requires target.Valid() && vm in source.domains && !x.running && x.vm == vm && x.text == text
    requires x.source == source && x.target == target.state && x.disks == disks && x.pools == pools
    modifies target
    ensures target.Valid()
    ensures Ran(target.choices, x.target, old(target.log), target.state, target.log, TargetCommands(x))
    ensures ok <==> Arrives(x, target.choices, |old(target.log)|)
  {
    hide *;
    ghost var log, choices := target.log, target.choices;
    CommandsOf(x);
    var copied := CopyMigrationDisks(target, disks, pools, source, false);
    if copied.Err? {
      CopyFailed(x, choices, log, target.state, target.log);
      return false;
    }
    var next := MigrateForest(copied.value, "", source.domains[vm]);
    NextIs(x);
    ghost var mid, between := target.state, target.log;
    RanStart(choices, mid, between);
    ghost var send, define := Send(RemoteXml(vm), text, true), Define(vm, next, true);
    var wrote := target.Do(Send(RemoteXml(vm), text, true));
    RanOne(choices, mid, between, mid, between, target.state, [], send);
    assert [] + [send] == [send];
    if !wrote {
      RanStuck(choices, mid, between, target.state, target.log, [send], [define]);
      assert [send] + [define] == [send, define];
      SettlingFailed(x, choices, log, mid, between, target.state, target.log);
      return false;
    }
    ghost var written, events := target.state, target.log;
    var defined := target.Do(Define(vm, next, true));
    RanOne(choices, mid, between, written, events, target.state, [send], define);
    assert [send] + [define] == [send, define];
    if !defined {
      SettlingFailed(x, choices, log, mid, between, target.state, target.log);
      return false;
    }
    RanJoin(choices, x.target, log, mid, between, target.state, target.log, Plan(StepsOf(x)), Settling(x));
    ghost var settled, all := target.state, target.log;
    var removed := target.Do(Unlink(RemoteXml(vm)));
    RanOne(choices, x.target, log, settled, all, target.state, Plan(StepsOf(x)) + Settling(x), Unlink(RemoteXml(vm)));
    return true;
  }

  /** The live side of the target: copy, then virsh migrate, which brings the source's definition along. */
  method SendLive(target: Host, vm: string, disks: seq<ConfigDisk>, pools: seq<Pool>, source: State, ghost x: Setting)
    returns (ok: bool)
    requires target.Valid() && vm in source.domains && x.running && x.vm == vm
    requires x.source == source && x.target == target.state && x.disks == disks && x.pools == pools
    modifies target
    ensures target.Valid()
    ensures Ran(target.choices, x.target, old(target.log), target.state, target.log, TargetCommands(x))
    ensures ok <==> Arrives(x, target.choices, |old(target.log)|)
  {
    hide *;
    ghost var log, choices := target.log, target.choices;
    CommandsOf(x);
    var copied := CopyMigrationDisks(target, disks, pools, source, true);
    if copied.Err? {
      CopyFailed(x, choices, log, target.state, target.log);
      return false;
    }
    NextIs(x);
    ghost var mid, between := target.state, target.log;
    ok := target.Do(Define(vm, source.domains[vm], true));
    RanOne(choices, x.target, log, mid, between, target.state, Plan(StepsOf(x)), Define(vm, source.domains[vm], true));
    assert Settling(x) + [] == Settling(x);
  }

  lemma CommandsOf(x: Setting)
    ensures StepsOf(x) == SendSteps(x.source, x.pools, x.running, x.disks)
    ensures TripOf(x) == Trip(x.source, x.target, x.disks, x.running)
    ensures forall choices, at :: Arrives(x, choices, at) <==>
              AllGo(StepsOf(x)) && Done(choices, at, x.target, Plan(StepsOf(x)) + Settling(x))
    ensures AllGo(StepsOf(x)) ==> TargetCommands(x) == Plan(StepsOf(x)) + (Settling(x) + Tidying(x))
    ensures AllGo(StepsOf(x)) ==> TargetCommands(x) == Plan(StepsOf(x)) + Settling(x) + Tidying(x)
    ensures !AllGo(StepsOf(x)) ==> TargetCommands(x) == Plan(StepsOf(x))
  {
    hide Execute, AllGo, Plan, Settling, Tidying, Done;
    assert Plan(StepsOf(x)) + [] == Plan(StepsOf(x));
  }

  lemma NextIs(x: Setting)
    requires x.vm in x.source.domains
    ensures var doc := x.source.domains[x.vm];
            var next := if x.running then doc else MigrateForest(DiskMap(x.disks), "", doc);
            && (x.running ==> Settling(x) == [Define(x.vm, next, true)] && Tidying(x) == [])
            && (!x.running ==> Settling(x) == [Send(RemoteXml(x.vm), x.text, true), Define(x.vm, next, true)]
                               && Tidying(x) == [Unlink(RemoteXml(x.vm))])
  {
    hide RemoteXml, DiskMap, MigrateForest;
  }

  /** Copying that does not come through ends the run. */
  lemma CopyFailed(x: Setting, choices: Choices, before: seq<Event>, now: State, log: seq<Event>)
    requires Ran(choices, x.target, before, now, log, Plan(StepsOf(x)))
    requires !(AllGo(StepsOf(x)) && Done(choices, |before|, x.target, Plan(StepsOf(x))))
    ensures Ran(choices, x.target, before, now, log, TargetCommands(x)) && !Arrives(x, choices, |before|)
  {
    hide *;
    CommandsOf(x);
    if AllGo(StepsOf(x)) {
      RanStuck(choices, x.target, before, now, log, Plan(StepsOf(x)), Settling(x));
      RanStuck(choices, x.target, before, now, log, Plan(StepsOf(x)), Settling(x) + Tidying(x));
    }
  }

  /** So does a definition that does not. */
  lemma SettlingFailed(x: Setting, choices: Choices, before: seq<Event>, mid: State, between: seq<Event>, now: State,
                       log: seq<Event>)
    requires AllGo(StepsOf(x)) && Ran(choices, x.target, before, mid, between, Plan(StepsOf(x)))
    requires Done(choices, |before|, x.target, Plan(StepsOf(x)))
    requires Ran(choices, mid, between, now, log, Settling(x)) && !Done(choices, |between|, mid, Settling(x))
    ensures Ran(choices, x.target, before, now, log, TargetCommands(x)) && !Arrives(x, choices, |before|)
  {
    hide *;
    CommandsOf(x);
    RanJoin(choices, x.target, before, mid, between, now, log, Plan(StepsOf(x)), Settling(x));
    RanStuck(choices, x.target, before, now, log, Plan(StepsOf(x)) + Settling(x), Tidying(x));
  }

  // ---------- Whole migrations ----------

  /** The queries in front of a migration are answered well: the machine is found as it must be, its disks are listed,
      and the target has pools. */
  predicate Begins(source: State, vm: string, config: Option<seq<ConfigDisk>>, pools: seq<Pool>, asked: bool) {
    asked && vm in source.domains && config.Some? && Describes(config.value, source.domains[vm]) && pools != []
  }

  function DisksOf(config: Option<seq<ConfigDisk>>): seq<ConfigDisk> {
    match config
    case None => []
    case Some(disks) => disks
  }

  /** The two logs have grown by that run. */
  ghost predicate HasRun(x: Setting, c: Schedule, target: Host, targetLog: seq<Event>, source: Host,
                         sourceLog: seq<Event>)
    reads target, source
  {
    && target.log == targetLog + TargetEvents(x, c) && target.state == Landing(x, c)
    && source.log == sourceLog + SourceEvents(x, c) && source.state == Behind(x.source, SourceEvents(x, c))
  }

  lemma TargetRan(x: Setting, c: Schedule, before: seq<Event>, now: State, log: seq<Event>)
    requires Ran(c.target, x.target, before, now, log, TargetCommands(x)) && c.at == |before|
    ensures log == before + TargetEvents(x, c) && now == Landing(x, c)
  {
    hide Execute, TargetCommands, Behind;
  }

  lemma SourceRan(x: Setting, c: Schedule, before: seq<Event>, now: State, log: seq<Event>)
    requires Ran(c.source, x.source, before, now, log, SourceCommands(x, c)) && c.from == |before|
    ensures log == before + SourceEvents(x, c) && now == Behind(x.source, SourceEvents(x, c))
  {
    hide Execute, SourceCommands, Behind;
  }

  /** The source has not been touched. */
  lemma SourceUntouched(x: Setting, c: Schedule, log: seq<Event>)
    requires !(x.undefine && Arrives(x, c.target, c.at))
    ensures SourceEvents(x, c) == [] && Behind(x.source, SourceEvents(x, c)) == x.source
    ensures log == log + SourceEvents(x, c)
  {
    hide Arrives, Removing;
    EndMore(x.source, [], Event(Stop(x.vm), x.source));
    ExecuteNothing(c.source, c.from, x.source);
  }

  lemma RemovingIs(x: Setting, c: Schedule)
    ensures x.running ==> Removing(x) == [Stop(x.vm)] + RemoveCommands(x.dirs, x.source, x.vm, x.disks)
    ensures !x.running ==> Removing(x) == RemoveCommands(x.dirs, x.source, x.vm, x.disks)
    ensures x.undefine && Arrives(x, c.target, c.at) ==> SourceCommands(x, c) == Removing(x)
  {
    hide Arrives, RemoveCommands;
    assert [] + RemoveCommands(x.dirs, x.source, x.vm, x.disks) == RemoveCommands(x.dirs, x.source, x.vm, x.disks);
  }

  /** All moments of a run that has not touched the source are safe. */
  lemma SentSafe(x: Setting, c: Schedule)
    requires x.vm in x.source.domains && Describes(x.disks, x.source.domains[x.vm])
    requires !(x.undefine && Arrives(x, c.target, c.at))
    ensures SafeJourney(JourneyOf(x.dirs, x.source, x.target, x.vm, x.disks, x.running, RunMoments(x, c)))
  {
    hide *;
    var j := JourneyOf(x.dirs, x.source, x.target, x.vm, x.disks, x.running, []);
    JourneyParts(x.dirs, x.source, x.target, x.vm, x.disks, x.running);
    RunKeeps(x, c);
    SourceUntouched(x, c, []);
    SourceStays(j, TargetEvents(x, c), Landing(x, c));
    MomentsOf(x, c);
    JourneySafe(x.dirs, x.source, x.target, x.vm, x.disks, x.running, RunMoments(x, c));
  }

  lemma MomentsOf(x: Setting, c: Schedule)
    ensures RunMoments(x, c) == Moments(x.source, TargetEvents(x, c), SourceEvents(x, c), Landing(x, c))
  {
  }

  /** And so are those of one that has removed the machine from the source, in whole or in part. */
  lemma RemovedSafe(x: Setting, c: Schedule, before: seq<Event>, log: seq<Event>)
    requires x.vm in x.source.domains && Describes(x.disks, x.source.domains[x.vm]) && Arrives(x, c.target, c.at)
    requires log == before + SourceEvents(x, c)
    requires AllDeleting(x.dirs, x.source, log, |before|, x.vm, DiskVolumes(x.disks))
    ensures SafeJourney(JourneyOf(x.dirs, x.source, x.target, x.vm, x.disks, x.running, RunMoments(x, c)))
  {
    hide *;
    var j := JourneyOf(x.dirs, x.source, x.target, x.vm, x.disks, x.running, []);
    JourneyParts(x.dirs, x.source, x.target, x.vm, x.disks, x.running);
    RunKeeps(x, c);
    RunArrives(x, c);
    RunParts(x, c);
    SourceGoes(j, TargetEvents(x, c), log, |before|, Landing(x, c));
    assert log[|before|..] == SourceEvents(x, c);
    MomentsOf(x, c);
    JourneySafe(x.dirs, x.source, x.target, x.vm, x.disks, x.running, RunMoments(x, c));
  }

  /** migrateStoppedVMWithDiskCopy; running and config are what the queries answer, text the content of the
      document that is sent. */
  method MigrateStopped(source: Host, target: Host, vm: string, pools: seq<Pool>, undefineSource: bool, running: bool,
                        config: Option<seq<ConfigDisk>>, text: nat)
    returns (r: Result<()>)
    requires source != target && source.Valid() && target.Valid()
    modifies source, target
    ensures source.Valid() && target.Valid()
    ensures var x := Setting(source.dirs, old(source.state), old(target.state), vm, pools, DisksOf(config), false,
                             undefineSource, text);
            var c := Schedule(target.choices, |old(target.log)|, source.choices, |old(source.log)|);
            if Begins(x.source, vm, config, pools, !running) then
              && HasRun(x, c, target, old(target.log), source, old(source.log))
              && SafeJourney(JourneyOf(x.dirs, x.source, x.target, vm, x.disks, false, RunMoments(x, c)))
              && (Sets(x) && SafeSetting(x) ==> KeepsMachine(x, c))
              && (r.Ok? ==> Arrives(x, c.target, c.at) && (undefineSource ==> vm !in source.state.domains))
            else r.Err? && source.log == old(source.log) && target.log == old(target.log)
  {
    hide *;
    BeginsIs(source.state, vm, config, pools, !running);
    if running {
      return Err("running vm requires live migration");
    }
    if config.None? || vm !in source.state.domains || !Describes(config.value, source.state.domains[vm]) {
      return Err("command failed");
    }
    if |pools| == 0 {
      return Err("target storage pools are unavailable");
    }
    var disks := config.value;
    ghost var st, tt := source.log, target.log;
    ghost var x := Setting(source.dirs, source.state, target.state, vm, pools, disks, false, undefineSource, text);
    ghost var c := Schedule(target.choices, |tt|, source.choices, |st|);
    var sent := SendStopped(target, vm, disks, pools, source.state, text, x);
    TargetRan(x, c, tt, target.state, target.log);
    if !sent || !undefineSource {
      SourceUntouched(x, c, st);
      SentSafe(x, c);
      KeptIfSafe(x, c);
      DidRun(x, c, target, tt, source, st);
      return if sent then Ok(()) else Err("command failed");
    }
    RemovingIs(x, c);
    r := DeleteConfigDisksAfterUndefine(source, vm, disks);
    SourceRan(x, c, st, source.state, source.log);
    RemovedSafe(x, c, st, source.log);
    KeptIfSafe(x, c);
    DidRun(x, c, target, tt, source, st);
  }

  lemma BeginsIs(source: State, vm: string, config: Option<seq<ConfigDisk>>, pools: seq<Pool>, asked: bool)
    ensures Begins(source, vm, config, pools, asked) <==>
              asked && vm in source.domains && config.Some? && Describes(config.value, source.domains[vm])
                && pools != []
    ensures config.Some? ==> DisksOf(config) == config.value
  {
    hide Describes;
  }

  lemma KeptIfSafe(x: Setting, c: Schedule)
    requires x.vm in x.source.domains
    ensures Sets(x) && SafeSetting(x) ==> KeepsMachine(x, c)
  {
    hide Sets, SafeSetting, KeepsMachine;
    if Sets(x) && SafeSetting(x) {
      SafeKept(x, c);
    }
  }

  lemma DidRun(x: Setting, c: Schedule, target: Host, targetLog: seq<Event>, source: Host, sourceLog: seq<Event>)
    requires target.log == targetLog + TargetEvents(x, c) && target.state == Landing(x, c)
    requires source.log == sourceLog + SourceEvents(x, c) && source.state == Behind(x.source, SourceEvents(x, c))
    ensures HasRun(x, c, target, targetLog, source, sourceLog)
  {
  }

  lemma StopEffect(c: Choice, s: State, vm: string)
    ensures Effect(c, s, Stop(vm)) == s
  {
  }

  /** The source is stopped: nothing is removed yet. */
  lemma StoppedSafe(dirs: Dirs, was: State, before: seq<Event>, log: seq<Event>, vm: string,
                    volumes: seq<(string, string)>)
    requires before + [Event(Stop(vm), was)] <= log
    requires AllDeleting(dirs, was, log, |before| + 1, vm, volumes)
    ensures AllDeleting(dirs, was, log, |before|, vm, volumes)
  {
    hide Erased;
    assert log[|before|] == Event(Stop(vm), was);
  }

  lemma NoneDeleting(dirs: Dirs, was: State, log: seq<Event>, vm: string, volumes: seq<(string, string)>)
    ensures AllDeleting(dirs, was, log, |log|, vm, volumes)
  {
  }

  /** migrateLiveVMWithDiskCopy */
  method MigrateLive(source: Host, target: Host, vm: string, pools: seq<Pool>, undefineSource: bool, running: bool,
                     config: Option<seq<ConfigDisk>>)
    returns (r: Result<()>)
    requires source != target && source.Valid() && target.Valid()
    modifies source, target
    ensures source.Valid() && target.Valid()
    ensures var x := Setting(source.dirs, old(source.state), old(target.state), vm, pools, DisksOf(config), true,
                             undefineSource, 0);
            var c := Schedule(target.choices, |old(target.log)|, source.choices, |old(source.log)|);
            if Begins(x.source, vm, config, pools, running) then
              && HasRun(x, c, target, old(target.log), source, old(source.log))
              && SafeJourney(JourneyOf(x.dirs, x.source, x.target, vm, x.disks, true, RunMoments(x, c)))
              && (Sets(x) && SafeSetting(x) ==> KeepsMachine(x, c))
              && (r.Ok? ==> Arrives(x, c.target, c.at) && (undefineSource ==> vm !in source.state.domains))
            else r.Err? && source.log == old(source.log) && target.log == old(target.log)
  {
    hide *;
    BeginsIs(source.state, vm, config, pools, running);
    if !running {
      return Err("non-running vm requires cold migration");
    }
    if config.None? || vm !in source.state.domains || !Describes(config.value, source.state.domains[vm]) {
      return Err("command failed");
    }
    if |pools| == 0 {
      return Err("target storage pools are unavailable");
    }
    var disks := config.value;
    ghost var st, tt := source.log, target.log;
    ghost var x := Setting(source.dirs, source.state, target.state, vm, pools, disks, true, undefineSource, 0);
    ghost var c := Schedule(target.choices, |tt|, source.choices, |st|);
    var sent := SendLive(target, vm, disks, pools, source.state, x);
    TargetRan(x, c, tt, target.state, target.log);
    if !sent || !undefineSource {
      SourceUntouched(x, c, st);
      SentSafe(x, c);
      KeptIfSafe(x, c);
      DidRun(x, c, target, tt, source, st);
      return if sent then Ok(()) else Err("command failed");
    }
    RemovingIs(x, c);
    r := StopAndDelete(source, vm, disks);
    SourceRan(x, c, st, source.state, source.log);
    RemovedSafe(x, c, st, source.log);
    KeptIfSafe(x, c);
    DidRun(x, c, target, tt, source, st);
  }

  /** destroyThenUndefineVMAndDeleteConfigDisks; stopping a machine that is not running counts as working. */
  method StopAndDelete(source: Host, vm: string, disks: seq<ConfigDisk>) returns (r: Result<()>)
    requires source.Valid()
    modifies source
    ensures source.Valid()
    ensures Ran(source.choices, old(source.state), old(source.log), source.state, source.log,
                [Stop(vm)] + RemoveCommands(source.dirs, old(source.state), vm, disks))
    ensures AllDeleting(source.dirs, old(source.state), source.log, |old(source.log)|, vm, DiskVolumes(disks))
    ensures r.Ok? ==> vm !in source.state.domains
  {
    hide *;
    ghost var was, st, remove := source.state, source.log, RemoveCommands(source.dirs, source.state, vm, disks);
    StopEffect(source.choices(|st|), was, vm);
    RanStart(source.choices, was, st);
    NoneDeleting(source.dirs, was, st + [Event(Stop(vm), was)], vm, DiskVolumes(disks));
    var stopped := source.Do(Stop(vm));
    RanOne(source.choices, was, st, was, st, was, [], Stop(vm));
    assert [] + [Stop(vm)] == [Stop(vm)];
    if !stopped {
      RanStuck(source.choices, was, st, was, source.log, [Stop(vm)], remove);
      StoppedSafe(source.dirs, was, st, source.log, vm, DiskVolumes(disks));
      return Err("command failed");
    }
    ghost var between := source.log;
    r := DeleteConfigDisksAfterUndefine(source, vm, disks);
    RanJoin(source.choices, was, st, was, between, source.state, source.log, [Stop(vm)], remove);
    StoppedSafe(source.dirs, was, st, source.log, vm, DiskVolumes(disks));
  }
}

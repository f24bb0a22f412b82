// Migration that copies disks: the target gets the files, then the definition, and only then the source
// may be removed.
module Migration {
  import opened Common
  import opened Strings
  import opened Paths
  import opened Xml
  import opened DomainConfig
  import opened MigrationXml
  import opened PoolLookup
  import opened Commands
  import opened Storage
  import opened Provisioning
  import opened VMCreation
  import opened Deletion

  /** filepath.Dir */
  function Dir(path: string): string {
    Clean(PrefixOf(path))
  }

  /** The path up to its last slash. */
  function PrefixOf(path: string): string {
    if path == "" || path[|path| - 1] == '/' then path else PrefixOf(path[..|path| - 1])
  }

  /** Where a disk goes on the target. */
  function TargetPath(d: ConfigDisk): string { Clean(TrimSpace(d.path)) }

  /** diskPaths: each disk's path and the path of its backing base, later disks overwriting earlier ones. */
  function DiskMap(disks: seq<ConfigDisk>): map<string, string> {
    if disks == [] then map[]
    else
      var d := disks[|disks| - 1];
      var m := DiskMap(disks[..|disks| - 1])[TrimSpace(d.path) := TargetPath(d)];
      if Blank(d.sourcePath) then m else m[d.sourcePath := TargetPath(d)]
  }

  // ---------- Copying the disks ----------

  /** A migration: the state of the source, that of the target before, the disks, and whether they are in use. */
  datatype Trip = Trip(source: State, target: State, disks: seq<ConfigDisk>, running: bool)

  predicate DistinctTargets(disks: seq<ConfigDisk>) {
    forall i, j :: 0 <= i < j < |disks| ==> TargetPath(disks[i]) != TargetPath(disks[j])
  }

  function TargetPaths(disks: seq<ConfigDisk>): set<string> {
    set d | d in disks :: TargetPath(d)
  }

  /** The disk's copy is a new file of the target, with the content of the original unless that is in use. Files
      are looked up by their clean paths. */
  ghost predicate Landed(trip: Trip, now: State, d: ConfigDisk) {
    var path := TargetPath(d);
    && TrimSpace(d.path) != "" && path in trip.source.files && path !in trip.target.files && path in now.files
    && (!trip.running ==> now.files[path] == trip.source.files[path])
  }

  ghost predicate AllLanded(trip: Trip, now: State, disks: seq<ConfigDisk>) {
    forall i :: 0 <= i < |disks| ==> Landed(trip, now, disks[i])
  }

  /** Where the copying stands after some disks: what the target had is untouched throughout, and nothing but
      copies is new. */
  ghost predicate Sending(trip: Trip, now: State, log: seq<Event>, disks: seq<ConfigDisk>,
                          seen: set<string>) {
    && Keeps(trip.target, now) && AllKeep(trip.target, log, 0)
    && NewOnly(trip.target, now, seen)
    && AllLanded(trip, now, disks) && DistinctTargets(disks) && seen == TargetPaths(disks)
  }

  /** How far a failed copying got. */
  ghost predicate Stuck(trip: Trip, now: State, log: seq<Event>) {
    Keeps(trip.target, now) && AllKeep(trip.target, log, 0)
  }

  lemma SendingStart(trip: Trip)
    ensures Sending(trip, trip.target, [], [], {})
  {
  }

  lemma SendingStuck(trip: Trip, now: State, log: seq<Event>, disks: seq<ConfigDisk>, seen: set<string>)
    requires Sending(trip, now, log, disks, seen)
    ensures Stuck(trip, now, log) && NewOnly(trip.target, now, TargetPaths(disks))
    ensures AllLanded(trip, now, disks) && DistinctTargets(disks) && seen == TargetPaths(disks)
  {
  }

  /** One command more that loses nothing. */
  lemma StuckMore(trip: Trip, mid: State, now: State, before: seq<Event>, e: Event)
    requires Stuck(trip, mid, before) && Keeps(mid, now) && e.state == now
    ensures Stuck(trip, now, before + [e])
  {
    KeepsTrans(trip.target, mid, now);
    hide Keeps;
  }

  lemma StillLanded(trip: Trip, mid: State, now: State, disks: seq<ConfigDisk>)
    requires AllLanded(trip, mid, disks) && Keeps(mid, now)
    ensures AllLanded(trip, now, disks)
  {
    hide TargetPath, TrimSpace;
  }

  lemma SentOne(trip: Trip, mid: State, now: State, before: seq<Event>, e: Event, disks: seq<ConfigDisk>,
                seen: set<string>, d: ConfigDisk)
    requires Sending(trip, mid, before, disks, seen) && TargetPath(d) !in seen && TrimSpace(d.path) != ""
    requires TargetPath(d) !in mid.files && TargetPath(d) in trip.source.files && e.state == now
    requires exists c: nat :: IsSent(trip, mid, now, TargetPath(d), c)
    ensures Sending(trip, now, before + [e], disks + [d], seen + {TargetPath(d)})
  {
    hide *;
    var c: nat :| IsSent(trip, mid, now, TargetPath(d), c);
    SendingStuck(trip, mid, before, disks, seen);
    SentLands(trip, mid, now, before, d, c);
    StillLanded(trip, mid, now, disks);
    StuckMore(trip, mid, now, before, e);
    SendingMore(trip, mid, now, before + [e], disks, seen, d);
  }

  lemma SentLands(trip: Trip, mid: State, now: State, log: seq<Event>, d: ConfigDisk, c: nat)
    requires Stuck(trip, mid, log) && IsSent(trip, mid, now, TargetPath(d), c)
    requires TargetPath(d) !in mid.files && TargetPath(d) in trip.source.files && TrimSpace(d.path) != ""
    ensures Landed(trip, now, d) && Keeps(mid, now) && NewOnly(mid, now, {TargetPath(d)})
  {
    hide TargetPath, TrimSpace, AllKeep;
  }

  lemma SendingMore(trip: Trip, mid: State, now: State, log: seq<Event>, disks: seq<ConfigDisk>,
                    seen: set<string>, d: ConfigDisk)
    requires Stuck(trip, now, log) && AllLanded(trip, now, disks) && Landed(trip, now, d)
    requires DistinctTargets(disks) && seen == TargetPaths(disks) && TargetPath(d) !in seen
    requires NewOnly(trip.target, mid, TargetPaths(disks)) && NewOnly(mid, now, {TargetPath(d)})
    ensures Sending(trip, now, log, disks + [d], seen + {TargetPath(d)})
  {
    hide Landed, TargetPath, Keeps, AllKeep;
    PathsOfMore(disks, d);
    assert forall i :: 0 <= i < |disks| ==> TargetPath(disks[i]) in seen;
    hide TargetPaths;
  }

  /** The file was sent: it is new, and with the original's content unless in use. */
  ghost predicate IsSent(trip: Trip, mid: State, now: State, path: string, c: nat) {
    && now == mid.(files := mid.files[path := c])
    && (!trip.running ==> path in trip.source.files && c == trip.source.files[path])
  }

  lemma PathsOfMore(disks: seq<ConfigDisk>, d: ConfigDisk)
    ensures TargetPaths(disks + [d]) == TargetPaths(disks) + {TargetPath(d)}
  {
    hide TargetPath;
  }

  // ---------- The commands that copy disks ----------

  /** Nothing stands in the way of the commands that copy the disk. */
  predicate Ready(d: ConfigDisk, pools: seq<Pool>, seen: set<string>) {
    && TrimSpace(d.path) != "" && !Blank(PoolTarget(TrimSpace(d.path), pools)) && TargetPath(d) !in seen
    && !Blank(Dir(TargetPath(d))) && Dir(TargetPath(d)) != "."
  }

  function SendCommands(source: State, pools: seq<Pool>, running: bool, d: ConfigDisk,
                        seen: set<string>): seq<Command> {
    var path := TargetPath(d);
    if !Ready(d, pools, seen) then []
    else [Reserve(path)] + if path in source.files then [Send(path, source.files[path], !running)] else []
  }

  function SendStep(source: State, pools: seq<Pool>, running: bool, d: ConfigDisk, seen: set<string>): Step {
    Step(SendCommands(source, pools, running, d, seen), Ready(d, pools, seen) && TargetPath(d) in source.files)
  }

  /** For each disk the commands that copy it, and whether the copying goes on. */
  function SendSteps(source: State, pools: seq<Pool>, running: bool, disks: seq<ConfigDisk>): (r: seq<Step>)
    ensures |r| == |disks|
    ensures forall i :: 0 <= i < |disks| ==> r[i] == SendStep(source, pools, running, disks[i], TargetPaths(disks[..i]))
  {
    seq(|disks|, i requires 0 <= i < |disks| => SendStep(source, pools, running, disks[i], TargetPaths(disks[..i])))
  }

  lemma SendEffect(c: Choice, s: State, path: string, content: nat, trip: Trip)
    requires path !in s.files && path in trip.source.files && content == trip.source.files[path]
    ensures var cmd := Send(path, content, !trip.running);
            && Keeps(s, Effect(c, s, cmd))
            && (Works(c, s, cmd) ==> exists x: nat :: IsSent(trip, s, Effect(c, s, cmd), path, x))
  {
    assert Works(c, s, Send(path, content, !trip.running)) ==>
      IsSent(trip, s, Effect(c, s, Send(path, content, !trip.running)), path,
             if trip.running then c.content else content);
  }

  lemma ReserveEffect(c: Choice, s: State, path: string)
    ensures Effect(c, s, Reserve(path)) == s && (Works(c, s, Reserve(path)) ==> path !in s.files)
    ensures Keeps(s, s)
  {
  }

  /** One disk more is copied, or the copying ends. */
  lemma OneSent(trip: Trip, pools: seq<Pool>, choices: Choices, at: nat, mid: State, events: seq<Event>,
                disks: seq<ConfigDisk>, d: ConfigDisk)
    requires Sending(trip, mid, events, disks, TargetPaths(disks))
    ensures var step := SendStep(trip.source, pools, trip.running, d, TargetPaths(disks));
            var x := Execute(choices, at, mid, step.cmds);
            && Stuck(trip, Behind(mid, x.events), events + x.events)
            && (step.go && x.done ==>
                  Sending(trip, Behind(mid, x.events), events + x.events, disks + [d], TargetPaths(disks + [d])))
  {
    hide *;
    SendingStuck(trip, mid, events, disks, TargetPaths(disks));
    StepCommands(trip.source, pools, trip.running, d, TargetPaths(disks));
    var path := TargetPath(d);
    if !Ready(d, pools, TargetPaths(disks)) {
      ExecuteNothing(choices, at, mid);
      EndMore(mid, [], Event(Reserve(path), mid));
      assert events + [] == events;
      return;
    }
    ReserveEffect(choices(at), mid, path);
    var first := Event(Reserve(path), mid);
    StuckMore(trip, mid, mid, events, first);
    EndMore(mid, [], first);
    assert [] + [first] == [first];
    if path !in trip.source.files {
      ExecuteOne(choices, at, mid, Reserve(path));
    } else {
      SendAfter(trip, pools, choices, at, mid, events, disks, d);
    }
  }

  lemma StepCommands(source: State, pools: seq<Pool>, running: bool, d: ConfigDisk, seen: set<string>)
    ensures var step, path := SendStep(source, pools, running, d, seen), TargetPath(d);
            && (!Ready(d, pools, seen) ==> step == Step([], false))
            && (Ready(d, pools, seen) && path !in source.files ==> step == Step([Reserve(path)], false))
            && (Ready(d, pools, seen) && path in source.files ==>
                  step == Step([Reserve(path), Send(path, source.files[path], !running)], true))
    ensures Ready(d, pools, seen) ==> TrimSpace(d.path) != "" && TargetPath(d) !in seen
  {
    hide TargetPath, TrimSpace, Blank, PoolTarget, Dir;
  }

  lemma SendAfter(trip: Trip, pools: seq<Pool>, choices: Choices, at: nat, mid: State, events: seq<Event>,
                  disks: seq<ConfigDisk>, d: ConfigDisk)
    requires Sending(trip, mid, events, disks, TargetPaths(disks)) && TargetPath(d) in trip.source.files
    requires TrimSpace(d.path) != "" && TargetPath(d) !in TargetPaths(disks)
    ensures var path := TargetPath(d);
            var x := Execute(choices, at, mid, [Reserve(path), Send(path, trip.source.files[path], !trip.running)]);
            && Stuck(trip, Behind(mid, x.events), events + x.events)
            && (x.done ==>
                  Sending(trip, Behind(mid, x.events), events + x.events, disks + [d], TargetPaths(disks + [d])))
  {
    hide *;
    var path := TargetPath(d);
    var look, send := Reserve(path), Send(path, trip.source.files[path], !trip.running);
    ExecuteTwo(choices, at, mid, look, send);
    ReserveEffect(choices(at), mid, path);
    SendingStuck(trip, mid, events, disks, TargetPaths(disks));
    var first := Event(look, mid);
    StuckMore(trip, mid, mid, events, first);
    SendingIdle(trip, mid, events, first, disks);
    EndMore(mid, [], first);
    assert [] + [first] == [first];
    if Works(choices(at), mid, look) {
      var now := Effect(choices(at + 1), mid, send);
      SendEffect(choices(at + 1), mid, path, trip.source.files[path], trip);
      StuckMore(trip, mid, now, events + [first], Event(send, now));
      EndMore(mid, [first], Event(send, now));
      assert [first] + [Event(send, now)] == [first, Event(send, now)];
      assert events + [first] + [Event(send, now)] == events + [first, Event(send, now)];
      if Works(choices(at + 1), mid, send) {
        SentOne(trip, mid, now, events + [first], Event(send, now), disks, TargetPaths(disks), d);
        PathsOfMore(disks, d);
      }
    }
  }

  /** A command that changed nothing. */
  lemma SendingIdle(trip: Trip, now: State, events: seq<Event>, e: Event, disks: seq<ConfigDisk>)
    requires Sending(trip, now, events, disks, TargetPaths(disks)) && e.state == now
    ensures Sending(trip, now, events + [e], disks, TargetPaths(disks))
  {
    hide Keeps, NewOnly, AllLanded, DistinctTargets, TargetPaths;
  }

  /** Whatever fails, copying disks loses nothing on the target; when it comes through, each copy has landed. */
  lemma {:induction false} DisksSent(trip: Trip, pools: seq<Pool>, choices: Choices, at: nat, i: nat)
    requires i <= |trip.disks|
    ensures var steps := SendSteps(trip.source, pools, trip.running, trip.disks)[..i];
            var x := Execute(choices, at, trip.target, Plan(steps));
            && Stuck(trip, Behind(trip.target, x.events), x.events)
            && (AllGo(steps) && x.done ==>
                  Sending(trip, Behind(trip.target, x.events), x.events, trip.disks[..i], TargetPaths(trip.disks[..i])))
  {
    hide *;
    var all := SendSteps(trip.source, pools, trip.running, trip.disks);
    if i == 0 {
      assert all[..0] == [] && trip.disks[..0] == [];
      PlanNothing();
      ExecuteNothing(choices, at, trip.target);
      EndMore(trip.target, [], Event(Reserve(""), trip.target));
      NothingSent(trip);
    } else {
      var n := i - 1;
      DisksSent(trip, pools, choices, at, n);
      PartGoes(all[..i], n);
      assert all[..i][..n] == all[..n];
      if AllGo(all[..n]) {
        PlanNext(all, n);
        var x := Execute(choices, at, trip.target, Plan(all[..n]));
        ExecuteJoin(choices, at, trip.target, Plan(all[..n]), all[n].cmds);
        if x.done {
          OneSent(trip, pools, choices, at + |x.events|, Behind(trip.target, x.events), x.events, trip.disks[..n],
                  trip.disks[n]);
          assert trip.disks[..i] == trip.disks[..n] + [trip.disks[n]];
        }
      } else {
        PlanHeld(all, n);
      }
    }
  }

  lemma PlanNothing()
    ensures Plan([]) == []
  {
  }

  lemma NothingSent(trip: Trip)
    ensures Stuck(trip, trip.target, []) && Sending(trip, trip.target, [], [], TargetPaths([]))
  {
    SendingStart(trip);
    SendingStuck(trip, trip.target, [], [], {});
  }

  /** Behind a step that does not go on there is nothing. */
  lemma PlanHeld(steps: seq<Step>, n: nat)
    requires n < |steps| && !AllGo(steps[..n])
    ensures Plan(steps[..n + 1]) == Plan(steps[..n]) && !AllGo(steps[..n + 1])
  {
    PartGoes(steps[..n + 1], n);
    assert steps[..n + 1][..n] == steps[..n];
    hide AllGo;
  }

  // ---------- Copying the disks ----------

  /** ensureRemotePathAvailable */
  method RemotePathAvailable(target: Host, path: string) returns (ok: bool)
    requires target.Valid()
    modifies target
    ensures target.Valid() && target.state == old(target.state)
    ensures target.log == old(target.log) + if Blank(Dir(path)) || Dir(path) == "." then []
              else [Event(Reserve(path), target.state)]
    ensures ok <==> !Blank(Dir(path)) && Dir(path) != "."
                    && Works(target.choices(|old(target.log)|), target.state, Reserve(path))
  {
    hide *;
    var dir := Dir(path);
    if Blank(dir) || dir == "." {
      return false;
    }
    ReserveEffect(target.choices(|target.log|), target.state, path);
    ok := target.Do(Reserve(path));
  }

  /** Send one disk. */
  method SendDisk(target: Host, d: ConfigDisk, pools: seq<Pool>, source: State, running: bool, seen: set<string>)
    returns (r: Result<(string, string)>)
    requires target.Valid()
    modifies target
    ensures target.Valid() && old(target.log) <= target.log
    ensures r.Ok? ==> r.value == (TrimSpace(d.path), TargetPath(d))
    ensures var step := SendStep(source, pools, running, d, seen);
            && Ran(target.choices, old(target.state), old(target.log), target.state, target.log, step.cmds)
            && (r.Ok? <==> step.go && Done(target.choices, |old(target.log)|, old(target.state), step.cmds))
  {
    hide *;
    ghost var choices, was, log, seenPath := target.choices, target.state, target.log, TargetPath(d);
    StepCommands(source, pools, running, d, seen);
    ReadyParts(d, pools, seen);
    RanStart(choices, was, log);
    var sourcePath := TrimSpace(d.path);
    if sourcePath == "" {
      return Err("migration disk path is unavailable");
    }
    var pool := PoolTargetForPath(sourcePath, pools);
    FoundTarget(sourcePath, pools, pool);
    if Blank(pool.path) {
      return Err("target storage pool path is unavailable");
    }
    var path := Clean(sourcePath);
    if path in seen {
      return Err("target migration disk path duplicated");
    }
    var available := RemotePathAvailable(target, path);
    if Ready(d, pools, seen) {
      ReserveEffect(choices(|log|), was, path);
      RanOne(choices, was, log, was, log, was, [], Reserve(path));
      assert [] + [Reserve(path)] == [Reserve(path)];
    }
    if !available {
      if Ready(d, pools, seen) && path in source.files {
        RanStuck(choices, was, log, was, target.log, [Reserve(path)], [Send(path, source.files[path], !running)]);
        assert [Reserve(path)] + [Send(path, source.files[path], !running)]
            == [Reserve(path), Send(path, source.files[path], !running)];
      }
      return Err("target disk already exists");
    }
    if path !in source.files {
      return Err("command failed");
    }
    ghost var between := target.log;
    var ok := target.Do(Send(path, source.files[path], !running));
    RanOne(choices, was, log, was, between, target.state, [Reserve(path)], Send(path, source.files[path], !running));
    assert [Reserve(path)] + [Send(path, source.files[path], !running)]
        == [Reserve(path), Send(path, source.files[path], !running)];
    if !ok {
      return Err("command failed");
    }
    return Ok((sourcePath, path));
  }

  lemma ReadyParts(d: ConfigDisk, pools: seq<Pool>, seen: set<string>)
    ensures TargetPath(d) == Clean(TrimSpace(d.path))
    ensures Ready(d, pools, seen) <==>
              && TrimSpace(d.path) != "" && !Blank(PoolTarget(TrimSpace(d.path), pools)) && TargetPath(d) !in seen
              && !Blank(Dir(TargetPath(d))) && Dir(TargetPath(d)) != "."
  {
    hide TrimSpace, Clean, Blank, PoolTarget, Dir;
  }

  lemma FoundTarget(path: string, pools: seq<Pool>, pool: Pool)
    requires CleanPool(path) == "" ==> pool == Pool("", "")
    requires CleanPool(path) != "" ==>
               pool == match Best(CleanPool(path), pools) case None => Pool("", "") case Some(p) => p
    ensures pool.path == PoolTarget(path, pools)
  {
    hide CleanPool, Best;
  }

  /** copyMigrationDisksToTarget; source is the state of the source host, pools are the target's. */
  method CopyMigrationDisks(target: Host, disks: seq<ConfigDisk>, pools: seq<Pool>, source: State, running: bool)
    returns (r: Result<map<string, string>>)
    requires target.Valid()
    modifies target
    ensures target.Valid() && old(target.log) <= target.log
    ensures var steps := SendSteps(source, pools, running, disks);
            && Ran(target.choices, old(target.state), old(target.log), target.state, target.log, Plan(steps))
            && (r.Ok? <==> AllGo(steps) && Done(target.choices, |old(target.log)|, old(target.state), Plan(steps)))
    ensures var trip := Trip(source, old(target.state), disks, running);
            && Stuck(trip, target.state, target.log[|old(target.log)|..])
            && (r.Ok? ==> && r.value == DiskMap(disks) && AllLanded(trip, target.state, disks) && DistinctTargets(disks)
                          && NewOnly(trip.target, target.state, TargetPaths(disks)))
  {
    hide *;
    ghost var choices, was, log, steps := target.choices, target.state, target.log,
      SendSteps(source, pools, running, disks);
    ghost var trip := Trip(source, was, disks, running);
    var diskPaths: map<string, string>, seenTargets: set<string> := map[], {};
    NothingMapped();
    ThroughStart(choices, was, log, steps);
    assert disks[..0] == [];
    for i := 0 to |disks|
      invariant target.Valid() && old(target.log) <= target.log
      invariant diskPaths == DiskMap(disks[..i]) && seenTargets == TargetPaths(disks[..i])
      invariant Through(choices, was, log, target.state, target.log, steps, i)
    {
      ghost var mid, between := target.state, target.log;
      var sent := SendDisk(target, disks[i], pools, source, running, seenTargets);
      StepTaken(choices, was, log, mid, between, target.state, target.log, steps, i);
      if sent.Err? {
        AllSent(trip, pools, choices, log, target.state, target.log);
        return Err(sent.message);
      }
      assert disks[..i + 1] == disks[..i] + [disks[i]];
      NextMapped(disks, i);
      PathsOfMore(disks[..i], disks[i]);
      seenTargets := seenTargets + {TargetPath(disks[i])};
      diskPaths := diskPaths[sent.value.0 := sent.value.1];
      if !Blank(disks[i].sourcePath) {
        diskPaths := diskPaths[disks[i].sourcePath := sent.value.1];
      }
    }
    assert disks[..|disks|] == disks;
    ThroughAll(choices, was, log, target.state, target.log, steps);
    AllSent(trip, pools, choices, log, target.state, target.log);
    return Ok(diskPaths);
  }

  lemma NothingMapped()
    ensures DiskMap([]) == map[] && TargetPaths([]) == {}
  {
  }

  /** What the copying leaves, read off its run. */
  lemma AllSent(trip: Trip, pools: seq<Pool>, choices: Choices, before: seq<Event>, now: State, log: seq<Event>)
    requires Ran(choices, trip.target, before, now, log, Plan(SendSteps(trip.source, pools, trip.running, trip.disks)))
    ensures before <= log && Stuck(trip, now, log[|before|..])
    ensures var steps := SendSteps(trip.source, pools, trip.running, trip.disks);
            AllGo(steps) && Done(choices, |before|, trip.target, Plan(steps)) ==>
              && AllLanded(trip, now, trip.disks) && DistinctTargets(trip.disks)
              && NewOnly(trip.target, now, TargetPaths(trip.disks))
  {
    hide *;
    var steps := SendSteps(trip.source, pools, trip.running, trip.disks);
    DisksSent(trip, pools, choices, |before|, |trip.disks|);
    assert steps[..|trip.disks|] == steps && trip.disks[..|trip.disks|] == trip.disks;
    RanEvents(choices, trip.target, before, now, log, Plan(steps));
    if AllGo(steps) && Done(choices, |before|, trip.target, Plan(steps)) {
      SendingStuck(trip, now, log[|before|..], trip.disks, TargetPaths(trip.disks));
    }
  }

  lemma NextMapped(disks: seq<ConfigDisk>, i: nat)
    requires i < |disks|
    ensures var d := disks[i];
            var m := DiskMap(disks[..i])[TrimSpace(d.path) := TargetPath(d)];
            DiskMap(disks[..i + 1]) == if Blank(d.sourcePath) then m else m[d.sourcePath := TargetPath(d)]
  {
    hide TrimSpace, TargetPath, Blank;
    assert disks[..i + 1][..i] == disks[..i];
  }

  // ---------- The path map ----------

  /** A later disk has the disk's path as its backing base. */
  predicate BaseOfLater(disks: seq<ConfigDisk>, i: nat)
    requires i < |disks|
  {
    exists j :: i < j < |disks| && !Blank(disks[j].sourcePath) && disks[j].sourcePath == TrimSpace(disks[i].path)
  }

  /** The map sends a disk to its own copy exactly if the disk is no later disk's backing base. */
  lemma {:induction false} MapsToCopy(disks: seq<ConfigDisk>, i: nat)
    requires i < |disks| && DistinctTargets(disks)
    ensures TrimSpace(disks[i].path) in DiskMap(disks)
    ensures DiskMap(disks)[TrimSpace(disks[i].path)] == TargetPath(disks[i]) <==> !BaseOfLater(disks, i)
    decreases |disks|
  {
    hide TrimSpace, Clean, Blank;
    var n := |disks| - 1;
    NextMapped(disks, n);
    assert disks[..n + 1] == disks;
    if i < n {
      MapsToCopy(disks[..n], i);
      PathDiffers(disks, i, n);
      hide DiskMap, TargetPath;
      LaterBase(disks, i);
    }
  }

  lemma PathDiffers(disks: seq<ConfigDisk>, i: nat, n: nat)
    requires i < n < |disks| && DistinctTargets(disks)
    ensures TrimSpace(disks[i].path) != TrimSpace(disks[n].path) && TargetPath(disks[i]) != TargetPath(disks[n])
  {
    hide TrimSpace, Clean;
  }

  lemma LaterBase(disks: seq<ConfigDisk>, i: nat)
    requires i < |disks| - 1
    ensures var n := |disks| - 1;
            BaseOfLater(disks, i) <==>
              BaseOfLater(disks[..n], i)
                || (!Blank(disks[n].sourcePath) && disks[n].sourcePath == TrimSpace(disks[i].path))
  {
    hide TrimSpace, Blank;
    var n := |disks| - 1;
    if BaseOfLater(disks[..n], i) {
      var j :| i < j < n && !Blank(disks[..n][j].sourcePath)
        && disks[..n][j].sourcePath == TrimSpace(disks[..n][i].path);
      assert !Blank(disks[j].sourcePath);
    }
    if BaseOfLater(disks, i) {
      var j :| i < j < |disks| && !Blank(disks[j].sourcePath) && disks[j].sourcePath == TrimSpace(disks[i].path);
      assert j < n ==> disks[..n][j] == disks[j];
    }
  }

  // ---------- The target ----------

  /** The temporary file a cold migration writes and removes on the target. */
  function RemoteXml(vm: string): string { "/tmp/kvm-manager-migrate-" + vm + ".xml" }

  /** At any moment the target keeps its files, the temporary one excepted, and all other definitions. */
  ghost predicate KeepsBut(was: State, t: State, vm: string, xml: Option<string>) {
    && (forall p :: p in was.files && Some(p) != xml ==> p in t.files && t.files[p] == was.files[p])
    && OthersSame(was, t, vm)
  }

  ghost predicate AllKeepBut(was: State, log: seq<Event>, vm: string, xml: Option<string>) {
    forall k :: 0 <= k < |log| ==> KeepsBut(was, log[k].state, vm, xml)
  }

  predicate NoDiskIs(disks: seq<ConfigDisk>, xml: Option<string>) {
    forall i :: 0 <= i < |disks| ==> Some(TargetPath(disks[i])) != xml
  }

  /** No file is new but copies and the temporary one. */
  ghost predicate NewBut(was: State, t: State, paths: set<string>, xml: Option<string>) {
    forall p :: p in t.files ==> p in was.files || p in paths || Some(p) == xml
  }

  /** The copies are there, unless one is at the path of the temporary file. */
  ghost predicate Delivered(trip: Trip, t: State, xml: Option<string>) {
    && DistinctTargets(trip.disks) && NewBut(trip.target, t, TargetPaths(trip.disks), xml)
    && (NoDiskIs(trip.disks, xml) ==> AllLanded(trip, t, trip.disks))
  }

  /** The target has the machine and the copies of its disks. */
  ghost predicate Arrived(trip: Trip, t: State, vm: string, next: Forest, xml: Option<string>) {
    vm in t.domains && ConfigDisks(t.domains[vm]) == ConfigDisks(next) && Delivered(trip, t, xml)
      && KeepsBut(trip.target, t, vm, xml)
  }

  lemma StuckKeepsBut(trip: Trip, now: State, log: seq<Event>, vm: string, xml: Option<string>)
    requires Stuck(trip, now, log)
    ensures KeepsBut(trip.target, now, vm, xml) && AllKeepBut(trip.target, log, vm, xml)
  {
    forall k | 0 <= k < |log| ensures KeepsBut(trip.target, log[k].state, vm, xml) {
      assert Keeps(trip.target, log[k].state);
    }
  }

  lemma CopiesDelivered(trip: Trip, now: State, xml: Option<string>)
    requires AllLanded(trip, now, trip.disks) && DistinctTargets(trip.disks)
    requires NewOnly(trip.target, now, TargetPaths(trip.disks))
    ensures Delivered(trip, now, xml)
  {
    hide AllLanded, DistinctTargets, TargetPaths;
  }

  lemma KeepsButStep(was: State, before: seq<Event>, e: Event, vm: string, xml: Option<string>)
    requires AllKeepBut(was, before, vm, xml) && KeepsBut(was, e.state, vm, xml)
    ensures AllKeepBut(was, before + [e], vm, xml)
  {
    hide KeepsBut;
  }

  /** Nothing but the temporary file and one definition differs. */
  ghost predicate SmallChange(a: State, b: State, vm: string, xml: Option<string>) {
    && OthersSame(a, b, vm)
    && forall p :: Some(p) != xml ==> (p in b.files <==> p in a.files) && (p in a.files ==> b.files[p] == a.files[p])
  }

  lemma SmallStep(trip: Trip, mid: State, now: State, vm: string, xml: Option<string>)
    requires KeepsBut(trip.target, mid, vm, xml) && SmallChange(mid, now, vm, xml)
    ensures KeepsBut(trip.target, now, vm, xml) && (Delivered(trip, mid, xml) ==> Delivered(trip, now, xml))
  {
    StillDelivered(trip, mid, now, vm, xml);
    hide Delivered;
  }

  lemma StillDelivered(trip: Trip, mid: State, now: State, vm: string, xml: Option<string>)
    requires SmallChange(mid, now, vm, xml)
    ensures Delivered(trip, mid, xml) ==> Delivered(trip, now, xml)
  {
    hide TargetPath, TrimSpace, TargetPaths, DistinctTargets, OthersSame;
    if Delivered(trip, mid, xml) && NoDiskIs(trip.disks, xml) {
      forall i | 0 <= i < |trip.disks| ensures Landed(trip, now, trip.disks[i]) {
        assert Landed(trip, mid, trip.disks[i]);
      }
    }
  }

  predicate Holds(s: State, path: string, content: nat) { path in s.files && s.files[path] == content }

  /** A command of the part behind the copies. */
  predicate IsSmall(cmd: Command, vm: string, xml: Option<string>) {
    match cmd
    case Send(p, _, exact) => Some(p) == xml && exact
    case Unlink(p) => Some(p) == xml
    case Define(v, _, same) => v == vm && same
    case _ => false
  }

  lemma SmallEffect(c: Choice, s: State, cmd: Command, vm: string, xml: Option<string>)
    requires IsSmall(cmd, vm, xml)
    ensures SmallChange(s, Effect(c, s, cmd), vm, xml)
  {
  }

  /** Such commands keep what the copying left. */
  lemma {:induction false} SmallRun(trip: Trip, choices: Choices, at: nat, mid: State, cmds: seq<Command>, vm: string,
                                    xml: Option<string>)
    requires KeepsBut(trip.target, mid, vm, xml) && forall k :: 0 <= k < |cmds| ==> IsSmall(cmds[k], vm, xml)
    ensures var x := Execute(choices, at, mid, cmds);
            && KeepsBut(trip.target, Behind(mid, x.events), vm, xml) && AllKeepBut(trip.target, x.events, vm, xml)
            && (Delivered(trip, mid, xml) ==> Delivered(trip, Behind(mid, x.events), xml))
  {
    hide KeepsBut, Delivered, IsSmall, Execute, Further, Effect, Works, Behind, AllKeepBut;
    if cmds == [] {
      ExecuteNothing(choices, at, mid);
      EndMore(mid, [], Event(Unlink(""), mid));
      NoneKept(trip.target, vm, xml);
    } else {
      var n := |cmds| - 1;
      SmallRun(trip, choices, at, mid, cmds[..n], vm, xml);
      assert cmds == cmds[..n] + [cmds[n]];
      var x := Execute(choices, at, mid, cmds[..n]);
      ExecuteMore(choices, at, mid, cmds[..n], cmds[n]);
      if x.done {
        SmallMore(trip, choices(at + |x.events|), mid, x, cmds[n], vm, xml);
        FurtherDone(choices, at, mid, x, cmds[n]);
      } else {
        FurtherStuck(choices, at, mid, x, cmds[n]);
      }
    }
  }

  lemma NoneKept(was: State, vm: string, xml: Option<string>)
    ensures AllKeepBut(was, [], vm, xml)
  {
  }

  lemma SmallMore(trip: Trip, c: Choice, mid: State, x: Execution, cmd: Command, vm: string, xml: Option<string>)
    requires KeepsBut(trip.target, Behind(mid, x.events), vm, xml) && AllKeepBut(trip.target, x.events, vm, xml)
    requires IsSmall(cmd, vm, xml)
    ensures var now := Effect(c, Behind(mid, x.events), cmd); var events := x.events + [Event(cmd, now)];
            && Behind(mid, events) == now
            && KeepsBut(trip.target, now, vm, xml) && AllKeepBut(trip.target, events, vm, xml)
            && (Delivered(trip, Behind(mid, x.events), xml) ==> Delivered(trip, now, xml))
  {
    hide KeepsBut, Delivered, IsSmall, Effect, SmallChange, Behind;
    var before := Behind(mid, x.events);
    var now := Effect(c, before, cmd);
    SmallEffect(c, before, cmd, vm, xml);
    SmallStep(trip, before, now, vm, xml);
    KeepsButStep(trip.target, x.events, Event(cmd, now), vm, xml);
    EndMore(mid, x.events, Event(cmd, now));
  }

  // ---------- Runs of a migration ----------

  /** What a migration finds and is asked for: text is the content of the document it writes on the target. */
  datatype Setting = Setting(dirs: Dirs, source: State, target: State, vm: string, pools: seq<Pool>,
                             disks: seq<ConfigDisk>, running: bool, undefine: bool, text: nat)

  /** How the commands go, from a length of the log of each host on. */
  datatype Schedule = Schedule(target: Choices, at: nat, source: Choices, from: nat)

  function TripOf(x: Setting): Trip { Trip(x.source, x.target, x.disks, x.running) }

  function StepsOf(x: Setting): seq<Step> { SendSteps(x.source, x.pools, x.running, x.disks) }

  /** What the target is to define. */
  function NextOf(source: State, vm: string, disks: seq<ConfigDisk>, running: bool): Forest {
    if vm !in source.domains then Nil
    else if running then source.domains[vm]
    else MigrateForest(DiskMap(disks), "", source.domains[vm])
  }

  /** Different machines never share the path of the temporary file. */
  lemma OwnTemporaryFile(vm: string, other: string)
    requires RemoteXml(vm) == RemoteXml(other)
    ensures vm == other
  {
    var dir, a, b := |"/tmp/kvm-manager-migrate-"|, RemoteXml(vm), RemoteXml(other);
    assert a[dir..|a| - 4] == vm && b[dir..|b| - 4] == other;
  }

  function XmlOf(vm: string, running: bool): Option<string> {
    if running then None else Some(RemoteXml(vm))
  }

  /** The definition on the target: virsh migrate brings the source's along, a cold migration sends its own. */
  function Settling(x: Setting): seq<Command> {
    var define := Define(x.vm, NextOf(x.source, x.vm, x.disks, x.running), true);
    if x.running then [define] else [Send(RemoteXml(x.vm), x.text, true), define]
  }

  function Tidying(x: Setting): seq<Command> {
    if x.running then [] else [Unlink(RemoteXml(x.vm))]
  }

  /** The copies are made and the machine is defined. */
  predicate Arrives(x: Setting, choices: Choices, at: nat) {
    AllGo(StepsOf(x)) && Done(choices, at, x.target, Plan(StepsOf(x)) + Settling(x))
  }

  function TargetCommands(x: Setting): seq<Command> {
    Plan(StepsOf(x)) + if AllGo(StepsOf(x)) then Settling(x) + Tidying(x) else []
  }

  /** The removal from the source, which is given only after an arrival. */
  function Removing(x: Setting): seq<Command> {
    (if x.running then [Stop(x.vm)] else []) + RemoveCommands(x.dirs, x.source, x.vm, x.disks)
  }

  function SourceCommands(x: Setting, c: Schedule): seq<Command> {
    if x.undefine && Arrives(x, c.target, c.at) then Removing(x) else []
  }

  function TargetEvents(x: Setting, c: Schedule): seq<Event> {
    Execute(c.target, c.at, x.target, TargetCommands(x)).events
  }

  function SourceEvents(x: Setting, c: Schedule): seq<Event> {
    Execute(c.source, c.from, x.source, SourceCommands(x, c)).events
  }

  function Landing(x: Setting, c: Schedule): State { Behind(x.target, TargetEvents(x, c)) }

  function RunMoments(x: Setting, c: Schedule): seq<(State, State)> {
    Moments(x.source, TargetEvents(x, c), SourceEvents(x, c), Landing(x, c))
  }

  // ---------- What the target has after a run ----------

  /** Where the copying ends. */
  function CopyRun(x: Setting, c: Schedule): Execution { Execute(c.target, c.at, x.target, Plan(StepsOf(x))) }

  lemma RunCopies(x: Setting, c: Schedule)
    ensures var e, trip := CopyRun(x, c), TripOf(x);
            && KeepsBut(x.target, Behind(x.target, e.events), x.vm, XmlOf(x.vm, x.running))
            && AllKeepBut(x.target, e.events, x.vm, XmlOf(x.vm, x.running))
            && (AllGo(StepsOf(x)) && e.done ==>
                  && Delivered(trip, Behind(x.target, e.events), XmlOf(x.vm, x.running))
                  && AllLanded(trip, Behind(x.target, e.events), x.disks)
                  && DistinctTargets(x.disks) && NewOnly(x.target, Behind(x.target, e.events), TargetPaths(x.disks)))
  {
    hide *;
    var e, trip := CopyRun(x, c), TripOf(x);
    RunParts(x, c);
    DisksSent(trip, x.pools, c.target, c.at, |x.disks|);
    assert StepsOf(x)[..|x.disks|] == StepsOf(x) && x.disks[..|x.disks|] == x.disks;
    StuckKeepsBut(trip, Behind(x.target, e.events), e.events, x.vm, XmlOf(x.vm, x.running));
    if AllGo(StepsOf(x)) && e.done {
      SendingStuck(trip, Behind(x.target, e.events), e.events, x.disks, TargetPaths(x.disks));
      CopiesDelivered(trip, Behind(x.target, e.events), XmlOf(x.vm, x.running));
    }
  }

  lemma RunParts(x: Setting, c: Schedule)
    ensures TripOf(x) == Trip(x.source, x.target, x.disks, x.running)
    ensures StepsOf(x) == SendSteps(x.source, x.pools, x.running, x.disks) && |StepsOf(x)| == |x.disks|
    ensures CopyRun(x, c) == Execute(c.target, c.at, x.target, Plan(StepsOf(x)))
    ensures TargetEvents(x, c) == Execute(c.target, c.at, x.target, TargetCommands(x)).events
    ensures Landing(x, c) == Behind(x.target, TargetEvents(x, c))
    ensures AllGo(StepsOf(x)) ==> TargetCommands(x) == Plan(StepsOf(x)) + (Settling(x) + Tidying(x))
    ensures !AllGo(StepsOf(x)) ==> TargetCommands(x) == Plan(StepsOf(x))
  {
    hide Execute, AllGo, Plan, Settling, Tidying, Behind;
    assert Plan(StepsOf(x)) + [] == Plan(StepsOf(x));
  }

  /** The events behind the copies. */
  function SettleRun(x: Setting, c: Schedule): Execution {
    var e := CopyRun(x, c);
    Execute(c.target, c.at + |e.events|, Behind(x.target, e.events), Settling(x) + Tidying(x))
  }

  /** A run is the copying, and if that comes through the rest. */
  lemma RunSplits(x: Setting, c: Schedule)
    ensures var e, f := CopyRun(x, c), SettleRun(x, c);
            && TargetEvents(x, c) == (if AllGo(StepsOf(x)) && e.done then e.events + f.events else e.events)
            && (AllGo(StepsOf(x)) && e.done ==> Landing(x, c) == Behind(Behind(x.target, e.events), f.events))
  {
    hide *;
    RunParts(x, c);
    SettledIs(x, c);
    ExecuteJoin(c.target, c.at, x.target, Plan(StepsOf(x)), Settling(x) + Tidying(x));
  }

  lemma SettledIs(x: Setting, c: Schedule)
    ensures var e := CopyRun(x, c);
            SettleRun(x, c)
              == Execute(c.target, c.at + |e.events|, Behind(x.target, e.events), Settling(x) + Tidying(x))
  {
    hide Execute, Settling, Tidying, CopyRun, Behind;
  }

  lemma SettlingSmall(x: Setting)
    ensures var cmds := Settling(x) + Tidying(x);
            forall k :: 0 <= k < |cmds| ==> IsSmall(cmds[k], x.vm, XmlOf(x.vm, x.running))
  {
    hide NextOf, RemoteXml;
  }

  /** At every moment of a run the target keeps what is not the machine's. */
  lemma RunKeeps(x: Setting, c: Schedule)
    ensures KeepsBut(x.target, Landing(x, c), x.vm, XmlOf(x.vm, x.running))
    ensures AllKeepBut(x.target, TargetEvents(x, c), x.vm, XmlOf(x.vm, x.running))
    ensures AllGo(StepsOf(x)) && CopyRun(x, c).done ==> Delivered(TripOf(x), Landing(x, c), XmlOf(x.vm, x.running))
  {
    hide *;
    var e, f, xml := CopyRun(x, c), SettleRun(x, c), XmlOf(x.vm, x.running);
    RunParts(x, c);
    RunSplits(x, c);
    RunCopies(x, c);
    if AllGo(StepsOf(x)) && e.done {
      SettledIs(x, c);
      SettlingSmall(x);
      SmallRun(TripOf(x), c.target, c.at + |e.events|, Behind(x.target, e.events), Settling(x) + Tidying(x), x.vm, xml);
      JoinKeeps(x.target, e.events, f.events, x.vm, xml);
    }
  }

  lemma JoinKeeps(was: State, before: seq<Event>, after: seq<Event>, vm: string, xml: Option<string>)
    requires AllKeepBut(was, before, vm, xml) && AllKeepBut(was, after, vm, xml)
    ensures AllKeepBut(was, before + after, vm, xml)
  {
    hide KeepsBut;
  }

  /** Whether the run arrives, told from where the copying ends. */
  lemma ArrivesWhen(x: Setting, c: Schedule)
    ensures var e := CopyRun(x, c);
            Arrives(x, c.target, c.at) <==>
              && AllGo(StepsOf(x)) && e.done
              && Done(c.target, c.at + |e.events|, Behind(x.target, e.events), Settling(x))
  {
    hide Execute, AllGo, Plan, Settling, Behind;
    ExecuteJoin(c.target, c.at, x.target, Plan(StepsOf(x)), Settling(x));
  }

  /** What the commands behind the copies leave, if those that define the machine work. */
  lemma SettledState(x: Setting, choices: Choices, at: nat, mid: State)
    requires Done(choices, at, mid, Settling(x))
    ensures var y := Execute(choices, at, mid, Settling(x) + Tidying(x)); var t := Behind(mid, y.events);
            && x.vm in t.domains && t.domains[x.vm] == NextOf(x.source, x.vm, x.disks, x.running)
            && (!x.running ==> RemoteXml(x.vm) !in t.files || Holds(t, RemoteXml(x.vm), x.text))
            && (!x.running && choices(at + 2).ok ==> RemoteXml(x.vm) !in t.files)
  {
    var define := Define(x.vm, NextOf(x.source, x.vm, x.disks, x.running), true);
    hide *;
    SettlingIs(x);
    if x.running {
      ExecuteOne(choices, at, mid, define);
      DoneIs(choices, at, mid, Settling(x));
      assert Settling(x) + [] == Settling(x);
      DefineLast(choices(at), mid, define);
    } else {
      ColdSettled(choices, at, mid, x.vm, RemoteXml(x.vm), x.text, define);
    }
  }

  lemma SettlingIs(x: Setting)
    ensures var define := Define(x.vm, NextOf(x.source, x.vm, x.disks, x.running), true);
            && (x.running ==> Settling(x) == [define] && Tidying(x) == [])
            && (!x.running ==> Settling(x) == [Send(RemoteXml(x.vm), x.text, true), define]
                               && Tidying(x) == [Unlink(RemoteXml(x.vm))])
  {
    hide NextOf, RemoteXml;
  }

  lemma DoneIs(choices: Choices, at: nat, s: State, cmds: seq<Command>)
    ensures Done(choices, at, s, cmds) == Execute(choices, at, s, cmds).done
  {
  }

  lemma DefineLast(c: Choice, s: State, define: Command)
    requires define.Define? && Works(c, s, define)
    ensures var t := Behind(s, [Event(define, Effect(c, s, define))]);
            define.vm in t.domains && t.domains[define.vm] == define.doc
  {
    EndMore(s, [], Event(define, Effect(c, s, define)));
    assert [] + [Event(define, Effect(c, s, define))] == [Event(define, Effect(c, s, define))];
  }

  lemma ColdSettled(choices: Choices, at: nat, mid: State, vm: string, path: string, text: nat, define: Command)
    requires define.Define? && define.vm == vm && define.same
    requires Done(choices, at, mid, [Send(path, text, true), define])
    ensures var y := Execute(choices, at, mid, [Send(path, text, true), define] + [Unlink(path)]);
            var t := Behind(mid, y.events);
            && vm in t.domains && t.domains[vm] == define.doc
            && (path !in t.files || Holds(t, path, text)) && (choices(at + 2).ok ==> path !in t.files)
  {
    hide *;
    var send, unlink := Send(path, text, true), Unlink(path);
    DoneIs(choices, at, mid, [send, define]);
    ExecuteTwo(choices, at, mid, send, define);
    var x := Execute(choices, at, mid, [send, define]);
    ExecuteMore(choices, at, mid, [send, define], unlink);
    FurtherDone(choices, at, mid, x, unlink);
    var s := Effect(choices(at), mid, send);
    var t := Effect(choices(at + 1), s, define);
    EndMore(mid, [Event(send, s)], Event(define, t));
    assert [Event(send, s)] + [Event(define, t)] == [Event(send, s), Event(define, t)];
    var u := Effect(choices(at + 2), t, unlink);
    EndMore(mid, x.events, Event(unlink, u));
    ThreeEffects(choices(at), choices(at + 1), choices(at + 2), mid, path, text, define);
  }

  lemma ThreeEffects(a: Choice, b: Choice, c: Choice, mid: State, path: string, text: nat, define: Command)
    requires define.Define? && define.same
    requires Works(a, mid, Send(path, text, true)) && Works(b, Effect(a, mid, Send(path, text, true)), define)
    ensures var t := Effect(c, Effect(b, Effect(a, mid, Send(path, text, true)), define), Unlink(path));
            && define.vm in t.domains && t.domains[define.vm] == define.doc
            && (path !in t.files || Holds(t, path, text)) && (c.ok ==> path !in t.files)
  {
  }

  lemma HasArrived(trip: Trip, t: State, vm: string, next: Forest, xml: Option<string>)
    requires vm in t.domains && t.domains[vm] == next && Delivered(trip, t, xml) && KeepsBut(trip.target, t, vm, xml)
    ensures Arrived(trip, t, vm, next, xml)
  {
    hide Delivered, ConfigDisks, KeepsBut;
  }

  /** A run that arrives has the machine and its copies on the target; what was at the path of the temporary file is
      gone or replaced by the text. */
  lemma RunArrives(x: Setting, c: Schedule)
    requires Arrives(x, c.target, c.at)
    ensures Arrived(TripOf(x), Landing(x, c), x.vm, NextOf(x.source, x.vm, x.disks, x.running), XmlOf(x.vm, x.running))
    ensures !x.running ==> RemoteXml(x.vm) !in Landing(x, c).files || Holds(Landing(x, c), RemoteXml(x.vm), x.text)
    ensures !x.running && c.target(c.at + |CopyRun(x, c).events| + 2).ok ==> RemoteXml(x.vm) !in Landing(x, c).files
  {
    hide *;
    var e := CopyRun(x, c);
    ArrivesWhen(x, c);
    RunParts(x, c);
    RunSplits(x, c);
    RunKeeps(x, c);
    SettledIs(x, c);
    SettledState(x, c.target, c.at + |e.events|, Behind(x.target, e.events));
    HasArrived(TripOf(x), Landing(x, c), x.vm, NextOf(x.source, x.vm, x.disks, x.running), XmlOf(x.vm, x.running));
  }

  // ---------- Whole migrations ----------

  function Beside(s: State, events: seq<Event>): seq<(State, State)> {
    seq(|events|, i requires 0 <= i < |events| => (s, events[i].state))
  }

  function With(events: seq<Event>, t: State): seq<(State, State)> {
    seq(|events|, i requires 0 <= i < |events| => (events[i].state, t))
  }

  /** The moments of a run: first the target moves beside the untouched source, then the source beside the
      finished target. */
  function Moments(source: State, targets: seq<Event>, sources: seq<Event>, target: State): seq<(State, State)> {
    Beside(source, targets) + With(sources, target)
  }

  /** A run of a migration: where it goes, and all its moments. */
  datatype Journey = Journey(dirs: Dirs, trip: Trip, vm: string, next: Forest, xml: Option<string>,
                             moments: seq<(State, State)>)

  /** At any moment of a migration: the source is as it was, or the machine has arrived on the target; the
      target keeps what is not the machine's; and the source loses nothing but the machine and volumes of its
      disks that no other machine uses. */
  ghost predicate SafePair(j: Journey, pair: (State, State)) {
    && (pair.0 == j.trip.source || Arrived(j.trip, pair.1, j.vm, j.next, j.xml))
    && KeepsBut(j.trip.target, pair.1, j.vm, j.xml)
    && Deleting(j.dirs, j.trip.source, pair.0, j.vm, DiskVolumes(j.trip.disks))
  }

  ghost predicate AllSafe(j: Journey, pairs: seq<(State, State)>) {
    forall k :: 0 <= k < |pairs| ==> SafePair(j, pairs[k])
  }

  lemma SendingIsSafe(j: Journey, events: seq<Event>)
    requires AllKeepBut(j.trip.target, events, j.vm, j.xml)
    ensures AllSafe(j, Beside(j.trip.source, events))
  {
    hide KeepsBut, Arrived, DiskVolumes, Erased;
    var pairs := Beside(j.trip.source, events);
    forall k | 0 <= k < |pairs| ensures SafePair(j, pairs[k]) {
      assert pairs[k] == (j.trip.source, events[k].state);
      assert KeepsBut(j.trip.target, events[k].state, j.vm, j.xml);
    }
  }

  lemma RemovingIsSafe(j: Journey, log: seq<Event>, start: nat, now: State)
    requires AllDeleting(j.dirs, j.trip.source, log, start, j.vm, DiskVolumes(j.trip.disks)) && start <= |log|
    requires Arrived(j.trip, now, j.vm, j.next, j.xml) && KeepsBut(j.trip.target, now, j.vm, j.xml)
    ensures AllSafe(j, With(log[start..], now))
  {
    hide KeepsBut, Arrived, DiskVolumes, Deleting;
    var pairs := With(log[start..], now);
    forall k | 0 <= k < |pairs| ensures SafePair(j, pairs[k]) {
      assert pairs[k] == (log[start + k].state, now);
    }
  }

  /** Nothing has happened to the source. */
  lemma SourceStays(j: Journey, events: seq<Event>, now: State)
    requires AllKeepBut(j.trip.target, events, j.vm, j.xml)
    ensures AllSafe(j, Moments(j.trip.source, events, [], now))
  {
    SendingIsSafe(j, events);
    hide AllKeepBut, SafePair;
    assert With([], now) == [];
    assert Moments(j.trip.source, events, [], now) == Beside(j.trip.source, events);
    hide Moments, Beside, With;
  }

  lemma SourceGoes(j: Journey, events: seq<Event>, sources: seq<Event>, from: nat, now: State)
    requires AllKeepBut(j.trip.target, events, j.vm, j.xml)
    requires AllDeleting(j.dirs, j.trip.source, sources, from, j.vm, DiskVolumes(j.trip.disks)) && from <= |sources|
    requires Arrived(j.trip, now, j.vm, j.next, j.xml) && KeepsBut(j.trip.target, now, j.vm, j.xml)
    ensures AllSafe(j, Moments(j.trip.source, events, sources[from..], now))
  {
    SendingIsSafe(j, events);
    RemovingIsSafe(j, sources, from, now);
    hide *;
    JoinSafe(j, Beside(j.trip.source, events), With(sources[from..], now));
    AreMoments(j.trip.source, events, sources[from..], now);
  }

  lemma JoinSafe(j: Journey, ps: seq<(State, State)>, qs: seq<(State, State)>)
    requires AllSafe(j, ps) && AllSafe(j, qs)
    ensures AllSafe(j, ps + qs)
  {
    hide SafePair;
  }

  lemma AreMoments(source: State, targets: seq<Event>, sources: seq<Event>, target: State)
    ensures Moments(source, targets, sources, target) == Beside(source, targets) + With(sources, target)
  {
  }

  /** The run of a migration, whatever its outcome: nothing happened, or it is about the machine's own disks; and
      all its moments are safe. */
  ghost predicate SafeJourney(j: Journey) {
    && (j.moments == [] || (j.vm in j.trip.source.domains && Describes(j.trip.disks, j.trip.source.domains[j.vm])))
    && AllSafe(j, j.moments)
  }

  function JourneyOf(dirs: Dirs, source: State, target: State, vm: string, disks: seq<ConfigDisk>, running: bool,
                     moments: seq<(State, State)>): Journey
  {
    Journey(dirs, Trip(source, target, disks, running), vm, NextOf(source, vm, disks, running), XmlOf(vm, running),
            moments)
  }

  lemma JourneySafe(dirs: Dirs, source: State, target: State, vm: string, disks: seq<ConfigDisk>, running: bool,
                    moments: seq<(State, State)>)
    requires moments == [] || (vm in source.domains && Describes(disks, source.domains[vm]))
    requires AllSafe(JourneyOf(dirs, source, target, vm, disks, running, []), moments)
    ensures SafeJourney(JourneyOf(dirs, source, target, vm, disks, running, moments))
  {
    var j, k := JourneyOf(dirs, source, target, vm, disks, running, []),
      JourneyOf(dirs, source, target, vm, disks, running, moments);
    hide Describes, Arrived, KeepsBut, Deleting;
    assert forall pair :: SafePair(j, pair) == SafePair(k, pair);
    hide SafePair;
  }

  lemma JourneyParts(dirs: Dirs, source: State, target: State, vm: string, disks: seq<ConfigDisk>, running: bool)
    ensures var j := JourneyOf(dirs, source, target, vm, disks, running, []);
            && j.dirs == dirs && j.trip == Trip(source, target, disks, running) && j.vm == vm
            && j.xml == XmlOf(vm, running) && j.next == NextOf(source, vm, disks, running)
  {
  }
}

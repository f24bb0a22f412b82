// Creating a machine: volumes are made one by one, the domain is defined, and every earlier exit removes
// the volumes again.
module Provisioning {
  import opened Strings
  import opened Commands
  import opened Storage

  type Dirs = map<string, PoolDir>

  /** The path of the volume (pool, name) as the volume operations read the two fields. */
  function At(dirs: Dirs, v: (string, string)): string {
    if TrimSpace(v.0) in dirs then VolumePath(dirs[TrimSpace(v.0)], TrimSpace(v.1)) else ""
  }

  function PathsAt(dirs: Dirs, volumes: seq<(string, string)>): set<string> {
    set v | v in volumes :: At(dirs, v)
  }

  predicate Proper(dirs: Dirs, v: (string, string)) {
    TrimSpace(v.0) != "" && TrimSpace(v.1) != "" && TrimSpace(v.0) in dirs && '/' !in TrimSpace(v.1)
  }

  lemma AtPath(host: Host, v: (string, string))
    ensures host.PathOf(TrimSpace(v.0), TrimSpace(v.1)) == At(host.dirs, v)
  {
  }

  // ---------- Removing volumes ----------

  /** Where the removal of volumes stands once it is back at i: what is still there has an excuse. */
  ghost predicate Cleaning(dirs: Dirs, choices: Choices, was: State, now: State, log: seq<Event>, from: nat,
                           made: seq<(string, string)>, i: nat)
  {
    && from <= |log| && Pruned(was, now, PathsAt(dirs, made)) && AllPruned(was, log, from, PathsAt(dirs, made))
    && forall k :: i <= k < |made| && At(dirs, made[k]) in now.files ==>
         Excused(choices, log, from, was.domains, At(dirs, made[k]))
  }

  lemma CleanStart(dirs: Dirs, choices: Choices, was: State, log: seq<Event>, made: seq<(string, string)>)
    ensures Cleaning(dirs, choices, was, was, log, |log|, made, |made|)
  {
  }

  /** One volume more is gone or has an excuse. */
  lemma CleanStep(dirs: Dirs, choices: Choices, was: State, mid: State, now: State, before: seq<Event>,
                  after: seq<Event>, from: nat, made: seq<(string, string)>, i: nat)
    requires i < |made| && Cleaning(dirs, choices, was, mid, before, from, made, i + 1) && before <= after
    requires now == mid || now == mid.(files := mid.files - {At(dirs, made[i])})
    requires forall k :: |before| <= k < |after| ==> after[k].state == mid || after[k].state == now
    requires At(dirs, made[i]) in now.files ==> Excused(choices, after, |before|, mid.domains, At(dirs, made[i]))
    ensures Cleaning(dirs, choices, was, now, after, from, made, i)
  {
    hide At, Excused;
    assert At(dirs, made[i]) in PathsAt(dirs, made);
    PrunedStep(was, mid, now, before, after, from, PathsAt(dirs, made), At(dirs, made[i]));
    forall k | i <= k < |made| && At(dirs, made[k]) in now.files
      ensures Excused(choices, after, from, was.domains, At(dirs, made[k]))
    {
      if k == i {
        ExcusedLonger(choices, after, |before|, after, from, was.domains, At(dirs, made[k]));
      } else {
        ExcusedLonger(choices, before, from, after, from, was.domains, At(dirs, made[k]));
      }
    }
    hide Pruned, AllPruned, PathsAt;
  }

  lemma PrunedStep(was: State, mid: State, now: State, before: seq<Event>, after: seq<Event>, from: nat,
                   gone: set<string>, path: string)
    requires Pruned(was, mid, gone) && AllPruned(was, before, from, gone) && before <= after && path in gone
    requires now == mid || now == mid.(files := mid.files - {path})
    requires forall k :: |before| <= k < |after| ==> after[k].state == mid || after[k].state == now
    ensures Pruned(was, now, gone) && AllPruned(was, after, from, gone)
  {
    assert Pruned(was, now, gone);
    hide Pruned;
    forall k | from <= k < |after| ensures Pruned(was, after[k].state, gone) {
      assert k < |before| ==> after[k] == before[k];
    }
  }

  /** The events of a cleanup from the last volume back to the i-th: for each the look and the removal, whether those
      behind it failed or not. */
  function CleanupEvents(dirs: Dirs, choices: Choices, at: nat, s: State, made: seq<(string, string)>,
                         i: nat): seq<Event>
    requires i <= |made|
    decreases |made| - i
  {
    if i == |made| then []
    else
      var behind := CleanupEvents(dirs, choices, at, s, made, i + 1);
      behind + Execute(choices, at + |behind|, Behind(s, behind), VolumeCommands(dirs, s.domains, made[i])).events
  }

  lemma CleanupMore(dirs: Dirs, choices: Choices, was: State, start: seq<Event>, mid: State, log: seq<Event>,
                    now: State, after: seq<Event>, made: seq<(string, string)>, i: nat)
    requires i < |made| && mid.domains == was.domains
    requires log == start + CleanupEvents(dirs, choices, |start|, was, made, i + 1)
    requires mid == Behind(was, CleanupEvents(dirs, choices, |start|, was, made, i + 1))
    requires Ran(choices, mid, log, now, after, VolumeCommands(dirs, mid.domains, made[i]))
    ensures after == start + CleanupEvents(dirs, choices, |start|, was, made, i)
    ensures now == Behind(was, CleanupEvents(dirs, choices, |start|, was, made, i))
  {
    hide Execute, VolumeCommands;
  }

  lemma CleanupNone(dirs: Dirs, choices: Choices, was: State, start: seq<Event>, made: seq<(string, string)>)
    ensures CleanupEvents(dirs, choices, |start|, was, made, |made|) == [] && Behind(was, []) == was
    ensures start == start + CleanupEvents(dirs, choices, |start|, was, made, |made|)
  {
  }

  /** cleanupVMCloneVolumes, and the deferred cleanup of CreateVM: remove volumes, last one first, and
      ignore failures. Every volume is gone unless it has an excuse. */
  method Cleanup(host: Host, made: seq<(string, string)>)
    requires host.Valid() && forall v :: v in made ==> Proper(host.dirs, v)
    modifies host
    ensures host.Valid() && old(host.log) <= host.log
    ensures Cleaning(host.dirs, host.choices, old(host.state), host.state, host.log, |old(host.log)|, made, 0)
    ensures host.log == old(host.log)
                          + CleanupEvents(host.dirs, host.choices, |old(host.log)|, old(host.state), made, 0)
  {
    hide *;
    ghost var was, start := host.state, host.log;
    CleanStart(host.dirs, host.choices, was, host.log, made);
    CleanupNone(host.dirs, host.choices, was, start, made);
    for i := |made| downto 0
      invariant host.Valid() && old(host.log) <= host.log
      invariant Cleaning(host.dirs, host.choices, was, host.state, host.log, |start|, made, i)
      invariant host.log == start + CleanupEvents(host.dirs, host.choices, |start|, was, made, i)
      invariant host.state == Behind(was, CleanupEvents(host.dirs, host.choices, |start|, was, made, i))
    {
      ghost var mid, log := host.state, host.log;
      CleaningDomains(host.dirs, host.choices, was, mid, log, |start|, made, i + 1);
      RemoveMade(host, made, i, was, |start|);
      CleanupMore(host.dirs, host.choices, was, start, mid, log, host.state, host.log, made, i);
    }
  }

  lemma CleaningDomains(dirs: Dirs, choices: Choices, was: State, now: State, log: seq<Event>, from: nat,
                        made: seq<(string, string)>, i: nat)
    requires Cleaning(dirs, choices, was, now, log, from, made, i)
    ensures now.domains == was.domains
  {
    hide AllPruned, PathsAt, Excused;
  }

  /** One step of the cleanup. */
  method RemoveMade(host: Host, made: seq<(string, string)>, i: nat, ghost was: State, ghost from: nat)
    requires host.Valid() && i < |made| && Proper(host.dirs, made[i])
    requires Cleaning(host.dirs, host.choices, was, host.state, host.log, from, made, i + 1)
    modifies host
    ensures host.Valid() && old(host.log) <= host.log
    ensures Cleaning(host.dirs, host.choices, was, host.state, host.log, from, made, i)
    ensures Ran(host.choices, old(host.state), old(host.log), host.state, host.log,
                VolumeCommands(host.dirs, old(host.state.domains), made[i]))
  {
    hide TrimSpace, Cleaning, Used, IsIso, PathsAt, Excused, Ran, VolumeCommands;
    ghost var mid, log := host.state, host.log;
    AtPath(host, made[i]);
    var removed := host.DeleteStorageVolume(made[i].0, made[i].1);
    CleanStep(host.dirs, host.choices, was, mid, host.state, log, host.log, from, made, i);
  }

  // ---------- Making volumes ----------

  /** A run: how its commands go, where it began, and the paths of the volumes it is to make. */
  datatype Run = Run(dirs: Dirs, choices: Choices, was: State, from: nat, wanted: set<string>)

  /** A new file that may be left over: a volume of the run whose look or removal failed, or that a domain uses. */
  ghost predicate MayStay(run: Run, log: seq<Event>, path: string) {
    path in run.wanted && Excused(run.choices, log, run.from, run.was.domains, path)
  }

  /** Since the start nothing has changed but that these volumes were made with these contents. */
  ghost predicate Growing(run: Run, now: State, made: seq<(string, string)>, contents: seq<nat>) {
    && Keeps(run.was, now) && AllMade(run.dirs, run.was, now, made, contents)
    && NewOnly(run.was, now, PathsAt(run.dirs, made))
  }

  ghost predicate AllMade(dirs: Dirs, was: State, now: State, made: seq<(string, string)>, contents: seq<nat>) {
    && |contents| == |made|
    && (forall k :: 0 <= k < |made| ==> MadeAt(dirs, was, now, made[k], contents[k]))
    && forall j, k :: 0 <= j < k < |made| ==> At(dirs, made[j]) != At(dirs, made[k])
  }

  ghost predicate MadeAt(dirs: Dirs, was: State, now: State, v: (string, string), content: nat) {
    && Proper(dirs, v) && At(dirs, v) !in was.files
    && At(dirs, v) in now.files && now.files[At(dirs, v)] == content
  }

  /** Where the making of volumes stands, and that no state since the start has lost anything. */
  ghost predicate Making(run: Run, now: State, log: seq<Event>, made: seq<(string, string)>, contents: seq<nat>) {
    Growing(run, now, made, contents) && run.from <= |log| && AllKeep(run.was, log, run.from)
  }

  /** The same once making has failed: other new files may stay. */
  ghost predicate Broken(run: Run, now: State, log: seq<Event>, made: seq<(string, string)>, contents: seq<nat>) {
    && Keeps(run.was, now) && AllMade(run.dirs, run.was, now, made, contents)
    && (forall p :: p in now.files ==> p in run.was.files || p in PathsAt(run.dirs, made) || MayStay(run, log, p))
    && run.from <= |log| && AllKeep(run.was, log, run.from)
  }

  lemma MakingStart(run: Run, log: seq<Event>)
    requires run.from == |log|
    ensures Making(run, run.was, log, [], [])
  {
  }

  lemma MakingBroken(run: Run, now: State, log: seq<Event>, made: seq<(string, string)>, contents: seq<nat>)
    requires Making(run, now, log, made, contents)
    ensures Broken(run, now, log, made, contents)
  {
    hide AllMade, AllKeep, MayStay, PathsAt;
  }

  lemma MayStayLonger(run: Run, before: seq<Event>, after: seq<Event>)
    requires before <= after
    ensures forall p :: MayStay(run, before, p) ==> MayStay(run, after, p)
  {
    forall p | MayStay(run, before, p) ensures MayStay(run, after, p) {
      ExcusedLonger(run.choices, before, run.from, after, run.from, run.was.domains, p);
    }
    hide Excused;
  }

  lemma StillMade(dirs: Dirs, was: State, mid: State, now: State, made: seq<(string, string)>, contents: seq<nat>)
    requires AllMade(dirs, was, mid, made, contents) && Keeps(mid, now)
    ensures AllMade(dirs, was, now, made, contents)
  {
    hide At, Proper;
  }

  lemma OneMade(dirs: Dirs, was: State, mid: State, now: State, made: seq<(string, string)>, contents: seq<nat>,
                v: (string, string), content: nat)
    requires AllMade(dirs, was, mid, made, contents) && Keeps(mid, now) && MadeAt(dirs, was, now, v, content)
    requires At(dirs, v) !in mid.files
    ensures AllMade(dirs, was, now, made + [v], contents + [content])
  {
    StillMade(dirs, was, mid, now, made, contents);
    hide At, Proper, Keeps;
    forall k | 0 <= k < |made| ensures At(dirs, made[k]) != At(dirs, v) {
      assert MadeAt(dirs, was, mid, made[k], contents[k]);
    }
    hide MadeAt;
  }

  lemma GrowOne(host: Host, run: Run, mid: State, now: State, made: seq<(string, string)>, contents: seq<nat>,
                v: (string, string), content: nat)
    requires run.dirs == host.dirs && Growing(run, mid, made, contents)
    requires Proper(run.dirs, v) && host.Made(mid, now, TrimSpace(v.0), TrimSpace(v.1), content)
    ensures Growing(run, now, made + [v], contents + [content])
  {
    hide TrimSpace, Proper;
    AtPath(host, v);
    assert Keeps(mid, now) && Keeps(run.was, now);
    assert MadeAt(run.dirs, run.was, now, v, content);
    OneMade(run.dirs, run.was, mid, now, made, contents, v, content);
    PathsMore(run.dirs, made, v);
    hide Keeps, AllMade, MadeAt, PathsAt, At;
  }

  lemma PathsMore(dirs: Dirs, made: seq<(string, string)>, v: (string, string))
    ensures PathsAt(dirs, made + [v]) == PathsAt(dirs, made) + {At(dirs, v)}
  {
    hide At;
  }

  lemma MakingOne(host: Host, run: Run, mid: State, now: State, before: seq<Event>, after: seq<Event>,
                  made: seq<(string, string)>, contents: seq<nat>, v: (string, string), content: nat)
    requires run.dirs == host.dirs && run.choices == host.choices && before <= after
    requires Making(run, mid, before, made, contents)
    requires Tried(true, run.choices, mid, now, after, |before|, At(run.dirs, v))
    requires Proper(run.dirs, v) && host.Made(mid, now, TrimSpace(v.0), TrimSpace(v.1), content)
    ensures Making(run, now, after, made + [v], contents + [content])
  {
    GrowOne(host, run, mid, now, made, contents, v, content);
    AllKeepTrans(run.was, mid, after, |before|);
    AllKeepJoin(run.was, before, after, run.from);
    hide Growing, AllKeep, Keeps, NewOnly;
  }

  lemma MakingFailed(run: Run, mid: State, now: State, before: seq<Event>, after: seq<Event>,
                     made: seq<(string, string)>, contents: seq<nat>, volume: string)
    requires before <= after && Making(run, mid, before, made, contents) && volume in run.wanted
    requires Tried(false, run.choices, mid, now, after, |before|, volume)
    ensures Broken(run, now, after, made, contents)
  {
    StillMade(run.dirs, run.was, mid, now, made, contents);
    KeepsTrans(run.was, mid, now);
    AllKeepTrans(run.was, mid, after, |before|);
    AllKeepJoin(run.was, before, after, run.from);
    if volume in now.files && volume !in mid.files {
      ExcusedLonger(run.choices, after, |before|, after, run.from, run.was.domains, volume);
    }
    hide AllMade, AllKeep, PathsAt, Excused;
  }

  /** A command that changed nothing. */
  lemma MakingStutter(run: Run, now: State, before: seq<Event>, e: Event, made: seq<(string, string)>,
                      contents: seq<nat>)
    requires Making(run, now, before, made, contents) && e.state == now
    ensures Making(run, now, before + [e], made, contents)
  {
    hide AllMade, PathsAt;
    assert Keeps(run.was, now);
    hide Keeps;
  }

  lemma MakingProper(run: Run, now: State, log: seq<Event>, made: seq<(string, string)>, contents: seq<nat>)
    requires Broken(run, now, log, made, contents)
    ensures forall v :: v in made ==> Proper(run.dirs, v)
    ensures forall s :: s in run.was.files ==> s in now.files && now.files[s] == run.was.files[s]
  {
    hide At, Proper, MayStay, AllKeep;
    forall v | v in made ensures Proper(run.dirs, v) {
      var k :| 0 <= k < |made| && made[k] == v;
      assert MadeAt(run.dirs, run.was, now, made[k], contents[k]);
    }
  }

  // ---------- Rolling back ----------

  /** The run ended without a definition: the host is as it was but for files that may stay. */
  ghost predicate RolledBack(run: Run, now: State, log: seq<Event>) {
    Keeps(run.was, now) && forall p :: p in now.files ==> p in run.was.files || MayStay(run, log, p)
  }

  /** If no look at a volume of the run and no removal of one failed, and no domain uses one, the host is exactly
      as it was. */
  lemma NothingLeft(run: Run, now: State, log: seq<Event>)
    requires RolledBack(run, now, log)
    requires forall k, p :: run.from <= k < |log| && p in run.wanted ==> !Failed(run.choices, log, k, p)
    requires forall p :: p in run.wanted ==> !Used(run.was.domains, p)
    ensures now == run.was
  {
    hide Used, Failed;
    forall p | p in now.files ensures p in run.was.files {
      assert MayStay(run, log, p) ==> !Used(run.was.domains, p);
    }
    assert now.files == run.was.files;
  }

  lemma CleanedUp(run: Run, mid: State, now: State, before: seq<Event>, after: seq<Event>, made: seq<(string, string)>,
                  contents: seq<nat>)
    requires Broken(run, mid, before, made, contents) && before <= after && run.from <= |before|
    requires PathsAt(run.dirs, made) <= run.wanted
    requires Cleaning(run.dirs, run.choices, mid, now, after, |before|, made, 0)
    ensures RolledBack(run, now, after)
  {
    PrunedKeeps(run, mid, now, before, made, contents);
    MayStayLonger(run, before, after);
    hide Proper, At, Excused, AllMade, AllPruned;
    forall p | p in now.files && p in PathsAt(run.dirs, made) ensures MayStay(run, after, p) {
      var k :| 0 <= k < |made| && p == At(run.dirs, made[k]);
      ExcusedLonger(run.choices, after, |before|, after, run.from, run.was.domains, p);
    }
    hide MayStay, PathsAt;
  }

  lemma PrunedKeeps(run: Run, mid: State, now: State, log: seq<Event>, made: seq<(string, string)>, contents: seq<nat>)
    requires Broken(run, mid, log, made, contents) && Pruned(mid, now, PathsAt(run.dirs, made))
    ensures Keeps(run.was, now)
  {
    hide Proper, At, MayStay;
  }

  lemma AllPrunedKeep(run: Run, mid: State, before: seq<Event>, made: seq<(string, string)>, contents: seq<nat>,
                      log: seq<Event>, from: nat)
    requires Broken(run, mid, before, made, contents) && AllPruned(mid, log, from, PathsAt(run.dirs, made))
    ensures AllKeep(run.was, log, from)
  {
    hide Broken, Pruned, Keeps;
    forall k | from <= k < |log| ensures Keeps(run.was, log[k].state) {
      PrunedKeeps(run, mid, log[k].state, before, made, contents);
    }
  }

  lemma Abandoned(run: Run, mid: State, now: State, before: seq<Event>, after: seq<Event>, made: seq<(string, string)>,
                  contents: seq<nat>)
    requires Broken(run, mid, before, made, contents) && before <= after && PathsAt(run.dirs, made) <= run.wanted
    requires Cleaning(run.dirs, run.choices, mid, now, after, |before|, made, 0)
    ensures RolledBack(run, now, after) && AllKeep(run.was, after, run.from)
  {
    CleanedUp(run, mid, now, before, after, made, contents);
    AllPrunedKeep(run, mid, before, made, contents, after, |before|);
    AllKeepJoin(run.was, before, after, run.from);
    hide RolledBack, AllKeep, AllPruned, Pruned;
  }

  /** Give up: remove what was made. */
  method Abandon(host: Host, made: seq<(string, string)>, ghost run: Run, ghost contents: seq<nat>)
    requires host.Valid() && run.dirs == host.dirs && run.choices == host.choices
    requires Broken(run, host.state, host.log, made, contents) && PathsAt(run.dirs, made) <= run.wanted
    modifies host
    ensures host.Valid() && old(host.log) <= host.log
    ensures RolledBack(run, host.state, host.log) && AllKeep(run.was, host.log, run.from)
  {
    hide *;
    ghost var mid, log := host.state, host.log;
    MakingProper(run, host.state, host.log, made, contents);
    Cleanup(host, made);
    Abandoned(run, mid, host.state, log, host.log, made, contents);
  }
}

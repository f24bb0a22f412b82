// A host with its volume store and domain definitions, and the volume operations built from the commands given
// to it, each of which may fail.
module Storage {
  import opened Common
  import opened Strings
  import opened Pieces
  import opened Paths
  import opened Xml
  import opened DomainConfig
  import opened Commands

  datatype Volume = Volume(name: string, path: string)

  /** The directory of a pool: a clean absolute path other than the root. */
  type PoolDir = d: string | Rooted(d) && Clean(d) == d && d != "/" witness (SlashA(); "/a")

  lemma SlashA()
    ensures Rooted("/a") && Clean("/a") == "/a"
  {
    RootedComponents(["a"]);
  }

  function VolumePath(dir: string, name: string): string { dir + "/" + name }

  predicate UsesPath(doc: Forest, path: string) {
    exists i :: 0 <= i < |ConfigDisks(doc)| && ConfigDisks(doc)[i].Path() == path
  }

  predicate Used(domains: map<string, Forest>, path: string) {
    exists vm :: vm in domains && UsesPath(domains[vm], path)
  }

  /** storageVolumeFormat is "iso". */
  predicate IsIso(name: string) { HasSuffix(ToLower(name), ".iso") }

  predicate SupportedFormat(format: string) { ToLower(TrimSpace(format)) in {"qcow2", "qcow", "qed", "raw"} }

  /** filepath.Join of the directory of a pool and a volume name. */
  lemma CleanVolumePath(dir: PoolDir, name: string)
    requires '/' !in name && name !in {"", ".", ".."}
    ensures Clean(VolumePath(dir, name)) == VolumePath(dir, name)
  {
    var cs := Components(dir);
    ComponentsResolved(dir);
    hide Components;
    assert cs != [];
    JoinConcat(cs, [name], '/');
    assert VolumePath(dir, name) == "/" + Join(cs + [name], '/');
    RootedComponents(cs + [name]);
  }

  lemma VolumePathTrimmed(dir: PoolDir, name: string)
    requires name != "" && IsTrimmed(name)
    ensures TrimSpace(VolumePath(dir, name)) == VolumePath(dir, name) && !Blank(VolumePath(dir, name))
  {
    assert VolumePath(dir, name)[|dir| + 1..] == name;
  }

  // ---------- What may change ----------

  /** Nothing is lost or altered from a to b, and the definitions are the same. */
  ghost predicate Keeps(a: State, b: State) {
    b.domains == a.domains && forall p :: p in a.files ==> p in b.files && b.files[p] == a.files[p]
  }

  /** Nothing but those paths is new. */
  ghost predicate NewOnly(a: State, b: State, paths: set<string>) {
    forall p :: p in b.files ==> p in a.files || p in paths
  }

  /** From one length of the log on every state keeps what was there. */
  ghost predicate AllKeep(was: State, log: seq<Event>, from: nat) {
    forall k :: from <= k < |log| ==> Keeps(was, log[k].state)
  }

  /** Only some of those files are gone, and nothing else has changed. */
  ghost predicate Pruned(a: State, b: State, gone: set<string>) {
    && b.domains == a.domains
    && (forall p :: p in b.files ==> p in a.files && b.files[p] == a.files[p])
    && (forall p :: p in a.files && p !in gone ==> p in b.files)
  }

  ghost predicate AllPruned(was: State, log: seq<Event>, from: nat, gone: set<string>) {
    forall k :: from <= k < |log| ==> Pruned(was, log[k].state, gone)
  }

  lemma KeepsTrans(a: State, b: State, c: State)
    requires Keeps(a, b) && Keeps(b, c)
    ensures Keeps(a, c)
  {
  }

  lemma AllKeepTrans(a: State, b: State, log: seq<Event>, from: nat)
    requires Keeps(a, b) && AllKeep(b, log, from)
    ensures AllKeep(a, log, from)
  {
    forall k | from <= k < |log| ensures Keeps(a, log[k].state) {
      KeepsTrans(a, b, log[k].state);
    }
  }

  lemma AllKeepJoin(was: State, before: seq<Event>, after: seq<Event>, from: nat)
    requires AllKeep(was, before, from) && before <= after && AllKeep(was, after, |before|)
    ensures AllKeep(was, after, from)
  {
    hide Keeps;
    forall k | from <= k < |after| ensures Keeps(was, after[k].state) {
      assert k < |before| ==> after[k] == before[k];
    }
  }

  // ---------- Why a file is left over ----------

  /** The k-th command looked at that file or was to remove it, and failed. */
  predicate Failed(choices: Choices, log: seq<Event>, k: nat, path: string)
    requires k < |log|
  {
    !choices(k).ok && log[k].command in {List(Some(path)), Delete(path), Unlink(path)}
  }

  /** What excuses a left file: a look at it or its removal failed, or a domain uses it. */
  ghost predicate Excused(choices: Choices, log: seq<Event>, from: nat, domains: map<string, Forest>, path: string) {
    Used(domains, path) || exists k :: from <= k < |log| && Failed(choices, log, k, path)
  }

  lemma ExcusedLonger(choices: Choices, before: seq<Event>, from: nat, after: seq<Event>, earlier: nat,
                      domains: map<string, Forest>, path: string)
    requires before <= after && earlier <= from && Excused(choices, before, from, domains, path)
    ensures Excused(choices, after, earlier, domains, path)
  {
    hide Used;
    if !Used(domains, path) {
      var k :| from <= k < |before| && Failed(choices, before, k, path);
      assert after[k] == before[k];
      assert Failed(choices, after, k, path);
    }
  }

  /** The two operations that make a volume: nothing is lost, and of a failing one at most the volume is left,
      with an excuse. */
  ghost predicate Tried(ok: bool, choices: Choices, was: State, now: State, log: seq<Event>, from: nat,
                        volume: string) {
    && Keeps(was, now) && AllKeep(was, log, from)
    && NewOnly(was, now, {volume})
    && (!ok && volume in now.files && volume !in was.files ==> Excused(choices, log, from, was.domains, volume))
  }

  // ---------- The commands of a deletion ----------

  /** The path of a volume, empty if there is no such pool. */
  function PathIn(dirs: map<string, PoolDir>, pool: string, name: string): string {
    if pool in dirs then VolumePath(dirs[pool], name) else ""
  }

  /** The file of a volume, if a pool can hold one of that name. */
  function FileIn(dirs: map<string, PoolDir>, pool: string, name: string): Option<string> {
    if pool in dirs && '/' !in name then Some(VolumePath(dirs[pool], name)) else None
  }

  /** The machines leave the volume to be deleted: ISO images always. */
  predicate Free(dirs: map<string, PoolDir>, domains: map<string, Forest>, p: string, n: string) {
    IsIso(n) || !Used(domains, PathIn(dirs, p, n))
  }

  function NamedCommands(dirs: map<string, PoolDir>, domains: map<string, Forest>, p: string, n: string): seq<Command> {
    [List(FileIn(dirs, p, n))] + if Free(dirs, domains, p, n) then [Delete(PathIn(dirs, p, n))] else []
  }

  /** The commands that the deletion of a volume gives, as long as they work. */
  function VolumeCommands(dirs: map<string, PoolDir>, domains: map<string, Forest>, v: (string, string)): seq<Command> {
    if TrimSpace(v.0) == "" || TrimSpace(v.1) == "" then []
    else NamedCommands(dirs, domains, TrimSpace(v.0), TrimSpace(v.1))
  }

  /** No check stands in the way of the deletion. */
  predicate MayGo(dirs: map<string, PoolDir>, domains: map<string, Forest>, v: (string, string)) {
    TrimSpace(v.0) != "" && TrimSpace(v.1) != "" && Free(dirs, domains, TrimSpace(v.0), TrimSpace(v.1))
  }

  lemma NamedRunStuck(choices: Choices, dirs: map<string, PoolDir>, s: State, log: seq<Event>, p: string, n: string)
    requires !Works(choices(|log|), s, List(FileIn(dirs, p, n)))
    ensures var cmds := NamedCommands(dirs, s.domains, p, n);
            && Ran(choices, s, log, s, log + [Event(List(FileIn(dirs, p, n)), s)], cmds)
              && !Done(choices, |log|, s, cmds)
  {
    hide Works, Ran, Done, Free;
    NamedRunFound(choices, dirs, s, log, p, n);
    var look := List(FileIn(dirs, p, n));
    RanStuck(choices, s, log, s, log + [Event(look, s)], [look], [Delete(PathIn(dirs, p, n))]);
  }

  lemma NamedRunFound(choices: Choices, dirs: map<string, PoolDir>, s: State, log: seq<Event>, p: string, n: string)
    ensures var look := List(FileIn(dirs, p, n));
            && Ran(choices, s, log, s, log + [Event(look, s)], [look])
            && (Done(choices, |log|, s, [look]) <==> Works(choices(|log|), s, look))
            && (!Free(dirs, s.domains, p, n) ==> NamedCommands(dirs, s.domains, p, n) == [look])
  {
    hide Works, Ran, Done, Free;
    RanStart(choices, s, log);
    var look := List(FileIn(dirs, p, n));
    RanOne(choices, s, log, s, log, s, [], look);
    assert [] + [look] == [look];
  }

  lemma NamedRunWhole(choices: Choices, dirs: map<string, PoolDir>, s: State, now: State, log: seq<Event>,
                      after: seq<Event>,
                      p: string, n: string)
    requires Works(choices(|log|), s, List(FileIn(dirs, p, n))) && Free(dirs, s.domains, p, n)
    requires now == Effect(choices(|log| + 1), s, Delete(PathIn(dirs, p, n)))
    requires after == log + [Event(List(FileIn(dirs, p, n)), s)] + [Event(Delete(PathIn(dirs, p, n)), now)]
    ensures var cmds := NamedCommands(dirs, s.domains, p, n);
            && Ran(choices, s, log, now, after, cmds)
            && (Done(choices, |log|, s, cmds) <==> Works(choices(|log| + 1), s, Delete(PathIn(dirs, p, n))))
  {
    hide Works, Ran, Done, Free, Effect;
    NamedRunFound(choices, dirs, s, log, p, n);
    var look := List(FileIn(dirs, p, n));
    RanOne(choices, s, log, s, log + [Event(look, s)], now, [look], Delete(PathIn(dirs, p, n)));
  }

  // ---------- When a volume can be made ----------

  /** The path of a volume that is not there, in a pool that can hold it. */
  predicate FreeIn(dirs: map<string, PoolDir>, paths: set<string>, q: string, n: string) {
    FileIn(dirs, q, n).Some? && PathIn(dirs, q, n) !in paths
  }

  /** The path of a volume that is there. */
  predicate ListedIn(dirs: map<string, PoolDir>, paths: set<string>, p: string, m: string) {
    FileIn(dirs, p, m).Some? && PathIn(dirs, p, m) in paths
  }

  /** A request for a new volume passes the checks. */
  predicate Asks(pool: string, name: string, format: string, capacity: int) {
    TrimSpace(pool) != "" && TrimSpace(name) != "" && capacity > 0 && SupportedFormat(format)
  }

  /** A request for a copy does: the names are there, and the format is one that can be written, unless libvirt
      copies within a pool. */
  predicate AsksCopy(p: string, q: string, m: string, n: string, format: string, convert: bool) {
    && p != "" && q != "" && n != "" && m != "" && '/' !in n && '\\' !in n
    && (convert || p != q ==>
          n !in {".", ".."} && if convert then SupportedFormat(format) else !IsIso(m))
  }

  class Host {
    /** The directory of every storage pool. */
    const dirs: map<string, PoolDir>
    /** How the k-th command goes. */
    const choices: Choices
    const start: State
    var state: State
    /** The commands given so far. */
    var log: seq<Event>

    /** The log tells the truth, and ends in the present state. */
    ghost predicate Valid()
      reads this
    {
      Legal(choices, start, log) && state == Before(start, log, |log|)
    }

    constructor (dirs: map<string, PoolDir>, choices: Choices, state: State)
      ensures Valid() && this.dirs == dirs && this.choices == choices && start == this.state == state && log == []
    {
      this.dirs := dirs;
      this.choices := choices;
      this.start := state;
      this.state := state;
      log := [];
    }

    /** Give one command. */
    method Do(cmd: Command) returns (ok: bool)
      requires Valid()
      modifies this
      ensures Valid() && log == old(log) + [Event(cmd, state)]
      ensures ok == Works(choices(|old(log)|), old(state), cmd) && state == Effect(choices(|old(log)|), old(state), cmd)
    {
      hide Effect, Works, Legal, Before;
      LegalStep(choices, start, log, Event(cmd, Effect(choices(|log|), state, cmd)));
      ok := Works(choices(|log|), state, cmd);
      state := Effect(choices(|log|), state, cmd);
      log := log + [Event(cmd, state)];
    }

    function PathOf(pool: string, name: string): string {
      if pool in dirs then VolumePath(dirs[pool], name) else ""
    }

    /** The file of a volume, if a pool can hold one of that name. */
    function VolumeAt(pool: string, name: string): Option<string> {
      if pool in dirs && '/' !in name then Some(VolumePath(dirs[pool], name)) else None
    }

    /** A pool lists the files directly in its directory. */
    predicate Listed(pool: string, name: string)
      reads this
    {
      pool in dirs && '/' !in name && VolumePath(dirs[pool], name) in state.files
    }

    // ---------- Volume operations ----------

    /** storageVolume */
    method Lookup(pool: string, name: string) returns (r: Result<Volume>)
      requires Valid()
      modifies this
      ensures Valid() && state == old(state) && log == old(log) + [Event(List(VolumeAt(pool, name)), state)]
      ensures r.Ok? <==> choices(|old(log)|).ok && Listed(pool, name)
      ensures r.Ok? ==> r.value == Volume(name, PathOf(pool, name))
    {
      hide Valid;
      var found := Do(List(VolumeAt(pool, name)));
      return if found then Ok(Volume(name, PathOf(pool, name))) else Err("storage volume not found");
    }

    method ListVMs() returns (names: seq<string>)
      ensures forall vm :: vm in names <==> vm in state.domains
    {
      names := [];
      var rest := state.domains.Keys;
      while rest != {}
        invariant forall vm :: vm in state.domains <==> vm in names || vm in rest
        decreases rest
      {
        var vm :| vm in rest;
        names := names + [vm];
        rest := rest - {vm};
      }
    }

    /** volumeUsedByVM */
    method VolumeUsedByVM(path: string) returns (user: Option<string>)
      ensures user.Some? <==> !Blank(path) && Used(state.domains, TrimSpace(path))
    {
      hide TrimSpace, ConfigDisks;
      var target := TrimSpace(path);
      if target == "" {
        return None;
      }
      var vms := ListVMs();
      for i := 0 to |vms|
        invariant forall k :: 0 <= k < i ==> !UsesPath(state.domains[vms[k]], target)
      {
        var disks := ConfigDisks(state.domains[vms[i]]);
        for j := 0 to |disks|
          invariant forall k :: 0 <= k < j ==> disks[k].Path() != target
        {
          if disks[j].Path() == target {
            assert UsesPath(state.domains[vms[i]], target);
            return Some(vms[i]);
          }
        }
      }
      return None;
    }

    /** The events of a volume operation leave no state but the one before and the one after. */
    ghost predicate OnlyStates(was: State, from: nat)
      reads this
    {
      forall k :: from <= k < |log| ==> log[k].state == was || log[k].state == state
    }

    /** DeleteStorageVolume: it works exactly if the volume is there, no command fails, and no machine uses its
        path or it is an ISO image. */
    method DeleteStorageVolume(pool: string, name: string) returns (r: Result<()>)
      requires Valid()
      modifies this
      ensures Valid() && old(log) <= log && OnlyStates(old(state), |old(log)|)
      ensures var p, n := TrimSpace(pool), TrimSpace(name);
              && (r.Ok? <==> && p != "" && n != "" && old(Listed(p, n)) && Smooth(choices, log, |old(log)|)
                             && (IsIso(n) || !Used(old(state.domains), PathOf(p, n))))
              && (r.Ok? ==> state == old(state).(files := old(state.files) - {PathOf(p, n)}))
              && (r.Err? ==> state == old(state))
              && (r.Err? && p != "" && n != "" && Listed(p, n) ==>
                    Excused(choices, log, |old(log)|, old(state.domains), PathOf(p, n)))
      ensures Ran(choices, old(state), old(log), state, log, VolumeCommands(dirs, old(state.domains), (pool, name)))
      ensures r.Ok? <==> Done(choices, |old(log)|, old(state), VolumeCommands(dirs, old(state.domains), (pool, name)))
                         && MayGo(dirs, old(state.domains), (pool, name))
    {
      hide Valid, TrimSpace, IsIso, Used, Excused, Ran, Done, NamedCommands, Free;
      RanStart(choices, state, log);
      var p, n := TrimSpace(pool), TrimSpace(name);
      if p == "" || n == "" {
        return Err("storage pool and volume name are required");
      }
      r := DeleteNamed(p, n);
    }

    /** The part of DeleteStorageVolume behind the check of its arguments. */
    method DeleteNamed(p: string, n: string) returns (r: Result<()>)
      requires Valid() && n != "" && IsTrimmed(n)
      modifies this
      ensures Valid() && old(log) <= log && OnlyStates(old(state), |old(log)|)
      ensures r.Ok? <==>
                old(Listed(p, n)) && Smooth(choices, log, |old(log)|)
                  && (IsIso(n) || !Used(old(state.domains), PathOf(p, n)))
      ensures r.Ok? ==> state == old(state).(files := old(state.files) - {PathOf(p, n)})
      ensures r.Err? ==> state == old(state)
      ensures r.Err? && Listed(p, n) ==> Excused(choices, log, |old(log)|, old(state.domains), PathOf(p, n))
      ensures Ran(choices, old(state), old(log), state, log, NamedCommands(dirs, old(state.domains), p, n))
      ensures r.Ok? <==> Done(choices, |old(log)|, old(state), NamedCommands(dirs, old(state.domains), p, n))
                         && Free(dirs, old(state.domains), p, n)
    {
      hide Valid, TrimSpace, IsIso, Used, Excused, Clean, Ran, Done, NamedCommands;
      ghost var from, domains := |log|, state.domains;
      NamedRunFound(choices, dirs, state, log, p, n);
      var volume := Lookup(p, n);
      if volume.Err? {
        NamedRunStuck(choices, dirs, old(state), old(log), p, n);
        if Listed(p, n) {
          FailedLook(choices, log, from, from, domains, PathOf(p, n));
        }
        return Err(volume.message);
      }
      VolumePathTrimmed(dirs[p], n);
      if !IsIso(n) {
        var user := VolumeUsedByVM(volume.value.path);
        if user.Some? {
          InUse(choices, log, from, domains, PathOf(p, n));
          return Err("storage volume is used by virtual machine");
        }
      }
      var ok := Do(Delete(PathOf(p, n)));
      NamedRunWhole(choices, dirs, old(state), state, old(log), log, p, n);
      if !ok {
        FailedLook(choices, log, from, from + 1, domains, PathOf(p, n));
        return Err("command failed");
      }
      return Ok(());
    }

    /** CreateStorageVolume. A volume whose lookup fails after it was made is not rolled back. */
    method CreateStorageVolume(pool: string, name: string, format: string, capacity: int) returns (r: Result<Volume>)
      requires Valid()
      modifies this
      ensures Valid() && old(log) <= log
      ensures var p, n := TrimSpace(pool), TrimSpace(name);
              && Tried(r.Ok?, choices, old(state), state, log, |old(log)|, PathOf(p, n))
              && (r.Ok? ==> Made(old(state), state, p, n, 0) && r.value == Volume(n, PathOf(p, n)))
              && (r.Ok? <==> Asks(pool, name, format, capacity) && FreeIn(dirs, old(state.files).Keys, p, n)
                             && Smooth(choices, log, |old(log)|))
    {
      hide *;
      AsksIs(pool, name, format, capacity);
      SmoothHere(choices, log);
      var p, n := TrimSpace(pool), TrimSpace(name);
      Untried(choices, state, log, PathOf(p, n));
      if p == "" || n == "" {
        return Err("storage pool and volume name are required");
      }
      if capacity <= 0 {
        return Err("storage volume capacity is required");
      }
      if ToLower(TrimSpace(format)) !in {"qcow2", "qcow", "qed", "raw"} {
        return Err("unsupported storage volume format");
      }
      r := CreateAndFind(p, n, 0);
    }

    /** The volume was not there, and now is, with that content. */
    ghost predicate Made(was: State, now: State, pool: string, name: string, content: nat) {
      && pool in dirs && pool != "" && name != "" && '/' !in name && PathOf(pool, name) !in was.files
      && now == was.(files := was.files[PathOf(pool, name) := content])
    }

    /** virsh vol-create-as or vol-clone, and a look at the result. */
    method CreateAndFind(q: string, n: string, content: nat) returns (r: Result<Volume>)
      requires Valid() && q != "" && n != ""
      modifies this
      ensures Valid() && old(log) <= log && Tried(r.Ok?, choices, old(state), state, log, |old(log)|, PathOf(q, n))
      ensures r.Ok? ==> Made(old(state), state, q, n, content) && r.value == Volume(n, PathOf(q, n))
      ensures r.Ok? <==> FreeIn(dirs, old(state.files).Keys, q, n) && Smooth(choices, log, |old(log)|)
    {
      hide Valid, TrimSpace, ToLower, Keeps, NewOnly, AllKeep, Tried, Used, Excused;
      ghost var was, from := state, |log|;
      var ok := Do(Create(VolumeAt(q, n), content));
      if !ok {
        NothingTried(choices, was, log, from, PathOf(q, n));
        return Err("command failed");
      }
      r := Lookup(q, n);
      if r.Err? {
        FailedLook(choices, log, from, from + 1, was.domains, PathOf(q, n));
      }
      CreatedVolume(r.Ok?, was, state, q, n, content, log, from);
    }

    lemma CreatedVolume(ok: bool, was: State, now: State, pool: string, name: string, content: nat, events: seq<Event>,
                        from: nat)
      requires Made(was, now, pool, name, content)
      requires |events| == from + 2 && events[from].state == now && events[from + 1].state == now
      requires !ok ==> Excused(choices, events, from, was.domains, PathOf(pool, name))
      ensures Tried(ok, choices, was, now, events, from, PathOf(pool, name))
    {
      hide Excused;
    }

    /** CloneStorageVolumeToPool: the copy has the content of the original. */
    method CloneStorageVolumeToPool(sourcePool: string, targetPool: string, source: string, name: string,
                                    format: string, convert: bool)
      returns (r: Result<Volume>)
      requires Valid()
      modifies this
      ensures Valid() && old(log) <= log
      ensures var p, m, q, n := TrimSpace(sourcePool), TrimSpace(source), TrimSpace(targetPool), TrimSpace(name);
              && Tried(r.Ok?, choices, old(state), state, log, |old(log)|, PathOf(q, n))
              && (r.Ok? ==> old(Listed(p, m)) && Made(old(state), state, q, n, old(state).files[PathOf(p, m)])
                            && r.value == Volume(n, PathOf(q, n)))
              && (r.Ok? <==> AsksCopy(p, q, m, n, format, convert) && ListedIn(dirs, old(state.files).Keys, p, m)
                             && FreeIn(dirs, old(state.files).Keys, q, n) && Smooth(choices, log, |old(log)|))
    {
      hide Valid, TrimSpace, ToLower, Keeps, NewOnly, AllKeep, Tried, Used, Excused, Made, SupportedFormat, IsIso,
        Rooted,
        FreeIn;
      var p, q, n, m := TrimSpace(sourcePool), TrimSpace(targetPool), TrimSpace(name), TrimSpace(source);
      Untried(choices, state, log, PathOf(q, n));
      SmoothHere(choices, log);
      if p == "" || q == "" || n == "" || m == "" {
        return Err("storage pool, source volume and target volume are required");
      }
      if '/' in n || '\\' in n {
        return Err("storage volume name must not contain path separators");
      }
      ghost var was, from := state, log;
      var original := Lookup(p, m);
      SmoothOne(choices, from, log);
      if original.Err? {
        NothingTried(choices, was, log, |from|, PathOf(q, n));
        return Err(original.message);
      }
      ghost var looked := log;
      if !convert && p == q {
        r := CreateAndFind(q, n, state.files[original.value.path]);
      } else {
        RootedVolume(dirs[p], m);
        r := ConvertToPool(q, original.value, n, format, convert);
      }
      SmoothJoin(choices, looked, log, |from|);
      TriedAfter(r.Ok?, choices, was, state, log, |looked|, PathOf(q, n));
    }

    /** The copy by qemu-img convert. */
    method ConvertToPool(q: string, original: Volume, n: string, format: string, convert: bool)
      returns (r: Result<Volume>)
      requires Valid() && original.path in state.files && q != "" && n != "" && '/' !in n
      modifies this
      ensures Valid() && old(log) <= log && Tried(r.Ok?, choices, old(state), state, log, |old(log)|, PathOf(q, n))
      ensures r.Ok? ==>
                && Made(old(state), state, q, n, old(state.files[original.path])) && r.value == Volume(n, PathOf(q, n))
      ensures r.Ok? <==>
                && (if convert then SupportedFormat(format) else !IsIso(original.name)) && Rooted(original.path)
                && n !in {".", ".."} && FreeIn(dirs, old(state.files).Keys, q, n) && Smooth(choices, log, |old(log)|)
    {
      hide Valid, Keeps, NewOnly, AllKeep, Tried, SupportedFormat, IsIso, Rooted, FreeIn;
      ghost var was, before := state, log;
      Untried(choices, state, log, PathOf(q, n));
      SmoothHere(choices, log);
      if if convert then !SupportedFormat(format) else IsIso(original.name) {
        return Err("unsupported storage volume format");
      }
      if !Rooted(original.path) {
        return Err("source volume path is unavailable");
      }
      if !convert {
        var known := Do(Inspect(original.path));
        SmoothOne(choices, before, log);
        if !known {
          NothingTried(choices, was, log, |before|, PathOf(q, n));
          return Err("unsupported storage volume format");
        }
      }
      ghost var inspected := log;
      r := ConvertFree(q, original.path, n);
      SmoothJoin(choices, inspected, log, |before|);
      if !convert {
        TriedAfter(r.Ok?, choices, was, state, log, |inspected|, PathOf(q, n));
      }
    }

    /** The part behind the checks of the format. */
    method ConvertFree(q: string, source: string, n: string) returns (r: Result<Volume>)
      requires Valid() && source in state.files && q != "" && n != "" && '/' !in n
      modifies this
      ensures Valid() && old(log) <= log && Tried(r.Ok?, choices, old(state), state, log, |old(log)|, PathOf(q, n))
      ensures r.Ok? ==> Made(old(state), state, q, n, old(state.files[source])) && r.value == Volume(n, PathOf(q, n))
      ensures r.Ok? <==>
                n !in {".", ".."} && FreeIn(dirs, old(state.files).Keys, q, n) && Smooth(choices, log, |old(log)|)
    {
      hide Valid, Keeps, NewOnly, AllKeep, Tried, Clean;
      ghost var was, before := state, log;
      Untried(choices, state, log, PathOf(q, n));
      SmoothHere(choices, log);
      if q !in dirs {
        return Err("command failed");
      }
      if n == "." || n == ".." {
        return Err("target volume already exists");
      }
      var target := Clean(VolumePath(dirs[q], n));
      CleanVolumePath(dirs[q], n);
      var free := Do(Reserve(target));
      SmoothOne(choices, before, log);
      if !free {
        NothingTried(choices, was, log, |before|, PathOf(q, n));
        return Err("target volume already exists");
      }
      ghost var reserved := log;
      r := WriteConverted(q, source, n);
      SmoothJoin(choices, reserved, log, |before|);
      TriedAfter(r.Ok?, choices, was, state, log, |reserved|, PathOf(q, n));
    }

    method WriteConverted(q: string, source: string, n: string) returns (r: Result<Volume>)
      requires Valid() && source in state.files && FreeIn(dirs, state.files.Keys, q, n) && q != "" && n != ""
      modifies this
      ensures Valid() && old(log) <= log && Tried(r.Ok?, choices, old(state), state, log, |old(log)|, PathOf(q, n))
      ensures r.Ok? ==> Made(old(state), state, q, n, old(state.files[source])) && r.value == Volume(n, PathOf(q, n))
      ensures r.Ok? <==> Smooth(choices, log, |old(log)|)
    {
      hide Valid, Keeps, NewOnly, AllKeep, Tried, Excused;
      ghost var was, from := state, |log|;
      var target := VolumePath(dirs[q], n);
      PartialConvert(choices(from), was, source, target);
      var ok := Do(Convert(source, target));
      if !ok {
        var removed := Do(Unlink(target));
        FailedConvert(was, state, log, from, target);
        return Err("command failed");
      }
      r := Lookup(q, n);
      if r.Err? {
        FailedLook(choices, log, from, from + 1, was.domains, PathOf(q, n));
      }
      CreatedVolume(r.Ok?, was, state, q, n, was.files[source], log, from);
    }

    lemma FailedConvert(was: State, now: State, events: seq<Event>, from: nat, target: string)
      requires target !in was.files && |events| == from + 2
      requires Keeps(was, events[from].state) && NewOnly(was, events[from].state, {target})
      requires events[from + 1] == Event(Unlink(target), now)
      requires now == Effect(choices(from + 1), events[from].state, Unlink(target))
      ensures Tried(false, choices, was, now, events, from, target)
    {
      hide Used;
      if target in now.files {
        FailedLook(choices, events, from, from + 1, was.domains, target);
      }
      hide Excused;
    }
  }

  /** Whatever comes of a conversion, nothing but its target is new. */
  lemma PartialConvert(c: Choice, was: State, source: string, target: string)
    requires target !in was.files
    ensures var now := Effect(c, was, Convert(source, target)); Keeps(was, now) && NewOnly(was, now, {target})
  {
  }

  lemma FailedLook(choices: Choices, log: seq<Event>, from: nat, k: nat, domains: map<string, Forest>, path: string)
    requires from <= k < |log| && Failed(choices, log, k, path)
    ensures Excused(choices, log, from, domains, path)
  {
  }

  lemma InUse(choices: Choices, log: seq<Event>, from: nat, domains: map<string, Forest>, path: string)
    requires Used(domains, path)
    ensures Excused(choices, log, from, domains, path)
  {
  }

  lemma AsksIs(pool: string, name: string, format: string, capacity: int)
    ensures Asks(pool, name, format, capacity) <==>
              TrimSpace(pool) != "" && TrimSpace(name) != "" && capacity > 0
              && ToLower(TrimSpace(format)) in {"qcow2", "qcow", "qed", "raw"}
  {
    hide TrimSpace, ToLower;
  }

  lemma SmoothHere(choices: Choices, log: seq<Event>)
    ensures Smooth(choices, log, |log|)
  {
  }

  lemma SmoothOne(choices: Choices, before: seq<Event>, log: seq<Event>)
    requires before <= log && |log| == |before| + 1
    ensures Smooth(choices, log, |before|) <==> choices(|before|).ok
  {
  }

  lemma RootedVolume(dir: PoolDir, name: string)
    ensures Rooted(VolumePath(dir, name))
  {
  }

  lemma Untried(choices: Choices, was: State, log: seq<Event>, volume: string)
    ensures Tried(false, choices, was, was, log, |log|, volume)
  {
  }

  /** One command that changed nothing. */
  lemma NothingTried(choices: Choices, was: State, log: seq<Event>, from: nat, volume: string)
    requires |log| == from + 1 && log[from].state == was
    ensures Tried(false, choices, was, was, log, from, volume)
  {
  }

  /** A try behind a command that changed nothing. */
  lemma TriedAfter(ok: bool, choices: Choices, was: State, now: State, log: seq<Event>, from: nat, volume: string)
    requires 0 < from <= |log| && log[from - 1].state == was && Tried(ok, choices, was, now, log, from, volume)
    ensures Tried(ok, choices, was, now, log, from - 1, volume)
  {
    if !ok && volume in now.files && volume !in was.files {
      ExcusedLonger(choices, log, from, log, from - 1, was.domains, volume);
    }
    hide Excused;
  }
}

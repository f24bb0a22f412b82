// The checks in front of the device rewrite, and what they guarantee about the rewritten domain.
module DeviceValidation {
  import opened Common
  import opened Strings
  import opened Paths
  import opened Xml
  import opened DeviceRewrite
  import opened DomainConfig
  import opened DeviceEffect

  datatype DeleteAction = DeleteAction(target: string, path: string, pool: string, volume: string)

  datatype NewDisk = NewDisk(name: string, pool: string, target: string, bus: string, format: string, capacity: int)

  // ---------- Deleting disks ----------

  function ByName(disks: seq<ConfigDisk>): map<string, ConfigDisk> {
    if disks == [] then map[] else ByName(disks[..|disks| - 1])[disks[|disks| - 1].name := disks[|disks| - 1]]
  }

  function CountNormal(disks: seq<ConfigDisk>): nat {
    if disks == [] then 0
    else CountNormal(disks[..|disks| - 1]) + if NormalDevice(disks[|disks| - 1].device) then 1 else 0
  }

  /** The trimmed name of the first normal disk that has one. */
  function FirstNamed(disks: seq<ConfigDisk>): string {
    if disks == [] then ""
    else
      var last := disks[|disks| - 1];
      var before := FirstNamed(disks[..|disks| - 1]);
      if before != "" || !NormalDevice(last.device) then before else TrimSpace(last.name)
  }

  predicate Deletable(name: string, disks: seq<ConfigDisk>) {
    && name != "" && name in ByName(disks)
    && NormalDevice(ByName(disks)[name].device) && !Blank(ByName(disks)[name].path)
    && name != FirstNamed(disks)
  }

  predicate DeletesAccepted(requests: seq<string>, disks: seq<ConfigDisk>) {
    requests != [] ==> |requests| < CountNormal(disks) && forall q :: q in requests ==> Deletable(TrimSpace(q), disks)
  }

  function Slashed(path: string): string {
    seq(|path|, i requires 0 <= i < |path| => if path[i] == '\\' then '/' else path[i])
  }

  /** diskVolumeForDelete: pool and volume name, both empty if there is nothing to delete. */
  function DiskVolume(disk: ConfigDisk): (string, string) {
    var pool, path := TrimSpace(disk.pool), TrimSpace(disk.path);
    var name := Base(Slashed(path));
    if pool == "" || path == "" || name == "." || name == "/" then ("", "") else (pool, name)
  }

  lemma {:induction false} ByNameKey(disks: seq<ConfigDisk>, name: string)
    ensures name in ByName(disks) ==> ByName(disks)[name] in disks && ByName(disks)[name].name == name
  {
    if disks != [] {
      ByNameKey(disks[..|disks| - 1], name);
    }
  }

  /** The disk a name stands for is the last one listed under it. */
  lemma {:induction false} ByNameLast(disks: seq<ConfigDisk>, name: string, i: nat)
    requires i < |disks| && disks[i].name == name && forall j :: i < j < |disks| ==> disks[j].name != name
    ensures name in ByName(disks) && ByName(disks)[name] == disks[i]
  {
    var n := |disks| - 1;
    if i < n {
      ByNameLast(disks[..n], name, i);
    }
  }

  method IndexDisks(disks: seq<ConfigDisk>)
    returns (diskByName: map<string, ConfigDisk>, normalDisks: nat, firstNormalDisk: string)
    ensures diskByName == ByName(disks) && normalDisks == CountNormal(disks) && firstNormalDisk == FirstNamed(disks)
  {
    hide NormalDevice, TrimSpace;
    diskByName, normalDisks, firstNormalDisk := map[], 0, "";
    for i := 0 to |disks|
      invariant diskByName == ByName(disks[..i])
      invariant normalDisks == CountNormal(disks[..i])
      invariant firstNormalDisk == FirstNamed(disks[..i])
    {
      assert disks[..i + 1][..i] == disks[..i];
      if NormalDevice(disks[i].device) {
        normalDisks := normalDisks + 1;
        if firstNormalDisk == "" {
          firstNormalDisk := TrimSpace(disks[i].name);
        }
      }
      diskByName := diskByName[disks[i].name := disks[i]];
    }
    assert disks[..|disks|] == disks;
  }

  function Targets(items: seq<DeleteAction>): set<string> {
    set a | a in items :: a.target
  }

  function ActionFor(d: ConfigDisk): DeleteAction {
    DeleteAction(d.name, d.path, DiskVolume(d).0, DiskVolume(d).1)
  }

  /** Every action deletes the listed disk of its target together with the disk's own volume. */
  ghost predicate FromDisks(items: seq<DeleteAction>, disks: seq<ConfigDisk>) {
    forall a :: a in items ==> a.target in ByName(disks) && a == ActionFor(ByName(disks)[a.target])
  }

  lemma AddAction(items: seq<DeleteAction>, disks: seq<ConfigDisk>, name: string)
    requires FromDisks(items, disks) && name in ByName(disks) && ByName(disks)[name].name == name
    ensures FromDisks(items + [ActionFor(ByName(disks)[name])], disks)
    ensures Targets(items + [ActionFor(ByName(disks)[name])]) == Targets(items) + {name}
  {
    hide DiskVolume, ByName;
  }

  /** The checks on one name that has not been seen yet; an empty answer means it may be deleted. */
  method CheckDelete(name: string, diskByName: map<string, ConfigDisk>, firstNormalDisk: string,
                     ghost disks: seq<ConfigDisk>)
    returns (problem: string)
    requires diskByName == ByName(disks) && firstNormalDisk == FirstNamed(disks)
    ensures problem == "" <==> Deletable(name, disks)
  {
    hide NormalDevice, TrimSpace, ByName, FirstNamed;
    if name == "" {
      return "disk name is required";
    }
    if name !in diskByName {
      return "disk target not found";
    }
    var current := diskByName[name];
    if !NormalDevice(current.device) {
      return "only normal disks can be deleted";
    }
    if name == firstNormalDisk {
      return "first disk cannot be deleted";
    }
    if Blank(current.path) {
      return "disk source path is unavailable";
    }
    return "";
  }

  /** The actions of a request in order, one for every name. */
  function DeleteActions(requests: seq<string>, disks: seq<ConfigDisk>): seq<DeleteAction> {
    if requests == [] then []
    else
      var n := |requests| - 1;
      var name, before := TrimSpace(requests[n]), DeleteActions(requests[..n], disks);
      if name in Trimmed(requests[..n]) || name !in ByName(disks) then before
        else before + [ActionFor(ByName(disks)[name])]
  }

  lemma NextDeleteAction(requests: seq<string>, disks: seq<ConfigDisk>, i: nat)
    requires i < |requests|
    ensures var name, before := TrimSpace(requests[i]), DeleteActions(requests[..i], disks);
            DeleteActions(requests[..i + 1], disks) ==
              if name in Trimmed(requests[..i]) || name !in ByName(disks) then before
              else before + [ActionFor(ByName(disks)[name])]
  {
    hide TrimSpace, ByName, Trimmed, ActionFor;
    assert requests[..i + 1][..i] == requests[..i];
  }

  /** validateVMDeviceDeletedDisks */
  method ValidateDeletedDisks(requests: seq<string>, disks: seq<ConfigDisk>) returns (r: Result<seq<DeleteAction>>)
    ensures r.Ok? <==> DeletesAccepted(requests, disks)
    ensures r.Ok? ==> Targets(r.value) == Trimmed(requests) && FromDisks(r.value, disks)
    ensures r.Ok? ==> r.value == DeleteActions(requests, disks)
  {
    hide NormalDevice, TrimSpace, DiskVolume, ByName, FirstNamed, CountNormal, Targets, FromDisks, ActionFor;
    NoActions(disks);
    if |requests| == 0 {
      return Ok([]);
    }
    var diskByName, normalDisks, firstNormalDisk := IndexDisks(disks);
    if |requests| >= normalDisks {
      return Err("cannot delete all disks");
    }
    var items: seq<DeleteAction> := [];
    var seen: set<string> := {};
    for i := 0 to |requests|
      invariant seen == Trimmed(requests[..i]) == Targets(items) && FromDisks(items, disks)
      invariant items == DeleteActions(requests[..i], disks)
      invariant forall n :: n in seen ==> Deletable(n, disks)
    {
      var name := TrimSpace(requests[i]);
      TrimmedExtend(requests, i);
      NextDeleteAction(requests, disks, i);
      if name in seen {
        continue;
      }
      seen := seen + {name};
      var problem := CheckDelete(name, diskByName, firstNormalDisk, disks);
      if problem != "" {
        return Err(problem);
      }
      var current := diskByName[name];
      ByNameKey(disks, name);
      AddAction(items, disks, name);
      hide Deletable, Trimmed, DeleteActions;
      items := items + [ActionFor(current)];
    }
    assert requests[..|requests|] == requests;
    assert forall q :: q in requests ==> TrimSpace(q) in Trimmed(requests);
    return Ok(items);
  }

  lemma NoActions(disks: seq<ConfigDisk>)
    ensures Targets([]) == Trimmed([]) == {} && FromDisks([], disks)
  {
  }

  // ---------- Adding disks ----------

  function Normalise(d: NewDisk): NewDisk {
    NewDisk(TrimSpace(d.name), TrimSpace(d.pool), TrimSpace(d.target), TrimSpace(d.bus), ToLower(TrimSpace(d.format)),
            d.capacity)
  }

  /** storageVolumeNameMatchesFormat */
  predicate NameMatchesFormat(name: string, format: string) {
    HasSuffix(ToLower(TrimSpace(name)), if EqualFold(TrimSpace(format), "qcow2") then ".qcow2" else ".img")
  }

  /** The checks on one request alone; d is normalised. */
  predicate FieldsOk(d: NewDisk) {
    && d.name != "" && d.pool != "" && d.target != "" && d.bus != "" && d.format != "" && d.capacity > 0
    && '/' !in d.name && '\\' !in d.name
    && d.format in {"qcow2", "qcow", "qed", "raw"}
    && NameMatchesFormat(d.name, d.format)
  }

  /** What a request has to satisfy given the ones before it. A pool that listing lacks is one whose
      volumes cannot be listed. */
  ghost predicate Fits(d: NewDisk, earlier: seq<NewDisk>, taken: set<string>, listing: map<string, set<string>>) {
    && FieldsOk(d)
    && d.target !in taken && (forall k :: 0 <= k < |earlier| ==> earlier[k].target != d.target)
    && d.pool in listing && d.name !in listing[d.pool]
    && (forall k :: 0 <= k < |earlier| ==> !(earlier[k].pool == d.pool && earlier[k].name == d.name))
  }

  function NormaliseAll(ds: seq<NewDisk>): (r: seq<NewDisk>)
    ensures |r| == |ds| && forall i :: 0 <= i < |ds| ==> r[i] == Normalise(ds[i])
  {
    seq(|ds|, i requires 0 <= i < |ds| => Normalise(ds[i]))
  }

  ghost predicate AllFit(requests: seq<NewDisk>, n: nat, taken: set<string>, listing: map<string, set<string>>)
    requires n <= |requests|
  {
    forall i :: 0 <= i < n ==> Fits(Normalise(requests[i]), NormaliseAll(requests[..i]), taken, listing)
  }

  ghost predicate NewDisksAccepted(requests: seq<NewDisk>, taken: set<string>, listing: map<string, set<string>>) {
    AllFit(requests, |requests|, taken, listing)
  }

  lemma NextFits(requests: seq<NewDisk>, n: nat, taken: set<string>, listing: map<string, set<string>>)
    requires n < |requests| && AllFit(requests, n, taken, listing)
    ensures AllFit(requests, n + 1, taken, listing) <==>
              Fits(Normalise(requests[n]), NormaliseAll(requests[..n]), taken, listing)
    ensures AllFit(requests, |requests|, taken, listing) ==> AllFit(requests, n + 1, taken, listing)
    ensures NormaliseAll(requests[..n + 1]) == NormaliseAll(requests[..n]) + [Normalise(requests[n])]
  {
    hide Fits, Normalise;
    assert requests[..n + 1] == requests[..n] + [requests[n]];
  }

  /** targets holds what is taken and what the earlier requests take. */
  ghost predicate KnowsTargets(targets: set<string>, taken: set<string>, earlier: seq<NewDisk>) {
    forall t :: t in targets <==> t in taken || exists k :: 0 <= k < |earlier| && earlier[k].target == t
  }

  /** The pools listed so far, with the volumes of the earlier requests added. */
  ghost predicate KnowsVolumes(volumes: map<string, set<string>>, listing: map<string, set<string>>,
                               earlier: seq<NewDisk>) {
    && (forall p :: p in volumes ==> p in listing)
    && (forall k :: 0 <= k < |earlier| ==> earlier[k].pool in volumes)
    && (forall p, n :: p in volumes ==>
          (n in volumes[p] <==>
             n in listing[p] || exists k :: 0 <= k < |earlier| && earlier[k].pool == p && earlier[k].name == n))
  }

  lemma AddTarget(targets: set<string>, taken: set<string>, earlier: seq<NewDisk>, d: NewDisk)
    requires KnowsTargets(targets, taken, earlier)
    ensures KnowsTargets(targets + {d.target}, taken, earlier + [d])
  {
    forall t ensures t in targets + {d.target} <==>
      t in taken || exists k :: 0 <= k < |earlier + [d]| && (earlier + [d])[k].target == t {
      if t == d.target {
        assert (earlier + [d])[|earlier|].target == t;
      } else if t in targets && t !in taken {
        var k :| 0 <= k < |earlier| && earlier[k].target == t;
        assert (earlier + [d])[k].target == t;
      }
    }
  }

  lemma AddPool(volumes: map<string, set<string>>, listing: map<string, set<string>>, earlier: seq<NewDisk>,
                pool: string)
    requires KnowsVolumes(volumes, listing, earlier) && pool in listing && pool !in volumes
    ensures KnowsVolumes(volumes[pool := listing[pool]], listing, earlier)
  {
  }

  lemma AddVolume(volumes: map<string, set<string>>, listing: map<string, set<string>>, earlier: seq<NewDisk>,
                  d: NewDisk)
    requires KnowsVolumes(volumes, listing, earlier) && d.pool in volumes
    ensures KnowsVolumes(volumes[d.pool := volumes[d.pool] + {d.name}], listing, earlier + [d])
  {
    var after := volumes[d.pool := volumes[d.pool] + {d.name}];
    forall p, n | p in after
      ensures n in after[p] <==>
                n in listing[p] || exists k ::
                  0 <= k < |earlier + [d]| && (earlier + [d])[k].pool == p && (earlier + [d])[k].name == n
    {
      if p == d.pool && n == d.name {
        assert (earlier + [d])[|earlier|].pool == p && (earlier + [d])[|earlier|].name == n;
      } else if n in volumes[p] && n !in listing[p] {
        var k :| 0 <= k < |earlier| && earlier[k].pool == p && earlier[k].name == n;
        assert (earlier + [d])[k].pool == p && (earlier + [d])[k].name == n;
      }
    }
  }

  /** The checks on one request; the volumes of its pool are listed if they were not yet. */
  method CheckNewDisk(disk: NewDisk, targets: set<string>, volumesByPool: map<string, set<string>>,
                      listing: map<string, set<string>>, ghost taken: set<string>, ghost earlier: seq<NewDisk>)
    returns (problem: string, volumes: map<string, set<string>>)
    requires KnowsTargets(targets, taken, earlier) && KnowsVolumes(volumesByPool, listing, earlier)
    ensures problem == "" <==> Fits(disk, earlier, taken, listing)
    ensures problem == "" ==> disk.pool in volumes && KnowsVolumes(volumes, listing, earlier)
  {
    hide NameMatchesFormat;
    volumes := volumesByPool;
    if disk.name == "" || disk.pool == "" || disk.target == "" || disk.bus == "" || disk.format == ""
       || disk.capacity <= 0 {
      return "new disk fields are required", volumes;
    }
    if '/' in disk.name || '\\' in disk.name {
      return "new disk name must not contain path separators", volumes;
    }
    if disk.format !in {"qcow2", "qcow", "qed", "raw"} {
      return "unsupported storage volume format", volumes;
    }
    if !NameMatchesFormat(disk.name, disk.format) {
      return "new disk name extension must match format", volumes;
    }
    if disk.target in targets {
      return "disk target already exists", volumes;
    }
    if disk.pool !in volumes {
      if disk.pool !in listing {
        return "storage pool is unavailable", volumes;
      }
      AddPool(volumes, listing, earlier, disk.pool);
      volumes := volumes[disk.pool := listing[disk.pool]];
    }
    problem := if disk.name in volumes[disk.pool] then "storage volume already exists" else "";
  }

  /** validateVMDeviceNewDisks, given the names of the VM's disks and the volumes of each pool */
  method ValidateNewDisks(requests: seq<NewDisk>, names: seq<string>, listing: map<string, set<string>>)
    returns (r: Result<seq<NewDisk>>)
    ensures r.Ok? <==> NewDisksAccepted(requests, Trimmed(names), listing)
    ensures r.Ok? ==> r.value == NormaliseAll(requests)
  {
    hide *;
    var targets := TrimmedTargets(names);
    var volumesByPool: map<string, set<string>> := map[];
    var next: seq<NewDisk> := [];
    NothingNew(requests, Trimmed(names), listing);
    assert requests[..0] == [];
    for i := 0 to |requests|
      invariant next == NormaliseAll(requests[..i])
      invariant KnowsTargets(targets, Trimmed(names), next) && KnowsVolumes(volumesByPool, listing, next)
      invariant AllFit(requests, i, Trimmed(names), listing)
    {
      NextFits(requests, i, Trimmed(names), listing);
      var disk := Normalise(requests[i]);
      var problem, volumes := CheckNewDisk(disk, targets, volumesByPool, listing, Trimmed(names), next);
      if problem != "" {
        return Err(problem);
      }
      AddTarget(targets, Trimmed(names), next, disk);
      AddVolume(volumes, listing, next, disk);
      targets := targets + {disk.target};
      volumesByPool := volumes[disk.pool := volumes[disk.pool] + {disk.name}];
      next := next + [disk];
    }
    assert requests[..|requests|] == requests;
    return Ok(next);
  }

  lemma NothingNew(requests: seq<NewDisk>, taken: set<string>, listing: map<string, set<string>>)
    ensures KnowsTargets(taken, taken, []) && KnowsVolumes(map[], listing, [])
    ensures AllFit(requests, 0, taken, listing) && NormaliseAll([]) == []
    ensures NewDisksAccepted(requests, taken, listing) == AllFit(requests, |requests|, taken, listing)
  {
    hide Fits, Normalise;
  }

  // ---------- What accepted requests do to a domain ----------

  /** The first disk with a name that is not blank. */
  function FirstNamedEntry(ds: seq<DiskEntry>): Option<DiskEntry> {
    if ds == [] then None else if !Blank(ds[0].name) then Some(ds[0]) else FirstNamedEntry(ds[1..])
  }

  lemma {:induction false} FirstNamedEntryConcat(s: seq<DiskEntry>, t: seq<DiskEntry>)
    ensures FirstNamedEntry(s + t) == if FirstNamedEntry(s).Some? then FirstNamedEntry(s) else FirstNamedEntry(t)
  {
    if s == [] {
      assert s + t == t;
    } else {
      assert (s + t)[1..] == s[1..] + t;
      FirstNamedEntryConcat(s[1..], t);
    }
  }

  /** What the validation calls the first disk is the first named disk of the document. */
  lemma {:induction false} FirstNamedMeaning(config: seq<ConfigDisk>, ds: seq<DiskEntry>)
    requires |config| == |ds|
    requires forall i :: 0 <= i < |ds| ==> config[i].name == ds[i].name && NormalDevice(config[i].device)
    ensures FirstNamed(config) == match FirstNamedEntry(ds) case None => "" case Some(d) => TrimSpace(d.name)
    ensures FirstNamedEntry(ds).Some? ==> FirstNamedEntry(ds).value in ds && !Blank(FirstNamedEntry(ds).value.name)
  {
    hide TrimSpace;
    if ds != [] {
      var k := |ds| - 1;
      FirstNamedMeaning(config[..k], ds[..k]);
      assert ds == ds[..k] + [ds[k]];
      FirstNamedEntryConcat(ds[..k], [ds[k]]);
    }
  }

  function KeepOne(d: DiskEntry, deleted: set<string>): seq<DiskEntry> {
    if NormalDevice(d.device) && d.name in deleted then [] else [d]
  }

  lemma KeepStep(ds: seq<DiskEntry>, deleted: set<string>)
    ensures ds == [] ==> Keep(ds, deleted) == []
    ensures ds != [] ==> Keep(ds, deleted) == KeepOne(ds[0], deleted) + Keep(ds[1..], deleted)
  {
    hide NormalDevice;
  }

  lemma {:induction false} KeepConcat(s: seq<DiskEntry>, t: seq<DiskEntry>, deleted: set<string>)
    ensures Keep(s + t, deleted) == Keep(s, deleted) + Keep(t, deleted)
  {
    hide *;
    KeepStep(s, deleted);
    if s == [] {
      assert s + t == t;
    } else {
      assert (s + t)[1..] == s[1..] + t && (s + t)[0] == s[0];
      KeepConcat(s[1..], t, deleted);
      KeepStep(s + t, deleted);
    }
  }

  lemma {:induction false} KeepNormalOnly(ds: seq<DiskEntry>, deleted: set<string>)
    ensures NormalOnly(Keep(ds, deleted)) == Keep(NormalOnly(ds), deleted)
  {
    if ds != [] {
      KeepNormalOnly(ds[1..], deleted);
      var head := if NormalDevice(ds[0].device) && ds[0].name in deleted then [] else [ds[0]];
      NormalOnlyConcat(head, Keep(ds[1..], deleted));
      assert NormalDevice("disk");
      hide NormalDevice;
      var normal := if ds[0].device == "disk" then [ds[0]] else [];
      KeepConcat(normal, NormalOnly(ds[1..]), deleted);
      assert NormalOnly(head) == Keep(normal, deleted);
    }
  }

  lemma {:induction false} NormalOnlyEntries(ds: seq<DiskFragment>)
    ensures NormalOnly(Entries(ds)) == Entries(ds)
  {
    if ds != [] { NormalOnlyEntries(ds[1..]); }
  }

  /** The disks a configuration lists after the rewrite. */
  lemma ConfigDisksAfter(e: DeviceEdit, doc: Forest)
    requires DomainDoc(doc) && PlainDisks(DomainDevices(doc))
    ensures ConfigDisks(EditDevices(e, doc)) == Keep(ConfigDisks(doc), e.deletedTargets) + Entries(e.newDisks)
  {
    DisksAfter(e, doc);
    KeepNormalOnly(AllDisks(doc), e.deletedTargets);
    NormalOnlyConcat(Keep(AllDisks(doc), e.deletedTargets), Entries(e.newDisks));
    NormalOnlyEntries(e.newDisks);
  }

  lemma {:induction false} KeepFirstNamed(ds: seq<DiskEntry>, deleted: set<string>)
    requires FirstNamedEntry(ds).Some? && FirstNamedEntry(ds).value.name !in deleted
    ensures FirstNamedEntry(Keep(ds, deleted)) == FirstNamedEntry(ds)
  {
    hide NormalDevice, TrimSpace;
    var head := if NormalDevice(ds[0].device) && ds[0].name in deleted then [] else [ds[0]];
    FirstNamedEntryConcat(head, Keep(ds[1..], deleted));
    if Blank(ds[0].name) {
      KeepFirstNamed(ds[1..], deleted);
    }
  }

  lemma {:induction false} KeepMember(ds: seq<DiskEntry>, deleted: set<string>, d: DiskEntry)
    ensures d in Keep(ds, deleted) <==> d in ds && !(NormalDevice(d.device) && d.name in deleted)
  {
    hide NormalDevice;
    if ds != [] {
      KeepMember(ds[1..], deleted, d);
    }
  }

  lemma {:induction false} KeepDistinct(ds: seq<DiskEntry>, deleted: set<string>)
    requires Distinct(Names(ds))
    ensures Distinct(Names(Keep(ds, deleted)))
  {
    hide NormalDevice;
    if ds != [] {
      KeepDistinct(ds[1..], deleted);
      var rest := Keep(ds[1..], deleted);
      forall i | 0 <= i < |rest| ensures rest[i].name != ds[0].name {
        KeepMember(ds[1..], deleted, rest[i]);
        assert rest[i] in ds[1..];
      }
    }
  }

  lemma {:induction false} EntriesNames(ds: seq<DiskFragment>)
    ensures |Entries(ds)| == |ds| && forall i :: 0 <= i < |ds| ==> Entries(ds)[i].name == ds[i].target
  {
    if ds != [] { EntriesNames(ds[1..]); }
  }

  lemma DistinctConcat(s: seq<string>, t: seq<string>)
    requires Distinct(s) && Distinct(t)
    requires forall x :: x in s ==> x !in t
    ensures Distinct(s + t)
  {
    forall i, j | 0 <= i < j < |s + t| ensures (s + t)[i] != (s + t)[j] {
      if i < |s| <= j {
        assert s[i] in s && t[j - |s|] in t;
      }
    }
  }

  /** The request as the rewriter gets it. */
  ghost predicate EditFor(e: DeviceEdit, deletes: seq<string>, news: seq<NewDisk>) {
    && e.deletedTargets == Trimmed(deletes)
    && |e.newDisks| == |news| && forall i :: 0 <= i < |news| ==> e.newDisks[i].target == Normalise(news[i]).target
  }

  ghost predicate Accepted(e: DeviceEdit, deletes: seq<string>, news: seq<NewDisk>, config: seq<ConfigDisk>,
                           listing: map<string, set<string>>, doc: Forest) {
    && DomainDoc(doc) && PlainDisks(DomainDevices(doc)) && Describes(config, doc)
    && DeletesAccepted(deletes, config)
    && NewDisksAccepted(news, Trimmed(Names(ConfigDisks(doc))), listing)
    && EditFor(e, deletes, news)
  }

  lemma ConfigDevices(config: seq<ConfigDisk>, doc: Forest)
    requires Describes(config, doc)
    ensures forall i :: 0 <= i < |config| ==> NormalDevice(config[i].device)
    ensures forall i :: 0 <= i < |config| ==> ConfigDisks(doc)[i].device == "disk"
  {
    forall i | 0 <= i < |config| ensures config[i].device == "disk" {
      NormalOnlyMember(AllDisks(doc), ConfigDisks(doc)[i]);
    }
  }

  /** A rewritten domain still has its first named disk as first named disk, and has a disk if it had one. */
  lemma FirstDiskSurvives(e: DeviceEdit, deletes: seq<string>, news: seq<NewDisk>, config: seq<ConfigDisk>,
                          listing: map<string, set<string>>, doc: Forest)
    requires Accepted(e, deletes, news, config, listing, doc)
    ensures FirstNamedEntry(ConfigDisks(doc)).Some? ==>
              FirstNamedEntry(ConfigDisks(EditDevices(e, doc))) == FirstNamedEntry(ConfigDisks(doc))
    ensures ConfigDisks(doc) != [] ==> ConfigDisks(EditDevices(e, doc)) != []
  {
    var before := ConfigDisks(doc);
    ConfigDisksAfter(e, doc);
    ConfigDevices(config, doc);
    FirstNamedMeaning(config, before);
    hide TrimSpace, NormalDevice, FirstNamed, ConfigDisks, EditDevices;
    match FirstNamedEntry(before) {
      case Some(d) =>
        forall q | q in deletes ensures TrimSpace(q) != d.name {
          TrimTwice(q);
          assert Deletable(TrimSpace(q), config);
        }
        KeepFirstNamed(before, e.deletedTargets);
        FirstNamedEntryConcat(Keep(before, e.deletedTargets), Entries(e.newDisks));
      case None =>
        if deletes != [] {
          var q := TrimSpace(deletes[0]);
          assert Deletable(q, config);
          ByNameKey(config, q);
          var i :| 0 <= i < |config| && config[i].name == q;
          TrimTwice(deletes[0]);
          NoneIsBlank(before, i);
          assert false;
        }
        assert e.deletedTargets == {};
        KeepNothing(before);
    }
  }

  lemma {:induction false} NoneIsBlank(ds: seq<DiskEntry>, i: nat)
    requires FirstNamedEntry(ds).None? && i < |ds|
    ensures Blank(ds[i].name)
  {
    hide TrimSpace;
    if i > 0 { NoneIsBlank(ds[1..], i - 1); }
  }

  lemma {:induction false} KeepNothing(ds: seq<DiskEntry>)
    ensures Keep(ds, {}) == ds
  {
    if ds != [] { KeepNothing(ds[1..]); }
  }

  lemma NotTaken(x: string, names: seq<string>)
    requires TrimSpace(x) == x && x !in Trimmed(names)
    ensures x !in names
  {
    hide TrimSpace;
    forall n | n in names ensures n != x {
      assert TrimSpace(n) in Trimmed(names);
    }
  }

  lemma KeptAndAdded(ds: seq<DiskEntry>, deleted: set<string>, added: seq<DiskEntry>)
    requires Distinct(Names(ds)) && Distinct(Names(added))
    requires forall d :: d in ds ==> d.name !in Names(added)
    ensures Distinct(Names(Keep(ds, deleted) + added))
  {
    var kept := Keep(ds, deleted);
    KeepDistinct(ds, deleted);
    hide NormalDevice, Keep;
    forall x | x in Names(kept) ensures x !in Names(added) {
      var i :| 0 <= i < |kept| && kept[i].name == x;
      KeepMember(ds, deleted, kept[i]);
    }
    DistinctConcat(Names(kept), Names(added));
    assert Names(kept + added) == Names(kept) + Names(added);
  }

  /** Disk targets stay pairwise distinct. */
  lemma TargetsStayDistinct(e: DeviceEdit, deletes: seq<string>, news: seq<NewDisk>, config: seq<ConfigDisk>,
                            listing: map<string, set<string>>, doc: Forest)
    requires Accepted(e, deletes, news, config, listing, doc)
    requires Distinct(Names(ConfigDisks(doc)))
    ensures Distinct(Names(ConfigDisks(EditDevices(e, doc))))
  {
    var before := ConfigDisks(doc);
    ConfigDisksAfter(e, doc);
    NewTargets(e, news, Names(before), listing);
    hide *;
    NamesMember(before);
    KeptAndAdded(before, e.deletedTargets, Entries(e.newDisks));
  }

  lemma NamesMember(ds: seq<DiskEntry>)
    ensures forall d :: d in ds ==> d.name in Names(ds)
  {
    forall d | d in ds ensures d.name in Names(ds) {
      var i :| 0 <= i < |ds| && ds[i] == d;
      assert Names(ds)[i] == d.name;
    }
  }

  /** The targets of accepted new disks are new and pairwise distinct. */
  lemma NewTargets(e: DeviceEdit, news: seq<NewDisk>, names: seq<string>, listing: map<string, set<string>>)
    requires NewDisksAccepted(news, Trimmed(names), listing)
    requires |e.newDisks| == |news| && forall i :: 0 <= i < |news| ==> e.newDisks[i].target == Normalise(news[i]).target
    ensures Distinct(Names(Entries(e.newDisks)))
    ensures forall x :: x in Names(Entries(e.newDisks)) ==> x !in names
  {
    EntriesNames(e.newDisks);
    var added := Names(Entries(e.newDisks));
    hide TrimSpace, FieldsOk;
    forall j | 0 <= j < |added| ensures added[j] !in names && forall i :: 0 <= i < j ==> added[i] != added[j] {
      assert Fits(Normalise(news[j]), NormaliseAll(news[..j]), Trimmed(names), listing);
      TrimTwice(news[j].target);
      NotTaken(added[j], names);
      forall i | 0 <= i < j ensures added[i] != added[j] {
        assert NormaliseAll(news[..j])[i].target == added[i];
      }
    }
  }

  /** A new target is the target of a device that is not a plain disk, such as a CDROM drive. */
  ghost predicate HitsOtherDevice(newDisks: seq<DiskFragment>, all: seq<DiskEntry>) {
    exists d, i :: d in all && d.device != "disk" && 0 <= i < |newDisks| && d.name == newDisks[i].target
  }

  /** The check does not see CDROM and other non-disk devices: with targets distinct over all devices
      before, they stay distinct over all devices exactly if no new target is the target of such a device. */
  lemma AllTargetsStayDistinct(e: DeviceEdit, deletes: seq<string>, news: seq<NewDisk>, config: seq<ConfigDisk>,
                               listing: map<string, set<string>>, doc: Forest)
    requires Accepted(e, deletes, news, config, listing, doc)
    requires Distinct(Names(AllDisks(doc)))
    ensures Distinct(Names(AllDisks(EditDevices(e, doc)))) <==> !HitsOtherDevice(e.newDisks, AllDisks(doc))
  {
    DisksAfter(e, doc);
    NewTargets(e, news, Names(ConfigDisks(doc)), listing);
    DeletedAreNormal(e, deletes, config, doc);
    hide *;
    AllTargets(AllDisks(doc), e.deletedTargets, e.newDisks);
  }

  lemma AllTargets(all: seq<DiskEntry>, deleted: set<string>, newDisks: seq<DiskFragment>)
    requires Distinct(Names(all)) && Distinct(Names(Entries(newDisks)))
    requires forall x :: x in Names(Entries(newDisks)) ==> x !in Names(NormalOnly(all))
    requires forall d :: d in all && d.name in deleted ==> d.device == "disk"
    ensures Distinct(Names(Keep(all, deleted) + Entries(newDisks))) <==> !HitsOtherDevice(newDisks, all)
  {
    var added := Entries(newDisks);
    EntriesNames(newDisks);
    NamesMember(NormalOnly(all));
    hide Keep, Entries, NormalOnly, Names, NormalDevice, Distinct;
    if !HitsOtherDevice(newDisks, all) {
      forall d | d in all ensures d.name !in Names(added) {
        NormalOnlyMember(all, d);
        if d.device != "disk" {
          NotAmong(d, newDisks);
        }
      }
      KeptAndAdded(all, deleted, added);
    } else {
      var d, i :| d in all && d.device != "disk" && 0 <= i < |newDisks| && d.name == newDisks[i].target;
      SharedTarget(all, deleted, added, d, i);
    }
  }

  lemma NotAmong(d: DiskEntry, newDisks: seq<DiskFragment>)
    requires forall i :: 0 <= i < |newDisks| ==> d.name != newDisks[i].target
    ensures d.name !in Names(Entries(newDisks))
  {
    EntriesNames(newDisks);
  }

  lemma SharedTarget(all: seq<DiskEntry>, deleted: set<string>, added: seq<DiskEntry>, d: DiskEntry, i: nat)
    requires d in all && d.name !in deleted && i < |added| && added[i].name == d.name
    ensures !Distinct(Names(Keep(all, deleted) + added))
  {
    KeepMember(all, deleted, d);
    hide NormalDevice, Keep;
    var kept := Keep(all, deleted);
    var k :| 0 <= k < |kept| && kept[k] == d;
    assert Names(kept + added)[k] == Names(kept + added)[|kept| + i];
  }

  /** With distinct targets, what an accepted request deletes has device='disk'. */
  lemma DeletedAreNormal(e: DeviceEdit, deletes: seq<string>, config: seq<ConfigDisk>, doc: Forest)
    requires Describes(config, doc) && DeletesAccepted(deletes, config) && e.deletedTargets == Trimmed(deletes)
    requires Distinct(Names(AllDisks(doc)))
    ensures forall d :: d in AllDisks(doc) && d.name in e.deletedTargets ==> d.device == "disk"
  {
    hide TrimSpace, NormalDevice, NormalOnly, AllDisks, FirstNamed, Names, Distinct, ByName, CountNormal;
    forall d | d in AllDisks(doc) && d.name in e.deletedTargets ensures d.device == "disk" {
      var q :| q in deletes && TrimSpace(q) == d.name;
      assert Deletable(TrimSpace(q), config);
      ByNameKey(config, d.name);
      var i :| 0 <= i < |config| && config[i].name == d.name;
      SameName(AllDisks(doc), d, ConfigDisks(doc)[i]);
    }
  }

  lemma SameName(all: seq<DiskEntry>, d: DiskEntry, listed: DiskEntry)
    requires Distinct(Names(all)) && d in all && listed in NormalOnly(all) && listed.name == d.name
    ensures d.device == "disk"
  {
    NormalOnlyMember(all, listed);
    var j, k :| 0 <= j < |all| && 0 <= k < |all| && all[j] == d && all[k] == listed;
    assert Names(all)[j] == Names(all)[k];
  }
}

// What a migration leaves: whether some host still has the machine with the contents of all its disks, and
// exactly when the target's definition stands for them.
module MigrationEffect {
  import opened Common
  import opened Strings
  import opened Paths
  import opened Xml
  import opened DomainConfig
  import opened CloneRewrite
  import opened CloneEffect
  import opened DiskRenaming
  import opened MigrationXml
  import opened Commands
  import opened Storage
  import opened Provisioning
  import opened Deletion
  import opened VMCreation
  import opened VMCloneEffect
  import opened Migration

  /** Every disk has an absolute path without surrounding white space, as libvirt asks for. */
  predicate PlainPaths(disks: seq<ConfigDisk>) {
    forall i :: 0 <= i < |disks| ==> Rooted(disks[i].path) && IsTrimmed(disks[i].path)
  }

  lemma TargetPathPlain(d: ConfigDisk)
    requires Rooted(d.path) && IsTrimmed(d.path)
    ensures TrimSpace(d.path) == d.path && d.path != "" && Rooted(TargetPath(d)) && !Blank(TargetPath(d))
    ensures TargetPath(d) == Clean(d.path) && Clean(TargetPath(d)) == TargetPath(d)
  {
    RootedNotBlank(Clean(d.path));
    CleanTwice(d.path);
  }

  // ---------- The paths the target's definition names ----------

  predicate PlainMap(m: map<string, string>) {
    forall p :: p in m ==> p != "" && !Blank(m[p])
  }

  lemma {:induction false} MapPlain(disks: seq<ConfigDisk>)
    requires PlainPaths(disks)
    ensures PlainMap(DiskMap(disks))
  {
    hide TrimSpace, TargetPath, PlainMap, DiskMap;
    if disks == [] {
      EmptyMap();
    } else {
      var n := |disks| - 1;
      MapPlain(disks[..n]);
      TargetPathPlain(disks[n]);
      NextMapped(disks, n);
      assert disks[..n + 1] == disks;
      BlankEmpty();
      hide Blank;
      AddPlain(DiskMap(disks[..n]), disks[n].path, TargetPath(disks[n]));
      if !Blank(disks[n].sourcePath) {
        AddPlain(DiskMap(disks[..n])[disks[n].path := TargetPath(disks[n])], disks[n].sourcePath, TargetPath(disks[n]));
      }
    }
  }

  lemma EmptyMap()
    ensures DiskMap([]) == map[] && PlainMap(map[])
  {
  }

  lemma AddPlain(m: map<string, string>, p: string, q: string)
    requires PlainMap(m) && p != "" && !Blank(q)
    ensures PlainMap(m[p := q])
  {
    hide Blank;
  }

  /** The path a disk is given on the target. */
  function MappedPath(disks: seq<ConfigDisk>, i: nat): string
    requires i < |disks|
  {
    Lookup(DiskMap(disks), TrimSpace(disks[i].path))
  }

  lemma {:induction false} MappedToTarget(disks: seq<ConfigDisk>, p: string) returns (k: nat)
    ensures p in DiskMap(disks) ==> k < |disks| && DiskMap(disks)[p] == TargetPath(disks[k])
  {
    hide TrimSpace, TargetPath, Blank;
    k := 0;
    if disks != [] {
      var n := |disks| - 1;
      k := MappedToTarget(disks[..n], p);
      if p == TrimSpace(disks[n].path) || (!Blank(disks[n].sourcePath) && p == disks[n].sourcePath) {
        k := n;
      }
    }
  }

  /** A disk is given the path of some disk's copy. */
  lemma MappedIsTarget(disks: seq<ConfigDisk>, i: nat) returns (k: nat)
    requires i < |disks| && DistinctTargets(disks)
    ensures k < |disks| && MappedPath(disks, i) == TargetPath(disks[k])
  {
    MapsToCopy(disks, i);
    k := MappedToTarget(disks, TrimSpace(disks[i].path));
    hide DiskMap, TrimSpace, TargetPath;
  }

  /** The machine, as it is defined on the source, with disks that can be followed. */
  predicate Followed(source: State, vm: string, disks: seq<ConfigDisk>) {
    && vm in source.domains && TidyDomain(source.domains[vm]) && Describes(disks, source.domains[vm])
    && PlainPaths(disks)
  }

  /** The disks of the cold-migrated definition are the source's, each with its mapped path. */
  lemma ColdDisks(source: State, vm: string, disks: seq<ConfigDisk>)
    requires Followed(source, vm, disks) && DistinctTargets(disks)
    ensures var before, after := ConfigDisks(source.domains[vm]), ConfigDisks(NextOf(source, vm, disks, false));
            && |after| == |before| == |disks|
            && forall i :: 0 <= i < |disks| ==>
                 && after[i].name == before[i].name && after[i].backing == before[i].backing
                 && after[i].Path() == MappedPath(disks, i) && before[i].Path() == disks[i].path
  {
    hide ConfigDisks, DiskMap, TargetPath, MigrateForest, Blank, DistinctTargets, TrimSpace, TidyDisks;
    var m, doc := DiskMap(disks), source.domains[vm];
    MapPlain(disks);
    assert PlainMap(m);
    BlankEmpty();
    MigrateDisks(m, doc);
    var before, after := ConfigDisks(doc), ConfigDisks(MigrateForest(m, "", doc));
    forall i | 0 <= i < |disks|
      ensures && after[i].name == before[i].name && after[i].backing == before[i].backing
              && after[i].Path() == MappedPath(disks, i) && before[i].Path() == disks[i].path
    {
      ColdDisk(disks, i, before[i], after[i]);
    }
  }

  lemma ColdDisk(disks: seq<ConfigDisk>, i: nat, before: DiskEntry, after: DiskEntry)
    requires i < |disks| && PlainPaths(disks) && DistinctTargets(disks)
    requires EntryRenamed(OnlyDisks(DiskMap(disks)), before, after) && ListsDisk(disks[i], before)
    ensures after.name == before.name && after.backing == before.backing
    ensures after.Path() == MappedPath(disks, i) && before.Path() == disks[i].path
  {
    TargetPathPlain(disks[i]);
    var k := MappedIsTarget(disks, i);
    TargetPathPlain(disks[k]);
    BlankEmpty();
    hide DiskMap, TargetPath, TrimSpace, Clean, DistinctTargets;
  }

  /** The target's definition names a disk's own copy exactly if the disk is no later disk's backing base. */
  lemma NamesOwnCopy(trip: Trip, t: State, vm: string, i: nat)
    requires Followed(trip.source, vm, trip.disks) && i < |trip.disks|
    requires Arrived(trip, t, vm, NextOf(trip.source, vm, trip.disks, false), Some(RemoteXml(vm)))
    ensures |ConfigDisks(t.domains[vm])| == |trip.disks|
    ensures ConfigDisks(t.domains[vm])[i].Path() == TargetPath(trip.disks[i]) <==> !BaseOfLater(trip.disks, i)
  {
    ArrivedDistinct(trip, t, vm, NextOf(trip.source, vm, trip.disks, false), Some(RemoteXml(vm)));
    ColdDisks(trip.source, vm, trip.disks);
    MapsToCopy(trip.disks, i);
    hide ConfigDisks, DiskMap, BaseOfLater, TargetPath, TrimSpace, Delivered, KeepsBut, TidyDomain, Describes,
      PlainPaths, NextOf;
  }

  lemma ArrivedDistinct(trip: Trip, t: State, vm: string, next: Forest, xml: Option<string>)
    requires Arrived(trip, t, vm, next, xml)
    ensures DistinctTargets(trip.disks)
  {
  }

  // ---------- Contents ----------

  /** b has at q the content that a has at p. */
  ghost predicate SameFile(a: State, p: string, b: State, q: string) {
    Clean(p) in a.files && Clean(q) in b.files && b.files[Clean(q)] == a.files[Clean(p)]
  }

  /** The files of a backing chain have the same contents on both. */
  ghost predicate SameBacking(a: State, b: State, chain: seq<string>) {
    forall p :: p in chain && p != "" ==> SameFile(a, p, b, p)
  }

  ghost predicate SameDisk(a: State, d: DiskEntry, b: State, e: DiskEntry) {
    e.name == d.name && e.backing == d.backing && SameFile(a, d.Path(), b, e.Path())
      && SameBacking(a, b, Chain(d.backing))
  }

  /** The host has the machine, each disk and its backing files with the contents they have at the origin, where
      doc defines the machine. */
  ghost predicate HoldsOriginal(origin: State, doc: Forest, s: State, vm: string) {
    && vm in s.domains && |ConfigDisks(s.domains[vm])| == |ConfigDisks(doc)|
    && forall i :: 0 <= i < |ConfigDisks(doc)| ==>
      SameDisk(origin, ConfigDisks(doc)[i], s, ConfigDisks(s.domains[vm])[i])
  }

  /** Every disk has the content of the disk whose copy its path is mapped to. */
  ghost predicate OwnContents(source: State, disks: seq<ConfigDisk>) {
    forall i :: 0 <= i < |disks| ==> OwnContent(source, disks, i)
  }

  ghost predicate OwnContent(source: State, disks: seq<ConfigDisk>, i: nat)
    requires i < |disks|
  {
    var own, mapped := TargetPath(disks[i]), MappedPath(disks, i);
    own in source.files && mapped in source.files && source.files[mapped] == source.files[own]
  }

  /** The backing file was copied as a disk itself, or the target has it already with the same content. */
  ghost predicate BackingThere(trip: Trip, p: string) {
    var path := Clean(p);
    && path in trip.source.files
    && (path in TargetPaths(trip.disks)
        || (path in trip.target.files && trip.target.files[path] == trip.source.files[path]))
  }

  ghost predicate AllBackingThere(trip: Trip, doc: Forest) {
    forall i, p :: 0 <= i < |ConfigDisks(doc)| && p in Chain(ConfigDisks(doc)[i].backing) && p != "" ==>
      BackingThere(trip, p)
  }

  /** No disk's copy and no backing file is at the path of the temporary file. */
  ghost predicate ClearOf(disks: seq<ConfigDisk>, doc: Forest, xml: Option<string>) {
    && NoDiskIs(disks, xml)
    && forall i, p :: 0 <= i < |ConfigDisks(doc)| && p in Chain(ConfigDisks(doc)[i].backing) ==> Some(Clean(p)) != xml
  }

  /** On the target a backing file has the original's content exactly if BackingThere. */
  lemma BackingArrives(trip: Trip, t: State, vm: string, xml: Option<string>, p: string)
    requires !trip.running && Delivered(trip, t, xml) && KeepsBut(trip.target, t, vm, xml)
    requires NoDiskIs(trip.disks, xml) && Some(Clean(p)) != xml
    ensures SameFile(trip.source, p, t, p) <==> BackingThere(trip, p)
  {
    hide *;
    var path := Clean(p);
    DeliveredParts(trip, t, xml);
    BackingThereIs(trip, p);
    SameFileIs(trip.source, p, t);
    if path in TargetPaths(trip.disks) {
      var i := DiskAt(trip.disks, path);
      LandedOwn(trip, t, i);
    } else {
      NotCopied(trip, t, vm, xml, path);
    }
  }

  lemma DeliveredParts(trip: Trip, t: State, xml: Option<string>)
    requires Delivered(trip, t, xml) && NoDiskIs(trip.disks, xml)
    ensures AllLanded(trip, t, trip.disks) && NewBut(trip.target, t, TargetPaths(trip.disks), xml)
  {
    hide AllLanded, NewBut, DistinctTargets, TargetPaths;
  }

  lemma BackingThereIs(trip: Trip, p: string)
    ensures var path := Clean(p);
            BackingThere(trip, p) <==>
              && path in trip.source.files
              && (path in TargetPaths(trip.disks)
                  || (path in trip.target.files && trip.target.files[path] == trip.source.files[path]))
  {
    hide Clean, TargetPaths;
  }

  lemma SameFileIs(a: State, p: string, b: State)
    ensures SameFile(a, p, b, p) <==>
              Clean(p) in a.files && Clean(p) in b.files && b.files[Clean(p)] == a.files[Clean(p)]
  {
    hide Clean;
  }

  lemma DiskAt(disks: seq<ConfigDisk>, path: string) returns (i: nat)
    requires path in TargetPaths(disks)
    ensures i < |disks| && TargetPath(disks[i]) == path
  {
    hide TargetPath;
    i :| 0 <= i < |disks| && TargetPath(disks[i]) == path;
  }

  /** What is no copy is on the target exactly if it was there, with the same content. */
  lemma NotCopied(trip: Trip, t: State, vm: string, xml: Option<string>, path: string)
    requires NewBut(trip.target, t, TargetPaths(trip.disks), xml) && KeepsBut(trip.target, t, vm, xml)
    requires path !in TargetPaths(trip.disks) && Some(path) != xml
    ensures path in t.files <==> path in trip.target.files
    ensures path in t.files ==> t.files[path] == trip.target.files[path]
  {
    hide TargetPaths, OthersSame;
  }

  lemma LandedOwn(trip: Trip, t: State, i: nat)
    requires AllLanded(trip, t, trip.disks) && i < |trip.disks|
    ensures var path := TargetPath(trip.disks[i]);
            path in trip.source.files && path in t.files && (!trip.running ==> t.files[path] == trip.source.files[path])
  {
    hide TargetPath, TrimSpace;
    assert Landed(trip, t, trip.disks[i]);
  }

  /** One disk of an arrived machine. */
  lemma ColdDiskHeld(trip: Trip, t: State, i: nat, d: DiskEntry, e: DiskEntry)
    requires !trip.running && i < |trip.disks| && AllLanded(trip, t, trip.disks)
    requires PlainPaths(trip.disks) && DistinctTargets(trip.disks)
    requires d.Path() == trip.disks[i].path && e.Path() == MappedPath(trip.disks, i)
    ensures SameFile(trip.source, d.Path(), t, e.Path()) <==> OwnContent(trip.source, trip.disks, i)
  {
    var k := MappedIsTarget(trip.disks, i);
    TargetPathPlain(trip.disks[i]);
    TargetPathPlain(trip.disks[k]);
    LandedOwn(trip, t, i);
    LandedOwn(trip, t, k);
    hide TargetPath, MappedPath, Clean, TrimSpace, Rooted, Blank, DistinctTargets, AllLanded;
  }

  /** A cold-migrated machine has the original contents on the target exactly if every disk has the content of the
      disk whose copy it is given, and the backing files are there. */
  lemma ColdHolds(trip: Trip, t: State, vm: string)
    requires !trip.running && Followed(trip.source, vm, trip.disks)
    requires Arrived(trip, t, vm, NextOf(trip.source, vm, trip.disks, false), Some(RemoteXml(vm)))
    requires ClearOf(trip.disks, trip.source.domains[vm], Some(RemoteXml(vm)))
    ensures HoldsOriginal(trip.source, trip.source.domains[vm], t, vm) <==>
              OwnContents(trip.source, trip.disks) && AllBackingThere(trip, trip.source.domains[vm])
  {
    hide *;
    var doc := DocOf(trip.source, vm, trip.disks);
    var xml := Some(RemoteXml(vm));
    ArrivedParts(trip, t, vm, NextOf(trip.source, vm, trip.disks, false), xml, doc);
    ColdDisks(trip.source, vm, trip.disks);
    var before, after := ConfigDisks(doc), ConfigDisks(t.domains[vm]);
    forall i | 0 <= i < |before| ensures SameDisk(trip.source, before[i], t, after[i]) <==>
        OwnContent(trip.source, trip.disks, i) && forall p :: p in Chain(before[i].backing) && p != "" ==>
          BackingThere(trip, p)
    {
      ColdDiskHeld(trip, t, i, before[i], after[i]);
      forall p | p in Chain(before[i].backing) ensures SameFile(trip.source, p, t, p) <==> BackingThere(trip, p) {
        ClearAt(trip.disks, doc, xml, i, p);
        BackingArrives(trip, t, vm, xml, p);
      }
      DiskParts(trip.source, before[i], t, after[i]);
    }
    HoldsParts(trip, doc, t, vm);
  }

  function DocOf(source: State, vm: string, disks: seq<ConfigDisk>): (doc: Forest)
    requires Followed(source, vm, disks)
    ensures doc == source.domains[vm]
    ensures PlainPaths(disks)
  {
    source.domains[vm]
  }

  lemma ArrivedParts(trip: Trip, t: State, vm: string, next: Forest, xml: Option<string>, doc: Forest)
    requires Arrived(trip, t, vm, next, xml) && ClearOf(trip.disks, doc, xml)
    ensures vm in t.domains && ConfigDisks(t.domains[vm]) == ConfigDisks(next) && Delivered(trip, t, xml)
    ensures KeepsBut(trip.target, t, vm, xml) && AllLanded(trip, t, trip.disks) && NoDiskIs(trip.disks, xml)
    ensures DistinctTargets(trip.disks)
  {
    hide ConfigDisks, AllLanded, NewBut, KeepsBut;
  }

  lemma ClearAt(disks: seq<ConfigDisk>, doc: Forest, xml: Option<string>, i: nat, p: string)
    requires ClearOf(disks, doc, xml) && i < |ConfigDisks(doc)| && p in Chain(ConfigDisks(doc)[i].backing)
    ensures Some(Clean(p)) != xml
  {
    hide ConfigDisks, Clean, Chain;
  }

  lemma DiskParts(a: State, d: DiskEntry, b: State, e: DiskEntry)
    requires e.name == d.name && e.backing == d.backing
    ensures SameDisk(a, d, b, e) <==>
              SameFile(a, d.Path(), b, e.Path()) && forall p :: p in Chain(d.backing) && p != "" ==>
                SameFile(a, p, b, p)
  {
    hide SameFile, Chain;
  }

  lemma HoldsParts(trip: Trip, doc: Forest, t: State, vm: string)
    requires vm in t.domains && |ConfigDisks(t.domains[vm])| == |ConfigDisks(doc)| == |trip.disks|
    requires forall i :: 0 <= i < |ConfigDisks(doc)| ==>
               (SameDisk(trip.source, ConfigDisks(doc)[i], t, ConfigDisks(t.domains[vm])[i]) <==>
                  OwnContent(trip.source, trip.disks, i)
                  && forall p :: p in Chain(ConfigDisks(doc)[i].backing) && p != "" ==> BackingThere(trip, p))
    ensures HoldsOriginal(trip.source, doc, t, vm) <==>
              OwnContents(trip.source, trip.disks) && AllBackingThere(trip, doc)
  {
    hide ConfigDisks, SameDisk, OwnContent, BackingThere, Chain;
  }

  ghost predicate DistinctContents(source: State, disks: seq<ConfigDisk>) {
    && (forall i :: 0 <= i < |disks| ==> TargetPath(disks[i]) in source.files)
    && forall i, j :: 0 <= i < j < |disks| ==> source.files[TargetPath(disks[i])] != source.files[TargetPath(disks[j])]
  }

  lemma OwnContentIff(source: State, disks: seq<ConfigDisk>, i: nat)
    requires DistinctTargets(disks) && DistinctContents(source, disks) && i < |disks|
    ensures OwnContent(source, disks, i) <==> !BaseOfLater(disks, i)
  {
    hide DiskMap, TargetPath, TrimSpace, BaseOfLater;
    MapsToCopy(disks, i);
    var k := MappedIsTarget(disks, i);
  }

  /** With pairwise different contents, every disk has the content of the one whose copy it is given exactly if no
      disk is a later disk's backing base. */
  lemma OwnContentsIff(source: State, disks: seq<ConfigDisk>)
    requires DistinctTargets(disks) && DistinctContents(source, disks)
    ensures OwnContents(source, disks) <==> forall i :: 0 <= i < |disks| ==> !BaseOfLater(disks, i)
  {
    hide OwnContent, BaseOfLater, DistinctTargets, DistinctContents;
    forall i | 0 <= i < |disks| ensures OwnContent(source, disks, i) <==> !BaseOfLater(disks, i) {
      OwnContentIff(source, disks, i);
    }
  }

  // ---------- Whole runs ----------

  /** The machine is on one of the two hosts with its original contents. */
  ghost predicate Somewhere(trip: Trip, doc: Forest, vm: string, pair: (State, State)) {
    HoldsOriginal(trip.source, doc, pair.0, vm) || HoldsOriginal(trip.source, doc, pair.1, vm)
  }

  /** The run starts with the machine on the source, its disks can be followed, and no path is in the way. */
  ghost predicate Departs(j: Journey) {
    && Followed(j.trip.source, j.vm, j.trip.disks)
    && HoldsOriginal(j.trip.source, j.trip.source.domains[j.vm], j.trip.source, j.vm)
    && ClearOf(j.trip.disks, j.trip.source.domains[j.vm], j.xml)
  }

  /** What a cold migration asks for to keep the machine: checkable before it starts. */
  ghost predicate ColdCondition(j: Journey) {
    j.vm in j.trip.source.domains && OwnContents(j.trip.source, j.trip.disks)
      && AllBackingThere(j.trip, j.trip.source.domains[j.vm])
  }

  /** At every moment of a cold migration, whatever fails, one of the hosts has the machine with the contents of all
      its disks and backing files, if every disk is given the content it had and the backing files are there. */
  lemma ColdNeverLost(dirs: Dirs, source: State, target: State, vm: string, disks: seq<ConfigDisk>,
                      moments: seq<(State, State)>)
    requires var j := JourneyOf(dirs, source, target, vm, disks, false, moments);
             SafeJourney(j) && Departs(j) && ColdCondition(j)
    ensures vm in source.domains
    ensures var trip := Trip(source, target, disks, false);
            forall k :: 0 <= k < |moments| ==> Somewhere(trip, source.domains[vm], vm, moments[k])
  {
    hide Followed, HoldsOriginal, ClearOf, OwnContents, AllBackingThere, Describes, Arrived, KeepsBut,
      Deleting, NextOf, RemoteXml;
    var j := JourneyOf(dirs, source, target, vm, disks, false, moments);
    FollowedDefined(source, vm, disks);
    forall k | 0 <= k < |moments| ensures Somewhere(j.trip, source.domains[vm], vm, moments[k]) {
      assert SafePair(j, moments[k]);
      if moments[k].0 != source {
        ColdHolds(j.trip, moments[k].1, vm);
      }
    }
  }

  lemma FollowedDefined(source: State, vm: string, disks: seq<ConfigDisk>)
    requires Followed(source, vm, disks)
    ensures vm in source.domains
  {
  }

  /** And when it does not, a completed run that removes the machine from the source has lost it: the condition
      is exact. */
  lemma ColdLost(dirs: Dirs, source: State, target: State, vm: string, disks: seq<ConfigDisk>, pair: (State, State))
    requires var j := JourneyOf(dirs, source, target, vm, disks, false, [pair]);
             Departs(j) && vm !in pair.0.domains && Arrived(j.trip, pair.1, vm, j.next, j.xml)
    ensures vm in source.domains
    ensures var j := JourneyOf(dirs, source, target, vm, disks, false, [pair]);
            Somewhere(j.trip, source.domains[vm], vm, pair) <==> ColdCondition(j)
  {
    hide Followed, ClearOf, OwnContents, AllBackingThere, Arrived, NextOf, RemoteXml, SameDisk;
    var j := JourneyOf(dirs, source, target, vm, disks, false, [pair]);
    FollowedDefined(source, vm, disks);
    ColdHolds(j.trip, pair.1, vm);
  }

  // ---------- Live migrations ----------

  /** What scp took of a disk in use is its original content. */
  ghost predicate CopiedExactly(trip: Trip, t: State) {
    forall i :: 0 <= i < |trip.disks| ==> CopyExact(trip, t, i)
  }

  ghost predicate CopyExact(trip: Trip, t: State, i: nat)
    requires i < |trip.disks|
  {
    var path := TargetPath(trip.disks[i]);
    path in t.files && path in trip.source.files && t.files[path] == trip.source.files[path]
  }

  ghost predicate AllSameBacking(trip: Trip, doc: Forest, t: State) {
    forall i :: 0 <= i < |ConfigDisks(doc)| ==> SameBacking(trip.source, t, Chain(ConfigDisks(doc)[i].backing))
  }

  /** A live-migrated machine has the original contents on the target exactly if the copies, taken while the
      guest was running, happen to be exact, and the backing files are there. */
  lemma LiveHolds(trip: Trip, t: State, vm: string)
    requires Followed(trip.source, vm, trip.disks)
    requires Arrived(trip, t, vm, NextOf(trip.source, vm, trip.disks, true), None)
    ensures HoldsOriginal(trip.source, trip.source.domains[vm], t, vm) <==>
              CopiedExactly(trip, t) && AllSameBacking(trip, trip.source.domains[vm], t)
  {
    hide ConfigDisks, TidyDomain, DistinctTargets, Delivered, KeepsBut, Clean, TargetPath, TrimSpace, SameFile,
      SameBacking, CopyExact;
    var doc := trip.source.domains[vm];
    forall i | 0 <= i < |trip.disks|
      ensures SameFile(trip.source, ConfigDisks(doc)[i].Path(), t, ConfigDisks(doc)[i].Path()) <==>
                CopyExact(trip, t, i)
    {
      assert ListsDisk(trip.disks[i], ConfigDisks(doc)[i]);
      ExactCopy(trip, t, i);
    }
  }

  lemma ExactCopy(trip: Trip, t: State, i: nat)
    requires PlainPaths(trip.disks) && i < |trip.disks|
    ensures SameFile(trip.source, trip.disks[i].path, t, trip.disks[i].path) <==> CopyExact(trip, t, i)
  {
    TargetPathPlain(trip.disks[i]);
    hide TargetPath, Clean, TrimSpace, Rooted, Blank;
  }

  // ---------- Every run ----------

  /** The machine can be followed from the start of the run on: Departs for its setting. */
  ghost predicate Sets(x: Setting) {
    Departs(JourneyOf(x.dirs, x.source, x.target, x.vm, x.disks, x.running, []))
  }

  lemma SetsParts(x: Setting)
    requires Sets(x)
    ensures x.vm in x.source.domains && Followed(x.source, x.vm, x.disks)
    ensures HoldsOriginal(x.source, x.source.domains[x.vm], x.source, x.vm)
    ensures ClearOf(x.disks, x.source.domains[x.vm], XmlOf(x.vm, x.running))
    ensures TripOf(x) == Trip(x.source, x.target, x.disks, x.running)
  {
    FollowedDefined(x.source, x.vm, x.disks);
    hide Followed, HoldsOriginal, ClearOf;
  }

  /** At every moment of the run one of the hosts has the machine with its original contents. */
  ghost predicate KeepsMachine(x: Setting, c: Schedule)
    requires x.vm in x.source.domains
  {
    forall k :: 0 <= k < |RunMoments(x, c)| ==>
      Somewhere(TripOf(x), x.source.domains[x.vm], x.vm, RunMoments(x, c)[k])
  }

  /** Nothing that is known before the run keeps it from arriving. */
  ghost predicate CanArrive(x: Setting) {
    AllGo(StepsOf(x)) && forall i :: 0 <= i < |x.disks| ==> TargetPath(x.disks[i]) !in x.target.files
  }

  /** The target gets the contents whatever happens: for a live migration only if there is nothing to copy, as the
      guest may write while a disk is copied. */
  ghost predicate GetsContents(x: Setting)
    requires x.vm in x.source.domains
  {
    if x.running then x.disks == []
    else OwnContents(x.source, x.disks) && AllBackingThere(TripOf(x), x.source.domains[x.vm])
  }

  /** Decidable before the migration starts. */
  ghost predicate SafeSetting(x: Setting)
    requires x.vm in x.source.domains
  {
    !x.undefine || !CanArrive(x) || GetsContents(x)
  }

  /** The machine is kept at every moment of every run, however its commands go, exactly if the source is not to be
      undefined, or the run cannot arrive, or the target gets the contents. */
  lemma RunsKeep(x: Setting)
    requires Sets(x)
    ensures x.vm in x.source.domains
    ensures (forall c :: KeepsMachine(x, c)) <==> SafeSetting(x)
  {
    hide *;
    SetsParts(x);
    SafeIs(x);
    forall c | SafeSetting(x) ensures KeepsMachine(x, c) {
      SafeKept(x, c);
    }
    if !SafeSetting(x) {
      var c := WorkingSchedule(Stale(x));
      WorkingStale(x, Stale(x));
      UnsafeLost(x, c);
    }
  }

  lemma SafeIs(x: Setting)
    requires x.vm in x.source.domains
    ensures SafeSetting(x) <==> !x.undefine || !CanArrive(x) || GetsContents(x)
  {
    hide CanArrive, GetsContents;
  }

  // ---------- Keeping ----------

  /** A run that arrives could. */
  lemma ArrivesCan(x: Setting, c: Schedule)
    requires Arrives(x, c.target, c.at)
    ensures CanArrive(x)
  {
    hide *;
    ArrivesWhen(x, c);
    RunParts(x, c);
    RunCopies(x, c);
    LandedNew(x, Behind(x.target, CopyRun(x, c).events));
  }

  lemma LandedNew(x: Setting, now: State)
    requires AllLanded(TripOf(x), now, x.disks) && AllGo(StepsOf(x))
    ensures CanArrive(x)
  {
    hide TargetPath, TrimSpace, AllGo;
    forall i | 0 <= i < |x.disks| ensures TargetPath(x.disks[i]) !in x.target.files {
      assert Landed(TripOf(x), now, x.disks[i]);
    }
  }

  /** What an arrived run leaves on the target is the original exactly under the condition, save that the copies of a
      live migration may be exact by chance. */
  lemma ArrivedHolds(x: Setting, c: Schedule)
    requires Sets(x) && Arrives(x, c.target, c.at)
    ensures x.vm in x.source.domains
    ensures GetsContents(x) ==> HoldsOriginal(x.source, x.source.domains[x.vm], Landing(x, c), x.vm)
    ensures !x.running ==> (HoldsOriginal(x.source, x.source.domains[x.vm], Landing(x, c), x.vm) <==> GetsContents(x))
    ensures x.running && x.disks != [] && HoldsOriginal(x.source, x.source.domains[x.vm], Landing(x, c), x.vm) ==>
              CopyExact(TripOf(x), Landing(x, c), 0)
  {
    hide *;
    SetsParts(x);
    RunArrives(x, c);
    XmlCases(x.vm);
    GetsIs(x);
    if x.running {
      LiveHolds(TripOf(x), Landing(x, c), x.vm);
      FollowedLength(x);
      ExactParts(TripOf(x), Landing(x, c), x.source.domains[x.vm]);
    } else {
      ColdHolds(TripOf(x), Landing(x, c), x.vm);
    }
  }

  lemma XmlCases(vm: string)
    ensures XmlOf(vm, false) == Some(RemoteXml(vm)) && XmlOf(vm, true) == None
  {
  }

  lemma GetsIs(x: Setting)
    requires x.vm in x.source.domains
    ensures x.running ==> (GetsContents(x) <==> x.disks == [])
    ensures !x.running ==>
              (GetsContents(x) <==>
                 OwnContents(x.source, x.disks) && AllBackingThere(TripOf(x), x.source.domains[x.vm]))
  {
    hide OwnContents, AllBackingThere;
  }

  lemma FollowedLength(x: Setting)
    requires Followed(x.source, x.vm, x.disks)
    ensures x.vm in x.source.domains && |ConfigDisks(x.source.domains[x.vm])| == |x.disks|
  {
    hide ConfigDisks, TidyDomain, PlainPaths;
  }

  lemma ExactParts(trip: Trip, t: State, doc: Forest)
    ensures CopiedExactly(trip, t) && trip.disks != [] ==> CopyExact(trip, t, 0)
    ensures trip.disks == [] ==> CopiedExactly(trip, t)
    ensures |ConfigDisks(doc)| == 0 ==> AllSameBacking(trip, doc, t)
  {
    hide CopyExact, ConfigDisks;
  }

  lemma SafeKept(x: Setting, c: Schedule)
    requires Sets(x) && x.vm in x.source.domains && SafeSetting(x)
    ensures KeepsMachine(x, c)
  {
    hide *;
    SetsParts(x);
    SafeIs(x);
    if x.undefine && Arrives(x, c.target, c.at) {
      ArrivesCan(x, c);
      ArrivedHolds(x, c);
    } else {
      SourceNever(x, c);
    }
    EachKept(x, c);
  }

  lemma SourceNever(x: Setting, c: Schedule)
    requires !(x.undefine && Arrives(x, c.target, c.at))
    ensures SourceEvents(x, c) == []
  {
    hide Arrives, Removing;
    ExecuteNothing(c.source, c.from, x.source);
  }

  lemma EachKept(x: Setting, c: Schedule)
    requires x.vm in x.source.domains && HoldsOriginal(x.source, x.source.domains[x.vm], x.source, x.vm)
    requires SourceEvents(x, c) == [] || HoldsOriginal(x.source, x.source.domains[x.vm], Landing(x, c), x.vm)
    ensures KeepsMachine(x, c)
  {
    hide HoldsOriginal, TargetEvents, SourceEvents, Landing;
  }

  // ---------- Losing ----------

  /** A content that the copy of the first disk should not have. */
  function Stale(x: Setting): nat {
    if x.disks == [] || TargetPath(x.disks[0]) !in x.source.files then 0
    else x.source.files[TargetPath(x.disks[0])] + 1
  }

  /** All commands work, and scp takes that content of a disk in use. */
  function WorkingSchedule(stale: nat): Schedule {
    Schedule(k => Choice(true, false, stale, Nil), 0, k => Choice(true, false, 0, Nil), 0)
  }

  ghost predicate AllWorking(c: Schedule) {
    forall k :: c.target(k).ok && c.source(k).ok
  }

  ghost predicate Takes(c: Schedule, stale: nat) {
    forall k :: c.target(k).content == stale
  }

  lemma WorkingStale(x: Setting, stale: nat)
    ensures AllWorking(WorkingSchedule(stale)) && Takes(WorkingSchedule(stale), stale)
  {
  }

  /** A setting that is not safe is lost by a run in which all commands work, if scp takes a stale content. */
  lemma UnsafeLost(x: Setting, c: Schedule)
    requires Sets(x) && x.vm in x.source.domains && !SafeSetting(x) && AllWorking(c)
    requires x.running ==> Takes(c, Stale(x))
    ensures Arrives(x, c.target, c.at) && !KeepsMachine(x, c)
  {
    hide *;
    SafeIs(x);
    SetsParts(x);
    WorkingArrives(x, c);
    ArrivedHolds(x, c);
    GetsIs(x);
    if x.running {
      StaleCopy(x, c);
    }
    var k := UndefinedMoment(x, c);
    LostMoment(x, c, k);
  }

  lemma LostMoment(x: Setting, c: Schedule, k: nat)
    requires x.vm in x.source.domains && k < |RunMoments(x, c)|
    requires x.vm !in RunMoments(x, c)[k].0.domains && RunMoments(x, c)[k].1 == Landing(x, c)
    requires !HoldsOriginal(x.source, x.source.domains[x.vm], Landing(x, c), x.vm)
    ensures !KeepsMachine(x, c)
  {
    hide RunMoments, Landing, SameDisk;
    assert !HoldsOriginal(x.source, x.source.domains[x.vm], RunMoments(x, c)[k].0, x.vm);
  }

  /** If all commands work, a run that can arrive does. */
  lemma WorkingArrives(x: Setting, c: Schedule)
    requires CanArrive(x) && AllWorking(c)
    ensures Arrives(x, c.target, c.at)
  {
    hide *;
    WorkingCopies(x, c, |x.disks|);
    RunParts(x, c);
    assert StepsOf(x)[..|x.disks|] == StepsOf(x);
    CanGo(x);
    ArrivesWhen(x, c);
    WorkingSettles(x, c, c.at + |CopyRun(x, c).events|, Behind(x.target, CopyRun(x, c).events));
  }

  lemma CanGo(x: Setting)
    requires CanArrive(x)
    ensures AllGo(StepsOf(x)) && forall i :: 0 <= i < |x.disks| ==> TargetPath(x.disks[i]) !in x.target.files
  {
    hide AllGo, TargetPath;
  }

  lemma WorkingSettles(x: Setting, c: Schedule, at: nat, mid: State)
    requires AllWorking(c)
    ensures Done(c.target, at, mid, Settling(x))
  {
    hide *;
    SettlingIs(x);
    WorksAt(c, at);
    WorksAt(c, at + 1);
    var define := Define(x.vm, NextOf(x.source, x.vm, x.disks, x.running), true);
    DoneIs(c.target, at, mid, Settling(x));
    if x.running {
      ExecuteOne(c.target, at, mid, define);
      SimpleWorks(c.target(at), mid, define);
    } else {
      var send := Send(RemoteXml(x.vm), x.text, true);
      ExecuteTwo(c.target, at, mid, send, define);
      SimpleWorks(c.target(at), mid, send);
      SimpleWorks(c.target(at + 1), Effect(c.target(at), mid, send), define);
    }
  }

  lemma WorksAt(c: Schedule, k: nat)
    requires AllWorking(c)
    ensures c.target(k).ok && c.source(k).ok
  {
  }

  lemma SimpleWorks(c: Choice, s: State, cmd: Command)
    requires c.ok && (cmd.Send? || cmd.Stop? || cmd.Undefine? || (cmd.Define? && cmd.same))
    ensures Works(c, s, cmd)
  {
  }

  /** If all commands work, the copies are made one by one: no path is taken. */
  lemma {:induction false} WorkingCopies(x: Setting, c: Schedule, i: nat)
    requires CanArrive(x) && AllWorking(c) && i <= |x.disks|
    ensures Execute(c.target, c.at, x.target, Plan(StepsOf(x)[..i])).done
  {
    hide *;
    RunParts(x, c);
    if i == 0 {
      assert StepsOf(x)[..0] == [];
      PlanNothing();
      ExecuteNothing(c.target, c.at, x.target);
    } else {
      var n := i - 1;
      WorkingCopies(x, c, n);
      CanGo(x);
      PartGoes(StepsOf(x), n);
      PlanNext(StepsOf(x), n);
      GoesAt(x, n);
      DisksSent(TripOf(x), x.pools, c.target, c.at, n);
      var e := Execute(c.target, c.at, x.target, Plan(StepsOf(x)[..n]));
      var mid := Behind(x.target, e.events);
      SendingStuck(TripOf(x), mid, e.events, x.disks[..n], TargetPaths(x.disks[..n]));
      PathFree(x, mid, n);
      ExecuteJoin(c.target, c.at, x.target, Plan(StepsOf(x)[..n]), StepsOf(x)[n].cmds);
      WorkingOne(c, c.at + |e.events|, mid, TargetPath(x.disks[n]), StepsOf(x)[n].cmds[1]);
    }
  }

  /** The commands of a disk that nothing stands in the way of. */
  lemma GoesAt(x: Setting, n: nat)
    requires AllGo(StepsOf(x)) && n < |x.disks|
    ensures var path := TargetPath(x.disks[n]);
            && path !in TargetPaths(x.disks[..n]) && path in x.source.files
            && StepsOf(x)[n].cmds == [Reserve(path), Send(path, x.source.files[path], !x.running)]
  {
    hide TargetPath, Ready;
    StepCommands(x.source, x.pools, x.running, x.disks[n], TargetPaths(x.disks[..n]));
    assert StepsOf(x)[n].go;
  }

  lemma PathFree(x: Setting, mid: State, n: nat)
    requires n < |x.disks| && NewOnly(x.target, mid, TargetPaths(x.disks[..n]))
    requires TargetPath(x.disks[n]) !in x.target.files && TargetPath(x.disks[n]) !in TargetPaths(x.disks[..n])
    ensures TargetPath(x.disks[n]) !in mid.files
  {
    hide TargetPath, TargetPaths;
  }

  lemma WorkingOne(c: Schedule, at: nat, mid: State, path: string, send: Command)
    requires AllWorking(c) && path !in mid.files && send.Send?
    ensures Execute(c.target, at, mid, [Reserve(path), send]).done
  {
    hide Execute, Effect;
    ExecuteTwo(c.target, at, mid, Reserve(path), send);
  }

  // ---------- Stale copies ----------

  /** Every file is one that was there, or has the stale content. */
  ghost predicate OnlyStale(was: State, s: State, stale: nat) {
    forall p :: p in s.files ==> p in was.files || s.files[p] == stale
  }

  predicate Harmless(cmd: Command) {
    cmd.Reserve? || cmd.Define? || (cmd.Send? && !cmd.exact)
  }

  lemma {:induction false} StaleRun(was: State, c: Schedule, at: nat, cmds: seq<Command>, stale: nat)
    requires Takes(c, stale) && forall k :: 0 <= k < |cmds| ==> Harmless(cmds[k])
    ensures OnlyStale(was, Behind(was, Execute(c.target, at, was, cmds).events), stale)
  {
    hide OnlyStale, Harmless, Execute, Further, Behind, Effect, Works;
    if cmds == [] {
      ExecuteNothing(c.target, at, was);
      EndMore(was, [], Event(Reserve(""), was));
      StaleStart(was, stale);
    } else {
      var n := |cmds| - 1;
      StaleRun(was, c, at, cmds[..n], stale);
      assert cmds == cmds[..n] + [cmds[n]];
      ExecuteMore(c.target, at, was, cmds[..n], cmds[n]);
      var x := Execute(c.target, at, was, cmds[..n]);
      if x.done {
        FurtherDone(c.target, at, was, x, cmds[n]);
        var s := Behind(was, x.events);
        EndMore(was, x.events, Event(cmds[n], Effect(c.target(at + |x.events|), s, cmds[n])));
        StaleStep(was, c.target(at + |x.events|), s, cmds[n], stale);
      } else {
        FurtherStuck(c.target, at, was, x, cmds[n]);
      }
    }
  }

  lemma StaleStart(was: State, stale: nat)
    ensures OnlyStale(was, was, stale)
  {
  }

  lemma StaleStep(was: State, c: Choice, s: State, cmd: Command, stale: nat)
    requires OnlyStale(was, s, stale) && c.content == stale && Harmless(cmd)
    ensures OnlyStale(was, Effect(c, s, cmd), stale)
  {
  }

  lemma {:induction false} PlanHarmless(steps: seq<Step>)
    requires forall i, k :: 0 <= i < |steps| && 0 <= k < |steps[i].cmds| ==> Harmless(steps[i].cmds[k])
    ensures forall k :: 0 <= k < |Plan(steps)| ==> Harmless(Plan(steps)[k])
  {
    hide Harmless;
    if steps != [] {
      PlanHarmless(steps[..|steps| - 1]);
    }
  }

  /** A live run gives no other commands to the target. */
  lemma LiveHarmless(x: Setting)
    requires x.running
    ensures forall k :: 0 <= k < |TargetCommands(x)| ==> Harmless(TargetCommands(x)[k])
  {
    hide *;
    RunPartsOf(x);
    forall i, k | 0 <= i < |StepsOf(x)| && 0 <= k < |StepsOf(x)[i].cmds| ensures Harmless(StepsOf(x)[i].cmds[k]) {
      StepHarmless(x, i, k);
    }
    PlanHarmless(StepsOf(x));
    SettlingHarmless(x);
  }

  lemma RunPartsOf(x: Setting)
    ensures TargetCommands(x) == Plan(StepsOf(x)) + if AllGo(StepsOf(x)) then Settling(x) + Tidying(x) else []
    ensures |StepsOf(x)| == |x.disks|
  {
    hide AllGo, Plan, Settling, Tidying;
  }

  lemma StepHarmless(x: Setting, i: nat, k: nat)
    requires x.running && i < |StepsOf(x)| && k < |StepsOf(x)[i].cmds|
    ensures Harmless(StepsOf(x)[i].cmds[k])
  {
    hide Ready, TargetPath, TargetPaths, SendStep;
    StepCommands(x.source, x.pools, x.running, x.disks[i], TargetPaths(x.disks[..i]));
  }

  lemma SettlingHarmless(x: Setting)
    requires x.running
    ensures forall k :: 0 <= k < |Settling(x) + Tidying(x)| ==> Harmless((Settling(x) + Tidying(x))[k])
  {
    hide NextOf, RemoteXml;
  }

  /** The copy of the first disk is stale. */
  lemma StaleCopy(x: Setting, c: Schedule)
    requires x.running && x.disks != [] && Takes(c, Stale(x)) && Arrives(x, c.target, c.at)
    ensures !CopyExact(TripOf(x), Landing(x, c), 0)
  {
    hide *;
    RunParts(x, c);
    ArrivesCan(x, c);
    CanGo(x);
    LiveHarmless(x);
    StaleRun(x.target, c, c.at, TargetCommands(x), Stale(x));
    StaleFirst(x, Landing(x, c));
  }

  lemma StaleFirst(x: Setting, t: State)
    requires x.disks != [] && OnlyStale(x.target, t, Stale(x)) && TargetPath(x.disks[0]) !in x.target.files
    ensures !CopyExact(TripOf(x), t, 0)
  {
    hide TargetPath;
  }

  // ---------- The source without the machine ----------

  /** The moment behind the undefining. */
  lemma UndefinedMoment(x: Setting, c: Schedule) returns (k: nat)
    requires x.undefine && Arrives(x, c.target, c.at) && AllWorking(c)
    ensures k < |RunMoments(x, c)| && x.vm !in RunMoments(x, c)[k].0.domains && RunMoments(x, c)[k].1 == Landing(x, c)
  {
    hide *;
    var i := UndefinedEvent(x, c);
    k := MomentAt(x, c, i);
  }

  lemma MomentAt(x: Setting, c: Schedule, i: nat) returns (k: nat)
    requires i < |SourceEvents(x, c)|
    ensures k < |RunMoments(x, c)| && RunMoments(x, c)[k] == (SourceEvents(x, c)[i].state, Landing(x, c))
  {
    hide TargetEvents, SourceEvents, Landing;
    k := |TargetEvents(x, c)| + i;
  }

  lemma UndefinedEvent(x: Setting, c: Schedule) returns (i: nat)
    requires x.undefine && Arrives(x, c.target, c.at) && AllWorking(c)
    ensures i < |SourceEvents(x, c)| && x.vm !in SourceEvents(x, c)[i].state.domains
  {
    hide *;
    var first, rest := RemovingSplits(x);
    EventsOf(x, c);
    ExecuteJoin(c.source, c.from, x.source, first, rest);
    WorksAt(c, c.from);
    WorksAt(c, c.from + 1);
    var undefine := Undefine(x.vm);
    if x.running {
      ExecuteTwo(c.source, c.from, x.source, Stop(x.vm), undefine);
      SimpleWorks(c.source(c.from), x.source, Stop(x.vm));
      StopUndefine(c.source(c.from), c.source(c.from + 1), x.source, x.vm);
      SimpleWorks(c.source(c.from + 1), Effect(c.source(c.from), x.source, Stop(x.vm)), undefine);
      i := 1;
    } else {
      ExecuteOne(c.source, c.from, x.source, undefine);
      SimpleWorks(c.source(c.from), x.source, undefine);
      UndefineGone(c.source(c.from), x.source, x.vm);
      i := 0;
    }
  }

  lemma EventsOf(x: Setting, c: Schedule)
    requires x.undefine && Arrives(x, c.target, c.at)
    ensures SourceEvents(x, c) == Execute(c.source, c.from, x.source, Removing(x)).events
  {
    hide Arrives, Removing, Execute;
  }

  lemma RemovingSplits(x: Setting) returns (first: seq<Command>, rest: seq<Command>)
    ensures Removing(x) == first + rest
    ensures first == if x.running then [Stop(x.vm), Undefine(x.vm)] else [Undefine(x.vm)]
  {
    hide Plan, DeleteSteps, DiskVolumes;
    first := if x.running then [Stop(x.vm), Undefine(x.vm)] else [Undefine(x.vm)];
    rest := Plan(DeleteSteps(x.dirs, x.source.domains - {x.vm}, DiskVolumes(x.disks)));
  }

  lemma StopUndefine(a: Choice, b: Choice, s: State, vm: string)
    requires b.ok
    ensures vm !in Effect(b, Effect(a, s, Stop(vm)), Undefine(vm)).domains
  {
  }

  lemma UndefineGone(c: Choice, s: State, vm: string)
    requires c.ok
    ensures vm !in Effect(c, s, Undefine(vm)).domains
  {
  }
}

// Runs of a migration that lose what they should keep, command by command.
module MigrationWitnesses {
  import opened Common
  import opened Strings
  import opened Pieces
  import opened Paths
  import opened Xml
  import opened DomainConfig
  import opened VMCloneEffect
  import opened Commands
  import opened PoolLookup
  import opened Provisioning
  import opened Migration
  import opened MigrationEffect
  import opened VMMigration
  import opened WitnessDocs
  import opened FileWitnesses

  // ---------- Runs of a migration of that machine ----------

  const POOLS := [Pool("p", "/p")]

  /** The machine is to be migrated to a host with that pool, and undefined on the source. */
  function Moving(dirs: Dirs, target: State, running: bool): Setting {
    Setting(dirs, STACKED, target, "n", POOLS, STACKED_DISKS, running, true, 7)
  }

  lemma MovingFields(dirs: Dirs, target: State, running: bool)
    ensures var x := Moving(dirs, target, running);
            && x.source == STACKED && x.target == target && x.vm == "n" && x.disks == STACKED_DISKS && x.pools == POOLS
            && x.running == running && x.undefine && x.dirs == dirs
            && TripOf(x) == Trip(STACKED, target, STACKED_DISKS, running)
            && StepsOf(x) == SendSteps(STACKED, POOLS, running, STACKED_DISKS)
  {
  }

  lemma MovingSets(dirs: Dirs, target: State, running: bool)
    ensures Sets(Moving(dirs, target, running)) && Describes(STACKED_DISKS, STACKED.domains["n"])
    ensures "n" in STACKED.domains
  {
    hide *;
    StackedParts();
    StackedFollowed();
    FollowedParts();
    StackedHeld();
    StackedClear();
    XmlCases("n");
    MovingFields(dirs, target, running);
    JourneyParts(dirs, STACKED, target, "n", STACKED_DISKS, running);
    NeverNothing(STACKED_DISKS, STACKED.domains["n"], Some(RemoteXml("n")));
    HasDeparted(JourneyOf(dirs, STACKED, target, "n", STACKED_DISKS, running, []));
    SetsIs(Moving(dirs, target, running));
  }

  /** Without a temporary file no path is in its way. */
  lemma NeverNothing(disks: seq<ConfigDisk>, doc: Forest, xml: Option<string>)
    requires ClearOf(disks, doc, xml)
    ensures ClearOf(disks, doc, None)
  {
    hide TargetPath, ConfigDisks, Chain, Clean;
  }

  lemma SetsIs(x: Setting)
    requires Departs(JourneyOf(x.dirs, x.source, x.target, x.vm, x.disks, x.running, []))
    ensures Sets(x)
  {
    hide Departs;
  }

  lemma HasDeparted(j: Journey)
    requires Followed(j.trip.source, j.vm, j.trip.disks) && j.vm in j.trip.source.domains
    requires HoldsOriginal(j.trip.source, j.trip.source.domains[j.vm], j.trip.source, j.vm)
    requires ClearOf(j.trip.disks, j.trip.source.domains[j.vm], j.xml)
    ensures Departs(j)
  {
    hide Followed, HoldsOriginal, ClearOf;
  }

  lemma InPool()
    ensures PoolTarget("/p/base", POOLS) == "/p" && PoolTarget("/p/over", POOLS) == "/p" && !Blank("/p")
  {
    hide *;
    PathsPlain();
    ThePaths();
    PoolDirClean();
    OnlyPool("/p/base", "base");
    OnlyPool("/p/over", "over");
  }

  lemma PoolDirClean()
    ensures Clean("/p") == "/p" && Rooted("/p") && !Blank("/p")
  {
    hide Clean, Blank;
    Words();
    SimplePath(["p"]);
    assert Join(["p"], '/') == "p" && "/" + "p" == "/p";
    RootedNotBlank("/p");
  }

  lemma OnlyPool(path: string, name: string)
    requires Clean(path) == path && !Blank(path) && Clean("/p") == "/p" && !Blank("/p") && path == "/p" + "/" + name
    ensures PoolTarget(path, POOLS) == "/p"
  {
    hide Clean, Blank;
    assert POOLS[..0] == [] && Best(path, []) == None;
    assert Matches(path, POOLS[0]);
    assert Best(path, POOLS) == Some(POOLS[0]);
  }

  lemma InDirectory()
    ensures Dir("/p/base") == "/p" && Dir("/p/over") == "/p"
  {
    hide *;
    ThePaths();
    SlashedDir();
    PrefixFront("/p/", "base");
    PrefixFront("/p/", "over");
    Fronts();
    DirIs("/p/base");
    DirIs("/p/over");
  }

  lemma Fronts()
    ensures "/p/" + "base" == "/p/base" && "/p/" + "over" == "/p/over" && '/' !in "base" && '/' !in "over"
    ensures "/p/"[|"/p/"| - 1] == '/' && "/p/" != ""
  {
  }

  lemma DirIs(path: string)
    ensures Dir(path) == Clean(PrefixOf(path))
  {
  }

  lemma {:induction false} PrefixFront(front: string, last: string)
    requires front != "" && front[|front| - 1] == '/' && '/' !in last
    ensures PrefixOf(front + last) == front
  {
    if last == "" {
      assert front + last == front;
    } else {
      var n := |last| - 1;
      PrefixFront(front, last[..n]);
      assert (front + last)[..|front| + n] == front + last[..n] && (front + last)[|front| + n] == last[n];
    }
  }

  lemma SlashedDir()
    ensures Clean("/p/") == "/p"
  {
    Words();
    SimpleTrim("p");
    assert "/p/" == "" + ['/'] + ("p" + ['/'] + "");
    SplitWord("", "p" + ['/'] + "", '/');
    SplitWord("p", "", '/');
    assert Split("", '/') == [""];
    hide Split;
    assert Split("/p/", '/') == ["", "p", ""];
    assert Resolve([""], true, ["p"]) == ["p"];
    assert Resolve(["p", ""], true, []) == ["p"];
    assert Resolve(["", "p", ""], true, []) == ["p"];
    hide Resolve;
    assert Join(["p"], '/') == "p";
  }

  /** Such a migration can arrive wherever its two paths are free. */
  lemma MovingCan(dirs: Dirs, target: State, running: bool)
    requires "/p/base" !in target.files && "/p/over" !in target.files
    ensures CanArrive(Moving(dirs, target, running))
  {
    hide *;
    MovingFields(dirs, target, running);
    StackedParts();
    StackedTargets();
    ListedFields();
    PathsPlain();
    ThePaths();
    InPool();
    InDirectory();
    PoolDirClean();
    DotShort();
    NotSeen(BASE_LISTED, OVER_LISTED);
    ReadyParts(BASE_LISTED, POOLS, {});
    ReadyParts(OVER_LISTED, POOLS, TargetPaths([BASE_LISTED]));
    TwoGo(Moving(dirs, target, running), BASE_LISTED, OVER_LISTED);
  }

  lemma DotShort()
    ensures "/p" != "."
  {
    assert |"/p"| == 2;
  }

  lemma NotSeen(c: ConfigDisk, d: ConfigDisk)
    requires TargetPath(c) != TargetPath(d)
    ensures TargetPath(d) !in TargetPaths([c]) && TargetPaths([]) == {}
  {
    hide TargetPath;
  }

  lemma TwoGo(x: Setting, c: ConfigDisk, d: ConfigDisk)
    requires x.disks == [c, d] && Ready(c, x.pools, {}) && Ready(d, x.pools, TargetPaths([c]))
    requires TargetPath(c) in x.source.files && TargetPath(d) in x.source.files
    requires TargetPath(c) !in x.target.files && TargetPath(d) !in x.target.files
    ensures CanArrive(x)
  {
    hide Ready, TargetPath, SendCommands;
    assert x.disks[..0] == [] && x.disks[..1] == [c] && TargetPaths([]) == {};
    assert x.disks[0] == c && x.disks[1] == d;
  }

  /** The target never gets the contents for certain: cold, the first disk is given the second one's copy. */
  lemma MovingLacks(dirs: Dirs, target: State, running: bool)
    ensures var x := Moving(dirs, target, running);
            x.vm in x.source.domains && !GetsContents(x) && !OwnContents(STACKED, STACKED_DISKS)
  {
    hide *;
    MovingFields(dirs, target, running);
    StackedParts();
    StackedTargets();
    OwnContentsIff(STACKED, STACKED_DISKS);
    GetsIs(Moving(dirs, target, running));
  }

  const NOTHING := State(map[], map[])

  /** A schedule of commands that all work, where scp takes something else than the first disk holds. */
  function Working(dirs: Dirs, running: bool): Schedule {
    WorkingSchedule(Stale(Moving(dirs, NOTHING, running)))
  }

  /** The run loses the machine: the logs are legal, it begins and arrives as it should, and at one moment no host has
      the machine with its contents. */
  ghost predicate LosesMachine(x: Setting, c: Schedule) {
    && Legal(c.target, x.target, TargetEvents(x, c)) && Legal(c.source, x.source, SourceEvents(x, c))
    && Begins(x.source, x.vm, Some(x.disks), x.pools, true) && Sets(x)
    && Arrives(x, c.target, c.at) && x.vm in x.source.domains && !KeepsMachine(x, c)
  }

  /** If the setting is not safe, a run in which every command works loses the machine. */
  lemma WorkingLoses(x: Setting)
    requires Sets(x) && CanArrive(x) && x.undefine && x.vm in x.source.domains && !GetsContents(x)
    requires Describes(x.disks, x.source.domains[x.vm]) && x.pools != []
    ensures LosesMachine(x, WorkingSchedule(Stale(x)))
  {
    hide *;
    var c := WorkingSchedule(Stale(x));
    SafeIs(x);
    WorkingStale(x, Stale(x));
    UnsafeLost(x, c);
    StartsAtOnce(Stale(x));
    EventsLegal(x, c);
    BeginsIs(x.source, x.vm, Some(x.disks), x.pools, true);
    LosesMachineIs(x, c);
  }

  lemma LosesMachineIs(x: Setting, c: Schedule)
    requires Legal(c.target, x.target, TargetEvents(x, c)) && Legal(c.source, x.source, SourceEvents(x, c))
    requires Begins(x.source, x.vm, Some(x.disks), x.pools, true) && Sets(x)
    requires Arrives(x, c.target, c.at) && x.vm in x.source.domains && !KeepsMachine(x, c)
    ensures LosesMachine(x, c)
  {
    hide Legal, Begins, Sets, Arrives, KeepsMachine, TargetEvents, SourceEvents;
  }

  lemma LosesMachineParts(x: Setting, c: Schedule)
    requires LosesMachine(x, c)
    ensures Arrives(x, c.target, c.at) && Sets(x) && x.vm in x.source.domains
  {
    hide Legal, Begins, Sets, Arrives, KeepsMachine, TargetEvents, SourceEvents;
  }

  /** The migrations of the stacked machine to an empty host. */
  lemma MovingLost(dirs: Dirs, running: bool)
    ensures LosesMachine(Moving(dirs, NOTHING, running), Working(dirs, running))
  {
    hide *;
    var x := Moving(dirs, NOTHING, running);
    MovingFields(dirs, NOTHING, running);
    MovingSets(dirs, NOTHING, running);
    EmptyFree();
    MovingCan(dirs, NOTHING, running);
    MovingLacks(dirs, NOTHING, running);
    HasPools();
    WorkingIs(dirs, running);
    WorkingLoses(x);
  }

  lemma EmptyFree()
    ensures "/p/base" !in NOTHING.files && "/p/over" !in NOTHING.files
  {
  }

  lemma HasPools()
    ensures POOLS != []
  {
  }

  lemma WorkingIs(dirs: Dirs, running: bool)
    ensures var c := Working(dirs, running);
            c == WorkingSchedule(Stale(Moving(dirs, NOTHING, running))) && c.at == 0 && c.from == 0
  {
    hide Stale, Moving;
  }

  lemma EventsLegal(x: Setting, c: Schedule)
    requires c.at == 0 && c.from == 0
    ensures Legal(c.target, x.target, TargetEvents(x, c)) && Legal(c.source, x.source, SourceEvents(x, c))
  {
    hide TargetCommands, SourceCommands, Execute, Legal;
    ExecutedLegal(c.target, x.target, TargetCommands(x));
    ExecutedLegal(c.source, x.source, SourceCommands(x, c));
  }

  /** A cold migration with removal loses this machine: the target's definition does not name the copy of the first
      disk, whose content is then nowhere under the machine. */
  lemma StackedLost(dirs: Dirs)
    ensures var x, c := Moving(dirs, NOTHING, false), Working(dirs, false);
            && LosesMachine(x, c)
            && x.vm in Landing(x, c).domains && |ConfigDisks(Landing(x, c).domains[x.vm])| == 2
            && ConfigDisks(Landing(x, c).domains[x.vm])[0].Path() != "/p/base"
  {
    hide *;
    var x, c := Moving(dirs, NOTHING, false), Working(dirs, false);
    MovingLost(dirs, false);
    LosesMachineParts(x, c);
    MovingFields(dirs, NOTHING, false);
    RunArrives(x, c);
    XmlCases("n");
    StackedParts();
    StackedFollowed();
    StackedTargets();
    NamesOwnCopy(TripOf(x), Landing(x, c), "n", 0);
    LandedDomain(x, c);
  }

  lemma LandedDomain(x: Setting, c: Schedule)
    requires Arrived(TripOf(x), Landing(x, c), x.vm, NextOf(x.source, x.vm, x.disks, x.running), XmlOf(x.vm, x.running))
    ensures x.vm in Landing(x, c).domains
  {
    hide Landing, Delivered, KeepsBut, ConfigDisks;
  }

  /** A live migration with removal loses it when scp reads the first disk while the guest writes: the copy is stale,
      and the original is given up. */
  lemma StaleLost(dirs: Dirs)
    ensures var x, c := Moving(dirs, NOTHING, true), Working(dirs, true);
            && LosesMachine(x, c)
            && |x.disks| == 2 && !CopyExact(TripOf(x), Landing(x, c), 0)
  {
    hide *;
    var x, c := Moving(dirs, NOTHING, true), Working(dirs, true);
    MovingLost(dirs, true);
    LosesMachineParts(x, c);
    MovingFields(dirs, NOTHING, true);
    StackedParts();
    WorkingIs(dirs, true);
    WorkingStale(x, Stale(x));
    StaleCopy(x, c);
  }

  // ---------- A backing file that is no disk ----------

  const LINKED := State(map["/p/base" := 1, "/p/over" := 2], map["n" := Domain([OVER])])

  /** The machine with only the disk on top, which is migrated without its backing file. */
  function MovingLinked(dirs: Dirs): Setting {
    Setting(dirs, LINKED, NOTHING, "n", POOLS, [OVER_LISTED], false, true, 7)
  }

  lemma LinkedFields(dirs: Dirs)
    ensures var x := MovingLinked(dirs);
            && x.source == LINKED && x.target == NOTHING && x.vm == "n" && x.disks == [OVER_LISTED] && x.pools == POOLS
            && !x.running && x.undefine && x.dirs == dirs && TripOf(x) == Trip(LINKED, NOTHING, [OVER_LISTED], false)
            && StepsOf(x) == SendSteps(LINKED, POOLS, false, [OVER_LISTED])
  {
  }

  lemma LinkedParts()
    ensures "n" in LINKED.domains && LINKED.domains["n"] == Domain([OVER])
    ensures "/p/base" in LINKED.files && "/p/over" in LINKED.files && NOTHING.files == map[]
  {
    ThePaths();
    hide Domain;
  }

  lemma OneTidy(d: Disk)
    requires !Blank(d.file)
    ensures TidyDomain(Domain([d]))
  {
    DomainRead([d]);
    hide Blank, Domain, DomainDevices, DiskRenaming.TidyDisks, DomainDoc;
  }

  lemma LinkedSets(dirs: Dirs)
    ensures Sets(MovingLinked(dirs)) && "n" in LINKED.domains && Describes([OVER_LISTED], LINKED.domains["n"])
    ensures ConfigDisks(LINKED.domains["n"]) == [Entry(OVER)]
  {
    hide *;
    LinkedParts();
    LinkedFields(dirs);
    DiskFields();
    Bases();
    ThePaths();
    PathsPlain();
    ListedFields();
    Chains();
    TemporaryElsewhere();
    CleanNothing();
    OneRead(OVER);
    OneTidy(OVER);
    TargetOf(OVER_LISTED);
    HeldSelf(LINKED, Entry(OVER));
    OneSets(LINKED, OVER_LISTED, Entry(OVER), RemoteXml("n"));
    XmlCases("n");
    JourneyParts(dirs, LINKED, NOTHING, "n", [OVER_LISTED], false);
    HasDeparted(JourneyOf(dirs, LINKED, NOTHING, "n", [OVER_LISTED], false, []));
    SetsIs(MovingLinked(dirs));
  }

  lemma OneSets(s: State, c: ConfigDisk, d: DiskEntry, xml: string)
    requires "n" in s.domains && TidyDomain(s.domains["n"]) && Describes([c], s.domains["n"])
    requires Rooted(c.path) && TrimSpace(c.path) == c.path && ConfigDisks(s.domains["n"]) == [d]
    requires SameDisk(s, d, s, d) && TargetPath(c) != xml && forall p :: p in Chain(d.backing) ==> Clean(p) != xml
    ensures Followed(s, "n", [c]) && HoldsOriginal(s, s.domains["n"], s, "n") && ClearOf([c], s.domains["n"], Some(xml))
  {
    hide TidyDomain, Describes, ConfigDisks, SameDisk, TargetPath, Chain, Clean, Rooted, TrimSpace;
  }

  lemma LinkedCan(dirs: Dirs)
    ensures CanArrive(MovingLinked(dirs))
  {
    hide *;
    LinkedParts();
    LinkedFields(dirs);
    ListedFields();
    PathsPlain();
    ThePaths();
    TargetOf(OVER_LISTED);
    InPool();
    InDirectory();
    PoolDirClean();
    DotShort();
    ReadyParts(OVER_LISTED, POOLS, {});
    OneGo(MovingLinked(dirs), OVER_LISTED);
  }

  lemma OneGo(x: Setting, c: ConfigDisk)
    requires x.disks == [c] && Ready(c, x.pools, {}) && TargetPath(c) in x.source.files && x.target.files == map[]
    ensures CanArrive(x)
  {
    hide Ready, TargetPath, SendCommands;
    assert x.disks[..0] == [] && TargetPaths([]) == {} && x.disks[0] == c;
  }

  /** The backing file is neither copied nor on the target. */
  lemma LinkedLacks(dirs: Dirs)
    ensures var x := MovingLinked(dirs); x.vm in x.source.domains && !GetsContents(x)
  {
    hide *;
    LinkedSets(dirs);
    LinkedParts();
    LinkedFields(dirs);
    Chains();
    ListedFields();
    PathsPlain();
    ThePaths();
    TargetOf(OVER_LISTED);
    GetsIs(MovingLinked(dirs));
    NotThere(TripOf(MovingLinked(dirs)), LINKED.domains["n"], OVER_LISTED, Entry(OVER), "/p/base");
  }

  lemma NotThere(trip: Trip, doc: Forest, c: ConfigDisk, d: DiskEntry, path: string)
    requires ConfigDisks(doc) == [d] && trip.disks == [c] && TargetPath(c) != path && Clean(path) == path && path != ""
    requires Chain(d.backing) == [path] && trip.target.files == map[]
    ensures !AllBackingThere(trip, doc)
  {
    hide ConfigDisks, TargetPath, Clean, Chain;
    assert path in Chain(ConfigDisks(doc)[0].backing);
    assert !BackingThere(trip, path);
  }

  /** A cold migration with removal loses a machine whose backing file is no disk of its own. */
  lemma BackingLeft(dirs: Dirs)
    ensures LosesMachine(MovingLinked(dirs), WorkingSchedule(Stale(MovingLinked(dirs))))
  {
    hide *;
    LinkedFields(dirs);
    LinkedSets(dirs);
    LinkedCan(dirs);
    LinkedLacks(dirs);
    HasPools();
    WorkingLoses(MovingLinked(dirs));
  }

  // ---------- The temporary file of a migration ----------

  const OCCUPIED := State(map[RemoteXml("n") := 5], map[])

  lemma OccupiedFree()
    ensures "/p/base" !in OCCUPIED.files && "/p/over" !in OCCUPIED.files && RemoteXml("n") in OCCUPIED.files
  {
    TemporaryElsewhere();
    hide RemoteXml;
  }

  /** A file at the path of the temporary file is gone behind a cold migration in which every command works. */
  lemma TemporaryFileLost(dirs: Dirs)
    ensures var x, c := Moving(dirs, OCCUPIED, false), WorkingSchedule(0);
            && Legal(c.target, x.target, TargetEvents(x, c)) && Begins(x.source, x.vm, Some(x.disks), x.pools, true)
            && Arrives(x, c.target, c.at) && RemoteXml("n") in x.target.files && RemoteXml("n") !in Landing(x, c).files
  {
    hide *;
    var x, c := Moving(dirs, OCCUPIED, false), WorkingSchedule(0);
    MovingFields(dirs, OCCUPIED, false);
    MovingSets(dirs, OCCUPIED, false);
    OccupiedFree();
    MovingCan(dirs, OCCUPIED, false);
    WorkingStale(x, 0);
    StartsAtOnce(0);
    WorkingArrives(x, c);
    WorksAt(c, c.at + |CopyRun(x, c).events| + 2);
    RunArrives(x, c);
    EventsLegal(x, c);
    BeginsIs(STACKED, "n", Some(STACKED_DISKS), POOLS, true);
    HasPools();
  }

  lemma StartsAtOnce(stale: nat)
    ensures WorkingSchedule(stale).at == 0 && WorkingSchedule(stale).from == 0
  {
  }
}

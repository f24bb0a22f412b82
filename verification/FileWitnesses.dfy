// Inputs at which a file is shared, unused, lost or overwritten: each meets what the general statement asks for.
module FileWitnesses {
  import opened Common
  import opened Strings
  import opened Paths
  import opened Xml
  import opened DomainConfig
  import opened DeviceValidation
  import opened CloneRewrite
  import opened CloneEffect
  import opened DiskRenaming
  import opened PoolLookup
  import opened Commands
  import opened Storage
  import opened Provisioning
  import opened VMCreation
  import opened VMClone
  import opened VMCloneEffect
  import opened Migration
  import opened MigrationEffect
  import opened WitnessDocs
  import opened Witnesses

  // ---------- A machine with two disks ----------

  const BASE := Disk("disk", "/p/base", "", "vda")
  const OVER := Disk("disk", "/p/over", "/p/base", "vdb")

  function ConfigOf(d: Disk): ConfigDisk { ConfigDisk(d.target, d.file, Entry(d).Base(), "p", d.device) }

  const BASE_LISTED := ConfigDisk("vda", "/p/base", "/p/base", "p", "disk")
  const OVER_LISTED := ConfigDisk("vdb", "/p/over", "/p/base", "p", "disk")

  lemma DiskFields()
    ensures BASE.device == OVER.device == "disk" && BASE.file == "/p/base" && OVER.file == "/p/over"
    ensures BASE_LISTED.pool == "p" && BASE_LISTED.path == "/p/base"
    ensures Entry(BASE).Base() == "/p/base" ==> ConfigOf(BASE) == BASE_LISTED
    ensures Entry(OVER).Base() == "/p/base" ==> ConfigOf(OVER) == OVER_LISTED
  {
    hide Innermost;
  }

  lemma Words()
    ensures |"p"| == 1 && |"base"| == 4 && "p" != "" && "base" != "." && "base" != "/" && '\\' !in "/p/base"
    ensures '/' !in "base" && "base" != ""
    ensures Simple("base") && Simple("over") && Simple("p")
  {
    assert "base"[0] == 'b' && "over"[0] == 'o' && "p"[0] == 'p';
  }

  lemma ThePaths()
    ensures "/p/base" == "/p" + "/" + "base" && "/p/over" == "/p" + "/" + "over"
    ensures "/p/base" != "/p/over" && "/p/base" != "" && "/p/over" != ""
  {
    assert "/p/base"[3] == 'b' && "/p/over"[3] == 'o';
  }

  /** The two paths are clean, absolute and without white space at their ends. */
  lemma PathsPlain()
    ensures Clean("/p/base") == "/p/base" && Rooted("/p/base") && TrimSpace("/p/base") == "/p/base" && !Blank("/p/base")
    ensures Clean("/p/over") == "/p/over" && Rooted("/p/over") && TrimSpace("/p/over") == "/p/over" && !Blank("/p/over")
  {
    hide *;
    Words();
    ThePaths();
    TwoParts("p", "base");
    TwoParts("p", "over");
    Joined();
  }

  lemma Joined()
    ensures "/" + "p" + "/" + "base" == "/p/base" && "/" + "p" + "/" + "over" == "/p/over"
  {
  }

  lemma Bases()
    ensures Entry(BASE).Base() == "/p/base" && Entry(OVER).Base() == "/p/base"
  {
    PathsPlain();
    BlankEmpty();
    hide Clean, Rooted, TrimSpace;
    assert FirstNonEmpty("", "") == "" && FirstNonEmpty("/p/base", "") == "/p/base"
      && FirstNonEmpty("/p/over", "") == "/p/over";
    assert Named(Store("", "", None)) == "" && Named(Store("/p/base", "", None)) == "/p/base";
  }

  lemma TwoEntries(c: Disk, d: Disk)
    ensures EntriesOf([c, d]) == [Entry(c), Entry(d)]
  {
    hide Entry;
    assert [c, d][0] == c && [c, d][1] == d;
  }

  lemma Lists(d: Disk)
    requires d.device == "disk" && d.file != ""
    ensures ListsDisk(ConfigOf(d), Entry(d))
  {
    hide Innermost;
  }

  lemma TwoDescribed(doc: Forest, c: ConfigDisk, d: ConfigDisk, e: DiskEntry, f: DiskEntry)
    requires ConfigDisks(doc) == [e, f] && ListsDisk(c, e) && ListsDisk(d, f)
    ensures Describes([c, d], doc)
  {
    hide ConfigDisks, ListsDisk;
    assert [c, d][0] == c && [c, d][1] == d && [e, f][0] == e && [e, f][1] == f;
  }

  lemma OneDescribed(doc: Forest, c: ConfigDisk, e: DiskEntry)
    requires ConfigDisks(doc) == [e] && ListsDisk(c, e)
    ensures Describes([c], doc)
  {
    hide ConfigDisks, ListsDisk;
  }

  /** Two disks as the agent lists them. */
  lemma TwoRead(c: Disk, d: Disk)
    requires c.device == d.device == "disk" && c.file != "" && d.file != ""
    ensures ConfigDisks(Domain([c, d])) == [Entry(c), Entry(d)] && AllDisks(Domain([c, d])) == [Entry(c), Entry(d)]
    ensures Describes([ConfigOf(c), ConfigOf(d)], Domain([c, d]))
    ensures !Blank(c.file) && !Blank(d.file) ==> TidyDomain(Domain([c, d]))
  {
    hide *;
    DomainRead([c, d]);
    DisksRead([c, d]);
    TwoEntries(c, d);
    Lists(c);
    Lists(d);
    TwoDescribed(Domain([c, d]), ConfigOf(c), ConfigOf(d), Entry(c), Entry(d));
    TwoTidy(c, d);
  }

  lemma TwoTidy(c: Disk, d: Disk)
    ensures !Blank(c.file) && !Blank(d.file) ==> TidyDomain(Domain([c, d]))
  {
    DomainRead([c, d]);
    hide Blank, Domain, DomainDevices, TidyDisks, DomainDoc;
  }

  lemma OneRead(d: Disk)
    requires d.device == "disk" && d.file != ""
    ensures ConfigDisks(Domain([d])) == [Entry(d)] && AllDisks(Domain([d])) == [Entry(d)]
    ensures Describes([ConfigOf(d)], Domain([d]))
  {
    hide *;
    DomainRead([d]);
    DisksRead([d]);
    OneEntry(d);
    Lists(d);
    OneDescribed(Domain([d]), ConfigOf(d), Entry(d));
  }

  lemma OneEntry(d: Disk)
    ensures EntriesOf([d]) == [Entry(d)]
  {
    hide Entry;
  }

  // ---------- The pool ----------

  predicate PoolP(dirs: Dirs) { "p" in dirs && dirs["p"] == "/p" }

  lemma ThePool(dirs: Dirs)
    requires PoolP(dirs)
    ensures "p" in dirs && dirs["p"] == "/p"
  {
  }

  /** The machine has the base as its first disk and the disk on top of it as its second. */
  const STACKED := State(map["/p/base" := 1, "/p/over" := 2], map["n" := Domain([BASE, OVER])])
  const STACKED_DISKS := [BASE_LISTED, OVER_LISTED]

  // ---------- A clone with a shared disk, and one with an unused copy ----------

  /** Asks for a copy of the base under this name. */
  function Copy(target: string): CloneDisk { CloneDisk("vda", "p", "/p/base", target) }

  const ONE_COPY := [Copy("c")]
  const TWO_COPIES := [Copy("c"), Copy("d")]

  lemma CopyWords()
    ensures Simple("c") && Simple("d") && Simple("vda") && "c" != "d" && "c" != "" && "d" != "" && "vda" != ""
    ensures "vda" != "vdb"
    ensures '/' !in "c" && '/' !in "d"
  {
    assert "c"[0] == 'c' && "d"[0] == 'd' && "vda"[2] == 'a' && "vdb"[2] == 'b';
    assert |"c"| == 1 && |"d"| == 1 && |"vda"| == 3;
  }

  lemma CopyTrims()
    ensures TrimSpace("c") == "c" && TrimSpace("d") == "d" && TrimSpace("vda") == "vda" && TrimSpace("p") == "p"
    ensures TrimSpace("base") == "base"
  {
    hide *;
    CopyWords();
    Words();
    SimpleTrim("c");
    SimpleTrim("d");
    SimpleTrim("vda");
    SimpleTrim("p");
    SimpleTrim("base");
  }

  lemma CopyPaths(dirs: Dirs)
    requires PoolP(dirs)
    ensures At(dirs, ("p", "c")) == "/p/c" && At(dirs, ("p", "d")) == "/p/d" && Proper(dirs, ("p", "c"))
    ensures Proper(dirs, ("p", "d"))
    ensures "/p/c" !in STACKED.files && "/p/d" !in STACKED.files && "/p/c" != "/p/d"
  {
    CopyTrims();
    CopyWords();
    Words();
    hide TrimSpace, Domain;
    assert |"/p/c"| == 4 && |"/p/base"| == 7 && |"/p/over"| == 7 && "/p/c"[3] == 'c' && "/p/d"[3] == 'd';
  }

  lemma CopySettled(target: string)
    requires TrimSpace(target) == target && target != ""
    ensures Settled(Copy(target), STACKED_DISKS) == Copy(target) && NamesItsDisk(Copy(target), STACKED_DISKS)
  {
    CopyTrims();
    CopyWords();
    ThePaths();
    PathsPlain();
    hide TrimSpace, Clean, Blank, Rooted;
    assert STACKED_DISKS[..1] == [BASE_LISTED] && STACKED_DISKS[..1][..0] == [];
    assert ByName([]) == map[];
    assert ByName([BASE_LISTED]) == map["vda" := BASE_LISTED];
    assert ByName(STACKED_DISKS) == map["vda" := BASE_LISTED, "vdb" := OVER_LISTED];
    hide ByName;
    assert |"p"| == 1;
  }

  lemma KeysDiffer()
    ensures TargetKey(Copy("c")) != TargetKey(Copy("d"))
  {
    assert TargetKey(Copy("c"))[2] == 'c' && TargetKey(Copy("d"))[2] == 'd';
  }

  lemma OneAccepted(c: CloneDisk, disks: seq<ConfigDisk>)
    requires Settled(c, disks) == c && NamesItsDisk(c, disks)
    ensures SettledAll([c], disks) == [c] && CloneAccepted([c], disks)
  {
    hide Settled, NamesItsDisk, TargetKey;
  }

  lemma TwoAccepted(c: CloneDisk, d: CloneDisk, disks: seq<ConfigDisk>)
    requires Settled(c, disks) == c && NamesItsDisk(c, disks) && Settled(d, disks) == d && NamesItsDisk(d, disks)
    requires TargetKey(c) != TargetKey(d)
    ensures SettledAll([c, d], disks) == [c, d] && CloneAccepted([c, d], disks)
  {
    hide Settled, NamesItsDisk, TargetKey;
    assert [c, d][0] == c && [c, d][1] == d;
  }

  lemma TheRequests()
    ensures ONE_COPY == [Copy("c")] && TWO_COPIES == [Copy("c"), Copy("d")]
  {
  }

  lemma CopiesAccepted()
    ensures SettledAll(ONE_COPY, STACKED_DISKS) == ONE_COPY && CloneAccepted(ONE_COPY, STACKED_DISKS)
    ensures SettledAll(TWO_COPIES, STACKED_DISKS) == TWO_COPIES && CloneAccepted(TWO_COPIES, STACKED_DISKS)
  {
    hide *;
    TheRequests();
    CopyTrims();
    CopyWords();
    CopySettled("c");
    CopySettled("d");
    KeysDiffer();
    OneAccepted(Copy("c"), STACKED_DISKS);
    TwoAccepted(Copy("c"), Copy("d"), STACKED_DISKS);
  }

  /** The clone as it comes out when every command works. */
  function After(dirs: Dirs, options: CloneRequest, items: seq<CloneDisk>, made: map<string, nat>): State {
    State(STACKED.files + made,
          STACKED.domains[options.name := CloneDoc(Filled(dirs, options, items), STACKED.domains["n"])])
  }

  /** Files and one definition are added. */
  lemma Added(was: State, now: State, vm: string, made: map<string, nat>, doc: Forest)
    requires now == State(was.files + made, was.domains[vm := doc]) && made.Keys !! was.files.Keys
    ensures Keeps(was, now.(domains := was.domains)) && OthersSame(was, now, vm)
  {
  }

  lemma OneNew(dirs: Dirs, was: State, now: State, v: (string, string), x: nat)
    requires now.files == was.files + map[At(dirs, v) := x] && At(dirs, v) !in was.files && Proper(dirs, v)
    ensures AllMade(dirs, was, now, [v], [x]) && NewOnly(was, now, PathsAt(dirs, [v]))
  {
    hide At, Proper;
    assert v in [v];
  }

  lemma TwoNew(dirs: Dirs, was: State, now: State, v: (string, string), w: (string, string), x: nat)
    requires now.files == was.files + map[At(dirs, v) := x, At(dirs, w) := x] && At(dirs, v) != At(dirs, w)
    requires At(dirs, v) !in was.files && Proper(dirs, v) && At(dirs, w) !in was.files && Proper(dirs, w)
    ensures AllMade(dirs, was, now, [v, w], [x, x]) && NewOnly(was, now, PathsAt(dirs, [v, w]))
  {
    hide At, Proper;
    assert [v, w][0] == v && [v, w][1] == w;
    assert MadeAt(dirs, was, now, v, x) && MadeAt(dirs, was, now, w, x);
    assert v in [v, w] && w in [v, w];
  }

  lemma AfterIs(dirs: Dirs, options: CloneRequest, items: seq<CloneDisk>, made: map<string, nat>) returns (doc: Forest)
    ensures After(dirs, options, items, made) == State(STACKED.files + made, STACKED.domains[options.name := doc])
  {
    StackedParts();
    hide STACKED, CloneDoc, Filled;
    doc := CloneDoc(Filled(dirs, options, items), STACKED.domains["n"]);
  }

  lemma CopiesMade(dirs: Dirs, options: CloneRequest)
    requires PoolP(dirs) && options.name !in STACKED.domains
    ensures Provisioned(dirs, STACKED, After(dirs, options, ONE_COPY, map["/p/c" := 1]), options.name, [("p", "c")],
                        [1])
    ensures Provisioned(dirs, STACKED, After(dirs, options, TWO_COPIES, map["/p/c" := 1, "/p/d" := 1]), options.name,
                        [("p", "c"), ("p", "d")], [1, 1])
  {
    hide *;
    CopyPaths(dirs);
    var one, two := map["/p/c" := 1], map["/p/c" := 1, "/p/d" := 1];
    var doc := AfterIs(dirs, options, ONE_COPY, one);
    var now := After(dirs, options, ONE_COPY, one);
    Added(STACKED, now, options.name, one, doc);
    OneNew(dirs, STACKED, now, ("p", "c"), 1);
    IsProvisioned(dirs, STACKED, now, options.name, [("p", "c")], [1]);
    doc := AfterIs(dirs, options, TWO_COPIES, two);
    now := After(dirs, options, TWO_COPIES, two);
    Added(STACKED, now, options.name, two, doc);
    TwoNew(dirs, STACKED, now, ("p", "c"), ("p", "d"), 1);
    IsProvisioned(dirs, STACKED, now, options.name, [("p", "c"), ("p", "d")], [1, 1]);
  }

  lemma IsProvisioned(dirs: Dirs, was: State, now: State, vm: string, made: seq<(string, string)>, contents: seq<nat>)
    requires Keeps(was, now.(domains := was.domains)) && OthersSame(was, now, vm)
    requires AllMade(dirs, was, now, made, contents) && NewOnly(was, now, PathsAt(dirs, made))
    ensures Provisioned(dirs, was, now, vm, made, contents)
  {
    hide Keeps, OthersSame, AllMade, NewOnly, PathsAt;
  }

  lemma TakenFromBase(dirs: Dirs, targets: seq<Pool>, name: string)
    requires PoolP(dirs) && SourcePool(Copy(name), targets) == "p"
    ensures SourceAt(dirs, Copy(name), targets) == "/p/base"
  {
    hide *;
    Words();
    CopyTrims();
    ThePaths();
    BaseOf("/p", "base");
    CopyFields(name);
    ThePool(dirs);
    AtSource(dirs, Copy(name), targets, "base");
  }

  lemma CopyFields(name: string)
    ensures Copy(name).sourcePath == "/p/base" && Copy(name).pool == "p" && Copy(name).targetName == name
  {
  }

  /** Both requests are taken by the source machine, and the clones below have all they ask for. */
  lemma BothCloned(dirs: Dirs, options: CloneRequest, targets: seq<Pool>)
    requires PoolP(dirs) && options.name !in STACKED.domains
    requires forall name :: SourcePool(Copy(name), targets) == "p"
    ensures Cloned(dirs, STACKED, After(dirs, options, ONE_COPY, map["/p/c" := 1]), "n", options, ONE_COPY, targets,
                   CloneRun(STACKED_DISKS, ONE_COPY, [1]))
    ensures Cloned(dirs, STACKED, After(dirs, options, TWO_COPIES, map["/p/c" := 1, "/p/d" := 1]), "n", options,
                   TWO_COPIES, targets, CloneRun(STACKED_DISKS, TWO_COPIES, [1, 1]))
  {
    hide *;
    CopiesAccepted();
    StackedParts();
    StackedFollowed();
    FollowedParts();
    CopiesMade(dirs, options);
    TheTargets();
    TakenFromBase(dirs, targets, "c");
    TakenFromBase(dirs, targets, "d");
    OneCopied(dirs, targets);
    TwoCopied(dirs, targets);
    IsCloned(dirs, options, ONE_COPY, targets, map["/p/c" := 1], [1]);
    IsCloned(dirs, options, TWO_COPIES, targets, map["/p/c" := 1, "/p/d" := 1], [1, 1]);
  }

  lemma FollowedParts()
    requires Followed(STACKED, "n", STACKED_DISKS)
    ensures Describes(STACKED_DISKS, STACKED.domains["n"]) && TidyDomain(STACKED.domains["n"])
  {
    hide Describes, TidyDomain, PlainPaths, STACKED, STACKED_DISKS;
  }

  lemma TheTargets()
    ensures CopyTargets(ONE_COPY) == [("p", "c")] && CopyTargets(TWO_COPIES) == [("p", "c"), ("p", "d")]
  {
    CopyTrims();
    hide TrimSpace;
  }

  lemma OneCopied(dirs: Dirs, targets: seq<Pool>)
    requires SourceAt(dirs, Copy("c"), targets) == "/p/base"
    ensures Copied(dirs, STACKED, ONE_COPY, targets, [1])
  {
    ThePaths();
    hide SourceAt, Copy, Domain;
  }

  lemma TwoCopied(dirs: Dirs, targets: seq<Pool>)
    requires SourceAt(dirs, Copy("c"), targets) == "/p/base" && SourceAt(dirs, Copy("d"), targets) == "/p/base"
    ensures Copied(dirs, STACKED, TWO_COPIES, targets, [1, 1])
  {
    ThePaths();
    hide SourceAt, Copy, Domain;
    assert TWO_COPIES[0] == Copy("c") && TWO_COPIES[1] == Copy("d");
  }

  lemma IsCloned(dirs: Dirs, options: CloneRequest, items: seq<CloneDisk>, targets: seq<Pool>, made: map<string, nat>,
                 contents: seq<nat>)
    requires "n" in STACKED.domains && Describes(STACKED_DISKS, STACKED.domains["n"])
    requires SettledAll(items, STACKED_DISKS) == items && CloneAccepted(items, STACKED_DISKS)
    requires Provisioned(dirs, STACKED, After(dirs, options, items, made), options.name, CopyTargets(items), contents)
    requires Copied(dirs, STACKED, items, targets, contents)
    ensures Cloned(dirs, STACKED, After(dirs, options, items, made), "n", options, items, targets,
                   CloneRun(STACKED_DISKS, items, contents))
  {
    hide STACKED, STACKED_DISKS, Describes, SettledAll, CloneAccepted, Provisioned, Copied, CopyTargets, CloneDoc,
      Filled, ConfigDisks;
  }

  /** A clone asked to copy the first of two disks keeps the second one's file: it is not a new machine's own. */
  lemma DiskShared(dirs: Dirs, options: CloneRequest, targets: seq<Pool>)
    requires PoolP(dirs) && options.name !in STACKED.domains && !Disconnects(options)
    requires forall name :: SourcePool(Copy(name), targets) == "p"
    ensures var now := After(dirs, options, ONE_COPY, map["/p/c" := 1]);
            && Cloned(dirs, STACKED, now, "n", options, ONE_COPY, targets, CloneRun(STACKED_DISKS, ONE_COPY, [1]))
            && !SharesNothing(STACKED, ConfigDisks(now.domains[options.name]))
  {
    hide *;
    BothCloned(dirs, options, targets);
    StackedFollowed();
    FollowedParts();
    StackedParts();
    ThePaths();
    Chains();
    NotEmptyFile();
    OnlyBaseCovered();
    var now, run := After(dirs, options, ONE_COPY, map["/p/c" := 1]), CloneRun(STACKED_DISKS, ONE_COPY, [1]);
    assert ConfigDisks(STACKED.domains["n"])[1] == Entry(OVER);
    CloneShares(dirs, STACKED, now, "n", options, ONE_COPY, targets, run);
  }

  lemma NotEmptyFile()
    ensures "" !in STACKED.files
  {
    ThePaths();
    hide Domain;
  }

  lemma OnlyBaseCovered()
    ensures !Covered(ONE_COPY, Entry(OVER)) && Entry(OVER).Path() == "/p/over"
  {
    Chains();
    ThePaths();
    CopyFields("c");
    hide Copy, Entry;
  }

  /** A clone asked twice for a copy of the same disk leaves the first copy unused. */
  lemma CopyUnused(dirs: Dirs, options: CloneRequest, targets: seq<Pool>)
    requires PoolP(dirs) && options.name !in STACKED.domains
    requires forall name :: SourcePool(Copy(name), targets) == "p"
    ensures var now := After(dirs, options, TWO_COPIES, map["/p/c" := 1, "/p/d" := 1]);
            && Cloned(dirs, STACKED, now, "n", options, TWO_COPIES, targets,
                      CloneRun(STACKED_DISKS, TWO_COPIES, [1, 1]))
            && "/p/c" in now.files && !UsesPath(now.domains[options.name], "/p/c")
  {
    hide *;
    BothCloned(dirs, options, targets);
    StackedFollowed();
    FollowedParts();
    StackedParts();
    FirstCopyStands(dirs, options);
    var now, run := After(dirs, options, TWO_COPIES, map["/p/c" := 1, "/p/d" := 1]),
      CloneRun(STACKED_DISKS, TWO_COPIES, [1, 1]);
    NotLast();
    OrphanCopy(dirs, STACKED, now, "n", options, TWO_COPIES, targets, run, 0);
    NothingDangles(options);
    FirstTarget(dirs);
  }

  lemma FirstCopyStands(dirs: Dirs, options: CloneRequest)
    ensures "/p/c" in After(dirs, options, TWO_COPIES, map["/p/c" := 1, "/p/d" := 1]).files
  {
    hide CloneDoc, Filled, Domain;
  }

  lemma NotLast()
    ensures |TWO_COPIES| == 2 && !LastFor(TWO_COPIES, TWO_COPIES[0].sourcePath, 0)
  {
    CopyFields("c");
    CopyFields("d");
    hide Copy;
    assert TWO_COPIES[1] == Copy("d") && TWO_COPIES[0] == Copy("c");
  }

  lemma FirstTarget(dirs: Dirs)
    requires PoolP(dirs)
    ensures |TWO_COPIES| == 2 && TargetAt(dirs, TWO_COPIES[0]) == "/p/c"
  {
    CopyPaths(dirs);
    CopyTrims();
    hide At, TrimSpace;
  }

  lemma NothingDangles(options: CloneRequest)
    requires ConfigDisks(STACKED.domains["n"]) == [Entry(BASE), Entry(OVER)]
    ensures !Dangling(TWO_COPIES, options, ConfigDisks(STACKED.domains["n"]), "/p/c")
  {
    hide *;
    Chains();
    assert |"/p/c"| == 4 && |"/p/base"| == 7 && |"/p/over"| == 7;
    NeitherDangles(TWO_COPIES, options, Entry(BASE), Entry(OVER), "/p/c");
  }

  lemma NeitherDangles(items: seq<CloneDisk>, options: CloneRequest, d: DiskEntry, e: DiskEntry, path: string)
    requires d.Path() != path && e.Path() != path
    ensures !Dangling(items, options, [d, e], path)
  {
    hide Disconnects, Covered;
  }

  // ---------- A disk that a later one is backed by ----------

  lemma StackedParts()
    ensures "n" in STACKED.domains && STACKED.domains["n"] == Domain([BASE, OVER])
    ensures "/p/base" in STACKED.files && STACKED.files["/p/base"] == 1
    ensures "/p/over" in STACKED.files && STACKED.files["/p/over"] == 2
    ensures |STACKED_DISKS| == 2 && STACKED_DISKS[0] == BASE_LISTED && STACKED_DISKS[1] == OVER_LISTED
    ensures STACKED_DISKS == [BASE_LISTED, OVER_LISTED]
  {
    ThePaths();
    hide Domain;
  }

  lemma ListedFields()
    ensures BASE_LISTED.path == BASE_LISTED.sourcePath == OVER_LISTED.sourcePath == "/p/base"
    ensures OVER_LISTED.path == "/p/over"
  {
  }

  lemma StackedFollowed()
    ensures Followed(STACKED, "n", STACKED_DISKS)
    ensures ConfigDisks(STACKED.domains["n"]) == [Entry(BASE), Entry(OVER)] && "n" in STACKED.domains
  {
    hide *;
    StackedParts();
    DiskFields();
    Bases();
    ThePaths();
    PathsPlain();
    ListedFields();
    TwoRead(BASE, OVER);
    TwoPlain(BASE_LISTED, OVER_LISTED);
    IsFollowed(STACKED, "n", STACKED_DISKS);
  }

  lemma TwoPlain(c: ConfigDisk, d: ConfigDisk)
    requires Rooted(c.path) && TrimSpace(c.path) == c.path && Rooted(d.path) && TrimSpace(d.path) == d.path
    ensures PlainPaths([c, d])
  {
    hide Rooted, TrimSpace;
  }

  lemma IsFollowed(source: State, vm: string, disks: seq<ConfigDisk>)
    requires vm in source.domains && TidyDomain(source.domains[vm]) && Describes(disks, source.domains[vm])
    requires PlainPaths(disks)
    ensures Followed(source, vm, disks)
  {
    hide TidyDomain, Describes, PlainPaths;
  }

  lemma StackedTargets()
    ensures TargetPath(BASE_LISTED) == "/p/base" && TargetPath(OVER_LISTED) == "/p/over"
    ensures DistinctTargets(STACKED_DISKS) && DistinctContents(STACKED, STACKED_DISKS) && BaseOfLater(STACKED_DISKS, 0)
  {
    hide *;
    StackedParts();
    ListedFields();
    PathsPlain();
    ThePaths();
    TargetOf(BASE_LISTED);
    TargetOf(OVER_LISTED);
    TwoTargets(STACKED, BASE_LISTED, OVER_LISTED);
  }

  lemma TargetOf(d: ConfigDisk)
    requires TrimSpace(d.path) == d.path && Clean(d.path) == d.path
    ensures TargetPath(d) == d.path
  {
    hide TrimSpace, Clean;
  }

  lemma TwoTargets(source: State, c: ConfigDisk, d: ConfigDisk)
    requires TargetPath(c) in source.files && TargetPath(d) in source.files
    requires TargetPath(c) != TargetPath(d) && source.files[TargetPath(c)] != source.files[TargetPath(d)]
    requires !Blank(d.sourcePath) && d.sourcePath == TrimSpace(c.path)
    ensures DistinctTargets([c, d]) && DistinctContents(source, [c, d]) && BaseOfLater([c, d], 0)
  {
    hide TargetPath, TrimSpace, Blank;
    assert [c, d][1] == d && [c, d][0] == c;
    assert !Blank([c, d][1].sourcePath);
  }

  lemma StackedHeld()
    ensures "n" in STACKED.domains && HoldsOriginal(STACKED, STACKED.domains["n"], STACKED, "n")
  {
    hide *;
    StackedFollowed();
    StackedParts();
    PathsPlain();
    Chains();
    HeldSelf(STACKED, Entry(BASE));
    HeldSelf(STACKED, Entry(OVER));
    HeldTwo(STACKED, "n", Entry(BASE), Entry(OVER));
  }

  lemma Chains()
    ensures Entry(BASE).Path() == "/p/base" && Chain(Entry(BASE).backing) == [""]
    ensures Entry(OVER).Path() == "/p/over" && Chain(Entry(OVER).backing) == ["/p/base"]
  {
    BlankEmpty();
    PathsPlain();
    hide Blank, Clean, TrimSpace, Rooted;
    assert Chain(None) == [];
  }

  lemma HeldSelf(s: State, d: DiskEntry)
    requires Clean(d.Path()) in s.files && forall p :: p in Chain(d.backing) && p != "" ==> Clean(p) in s.files
    ensures SameDisk(s, d, s, d)
  {
    hide Clean, Chain;
  }

  lemma HeldTwo(s: State, vm: string, d: DiskEntry, e: DiskEntry)
    requires vm in s.domains && ConfigDisks(s.domains[vm]) == [d, e] && SameDisk(s, d, s, d) && SameDisk(s, e, s, e)
    ensures HoldsOriginal(s, s.domains[vm], s, vm)
  {
    hide ConfigDisks, SameDisk;
  }

  lemma TemporaryElsewhere()
    ensures RemoteXml("n") != "/p/base" && RemoteXml("n") != "/p/over" && RemoteXml("n") != "."
  {
    assert RemoteXml("n")[1] == 't' && "/p/base"[1] == 'p' && "/p/over"[1] == 'p' && |"."| == 1;
  }

  lemma CleanNothing()
    ensures Clean("") == "."
  {
    DotComponents();
  }

  lemma StackedClear()
    ensures "n" in STACKED.domains && ClearOf(STACKED_DISKS, STACKED.domains["n"], Some(RemoteXml("n")))
  {
    hide *;
    StackedFollowed();
    StackedParts();
    StackedTargets();
    TemporaryElsewhere();
    CleanNothing();
    Chains();
    PathsPlain();
    ThePaths();
    ClearTwo(STACKED.domains["n"], BASE_LISTED, OVER_LISTED, Entry(BASE), Entry(OVER), RemoteXml("n"));
  }

  lemma ClearTwo(doc: Forest, c: ConfigDisk, d: ConfigDisk, e: DiskEntry, f: DiskEntry, xml: string)
    requires TargetPath(c) != xml && TargetPath(d) != xml && ConfigDisks(doc) == [e, f]
    requires forall p :: p in Chain(e.backing) ==> Clean(p) != xml
    requires forall p :: p in Chain(f.backing) ==> Clean(p) != xml
    ensures ClearOf([c, d], doc, Some(xml))
  {
    hide TargetPath, ConfigDisks, Chain, Clean;
  }
}

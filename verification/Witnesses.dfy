// Inputs at which the code does less than one might expect: each meets what the general statement asks for, and
// shows the failing case.
module Witnesses {
  import opened Common
  import opened Strings
  import opened Pieces
  import opened Paths
  import opened Xml
  import opened DeviceRewrite
  import opened DomainConfig
  import opened DeviceValidation
  import opened CloneRewrite
  import opened DiskRenaming
  import opened CloneSizes
  import opened PoolLookup
  import opened Provisioning
  import opened VMClone
  import opened VMCloneEffect
  import opened Ifcfg
  import opened WitnessDocs

  // ---------- Memory ----------

  /** The source states 2 GiB in MiB, and the request gives one size only. */
  lemma OneSizeOnly(c: CloneRequest, d: CloneRequest)
    requires SizesAccepted(c) && c.currentMemoryMB == 1 && c.maximumMemoryMB == 0
    requires SizesAccepted(d) && d.currentMemoryMB == 0 && d.maximumMemoryMB == 1
    ensures var t := Tag([Attr("unit", "MiB")], "2048");
            && StatesSize(t) && Bytes(t) == 2048 * MIB
            && Bytes(EditedTag(c, "currentMemory", t)) == 1024 * MIB
            && Bytes(EditedTag(d, "currentMemory", t)) == 2 * MIB
  {
    var t := Tag([Attr("unit", "MiB")], "2048");
    OneValue("unit", "MiB", "unit");
    Digits2048();
    CurrentStated(c, t);
    CurrentStated(d, t);
    hide ParseDecimal, EditedTag, AttrValue;
  }

  lemma Digits2048()
    ensures IsNumber("2048") && ParseDecimal("2048") == 2048
  {
    var s := "2048";
    assert s[..3] == "204" && s[..3][..2] == "20" && s[..3][..2][..1] == "2" && s[..3][..2][..1][..0] == "";
    assert ParseDecimal("2") == 2;
    assert ParseDecimal("20") == 20;
    assert ParseDecimal("204") == 204;
  }

  // ---------- CPUs ----------

  /** A machine with four CPUs. */
  const FOUR := Elem("domain", [], Elem("vcpu", [], Leaf(Text("4"), Nil), Elem("devices", [], Nil, Nil)), Nil)

  lemma FourRead()
    ensures DomainDoc(FOUR) && StatesCPU(RootKids(FOUR)) && TheTag(RootKids(FOUR), "vcpu") == Tag([], "4")
    ensures ParseDecimal("4") == 4 && AttrValue([], "current") == ""
  {
    assert |"vcpu"| == 4 && |"devices"| == 7 && |"domain"| == 6;
    assert "4"[..0] == "" && ParseDecimal("") == 0;
    assert IsNumber("4");
    assert RootKids(FOUR).next.next == Nil;
  }

  /** A request for two current CPUs and no maximum is accepted, and the clone has four. */
  lemma CurrentIgnored(c: CloneRequest)
    requires c.currentCPU == 2 && c.maximumCPU == 0 && c.currentMemoryMB == c.maximumMemoryMB == 0
    ensures var f := RootKids(CloneDoc(c, FOUR));
            SizesAccepted(c) && StatesCPU(f) && CurrentCPU(f) == MaximumCPU(f) == 4
  {
    hide *;
    FourRead();
    NoSizes(c);
    CloneCPU(c, FOUR);
    StatesTag(RootKids(FOUR));
    StatedIs();
    DocTag(c, FOUR, "vcpu");
    CPUTag(c, Tag([], "4"));
    FourCPUs(RootKids(CloneDoc(c, FOUR)));
  }

  lemma NoSizes(c: CloneRequest)
    requires c.currentCPU == 2 && c.maximumCPU == 0 && c.currentMemoryMB == c.maximumMemoryMB == 0
    ensures SizesAccepted(c)
  {
  }

  lemma StatesTag(f: Forest)
    requires StatesCPU(f)
    ensures OneText(f, "vcpu")
  {
  }

  lemma StatedIs()
    ensures IsStated("vcpu")
  {
  }

  lemma FourCPUs(f: Forest)
    requires StatesCPU(f) && OneText(f, "vcpu") && TheTag(f, "vcpu") == Tag([], "4")
    requires ParseDecimal("4") == 4 && AttrValue([], "current") == ""
    ensures CurrentCPU(f) == MaximumCPU(f) == 4
  {
    hide OneText, TheTag, ParseDecimal, IsNumber;
  }

  // ---------- A pool at the root ----------

  /** The file /p lies in the directory of a pool at the root, and the lookup does not find the pool. */
  lemma RootPool()
    ensures Components("/") <= Components("/p") && PoolName("/p", [Pool("r", "/")]) == ""
  {
    hide *;
    RootClean();
    NoMatch();
    NotFound("/p", Pool("r", "/"));
  }

  lemma RootClean()
    ensures Clean("/") == "/" && Rooted("/") && !Blank("/") && Components("/") == []
    ensures Clean("/p") == "/p" && Rooted("/p") && !Blank("/p") && Components("/p") == ["p"]
  {
    RootedComponents([]);
    assert "/" + Join([], '/') == "/";
    SimpleWords();
    SimpleTrim("p");
    RootedComponents(["p"]);
    assert "/" + Join(["p"], '/') == "/p";
    hide Clean, Components, Blank;
    RootedNotBlank("/");
    RootedNotBlank("/p");
  }

  lemma NoMatch()
    ensures !HasPoolPrefix("/p", "/")
  {
    assert "/p"[1] == 'p';
  }

  lemma NotFound(path: string, pool: Pool)
    requires Clean(path) == path && !Blank(path) && Clean(pool.path) == pool.path && !Blank(pool.path)
    requires !HasPoolPrefix(path, pool.path)
    ensures PoolName(path, [pool]) == ""
  {
    hide Clean, Blank, HasPoolPrefix;
    assert [pool][..0] == [] && Best(path, []) == None;
    assert Best(path, [pool]) == None;
  }

  // ---------- Configuration text ----------

  lemma LoneLines()
    ensures Lines("a\r\r\n") == ["a\r", ""]
  {
    assert "a\r\r\n" == "a\r\r" + "\n" + "";
    UncrlfLine("a\r\r", "");
    assert StripCR("a\r\r") == "a\r" && Uncrlf("") == "";
    hide Uncrlf, StripCR;
    SplitWord("a\r", "", '\n');
    SplitWord("", "", '\n');
    assert Uncrlf("a\r\r\n") == "a\r" + ['\n'] + "";
    hide Split;
    assert ["a\r"] + [""] == ["a\r", ""];
  }

  lemma LoneKept()
    ensures !NoneEndsInCR(Kept(["a\r", ""]))
  {
    LineKept();
    KeptMember(["a\r", ""], "a\r");
    hide Kept, IsKept;
    var kept := Kept(["a\r", ""]);
    assert ["a\r", ""][0] == "a\r";
    var i :| 0 <= i < |kept| && kept[i] == "a\r";
    assert EndsInCR(kept[i]);
  }

  lemma PlainServers()
    ensures AllFree(["x"], '\n') && AllFree(["y"], '\n')
  {
  }

  /** A line that ends in two carriage returns keeps one at the first rewrite and loses it at the second. */
  lemma LoneReturn()
    ensures Update(Update("a\r\r\n", ["x"]), ["y"]) != Update("a\r\r\n", ["y"])
  {
    hide *;
    LoneLines();
    LoneKept();
    PlainServers();
    LastRewriteWins("a\r\r\n", ["x"], ["y"]);
  }

  lemma LineKept()
    ensures IsKept("a\r")
  {
    hide TrimSpace, IsDnsText;
    StripOne();
    TrimStripped("a\r");
    assert Simple("a") by { assert "a"[0] == 'a'; }
    SimpleTrim("a");
    NoServer();
  }

  lemma StripOne()
    ensures StripCR("a\r") == "a"
  {
  }

  lemma NoServer()
    ensures !IsDnsText("a")
  {
    assert |"a"| == 1 && |"DNS"| == 3;
  }

  // ---------- Copies taken from another file ----------

  /** A disk in a subdirectory of a pool: the copy is taken from the file of the same name in the pool itself. */
  lemma SubdirectoryDisk(dirs: Dirs, d: CloneDisk, targets: seq<Pool>)
    requires "p" in dirs && dirs["p"] == "/p" && d.sourcePath == "/p/s/x" && SourcePool(d, targets) == "p"
    ensures !FromItself(dirs, d, targets) && SourceAt(dirs, d, targets) == "/p/x"
  {
    hide *;
    SimpleWords();
    SimpleTrim("p");
    SimpleTrim("x");
    assert "/p/s/x" == "/p/s" + "/" + "x";
    BaseOf("/p/s", "x");
    AtSource(dirs, d, targets, "x");
    DifferentPaths();
  }

  lemma SimpleWords()
    ensures Simple("p") && Simple("x")
  {
    assert "p"[0] == 'p' && "x"[0] == 'x';
  }

  lemma AtSource(dirs: Dirs, d: CloneDisk, targets: seq<Pool>, last: string)
    requires SourcePool(d, targets) == "p" && TrimSpace("p") == "p" && "p" in dirs && dirs["p"] == "/p"
    requires Base(d.sourcePath) == last && TrimSpace(last) == last
    ensures SourceAt(dirs, d, targets) == "/p" + "/" + last
    ensures FromItself(dirs, d, targets) <==> d.sourcePath == "/p" + "/" + last
  {
    hide SourcePool, Base, TrimSpace;
  }

  lemma DifferentPaths()
    ensures "/p" + "/" + "x" == "/p/x" && "/p/x" != "/p/s/x"
  {
    assert "/p/x"[3] == 'x' && "/p/s/x"[3] == 's';
  }

  // ---------- Targets ----------

  const PLAIN := Disk("disk", "/p/a", "", "vda")
  const DRIVE := Disk("cdrom", "", "", "sda")
  const NEW_DISK := NewDisk("n.img", "p", "sda", "virtio", "raw", 1)

  lemma OnlyFirst(d: DiskEntry, e: DiskEntry)
    requires d.device == "disk" && e.device != "disk"
    ensures NormalOnly([d, e]) == [d]
  {
    assert [d, e][1..] == [e] && [e][1..] == [];
    assert NormalOnly([e]) == NormalOnly([]);
  }

  /** What is read off the machine with a disk and a CDROM drive. */
  lemma DriveRead()
    ensures var doc := Domain([PLAIN, DRIVE]);
            && DomainDoc(doc) && PlainDisks(DomainDevices(doc))
            && AllDisks(doc) == [Entry(PLAIN), Entry(DRIVE)] && ConfigDisks(doc) == [Entry(PLAIN)]
  {
    DomainRead([PLAIN, DRIVE]);
    assert EntriesOf([PLAIN, DRIVE]) == [Entry(PLAIN), Entry(DRIVE)];
    assert |"disk"| == 4 && |"cdrom"| == 5;
    OnlyFirst(Entry(PLAIN), Entry(DRIVE));
    hide NormalOnly, Elements, PlainDisks, DomainDoc, DomainDevices, AllDisks, Domain;
  }

  lemma DriveNames()
    ensures var doc := Domain([PLAIN, DRIVE]); Distinct(Names(AllDisks(doc))) && Names(ConfigDisks(doc)) == ["vda"]
  {
    DriveRead();
    assert "vda"[0] == 'v' && "sda"[0] == 's';
    hide AllDisks, ConfigDisks, Domain;
    assert Names([Entry(PLAIN), Entry(DRIVE)]) == ["vda", "sda"] && Names([Entry(PLAIN)]) == ["vda"];
  }

  lemma DriveListed()
    ensures Describes([ConfigDisk("vda", "/p/a", Entry(PLAIN).Base(), "p", "disk")], Domain([PLAIN, DRIVE]))
  {
    DriveRead();
    hide ConfigDisks, Domain, TrimSpace;
    assert "/p/a" != "";
  }

  lemma LowerWords()
    ensures ToLower("raw") == "raw" && ToLower("n.img") == "n.img" && !EqualFold("raw", "qcow2")
    ensures HasSuffix("n.img", ".img") && '/' !in "n.img" && '\\' !in "n.img"
  {
    assert "n.img"[1..] == ".img" && |".img"| == 4 && |"raw"| == 3 && |"qcow2"| == 5;
  }

  lemma NewDiskFields()
    ensures Normalise(NEW_DISK) == NEW_DISK && FieldsOk(NEW_DISK)
  {
    hide TrimSpace, ToLower, EqualFold, HasSuffix;
    Untrimmed();
    LowerWords();
    assert |"raw"| == 3 && "raw" != "";
  }

  lemma Untrimmed()
    ensures TrimSpace("n.img") == "n.img" && TrimSpace("p") == "p" && TrimSpace("sda") == "sda"
    ensures TrimSpace("virtio") == "virtio" && TrimSpace("raw") == "raw" && TrimSpace("vda") == "vda"
  {
    assert IsTrimmed("n.img") && IsTrimmed("p") && IsTrimmed("sda") && IsTrimmed("virtio") && IsTrimmed("raw")
      && IsTrimmed("vda");
  }

  lemma FitsAlone(d: NewDisk, taken: set<string>, listing: map<string, set<string>>)
    requires FieldsOk(d) && d.target !in taken && d.pool in listing && d.name !in listing[d.pool]
    ensures Fits(d, [], taken, listing)
  {
    hide FieldsOk;
  }

  lemma NewDiskFits(listing: map<string, set<string>>, taken: set<string>)
    requires listing == map["p" := {}] && taken == {"vda"}
    ensures Fits(NEW_DISK, [], taken, listing)
  {
    hide Fits, FieldsOk, Normalise;
    NewDiskFields();
    assert "sda"[0] == 's' && "vda"[0] == 'v';
    FitsAlone(NEW_DISK, taken, listing);
  }

  lemma NewDiskAccepted(listing: map<string, set<string>>, taken: set<string>)
    requires listing == map["p" := {}] && taken == {"vda"}
    ensures NewDisksAccepted([NEW_DISK], taken, listing)
  {
    hide *;
    NewDiskFits(listing, taken);
    NewDiskFields();
    NothingNew([NEW_DISK], taken, listing);
    NextFits([NEW_DISK], 0, taken, listing);
    assert [NEW_DISK][..0] == [] && [NEW_DISK][0] == NEW_DISK;
  }

  lemma OneTaken()
    ensures Trimmed(["vda"]) == {"vda"} && Trimmed([]) == {}
  {
    Untrimmed();
    hide TrimSpace;
    assert forall n :: n in ["vda"] <==> n == "vda";
  }

  lemma DriveAccepted(e: DeviceEdit, config: seq<ConfigDisk>, listing: map<string, set<string>>, doc: Forest)
    requires e.deletedTargets == {} && e.newDisks == [DiskFragment("/p/n.img", "sda", "virtio", "raw")]
    requires DomainDoc(doc) && PlainDisks(DomainDevices(doc)) && Describes(config, doc)
    requires NewDisksAccepted([NEW_DISK], {"vda"}, listing) && Names(ConfigDisks(doc)) == ["vda"]
    ensures Accepted(e, [], [NEW_DISK], config, listing, doc)
  {
    OneTaken();
    NewDiskFields();
    hide DomainDoc, PlainDisks, DomainDevices, Describes, NewDisksAccepted, Names, ConfigDisks, Normalise, Trimmed,
      FieldsOk;
    assert DeletesAccepted([], config) && EditFor(e, [], [NEW_DISK]);
    hide DeletesAccepted, EditFor;
  }

  lemma HitsDrive(newDisks: seq<DiskFragment>)
    requires newDisks == [DiskFragment("/p/n.img", "sda", "virtio", "raw")]
    ensures HitsOtherDevice(newDisks, [Entry(PLAIN), Entry(DRIVE)])
  {
    assert |"cdrom"| == 5 && |"disk"| == 4;
    assert [Entry(PLAIN), Entry(DRIVE)][1] == Entry(DRIVE) && Entry(DRIVE).name == newDisks[0].target;
  }

  /** A new disk is accepted on the target of the CDROM drive, and the rewritten domain has that target twice. */
  lemma DriveTargetTwice(e: DeviceEdit, listing: map<string, set<string>>)
    requires e.deletedTargets == {} && e.newDisks == [DiskFragment("/p/n.img", "sda", "virtio", "raw")]
    requires listing == map["p" := {}]
    ensures var doc, config := Domain([PLAIN, DRIVE]), [ConfigDisk("vda", "/p/a", Entry(PLAIN).Base(), "p", "disk")];
            && Accepted(e, [], [NEW_DISK], config, listing, doc)
            && Distinct(Names(AllDisks(doc))) && !Distinct(Names(AllDisks(EditDevices(e, doc))))
  {
    hide *;
    var doc, config := Domain([PLAIN, DRIVE]), [ConfigDisk("vda", "/p/a", Entry(PLAIN).Base(), "p", "disk")];
    DriveRead();
    DriveNames();
    DriveListed();
    NewDiskAccepted(listing, {"vda"});
    DriveAccepted(e, config, listing, doc);
    HitsDrive(e.newDisks);
    AllTargetsStayDistinct(e, [], [NEW_DISK], config, listing, doc);
  }
}

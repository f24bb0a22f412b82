// Deletions that take a file another machine needs, command by command.
module DeletionWitnesses {
  import opened Common
  import opened Strings
  import opened Paths
  import opened Xml
  import opened DomainConfig
  import opened DeviceRewrite
  import opened DeviceEffect
  import opened DeviceValidation
  import opened Commands
  import opened Storage
  import opened Provisioning
  import opened VMCreation
  import opened Deletion
  import opened DeviceUpdate
  import opened CloneEffect
  import opened WitnessDocs
  import opened FileWitnesses

  // ---------- A template is deleted ----------

  lemma VolumeOfBase(dirs: Dirs)
    requires PoolP(dirs)
    ensures DiskVolumes([BASE_LISTED]) == [("p", "base")] && At(dirs, ("p", "base")) == "/p/base"
  {
    hide *;
    PathsPlain();
    DiskFields();
    Words();
    SimpleTrim("p");
    SimpleTrim("base");
    ThePaths();
    BaseOf("/p", "base");
    NoBackslash("/p/base");
    AtWords(dirs, "base");
    VolumeFields(BASE_LISTED, "p", "base");
    OneVolume(BASE_LISTED);
  }

  lemma NoBackslash(path: string)
    requires '\\' !in path
    ensures Slashed(path) == path
  {
  }

  lemma VolumeFields(d: ConfigDisk, pool: string, name: string)
    requires TrimSpace(d.pool) == pool && TrimSpace(d.path) == d.path && pool != "" && d.path != ""
    requires Slashed(d.path) == d.path && Base(d.path) == name && name != "." && name != "/"
    ensures DiskVolume(d) == (pool, name)
  {
    hide TrimSpace, Slashed, Base;
  }

  lemma OneVolume(d: ConfigDisk)
    ensures DiskVolumes([d]) == if DiskVolume(d) == ("", "") then [] else [DiskVolume(d)]
  {
    hide DiskVolume;
    assert [d][..0] == [];
  }

  lemma AtWords(dirs: Dirs, name: string)
    requires PoolP(dirs) && TrimSpace("p") == "p" && TrimSpace(name) == name
    ensures At(dirs, ("p", name)) == "/p" + "/" + name
  {
    hide TrimSpace;
  }

  /** Machine t is a template with disk /p/base, and the disk of machine o is backed by it. */
  const TEMPLATE := State(map["/p/base" := 1, "/p/over" := 2], map["t" := Domain([BASE]), "o" := Domain([OVER])])

  lemma Backed()
    ensures Depends(Domain([OVER]), "/p/base") && !UsesPath(Domain([OVER]), "/p/base")
  {
    hide *;
    DiskFields();
    ThePaths();
    OneRead(OVER);
    BackedEntry();
    NeedsOnly(Domain([OVER]), Entry(OVER), "/p/base");
  }

  lemma BackedEntry()
    ensures Entry(OVER).Needs("/p/base") && Entry(OVER).Path() == "/p/over"
  {
    BlankEmpty();
    PathsPlain();
    hide Blank, Clean, TrimSpace, Rooted;
    assert Chain(Entry(OVER).backing) == ["/p/base"] + Chain(None);
  }

  lemma NeedsOnly(doc: Forest, e: DiskEntry, path: string)
    requires ConfigDisks(doc) == [e] && AllDisks(doc) == [e] && e.Needs(path) && e.Path() != path
    ensures Depends(doc, path) && !UsesPath(doc, path)
  {
    hide ConfigDisks, AllDisks, Chain;
    assert AllDisks(doc)[0] == e;
  }

  /** All commands work. */
  const WORKING: Choices := k => Choice(true, false, 0, Nil)

  /** A look at a volume and its removal, when commands work. */
  lemma OneRemoved(dirs: Dirs, at: nat, s: State)
    requires PoolP(dirs) && "/p/base" in s.files && !Used(s.domains, "/p/base")
    ensures var v, path := ("p", "base"), "/p/base";
            var cmds := Plan(DeleteSteps(dirs, s.domains, [v]));
            && cmds == [List(Some(path)), Delete(path)] && MayGo(dirs, s.domains, v)
            && ListedIn(dirs, s.files.Keys, "p", "base")
            && var x := Execute(WORKING, at, s, cmds);
               x.done && Behind(s, x.events) == s.(files := s.files - {path})
  {
    hide *;
    PoolWords(dirs);
    BaseGoes(dirs, s);
    PlanOne(dirs, s.domains, ("p", "base"));
    var look, remove := List(Some("/p/base")), Delete("/p/base");
    ExecuteTwo(WORKING, at, s, look, remove);
    WorkingOk(at);
    WorkingOk(at + 1);
    TwoWork(WORKING(at), WORKING(at + 1), s, "/p/base");
    EndMore(s, [Event(look, s)], Event(remove, s.(files := s.files - {"/p/base"})));
    assert [Event(look, s)] + [Event(remove, s.(files := s.files - {"/p/base"}))]
        == [Event(look, s), Event(remove, s.(files := s.files - {"/p/base"}))];
  }

  lemma WorkingOk(k: nat)
    ensures WORKING(k).ok
  {
  }

  lemma TwoWork(a: Choice, b: Choice, s: State, path: string)
    requires a.ok && b.ok && path in s.files
    ensures Works(a, s, List(Some(path))) && Effect(a, s, List(Some(path))) == s
    ensures Works(b, s, Delete(path)) && Effect(b, s, Delete(path)) == s.(files := s.files - {path})
  {
  }

  lemma PoolWords(dirs: Dirs)
    requires PoolP(dirs)
    ensures TrimSpace("p") == "p" && TrimSpace("base") == "base" && "p" != "" && "base" != ""
    ensures FileIn(dirs, "p", "base") == Some("/p/base") && PathIn(dirs, "p", "base") == "/p/base"
  {
    hide TrimSpace;
    Words();
    SimpleTrim("p");
    SimpleTrim("base");
    ThePaths();
  }

  lemma BaseGoes(dirs: Dirs, s: State)
    requires TrimSpace("p") == "p" && TrimSpace("base") == "base" && "p" != "" && "base" != ""
    requires FileIn(dirs, "p", "base") == Some("/p/base") && PathIn(dirs, "p", "base") == "/p/base"
    requires !Used(s.domains, "/p/base") && "/p/base" in s.files
    ensures MayGo(dirs, s.domains, ("p", "base")) && ListedIn(dirs, s.files.Keys, "p", "base")
    ensures VolumeCommands(dirs, s.domains, ("p", "base")) == [List(Some("/p/base")), Delete("/p/base")]
  {
    hide TrimSpace, Used, IsIso, FileIn, PathIn;
  }

  lemma PlanOne(dirs: Dirs, domains: map<string, Forest>, v: (string, string))
    ensures Plan(DeleteSteps(dirs, domains, [v])) == VolumeCommands(dirs, domains, v)
  {
    hide VolumeCommands, MayGo;
    var steps := DeleteSteps(dirs, domains, [v]);
    assert steps[..0] == [] && Plan([]) == []
      && [] + VolumeCommands(dirs, domains, v) == VolumeCommands(dirs, domains, v);
  }

  lemma NotUsed(domains: map<string, Forest>, path: string)
    requires forall vm :: vm in domains ==> !UsesPath(domains[vm], path)
    ensures !Used(domains, path)
  {
    hide UsesPath;
  }

  lemma TakesOne(doc: Forest, was: State, now: State, path: string)
    requires path in was.files && path !in now.files && Depends(doc, path)
    ensures Loses(doc, was, now)
  {
    hide Depends;
  }

  /** Deleting the template, with every command working, removes the backing file of the other machine, whose definition
      no search for users of that file finds. */
  lemma BackingFileTaken(dirs: Dirs)
    requires PoolP(dirs)
    ensures var x := Execute(WORKING, 0, TEMPLATE, RemoveCommands(dirs, TEMPLATE, "t", [BASE_LISTED]));
            && MayDelete(TEMPLATE, "t", true, Some([BASE_LISTED])) && x.done && Legal(WORKING, TEMPLATE, x.events)
            && "o" in TEMPLATE.domains && !UsesPath(TEMPLATE.domains["o"], "/p/base")
            && Loses(TEMPLATE.domains["o"], TEMPLATE, Behind(TEMPLATE, x.events))
  {
    hide *;
    VolumeOfBase(dirs);
    Bases();
    ThePaths();
    Backed();
    DiskFields();
    OneRead(BASE);
    TemplateParts();
    TemplateLeft();
    MayDeleteIs(TEMPLATE, "t", [BASE_LISTED]);
    WorkingOk(0);
    var cmds := RemoveCommands(dirs, TEMPLATE, "t", [BASE_LISTED]);
    UndefineEffect(WORKING(0), TEMPLATE, "t");
    var mid := TEMPLATE.(domains := TEMPLATE.domains - {"t"});
    NotUsed(mid.domains, "/p/base");
    OneRemoved(dirs, 1, mid);
    UndefineFirst(dirs, mid, [BASE_LISTED]);
    ExecuteOne(WORKING, 0, TEMPLATE, Undefine("t"));
    ExecuteJoin(WORKING, 0, TEMPLATE, [Undefine("t")], Plan(DeleteSteps(dirs, mid.domains, [("p", "base")])));
    EndMore(TEMPLATE, [], Event(Undefine("t"), mid));
    assert [] + [Event(Undefine("t"), mid)] == [Event(Undefine("t"), mid)];
    ExecutedLegal(WORKING, TEMPLATE, cmds);
    TakesOne(TEMPLATE.domains["o"], TEMPLATE, Behind(TEMPLATE, Execute(WORKING, 0, TEMPLATE, cmds).events), "/p/base");
  }

  lemma TemplateParts()
    ensures "t" in TEMPLATE.domains && TEMPLATE.domains["t"] == Domain([BASE])
    ensures "o" in TEMPLATE.domains && TEMPLATE.domains["o"] == Domain([OVER])
    ensures "/p/base" in TEMPLATE.files
  {
    hide Domain;
    assert "t"[0] != "o"[0];
  }

  lemma TemplateLeft()
    ensures forall vm :: vm in TEMPLATE.domains - {"t"} ==> vm == "o"
  {
    hide Domain;
  }

  lemma MayDeleteIs(was: State, vm: string, disks: seq<ConfigDisk>)
    requires vm in was.domains && Describes(disks, was.domains[vm])
    ensures MayDelete(was, vm, true, Some(disks))
  {
    hide Describes;
  }

  lemma UndefineFirst(dirs: Dirs, mid: State, disks: seq<ConfigDisk>)
    requires mid.domains == TEMPLATE.domains - {"t"} && DiskVolumes(disks) == [("p", "base")]
    ensures RemoveCommands(dirs, TEMPLATE, "t", disks)
         == [Undefine("t")] + Plan(DeleteSteps(dirs, mid.domains, [("p", "base")]))
  {
    hide Plan, DeleteSteps, DiskVolumes, TEMPLATE;
  }

  // ---------- A backing file is deleted with a disk ----------

  const OWN := Disk("disk", "/p/own", "", "vdc")
  const OWN_LISTED := ConfigDisk("vdc", "/p/own", Entry(OWN).Base(), "p", "disk")

  /** Machine n has the base as its second disk, and the disk of machine o is backed by it. */
  const SHARED := State(map["/p/own" := 0, "/p/base" := 1, "/p/over" := 2],
                        map["n" := Domain([OWN, BASE]), "o" := Domain([OVER])])

  lemma SharedParts()
    ensures "n" in SHARED.domains && SHARED.domains["n"] == Domain([OWN, BASE])
    ensures "o" in SHARED.domains && SHARED.domains["o"] == Domain([OVER]) && "n" != "o"
    ensures "/p/base" in SHARED.files && forall vm :: vm in SHARED.domains ==> vm == "n" || vm == "o"
    ensures OWN.device == "disk" && OWN.file == "/p/own" && ConfigOf(OWN) == OWN_LISTED
  {
    hide Domain, Innermost;
    assert "n"[0] != "o"[0] && "/p/own"[3] == 'o';
  }

  lemma TargetWords()
    ensures TrimSpace("vda") == "vda" && TrimSpace("vdc") == "vdc" && "vda" != "vdc" && "vda" != "" && "vdc" != ""
    ensures NormalDevice("disk")
  {
    assert IsTrimmed("vda") && IsTrimmed("vdc") && "vda"[2] != "vdc"[2];
  }

  /** The request to delete the second disk is accepted, and gives one volume. */
  lemma DeleteBase(dirs: Dirs)
    requires PoolP(dirs)
    ensures DeletesAccepted(["vda"], [OWN_LISTED, BASE_LISTED])
    ensures ErasedVolumes(DeleteActions(["vda"], [OWN_LISTED, BASE_LISTED])) == [("p", "base")]
  {
    hide *;
    TargetWords();
    PathsPlain();
    BaseVolume(dirs);
    PairFields();
    PairIndexed(OWN_LISTED, BASE_LISTED);
    SecondDeleted(OWN_LISTED, BASE_LISTED);
    SecondErased(OWN_LISTED, BASE_LISTED);
  }

  lemma PairFields()
    ensures OWN_LISTED.name == "vdc" && BASE_LISTED.name == "vda" && BASE_LISTED.path == "/p/base"
    ensures OWN_LISTED.device == BASE_LISTED.device == "disk"
  {
    hide Innermost;
  }

  lemma PairIndexed(c: ConfigDisk, d: ConfigDisk)
    requires c.name != d.name && NormalDevice(c.device) && NormalDevice(d.device) && TrimSpace(c.name) == c.name != ""
    ensures ByName([c, d]) == map[c.name := c, d.name := d] && CountNormal([c, d]) == 2 && FirstNamed([c, d]) == c.name
  {
    hide TrimSpace, NormalDevice;
    assert [c, d][..1] == [c] && [c][..0] == [];
    assert ByName([]) == map[] && ByName([c]) == map[c.name := c];
    assert CountNormal([c]) == 1 && FirstNamed([c]) == c.name;
  }

  lemma SecondDeleted(c: ConfigDisk, d: ConfigDisk)
    requires ByName([c, d]) == map[c.name := c, d.name := d] && CountNormal([c, d]) == 2 && FirstNamed([c, d]) == c.name
    requires c.name != d.name && TrimSpace(d.name) == d.name != "" && NormalDevice(d.device) && !Blank(d.path)
    ensures DeletesAccepted([d.name], [c, d])
  {
    hide TrimSpace, Blank, NormalDevice, ByName, CountNormal, FirstNamed;
  }

  lemma SecondErased(c: ConfigDisk, d: ConfigDisk)
    requires ByName([c, d]) == map[c.name := c, d.name := d] && TrimSpace(d.name) == d.name
    requires DiskVolume(d).0 != "" && DiskVolume(d).1 != ""
    ensures ErasedVolumes(DeleteActions([d.name], [c, d])) == [DiskVolume(d)]
  {
    hide TrimSpace, ByName, DiskVolume;
    assert [d.name][..0] == [] && Trimmed([]) == {} && DeleteActions([], [c, d]) == [];
    assert DeleteActions([d.name], [c, d]) == [ActionFor(d)] && [ActionFor(d)][..0] == [] && ErasedVolumes([]) == [];
  }

  lemma BaseVolume(dirs: Dirs)
    requires PoolP(dirs)
    ensures DiskVolume(BASE_LISTED) == ("p", "base") && "p" != "" && "base" != ""
  {
    hide *;
    DiskFields();
    PathsPlain();
    Words();
    SimpleTrim("p");
    SimpleTrim("base");
    ThePaths();
    BaseOf("/p", "base");
    NoBackslash("/p/base");
    VolumeFields(BASE_LISTED, "p", "base");
  }

  /** The definition of machine n without the disk. */
  function Without(dirs: Dirs,
                   edit: DeviceEdit): Forest { EditDevices(FullEdit(dirs, edit, ["vda"], []), Domain([OWN, BASE])) }

  lemma WithoutBase(dirs: Dirs, edit: DeviceEdit)
    ensures !UsesPath(Without(dirs, edit), "/p/base")
  {
    hide *;
    SharedParts();
    DiskFields();
    TargetWords();
    DomainRead([OWN, BASE]);
    TwoRead(OWN, BASE);
    WithoutEdit(dirs, edit);
    ConfigDisksAfter(FullEdit(dirs, edit, ["vda"], []), Domain([OWN, BASE]));
    OneKept(Entry(OWN), Entry(BASE));
    PairEntries();
    OnlyOther(Without(dirs, edit), Entry(OWN), "/p/base");
  }

  lemma WithoutEdit(dirs: Dirs, edit: DeviceEdit)
    requires TrimSpace("vda") == "vda"
    ensures var e := FullEdit(dirs, edit, ["vda"], []); e.deletedTargets == {"vda"} && Entries(e.newDisks) == []
    ensures Without(dirs, edit) == EditDevices(FullEdit(dirs, edit, ["vda"], []), Domain([OWN, BASE]))
  {
    hide TrimSpace, EditDevices, Domain;
  }

  lemma PairEntries()
    ensures Entry(OWN).name == "vdc" && Entry(BASE).name == "vda" && Entry(BASE).device == "disk"
    ensures Entry(OWN).Path() == "/p/own" && "/p/own" != "/p/base"
  {
    assert "/p/own"[3] == 'o' && "/p/base"[3] == 'b';
  }

  lemma OneKept(c: DiskEntry, d: DiskEntry)
    ensures NormalDevice(d.device) && d.name == "vda" && c.name != "vda" ==> Keep([c, d], {"vda"}) == [c]
  {
    hide NormalDevice;
    assert [c, d][1..] == [d] && [d][1..] == [] && Keep([], {"vda"}) == [];
    assert NormalDevice(d.device) && d.name == "vda" ==> Keep([d], {"vda"}) == [];
  }

  lemma OnlyOther(doc: Forest, c: DiskEntry, path: string)
    requires ConfigDisks(doc) == [c] + [] && c.Path() != path
    ensures !UsesPath(doc, path)
  {
    hide ConfigDisks;
  }

  /** Deleting the disk of machine n, with every command working, removes the backing file of machine o: the request
      passes all checks, also those on the volume when its turn comes. */
  lemma BackingFileUpdated(dirs: Dirs, edit: DeviceEdit, listing: map<string, set<string>>)
    requires PoolP(dirs)
    ensures var config, next := [OWN_LISTED, BASE_LISTED], Without(dirs, edit);
            var there, info := Redefined(dirs, SHARED, "n", next, []), InfoOf(["vda"], config, listing);
            var cmds := [Define("n", next, true)] + Plan(DeleteSteps(dirs, there.domains, info.erase));
            var x := Execute(WORKING, 0, SHARED, cmds);
            && MayUpdate(SHARED, "n", ["vda"], [], Some(config), listing) && CanDeleteAll(dirs, there, info.erase)
            && x.done && Legal(WORKING, SHARED, x.events)
            && "o" in there.domains && Loses(there.domains["o"], there, Behind(SHARED, x.events))
  {
    hide *;
    var config, next := [OWN_LISTED, BASE_LISTED], Without(dirs, edit);
    var there := Redefined(dirs, SHARED, "n", next, []);
    SharedParts();
    DiskFields();
    Bases();
    ThePaths();
    Backed();
    TwoRead(OWN, BASE);
    DeleteBase(dirs);
    UpdateAllowed(config, listing);
    ThereIs(dirs, next);
    WithoutBase(dirs, edit);
    NotUsed(there.domains, "/p/base");
    OneRemoved(dirs, 1, there);
    OneCanGo(dirs, there);
    WorkingOk(0);
    DefineSame(WORKING(0), SHARED, "n", next);
    DefineEffect(WORKING(0), SHARED, "n", next, true);
    ExecuteOne(WORKING, 0, SHARED, Define("n", next, true));
    ExecuteJoin(WORKING, 0, SHARED, [Define("n", next, true)], Plan(DeleteSteps(dirs, there.domains, [("p", "base")])));
    EndMore(SHARED, [], Event(Define("n", next, true), there));
    assert [] + [Event(Define("n", next, true), there)] == [Event(Define("n", next, true), there)];
    var cmds := [Define("n", next, true)] + Plan(DeleteSteps(dirs, there.domains, [("p", "base")]));
    ExecutedLegal(WORKING, SHARED, cmds);
    TakesOne(there.domains["o"], there, Behind(SHARED, Execute(WORKING, 0, SHARED, cmds).events), "/p/base");
  }

  lemma UpdateAllowed(config: seq<ConfigDisk>, listing: map<string, set<string>>)
    requires "n" in SHARED.domains && Describes(config, SHARED.domains["n"]) && DeletesAccepted(["vda"], config)
    requires ErasedVolumes(DeleteActions(["vda"], config)) == [("p", "base")]
    ensures MayUpdate(SHARED, "n", ["vda"], [], Some(config), listing)
    ensures InfoOf(["vda"], config, listing).erase == [("p", "base")]
  {
    hide Describes, DeletesAccepted, SHARED, ConfigDisks, Trimmed, ErasedVolumes, DeleteActions;
  }

  lemma ThereIs(dirs: Dirs, next: Forest)
    requires "n" in SHARED.domains && "o" in SHARED.domains && "n" != "o"
    ensures Redefined(dirs, SHARED, "n", next, []) == SHARED.(domains := SHARED.domains["n" := next])
    ensures SHARED.domains["n" := next]["o"] == SHARED.domains["o"]
  {
    hide SHARED;
  }

  lemma OneCanGo(dirs: Dirs, s: State)
    requires MayGo(dirs, s.domains, ("p", "base")) && ListedIn(dirs, s.files.Keys, "p", "base")
    ensures CanDeleteAll(dirs, s, [("p", "base")])
  {
    PoolTrims();
    hide MayGo, ListedIn, TrimSpace;
    assert [("p", "base")][..0] == [] && PathsAt(dirs, []) == {} && s.files.Keys - {} == s.files.Keys;
  }

  lemma PoolTrims()
    ensures TrimSpace("p") == "p" && TrimSpace("base") == "base"
  {
    hide *;
    Words();
    SimpleTrim("p");
    SimpleTrim("base");
  }
}

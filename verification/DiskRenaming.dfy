// How renaming disk sources shows in the configuration read back from the rewritten document.
module DiskRenaming {
  import opened Common
  import opened Strings
  import opened Xml
  import opened DomainConfig
  import opened CloneRewrite
  import opened CloneEffect

  /** Before and after below a backing store: nothing that names its files changes. */
  predicate SameStores(f: Forest, g: Forest) {
    match f
    case Nil => g.Nil?
    case Leaf(_, next) => g.Leaf? && SameStores(next, g.next)
    case Elem(n, a, kids, next) =>
      && g.Elem? && g.name == n && g.attrs == a
      && SameStores(next, g.next) && (n == "backingStore" ==> SameStores(kids, g.kids))
  }

  /** The children of a disk before and after: only source elements change, as DiskSourceAttrs says. */
  predicate RenamedKids(c: CloneRequest, f: Forest, g: Forest) {
    match f
    case Nil => g.Nil?
    case Leaf(_, next) => g.Leaf? && RenamedKids(c, next, g.next)
    case Elem(n, a, kids, next) =>
      && g.Elem? && g.name == n && g.attrs == (if n == "source" then DiskSourceAttrs(c, a) else a)
      && RenamedKids(c, next, g.next) && (n == "backingStore" ==> SameStores(kids, g.kids))
  }

  lemma {:induction false} SameStoresAttr(f: Forest, g: Forest, attr: string, init: string)
    requires SameStores(f, g)
    ensures ChildAttr(g, "source", attr, init) == ChildAttr(f, "source", attr, init)
  {
    hide HasAttr, AttrValue;
    match f
    case Nil =>
    case Leaf(_, next) => SameStoresAttr(next, g.next, attr, init);
    case Elem(n, a, _, next) =>
      SameStoresAttr(next, g.next, attr, if n == "source" && HasAttr(a, attr) then AttrValue(a, attr) else init);
  }

  lemma {:induction false} SameStoresRead(f: Forest, g: Forest, init: Option<Store>)
    requires SameStores(f, g)
    ensures ReadStore(g, init) == ReadStore(f, init)
  {
    hide ChildAttr;
    match f
    case Nil =>
    case Leaf(_, next) => SameStoresRead(next, g.next, init);
    case Elem(n, _, kids, next) =>
      if n == "backingStore" {
        var current := Current(init);
        SameStoresAttr(kids, g.kids, "file", current.file);
        SameStoresAttr(kids, g.kids, "dev", current.dev);
        SameStoresRead(kids, g.kids, current.next);
        SameStoresRead(next, g.next, Some(ReadInto(kids, current)));
      } else {
        SameStoresRead(next, g.next, init);
      }
  }

  /** The backing chain of a disk stays. */
  lemma {:induction false} RenamedStore(c: CloneRequest, f: Forest, g: Forest, init: Option<Store>)
    requires RenamedKids(c, f, g)
    ensures ReadStore(g, init) == ReadStore(f, init)
  {
    hide ChildAttr, DiskSourceAttrs, SameStores;
    match f
    case Nil =>
    case Leaf(_, next) => RenamedStore(c, next, g.next, init);
    case Elem(n, _, kids, next) =>
      if n == "backingStore" {
        var current := Current(init);
        SameStoresAttr(kids, g.kids, "file", current.file);
        SameStoresAttr(kids, g.kids, "dev", current.dev);
        SameStoresRead(kids, g.kids, current.next);
        RenamedStore(c, next, g.next, Some(ReadInto(kids, current)));
      } else {
        RenamedStore(c, next, g.next, init);
      }
  }

  /** The children of devices before and after. */
  predicate RenamedDevices(c: CloneRequest, f: Forest, g: Forest) {
    match f
    case Nil => g.Nil?
    case Leaf(_, next) => g.Leaf? && RenamedDevices(c, next, g.next)
    case Elem(n, a, kids, next) =>
      && g.Elem? && g.name == n && RenamedDevices(c, next, g.next)
      && (n == "disk" ==> g.attrs == a && RenamedKids(c, kids, g.kids))
  }

  predicate NoChild(f: Forest, name: string) {
    match f
    case Nil => true
    case Leaf(_, next) => NoChild(next, name)
    case Elem(n, _, _, next) => n != name && NoChild(next, name)
  }

  /** Source paths are absent or not blank, and attribute names are unique. */
  predicate Neat(a: seq<Attr>) {
    && UniqueNames(a)
    && (AttrValue(a, "file") == "" || !Blank(AttrValue(a, "file")))
    && (AttrValue(a, "dev") == "" || !Blank(AttrValue(a, "dev")))
  }

  /** At most one source child, and that one neat. */
  predicate TidyDisk(f: Forest) {
    match f
    case Nil => true
    case Leaf(_, next) => TidyDisk(next)
    case Elem(n, a, _, next) => if n == "source" then Neat(a) && NoChild(next, "source") else TidyDisk(next)
  }

  predicate TidyDisks(f: Forest) {
    match f
    case Nil => true
    case Leaf(_, next) => TidyDisks(next)
    case Elem(n, _, kids, next) => (n == "disk" ==> TidyDisk(kids)) && TidyDisks(next)
  }

  /** The attributes of the only source child. */
  function SourceOf(f: Forest): seq<Attr> {
    match f
    case Nil => []
    case Leaf(_, next) => SourceOf(next)
    case Elem(n, a, _, next) => if n == "source" then a else SourceOf(next)
  }

  lemma {:induction false} NoAttrValue(a: seq<Attr>, name: string)
    ensures !HasAttr(a, name) ==> AttrValue(a, name) == ""
  {
    if a != [] {
      NoAttrValue(a[1..], name);
      assert HasAttr(a[1..], name) ==> HasAttr(a, name);
      assert a[0].name == name ==> HasAttr(a, name);
    }
  }

  lemma {:induction false} NoChildAttr(f: Forest, elem: string, attr: string, init: string)
    requires NoChild(f, elem)
    ensures ChildAttr(f, elem, attr, init) == init
  {
    match f
    case Nil =>
    case Leaf(_, next) => NoChildAttr(next, elem, attr, init);
    case Elem(_, _, _, next) => NoChildAttr(next, elem, attr, init);
  }

  lemma {:induction false} TidySource(f: Forest, attr: string)
    requires TidyDisk(f)
    ensures ChildAttr(f, "source", attr, "") == AttrValue(SourceOf(f), attr)
    ensures SourceOf(f) == [] || Neat(SourceOf(f))
  {
    hide Neat;
    match f
    case Nil =>
    case Leaf(_, next) => TidySource(next, attr);
    case Elem(n, a, _, next) =>
      if n == "source" {
        NoAttrValue(a, attr);
        NoChildAttr(next, "source", attr, AttrValue(a, attr));
      } else {
        TidySource(next, attr);
      }
  }

  lemma {:induction false} RenamedChildren(c: CloneRequest, f: Forest, g: Forest, init: string)
    requires RenamedKids(c, f, g) && TidyDisk(f)
    ensures ChildAttr(g, "target", "dev", init) == ChildAttr(f, "target", "dev", init)
    ensures NoChild(f, "source") ==> NoChild(g, "source")
    ensures if NoChild(f, "source") then SourceOf(g) == [] else SourceOf(g) == DiskSourceAttrs(c, SourceOf(f))
  {
    hide DiskSourceAttrs, Neat, HasAttr, AttrValue;
    match f
    case Nil =>
    case Leaf(_, next) => RenamedChildren(c, next, g.next, init);
    case Elem(n, a, _, next) =>
      assert "source"[0] != "target"[0];
      if n == "source" {
        NoSourceTidy(next);
      }
      RenamedChildren(c, next, g.next, if n == "target" && HasAttr(a, "dev") then AttrValue(a, "dev") else init);
  }

  lemma {:induction false} NoSourceTidy(f: Forest)
    requires NoChild(f, "source")
    ensures TidyDisk(f)
  {
    match f
    case Nil =>
    case Leaf(_, next) => NoSourceTidy(next);
    case Elem(_, _, _, next) => NoSourceTidy(next);
  }

  /** A renamed source is where ChildAttr looks for it. */
  lemma {:induction false} RenamedSource(c: CloneRequest, f: Forest, g: Forest, attr: string)
    requires RenamedKids(c, f, g) && TidyDisk(f) && !NoChild(f, "source")
    ensures ChildAttr(g, "source", attr, "") == AttrValue(DiskSourceAttrs(c, SourceOf(f)), attr)
  {
    hide DiskSourceAttrs, Neat, HasAttr, AttrValue;
    match f
    case Leaf(_, next) => RenamedSource(c, next, g.next, attr);
    case Elem(n, a, _, next) =>
      if n == "source" {
        NoSourceTidy(next);
        RenamedChildren(c, next, g.next, "");
        NoAttrValue(g.attrs, attr);
        NoChildAttr(g.next, "source", attr, AttrValue(g.attrs, attr));
      } else {
        RenamedSource(c, next, g.next, attr);
      }
  }

  function PathOfAttrs(a: seq<Attr>): string {
    if AttrValue(a, "file") == "" then AttrValue(a, "dev") else AttrValue(a, "file")
  }

  lemma NeatPath(a: seq<Attr>)
    requires Neat(a)
    ensures SourcePath(a) == PathOfAttrs(a)
  {
    BlankEmpty();
    hide Blank;
  }

  lemma RenamedPath(c: CloneRequest, a: seq<Attr>)
    requires Neat(a) && CopiesNamed(c)
    ensures PathOfAttrs(DiskSourceAttrs(c, a)) == Renamed(c, PathOfAttrs(a))
  {
    NeatPath(a);
    SourceRenamed(c, a);
    NeatStays(c, a);
    BlankEmpty();
    hide Blank, DiskSourceAttrs, Renamed, UniqueNames, AttrValue;
  }

  lemma NeatStays(c: CloneRequest, a: seq<Attr>)
    requires Neat(a) && CopiesNamed(c)
    ensures var b := DiskSourceAttrs(c, a);
            && (AttrValue(b, "file") == "" || !Blank(AttrValue(b, "file")))
            && (AttrValue(b, "dev") == "" || !Blank(AttrValue(b, "dev")))
  {
    var path, copy := SourcePath(a), Lookup(c.diskPaths, SourcePath(a));
    assert "file"[0] != "dev"[0];
    hide Blank, AttrValue, UniqueNames, Disconnect, SetAttr, ReplaceAttrValue, RemoveSourcePath;
    RemovedValue(a, "file");
    RemovedValue(a, "dev");
    SetAttrValue(a, "file", copy, "file");
    SetAttrValue(a, "file", copy, "dev");
    if HasAttrValue(a, "file", path) {
      ReplacedValue(a, "file", path, copy, "file");
      ReplacedValue(a, "file", path, copy, "dev");
    } else if HasAttrValue(a, "dev", path) {
      ReplacedValue(a, "dev", path, copy, "file");
      ReplacedValue(a, "dev", path, copy, "dev");
    }
  }

  /** Same device, target and backing chain, renamed path. */
  predicate EntryRenamed(c: CloneRequest, before: DiskEntry, after: DiskEntry) {
    && after.device == before.device && after.name == before.name && after.backing == before.backing
    && after.Path() == Renamed(c, before.Path())
  }

  /** Paths of a disk before and after, whether or not it has a source. */
  lemma RenamedEntryPath(c: CloneRequest, kids: Forest, renamed: Forest)
    requires RenamedKids(c, kids, renamed) && TidyDisk(kids) && CopiesNamed(c) && Lookup(c.diskPaths, "") == ""
    ensures EntryOf([], renamed).Path() == Renamed(c, EntryOf([], kids).Path())
  {
    if NoChild(kids, "source") {
      RenamedChildren(c, kids, renamed, "");
      NoChildAttr(kids, "source", "file", "");
      NoChildAttr(kids, "source", "dev", "");
      NoChildAttr(renamed, "source", "file", "");
      NoChildAttr(renamed, "source", "dev", "");
      hide RenamedKids, TidyDisk, CopiesNamed, Disconnects, ChildAttr;
    } else {
      TidySource(kids, "file");
      TidySource(kids, "dev");
      RenamedSource(c, kids, renamed, "file");
      RenamedSource(c, kids, renamed, "dev");
      NeatEmpty();
      RenamedPath(c, SourceOf(kids));
      hide RenamedKids, TidyDisk, Neat, DiskSourceAttrs, AttrValue, CopiesNamed, ChildAttr, Renamed;
    }
  }

  lemma RenamedEntry(c: CloneRequest, a: seq<Attr>, kids: Forest, renamed: Forest)
    requires RenamedKids(c, kids, renamed) && TidyDisk(kids) && CopiesNamed(c) && Lookup(c.diskPaths, "") == ""
    ensures EntryRenamed(c, EntryOf(a, kids), EntryOf(a, renamed))
  {
    RenamedChildren(c, kids, renamed, "");
    RenamedStore(c, kids, renamed, None);
    RenamedEntryPath(c, kids, renamed);
    hide RenamedKids, TidyDisk, CopiesNamed, ChildAttr, Renamed;
  }

  lemma NeatEmpty()
    ensures Neat([])
  {
  }

  /** The configuration's disks are the same in the same order, each with its path renamed. */
  ghost predicate AllRenamed(c: CloneRequest, before: seq<DiskEntry>, after: seq<DiskEntry>) {
    |after| == |before| && forall i :: 0 <= i < |before| ==> EntryRenamed(c, before[i], after[i])
  }

  lemma {:induction false} RenamedAmong(c: CloneRequest, f: Forest, g: Forest)
    requires RenamedDevices(c, f, g) && TidyDisks(f) && CopiesNamed(c) && Lookup(c.diskPaths, "") == ""
    ensures AllRenamed(c, DisksAmong(f), DisksAmong(g))
  {
    hide EntryRenamed, EntryOf, RenamedKids, TidyDisk, CopiesNamed;
    match f
    case Nil =>
    case Leaf(_, next) => RenamedAmong(c, next, g.next);
    case Elem(n, a, kids, next) =>
      RenamedAmong(c, next, g.next);
      if n == "disk" {
        RenamedEntry(c, a, kids, g.kids);
      }
  }

  lemma {:induction false} RenamedNormal(c: CloneRequest, before: seq<DiskEntry>, after: seq<DiskEntry>)
    requires AllRenamed(c, before, after)
    ensures AllRenamed(c, NormalOnly(before), NormalOnly(after))
  {
    hide Renamed;
    if before != [] {
      assert EntryRenamed(c, before[0], after[0]);
      RenamedNormal(c, before[1..], after[1..]);
    }
  }

  // ---------- The clone ----------

  lemma {:induction false} CloneStores(c: CloneRequest, stack: seq<string>, nic: Nic, f: Forest)
    requires Parent(stack) == "backingStore"
    ensures SameStores(f, CloneForest(c, stack, nic, f))
    decreases f
  {
    assert "backingStore"[0] == 'b' && "domain"[0] == 'd' && "disk"[0] == 'd' && "interface"[0] == 'i';
    hide CloneLeaf, EnterTag, LeaveTag;
    match f
    case Nil =>
    case Leaf(_, next) => CloneStores(c, stack, nic, next);
    case Elem(n, a, kids, next) =>
      var inside := EnterTag("backingStore", n, a, nic);
      ParentPush(stack, n);
      if n == "backingStore" {
        CloneStores(c, stack + [n], inside, kids);
      }
      CloneStores(c, stack, LeaveTag(n, NicAfter(stack + [n], inside, kids)), next);
  }

  lemma {:induction false} CloneKids(c: CloneRequest, stack: seq<string>, nic: Nic, f: Forest)
    requires Parent(stack) == "disk"
    ensures RenamedKids(c, f, CloneForest(c, stack, nic, f))
    decreases f
  {
    assert "disk"[1] != "domain"[1] && |"interface"| == 9;
    hide CloneLeaf, EnterTag, LeaveTag, DiskSourceAttrs, SameStores;
    match f
    case Nil =>
    case Leaf(_, next) => CloneKids(c, stack, nic, next);
    case Elem(n, a, kids, next) =>
      var inside := EnterTag("disk", n, a, nic);
      if n == "backingStore" {
        ParentPush(stack, n);
        CloneStores(c, stack + [n], inside, kids);
      }
      CloneKids(c, stack, LeaveTag(n, NicAfter(stack + [n], inside, kids)), next);
  }

  lemma {:induction false} CloneDevices(c: CloneRequest, stack: seq<string>, nic: Nic, f: Forest)
    requires Parent(stack) == "devices"
    ensures RenamedDevices(c, f, CloneForest(c, stack, nic, f))
    decreases f
  {
    assert "devices"[1] != "domain"[1] && |"interface"| == 9 && |"disk"| == 4;
    hide CloneLeaf, EnterTag, LeaveTag, RenamedKids;
    match f
    case Nil =>
    case Leaf(_, next) => CloneDevices(c, stack, nic, next);
    case Elem(n, a, kids, next) =>
      var inside := EnterTag("devices", n, a, nic);
      ParentPush(stack, n);
      if n == "disk" {
        CloneKids(c, stack + [n], inside, kids);
      }
      CloneDevices(c, stack, LeaveTag(n, NicAfter(stack + [n], inside, kids)), next);
  }

  lemma {:induction false} CloneOneDevices(c: CloneRequest, nic: Nic, f: Forest)
    ensures var g := CloneForest(c, ["domain"], nic, f);
            && (NoDevices(f) ==> NoDevices(g))
            && (OneDevices(f) ==> OneDevices(g) && RenamedDevices(c, DevicesKids(f), DevicesKids(g)))
    decreases f
  {
    assert "devices"[0] == 'd' && "uuid"[0] == 'u' && |"description"| == 11;
    hide CloneLeaf, EnterTag, SkipTag, LeaveTag, CloneAttrs, RenamedDevices;
    match f
    case Nil =>
    case Leaf(_, next) => CloneOneDevices(c, nic, next);
    case Elem(n, a, kids, next) =>
      assert Parent(["domain"]) == "domain";
      if Dropped("domain", n) {
        CloneOneDevices(c, SkipTag("domain", a, nic), next);
      } else {
        var inside := EnterTag("domain", n, a, nic);
        ParentPush(["domain"], n);
        if n == "devices" {
          CloneDevices(c, ["domain"] + [n], inside, kids);
        }
        CloneOneDevices(c, LeaveTag(n, NicAfter(["domain"] + [n], inside, kids)), next);
      }
  }

  function RootKids(doc: Forest): Forest {
    match doc
    case Nil => Nil
    case Leaf(_, next) => RootKids(next)
    case Elem(_, _, kids, _) => kids
  }

  /** The children of the cloned domain are edited below the single open element domain. */
  lemma {:induction false} CloneRoot(c: CloneRequest, doc: Forest)
    requires DomainDoc(doc)
    ensures RootKids(CloneDoc(c, doc)) == CloneForest(c, ["domain"], NO_NIC, RootKids(doc))
    ensures DomainDoc(CloneDoc(c, doc))
    ensures RenamedDevices(c, DomainDevices(doc), DomainDevices(CloneDoc(c, doc)))
  {
    hide CloneLeaf, RenamedDevices;
    match doc
    case Leaf(_, next) => CloneRoot(c, next);
    case Elem(n, a, kids, _) =>
      assert Parent([]) == "" && |"domain"| == 6 && |"interface"| == 9 && [] + ["domain"] == ["domain"];
      assert EnterTag("", "domain", a, NO_NIC) == NO_NIC;
      CloneOneDevices(c, NO_NIC, kids);
  }

  /** The disks of the clone are the source's disks with their paths renamed. */
  lemma CloneDisks(c: CloneRequest, doc: Forest)
    requires DomainDoc(doc) && TidyDisks(DomainDevices(doc)) && CopiesNamed(c) && Lookup(c.diskPaths, "") == ""
    ensures AllRenamed(c, ConfigDisks(doc), ConfigDisks(CloneDoc(c, doc)))
  {
    CloneRoot(c, doc);
    AllDisksOfDomain(doc);
    AllDisksOfDomain(CloneDoc(c, doc));
    RenamedAmong(c, DomainDevices(doc), DomainDevices(CloneDoc(c, doc)));
    RenamedNormal(c, AllDisks(doc), AllDisks(CloneDoc(c, doc)));
  }
}

// What the clone rewrite achieves: nothing that identifies the source machine survives, the shape
// of the document is kept otherwise, and disks, MACs and sizes are the requested ones.
module CloneEffect {
  import opened Strings
  import opened Xml
  import opened DeviceRewrite
  import opened CloneRewrite

  // ---------- What is dropped, and what is kept ----------

  /** No element named parent, wherever it stands, has a child named child. */
  predicate HasNoChild(f: Forest, parent: string, child: string) {
    match f
    case Nil => true
    case Leaf(_, next) => HasNoChild(next, parent, child)
    case Elem(n, _, kids, next) =>
      && (n == parent ==> child !in ElementNames(kids))
      && HasNoChild(kids, parent, child)
      && HasNoChild(next, parent, child)
  }

  /** The children by which an element identifies the machine it was written for. */
  function Identifying(parent: string): set<string> {
    if parent == "domain" then {"uuid", "description"} else if parent == "interface" then {"target"} else {}
  }

  lemma DroppedNames(parent: string, n: string)
    ensures Dropped(parent, n) <==> n in Identifying(parent)
  {
    assert |"domain"| == 6 && |"interface"| == 9;
  }

  lemma ParentPush(stack: seq<string>, n: string)
    ensures Parent(stack + [n]) == n
  {
  }

  /** Of the children of any element exactly the identifying ones are missing; the others stay, in order. */
  lemma {:induction false} ClonedChildren(c: CloneRequest, stack: seq<string>, nic: Nic, f: Forest)
    ensures ElementNames(CloneForest(c, stack, nic, f))
         == NamesWithout(ElementNames(f), Identifying(Parent(stack)))
    decreases f
  {
    hide CloneAttrs, CloneLeaf, EnterTag, SkipTag, LeaveTag, Dropped, Identifying, NamesWithout, Parent;
    match f
    case Nil => NamesOfNone(Identifying(Parent(stack)));
    case Leaf(_, next) => ClonedChildren(c, stack, nic, next);
    case Elem(n, a, kids, next) =>
      DroppedNames(Parent(stack), n);
      NamesCons(n, ElementNames(next), Identifying(Parent(stack)));
      var inside := EnterTag(Parent(stack), n, a, nic);
      ClonedChildren(c, stack, SkipTag(Parent(stack), a, nic), next);
      ClonedChildren(c, stack, LeaveTag(n, NicAfter(stack + [n], inside, kids)), next);
  }

  lemma {:induction false} GoneNotLeft(names: seq<string>, gone: set<string>, name: string)
    ensures name in NamesWithout(names, gone) <==> name in names && name !in gone
  {
    if names != [] {
      GoneNotLeft(names[1..], gone, name);
      assert names == [names[0]] + names[1..];
    }
  }

  lemma {:induction false} NoIdentifyingChild(c: CloneRequest, stack: seq<string>, nic: Nic, f: Forest, parent: string,
      child: string)
    requires child in Identifying(parent)
    ensures HasNoChild(CloneForest(c, stack, nic, f), parent, child)
    decreases f
  {
    hide CloneAttrs, CloneLeaf, EnterTag, SkipTag, LeaveTag, Dropped, Identifying, NamesWithout, Parent;
    match f
    case Nil =>
    case Leaf(_, next) => NoIdentifyingChild(c, stack, nic, next, parent, child);
    case Elem(n, a, kids, next) =>
      if Dropped(Parent(stack), n) {
        NoIdentifyingChild(c, stack, SkipTag(Parent(stack), a, nic), next, parent, child);
      } else {
        ParentPush(stack, n);
        var inside := EnterTag(Parent(stack), n, a, nic);
        NoIdentifyingChild(c, stack + [n], inside, kids, parent, child);
        NoIdentifyingChild(c, stack, LeaveTag(n, NicAfter(stack + [n], inside, kids)), next, parent, child);
        ClonedChildren(c, stack + [n], inside, kids);
        GoneNotLeft(ElementNames(kids), Identifying(n), child);
      }
  }

  /** Nothing in the clone identifies the source machine: no domain has a uuid or a description, and no
      interface has a target. */
  lemma CloneIsAnonymous(c: CloneRequest, doc: Forest)
    ensures HasNoChild(CloneDoc(c, doc), "domain", "uuid")
    ensures HasNoChild(CloneDoc(c, doc), "domain", "description")
    ensures HasNoChild(CloneDoc(c, doc), "interface", "target")
  {
    assert "domain" != "interface" by {
      assert |"domain"| == 6 && |"interface"| == 9;
    }
    NoIdentifyingChild(c, [], NO_NIC, doc, "domain", "uuid");
    NoIdentifyingChild(c, [], NO_NIC, doc, "domain", "description");
    NoIdentifyingChild(c, [], NO_NIC, doc, "interface", "target");
  }

  /** The attributes without those of the given names. */
  function Without(a: seq<Attr>, names: set<string>): seq<Attr> {
    if a == [] then [] else (if a[0].name in names then [] else [a[0]]) + Without(a[1..], names)
  }

  /** The attributes of a tag that the edit may touch. */
  function Touched(parent: string, n: string): set<string> {
    if parent == "domain" && (n == "memory" || n == "currentMemory") then {"unit"}
    else if parent == "domain" && n == "vcpu" then {"current"}
    else if parent == "disk" && n == "source" then {"file", "dev"}
    else if parent == "interface" && n == "source" then {"network", "bridge", "dev"}
    else if parent == "interface" && n == "mac" then {"address"}
    else {}
  }

  /** The texts that the edit may touch. */
  predicate TouchedText(stack: seq<string>) {
    |stack| == 2 && stack[0] == "domain" && stack[1] in {"name", "memory", "currentMemory", "vcpu"}
  }

  /** The document without the identifying elements, and without the attributes and texts that may be touched. */
  function Shape(stack: seq<string>, f: Forest): Forest
    decreases f
  {
    match f
    case Nil => Nil
    case Leaf(t, next) => Leaf(if t.Text? && TouchedText(stack) then Text("") else t, Shape(stack, next))
    case Elem(n, a, kids, next) =>
      if n in Identifying(Parent(stack)) then Shape(stack, next)
      else Elem(n, Without(a, Touched(Parent(stack), n)), Shape(stack + [n], kids), Shape(stack, next))
  }

  lemma {:induction false} WithoutConcat(a: seq<Attr>, b: seq<Attr>, names: set<string>)
    ensures Without(a + b, names) == Without(a, names) + Without(b, names)
  {
    if a == [] {
      assert a + b == b;
    } else {
      assert (a + b)[1..] == a[1..] + b;
      WithoutConcat(a[1..], b, names);
    }
  }

  lemma WithoutOne(attr: Attr, names: set<string>)
    requires attr.name in names
    ensures Without([attr], names) == []
  {
    assert [attr][1..] == [] && Without([], names) == [];
  }

  lemma {:induction false} WithoutSet(a: seq<Attr>, name: string, value: string, names: set<string>)
    requires name in names
    ensures Without(SetAttr(a, name, value), names) == Without(a, names)
  {
    WithoutOne(Attr(name, value), names);
    if a != [] && a[0].name != name {
      WithoutSet(a[1..], name, value, names);
    }
  }

  lemma {:induction false} WithoutReplaced(a: seq<Attr>, name: string, was: string, value: string, names: set<string>)
    requires name in names
    ensures Without(ReplaceAttrValue(a, name, was, value), names) == Without(a, names)
  {
    if a != [] {
      WithoutReplaced(a[1..], name, was, value, names);
    }
  }

  lemma {:induction false} WithoutRemoved(a: seq<Attr>, names: set<string>)
    requires {"file", "dev"} <= names
    ensures Without(RemoveSourcePath(a), names) == Without(a, names)
  {
    if a != [] {
      WithoutRemoved(a[1..], names);
    }
  }

  lemma {:induction false} WithoutSources(a: seq<Attr>, names: set<string>)
    requires {"network", "bridge", "dev"} <= names
    ensures Without(WithoutSourceAttrs(a), names) == Without(a, names)
  {
    if a != [] {
      WithoutSources(a[1..], names);
    }
  }

  lemma WithoutDiskSource(c: CloneRequest, a: seq<Attr>)
    ensures Without(DiskSourceAttrs(c, a), {"file", "dev"}) == Without(a, {"file", "dev"})
  {
    var path := SourcePath(a);
    var copy := Lookup(c.diskPaths, path);
    WithoutRemoved(a, {"file", "dev"});
    WithoutSet(a, "file", copy, {"file", "dev"});
    WithoutReplaced(a, "file", path, copy, {"file", "dev"});
    WithoutReplaced(a, "dev", path, copy, {"file", "dev"});
    hide Without, Disconnect, ReplaceAttrValue, RemoveSourcePath, SetAttr, HasAttrValue, SourcePath;
  }

  lemma WithoutNicSource(c: CloneRequest, a: seq<Attr>, nic: Nic)
    ensures Without(InterfaceSourceAttrs(c, a, nic), {"network", "bridge", "dev"})
              == Without(a, {"network", "bridge", "dev"})
  {
    var names := {"network", "bridge", "dev"};
    var source := FirstNonEmpty(Lookup(c.interfaceSources, nic.target), Lookup(c.interfaceSources, nic.mac));
    var attr := Attr(InterfaceSourceAttrName(nic.kind), source);
    WithoutSources(a, names);
    WithoutConcat(WithoutSourceAttrs(a), [attr], names);
    WithoutOne(attr, names);
    hide Without, WithoutSourceAttrs, FirstNonEmpty;
  }

  /** Only attributes that may be touched are. */
  lemma WithoutTouched(c: CloneRequest, parent: string, n: string, a: seq<Attr>, nic: Nic)
    ensures Without(CloneAttrs(c, parent, n, a, nic), Touched(parent, n)) == Without(a, Touched(parent, n))
  {
    hide Without, SetAttr, DiskSourceAttrs, InterfaceSourceAttrs, Itoa;
    WithoutSet(a, "unit", "KiB", {"unit"});
    WithoutSet(a, "current", Itoa(FirstPositive(c.currentCPU, c.maximumCPU)), {"current"});
    WithoutSet(a, "address", Lookup(c.interfaceMACs, AttrValue(a, "address")), {"address"});
    WithoutDiskSource(c, a);
    WithoutNicSource(c, a, nic);
    ParentNames();
  }

  lemma ParentNames()
    ensures "domain" != "disk" && "domain" != "interface" && "disk" != "interface" && "source" != "mac"
    ensures "vcpu" != "memory" && "vcpu" != "currentMemory"
  {
    assert |"domain"| == 6 && |"disk"| == 4 && |"interface"| == 9 && |"source"| == 6 && |"mac"| == 3;
    assert |"vcpu"| == 4 && |"memory"| == 6 && |"currentMemory"| == 13;
  }

  lemma TouchedLeaf(c: CloneRequest, stack: seq<string>, t: LeafToken)
    ensures CloneLeaf(c, stack, t) == t || (t.Text? && CloneLeaf(c, stack, t).Text? && TouchedText(stack))
  {
    hide Itoa;
  }

  /** Frame: every element, attribute, text and comment that the edit does not mean to touch is kept, in order. */
  lemma {:induction false} CloneKeepsShape(c: CloneRequest, stack: seq<string>, nic: Nic, f: Forest)
    ensures Shape(stack, CloneForest(c, stack, nic, f)) == Shape(stack, f)
    decreases f
  {
    hide CloneLeaf, CloneAttrs, EnterTag, SkipTag, LeaveTag, Dropped, Identifying, Touched, TouchedText, Without;
    match f
    case Nil =>
    case Leaf(t, next) =>
      TouchedLeaf(c, stack, t);
      CloneKeepsShape(c, stack, nic, next);
    case Elem(n, a, kids, next) =>
      DroppedNames(Parent(stack), n);
      if Dropped(Parent(stack), n) {
        CloneKeepsShape(c, stack, SkipTag(Parent(stack), a, nic), next);
      } else {
        var inside := EnterTag(Parent(stack), n, a, nic);
        WithoutTouched(c, Parent(stack), n, a, nic);
        CloneKeepsShape(c, stack + [n], inside, kids);
        CloneKeepsShape(c, stack, LeaveTag(n, NicAfter(stack + [n], inside, kids)), next);
      }
  }

  // ---------- Disk sources ----------

  predicate WellFormed(f: Forest) {
    match f
    case Nil => true
    case Leaf(_, next) => WellFormed(next)
    case Elem(_, a, kids, next) => UniqueNames(a) && WellFormed(kids) && WellFormed(next)
  }

  lemma {:induction false} ReplacedValue(a: seq<Attr>, name: string, was: string, value: string, other: string)
    requires UniqueNames(a) && Attr(name, was) in a
    ensures AttrValue(ReplaceAttrValue(a, name, was, value), other) == if other == name then value
              else AttrValue(a, other)
  {
    if a[0] != Attr(name, was) {
      assert Attr(name, was) in a[1..];
      var i :| 0 <= i < |a[1..]| && a[1..][i] == Attr(name, was);
      assert HasAttr(a[1..], name);
      ReplacedValue(a[1..], name, was, value, other);
    }
  }

  lemma {:induction false} RemovedValue(a: seq<Attr>, other: string)
    ensures AttrValue(RemoveSourcePath(a), other) == if other == "file" || other == "dev" then ""
              else AttrValue(a, other)
  {
    if a != [] {
      RemovedValue(a[1..], other);
    }
  }

  /** Setting the source path makes it the source path. */
  lemma SetSourcePath(a: seq<Attr>, value: string)
    requires UniqueNames(a) && !Blank(value)
    ensures SourcePath(SetDiskSourcePath(a, SourcePath(a), value)) == value
  {
    var path := SourcePath(a);
    UniqueValue(a, "file", path);
    UniqueValue(a, "dev", path);
    assert "file"[0] != "dev"[0];
    BlankEmpty();
    hide Blank, TrimSpace, AttrValue;
    if HasAttrValue(a, "file", path) {
      ReplacedValue(a, "file", path, value, "file");
    } else if HasAttrValue(a, "dev", path) {
      ReplacedValue(a, "dev", path, value, "dev");
      ReplacedValue(a, "dev", path, value, "file");
    } else {
      SetAttrValue(a, "file", value, "file");
    }
  }

  lemma BlankEmpty()
    ensures Blank("")
  {
  }

  /** The request says to disconnect media. */
  predicate Disconnects(c: CloneRequest) {
    ToLower(TrimSpace(c.cdromPolicy)) == "disconnect"
  }

  /** What becomes of a source path. */
  function Renamed(c: CloneRequest, path: string): string {
    var copy := Lookup(c.diskPaths, path);
    if copy != "" then copy else if Disconnects(c) then "" else path
  }

  predicate CopiesNamed(c: CloneRequest) {
    forall p :: p in c.diskPaths && c.diskPaths[p] != "" ==> !Blank(c.diskPaths[p])
  }

  lemma SourceRenamed(c: CloneRequest, a: seq<Attr>)
    requires UniqueNames(a) && CopiesNamed(c)
    ensures SourcePath(DiskSourceAttrs(c, a)) == Renamed(c, SourcePath(a))
  {
    hide Blank, TrimSpace, ToLower, AttrValue, SetDiskSourcePath;
    var copy := Lookup(c.diskPaths, SourcePath(a));
    if copy != "" {
      SetSourcePath(a, copy);
    } else {
      BlankEmpty();
      RemovedValue(a, "file");
      RemovedValue(a, "dev");
    }
  }

  /** The paths of all source elements directly below a disk, in document order, outside elements that are
      dropped, followed by more. */
  function DiskSources(parent: string, f: Forest, more: seq<string>): seq<string>
    decreases f
  {
    match f
    case Nil => more
    case Leaf(_, next) => DiskSources(parent, next, more)
    case Elem(n, a, kids, next) =>
      var rest := DiskSources(parent, next, more);
      if Dropped(parent, n) then rest
      else if parent == "disk" && n == "source" then [SourcePath(a)] + DiskSources(n, kids, rest)
      else DiskSources(n, kids, rest)
  }

  function RenameAll(c: CloneRequest, paths: seq<string>): (r: seq<string>)
    ensures |r| == |paths| && forall i :: 0 <= i < |r| ==> r[i] == Renamed(c, paths[i])
  {
    seq(|paths|, i requires 0 <= i < |paths| => Renamed(c, paths[i]))
  }

  lemma RenameCons(c: CloneRequest, path: string, paths: seq<string>)
    ensures RenameAll(c, [path] + paths) == [Renamed(c, path)] + RenameAll(c, paths)
  {
    hide Renamed;
  }

  lemma SourceOfTag(c: CloneRequest, parent: string, n: string, a: seq<Attr>, nic: Nic)
    requires UniqueNames(a) && CopiesNamed(c)
    ensures parent == "disk" && n == "source" ==>
              SourcePath(CloneAttrs(c, parent, n, a, nic)) == Renamed(c, SourcePath(a))
  {
    SourceRenamed(c, a);
    hide Renamed, SourcePath, DiskSourceAttrs, CopiesNamed;
  }

  /** The clone has the same disk sources in the same order, each renamed. */
  lemma {:induction false} CloneDiskSources(c: CloneRequest, stack: seq<string>, nic: Nic, f: Forest, more: seq<string>)
    requires WellFormed(f) && CopiesNamed(c)
    ensures DiskSources(Parent(stack), CloneForest(c, stack, nic, f), RenameAll(c, more))
         == RenameAll(c, DiskSources(Parent(stack), f, more))
    decreases f
  {
    hide CopiesNamed, Renamed, RenameAll, SourcePath, CloneLeaf, EnterTag, SkipTag, LeaveTag, DiskSourceAttrs,
      UniqueNames, CloneAttrs, Dropped;
    match f
    case Nil =>
    case Leaf(_, next) => CloneDiskSources(c, stack, nic, next, more);
    case Elem(n, a, kids, next) =>
      var parent := Parent(stack);
      if Dropped(parent, n) {
        CloneDiskSources(c, stack, SkipTag(parent, a, nic), next, more);
      } else {
        ParentPush(stack, n);
        var inside := EnterTag(parent, n, a, nic);
        CloneDiskSources(c, stack, LeaveTag(n, NicAfter(stack + [n], inside, kids)), next, more);
        CloneDiskSources(c, stack + [n], inside, kids, DiskSources(parent, next, more));
        SourceOfTag(c, parent, n, a, nic);
        RenameCons(c, SourcePath(a), DiskSources(n, kids, DiskSources(parent, next, more)));
      }
  }

  /** A path in use by a disk of the source domain survives in the clone exactly if no copy was requested
      for it and CDROM media are not disconnected; the copies themselves have to be new paths. */
  lemma SourcePathSurvives(c: CloneRequest, doc: Forest, path: string)
    requires WellFormed(doc) && CopiesNamed(c) && path != ""
    requires forall p :: p in c.diskPaths ==> c.diskPaths[p] != path
    ensures path in DiskSources("", CloneDoc(c, doc), []) <==>
              path in DiskSources("", doc, []) && Lookup(c.diskPaths, path) == "" && !Disconnects(c)
  {
    CloneDiskSources(c, [], NO_NIC, doc, []);
    assert RenameAll(c, []) == [];
    assert Parent([]) == "";
    hide *;
    RenamedIn(c, DiskSources("", doc, []), path);
  }

  lemma RenamedIn(c: CloneRequest, before: seq<string>, path: string)
    requires path != "" && forall p :: p in c.diskPaths ==> c.diskPaths[p] != path
    ensures path in RenameAll(c, before) <==> path in before && Lookup(c.diskPaths, path) == "" && !Disconnects(c)
  {
    hide Disconnects;
    if path in before {
      var i :| 0 <= i < |before| && before[i] == path;
      assert RenameAll(c, before)[i] == Renamed(c, path);
    }
  }

  // ---------- MAC addresses ----------

  /** The MACs of all interfaces in document order, outside elements that are dropped, followed by more. */
  function Macs(parent: string, f: Forest, more: seq<string>): seq<string>
    decreases f
  {
    match f
    case Nil => more
    case Leaf(_, next) => Macs(parent, next, more)
    case Elem(n, a, kids, next) =>
      var rest := Macs(parent, next, more);
      if Dropped(parent, n) then rest
      else if parent == "interface" && n == "mac" then [AttrValue(a, "address")] + Macs(n, kids, rest)
      else Macs(n, kids, rest)
  }

  function NewMac(c: CloneRequest, mac: string): string {
    if Lookup(c.interfaceMACs, mac) != "" then Lookup(c.interfaceMACs, mac) else mac
  }

  function NewMacs(c: CloneRequest, macs: seq<string>): (r: seq<string>)
    ensures |r| == |macs| && forall i :: 0 <= i < |r| ==> r[i] == NewMac(c, macs[i])
  {
    seq(|macs|, i requires 0 <= i < |macs| => NewMac(c, macs[i]))
  }

  lemma NewMacsCons(c: CloneRequest, mac: string, macs: seq<string>)
    ensures NewMacs(c, [mac] + macs) == [NewMac(c, mac)] + NewMacs(c, macs)
  {
    hide NewMac;
  }

  lemma MacOfTag(c: CloneRequest, parent: string, n: string, a: seq<Attr>, nic: Nic)
    ensures parent == "interface" && n == "mac" ==>
              AttrValue(CloneAttrs(c, parent, n, a, nic), "address") == NewMac(c, AttrValue(a, "address"))
  {
    SetAttrValue(a, "address", Lookup(c.interfaceMACs, AttrValue(a, "address")), "address");
  }

  /** Every mapped MAC is replaced, in place. */
  lemma {:induction false} CloneMacs(c: CloneRequest, stack: seq<string>, nic: Nic, f: Forest, more: seq<string>)
    ensures Macs(Parent(stack), CloneForest(c, stack, nic, f), NewMacs(c, more))
              == NewMacs(c, Macs(Parent(stack), f, more))
    decreases f
  {
    hide NewMac, NewMacs, CloneLeaf, EnterTag, SkipTag, LeaveTag, CloneAttrs, Dropped, AttrValue;
    match f
    case Nil =>
    case Leaf(_, next) => CloneMacs(c, stack, nic, next, more);
    case Elem(n, a, kids, next) =>
      var parent := Parent(stack);
      if Dropped(parent, n) {
        CloneMacs(c, stack, SkipTag(parent, a, nic), next, more);
      } else {
        ParentPush(stack, n);
        var inside := EnterTag(parent, n, a, nic);
        CloneMacs(c, stack, LeaveTag(n, NicAfter(stack + [n], inside, kids)), next, more);
        CloneMacs(c, stack + [n], inside, kids, Macs(parent, next, more));
        MacOfTag(c, parent, n, a, nic);
        NewMacsCons(c, AttrValue(a, "address"), Macs(n, kids, Macs(parent, next, more)));
      }
  }
}

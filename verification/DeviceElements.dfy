// The disk and interface elements of the rewritten domain: which stay, what stays in them, and how the new ones read.
module DeviceElements {
  import opened Strings
  import opened Xml
  import opened CloneEffect
  import opened DeviceRewrite
  import opened DomainConfig
  import opened DeviceEffect
  import opened InterfaceEffect

  // ---------- Disks ----------

  /** A device element: its attributes and its children. */
  datatype DeviceNode = DeviceNode(attrs: seq<Attr>, kids: Forest)

  /** The disk elements among the given siblings. */
  function DiskNodes(f: Forest): seq<DeviceNode> {
    match f
    case Nil => []
    case Leaf(_, next) => DiskNodes(next)
    case Elem(n, a, kids, next) => (if n == "disk" then [DeviceNode(a, kids)] else []) + DiskNodes(next)
  }

  /** The disk elements of a domain. */
  function DomainDiskNodes(doc: Forest): seq<DeviceNode> { DiskNodes(DomainDevices(doc)) }

  /** A disk, or a device that does not say what it is, under one of the given targets. */
  predicate Leaves(d: DeviceNode, deleted: set<string>) {
    var device := DiskDevice(d.attrs, d.kids);
    (device == "" || EqualFold(device, "disk")) && TargetDev(d.kids) in deleted
  }

  /** The disk elements without the normal disks under the given targets. */
  function StayingNodes(ds: seq<DeviceNode>, deleted: set<string>): seq<DeviceNode> {
    if ds == [] then [] else (if Leaves(ds[0], deleted) then [] else [ds[0]]) + StayingNodes(ds[1..], deleted)
  }

  /** What the hypervisor reads in a disk element. */
  datatype DiskSetup = DiskSetup(kind: string, device: string, driver: string, format: string, file: string,
                                 target: string, bus: string)

  function SetupOf(d: DeviceNode): DiskSetup {
    DiskSetup(AttrValue(d.attrs, "type"), AttrValue(d.attrs, "device"),
              ChildAttr(d.kids, "driver", "name", ""), ChildAttr(d.kids, "driver", "type", ""),
              ChildAttr(d.kids, "source", "file", ""),
              ChildAttr(d.kids, "target", "dev", ""), ChildAttr(d.kids, "target", "bus", ""))
  }

  lemma {:induction false} DiskNodesAppend(f: Forest, g: Forest)
    ensures DiskNodes(Append(f, g)) == DiskNodes(f) + DiskNodes(g)
  {
    match f
    case Nil =>
    case Leaf(_, next) => DiskNodesAppend(next, g);
    case Elem(_, _, _, next) => DiskNodesAppend(next, g);
  }

  lemma StayingCons(d: DeviceNode, ds: seq<DeviceNode>, deleted: set<string>)
    ensures StayingNodes([d] + ds, deleted)
         == (if Leaves(d, deleted) then [] else [d]) + StayingNodes(ds, deleted)
  {
    hide Leaves;
    assert ([d] + ds)[1..] == ds;
  }

  lemma {:induction false} KeptDiskNodes(e: DeviceEdit, f: Forest)
    ensures DiskNodes(EditDevices(e, f)) == StayingNodes(DiskNodes(f), e.deletedTargets)
  {
    hide EqualFold, DiskDevice, TargetDev, DropsInterface, InterfaceUpdate, UpdateTag, UpdateTags, Fragments, Append,
      StayingNodes;
    match f
    case Nil => NoneStays(e.deletedTargets);
    case Leaf(_, next) => KeptDiskNodes(e, next);
    case Elem(n, a, kids, next) =>
      KeptDiskNodes(e, next);
      StayingCons(DeviceNode(a, kids), DiskNodes(next), e.deletedTargets);
      var rest := EditDevices(e, next);
      if n == "disk" {
        assert EditDevices(e, f) == if DropsDisk(e, a, kids) then rest else Elem(n, a, kids, rest);
        assert DiskNodes(Elem(n, a, kids, rest)) == [DeviceNode(a, kids)] + DiskNodes(rest);
      } else {
        assert DiskNodes(f) == DiskNodes(next);
        assert DiskNodes(EditDevices(e, f)) == DiskNodes(rest);
      }
  }

  lemma NoneStays(deleted: set<string>)
    ensures StayingNodes([], deleted) == []
  {
  }

  /** The attributes of the three children of a new disk. */
  lemma ThreeChildren(driver: seq<Attr>, source: seq<Attr>, target: seq<Attr>, elem: string, attr: string)
    requires elem in {"driver", "source", "target"}
    ensures var kids := Elem("driver", driver, Nil, Elem("source", source, Nil, Elem("target", target, Nil, Nil)));
            var of := if elem == "driver" then driver else if elem == "source" then source else target;
            ChildAttr(kids, elem, attr, "") == if HasAttr(of, attr) then AttrValue(of, attr) else ""
  {
    assert "driver"[0] == 'd' && "source"[0] == 's' && "target"[0] == 't';
    var third := Elem("target", target, Nil, Nil);
    var second := Elem("source", source, Nil, third);
    hide AttrValue, HasAttr;
    forall init ensures ChildAttr(Nil, elem, attr, init) == init {}
    forall init {:trigger ChildAttr(third, elem, attr, init)}
      ensures ChildAttr(third, elem, attr, init)
           == if elem == "target" && HasAttr(target, attr) then AttrValue(target, attr) else init {}
    forall init {:trigger ChildAttr(second, elem, attr, init)}
      ensures ChildAttr(second, elem, attr, init)
           == ChildAttr(third, elem, attr,
                        if elem == "source" && HasAttr(source, attr) then AttrValue(source, attr) else init) {}
  }

  lemma TwoAttrs(first: Attr, second: Attr, name: string)
    ensures HasAttr([first, second], name) <==> name == first.name || name == second.name
    ensures AttrValue([first, second], name)
         == if name == first.name then first.value else if name == second.name then second.value else ""
  {
    var a := [first, second];
    assert a[0] == first && a[1] == second && a[1..] == [second];
    OneAttr(second.name, second.value, name);
  }

  lemma NewDiskSetup(d: DiskFragment, next: Forest)
    ensures var el := DiskElem(d, next);
            SetupOf(DeviceNode(el.attrs, el.kids))
              == DiskSetup("file", "disk", "qemu", d.format, d.path, d.target, d.bus)
  {
    var driver := [Attr("name", "qemu"), Attr("type", d.format)];
    var source := [Attr("file", d.path)];
    var target := [Attr("dev", d.target), Attr("bus", d.bus)];
    assert "type"[0] == 't' && "device"[0] == 'd' && "name"[0] == 'n' && "dev"[0] == 'd' && "bus"[0] == 'b';
    TwoAttrs(Attr("type", "file"), Attr("device", "disk"), "type");
    TwoAttrs(Attr("type", "file"), Attr("device", "disk"), "device");
    TwoAttrs(driver[0], driver[1], "name");
    TwoAttrs(driver[0], driver[1], "type");
    TwoAttrs(target[0], target[1], "dev");
    TwoAttrs(target[0], target[1], "bus");
    OneAttr("file", d.path, "file");
    hide AttrValue, HasAttr, ChildAttr;
    ThreeChildren(driver, source, target, "driver", "name");
    ThreeChildren(driver, source, target, "driver", "type");
    ThreeChildren(driver, source, target, "source", "file");
    ThreeChildren(driver, source, target, "target", "dev");
    ThreeChildren(driver, source, target, "target", "bus");
  }

  lemma DiskNodeFirst(d: DiskFragment, next: Forest)
    ensures DiskNodes(DiskElem(d, next))
              == [DeviceNode(DiskElem(d, next).attrs, DiskElem(d, next).kids)] + DiskNodes(next)
  {
  }

  lemma InterfaceSkipped(i: InterfaceFragment, next: Forest)
    ensures DiskNodes(InterfaceElem(i, next)) == DiskNodes(next)
  {
    assert "disk"[0] != "interface"[0];
  }

  lemma NoDiskNodes()
    ensures DiskNodes(Nil) == []
  {
  }

  lemma {:induction false} FragmentNodes(ifaces: seq<InterfaceFragment>, ds: seq<DiskFragment>)
    ensures |DiskNodes(Fragments(ifaces, ds))| == |ds|
    ensures forall i :: 0 <= i < |ds| ==>
              SetupOf(DiskNodes(Fragments(ifaces, ds))[i])
                == DiskSetup("file", "disk", "qemu", ds[i].format, ds[i].path, ds[i].target, ds[i].bus)
    decreases |ifaces| + |ds|
  {
    hide SetupOf, DiskElem, InterfaceElem, DiskNodes;
    if ifaces != [] {
      InterfaceSkipped(ifaces[0], Fragments(ifaces[1..], ds));
      FragmentNodes(ifaces[1..], ds);
    } else if ds != [] {
      NewDiskSetup(ds[0], DiskElems(ds[1..]));
      DiskNodeFirst(ds[0], DiskElems(ds[1..]));
      FragmentNodes([], ds[1..]);
      assert Fragments([], ds[1..]) == DiskElems(ds[1..]);
    } else {
      NoDiskNodes();
    }
  }

  /** The disk elements of the rewritten domain: those that were there and are not deleted, each as it was, then one
      per new disk in the order of the request, a qemu image file of the requested format on the requested bus. */
  lemma DiskElementsAfter(e: DeviceEdit, doc: Forest)
    requires DomainDoc(doc)
    ensures var before, after := DomainDiskNodes(doc), DomainDiskNodes(EditDevices(e, doc));
            var kept := StayingNodes(before, e.deletedTargets);
            && |after| == |kept| + |e.newDisks| && after[..|kept|] == kept
            && forall i :: 0 <= i < |e.newDisks| ==>
                 var d := e.newDisks[i];
                 SetupOf(after[|kept| + i]) == DiskSetup("file", "disk", "qemu", d.format, d.path, d.target, d.bus)
  {
    EditDomain(e, doc);
    KeptDiskNodes(e, DomainDevices(doc));
    DiskNodesAppend(EditDevices(e, DomainDevices(doc)), Fragments(e.newInterfaces, e.newDisks));
    FragmentNodes(e.newInterfaces, e.newDisks);
    hide SetupOf, StayingNodes, Fragments, EditDevices, Append, DiskNodes, DomainDevices;
  }

  // ---------- Interfaces ----------

  /** What the hypervisor reads of a new interface: type and model default to network and virtio, the source stands
      under the attribute that is asked for, or else the one of the type. */
  ghost predicate ReadsAsAsked(n: NicEntry, i: InterfaceFragment) {
    && n.mac == "" && n.name == ""
    && n.kind == (if Blank(i.kind) then "network" else i.kind)
    && n.model == (if Blank(i.model) then "virtio" else i.model)
    && exists attr :: ReadsSource(n, attr, i.source)
         && if Blank(i.sourceAttr) then AttrForType(i.kind, attr) else attr == i.sourceAttr
  }

  lemma NewNicReads(i: InterfaceFragment)
    ensures ReadsAsAsked(NewNic(i), i)
  {
    var attr := FirstNonEmpty(i.sourceAttr, InterfaceSourceAttrName(i.kind));
    hide TrimSpace, ToLower, InterfaceSourceAttrName, AttrForType;
    NamedAttrs();
    TypeAttribute(i.kind);
    assert ReadsSource(NewNic(i), attr, i.source);
    assert if Blank(i.sourceAttr) then AttrForType(i.kind, attr) else attr == i.sourceAttr;
  }

  lemma NamedAttrs()
    ensures !Blank("network") && !Blank("bridge") && !Blank("dev") && !Blank("virtio")
  {
    assert TrimSpace("network") == "network" && TrimSpace("bridge") == "bridge" && TrimSpace("dev") == "dev";
    assert TrimSpace("virtio") == "virtio";
  }

  lemma {:induction false} NewNicsRead(items: seq<InterfaceFragment>)
    ensures |NewNics(items)| == |items|
    ensures forall i :: 0 <= i < |items| ==> ReadsAsAsked(NewNics(items)[i], items[i])
  {
    hide ReadsAsAsked, NewNic;
    if items != [] {
      NewNicReads(items[0]);
      NewNicsRead(items[1..]);
    }
  }

  /** The new interfaces stand behind the others, in the order of the request. */
  lemma InterfaceElementsAfter(e: DeviceEdit, doc: Forest)
    requires DomainDoc(doc) && PlainNics(DomainDevices(doc))
    ensures var after := Nics(EditDevices(e, doc));
            && |e.newInterfaces| <= |after|
            && forall i :: 0 <= i < |e.newInterfaces| ==>
                 ReadsAsAsked(after[|after| - |e.newInterfaces| + i], e.newInterfaces[i])
  {
    hide *;
    InterfacesAfter(e, doc);
    NewNicsRead(e.newInterfaces);
    var after, news := Nics(EditDevices(e, doc)), NewNics(e.newInterfaces);
    forall i | 0 <= i < |news| ensures after[|after| - |news| + i] == news[i] {
    }
  }

  // ---------- Interfaces that stay ----------

  /** The interface elements among the given siblings. */
  function InterfaceNodes(f: Forest): seq<DeviceNode> {
    match f
    case Nil => []
    case Leaf(_, next) => InterfaceNodes(next)
    case Elem(n, a, kids, next) => (if n == "interface" then [DeviceNode(a, kids)] else []) + InterfaceNodes(next)
  }

  /** The interface is deleted by its name, or by its MAC in lower case. */
  predicate Unplugged(n: DeviceNode, deleted: set<string>) {
    TargetDev(n.kids) in deleted || ToLower(InterfaceMac(n.kids)) in deleted
  }

  /** The interface elements that are not deleted. */
  function StayingInterfaces(ns: seq<DeviceNode>, deleted: set<string>): seq<DeviceNode> {
    if ns == [] then []
    else (if Unplugged(ns[0], deleted) then [] else [ns[0]]) + StayingInterfaces(ns[1..], deleted)
  }

  /** The attributes that may name a source. */
  function SourceNames(e: DeviceEdit): set<string> {
    {"network", "bridge", "dev"} + set k | k in e.sources :: e.sources[k].sourceAttr
  }

  /** Attributes without the type of an interface and without what names a source. */
  function BareAttrs(n: string, a: seq<Attr>, names: set<string>): seq<Attr> {
    if n == "interface" then Without(a, {"type"}) else if n == "source" then Without(a, names) else a
  }

  function Bare(f: Forest, names: set<string>): Forest {
    match f
    case Nil => Nil
    case Leaf(t, next) => Leaf(t, Bare(next, names))
    case Elem(n, a, kids, next) => Elem(n, BareAttrs(n, a, names), Bare(kids, names), Bare(next, names))
  }

  /** No update goes by the interface's name or MAC. */
  predicate Untouched(e: DeviceEdit, n: DeviceNode) {
    var name, mac := TargetDev(n.kids), InterfaceMac(n.kids);
    (Blank(name) || name !in e.sources) && (Blank(mac) || mac !in e.sources)
  }

  /** The element is the same but for its type and source, and all the same if no update goes by its keys. */
  ghost predicate SameBut(e: DeviceEdit, before: DeviceNode, after: DeviceNode) {
    && BareAttrs("interface", after.attrs, SourceNames(e)) == BareAttrs("interface", before.attrs, SourceNames(e))
    && Bare(after.kids, SourceNames(e)) == Bare(before.kids, SourceNames(e))
    && (Untouched(e, before) ==> after == before)
  }

  ghost predicate AllSameBut(e: DeviceEdit, before: seq<DeviceNode>, after: seq<DeviceNode>) {
    |after| == |before| && forall i :: 0 <= i < |before| ==> SameBut(e, before[i], after[i])
  }

  lemma BareUpdate(u: SourceUpdate, n: string, a: seq<Attr>, names: set<string>)
    requires {"network", "bridge", "dev", u.sourceAttr} <= names
    ensures BareAttrs(n, UpdateTag(u, n, a), names) == BareAttrs(n, a, names)
  {
    hide Without, Blank, WithoutSourceAttrs, SetAttr, ToLower, TrimSpace;
    assert "interface"[0] != "source"[0];
    var attr := FirstNonEmpty(u.sourceAttr, InterfaceSourceAttrName(u.kind));
    NamedAttrs();
    WithoutSet(a, "type", u.kind, {"type"});
    WithoutSources(a, names);
    WithoutConcat(WithoutSourceAttrs(a), [Attr(attr, u.source)], names);
    WithoutOne(Attr(attr, u.source), names);
  }

  lemma {:induction false} BareUpdates(u: SourceUpdate, f: Forest, names: set<string>)
    requires {"network", "bridge", "dev", u.sourceAttr} <= names
    ensures Bare(UpdateTags(u, f), names) == Bare(f, names)
  {
    hide UpdateTag, BareAttrs;
    match f
    case Nil =>
    case Leaf(_, next) => BareUpdates(u, next, names);
    case Elem(n, a, kids, next) =>
      BareUpdate(u, n, a, names);
      BareUpdates(u, kids, names);
      BareUpdates(u, next, names);
  }

  lemma KeptInterface(e: DeviceEdit, a: seq<Attr>, kids: Forest)
    ensures SameBut(e, DeviceNode(a, kids), match InterfaceUpdate(e, kids) case None => DeviceNode(a, kids)
                    case Some(u) => DeviceNode(UpdateTag(u, "interface", a), UpdateTags(u, kids)))
  {
    hide BareAttrs, Bare, TargetDev, InterfaceMac, Blank, UpdateTag, UpdateTags;
    match InterfaceUpdate(e, kids)
    case None =>
    case Some(u) =>
      BareUpdate(u, "interface", a, SourceNames(e));
      BareUpdates(u, kids, SourceNames(e));
  }

  lemma StayingInterfacesCons(n: DeviceNode, ns: seq<DeviceNode>, deleted: set<string>)
    ensures StayingInterfaces([n] + ns, deleted)
         == (if Unplugged(n, deleted) then [] else [n]) + StayingInterfaces(ns, deleted)
  {
    hide Unplugged;
    assert ([n] + ns)[1..] == ns;
  }

  lemma AllSameButCons(e: DeviceEdit, before: seq<DeviceNode>, after: seq<DeviceNode>, n: DeviceNode, m: DeviceNode)
    requires AllSameBut(e, before, after) && SameBut(e, n, m)
    ensures AllSameBut(e, [n] + before, [m] + after)
  {
    hide SameBut;
  }

  lemma {:induction false} KeptInterfaces(e: DeviceEdit, f: Forest)
    ensures AllSameBut(e, StayingInterfaces(InterfaceNodes(f), e.deletedInterfaces), InterfaceNodes(EditDevices(e, f)))
  {
    hide AllSameBut, SameBut, StayingInterfaces, TargetDev, InterfaceMac, ToLower, DropsDisk, InterfaceUpdate,
      UpdateTag,
      UpdateTags, Fragments, Append;
    match f
    case Nil => NoInterfaces(e);
    case Leaf(_, next) => KeptInterfaces(e, next);
    case Elem(n, a, kids, next) =>
      KeptInterfaces(e, next);
      var ns, rest := InterfaceNodes(next), EditDevices(e, next);
      if n == "interface" {
        StayingInterfacesCons(DeviceNode(a, kids), ns, e.deletedInterfaces);
        EditInterface(e, a, kids, next);
        KeptInterface(e, a, kids);
        if !DropsInterface(e, kids) {
          var m := match InterfaceUpdate(e, kids) case None => DeviceNode(a, kids)
                   case Some(u) => DeviceNode(UpdateTag(u, "interface", a), UpdateTags(u, kids));
          AllSameButCons(e, StayingInterfaces(ns, e.deletedInterfaces), InterfaceNodes(rest), DeviceNode(a, kids), m);
          assert EditDevices(e, f) == Elem("interface", m.attrs, m.kids, rest);
          assert InterfaceNodes(Elem("interface", m.attrs, m.kids, rest)) == [m] + InterfaceNodes(rest);
          assert [DeviceNode(a, kids)] + StayingInterfaces(ns, e.deletedInterfaces)
              == StayingInterfaces(InterfaceNodes(f), e.deletedInterfaces);
        } else {
          assert InterfaceNodes(f) == [DeviceNode(a, kids)] + ns && EditDevices(e, f) == rest;
          assert StayingInterfaces(InterfaceNodes(f), e.deletedInterfaces)
            == StayingInterfaces(ns, e.deletedInterfaces);
        }
      } else {
        assert InterfaceNodes(f) == ns && InterfaceNodes(EditDevices(e, f)) == InterfaceNodes(rest);
      }
  }

  lemma NoInterfaces(e: DeviceEdit)
    ensures AllSameBut(e, StayingInterfaces([], e.deletedInterfaces), [])
  {
  }

  lemma {:induction false} InterfaceNodesAppend(f: Forest, g: Forest)
    ensures InterfaceNodes(Append(f, g)) == InterfaceNodes(f) + InterfaceNodes(g)
  {
    match f
    case Nil =>
    case Leaf(_, next) => InterfaceNodesAppend(next, g);
    case Elem(_, _, _, next) => InterfaceNodesAppend(next, g);
  }

  /** Frame: the interface elements that are not deleted stay, in order, each with all that is in it but its type and
      its source, and untouched if no update goes by its name or MAC; the new ones stand behind them. */
  lemma InterfaceElementsKept(e: DeviceEdit, doc: Forest)
    requires DomainDoc(doc)
    ensures var kept := StayingInterfaces(InterfaceNodes(DomainDevices(doc)), e.deletedInterfaces);
            var after := InterfaceNodes(DomainDevices(EditDevices(e, doc)));
            |kept| <= |after| && AllSameBut(e, kept, after[..|kept|])
  {
    EditDomain(e, doc);
    KeptInterfaces(e, DomainDevices(doc));
    InterfaceNodesAppend(EditDevices(e, DomainDevices(doc)), Fragments(e.newInterfaces, e.newDisks));
    hide SameBut, StayingInterfaces, InterfaceNodes, EditDevices, Fragments, Append, DomainDevices;
  }
}

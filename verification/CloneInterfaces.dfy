// The interfaces of a clone: new MACs, no targets, and the requested sources as far as the order of the
// elements lets them through.
module CloneInterfaces {
  import opened Strings
  import opened Xml
  import opened DeviceRewrite
  import opened DomainConfig
  import opened CloneRewrite
  import opened CloneEffect
  import opened DiskRenaming
  import opened InterfaceEffect

  // ---------- One interface ----------

  /** The value that the children of that name in front of the first source leave behind. */
  function SeenBefore(f: Forest, elem: string, attr: string, init: string): string {
    match f
    case Nil => init
    case Leaf(_, next) => SeenBefore(next, elem, attr, init)
    case Elem(n, a, _, next) =>
      if n == "source" then init else SeenBefore(next, elem, attr, if n == elem then AttrValue(a, attr) else init)
  }

  /** The source that the request gives an interface, looked up by what stands in front of its source element. */
  function NewSource(c: CloneRequest, kids: Forest): string {
    FirstNonEmpty(Lookup(c.interfaceSources, SeenBefore(kids, "target", "dev", "")),
                  Lookup(c.interfaceSources, SeenBefore(kids, "mac", "address", "")))
  }

  /** A source attribute of the clone. */
  function SourceField(c: CloneRequest, kids: Forest, kind: string, attr: string): string {
    if NewSource(c, kids) == "" then ChildAttr(kids, "source", attr, "")
    else if attr == InterfaceSourceAttrName(kind) then NewSource(c, kids)
    else ""
  }

  /** What becomes of an interface. */
  function ClonedNic(c: CloneRequest, a: seq<Attr>, kids: Forest): NicEntry {
    var n := NicOf(a, kids);
    NicEntry(n.kind, NewMac(c, n.mac), "", SourceField(c, kids, n.kind, "network"),
             SourceField(c, kids, n.kind, "bridge"), SourceField(c, kids, n.kind, "dev"), n.model)
  }

  lemma {:induction false} NicUnchanged(stack: seq<string>, nic: Nic, f: Forest)
    requires Parent(stack) != "interface" && !HasElem(f, "interface")
    ensures NicAfter(stack, nic, f) == nic
    decreases f
  {
    hide Dropped;
    match f
    case Nil =>
    case Leaf(_, next) => NicUnchanged(stack, nic, next);
    case Elem(n, a, kids, next) =>
      ParentPush(stack, n);
      NicUnchanged(stack + [n], nic, kids);
      NicUnchanged(stack, nic, next);
  }

  /** What the pass remembers behind one child of an interface. */
  function NicNext(nic: Nic, n: string, a: seq<Attr>): Nic {
    if n == "target" then nic.(target := AttrValue(a, "dev"))
    else if n == "mac" then nic.(mac := AttrValue(a, "address"))
    else nic
  }

  lemma ChildNames()
    ensures "source" != "target" && "source" != "mac" && "target" != "mac" && "model" != "source" && "model" != "mac"
    ensures "model" != "target" && "interface" != "domain" && "interface" != "disk" && "interface" != "target"
    ensures "source" != "interface" && "mac" != "interface" && "model" != "interface"
  {
    assert |"source"| == 6 && |"target"| == 6 && "source"[0] == 's' && "target"[0] == 't' && |"mac"| == 3;
    assert |"model"| == 5 && |"interface"| == 9 && |"domain"| == 6 && |"disk"| == 4;
  }

  /** One child of an interface: targets go, sources and MACs are edited, the rest stays. */
  lemma ChildCloned(c: CloneRequest, stack: seq<string>, nic: Nic, n: string, a: seq<Attr>, kids: Forest, next: Forest)
    requires Parent(stack) == "interface" && n != "interface" && !HasElem(kids, "interface")
    ensures var g, rest := CloneForest(c, stack, nic, Elem(n, a, kids, next)),
              CloneForest(c, stack, NicNext(nic, n, a), next);
            if n == "target" then g == rest
            else && g.Elem? && g.name == n && g.next == rest
                 && g.attrs == (if n == "source" then InterfaceSourceAttrs(c, a, nic)
                                else if n == "mac" then MacAttrs(c, a) else a)
  {
    ChildNames();
    ParentPush(stack, n);
    NicUnchanged(stack + [n], EnterTag("interface", n, a, nic), kids);
    hide InterfaceSourceAttrs, MacAttrs, DiskSourceAttrs, SetAttr;
  }

  lemma {:induction false} NoneCloned(c: CloneRequest, stack: seq<string>, nic: Nic, f: Forest, elem: string,
                                      attr: string, init: string)
    requires !HasElem(f, elem)
    ensures ChildAttr(CloneForest(c, stack, nic, f), elem, attr, init) == init
    decreases f
  {
    hide CloneLeaf, CloneAttrs, EnterTag, SkipTag, LeaveTag, Dropped, HasAttr, AttrValue;
    match f
    case Nil =>
    case Leaf(_, next) => NoneCloned(c, stack, nic, next, elem, attr, init);
    case Elem(n, a, kids, next) =>
      NoneCloned(c, stack, SkipTag(Parent(stack), a, nic), next, elem, attr, init);
      NoneCloned(c, stack, LeaveTag(n, NicAfter(stack + [n], EnterTag(Parent(stack), n, a, nic), kids)), next, elem,
                 attr, init);
  }

  /** The source is edited by what is remembered in front of it. */
  lemma {:induction false} SourceCloned(c: CloneRequest, stack: seq<string>, nic: Nic, f: Forest, attr: string)
    requires Parent(stack) == "interface" && OneSource(f) && !HasElem(f, "interface")
    ensures var seen := nic.(target := SeenBefore(f, "target", "dev", nic.target),
                             mac := SeenBefore(f, "mac", "address", nic.mac));
            ChildAttr(CloneForest(c, stack, nic, f), "source", attr, "")
              == AttrValue(InterfaceSourceAttrs(c, SourceOf(f), seen), attr)
    decreases f
  {
    hide InterfaceSourceAttrs, MacAttrs, CloneLeaf, CloneAttrs, HasAttr, AttrValue, EnterTag, LeaveTag, SkipTag,
      Dropped, NicAfter;
    ChildNames();
    match f
    case Leaf(_, next) => SourceCloned(c, stack, nic, next, attr);
    case Elem(n, a, kids, next) =>
      ChildCloned(c, stack, nic, n, a, kids, next);
      if n == "source" {
        NoneCloned(c, stack, NicNext(nic, n, a), next, "source", attr,
                   AttrValue(InterfaceSourceAttrs(c, a, nic), attr));
        NoAttrValue(InterfaceSourceAttrs(c, a, nic), attr);
        SourceFirst(CloneForest(c, stack, nic, f), attr);
      } else {
        SourceCloned(c, stack, NicNext(nic, n, a), next, attr);
        hide CloneForest;
      }
  }

  lemma SourceFirst(g: Forest, attr: string)
    requires g.Elem? && g.name == "source"
    ensures ChildAttr(g, "source", attr, "")
              == ChildAttr(g.next, "source", attr, if HasAttr(g.attrs, attr) then AttrValue(g.attrs, attr) else "")
  {
  }

  /** The MAC read off the clone is the new one. */
  lemma {:induction false} MacCloned(c: CloneRequest, stack: seq<string>, nic: Nic, f: Forest, init: string)
    requires Parent(stack) == "interface" && OnlyDirect(f, "mac", "address") && !HasElem(f, "interface")
    ensures ChildAttr(CloneForest(c, stack, nic, f), "mac", "address", NewMac(c, init))
              == NewMac(c, ChildAttr(f, "mac", "address", init))
    decreases f
  {
    hide InterfaceSourceAttrs, MacAttrs, CloneLeaf, CloneForest, HasAttr, AttrValue, NewMac;
    ChildNames();
    match f
    case Nil => NothingCloned(c, stack, nic);
    case Leaf(t, next) =>
      NextLeaf(c, stack, nic, t, next);
      MacCloned(c, stack, nic, next, init);
    case Elem(n, a, kids, next) =>
      ChildCloned(c, stack, nic, n, a, kids, next);
      if n == "mac" {
        MacValue(c, a);
        MacCloned(c, stack, NicNext(nic, n, a), next, AttrValue(a, "address"));
      } else {
        MacCloned(c, stack, NicNext(nic, n, a), next, init);
      }
  }

  lemma NothingCloned(c: CloneRequest, stack: seq<string>, nic: Nic)
    ensures CloneForest(c, stack, nic, Nil) == Nil
  {
  }

  lemma NextLeaf(c: CloneRequest, stack: seq<string>, nic: Nic, t: LeafToken, next: Forest)
    ensures CloneForest(c, stack, nic, Leaf(t, next)) == Leaf(CloneLeaf(c, stack, t), CloneForest(c, stack, nic, next))
  {
  }

  lemma MacValue(c: CloneRequest, a: seq<Attr>)
    requires HasAttr(a, "address")
    ensures HasAttr(MacAttrs(c, a), "address")
    ensures AttrValue(MacAttrs(c, a), "address") == NewMac(c, AttrValue(a, "address"))
  {
    var mac := Lookup(c.interfaceMACs, AttrValue(a, "address"));
    SetAttrValue(a, "address", mac, "address");
    SetHas(a, "address", mac);
    hide SetAttr, HasAttr, AttrValue;
  }

  lemma {:induction false} SetHas(a: seq<Attr>, name: string, value: string)
    ensures HasAttr(SetAttr(a, name, value), name)
  {
    var b := SetAttr(a, name, value);
    if a == [] || a[0].name == name {
      assert b[0].name == name;
    } else {
      SetHas(a[1..], name, value);
      var i :| 0 <= i < |SetAttr(a[1..], name, value)| && SetAttr(a[1..], name, value)[i].name == name;
      assert b[i + 1].name == name;
    }
  }

  /** The model stays, and no target is left. */
  lemma {:induction false} OthersCloned(c: CloneRequest, stack: seq<string>, nic: Nic, f: Forest, init: string)
    requires Parent(stack) == "interface" && !HasElem(f, "interface")
    ensures ChildAttr(CloneForest(c, stack, nic, f), "model", "type", init) == ChildAttr(f, "model", "type", init)
    ensures ChildAttr(CloneForest(c, stack, nic, f), "target", "dev", "") == ""
    decreases f
  {
    hide InterfaceSourceAttrs, MacAttrs, CloneLeaf, CloneForest, HasAttr, AttrValue;
    ChildNames();
    match f
    case Nil => NothingCloned(c, stack, nic);
    case Leaf(t, next) =>
      NextLeaf(c, stack, nic, t, next);
      OthersCloned(c, stack, nic, next, init);
    case Elem(n, a, kids, next) =>
      ChildCloned(c, stack, nic, n, a, kids, next);
      OthersCloned(c, stack, NicNext(nic, n, a), next,
                   if n == "model" && HasAttr(a, "type") then AttrValue(a, "type") else init);
  }

  /** The attributes of the only source are what is read. */
  lemma {:induction false} SourceRead(f: Forest, attr: string)
    requires OneSource(f)
    ensures ChildAttr(f, "source", attr, "") == AttrValue(SourceOf(f), attr)
  {
    hide HasAttr, AttrValue;
    match f
    case Leaf(_, next) => SourceRead(next, attr);
    case Elem(n, a, _, next) =>
      if n == "source" {
        NoAttrValue(a, attr);
        NoElemNoChild(next, "source", attr, AttrValue(a, attr));
      } else {
        SourceRead(next, attr);
      }
  }

  lemma SourceEdited(c: CloneRequest, kids: Forest, kind: string, attr: string)
    requires OneSource(kids) && IsSourceAttr(attr)
    ensures AttrValue(InterfaceSourceAttrs(c, SourceOf(kids), SeenNic(kids, kind)), attr)
              == SourceField(c, kids, kind, attr)
  {
    SourceRead(kids, attr);
    WithoutSource(SourceOf(kids), InterfaceSourceAttrName(kind), NewSource(c, kids), attr);
    hide AttrValue, SetSourceAttrs, SeenBefore, FirstNonEmpty, ChildAttr, InterfaceSourceAttrName, OneSource;
  }

  /** What is remembered in front of the source. */
  function SeenNic(kids: Forest, kind: string): Nic {
    Nic(SeenBefore(kids, "mac", "address", ""), SeenBefore(kids, "target", "dev", ""), kind)
  }

  /** The element of a cloned interface reads as the cloned interface. */
  lemma NicCloned(c: CloneRequest, stack: seq<string>, a: seq<Attr>, kids: Forest)
    requires Parent(stack) == "interface" && PlainNic(kids) && Lookup(c.interfaceMACs, "") == ""
    ensures NicOf(a, CloneForest(c, stack, Nic("", "", AttrValue(a, "type")), kids)) == ClonedNic(c, a, kids)
  {
    PlainOnly(kids);
    var kind := AttrValue(a, "type");
    NoMac(c);
    MacCloned(c, stack, Nic("", "", kind), kids, "");
    OthersCloned(c, stack, Nic("", "", kind), kids, "");
    hide ChildAttr, CloneForest, NewMac, AttrValue, SourceField, IsSourceAttr, OneSource, OnlyDirect, HasElem;
    FieldCloned(c, stack, kids, kind, "network");
    FieldCloned(c, stack, kids, kind, "bridge");
    FieldCloned(c, stack, kids, kind, "dev");
  }

  lemma FieldCloned(c: CloneRequest, stack: seq<string>, kids: Forest, kind: string, attr: string)
    requires Parent(stack) == "interface" && OneSource(kids) && !HasElem(kids, "interface")
    requires attr in {"network", "bridge", "dev"}
    ensures ChildAttr(CloneForest(c, stack, Nic("", "", kind), kids), "source", attr, "")
              == SourceField(c, kids, kind, attr)
  {
    SourceCloned(c, stack, Nic("", "", kind), kids, attr);
    SourceEdited(c, kids, kind, attr);
    hide ChildAttr, CloneForest, AttrValue, SourceField, InterfaceSourceAttrs, SeenBefore;
  }

  lemma PlainOnly(kids: Forest)
    requires PlainNic(kids)
    ensures !HasElem(kids, "interface") && OneSource(kids) && OnlyDirect(kids, "mac", "address")
  {
  }

  lemma NoMac(c: CloneRequest)
    requires Lookup(c.interfaceMACs, "") == ""
    ensures NewMac(c, "") == ""
  {
  }

  // ---------- All interfaces ----------

  function ClonedNics(c: CloneRequest, f: Forest): seq<NicEntry> {
    match f
    case Nil => []
    case Leaf(_, next) => ClonedNics(c, next)
    case Elem(n, a, kids, next) => (if n == "interface" then [ClonedNic(c, a, kids)] else []) + ClonedNics(c, next)
  }

  /** Below these elements there is no interface. */
  predicate NoneNested(f: Forest) {
    match f
    case Nil => true
    case Leaf(_, next) => NoneNested(next)
    case Elem(_, _, kids, next) => !HasElem(kids, "interface") && NoneNested(next)
  }

  /** Interfaces are children of devices and occur nowhere else. */
  predicate OnlyInDevices(f: Forest) {
    match f
    case Nil => true
    case Leaf(_, next) => OnlyInDevices(next)
    case Elem(n, _, kids, next) =>
      n != "interface" && (if n == "devices" then NoneNested(kids) else !HasElem(kids, "interface"))
        && OnlyInDevices(next)
  }

  lemma DeviceNames()
    ensures "devices" != "domain" && "devices" != "disk" && "devices" != "interface" && "uuid" != "devices"
    ensures "description" != "devices"
  {
    assert |"devices"| == 7 && |"domain"| == 6 && |"disk"| == 4 && |"interface"| == 9 && |"uuid"| == 4
      && |"description"| == 11;
  }

  /** What is remembered on entering a device. */
  function NicInside(n: string, a: seq<Attr>): Nic {
    if n == "interface" then Nic("", "", AttrValue(a, "type")) else NO_NIC
  }

  lemma DeviceChild(c: CloneRequest, stack: seq<string>, n: string, a: seq<Attr>, kids: Forest, next: Forest)
    requires Parent(stack) == "devices" && !HasElem(kids, "interface")
    ensures CloneForest(c, stack, NO_NIC, Elem(n, a, kids, next))
         == Elem(n, a, CloneForest(c, stack + [n], NicInside(n, a), kids), CloneForest(c, stack, NO_NIC, next))
  {
    DeviceNames();
    ParentPush(stack, n);
    if n != "interface" {
      NicUnchanged(stack + [n], NO_NIC, kids);
    }
    hide AttrValue, HasElem;
  }

  lemma {:induction false} NicsCloned(c: CloneRequest, stack: seq<string>, f: Forest)
    requires Parent(stack) == "devices" && PlainNics(f) && NoneNested(f) && Lookup(c.interfaceMACs, "") == ""
    ensures NicsAmong(CloneForest(c, stack, NO_NIC, f)) == ClonedNics(c, f)
  {
    hide NicOf, PlainNic, ClonedNic, CloneLeaf, CloneForest, HasElem, AttrValue;
    match f
    case Nil => NothingCloned(c, stack, NO_NIC);
    case Leaf(t, next) =>
      NextLeaf(c, stack, NO_NIC, t, next);
      NicsCloned(c, stack, next);
    case Elem(n, a, kids, next) =>
      DeviceChild(c, stack, n, a, kids, next);
      NicsCloned(c, stack, next);
      if n == "interface" {
        ParentPush(stack, n);
        NicCloned(c, stack + [n], a, kids);
      }
  }

  lemma {:induction false} DevicesCloned(c: CloneRequest, f: Forest)
    requires OneDevices(f) && OnlyInDevices(f)
    ensures DevicesKids(CloneForest(c, ["domain"], NO_NIC, f))
              == CloneForest(c, ["domain", "devices"], NO_NIC, DevicesKids(f))
    decreases f
  {
    hide CloneLeaf, CloneAttrs, HasElem, NoneNested;
    assert Parent(["domain"]) == "domain";
    DeviceNames();
    match f
    case Leaf(_, next) => DevicesCloned(c, next);
    case Elem(n, a, kids, next) =>
      if n == "devices" {
        assert ["domain"] + [n] == ["domain", "devices"];
      } else if Dropped("domain", n) {
        SkipSame(a);
        DevicesCloned(c, next);
      } else {
        ParentPush(["domain"], n);
        EnterSame(n, a);
        NicUnchanged(["domain"] + [n], NO_NIC, kids);
        DevicesCloned(c, next);
      }
  }

  lemma SkipSame(a: seq<Attr>)
    ensures SkipTag("domain", a, NO_NIC) == NO_NIC
  {
    ChildNames();
  }

  lemma EnterSame(n: string, a: seq<Attr>)
    requires n != "interface"
    ensures EnterTag("domain", n, a, NO_NIC) == NO_NIC && LeaveTag(n, NO_NIC) == NO_NIC
  {
    ChildNames();
  }

  /** The interfaces of the clone are the source's in order: each with its new MAC, without a target, and with the
      source that what stands in front of its source element asks for. */
  lemma CloneInterfaces(c: CloneRequest, doc: Forest)
    requires DomainDoc(doc) && PlainNics(DomainDevices(doc)) && OnlyInDevices(RootKids(doc))
    requires Lookup(c.interfaceMACs, "") == ""
    ensures DomainDoc(CloneDoc(c, doc)) && Nics(CloneDoc(c, doc)) == ClonedNics(c, DomainDevices(doc))
  {
    hide *;
    CloneRoot(c, doc);
    RootOf(doc);
    RootOf(CloneDoc(c, doc));
    DevicesCloned(c, RootKids(doc));
    DevicesNone(RootKids(doc));
    StackOf();
    NicsCloned(c, ["domain", "devices"], DomainDevices(doc));
    NicsOf(CloneDoc(c, doc));
  }

  lemma NicsOf(doc: Forest)
    ensures Nics(doc) == NicsAmong(DomainDevices(doc))
  {
  }

  lemma StackOf()
    ensures Parent(["domain", "devices"]) == "devices"
  {
  }

  lemma {:induction false} RootOf(doc: Forest)
    requires DomainDoc(doc)
    ensures DomainDevices(doc) == DevicesKids(RootKids(doc)) && OneDevices(RootKids(doc))
  {
    match doc
    case Leaf(_, next) => RootOf(next);
    case Elem(_, _, _, _) =>
  }

  lemma {:induction false} DevicesNone(f: Forest)
    requires OneDevices(f) && OnlyInDevices(f)
    ensures NoneNested(DevicesKids(f))
  {
    hide NoneNested, HasElem;
    match f
    case Leaf(_, next) => DevicesNone(next);
    case Elem(n, _, _, next) =>
      if n != "devices" {
        DevicesNone(next);
      }
  }

  // ---------- When a requested source takes effect ----------

  /** A child of that name stands in front of the source. */
  predicate StandsBefore(f: Forest, elem: string) {
    match f
    case Nil => false
    case Leaf(_, next) => StandsBefore(next, elem)
    case Elem(n, _, _, next) => n != "source" && (n == elem || StandsBefore(next, elem))
  }

  /** At most one child has that name. */
  predicate AtMostOne(f: Forest, elem: string) {
    match f
    case Nil => true
    case Leaf(_, next) => AtMostOne(next, elem)
    case Elem(n, _, _, next) => if n == elem then NoChild(next, elem) else AtMostOne(next, elem)
  }

  lemma {:induction false} NotSeen(f: Forest, elem: string, attr: string, init: string)
    requires NoChild(f, elem)
    ensures SeenBefore(f, elem, attr, init) == init && !StandsBefore(f, elem)
  {
    match f
    case Nil =>
    case Leaf(_, next) => NotSeen(next, elem, attr, init);
    case Elem(_, _, _, next) => NotSeen(next, elem, attr, init);
  }

  lemma {:induction false} SeenIff(f: Forest, elem: string, attr: string)
    requires AtMostOne(f, elem) && elem != "source"
    ensures SeenBefore(f, elem, attr, "") == if StandsBefore(f, elem) then ChildAttr(f, elem, attr, "") else ""
  {
    hide AttrValue, HasAttr;
    match f
    case Nil =>
    case Leaf(_, next) => SeenIff(next, elem, attr);
    case Elem(n, a, _, next) =>
      if n == elem {
        NotSeen(next, elem, attr, AttrValue(a, attr));
        NoChildAttr(next, elem, attr, AttrValue(a, attr));
        NoAttrValue(a, attr);
      } else {
        SeenIff(next, elem, attr);
      }
  }

  /** The source that is set: the one requested for the target if the target stands in front of the source, else the
      one requested for the MAC if the MAC does, else none. */
  lemma SourceStands(c: CloneRequest, kids: Forest)
    requires AtMostOne(kids, "mac") && AtMostOne(kids, "target") && Lookup(c.interfaceSources, "") == ""
    ensures var name, mac := ChildAttr(kids, "target", "dev", ""), ChildAttr(kids, "mac", "address", "");
            NewSource(c, kids) ==
              if StandsBefore(kids, "target") && !Blank(Lookup(c.interfaceSources, name))
              then Lookup(c.interfaceSources, name)
              else if StandsBefore(kids, "mac") && !Blank(Lookup(c.interfaceSources, mac))
              then Lookup(c.interfaceSources, mac)
              else ""
  {
    hide *;
    ChildNames();
    SeenIff(kids, "mac", "address");
    SeenIff(kids, "target", "dev");
    BlankEmpty();
    SourceLooked(c, kids);
  }

  lemma SourceLooked(c: CloneRequest, kids: Forest)
    ensures var name, mac := SeenBefore(kids, "target", "dev", ""), SeenBefore(kids, "mac", "address", "");
            NewSource(c, kids) ==
              if !Blank(Lookup(c.interfaceSources, name)) then Lookup(c.interfaceSources, name)
              else if !Blank(Lookup(c.interfaceSources, mac)) then Lookup(c.interfaceSources, mac)
              else ""
  {
    hide Blank, Lookup, SeenBefore;
  }
}

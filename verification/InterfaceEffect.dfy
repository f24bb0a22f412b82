// Interfaces over the device rewrite: the keys under which updates are found, and what the interfaces of
// the rewritten domain are.
module InterfaceEffect {
  import opened Common
  import opened Strings
  import opened Xml
  import opened DeviceRewrite
  import opened DomainConfig
  import opened DeviceEffect

  // ---------- The key map ----------

  /** An accepted update of the interface with that name and MAC. */
  datatype InterfaceAction = InterfaceAction(name: string, mac: string, update: SourceUpdate)

  /** The action's update is stored under key. */
  predicate HasKey(a: InterfaceAction, key: string) {
    (a.name != "" && a.name == key) || (a.mac != "" && ToLower(a.mac) == key)
  }

  /** The i-th action is the last one with that key. */
  ghost predicate LastWith(actions: seq<InterfaceAction>, key: string, i: nat) {
    i < |actions| && HasKey(actions[i], key) && forall j :: i < j < |actions| ==> !HasKey(actions[j], key)
  }

  /** Each key maps to the update of the last action that has it, and there are no other keys. */
  ghost predicate KeyMap(items: map<string, SourceUpdate>, actions: seq<InterfaceAction>) {
    && (forall k, i: nat :: LastWith(actions, k, i) ==> k in items && items[k] == actions[i].update)
    && (forall k :: k in items ==> exists i: nat :: LastWith(actions, k, i))
  }

  lemma NextAction(before: map<string, SourceUpdate>, after: map<string, SourceUpdate>, actions: seq<InterfaceAction>,
                   a: InterfaceAction)
    requires KeyMap(before, actions)
    requires forall k :: HasKey(a, k) ==> k in after && after[k] == a.update
    requires forall k :: !HasKey(a, k) ==> (k in after <==> k in before) && (k in before ==> after[k] == before[k])
    ensures KeyMap(after, actions + [a])
  {
    hide HasKey;
    var more := actions + [a];
    assert more[|actions|] == a && forall j :: 0 <= j < |actions| ==> more[j] == actions[j];
    forall k, i: nat | LastWith(more, k, i) ensures k in after && after[k] == more[i].update {
      if i < |actions| {
        assert !HasKey(more[|actions|], k);
        assert LastWith(actions, k, i);
      }
    }
    forall k | k in after ensures exists i: nat :: LastWith(more, k, i) {
      if HasKey(a, k) {
        assert LastWith(more, k, |actions|);
      } else {
        var i: nat :| LastWith(actions, k, i);
        assert LastWith(more, k, i);
      }
    }
  }

  /** interfaceSourceUpdatesByKey */
  method UpdatesByKey(actions: seq<InterfaceAction>) returns (items: map<string, SourceUpdate>)
    ensures KeyMap(items, actions)
  {
    hide KeyMap, ToLower;
    items := map[];
    NoActions();
    assert actions[..0] == [];
    for i := 0 to |actions|
      invariant KeyMap(items, actions[..i])
    {
      var a := actions[i];
      ghost var before := items;
      if a.name != "" {
        items := items[a.name := a.update];
      }
      if a.mac != "" {
        items := items[ToLower(a.mac) := a.update];
      }
      NextAction(before, items, actions[..i], a);
      assert actions[..i + 1] == actions[..i] + [a];
    }
    assert actions[..|actions|] == actions;
  }

  lemma NoActions()
    ensures KeyMap(map[], [])
  {
  }

  /** No two actions share a key, and no action's raw MAC is another one's key. */
  ghost predicate DistinctKeys(actions: seq<InterfaceAction>) {
    && (forall i, j, k :: 0 <= i < j < |actions| ==> !(HasKey(actions[i], k) && HasKey(actions[j], k)))
    && (forall i, j :: 0 <= i < |actions| && 0 <= j < |actions| && actions[i].mac != "" ==>
          actions[i].mac != actions[j].name)
  }

  /** The rewriter looks an interface up by its name and then by its MAC as written, while the keys are lower
      case: an accepted update is the one found exactly if the interface has a name, or a MAC without upper-case
      letters. */
  lemma UpdateTakesEffect(actions: seq<InterfaceAction>, items: map<string, SourceUpdate>, i: nat)
    requires KeyMap(items, actions) && DistinctKeys(actions) && i < |actions|
    ensures var a := actions[i];
            FindUpdate(items, a.name, a.mac) == Some(a.update) <==>
              !Blank(a.name) || (!Blank(a.mac) && ToLower(a.mac) == a.mac)
  {
    var a := actions[i];
    NonBlankNonEmpty(a.name);
    NonBlankNonEmpty(a.mac);
    if !Blank(a.name) {
      OwnKey(actions, items, i, a.name);
    } else if !Blank(a.mac) {
      if ToLower(a.mac) == a.mac {
        OwnKey(actions, items, i, a.mac);
      } else {
        NoKey(actions, items, i);
      }
    }
    hide KeyMap, DistinctKeys, TrimSpace, ToLower;
  }

  lemma OwnKey(actions: seq<InterfaceAction>, items: map<string, SourceUpdate>, i: nat, key: string)
    requires KeyMap(items, actions) && DistinctKeys(actions) && i < |actions| && HasKey(actions[i], key)
    ensures key in items && items[key] == actions[i].update
  {
    hide HasKey;
    assert LastWith(actions, key, i);
  }

  /** A MAC with upper-case letters is no key. */
  lemma NoKey(actions: seq<InterfaceAction>, items: map<string, SourceUpdate>, i: nat)
    requires KeyMap(items, actions) && DistinctKeys(actions) && i < |actions|
    requires actions[i].mac != "" && ToLower(actions[i].mac) != actions[i].mac
    ensures actions[i].mac !in items
  {
    var mac := actions[i].mac;
    if mac in items {
      var j: nat :| LastWith(actions, mac, j);
      assert actions[j].name != mac;
      LowerTwice(actions[j].mac);
    }
  }

  lemma NonBlankNonEmpty(s: string)
    ensures !Blank(s) ==> s != ""
  {
  }

  // ---------- The interfaces of a domain ----------

  /** One interface element as it is read off a document. */
  datatype NicEntry = NicEntry(kind: string, mac: string, name: string, network: string, bridge: string, dev: string,
                               model: string)

  function NicOf(a: seq<Attr>, kids: Forest): NicEntry {
    NicEntry(AttrValue(a, "type"), ChildAttr(kids, "mac", "address", ""), ChildAttr(kids, "target", "dev", ""),
             ChildAttr(kids, "source", "network", ""), ChildAttr(kids, "source", "bridge", ""),
             ChildAttr(kids, "source", "dev", ""), ChildAttr(kids, "model", "type", ""))
  }

  /** The interface elements among the given siblings. */
  function NicsAmong(f: Forest): seq<NicEntry> {
    match f
    case Nil => []
    case Leaf(_, next) => NicsAmong(next)
    case Elem(n, a, kids, next) => (if n == "interface" then [NicOf(a, kids)] else []) + NicsAmong(next)
  }

  function Nics(doc: Forest): seq<NicEntry> { NicsAmong(DomainDevices(doc)) }

  /** Exactly one source, a direct child. */
  predicate OneSource(f: Forest) {
    match f
    case Nil => false
    case Leaf(_, next) => OneSource(next)
    case Elem(n, _, kids, next) =>
      !HasElem(kids, "source") && if n == "source" then !HasElem(next, "source") else OneSource(next)
  }

  /** An interface as libvirt writes it: one source, MAC and target as direct children, nothing nested. */
  predicate PlainNic(kids: Forest) {
    && !HasElem(kids, "interface") && OneSource(kids)
    && OnlyDirect(kids, "mac", "address") && OnlyDirect(kids, "target", "dev")
  }

  predicate PlainNics(f: Forest) {
    match f
    case Nil => true
    case Leaf(_, next) => PlainNics(next)
    case Elem(n, _, kids, next) => (n == "interface" ==> PlainNic(kids)) && PlainNics(next)
  }

  // ---------- Re-sourcing ----------

  /** The source stands under that attribute and under no other. */
  predicate ReadsSource(n: NicEntry, attr: string, source: string) {
    && n.network == (if attr == "network" then source else "")
    && n.bridge == (if attr == "bridge" then source else "")
    && n.dev == (if attr == "dev" then source else "")
  }

  /** libvirt's attribute for the source of an interface of that type. */
  predicate AttrForType(kind: string, attr: string) {
    var k := ToLower(TrimSpace(kind));
    && (k == "bridge" ==> attr == "bridge")
    && (k == "direct" ==> attr == "dev")
    && (k != "bridge" && k != "direct" ==> attr == "network")
  }

  lemma TypeAttribute(kind: string)
    ensures var attr := InterfaceSourceAttrName(kind); AttrForType(kind, attr) && !Blank(attr)
  {
    assert "bridge"[0] != "direct"[0];
    assert TrimSpace("network") == "network" && TrimSpace("bridge") == "bridge" && TrimSpace("dev") == "dev";
  }

  /** The attribute that names the new source. */
  function SourceAttr(u: SourceUpdate): string {
    FirstNonEmpty(u.sourceAttr, InterfaceSourceAttrName(u.kind))
  }

  /** An interface with its source, and with a type in the update its type, replaced. */
  function Resourced(u: SourceUpdate, n: NicEntry): NicEntry {
    var attr := SourceAttr(u);
    n.(kind := if u.kind != "" then u.kind else n.kind,
       network := if attr == "network" then u.source else "",
       bridge := if attr == "bridge" then u.source else "",
       dev := if attr == "dev" then u.source else "")
  }

  /** What becomes of an interface: nothing is left of a deleted one; an update under its name is applied, or else one
      under its MAC, unless it has no source. */
  function EditedNic(e: DeviceEdit, n: NicEntry): seq<NicEntry> {
    if n.name in e.deletedInterfaces || ToLower(n.mac) in e.deletedInterfaces then []
    else if !Blank(n.name) && n.name in e.sources then Applied(e.sources[n.name], n)
    else if !Blank(n.mac) && n.mac in e.sources then Applied(e.sources[n.mac], n)
    else [n]
  }

  function Applied(u: SourceUpdate, n: NicEntry): seq<NicEntry> {
    if u.source == "" then [n] else [Resourced(u, n)]
  }

  function EditedNics(e: DeviceEdit, ns: seq<NicEntry>): seq<NicEntry> {
    if ns == [] then [] else EditedNic(e, ns[0]) + EditedNics(e, ns[1..])
  }

  function NewNic(i: InterfaceFragment): NicEntry {
    var attr := FirstNonEmpty(i.sourceAttr, InterfaceSourceAttrName(i.kind));
    NicEntry(FirstNonEmpty(i.kind, "network"), "", "", if attr == "network" then i.source else "",
             if attr == "bridge" then i.source else "", if attr == "dev" then i.source else "",
             FirstNonEmpty(i.model, "virtio"))
  }

  function NewNics(is_: seq<InterfaceFragment>): seq<NicEntry> {
    if is_ == [] then [] else [NewNic(is_[0])] + NewNics(is_[1..])
  }

  // ---------- Attributes of a source ----------

  predicate IsSourceAttr(name: string) { name in {"network", "bridge", "dev"} }

  lemma {:induction false} WithoutSource(a: seq<Attr>, attr: string, source: string, name: string)
    requires IsSourceAttr(name)
    ensures HasAttr(SetSourceAttrs(a, attr, source), name) <==> name == attr
    ensures AttrValue(SetSourceAttrs(a, attr, source), name) == if name == attr then source else ""
  {
    if a == [] {
      assert SetSourceAttrs(a, attr, source) == [Attr(attr, source)];
      assert [Attr(attr, source)][0] == Attr(attr, source) && [Attr(attr, source)][1..] == [];
    } else if a[0].name in {"network", "bridge", "dev"} {
      WithoutSource(a[1..], attr, source, name);
    } else {
      WithoutSource(a[1..], attr, source, name);
      var rest := SetSourceAttrs(a[1..], attr, source);
      assert SetSourceAttrs(a, attr, source) == [a[0]] + rest;
      OtherFirst(a[0], rest, name);
    }
  }

  lemma OtherFirst(first: Attr, rest: seq<Attr>, name: string)
    requires first.name != name
    ensures HasAttr([first] + rest, name) == HasAttr(rest, name)
    ensures AttrValue([first] + rest, name) == AttrValue(rest, name)
  {
    var a := [first] + rest;
    assert a[0] == first && a[1..] == rest;
    if HasAttr(rest, name) {
      var i :| 0 <= i < |rest| && rest[i].name == name;
      assert a[i + 1].name == name;
    }
  }

  lemma {:induction false} NoElemNoChild(f: Forest, elem: string, attr: string, init: string)
    requires !HasElem(f, elem)
    ensures ChildAttr(f, elem, attr, init) == init
  {
    match f
    case Nil =>
    case Leaf(_, next) => NoElemNoChild(next, elem, attr, init);
    case Elem(_, _, _, next) => NoElemNoChild(next, elem, attr, init);
  }

  lemma {:induction false} UpdateKeepsNames(u: SourceUpdate, f: Forest, elem: string)
    ensures HasElem(UpdateTags(u, f), elem) == HasElem(f, elem)
  {
    hide UpdateTag;
    match f
    case Nil =>
    case Leaf(_, next) => UpdateKeepsNames(u, next, elem);
    case Elem(_, _, kids, next) =>
      UpdateKeepsNames(u, kids, elem);
      UpdateKeepsNames(u, next, elem);
  }

  /** Children other than the source read the same. */
  lemma {:induction false} UpdatedChild(u: SourceUpdate, f: Forest, elem: string, attr: string, init: string)
    requires elem != "source" && elem != "interface"
    ensures ChildAttr(UpdateTags(u, f), elem, attr, init) == ChildAttr(f, elem, attr, init)
  {
    hide HasAttr, AttrValue, SetAttr, SetSourceAttrs;
    match f
    case Nil =>
    case Leaf(_, next) => UpdatedChild(u, next, elem, attr, init);
    case Elem(n, a, _, next) =>
      UpdatedChild(u, next, elem, attr, if n == elem && HasAttr(a, attr) then AttrValue(a, attr) else init);
  }

  /** The source reads as the update says. */
  lemma {:induction false} UpdatedSource(u: SourceUpdate, f: Forest, attr: string)
    requires OneSource(f) && IsSourceAttr(attr)
    ensures ChildAttr(UpdateTags(u, f), "source", attr, "") == if attr == SourceAttr(u) then u.source else ""
  {
    hide HasAttr, AttrValue, SetAttr, SetSourceAttrs, SourceAttr;
    match f
    case Leaf(_, next) => UpdatedSource(u, next, attr);
    case Elem(n, a, _, next) =>
      if n == "source" {
        assert "source"[0] != "interface"[0];
        SourceTag(u, a);
        WithoutSource(a, SourceAttr(u), u.source, attr);
        UpdateKeepsNames(u, next, "source");
        NoElemNoChild(UpdateTags(u, next), "source", attr, if attr == SourceAttr(u) then u.source else "");
      } else {
        UpdatedSource(u, next, attr);
      }
  }

  lemma SourceTag(u: SourceUpdate, a: seq<Attr>)
    ensures UpdateTag(u, "source", a) == SetSourceAttrs(a, SourceAttr(u), u.source)
  {
    assert "source"[0] != "interface"[0];
    hide SetAttr, SetSourceAttrs;
  }

  lemma InterfaceTag(u: SourceUpdate, a: seq<Attr>)
    ensures AttrValue(UpdateTag(u, "interface", a), "type") == if u.kind != "" then u.kind else AttrValue(a, "type")
  {
    assert "source"[0] != "interface"[0];
    SetAttrValue(a, "type", u.kind, "type");
    hide SetAttr, AttrValue;
  }

  /** A re-sourced element reads as the re-sourced interface. */
  lemma ResourcedEntry(u: SourceUpdate, a: seq<Attr>, kids: Forest)
    requires PlainNic(kids)
    ensures NicOf(UpdateTag(u, "interface", a), UpdateTags(u, kids)) == Resourced(u, NicOf(a, kids))
  {
    hide ChildAttr, UpdateTag, UpdateTags, PlainNic, SourceAttr, AttrValue;
    PlainHasSource(kids);
    InterfaceTag(u, a);
    OtherNames();
    UpdatedChild(u, kids, "mac", "address", "");
    UpdatedChild(u, kids, "target", "dev", "");
    UpdatedChild(u, kids, "model", "type", "");
    UpdatedSource(u, kids, "network");
    UpdatedSource(u, kids, "bridge");
    UpdatedSource(u, kids, "dev");
  }

  lemma PlainHasSource(kids: Forest)
    requires PlainNic(kids)
    ensures OneSource(kids)
  {
  }

  lemma OtherNames()
    ensures "mac" != "source" && "target" != "source" && "model" != "source"
    ensures "mac" != "interface" && "target" != "interface" && "model" != "interface"
  {
    assert "source"[0] == 's' && "interface"[0] == 'i' && "mac"[0] == 'm' && "model"[0] == 'm' && "target"[0] == 't';
  }

  /** The rewriter's search finds the MAC and target that are read. */
  lemma PlainKeys(a: seq<Attr>, kids: Forest)
    requires PlainNic(kids)
    ensures TargetDev(kids) == NicOf(a, kids).name && InterfaceMac(kids) == NicOf(a, kids).mac
  {
    DirectLastAttr(kids, "target", "dev", "");
    DirectLastAttr(kids, "mac", "address", "");
    hide ChildAttr, LastAttr, OnlyDirect, OneSource;
  }

  // ---------- The interfaces of the rewritten domain ----------

  lemma {:induction false} NicsAppend(f: Forest, g: Forest)
    ensures NicsAmong(Append(f, g)) == NicsAmong(f) + NicsAmong(g)
  {
    hide NicOf;
    match f
    case Nil =>
    case Leaf(_, next) => NicsAppend(next, g);
    case Elem(_, _, _, next) => NicsAppend(next, g);
  }

  lemma OneAttr(name: string, value: string, other: string)
    ensures HasAttr([Attr(name, value)], other) <==> other == name
    ensures AttrValue([Attr(name, value)], other) == if other == name then value else ""
  {
    var a := [Attr(name, value)];
    assert a[0] == Attr(name, value) && a[1..] == [];
  }

  /** Reading a child of an element with a source and a model. */
  lemma TwoChildren(sourceAttr: string, source: string, model: string, elem: string, attr: string)
    ensures ChildAttr(Elem("source", [Attr(sourceAttr, source)], Nil, Elem("model", [Attr("type", model)], Nil, Nil)),
                      elem, attr, "")
         == if elem == "source" && attr == sourceAttr then source
            else if elem == "model" && attr == "type" then model
            else ""
  {
    assert "source"[0] == 's' && "model"[0] == 'm';
    OneAttr(sourceAttr, source, attr);
    OneAttr("type", model, attr);
    hide HasAttr, AttrValue;
    var last := Elem("model", [Attr("type", model)], Nil, Nil);
    var found := if elem == "source" && attr == sourceAttr then source else "";
    assert ChildAttr(last, elem, attr, found) == if elem == "model" && attr == "type" then model else found;
  }

  lemma NewNicEntry(i: InterfaceFragment, next: Forest)
    ensures var el := InterfaceElem(i, next); NicOf(el.attrs, el.kids) == NewNic(i)
  {
    assert "source"[0] == 's' && "mac"[1] == 'a' && "model"[1] == 'o' && "target"[0] == 't';
    var attr, model := FirstNonEmpty(i.sourceAttr, InterfaceSourceAttrName(i.kind)), FirstNonEmpty(i.model, "virtio");
    OneAttr("type", FirstNonEmpty(i.kind, "network"), "type");
    TwoChildren(attr, i.source, model, "mac", "address");
    TwoChildren(attr, i.source, model, "target", "dev");
    TwoChildren(attr, i.source, model, "source", "network");
    TwoChildren(attr, i.source, model, "source", "bridge");
    TwoChildren(attr, i.source, model, "source", "dev");
    TwoChildren(attr, i.source, model, "model", "type");
    hide AttrValue, ChildAttr, FirstNonEmpty, InterfaceSourceAttrName;
  }

  lemma InterfaceFirst(i: InterfaceFragment, next: Forest)
    ensures NicsAmong(InterfaceElem(i, next)) == [NewNic(i)] + NicsAmong(next)
  {
    NewNicEntry(i, next);
    hide NicOf, NewNic;
  }

  lemma DiskFirst(d: DiskFragment, next: Forest)
    ensures NicsAmong(DiskElem(d, next)) == NicsAmong(next)
  {
    assert "disk"[0] != "interface"[0];
    hide NicOf;
  }

  lemma {:induction false} FragmentNics(is_: seq<InterfaceFragment>, ds: seq<DiskFragment>)
    ensures NicsAmong(Fragments(is_, ds)) == NewNics(is_)
    decreases |is_| + |ds|
  {
    hide NicOf, NewNic, NicsAmong, InterfaceElem, DiskElem;
    if is_ != [] {
      InterfaceFirst(is_[0], Fragments(is_[1..], ds));
      FragmentNics(is_[1..], ds);
    } else if ds != [] {
      DiskFirst(ds[0], DiskElems(ds[1..]));
      FragmentNics([], ds[1..]);
      assert Fragments([], ds[1..]) == DiskElems(ds[1..]);
    } else {
      NoNics();
    }
  }

  lemma NoNics()
    ensures NicsAmong(Nil) == []
  {
  }

  lemma KeptNic(e: DeviceEdit, a: seq<Attr>, kids: Forest, next: Forest)
    requires PlainNic(kids)
    ensures NicsAmong(EditDevices(e, Elem("interface", a, kids, next)))
         == EditedNic(e, NicOf(a, kids)) + NicsAmong(EditDevices(e, next))
  {
    hide *;
    PlainKeys(a, kids);
    EditInterface(e, a, kids, next);
    NicDecision(e, NicOf(a, kids), kids);
    if !DropsInterface(e, kids) {
      match InterfaceUpdate(e, kids)
      case None => FirstNic(a, kids, EditDevices(e, next));
      case Some(u) =>
        ResourcedEntry(u, a, kids);
        FirstNic(UpdateTag(u, "interface", a), UpdateTags(u, kids), EditDevices(e, next));
    }
  }

  lemma FirstNic(a: seq<Attr>, kids: Forest, next: Forest)
    ensures NicsAmong(Elem("interface", a, kids, next)) == [NicOf(a, kids)] + NicsAmong(next)
  {
    hide NicOf;
  }

  lemma EditInterface(e: DeviceEdit, a: seq<Attr>, kids: Forest, next: Forest)
    ensures var edited, rest := EditDevices(e, Elem("interface", a, kids, next)), EditDevices(e, next);
            if DropsInterface(e, kids) then edited == rest
            else match InterfaceUpdate(e, kids)
                 case None => edited == Elem("interface", a, kids, rest)
                 case Some(u) => edited == Elem("interface", UpdateTag(u, "interface", a), UpdateTags(u, kids), rest)
  {
    hide DropsInterface, InterfaceUpdate, UpdateTag, UpdateTags;
  }

  lemma NicDecision(e: DeviceEdit, n: NicEntry, kids: Forest)
    requires n.name == TargetDev(kids) && n.mac == InterfaceMac(kids)
    ensures EditedNic(e, n) == if DropsInterface(e, kids) then []
                              else match InterfaceUpdate(e, kids) case None => [n] case Some(u) => [Resourced(u, n)]
  {
    hide TargetDev, InterfaceMac, Resourced, Blank, ToLower;
  }

  lemma {:induction false} KeptNics(e: DeviceEdit, f: Forest)
    requires PlainNics(f)
    ensures NicsAmong(EditDevices(e, f)) == EditedNics(e, NicsAmong(f))
  {
    hide NicOf, PlainNic, EditedNic, DropsDisk, DropsInterface, InterfaceUpdate, UpdateTag, UpdateTags, Fragments;
    match f
    case Nil =>
    case Leaf(_, next) => KeptNics(e, next);
    case Elem(n, a, kids, next) =>
      KeptNics(e, next);
      if n == "interface" {
        KeptNic(e, a, kids, next);
        assert NicsAmong(f)[0] == NicOf(a, kids) && NicsAmong(f)[1..] == NicsAmong(next);
      } else {
        assert NicsAmong(f) == NicsAmong(next);
      }
  }

  /** The interfaces after the rewrite: the old ones in order without the deleted ones, each found update
      applied, then the new ones. */
  lemma InterfacesAfter(e: DeviceEdit, doc: Forest)
    requires DomainDoc(doc) && PlainNics(DomainDevices(doc))
    ensures DomainDoc(EditDevices(e, doc))
    ensures Nics(EditDevices(e, doc)) == EditedNics(e, Nics(doc)) + NewNics(e.newInterfaces)
  {
    EditDomain(e, doc);
    KeptNics(e, DomainDevices(doc));
    NicsAppend(EditDevices(e, DomainDevices(doc)), Fragments(e.newInterfaces, e.newDisks));
    FragmentNics(e.newInterfaces, e.newDisks);
  }

  /** The interface an accepted update is for is re-sourced exactly if it has a name, or a MAC without
      upper-case letters; else it stays as it is. */
  lemma UpdateReachesInterface(e: DeviceEdit, actions: seq<InterfaceAction>, i: nat, n: NicEntry)
    requires KeyMap(e.sources, actions) && DistinctKeys(actions) && i < |actions| && actions[i].update.source != ""
    requires n.name == actions[i].name && n.mac == actions[i].mac
    requires n.name !in e.deletedInterfaces && ToLower(n.mac) !in e.deletedInterfaces
    ensures !Blank(n.name) || (!Blank(n.mac) && ToLower(n.mac) == n.mac) ==>
              EditedNic(e, n) == [Resourced(actions[i].update, n)]
    ensures !(!Blank(n.name) || (!Blank(n.mac) && ToLower(n.mac) == n.mac)) ==> EditedNic(e, n) == [n]
  {
    UpdateTakesEffect(actions, e.sources, i);
    if !Blank(n.name) || (!Blank(n.mac) && ToLower(n.mac) == n.mac) {
      hide KeyMap, DistinctKeys, TrimSpace, ToLower, Resourced;
    } else {
      NonBlankNonEmpty(n.mac);
      if !Blank(n.mac) {
        NoKey(actions, e.sources, i);
      }
      hide KeyMap, DistinctKeys, TrimSpace, ToLower, Resourced;
    }
  }
}

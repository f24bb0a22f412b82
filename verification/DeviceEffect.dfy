// What the device rewrite does to a document, stated without its own recursion: the rest of the
// document stays, the disks are filtered and extended, and added disks can be taken out again.
module DeviceEffect {
  import opened Common
  import opened Xml
  import opened DeviceRewrite
  import opened DomainConfig

  /** The document with every disk and interface element cut out. */
  function Erase(f: Forest): Forest {
    match f
    case Nil => Nil
    case Leaf(t, next) => Leaf(t, Erase(next))
    case Elem(n, a, kids, next) =>
      if n == "disk" || n == "interface" then Erase(next) else Elem(n, a, Erase(kids), Erase(next))
  }

  lemma {:induction false} EraseAppend(f: Forest, g: Forest)
    ensures Erase(Append(f, g)) == Append(Erase(f), Erase(g))
  {
    match f
    case Nil =>
    case Leaf(_, next) => EraseAppend(next, g);
    case Elem(_, _, kids, next) => EraseAppend(next, g);
  }

  lemma {:induction false} EraseFragments(ifaces: seq<InterfaceFragment>, ds: seq<DiskFragment>)
    ensures Erase(Fragments(ifaces, ds)) == Nil
    decreases |ifaces| + |ds|
  {
    if ifaces != [] {
      EraseFragments(ifaces[1..], ds);
    } else if ds != [] {
      EraseFragments([], ds[1..]);
      assert Fragments([], ds[1..]) == DiskElems(ds[1..]);
    }
  }

  /** Frame: outside disk and interface elements nothing changes. */
  lemma {:induction false} RestUnchanged(e: DeviceEdit, f: Forest)
    ensures Erase(EditDevices(e, f)) == Erase(f)
  {
    hide DropsDisk, DropsInterface, InterfaceUpdate, UpdateTag, UpdateTags;
    match f
    case Nil =>
    case Leaf(_, next) => RestUnchanged(e, next);
    case Elem(n, a, kids, next) =>
      RestUnchanged(e, next);
      if n != "disk" && n != "interface" {
        RestUnchanged(e, kids);
        if n == "devices" {
          EraseAppend(EditDevices(e, kids), Fragments(e.newInterfaces, e.newDisks));
          EraseFragments(e.newInterfaces, e.newDisks);
          AppendNil(Erase(kids));
        }
      }
  }

  const NO_EDIT: DeviceEdit := DeviceEdit(map[], [], {}, [], {})

  lemma {:induction false} EditAppend(e: DeviceEdit, f: Forest, g: Forest)
    ensures EditDevices(e, Append(f, g)) == Append(EditDevices(e, f), EditDevices(e, g))
  {
    hide DropsDisk, DropsInterface, InterfaceUpdate, UpdateTag, UpdateTags;
    match f
    case Nil =>
    case Leaf(_, next) => EditAppend(e, next, g);
    case Elem(_, _, kids, next) => EditAppend(e, next, g);
  }

  /** No disk element outside other devices is a normal disk with one of these targets. */
  predicate NoTarget(f: Forest, targets: set<string>) {
    match f
    case Nil => true
    case Leaf(_, next) => NoTarget(next, targets)
    case Elem(n, a, kids, next) =>
      && NoTarget(next, targets)
      && (n == "disk" ==> !(NormalDevice(DiskDevice(a, kids)) && TargetDev(kids) in targets))
      && (n != "disk" && n != "interface" ==> NoTarget(kids, targets))
  }

  function FragmentTargets(ds: seq<DiskFragment>): set<string> {
    set d | d in ds :: d.target
  }

  lemma NewDiskBacking(d: DiskFragment, next: Forest)
    ensures ReadStore(DiskElem(d, next).kids, None) == None
  {
    var kids := DiskElem(d, next).kids;
    assert "driver"[0] == 'd' && "source"[0] == 's' && "target"[0] == 't' && "backingStore"[0] == 'b';
    assert kids.next.next.next == Nil && ReadStore(kids.next.next, None) == None && ReadStore(kids.next, None) == None;
  }

  lemma NewDiskIdentity(d: DiskFragment, next: Forest)
    ensures var el := DiskElem(d, next);
            && DiskDevice(el.attrs, el.kids) == "disk" && TargetDev(el.kids) == d.target
            && EntryOf(el.attrs, el.kids) == DiskEntry("disk", d.target, d.path, "", None)
  {
    var el := DiskElem(d, next);
    var source, target := el.kids.next, el.kids.next.next;
    assert "driver"[0] == 'd' && "source"[0] == 's' && "target"[0] == 't';
    assert el.attrs[1] == Attr("device", "disk") && source.attrs[0].name == "file" && target.attrs[0].name == "dev";
    assert el.attrs[1..] == [Attr("device", "disk")] && AttrValue(el.attrs, "device") == "disk";
    assert HasAttr(source.attrs, "file") && !HasAttr(source.attrs, "dev") && HasAttr(target.attrs, "dev");
    assert ChildAttr(target, "target", "dev", "") == d.target;
    assert ChildAttr(source, "target", "dev", "") == d.target;
    assert ChildAttr(target, "source", "file", d.path) == d.path;
    assert ChildAttr(source, "source", "file", "") == d.path;
    assert ChildAttr(target, "source", "dev", "") == "";
    assert ChildAttr(source, "source", "dev", "") == "";
    NewDiskBacking(d, next);
    hide ReadStore;
    assert LastAttr(target, "target", "dev", "") == d.target;
    assert LastAttr(source, "target", "dev", "") == d.target;
    assert LastAttr(target, "disk", "device", "disk") == "disk";
    assert LastAttr(source, "disk", "device", "disk") == "disk";
  }

  lemma {:induction false} DropNewDisks(e: DeviceEdit, ds: seq<DiskFragment>)
    requires FragmentTargets(ds) <= e.deletedTargets
    ensures EditDevices(e, DiskElems(ds)) == Nil
  {
    if ds != [] {
      assert ds[0].target in FragmentTargets(ds);
      DropNewDisks(e, ds[1..]);
      NewDiskIdentity(ds[0], DiskElems(ds[1..]));
      hide LastAttr;
      assert DropsDisk(e, DiskElem(ds[0], Nil).attrs, DiskElem(ds[0], Nil).kids);
    }
  }

  function AddDisks(ds: seq<DiskFragment>): DeviceEdit { NO_EDIT.(newDisks := ds) }

  function DeleteDisks(targets: set<string>): DeviceEdit { NO_EDIT.(deletedTargets := targets) }

  lemma NoSources(e: DeviceEdit, kids: Forest)
    requires e.sources == map[]
    ensures InterfaceUpdate(e, kids).None?
  {
  }

  /** Adding disks under unused targets and then deleting those targets restores the document. */
  lemma {:induction false} AddThenDelete(ds: seq<DiskFragment>, f: Forest)
    requires NoTarget(f, FragmentTargets(ds))
    ensures EditDevices(DeleteDisks(FragmentTargets(ds)), EditDevices(AddDisks(ds), f)) == f
  {
    var add, del := AddDisks(ds), DeleteDisks(FragmentTargets(ds));
    match f
    case Nil =>
    case Leaf(_, next) => AddThenDelete(ds, next);
    case Elem(n, a, kids, next) =>
      AddThenDelete(ds, next);
      if n == "interface" {
        NoSources(add, kids);
        NoSources(del, kids);
      } else if n != "disk" {
        AddThenDelete(ds, kids);
        if n == "devices" {
          EditAppend(del, EditDevices(add, kids), DiskElems(ds));
          DropNewDisks(del, ds);
          AppendNil(kids);
        }
      }
  }

  // ---------- The disks of the rewritten domain ----------

  function Keep(ds: seq<DiskEntry>, deleted: set<string>): seq<DiskEntry> {
    if ds == [] then []
    else (if NormalDevice(ds[0].device) && ds[0].name in deleted then [] else [ds[0]]) + Keep(ds[1..], deleted)
  }

  function Entries(ds: seq<DiskFragment>): seq<DiskEntry> {
    if ds == [] then [] else [DiskEntry("disk", ds[0].target, ds[0].path, "", None)] + Entries(ds[1..])
  }

  lemma {:induction false} FragmentDisks(ifaces: seq<InterfaceFragment>, ds: seq<DiskFragment>)
    ensures DisksAmong(Fragments(ifaces, ds)) == Entries(ds)
    decreases |ifaces| + |ds|
  {
    if ifaces != [] {
      FragmentDisks(ifaces[1..], ds);
    } else if ds != [] {
      NewDiskIdentity(ds[0], DiskElems(ds[1..]));
      FragmentDisks([], ds[1..]);
      assert Fragments([], ds[1..]) == DiskElems(ds[1..]);
      hide EntryOf;
    }
  }

  lemma {:induction false} KeptDisks(e: DeviceEdit, f: Forest)
    requires PlainDisks(f)
    ensures DisksAmong(EditDevices(e, f)) == Keep(DisksAmong(f), e.deletedTargets)
  {
    hide EntryOf, DropsInterface, InterfaceUpdate, UpdateTag, UpdateTags, Fragments;
    match f
    case Nil =>
    case Leaf(_, next) => KeptDisks(e, next);
    case Elem(n, a, kids, next) =>
      KeptDisks(e, next);
      if n == "disk" {
        PlainIdentity(a, kids);
        assert [EntryOf(a, kids)] + DisksAmong(next) == DisksAmong(f);
        assert DisksAmong(f)[1..] == DisksAmong(next);
        var entry := EntryOf(a, kids);
        assert DropsDisk(e, a, kids) <==> NormalDevice(entry.device) && entry.name in e.deletedTargets;
        hide DropsDisk, NormalDevice;
        assert Keep(DisksAmong(f), e.deletedTargets)
            == (if NormalDevice(entry.device) && entry.name in e.deletedTargets then [] else [entry])
               + Keep(DisksAmong(next), e.deletedTargets);
        var rest := EditDevices(e, next);
        assert EditDevices(e, f) == if DropsDisk(e, a, kids) then rest else Elem(n, a, kids, rest);
        assert DisksAmong(Elem(n, a, kids, rest)) == [entry] + DisksAmong(rest);
        assert DisksAmong(EditDevices(e, f)) == (if DropsDisk(e, a, kids) then [] else [entry]) + DisksAmong(rest);
      } else {
        assert DisksAmong(f) == DisksAmong(next);
        assert DisksAmong(EditDevices(e, f)) == DisksAmong(EditDevices(e, next));
      }
  }

  lemma PlainIdentity(a: seq<Attr>, kids: Forest)
    requires PlainDisk(kids)
    ensures TargetDev(kids) == EntryOf(a, kids).name && DiskDevice(a, kids) == EntryOf(a, kids).device
  {
    DirectLastAttr(kids, "target", "dev", "");
    NoElemLastAttr(kids, "disk", "device", AttrValue(a, "device"));
  }

  lemma {:induction false} EditDevicesKids(e: DeviceEdit, f: Forest)
    requires OneDevices(f) || NoDevices(f)
    ensures NoDevices(f) ==> NoDevices(EditDevices(e, f))
    ensures OneDevices(f) ==> OneDevices(EditDevices(e, f))
    ensures OneDevices(f) ==>
              DevicesKids(EditDevices(e, f))
                == Append(EditDevices(e, DevicesKids(f)), Fragments(e.newInterfaces, e.newDisks))
  {
    hide DropsDisk, DropsInterface, InterfaceUpdate, UpdateTag, UpdateTags, Append, Fragments;
    match f
    case Nil =>
    case Leaf(_, next) => EditDevicesKids(e, next);
    case Elem(_, _, _, next) => EditDevicesKids(e, next);
  }

  lemma {:induction false} EditDomain(e: DeviceEdit, doc: Forest)
    requires DomainDoc(doc)
    ensures DomainDoc(EditDevices(e, doc))
    ensures DomainDevices(EditDevices(e, doc))
         == Append(EditDevices(e, DomainDevices(doc)), Fragments(e.newInterfaces, e.newDisks))
  {
    hide DropsDisk, DropsInterface, InterfaceUpdate, UpdateTag, UpdateTags, Append, Fragments;
    match doc
    case Leaf(_, next) => EditDomain(e, next);
    case Elem(_, _, kids, _) => EditDevicesKids(e, kids);
  }

  /** The disks after the rewrite: the old ones in order without the deleted ones, then the new ones. */
  lemma DisksAfter(e: DeviceEdit, doc: Forest)
    requires DomainDoc(doc) && PlainDisks(DomainDevices(doc))
    ensures AllDisks(EditDevices(e, doc)) == Keep(AllDisks(doc), e.deletedTargets) + Entries(e.newDisks)
  {
    EditDomain(e, doc);
    AllDisksOfDomain(doc);
    AllDisksOfDomain(EditDevices(e, doc));
    KeptDisks(e, DomainDevices(doc));
    DisksAmongAppend(EditDevices(e, DomainDevices(doc)), Fragments(e.newInterfaces, e.newDisks));
    FragmentDisks(e.newInterfaces, e.newDisks);
  }
}

// The boot devices a document shows after a media change in os mode, and what no media change touches.
module MediaDevices {
  import opened Strings
  import opened Xml
  import opened MediaBoot

  // ---------- The boot devices of an os element ----------

  /** The devices that boot elements name, at any depth and in document order, followed by more. */
  function BootDevs(f: Forest, more: seq<string>): seq<string>
    decreases f
  {
    match f
    case Nil => more
    case Leaf(_, next) => BootDevs(next, more)
    case Elem(n, a, kids, next) =>
      var dev, rest := AttrValue(a, "dev"), BootDevs(kids, BootDevs(next, more));
      if n == "boot" && !Blank(dev) then [dev] + rest else rest
  }

  /** One list of boot devices per os element, not counting what is nested in os elements, followed by more. */
  function BootLists(f: Forest, more: seq<seq<string>>): seq<seq<string>>
    decreases f
  {
    match f
    case Nil => more
    case Leaf(_, next) => BootLists(next, more)
    case Elem(n, _, kids, next) =>
      var rest := BootLists(next, more);
      if n == "os" then [BootDevs(kids, [])] + rest else BootLists(kids, rest)
  }

  /** The boot order the machine is to have: the medium in front of the hard disk, or the hard disk alone. */
  function DevicesFor(connected: bool): seq<string> {
    if connected then ["cdrom", "hd"] else ["hd"]
  }

  lemma {:induction false} RemovedDevs(f: Forest, more: seq<string>)
    ensures BootDevs(RemoveBoots(f, true), more) == more
    ensures !HasDevBoot(RemoveBoots(f, true))
    decreases f
  {
    hide AttrValue, Blank;
    match f
    case Nil =>
    case Leaf(_, next) => RemovedDevs(next, more);
    case Elem(_, _, kids, next) =>
      RemovedDevs(next, more);
      RemovedDevs(kids, more);
  }

  lemma {:induction false} NoneNamed(f: Forest, more: seq<string>)
    requires !HasDevBoot(f)
    ensures BootDevs(f, more) == more
    decreases f
  {
    hide AttrValue, Blank;
    match f
    case Nil =>
    case Leaf(_, next) => NoneNamed(next, more);
    case Elem(_, _, kids, next) =>
      NoneNamed(next, more);
      NoneNamed(kids, more);
  }

  lemma {:induction false} DevsAppend(f: Forest, g: Forest, more: seq<string>)
    ensures BootDevs(Append(f, g), more) == BootDevs(f, BootDevs(g, more))
    decreases f
  {
    hide AttrValue, Blank;
    match f
    case Nil =>
    case Leaf(_, next) => DevsAppend(next, g, more);
    case Elem(_, _, _, next) => DevsAppend(next, g, more);
  }

  lemma DevsOfBoot(device: string, next: Forest, more: seq<string>)
    requires device == "hd" || device == "cdrom"
    ensures BootDevs(DevBoot(device, next), more) == [device] + BootDevs(next, more)
  {
    hide Blank, AttrValue;
    NamedBoot(device);
    SingleAttr("dev", device);
  }

  lemma InsertedDevs(connected: bool, more: seq<string>)
    ensures BootDevs(DevBoots(connected), more) == DevicesFor(connected) + more
  {
    hide BootDevs, DevBoot;
    DevsOfBoot("hd", Nil, more);
    DevsOfBoot("cdrom", DevBoot("hd", Nil), more);
    assert BootDevs(Nil, more) == more by {
      NoneNamed(Nil, more);
    }
    assert ["cdrom"] + (["hd"] + more) == ["cdrom", "hd"] + more;
  }

  lemma {:induction false} DevsInserted(f: Forest, connected: bool, more: seq<string>)
    requires HasElem(f, "os") && !HasDevBoot(f)
    ensures BootDevs(InsertDevices(f, connected, false), more) == DevicesFor(connected) + more
    decreases f
  {
    hide AttrValue, Blank, DevBoots, DevicesFor;
    match f
    case Leaf(_, next) => DevsInserted(next, connected, more);
    case Elem(n, a, kids, next) =>
      NoneNamed(next, more);
      if HasElem(kids, "os") {
        DevsInserted(kids, connected, more);
      } else if n == "os" {
        DevsAppend(kids, DevBoots(connected), more);
        InsertedDevs(connected, more);
        NoneNamed(kids, DevicesFor(connected) + more);
        NotBoot(n);
      } else {
        DevsInserted(next, connected, more);
        NoneNamed(kids, DevicesFor(connected) + more);
      }
  }

  lemma NotBoot(n: string)
    ensures n == "os" ==> n != "boot"
  {
    BootNames();
  }

  lemma OSKidsDevs(connected: bool, kids: Forest)
    ensures BootDevs(OSKids(connected, kids), []) == DevicesFor(connected)
  {
    var cleaned := RemoveBoots(kids, true);
    RemovedDevs(kids, []);
    DevsAppend(cleaned, DevBoots(connected), []);
    InsertedDevs(connected, []);
    NoneNamed(cleaned, DevicesFor(connected) + []);
    if HasElem(cleaned, "os") {
      DevsInserted(cleaned, connected, []);
    }
    hide BootDevs, RemoveBoots, InsertDevices, DevBoots, Append, HasElem, HasDevBoot, DevicesFor;
    assert DevicesFor(connected) + [] == DevicesFor(connected);
  }

  /** The same list for every os element. */
  function Same(lists: seq<seq<string>>, devices: seq<string>): (r: seq<seq<string>>)
    ensures |r| == |lists| && forall i :: 0 <= i < |r| ==> r[i] == devices
  {
    seq(|lists|, i requires 0 <= i < |lists| => devices)
  }

  lemma SameCons(l: seq<string>, lists: seq<seq<string>>, devices: seq<string>)
    ensures Same([l] + lists, devices) == [devices] + Same(lists, devices)
  {
  }

  lemma {:induction false} EditedLists(connected: bool, f: Forest, more: seq<seq<string>>)
    ensures BootLists(EditOS(connected, f), Same(more, DevicesFor(connected)))
         == Same(BootLists(f, more), DevicesFor(connected))
    decreases f
  {
    hide BootDevs, OSKids, DevicesFor, Same;
    match f
    case Nil =>
    case Leaf(_, next) => EditedLists(connected, next, more);
    case Elem(n, _, kids, next) =>
      EditedLists(connected, next, more);
      if n == "os" {
        OSKidsDevs(connected, kids);
        SameCons(BootDevs(kids, []), BootLists(next, more), DevicesFor(connected));
      } else {
        EditedLists(connected, kids, BootLists(next, more));
      }
  }

  /** In os mode every os element names exactly the devices the machine is to boot from, in that order: cdrom in front
      of hd after a connect, hd alone after a disconnect. */
  lemma OSBootsFrom(doc: Forest, target: string, connected: bool)
    requires HasOSBoot(doc)
    ensures var before, after := BootLists(doc, []), BootLists(Edit(doc, target, connected), []);
            && |after| == |before| > 0
            && forall i :: 0 <= i < |after| ==> after[i] == if connected then ["cdrom", "hd"] else ["hd"]
  {
    EditedLists(connected, doc, []);
    OSModeMeans(doc, []);
    hide BootLists, HasOSBoot, EditOS;
    assert Same([], DevicesFor(connected)) == [];
  }

  lemma {:induction false} SomeNamed(f: Forest, more: seq<string>)
    ensures |BootDevs(f, more)| >= |more|
    ensures HasDevBoot(f) ==> |BootDevs(f, more)| > |more|
    decreases f
  {
    hide AttrValue, Blank;
    match f
    case Nil =>
    case Leaf(_, next) => SomeNamed(next, more);
    case Elem(_, _, kids, next) =>
      SomeNamed(next, more);
      SomeNamed(kids, BootDevs(next, more));
  }

  ghost predicate SomeBoots(lists: seq<seq<string>>) {
    exists i :: 0 <= i < |lists| && lists[i] != []
  }

  lemma SomeBootsCons(l: seq<string>, lists: seq<seq<string>>)
    ensures SomeBoots([l] + lists) <==> l != [] || SomeBoots(lists)
  {
    var all := [l] + lists;
    assert all[0] == l;
    if SomeBoots(lists) {
      var i :| 0 <= i < |lists| && lists[i] != [];
      assert all[i + 1] != [];
    }
    if SomeBoots(all) {
      var i :| 0 <= i < |all| && all[i] != [];
      assert i > 0 ==> lists[i - 1] == all[i];
    }
  }

  /** The mode is decided by what the os elements name. */
  lemma {:induction false} OSModeMeans(f: Forest, more: seq<seq<string>>)
    ensures SomeBoots(BootLists(f, more)) <==> HasOSBoot(f) || SomeBoots(more)
    decreases f
  {
    hide SomeBoots, BootDevs;
    match f
    case Nil =>
    case Leaf(_, next) => OSModeMeans(next, more);
    case Elem(n, _, kids, next) =>
      OSModeMeans(next, more);
      if n == "os" {
        SomeBootsCons(BootDevs(kids, []), BootLists(next, more));
        SomeNamed(kids, []);
        if !HasDevBoot(kids) {
          NoneNamed(kids, []);
        }
      } else {
        OSModeMeans(kids, BootLists(next, more));
      }
  }

  // ---------- What stays ----------

  /** The document without the boot elements inside elements of that name; with named, only those naming a device. */
  function Bootless(f: Forest, place: string, named: bool, inside: bool): Forest {
    match f
    case Nil => Nil
    case Leaf(t, next) => Leaf(t, Bootless(next, place, named, inside))
    case Elem(n, a, kids, next) =>
      var rest := Bootless(next, place, named, inside);
      if inside && n == "boot" && (named ==> !Blank(AttrValue(a, "dev"))) then rest
      else Elem(n, a, Bootless(kids, place, named, inside || n == place), rest)
  }

  lemma {:induction false} BootlessRemoved(f: Forest, place: string, named: bool)
    ensures Bootless(RemoveBoots(f, named), place, named, true) == Bootless(f, place, named, true)
  {
    hide AttrValue, Blank;
    match f
    case Nil =>
    case Leaf(_, next) => BootlessRemoved(next, place, named);
    case Elem(_, _, kids, next) =>
      BootlessRemoved(kids, place, named);
      BootlessRemoved(next, place, named);
  }

  lemma {:induction false} BootlessOrder(f: Forest, order: nat, done: bool)
    ensures Bootless(InsertOrder(f, order, done), "disk", false, true) == Bootless(f, "disk", false, true)
  {
    hide OrderAttrs, AttrValue, Blank;
    if !done {
      match f
      case Nil =>
      case Leaf(_, next) => BootlessOrder(next, order, false);
      case Elem(_, _, kids, next) =>
        BootlessOrder(kids, order, false);
        BootlessOrder(next, order, false);
        BootNames();
    }
  }

  lemma {:induction false} BootlessAppend(f: Forest, connected: bool)
    ensures Bootless(Append(f, DevBoots(connected)), "os", true, true) == Bootless(f, "os", true, true)
  {
    hide AttrValue, Blank, DevBoots;
    match f
    case Nil => BootlessBoots(connected);
    case Leaf(_, next) => BootlessAppend(next, connected);
    case Elem(_, _, _, next) => BootlessAppend(next, connected);
  }

  lemma BootlessBoots(connected: bool)
    ensures Bootless(DevBoots(connected), "os", true, true) == Nil
  {
    hide AttrValue, Blank;
    NamedBoot("hd");
    NamedBoot("cdrom");
  }

  lemma {:induction false} BootlessInserted(f: Forest, connected: bool, done: bool)
    ensures Bootless(InsertDevices(f, connected, done), "os", true, true) == Bootless(f, "os", true, true)
  {
    hide AttrValue, Blank, DevBoots;
    if !done {
      match f
      case Nil =>
      case Leaf(_, next) => BootlessInserted(next, connected, false);
      case Elem(_, _, kids, next) =>
        BootlessInserted(kids, connected, false);
        BootlessInserted(next, connected, false);
        BootlessAppend(kids, connected);
        BootNames();
    }
  }

  lemma BootlessOSKids(connected: bool, kids: Forest)
    ensures Bootless(OSKids(connected, kids), "os", true, true) == Bootless(kids, "os", true, true)
  {
    var cleaned := RemoveBoots(kids, true);
    BootlessRemoved(kids, "os", true);
    BootlessAppend(cleaned, connected);
    BootlessInserted(cleaned, connected, false);
    hide Bootless, RemoveBoots, Append, InsertDevices, DevBoots, HasElem;
  }

  lemma {:induction false} OSRestStays(connected: bool, f: Forest)
    ensures Bootless(EditOS(connected, f), "os", true, false) == Bootless(f, "os", true, false)
  {
    hide OSKids, AttrValue, Blank;
    match f
    case Nil =>
    case Leaf(_, next) => OSRestStays(connected, next);
    case Elem(_, _, kids, next) =>
      OSRestStays(connected, next);
      OSRestStays(connected, kids);
      BootlessOSKids(connected, kids);
  }

  lemma BootlessDisk(cdrom: string, connected: bool, bootSet: bool, device: string, target: string, kids: Forest)
    ensures Bootless(DiskKids(cdrom, connected, bootSet, device, target, kids), "disk", false, true)
         == Bootless(kids, "disk", false, true)
  {
    var cleaned := RemoveBoots(kids, false);
    BootlessRemoved(kids, "disk", false);
    BootlessOrder(cleaned, 1, false);
    BootlessOrder(cleaned, 2, false);
    hide Bootless, RemoveBoots, InsertOrder, IsCdrom;
  }

  lemma {:induction false} DisksRestStays(cdrom: string, connected: bool, f: Forest, bootSet: bool)
    ensures Bootless(EditDisks(cdrom, connected, f, bootSet), "disk", false, false) == Bootless(f, "disk", false, false)
  {
    hide DiskKids, Device, Target, IsNormal, HasNormal, AttrValue, Blank;
    match f
    case Nil =>
    case Leaf(_, next) => DisksRestStays(cdrom, connected, next, bootSet);
    case Elem(n, a, kids, next) =>
      if n == "disk" {
        BootlessDisk(cdrom, connected, bootSet, Device(a, kids), Target(kids), kids);
        DisksRestStays(cdrom, connected, next, bootSet || IsNormal(Device(a, kids), Target(kids)));
      } else {
        DisksRestStays(cdrom, connected, kids, bootSet);
        DisksRestStays(cdrom, connected, next, bootSet || HasNormal(kids));
      }
  }

  /** Frame: in os mode nothing changes but the boot elements inside os that name a device, in per-disk mode nothing
      but those inside disks. */
  lemma ChangeKeepsRest(doc: Forest, target: string, connected: bool)
    ensures var after := Edit(doc, target, connected);
            if HasOSBoot(doc) then Bootless(after, "os", true, false) == Bootless(doc, "os", true, false)
            else Bootless(after, "disk", false, false) == Bootless(doc, "disk", false, false)
  {
    hide *;
    OSRestStays(connected, doc);
    DisksRestStays(TrimSpace(target), connected, doc, false);
    EditCases(doc, target, connected);
  }

  lemma EditCases(doc: Forest, target: string, connected: bool)
    ensures Edit(doc, target, connected)
         == if HasOSBoot(doc) then EditOS(connected, doc) else EditDisks(TrimSpace(target), connected, doc, false)
  {
    hide EditOS, EditDisks, HasOSBoot, TrimSpace;
  }
}

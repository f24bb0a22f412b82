// Boot order after media changes: the tree edits behind the token loops, and what a run of them does.
module MediaBoot {
  import opened Common
  import opened Strings
  import opened Xml
  import opened DeviceRewrite

  // ---------- Removing and inserting boot elements ----------

  /** A boot element; with devOnly, one that names a device. */
  predicate IsBoot(n: string, a: seq<Attr>, devOnly: bool) {
    n == "boot" && (devOnly ==> !Blank(AttrValue(a, "dev")))
  }

  function RemoveBoots(f: Forest, devOnly: bool): Forest {
    match f
    case Nil => Nil
    case Leaf(t, next) => Leaf(t, RemoveBoots(next, devOnly))
    case Elem(n, a, kids, next) =>
      if IsBoot(n, a, devOnly) then RemoveBoots(next, devOnly)
      else Elem(n, a, RemoveBoots(kids, devOnly), RemoveBoots(next, devOnly))
  }

  function OrderAttrs(order: nat): seq<Attr> { [Attr("order", Decimal(order))] }

  /** Insert a boot element behind the first target element that ends, unless done. */
  function InsertOrder(f: Forest, order: nat, done: bool): Forest {
    if done then f else
      match f
      case Nil => Nil
      case Leaf(t, next) => Leaf(t, InsertOrder(next, order, false))
      case Elem(n, a, kids, next) =>
        if HasElem(kids, "target") then Elem(n, a, InsertOrder(kids, order, false), next)
        else if n == "target" then Elem(n, a, kids, Elem("boot", OrderAttrs(order), Nil, next))
        else Elem(n, a, kids, InsertOrder(next, order, false))
  }

  /** setDiskBootOrder on the children of a disk. */
  function SetOrder(kids: Forest, order: nat): Forest {
    InsertOrder(RemoveBoots(kids, false), order, false)
  }

  function DevBoot(device: string, next: Forest): Forest {
    Elem("boot", [Attr("dev", device)], Nil, next)
  }

  function DevBoots(connected: bool): Forest {
    if connected then DevBoot("cdrom", DevBoot("hd", Nil)) else DevBoot("hd", Nil)
  }

  /** Insert the boot devices in front of the end of the first os element that ends, unless done. */
  function InsertDevices(f: Forest, connected: bool, done: bool): Forest {
    if done then f else
      match f
      case Nil => Nil
      case Leaf(t, next) => Leaf(t, InsertDevices(next, connected, false))
      case Elem(n, a, kids, next) =>
        if HasElem(kids, "os") then Elem(n, a, InsertDevices(kids, connected, false), next)
        else if n == "os" then Elem(n, a, Append(kids, DevBoots(connected)), next)
        else Elem(n, a, kids, InsertDevices(next, connected, false))
  }

  // ---------- Per-disk mode ----------

  function Device(a: seq<Attr>, kids: Forest): string {
    TrimSpace(LastAttr(kids, "disk", "device", AttrValue(a, "device")))
  }

  function Target(kids: Forest): string {
    TrimSpace(LastAttr(kids, "target", "dev", ""))
  }

  predicate IsCdrom(device: string) { EqualFold(device, "cdrom") }

  /** A disk that counts for the boot order: it has a target and is no CDROM or other device. */
  predicate IsNormal(device: string, target: string) {
    target != "" && !IsCdrom(device) && NormalDevice(device)
  }

  /** What updateDiskBootTokens does to the children of a disk; bootSet tells whether a normal disk came before. */
  function DiskKids(cdrom: string, connected: bool, bootSet: bool, device: string, target: string,
                    kids: Forest): Forest {
    if target == "" then kids
    else if IsCdrom(device) then
      if target == cdrom && connected then SetOrder(kids, 1) else RemoveBoots(kids, false)
    else if NormalDevice(device) then
      if !bootSet then SetOrder(kids, if connected then 2 else 1) else RemoveBoots(kids, false)
    else kids
  }

  /** A normal disk occurs, not counting what is nested in disks. */
  predicate HasNormal(f: Forest) {
    match f
    case Nil => false
    case Leaf(_, next) => HasNormal(next)
    case Elem(n, a, kids, next) =>
      (if n == "disk" then IsNormal(Device(a, kids), Target(kids)) else HasNormal(kids)) || HasNormal(next)
  }

  function EditDisks(cdrom: string, connected: bool, f: Forest, bootSet: bool): Forest {
    match f
    case Nil => Nil
    case Leaf(t, next) => Leaf(t, EditDisks(cdrom, connected, next, bootSet))
    case Elem(n, a, kids, next) =>
      if n == "disk" then
        Elem(n, a, DiskKids(cdrom, connected, bootSet, Device(a, kids), Target(kids), kids),
             EditDisks(cdrom, connected, next, bootSet || IsNormal(Device(a, kids), Target(kids))))
      else
        Elem(n, a, EditDisks(cdrom, connected, kids, bootSet),
             EditDisks(cdrom, connected, next, bootSet || HasNormal(kids)))
  }

  /** Some disk is a CDROM drive with that target. */
  predicate HasCdrom(f: Forest, cdrom: string) {
    match f
    case Nil => false
    case Leaf(_, next) => HasCdrom(next, cdrom)
    case Elem(n, a, kids, next) =>
      || (if n == "disk" then IsCdrom(Device(a, kids)) && Target(kids) == cdrom else HasCdrom(kids, cdrom))
      || HasCdrom(next, cdrom)
  }

  // ---------- os mode ----------

  function EditOS(connected: bool, f: Forest): Forest {
    match f
    case Nil => Nil
    case Leaf(t, next) => Leaf(t, EditOS(connected, next))
    case Elem(n, a, kids, next) =>
      if n == "os" then Elem(n, a, OSKids(connected, kids), EditOS(connected, next))
      else Elem(n, a, EditOS(connected, kids), EditOS(connected, next))
  }

  /** What rewriteOSBootTokens does to the children of an os element. */
  function OSKids(connected: bool, kids: Forest): Forest {
    var cleaned := RemoveBoots(kids, true);
    if HasElem(cleaned, "os") then InsertDevices(cleaned, connected, false) else Append(cleaned, DevBoots(connected))
  }

  predicate HasDevBoot(f: Forest) {
    match f
    case Nil => false
    case Leaf(_, next) => HasDevBoot(next)
    case Elem(n, a, kids, next) => IsBoot(n, a, true) || HasDevBoot(kids) || HasDevBoot(next)
  }

  /** hasOSBootElements */
  predicate HasOSBoot(f: Forest) {
    match f
    case Nil => false
    case Leaf(_, next) => HasOSBoot(next)
    case Elem(n, _, kids, next) => (if n == "os" then HasDevBoot(kids) else HasOSBoot(kids)) || HasOSBoot(next)
  }

  predicate HasTarget(f: Forest, target: string) {
    match f
    case Nil => false
    case Leaf(_, next) => HasTarget(next, target)
    case Elem(n, a, kids, next) =>
      (n == "target" && TrimSpace(AttrValue(a, "dev")) == target) || HasTarget(kids, target) || HasTarget(next, target)
  }

  /** hasCDROMTargetInXML: any target of a disk whose own device is cdrom. */
  predicate HasCdromTarget(f: Forest, cdrom: string) {
    match f
    case Nil => false
    case Leaf(_, next) => HasCdromTarget(next, cdrom)
    case Elem(n, a, kids, next) =>
      || (if n == "disk" then IsCdrom(TrimSpace(AttrValue(a, "device"))) && HasTarget(kids, cdrom)
          else HasCdromTarget(kids, cdrom))
      || HasCdromTarget(next, cdrom)
  }

  // ---------- One media change ----------

  /** The CDROM target exists, in the sense of the mode that applies. */
  predicate Exists(doc: Forest, target: string) {
    var cdrom := TrimSpace(target);
    cdrom != "" && if HasOSBoot(doc) then HasCdromTarget(doc, cdrom) else HasCdrom(doc, cdrom)
  }

  function Edit(doc: Forest, target: string, connected: bool): Forest {
    if HasOSBoot(doc) then EditOS(connected, doc) else EditDisks(TrimSpace(target), connected, doc, false)
  }

  /** updateCDROMBootOrderXML on trees. */
  function UpdateBootOrder(doc: Forest, target: string, connected: bool): Option<Forest> {
    if Exists(doc, target) then Some(Edit(doc, target, connected)) else None
  }

  // ---------- Boot elements are leaves ----------

  /** Boot elements contain no disk and no target. */
  predicate PlainBoots(f: Forest) {
    match f
    case Nil => true
    case Leaf(_, next) => PlainBoots(next)
    case Elem(n, _, kids, next) =>
      (n == "boot" ==> !HasElem(kids, "disk") && !HasElem(kids, "target")) && PlainBoots(kids) && PlainBoots(next)
  }

  lemma BootNames()
    ensures "boot" != "disk" && "boot" != "target" && "boot" != "os" && "disk" != "os" && "disk" != "target"
    ensures "target" != "os"
  {
    assert "boot"[0] == 'b' && "disk"[0] == 'd' && "target"[0] == 't' && "os"[0] == 'o';
  }

  /** Removing leaf boot elements does not change what identifies a disk. */
  lemma {:induction false} RemoveKeepsLast(f: Forest, devOnly: bool, elem: string, attr: string, init: string)
    requires PlainBoots(f) && (elem == "disk" || elem == "target")
    ensures LastAttr(RemoveBoots(f, devOnly), elem, attr, init) == LastAttr(f, elem, attr, init)
  {
    BootNames();
    hide AttrValue, Blank;
    match f
    case Nil =>
    case Leaf(_, next) => RemoveKeepsLast(next, devOnly, elem, attr, init);
    case Elem(n, a, kids, next) =>
      var first := if n == elem then AttrValue(a, attr) else init;
      if IsBoot(n, a, devOnly) {
        NoElemLastAttr(kids, elem, attr, init);
        RemoveKeepsLast(next, devOnly, elem, attr, init);
      } else {
        RemoveKeepsLast(kids, devOnly, elem, attr, first);
        RemoveKeepsLast(next, devOnly, elem, attr, LastAttr(kids, elem, attr, first));
      }
  }

  lemma {:induction false} InsertKeepsLast(f: Forest, order: nat, done: bool, elem: string, attr: string, init: string)
    requires elem == "disk" || elem == "target"
    ensures LastAttr(InsertOrder(f, order, done), elem, attr, init) == LastAttr(f, elem, attr, init)
  {
    BootNames();
    hide AttrValue, OrderAttrs;
    if !done {
      match f
      case Nil =>
      case Leaf(_, next) => InsertKeepsLast(next, order, false, elem, attr, init);
      case Elem(n, a, kids, next) =>
        var first := if n == elem then AttrValue(a, attr) else init;
        if HasElem(kids, "target") {
          InsertKeepsLast(kids, order, false, elem, attr, first);
        } else if n != "target" {
          InsertKeepsLast(next, order, false, elem, attr, LastAttr(kids, elem, attr, first));
        } else {
          var boot := Elem("boot", OrderAttrs(order), Nil, next);
          assert InsertOrder(f, order, false) == Elem(n, a, kids, boot);
          assert LastAttr(boot, elem, attr, LastAttr(kids, elem, attr, first)) == LastAttr(f, elem, attr, init);
        }
    }
  }

  lemma SetOrderKeepsLast(kids: Forest, order: nat, elem: string, attr: string, init: string)
    requires PlainBoots(kids) && (elem == "disk" || elem == "target")
    ensures LastAttr(SetOrder(kids, order), elem, attr, init) == LastAttr(kids, elem, attr, init)
  {
    RemoveKeepsLast(kids, false, elem, attr, init);
    InsertKeepsLast(RemoveBoots(kids, false), order, false, elem, attr, init);
  }

  lemma SameIdentity(a: seq<Attr>, kids: Forest, order: nat)
    requires PlainBoots(kids)
    ensures Device(a, RemoveBoots(kids, false)) == Device(a, kids) && Target(RemoveBoots(kids, false)) == Target(kids)
    ensures Device(a, SetOrder(kids, order)) == Device(a, kids) && Target(SetOrder(kids, order)) == Target(kids)
  {
    var d := AttrValue(a, "device");
    RemoveKeepsLast(kids, false, "disk", "device", d);
    RemoveKeepsLast(kids, false, "target", "dev", "");
    SetOrderKeepsLast(kids, order, "disk", "device", d);
    SetOrderKeepsLast(kids, order, "target", "dev", "");
    hide TrimSpace, LastAttr, SetOrder, RemoveBoots, AttrValue, PlainBoots;
  }

  /** A rewritten disk is still the same disk. */
  lemma SameDisk(cdrom: string, connected: bool, bootSet: bool, a: seq<Attr>, kids: Forest)
    requires PlainBoots(kids)
    ensures var after := DiskKids(cdrom, connected, bootSet, Device(a, kids), Target(kids), kids);
            Device(a, after) == Device(a, kids) && Target(after) == Target(kids)
  {
    hide Device, Target, SetOrder, RemoveBoots, PlainBoots, NormalDevice, IsCdrom;
    SameIdentity(a, kids, 1);
    SameIdentity(a, kids, 2);
  }

  // ---------- Absorption ----------

  lemma {:induction false} RemoveTwice(f: Forest, devOnly: bool)
    ensures RemoveBoots(RemoveBoots(f, devOnly), devOnly) == RemoveBoots(f, devOnly)
  {
    hide AttrValue, Blank;
    match f
    case Nil =>
    case Leaf(_, next) => RemoveTwice(next, devOnly);
    case Elem(_, _, kids, next) =>
      RemoveTwice(kids, devOnly);
      RemoveTwice(next, devOnly);
  }

  lemma {:induction false} RemoveInserted(f: Forest, order: nat, done: bool)
    ensures RemoveBoots(InsertOrder(f, order, done), false) == RemoveBoots(f, false)
  {
    BootNames();
    hide OrderAttrs;
    if !done {
      match f
      case Nil =>
      case Leaf(_, next) => RemoveInserted(next, order, false);
      case Elem(_, _, kids, next) =>
        RemoveInserted(kids, order, false);
        RemoveInserted(next, order, false);
    }
  }

  /** On the children of one disk, the later rewrite alone decides. */
  lemma DiskAbsorbs(c1: string, k1: bool, b1: bool, c2: string, k2: bool, b2: bool, device: string, target: string,
                    kids: Forest)
    ensures DiskKids(c2, k2, b2, device, target, DiskKids(c1, k1, b1, device, target, kids))
              == DiskKids(c2, k2, b2, device, target, kids)
  {
    var cleaned := RemoveBoots(kids, false);
    RemoveTwice(kids, false);
    RemoveInserted(cleaned, 1, false);
    RemoveInserted(cleaned, 2, false);
    hide RemoveBoots, InsertOrder, IsCdrom, NormalDevice;
  }

  lemma {:induction false} EditKeepsNormal(cdrom: string, connected: bool, f: Forest, bootSet: bool)
    requires PlainBoots(f)
    ensures HasNormal(EditDisks(cdrom, connected, f, bootSet)) == HasNormal(f)
  {
    hide DiskKids, Device, Target, IsNormal;
    match f
    case Nil =>
    case Leaf(_, next) => EditKeepsNormal(cdrom, connected, next, bootSet);
    case Elem(n, a, kids, next) =>
      if n == "disk" {
        SameDisk(cdrom, connected, bootSet, a, kids);
        EditKeepsNormal(cdrom, connected, next, bootSet || IsNormal(Device(a, kids), Target(kids)));
      } else {
        EditKeepsNormal(cdrom, connected, kids, bootSet);
        EditKeepsNormal(cdrom, connected, next, bootSet || HasNormal(kids));
      }
  }

  lemma {:induction false} EditKeepsCdrom(cdrom: string, connected: bool, f: Forest, bootSet: bool, other: string)
    requires PlainBoots(f)
    ensures HasCdrom(EditDisks(cdrom, connected, f, bootSet), other) == HasCdrom(f, other)
  {
    hide DiskKids, Device, Target, IsNormal, IsCdrom;
    match f
    case Nil =>
    case Leaf(_, next) => EditKeepsCdrom(cdrom, connected, next, bootSet, other);
    case Elem(n, a, kids, next) =>
      if n == "disk" {
        SameDisk(cdrom, connected, bootSet, a, kids);
        EditKeepsCdrom(cdrom, connected, next, bootSet || IsNormal(Device(a, kids), Target(kids)), other);
      } else {
        EditKeepsCdrom(cdrom, connected, kids, bootSet, other);
        EditKeepsCdrom(cdrom, connected, next, bootSet || HasNormal(kids), other);
      }
  }

  /** In per-disk mode the later of two rewrites alone decides. */
  lemma {:induction false} DisksAbsorb(c1: string, k1: bool, c2: string, k2: bool, f: Forest, bootSet: bool)
    requires PlainBoots(f)
    ensures EditDisks(c2, k2, EditDisks(c1, k1, f, bootSet), bootSet) == EditDisks(c2, k2, f, bootSet)
  {
    hide DiskKids, Device, Target, IsNormal;
    match f
    case Nil =>
    case Leaf(_, next) => DisksAbsorb(c1, k1, c2, k2, next, bootSet);
    case Elem(n, a, kids, next) =>
      if n == "disk" {
        SameDisk(c1, k1, bootSet, a, kids);
        DiskAbsorbs(c1, k1, bootSet, c2, k2, bootSet, Device(a, kids), Target(kids), kids);
        DisksAbsorb(c1, k1, c2, k2, next, bootSet || IsNormal(Device(a, kids), Target(kids)));
      } else {
        EditKeepsNormal(c1, k1, kids, bootSet);
        DisksAbsorb(c1, k1, c2, k2, kids, bootSet);
        DisksAbsorb(c1, k1, c2, k2, next, bootSet || HasNormal(kids));
      }
  }

  lemma {:induction false} RemoveAppend(f: Forest, g: Forest, devOnly: bool)
    ensures RemoveBoots(Append(f, g), devOnly) == Append(RemoveBoots(f, devOnly), RemoveBoots(g, devOnly))
  {
    hide IsBoot;
    match f
    case Nil =>
    case Leaf(_, next) => RemoveAppend(next, g, devOnly);
    case Elem(_, _, _, next) => RemoveAppend(next, g, devOnly);
  }

  lemma NotBlank(word: string)
    requires word != "" && IsTrimmed(word)
    ensures !Blank(word)
  {
    hide IsSpace;
  }

  lemma SingleAttr(name: string, value: string)
    ensures AttrValue([Attr(name, value)], name) == value
  {
  }

  lemma NamedBoot(device: string)
    requires device == "hd" || device == "cdrom"
    ensures IsBoot("boot", [Attr("dev", device)], true)
  {
    hide TrimSpace, AttrValue;
    SingleAttr("dev", device);
    assert device[0] == 'h' || device[0] == 'c';
    assert device[|device| - 1] == 'd' || device[|device| - 1] == 'm';
    NotBlank(device);
    hide Blank;
  }

  lemma RemoveDevBoots(connected: bool)
    ensures RemoveBoots(DevBoots(connected), true) == Nil
  {
    hide IsBoot;
    NamedBoot("hd");
    NamedBoot("cdrom");
  }

  lemma {:induction false} RemoveInsertedDevices(f: Forest, connected: bool, done: bool)
    ensures RemoveBoots(InsertDevices(f, connected, done), true) == RemoveBoots(f, true)
  {
    BootNames();
    hide Blank, AttrValue, DevBoots;
    if !done {
      match f
      case Nil =>
      case Leaf(_, next) => RemoveInsertedDevices(next, connected, false);
      case Elem(n, _, kids, next) =>
        RemoveInsertedDevices(kids, connected, false);
        RemoveInsertedDevices(next, connected, false);
        if n == "os" {
          RemoveAppend(kids, DevBoots(connected), true);
          RemoveDevBoots(connected);
          AppendNil(RemoveBoots(kids, true));
        }
    }
  }

  /** On the children of one os element, the later rewrite alone decides. */
  lemma OSAbsorbs(k1: bool, k2: bool, kids: Forest)
    ensures OSKids(k2, OSKids(k1, kids)) == OSKids(k2, kids)
  {
    var cleaned := RemoveBoots(kids, true);
    RemoveTwice(kids, true);
    RemoveInsertedDevices(cleaned, k1, false);
    RemoveAppend(cleaned, DevBoots(k1), true);
    RemoveDevBoots(k1);
    AppendNil(cleaned);
    hide RemoveBoots, InsertDevices, DevBoots, Append, HasElem;
  }

  lemma {:induction false} EditOSAbsorbs(k1: bool, k2: bool, f: Forest)
    ensures EditOS(k2, EditOS(k1, f)) == EditOS(k2, f)
  {
    hide OSKids;
    match f
    case Nil =>
    case Leaf(_, next) => EditOSAbsorbs(k1, k2, next);
    case Elem(n, _, kids, next) =>
      OSAbsorbs(k1, k2, kids);
      EditOSAbsorbs(k1, k2, kids);
      EditOSAbsorbs(k1, k2, next);
  }

  // ---------- The mode never switches ----------

  lemma {:induction false} RemoveNoDevBoot(f: Forest, devOnly: bool)
    ensures HasDevBoot(RemoveBoots(f, devOnly)) ==> HasDevBoot(f)
    ensures HasOSBoot(RemoveBoots(f, devOnly)) ==> HasOSBoot(f)
  {
    hide IsBoot;
    match f
    case Nil =>
    case Leaf(_, next) => RemoveNoDevBoot(next, devOnly);
    case Elem(_, _, kids, next) =>
      RemoveNoDevBoot(kids, devOnly);
      RemoveNoDevBoot(next, devOnly);
  }

  lemma {:induction false} InsertNoDevBoot(f: Forest, order: nat, done: bool)
    ensures HasDevBoot(InsertOrder(f, order, done)) == HasDevBoot(f)
    ensures HasOSBoot(InsertOrder(f, order, done)) == HasOSBoot(f)
  {
    BootNames();
    OrderIsNoDev(order);
    hide IsBoot, OrderAttrs;
    if !done {
      match f
      case Nil =>
      case Leaf(_, next) => InsertNoDevBoot(next, order, false);
      case Elem(n, a, kids, next) =>
        InsertNoDevBoot(kids, order, false);
        InsertNoDevBoot(next, order, false);
        var boot := Elem("boot", OrderAttrs(order), Nil, next);
        assert HasDevBoot(boot) == HasDevBoot(next) && HasOSBoot(boot) == HasOSBoot(next);
    }
  }

  lemma OrderIsNoDev(order: nat)
    ensures !IsBoot("boot", OrderAttrs(order), true)
  {
    assert "order"[0] == 'o' && "dev"[0] == 'd';
    assert OrderAttrs(order)[0].name == "order" && OrderAttrs(order)[1..] == [];
    assert AttrValue(OrderAttrs(order), "dev") == "";
    hide AttrValue, TrimSpace, Decimal;
    assert IsTrimmed("");
    assert TrimSpace("") == "";
  }

  lemma DiskNoDevBoot(cdrom: string, connected: bool, bootSet: bool, device: string, target: string, kids: Forest)
    ensures var after := DiskKids(cdrom, connected, bootSet, device, target, kids);
            (HasDevBoot(after) ==> HasDevBoot(kids)) && (HasOSBoot(after) ==> HasOSBoot(kids))
  {
    RemoveNoDevBoot(kids, false);
    InsertNoDevBoot(RemoveBoots(kids, false), 1, false);
    InsertNoDevBoot(RemoveBoots(kids, false), 2, false);
    hide RemoveBoots, InsertOrder, HasDevBoot, HasOSBoot, IsCdrom, NormalDevice;
  }

  lemma {:induction false} DisksModeStays(cdrom: string, connected: bool, f: Forest, bootSet: bool)
    ensures HasDevBoot(EditDisks(cdrom, connected, f, bootSet)) ==> HasDevBoot(f)
    ensures HasOSBoot(EditDisks(cdrom, connected, f, bootSet)) ==> HasOSBoot(f)
  {
    hide DiskKids, Device, Target, IsNormal, IsBoot;
    match f
    case Nil =>
    case Leaf(_, next) => DisksModeStays(cdrom, connected, next, bootSet);
    case Elem(n, a, kids, next) =>
      if n == "disk" {
        BootNames();
        DiskNoDevBoot(cdrom, connected, bootSet, Device(a, kids), Target(kids), kids);
        DisksModeStays(cdrom, connected, next, bootSet || IsNormal(Device(a, kids), Target(kids)));
      } else {
        DisksModeStays(cdrom, connected, kids, bootSet);
        DisksModeStays(cdrom, connected, next, bootSet || HasNormal(kids));
      }
  }

  lemma {:induction false} DevBootsAppended(f: Forest, connected: bool)
    ensures HasDevBoot(Append(f, DevBoots(connected)))
  {
    hide IsBoot;
    NamedBoot("hd");
    NamedBoot("cdrom");
    match f
    case Nil =>
    case Leaf(_, next) => DevBootsAppended(next, connected);
    case Elem(_, _, _, next) => DevBootsAppended(next, connected);
  }

  lemma {:induction false} DevicesInserted(f: Forest, connected: bool)
    requires HasElem(f, "os")
    ensures HasDevBoot(InsertDevices(f, connected, false))
  {
    hide IsBoot, DevBoots;
    match f
    case Leaf(_, next) => DevicesInserted(next, connected);
    case Elem(n, _, kids, next) =>
      if HasElem(kids, "os") {
        DevicesInserted(kids, connected);
      } else if n == "os" {
        DevBootsAppended(kids, connected);
      } else {
        DevicesInserted(next, connected);
      }
  }

  lemma {:induction false} OSModeStays(connected: bool, f: Forest)
    requires HasOSBoot(f)
    ensures HasOSBoot(EditOS(connected, f))
  {
    hide IsBoot;
    match f
    case Leaf(_, next) => OSModeStays(connected, next);
    case Elem(n, _, kids, next) =>
      if n == "os" {
        var cleaned := RemoveBoots(kids, true);
        if HasElem(cleaned, "os") {
          DevicesInserted(cleaned, connected);
        } else {
          DevBootsAppended(cleaned, connected);
        }
      } else if HasOSBoot(kids) {
        OSModeStays(connected, kids);
      } else {
        OSModeStays(connected, next);
      }
  }

  // ---------- Targets stay in os mode ----------

  lemma {:induction false} NoElemNoTarget(f: Forest, target: string)
    ensures !HasElem(f, "target") ==> !HasTarget(f, target)
    ensures !HasElem(f, "disk") ==> !HasCdromTarget(f, target)
  {
    hide TrimSpace, AttrValue, IsCdrom;
    match f
    case Nil =>
    case Leaf(_, next) => NoElemNoTarget(next, target);
    case Elem(_, _, kids, next) =>
      NoElemNoTarget(kids, target);
      NoElemNoTarget(next, target);
  }

  lemma {:induction false} RemoveKeepsTarget(f: Forest, devOnly: bool, target: string)
    requires PlainBoots(f)
    ensures HasTarget(RemoveBoots(f, devOnly), target) == HasTarget(f, target)
    ensures HasCdromTarget(RemoveBoots(f, devOnly), target) == HasCdromTarget(f, target)
  {
    BootNames();
    hide TrimSpace, AttrValue, Blank, IsCdrom;
    match f
    case Nil =>
    case Leaf(_, next) => RemoveKeepsTarget(next, devOnly, target);
    case Elem(n, a, kids, next) =>
      RemoveKeepsTarget(next, devOnly, target);
      RemoveKeepsTarget(kids, devOnly, target);
      if IsBoot(n, a, devOnly) {
        NoElemNoTarget(kids, target);
      }
  }

  lemma {:induction false} AppendKeepsTarget(f: Forest, connected: bool, target: string)
    ensures HasTarget(Append(f, DevBoots(connected)), target) == HasTarget(f, target)
    ensures HasCdromTarget(Append(f, DevBoots(connected)), target) == HasCdromTarget(f, target)
  {
    hide TrimSpace, AttrValue, IsCdrom;
    match f
    case Nil =>
      BootNames();
      assert !HasTarget(DevBoot("hd", Nil), target) && !HasCdromTarget(DevBoot("hd", Nil), target);
    case Leaf(_, next) => AppendKeepsTarget(next, connected, target);
    case Elem(_, _, kids, next) => AppendKeepsTarget(next, connected, target);
  }

  lemma {:induction false} InsertKeepsTarget(f: Forest, connected: bool, done: bool, target: string)
    ensures HasTarget(InsertDevices(f, connected, done), target) == HasTarget(f, target)
    ensures HasCdromTarget(InsertDevices(f, connected, done), target) == HasCdromTarget(f, target)
  {
    BootNames();
    hide TrimSpace, AttrValue, IsCdrom, DevBoots;
    if !done {
      match f
      case Nil =>
      case Leaf(_, next) => InsertKeepsTarget(next, connected, false, target);
      case Elem(n, _, kids, next) =>
        InsertKeepsTarget(kids, connected, false, target);
        InsertKeepsTarget(next, connected, false, target);
        if n == "os" {
          AppendKeepsTarget(kids, connected, target);
        }
    }
  }

  lemma OSKidsKeepTarget(connected: bool, kids: Forest, target: string)
    requires PlainBoots(kids)
    ensures HasTarget(OSKids(connected, kids), target) == HasTarget(kids, target)
    ensures HasCdromTarget(OSKids(connected, kids), target) == HasCdromTarget(kids, target)
  {
    RemoveKeepsTarget(kids, true, target);
    InsertKeepsTarget(RemoveBoots(kids, true), connected, false, target);
    AppendKeepsTarget(RemoveBoots(kids, true), connected, target);
    hide RemoveBoots, InsertDevices, HasTarget, HasCdromTarget, Append, PlainBoots, HasElem;
  }

  lemma {:induction false} EditOSKeepsTarget(connected: bool, f: Forest, target: string)
    requires PlainBoots(f)
    ensures HasTarget(EditOS(connected, f), target) == HasTarget(f, target)
    ensures HasCdromTarget(EditOS(connected, f), target) == HasCdromTarget(f, target)
  {
    hide TrimSpace, AttrValue, IsCdrom, OSKids;
    BootNames();
    match f
    case Nil =>
    case Leaf(_, next) => EditOSKeepsTarget(connected, next, target);
    case Elem(n, _, kids, next) =>
      EditOSKeepsTarget(connected, kids, target);
      EditOSKeepsTarget(connected, next, target);
      OSKidsKeepTarget(connected, kids, target);
  }

  // ---------- Runs ----------

  datatype Change = Change(target: string, connected: bool)

  /** A failed change leaves the document alone. */
  function Apply(doc: Forest, c: Change): Forest {
    match UpdateBootOrder(doc, c.target, c.connected)
    case None => doc
    case Some(next) => next
  }

  function Run(doc: Forest, changes: seq<Change>): Forest {
    if changes == [] then doc else Apply(Run(doc, changes[..|changes| - 1]), changes[|changes| - 1])
  }

  /** The last change whose CDROM target exists. */
  function LastChange(doc: Forest, changes: seq<Change>): Option<Change> {
    if changes == [] then None
    else if Exists(doc, changes[|changes| - 1].target) then Some(changes[|changes| - 1])
    else LastChange(doc, changes[..|changes| - 1])
  }

  /** One change neither switches the mode nor makes CDROM targets appear or vanish, and the next one absorbs it. */
  lemma ChangeAbsorbed(doc: Forest, c: Change, d: Change)
    requires PlainBoots(doc)
    ensures HasOSBoot(Apply(doc, c)) == HasOSBoot(doc)
    ensures Exists(Apply(doc, c), d.target) == Exists(doc, d.target)
    ensures Exists(doc, d.target) ==> Apply(Apply(doc, c), d) == Apply(doc, d)
  {
    var t, u := TrimSpace(c.target), TrimSpace(d.target);
    if HasOSBoot(doc) {
      OSModeStays(c.connected, doc);
      EditOSKeepsTarget(c.connected, doc, u);
      EditOSAbsorbs(c.connected, d.connected, doc);
    } else {
      DisksModeStays(t, c.connected, doc, false);
      EditKeepsCdrom(t, c.connected, doc, false, u);
      DisksAbsorb(t, c.connected, u, d.connected, doc, false);
    }
    hide TrimSpace, HasOSBoot, EditOS, EditDisks, HasCdrom, HasCdromTarget, PlainBoots;
  }

  /** Path independence: after any run of media changes the document is the original with only the last
      effective change applied. */
  lemma {:induction false} OnlyLastChangeCounts(doc: Forest, changes: seq<Change>)
    requires PlainBoots(doc)
    ensures Run(doc, changes) == match LastChange(doc, changes) case None => doc case Some(c) => Apply(doc, c)
    ensures forall t :: Exists(Run(doc, changes), t) == Exists(doc, t)
    ensures HasOSBoot(Run(doc, changes)) == HasOSBoot(doc)
  {
    hide Exists, Apply, PlainBoots, HasOSBoot;
    if changes != [] {
      var before, last := changes[..|changes| - 1], changes[|changes| - 1];
      OnlyLastChangeCounts(doc, before);
      match LastChange(doc, before) {
        case None =>
        case Some(c) => ChangeAbsorbed(doc, c, last);
      }
      if !Exists(doc, last.target) {
        NoChange(Run(doc, before), last);
      }
      match LastChange(doc, changes) {
        case None =>
        case Some(c) => ChangeAbsorbed(doc, c, c);
      }
      forall t ensures Exists(Run(doc, changes), t) == Exists(doc, t) {
        match LastChange(doc, changes) {
          case None =>
          case Some(c) => ChangeAbsorbed(doc, c, Change(t, true));
        }
      }
    }
  }

  lemma NoChange(doc: Forest, c: Change)
    requires !Exists(doc, c.target)
    ensures Apply(doc, c) == doc
  {
  }
}

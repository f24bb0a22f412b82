// The boot orders a document shows after a media change in per-disk mode.
module MediaOrders {
  import opened Strings
  import opened Xml
  import opened DeviceRewrite
  import opened MediaBoot

  /** A disk as the boot order sees it: orders are those of all boot elements in it. */
  datatype DiskView = DiskView(device: string, target: string, orders: seq<string>)

  function Orders(f: Forest, more: seq<string>): seq<string>
    decreases f
  {
    match f
    case Nil => more
    case Leaf(_, next) => Orders(next, more)
    case Elem(n, a, kids, next) =>
      var rest := Orders(kids, Orders(next, more));
      if n == "boot" then [AttrValue(a, "order")] + rest else rest
  }

  function ViewOf(a: seq<Attr>, kids: Forest): DiskView {
    DiskView(TrimSpace(LastAttr(kids, "disk", "device", AttrValue(a, "device"))),
             TrimSpace(LastAttr(kids, "target", "dev", "")), Orders(kids, []))
  }

  /** The disks of a document in order, not counting what is nested in disks, followed by more. */
  function Views(f: Forest, more: seq<DiskView>): seq<DiskView>
    decreases f
  {
    match f
    case Nil => more
    case Leaf(_, next) => Views(next, more)
    case Elem(n, a, kids, next) =>
      var rest := Views(next, more);
      if n == "disk" then [ViewOf(a, kids)] + rest else Views(kids, rest)
  }

  /** The orders a disk should show; bootSet tells whether a normal disk comes before it. */
  function Wanted(cdrom: string, connected: bool, bootSet: bool, v: DiskView): seq<string> {
    if v.target == "" then v.orders
    else if IsCdrom(v.device) then if v.target == cdrom && connected then ["1"] else []
    else if NormalDevice(v.device) then if bootSet then [] else [if connected then "2" else "1"]
    else v.orders
  }

  function Rewritten(cdrom: string, connected: bool, bootSet: bool, vs: seq<DiskView>): seq<DiskView>
    decreases |vs|
  {
    if vs == [] then []
    else [vs[0].(orders := Wanted(cdrom, connected, bootSet, vs[0]))]
         + Rewritten(cdrom, connected, bootSet || IsNormal(vs[0].device, vs[0].target), vs[1..])
  }

  lemma {:induction false} RemovedOrders(f: Forest, more: seq<string>)
    ensures Orders(RemoveBoots(f, false), more) == more
    decreases f
  {
    hide AttrValue;
    match f
    case Nil =>
    case Leaf(_, next) => RemovedOrders(next, more);
    case Elem(n, _, kids, next) =>
      RemovedOrders(next, more);
      if n != "boot" {
        RemovedOrders(kids, more);
      }
  }

  predicate NoBoot(f: Forest) { !HasElem(f, "boot") }

  lemma {:induction false} RemovedNoBoot(f: Forest)
    ensures NoBoot(RemoveBoots(f, false))
  {
    match f
    case Nil =>
    case Leaf(_, next) => RemovedNoBoot(next);
    case Elem(_, _, kids, next) =>
      RemovedNoBoot(kids);
      RemovedNoBoot(next);
  }

  lemma {:induction false} NoBootOrders(f: Forest, more: seq<string>)
    requires NoBoot(f)
    ensures Orders(f, more) == more
    decreases f
  {
    match f
    case Nil =>
    case Leaf(_, next) => NoBootOrders(next, more);
    case Elem(_, _, kids, next) =>
      NoBootOrders(next, more);
      NoBootOrders(kids, more);
  }

  lemma {:induction false} InsertedOrders(f: Forest, order: nat, more: seq<string>)
    requires NoBoot(f) && HasElem(f, "target")
    ensures Orders(InsertOrder(f, order, false), more) == [Decimal(order)] + more
    decreases f
  {
    hide Decimal;
    match f
    case Leaf(_, next) => InsertedOrders(next, order, more);
    case Elem(n, a, kids, next) =>
      NoBootOrders(next, more);
      NoBootOrders(kids, more);
      NoBootOrders(kids, [Decimal(order)] + more);
      if HasElem(kids, "target") {
        InsertedOrders(kids, order, more);
      } else if n == "target" {
        SingleAttr("order", Decimal(order));
        hide AttrValue;
        assert Orders(Elem("boot", OrderAttrs(order), Nil, next), more) == [Decimal(order)] + more;
      } else {
        InsertedOrders(next, order, more);
      }
  }

  /** A disk with a target outside its boot elements gets exactly the order it is set to. */
  lemma SetOrders(kids: Forest, order: nat)
    requires PlainBoots(kids) && Target(kids) != ""
    ensures Orders(SetOrder(kids, order), []) == [Decimal(order)]
  {
    var cleaned := RemoveBoots(kids, false);
    RemovedNoBoot(kids);
    RemoveKeepsLast(kids, false, "target", "dev", "");
    if !HasElem(cleaned, "target") {
      NoElemLastAttr(cleaned, "target", "dev", "");
      NotBlankTarget(kids);
    }
    InsertedOrders(cleaned, order, []);
  }

  lemma NotBlankTarget(kids: Forest)
    requires Target(kids) != ""
    ensures LastAttr(kids, "target", "dev", "") != ""
  {
  }

  lemma DiskOrders(cdrom: string, connected: bool, bootSet: bool, a: seq<Attr>, kids: Forest)
    requires PlainBoots(kids)
    ensures ViewOf(a, DiskKids(cdrom, connected, bootSet, Device(a, kids), Target(kids), kids))
         == ViewOf(a, kids).(orders := Wanted(cdrom, connected, bootSet, ViewOf(a, kids)))
  {
    hide Device, Target, SetOrder, RemoveBoots, PlainBoots, NormalDevice, IsCdrom, Orders, Decimal, Blank;
    OneTwo();
    SameDisk(cdrom, connected, bootSet, a, kids);
    RemovedOrders(kids, []);
    if Target(kids) != "" {
      SetOrders(kids, 1);
      SetOrders(kids, 2);
    }
    hide ViewOf;
    ViewParts(a, kids);
    ViewParts(a, DiskKids(cdrom, connected, bootSet, Device(a, kids), Target(kids), kids));
  }

  lemma ViewParts(a: seq<Attr>, kids: Forest)
    ensures ViewOf(a, kids) == DiskView(Device(a, kids), Target(kids), Orders(kids, []))
  {
  }

  lemma OneTwo()
    ensures Decimal(1) == "1" && Decimal(2) == "2"
  {
  }

  /** The flag that travels along the views is the one that travels along the document. */
  function BootSetAfter(bootSet: bool, f: Forest): bool { bootSet || HasNormal(f) }

  /** In per-disk mode the disks stay the same in the same order, and each shows the orders it should. */
  lemma {:induction false} EditOrders(cdrom: string, connected: bool, f: Forest, bootSet: bool, more: seq<DiskView>)
    requires PlainBoots(f)
    ensures Views(EditDisks(cdrom, connected, f, bootSet), Rewritten(cdrom, connected, BootSetAfter(bootSet, f), more))
         == Rewritten(cdrom, connected, bootSet, Views(f, more))
    decreases f
  {
    hide DiskKids, Wanted, IsNormal, ViewOf;
    match f
    case Nil =>
    case Leaf(_, next) => EditOrders(cdrom, connected, next, bootSet, more);
    case Elem(n, a, kids, next) =>
      if n == "disk" {
        var after := bootSet || IsNormal(Device(a, kids), Target(kids));
        EditOrders(cdrom, connected, next, after, more);
        DiskOrders(cdrom, connected, bootSet, a, kids);
        ViewIdentity(a, kids);
        hide EditDisks;
        assert ([ViewOf(a, kids)] + Views(next, more))[1..] == Views(next, more);
      } else {
        EditOrders(cdrom, connected, next, bootSet || HasNormal(kids), more);
        EditOrders(cdrom, connected, kids, bootSet, Views(next, more));
      }
  }

  lemma ViewIdentity(a: seq<Attr>, kids: Forest)
    ensures ViewOf(a, kids).device == Device(a, kids) && ViewOf(a, kids).target == Target(kids)
  {
  }

  ghost predicate NormalAmong(vs: seq<DiskView>) {
    exists j :: 0 <= j < |vs| && IsNormal(vs[j].device, vs[j].target)
  }

  lemma {:induction false} RewrittenAt(cdrom: string, connected: bool, bootSet: bool, vs: seq<DiskView>, i: nat)
    requires i < |vs|
    decreases |vs|
    ensures |Rewritten(cdrom, connected, bootSet, vs)| == |vs|
    ensures Rewritten(cdrom, connected, bootSet, vs)[i]
         == vs[i].(orders := Wanted(cdrom, connected, bootSet || NormalAmong(vs[..i]), vs[i]))
  {
    hide Wanted, IsNormal;
    if i == 0 {
      if |vs| > 1 {
        RewrittenAt(cdrom, connected, bootSet || IsNormal(vs[0].device, vs[0].target), vs[1..], 0);
      } else {
        assert Rewritten(cdrom, connected, bootSet || IsNormal(vs[0].device, vs[0].target), vs[1..]) == [];
      }
    } else {
      RewrittenAt(cdrom, connected, bootSet || IsNormal(vs[0].device, vs[0].target), vs[1..], i - 1);
      NormalAmongStep(vs, i);
    }
  }

  lemma NormalAmongStep(vs: seq<DiskView>, i: nat)
    requires 0 < i < |vs|
    ensures NormalAmong(vs[..i]) <==> IsNormal(vs[0].device, vs[0].target) || NormalAmong(vs[1..][..i - 1])
  {
    hide IsNormal;
    var s, t := vs[..i], vs[1..][..i - 1];
    if NormalAmong(t) {
      var j :| 0 <= j < |t| && IsNormal(t[j].device, t[j].target);
      assert s[j + 1] == t[j];
    }
    if NormalAmong(s) {
      var j :| 0 <= j < |s| && IsNormal(s[j].device, s[j].target);
      assert j > 0 ==> t[j - 1] == s[j];
    }
    assert s[0] == vs[0];
  }

  /** A CDROM drive with a target. */
  predicate Drive(v: DiskView) { v.target != "" && EqualFold(v.device, "cdrom") }

  /** A normal disk with a target. */
  predicate PlainDrive(v: DiskView) { v.target != "" && (v.device == "" || EqualFold(v.device, "disk")) }

  lemma DeviceMeans(v: DiskView)
    ensures v.target != "" ==> (IsCdrom(v.device) <==> Drive(v))
    ensures IsNormal(v.device, v.target) <==> PlainDrive(v)
    ensures !(Drive(v) && PlainDrive(v))
    ensures v.target != "" && NormalDevice(v.device) ==> PlainDrive(v)
  {
    assert |"cdrom"| == 5 && |"disk"| == 4;
  }

  ghost predicate UniqueCdroms(vs: seq<DiskView>) {
    forall i, j :: 0 <= i < j < |vs| && Drive(vs[i]) && Drive(vs[j]) ==> vs[i].target != vs[j].target
  }

  ghost predicate PlainAmong(vs: seq<DiskView>) {
    exists j :: 0 <= j < |vs| && PlainDrive(vs[j])
  }

  /** The orders that one disk shows after a change: a drive shows order 1 if its medium was connected, the first
      normal disk order 2 or, without a medium, 1; other drives and disks with a target show none. */
  predicate OrdersOf(v: DiskView, later: bool, cdrom: string, connected: bool, orders: seq<string>) {
    && (!Drive(v) && !PlainDrive(v) ==> orders == v.orders)
    && (Drive(v) ==> orders == if connected && v.target == cdrom then ["1"] else [])
    && (PlainDrive(v) ==> orders == if later then [] else [if connected then "2" else "1"])
  }

  /** The orders of all disks after a change. */
  ghost predicate OrdersAfter(before: seq<DiskView>, after: seq<DiskView>, cdrom: string, connected: bool) {
    && |after| == |before|
    && (forall i :: 0 <= i < |before| ==>
          && after[i].device == before[i].device && after[i].target == before[i].target
          && OrdersOf(before[i], PlainAmong(before[..i]), cdrom, connected, after[i].orders))
  }

  lemma AmongMeans(vs: seq<DiskView>)
    ensures NormalAmong(vs) <==> PlainAmong(vs)
  {
    hide IsNormal, PlainDrive;
    forall j | 0 <= j < |vs| ensures IsNormal(vs[j].device, vs[j].target) <==> PlainDrive(vs[j]) {
      DeviceMeans(vs[j]);
    }
  }

  lemma ChangeOrders(doc: Forest, target: string, connected: bool)
    requires PlainBoots(doc) && !HasOSBoot(doc)
    ensures OrdersAfter(Views(doc, []), Views(Edit(doc, target, connected), []), TrimSpace(target), connected)
  {
    var before, cdrom := Views(doc, []), TrimSpace(target);
    EditOrders(cdrom, connected, doc, false, []);
    RewrittenEmpty(cdrom, connected, BootSetAfter(false, doc));
    hide *;
    RewrittenOrders(cdrom, connected, before);
  }

  lemma RewrittenOrders(cdrom: string, connected: bool, before: seq<DiskView>)
    ensures OrdersAfter(before, Rewritten(cdrom, connected, false, before), cdrom, connected)
  {
    hide IsCdrom, NormalDevice, IsNormal, Drive, PlainDrive, NormalAmong, PlainAmong, Rewritten, Wanted;
    if before == [] {
      RewrittenEmpty(cdrom, connected, false);
    } else {
      RewrittenAt(cdrom, connected, false, before, 0);
    }
    var after := Rewritten(cdrom, connected, false, before);
    forall i | 0 <= i < |before|
      ensures after[i] == before[i].(orders := after[i].orders)
      ensures OrdersOf(before[i], PlainAmong(before[..i]), cdrom, connected, after[i].orders)
    {
      RewrittenAt(cdrom, connected, false, before, i);
      AmongMeans(before[..i]);
      WantedOrders(cdrom, connected, PlainAmong(before[..i]), before[i]);
    }
  }

  lemma WantedOrders(cdrom: string, connected: bool, later: bool, v: DiskView)
    ensures OrdersOf(v, later, cdrom, connected, Wanted(cdrom, connected, later, v))
  {
    hide Drive, PlainDrive, IsCdrom, NormalDevice;
    DeviceMeans(v);
    DriveTargets(v);
  }

  lemma DriveTargets(v: DiskView)
    ensures Drive(v) || PlainDrive(v) ==> v.target != ""
    ensures v.target != "" ==> (PlainDrive(v) <==> !IsCdrom(v.device) && NormalDevice(v.device))
  {
    assert |"cdrom"| == 5 && |"disk"| == 4;
  }

  lemma RewrittenEmpty(cdrom: string, connected: bool, bootSet: bool)
    ensures Rewritten(cdrom, connected, bootSet, []) == []
  {
  }

  ghost predicate DriveAmong(vs: seq<DiskView>, cdrom: string) {
    exists i :: 0 <= i < |vs| && Drive(vs[i]) && vs[i].target == cdrom
  }

  lemma DriveCons(v: DiskView, vs: seq<DiskView>, cdrom: string)
    ensures DriveAmong([v] + vs, cdrom) <==> (Drive(v) && v.target == cdrom) || DriveAmong(vs, cdrom)
  {
    hide Drive;
    var all := [v] + vs;
    assert all[0] == v;
    if DriveAmong(vs, cdrom) {
      var i :| 0 <= i < |vs| && Drive(vs[i]) && vs[i].target == cdrom;
      assert all[i + 1] == vs[i];
    }
    if DriveAmong(all, cdrom) {
      var i :| 0 <= i < |all| && Drive(all[i]) && all[i].target == cdrom;
      assert i > 0 ==> vs[i - 1] == all[i];
    }
  }

  lemma {:induction false} CdromAmong(f: Forest, cdrom: string, more: seq<DiskView>)
    requires cdrom != ""
    ensures DriveAmong(Views(f, more), cdrom) <==> HasCdrom(f, cdrom) || DriveAmong(more, cdrom)
    decreases f
  {
    hide DriveAmong, Drive, IsCdrom, ViewOf, Device, Target;
    match f
    case Nil =>
    case Leaf(_, next) => CdromAmong(next, cdrom, more);
    case Elem(n, a, kids, next) =>
      CdromAmong(next, cdrom, more);
      if n == "disk" {
        DriveCons(ViewOf(a, kids), Views(next, more), cdrom);
        ViewParts(a, kids);
        DeviceMeans(ViewOf(a, kids));
      } else {
        CdromAmong(kids, cdrom, Views(next, more));
      }
  }

  /** The targets of all disks whose own device is cdrom, at any depth in them, followed by more. */
  function CdromTargets(f: Forest, more: seq<string>): seq<string>
    decreases f
  {
    match f
    case Nil => more
    case Leaf(_, next) => CdromTargets(next, more)
    case Elem(n, a, kids, next) =>
      var rest := CdromTargets(next, more);
      if n != "disk" then CdromTargets(kids, rest)
      else if EqualFold(TrimSpace(AttrValue(a, "device")), "cdrom") then TargetsIn(kids, rest)
      else rest
  }

  function TargetsIn(f: Forest, more: seq<string>): seq<string>
    decreases f
  {
    match f
    case Nil => more
    case Leaf(_, next) => TargetsIn(next, more)
    case Elem(n, a, kids, next) =>
      var rest := TargetsIn(kids, TargetsIn(next, more));
      if n == "target" then [TrimSpace(AttrValue(a, "dev"))] + rest else rest
  }

  lemma {:induction false} TargetAmong(f: Forest, target: string, more: seq<string>)
    ensures target in TargetsIn(f, more) <==> HasTarget(f, target) || target in more
    decreases f
  {
    hide AttrValue, TrimSpace;
    match f
    case Nil =>
    case Leaf(_, next) => TargetAmong(next, target, more);
    case Elem(_, _, kids, next) =>
      TargetAmong(next, target, more);
      TargetAmong(kids, target, TargetsIn(next, more));
  }

  lemma {:induction false} CdromTargetAmong(f: Forest, cdrom: string, more: seq<string>)
    ensures cdrom in CdromTargets(f, more) <==> HasCdromTarget(f, cdrom) || cdrom in more
    decreases f
  {
    hide AttrValue, TrimSpace, EqualFold, TargetsIn, HasTarget;
    match f
    case Nil =>
    case Leaf(_, next) => CdromTargetAmong(next, cdrom, more);
    case Elem(n, a, kids, next) =>
      CdromTargetAmong(next, cdrom, more);
      if n == "disk" {
        TargetAmong(kids, cdrom, CdromTargets(next, more));
      } else {
        CdromTargetAmong(kids, cdrom, CdromTargets(next, more));
      }
  }

  /** A change is possible exactly if the target is named and a CDROM drive has it: in per-disk mode the drive's own
      target, in os mode any target in it. */
  lemma ChangePossible(doc: Forest, target: string)
    ensures UpdateBootOrder(doc, target, true).Some? <==> UpdateBootOrder(doc, target, false).Some?
    ensures UpdateBootOrder(doc, target, true).Some? <==>
              && !Blank(target)
              && if HasOSBoot(doc) then TrimSpace(target) in CdromTargets(doc, [])
                 else DriveAmong(Views(doc, []), TrimSpace(target))
  {
    hide HasOSBoot, HasCdrom, HasCdromTarget, CdromTargets, Views, TrimSpace, Edit;
    CdromTargetAmong(doc, TrimSpace(target), []);
    if !Blank(target) {
      CdromAmong(doc, TrimSpace(target), []);
    }
  }

  /** Connecting media in per-disk mode leaves exactly one CDROM drive with an order, the target, with order 1. */
  lemma ConnectBootsTarget(doc: Forest, target: string)
    requires PlainBoots(doc) && !HasOSBoot(doc) && Exists(doc, target) && UniqueCdroms(Views(doc, []))
    ensures var after := Views(Edit(doc, target, true), []);
            exists i :: 0 <= i < |after| && Drive(after[i]) && after[i].target == TrimSpace(target)
                     && after[i].orders == ["1"]
                     && forall j :: 0 <= j < |after| && j != i && Drive(after[j]) ==> after[j].orders == []
  {
    var before, after, cdrom := Views(doc, []), Views(Edit(doc, target, true), []), TrimSpace(target);
    ChangeOrders(doc, target, true);
    ChangePossible(doc, target);
    hide Views, HasCdrom, HasOSBoot, PlainBoots, EqualFold, TrimSpace, PlainAmong, PlainDrive, Edit;
    var i :| 0 <= i < |before| && Drive(before[i]) && before[i].target == cdrom;
    assert Drive(after[i]) && after[i].orders == ["1"];
    forall j | 0 <= j < |after| && j != i && Drive(after[j]) ensures after[j].orders == [] {
      assert Drive(before[j]) && before[j].target != cdrom;
    }
  }

  // ---------- Where the boot element stands ----------

  /** No target stands below the children. */
  predicate DirectTargets(f: Forest) {
    match f
    case Nil => true
    case Leaf(_, next) => DirectTargets(next)
    case Elem(_, _, kids, next) => !HasElem(kids, "target") && DirectTargets(next)
  }

  /** The names with boot put in behind the first target. */
  function BootBehindTarget(names: seq<string>): seq<string> {
    if names == [] then []
    else if names[0] == "target" then ["target", "boot"] + names[1..]
    else [names[0]] + BootBehindTarget(names[1..])
  }

  lemma BehindCons(n: string, names: seq<string>)
    ensures BootBehindTarget([n] + names) == if n == "target" then ["target", "boot"] + names
              else [n] + BootBehindTarget(names)
  {
    assert ([n] + names)[1..] == names;
  }

  lemma {:induction false} RemovedNames(f: Forest)
    ensures ElementNames(RemoveBoots(f, false)) == NamesWithout(ElementNames(f), {"boot"})
  {
    hide NamesWithout;
    match f
    case Nil => NamesOfNone({"boot"});
    case Leaf(_, next) => RemovedNames(next);
    case Elem(n, _, _, next) =>
      RemovedNames(next);
      NamesCons(n, ElementNames(next), {"boot"});
  }

  lemma {:induction false} RemovedDirect(f: Forest)
    requires DirectTargets(f)
    ensures DirectTargets(RemoveBoots(f, false))
    ensures !HasElem(f, "target") ==> !HasElem(RemoveBoots(f, false), "target")
  {
    match f
    case Nil =>
    case Leaf(_, next) => RemovedDirect(next);
    case Elem(_, _, kids, next) =>
      RemovedDirect(next);
      RemovedTargets(kids);
  }

  lemma {:induction false} RemovedTargets(f: Forest)
    ensures !HasElem(f, "target") ==> !HasElem(RemoveBoots(f, false), "target")
  {
    match f
    case Nil =>
    case Leaf(_, next) => RemovedTargets(next);
    case Elem(_, _, kids, next) =>
      RemovedTargets(kids);
      RemovedTargets(next);
  }

  lemma {:induction false} InsertedNames(f: Forest, order: nat)
    requires DirectTargets(f)
    ensures ElementNames(InsertOrder(f, order, false)) == BootBehindTarget(ElementNames(f))
  {
    hide BootBehindTarget, OrderAttrs;
    match f
    case Nil => NothingBehind();
    case Leaf(_, next) => InsertedNames(next, order);
    case Elem(n, a, kids, next) =>
      InsertedNames(next, order);
      BehindCons(n, ElementNames(next));
      if n == "target" {
        assert ElementNames(Elem("boot", OrderAttrs(order), Nil, next)) == ["boot"] + ElementNames(next);
      }
  }

  lemma NothingBehind()
    ensures BootBehindTarget([]) == []
  {
  }

  /** A disk that gets an order has one boot child, right behind its first target, and its other children in order. */
  lemma BootStandsBehindTarget(kids: Forest, order: nat)
    requires DirectTargets(kids)
    ensures ElementNames(SetOrder(kids, order)) == BootBehindTarget(NamesWithout(ElementNames(kids), {"boot"}))
  {
    RemovedDirect(kids);
    RemovedNames(kids);
    InsertedNames(RemoveBoots(kids, false), order);
    hide RemoveBoots, InsertOrder, BootBehindTarget, NamesWithout, ElementNames, DirectTargets;
  }
}

// The device rewrite of a stopped domain: one pass over its tokens that buffers each disk and
// interface element, drops or re-sources it, and adds the new devices in front of the end tag
// of devices. It is proved to be a plain edit of the document tree.
module DeviceRewrite {
  import opened Common
  import opened Strings
  import opened Xml

  datatype SourceUpdate = SourceUpdate(kind: string, sourceAttr: string, source: string)

  datatype InterfaceFragment = InterfaceFragment(kind: string, sourceAttr: string, source: string, model: string)

  datatype DiskFragment = DiskFragment(path: string, target: string, bus: string, format: string)

  datatype DeviceEdit = DeviceEdit(
    sources: map<string, SourceUpdate>,
    newInterfaces: seq<InterfaceFragment>,
    deletedInterfaces: set<string>,
    newDisks: seq<DiskFragment>,
    deletedTargets: set<string>)

  // ---------- The tree edit ----------

  function InterfaceSourceAttrName(kind: string): string {
    var k := ToLower(TrimSpace(kind));
    if k == "bridge" then "bridge" else if k == "direct" then "dev" else "network"
  }

  function WithoutSourceAttrs(attrs: seq<Attr>): seq<Attr> {
    if attrs == [] then []
    else if attrs[0].name in {"network", "bridge", "dev"} then WithoutSourceAttrs(attrs[1..])
    else [attrs[0]] + WithoutSourceAttrs(attrs[1..])
  }

  function SetSourceAttrs(attrs: seq<Attr>, attr: string, source: string): seq<Attr> {
    WithoutSourceAttrs(attrs) + [Attr(attr, source)]
  }

  /** firstInterfaceSourceUpdate: a blank key never matches. */
  function FindUpdate(updates: map<string, SourceUpdate>, first: string, second: string): Option<SourceUpdate> {
    if !Blank(first) && first in updates then Some(updates[first])
    else if !Blank(second) && second in updates then Some(updates[second])
    else None
  }

  function UpdateTag(u: SourceUpdate, name: string, attrs: seq<Attr>): seq<Attr> {
    var typed := if name == "interface" && u.kind != "" then SetAttr(attrs, "type", u.kind) else attrs;
    if name == "source"
    then SetSourceAttrs(typed, FirstNonEmpty(u.sourceAttr, InterfaceSourceAttrName(u.kind)), u.source)
    else typed
  }

  function UpdateToken(u: SourceUpdate, t: Token): Token {
    if t.Start? then Start(t.name, UpdateTag(u, t.name, t.attrs)) else t
  }

  function UpdateTags(u: SourceUpdate, f: Forest): Forest {
    match f
    case Nil => Nil
    case Leaf(t, next) => Leaf(t, UpdateTags(u, next))
    case Elem(n, a, kids, next) => Elem(n, UpdateTag(u, n, a), UpdateTags(u, kids), UpdateTags(u, next))
  }

  function InterfaceMac(kids: Forest): string { LastAttr(kids, "mac", "address", "") }

  function TargetDev(kids: Forest): string { LastAttr(kids, "target", "dev", "") }

  function DiskDevice(attrs: seq<Attr>, kids: Forest): string {
    LastAttr(kids, "disk", "device", AttrValue(attrs, "device"))
  }

  predicate NormalDevice(device: string) { device == "" || EqualFold(device, "disk") }

  predicate DropsInterface(e: DeviceEdit, kids: Forest) {
    TargetDev(kids) in e.deletedInterfaces || ToLower(InterfaceMac(kids)) in e.deletedInterfaces
  }

  predicate DropsDisk(e: DeviceEdit, attrs: seq<Attr>, kids: Forest) {
    NormalDevice(DiskDevice(attrs, kids)) && TargetDev(kids) in e.deletedTargets
  }

  /** The update that applies to an interface element, if any. */
  function InterfaceUpdate(e: DeviceEdit, kids: Forest): Option<SourceUpdate> {
    var u := FindUpdate(e.sources, TargetDev(kids), InterfaceMac(kids));
    if u.None? || u.value.source == "" then None else u
  }

  function InterfaceElem(i: InterfaceFragment, next: Forest): Forest {
    var sourceAttr := FirstNonEmpty(i.sourceAttr, InterfaceSourceAttrName(i.kind));
    Elem("interface", [Attr("type", FirstNonEmpty(i.kind, "network"))],
         Elem("source", [Attr(sourceAttr, i.source)], Nil,
              Elem("model", [Attr("type", FirstNonEmpty(i.model, "virtio"))], Nil, Nil)),
         next)
  }

  function DiskElem(d: DiskFragment, next: Forest): Forest {
    Elem("disk", [Attr("type", "file"), Attr("device", "disk")],
         Elem("driver", [Attr("name", "qemu"), Attr("type", d.format)], Nil,
              Elem("source", [Attr("file", d.path)], Nil,
                   Elem("target", [Attr("dev", d.target), Attr("bus", d.bus)], Nil, Nil))),
         next)
  }

  function DiskElems(ds: seq<DiskFragment>): Forest {
    if ds == [] then Nil else DiskElem(ds[0], DiskElems(ds[1..]))
  }

  /** New interfaces, then new disks. */
  function Fragments(ifaces: seq<InterfaceFragment>, ds: seq<DiskFragment>): Forest {
    if ifaces == [] then DiskElems(ds) else InterfaceElem(ifaces[0], Fragments(ifaces[1..], ds))
  }

  /** The edit: outside disk and interface elements every devices element gets the new devices as
      its last children, deleted devices disappear, updated interfaces are re-sourced, and nothing
      else changes. */
  function EditDevices(e: DeviceEdit, f: Forest): Forest {
    match f
    case Nil => Nil
    case Leaf(t, next) => Leaf(t, EditDevices(e, next))
    case Elem(n, a, kids, next) =>
      var rest := EditDevices(e, next);
      if n == "interface" then
        if DropsInterface(e, kids) then rest
        else
          match InterfaceUpdate(e, kids)
          case None => Elem(n, a, kids, rest)
          case Some(u) => Elem(n, UpdateTag(u, n, a), UpdateTags(u, kids), rest)
      else if n == "disk" then
        if DropsDisk(e, a, kids) then rest else Elem(n, a, kids, rest)
      else if n == "devices" then
        Elem(n, a, Append(EditDevices(e, kids), Fragments(e.newInterfaces, e.newDisks)), rest)
      else Elem(n, a, EditDevices(e, kids), rest)
  }

  // ---------- Element-level loops ----------

  method LastAttrLoop(tokens: seq<Token>, elem: string, attr: string) returns (value: string)
    ensures value == LastAttrTokens(tokens, elem, attr, "")
  {
    value := "";
    for i := 0 to |tokens|
      invariant value == LastAttrTokens(tokens[..i], elem, attr, "")
    {
      assert tokens[..i + 1][..i] == tokens[..i];
      if tokens[i].Start? && tokens[i].name == elem {
        value := AttrValue(tokens[i].attrs, attr);
      }
    }
    assert tokens[..|tokens|] == tokens;
  }

  method ShouldDeleteDiskTokens(tokens: seq<Token>, e: DeviceEdit, ghost a: seq<Attr>, ghost kids: Forest)
    returns (delete: bool)
    requires tokens == ElemTokens("disk", a, kids)
    ensures delete == DropsDisk(e, a, kids)
  {
    if e.deletedTargets == {} {
      return false;
    }
    var device := LastAttrLoop(tokens, "disk", "device");
    var target := LastAttrLoop(tokens, "target", "dev");
    LastAttrElement("disk", a, kids, "disk", "device", "");
    LastAttrElement("disk", a, kids, "target", "dev", "");
    return NormalDevice(device) && target in e.deletedTargets;
  }

  method InterfaceTokenIdentifiers(tokens: seq<Token>, ghost a: seq<Attr>, ghost kids: Forest)
    returns (mac: string, target: string)
    requires tokens == ElemTokens("interface", a, kids)
    ensures mac == InterfaceMac(kids) && target == TargetDev(kids)
  {
    mac := LastAttrLoop(tokens, "mac", "address");
    target := LastAttrLoop(tokens, "target", "dev");
    LastAttrElement("interface", a, kids, "mac", "address", "");
    LastAttrElement("interface", a, kids, "target", "dev", "");
  }

  /** Re-sourcing touches tags one by one, so it commutes with flattening. */
  lemma {:induction false} UpdateTagsFlatten(u: SourceUpdate, f: Forest)
    ensures |Flatten(UpdateTags(u, f))| == |Flatten(f)|
    ensures forall k :: 0 <= k < |Flatten(f)| ==> Flatten(UpdateTags(u, f))[k] == UpdateToken(u, Flatten(f)[k])
  {
    hide UpdateTag;
    match f
    case Nil =>
    case Leaf(t, next) =>
      UpdateTagsFlatten(u, next);
    case Elem(n, a, kids, next) =>
      UpdateTagsFlatten(u, kids);
      UpdateTagsFlatten(u, next);
  }

  /** encodeUpdatedInterfaceTokens */
  method EncodeUpdatedInterface(tokens: seq<Token>, e: DeviceEdit, ghost a: seq<Attr>, ghost kids: Forest)
    returns (output: seq<Token>)
    requires tokens == ElemTokens("interface", a, kids)
    ensures output == match InterfaceUpdate(e, kids)
                      case None => tokens
                      case Some(u) => ElemTokens("interface", UpdateTag(u, "interface", a), UpdateTags(u, kids))
  {
    var mac, target := InterfaceTokenIdentifiers(tokens, a, kids);
    var update := FindUpdate(e.sources, target, mac);
    if update.None? || update.value.source == "" {
      return tokens;
    }
    output := [];
    for i := 0 to |tokens|
      invariant |output| == i
      invariant forall k :: 0 <= k < i ==> output[k] == UpdateToken(update.value, tokens[k])
    {
      output := output + [UpdateToken(update.value, tokens[i])];
    }
    UpdateTagsFlatten(update.value, kids);
    assert output == ElemTokens("interface", UpdateTag(update.value, "interface", a), UpdateTags(update.value, kids));
  }

  function EmptyElemTokens(n: string, a: seq<Attr>): seq<Token> { [Start(n, a), End(n)] }

  function InterfaceFragmentTokens(i: InterfaceFragment): seq<Token> {
    [Start("interface", [Attr("type", FirstNonEmpty(i.kind, "network"))])]
    + EmptyElemTokens("source", [Attr(FirstNonEmpty(i.sourceAttr, InterfaceSourceAttrName(i.kind)), i.source)])
    + EmptyElemTokens("model", [Attr("type", FirstNonEmpty(i.model, "virtio"))])
    + [End("interface")]
  }

  function DiskFragmentTokens(d: DiskFragment): seq<Token> {
    [Start("disk", [Attr("type", "file"), Attr("device", "disk")])]
    + EmptyElemTokens("driver", [Attr("name", "qemu"), Attr("type", d.format)])
    + EmptyElemTokens("source", [Attr("file", d.path)])
    + EmptyElemTokens("target", [Attr("dev", d.target), Attr("bus", d.bus)])
    + [End("disk")]
  }

  lemma FlattenEmptyElem(n: string, a: seq<Attr>, next: Forest)
    ensures Flatten(Elem(n, a, Nil, next)) == EmptyElemTokens(n, a) + Flatten(next)
  {
  }

  lemma FlattenInterfaceElem(i: InterfaceFragment, next: Forest)
    ensures Flatten(InterfaceElem(i, next)) == InterfaceFragmentTokens(i) + Flatten(next)
  {
    hide FirstNonEmpty, InterfaceSourceAttrName, EmptyElemTokens;
    var kids := InterfaceElem(i, next).kids;
    FlattenEmptyElem(kids.next.name, kids.next.attrs, Nil);
    FlattenEmptyElem(kids.name, kids.attrs, kids.next);
  }

  lemma FlattenDiskElem(d: DiskFragment, next: Forest)
    ensures Flatten(DiskElem(d, next)) == DiskFragmentTokens(d) + Flatten(next)
  {
    hide EmptyElemTokens;
    var kids := DiskElem(d, next).kids;
    FlattenEmptyElem(kids.next.next.name, kids.next.next.attrs, Nil);
    FlattenEmptyElem(kids.next.name, kids.next.attrs, kids.next.next);
    FlattenEmptyElem(kids.name, kids.attrs, kids.next);
  }

  lemma FragmentsSteps(ifaces: seq<InterfaceFragment>, ds: seq<DiskFragment>)
    ensures ifaces != [] ==>
              Flatten(Fragments(ifaces, ds)) == InterfaceFragmentTokens(ifaces[0]) + Flatten(Fragments(ifaces[1..], ds))
    ensures ifaces == [] ==> Flatten(Fragments(ifaces, ds)) == Flatten(DiskElems(ds))
    ensures ds != [] ==> Flatten(DiskElems(ds)) == DiskFragmentTokens(ds[0]) + Flatten(DiskElems(ds[1..]))
    ensures ds == [] ==> Flatten(DiskElems(ds)) == []
  {
    hide Flatten, InterfaceElem, DiskElem, InterfaceFragmentTokens, DiskFragmentTokens;
    if ifaces != [] { FlattenInterfaceElem(ifaces[0], Fragments(ifaces[1..], ds)); }
    if ds != [] { FlattenDiskElem(ds[0], DiskElems(ds[1..])); }
    FlattenNil();
  }

  lemma FlattenNil()
    ensures Flatten(Nil) == []
  {
  }

  /** The two fragment loops at the end tag of devices. */
  method EncodeFragments(ifaces: seq<InterfaceFragment>, ds: seq<DiskFragment>) returns (output: seq<Token>)
    ensures output == Flatten(Fragments(ifaces, ds))
  {
    hide *;
    output := [];
    for k := 0 to |ifaces|
      invariant output + Flatten(Fragments(ifaces[k..], ds)) == Flatten(Fragments(ifaces, ds))
    {
      FragmentsSteps(ifaces[k..], ds);
      assert ifaces[k..][1..] == ifaces[k + 1..];
      Emit(output, InterfaceFragmentTokens(ifaces[k]), Flatten(Fragments(ifaces[k + 1..], ds)));
      output := output + InterfaceFragmentTokens(ifaces[k]);
    }
    FragmentsSteps(ifaces[|ifaces|..], ds);
    for k := 0 to |ds|
      invariant output + Flatten(DiskElems(ds[k..])) == Flatten(Fragments(ifaces, ds))
    {
      FragmentsSteps([], ds[k..]);
      assert ds[k..][1..] == ds[k + 1..];
      Emit(output, DiskFragmentTokens(ds[k]), Flatten(DiskElems(ds[k + 1..])));
      output := output + DiskFragmentTokens(ds[k]);
    }
    FragmentsSteps([], ds[|ds|..]);
  }

  // ---------- The one-pass rewrite ----------

  function EditClosing(e: DeviceEdit, ctx: Context): seq<Token> {
    match ctx
    case Top => []
    case Inside(n, next, outer) => EditEnd(e, n) + Flatten(EditDevices(e, next)) + EditClosing(e, outer)
  }

  function EditEnd(e: DeviceEdit, n: string): seq<Token> {
    (if n == "devices" then Flatten(Fragments(e.newInterfaces, e.newDisks)) else []) + [End(n)]
  }

  /** What is still to be written when the reader is in front of cur. */
  function EditRest(e: DeviceEdit, cur: Forest, ctx: Context): seq<Token> {
    Flatten(EditDevices(e, cur)) + EditClosing(e, ctx)
  }

  /** What the edit writes for one disk or interface element. */
  function EditElem(e: DeviceEdit, n: string, a: seq<Attr>, kids: Forest): seq<Token>
    requires n == "disk" || n == "interface"
  {
    if n == "disk" then
      if DropsDisk(e, a, kids) then [] else ElemTokens(n, a, kids)
    else if DropsInterface(e, kids) then []
    else
      match InterfaceUpdate(e, kids)
      case None => ElemTokens(n, a, kids)
      case Some(u) => ElemTokens(n, UpdateTag(u, n, a), UpdateTags(u, kids))
  }

  lemma WriteBuffered(e: DeviceEdit, n: string, a: seq<Attr>, kids: Forest, next: Forest)
    requires n == "disk" || n == "interface"
    ensures Flatten(EditDevices(e, Elem(n, a, kids, next))) == EditElem(e, n, a, kids) + Flatten(EditDevices(e, next))
  {
    hide DropsDisk, DropsInterface, InterfaceUpdate, UpdateTag, UpdateTags, ElemTokens;
  }

  lemma WriteOther(e: DeviceEdit, n: string, a: seq<Attr>, kids: Forest, next: Forest)
    requires n != "disk" && n != "interface"
    ensures Flatten(EditDevices(e, Elem(n, a, kids, next)))
         == [Start(n, a)] + (Flatten(EditDevices(e, kids)) + EditEnd(e, n)) + Flatten(EditDevices(e, next))
  {
    var edited, fragments := EditDevices(e, Elem(n, a, kids, next)), Fragments(e.newInterfaces, e.newDisks);
    assert edited
      == Elem(n, a, if n == "devices" then Append(EditDevices(e, kids), fragments) else EditDevices(e, kids),
                          EditDevices(e, next));
    hide EditDevices, Fragments;
    FlattenAppend(EditDevices(e, kids), fragments);
    FlattenElem(n, a, edited.kids, edited.next);
    hide Append, Flatten;
    assert Flatten(edited.kids) + [End(n)] == Flatten(EditDevices(e, kids)) + EditEnd(e, n);
  }

  lemma FlattenElem(n: string, a: seq<Attr>, kids: Forest, next: Forest)
    ensures Flatten(Elem(n, a, kids, next)) == [Start(n, a)] + (Flatten(kids) + [End(n)]) + Flatten(next)
  {
    assert ElemTokens(n, a, kids) == [Start(n, a)] + (Flatten(kids) + [End(n)]);
  }

  lemma WriteNext(e: DeviceEdit, cur: Forest, ctx: Context)
    ensures cur.Nil? && ctx.Inside? ==> EditRest(e, cur, ctx) == EditEnd(e, ctx.name) + EditRest(e, ctx.next, ctx.outer)
    ensures cur.Leaf? ==> EditRest(e, cur, ctx) == [cur.token] + EditRest(e, cur.next, ctx)
    ensures cur.Elem? && (cur.name == "disk" || cur.name == "interface") ==>
              EditRest(e, cur, ctx) == EditElem(e, cur.name, cur.attrs, cur.kids) + EditRest(e, cur.next, ctx)
    ensures cur.Elem? && cur.name != "disk" && cur.name != "interface" ==>
              EditRest(e, cur, ctx)
                == [Start(cur.name, cur.attrs)] + EditRest(e, cur.kids, Inside(cur.name, cur.next, ctx))
  {
    hide EditElem, EditEnd, Append, UpdateTags, DropsDisk, DropsInterface, InterfaceUpdate, UpdateTag, Fragments;
    if cur.Elem? {
      if cur.name == "disk" || cur.name == "interface" {
        WriteBuffered(e, cur.name, cur.attrs, cur.kids, cur.next);
        hide EditDevices, Flatten;
      } else {
        hide EditDevices, Flatten;
        WriteInside(e, cur.name, cur.attrs, cur.kids, cur.next, ctx);
        assert cur == Elem(cur.name, cur.attrs, cur.kids, cur.next);
      }
    }
  }

  lemma WriteInside(e: DeviceEdit, n: string, a: seq<Attr>, kids: Forest, next: Forest, ctx: Context)
    requires n != "disk" && n != "interface"
    ensures EditRest(e, Elem(n, a, kids, next), ctx) == [Start(n, a)] + EditRest(e, kids, Inside(n, next, ctx))
  {
    hide EditDevices, Flatten, EditEnd;
    WriteOther(e, n, a, kids, next);
    var inner, ending, rest := Flatten(EditDevices(e, kids)), EditEnd(e, n), Flatten(EditDevices(e, next));
    assert EditClosing(e, Inside(n, next, ctx)) == ending + rest + EditClosing(e, ctx);
    hide EditClosing;
  }

  lemma WriteEnd(e: DeviceEdit, cur: Forest, ctx: Context)
    requires Remaining(cur, ctx) == []
    ensures EditRest(e, cur, ctx) == []
  {
    ReadNext(cur, ctx);
  }

  /** A buffered disk element is complete. */
  method FinishDisk(diskTokens: seq<Token>, e: DeviceEdit, ghost a: seq<Attr>, ghost kids: Forest)
    returns (output: seq<Token>)
    requires diskTokens == ElemTokens("disk", a, kids)
    ensures output == EditElem(e, "disk", a, kids)
  {
    var delete := ShouldDeleteDiskTokens(diskTokens, e, a, kids);
    output := if delete then [] else diskTokens;
  }

  /** A buffered interface element is complete. */
  method FinishInterface(interfaceTokens: seq<Token>, e: DeviceEdit, ghost a: seq<Attr>, ghost kids: Forest)
    returns (output: seq<Token>)
    requires interfaceTokens == ElemTokens("interface", a, kids)
    ensures output == EditElem(e, "interface", a, kids)
  {
    var mac, target := InterfaceTokenIdentifiers(interfaceTokens, a, kids);
    if target in e.deletedInterfaces || ToLower(mac) in e.deletedInterfaces {
      return [];
    }
    output := EncodeUpdatedInterface(interfaceTokens, e, a, kids);
  }

  /** An end tag outside disks and interfaces. */
  method EncodeEnd(e: DeviceEdit, n: string) returns (output: seq<Token>)
    ensures output == EditEnd(e, n)
  {
    output := [];
    if n == "devices" {
      output := EncodeFragments(e.newInterfaces, e.newDisks);
    }
    output := output + [End(n)];
  }

  function Trimmed(names: seq<string>): set<string> {
    set n | n in names :: TrimSpace(n)
  }

  lemma TrimmedExtend(names: seq<string>, k: nat)
    requires k < |names|
    ensures Trimmed(names[..k + 1]) == Trimmed(names[..k]) + {TrimSpace(names[k])}
  {
    hide TrimSpace;
    assert names[..k + 1] == names[..k] + [names[k]];
  }

  method TrimmedTargets(deletedDisks: seq<string>) returns (targets: set<string>)
    ensures targets == Trimmed(deletedDisks)
  {
    targets := {};
    for k := 0 to |deletedDisks|
      invariant targets == Trimmed(deletedDisks[..k])
    {
      TrimmedExtend(deletedDisks, k);
      hide *;
      targets := targets + {TrimSpace(deletedDisks[k])};
    }
    assert deletedDisks[..|deletedDisks|] == deletedDisks;
  }

  lemma StartEditing(e: DeviceEdit, doc: Forest)
    ensures EditRest(e, doc, Top) == Flatten(EditDevices(e, doc)) && Remaining(doc, Top) == Flatten(doc)
  {
  }

  /** updateDomainDeviceXML on the tokens of doc. */
  method UpdateDomainDevices(tokens: seq<Token>, sources: map<string, SourceUpdate>,
                             newInterfaces: seq<InterfaceFragment>,
                             deletedInterfaces: set<string>, newDisks: seq<DiskFragment>, deletedDisks: seq<string>,
                             ghost doc: Forest)
    returns (output: seq<Token>)
    requires tokens == Flatten(doc)
    ensures output == Flatten(EditDevices(
                        DeviceEdit(sources, newInterfaces, deletedInterfaces, newDisks, Trimmed(deletedDisks)), doc))
  {
    hide *;
    var deletedTargets := TrimmedTargets(deletedDisks);
    var e := DeviceEdit(sources, newInterfaces, deletedInterfaces, newDisks, deletedTargets);
    ghost var goal := Flatten(EditDevices(e, doc));
    StartEditing(e, doc);

    output := [];
    var diskDepth, interfaceDepth := 0, 0;
    var buffer: seq<Token> := [];                      // diskTokens or interfaceTokens
    ghost var cur, ctx := doc, Top;                    // the reader's place, after any buffered element
    ghost var name, a, kids := "disk", [], Nil;        // the element being buffered

    for i := 0 to |tokens|
      invariant diskDepth >= 0 && interfaceDepth >= 0 && (diskDepth == 0 || interfaceDepth == 0)
      invariant name == "disk" || name == "interface"
      invariant diskDepth + interfaceDepth == 0 ==>
                  && tokens[i..] == Remaining(cur, ctx)
                  && output + EditRest(e, cur, ctx) == goal
      invariant diskDepth + interfaceDepth > 0 ==>
                  && name == (if diskDepth > 0 then "disk" else "interface")
                  && |buffer| < |ElemTokens(name, a, kids)|
                  && buffer == ElemTokens(name, a, kids)[..|buffer|]
                  && Depth(buffer) == diskDepth + interfaceDepth
                  && tokens[i..] == ElemTokens(name, a, kids)[|buffer|..] + Remaining(cur, ctx)
                  && output + EditElem(e, name, a, kids) + EditRest(e, cur, ctx) == goal
    {
      var token := tokens[i];
      if diskDepth > 0 || interfaceDepth > 0 {
        BufferNext(tokens, i, buffer, name, a, kids, Remaining(cur, ctx));
        buffer := buffer + [token];
        if diskDepth > 0 {
          diskDepth := diskDepth + Delta(token);
          if diskDepth == 0 {
            var edited := FinishDisk(buffer, e, a, kids);
            output := output + edited;
          }
        } else {
          interfaceDepth := interfaceDepth + Delta(token);
          if interfaceDepth == 0 {
            var edited := FinishInterface(buffer, e, a, kids);
            output := output + edited;
          }
        }
      } else {
        Read(tokens, i, cur, ctx);
        WriteNext(e, cur, ctx);
        match token {
          case Start(n, attrs) =>
            if n == "interface" || n == "disk" {
              if n == "interface" { interfaceDepth := 1; } else { diskDepth := 1; }
              buffer := [token];
              name, a, kids := n, attrs, cur.kids;
              BufferStart(name, a, kids);
              Emit(output, EditElem(e, name, a, kids), EditRest(e, cur.next, ctx));
              cur := cur.next;
            } else {
              Emit(output, [token], EditRest(e, cur.kids, Inside(n, cur.next, ctx)));
              output := output + [token];
              cur, ctx := cur.kids, Inside(n, cur.next, ctx);
            }
          case End(n) =>
            Emit(output, EditEnd(e, n), EditRest(e, ctx.next, ctx.outer));
            var ending := EncodeEnd(e, n);
            output := output + ending;
            cur, ctx := ctx.next, ctx.outer;
          case _ =>
            Emit(output, [token], EditRest(e, cur.next, ctx));
            output := output + [token];
            cur := cur.next;
        }
      }
    }
    WriteEnd(e, cur, ctx);
  }
}

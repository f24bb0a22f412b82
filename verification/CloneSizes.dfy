// The name and the sizes of a clone: what the rewritten elements state, for every combination of sizes that a
// request may give.
module CloneSizes {
  import opened Common
  import opened Strings
  import opened Xml
  import opened DomainConfig
  import opened CloneRewrite
  import opened DiskRenaming

  // ---------- Elements with a text ----------

  /** An element that holds one text. */
  datatype Tag = Tag(attrs: seq<Attr>, text: string)

  /** Exactly one child has that name, and it holds one text. */
  predicate OneText(f: Forest, name: string) {
    match f
    case Nil => false
    case Leaf(_, next) => OneText(next, name)
    case Elem(n, _, kids, next) =>
      if n == name then kids.Leaf? && kids.token.Text? && kids.next.Nil? && NoChild(next, name) else OneText(next, name)
  }

  function TheTag(f: Forest, name: string): Tag
    requires OneText(f, name)
  {
    match f
    case Leaf(_, next) => TheTag(next, name)
    case Elem(n, a, kids, next) => if n == name then Tag(a, kids.token.text) else TheTag(next, name)
  }

  /** What the edit makes of a text child of domain. */
  function EditedTag(c: CloneRequest, name: string, t: Tag): Tag {
    var leaf := CloneLeaf(c, ["domain", name], Text(t.text));
    Tag(CloneAttrs(c, "domain", name, t.attrs, NO_NIC), if leaf.Text? then leaf.text else t.text)
  }

  /** The children of domain that state the name and the sizes. */
  predicate IsStated(name: string) { name in {"name", "memory", "currentMemory", "vcpu"} }

  lemma Tags()
    ensures forall name :: IsStated(name) ==> !Dropped("domain", name)
    ensures "domain" != "disk" && "domain" != "interface" && "name" != "memory" && "name" != "currentMemory"
    ensures "name" != "vcpu"
    ensures "memory" != "currentMemory" && "memory" != "vcpu" && "currentMemory" != "vcpu"
  {
    assert |"domain"| == 6 && |"disk"| == 4 && |"interface"| == 9 && |"name"| == 4 && |"memory"| == 6;
    assert |"currentMemory"| == 13 && |"vcpu"| == 4 && |"uuid"| == 4 && |"description"| == 11;
    assert "name"[0] == 'n' && "vcpu"[0] == 'v' && "uuid"[0] == 'u';
  }

  lemma NoNicNeeded(c: CloneRequest, name: string, a: seq<Attr>, nic: Nic)
    requires IsStated(name)
    ensures CloneAttrs(c, "domain", name, a, nic) == CloneAttrs(c, "domain", name, a, NO_NIC)
  {
    Tags();
  }

  lemma {:induction false} NoChildCloned(c: CloneRequest, nic: Nic, f: Forest, name: string)
    requires NoChild(f, name)
    ensures NoChild(CloneForest(c, ["domain"], nic, f), name)
    decreases f
  {
    hide CloneLeaf, CloneAttrs, EnterTag, SkipTag, LeaveTag, Dropped;
    match f
    case Nil =>
    case Leaf(_, next) => NoChildCloned(c, nic, next, name);
    case Elem(n, a, kids, next) =>
      if Dropped("domain", n) {
        NoChildCloned(c, SkipTag("domain", a, nic), next, name);
      } else {
        NoChildCloned(c, LeaveTag(n, NicAfter(["domain"] + [n], EnterTag("domain", n, a, nic), kids)), next, name);
      }
  }

  /** The one text child of that name is still the only one, and is edited. */
  lemma {:induction false} TagCloned(c: CloneRequest, nic: Nic, f: Forest, name: string)
    requires OneText(f, name) && IsStated(name)
    ensures var g := CloneForest(c, ["domain"], nic, f);
            OneText(g, name) && TheTag(g, name) == EditedTag(c, name, TheTag(f, name))
    decreases f
  {
    hide CloneLeaf, CloneAttrs, EnterTag, SkipTag, LeaveTag, Dropped, IsStated;
    match f
    case Leaf(_, next) => TagCloned(c, nic, next, name);
    case Elem(n, a, kids, next) =>
      if n == name {
        Tags();
        assert ["domain"] + [n] == ["domain", n] && Parent(["domain"]) == "domain";
        NoNicNeeded(c, name, a, nic);
        TextLeaf(c, ["domain", name], kids.token);
        LeafCloned(c, ["domain", name], EnterTag("domain", n, a, nic), kids.token);
        assert kids == Leaf(kids.token, Nil);
        assert TheTag(f, name) == Tag(a, kids.token.text);
        NoChildCloned(c, LeaveTag(n, NicAfter(["domain"] + [n], EnterTag("domain", n, a, nic), kids)), next, name);
      } else if Dropped("domain", n) {
        TagCloned(c, SkipTag("domain", a, nic), next, name);
      } else {
        TagCloned(c, LeaveTag(n, NicAfter(["domain"] + [n], EnterTag("domain", n, a, nic), kids)), next, name);
      }
  }

  lemma LeafCloned(c: CloneRequest, stack: seq<string>, nic: Nic, t: LeafToken)
    ensures CloneForest(c, stack, nic, Leaf(t, Nil)) == Leaf(CloneLeaf(c, stack, t), Nil)
  {
  }

  lemma TextLeaf(c: CloneRequest, stack: seq<string>, t: LeafToken)
    requires t.Text?
    ensures CloneLeaf(c, stack, t).Text? && t == Text(t.text)
  {
  }

  /** The same on the whole document. */
  lemma DocTag(c: CloneRequest, doc: Forest, name: string)
    requires DomainDoc(doc) && OneText(RootKids(doc), name) && IsStated(name)
    ensures var g := RootKids(CloneDoc(c, doc));
            OneText(g, name) && TheTag(g, name) == EditedTag(c, name, TheTag(RootKids(doc), name))
  {
    CloneRoot(c, doc);
    TagCloned(c, NO_NIC, RootKids(doc), name);
  }

  /** The name is the requested one. */
  lemma CloneName(c: CloneRequest, doc: Forest)
    requires DomainDoc(doc) && OneText(RootKids(doc), "name")
    ensures OneText(RootKids(CloneDoc(c, doc)), "name") && TheTag(RootKids(CloneDoc(c, doc)), "name").text == c.name
  {
    Tags();
    DocTag(c, doc, "name");
    hide OneText, TheTag, DomainDoc, CloneDoc;
  }

  // ---------- Numbers and units ----------

  predicate IsNumber(s: string) {
    s != "" && forall i :: 0 <= i < |s| ==> IsDigit(s[i])
  }

  /** The bytes of one unit of memory; no unit means KiB. */
  function UnitBytes(unit: string): Option<nat> {
    match unit
    case "b" => Some(1)
    case "bytes" => Some(1)
    case "KB" => Some(1000)
    case "MB" => Some(1000000)
    case "GB" => Some(1000000000)
    case "TB" => Some(1000000000000)
    case "" => Some(1024)
    case "k" => Some(1024)
    case "KiB" => Some(1024)
    case "M" => Some(0x100000)
    case "MiB" => Some(0x100000)
    case "G" => Some(0x40000000)
    case "GiB" => Some(0x40000000)
    case "T" => Some(0x10000000000)
    case "TiB" => Some(0x10000000000)
    case _ => None
  }

  /** The element states a size. */
  predicate StatesSize(t: Tag) {
    IsNumber(t.text) && UnitBytes(AttrValue(t.attrs, "unit")).Some?
  }

  function Number(t: Tag): nat
    requires IsNumber(t.text)
  {
    ParseDecimal(t.text)
  }

  function Unit(t: Tag): nat
    requires StatesSize(t)
  {
    UnitBytes(AttrValue(t.attrs, "unit")).value
  }

  /** The size in bytes. */
  function Bytes(t: Tag): nat
    requires StatesSize(t)
  {
    Number(t) * Unit(t)
  }

  const MIB: nat := 0x100000

  /** validateVMCloneOptions, as far as it concerns sizes. */
  predicate SizesAccepted(c: CloneRequest) {
    && c.currentCPU >= 0 && c.maximumCPU >= 0 && c.currentMemoryMB >= 0 && c.maximumMemoryMB >= 0
    && (c.currentCPU > 0 && c.maximumCPU > 0 ==> c.currentCPU <= c.maximumCPU)
    && (c.currentMemoryMB > 0 && c.maximumMemoryMB > 0 ==> c.currentMemoryMB <= c.maximumMemoryMB)
  }

  lemma KiBUnit()
    ensures UnitBytes("KiB") == Some(1024)
  {
  }

  lemma Written(n: nat)
    ensures Itoa(n) == Decimal(n) && IsNumber(Decimal(n)) && ParseDecimal(Decimal(n)) == n
  {
    DecimalRoundTrip(n);
    hide Decimal, ParseDecimal;
  }

  // ---------- Memory ----------

  /** What the rewritten maximum states. */
  lemma MaximumStated(c: CloneRequest, t: Tag)
    requires SizesAccepted(c) && StatesSize(t)
    ensures var u := EditedTag(c, "memory", t);
            StatesSize(u) && Bytes(u) == if c.maximumMemoryMB > 0 then c.maximumMemoryMB * MIB else Bytes(t)
  {
    Tags();
    KiBUnit();
    if c.maximumMemoryMB > 0 {
      Written(c.maximumMemoryMB * 1024);
      SetAttrValue(t.attrs, "unit", "KiB", "unit");
    }
    MemoryTag(c, "memory", t);
    hide UnitBytes, Decimal, ParseDecimal, SetAttr, AttrValue, IsNumber;
  }

  /** The two elements of memory before and after. */
  lemma MemoryTag(c: CloneRequest, name: string, t: Tag)
    requires SizesAccepted(c) && (name == "memory" || name == "currentMemory")
    ensures var u := EditedTag(c, name, t);
            && u.attrs == (if c.maximumMemoryMB > 0 then SetAttr(t.attrs, "unit", "KiB") else t.attrs)
            && (name == "memory" ==> u.text == if c.maximumMemoryMB > 0 then Itoa(c.maximumMemoryMB * 1024) else t.text)
            && (name == "currentMemory" ==>
                  u.text == if c.currentMemoryMB > 0 then Itoa(c.currentMemoryMB * 1024) else t.text)
  {
    Tags();
    assert ["domain", name][1] == name && ["domain", "name"][1] == "name" && ["domain", "memory"][1] == "memory";
    assert ["domain", "currentMemory"][1] == "currentMemory" && ["domain", "vcpu"][1] == "vcpu";
    hide SetAttr, Itoa;
  }

  /** The number and the unit of the rewritten current memory come from the request or from the source, each on its
      own: the unit is rewritten with the maximum, the number with the current size. */
  lemma CurrentStated(c: CloneRequest, t: Tag)
    requires SizesAccepted(c) && StatesSize(t)
    ensures var u := EditedTag(c, "currentMemory", t);
            && StatesSize(u)
            && Bytes(u) == (if c.currentMemoryMB > 0 then c.currentMemoryMB * 1024 else Number(t))
                           * (if c.maximumMemoryMB > 0 then 1024 else Unit(t))
  {
    KiBUnit();
    if c.currentMemoryMB > 0 {
      Written(c.currentMemoryMB * 1024);
    }
    if c.maximumMemoryMB > 0 {
      SetAttrValue(t.attrs, "unit", "KiB", "unit");
    }
    MemoryTag(c, "currentMemory", t);
    hide UnitBytes, Decimal, ParseDecimal, SetAttr, AttrValue, IsNumber;
  }

  /** A domain whose memory sizes are both stated. */
  predicate StatesMemory(f: Forest) {
    && OneText(f, "memory") && StatesSize(TheTag(f, "memory"))
    && OneText(f, "currentMemory") && StatesSize(TheTag(f, "currentMemory"))
  }

  function Maximum(f: Forest): nat
    requires StatesMemory(f)
  {
    Bytes(TheTag(f, "memory"))
  }

  function Current(f: Forest): nat
    requires StatesMemory(f)
  {
    Bytes(TheTag(f, "currentMemory"))
  }

  /** The clone shows the sizes that the request gives. */
  predicate ShowsMemory(c: CloneRequest, f: Forest)
    requires StatesMemory(f) && SizesAccepted(c)
  {
    && (c.currentMemoryMB > 0 ==> Current(f) == c.currentMemoryMB * MIB)
    && (c.maximumMemoryMB > 0 ==> Maximum(f) == c.maximumMemoryMB * MIB)
  }

  /** For every request: the clone shows the sizes given exactly if no current size is given, or a maximum is, or
      the source counts its current memory in KiB. And its current memory is within its maximum exactly if both
      sizes are given; or only the current one, and it is within the source's maximum when counted in the source's
      unit for the current memory; or only the maximum, and the source's number, taken as KiB, is within it; or
      neither, and the source's is. */
  lemma CloneMemory(c: CloneRequest, doc: Forest)
    requires DomainDoc(doc) && SizesAccepted(c) && StatesMemory(RootKids(doc))
    ensures StatesMemory(RootKids(CloneDoc(c, doc)))
    ensures var was, f := TheTag(RootKids(doc), "currentMemory"), RootKids(CloneDoc(c, doc));
            && (ShowsMemory(c, f) <==> c.currentMemoryMB == 0 || c.maximumMemoryMB > 0 || Unit(was) == 1024)
            && (Current(f) <= Maximum(f) <==>
                  if c.currentMemoryMB > 0 && c.maximumMemoryMB > 0 then true
                  else if c.currentMemoryMB > 0 then c.currentMemoryMB * 1024 * Unit(was) <= Maximum(RootKids(doc))
                  else if c.maximumMemoryMB > 0 then Number(was) <= c.maximumMemoryMB * 1024
                  else Current(RootKids(doc)) <= Maximum(RootKids(doc)))
  {
    Tags();
    DocTag(c, doc, "memory");
    DocTag(c, doc, "currentMemory");
    MaximumStated(c, TheTag(RootKids(doc), "memory"));
    CurrentStated(c, TheTag(RootKids(doc), "currentMemory"));
    hide DomainDoc, CloneDoc, OneText, TheTag, EditedTag, StatesSize, IsNumber, Number, Unit, ParseDecimal, UnitBytes;
    UnitAlone(c.currentMemoryMB, Unit(TheTag(RootKids(doc), "currentMemory")));
  }

  lemma UnitAlone(mb: int, unit: nat)
    ensures mb > 0 ==> (mb * 1024 * unit == mb * MIB <==> unit == 1024)
  {
    if mb > 0 && unit != 1024 {
      assert mb * 1024 * unit != mb * 1024 * 1024;
    }
  }

  // ---------- CPUs ----------

  /** A domain that states its CPUs: the maximum as text, the current number as attribute, the maximum if that is
      missing. */
  predicate StatesCPU(f: Forest) {
    && OneText(f, "vcpu") && IsNumber(TheTag(f, "vcpu").text)
    && (AttrValue(TheTag(f, "vcpu").attrs, "current") == "" || IsNumber(AttrValue(TheTag(f, "vcpu").attrs, "current")))
  }

  function MaximumCPU(f: Forest): nat
    requires StatesCPU(f)
  {
    ParseDecimal(TheTag(f, "vcpu").text)
  }

  function CurrentCPU(f: Forest): nat
    requires StatesCPU(f)
  {
    var current := AttrValue(TheTag(f, "vcpu").attrs, "current");
    if current == "" || ParseDecimal(current) == 0 then MaximumCPU(f) else ParseDecimal(current)
  }

  lemma CPUTag(c: CloneRequest, t: Tag)
    requires SizesAccepted(c)
    ensures c.maximumCPU <= 0 ==> EditedTag(c, "vcpu", t) == t
    ensures c.maximumCPU > 0 ==>
              EditedTag(c, "vcpu", t)
                == Tag(SetAttr(t.attrs, "current", Itoa(FirstPositive(c.currentCPU, c.maximumCPU))), Itoa(c.maximumCPU))
  {
    Tags();
    assert ["domain", "vcpu"][1] == "vcpu" && ["domain", "name"][1] == "name" && ["domain", "memory"][1] == "memory";
    assert ["domain", "currentMemory"][1] == "currentMemory";
    hide SetAttr, Itoa;
  }

  /** A current number of CPUs without a maximum is ignored: the clone shows the numbers given exactly if no current
      one is given, or a maximum is, or the source has that current number already. Its current number is within
      its maximum exactly if a maximum is given or the source's is. */
  lemma CloneCPU(c: CloneRequest, doc: Forest)
    requires DomainDoc(doc) && SizesAccepted(c) && StatesCPU(RootKids(doc))
    ensures StatesCPU(RootKids(CloneDoc(c, doc)))
    ensures var f, was := RootKids(CloneDoc(c, doc)), RootKids(doc);
            && ((c.currentCPU > 0 ==> CurrentCPU(f) == c.currentCPU)
                && (c.maximumCPU > 0 ==> MaximumCPU(f) == c.maximumCPU)
                <==> c.currentCPU == 0 || c.maximumCPU > 0 || CurrentCPU(was) == c.currentCPU)
            && (CurrentCPU(f) <= MaximumCPU(f) <==> c.maximumCPU > 0 || CurrentCPU(was) <= MaximumCPU(was))
  {
    Tags();
    DocTag(c, doc, "vcpu");
    CPUTag(c, TheTag(RootKids(doc), "vcpu"));
    if c.maximumCPU > 0 {
      Written(c.maximumCPU);
      Written(FirstPositive(c.currentCPU, c.maximumCPU));
      SetAttrValue(TheTag(RootKids(doc), "vcpu").attrs, "current", Itoa(FirstPositive(c.currentCPU, c.maximumCPU)),
                   "current");
    }
    hide DomainDoc, CloneDoc, OneText, TheTag, EditedTag, ParseDecimal, Decimal, IsNumber, SetAttr, AttrValue;
  }
}

// What the agent reads off a domain document (encoding/xml's Unmarshal into domainXML): the disks
// and interfaces among the children of the root's devices element.
module DomainConfig {
  import opened Common
  import opened Strings
  import opened Xml

  /** A backing file: where it is, and what it is backed by in turn. */
  datatype Store = Store(file: string, dev: string, next: Option<Store>)

  /** The files of a backing chain, outermost first. */
  function Chain(backing: Option<Store>): seq<string> {
    match backing
    case None => []
    case Some(s) => [FirstNonEmpty(s.file, s.dev)] + Chain(s.next)
  }

  function Named(s: Store): string { TrimSpace(FirstNonEmpty(s.file, s.dev)) }

  /** The last file of a chain that is named, or the given one: diskBaseSourcePath. */
  function Innermost(source: string, backing: Option<Store>): string
    decreases backing
  {
    match backing
    case None => source
    case Some(s) => Innermost(if Named(s) != "" then Named(s) else source, s.next)
  }

  /** One disk element. */
  datatype DiskEntry = DiskEntry(device: string, name: string, file: string, dev: string, backing: Option<Store>) {
    function Path(): string { if file == "" then dev else file }

    /** SourcePath: the innermost backing file, or the disk's own. */
    function Base(): string { Innermost(TrimSpace(FirstNonEmpty(file, dev)), backing) }

    /** The content of the disk depends on that file. */
    predicate Needs(path: string) { path == Path() || path in Chain(backing) }
  }

  /** VMConfigDisk, as far as it is used: sourcePath is the innermost backing file. */
  datatype ConfigDisk = ConfigDisk(name: string, path: string, sourcePath: string, pool: string, device: string)

  /** config lists the disks of doc; the pool is looked up among pools that vary. */
  predicate Describes(config: seq<ConfigDisk>, doc: Forest) {
    var ds := ConfigDisks(doc);
    |config| == |ds| && forall i :: 0 <= i < |ds| ==> ListsDisk(config[i], ds[i])
  }

  predicate ListsDisk(d: ConfigDisk, entry: DiskEntry) {
    d.name == entry.name && d.path == entry.Path() && d.sourcePath == entry.Base() && d.device == entry.device
  }

  /** Unmarshal of an attribute of a child element: later children overwrite earlier ones, and a
      child without the attribute leaves the value alone. */
  function ChildAttr(f: Forest, elem: string, attr: string, init: string): string {
    match f
    case Nil => init
    case Leaf(_, next) => ChildAttr(next, elem, attr, init)
    case Elem(n, a, _, next) =>
      ChildAttr(next, elem, attr, if n == elem && HasAttr(a, attr) then AttrValue(a, attr) else init)
  }

  function Current(store: Option<Store>): Store {
    if store.Some? then store.value else Store("", "", None)
  }

  /** Unmarshal of one backingStore element into what is already there. */
  function ReadInto(kids: Forest, current: Store): Store {
    Store(ChildAttr(kids, "source", "file", current.file), ChildAttr(kids, "source", "dev", current.dev),
          ReadStore(kids, current.next))
  }

  /** Unmarshal of the backingStore children. */
  function ReadStore(f: Forest, init: Option<Store>): Option<Store> {
    match f
    case Nil => init
    case Leaf(_, next) => ReadStore(next, init)
    case Elem(n, _, kids, next) =>
      ReadStore(next, if n == "backingStore" then Some(ReadInto(kids, Current(init))) else init)
  }

  function EntryOf(a: seq<Attr>, kids: Forest): DiskEntry {
    DiskEntry(AttrValue(a, "device"), ChildAttr(kids, "target", "dev", ""), ChildAttr(kids, "source", "file", ""),
              ChildAttr(kids, "source", "dev", ""), ReadStore(kids, None))
  }

  /** The disk elements among the given siblings. */
  function DisksAmong(f: Forest): seq<DiskEntry> {
    match f
    case Nil => []
    case Leaf(_, next) => DisksAmong(next)
    case Elem(n, a, kids, next) => (if n == "disk" then [EntryOf(a, kids)] else []) + DisksAmong(next)
  }

  /** The disks of every devices element among the given siblings. */
  function DevicesDisks(f: Forest): seq<DiskEntry> {
    match f
    case Nil => []
    case Leaf(_, next) => DevicesDisks(next)
    case Elem(n, a, kids, next) => (if n == "devices" then DisksAmong(kids) else []) + DevicesDisks(next)
  }

  /** doc.Devices.Disks of a document: Unmarshal decodes the first element. */
  function AllDisks(doc: Forest): seq<DiskEntry> {
    match doc
    case Nil => []
    case Leaf(_, next) => AllDisks(next)
    case Elem(_, _, kids, _) => DevicesDisks(kids)
  }

  function NormalOnly(ds: seq<DiskEntry>): seq<DiskEntry> {
    if ds == [] then []
    else (if ds[0].device == "disk" then [ds[0]] else []) + NormalOnly(ds[1..])
  }

  /** configDisks: the disks with device='disk'. */
  function ConfigDisks(doc: Forest): seq<DiskEntry> {
    NormalOnly(AllDisks(doc))
  }

  /** The machine's content depends on that file: as the file of any disk device, or behind one. */
  predicate Depends(doc: Forest, path: string) {
    exists i :: 0 <= i < |AllDisks(doc)| && AllDisks(doc)[i].Needs(path)
  }

  /** As a backing file, or as the medium of a device that is no plain disk. */
  predicate DependsOtherwise(doc: Forest, path: string) {
    exists i :: 0 <= i < |AllDisks(doc)| && var d := AllDisks(doc)[i];
      path in Chain(d.backing) || (d.device != "disk" && d.Path() == path)
  }

  function Names(ds: seq<DiskEntry>): (r: seq<string>)
    ensures |r| == |ds| && forall i :: 0 <= i < |ds| ==> r[i] == ds[i].name
  {
    seq(|ds|, i requires 0 <= i < |ds| => ds[i].name)
  }

  predicate Distinct<T(==)>(s: seq<T>) {
    forall i, j :: 0 <= i < j < |s| ==> s[i] != s[j]
  }

  function NormalOne(d: DiskEntry): seq<DiskEntry> {
    if d.device == "disk" then [d] else []
  }

  lemma NormalStep(ds: seq<DiskEntry>)
    ensures ds == [] ==> NormalOnly(ds) == []
    ensures ds != [] ==> NormalOnly(ds) == NormalOne(ds[0]) + NormalOnly(ds[1..])
  {
  }

  lemma {:induction false} NormalOnlyConcat(s: seq<DiskEntry>, t: seq<DiskEntry>)
    ensures NormalOnly(s + t) == NormalOnly(s) + NormalOnly(t)
  {
    hide *;
    NormalStep(s);
    if s == [] {
      assert s + t == t;
    } else {
      assert (s + t)[1..] == s[1..] + t && (s + t)[0] == s[0];
      NormalOnlyConcat(s[1..], t);
      NormalStep(s + t);
    }
  }

  lemma {:induction false} NormalOnlyMember(ds: seq<DiskEntry>, d: DiskEntry)
    ensures d in NormalOnly(ds) <==> d in ds && d.device == "disk"
  {
    if ds != [] {
      NormalOnlyMember(ds[1..], d);
    }
  }

  lemma {:induction false} DisksAmongAppend(f: Forest, g: Forest)
    ensures DisksAmong(Append(f, g)) == DisksAmong(f) + DisksAmong(g)
  {
    hide EntryOf;
    match f
    case Nil =>
    case Leaf(_, next) => DisksAmongAppend(next, g);
    case Elem(_, _, _, next) => DisksAmongAppend(next, g);
  }

  // ---------- Disk elements libvirt writes ----------

  /** Every element of that name is a direct child and carries the attribute. */
  predicate OnlyDirect(f: Forest, elem: string, attr: string) {
    match f
    case Nil => true
    case Leaf(_, next) => OnlyDirect(next, elem, attr)
    case Elem(n, a, kids, next) =>
      (n == elem ==> HasAttr(a, attr)) && !HasElem(kids, elem) && OnlyDirect(next, elem, attr)
  }

  /** A disk element without nested disks whose target elements are direct children with a dev. */
  predicate PlainDisk(kids: Forest) {
    !HasElem(kids, "disk") && OnlyDirect(kids, "target", "dev")
  }

  predicate PlainDisks(f: Forest) {
    match f
    case Nil => true
    case Leaf(_, next) => PlainDisks(next)
    case Elem(n, _, kids, next) => (n == "disk" ==> PlainDisk(kids)) && PlainDisks(next)
  }

  /** On such elements the search of the rewriters finds what Unmarshal finds. */
  lemma {:induction false} DirectLastAttr(f: Forest, elem: string, attr: string, init: string)
    requires OnlyDirect(f, elem, attr)
    ensures LastAttr(f, elem, attr, init) == ChildAttr(f, elem, attr, init)
  {
    match f
    case Nil =>
    case Leaf(_, next) => DirectLastAttr(next, elem, attr, init);
    case Elem(n, a, kids, next) =>
      var mid := if n == elem then AttrValue(a, attr) else init;
      NoElemLastAttr(kids, elem, attr, mid);
      DirectLastAttr(next, elem, attr, mid);
  }

  /** The children of the only devices element among f, if there is exactly one. */
  predicate OneDevices(f: Forest) {
    match f
    case Nil => false
    case Leaf(_, next) => OneDevices(next)
    case Elem(n, _, _, next) => if n == "devices" then NoDevices(next) else OneDevices(next)
  }

  predicate NoDevices(f: Forest) {
    match f
    case Nil => true
    case Leaf(_, next) => NoDevices(next)
    case Elem(n, _, _, next) => n != "devices" && NoDevices(next)
  }

  function DevicesKids(f: Forest): Forest {
    match f
    case Nil => Nil
    case Leaf(_, next) => DevicesKids(next)
    case Elem(n, _, kids, next) => if n == "devices" then kids else DevicesKids(next)
  }

  /** A document whose first element is a domain with exactly one devices child. */
  predicate DomainDoc(doc: Forest) {
    match doc
    case Nil => false
    case Leaf(_, next) => DomainDoc(next)
    case Elem(n, _, kids, _) => n == "domain" && OneDevices(kids)
  }

  function DomainDevices(doc: Forest): Forest {
    match doc
    case Nil => Nil
    case Leaf(_, next) => DomainDevices(next)
    case Elem(_, _, kids, _) => DevicesKids(kids)
  }

  lemma {:induction false} DevicesDisksOne(f: Forest)
    ensures NoDevices(f) ==> DevicesDisks(f) == []
    ensures OneDevices(f) ==> DevicesDisks(f) == DisksAmong(DevicesKids(f))
  {
    match f
    case Nil =>
    case Leaf(_, next) => DevicesDisksOne(next);
    case Elem(_, _, _, next) => DevicesDisksOne(next);
  }

  lemma {:induction false} AllDisksOfDomain(doc: Forest)
    requires DomainDoc(doc)
    ensures AllDisks(doc) == DisksAmong(DomainDevices(doc))
  {
    match doc
    case Leaf(_, next) => AllDisksOfDomain(next);
    case Elem(_, _, kids, _) => DevicesDisksOne(kids);
  }
}

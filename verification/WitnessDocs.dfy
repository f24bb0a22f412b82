// Small domain documents to show properties on: a domain with a list of disks.
module WitnessDocs {
  import opened Common
  import opened Strings
  import opened Pieces
  import opened Paths
  import opened Xml
  import opened DomainConfig
  import opened DiskRenaming

  /** A disk with one level of backing file, empty if there is none. */
  datatype Disk = Disk(device: string, file: string, base: string, target: string)

  function Element(d: Disk, next: Forest): Forest {
    Elem("disk", [Attr("device", d.device)],
         Elem("source", [Attr("file", d.file)], Nil,
              Elem("backingStore", [], Elem("source", [Attr("file", d.base)], Nil, Nil),
                   Elem("target", [Attr("dev", d.target)], Nil, Nil))),
         next)
  }

  function Elements(ds: seq<Disk>): Forest {
    if ds == [] then Nil else Element(ds[0], Elements(ds[1..]))
  }

  function Domain(ds: seq<Disk>): Forest {
    Elem("domain", [], Elem("devices", [], Elements(ds), Nil), Nil)
  }

  function Entry(d: Disk): DiskEntry {
    DiskEntry(d.device, d.target, d.file, "", Some(Store(d.base, "", None)))
  }

  function EntriesOf(ds: seq<Disk>): (r: seq<DiskEntry>)
    ensures |r| == |ds| && forall i :: 0 <= i < |ds| ==> r[i] == Entry(ds[i])
  {
    seq(|ds|, i requires 0 <= i < |ds| => Entry(ds[i]))
  }

  lemma TagNames()
    ensures "source" != "target" && "source" != "backingStore" && "target" != "backingStore" && "file" != "dev"
    ensures "disk" != "source" && "disk" != "target" && "disk" != "backingStore" && "disk" != "devices"
  {
    assert |"backingStore"| == 12 && "source"[0] == 's' && "target"[0] == 't' && |"file"| == 4 && |"dev"| == 3;
    assert |"disk"| == 4 && |"source"| == 6 && |"target"| == 6 && |"devices"| == 7;
  }

  lemma OneValue(name: string, value: string, other: string)
    ensures HasAttr([Attr(name, value)], other) <==> other == name
    ensures AttrValue([Attr(name, value)], other) == if other == name then value else ""
  {
    var a := [Attr(name, value)];
    assert a[0] == Attr(name, value) && a[1..] == [];
  }

  /** Reading a source with a file. */
  lemma SourceTag(file: string, next: Forest, attr: string, init: string)
    ensures ChildAttr(Elem("source", [Attr("file", file)], Nil, next), "source", attr, init)
         == ChildAttr(next, "source", attr, if attr == "file" then file else init)
    ensures ChildAttr(Elem("source", [Attr("file", file)], Nil, next), "target", attr, init)
              == ChildAttr(next, "target", attr, init)
  {
    TagNames();
    OneValue("file", file, attr);
    hide HasAttr, AttrValue;
  }

  lemma LastTag(target: string, attr: string, init: string)
    ensures var last := Elem("target", [Attr("dev", target)], Nil, Nil);
            ChildAttr(last, "source", attr, init) == init && ChildAttr(last, "target", "dev", init) == target
  {
    TagNames();
    OneValue("dev", target, "dev");
    hide HasAttr, AttrValue;
    assert ChildAttr(Nil, "source", attr, init) == init && ChildAttr(Nil, "target", "dev", target) == target;
  }

  lemma OtherTags(base: string, target: string, attr: string, init: string)
    ensures var rest := Elem("backingStore", [], Elem("source", [Attr("file", base)], Nil, Nil),
                             Elem("target", [Attr("dev", target)], Nil, Nil));
            && ChildAttr(rest, "source", attr, init) == init
            && ChildAttr(rest, "target", "dev", init) == target
            && ReadStore(rest, None) == Some(Store(base, "", None))
  {
    TagNames();
    OneValue("dev", target, "dev");
    SourceTag(base, Nil, "file", "");
    SourceTag(base, Nil, "dev", "");
    var last := Elem("target", [Attr("dev", target)], Nil, Nil);
    LastTag(target, attr, init);
    assert ReadStore(last, Some(Store(base, "", None))) == Some(Store(base, "", None));
    assert ReadStore(Elem("source", [Attr("file", base)], Nil, Nil), None) == None;
    hide HasAttr, AttrValue;
  }

  lemma ElementEntry(d: Disk)
    ensures var e := Element(d, Nil); EntryOf(e.attrs, e.kids) == Entry(d)
  {
    TagNames();
    OneValue("device", d.device, "device");
    var rest := Element(d, Nil).kids.next;
    OtherTags(d.base, d.target, "file", d.file);
    OtherTags(d.base, d.target, "dev", "");
    OtherTags(d.base, d.target, "dev", "");
    SourceTag(d.file, rest, "file", "");
    SourceTag(d.file, rest, "dev", "");
    assert ReadStore(Element(d, Nil).kids, None) == ReadStore(rest, None);
    hide ChildAttr, ReadStore, AttrValue;
  }

  lemma {:induction false} ElementsRead(ds: seq<Disk>)
    ensures DisksAmong(Elements(ds)) == EntriesOf(ds)
  {
    if ds != [] {
      ElementsRead(ds[1..]);
      ElementEntry(ds[0]);
      hide EntryOf, Entry;
      assert Element(ds[0], Elements(ds[1..])).attrs == Element(ds[0], Nil).attrs;
      assert EntriesOf(ds) == [Entry(ds[0])] + EntriesOf(ds[1..]);
    }
  }

  predicate FilesNotBlank(ds: seq<Disk>) {
    forall i :: 0 <= i < |ds| ==> !Blank(ds[i].file)
  }

  lemma SourceNeat(file: string)
    requires !Blank(file)
    ensures Neat([Attr("file", file)])
  {
    TagNames();
    OneValue("file", file, "file");
    OneValue("file", file, "dev");
    var a := [Attr("file", file)];
    assert a[1..] == [] && UniqueNames([]) && !HasAttr([], "file");
    assert UniqueNames(a);
    hide Blank, AttrValue;
  }

  lemma ElementTidy(d: Disk)
    requires !Blank(d.file)
    ensures TidyDisk(Element(d, Nil).kids)
  {
    TagNames();
    SourceNeat(d.file);
    hide Blank, HasAttr, AttrValue, Neat;
    var rest := Element(d, Nil).kids.next;
    assert rest.next.next == Nil && NoChild(Nil, "source");
    assert NoChild(rest.next, "source");
    assert NoChild(rest, "source");
  }

  lemma NodePlain(d: Disk)
    ensures PlainDisk(Element(d, Nil).kids)
  {
    TagNames();
    OneValue("dev", d.target, "dev");
    hide HasAttr, AttrValue;
    var kids := Element(d, Nil).kids;
    var rest, last, inner := kids.next, kids.next.next, kids.next.kids;
    assert !HasElem(last, "disk") && !HasElem(inner, "disk") && !HasElem(rest, "disk") && !HasElem(kids, "disk");
    assert OnlyDirect(last, "target", "dev") && !HasElem(inner, "target") && OnlyDirect(rest, "target", "dev");
  }

  lemma {:induction false} ElementsTidy(ds: seq<Disk>)
    ensures PlainDisks(Elements(ds)) && (FilesNotBlank(ds) ==> TidyDisks(Elements(ds)))
  {
    if ds != [] {
      ElementsTidy(ds[1..]);
      NodePlain(ds[0]);
      if FilesNotBlank(ds) {
        ElementTidy(ds[0]);
      }
      hide TidyDisk, PlainDisk, Blank;
    }
  }

  /** Everything that is read off such a document. */
  lemma DomainRead(ds: seq<Disk>)
    ensures DomainDoc(Domain(ds)) && DomainDevices(Domain(ds)) == Elements(ds) && AllDisks(Domain(ds)) == EntriesOf(ds)
    ensures PlainDisks(Elements(ds)) && (FilesNotBlank(ds) ==> TidyDisks(Elements(ds)))
  {
    ElementsRead(ds);
    ElementsTidy(ds);
    AllDisksOfDomain(Domain(ds));
  }

  /** With plain disks only the configuration lists all of them. */
  lemma {:induction false} AllNormal(ds: seq<DiskEntry>)
    requires forall i :: 0 <= i < |ds| ==> ds[i].device == "disk"
    ensures NormalOnly(ds) == ds
  {
    if ds != [] {
      AllNormal(ds[1..]);
    }
  }

  lemma DisksRead(ds: seq<Disk>)
    requires forall i :: 0 <= i < |ds| ==> ds[i].device == "disk"
    ensures ConfigDisks(Domain(ds)) == EntriesOf(ds)
  {
    DomainRead(ds);
    AllNormal(EntriesOf(ds));
  }

  // ---------- Names and paths ----------

  /** A word of letters, dots inside and digits: what the examples use for names. */
  predicate Simple(w: string) {
    w != "" && w != "." && w != ".." && forall i :: 0 <= i < |w| ==> 'a' <= w[i] <= 'z'
  }

  lemma SimpleTrim(w: string)
    requires Simple(w)
    ensures TrimSpace(w) == w && !Blank(w) && '/' !in w && '\\' !in w
  {
    assert 'a' <= w[0] <= 'z' && 'a' <= w[|w| - 1] <= 'z';
    assert IsTrimmed(w);
  }

  /** A path of one or more simple components. */
  lemma SimplePath(cs: seq<string>)
    requires cs != [] && forall i :: 0 <= i < |cs| ==> Simple(cs[i])
    ensures Clean("/" + Join(cs, '/')) == "/" + Join(cs, '/') && Rooted("/" + Join(cs, '/'))
  {
    forall i | 0 <= i < |cs| ensures NoSlash(cs[i]) {
      SimpleTrim(cs[i]);
    }
    assert Resolved(cs, true);
    RootedComponents(cs);
  }

  lemma TwoParts(a: string, b: string)
    requires Simple(a) && Simple(b)
    ensures Clean("/" + a + "/" + b) == "/" + a + "/" + b && Rooted("/" + a + "/" + b)
    ensures TrimSpace("/" + a + "/" + b) == "/" + a + "/" + b && !Blank("/" + a + "/" + b)
  {
    SimplePath([a, b]);
    assert [a, b][1..] == [b] && Join([b], '/') == b;
    var path := "/" + a + "/" + b;
    assert Join([a, b], '/') == a + "/" + b && path == "/" + (a + "/" + b);
    assert 'a' <= b[|b| - 1] <= 'z' && path[|path| - 1] == b[|b| - 1] && path[0] == '/';
    assert IsTrimmed(path);
    RootedNotBlank(path);
  }
}

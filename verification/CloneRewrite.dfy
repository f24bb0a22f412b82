// The clone rewrite: one pass that copies a domain document, skipping uuid, description and
// interface targets, and rewriting the name, CPU and memory sizes, disk sources, MACs and
// interface sources.
module CloneRewrite {
  import opened Strings
  import opened Xml
  import opened DeviceRewrite

  datatype CloneRequest = CloneRequest(
    name: string, currentCPU: int, maximumCPU: int, currentMemoryMB: int, maximumMemoryMB: int, cdromPolicy: string,
    diskPaths: map<string, string>, interfaceMACs: map<string, string>, interfaceSources: map<string, string>)

  /** What the pass remembers of the interface it is in. */
  datatype Nic = Nic(mac: string, target: string, kind: string)

  const NO_NIC := Nic("", "", "")

  /** A Go map lookup: the zero value for a missing key. */
  function Lookup(m: map<string, string>, key: string): string {
    if key in m then m[key] else ""
  }

  function FirstPositive(a: int, b: int): int {
    if a > 0 then a else if b > 0 then b else 0
  }

  function Itoa(n: int): string {
    if n < 0 then "-" + Decimal(-n) else Decimal(n)
  }

  predicate Disconnect(c: CloneRequest) { ToLower(TrimSpace(c.cdromPolicy)) == "disconnect" }

  // ---------- Attributes of a disk source ----------

  function SourcePath(attrs: seq<Attr>): string {
    FirstNonEmpty(AttrValue(attrs, "file"), AttrValue(attrs, "dev"))
  }

  predicate HasAttrValue(attrs: seq<Attr>, name: string, value: string) {
    Attr(name, value) in attrs
  }

  function ReplaceAttrValue(attrs: seq<Attr>, name: string, old_: string, value: string): seq<Attr> {
    if attrs == [] then []
    else if attrs[0] == Attr(name, old_) then [Attr(name, value)] + attrs[1..]
    else [attrs[0]] + ReplaceAttrValue(attrs[1..], name, old_, value)
  }

  function SetDiskSourcePath(attrs: seq<Attr>, path: string, value: string): seq<Attr> {
    if HasAttrValue(attrs, "file", path) then ReplaceAttrValue(attrs, "file", path, value)
    else if HasAttrValue(attrs, "dev", path) then ReplaceAttrValue(attrs, "dev", path, value)
    else SetAttr(attrs, "file", value)
  }

  function RemoveSourcePath(attrs: seq<Attr>): seq<Attr> {
    if attrs == [] then []
    else if attrs[0].name == "file" || attrs[0].name == "dev" then RemoveSourcePath(attrs[1..])
    else [attrs[0]] + RemoveSourcePath(attrs[1..])
  }

  // ---------- The tree edit ----------

  function Parent(stack: seq<string>): string {
    if stack == [] then "" else stack[|stack| - 1]
  }

  predicate Dropped(parent: string, name: string) {
    || (parent == "domain" && (name == "uuid" || name == "description"))
    || (parent == "interface" && name == "target")
  }

  function DiskSourceAttrs(c: CloneRequest, attrs: seq<Attr>): seq<Attr> {
    var path := SourcePath(attrs);
    var copy := Lookup(c.diskPaths, path);
    if copy != "" then SetDiskSourcePath(attrs, path, copy)
    else if Disconnect(c) then RemoveSourcePath(attrs)
    else attrs
  }

  function InterfaceSourceAttrs(c: CloneRequest, attrs: seq<Attr>, nic: Nic): seq<Attr> {
    var source := FirstNonEmpty(Lookup(c.interfaceSources, nic.target), Lookup(c.interfaceSources, nic.mac));
    if source != "" then SetSourceAttrs(attrs, InterfaceSourceAttrName(nic.kind), source) else attrs
  }

  function MacAttrs(c: CloneRequest, attrs: seq<Attr>): seq<Attr> {
    var mac := Lookup(c.interfaceMACs, AttrValue(attrs, "address"));
    if mac != "" then SetAttr(attrs, "address", mac) else attrs
  }

  /** The attributes of a copied start tag. */
  function CloneAttrs(c: CloneRequest, parent: string, name: string, attrs: seq<Attr>, nic: Nic): seq<Attr> {
    if parent == "domain" && (name == "memory" || name == "currentMemory") && c.maximumMemoryMB > 0 then
      SetAttr(attrs, "unit", "KiB")
    else if parent == "domain" && name == "vcpu" && c.maximumCPU > 0 then
      SetAttr(attrs, "current", Itoa(FirstPositive(c.currentCPU, c.maximumCPU)))
    else if parent == "disk" && name == "source" then DiskSourceAttrs(c, attrs)
    else if parent == "interface" && name == "source" then InterfaceSourceAttrs(c, attrs, nic)
    else if parent == "interface" && name == "mac" then MacAttrs(c, attrs)
    else attrs
  }

  function EnterTag(parent: string, name: string, attrs: seq<Attr>, nic: Nic): Nic {
    var seen := if parent == "interface" && name == "mac" then nic.(mac := AttrValue(attrs, "address")) else nic;
    if name == "interface" then seen.(kind := AttrValue(attrs, "type")) else seen
  }

  function SkipTag(parent: string, attrs: seq<Attr>, nic: Nic): Nic {
    if parent == "interface" then nic.(target := AttrValue(attrs, "dev")) else nic
  }

  function LeaveTag(name: string, nic: Nic): Nic {
    if name == "interface" then NO_NIC else nic
  }

  function CloneLeaf(c: CloneRequest, stack: seq<string>, t: LeafToken): LeafToken {
    if t.Misc? then t
    else if stack == ["domain", "name"] then Text(c.name)
    else if stack == ["domain", "memory"] && c.maximumMemoryMB > 0 then Text(Itoa(c.maximumMemoryMB * 1024))
    else if stack == ["domain", "currentMemory"] && c.currentMemoryMB > 0 then
      Text(Itoa(FirstPositive(c.currentMemoryMB, c.maximumMemoryMB) * 1024))
    else if stack == ["domain", "vcpu"] && c.maximumCPU > 0 then Text(Itoa(c.maximumCPU))
    else t
  }

  /** What is remembered after reading a forest below the open elements of stack. */
  function NicAfter(stack: seq<string>, nic: Nic, f: Forest): Nic
    decreases f
  {
    match f
    case Nil => nic
    case Leaf(_, next) => NicAfter(stack, nic, next)
    case Elem(n, a, kids, next) =>
      if Dropped(Parent(stack), n) then NicAfter(stack, SkipTag(Parent(stack), a, nic), next)
      else NicAfter(stack, LeaveTag(n, NicAfter(stack + [n], EnterTag(Parent(stack), n, a, nic), kids)), next)
  }

  /** The edit of the forest below the open elements of stack. */
  function CloneForest(c: CloneRequest, stack: seq<string>, nic: Nic, f: Forest): Forest
    decreases f
  {
    match f
    case Nil => Nil
    case Leaf(t, next) => Leaf(CloneLeaf(c, stack, t), CloneForest(c, stack, nic, next))
    case Elem(n, a, kids, next) =>
      var parent := Parent(stack);
      if Dropped(parent, n) then CloneForest(c, stack, SkipTag(parent, a, nic), next)
      else
        var inside := EnterTag(parent, n, a, nic);
        Elem(n, CloneAttrs(c, parent, n, a, nic), CloneForest(c, stack + [n], inside, kids),
             CloneForest(c, stack, LeaveTag(n, NicAfter(stack + [n], inside, kids)), next))
  }

  function CloneDoc(c: CloneRequest, doc: Forest): Forest {
    CloneForest(c, [], NO_NIC, doc)
  }

  // ---------- The one-pass rewrite ----------

  function Path(ctx: Context): seq<string> {
    match ctx
    case Top => []
    case Inside(n, _, outer) => Path(outer) + [n]
  }

  function CloneClosing(c: CloneRequest, ctx: Context, nic: Nic): seq<Token> {
    match ctx
    case Top => []
    case Inside(n, next, outer) =>
      var left := LeaveTag(n, nic);
      [End(n)] + (Flatten(CloneForest(c, Path(outer), left, next))
                  + CloneClosing(c, outer, NicAfter(Path(outer), left, next)))
  }

  /** What is still to be written when the reader is in front of cur. */
  function CloneRest(c: CloneRequest, cur: Forest, ctx: Context, nic: Nic): seq<Token> {
    Flatten(CloneForest(c, Path(ctx), nic, cur)) + CloneClosing(c, ctx, NicAfter(Path(ctx), nic, cur))
  }

  lemma WriteNext(c: CloneRequest, cur: Forest, ctx: Context, nic: Nic)
    ensures cur.Nil? && ctx.Inside? ==>
              CloneRest(c, cur, ctx, nic)
                == [End(ctx.name)] + CloneRest(c, ctx.next, ctx.outer, LeaveTag(ctx.name, nic))
    ensures cur.Leaf? ==>
              CloneRest(c, cur, ctx, nic) == [CloneLeaf(c, Path(ctx), cur.token)] + CloneRest(c, cur.next, ctx, nic)
    ensures cur.Elem? && Dropped(Parent(Path(ctx)), cur.name) ==>
              CloneRest(c, cur, ctx, nic) == CloneRest(c, cur.next, ctx, SkipTag(Parent(Path(ctx)), cur.attrs, nic))
    ensures cur.Elem? && !Dropped(Parent(Path(ctx)), cur.name) ==>
              var parent := Parent(Path(ctx));
              CloneRest(c, cur, ctx, nic) == [Start(cur.name, CloneAttrs(c, parent, cur.name, cur.attrs, nic))]
                + CloneRest(c, cur.kids, Inside(cur.name, cur.next, ctx), EnterTag(parent, cur.name, cur.attrs, nic))
  {
    hide CloneAttrs, CloneLeaf, Dropped, EnterTag, SkipTag, LeaveTag;
    if cur.Elem? && !Dropped(Parent(Path(ctx)), cur.name) {
      WriteElem(c, cur, ctx, nic);
    }
  }

  lemma WriteElem(c: CloneRequest, cur: Forest, ctx: Context, nic: Nic)
    requires cur.Elem? && !Dropped(Parent(Path(ctx)), cur.name)
    ensures var parent := Parent(Path(ctx));
            CloneRest(c, cur, ctx, nic) == [Start(cur.name, CloneAttrs(c, parent, cur.name, cur.attrs, nic))]
              + CloneRest(c, cur.kids, Inside(cur.name, cur.next, ctx), EnterTag(parent, cur.name, cur.attrs, nic))
  {
    hide CloneAttrs, Dropped, EnterTag, LeaveTag;
    var stack := Path(ctx);
    var edited := CloneForest(c, stack, nic, cur);
    var inside := EnterTag(Parent(stack), cur.name, cur.attrs, nic);
    var left := LeaveTag(cur.name, NicAfter(stack + [cur.name], inside, cur.kids));
    var tag, inner, rest := [Start(cur.name, edited.attrs)], Flatten(edited.kids), Flatten(edited.next);
    var closing := CloneClosing(c, ctx, NicAfter(stack, left, cur.next));
    assert Flatten(edited) == tag + inner + [End(cur.name)] + rest;
    assert CloneRest(c, cur, ctx, nic) == Flatten(edited) + closing;
    assert CloneRest(c, cur.kids, Inside(cur.name, cur.next, ctx), inside)
      == inner + ([End(cur.name)] + (rest + closing));
    hide *;
    Regroup(tag, inner, [End(cur.name)], rest, closing);
  }

  /** One step outside a skipped element. */
  lemma Advance(ts: seq<Token>, i: nat, c: CloneRequest, cur: Forest, ctx: Context, nic: Nic, output: seq<Token>,
                goal: seq<Token>)
    requires i < |ts| && Reading(ts, i, cur, ctx, output, CloneRest(c, cur, ctx, nic), goal)
    ensures cur.Nil? ==> ctx.Inside? && ts[i] == End(ctx.name)
    ensures cur.Nil? ==> Reading(ts, i + 1, ctx.next, ctx.outer, output + [ts[i]],
                                 CloneRest(c, ctx.next, ctx.outer, LeaveTag(ctx.name, nic)), goal)
    ensures cur.Leaf? ==> ts[i] == cur.token
    ensures cur.Leaf? ==> Reading(ts, i + 1, cur.next, ctx, output + [CloneLeaf(c, Path(ctx), cur.token)],
                                  CloneRest(c, cur.next, ctx, nic), goal)
    ensures cur.Elem? ==> ts[i] == Start(cur.name, cur.attrs)
    ensures cur.Elem? && Dropped(Parent(Path(ctx)), cur.name) ==>
              Inner(ts, i + 1, ElemTokens(cur.name, cur.attrs, cur.kids), 1, 1, cur.next, ctx, output,
                    CloneRest(c, cur.next, ctx, SkipTag(Parent(Path(ctx)), cur.attrs, nic)), goal)
    ensures cur.Elem? && !Dropped(Parent(Path(ctx)), cur.name) ==>
              Reading(ts, i + 1, cur.kids, Inside(cur.name, cur.next, ctx),
                      output + [Start(cur.name, CloneAttrs(c, Parent(Path(ctx)), cur.name, cur.attrs, nic))],
                      CloneRest(c, cur.kids, Inside(cur.name, cur.next, ctx),
                                EnterTag(Parent(Path(ctx)), cur.name, cur.attrs, nic)), goal)
  {
    hide InElement, Remaining, CloneRest, LeaveTag, CloneLeaf, Path, ElemTokens, Dropped, SkipTag, EnterTag, CloneAttrs;
    Read(ts, i, cur, ctx);
    WriteNext(c, cur, ctx, nic);
    if cur.Elem? {
      EnterElement(ts, i, cur.name, cur.attrs, cur.kids, Remaining(cur.next, ctx));
    }
  }

  lemma PushPath(n: string, next: Forest, ctx: Context)
    ensures Path(Inside(n, next, ctx)) == Path(ctx) + [n]
    ensures Path(Inside(n, next, ctx))[..|Path(Inside(n, next, ctx))| - 1] == Path(ctx)
  {
  }

  /** buildCloneDomainXML on the tokens of doc. */
  method BuildCloneDomain(tokens: seq<Token>, c: CloneRequest, ghost doc: Forest) returns (output: seq<Token>)
    requires tokens == Flatten(doc)
    ensures output == Flatten(CloneDoc(c, doc))
  {
    hide *;
    ghost var goal := Flatten(CloneDoc(c, doc));
    output := [];
    var stack: seq<string> := [];
    var skipDepth := 0;
    var nic := NO_NIC;
    ghost var cur, ctx := doc, Top;                  // the reader's place, after any skipped element
    ghost var element, read := [], 0;                // the element being skipped, and how much of it was read
    StartCopying(c, doc);
    for i := 0 to |tokens|
      invariant skipDepth >= 0 && read >= 0
      invariant stack == Path(ctx)
      invariant skipDepth == 0 ==> Reading(tokens, i, cur, ctx, output, CloneRest(c, cur, ctx, nic), goal)
      invariant skipDepth > 0 ==>
                  Inner(tokens, i, element, read, skipDepth, cur, ctx, output, CloneRest(c, cur, ctx, nic), goal)
    {
      var token := tokens[i];
      if skipDepth > 0 {
        NextInner(tokens, i, element, read, skipDepth, cur, ctx, output, CloneRest(c, cur, ctx, nic), goal);
        skipDepth := skipDepth + Delta(token);
        read := read + 1;
      } else {
        Advance(tokens, i, c, cur, ctx, nic, output, goal);
        match token {
          case Start(n, attrs) =>
            var parent := Parent(stack);
            if Dropped(parent, n) {
              nic := SkipTag(parent, attrs, nic);
              skipDepth := 1;
              element, read := ElemTokens(n, attrs, cur.kids), 1;
              cur := cur.next;
            } else {
              output := output + [Start(n, CloneAttrs(c, parent, n, attrs, nic))];
              nic := EnterTag(parent, n, attrs, nic);
              PushPath(n, cur.next, ctx);
              stack := stack + [n];
              cur, ctx := cur.kids, Inside(n, cur.next, ctx);
            }
          case End(n) =>
            output := output + [token];
            nic := LeaveTag(n, nic);
            PushPath(n, ctx.next, ctx.outer);
            stack := stack[..|stack| - 1];
            cur, ctx := ctx.next, ctx.outer;
          case _ =>
            output := output + [CloneLeaf(c, stack, token)];
            cur := cur.next;
        }
      }
    }
    AllRead(tokens, element, read, skipDepth, cur, ctx, output, CloneRest(c, cur, ctx, nic), goal);
    NothingToWrite(c, nic);
  }

  lemma StartCopying(c: CloneRequest, doc: Forest)
    ensures Reading(Flatten(doc), 0, doc, Top, [], CloneRest(c, doc, Top, NO_NIC), Flatten(CloneDoc(c, doc)))
    ensures Path(Top) == []
  {
    hide Flatten, CloneForest;
  }

  lemma NothingToWrite(c: CloneRequest, nic: Nic)
    ensures CloneRest(c, Nil, Top, nic) == []
  {
  }
}

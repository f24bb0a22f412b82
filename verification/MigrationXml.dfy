// The domain document a cold migration defines on the target: the source's document with the
// copied disk paths put in.
module MigrationXml {
  import opened Xml
  import opened DomainConfig
  import opened CloneRewrite
  import opened CloneEffect
  import opened DiskRenaming

  /** Renaming disks and nothing else. */
  function OnlyDisks(diskPaths: map<string, string>): CloneRequest {
    CloneRequest("", 0, 0, 0, 0, "", diskPaths, map[], map[])
  }

  function TagAttrs(diskPaths: map<string, string>, parent: string, n: string, a: seq<Attr>): seq<Attr> {
    if parent == "disk" && n == "source" then
      var path := SourcePath(a);
      if Lookup(diskPaths, path) != "" then SetDiskSourcePath(a, path, Lookup(diskPaths, path)) else a
    else a
  }

  /** The edit of a forest whose parent element has the given name. */
  function MigrateForest(diskPaths: map<string, string>, parent: string, f: Forest): Forest
    decreases f
  {
    match f
    case Nil => Nil
    case Leaf(t, next) => Leaf(t, MigrateForest(diskPaths, parent, next))
    case Elem(n, a, kids, next) =>
      Elem(n, TagAttrs(diskPaths, parent, n, a), MigrateForest(diskPaths, n, kids),
           MigrateForest(diskPaths, parent, next))
  }

  function ParentName(ctx: Context): string {
    if ctx.Top? then "" else ctx.name
  }

  function Rest(m: map<string, string>, cur: Forest, ctx: Context): seq<Token> {
    Flatten(MigrateForest(m, ParentName(ctx), cur)) + ClosingRest(m, ctx)
  }

  function ClosingRest(m: map<string, string>, ctx: Context): seq<Token> {
    match ctx
    case Top => []
    case Inside(n, next, outer) =>
      [End(n)] + (Flatten(MigrateForest(m, ParentName(outer), next)) + ClosingRest(m, outer))
  }

  lemma WriteElem(m: map<string, string>, n: string, a: seq<Attr>, kids: Forest, next: Forest, ctx: Context)
    ensures Rest(m, Elem(n, a, kids, next), ctx)
         == [Start(n, TagAttrs(m, ParentName(ctx), n, a))] + Rest(m, kids, Inside(n, next, ctx))
  {
    hide TagAttrs;
    var tag := [Start(n, TagAttrs(m, ParentName(ctx), n, a))];
    var inner, rest, closing := Flatten(MigrateForest(m, n, kids)), Flatten(MigrateForest(m, ParentName(ctx), next)),
      ClosingRest(m, ctx);
    assert Flatten(MigrateForest(m, ParentName(ctx), Elem(n, a, kids, next))) == tag + inner + [End(n)] + rest;
    assert ClosingRest(m, Inside(n, next, ctx)) == [End(n)] + (rest + closing);
    assert Rest(m, kids, Inside(n, next, ctx)) == inner + ([End(n)] + (rest + closing));
    assert Rest(m, Elem(n, a, kids, next), ctx) == tag + inner + [End(n)] + rest + closing;
    hide *;
    Regroup(tag, inner, [End(n)], rest, closing);
  }

  lemma Step(m: map<string, string>, ts: seq<Token>, i: nat, cur: Forest, ctx: Context, output: seq<Token>,
             goal: seq<Token>)
    requires i < |ts| && Reading(ts, i, cur, ctx, output, Rest(m, cur, ctx), goal)
    ensures cur.Nil? ==> ctx.Inside? && ts[i] == End(ctx.name)
    ensures cur.Nil? ==> Reading(ts, i + 1, ctx.next, ctx.outer, output + [ts[i]], Rest(m, ctx.next, ctx.outer), goal)
    ensures cur.Leaf? ==> ts[i] == cur.token
    ensures cur.Leaf? ==> Reading(ts, i + 1, cur.next, ctx, output + [ts[i]], Rest(m, cur.next, ctx), goal)
    ensures cur.Elem? ==> ts[i] == Start(cur.name, cur.attrs)
    ensures cur.Elem? ==> Reading(ts, i + 1, cur.kids, Inside(cur.name, cur.next, ctx),
                                  output + [Start(cur.name, TagAttrs(m, ParentName(ctx), cur.name, cur.attrs))],
                                  Rest(m, cur.kids, Inside(cur.name, cur.next, ctx)), goal)
  {
    hide Remaining, ElemTokens, TagAttrs, ParentName, Flatten;
    Read(ts, i, cur, ctx);
    if cur.Elem? {
      WriteElem(m, cur.name, cur.attrs, cur.kids, cur.next, ctx);
      hide Rest;
    } else {
      WriteLeaf(m, cur, ctx);
      hide Rest;
    }
  }

  lemma WriteLeaf(m: map<string, string>, cur: Forest, ctx: Context)
    ensures cur.Nil? && ctx.Inside? ==> Rest(m, cur, ctx) == [End(ctx.name)] + Rest(m, ctx.next, ctx.outer)
    ensures cur.Leaf? ==> Rest(m, cur, ctx) == [cur.token] + Rest(m, cur.next, ctx)
  {
  }

  lemma StartMigrating(m: map<string, string>, doc: Forest)
    ensures Reading(Flatten(doc), 0, doc, Top, [], Rest(m, doc, Top), Flatten(MigrateForest(m, "", doc)))
    ensures Rest(m, Nil, Top) == []
  {
    hide TagAttrs;
  }

  /** buildMigrationDomainXML */
  method BuildMigrationDomain(tokens: seq<Token>, diskPaths: map<string, string>, ghost doc: Forest)
    returns (output: seq<Token>)
    requires tokens == Flatten(doc)
    ensures output == Flatten(MigrateForest(diskPaths, "", doc))
  {
    hide *;
    ghost var goal := Flatten(MigrateForest(diskPaths, "", doc));
    output := [];
    var stack: seq<string> := [];
    ghost var cur, ctx := doc, Top;
    StartMigrating(diskPaths, doc);
    ContextParent(ctx);
    for i := 0 to |tokens|
      invariant stack == Path(ctx)
      invariant Reading(tokens, i, cur, ctx, output, Rest(diskPaths, cur, ctx), goal)
    {
      var token := tokens[i];
      Step(diskPaths, tokens, i, cur, ctx, output, goal);
      ContextParent(ctx);
      match token {
        case Start(n, attrs) =>
          output := output + [Start(n, TagAttrs(diskPaths, Parent(stack), n, attrs))];
          PushPath(n, cur.next, ctx);
          stack := stack + [n];
          cur, ctx := cur.kids, Inside(n, cur.next, ctx);
        case End(n) =>
          output := output + [token];
          PushPath(n, ctx.next, ctx.outer);
          stack := stack[..|stack| - 1];
          cur, ctx := ctx.next, ctx.outer;
        case _ =>
          output := output + [token];
          cur := cur.next;
      }
    }
    AllRead(tokens, [], 0, 0, cur, ctx, output, Rest(diskPaths, cur, ctx), goal);
  }

  lemma ContextParent(ctx: Context)
    ensures Parent(Path(ctx)) == ParentName(ctx)
    ensures Path(Top) == []
  {
  }

  // ---------- The disks of the migrated domain ----------

  lemma NeverDisconnects(diskPaths: map<string, string>)
    ensures !Disconnects(OnlyDisks(diskPaths))
  {
  }

  lemma TagIsRename(m: map<string, string>, parent: string, n: string, a: seq<Attr>)
    ensures TagAttrs(m, parent, n, a) == if parent == "disk" && n == "source" then DiskSourceAttrs(OnlyDisks(m), a)
              else a
  {
    NeverDisconnects(m);
    hide Disconnects, SourcePath, SetDiskSourcePath;
  }

  lemma {:induction false} MigrateStores(m: map<string, string>, f: Forest)
    ensures SameStores(f, MigrateForest(m, "backingStore", f))
  {
    assert "backingStore"[0] == 'b' && "disk"[0] == 'd';
    match f
    case Nil =>
    case Leaf(_, next) => MigrateStores(m, next);
    case Elem(n, _, kids, next) =>
      if n == "backingStore" { MigrateStores(m, kids); }
      MigrateStores(m, next);
  }

  lemma {:induction false} MigrateKids(m: map<string, string>, f: Forest)
    ensures RenamedKids(OnlyDisks(m), f, MigrateForest(m, "disk", f))
  {
    hide TagAttrs, DiskSourceAttrs, SameStores;
    match f
    case Nil =>
    case Leaf(_, next) => MigrateKids(m, next);
    case Elem(n, a, kids, next) =>
      TagIsRename(m, "disk", n, a);
      if n == "backingStore" { MigrateStores(m, kids); }
      MigrateKids(m, next);
  }

  lemma {:induction false} MigrateDevices(m: map<string, string>, f: Forest)
    ensures RenamedDevices(OnlyDisks(m), f, MigrateForest(m, "devices", f))
  {
    hide TagAttrs, RenamedKids;
    assert |"devices"| == 7 && |"disk"| == 4;
    match f
    case Nil =>
    case Leaf(_, next) => MigrateDevices(m, next);
    case Elem(n, a, kids, next) =>
      TagIsRename(m, "devices", n, a);
      if n == "disk" { MigrateKids(m, kids); }
      MigrateDevices(m, next);
  }

  lemma {:induction false} MigrateOneDevices(m: map<string, string>, f: Forest)
    ensures var g := MigrateForest(m, "domain", f);
            && (NoDevices(f) ==> NoDevices(g))
            && (OneDevices(f) ==> OneDevices(g) && RenamedDevices(OnlyDisks(m), DevicesKids(f), DevicesKids(g)))
  {
    hide TagAttrs, RenamedDevices;
    match f
    case Nil =>
    case Leaf(_, next) => MigrateOneDevices(m, next);
    case Elem(n, a, kids, next) =>
      if n == "devices" { MigrateDevices(m, kids); }
      MigrateOneDevices(m, next);
  }

  lemma {:induction false} MigrateRoot(m: map<string, string>, doc: Forest)
    requires DomainDoc(doc)
    ensures var g := MigrateForest(m, "", doc);
            DomainDoc(g) && RenamedDevices(OnlyDisks(m), DomainDevices(doc), DomainDevices(g))
  {
    hide TagAttrs, RenamedDevices;
    match doc
    case Leaf(_, next) => MigrateRoot(m, next);
    case Elem(_, _, kids, _) => MigrateOneDevices(m, kids);
  }

  // ---------- What stays ----------

  /** The document without the file and dev attributes of disk sources. */
  function Pathless(parent: string, f: Forest): Forest
    decreases f
  {
    match f
    case Nil => Nil
    case Leaf(t, next) => Leaf(t, Pathless(parent, next))
    case Elem(n, a, kids, next) =>
      Elem(n, if parent == "disk" && n == "source" then Without(a, {"file", "dev"}) else a, Pathless(n, kids),
           Pathless(parent, next))
  }

  /** Frame: nothing changes but the paths of disk sources. */
  lemma {:induction false} MigrationKeepsRest(m: map<string, string>, parent: string, f: Forest)
    ensures Pathless(parent, MigrateForest(m, parent, f)) == Pathless(parent, f)
    decreases f
  {
    hide TagAttrs, Without, DiskSourceAttrs;
    match f
    case Nil =>
    case Leaf(_, next) => MigrationKeepsRest(m, parent, next);
    case Elem(n, a, kids, next) =>
      TagIsRename(m, parent, n, a);
      WithoutDiskSource(OnlyDisks(m), a);
      MigrationKeepsRest(m, n, kids);
      MigrationKeepsRest(m, parent, next);
  }

  // ---------- The disks after the migration ----------

  /** The disks of the migrated domain are the source's disks with their paths renamed. */
  lemma MigrateDisks(m: map<string, string>, doc: Forest)
    requires DomainDoc(doc) && TidyDisks(DomainDevices(doc)) && CopiesNamed(OnlyDisks(m)) && Lookup(m, "") == ""
    ensures AllRenamed(OnlyDisks(m), ConfigDisks(doc), ConfigDisks(MigrateForest(m, "", doc)))
  {
    var g := MigrateForest(m, "", doc);
    hide MigrateForest, RenamedDevices, TidyDisks, EntryRenamed;
    MigrateRoot(m, doc);
    AllDisksOfDomain(doc);
    AllDisksOfDomain(g);
    RenamedAmong(OnlyDisks(m), DomainDevices(doc), DomainDevices(g));
    RenamedNormal(OnlyDisks(m), AllDisks(doc), AllDisks(g));
  }
}

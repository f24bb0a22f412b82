// The token loops that change the boot order, each proved to be its tree edit.
module MediaRewrite {
  import opened Strings
  import opened Xml
  import opened DeviceRewrite
  import opened MediaBoot

  // ---------- withoutBootTokens ----------

  /** What is still to be written when the reader is in front of cur. */
  function RemoveRest(cur: Forest, ctx: Context): seq<Token> {
    Flatten(RemoveBoots(cur, false)) + RemoveClosing(ctx)
  }

  function RemoveClosing(ctx: Context): seq<Token> {
    match ctx
    case Top => []
    case Inside(n, next, outer) => [End(n)] + (Flatten(RemoveBoots(next, false)) + RemoveClosing(outer))
  }

  lemma RemoveElem(n: string, a: seq<Attr>, kids: Forest, next: Forest, ctx: Context)
    requires n != "boot"
    ensures RemoveRest(Elem(n, a, kids, next), ctx) == [Start(n, a)] + RemoveRest(kids, Inside(n, next, ctx))
  {
    var inner, rest, closing := Flatten(RemoveBoots(kids, false)), Flatten(RemoveBoots(next, false)),
      RemoveClosing(ctx);
    assert Flatten(RemoveBoots(Elem(n, a, kids, next), false)) == [Start(n, a)] + inner + [End(n)] + rest;
    assert RemoveClosing(Inside(n, next, ctx)) == [End(n)] + (rest + closing);
    assert RemoveRest(kids, Inside(n, next, ctx)) == inner + ([End(n)] + (rest + closing));
    assert RemoveRest(Elem(n, a, kids, next), ctx) == [Start(n, a)] + inner + [End(n)] + rest + closing;
    hide *;
    Regroup([Start(n, a)], inner, [End(n)], rest, closing);
  }

  lemma RemoveNext(cur: Forest, ctx: Context)
    ensures cur.Nil? && ctx.Inside? ==> RemoveRest(cur, ctx) == [End(ctx.name)] + RemoveRest(ctx.next, ctx.outer)
    ensures cur.Leaf? ==> RemoveRest(cur, ctx) == [cur.token] + RemoveRest(cur.next, ctx)
    ensures cur.Elem? && cur.name == "boot" ==> RemoveRest(cur, ctx) == RemoveRest(cur.next, ctx)
    ensures cur.Elem? && cur.name != "boot" ==>
              RemoveRest(cur, ctx)
                == [Start(cur.name, cur.attrs)] + RemoveRest(cur.kids, Inside(cur.name, cur.next, ctx))
  {
    if cur.Elem? && cur.name != "boot" {
      RemoveElem(cur.name, cur.attrs, cur.kids, cur.next, ctx);
      hide RemoveBoots, Flatten;
    }
  }

  lemma RemoveStep(ts: seq<Token>, i: nat, cur: Forest, ctx: Context, output: seq<Token>, goal: seq<Token>)
    requires i < |ts| && Reading(ts, i, cur, ctx, output, RemoveRest(cur, ctx), goal)
    ensures cur.Nil? ==> ctx.Inside? && ts[i] == End(ctx.name)
    ensures cur.Nil? ==>
              Reading(ts, i + 1, ctx.next, ctx.outer, output + [ts[i]], RemoveRest(ctx.next, ctx.outer), goal)
    ensures cur.Leaf? ==> ts[i] == cur.token
    ensures cur.Leaf? ==> Reading(ts, i + 1, cur.next, ctx, output + [ts[i]], RemoveRest(cur.next, ctx), goal)
    ensures cur.Elem? ==> ts[i] == Start(cur.name, cur.attrs)
    ensures cur.Elem? && cur.name == "boot" ==>
              Inner(ts, i + 1, ElemTokens(cur.name, cur.attrs, cur.kids), 1, 1, cur.next, ctx, output,
                    RemoveRest(cur.next, ctx), goal)
    ensures cur.Elem? && cur.name != "boot" ==>
              Reading(ts, i + 1, cur.kids, Inside(cur.name, cur.next, ctx), output + [ts[i]],
                      RemoveRest(cur.kids, Inside(cur.name, cur.next, ctx)), goal)
  {
    hide InElement, Remaining, ElemTokens, RemoveRest;
    Read(ts, i, cur, ctx);
    RemoveNext(cur, ctx);
    if cur.Elem? {
      EnterElement(ts, i, cur.name, cur.attrs, cur.kids, Remaining(cur.next, ctx));
    }
  }

  method WithoutBoot(tokens: seq<Token>, ghost f: Forest) returns (output: seq<Token>)
    requires tokens == Flatten(f)
    ensures output == Flatten(RemoveBoots(f, false))
  {
    ghost var goal := Flatten(RemoveBoots(f, false));
    output := [];
    var skipDepth := 0;
    ghost var cur, ctx, element, read := f, Top, [], 1;
    assert Reading(tokens, 0, cur, ctx, output, RemoveRest(cur, ctx), goal) && RemoveRest(Nil, Top) == [];
    hide *;
    for i := 0 to |tokens|
      invariant skipDepth >= 0 && read >= 0
      invariant skipDepth == 0 ==> Reading(tokens, i, cur, ctx, output, RemoveRest(cur, ctx), goal)
      invariant skipDepth > 0 ==>
                  Inner(tokens, i, element, read, skipDepth, cur, ctx, output, RemoveRest(cur, ctx), goal)
    {
      var token := tokens[i];
      if skipDepth > 0 {
        NextInner(tokens, i, element, read, skipDepth, cur, ctx, output, RemoveRest(cur, ctx), goal);
        skipDepth := skipDepth + Delta(token);
        read := read + 1;
      } else {
        RemoveStep(tokens, i, cur, ctx, output, goal);
        match token {
          case Start(n, attrs) =>
            if n == "boot" {
              skipDepth := 1;
              element, read := ElemTokens(n, attrs, cur.kids), 1;
              cur := cur.next;
            } else {
              output := output + [token];
              cur, ctx := cur.kids, Inside(n, cur.next, ctx);
            }
          case End(n) =>
            output := output + [token];
            cur, ctx := ctx.next, ctx.outer;
          case _ =>
            output := output + [token];
            cur := cur.next;
        }
      }
    }
    AllRead(tokens, element, read, skipDepth, cur, ctx, output, RemoveRest(cur, ctx), goal);
  }

  // ---------- setDiskBootOrder ----------

  function OrderTokens(order: nat): seq<Token> { [Start("boot", OrderAttrs(order)), End("boot")] }

  function InsertRest(cur: Forest, ctx: Context, order: nat, done: bool): seq<Token> {
    Flatten(InsertOrder(cur, order, done)) + InsertClosing(ctx, order, done || HasElem(cur, "target"))
  }

  function InsertEnd(n: string, order: nat, done: bool): seq<Token> {
    [End(n)] + if !done && n == "target" then OrderTokens(order) else []
  }

  function InsertClosing(ctx: Context, order: nat, done: bool): seq<Token> {
    match ctx
    case Top => []
    case Inside(n, next, outer) =>
      var now := done || n == "target";
      InsertEnd(n, order, done)
      + (Flatten(InsertOrder(next, order, now)) + InsertClosing(outer, order, now || HasElem(next, "target")))
  }

  lemma InsertElem(n: string, a: seq<Attr>, kids: Forest, next: Forest, order: nat, done: bool)
    ensures var inside := done || HasElem(kids, "target");
            Flatten(InsertOrder(Elem(n, a, kids, next), order, done))
            == [Start(n, a)] + Flatten(InsertOrder(kids, order, done)) + InsertEnd(n, order, inside)
               + Flatten(InsertOrder(next, order, inside || n == "target"))
  {
    if done || HasElem(kids, "target") {
      assert InsertOrder(Elem(n, a, kids, next), order, done) == Elem(n, a, InsertOrder(kids, order, done), next);
      assert InsertOrder(next, order, true) == next;
      hide InsertOrder, OrderTokens;
    } else {
      NothingInserted(kids, order);
      if n == "target" {
        var boot := Elem("boot", OrderAttrs(order), Nil, next);
        assert InsertOrder(Elem(n, a, kids, next), order, done) == Elem(n, a, kids, boot);
        assert InsertOrder(next, order, true) == next;
        hide InsertOrder, OrderAttrs;
        assert Flatten(boot) == OrderTokens(order) + Flatten(next);
        hide OrderTokens;
        assert Flatten(Elem(n, a, kids, boot)) == [Start(n, a)] + Flatten(kids) + [End(n)] + Flatten(boot);
        Emit([Start(n, a)] + Flatten(kids) + [End(n)], OrderTokens(order), Flatten(next));
        Emit([Start(n, a)] + Flatten(kids), [End(n)], OrderTokens(order));
      } else {
        assert InsertOrder(Elem(n, a, kids, next), order, done) == Elem(n, a, kids, InsertOrder(next, order, false));
        hide InsertOrder, OrderTokens;
      }
    }
  }

  lemma {:induction false} NothingInserted(f: Forest, order: nat)
    requires !HasElem(f, "target")
    ensures InsertOrder(f, order, false) == f
  {
    match f
    case Nil =>
    case Leaf(_, next) => NothingInserted(next, order);
    case Elem(_, _, _, next) => NothingInserted(next, order);
  }

  lemma InsertNext(cur: Forest, ctx: Context, order: nat, done: bool)
    ensures cur.Nil? && ctx.Inside? ==>
              InsertRest(cur, ctx, order, done)
                == InsertEnd(ctx.name, order, done)
                  + InsertRest(ctx.next, ctx.outer, order, done || ctx.name == "target")
    ensures cur.Leaf? ==> InsertRest(cur, ctx, order, done) == [cur.token] + InsertRest(cur.next, ctx, order, done)
    ensures cur.Elem? ==>
              InsertRest(cur, ctx, order, done)
                == [Start(cur.name, cur.attrs)] + InsertRest(cur.kids, Inside(cur.name, cur.next, ctx), order, done)
  {
    if cur.Elem? {
      var n, inside := cur.name, done || HasElem(cur.kids, "target");
      var now := inside || n == "target";
      var inner, ending, rest := Flatten(InsertOrder(cur.kids, order, done)), InsertEnd(n, order, inside),
        Flatten(InsertOrder(cur.next, order, now));
      var closing := InsertClosing(ctx, order, now || HasElem(cur.next, "target"));
      InsertElem(n, cur.attrs, cur.kids, cur.next, order, done);
      assert InsertClosing(Inside(n, cur.next, ctx), order, inside) == ending + (rest + closing);
      assert InsertRest(cur, ctx, order, done) == [Start(n, cur.attrs)] + inner + ending + rest + closing;
      assert InsertRest(cur.kids, Inside(n, cur.next, ctx), order, done) == inner + (ending + (rest + closing));
      hide *;
      Regroup([Start(n, cur.attrs)], inner, ending, rest, closing);
    } else {
      hide InsertEnd, OrderAttrs;
    }
  }

  lemma InsertStep(ts: seq<Token>, i: nat, cur: Forest, ctx: Context, order: nat, done: bool, output: seq<Token>,
                   goal: seq<Token>)
    requires i < |ts| && Reading(ts, i, cur, ctx, output, InsertRest(cur, ctx, order, done), goal)
    ensures cur.Nil? ==> ctx.Inside? && ts[i] == End(ctx.name)
    ensures cur.Nil? ==> Reading(ts, i + 1, ctx.next, ctx.outer, output + InsertEnd(ctx.name, order, done),
                                 InsertRest(ctx.next, ctx.outer, order, done || ctx.name == "target"), goal)
    ensures cur.Leaf? ==> ts[i] == cur.token
    ensures cur.Leaf? ==>
              Reading(ts, i + 1, cur.next, ctx, output + [ts[i]], InsertRest(cur.next, ctx, order, done), goal)
    ensures cur.Elem? ==> ts[i] == Start(cur.name, cur.attrs)
    ensures cur.Elem? ==> Reading(ts, i + 1, cur.kids, Inside(cur.name, cur.next, ctx), output + [ts[i]],
                                  InsertRest(cur.kids, Inside(cur.name, cur.next, ctx), order, done), goal)
  {
    hide Remaining, ElemTokens, InsertRest, InsertEnd;
    Read(ts, i, cur, ctx);
    InsertNext(cur, ctx, order, done);
  }

  method SetDiskBootOrder(tokens: seq<Token>, order: nat, ghost f: Forest) returns (output: seq<Token>)
    requires tokens == Flatten(f)
    ensures output == Flatten(SetOrder(f, order))
  {
    var cleaned := WithoutBoot(tokens, f);
    ghost var g := RemoveBoots(f, false);
    ghost var goal := Flatten(InsertOrder(g, order, false));
    output := [];
    var inserted := false;
    ghost var cur, ctx := g, Top;
    assert goal == Flatten(SetOrder(f, order));
    assert Reading(cleaned, 0, cur, ctx, output, InsertRest(cur, ctx, order, inserted), goal);
    assert forall done :: InsertRest(Nil, Top, order, done) == [];
    hide *;
    for i := 0 to |cleaned|
      invariant Reading(cleaned, i, cur, ctx, output, InsertRest(cur, ctx, order, inserted), goal)
    {
      var token := cleaned[i];
      InsertStep(cleaned, i, cur, ctx, order, inserted, output, goal);
      match token {
        case Start(n, attrs) =>
          output := output + [token];
          cur, ctx := cur.kids, Inside(n, cur.next, ctx);
        case End(n) =>
          EndTokens(n, order, inserted, output);
          output := output + [token];
          if !inserted && n == "target" {
            output := output + OrderTokens(order);
            inserted := true;
          }
          cur, ctx := ctx.next, ctx.outer;
        case _ =>
          output := output + [token];
          cur := cur.next;
      }
    }
    AllRead(cleaned, [], 0, 0, cur, ctx, output, InsertRest(cur, ctx, order, inserted), goal);
  }

  lemma EndTokens(n: string, order: nat, done: bool, output: seq<Token>)
    ensures output + InsertEnd(n, order, done)
         == if !done && n == "target" then output + [End(n)] + OrderTokens(order) else output + [End(n)]
  {
    hide OrderTokens;
  }

  // ---------- updateDiskBootTokens ----------

  method DiskTokenIdentity(tokens: seq<Token>, ghost a: seq<Attr>, ghost kids: Forest)
    returns (device: string, target: string)
    requires tokens == ElemTokens("disk", a, kids)
    ensures device == Device(a, kids) && target == Target(kids)
  {
    device := LastAttrLoop(tokens, "disk", "device");
    target := LastAttrLoop(tokens, "target", "dev");
    LastAttrElement("disk", a, kids, "disk", "device", "");
    LastAttrElement("disk", a, kids, "target", "dev", "");
    hide TrimSpace, LastAttr, AttrValue, ElemTokens;
    device, target := TrimSpace(device), TrimSpace(target);
  }

  lemma DiskElement(a: seq<Attr>, kids: Forest, order: nat)
    ensures Flatten(Elem("disk", a, kids, Nil)) == ElemTokens("disk", a, kids)
    ensures Flatten(RemoveBoots(Elem("disk", a, kids, Nil), false)) == ElemTokens("disk", a, RemoveBoots(kids, false))
    ensures Flatten(SetOrder(Elem("disk", a, kids, Nil), order)) == ElemTokens("disk", a, SetOrder(kids, order))
  {
    BootNames();
    var cleaned := RemoveBoots(kids, false);
    assert RemoveBoots(Elem("disk", a, kids, Nil), false) == Elem("disk", a, cleaned, Nil);
    hide RemoveBoots, ElemTokens;
    if !HasElem(cleaned, "target") {
      NothingInserted(cleaned, order);
    }
    var disk := Elem("disk", a, cleaned, Nil);
    assert InsertOrder(Nil, order, false) == Nil;
    assert InsertOrder(disk, order, false) == Elem("disk", a, InsertOrder(cleaned, order, false), Nil);
    assert SetOrder(Elem("disk", a, kids, Nil), order) == Elem("disk", a, SetOrder(kids, order), Nil);
    hide SetOrder;
    WholeElement("disk", a, kids);
    WholeElement("disk", a, cleaned);
    WholeElement("disk", a, SetOrder(kids, order));
  }

  lemma WholeElement(n: string, a: seq<Attr>, kids: Forest)
    ensures Flatten(Elem(n, a, kids, Nil)) == ElemTokens(n, a, kids)
  {
    hide ElemTokens;
  }

  /** The tokens of a disk after the change. */
  function DiskTokens(cdrom: string, connected: bool, bootSet: bool, a: seq<Attr>, kids: Forest): seq<Token> {
    ElemTokens("disk", a, DiskKids(cdrom, connected, bootSet, Device(a, kids), Target(kids), kids))
  }

  /** The second result tells whether this is the CDROM drive asked for, the third whether a normal disk has been
      seen. */
  method UpdateDiskTokens(tokens: seq<Token>, cdrom: string, connected: bool, bootSet: bool, ghost a: seq<Attr>,
                          ghost kids: Forest)
    returns (next: seq<Token>, found: bool, bootSetNow: bool)
    requires tokens == ElemTokens("disk", a, kids) && cdrom != ""
    ensures next == DiskTokens(cdrom, connected, bootSet, a, kids)
    ensures found == (IsCdrom(Device(a, kids)) && Target(kids) == cdrom)
    ensures bootSetNow == (bootSet || IsNormal(Device(a, kids), Target(kids)))
  {
    hide Device, Target, RemoveBoots, SetOrder, IsCdrom, NormalDevice, ElemTokens, Flatten;
    var device, target := DiskTokenIdentity(tokens, a, kids);
    ghost var disk := Elem("disk", a, kids, Nil);
    DiskElement(a, kids, 1);
    DiskElement(a, kids, 2);
    if target == "" {
      return tokens, false, bootSet;
    }
    if IsCdrom(device) {
      if target != cdrom || !connected {
        next := WithoutBoot(tokens, disk);
      } else {
        next := SetDiskBootOrder(tokens, 1, disk);
      }
      return next, target == cdrom, bootSet;
    }
    if NormalDevice(device) {
      if !bootSet {
        next := SetDiskBootOrder(tokens, if connected then 2 else 1, disk);
      } else {
        next := WithoutBoot(tokens, disk);
      }
      return next, false, true;
    }
    return tokens, false, bootSet;
  }

  // ---------- Per-disk mode ----------

  function DisksRest(cdrom: string, connected: bool, cur: Forest, ctx: Context, bootSet: bool): seq<Token> {
    Flatten(EditDisks(cdrom, connected, cur, bootSet)) + DisksClosing(cdrom, connected, ctx, bootSet || HasNormal(cur))
  }

  function DisksClosing(cdrom: string, connected: bool, ctx: Context, bootSet: bool): seq<Token> {
    match ctx
    case Top => []
    case Inside(n, next, outer) =>
      [End(n)] + (Flatten(EditDisks(cdrom, connected, next, bootSet))
                  + DisksClosing(cdrom, connected, outer, bootSet || HasNormal(next)))
  }

  /** The CDROM drive asked for is still to come. */
  predicate CdromAhead(cur: Forest, ctx: Context, cdrom: string)
    decreases ctx
  {
    HasCdrom(cur, cdrom) || (ctx.Inside? && CdromAhead(ctx.next, ctx.outer, cdrom))
  }

  lemma DisksNext(cdrom: string, connected: bool, cur: Forest, ctx: Context, bootSet: bool)
    ensures cur.Nil? && ctx.Inside? ==>
              DisksRest(cdrom, connected, cur, ctx, bootSet)
                == [End(ctx.name)] + DisksRest(cdrom, connected, ctx.next, ctx.outer, bootSet)
    ensures cur.Leaf? ==>
              DisksRest(cdrom, connected, cur, ctx, bootSet)
                == [cur.token] + DisksRest(cdrom, connected, cur.next, ctx, bootSet)
    ensures cur.Elem? && cur.name == "disk" ==>
              DisksRest(cdrom, connected, cur, ctx, bootSet)
                == DiskTokens(cdrom, connected, bootSet, cur.attrs, cur.kids)
                + DisksRest(cdrom, connected, cur.next, ctx,
                            bootSet || IsNormal(Device(cur.attrs, cur.kids), Target(cur.kids)))
    ensures cur.Elem? && cur.name != "disk" ==>
              DisksRest(cdrom, connected, cur, ctx, bootSet)
              == [Start(cur.name, cur.attrs)]
                + DisksRest(cdrom, connected, cur.kids, Inside(cur.name, cur.next, ctx), bootSet)
  {
    hide DiskKids, Device, Target, IsNormal, DiskTokens, EditDisks;
    if cur.Elem? {
      if cur.name == "disk" {
        DisksDisk(cdrom, connected, cur, ctx, bootSet);
      } else {
        DisksElem(cdrom, connected, cur, ctx, bootSet);
      }
    } else {
      DisksLeaf(cdrom, connected, cur, bootSet);
    }
  }

  lemma DisksLeaf(cdrom: string, connected: bool, cur: Forest, bootSet: bool)
    ensures cur.Nil? ==> EditDisks(cdrom, connected, cur, bootSet) == Nil
    ensures cur.Leaf? ==>
              EditDisks(cdrom, connected, cur, bootSet)
                == Leaf(cur.token, EditDisks(cdrom, connected, cur.next, bootSet))
  {
  }

  lemma DisksDisk(cdrom: string, connected: bool, cur: Forest, ctx: Context, bootSet: bool)
    requires cur.Elem? && cur.name == "disk"
    ensures DisksRest(cdrom, connected, cur, ctx, bootSet) == DiskTokens(cdrom, connected, bootSet, cur.attrs, cur.kids)
              + DisksRest(cdrom, connected, cur.next, ctx,
                          bootSet || IsNormal(Device(cur.attrs, cur.kids), Target(cur.kids)))
  {
    hide DiskKids, Device, Target, IsNormal, ElemTokens;
    var now := bootSet || IsNormal(Device(cur.attrs, cur.kids), Target(cur.kids));
    var closing := DisksClosing(cdrom, connected, ctx, now || HasNormal(cur.next));
    assert Flatten(EditDisks(cdrom, connected, cur, bootSet))
        == DiskTokens(cdrom, connected, bootSet, cur.attrs, cur.kids)
          + Flatten(EditDisks(cdrom, connected, cur.next, now));
    hide EditDisks, DiskTokens, Flatten;
    Emit(DiskTokens(cdrom, connected, bootSet, cur.attrs, cur.kids),
         Flatten(EditDisks(cdrom, connected, cur.next, now)), closing);
  }

  lemma DisksElem(cdrom: string, connected: bool, cur: Forest, ctx: Context, bootSet: bool)
    requires cur.Elem? && cur.name != "disk"
    ensures DisksRest(cdrom, connected, cur, ctx, bootSet)
         == [Start(cur.name, cur.attrs)]
           + DisksRest(cdrom, connected, cur.kids, Inside(cur.name, cur.next, ctx), bootSet)
  {
    var n, after := cur.name, bootSet || HasNormal(cur.kids);
    var inner, rest := Flatten(EditDisks(cdrom, connected, cur.kids, bootSet)),
      Flatten(EditDisks(cdrom, connected, cur.next, after));
    var closing := DisksClosing(cdrom, connected, ctx, after || HasNormal(cur.next));
    assert Flatten(EditDisks(cdrom, connected, cur, bootSet)) == [Start(n, cur.attrs)] + inner + [End(n)] + rest;
    assert DisksClosing(cdrom, connected, Inside(n, cur.next, ctx), after) == [End(n)] + (rest + closing);
    assert DisksRest(cdrom, connected, cur, ctx, bootSet) == [Start(n, cur.attrs)] + inner + [End(n)] + rest + closing;
    assert DisksRest(cdrom, connected, cur.kids, Inside(n, cur.next, ctx), bootSet)
      == inner + ([End(n)] + (rest + closing));
    hide *;
    Regroup([Start(n, cur.attrs)], inner, [End(n)], rest, closing);
  }

  lemma DisksStep(ts: seq<Token>, i: nat, cdrom: string, connected: bool, cur: Forest, ctx: Context, bootSet: bool,
                  output: seq<Token>, goal: seq<Token>)
    requires i < |ts| && Reading(ts, i, cur, ctx, output, DisksRest(cdrom, connected, cur, ctx, bootSet), goal)
    ensures cur.Nil? ==> ctx.Inside? && ts[i] == End(ctx.name)
    ensures cur.Nil? ==>
              Reading(ts, i + 1, ctx.next, ctx.outer, output + [ts[i]],
                      DisksRest(cdrom, connected, ctx.next, ctx.outer, bootSet), goal)
    ensures cur.Leaf? ==> ts[i] == cur.token
    ensures cur.Leaf? ==>
              Reading(ts, i + 1, cur.next, ctx, output + [ts[i]], DisksRest(cdrom, connected, cur.next, ctx, bootSet),
                      goal)
    ensures cur.Elem? ==> ts[i] == Start(cur.name, cur.attrs)
    ensures cur.Elem? && cur.name == "disk" ==>
              Inner(ts, i + 1, ElemTokens("disk", cur.attrs, cur.kids), 1, 1, cur.next, ctx,
                    output + DiskTokens(cdrom, connected, bootSet, cur.attrs, cur.kids),
                    DisksRest(cdrom, connected, cur.next, ctx,
                              bootSet || IsNormal(Device(cur.attrs, cur.kids), Target(cur.kids))), goal)
    ensures cur.Elem? && cur.name == "disk" ==> ElemTokens("disk", cur.attrs, cur.kids)[..1] == [ts[i]]
    ensures cur.Elem? && cur.name != "disk" ==>
              Reading(ts, i + 1, cur.kids, Inside(cur.name, cur.next, ctx), output + [ts[i]],
                      DisksRest(cdrom, connected, cur.kids, Inside(cur.name, cur.next, ctx), bootSet), goal)
  {
    hide InElement, Remaining, ElemTokens, DisksRest, DiskTokens, Device, Target, IsNormal;
    Read(ts, i, cur, ctx);
    DisksNext(cdrom, connected, cur, ctx, bootSet);
    if cur.Elem? {
      EnterElement(ts, i, cur.name, cur.attrs, cur.kids, Remaining(cur.next, ctx));
    }
  }

  lemma CdromNext(cur: Forest, ctx: Context, cdrom: string)
    ensures cur.Nil? && ctx.Inside? ==> CdromAhead(cur, ctx, cdrom) == CdromAhead(ctx.next, ctx.outer, cdrom)
    ensures cur.Leaf? ==> CdromAhead(cur, ctx, cdrom) == CdromAhead(cur.next, ctx, cdrom)
    ensures cur.Elem? && cur.name == "disk" ==>
              CdromAhead(cur, ctx, cdrom)
              == ((IsCdrom(Device(cur.attrs, cur.kids)) && Target(cur.kids) == cdrom)
                  || CdromAhead(cur.next, ctx, cdrom))
    ensures cur.Elem? && cur.name != "disk" ==>
              CdromAhead(cur, ctx, cdrom) == CdromAhead(cur.kids, Inside(cur.name, cur.next, ctx), cdrom)
  {
    hide Device, Target, IsCdrom;
  }

  /** The loop is between disks: what it found so far and what lies ahead make up the whole. */
  ghost predicate Between(ts: seq<Token>, i: nat, cdrom: string, connected: bool, cur: Forest, ctx: Context,
                          bootSet: bool, updated: bool, output: seq<Token>, goal: seq<Token>, found: bool) {
    && Reading(ts, i, cur, ctx, output, DisksRest(cdrom, connected, cur, ctx, bootSet), goal)
    && found == (updated || CdromAhead(cur, ctx, cdrom))
  }

  /** The loop is buffering a disk: once that is written, it is between disks again. */
  ghost predicate Buffering(ts: seq<Token>, i: nat, cdrom: string, connected: bool, cur: Forest, ctx: Context,
                            bootSet: bool, updated: bool, output: seq<Token>, goal: seq<Token>, found: bool,
                            a: seq<Attr>, kids: Forest, buffer: seq<Token>, depth: nat) {
    && |buffer| <= |ElemTokens("disk", a, kids)| && buffer == ElemTokens("disk", a, kids)[..|buffer|]
    && Inner(ts, i, ElemTokens("disk", a, kids), |buffer|, depth, cur, ctx,
             output + DiskTokens(cdrom, connected, bootSet, a, kids),
             DisksRest(cdrom, connected, cur, ctx, bootSet || IsNormal(Device(a, kids), Target(kids))), goal)
    && found == (updated || (IsCdrom(Device(a, kids)) && Target(kids) == cdrom) || CdromAhead(cur, ctx, cdrom))
  }

  lemma BufferingStep(ts: seq<Token>, i: nat, cdrom: string, connected: bool, cur: Forest, ctx: Context, bootSet: bool,
                      updated: bool, output: seq<Token>, goal: seq<Token>, found: bool,
                      a: seq<Attr>, kids: Forest, buffer: seq<Token>, depth: nat)
    requires i < |ts|
    requires Buffering(ts, i, cdrom, connected, cur, ctx, bootSet, updated, output, goal, found, a, kids, buffer, depth)
    ensures depth + Delta(ts[i]) >= 0
    ensures depth + Delta(ts[i]) > 0 ==>
              Buffering(ts, i + 1, cdrom, connected, cur, ctx, bootSet, updated, output, goal, found, a, kids,
                        buffer + [ts[i]], depth + Delta(ts[i]))
    ensures depth + Delta(ts[i]) == 0 ==> buffer + [ts[i]] == ElemTokens("disk", a, kids)
    ensures depth + Delta(ts[i]) == 0 ==>
              Between(ts, i + 1, cdrom, connected, cur, ctx, bootSet || IsNormal(Device(a, kids), Target(kids)),
                      updated || (IsCdrom(Device(a, kids)) && Target(kids) == cdrom),
                      output + DiskTokens(cdrom, connected, bootSet, a, kids), goal, found)
  {
    hide ElemTokens, DiskTokens, DisksRest, IsNormal, IsCdrom, Device, Target, CdromAhead, Inner, Reading, Delta;
    NextInner(ts, i, ElemTokens("disk", a, kids), |buffer|, depth, cur, ctx,
              output + DiskTokens(cdrom, connected, bootSet, a, kids),
              DisksRest(cdrom, connected, cur, ctx, bootSet || IsNormal(Device(a, kids), Target(kids))), goal);
  }

  lemma BetweenStep(ts: seq<Token>, i: nat, cdrom: string, connected: bool, cur: Forest, ctx: Context, bootSet: bool,
                    updated: bool, output: seq<Token>, goal: seq<Token>, found: bool)
    requires i < |ts| && Between(ts, i, cdrom, connected, cur, ctx, bootSet, updated, output, goal, found)
    ensures cur.Nil? ==> ctx.Inside? && ts[i] == End(ctx.name)
    ensures cur.Nil? ==>
              Between(ts, i + 1, cdrom, connected, ctx.next, ctx.outer, bootSet, updated, output + [ts[i]], goal, found)
    ensures cur.Leaf? ==> ts[i] == cur.token
    ensures cur.Leaf? ==>
              Between(ts, i + 1, cdrom, connected, cur.next, ctx, bootSet, updated, output + [ts[i]], goal, found)
    ensures cur.Elem? ==> ts[i] == Start(cur.name, cur.attrs)
    ensures cur.Elem? && cur.name != "disk" ==>
              Between(ts, i + 1, cdrom, connected, cur.kids, Inside(cur.name, cur.next, ctx), bootSet, updated,
                      output + [ts[i]], goal, found)
    ensures cur.Elem? && cur.name == "disk" ==>
              Buffering(ts, i + 1, cdrom, connected, cur.next, ctx, bootSet, updated, output, goal, found, cur.attrs,
                        cur.kids, [ts[i]], 1)
  {
    hide ElemTokens, DiskTokens, DisksRest, IsNormal, IsCdrom, Device, Target, CdromAhead, Reading, InElement;
    DisksStep(ts, i, cdrom, connected, cur, ctx, bootSet, output, goal);
    CdromNext(cur, ctx, cdrom);
    if cur.Elem? && cur.name == "disk" {
      BufferStart("disk", cur.attrs, cur.kids);
    }
  }

  /** The loop of updateCDROMBootOrderXML for documents without os boot elements. */
  method UpdateDisks(tokens: seq<Token>, cdrom: string, connected: bool, ghost doc: Forest)
    returns (output: seq<Token>, updated: bool)
    requires tokens == Flatten(doc) && cdrom != ""
    ensures output == Flatten(EditDisks(cdrom, connected, doc, false))
    ensures updated == HasCdrom(doc, cdrom)
  {
    hide *;
    ghost var goal, found := Flatten(EditDisks(cdrom, connected, doc, false)), HasCdrom(doc, cdrom);
    output, updated := [], false;
    var diskTokens: seq<Token> := [];
    var diskDepth := 0;
    var bootSet := false;
    ghost var cur, ctx, a, kids := doc, Top, [], Nil;
    StartBetween(cdrom, connected, doc);
    for i := 0 to |tokens|
      invariant diskDepth >= 0
      invariant diskDepth == 0 ==> Between(tokens, i, cdrom, connected, cur, ctx, bootSet, updated, output, goal, found)
      invariant diskDepth > 0 ==>
                  Buffering(tokens, i, cdrom, connected, cur, ctx, bootSet, updated, output, goal, found, a, kids,
                            diskTokens, diskDepth)
    {
      var token := tokens[i];
      if diskDepth > 0 {
        BufferingStep(tokens, i, cdrom, connected, cur, ctx, bootSet, updated, output, goal, found, a, kids, diskTokens,
                      diskDepth);
        diskTokens := diskTokens + [token];
        diskDepth := diskDepth + Delta(token);
        if diskDepth == 0 {
          var next, ok, now := UpdateDiskTokens(diskTokens, cdrom, connected, bootSet, a, kids);
          bootSet := now;
          updated := updated || ok;
          output := output + next;
        }
      } else {
        BetweenStep(tokens, i, cdrom, connected, cur, ctx, bootSet, updated, output, goal, found);
        match token {
          case Start(n, attrs) =>
            if n == "disk" {
              diskDepth := 1;
              diskTokens := [token];
              a, kids := attrs, cur.kids;
              cur := cur.next;
            } else {
              output := output + [token];
              cur, ctx := cur.kids, Inside(n, cur.next, ctx);
            }
          case End(n) =>
            output := output + [token];
            cur, ctx := ctx.next, ctx.outer;
          case _ =>
            output := output + [token];
            cur := cur.next;
        }
      }
    }
    AllDisksRead(tokens, cdrom, connected, cur, ctx, bootSet, updated, output, goal, found, a, kids, diskTokens,
                 diskDepth);
  }

  lemma StartBetween(cdrom: string, connected: bool, doc: Forest)
    ensures Between(Flatten(doc), 0, cdrom, connected, doc, Top, false, false, [],
                    Flatten(EditDisks(cdrom, connected, doc, false)), HasCdrom(doc, cdrom))
  {
    hide EditDisks, HasCdrom, Flatten;
  }

  lemma AllDisksRead(ts: seq<Token>, cdrom: string, connected: bool, cur: Forest, ctx: Context, bootSet: bool,
                     updated: bool,
                     output: seq<Token>, goal: seq<Token>, found: bool, a: seq<Attr>, kids: Forest, buffer: seq<Token>,
                       depth: nat)
    requires depth == 0 ==> Between(ts, |ts|, cdrom, connected, cur, ctx, bootSet, updated, output, goal, found)
    requires depth > 0 ==>
               Buffering(ts, |ts|, cdrom, connected, cur, ctx, bootSet, updated, output, goal, found, a, kids, buffer,
                         depth)
    ensures output == goal && updated == found
  {
    hide ElemTokens, DiskTokens, InElement, IsCdrom, IsNormal;
    if depth > 0 {
      InnerHasMore(ts, |ts|, ElemTokens("disk", a, kids), |buffer|, depth, Remaining(cur, ctx));
    } else {
      ReadNext(cur, ctx);
    }
  }
}

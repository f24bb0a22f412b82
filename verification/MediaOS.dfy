// The token loops for domains that list boot devices in their os element, and the choice between
// the two modes.
module MediaOS {
  import opened Xml
  import opened MediaBoot
  import opened MediaRewrite

  // ---------- rewriteOSBootTokens ----------

  function DevBootTokens(connected: bool): seq<Token> {
    Flatten(DevBoots(connected))
  }

  function OSEnd(n: string, connected: bool, done: bool): seq<Token> {
    (if !done && n == "os" then DevBootTokens(connected) else []) + [End(n)]
  }

  function OSRest(cur: Forest, ctx: Context, connected: bool, done: bool): seq<Token> {
    Flatten(InsertDevices(RemoveBoots(cur, true), connected, done))
      + OSClosing(ctx, connected, done || HasElem(RemoveBoots(cur, true), "os"))
  }

  function OSClosing(ctx: Context, connected: bool, done: bool): seq<Token> {
    match ctx
    case Top => []
    case Inside(n, next, outer) =>
      var now, rest := done || n == "os", RemoveBoots(next, true);
      OSEnd(n, connected, done)
        + (Flatten(InsertDevices(rest, connected, now)) + OSClosing(outer, connected, now || HasElem(rest, "os")))
  }

  lemma {:induction false} NoDevicesInserted(f: Forest, connected: bool)
    requires !HasElem(f, "os")
    ensures InsertDevices(f, connected, false) == f
  {
    match f
    case Nil =>
    case Leaf(_, next) => NoDevicesInserted(next, connected);
    case Elem(_, _, _, next) => NoDevicesInserted(next, connected);
  }

  lemma DevicesElem(n: string, a: seq<Attr>, kids: Forest, next: Forest, connected: bool, done: bool)
    ensures var inside := done || HasElem(kids, "os");
            Flatten(InsertDevices(Elem(n, a, kids, next), connected, done))
            == [Start(n, a)] + Flatten(InsertDevices(kids, connected, done)) + OSEnd(n, connected, inside)
               + Flatten(InsertDevices(next, connected, inside || n == "os"))
  {
    if done || HasElem(kids, "os") {
      assert InsertDevices(Elem(n, a, kids, next), connected, done)
        == Elem(n, a, InsertDevices(kids, connected, done), next);
      assert InsertDevices(next, connected, true) == next;
      hide InsertDevices, DevBootTokens;
    } else {
      NoDevicesInserted(kids, connected);
      if n == "os" {
        assert InsertDevices(Elem(n, a, kids, next), connected, done)
          == Elem(n, a, Append(kids, DevBoots(connected)), next);
        assert InsertDevices(next, connected, true) == next;
        FlattenAppend(kids, DevBoots(connected));
        hide InsertDevices, Append, DevBoots;
        var tag, inner, boots := [Start(n, a)], Flatten(kids), DevBootTokens(connected);
        assert Flatten(Elem(n, a, Append(kids, DevBoots(connected)), next))
          == tag + (inner + boots) + [End(n)] + Flatten(next);
        assert OSEnd(n, connected, false) == boots + [End(n)];
        hide *;
        assert tag + (inner + boots) + [End(n)] == tag + inner + (boots + [End(n)]) by {
          Emit(tag, inner, boots);
          Emit(tag + inner, boots, [End(n)]);
        }
      } else {
        assert InsertDevices(Elem(n, a, kids, next), connected, done)
          == Elem(n, a, kids, InsertDevices(next, connected, false));
        hide InsertDevices, DevBootTokens;
      }
    }
  }

  lemma OSElem(n: string, a: seq<Attr>, kids: Forest, next: Forest, ctx: Context, connected: bool, done: bool)
    requires !IsBoot(n, a, true)
    ensures OSRest(Elem(n, a, kids, next), ctx, connected, done)
              == [Start(n, a)] + OSRest(kids, Inside(n, next, ctx), connected, done)
  {
    hide IsBoot, OSEnd;
    var ck, cn := RemoveBoots(kids, true), RemoveBoots(next, true);
    assert RemoveBoots(Elem(n, a, kids, next), true) == Elem(n, a, ck, cn);
    var inside := done || HasElem(ck, "os");
    var now := inside || n == "os";
    DevicesElem(n, a, ck, cn, connected, done);
    hide InsertDevices, RemoveBoots, Flatten;
    var inner, ending, rest := Flatten(InsertDevices(ck, connected, done)), OSEnd(n, connected, inside),
      Flatten(InsertDevices(cn, connected, now));
    var closing := OSClosing(ctx, connected, now || HasElem(cn, "os"));
    assert OSClosing(Inside(n, next, ctx), connected, inside) == ending + (rest + closing);
    assert HasElem(Elem(n, a, ck, cn), "os") == (n == "os" || HasElem(ck, "os") || HasElem(cn, "os"));
    assert OSRest(Elem(n, a, kids, next), ctx, connected, done) == [Start(n, a)] + inner + ending + rest + closing;
    assert OSRest(kids, Inside(n, next, ctx), connected, done) == inner + (ending + (rest + closing));
    hide *;
    Regroup([Start(n, a)], inner, ending, rest, closing);
  }

  lemma OSNext(cur: Forest, ctx: Context, connected: bool, done: bool)
    ensures cur.Nil? && ctx.Inside? ==>
              OSRest(cur, ctx, connected, done)
                == OSEnd(ctx.name, connected, done) + OSRest(ctx.next, ctx.outer, connected, done || ctx.name == "os")
    ensures cur.Leaf? ==> OSRest(cur, ctx, connected, done) == [cur.token] + OSRest(cur.next, ctx, connected, done)
    ensures cur.Elem? && IsBoot(cur.name, cur.attrs, true) ==>
              OSRest(cur, ctx, connected, done) == OSRest(cur.next, ctx, connected, done)
    ensures cur.Elem? && !IsBoot(cur.name, cur.attrs, true) ==>
              OSRest(cur, ctx, connected, done)
                == [Start(cur.name, cur.attrs)] + OSRest(cur.kids, Inside(cur.name, cur.next, ctx), connected, done)
  {
    hide IsBoot, OSEnd;
    if cur.Elem? && !IsBoot(cur.name, cur.attrs, true) {
      OSElem(cur.name, cur.attrs, cur.kids, cur.next, ctx, connected, done);
      hide OSRest;
    }
  }

  lemma OSStep(ts: seq<Token>, i: nat, cur: Forest, ctx: Context, connected: bool, done: bool, output: seq<Token>,
               goal: seq<Token>)
    requires i < |ts| && Reading(ts, i, cur, ctx, output, OSRest(cur, ctx, connected, done), goal)
    ensures cur.Nil? ==> ctx.Inside? && ts[i] == End(ctx.name)
    ensures cur.Nil? ==> Reading(ts, i + 1, ctx.next, ctx.outer, output + OSEnd(ctx.name, connected, done),
                                 OSRest(ctx.next, ctx.outer, connected, done || ctx.name == "os"), goal)
    ensures cur.Leaf? ==> ts[i] == cur.token
    ensures cur.Leaf? ==>
              Reading(ts, i + 1, cur.next, ctx, output + [ts[i]], OSRest(cur.next, ctx, connected, done), goal)
    ensures cur.Elem? ==> ts[i] == Start(cur.name, cur.attrs)
    ensures cur.Elem? && IsBoot(cur.name, cur.attrs, true) ==>
              Inner(ts, i + 1, ElemTokens(cur.name, cur.attrs, cur.kids), 1, 1, cur.next, ctx, output,
                    OSRest(cur.next, ctx, connected, done), goal)
    ensures cur.Elem? && !IsBoot(cur.name, cur.attrs, true) ==>
              Reading(ts, i + 1, cur.kids, Inside(cur.name, cur.next, ctx), output + [ts[i]],
                      OSRest(cur.kids, Inside(cur.name, cur.next, ctx), connected, done), goal)
  {
    hide InElement, Remaining, ElemTokens, OSRest, OSEnd, IsBoot;
    Read(ts, i, cur, ctx);
    OSNext(cur, ctx, connected, done);
    if cur.Elem? {
      EnterElement(ts, i, cur.name, cur.attrs, cur.kids, Remaining(cur.next, ctx));
    }
  }

  lemma OSElement(a: seq<Attr>, kids: Forest, connected: bool)
    ensures Flatten(Elem("os", a, kids, Nil)) == ElemTokens("os", a, kids)
    ensures Flatten(InsertDevices(RemoveBoots(Elem("os", a, kids, Nil), true), connected, false))
              == ElemTokens("os", a, OSKids(connected, kids))
  {
    BootNames();
    var cleaned := RemoveBoots(kids, true);
    assert RemoveBoots(Elem("os", a, kids, Nil), true) == Elem("os", a, cleaned, Nil);
    hide RemoveBoots, ElemTokens, IsBoot, DevBoots, Append;
    assert InsertDevices(Elem("os", a, cleaned, Nil), connected, false) == Elem("os", a, OSKids(connected, kids), Nil);
    hide OSKids, InsertDevices;
    WholeElement("os", a, kids);
    WholeElement("os", a, OSKids(connected, kids));
  }

  lemma StartOS(a: seq<Attr>, kids: Forest, connected: bool)
    ensures Reading(ElemTokens("os", a, kids), 0, Elem("os", a, kids, Nil), Top, [],
                    OSRest(Elem("os", a, kids, Nil), Top, connected, false),
                      ElemTokens("os", a, OSKids(connected, kids)))
    ensures forall done :: OSRest(Nil, Top, connected, done) == []
  {
    OSElement(a, kids, connected);
    hide InsertDevices, RemoveBoots, ElemTokens, OSKids;
    forall done ensures OSRest(Nil, Top, connected, done) == [] {
      NothingOS(connected, done);
    }
  }

  lemma NothingOS(connected: bool, done: bool)
    ensures OSRest(Nil, Top, connected, done) == []
  {
  }

  lemma OSEndTokens(n: string, connected: bool, done: bool, output: seq<Token>)
    ensures output + OSEnd(n, connected, done)
         == if !done && n == "os" then output + DevBootTokens(connected) + [End(n)] else output + [End(n)]
  {
    hide DevBootTokens;
  }

  /** appendOSBootToken, once or twice */
  method BootDevices(connected: bool) returns (output: seq<Token>)
    ensures output == DevBootTokens(connected)
  {
    var hd := [Start("boot", [Attr("dev", "hd")]), End("boot")];
    output := if connected then [Start("boot", [Attr("dev", "cdrom")]), End("boot")] + hd else hd;
  }

  /** rewriteOSBootTokens */
  method RewriteOSBoot(tokens: seq<Token>, connected: bool, ghost a: seq<Attr>, ghost kids: Forest)
    returns (output: seq<Token>)
    requires tokens == ElemTokens("os", a, kids)
    ensures output == ElemTokens("os", a, OSKids(connected, kids))
  {
    hide *;
    ghost var goal := ElemTokens("os", a, OSKids(connected, kids));
    output := [];
    var inserted := false;
    var skipBootDepth := 0;
    ghost var cur, ctx, element, read := Elem("os", a, kids, Nil), Top, [], 1;
    StartOS(a, kids, connected);
    for i := 0 to |tokens|
      invariant skipBootDepth >= 0 && read >= 0
      invariant skipBootDepth == 0 ==> Reading(tokens, i, cur, ctx, output, OSRest(cur, ctx, connected, inserted), goal)
      invariant skipBootDepth > 0 ==>
                  Inner(tokens, i, element, read, skipBootDepth, cur, ctx, output,
                        OSRest(cur, ctx, connected, inserted), goal)
    {
      var token := tokens[i];
      if skipBootDepth > 0 {
        NextInner(tokens, i, element, read, skipBootDepth, cur, ctx, output, OSRest(cur, ctx, connected, inserted),
                  goal);
        skipBootDepth := skipBootDepth + Delta(token);
        read := read + 1;
      } else {
        OSStep(tokens, i, cur, ctx, connected, inserted, output, goal);
        match token {
          case Start(n, attrs) =>
            if IsBoot(n, attrs, true) {
              skipBootDepth := 1;
              element, read := ElemTokens(n, attrs, cur.kids), 1;
              cur := cur.next;
            } else {
              output := output + [token];
              cur, ctx := cur.kids, Inside(n, cur.next, ctx);
            }
          case End(n) =>
            OSEndTokens(n, connected, inserted, output);
            if n == "os" && !inserted {
              var devices := BootDevices(connected);
              output := output + devices;
              inserted := true;
            }
            output := output + [token];
            cur, ctx := ctx.next, ctx.outer;
          case _ =>
            output := output + [token];
            cur := cur.next;
        }
      }
    }
    AllRead(tokens, element, read, skipBootDepth, cur, ctx, output, OSRest(cur, ctx, connected, inserted), goal);
  }

  // ---------- updateOSBootOrderXML ----------

  function EditRest(cur: Forest, ctx: Context, connected: bool): seq<Token> {
    Flatten(EditOS(connected, cur)) + EditClosing(ctx, connected)
  }

  function EditClosing(ctx: Context, connected: bool): seq<Token> {
    match ctx
    case Top => []
    case Inside(n, next, outer) => [End(n)] + (Flatten(EditOS(connected, next)) + EditClosing(outer, connected))
  }

  predicate OSAhead(cur: Forest, ctx: Context)
    decreases ctx
  {
    HasElem(cur, "os") || (ctx.Inside? && OSAhead(ctx.next, ctx.outer))
  }

  function OSTokens(connected: bool, a: seq<Attr>, kids: Forest): seq<Token> {
    ElemTokens("os", a, OSKids(connected, kids))
  }

  lemma EditOther(n: string, a: seq<Attr>, kids: Forest, next: Forest, ctx: Context, connected: bool)
    requires n != "os"
    ensures EditRest(Elem(n, a, kids, next), ctx, connected)
              == [Start(n, a)] + EditRest(kids, Inside(n, next, ctx), connected)
  {
    var inner, rest, closing := Flatten(EditOS(connected, kids)), Flatten(EditOS(connected, next)),
      EditClosing(ctx, connected);
    assert Flatten(EditOS(connected, Elem(n, a, kids, next))) == [Start(n, a)] + inner + [End(n)] + rest;
    assert EditClosing(Inside(n, next, ctx), connected) == [End(n)] + (rest + closing);
    assert EditRest(kids, Inside(n, next, ctx), connected) == inner + ([End(n)] + (rest + closing));
    assert EditRest(Elem(n, a, kids, next), ctx, connected) == [Start(n, a)] + inner + [End(n)] + rest + closing;
    hide *;
    Regroup([Start(n, a)], inner, [End(n)], rest, closing);
  }

  lemma EditNext(cur: Forest, ctx: Context, connected: bool)
    ensures cur.Nil? && ctx.Inside? ==>
              EditRest(cur, ctx, connected) == [End(ctx.name)] + EditRest(ctx.next, ctx.outer, connected)
    ensures cur.Leaf? ==> EditRest(cur, ctx, connected) == [cur.token] + EditRest(cur.next, ctx, connected)
    ensures cur.Elem? && cur.name == "os" ==>
              EditRest(cur, ctx, connected)
                == OSTokens(connected, cur.attrs, cur.kids) + EditRest(cur.next, ctx, connected)
    ensures cur.Elem? && cur.name != "os" ==>
              EditRest(cur, ctx, connected)
                == [Start(cur.name, cur.attrs)] + EditRest(cur.kids, Inside(cur.name, cur.next, ctx), connected)
  {
    hide OSKids;
    if cur.Elem? {
      if cur.name == "os" {
        hide ElemTokens;
      } else {
        EditOther(cur.name, cur.attrs, cur.kids, cur.next, ctx, connected);
        hide EditRest;
      }
    }
  }

  /** The loop is between os elements. */
  ghost predicate Between(ts: seq<Token>, i: nat, connected: bool, cur: Forest, ctx: Context, updated: bool,
                          output: seq<Token>, goal: seq<Token>, found: bool) {
    Reading(ts, i, cur, ctx, output, EditRest(cur, ctx, connected), goal) && found == (updated || OSAhead(cur, ctx))
  }

  /** The loop is buffering an os element. */
  ghost predicate Buffering(ts: seq<Token>, i: nat, connected: bool, cur: Forest, ctx: Context, output: seq<Token>,
                            goal: seq<Token>, found: bool, a: seq<Attr>, kids: Forest, buffer: seq<Token>, depth: nat) {
    && |buffer| <= |ElemTokens("os", a, kids)| && buffer == ElemTokens("os", a, kids)[..|buffer|]
    && Inner(ts, i, ElemTokens("os", a, kids), |buffer|, depth, cur, ctx, output + OSTokens(connected, a, kids),
             EditRest(cur, ctx, connected), goal)
    && found
  }

  lemma BufferingStep(ts: seq<Token>, i: nat, connected: bool, cur: Forest, ctx: Context, output: seq<Token>,
                      goal: seq<Token>, found: bool, a: seq<Attr>, kids: Forest, buffer: seq<Token>, depth: nat)
    requires i < |ts| && Buffering(ts, i, connected, cur, ctx, output, goal, found, a, kids, buffer, depth)
    ensures depth + Delta(ts[i]) >= 0
    ensures depth + Delta(ts[i]) > 0 ==>
              Buffering(ts, i + 1, connected, cur, ctx, output, goal, found, a, kids, buffer + [ts[i]],
                        depth + Delta(ts[i]))
    ensures depth + Delta(ts[i]) == 0 ==> buffer + [ts[i]] == ElemTokens("os", a, kids)
    ensures depth + Delta(ts[i]) == 0 ==>
              Between(ts, i + 1, connected, cur, ctx, true, output + OSTokens(connected, a, kids), goal, found)
  {
    hide ElemTokens, OSTokens, EditRest, OSAhead, Inner, Reading, Delta;
    NextInner(ts, i, ElemTokens("os", a, kids), |buffer|, depth, cur, ctx, output + OSTokens(connected, a, kids),
              EditRest(cur, ctx, connected), goal);
  }

  lemma AheadNext(cur: Forest, ctx: Context)
    ensures cur.Nil? && ctx.Inside? ==> OSAhead(cur, ctx) == OSAhead(ctx.next, ctx.outer)
    ensures cur.Leaf? ==> OSAhead(cur, ctx) == OSAhead(cur.next, ctx)
    ensures cur.Elem? && cur.name == "os" ==> OSAhead(cur, ctx)
    ensures cur.Elem? && cur.name != "os" ==> OSAhead(cur, ctx) == OSAhead(cur.kids, Inside(cur.name, cur.next, ctx))
  {
  }

  lemma BetweenStep(ts: seq<Token>, i: nat, connected: bool, cur: Forest, ctx: Context, updated: bool,
                    output: seq<Token>, goal: seq<Token>, found: bool)
    requires i < |ts| && Between(ts, i, connected, cur, ctx, updated, output, goal, found)
    ensures cur.Nil? ==> ctx.Inside? && ts[i] == End(ctx.name)
    ensures cur.Nil? ==> Between(ts, i + 1, connected, ctx.next, ctx.outer, updated, output + [ts[i]], goal, found)
    ensures cur.Leaf? ==> ts[i] == cur.token
    ensures cur.Leaf? ==> Between(ts, i + 1, connected, cur.next, ctx, updated, output + [ts[i]], goal, found)
    ensures cur.Elem? ==> ts[i] == Start(cur.name, cur.attrs)
    ensures cur.Elem? && cur.name != "os" ==>
              Between(ts, i + 1, connected, cur.kids, Inside(cur.name, cur.next, ctx), updated, output + [ts[i]], goal,
                      found)
    ensures cur.Elem? && cur.name == "os" ==>
              Buffering(ts, i + 1, connected, cur.next, ctx, output, goal, found, cur.attrs, cur.kids, [ts[i]], 1)
  {
    hide ElemTokens, OSTokens, EditRest, InElement, Remaining, OSAhead;
    Read(ts, i, cur, ctx);
    EditNext(cur, ctx, connected);
    AheadNext(cur, ctx);
    if cur.Elem? {
      EnterElement(ts, i, cur.name, cur.attrs, cur.kids, Remaining(cur.next, ctx));
      BufferStart(cur.name, cur.attrs, cur.kids);
    }
  }

  lemma StartBetween(connected: bool, doc: Forest)
    ensures Between(Flatten(doc), 0, connected, doc, Top, false, [], Flatten(EditOS(connected, doc)),
                    HasElem(doc, "os"))
  {
    hide EditOS, HasElem, Flatten;
  }

  lemma AllOSRead(ts: seq<Token>, connected: bool, cur: Forest, ctx: Context, updated: bool, output: seq<Token>,
                  goal: seq<Token>, found: bool, a: seq<Attr>, kids: Forest, buffer: seq<Token>, depth: nat)
    requires depth == 0 ==> Between(ts, |ts|, connected, cur, ctx, updated, output, goal, found)
    requires depth > 0 ==> Buffering(ts, |ts|, connected, cur, ctx, output, goal, found, a, kids, buffer, depth)
    ensures output == goal && updated == found
  {
    hide ElemTokens, OSTokens, InElement;
    if depth > 0 {
      InnerHasMore(ts, |ts|, ElemTokens("os", a, kids), |buffer|, depth, Remaining(cur, ctx));
    } else {
      ReadNext(cur, ctx);
    }
  }

  method UpdateOS(tokens: seq<Token>, connected: bool, ghost doc: Forest) returns (output: seq<Token>, updated: bool)
    requires tokens == Flatten(doc)
    ensures output == Flatten(EditOS(connected, doc))
    ensures updated == HasElem(doc, "os")
  {
    hide *;
    ghost var goal, found := Flatten(EditOS(connected, doc)), HasElem(doc, "os");
    output, updated := [], false;
    var osTokens: seq<Token> := [];
    var osDepth := 0;
    ghost var cur, ctx, a, kids := doc, Top, [], Nil;
    StartBetween(connected, doc);
    for i := 0 to |tokens|
      invariant osDepth >= 0
      invariant osDepth == 0 ==> Between(tokens, i, connected, cur, ctx, updated, output, goal, found)
      invariant osDepth > 0 ==>
                  Buffering(tokens, i, connected, cur, ctx, output, goal, found, a, kids, osTokens, osDepth)
    {
      var token := tokens[i];
      if osDepth > 0 {
        BufferingStep(tokens, i, connected, cur, ctx, output, goal, found, a, kids, osTokens, osDepth);
        osTokens := osTokens + [token];
        osDepth := osDepth + Delta(token);
        if osDepth == 0 {
          var next := RewriteOSBoot(osTokens, connected, a, kids);
          OSTokensMeaning(connected, a, kids);
          updated := true;
          output := output + next;
        }
      } else {
        BetweenStep(tokens, i, connected, cur, ctx, updated, output, goal, found);
        match token {
          case Start(n, attrs) =>
            if n == "os" {
              osDepth := 1;
              osTokens := [token];
              a, kids := attrs, cur.kids;
              cur := cur.next;
            } else {
              output := output + [token];
              cur, ctx := cur.kids, Inside(n, cur.next, ctx);
            }
          case End(n) =>
            output := output + [token];
            cur, ctx := ctx.next, ctx.outer;
          case _ =>
            output := output + [token];
            cur := cur.next;
        }
      }
    }
    AllOSRead(tokens, connected, cur, ctx, updated, output, goal, found, a, kids, osTokens, osDepth);
  }

  lemma OSTokensMeaning(connected: bool, a: seq<Attr>, kids: Forest)
    ensures OSTokens(connected, a, kids) == ElemTokens("os", a, OSKids(connected, kids))
  {
  }
}

// The searches over tokens that decide the mode and find the CDROM drive, and the whole change.
module MediaChange {
  import opened Common
  import opened Strings
  import opened Xml
  import opened MediaBoot
  import opened MediaRewrite
  import opened MediaOS

  /** A search for a tag inside certain outermost elements: a boot device inside os, or a target inside CDROM disks. */
  datatype Search = BootDevice | CdromTarget(target: string)

  function OuterName(s: Search): string { if s.BootDevice? then "os" else "disk" }

  predicate Gate(s: Search, a: seq<Attr>) {
    s.CdromTarget? ==> IsCdrom(TrimSpace(AttrValue(a, "device")))
  }

  predicate Hit(s: Search, n: string, a: seq<Attr>) {
    if s.BootDevice? then IsBoot(n, a, true) else n == "target" && TrimSpace(AttrValue(a, "dev")) == s.target
  }

  predicate AnyHit(s: Search, f: Forest) {
    match f
    case Nil => false
    case Leaf(_, next) => AnyHit(s, next)
    case Elem(n, a, kids, next) => Hit(s, n, a) || AnyHit(s, kids) || AnyHit(s, next)
  }

  predicate Found(s: Search, f: Forest) {
    match f
    case Nil => false
    case Leaf(_, next) => Found(s, next)
    case Elem(n, a, kids, next) =>
      (if n == OuterName(s) then Gate(s, a) && AnyHit(s, kids) else Found(s, kids)) || Found(s, next)
  }

  lemma {:induction false} SearchBoot(f: Forest)
    ensures AnyHit(BootDevice, f) == HasDevBoot(f) && Found(BootDevice, f) == HasOSBoot(f)
  {
    hide IsBoot;
    match f
    case Nil =>
    case Leaf(_, next) => SearchBoot(next);
    case Elem(_, _, kids, next) =>
      SearchBoot(kids);
      SearchBoot(next);
  }

  lemma {:induction false} SearchTarget(f: Forest, target: string)
    ensures AnyHit(CdromTarget(target), f) == HasTarget(f, target)
    ensures Found(CdromTarget(target), f) == HasCdromTarget(f, target)
  {
    hide TrimSpace, AttrValue, IsCdrom;
    match f
    case Nil =>
    case Leaf(_, next) => SearchTarget(next, target);
    case Elem(_, _, kids, next) =>
      SearchTarget(kids, target);
      SearchTarget(next, target);
  }

  /** The same search over tokens. */
  predicate HitAmong(s: Search, ts: seq<Token>) {
    ts != [] && ((ts[0].Start? && Hit(s, ts[0].name, ts[0].attrs)) || HitAmong(s, ts[1..]))
  }

  lemma {:induction false} HitConcat(s: Search, t: seq<Token>, u: seq<Token>)
    ensures HitAmong(s, t + u) == (HitAmong(s, t) || HitAmong(s, u))
  {
    hide Hit;
    if t == [] {
      assert t + u == u;
    } else {
      assert (t + u)[1..] == t[1..] + u && (t + u)[0] == t[0];
      HitConcat(s, t[1..], u);
    }
  }

  lemma {:induction false} HitFlatten(s: Search, f: Forest)
    ensures HitAmong(s, Flatten(f)) == AnyHit(s, f)
    decreases f, 0
  {
    hide Hit;
    match f
    case Nil =>
    case Leaf(t, next) =>
      HitFlatten(s, next);
      assert ([t] + Flatten(next))[1..] == Flatten(next);
    case Elem(n, a, kids, next) =>
      HitFlatten(s, next);
      HitElement(s, n, a, kids);
      HitConcat(s, ElemTokens(n, a, kids), Flatten(next));
  }

  lemma {:induction false} HitElement(s: Search, n: string, a: seq<Attr>, kids: Forest)
    ensures HitAmong(s, ElemTokens(n, a, kids)) == (Hit(s, n, a) || AnyHit(s, kids))
    ensures HitAmong(s, ElemTokens(n, a, kids)[1..]) == AnyHit(s, kids)
    decreases kids, 1
  {
    hide Hit;
    var inner := Flatten(kids);
    HitFlatten(s, kids);
    HitConcat(s, inner, [End(n)]);
    assert ElemTokens(n, a, kids)[1..] == inner + [End(n)];
    assert !HitAmong(s, [End(n)]);
  }

  /** What is searched for is still to come. */
  predicate Ahead(s: Search, cur: Forest, ctx: Context)
    decreases ctx
  {
    Found(s, cur) || (ctx.Inside? && Ahead(s, ctx.next, ctx.outer))
  }

  lemma AheadNext(s: Search, cur: Forest, ctx: Context)
    ensures cur.Nil? && ctx.Inside? ==> Ahead(s, cur, ctx) == Ahead(s, ctx.next, ctx.outer)
    ensures cur.Leaf? ==> Ahead(s, cur, ctx) == Ahead(s, cur.next, ctx)
    ensures cur.Elem? && cur.name == OuterName(s) ==>
              Ahead(s, cur, ctx) == ((Gate(s, cur.attrs) && AnyHit(s, cur.kids)) || Ahead(s, cur.next, ctx))
    ensures cur.Elem? && cur.name != OuterName(s) ==>
              Ahead(s, cur, ctx) == Ahead(s, cur.kids, Inside(cur.name, cur.next, ctx))
  {
    hide Gate, AnyHit;
  }

  /** The search is outside the outermost elements it looks into. */
  ghost predicate Scanning(ts: seq<Token>, i: nat, s: Search, cur: Forest, ctx: Context, found: bool) {
    i <= |ts| && ts[i..] == Remaining(cur, ctx) && found == Ahead(s, cur, ctx)
  }

  /** The search has read k tokens of such an element without a hit. */
  ghost predicate Inspecting(ts: seq<Token>, i: nat, s: Search, gate: bool, e: seq<Token>, k: nat, depth: nat,
                             cur: Forest, ctx: Context, found: bool) {
    InElement(ts, i, e, k, depth, Remaining(cur, ctx)) && found == ((gate && HitAmong(s, e[k..])) || Ahead(s, cur, ctx))
  }

  lemma ScanStep(ts: seq<Token>, i: nat, s: Search, cur: Forest, ctx: Context, found: bool)
    requires i < |ts| && Scanning(ts, i, s, cur, ctx, found)
    ensures cur.Nil? ==> ctx.Inside? && ts[i] == End(ctx.name) && Scanning(ts, i + 1, s, ctx.next, ctx.outer, found)
    ensures cur.Leaf? ==> ts[i] == cur.token && Scanning(ts, i + 1, s, cur.next, ctx, found)
    ensures cur.Elem? ==> ts[i] == Start(cur.name, cur.attrs)
    ensures cur.Elem? && cur.name == OuterName(s) ==>
              Inspecting(ts, i + 1, s, Gate(s, cur.attrs), ElemTokens(cur.name, cur.attrs, cur.kids), 1, 1, cur.next,
                         ctx, found)
    ensures cur.Elem? && cur.name != OuterName(s) ==>
              Scanning(ts, i + 1, s, cur.kids, Inside(cur.name, cur.next, ctx), found)
  {
    hide ElemTokens, InElement, Remaining, Ahead, Gate, AnyHit, HitAmong;
    Read(ts, i, cur, ctx);
    AheadNext(s, cur, ctx);
    if cur.Elem? {
      EnterElement(ts, i, cur.name, cur.attrs, cur.kids, Remaining(cur.next, ctx));
      HitElement(s, cur.name, cur.attrs, cur.kids);
    }
  }

  lemma InspectStep(ts: seq<Token>, i: nat, s: Search, gate: bool, e: seq<Token>, k: nat, depth: nat, cur: Forest,
                    ctx: Context, found: bool)
    requires i < |ts| && Inspecting(ts, i, s, gate, e, k, depth, cur, ctx, found)
    ensures depth + Delta(ts[i]) >= 0
    ensures ts[i].Start? && Hit(s, ts[i].name, ts[i].attrs) && gate ==> found
    ensures !(ts[i].Start? && Hit(s, ts[i].name, ts[i].attrs) && gate) ==>
              if depth + Delta(ts[i]) == 0 then Scanning(ts, i + 1, s, cur, ctx, found)
              else Inspecting(ts, i + 1, s, gate, e, k + 1, depth + Delta(ts[i]), cur, ctx, found)
  {
    assert e[k..][0] == e[k] && e[k..][1..] == e[k + 1..];
    hide ElemTokens, Depth, Delta, Remaining, Ahead, Hit;
    NextInElement(ts, i, e, k, depth, Remaining(cur, ctx));
    assert e[..k + 1][k] == ts[i];
    assert HitAmong(s, e[k..]) == ((e[k].Start? && Hit(s, e[k].name, e[k].attrs)) || HitAmong(s, e[k + 1..]));
    if depth + Delta(ts[i]) == 0 {
      assert |e[..k + 1]| == |e|;
      assert e[k + 1..] == [] && !HitAmong(s, []);
    }
  }

  lemma StartScan(s: Search, doc: Forest)
    ensures Scanning(Flatten(doc), 0, s, doc, Top, Found(s, doc))
  {
    hide Found, Flatten;
  }

  lemma ScanEnd(ts: seq<Token>, s: Search, gate: bool, e: seq<Token>, k: nat, depth: nat, cur: Forest, ctx: Context,
                found: bool)
    requires depth == 0 ==> Scanning(ts, |ts|, s, cur, ctx, found)
    requires depth > 0 ==> Inspecting(ts, |ts|, s, gate, e, k, depth, cur, ctx, found)
    ensures !found
  {
    hide InElement, Gate, Hit;
    if depth > 0 {
      InnerHasMore(ts, |ts|, e, k, depth, Remaining(cur, ctx));
    } else {
      ReadNext(cur, ctx);
    }
  }

  /** hasOSBootElements */
  method HasOSBootElements(tokens: seq<Token>, ghost doc: Forest) returns (r: bool)
    requires tokens == Flatten(doc)
    ensures r == HasOSBoot(doc)
  {
    hide *;
    SearchBoot(doc);
    StartScan(BootDevice, doc);
    ghost var found := Found(BootDevice, doc);
    var osDepth := 0;
    ghost var cur, ctx, element, read := doc, Top, [], 1;
    SearchNames();
    for i := 0 to |tokens|
      invariant osDepth >= 0 && read >= 0
      invariant osDepth == 0 ==> Scanning(tokens, i, BootDevice, cur, ctx, found)
      invariant osDepth > 0 ==> Inspecting(tokens, i, BootDevice, true, element, read, osDepth, cur, ctx, found)
    {
      var token := tokens[i];
      if osDepth > 0 {
        InspectStep(tokens, i, BootDevice, true, element, read, osDepth, cur, ctx, found);
        if token.Start? {
          HitMeaning("", token.name, token.attrs);
        }
        osDepth := osDepth + Delta(token);
        read := read + 1;
        if token.Start? && IsBoot(token.name, token.attrs, true) {
          return true;
        }
      } else {
        ScanStep(tokens, i, BootDevice, cur, ctx, found);
        match token {
          case Start(n, attrs) =>
            if n == "os" {
              osDepth := 1;
              element, read := ElemTokens(n, attrs, cur.kids), 1;
              GateMeaning("", attrs);
              cur := cur.next;
            } else {
              cur, ctx := cur.kids, Inside(n, cur.next, ctx);
            }
          case End(n) =>
            cur, ctx := ctx.next, ctx.outer;
          case _ =>
            cur := cur.next;
        }
      }
    }
    ScanEnd(tokens, BootDevice, true, element, read, osDepth, cur, ctx, found);
    return false;
  }

  lemma SearchNames()
    ensures OuterName(BootDevice) == "os" && forall t :: OuterName(CdromTarget(t)) == "disk"
  {
  }

  lemma HitMeaning(t: string, n: string, a: seq<Attr>)
    ensures Hit(BootDevice, n, a) == IsBoot(n, a, true)
    ensures Hit(CdromTarget(t), n, a) == (n == "target" && TrimSpace(AttrValue(a, "dev")) == t)
  {
  }

  lemma GateMeaning(t: string, a: seq<Attr>)
    ensures Gate(BootDevice, a)
    ensures Gate(CdromTarget(t), a) == IsCdrom(TrimSpace(AttrValue(a, "device")))
  {
  }

  /** hasCDROMTargetInXML */
  method HasCdromTargetInDomain(tokens: seq<Token>, target: string, ghost doc: Forest) returns (r: bool)
    requires tokens == Flatten(doc)
    ensures r == HasCdromTarget(doc, target)
  {
    hide *;
    ghost var s := CdromTarget(target);
    SearchTarget(doc, target);
    StartScan(s, doc);
    ghost var found := Found(s, doc);
    var diskDepth := 0;
    var diskDevice := "";
    ghost var cur, ctx, element, read := doc, Top, [], 1;
    SearchNames();
    for i := 0 to |tokens|
      invariant diskDepth >= 0 && read >= 0
      invariant diskDepth == 0 ==> Scanning(tokens, i, s, cur, ctx, found)
      invariant diskDepth > 0 ==>
                  Inspecting(tokens, i, s, IsCdrom(diskDevice), element, read, diskDepth, cur, ctx, found)
    {
      var token := tokens[i];
      if diskDepth > 0 {
        InspectStep(tokens, i, s, IsCdrom(diskDevice), element, read, diskDepth, cur, ctx, found);
        if token.Start? {
          HitMeaning(target, token.name, token.attrs);
        }
        diskDepth := diskDepth + Delta(token);
        read := read + 1;
        if token.Start? && token.name == "target" && IsCdrom(diskDevice)
          && TrimSpace(AttrValue(token.attrs, "dev")) == target {
          return true;
        }
      } else {
        ScanStep(tokens, i, s, cur, ctx, found);
        match token {
          case Start(n, attrs) =>
            if n == "disk" {
              diskDepth := 1;
              diskDevice := TrimSpace(AttrValue(attrs, "device"));
              element, read := ElemTokens(n, attrs, cur.kids), 1;
              GateMeaning(target, attrs);
              cur := cur.next;
            } else {
              cur, ctx := cur.kids, Inside(n, cur.next, ctx);
            }
          case End(n) =>
            cur, ctx := ctx.next, ctx.outer;
          case _ =>
            cur := cur.next;
        }
      }
    }
    ScanEnd(tokens, s, IsCdrom(diskDevice), element, read, diskDepth, cur, ctx, found);
    return false;
  }

  lemma {:induction false} OSBootHasOS(f: Forest)
    requires HasOSBoot(f)
    ensures HasElem(f, "os")
  {
    hide IsBoot;
    match f
    case Leaf(_, next) => OSBootHasOS(next);
    case Elem(n, _, kids, next) =>
      if n != "os" {
        if HasOSBoot(kids) {
          OSBootHasOS(kids);
        } else {
          OSBootHasOS(next);
        }
      }
  }

  /** updateCDROMBootOrderXML: the rewritten tokens, or an error if the CDROM target does not exist. */
  method UpdateCdromBootOrder(tokens: seq<Token>, target: string, connected: bool, ghost doc: Forest)
    returns (r: Result<seq<Token>>)
    requires tokens == Flatten(doc)
    ensures r == match UpdateBootOrder(doc, target, connected)
                 case None => Err(if Blank(target) then "cdrom target is required" else "target cdrom not found")
                 case Some(next) => Ok(Flatten(next))
  {
    hide TrimSpace, HasOSBoot, EditOS, EditDisks, Flatten, HasCdrom, HasCdromTarget, HasElem;
    var cdrom := TrimSpace(target);
    if cdrom == "" {
      return Err("cdrom target is required");
    }
    var osBoot := HasOSBootElements(tokens, doc);
    if osBoot {
      OSBootHasOS(doc);
      var output, updated := UpdateOS(tokens, connected, doc);
      if !updated {
        return Err("domain os node not found");
      }
      var present := HasCdromTargetInDomain(tokens, cdrom, doc);
      return if present then Ok(output) else Err("target cdrom not found");
    }
    var output, updated := UpdateDisks(tokens, cdrom, connected, doc);
    return if updated then Ok(output) else Err("target cdrom not found");
  }
}

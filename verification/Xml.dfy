// Token streams as encoding/xml's decoder delivers them, and the document trees behind them.
// Names are local names: name spaces, and the lexer and encoder themselves, are not modelled.
module Xml {

  datatype Attr = Attr(name: string, value: string)

  /** Misc stands for comments, processing instructions and directives. */
  datatype Token = Start(name: string, attrs: seq<Attr>) | End(name: string) | Text(text: string) | Misc(data: string)

  type LeafToken = t: Token | t.Text? || t.Misc? witness Text("")

  /** A sequence of sibling trees: an element carries its children and its next siblings.
      A document is the forest of everything at top level. */
  datatype Forest =
    | Nil
    | Leaf(token: LeafToken, next: Forest)
    | Elem(name: string, attrs: seq<Attr>, kids: Forest, next: Forest)

  function ElemTokens(name: string, attrs: seq<Attr>, kids: Forest): seq<Token>
    decreases kids, 1
  {
    [Start(name, attrs)] + Flatten(kids) + [End(name)]
  }

  /** The balanced token sequence of a forest. */
  function Flatten(f: Forest): seq<Token>
    decreases f, 0
  {
    match f
    case Nil => []
    case Leaf(t, next) => [t] + Flatten(next)
    case Elem(n, a, kids, next) => ElemTokens(n, a, kids) + Flatten(next)
  }

  function Append(f: Forest, g: Forest): Forest {
    match f
    case Nil => g
    case Leaf(t, next) => Leaf(t, Append(next, g))
    case Elem(n, a, kids, next) => Elem(n, a, kids, Append(next, g))
  }

  lemma {:induction false} FlattenAppend(f: Forest, g: Forest)
    ensures Flatten(Append(f, g)) == Flatten(f) + Flatten(g)
  {
    match f
    case Nil =>
    case Leaf(t, next) =>
      FlattenAppend(next, g);
    case Elem(n, a, kids, next) =>
      FlattenAppend(next, g);
  }

  lemma {:induction false} AppendNil(f: Forest)
    ensures Append(f, Nil) == f
  {
    match f
    case Nil =>
    case Leaf(t, next) => AppendNil(next);
    case Elem(n, a, kids, next) => AppendNil(next);
  }

  // ---------- Nesting depth ----------

  function Delta(t: Token): int {
    if t.Start? then 1 else if t.End? then -1 else 0
  }

  /** Start tags minus end tags. */
  function Depth(ts: seq<Token>): int {
    if ts == [] then 0 else Depth(ts[..|ts| - 1]) + Delta(ts[|ts| - 1])
  }

  lemma {:induction false} DepthConcat(s: seq<Token>, t: seq<Token>)
    ensures Depth(s + t) == Depth(s) + Depth(t)
  {
    if t == [] {
      assert s + t == s;
    } else {
      assert (s + t)[..|s + t| - 1] == s + t[..|t| - 1];
      DepthConcat(s, t[..|t| - 1]);
    }
  }

  lemma DepthStep(ts: seq<Token>, k: nat)
    requires k < |ts|
    ensures Depth(ts[..k + 1]) == Depth(ts[..k]) + Delta(ts[k])
  {
    assert ts[..k + 1][..k] == ts[..k];
  }

  /** A flattened forest is balanced: no prefix closes more than it opened, and all is closed at the end. */
  lemma {:induction false} FlattenBalanced(f: Forest, k: nat)
    requires k <= |Flatten(f)|
    ensures Depth(Flatten(f)[..k]) >= 0
    ensures Depth(Flatten(f)) == 0
    decreases f, 0
  {
    var ts := Flatten(f);
    match f
    case Nil =>
    case Leaf(t, next) =>
      var rest := Flatten(next);
      FlattenBalanced(next, if k == 0 then 0 else k - 1);
      DepthConcat([t], rest);
      if k > 0 {
        assert ts[..k] == [t] + rest[..k - 1];
        DepthConcat([t], rest[..k - 1]);
      }
    case Elem(n, a, kids, next) =>
      var e, rest := ElemTokens(n, a, kids), Flatten(next);
      ElementBalanced(n, a, kids, if k <= |e| then k else 0);
      FlattenBalanced(next, if k <= |e| then 0 else k - |e|);
      DepthConcat(e, rest);
      if k <= |e| {
        assert ts[..k] == e[..k];
      } else {
        assert ts[..k] == e + rest[..k - |e|];
        DepthConcat(e, rest[..k - |e|]);
      }
  }

  /** The end tag of an element is the first position where the depth is back at zero. */
  lemma {:induction false} ElementBalanced(n: string, a: seq<Attr>, kids: Forest, k: nat)
    requires k <= |ElemTokens(n, a, kids)|
    ensures 0 < k < |ElemTokens(n, a, kids)| ==> Depth(ElemTokens(n, a, kids)[..k]) > 0
    ensures Depth(ElemTokens(n, a, kids)[..k]) >= 0
    ensures Depth(ElemTokens(n, a, kids)) == 0
    decreases kids, 1
  {
    var e, inner := ElemTokens(n, a, kids), Flatten(kids);
    FlattenBalanced(kids, if 0 < k < |e| then k - 1 else 0);
    DepthConcat([Start(n, a)], inner);
    DepthConcat([Start(n, a)] + inner, [End(n)]);
    if 0 < k < |e| {
      assert e[..k] == [Start(n, a)] + inner[..k - 1];
      DepthConcat([Start(n, a)], inner[..k - 1]);
    } else if k == |e| {
      assert e[..k] == e;
    }
  }

  // ---------- Where a one-pass reader stands in a document ----------

  /** The elements that are open around the reader, innermost first, with what follows each. */
  datatype Context = Top | Inside(name: string, next: Forest, outer: Context)

  function Closing(ctx: Context): seq<Token> {
    match ctx
    case Top => []
    case Inside(n, next, outer) => [End(n)] + Flatten(next) + Closing(outer)
  }

  /** The tokens still to be read when the reader is in front of cur. */
  function Remaining(cur: Forest, ctx: Context): seq<Token> {
    Flatten(cur) + Closing(ctx)
  }

  /** What the next token can be, and what is left after it. */
  lemma ReadNext(cur: Forest, ctx: Context)
    ensures cur.Nil? && ctx.Top? ==> Remaining(cur, ctx) == []
    ensures cur.Nil? && ctx.Inside? ==> Remaining(cur, ctx) == [End(ctx.name)] + Remaining(ctx.next, ctx.outer)
    ensures cur.Leaf? ==> Remaining(cur, ctx) == [cur.token] + Remaining(cur.next, ctx)
    ensures cur.Elem? ==>
              && Remaining(cur, ctx)
                == [Start(cur.name, cur.attrs)] + Remaining(cur.kids, Inside(cur.name, cur.next, ctx))
              && Remaining(cur, ctx) == ElemTokens(cur.name, cur.attrs, cur.kids) + Remaining(cur.next, ctx)
  {
    if cur.Elem? {
      var tag, inner, rest := [Start(cur.name, cur.attrs)], Flatten(cur.kids), Flatten(cur.next);
      assert Remaining(cur.kids, Inside(cur.name, cur.next, ctx)) == inner + ([End(cur.name)] + rest + Closing(ctx));
      assert Flatten(cur) == tag + inner + [End(cur.name)] + rest;
      Regroup(tag, inner, [End(cur.name)], rest, Closing(ctx));
      Emit([End(cur.name)], rest, Closing(ctx));
    }
  }

  /** One read outside any buffered element. */
  lemma Read(ts: seq<Token>, i: nat, cur: Forest, ctx: Context)
    requires i < |ts| && ts[i..] == Remaining(cur, ctx)
    ensures cur.Nil? ==> ctx.Inside?
    ensures cur.Nil? ==> ts[i] == End(ctx.name) && ts[i + 1..] == Remaining(ctx.next, ctx.outer)
    ensures cur.Leaf? ==> ts[i] == cur.token && ts[i + 1..] == Remaining(cur.next, ctx)
    ensures cur.Elem? ==> ts[i] == Start(cur.name, cur.attrs)
    ensures cur.Elem? ==> ts[i + 1..] == Remaining(cur.kids, Inside(cur.name, cur.next, ctx))
    ensures cur.Elem? ==> ts[i + 1..] == ElemTokens(cur.name, cur.attrs, cur.kids)[1..] + Remaining(cur.next, ctx)
  {
    ReadNext(cur, ctx);
    hide Flatten, Closing, Remaining;
    assert ts[i] == ts[i..][0] && ts[i + 1..] == ts[i..][1..];
  }

  /** The first tag of an element, put into an empty buffer. */
  lemma BufferStart(n: string, a: seq<Attr>, kids: Forest)
    ensures [Start(n, a)] == ElemTokens(n, a, kids)[..1]
    ensures |ElemTokens(n, a, kids)| > 1
    ensures Depth([Start(n, a)]) == 1
  {
  }

  /** One read inside an element that is being buffered: the depth tells when it is complete. */
  lemma BufferNext(ts: seq<Token>, i: nat, buffer: seq<Token>, n: string, a: seq<Attr>, kids: Forest, rest: seq<Token>)
    requires |buffer| < |ElemTokens(n, a, kids)| && buffer == ElemTokens(n, a, kids)[..|buffer|]
    requires i < |ts| && ts[i..] == ElemTokens(n, a, kids)[|buffer|..] + rest
    ensures buffer + [ts[i]] == ElemTokens(n, a, kids)[..|buffer| + 1]
    ensures ts[i + 1..] == ElemTokens(n, a, kids)[|buffer| + 1..] + rest
    ensures Depth(buffer + [ts[i]]) == Depth(buffer) + Delta(ts[i]) >= 0
    ensures Depth(buffer + [ts[i]]) == 0 <==> buffer + [ts[i]] == ElemTokens(n, a, kids)
  {
    var e, k := ElemTokens(n, a, kids), |buffer|;
    SlideWindow(ts, i, e, k, rest);
    DepthStep(e, k);
    ElementBalanced(n, a, kids, k + 1);
    hide *;
    assert k + 1 == |e| ==> e[..k + 1] == e;
  }

  /** The reader has read k tokens of the element e, is depth levels deep in it, and rest follows the element. */
  ghost predicate InElement(ts: seq<Token>, i: nat, e: seq<Token>, k: nat, depth: nat, rest: seq<Token>) {
    && (exists n, a, kids :: e == ElemTokens(n, a, kids))
    && 0 < k < |e| && Depth(e[..k]) == depth
    && i <= |ts| && ts[i..] == e[k..] + rest
  }

  lemma EnterElement(ts: seq<Token>, i: nat, n: string, a: seq<Attr>, kids: Forest, rest: seq<Token>)
    requires i < |ts| && ts[i + 1..] == ElemTokens(n, a, kids)[1..] + rest
    ensures InElement(ts, i + 1, ElemTokens(n, a, kids), 1, 1, rest)
    ensures ElemTokens(n, a, kids)[..1] == [Start(n, a)]
  {
    BufferStart(n, a, kids);
  }

  lemma NextInElement(ts: seq<Token>, i: nat, e: seq<Token>, k: nat, depth: nat, rest: seq<Token>)
    requires i < |ts| && InElement(ts, i, e, k, depth, rest)
    ensures e[..k] + [ts[i]] == e[..k + 1]
    ensures depth + Delta(ts[i]) >= 0
    ensures if depth + Delta(ts[i]) == 0 then e[..k + 1] == e && ts[i + 1..] == rest
            else InElement(ts, i + 1, e, k + 1, depth + Delta(ts[i]), rest)
  {
    var n, a, kids :| e == ElemTokens(n, a, kids);
    BufferNext(ts, i, e[..k], n, a, kids, rest);
    hide ElemTokens, Depth, Delta;
  }

  lemma InnerHasMore(ts: seq<Token>, i: nat, e: seq<Token>, k: nat, depth: nat, rest: seq<Token>)
    requires InElement(ts, i, e, k, depth, rest)
    ensures i < |ts|
  {
    hide ElemTokens, Depth;
    assert |ts[i..]| == |e[k..]| + |rest|;
  }

  // ---------- States of a one-pass rewrite ----------

  /** The reader is in front of cur, and what it wrote completes with todo to goal. */
  ghost predicate Reading(ts: seq<Token>, i: nat, cur: Forest, ctx: Context, output: seq<Token>, todo: seq<Token>,
                          goal: seq<Token>) {
    i <= |ts| && ts[i..] == Remaining(cur, ctx) && output + todo == goal
  }

  /** The reader is inside the element e, which it skips or buffers, and cur comes after that. */
  ghost predicate Inner(ts: seq<Token>, i: nat, e: seq<Token>, k: nat, depth: nat, cur: Forest, ctx: Context,
                        output: seq<Token>, todo: seq<Token>, goal: seq<Token>) {
    InElement(ts, i, e, k, depth, Remaining(cur, ctx)) && output + todo == goal
  }

  lemma NextInner(ts: seq<Token>, i: nat, e: seq<Token>, k: nat, depth: nat, cur: Forest, ctx: Context,
                  output: seq<Token>, todo: seq<Token>, goal: seq<Token>)
    requires i < |ts| && Inner(ts, i, e, k, depth, cur, ctx, output, todo, goal)
    ensures k < |e| && e[..k] + [ts[i]] == e[..k + 1]
    ensures depth + Delta(ts[i]) >= 0
    ensures if depth + Delta(ts[i]) == 0 then e[..k + 1] == e && Reading(ts, i + 1, cur, ctx, output, todo, goal)
            else Inner(ts, i + 1, e, k + 1, depth + Delta(ts[i]), cur, ctx, output, todo, goal)
  {
    NextInElement(ts, i, e, k, depth, Remaining(cur, ctx));
    hide Delta, Depth, Remaining, ElemTokens;
  }

  /** Nothing is left to be read: all elements are closed. */
  lemma AllRead(ts: seq<Token>, e: seq<Token>, k: nat, depth: nat, cur: Forest, ctx: Context,
                output: seq<Token>, todo: seq<Token>, goal: seq<Token>)
    requires depth == 0 ==> Reading(ts, |ts|, cur, ctx, output, todo, goal)
    requires depth > 0 ==> Inner(ts, |ts|, e, k, depth, cur, ctx, output, todo, goal)
    ensures depth == 0 && cur == Nil && ctx == Top && output + todo == goal
  {
    ReadNext(cur, ctx);
  }

  lemma SlideWindow(ts: seq<Token>, i: nat, e: seq<Token>, k: nat, rest: seq<Token>)
    requires i < |ts| && k < |e| && ts[i..] == e[k..] + rest
    ensures ts[i] == e[k] && ts[i + 1..] == e[k + 1..] + rest
    ensures e[..k] + [ts[i]] == e[..k + 1]
  {
    assert ts[i] == ts[i..][0] && ts[i + 1..] == ts[i..][1..];
    assert e[k..][1..] == e[k + 1..];
  }

  lemma Regroup(a: seq<Token>, b: seq<Token>, c: seq<Token>, d: seq<Token>, e: seq<Token>)
    ensures a + b + c + d + e == a + (b + (c + (d + e)))
  {
    Emit(a + b + c, d, e);
    Emit(a + b, c, d + e);
    Emit(a, b, c + (d + e));
  }

  /** Writing the next piece of what is still to be written. */
  lemma Emit(output: seq<Token>, piece: seq<Token>, rest: seq<Token>)
    ensures output + piece + rest == output + (piece + rest)
  {
  }

  // ---------- Attributes ----------

  /** attrValue: the first attribute of that name, or the empty string. */
  function AttrValue(attrs: seq<Attr>, name: string): string {
    if attrs == [] then ""
    else if attrs[0].name == name then attrs[0].value
    else AttrValue(attrs[1..], name)
  }

  predicate HasAttr(attrs: seq<Attr>, name: string) {
    exists i :: 0 <= i < |attrs| && attrs[i].name == name
  }

  /** setAttr: overwrite the first attribute of that name, or add one at the end. */
  function SetAttr(attrs: seq<Attr>, name: string, value: string): seq<Attr> {
    if attrs == [] then [Attr(name, value)]
    else if attrs[0].name == name then [Attr(name, value)] + attrs[1..]
    else [attrs[0]] + SetAttr(attrs[1..], name, value)
  }

  lemma {:induction false} SetAttrValue(attrs: seq<Attr>, name: string, value: string, other: string)
    ensures AttrValue(SetAttr(attrs, name, value), other) == if other == name then value else AttrValue(attrs, other)
  {
    if attrs != [] && attrs[0].name != name {
      SetAttrValue(attrs[1..], name, value, other);
    }
  }

  // ---------- Searching a forest in document order ----------

  predicate HasElem(f: Forest, name: string) {
    match f
    case Nil => false
    case Leaf(_, next) => HasElem(next, name)
    case Elem(n, _, kids, next) => n == name || HasElem(kids, name) || HasElem(next, name)
  }

  /** The attribute of the last element of that name in document order, at any depth; init if there is none. */
  function LastAttr(f: Forest, elem: string, attr: string, init: string): string {
    match f
    case Nil => init
    case Leaf(_, next) => LastAttr(next, elem, attr, init)
    case Elem(n, a, kids, next) =>
      LastAttr(next, elem, attr, LastAttr(kids, elem, attr, if n == elem then AttrValue(a, attr) else init))
  }

  /** The same search over tokens. */
  function LastAttrTokens(ts: seq<Token>, elem: string, attr: string, init: string): string {
    if ts == [] then init
    else
      var t := ts[|ts| - 1];
      if t.Start? && t.name == elem then AttrValue(t.attrs, attr)
      else LastAttrTokens(ts[..|ts| - 1], elem, attr, init)
  }

  lemma {:induction false} LastAttrConcat(s: seq<Token>, t: seq<Token>, elem: string, attr: string, init: string)
    ensures LastAttrTokens(s + t, elem, attr, init)
              == LastAttrTokens(t, elem, attr, LastAttrTokens(s, elem, attr, init))
  {
    if t == [] {
      assert s + t == s;
    } else {
      assert (s + t)[..|s + t| - 1] == s + t[..|t| - 1];
      LastAttrConcat(s, t[..|t| - 1], elem, attr, init);
    }
  }

  lemma {:induction false} LastAttrFlatten(f: Forest, elem: string, attr: string, init: string)
    ensures LastAttrTokens(Flatten(f), elem, attr, init) == LastAttr(f, elem, attr, init)
    decreases f, 0
  {
    match f
    case Nil =>
    case Leaf(t, next) =>
      LastAttrFlatten(next, elem, attr, init);
      LastAttrConcat([t], Flatten(next), elem, attr, init);
    case Elem(n, a, kids, next) =>
      LastAttrElement(n, a, kids, elem, attr, init);
      var mid := LastAttr(kids, elem, attr, if n == elem then AttrValue(a, attr) else init);
      LastAttrFlatten(next, elem, attr, mid);
      LastAttrConcat(ElemTokens(n, a, kids), Flatten(next), elem, attr, init);
  }

  lemma {:induction false} LastAttrElement(n: string, a: seq<Attr>, kids: Forest, elem: string, attr: string,
                                           init: string)
    ensures LastAttrTokens(ElemTokens(n, a, kids), elem, attr, init)
         == LastAttr(kids, elem, attr, if n == elem then AttrValue(a, attr) else init)
    decreases kids, 1
  {
    var first := if n == elem then AttrValue(a, attr) else init;
    assert LastAttrTokens([Start(n, a)], elem, attr, init) == first;
    LastAttrConcat([Start(n, a)], Flatten(kids), elem, attr, init);
    LastAttrConcat([Start(n, a)] + Flatten(kids), [End(n)], elem, attr, init);
    LastAttrFlatten(kids, elem, attr, first);
  }

  /** A search for an element that does not occur finds nothing. */
  lemma {:induction false} NoElemLastAttr(f: Forest, elem: string, attr: string, init: string)
    requires !HasElem(f, elem)
    ensures LastAttr(f, elem, attr, init) == init
  {
    match f
    case Nil =>
    case Leaf(_, next) => NoElemLastAttr(next, elem, attr, init);
    case Elem(_, _, kids, next) =>
      NoElemLastAttr(kids, elem, attr, init);
      NoElemLastAttr(next, elem, attr, init);
  }

  /** Attribute names of an element are unique, as XML requires. */
  predicate UniqueNames(a: seq<Attr>) {
    a == [] || (!HasAttr(a[1..], a[0].name) && UniqueNames(a[1..]))
  }

  lemma {:induction false} UniqueValue(a: seq<Attr>, name: string, value: string)
    requires UniqueNames(a)
    ensures Attr(name, value) in a <==> HasAttr(a, name) && AttrValue(a, name) == value
    ensures !HasAttr(a, name) ==> AttrValue(a, name) == ""
  {
    if a != [] {
      UniqueValue(a[1..], name, value);
      assert a == [a[0]] + a[1..];
      assert a[0].name == name ==> HasAttr(a, name);
      assert HasAttr(a[1..], name) ==> HasAttr(a, name);
      assert a[0].name != name && HasAttr(a, name) ==> HasAttr(a[1..], name);
      if a[0].name == name {
        forall i | 0 <= i < |a[1..]| ensures a[1..][i].name != name {
        }
      }
    }
  }

  // ---------- Tag names ----------

  /** The tag names of the elements of a list, in order. */
  function ElementNames(f: Forest): seq<string> {
    match f
    case Nil => []
    case Leaf(_, next) => ElementNames(next)
    case Elem(n, _, _, next) => [n] + ElementNames(next)
  }

  /** The names that are left when those in gone are struck out. */
  function NamesWithout(names: seq<string>, gone: set<string>): seq<string> {
    if names == [] then []
    else (if names[0] in gone then [] else [names[0]]) + NamesWithout(names[1..], gone)
  }

  lemma NamesCons(n: string, names: seq<string>, gone: set<string>)
    ensures NamesWithout([n] + names, gone) == (if n in gone then [] else [n]) + NamesWithout(names, gone)
  {
    assert ([n] + names)[1..] == names;
  }

  lemma NamesOfNone(gone: set<string>)
    ensures NamesWithout([], gone) == []
  {
  }
}

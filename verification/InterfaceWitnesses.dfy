// Requests for interfaces that are accepted and have no effect.
module InterfaceWitnesses {
  import opened Common
  import opened Strings
  import opened Xml
  import opened DeviceRewrite
  import opened DomainConfig
  import opened InterfaceEffect
  import opened InterfaceValidation
  import opened CloneRewrite
  import opened CloneEffect
  import opened DiskRenaming
  import opened CloneInterfaces
  import opened CloneSources
  import opened WitnessDocs

  // ---------- An update of an interface ----------

  const UPPER := "52:54:00:AA:BB:CC"
  const LOWER := "52:54:00:aa:bb:cc"
  const NIC := NicEntry("network", UPPER, "", "default", "", "", "virtio")
  const REQUEST := InterfaceRequest("", LOWER, "lan")

  lemma MacCases()
    ensures ToLower(UPPER) == LOWER && UPPER != LOWER && UPPER != "" && LOWER != ""
    ensures TrimSpace(UPPER) == UPPER && TrimSpace(LOWER) == LOWER && ToLower(LOWER) == LOWER
  {
    assert IsTrimmed(UPPER) && IsTrimmed(LOWER);
    assert UPPER[9] == 'A' && LOWER[9] == 'a';
  }

  lemma NetworkWords()
    ensures TrimSpace("lan") == "lan" && TrimSpace("network") == "network" && ToLower("network") == "network"
    ensures "lan" != "" && "network" != "" && "network" != "bridge" && "network" != "direct" && "lan" != "default"
    ensures !EqualFold("network", "bridge")
  {
    assert IsTrimmed("lan") && IsTrimmed("network");
    assert |"network"| == 7 && |"bridge"| == 6 && |"direct"| == 6 && |"lan"| == 3 && "default"[0] == 'd'
      && "lan"[0] == 'l';
  }

  lemma IndexOne(n: NicEntry)
    requires Blank(n.name) && !Blank(n.mac)
    ensures NicByName([n]) == map[] && NicByMac([n]) == map[MacKey(n.mac) := n]
  {
    hide TrimSpace, ToLower;
    assert [n][..0] == [] && NicByName([]) == map[] && NicByMac([]) == map[];
  }

  /** The machine's only interface is found by the request. */
  lemma UpperAsked()
    ensures Asked(REQUEST, [NIC]) == Some(NIC) && Acceptable(REQUEST, [NIC])
  {
    hide *;
    MacCases();
    NetworkWords();
    BlankEmpty();
    UpperFields();
    BlankIs(UPPER);
    BlankIs(LOWER);
    BlankIs("lan");
    KeyIs(UPPER);
    KeyIs(LOWER);
    IndexOne(NIC);
    AskedOne(REQUEST, NIC);
    AcceptableIs(REQUEST, NIC);
  }

  lemma BlankIs(s: string)
    ensures Blank(s) <==> TrimSpace(s) == ""
  {
  }

  lemma KeyIs(mac: string)
    ensures MacKey(mac) == ToLower(TrimSpace(mac))
  {
  }

  lemma AcceptableIs(q: InterfaceRequest, n: NicEntry)
    requires !Blank(q.mac) && !Blank(q.source) && Asked(q, [n]) == Some(n)
    ensures Acceptable(q, [n])
  {
    hide Blank, Asked;
  }

  lemma AskedOne(q: InterfaceRequest, n: NicEntry)
    requires NicByName([n]) == map[] && NicByMac([n]) == map[MacKey(n.mac) := n]
    requires MacKey(q.mac) == MacKey(n.mac) && MacKey(n.mac) != ""
    ensures Asked(q, [n]) == Some(n)
  {
    hide TrimSpace, MacKey, NicByName, NicByMac;
  }

  lemma OneApart(n: NicEntry)
    requires n.mac != "" ==> n.mac != n.name
    ensures Apart([n])
  {
    hide NicHasKey;
  }

  /** A machine whose only interface has no target and a MAC with upper-case letters: the request to give it another
      source is accepted, whatever updates the checks make of it, and the rewrite leaves the interface alone. */
  lemma UpperCaseMac(e: DeviceEdit, actions: seq<InterfaceAction>, pools: PoolMap)
    requires Chosen(actions, [REQUEST], [NIC], pools) && KeyMap(e.sources, actions) && e.deletedInterfaces == {}
    ensures Acceptable(REQUEST, [NIC]) && EditedNic(e, NIC) == [NIC]
    ensures |actions| == 1 && actions[0] == InterfaceAction("", UPPER, UpdateForSource("network", "lan", pools))
    ensures Resourced(actions[0].update, NIC) != NIC || pools != map[]
  {
    UpperAsked();
    UpperFields();
    hide *;
    OneFirst();
    OneChosen(actions, pools);
    OneApart(NIC);
    RequestReaches(e, actions, [REQUEST], [NIC], pools, NIC);
    Unreachable();
    OtherSource(pools);
  }

  lemma UpperFields()
    ensures NIC.name == "" && NIC.mac == UPPER && NIC.kind == "network" && NIC.network == "default"
    ensures UPPER != NIC.name
    ensures REQUEST.source == "lan" && REQUEST.mac == LOWER
  {
  }

  lemma OneFirst()
    requires Asked(REQUEST, [NIC]) == Some(NIC)
    ensures FirstFor([REQUEST], [NIC], 0) && [REQUEST][0] == REQUEST
    ensures forall k: nat :: FirstFor([REQUEST], [NIC], k) ==> k == 0
  {
    hide Asked, RequestKey, REQUEST, NIC;
  }

  lemma OneChosen(actions: seq<InterfaceAction>, pools: PoolMap)
    requires Chosen(actions, [REQUEST], [NIC], pools) && Asked(REQUEST, [NIC]) == Some(NIC)
    requires FirstFor([REQUEST], [NIC], 0) && forall k: nat :: FirstFor([REQUEST], [NIC], k) ==> k == 0
    ensures |actions| == 1 && actions[0] == InterfaceAction("", UPPER, UpdateForSource("network", "lan", pools))
  {
    hide Asked, FirstFor, SeenKey, UpdateForSource, TrimSpace, ToLower;
    NetworkWords();
    assert [REQUEST][0] == REQUEST;
    var action := ActionOf(NIC, REQUEST, pools);
    forall a | a in actions ensures a == action {
      var k: nat :| ComesFrom(a, [REQUEST], [NIC], pools, k);
    }
    assert action in actions;
    OnlyOne(actions, action);
  }

  lemma OnlyOne(actions: seq<InterfaceAction>, action: InterfaceAction)
    requires forall a :: a in actions ==> a == action
    requires forall i, j :: 0 <= i < j < |actions| ==>
               SeenKey(actions[i].name, actions[i].mac) != SeenKey(actions[j].name, actions[j].mac)
    ensures |actions| <= 1
  {
    hide SeenKey;
    if |actions| > 1 {
      TwoSame(actions, action);
    }
  }

  lemma TwoSame(actions: seq<InterfaceAction>, action: InterfaceAction)
    requires |actions| > 1 && forall a :: a in actions ==> a == action
    ensures exists i, j :: 0 <= i < j < |actions| && actions[i] == actions[j]
  {
    assert actions[0] in actions && actions[1] in actions;
    assert actions[0] == actions[1];
  }

  lemma Unreachable()
    ensures !Reachable(NIC)
  {
    hide TrimSpace, ToLower, Blank;
    MacCases();
    BlankEmpty();
  }

  /** The update that is not applied would have changed the interface. */
  lemma OtherSource(pools: PoolMap)
    ensures pools == map[] ==> Resourced(UpdateForSource("network", "lan", pools), NIC) != NIC
  {
    hide *;
    NetworkAttr();
    NoPools();
    NetworkWords();
    if pools == map[] {
      SetsNetwork(SourceUpdate("network", "network", "lan"), NIC);
      UpperFields();
    }
  }

  lemma NetworkAttr()
    ensures InterfaceSourceAttrName("network") == "network" && !Blank("network")
  {
    hide TrimSpace, ToLower;
    NetworkWords();
  }

  lemma NoPools()
    requires InterfaceSourceAttrName("network") == "network"
    ensures UpdateForSource("network", "lan", map[]) == SourceUpdate("network", "network", "lan")
  {
    hide TrimSpace, ToLower, EqualFold, InterfaceSourceAttrName;
    NetworkWords();
  }

  lemma SetsNetwork(u: SourceUpdate, n: NicEntry)
    requires u.sourceAttr == "network" && !Blank(u.sourceAttr)
    ensures Resourced(u, n).network == u.source
  {
    hide Blank;
  }

  // ---------- Sources of a clone's interfaces ----------

  /** An interface whose source element stands first. */
  const FIRST_SOURCE := Elem("source", [Attr("network", "default")], Nil,
                             Elem("mac", [Attr("address", LOWER)], Nil,
                                  Elem("target", [Attr("dev", "vnet")], Nil, Nil)))

  const VNET := NicEntry("network", LOWER, "vnet", "default", "", "", "")
  const FOR_VNET := [SourceRequest("vnet", "lan")]

  lemma NicTags()
    ensures "source" != "mac" && "source" != "target" && "source" != "model" && "mac" != "target" && "mac" != "model"
    ensures "target" != "model" && "network" != "bridge" && "network" != "dev"
  {
    assert |"source"| == 6 && |"mac"| == 3 && |"target"| == 6 && |"model"| == 5 && |"network"| == 7 && |"bridge"| == 6;
    assert |"dev"| == 3 && "source"[0] == 's' && "target"[0] == 't';
  }

  /** Reading children with one attribute each. */
  lemma TwoMore(init: string)
    ensures var rest := Elem("mac", [Attr("address", LOWER)], Nil, Elem("target", [Attr("dev", "vnet")], Nil, Nil));
            && ChildAttr(rest, "mac", "address", init) == LOWER && ChildAttr(rest, "target", "dev", init) == "vnet"
            && (forall attr :: ChildAttr(rest, "source", attr, init) == init)
            && ChildAttr(rest, "model", "type", init) == init
            && AtMostOne(rest, "mac") && AtMostOne(rest, "target")
  {
    hide HasAttr, AttrValue, ChildAttr, LOWER;
    NicTags();
    OneValue("address", LOWER, "address");
    OneValue("dev", "vnet", "dev");
    var last := Elem("target", [Attr("dev", "vnet")], Nil, Nil);
    ChildStep("target", [Attr("dev", "vnet")], Nil, "target", "dev", init);
    ChildStep("target", [Attr("dev", "vnet")], Nil, "mac", "address", LOWER);
    ChildStep("target", [Attr("dev", "vnet")], Nil, "model", "type", init);
    ChildStep("mac", [Attr("address", LOWER)], last, "mac", "address", init);
    ChildStep("mac", [Attr("address", LOWER)], last, "target", "dev", init);
    ChildStep("mac", [Attr("address", LOWER)], last, "model", "type", init);
    forall attr ensures ChildAttr(Elem("mac", [Attr("address", LOWER)], Nil, last), "source", attr, init) == init {
      ChildStep("mac", [Attr("address", LOWER)], last, "source", attr, init);
      ChildStep("target", [Attr("dev", "vnet")], Nil, "source", attr, init);
    }
    assert NoChild(last, "mac") && AtMostOne(last, "target");
  }

  lemma ChildStep(n: string, a: seq<Attr>, next: Forest, elem: string, attr: string, init: string)
    ensures ChildAttr(Elem(n, a, Nil, next), elem, attr, init)
              == ChildAttr(next, elem, attr, if n == elem && HasAttr(a, attr) then AttrValue(a, attr) else init)
    ensures forall value :: ChildAttr(Nil, elem, attr, value) == value
  {
    hide HasAttr, AttrValue;
  }

  lemma FirstSourceRead()
    ensures NicOf([Attr("type", "network")], FIRST_SOURCE) == VNET
    ensures AtMostOne(FIRST_SOURCE, "mac") && AtMostOne(FIRST_SOURCE, "target")
    ensures !StandsBefore(FIRST_SOURCE, "mac") && !StandsBefore(FIRST_SOURCE, "target")
  {
    NicTags();
    TwoMore("");
    TwoMore("default");
    OneValue("network", "default", "network");
    OneValue("network", "default", "bridge");
    OneValue("network", "default", "dev");
    OneValue("type", "network", "type");
    FirstChild("network");
    FirstChild("bridge");
    FirstChild("dev");
    hide HasAttr, AttrValue, ChildAttr;
    FirstSkipped("mac", "address");
    FirstSkipped("target", "dev");
    FirstSkipped("model", "type");
  }

  lemma FirstChild(attr: string)
    ensures var a := [Attr("network", "default")];
            ChildAttr(FIRST_SOURCE, "source", attr, "")
              == ChildAttr(FIRST_SOURCE.next, "source", attr, if HasAttr(a, attr) then AttrValue(a, attr) else "")
  {
    hide HasAttr, AttrValue;
  }

  lemma FirstSkipped(elem: string, attr: string)
    requires elem != "source"
    ensures ChildAttr(FIRST_SOURCE, elem, attr, "") == ChildAttr(FIRST_SOURCE.next, elem, attr, "")
  {
    hide HasAttr, AttrValue;
  }

  /** The request for that interface is understood, its source is stored under the name and the MAC, and the clone's
      interface keeps the source it had. */
  lemma SourceInFront(c: CloneRequest, bridges: map<string, string>)
    requires SourceMap(c.interfaceSources, FOR_VNET, [VNET], bridges)
    ensures "vnet" in c.interfaceSources && c.interfaceSources["vnet"] == "lan"
    ensures LOWER in c.interfaceSources && c.interfaceSources[LOWER] == "lan"
    ensures ClonedNic(c, [Attr("type", "network")], FIRST_SOURCE).network == "default"
  {
    hide *;
    FirstSourceRead();
    VnetDecided();
    Decided(FOR_VNET, [VNET], bridges, 0, VNET);
    VnetFields(bridges);
    MapAt(c.interfaceSources, FOR_VNET, [VNET], bridges, "vnet", 0);
    MapAt(c.interfaceSources, FOR_VNET, [VNET], bridges, LOWER, 0);
    NamedSource(c, [Attr("type", "network")], FIRST_SOURCE, FOR_VNET, [VNET], bridges, 0);
    ClonedNetwork(c, [Attr("type", "network")], FIRST_SOURCE);
  }

  lemma ClonedNetwork(c: CloneRequest, a: seq<Attr>, kids: Forest)
    requires NewSource(c, kids) == ""
    ensures ClonedNic(c, a, kids).network == NicOf(a, kids).network
  {
    hide NewSource, ChildAttr, AttrValue;
  }

  lemma VnetDecided()
    ensures Decides(FOR_VNET, [VNET], 0, VNET)
  {
    hide TrimSpace, LOWER;
    VnetWords();
    NetworkWords();
    assert [VNET][..0] == [] && NicByName([]) == map[];
    assert NicByName([VNET]) == map["vnet" := VNET];
    hide NicByName;
  }

  lemma VnetWords()
    ensures TrimSpace("vnet") == "vnet" && "vnet" != ""
  {
    assert IsTrimmed("vnet") && |"vnet"| == 4;
  }

  lemma VnetFields(bridges: map<string, string>)
    ensures VNET.name == "vnet" && VNET.mac == LOWER && LOWER != "" && VNET.network == "default" && |FOR_VNET| == 1
    ensures SourceFor(VNET.kind, TrimSpace(FOR_VNET[0].source), bridges) == "lan"
  {
    hide TrimSpace, EqualFold, LOWER;
    MacCases();
    NetworkWords();
  }
}

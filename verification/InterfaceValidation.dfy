// Which requests to change interfaces are accepted, and what a whole accepted request does to the interfaces of
// the rewritten domain.
module InterfaceValidation {
  import opened Common
  import opened Strings
  import opened Xml
  import opened DeviceRewrite
  import opened DomainConfig
  import opened InterfaceEffect

  datatype InterfaceRequest = InterfaceRequest(name: string, mac: string, source: string)

  datatype NetworkPool = NetworkPool(name: string, forward: string, bridge: string)

  /** networkPoolsByName */
  type PoolMap = m: map<string, NetworkPool> | forall k :: k in m ==> m[k].name == k witness map[]

  /** domainInterfaceUpdateForSource */
  function UpdateForSource(kind: string, source: string, pools: PoolMap): SourceUpdate {
    var s := TrimSpace(source);
    if s in pools then
      if EqualFold(TrimSpace(pools[s].forward), "bridge") && !Blank(pools[s].bridge)
      then SourceUpdate("bridge", "bridge", TrimSpace(pools[s].bridge))
      else SourceUpdate("network", "network", TrimSpace(pools[s].name))
    else
      var k := ToLower(TrimSpace(kind));
      SourceUpdate(k, InterfaceSourceAttrName(k), s)
  }

  /** A request with a source names one: an accepted update is never empty. */
  lemma UpdateNamesSource(kind: string, source: string, pools: PoolMap)
    requires TrimSpace(source) != ""
    ensures UpdateForSource(kind, source, pools).source != ""
  {
    assert TrimSpace(TrimSpace(source)) == TrimSpace(source);
    hide TrimSpace, EqualFold, ToLower, InterfaceSourceAttrName;
  }

  /** What the update to a source says: the bridge of a bridged pool of that name, or else the pool itself as a
      network; a source that is no pool stands under the attribute of the interface's own type. */
  ghost predicate SourceFits(r: NicEntry, own: string, kind: string, s: string, pools: PoolMap) {
    if s in pools then
      if EqualFold(TrimSpace(pools[s].forward), "bridge") && !Blank(pools[s].bridge)
      then r.kind == "bridge" && ReadsSource(r, "bridge", TrimSpace(pools[s].bridge))
      else r.kind == "network" && ReadsSource(r, "network", s)
    else
      && r.kind == (if Blank(kind) then own else ToLower(TrimSpace(kind)))
      && exists attr :: AttrForType(kind, attr) && ReadsSource(r, attr, s)
  }

  /** The interface as it reads after an update to a source; MAC, name and model are its own. */
  lemma UpdatedNicReads(n: NicEntry, kind: string, source: string, pools: PoolMap)
    ensures var r := Resourced(UpdateForSource(kind, source, pools), n);
            && r.mac == n.mac && r.name == n.name && r.model == n.model
            && SourceFits(r, n.kind, kind, TrimSpace(source), pools)
  {
    hide TrimSpace, Blank, EqualFold, ToLower, InterfaceSourceAttrName, AttrForType, FirstNonEmpty;
    var k := ToLower(TrimSpace(kind));
    NamedSources();
    PoolTrimmed(source, pools);
    OwnAttribute(kind);
    LoweredStays(kind);
    assert TrimSpace(source) !in pools ==>
        ReadsSource(Resourced(UpdateForSource(kind, source, pools), n), InterfaceSourceAttrName(k), TrimSpace(source));
  }

  lemma OwnAttribute(kind: string)
    ensures var k := ToLower(TrimSpace(kind));
            var attr := InterfaceSourceAttrName(k);
            AttrForType(kind, attr) && FirstNonEmpty(attr, attr) == attr
  {
    hide TrimSpace, ToLower, InterfaceSourceAttrName, AttrForType;
    var k := ToLower(TrimSpace(kind));
    TypeAttribute(k);
    LoweredStays(kind);
    SameAttribute(kind, k, InterfaceSourceAttrName(k));
  }

  lemma PoolTrimmed(source: string, pools: PoolMap)
    ensures var s := TrimSpace(source); s in pools ==> TrimSpace(pools[s].name) == s
  {
    TrimTwice(source);
    hide TrimSpace;
  }

  lemma SameAttribute(kind: string, other: string, attr: string)
    requires ToLower(TrimSpace(kind)) == ToLower(TrimSpace(other)) && AttrForType(other, attr)
    ensures AttrForType(kind, attr)
  {
    hide ToLower, TrimSpace;
  }

  lemma NamedSources()
    ensures FirstNonEmpty("network", InterfaceSourceAttrName("network")) == "network"
    ensures FirstNonEmpty("bridge", InterfaceSourceAttrName("bridge")) == "bridge"
  {
    assert TrimSpace("network") == "network" && TrimSpace("bridge") == "bridge";
  }

  // ---------- The interface a request asks for ----------

  function MacKey(mac: string): string { ToLower(TrimSpace(mac)) }

  /** interfaceByName */
  function NicByName(nics: seq<NicEntry>): map<string, NicEntry> {
    if nics == [] then map[]
    else
      var n, m := nics[|nics| - 1], NicByName(nics[..|nics| - 1]);
      if Blank(n.name) then m else m[n.name := n]
  }

  /** interfaceByMAC */
  function NicByMac(nics: seq<NicEntry>): map<string, NicEntry> {
    if nics == [] then map[]
    else
      var n, m := nics[|nics| - 1], NicByMac(nics[..|nics| - 1]);
      if Blank(n.mac) then m else m[MacKey(n.mac) := n]
  }

  function Asked(q: InterfaceRequest, nics: seq<NicEntry>): Option<NicEntry> {
    var name, mac := TrimSpace(q.name), MacKey(q.mac);
    if name in NicByName(nics) then Some(NicByName(nics)[name])
    else if mac != "" && mac in NicByMac(nics) then Some(NicByMac(nics)[mac])
    else None
  }

  /** The last interface of that name, or of that MAC but for case and white space. */
  ghost predicate LastNamed(nics: seq<NicEntry>, name: string, i: nat) {
    && i < |nics| && !Blank(name) && nics[i].name == name
    && forall j :: i < j < |nics| ==> nics[j].name != name
  }

  ghost predicate LastWithMac(nics: seq<NicEntry>, mac: string, i: nat) {
    && i < |nics| && !Blank(nics[i].mac) && ToLower(TrimSpace(nics[i].mac)) == mac
    && forall j :: i < j < |nics| ==> Blank(nics[j].mac) || ToLower(TrimSpace(nics[j].mac)) != mac
  }

  lemma {:induction false} NamedLast(nics: seq<NicEntry>, name: string)
    ensures name in NicByName(nics) ==> exists i: nat :: LastNamed(nics, name, i) && NicByName(nics)[name] == nics[i]
    ensures name !in NicByName(nics) ==> forall i :: 0 <= i < |nics| ==> Blank(name) || nics[i].name != name
  {
    hide Blank;
    if nics != [] {
      var n := |nics| - 1;
      NamedLast(nics[..n], name);
      if name in NicByName(nics) {
        if !Blank(nics[n].name) && nics[n].name == name {
          assert LastNamed(nics, name, n);
        } else {
          var i: nat :| LastNamed(nics[..n], name, i) && NicByName(nics[..n])[name] == nics[..n][i];
          assert forall j :: 0 <= j < n ==> nics[..n][j] == nics[j];
          assert LastNamed(nics, name, i);
        }
      }
      assert forall j :: 0 <= j < n ==> nics[..n][j] == nics[j];
    }
  }

  lemma {:induction false} MacLast(nics: seq<NicEntry>, mac: string)
    ensures mac in NicByMac(nics) ==> exists i: nat :: LastWithMac(nics, mac, i) && NicByMac(nics)[mac] == nics[i]
    ensures mac !in NicByMac(nics) ==>
              forall i :: 0 <= i < |nics| ==> Blank(nics[i].mac) || ToLower(TrimSpace(nics[i].mac)) != mac
  {
    hide Blank, ToLower, TrimSpace;
    if nics != [] {
      var n := |nics| - 1;
      MacLast(nics[..n], mac);
      assert forall j :: 0 <= j < n ==> nics[..n][j] == nics[j];
      hide MacKey;
      assert NicByMac(nics) == if Blank(nics[n].mac) then NicByMac(nics[..n])
                               else NicByMac(nics[..n])[ToLower(TrimSpace(nics[n].mac)) := nics[n]] by {
        KeyOfMac(nics[n].mac);
      }
      hide NicByMac;
      if mac in NicByMac(nics) {
        if !Blank(nics[n].mac) && ToLower(TrimSpace(nics[n].mac)) == mac {
          assert LastWithMac(nics, mac, n);
        } else {
          var i: nat :| LastWithMac(nics[..n], mac, i) && NicByMac(nics[..n])[mac] == nics[..n][i];
          assert LastWithMac(nics, mac, i);
        }
      }
    }
  }

  lemma KeyOfMac(mac: string)
    ensures MacKey(mac) == ToLower(TrimSpace(mac))
  {
  }

  /** A request asks for the last interface of its name, or else for the last one of its MAC, or else for none. */
  lemma AskedMeans(q: InterfaceRequest, nics: seq<NicEntry>)
    ensures forall i: nat :: LastNamed(nics, TrimSpace(q.name), i) ==> Asked(q, nics) == Some(nics[i])
    ensures !(exists i: nat :: LastNamed(nics, TrimSpace(q.name), i)) ==>
              && (forall i: nat :: LastWithMac(nics, ToLower(TrimSpace(q.mac)), i) ==> Asked(q, nics) == Some(nics[i]))
              && (!(exists i: nat :: LastWithMac(nics, ToLower(TrimSpace(q.mac)), i)) ==> Asked(q, nics).None?)
  {
    hide Blank, ToLower, TrimSpace, NicByName, NicByMac, LastNamed, LastWithMac;
    var name, mac := TrimSpace(q.name), ToLower(TrimSpace(q.mac));
    NamedMeans(nics, name);
    MacMeans(nics, mac);
    MacNotEmpty(nics, mac);
  }

  lemma NamedMeans(nics: seq<NicEntry>, name: string)
    ensures forall i: nat :: LastNamed(nics, name, i) ==>
              i < |nics| && name in NicByName(nics) && NicByName(nics)[name] == nics[i]
    ensures name in NicByName(nics) ==> exists i: nat :: LastNamed(nics, name, i)
  {
    hide Blank, NicByName;
    NamedLast(nics, name);
  }

  lemma MacMeans(nics: seq<NicEntry>, mac: string)
    ensures forall i: nat :: LastWithMac(nics, mac, i) ==>
              i < |nics| && mac in NicByMac(nics) && NicByMac(nics)[mac] == nics[i]
    ensures mac in NicByMac(nics) ==> exists i: nat :: LastWithMac(nics, mac, i)
  {
    hide Blank, ToLower, TrimSpace, NicByMac;
    MacLast(nics, mac);
  }

  lemma MacNotEmpty(nics: seq<NicEntry>, mac: string)
    ensures (exists i: nat :: LastWithMac(nics, mac, i)) ==> mac != ""
  {
    forall i: nat | LastWithMac(nics, mac, i) ensures mac != "" {
      LowerEmpty(TrimSpace(nics[i].mac));
    }
  }

  predicate Acceptable(q: InterfaceRequest, nics: seq<NicEntry>) {
    (!Blank(q.name) || !Blank(q.mac)) && !Blank(q.source) && Asked(q, nics).Some?
  }

  lemma {:induction false} IndexedNics(nics: seq<NicEntry>)
    ensures forall k :: k in NicByName(nics) ==> NicByName(nics)[k] in nics
    ensures forall k :: k in NicByMac(nics) ==> NicByMac(nics)[k] in nics
  {
    hide TrimSpace, ToLower, Blank, MacKey;
    if nics != [] {
      IndexedNics(nics[..|nics| - 1]);
    }
  }

  lemma AskedListed(q: InterfaceRequest, nics: seq<NicEntry>)
    ensures Asked(q, nics).Some? ==> Asked(q, nics).value in nics
  {
    IndexedNics(nics);
    hide TrimSpace, MacKey, NicByName, NicByMac;
  }

  // ---------- The accepted updates ----------

  function ActionOf(n: NicEntry, q: InterfaceRequest, pools: PoolMap): InterfaceAction {
    InterfaceAction(n.name, n.mac, UpdateForSource(n.kind, TrimSpace(q.source), pools))
  }

  /** The key by which requests for the same interface are told. */
  function SeenKey(name: string, mac: string): string { FirstNonEmpty(MacKey(mac), TrimSpace(name)) }

  function RequestKey(q: InterfaceRequest, nics: seq<NicEntry>): Option<string> {
    match Asked(q, nics)
    case None => None
    case Some(n) => Some(SeenKey(n.name, n.mac))
  }

  /** The k-th request is the first one for its interface. */
  ghost predicate FirstFor(requests: seq<InterfaceRequest>, nics: seq<NicEntry>, k: nat) {
    && k < |requests| && Asked(requests[k], nics).Some?
    && forall j :: 0 <= j < k ==> RequestKey(requests[j], nics) != RequestKey(requests[k], nics)
  }

  ghost predicate ComesFrom(a: InterfaceAction, requests: seq<InterfaceRequest>, nics: seq<NicEntry>, pools: PoolMap,
                            k: nat) {
    FirstFor(requests, nics, k) && a == ActionOf(Asked(requests[k], nics).value, requests[k], pools)
  }

  /** There is exactly one update for every interface that is asked for: that of the first request for it. */
  ghost predicate Chosen(actions: seq<InterfaceAction>, requests: seq<InterfaceRequest>, nics: seq<NicEntry>,
                         pools: PoolMap) {
    && (forall a :: a in actions ==> exists k: nat :: ComesFrom(a, requests, nics, pools, k))
    && (forall k: nat :: FirstFor(requests, nics, k) ==>
          ActionOf(Asked(requests[k], nics).value, requests[k], pools) in actions)
    && (forall i, j :: 0 <= i < j < |actions| ==>
          SeenKey(actions[i].name, actions[i].mac) != SeenKey(actions[j].name, actions[j].mac))
  }

  ghost predicate SeenAre(seen: set<string>, requests: seq<InterfaceRequest>, nics: seq<NicEntry>) {
    forall t :: t in seen <==> exists k :: 0 <= k < |requests| && RequestKey(requests[k], nics) == Some(t)
  }

  lemma StillFirst(requests: seq<InterfaceRequest>, q: InterfaceRequest, nics: seq<NicEntry>, k: nat)
    requires k < |requests|
    ensures FirstFor(requests + [q], nics, k) <==> FirstFor(requests, nics, k)
  {
    hide Asked, RequestKey;
    var more := requests + [q];
    assert more[k] == requests[k] && forall j :: 0 <= j < k ==> more[j] == requests[j];
  }

  lemma LastFirst(requests: seq<InterfaceRequest>, q: InterfaceRequest, nics: seq<NicEntry>, seen: set<string>)
    requires SeenAre(seen, requests, nics) && Asked(q, nics).Some?
    ensures RequestKey(q, nics).Some?
    ensures FirstFor(requests + [q], nics, |requests|) <==> RequestKey(q, nics).value !in seen
    ensures SeenAre(seen + {RequestKey(q, nics).value}, requests + [q], nics)
  {
    HasRequestKey(q, nics);
    hide Asked, RequestKey;
    SeenMore(requests, q, nics, seen);
    var more := requests + [q];
    assert more[|requests|] == q && forall j :: 0 <= j < |requests| ==> more[j] == requests[j];
    var key := RequestKey(q, nics).value;
    if key in seen {
      var k :| 0 <= k < |requests| && RequestKey(requests[k], nics) == Some(key);
      assert RequestKey(more[k], nics) == RequestKey(q, nics);
    }
  }

  lemma HasRequestKey(q: InterfaceRequest, nics: seq<NicEntry>)
    requires Asked(q, nics).Some?
    ensures RequestKey(q, nics).Some?
  {
    hide Asked, SeenKey;
  }

  lemma SeenMore(requests: seq<InterfaceRequest>, q: InterfaceRequest, nics: seq<NicEntry>, seen: set<string>)
    requires SeenAre(seen, requests, nics) && RequestKey(q, nics).Some?
    ensures SeenAre(seen + {RequestKey(q, nics).value}, requests + [q], nics)
  {
    hide RequestKey;
    var more, key := requests + [q], RequestKey(q, nics).value;
    assert more[|requests|] == q && forall j :: 0 <= j < |requests| ==> more[j] == requests[j];
    forall t | t in seen + {key} ensures exists k :: 0 <= k < |more| && RequestKey(more[k], nics) == Some(t) {
      if t in seen {
        var k :| 0 <= k < |requests| && RequestKey(requests[k], nics) == Some(t);
        assert RequestKey(more[k], nics) == Some(t);
      } else {
        assert RequestKey(more[|requests|], nics) == Some(t);
      }
    }
  }

  /** A request for an interface that was asked for before adds nothing. */
  lemma ChosenAgain(actions: seq<InterfaceAction>, requests: seq<InterfaceRequest>, q: InterfaceRequest,
                    nics: seq<NicEntry>, pools: PoolMap)
    requires Chosen(actions, requests, nics, pools) && !FirstFor(requests + [q], nics, |requests|)
    ensures Chosen(actions, requests + [q], nics, pools)
  {
    hide Asked, SeenKey, ActionOf, FirstFor;
    var more := requests + [q];
    forall k: nat | k < |requests| ensures FirstFor(more, nics, k) <==> FirstFor(requests, nics, k) {
      StillFirst(requests, q, nics, k);
    }
    FirstWithin(requests, nics);
    FirstWithin(more, nics);
    forall a | a in actions ensures exists k: nat :: ComesFrom(a, more, nics, pools, k) {
      var k: nat :| ComesFrom(a, requests, nics, pools, k);
      assert ComesFrom(a, more, nics, pools, k);
    }
  }

  lemma FirstWithin(requests: seq<InterfaceRequest>, nics: seq<NicEntry>)
    ensures forall k: nat :: FirstFor(requests, nics, k) ==> k < |requests| && Asked(requests[k], nics).Some?
  {
    hide Asked, RequestKey;
  }

  /** The first request for an interface adds its update. */
  lemma ChosenMore(actions: seq<InterfaceAction>, requests: seq<InterfaceRequest>, q: InterfaceRequest,
                   nics: seq<NicEntry>, pools: PoolMap)
    requires Chosen(actions, requests, nics, pools) && FirstFor(requests + [q], nics, |requests|)
    requires Asked(q, nics).Some?
    ensures Chosen(actions + [ActionOf(Asked(q, nics).value, q, pools)], requests + [q], nics, pools)
  {
    hide *;
    var more, action := requests + [q], ActionOf(Asked(q, nics).value, q, pools);
    forall k: nat | k < |requests| ensures FirstFor(more, nics, k) <==> FirstFor(requests, nics, k) {
      StillFirst(requests, q, nics, k);
    }
    FirstWithin(requests, nics);
    FirstWithin(more, nics);
    NewKey(actions, requests, q, nics, pools);
    ChosenJoin(actions, action, requests, q, nics, pools);
  }

  lemma ChosenJoin(actions: seq<InterfaceAction>, action: InterfaceAction, requests: seq<InterfaceRequest>,
                   q: InterfaceRequest, nics: seq<NicEntry>, pools: PoolMap)
    requires Chosen(actions, requests, nics, pools) && FirstFor(requests + [q], nics, |requests|)
    requires Asked(q, nics).Some? && action == ActionOf(Asked(q, nics).value, q, pools)
    requires forall k: nat :: FirstFor(requests, nics, k) ==> k < |requests| && Asked(requests[k], nics).Some?
    requires forall k: nat :: FirstFor(requests + [q], nics, k) ==> k < |requests| + 1
    requires forall k: nat :: k < |requests| ==> (FirstFor(requests + [q], nics, k) <==> FirstFor(requests, nics, k))
    requires forall a :: a in actions ==> SeenKey(a.name, a.mac) != SeenKey(action.name, action.mac)
    ensures Chosen(actions + [action], requests + [q], nics, pools)
  {
    hide Asked, SeenKey, ActionOf, FirstFor;
    var more, next := requests + [q], actions + [action];
    assert more[|requests|] == q && forall k :: 0 <= k < |requests| ==> more[k] == requests[k];
    assert next[|actions|] == action && forall k :: 0 <= k < |actions| ==> next[k] == actions[k];
    forall a | a in next ensures exists k: nat :: ComesFrom(a, more, nics, pools, k) {
      if a in actions {
        var k: nat :| ComesFrom(a, requests, nics, pools, k);
        assert ComesFrom(a, more, nics, pools, k);
      } else {
        assert ComesFrom(a, more, nics, pools, |requests|);
      }
    }
    forall k: nat | FirstFor(more, nics, k) ensures ActionOf(Asked(more[k], nics).value, more[k], pools) in next {
      if k < |requests| {
        assert ActionOf(Asked(requests[k], nics).value, requests[k], pools) in actions;
      }
    }
  }

  /** Its interface is none that has an update already. */
  lemma NewKey(actions: seq<InterfaceAction>, requests: seq<InterfaceRequest>, q: InterfaceRequest, nics: seq<NicEntry>,
               pools: PoolMap)
    requires Chosen(actions, requests, nics, pools) && FirstFor(requests + [q], nics, |requests|)
    requires Asked(q, nics).Some?
    ensures var action := ActionOf(Asked(q, nics).value, q, pools);
            forall a :: a in actions ==> SeenKey(a.name, a.mac) != SeenKey(action.name, action.mac)
  {
    hide Asked, SeenKey, UpdateForSource, TrimSpace;
    var more, action := requests + [q], ActionOf(Asked(q, nics).value, q, pools);
    forall a | a in actions ensures SeenKey(a.name, a.mac) != SeenKey(action.name, action.mac) {
      var k: nat :| ComesFrom(a, requests, nics, pools, k);
      assert more[k] == requests[k] && more[|requests|] == q;
      assert RequestKey(more[k], nics) == Some(SeenKey(a.name, a.mac));
    }
  }

  method IndexNics(nics: seq<NicEntry>) returns (byName: map<string, NicEntry>, byMac: map<string, NicEntry>)
    ensures byName == NicByName(nics) && byMac == NicByMac(nics)
  {
    hide TrimSpace, ToLower;
    byName, byMac := map[], map[];
    for i := 0 to |nics|
      invariant byName == NicByName(nics[..i]) && byMac == NicByMac(nics[..i])
    {
      assert nics[..i + 1][..i] == nics[..i];
      if !Blank(nics[i].name) {
        byName := byName[nics[i].name := nics[i]];
      }
      if !Blank(nics[i].mac) {
        byMac := byMac[MacKey(nics[i].mac) := nics[i]];
      }
    }
    assert nics[..|nics|] == nics;
  }

  /** The checks on one request. */
  method CheckInterface(q: InterfaceRequest, byName: map<string, NicEntry>, byMac: map<string, NicEntry>,
                        ghost nics: seq<NicEntry>)
    returns (r: Result<NicEntry>)
    requires byName == NicByName(nics) && byMac == NicByMac(nics)
    ensures r.Ok? <==> Acceptable(q, nics)
    ensures r.Ok? ==> Asked(q, nics) == Some(r.value)
  {
    hide TrimSpace, NicByName, NicByMac, ToLower;
    var name, mac := TrimSpace(q.name), ToLower(TrimSpace(q.mac));
    LowerEmpty(TrimSpace(q.mac));
    if name == "" && mac == "" {
      return Err("interface name or mac is required");
    }
    if TrimSpace(q.source) == "" {
      return Err("interface source is required");
    }
    if name in byName {
      return Ok(byName[name]);
    }
    if mac != "" && mac in byMac {
      return Ok(byMac[mac]);
    }
    return Err("interface target not found");
  }

  lemma LowerEmpty(s: string)
    ensures ToLower(s) == "" <==> s == ""
  {
    assert |ToLower(s)| == |s|;
  }

  /** validateVMDeviceInterfaceUpdates; nics are the interfaces of the configuration. */
  method ValidateInterfaceUpdates(requests: seq<InterfaceRequest>, nics: seq<NicEntry>, pools: PoolMap)
    returns (r: Result<seq<InterfaceAction>>)
    ensures r.Ok? <==> forall q :: q in requests ==> Acceptable(q, nics)
    ensures r.Ok? ==> Chosen(r.value, requests, nics, pools)
  {
    hide *;
    var byName, byMac := IndexNics(nics);
    var updates: seq<InterfaceAction>, seen: set<string> := [], {};
    NothingChosen(nics, pools);
    assert requests[..0] == [];
    for i := 0 to |requests|
      invariant Chosen(updates, requests[..i], nics, pools) && SeenAre(seen, requests[..i], nics)
      invariant forall q :: q in requests[..i] ==> Acceptable(q, nics)
    {
      var q := requests[i];
      assert requests[..i + 1] == requests[..i] + [q];
      var current := CheckInterface(q, byName, byMac, nics);
      if current.Err? {
        assert q in requests;
        return Err(current.message);
      }
      var update := UpdateForSource(current.value.kind, TrimSpace(q.source), pools);
      var key := FirstNonEmpty(ToLower(TrimSpace(current.value.mac)), TrimSpace(current.value.name));
      SeenKeyIs(current.value);
      KeyOf(q, nics, current.value, pools);
      LastFirst(requests[..i], q, nics, seen);
      assert |requests[..i]| == i;
      if key in seen {
        ChosenAgain(updates, requests[..i], q, nics, pools);
        SeenSame(seen, key);
        continue;
      }
      ChosenMore(updates, requests[..i], q, nics, pools);
      seen := seen + {key};
      updates := updates + [InterfaceAction(current.value.name, current.value.mac, update)];
    }
    assert requests[..|requests|] == requests;
    return Ok(updates);
  }

  lemma SeenSame(seen: set<string>, key: string)
    requires key in seen
    ensures seen + {key} == seen
  {
  }

  lemma SeenKeyIs(n: NicEntry)
    ensures SeenKey(n.name, n.mac) == FirstNonEmpty(ToLower(TrimSpace(n.mac)), TrimSpace(n.name))
  {
    hide FirstNonEmpty, ToLower, TrimSpace;
  }

  lemma KeyOf(q: InterfaceRequest, nics: seq<NicEntry>, n: NicEntry, pools: PoolMap)
    requires Asked(q, nics) == Some(n)
    ensures RequestKey(q, nics) == Some(SeenKey(n.name, n.mac))
    ensures ActionOf(n, q, pools) == InterfaceAction(n.name, n.mac, UpdateForSource(n.kind, TrimSpace(q.source), pools))
  {
    hide Asked, SeenKey, UpdateForSource, TrimSpace;
  }

  lemma NothingChosen(nics: seq<NicEntry>, pools: PoolMap)
    ensures Chosen([], [], nics, pools) && SeenAre({}, [], nics)
  {
    hide Asked, SeenKey, ActionOf;
  }

  // ---------- What a whole request does ----------

  predicate NicHasKey(n: NicEntry, key: string) {
    (n.name != "" && n.name == key) || (n.mac != "" && ToLower(n.mac) == key)
  }

  /** No two interfaces share a name or a MAC, and no name is a MAC: what libvirt gives a machine. */
  ghost predicate Apart(nics: seq<NicEntry>) {
    && (forall m, n, k :: m in nics && n in nics && NicHasKey(m, k) && NicHasKey(n, k) ==> m == n)
    && (forall m, n :: m in nics && n in nics && m.mac != "" ==> m.mac != n.name)
  }

  lemma SameKeys(a: InterfaceAction, n: NicEntry)
    requires a.name == n.name && a.mac == n.mac
    ensures forall key :: HasKey(a, key) <==> NicHasKey(n, key)
  {
    hide ToLower;
  }

  /** The interface behind an accepted update. */
  lemma ActionNic(a: InterfaceAction, requests: seq<InterfaceRequest>, nics: seq<NicEntry>, pools: PoolMap, k: nat)
    returns (n: NicEntry)
    requires ComesFrom(a, requests, nics, pools, k)
    ensures k < |requests| && Asked(requests[k], nics) == Some(n) && n in nics && a.name == n.name && a.mac == n.mac
    ensures forall key :: HasKey(a, key) <==> NicHasKey(n, key)
  {
    AskedListed(requests[k], nics);
    hide Asked, UpdateForSource, TrimSpace, HasKey, NicHasKey, RequestKey;
    n := Asked(requests[k], nics).value;
    SameKeys(a, n);
  }

  /** The accepted updates of such a machine have different keys. */
  lemma ChosenApart(actions: seq<InterfaceAction>, requests: seq<InterfaceRequest>, nics: seq<NicEntry>, pools: PoolMap)
    requires Chosen(actions, requests, nics, pools) && Apart(nics)
    ensures DistinctKeys(actions)
  {
    hide ComesFrom, SeenKey, HasKey, NicHasKey, FirstFor, ActionOf, Asked;
    forall i, j, key | 0 <= i < j < |actions| && HasKey(actions[i], key) && HasKey(actions[j], key) ensures false {
      assert actions[i] in actions && actions[j] in actions;
      var k: nat :| ComesFrom(actions[i], requests, nics, pools, k);
      var l: nat :| ComesFrom(actions[j], requests, nics, pools, l);
      var m := ActionNic(actions[i], requests, nics, pools, k);
      var n := ActionNic(actions[j], requests, nics, pools, l);
    }
    forall i, j | 0 <= i < |actions| && 0 <= j < |actions| && actions[i].mac != ""
      ensures actions[i].mac != actions[j].name
    {
      assert actions[i] in actions && actions[j] in actions;
      var k: nat :| ComesFrom(actions[i], requests, nics, pools, k);
      var l: nat :| ComesFrom(actions[j], requests, nics, pools, l);
      var m := ActionNic(actions[i], requests, nics, pools, k);
      var n := ActionNic(actions[j], requests, nics, pools, l);
    }
  }

  /** The lookup of the rewriter reaches the interface: it has a name, or a MAC without upper-case letters. */
  predicate Reachable(n: NicEntry) {
    !Blank(n.name) || (!Blank(n.mac) && ToLower(n.mac) == n.mac)
  }

  /** What an accepted request does to an interface that is not deleted: the first request for it re-sources it
      exactly if it is reachable; an interface that no request asks for stays as it is. */
  lemma RequestReaches(e: DeviceEdit, actions: seq<InterfaceAction>, requests: seq<InterfaceRequest>,
                       nics: seq<NicEntry>, pools: PoolMap, n: NicEntry)
    requires Chosen(actions, requests, nics, pools) && Apart(nics) && KeyMap(e.sources, actions) && n in nics
    requires forall q :: q in requests ==> Acceptable(q, nics)
    requires n.name !in e.deletedInterfaces && ToLower(n.mac) !in e.deletedInterfaces
    ensures forall k: nat :: FirstFor(requests, nics, k) && Asked(requests[k], nics) == Some(n) ==>
              EditedNic(e, n) == if Reachable(n)
                                 then [Resourced(UpdateForSource(n.kind, TrimSpace(requests[k].source), pools), n)]
                                 else [n]
    ensures (forall q :: q in requests ==> Asked(q, nics) != Some(n)) ==> EditedNic(e, n) == [n]
  {
    hide *;
    FirstWithin(requests, nics);
    ChosenApart(actions, requests, nics, pools);
    forall k: nat | FirstFor(requests, nics, k) && Asked(requests[k], nics) == Some(n)
      ensures EditedNic(e, n) == if Reachable(n)
                                 then [Resourced(UpdateForSource(n.kind, TrimSpace(requests[k].source), pools), n)]
                                 else [n]
    {
      AskedReaches(e, actions, requests, nics, pools, n, k);
    }
    if forall q :: q in requests ==> Asked(q, nics) != Some(n) {
      UnaskedStays(e, actions, requests, nics, pools, n);
    }
  }

  lemma AskedReaches(e: DeviceEdit, actions: seq<InterfaceAction>, requests: seq<InterfaceRequest>,
                     nics: seq<NicEntry>, pools: PoolMap, n: NicEntry, k: nat)
    requires Chosen(actions, requests, nics, pools) && DistinctKeys(actions) && KeyMap(e.sources, actions)
    requires FirstFor(requests, nics, k) && Asked(requests[k], nics) == Some(n)
    requires forall q :: q in requests ==> Acceptable(q, nics)
    requires n.name !in e.deletedInterfaces && ToLower(n.mac) !in e.deletedInterfaces
    ensures EditedNic(e, n) == if Reachable(n)
                               then [Resourced(UpdateForSource(n.kind, TrimSpace(requests[k].source), pools), n)]
                               else [n]
  {
    hide KeyMap, DistinctKeys, EditedNic, Resourced, UpdateForSource, SeenKey, Asked, ComesFrom, FirstFor;
    FirstWithin(requests, nics);
    var q := requests[k];
    assert Acceptable(q, nics);
    TrimTwice(q.source);
    UpdateNamesSource(n.kind, TrimSpace(q.source), pools);
    var i :| 0 <= i < |actions| && actions[i] == ActionOf(n, q, pools);
    hide TrimSpace, Chosen, ToLower;
    UpdateReachesInterface(e, actions, i, n);
  }

  lemma UnaskedStays(e: DeviceEdit, actions: seq<InterfaceAction>, requests: seq<InterfaceRequest>,
                     nics: seq<NicEntry>, pools: PoolMap, n: NicEntry)
    requires Chosen(actions, requests, nics, pools) && Apart(nics) && KeyMap(e.sources, actions) && n in nics
    requires forall q :: q in requests ==> Asked(q, nics) != Some(n)
    requires n.name !in e.deletedInterfaces && ToLower(n.mac) !in e.deletedInterfaces
    ensures EditedNic(e, n) == [n]
  {
    NonBlankNonEmpty(n.name);
    NonBlankNonEmpty(n.mac);
    LowerTwice(n.mac);
    forall key | key in e.sources && key != "" && (key == n.name || key == n.mac) ensures false {
      NoUpdateFor(e.sources, actions, requests, nics, pools, n, key);
    }
    hide Chosen, Apart, KeyMap, ToLower, TrimSpace;
  }

  /** A key of one interface that is the name or the MAC of another makes them one. */
  lemma SameNic(nics: seq<NicEntry>, m: NicEntry, n: NicEntry, key: string)
    requires Apart(nics) && m in nics && n in nics && NicHasKey(m, key) && key != "" && (key == n.name || key == n.mac)
    ensures m == n
  {
    LowerTwice(m.mac);
    hide ToLower;
    assert NicHasKey(n, key);
  }

  lemma NoUpdateFor(items: map<string, SourceUpdate>, actions: seq<InterfaceAction>, requests: seq<InterfaceRequest>,
                    nics: seq<NicEntry>, pools: PoolMap, n: NicEntry, key: string)
    requires Chosen(actions, requests, nics, pools) && Apart(nics) && KeyMap(items, actions) && n in nics
    requires forall q :: q in requests ==> Asked(q, nics) != Some(n)
    requires key != "" && (key == n.name || key == n.mac)
    ensures key !in items
  {
    hide ComesFrom, SeenKey, FirstFor, ActionOf, Asked, ToLower;
    if key in items {
      var j: nat :| LastWith(actions, key, j);
      assert actions[j] in actions;
      var k: nat :| ComesFrom(actions[j], requests, nics, pools, k);
      var m := ActionNic(actions[j], requests, nics, pools, k);
      assert requests[k] in requests && m != n;
      SameNic(nics, m, n, key);
    }
  }

  /** Without deletions every interface gives exactly one. */
  lemma {:induction false} EachEdited(e: DeviceEdit, ns: seq<NicEntry>)
    requires e.deletedInterfaces == {}
    ensures |EditedNics(e, ns)| == |ns| && forall i :: 0 <= i < |ns| ==> [EditedNics(e, ns)[i]] == EditedNic(e, ns[i])
  {
    if ns != [] {
      EachEdited(e, ns[1..]);
      OneEdited(e, ns[0]);
      hide EditedNic;
    }
  }

  lemma OneEdited(e: DeviceEdit, n: NicEntry)
    requires e.deletedInterfaces == {}
    ensures |EditedNic(e, n)| == 1
  {
    hide FindUpdate, Resourced;
  }

  lemma {:induction false} NewLength(items: seq<InterfaceFragment>)
    ensures |NewNics(items)| == |items|
  {
    if items != [] {
      NewLength(items[1..]);
    }
  }

  /** The interfaces of the rewritten domain, request by request: RequestReaches for each that was there, and the
      new ones behind. */
  lemma InterfacesOfRequest(e: DeviceEdit, doc: Forest)
    requires DomainDoc(doc) && PlainNics(DomainDevices(doc)) && e.deletedInterfaces == {}
    ensures |Nics(EditDevices(e, doc))| == |Nics(doc)| + |e.newInterfaces|
    ensures forall i :: 0 <= i < |Nics(doc)| ==> [Nics(EditDevices(e, doc))[i]] == EditedNic(e, Nics(doc)[i])
  {
    InterfacesAfter(e, doc);
    EachEdited(e, Nics(doc));
    NewLength(e.newInterfaces);
    hide Nics, EditDevices, EditedNic, EditedNics, NewNics;
  }
}

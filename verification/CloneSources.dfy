// The sources a clone request asks for: under which keys they are looked up, and which of them take effect.
module CloneSources {
  import opened Common
  import opened Strings
  import opened Xml
  import opened DomainConfig
  import opened InterfaceEffect
  import opened InterfaceValidation
  import opened CloneRewrite
  import opened CloneEffect
  import opened CloneInterfaces

  /** A clone request for an interface, as far as its source goes. */
  datatype SourceRequest = SourceRequest(name: string, source: string)

  /** resolveInterfaceSourceValue; bridges are those of the network pools by name. */
  function SourceFor(kind: string, source: string, bridges: map<string, string>): string {
    var s := TrimSpace(source);
    if EqualFold(TrimSpace(kind), "bridge") && !Blank(Lookup(bridges, s)) then TrimSpace(Lookup(bridges, s)) else s
  }

  /** The request names an interface of the source machine. */
  predicate NamesNic(q: SourceRequest, nics: seq<NicEntry>) {
    TrimSpace(q.name) in NicByName(nics)
  }

  /** The interface a request is for: the one it names, else the one at its position. */
  function Meant(requests: seq<SourceRequest>, nics: seq<NicEntry>, i: nat): Option<NicEntry>
    requires i < |requests|
  {
    if Blank(requests[i].source) then None
    else if NamesNic(requests[i], nics) then Some(NicByName(nics)[TrimSpace(requests[i].name)])
    else if i < |nics| && !Blank(nics[i].mac) then Some(nics[i])
    else None
  }

  /** The keys under which the request's source is stored: the MAC, and for a named interface the name. */
  predicate Writes(requests: seq<SourceRequest>, nics: seq<NicEntry>, i: nat, key: string)
    requires i < |requests|
  {
    match Meant(requests, nics, i)
    case None => false
    case Some(n) => (NamesNic(requests[i], nics) && key == n.name) || (n.mac != "" && key == n.mac)
  }

  function Value(requests: seq<SourceRequest>, nics: seq<NicEntry>, bridges: map<string, string>, i: nat): string
    requires i < |requests| && Meant(requests, nics, i).Some?
  {
    SourceFor(Meant(requests, nics, i).value.kind, TrimSpace(requests[i].source), bridges)
  }

  ghost predicate LastWriter(requests: seq<SourceRequest>, nics: seq<NicEntry>, key: string, i: nat) {
    && i < |requests| && Writes(requests, nics, i, key)
    && forall j :: i < j < |requests| ==> !Writes(requests, nics, j, key)
  }

  /** Each key has the source of the last request that writes it, and there are no other keys. */
  ghost predicate SourceMap(m: map<string, string>, requests: seq<SourceRequest>, nics: seq<NicEntry>,
                            bridges: map<string, string>)
  {
    && (forall k, i: nat :: LastWriter(requests, nics, k, i) ==> k in m && m[k] == Value(requests, nics, bridges, i))
    && (forall k :: k in m ==> exists i: nat :: LastWriter(requests, nics, k, i))
  }

  lemma {:induction false} NamedNic(nics: seq<NicEntry>, name: string)
    requires name in NicByName(nics)
    ensures NicByName(nics)[name].name == name && !Blank(name)
  {
    hide TrimSpace;
    if nics != [] && !(!Blank(nics[|nics| - 1].name) && nics[|nics| - 1].name == name) {
      NamedNic(nics[..|nics| - 1], name);
    }
  }

  lemma MeantSame(requests: seq<SourceRequest>, q: SourceRequest, nics: seq<NicEntry>, bridges: map<string, string>,
                  i: nat)
    requires i < |requests|
    ensures Meant(requests + [q], nics, i) == Meant(requests, nics, i)
    ensures Meant(requests, nics, i).Some? ==>
              Value(requests + [q], nics, bridges, i) == Value(requests, nics, bridges, i)
    ensures forall k :: Writes(requests + [q], nics, i, k) <==> Writes(requests, nics, i, k)
  {
    hide TrimSpace, NicByName, SourceFor;
    assert (requests + [q])[i] == requests[i];
  }

  lemma LastBefore(requests: seq<SourceRequest>, q: SourceRequest, nics: seq<NicEntry>, key: string, i: nat)
    requires i < |requests|
    ensures LastWriter(requests + [q], nics, key, i) <==>
              LastWriter(requests, nics, key, i) && !Writes(requests + [q], nics, |requests|, key)
  {
    hide Meant, Writes, Value;
    forall j: nat | j < |requests| ensures Writes(requests + [q], nics, j, key) <==> Writes(requests, nics, j, key) {
      MeantSame(requests, q, nics, map[], j);
    }
  }

  lemma NextWriter(before: map<string, string>, after: map<string, string>, requests: seq<SourceRequest>,
                   q: SourceRequest, nics: seq<NicEntry>, bridges: map<string, string>)
    requires SourceMap(before, requests, nics, bridges)
    requires var n, more := |requests|, requests + [q];
             && (forall k :: Writes(more, nics, n, k) ==>
                   Meant(more, nics, n).Some? && k in after && after[k] == Value(more, nics, bridges, n))
             && (forall k :: !Writes(more, nics, n, k) ==>
                   (k in after <==> k in before) && (k in before ==> after[k] == before[k]))
    ensures SourceMap(after, requests + [q], nics, bridges)
  {
    hide Meant, Writes, Value;
    var more := requests + [q];
    WritesMeant(more, nics);
    forall k, i: nat | LastWriter(more, nics, k, i) ensures k in after && after[k] == Value(more, nics, bridges, i) {
      if i < |requests| {
        LastBefore(requests, q, nics, k, i);
        MeantSame(requests, q, nics, bridges, i);
      }
    }
    forall k | k in after ensures exists i: nat :: LastWriter(more, nics, k, i) {
      if Writes(more, nics, |requests|, k) {
        assert LastWriter(more, nics, k, |requests|);
      } else {
        var i: nat :| LastWriter(requests, nics, k, i);
        LastBefore(requests, q, nics, k, i);
      }
    }
  }

  lemma WritesMeant(requests: seq<SourceRequest>, nics: seq<NicEntry>)
    ensures forall i: nat, k :: i < |requests| && Writes(requests, nics, i, k) ==> Meant(requests, nics, i).Some?
  {
    hide TrimSpace, NicByName;
  }

  /** vmCloneInterfaceSourcesByName */
  method InterfaceSources(requests: seq<SourceRequest>, nics: seq<NicEntry>, bridges: map<string, string>)
    returns (result: map<string, string>)
    ensures SourceMap(result, requests, nics, bridges)
  {
    hide SourceMap, NicByName, TrimSpace, SourceFor;
    var byName, byMac := IndexNics(nics);
    result := map[];
    NoRequests(nics, bridges);
    assert requests[..0] == [];
    for i := 0 to |requests|
      invariant SourceMap(result, requests[..i], nics, bridges)
    {
      var q := requests[i];
      ghost var before, more := result, requests[..i] + [q];
      assert requests[..i + 1] == more && more[i] == q && |requests[..i]| == i;
      var name, source := TrimSpace(q.name), TrimSpace(q.source);
      if name in byName && source != "" {
        NamedNic(nics, name);
        var n := byName[name];
        result := result[name := SourceFor(n.kind, source, bridges)];
        if n.mac != "" {
          result := result[n.mac := SourceFor(n.kind, source, bridges)];
        }
      } else if source != "" && i < |nics| && !Blank(nics[i].mac) {
        result := result[nics[i].mac := SourceFor(nics[i].kind, source, bridges)];
      }
      NextWriter(before, result, requests[..i], q, nics, bridges);
    }
    assert requests[..|requests|] == requests;
  }

  lemma NoRequests(nics: seq<NicEntry>, bridges: map<string, string>)
    ensures SourceMap(map[], [], nics, bridges)
  {
    hide Meant, Writes, Value;
  }

  // ---------- Which requests take effect ----------

  /** No key is empty, and no stored source is blank. */
  lemma StoredSources(m: map<string, string>, requests: seq<SourceRequest>, nics: seq<NicEntry>,
                      bridges: map<string, string>)
    requires SourceMap(m, requests, nics, bridges)
    ensures "" !in m && forall k :: k in m ==> !Blank(m[k])
  {
    hide Writes, Value;
    BlankEmpty();
    forall k | k in m ensures k != "" && !Blank(m[k]) {
      var i: nat :| LastWriter(requests, nics, k, i);
      WriterFacts(requests, nics, bridges, k, i);
    }
  }

  lemma WriterFacts(requests: seq<SourceRequest>, nics: seq<NicEntry>, bridges: map<string, string>, key: string,
                    i: nat)
    requires i < |requests| && Writes(requests, nics, i, key)
    ensures Meant(requests, nics, i).Some? && key != "" && !Blank(Value(requests, nics, bridges, i))
  {
    BlankEmpty();
    if NamesNic(requests[i], nics) {
      NamedNic(nics, TrimSpace(requests[i].name));
    }
    NeverBlank(Meant(requests, nics, i).value.kind, requests[i].source, bridges);
    hide TrimSpace, NicByName, SourceFor;
  }

  lemma NeverBlank(kind: string, source: string, bridges: map<string, string>)
    requires !Blank(source)
    ensures !Blank(SourceFor(kind, TrimSpace(source), bridges))
  {
    hide EqualFold, TrimSpace, Lookup;
    var s := TrimSpace(source);
    TrimTwice(source);
    TrimTwice(Lookup(bridges, s));
  }

  /** The source an interface of the clone is given, from the requests: that stored for its target if the target stands
      in front of the source element, else that stored for its MAC if the MAC does, else none. */
  lemma SourceGiven(c: CloneRequest, kids: Forest, requests: seq<SourceRequest>, nics: seq<NicEntry>,
                    bridges: map<string, string>)
    requires SourceMap(c.interfaceSources, requests, nics, bridges)
    requires AtMostOne(kids, "mac") && AtMostOne(kids, "target")
    ensures var m, name, mac := c.interfaceSources, ChildAttr(kids, "target", "dev", ""),
              ChildAttr(kids, "mac", "address", "");
            NewSource(c, kids) ==
              if StandsBefore(kids, "target") && name in m then m[name]
              else if StandsBefore(kids, "mac") && mac in m then m[mac]
              else ""
  {
    hide *;
    StoredSources(c.interfaceSources, requests, nics, bridges);
    Stored(c.interfaceSources, "");
    Stored(c.interfaceSources, ChildAttr(kids, "target", "dev", ""));
    Stored(c.interfaceSources, ChildAttr(kids, "mac", "address", ""));
    SourceStands(c, kids);
  }

  lemma Stored(m: map<string, string>, key: string)
    requires forall k :: k in m ==> !Blank(m[k])
    ensures !Blank(Lookup(m, key)) <==> key in m
    ensures Lookup(m, key) == if key in m then m[key] else ""
  {
    BlankEmpty();
    hide Blank;
  }

  /** The request that decides an interface by name: it names it, and no later one writes its name or its MAC. */
  ghost predicate Decides(requests: seq<SourceRequest>, nics: seq<NicEntry>, i: nat, n: NicEntry) {
    && i < |requests| && !Blank(requests[i].source) && NamesNic(requests[i], nics)
    && NicByName(nics)[TrimSpace(requests[i].name)] == n
    && forall j :: i < j < |requests| ==>
         !Writes(requests, nics, j, n.name) && !(n.mac != "" && Writes(requests, nics, j, n.mac))
  }

  /** The usual request: it takes effect exactly if the target or a MAC stands in front of the source element. */
  lemma NamedSource(c: CloneRequest, a: seq<Attr>, kids: Forest, requests: seq<SourceRequest>, nics: seq<NicEntry>,
                    bridges: map<string, string>, i: nat)
    requires SourceMap(c.interfaceSources, requests, nics, bridges)
    requires AtMostOne(kids, "mac") && AtMostOne(kids, "target") && Decides(requests, nics, i, NicOf(a, kids))
    ensures var n := NicOf(a, kids);
            NewSource(c, kids) ==
              if StandsBefore(kids, "target") || (StandsBefore(kids, "mac") && n.mac != "")
              then SourceFor(n.kind, TrimSpace(requests[i].source), bridges)
              else ""
  {
    hide *;
    SourceGiven(c, kids, requests, nics, bridges);
    NicFields(a, kids);
    Decided(requests, nics, bridges, i, NicOf(a, kids));
    StoredSources(c.interfaceSources, requests, nics, bridges);
    MapAt(c.interfaceSources, requests, nics, bridges, NicOf(a, kids).name, i);
    if NicOf(a, kids).mac != "" {
      MapAt(c.interfaceSources, requests, nics, bridges, NicOf(a, kids).mac, i);
    }
  }

  lemma NicFields(a: seq<Attr>, kids: Forest)
    ensures NicOf(a, kids).name == ChildAttr(kids, "target", "dev", "")
    ensures NicOf(a, kids).mac == ChildAttr(kids, "mac", "address", "")
  {
  }

  lemma MapAt(m: map<string, string>, requests: seq<SourceRequest>, nics: seq<NicEntry>, bridges: map<string, string>,
              key: string, i: nat)
    requires SourceMap(m, requests, nics, bridges) && LastWriter(requests, nics, key, i)
    ensures i < |requests| && Meant(requests, nics, i).Some?
    ensures key in m && m[key] == Value(requests, nics, bridges, i)
  {
    WritesMeant(requests, nics);
    hide Meant, Writes, Value;
  }

  /** It is the last one for both keys. */
  lemma Decided(requests: seq<SourceRequest>, nics: seq<NicEntry>, bridges: map<string, string>, i: nat, n: NicEntry)
    requires Decides(requests, nics, i, n)
    ensures i < |requests| && Meant(requests, nics, i) == Some(n)
    ensures LastWriter(requests, nics, n.name, i) && (n.mac != "" ==> LastWriter(requests, nics, n.mac, i))
    ensures Value(requests, nics, bridges, i) == SourceFor(n.kind, TrimSpace(requests[i].source), bridges)
  {
    hide TrimSpace, NicByName, SourceFor, NamesNic;
    DecidedMeant(requests, nics, i, n);
    NamedNic(nics, TrimSpace(requests[i].name));
    hide Meant;
    assert forall j :: i < j < |requests| ==> !Writes(requests, nics, j, n.name);
    hide Decides;
  }

  lemma DecidedMeant(requests: seq<SourceRequest>, nics: seq<NicEntry>, i: nat, n: NicEntry)
    requires Decides(requests, nics, i, n)
    ensures Meant(requests, nics, i) == Some(n) && Writes(requests, nics, i, n.name)
    ensures n.mac != "" ==> Writes(requests, nics, i, n.mac)
    ensures TrimSpace(requests[i].name) in NicByName(nics)
  {
    hide TrimSpace, NicByName, Blank;
  }
}

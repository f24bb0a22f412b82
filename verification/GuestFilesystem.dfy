// From a file system of a guest to the disk it lies on: the merge of topology rows, the guarded walk along
// parents with its LVM rule, and the usage per disk.
module GuestFilesystem {
  import opened Common
  import opened Strings
  import opened DiskNames

  datatype Node = Node(name: string, kind: string, parent: string, size: int)

  // ---------- Merging rows ----------

  /** filesystemNodePriority */
  function Priority(kind: string): nat {
    match ToLower(TrimSpace(kind))
    case "lv" => 5
    case "vg" => 4
    case "pv" => 3
    case "partition" => 2
    case "device" => 1
    case _ => 0
  }

  /** The node a row stands for; a row without a name is skipped. */
  function NodeOf(row: Node): Node {
    Node(Normalize(row.name), ToLower(TrimSpace(row.kind)), Normalize(row.parent), row.size)
  }

  /** The kinds of node that outrank others, the highest first. */
  const KINDS := ["lv", "vg", "pv", "partition", "device"]

  /** The first kind stands in the list, and the other one does not stand at or in front of it. */
  predicate Outranks(kind: string, other: string) {
    exists i :: 0 <= i < |KINDS| && KINDS[i] == kind && forall j :: 0 <= j <= i ==> KINDS[j] != other
  }

  /** What a row says, white space cut off, the kind in lower case, and a dash read as nothing. */
  predicate ReadsRow(n: Node, row: Node) {
    && n.name == (if TrimSpace(row.name) == "-" then "" else TrimSpace(row.name))
    && n.kind == ToLower(TrimSpace(row.kind))
    && n.parent == (if TrimSpace(row.parent) == "-" then "" else TrimSpace(row.parent))
    && n.size == row.size
  }

  /** The row that decides a name: no row of that name outranks it, and it outranks the later ones. */
  ghost predicate Decides(rows: seq<Node>, i: nat, name: string) {
    && i < |rows| && NodeOf(rows[i]).name == name
    && forall j :: 0 <= j < |rows| && NodeOf(rows[j]).name == name ==>
         !Outranks(NodeOf(rows[j]).kind, NodeOf(rows[i]).kind)
         && (j > i ==> Outranks(NodeOf(rows[i]).kind, NodeOf(rows[j]).kind))
  }

  lemma KindIs(kind: string)
    requires ToLower(TrimSpace(kind)) == kind
    ensures Priority(kind) == if kind == "lv" then 5 else if kind == "vg" then 4 else if kind == "pv" then 3
                              else if kind == "partition" then 2 else if kind == "device" then 1 else 0
  {
    hide TrimSpace, ToLower;
  }

  lemma HigherOutranks(kind: string, other: string)
    requires ToLower(TrimSpace(kind)) == kind && ToLower(TrimSpace(other)) == other
    ensures Priority(kind) > Priority(other) <==> Outranks(kind, other)
  {
    hide Priority, TrimSpace, ToLower;
    KindIs(kind);
    KindIs(other);
    assert KINDS[0] == "lv" && KINDS[1] == "vg" && KINDS[2] == "pv" && KINDS[3] == "partition" && KINDS[4] == "device";
    assert "lv"[0] == 'l' && "vg"[0] == 'v' && "pv"[1] == 'v' && "partition"[1] == 'a' && "device"[0] == 'd';
  }

  lemma NodeReads(row: Node)
    ensures ReadsRow(NodeOf(row), row)
  {
    hide TrimSpace, ToLower;
  }

  /** Every node is stored under its own name. */
  predicate KeyedByName(nodes: map<string, Node>) {
    forall k :: k in nodes ==>
      k != "" && Normalize(k) == k && nodes[k].name == k && Normalize(nodes[k].parent) == nodes[k].parent
  }

  /** The node that is kept for a name. */
  function Winner(rows: seq<Node>, name: string): Option<Node> {
    if rows == [] then None
    else
      var before, n := Winner(rows[..|rows| - 1], name), NodeOf(rows[|rows| - 1]);
      if n.name != name || (before.Some? && Priority(before.value.kind) > Priority(n.kind)) then before else Some(n)
  }

  ghost predicate Tops(rows: seq<Node>, i: nat, name: string) {
    && i < |rows| && NodeOf(rows[i]).name == name
    && forall j :: 0 <= j < |rows| && NodeOf(rows[j]).name == name ==>
         Priority(NodeOf(rows[j]).kind) <= Priority(NodeOf(rows[i]).kind)
         && (j > i ==> Priority(NodeOf(rows[j]).kind) < Priority(NodeOf(rows[i]).kind))
  }

  lemma TopDecides(rows: seq<Node>, i: nat, name: string)
    requires Tops(rows, i, name)
    ensures Decides(rows, i, name)
  {
    hide Priority, Outranks, NodeOf;
    forall j | 0 <= j < |rows| && NodeOf(rows[j]).name == name
      ensures !Outranks(NodeOf(rows[j]).kind, NodeOf(rows[i]).kind)
      ensures j > i ==> Outranks(NodeOf(rows[i]).kind, NodeOf(rows[j]).kind)
    {
      KindLowered(rows[i]);
      KindLowered(rows[j]);
      HigherOutranks(NodeOf(rows[j]).kind, NodeOf(rows[i]).kind);
      HigherOutranks(NodeOf(rows[i]).kind, NodeOf(rows[j]).kind);
    }
  }

  lemma KindLowered(row: Node)
    ensures ToLower(TrimSpace(NodeOf(row).kind)) == NodeOf(row).kind
  {
    LoweredStays(row.kind);
    hide TrimSpace, ToLower;
  }

  /** The kept node says what the deciding row says. */
  lemma WinnerDecides(rows: seq<Node>, name: string) returns (i: nat)
    ensures Winner(rows, name).Some? ==> Decides(rows, i, name) && ReadsRow(Winner(rows, name).value, rows[i])
    ensures Winner(rows, name).None? ==> forall j :: 0 <= j < |rows| ==> NodeOf(rows[j]).name != name
  {
    hide *;
    i := WinnerTops(rows, name);
    if Winner(rows, name).Some? {
      TopDecides(rows, i, name);
      TopIn(rows, i, name);
      NodeReads(rows[i]);
    }
  }

  lemma TopIn(rows: seq<Node>, i: nat, name: string)
    requires Tops(rows, i, name)
    ensures i < |rows|
  {
  }

  lemma {:induction false} WinnerTops(rows: seq<Node>, name: string) returns (i: nat)
    ensures Winner(rows, name).Some? ==> Tops(rows, i, name) && Winner(rows, name).value == NodeOf(rows[i])
    ensures Winner(rows, name).None? ==> forall j :: 0 <= j < |rows| ==> NodeOf(rows[j]).name != name
  {
    hide Priority, NodeOf;
    i := 0;
    if rows != [] {
      var k := |rows| - 1;
      i := WinnerTops(rows[..k], name);
      if Winner(rows, name) != Winner(rows[..k], name)
        || (NodeOf(rows[k]).name == name && Winner(rows, name) == Some(NodeOf(rows[k])) && !Beats(rows, k, name)) {
        i := k;
      }
      assert forall j :: 0 <= j < k ==> rows[..k][j] == rows[j];
      hide Winner;
    }
  }

  predicate Beats(rows: seq<Node>, k: nat, name: string)
    requires k < |rows|
  {
    var before := Winner(rows[..k], name);
    before.Some? && Priority(before.value.kind) > Priority(NodeOf(rows[k]).kind)
  }

  ghost predicate Merged(nodes: map<string, Node>, rows: seq<Node>) {
    forall name :: name != "" ==> (if name in nodes then Some(nodes[name]) else None) == Winner(rows, name)
  }

  lemma MergeRow(nodes: map<string, Node>, rows: seq<Node>, i: nat)
    requires i < |rows| && Merged(nodes, rows[..i])
    ensures var n := NodeOf(rows[i]);
            if n.name == "" || (n.name in nodes && Priority(nodes[n.name].kind) > Priority(n.kind))
              then Merged(nodes, rows[..i + 1])
            else Merged(nodes[n.name := n], rows[..i + 1])
  {
    hide Priority, NodeOf;
    assert rows[..i + 1][..i] == rows[..i];
  }

  lemma KeyedRow(nodes: map<string, Node>, row: Node)
    requires KeyedByName(nodes) && NodeOf(row).name != ""
    ensures KeyedByName(nodes[NodeOf(row).name := NodeOf(row)])
  {
    NormalizeTwice(row.name);
    NormalizeTwice(row.parent);
    hide Normalize, ToLower, TrimSpace;
  }

  lemma NormalizeTwice(value: string)
    ensures Normalize(Normalize(value)) == Normalize(value)
  {
    hide TrimSpace;
  }

  /** The rows of parseVirtFilesystemsCSV, once cut into columns: for every name the row of highest priority
      wins, the latest one among equals. */
  method MergeRows(rows: seq<Node>) returns (items: map<string, Node>)
    ensures Merged(items, rows) && KeyedByName(items)
  {
    hide Priority, NodeOf, Merged, KeyedByName;
    items := map[];
    MergeStart();
    assert rows[..0] == [];
    for i := 0 to |rows|
      invariant Merged(items, rows[..i]) && KeyedByName(items)
    {
      var node := NodeOf(rows[i]);
      MergeRow(items, rows, i);
      if node.name == "" {
        continue;
      }
      if node.name in items && Priority(items[node.name].kind) > Priority(node.kind) {
        continue;
      }
      KeyedRow(items, rows[i]);
      items := items[node.name := node];
    }
    assert rows[..|rows|] == rows;
  }

  lemma MergeStart()
    ensures Merged(map[], []) && KeyedByName(map[])
  {
  }

  // ---------- The next node ----------

  /** The physical volumes of exactly that positive size. */
  function Volumes(nodes: map<string, Node>, size: int): set<string> {
    set k | k in nodes && nodes[k].kind == "pv" && nodes[k].size > 0 && nodes[k].size == size
  }

  /** uniqueSameSizePV over any order of the map: the one physical volume of that size. */
  method UniqueSameSizePV(size: int, nodes: map<string, Node>) returns (name: Option<string>)
    requires KeyedByName(nodes)
    ensures name == UniquePV(nodes, size)
  {
    hide Volumes, KeyedByName;
    var match_ := "";
    var rest := nodes.Keys;
    NoneTaken(nodes, size);
    while rest != {}
      invariant rest <= nodes.Keys
      invariant Volumes(nodes, size) - rest == if match_ == "" then {} else {match_}
      decreases rest
    {
      var k :| k in rest;
      IsVolume(nodes, size, k);
      TakeOut(Volumes(nodes, size), rest, k);
      rest := rest - {k};
      var node := nodes[k];
      if node.kind != "pv" || node.size <= 0 || node.size != size {
        continue;
      }
      if match_ != "" && match_ != node.name {
        TwoMembers(Volumes(nodes, size), match_, k);
        return None;
      }
      match_ := node.name;
    }
    AllPVs(nodes, size, match_);
    return if match_ != "" then Some(match_) else None;
  }

  lemma IsVolume(nodes: map<string, Node>, size: int, k: string)
    requires KeyedByName(nodes) && k in nodes
    ensures nodes[k].name == k && k != ""
    ensures k in Volumes(nodes, size) <==> nodes[k].kind == "pv" && nodes[k].size > 0 && nodes[k].size == size
  {
    hide Normalize;
  }

  lemma NoneTaken(nodes: map<string, Node>, size: int)
    ensures Volumes(nodes, size) - nodes.Keys == {}
  {
  }

  lemma TakeOut(s: set<string>, rest: set<string>, k: string)
    requires k in rest
    ensures s - (rest - {k}) == if k in s then (s - rest) + {k} else s - rest
  {
  }

  lemma TwoMembers(s: set<string>, a: string, b: string)
    requires a in s && b in s && a != b
    ensures |s| != 1
  {
    assert {a, b} <= s;
    assert |s - {a, b}| == |s| - |{a, b}|;
  }

  lemma AllPVs(nodes: map<string, Node>, size: int, only: string)
    requires Volumes(nodes, size) - {} == if only == "" then {} else {only}
    ensures UniquePV(nodes, size) == if only == "" then None else Some(only)
  {
    assert Volumes(nodes, size) - {} == Volumes(nodes, size);
  }

  ghost function UniquePV(nodes: map<string, Node>, size: int): Option<string> {
    var pvs := Volumes(nodes, size);
    if |pvs| == 1 then
      var k :| k in pvs;
      Some(k)
    else None
  }

  /** The LVM rule applies: a volume group larger than the physical volume recorded as its parent. */
  predicate Misparented(nodes: map<string, Node>, n: Node) {
    n.kind == "vg" && n.parent in nodes && n.size > 0 && nodes[n.parent].size > 0 && nodes[n.parent].size < n.size
  }

  /** The node after name; "" at a dead end. */
  ghost function Step(nodes: map<string, Node>, name: string): string {
    if name == "" || name !in nodes || nodes[name].parent == "" then ""
    else if Misparented(nodes, nodes[name]) then
      match UniquePV(nodes, nodes[name].size) case None => "" case Some(k) => Normalize(k)
    else Normalize(nodes[name].parent)
  }

  /** The guarded walk. */
  ghost function Walk(nodes: map<string, Node>, name: string, seen: set<string>): Option<string>
    decreases |nodes.Keys - seen|
  {
    if name == "" || name in seen then None
    else if Direct(name).Some? then Direct(name)
    else if Step(nodes, name) == "" then None
    else
      FewerUnseen(nodes, name, seen);
      Walk(nodes, Step(nodes, name), seen + {name})
  }

  lemma FewerUnseen(nodes: map<string, Node>, name: string, seen: set<string>)
    requires name in nodes && name !in seen
    ensures |nodes.Keys - (seen + {name})| < |nodes.Keys - seen|
  {
    assert nodes.Keys - (seen + {name}) == nodes.Keys - seen - {name};
  }

  // ---------- What the walk finds ----------

  /** The k-th node on the way. */
  ghost function Orbit(nodes: map<string, Node>, name: string, k: nat): string {
    if k == 0 then name else Step(nodes, Orbit(nodes, name, k - 1))
  }

  lemma {:induction false} OrbitShift(nodes: map<string, Node>, name: string, k: nat)
    ensures Orbit(nodes, Step(nodes, name), k) == Orbit(nodes, name, k + 1)
  {
    hide Step;
    if k > 0 {
      OrbitShift(nodes, name, k - 1);
    }
  }

  /** The first node on the way that names a disk is the k-th one, and names disk d. */
  ghost predicate Reaches(nodes: map<string, Node>, name: string, k: nat, d: string) {
    Direct(Orbit(nodes, name, k)) == Some(d) && forall j :: 0 <= j < k ==> Direct(Orbit(nodes, name, j)).None?
  }

  /** The nodes seen so far name no disk, and each leads to one of them or to the current node. */
  ghost predicate Trail(nodes: map<string, Node>, seen: set<string>, name: string) {
    forall n :: n in seen ==> Direct(n).None? && (Step(nodes, n) in seen || Step(nodes, n) == name)
  }

  lemma {:induction false} WalkReaches(nodes: map<string, Node>, name: string, seen: set<string>) returns (k: nat)
    requires Walk(nodes, name, seen).Some?
    ensures Reaches(nodes, name, k, Walk(nodes, name, seen).value)
    decreases |nodes.Keys - seen|
  {
    hide *;
    WalkGoes(nodes, name, seen);
    if Direct(name).Some? {
      k := 0;
      OrbitStart(nodes, name);
      ReachesNow(nodes, name);
    } else {
      k := WalkReaches(nodes, Step(nodes, name), seen + {name});
      ReachesLater(nodes, name, k, Walk(nodes, name, seen).value);
      k := k + 1;
    }
  }

  lemma WalkGoes(nodes: map<string, Node>, name: string, seen: set<string>)
    requires Walk(nodes, name, seen).Some?
    ensures if Direct(name).Some? then Walk(nodes, name, seen) == Direct(name)
            else (|nodes.Keys - (seen + {name})| < |nodes.Keys - seen|
                  && Walk(nodes, name, seen) == Walk(nodes, Step(nodes, name), seen + {name}))
  {
    hide Direct;
    if Direct(name).None? {
      FewerUnseen(nodes, name, seen);
    }
  }

  lemma ReachesNow(nodes: map<string, Node>, name: string)
    requires Direct(name).Some?
    ensures Reaches(nodes, name, 0, Direct(name).value)
  {
    hide Direct;
  }

  lemma ReachesLater(nodes: map<string, Node>, name: string, k: nat, d: string)
    requires Direct(name).None? && Reaches(nodes, Step(nodes, name), k, d)
    ensures Reaches(nodes, name, k + 1, d)
  {
    hide Direct, Step, Orbit;
    OrbitStart(nodes, name);
    forall j | 0 <= j < k + 1 ensures Direct(Orbit(nodes, name, j)).None? {
      if j > 0 {
        OrbitShift(nodes, name, j - 1);
      }
    }
    OrbitShift(nodes, name, k);
  }

  lemma WalkOn(nodes: map<string, Node>, name: string, seen: set<string>)
    requires name != "" && name !in seen && Direct(name).None? && Step(nodes, name) != ""
    ensures |nodes.Keys - (seen + {name})| < |nodes.Keys - seen|
    ensures Walk(nodes, name, seen) == Walk(nodes, Step(nodes, name), seen + {name})
  {
    hide Direct;
    FewerUnseen(nodes, name, seen);
  }

  lemma {:induction false} OrbitEmpty(nodes: map<string, Node>, k: nat)
    ensures Orbit(nodes, "", k) == ""
  {
    hide UniquePV, Misparented, Normalize;
    if k > 0 {
      OrbitEmpty(nodes, k - 1);
    }
  }

  lemma DirectEmpty()
    ensures Direct("").None?
  {
  }

  /** A way that comes back to a seen node stays among the seen ones. */
  lemma {:induction false} OrbitStays(nodes: map<string, Node>, name: string, seen: set<string>, k: nat)
    requires Trail(nodes, seen, name) && name in seen
    ensures Orbit(nodes, name, k) in seen
  {
    hide Direct, Step;
    if k > 0 {
      OrbitStays(nodes, name, seen, k - 1);
    }
  }

  lemma TrailOn(nodes: map<string, Node>, name: string, seen: set<string>)
    requires Trail(nodes, seen, name) && Direct(name).None?
    ensures Trail(nodes, seen + {name}, Step(nodes, name))
  {
    hide Direct, Step;
  }

  lemma {:induction false} WalkFails(nodes: map<string, Node>, name: string, seen: set<string>, k: nat)
    requires Walk(nodes, name, seen).None? && Trail(nodes, seen, name)
    ensures Direct(Orbit(nodes, name, k)).None?
    decreases k, 0
  {
    hide *;
    DirectEmpty();
    if name == "" {
      OrbitEmpty(nodes, k);
    } else if name in seen {
      OrbitStays(nodes, name, seen, k);
      SeenDirect(nodes, name, seen, Orbit(nodes, name, k));
    } else {
      WalkStops(nodes, name, seen);
      OrbitStart(nodes, name);
      if k > 0 {
        OrbitShift(nodes, name, k - 1);
        WalkFailsOn(nodes, name, seen, k - 1);
      }
    }
  }

  lemma WalkFailsOn(nodes: map<string, Node>, name: string, seen: set<string>, k: nat)
    requires name != "" && name !in seen && Direct(name).None? && Trail(nodes, seen, name)
    requires Step(nodes, name) != "" ==> Walk(nodes, Step(nodes, name), seen + {name}).None?
    ensures Direct(Orbit(nodes, Step(nodes, name), k)).None?
    decreases k, 1
  {
    hide *;
    if Step(nodes, name) == "" {
      DirectEmpty();
      OrbitEmpty(nodes, k);
    } else {
      TrailOn(nodes, name, seen);
      WalkFails(nodes, Step(nodes, name), seen + {name}, k);
    }
  }

  lemma WalkStops(nodes: map<string, Node>, name: string, seen: set<string>)
    requires Walk(nodes, name, seen).None? && name != "" && name !in seen
    ensures Direct(name).None?
    ensures Step(nodes, name) != "" ==>
              |nodes.Keys - (seen + {name})| < |nodes.Keys - seen|
                && Walk(nodes, Step(nodes, name), seen + {name}).None?
  {
    hide Direct;
    if Step(nodes, name) != "" {
      FewerUnseen(nodes, name, seen);
    }
  }

  lemma SeenDirect(nodes: map<string, Node>, name: string, seen: set<string>, n: string)
    requires Trail(nodes, seen, name) && n in seen
    ensures Direct(n).None?
  {
  }

  lemma OrbitStart(nodes: map<string, Node>, name: string)
    ensures Orbit(nodes, name, 0) == name
  {
  }

  /** The walk answers exactly the first disk on the way along parents, cyclic or not: it fails only if the
      way, however far one follows it, names no disk. */
  lemma WalkIsFirstDisk(nodes: map<string, Node>, name: string, d: string)
    ensures Walk(nodes, name, {}) == Some(d) <==> exists k: nat :: Reaches(nodes, name, k, d)
    ensures Walk(nodes, name, {}).None? <==> forall k: nat :: Direct(Orbit(nodes, name, k)).None?
  {
    hide Walk, Direct, Orbit;
    if Walk(nodes, name, {}).Some? {
      var m := WalkReaches(nodes, name, {});
      assert Direct(Orbit(nodes, name, m)).Some?;
      assert exists k: nat :: !Direct(Orbit(nodes, name, k)).None?;
      forall k: nat | Reaches(nodes, name, k, d) ensures k == m {
        assert k < m ==> Direct(Orbit(nodes, name, k)).None?;
      }
    } else {
      forall k: nat ensures Direct(Orbit(nodes, name, k)).None? {
        WalkFails(nodes, name, {}, k);
      }
    }
  }

  // ---------- The rule for the next node, and the answer it gives ----------

  /** The one physical volume of that size. */
  ghost predicate OnlyVolume(nodes: map<string, Node>, size: int, pv: string) {
    && pv in nodes && nodes[pv].kind == "pv" && nodes[pv].size == size
    && forall k :: k in nodes && nodes[k].kind == "pv" && nodes[k].size == size ==> k == pv
  }

  /** From a listed node with a parent the search goes on at the parent; but from a volume group that is larger than its
      listed parent, both sizes being positive, at the one physical volume of the group's size. */
  ghost predicate GoesOn(nodes: map<string, Node>, name: string, next: string) {
    name in nodes && nodes[name].parent != "" &&
    var n := nodes[name];
    if n.kind == "vg" && n.parent in nodes && 0 < nodes[n.parent].size < n.size
    then OnlyVolume(nodes, n.size, next)
    else next == n.parent
  }

  lemma VolumeIsOnly(nodes: map<string, Node>, size: int, pv: string)
    requires size > 0
    ensures UniquePV(nodes, size) == Some(pv) <==> OnlyVolume(nodes, size, pv)
  {
    var pvs := Volumes(nodes, size);
    assert forall k :: k in pvs <==> k in nodes && nodes[k].kind == "pv" && nodes[k].size == size;
    hide Volumes;
    if |pvs| == 1 {
      forall k, l | k in pvs && l in pvs ensures k == l {
        SingleMember(pvs, k, l);
      }
    }
    if OnlyVolume(nodes, size, pv) {
      assert pvs == {pv};
    }
  }

  lemma SingleMember(s: set<string>, k: string, l: string)
    requires |s| == 1 && k in s && l in s
    ensures k == l
  {
    if k != l {
      TwoMembers(s, k, l);
    }
  }

  lemma ListedNormal(nodes: map<string, Node>, name: string)
    requires KeyedByName(nodes) && name in nodes
    ensures name != "" && Normalize(name) == name && Normalize(nodes[name].parent) == nodes[name].parent
  {
    hide Normalize;
  }

  lemma StepGoesOn(nodes: map<string, Node>, name: string, next: string)
    requires KeyedByName(nodes)
    ensures GoesOn(nodes, name, next) <==> next != "" && Step(nodes, name) == next
  {
    hide KeyedByName, Normalize, UniquePV, OnlyVolume;
    if name in nodes {
      ListedNormal(nodes, name);
      if nodes[name].size > 0 {
        VolumeIsOnly(nodes, nodes[name].size, next);
        OnlyListed(nodes, nodes[name].size, next);
        PVListed(nodes, nodes[name].size);
      }
    }
  }

  lemma OnlyListed(nodes: map<string, Node>, size: int, pv: string)
    requires KeyedByName(nodes)
    ensures OnlyVolume(nodes, size, pv) ==> pv != "" && Normalize(pv) == pv
  {
    hide KeyedByName, Normalize;
    if OnlyVolume(nodes, size, pv) {
      ListedNormal(nodes, pv);
    }
  }

  lemma PVListed(nodes: map<string, Node>, size: int)
    requires KeyedByName(nodes)
    ensures var pv := UniquePV(nodes, size); pv.Some? ==> Normalize(pv.value) == pv.value
  {
    hide KeyedByName, Normalize;
    var pv := UniquePV(nodes, size);
    if pv.Some? {
      ListedNormal(nodes, pv.value);
    }
  }

  /** One step of the search, whatever was seen before. */
  lemma WalkRule(nodes: map<string, Node>, name: string, seen: set<string>)
    requires KeyedByName(nodes) && name != "" && name !in seen && Direct(name).None?
    ensures forall next :: GoesOn(nodes, name, next) ==> Walk(nodes, name, seen) == Walk(nodes, next, seen + {name})
    ensures (forall next :: !GoesOn(nodes, name, next)) ==> Walk(nodes, name, seen).None?
  {
    hide Direct, Step, GoesOn, KeyedByName;
    forall next ensures GoesOn(nodes, name, next) ==> Walk(nodes, name, seen) == Walk(nodes, next, seen + {name}) {
      StepGoesOn(nodes, name, next);
      if GoesOn(nodes, name, next) {
        WalkOn(nodes, name, seen);
      }
    }
    StepGoesOn(nodes, name, Step(nodes, name));
  }

  /** A way from node to node, of which only the last names a disk. */
  ghost predicate Way(nodes: map<string, Node>, path: seq<string>, d: string) {
    && path != [] && Direct(path[|path| - 1]) == Some(d)
    && forall i :: 0 <= i < |path| - 1 ==> Direct(path[i]).None? && GoesOn(nodes, path[i], path[i + 1])
  }

  /** The way from name leads to disk d. */
  ghost predicate LeadsTo(nodes: map<string, Node>, name: string, d: string) {
    exists path :: Way(nodes, path, d) && path[0] == name
  }

  lemma {:induction false} WayOrbit(nodes: map<string, Node>, path: seq<string>, d: string, i: nat)
    requires KeyedByName(nodes) && Way(nodes, path, d) && i < |path|
    ensures path[i] == Orbit(nodes, path[0], i)
  {
    hide Direct, Step, GoesOn, KeyedByName;
    if i > 0 {
      WayOrbit(nodes, path, d, i - 1);
      StepGoesOn(nodes, path[i - 1], path[i]);
    }
  }

  lemma {:induction false} EndedOrbit(nodes: map<string, Node>, name: string, i: nat, k: nat)
    requires i <= k && Orbit(nodes, name, i) == ""
    ensures Orbit(nodes, name, k) == ""
  {
    hide UniquePV, Misparented, Normalize;
    if i < k {
      EndedOrbit(nodes, name, i, k - 1);
    }
  }

  lemma OrbitGoesOn(nodes: map<string, Node>, name: string, k: nat, d: string, i: nat)
    requires KeyedByName(nodes) && Reaches(nodes, name, k, d) && i < k
    ensures GoesOn(nodes, Orbit(nodes, name, i), Orbit(nodes, name, i + 1))
  {
    hide Direct, Step, GoesOn, KeyedByName;
    DirectEmpty();
    if Orbit(nodes, name, i + 1) == "" {
      EndedOrbit(nodes, name, i + 1, k);
    }
    StepGoesOn(nodes, Orbit(nodes, name, i), Orbit(nodes, name, i + 1));
  }

  lemma ReachesLeads(nodes: map<string, Node>, name: string, k: nat, d: string)
    requires KeyedByName(nodes) && Reaches(nodes, name, k, d)
    ensures LeadsTo(nodes, name, d)
  {
    hide Direct, GoesOn, KeyedByName, Orbit;
    var path := seq(k + 1, i requires 0 <= i < k + 1 => Orbit(nodes, name, i));
    OrbitStart(nodes, name);
    forall i | 0 <= i < k ensures GoesOn(nodes, path[i], path[i + 1]) {
      OrbitGoesOn(nodes, name, k, d, i);
    }
    assert Way(nodes, path, d) && path[0] == name;
  }

  lemma LeadsReaches(nodes: map<string, Node>, path: seq<string>, d: string)
    requires KeyedByName(nodes) && Way(nodes, path, d)
    ensures Reaches(nodes, path[0], |path| - 1, d)
  {
    hide Direct, GoesOn, KeyedByName, Orbit;
    forall i | 0 <= i < |path| ensures path[i] == Orbit(nodes, path[0], i) {
      WayOrbit(nodes, path, d, i);
    }
  }

  /** The walk with nothing seen answers exactly the disk that the rule leads to, and nothing if there is none. */
  lemma WalkLeads(nodes: map<string, Node>, name: string)
    requires KeyedByName(nodes)
    ensures forall d :: Walk(nodes, name, {}) == Some(d) <==> LeadsTo(nodes, name, d)
  {
    hide Walk, Reaches, KeyedByName, Direct, GoesOn;
    forall d ensures Walk(nodes, name, {}) == Some(d) <==> LeadsTo(nodes, name, d) {
      WalkIsFirstDisk(nodes, name, d);
      if LeadsTo(nodes, name, d) {
        var path :| Way(nodes, path, d) && path[0] == name;
        LeadsReaches(nodes, path, d);
        ghost var k: nat := |path| - 1;
        assert Reaches(nodes, name, k, d);
      }
      if Walk(nodes, name, {}) == Some(d) {
        var k: nat :| Reaches(nodes, name, k, d);
        ReachesLeads(nodes, name, k, d);
      }
    }
  }

  // ---------- The recursion over a shared set ----------

  /** The seen map that the recursion shares and fills. */
  class SeenNames {
    var names: set<string>

    constructor ()
      ensures names == {}
    {
      names := {};
    }
  }

  /** resolveNodeDevice */
  method ResolveNodeDevice(name: string, nodes: map<string, Node>, seen: SeenNames) returns (r: Option<string>)
    requires KeyedByName(nodes)
    modifies seen
    ensures r == Walk(nodes, Normalize(name), old(seen.names))
    ensures old(seen.names) == {} ==> forall d :: r == Some(d) <==> LeadsTo(nodes, Normalize(name), d)
    decreases |nodes.Keys - seen.names|
  {
    WalkLeads(nodes, Normalize(name));
    hide Direct, Normalize, UniquePV, Misparented, KeyedByName, LeadsTo;
    var n := Normalize(name);
    if n == "" || n in seen.names {
      return None;
    }
    var device := DirectGuestDevice(n);
    if device.Some? {
      return device;
    }
    ghost var before := seen.names;
    seen.names := seen.names + {n};
    var next := NextNode(n, nodes);
    if next == "" {
      return None;
    }
    WalkOn(nodes, n, before);
    NormalStep(nodes, n);
    r := ResolveNodeDevice(next, nodes, seen);
  }

  lemma NormalStep(nodes: map<string, Node>, name: string)
    ensures Normalize(Step(nodes, name)) == Step(nodes, name)
  {
    hide Normalize;
    EmptyNormal();
    var raw := StepFrom(nodes, name);
    NormalizeTwice(raw);
    hide Step;
  }

  lemma StepFrom(nodes: map<string, Node>, name: string) returns (raw: string)
    ensures Step(nodes, name) == "" || Step(nodes, name) == Normalize(raw)
  {
    hide Normalize, UniquePV, Misparented;
    raw := "";
    if name in nodes {
      var pv := UniquePV(nodes, nodes[name].size);
      raw := if Misparented(nodes, nodes[name]) && pv.Some? then pv.value else nodes[name].parent;
    }
  }

  lemma EmptyNormal()
    ensures Normalize("") == ""
  {
  }

  /** The part of resolveNodeDevice that picks the next node. */
  method NextNode(name: string, nodes: map<string, Node>) returns (next: string)
    requires KeyedByName(nodes) && name != ""
    ensures next == Step(nodes, name)
  {
    hide Normalize, UniquePV;
    EmptyNormal();
    if name !in nodes || nodes[name].parent == "" {
      return "";
    }
    var node := nodes[name];
    if Misparented(nodes, node) {
      var replacement := UniqueSameSizePV(node.size, nodes);
      match replacement {
        case None => return "";
        case Some(k) => return Normalize(k);
      }
    }
    return Normalize(node.parent);
  }

  // ---------- File systems ----------

  /** resolveFilesystemDeviceParent: its candidates all have the name itself, so it is one walk. */
  method ResolveFilesystemDeviceParent(name: string, nodes: map<string, Node>) returns (r: Option<string>)
    requires KeyedByName(nodes)
    ensures r == Walk(nodes, Normalize(name), {})
  {
    hide Walk, Normalize, KeyedByName;
    var candidates: seq<string>, rest := [], nodes.Keys;
    while rest != {}
      invariant forall c :: c in candidates ==> c == name
      decreases rest
    {
      var k :| k in rest;
      rest := rest - {k};
      if k in nodes && nodes[k].name == name && nodes[k].kind != "filesystem" {
        candidates := candidates + [nodes[k].name];
      }
    }
    if |candidates| == 0 {
      var seen := new SeenNames();
      r := ResolveNodeDevice(name, nodes, seen);
      return;
    }
    var resolved := "";
    ghost var answer := Walk(nodes, Normalize(name), {});
    WalkNotEmpty(nodes, Normalize(name), {});
    for i := 0 to |candidates|
      invariant resolved == if i > 0 && answer.Some? then answer.value else ""
    {
      var seen := new SeenNames();
      assert candidates[i] in candidates;
      var device := ResolveNodeDevice(candidates[i], nodes, seen);
      if device.None? {
        continue;
      }
      if resolved != "" && resolved != device.value {
        return None;
      }
      resolved := device.value;
    }
    return if resolved != "" then Some(resolved) else None;
  }

  lemma {:induction false} WalkNotEmpty(nodes: map<string, Node>, name: string, seen: set<string>)
    ensures Walk(nodes, name, seen).Some? ==> Walk(nodes, name, seen).value != ""
    decreases |nodes.Keys - seen|
  {
    hide Direct, Step;
    if name != "" && name !in seen && Direct(name).None? && Step(nodes, name) != "" {
      WalkOn(nodes, name, seen);
      WalkNotEmpty(nodes, Step(nodes, name), seen + {name});
    }
  }

  /** resolveFilesystemDevice: one walk from the file system's own node, listed or not. */
  method ResolveFilesystemDevice(name: string, nodes: map<string, Node>) returns (r: Option<string>)
    requires KeyedByName(nodes)
    ensures r == Walk(nodes, Normalize(name), {})
    ensures forall d :: r == Some(d) <==> LeadsTo(nodes, Normalize(name), d)
  {
    hide Direct, Normalize, LeadsTo;
    WalkLeads(nodes, Normalize(name));
    var n := Normalize(name);
    NormalizeTwice(name);
    if n == "" {
      return None;
    }
    if n !in nodes {
      r := DirectGuestDevice(n);
      return;
    }
    var node := nodes[n];
    hide Walk;
    if node.kind == "filesystem" {
      r := ResolveFilesystemDeviceParent(node.name, nodes);
      if r.Some? {
        return;
      }
    }
    var seen := new SeenNames();
    r := ResolveNodeDevice(node.name, nodes, seen);
  }
}

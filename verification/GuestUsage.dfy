// How much of each disk a guest's file systems use: nothing is lost and nothing counted twice.
module GuestUsage {
  import opened Common
  import opened DiskNames
  import opened GuestFilesystem

  datatype Usage = Usage(name: string, bytes: nat)

  /** The disk target a file system counts for, if it leads to a known disk. */
  ghost function TargetOf(u: Usage, nodes: map<string, Node>, targets: map<string, string>): Option<string> {
    match Walk(nodes, Normalize(u.name), {})
    case None => None
    case Some(device) => if device in targets && targets[device] != "" then Some(targets[device]) else None
  }

  /** The bytes of the file systems that count for a target. */
  ghost function UsedOn(us: seq<Usage>, nodes: map<string, Node>, targets: map<string, string>, t: string): nat {
    if us == [] then 0
    else
      var u := us[|us| - 1];
      UsedOn(us[..|us| - 1], nodes, targets, t) + if TargetOf(u, nodes, targets) == Some(t) then u.bytes else 0
  }

  /** The bytes of the file systems that lead to any known disk. */
  ghost function Known(us: seq<Usage>, nodes: map<string, Node>, targets: map<string, string>): nat {
    if us == [] then 0
    else
      var u := us[|us| - 1];
      Known(us[..|us| - 1], nodes, targets) + if TargetOf(u, nodes, targets).Some? then u.bytes else 0
  }

  function Got(m: map<string, nat>, k: string): nat {
    if k in m then m[k] else 0
  }

  ghost function Sum(m: map<string, nat>): nat
    decreases |m|
  {
    if m == map[] then 0
    else
      var k :| k in m;
      Smaller(m, k);
      m[k] + Sum(m - {k})
  }

  lemma Smaller(m: map<string, nat>, k: string)
    requires k in m
    ensures |m - {k}| < |m|
  {
    assert (m - {k}).Keys == m.Keys - {k};
  }

  /** The sum does not depend on the order in which the entries are added. */
  lemma {:induction false} SumWithout(m: map<string, nat>, k: string)
    requires k in m
    ensures Sum(m) == m[k] + Sum(m - {k})
    decreases |m|
  {
    var first := SumFirst(m);
    if first != k {
      Smaller(m, first);
      SumWithout(m - {first}, k);
      Smaller(m, k);
      SumWithout(m - {k}, first);
      assert m - {first} - {k} == m - {k} - {first};
      hide Sum;
    }
  }

  lemma SumFirst(m: map<string, nat>) returns (k: string)
    requires m != map[]
    ensures k in m && Sum(m) == m[k] + Sum(m - {k})
  {
    k :| k in m && Sum(m) == m[k] + Sum(m - {k});
  }

  lemma SumUpdate(m: map<string, nat>, k: string, v: nat)
    ensures Sum(m[k := v]) == Sum(m) - Got(m, k) + v
  {
    SumWithout(m[k := v], k);
    assert m[k := v] - {k} == m - {k};
    if k in m {
      SumWithout(m, k);
    } else {
      assert m - {k} == m;
    }
    hide Sum;
  }

  predicate IsTargetOf(targets: map<string, string>, t: string) { t in targets.Values }

  /** The entries are the bytes counted for each target. */
  ghost predicate PerTarget(usage: map<string, nat>, us: seq<Usage>, nodes: map<string, Node>,
                            targets: map<string, string>) {
    && (forall t :: Got(usage, t) == UsedOn(us, nodes, targets, t))
    && (forall t :: t in usage ==> IsTargetOf(targets, t))
    && Sum(usage) == Known(us, nodes, targets)
  }

  lemma NothingUsed(nodes: map<string, Node>, targets: map<string, string>)
    ensures PerTarget(map[], [], nodes, targets)
  {
  }

  lemma CountOne(usage: map<string, nat>, us: seq<Usage>, i: nat, nodes: map<string, Node>,
                 targets: map<string, string>)
    requires i < |us| && PerTarget(usage, us[..i], nodes, targets)
    ensures match TargetOf(us[i], nodes, targets)
            case None => PerTarget(usage, us[..i + 1], nodes, targets)
            case Some(t) => PerTarget(usage[t := Got(usage, t) + us[i].bytes], us[..i + 1], nodes, targets)
  {
    hide *;
    NextUse(us, i, nodes, targets);
    var u := us[i];
    match TargetOf(u, nodes, targets)
    case None => CountNone(usage, us[..i], us[..i + 1], nodes, targets);
    case Some(t) =>
      IsTarget(u, nodes, targets);
      CountAt(usage, us[..i], us[..i + 1], nodes, targets, t, u.bytes);
  }

  lemma NextUse(us: seq<Usage>, i: nat, nodes: map<string, Node>, targets: map<string, string>)
    requires i < |us|
    ensures var u := us[i];
            && (forall t :: UsedOn(us[..i + 1], nodes, targets, t)
                         == UsedOn(us[..i], nodes, targets, t)
                            + if TargetOf(u, nodes, targets) == Some(t) then u.bytes else 0)
            && Known(us[..i + 1], nodes, targets)
              == Known(us[..i], nodes, targets) + if TargetOf(u, nodes, targets).Some? then u.bytes else 0
  {
    hide TargetOf;
    assert us[..i + 1][..i] == us[..i];
  }

  lemma CountNone(usage: map<string, nat>, us: seq<Usage>, more: seq<Usage>, nodes: map<string, Node>,
                  targets: map<string, string>)
    requires PerTarget(usage, us, nodes, targets)
    requires forall t :: UsedOn(more, nodes, targets, t) == UsedOn(us, nodes, targets, t)
    requires Known(more, nodes, targets) == Known(us, nodes, targets)
    ensures PerTarget(usage, more, nodes, targets)
  {
    hide UsedOn, Known, Sum, Got;
  }

  lemma CountAt(usage: map<string, nat>, us: seq<Usage>, more: seq<Usage>, nodes: map<string, Node>,
                targets: map<string, string>, target: string, bytes: nat)
    requires PerTarget(usage, us, nodes, targets) && IsTargetOf(targets, target)
    requires forall t ::
               UsedOn(more, nodes, targets, t) == UsedOn(us, nodes, targets, t) + if t == target then bytes else 0
    requires Known(more, nodes, targets) == Known(us, nodes, targets) + bytes
    ensures PerTarget(usage[target := Got(usage, target) + bytes], more, nodes, targets)
  {
    hide UsedOn, Known, Sum, IsTargetOf;
    var after := usage[target := Got(usage, target) + bytes];
    SumUpdate(usage, target, Got(usage, target) + bytes);
    assert Got(after, target) == UsedOn(more, nodes, targets, target);
    forall t | t != target ensures Got(after, t) == UsedOn(more, nodes, targets, t) {
      assert Got(after, t) == Got(usage, t);
    }
  }

  lemma IsTarget(u: Usage, nodes: map<string, Node>, targets: map<string, string>)
    ensures TargetOf(u, nodes, targets).Some? ==> IsTargetOf(targets, TargetOf(u, nodes, targets).value)
  {
    hide Walk, Normalize;
  }

  /** guestFilesystemUsageByDisk: per target what its file systems use, and in all exactly what the file
      systems that lead to a known disk use. */
  method UsageByDisk(filesystems: seq<Usage>, nodes: map<string, Node>, targets: map<string, string>)
    returns (usage: map<string, nat>)
    requires KeyedByName(nodes)
    ensures PerTarget(usage, filesystems, nodes, targets)
  {
    hide PerTarget, Walk, Normalize, KeyedByName;
    usage := map[];
    NothingUsed(nodes, targets);
    assert filesystems[..0] == [];
    for i := 0 to |filesystems|
      invariant PerTarget(usage, filesystems[..i], nodes, targets)
    {
      CountOne(usage, filesystems, i, nodes, targets);
      var device := ResolveFilesystemDevice(filesystems[i].name, nodes);
      if device.None? {
        continue;
      }
      if device.value !in targets || targets[device.value] == "" {
        continue;
      }
      var target := targets[device.value];
      usage := usage[target := Got(usage, target) + filesystems[i].bytes];
    }
    assert filesystems[..|filesystems|] == filesystems;
  }
}

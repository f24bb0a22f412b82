// CPU and memory of a running machine: updates that only expand.
module Hotplug {
  import opened Common

  /** The sizes in a machine's definition. */
  datatype Sizes = Sizes(currentCPU: int, maximumCPU: int, currentKiB: int, maximumKiB: int) {
    predicate Consistent() {
      currentCPU <= maximumCPU && 0 <= currentKiB <= maximumKiB
    }

    /** The sizes in MiB as they are read off the configuration, rounded down. */
    function CurrentMB(): int { currentKiB * 1024 / (1024 * 1024) }

    function MaximumMB(): int { maximumKiB * 1024 / (1024 * 1024) }
  }

  datatype Request = Request(currentCPU: int, maximumCPU: int, currentMB: int, maximumMB: int)

  /** Sizes that make sense on their own. */
  predicate Plausible(r: Request) {
    0 < r.currentCPU <= r.maximumCPU && 0 < r.currentMB <= r.maximumMB
  }

  /** Maxima as they are, current sizes no smaller than they are and no larger than the maxima. */
  predicate Expands(r: Request, s: Sizes) {
    && r.maximumCPU == s.maximumCPU && s.currentCPU <= r.currentCPU <= s.maximumCPU
    && r.maximumMB == s.MaximumMB() && s.CurrentMB() <= r.currentMB <= s.MaximumMB()
  }

  predicate Changes(r: Request, s: Sizes) {
    r.currentCPU != s.currentCPU || r.maximumCPU != s.maximumCPU || r.currentMB != s.CurrentMB()
      || r.maximumMB != s.MaximumMB()
  }

  /** validateVMConfigUpdate */
  method ValidateUpdate(r: Request) returns (ok: bool)
    ensures ok <==> Plausible(r)
  {
    if r.currentCPU <= 0 || r.maximumCPU <= 0 || r.currentCPU > r.maximumCPU {
      return false;
    }
    if r.currentMB <= 0 || r.maximumMB <= 0 || r.currentMB > r.maximumMB {
      return false;
    }
    return true;
  }

  /** validateRunningVMConfigExpansion */
  method ValidateExpansion(r: Request, s: Sizes) returns (ok: bool)
    ensures ok <==> Expands(r, s)
  {
    var current, maximum := s.currentKiB * 1024 / (1024 * 1024), s.maximumKiB * 1024 / (1024 * 1024);
    if r.maximumCPU != s.maximumCPU || r.currentCPU < s.currentCPU || r.currentCPU > s.maximumCPU {
      return false;
    }
    if r.maximumMB != maximum || r.currentMB < current || r.currentMB > maximum {
      return false;
    }
    return true;
  }

  /** What a request may leave, depending on which of the two commands work; they are run in order. */
  function After(s: Sizes, r: Request, cpuWorks: bool, memoryWorks: bool): Sizes {
    if !Plausible(r) || (Changes(r, s) && !Expands(r, s)) then s
    else
      var cpuOk := r.currentCPU == s.currentCPU || cpuWorks;
      var t := if cpuWorks then s.(currentCPU := r.currentCPU) else s;
      if cpuOk && memoryWorks && r.currentMB != s.CurrentMB() then t.(currentKiB := r.currentMB * 1024) else t
  }

  class Machine {
    var sizes: Sizes

    constructor (sizes: Sizes)
      ensures this.sizes == sizes
    {
      this.sizes := sizes;
    }

    /** virsh setvcpus --live --config */
    method SetCPUs(n: int, works: bool) returns (ok: bool)
      modifies this
      ensures ok == works && sizes == if works then old(sizes).(currentCPU := n) else old(sizes)
    {
      if works {
        sizes := sizes.(currentCPU := n);
      }
      ok := works;
    }

    /** virsh setmem --live --config */
    method SetMemory(kib: int, works: bool) returns (ok: bool)
      modifies this
      ensures ok == works && sizes == if works then old(sizes).(currentKiB := kib) else old(sizes)
    {
      if works {
        sizes := sizes.(currentKiB := kib);
      }
      ok := works;
    }

    /** The CPU and memory part of UpdateVMConfig on a running machine. */
    method UpdateRunning(r: Request, cpuWorks: bool, memoryWorks: bool) returns (result: Result<()>)
      modifies this
      ensures sizes == After(old(sizes), r, cpuWorks, memoryWorks)
      ensures result.Ok? <==> && Plausible(r) && (Changes(r, old(sizes)) ==> Expands(r, old(sizes)))
                              && (r.currentCPU != old(sizes).currentCPU ==> cpuWorks)
                              && (r.currentMB != old(sizes).CurrentMB() ==> memoryWorks)
    {
      var config := sizes;
      var valid := ValidateUpdate(r);
      if !valid {
        return Err("sizes are invalid");
      }
      if r.currentCPU != config.currentCPU || r.maximumCPU != config.maximumCPU || r.currentMB != config.CurrentMB()
         || r.maximumMB != config.MaximumMB() {
        var expands := ValidateExpansion(r, config);
        if !expands {
          return Err("live sizes can only expand");
        }
        if r.currentCPU != config.currentCPU {
          var ok := SetCPUs(r.currentCPU, cpuWorks);
          if !ok {
            return Err("command failed");
          }
        }
        if r.currentMB != config.CurrentMB() {
          var ok := SetMemory(r.currentMB * 1024, memoryWorks);
          if !ok {
            return Err("command failed");
          }
        }
      }
      return Ok(());
    }
  }

  /** One update, whatever fails: maxima stay, nothing shrinks, nothing exceeds its maximum. */
  lemma UpdateExpands(s: Sizes, r: Request, cpuWorks: bool, memoryWorks: bool)
    requires s.Consistent()
    ensures var t := After(s, r, cpuWorks, memoryWorks);
            && t.Consistent() && t.maximumCPU == s.maximumCPU && t.maximumKiB == s.maximumKiB
            && s.currentCPU <= t.currentCPU && s.currentKiB <= t.currentKiB
  {
    WholeMB(s.currentKiB);
    WholeMB(s.maximumKiB);
  }

  lemma WholeMB(kib: int)
    ensures var mb := kib * 1024 / (1024 * 1024); mb * 1024 <= kib < (mb + 1) * 1024
  {
  }

  /** A request with all commands working gives the CPUs asked for, and the memory asked for unless that is
      what the size already rounds down to. */
  lemma UpdateReaches(s: Sizes, r: Request)
    requires Plausible(r) && Expands(r, s)
    ensures var t := After(s, r, true, true); t.currentCPU == r.currentCPU && t.CurrentMB() == r.currentMB
  {
    WholeMB(s.currentKiB);
  }

  datatype Update = Update(request: Request, cpuWorks: bool, memoryWorks: bool)

  /** The sizes after each of the updates. */
  function Run(s: Sizes, updates: seq<Update>): (states: seq<Sizes>)
    ensures |states| == |updates| + 1 && states[0] == s
    decreases updates
  {
    if updates == [] then [s]
    else [s] + Run(After(s, updates[0].request, updates[0].cpuWorks, updates[0].memoryWorks), updates[1..])
  }

  ghost predicate NoLarger(s: Sizes, t: Sizes) {
    && t.maximumCPU == s.maximumCPU && t.maximumKiB == s.maximumKiB
    && s.currentCPU <= t.currentCPU && s.currentKiB <= t.currentKiB
  }

  /** Over any run of updates, accepted or not, failing or not. */
  lemma {:induction false} RunExpands(s: Sizes, updates: seq<Update>)
    requires s.Consistent()
    ensures forall i :: 0 <= i <= |updates| ==> Run(s, updates)[i].Consistent()
    ensures forall i, j :: 0 <= i <= j <= |updates| ==> NoLarger(Run(s, updates)[i], Run(s, updates)[j])
    decreases updates
  {
    if updates != [] {
      var u := updates[0];
      var t := After(s, u.request, u.cpuWorks, u.memoryWorks);
      UpdateExpands(s, u.request, u.cpuWorks, u.memoryWorks);
      hide After;
      RunExpands(t, updates[1..]);
      var states, rest := Run(s, updates), Run(t, updates[1..]);
      assert forall k :: 1 <= k <= |updates| ==> states[k] == rest[k - 1];
      assert rest[0] == t;
    }
  }
}

// The state of a host, the commands that may change it, what each does when it works and when it fails, and what
// comes of giving commands in order.
module Commands {
  import opened Common
  import opened Xml
  import opened DomainConfig

  /** What a host holds: a content for every file, a document for every domain. */
  datatype State = State(files: map<string, nat>, domains: map<string, Forest>)

  /** A command given to a host. A volume that is None is one that no pool can hold. */
  datatype Command =
    | List(volume: Option<string>)                       // list the volumes of a pool and look for this one
    | Create(volume: Option<string>, content: nat)       // virsh vol-create-as, vol-clone
    | Delete(path: string)                               // virsh vol-delete
    | Convert(source: string, target: string)            // qemu-img convert
    | Unlink(path: string)                               // os.Remove, rm -f
    | Send(path: string, content: nat, exact: bool)      // scp; a file in use is not sent exactly
    | Define(vm: string, doc: Forest, same: bool)        // virsh define; same: with the uuid of the domain
    | Undefine(vm: string)                               // virsh undefine
    | Stop(vm: string)                                   // virsh destroy
    | Reserve(path: string)                              // mkdir -p and test ! -e; pool-dumpxml and stat
    | Inspect(path: string)                              // qemu-img info: the format is one to write
    | Resize(path: string)                               // qemu-img resize
    | Adjust(vm: string)                                 // description, statistics, autostart, start

  /** How a command goes: whether it works, whether a failing one leaves a partial file, and what free
      content or definition there is to fill in. */
  datatype Choice = Choice(ok: bool, started: bool, content: nat, doc: Forest)

  type Choices = nat -> Choice

  /** The command reports success. */
  predicate Works(c: Choice, s: State, cmd: Command) {
    c.ok && match cmd
            case List(v) => v.Some? && v.value in s.files
            case Create(v, _) => v.Some? && v.value !in s.files
            case Delete(p) => p in s.files
            case Convert(p, q) => p in s.files && q !in s.files
            case Define(vm, _, same) => same || vm !in s.domains
            case Adjust(vm) => vm in s.domains
            case Reserve(p) => p !in s.files
            case _ => true
  }

  /** The state after the command. */
  function Effect(c: Choice, s: State, cmd: Command): State {
    match cmd
    case List(_) => s
    case Create(v, content) => if Works(c, s, cmd) then s.(files := s.files[v.value := content]) else s
    case Delete(p) => if Works(c, s, cmd) then s.(files := s.files - {p}) else s
    case Convert(p, q) =>
      if Works(c, s, cmd) then s.(files := s.files[q := s.files[p]])
      else if c.started && q !in s.files then s.(files := s.files[q := c.content])
      else s
    case Unlink(p) => if c.ok then s.(files := s.files - {p}) else s
    case Send(p, content, exact) =>
      if c.ok then s.(files := s.files[p := if exact then content else c.content])
      else if c.started then s.(files := s.files[p := c.content])
      else s
    case Define(vm, doc, _) => if Works(c, s, cmd) then s.(domains := s.domains[vm := doc]) else s
    case Undefine(vm) => if c.ok then s.(domains := s.domains - {vm}) else s
    case Stop(_) => s
    case Reserve(_) => s
    case Inspect(_) => s
    case Resize(_) => s
    case Adjust(vm) =>
      if Works(c, s, cmd) && ConfigDisks(c.doc) == ConfigDisks(s.domains[vm]) then s.(domains := s.domains[vm := c.doc])
        else s
  }

  /** A command that was given, and the state it left. */
  datatype Event = Event(command: Command, state: State)

  /** The state in front of the k-th event. */
  function Before(start: State, log: seq<Event>, k: nat): State
    requires k <= |log|
  {
    if k == 0 then start else log[k - 1].state
  }

  /** The k-th event has the effect its command must have, given how that command goes. */
  ghost predicate LegalAt(choices: Choices, start: State, log: seq<Event>, k: nat)
    requires k < |log|
  {
    log[k].state == Effect(choices(k), Before(start, log, k), log[k].command)
  }

  ghost predicate Legal(choices: Choices, start: State, log: seq<Event>) {
    forall k :: 0 <= k < |log| ==> LegalAt(choices, start, log, k)
  }

  lemma LegalStep(choices: Choices, start: State, log: seq<Event>, e: Event)
    requires Legal(choices, start, log) && e.state == Effect(choices(|log|), Before(start, log, |log|), e.command)
    ensures Legal(choices, start, log + [e]) && Before(start, log + [e], |log| + 1) == e.state
  {
    forall k | 0 <= k <= |log| ensures LegalAt(choices, start, log + [e], k) {
      LegalWith(choices, start, log, e, k);
    }
    hide Effect, LegalAt;
  }

  lemma LegalWith(choices: Choices, start: State, log: seq<Event>, e: Event, k: nat)
    requires k <= |log| && if k < |log| then LegalAt(choices, start, log, k)
               else e.state == Effect(choices(k), Before(start, log, k), e.command)
    ensures LegalAt(choices, start, log + [e], k)
  {
    hide Effect;
    assert Before(start, log + [e], k) == Before(start, log, k);
  }

  /** No command from there on fails by its own. */
  ghost predicate Smooth(choices: Choices, log: seq<Event>, from: nat) {
    forall k :: from <= k < |log| ==> choices(k).ok
  }

  lemma SmoothJoin(choices: Choices, before: seq<Event>, log: seq<Event>, from: nat)
    requires before <= log && from <= |before|
    ensures Smooth(choices, log, from) <==> Smooth(choices, before, from) && Smooth(choices, log, |before|)
    ensures Smooth(choices, before, |before|)
  {
  }

  /** From there on the log has these commands in a row. */
  ghost predicate Gives(log: seq<Event>, at: nat, cmds: seq<Command>) {
    at + |cmds| <= |log| && forall i :: 0 <= i < |cmds| ==> log[at + i].command == cmds[i]
  }

  lemma GivesMore(before: seq<Event>, log: seq<Event>, at: nat, cmds: seq<Command>, cmd: Command)
    requires before <= log && Gives(before, at, cmds) && |before| == at + |cmds|
    requires |log| > |before| && log[|before|].command == cmd
    ensures Gives(log, at, cmds + [cmd])
  {
  }

  /** A command in front of a row of commands. */
  lemma GivesFirst(log: seq<Event>, at: nat, cmd: Command, cmds: seq<Command>)
    requires at < |log| && log[at].command == cmd && Gives(log, at + 1, cmds)
    ensures Gives(log, at, [cmd] + cmds)
  {
  }

  lemma GivesLonger(before: seq<Event>, log: seq<Event>, at: nat, cmds: seq<Command>)
    requires before <= log && Gives(before, at, cmds)
    ensures Gives(log, at, cmds)
  {
  }

  // ---------- Giving commands in order ----------

  /** What comes of giving commands in order: the events, and whether all commands worked. */
  datatype Execution = Execution(events: seq<Event>, done: bool)

  /** The state behind the events. */
  function Behind(s: State, events: seq<Event>): State { Before(s, events, |events|) }

  /** The commands are given one after the other until one does not work. */
  function Execute(choices: Choices, at: nat, s: State, cmds: seq<Command>): (x: Execution)
    ensures |x.events| <= |cmds| && (x.done ==> |x.events| == |cmds|)
  {
    if cmds == [] then Execution([], true)
    else Further(choices, at, s, Execute(choices, at, s, cmds[..|cmds| - 1]), cmds[|cmds| - 1])
  }

  /** One command more, if all others have worked. */
  function Further(choices: Choices, at: nat, s: State, x: Execution, cmd: Command): (y: Execution)
    ensures |y.events| <= |x.events| + 1 && (y.done ==> x.done && |y.events| == |x.events| + 1)
  {
    if !x.done then x
    else
      var c, t := choices(at + |x.events|), Behind(s, x.events);
      Execution(x.events + [Event(cmd, Effect(c, t, cmd))], Works(c, t, cmd))
  }

  /** All of these commands work. */
  predicate Done(choices: Choices, at: nat, s: State, cmds: seq<Command>) {
    Execute(choices, at, s, cmds).done
  }

  /** From the first log to the second exactly these commands were given. */
  ghost predicate Ran(choices: Choices, s: State, before: seq<Event>, now: State, log: seq<Event>, cmds: seq<Command>) {
    var x := Execute(choices, |before|, s, cmds);
    log == before + x.events && now == Behind(s, x.events)
  }

  lemma ExecuteMore(choices: Choices, at: nat, s: State, cmds: seq<Command>, cmd: Command)
    ensures Execute(choices, at, s, cmds + [cmd]) == Further(choices, at, s, Execute(choices, at, s, cmds), cmd)
  {
    hide Further;
    assert (cmds + [cmd])[..|cmds|] == cmds;
  }

  lemma {:induction false} ExecuteJoin(choices: Choices, at: nat, s: State, cmds: seq<Command>, more: seq<Command>)
    ensures var x := Execute(choices, at, s, cmds);
            var y := Execute(choices, at + |x.events|, Behind(s, x.events), more);
            && Execute(choices, at, s, cmds + more) == (if x.done then Execution(x.events + y.events, y.done) else x)
            && (x.done ==> Behind(s, x.events + y.events) == Behind(Behind(s, x.events), y.events))
  {
    hide Effect, Works, Execute;
    if more == [] {
      assert cmds + more == cmds;
      ExecuteNothing(choices, at, s);
      ExecuteNothing(choices, at + |Execute(choices, at, s, cmds).events|,
                     Behind(s, Execute(choices, at, s, cmds).events));
    } else {
      var n := |more| - 1;
      ExecuteJoin(choices, at, s, cmds, more[..n]);
      assert cmds + more == (cmds + more[..n]) + [more[n]] && more == more[..n] + [more[n]];
      ExecuteMore(choices, at, s, cmds + more[..n], more[n]);
      var x := Execute(choices, at, s, cmds);
      ExecuteMore(choices, at + |x.events|, Behind(s, x.events), more[..n], more[n]);
    }
  }

  lemma FurtherDone(choices: Choices, at: nat, s: State, x: Execution, cmd: Command)
    requires x.done
    ensures var c, t := choices(at + |x.events|), Behind(s, x.events);
            Further(choices, at, s, x, cmd) == Execution(x.events + [Event(cmd, Effect(c, t, cmd))], Works(c, t, cmd))
  {
    hide Effect, Works;
  }

  lemma FurtherStuck(choices: Choices, at: nat, s: State, x: Execution, cmd: Command)
    ensures !x.done ==> Further(choices, at, s, x, cmd) == x
  {
    hide Effect, Works;
  }

  lemma ExecuteNothing(choices: Choices, at: nat, s: State)
    ensures Execute(choices, at, s, []) == Execution([], true)
  {
  }

  lemma ExecuteOne(choices: Choices, at: nat, s: State, cmd: Command)
    ensures var c := choices(at);
            Execute(choices, at, s, [cmd]) == Execution([Event(cmd, Effect(c, s, cmd))], Works(c, s, cmd))
  {
    ExecuteMore(choices, at, s, [], cmd);
    hide Effect, Works;
    assert [] + [cmd] == [cmd];
  }

  /** The second of two commands is given only if the first one works. */
  lemma ExecuteTwo(choices: Choices, at: nat, s: State, cmd: Command, next: Command)
    ensures var c, e := choices(at), Event(cmd, Effect(choices(at), s, cmd));
            Execute(choices, at, s, [cmd, next]) ==
              if !Works(c, s, cmd) then Execution([e], false)
              else Execution([e, Event(next, Effect(choices(at + 1), e.state, next))],
                             Works(choices(at + 1), e.state, next))
  {
    ExecuteOne(choices, at, s, cmd);
    ExecuteMore(choices, at, s, [cmd], next);
    hide Effect, Works, Execute;
    assert [cmd] + [next] == [cmd, next];
  }

  lemma RanStart(choices: Choices, s: State, log: seq<Event>)
    ensures Ran(choices, s, log, s, log, []) && Done(choices, |log|, s, [])
  {
  }

  lemma RanEvents(choices: Choices, s: State, before: seq<Event>, now: State, log: seq<Event>, cmds: seq<Command>)
    requires Ran(choices, s, before, now, log, cmds)
    ensures before <= log && log[|before|..] == Execute(choices, |before|, s, cmds).events
    ensures now == Behind(s, Execute(choices, |before|, s, cmds).events)
    ensures Done(choices, |before|, s, cmds) == Execute(choices, |before|, s, cmds).done
  {
    hide Execute, Behind;
  }

  /** One command more. */
  lemma RanOne(choices: Choices, s: State, before: seq<Event>, mid: State, log: seq<Event>, now: State,
               cmds: seq<Command>, cmd: Command)
    requires Ran(choices, s, before, mid, log, cmds) && Done(choices, |before|, s, cmds)
    requires now == Effect(choices(|log|), mid, cmd)
    ensures Ran(choices, s, before, now, log + [Event(cmd, now)], cmds + [cmd])
    ensures Done(choices, |before|, s, cmds + [cmd]) <==> Works(choices(|log|), mid, cmd)
  {
    ExecuteMore(choices, |before|, s, cmds, cmd);
    EndMore(s, Execute(choices, |before|, s, cmds).events, Event(cmd, now));
    hide Effect, Works, Execute, Behind;
  }

  lemma EndMore(s: State, events: seq<Event>, e: Event)
    ensures Behind(s, events + [e]) == e.state && Behind(s, []) == s
  {
  }

  lemma Associate(a: seq<Event>, b: seq<Event>, c: seq<Event>)
    ensures a + (b + c) == (a + b) + c
  {
  }

  /** Two runs in a row. */
  lemma RanJoin(choices: Choices, s: State, before: seq<Event>, mid: State, log: seq<Event>, now: State,
                after: seq<Event>, cmds: seq<Command>, more: seq<Command>)
    requires Ran(choices, s, before, mid, log, cmds) && Done(choices, |before|, s, cmds)
    requires Ran(choices, mid, log, now, after, more)
    ensures Ran(choices, s, before, now, after, cmds + more)
    ensures Done(choices, |before|, s, cmds + more) <==> Done(choices, |log|, mid, more)
  {
    hide Execute, Behind;
    ExecuteJoin(choices, |before|, s, cmds, more);
    var x, y := Execute(choices, |before|, s, cmds), Execute(choices, |log|, mid, more);
    assert |log| == |before| + |x.events|;
    Associate(before, x.events, y.events);
  }

  /** A run that did not get through does not go on. */
  lemma RanStuck(choices: Choices, s: State, before: seq<Event>, now: State, log: seq<Event>, cmds: seq<Command>,
                 more: seq<Command>)
    requires Ran(choices, s, before, now, log, cmds) && !Done(choices, |before|, s, cmds)
    ensures Ran(choices, s, before, now, log, cmds + more) && !Done(choices, |before|, s, cmds + more)
  {
    ExecuteJoin(choices, |before|, s, cmds, more);
    hide Execute, Behind;
  }

  /** The events are those of a host that starts there. */
  lemma {:induction false} ExecutedLegal(choices: Choices, s: State, cmds: seq<Command>)
    ensures Legal(choices, s, Execute(choices, 0, s, cmds).events)
  {
    hide Effect, Works, Legal, Before;
    if cmds == [] {
      LegalNothing(choices, s);
    } else {
      var n := |cmds| - 1;
      ExecutedLegal(choices, s, cmds[..n]);
      var x := Execute(choices, 0, s, cmds[..n]);
      if x.done {
        LegalStep(choices, s, x.events, Event(cmds[n], Effect(choices(|x.events|), Behind(s, x.events), cmds[n])));
      }
    }
  }

  lemma LegalNothing(choices: Choices, s: State)
    ensures Legal(choices, s, [])
  {
  }

  // ---------- Programs that may end early ----------

  /** Commands to give, and whether the checks behind them let the program go on. */
  datatype Step = Step(cmds: seq<Command>, go: bool)

  predicate AllGo(steps: seq<Step>) { forall i :: 0 <= i < |steps| ==> steps[i].go }

  /** The commands of the steps up to the first one that does not go on. */
  function Plan(steps: seq<Step>): seq<Command> {
    if steps == [] then []
    else
      var n := |steps| - 1;
      if AllGo(steps[..n]) then Plan(steps[..n]) + steps[n].cmds else Plan(steps[..n])
  }

  /** The first i steps were gone through: every command worked and every check let go on. */
  ghost predicate Through(choices: Choices, s: State, before: seq<Event>, now: State, log: seq<Event>,
                          steps: seq<Step>, i: nat)
    requires i <= |steps|
  {
    && AllGo(steps[..i]) && Ran(choices, s, before, now, log, Plan(steps[..i]))
    && Done(choices, |before|, s, Plan(steps[..i]))
  }

  lemma PlanNext(steps: seq<Step>, i: nat)
    requires i < |steps| && AllGo(steps[..i])
    ensures Plan(steps[..i + 1]) == Plan(steps[..i]) + steps[i].cmds
    ensures AllGo(steps[..i + 1]) <==> steps[i].go
  {
    assert steps[..i + 1][..i] == steps[..i];
  }

  /** A part of the steps gives a part of the commands, all of them if it does not go on. */
  lemma {:induction false} PlanPart(steps: seq<Step>, i: nat) returns (more: seq<Command>)
    requires i <= |steps|
    ensures Plan(steps) == Plan(steps[..i]) + more
    ensures !AllGo(steps[..i]) ==> more == []
  {
    more := [];
    if i == |steps| {
      assert steps[..i] == steps;
    } else {
      var n := |steps| - 1;
      assert steps[..n][..i] == steps[..i];
      var rest := PlanPart(steps[..n], i);
      more := if AllGo(steps[..n]) then rest + steps[n].cmds else rest;
    }
  }

  lemma ThroughStart(choices: Choices, s: State, log: seq<Event>, steps: seq<Step>)
    ensures Through(choices, s, log, s, log, steps, 0)
  {
    RanStart(choices, s, log);
    assert steps[..0] == [];
    hide Ran, Done;
  }

  lemma ThroughAll(choices: Choices, s: State, before: seq<Event>, now: State, log: seq<Event>, steps: seq<Step>)
    requires Through(choices, s, before, now, log, steps, |steps|)
    ensures Ran(choices, s, before, now, log, Plan(steps)) && AllGo(steps) && Done(choices, |before|, s, Plan(steps))
  {
    hide Ran, Done;
    assert steps[..|steps|] == steps;
  }

  /** One step more, or the end of the program. */
  lemma StepTaken(choices: Choices, s: State, before: seq<Event>, mid: State, log: seq<Event>, now: State,
                  after: seq<Event>, steps: seq<Step>, i: nat)
    requires i < |steps| && Through(choices, s, before, mid, log, steps, i)
    requires Ran(choices, mid, log, now, after, steps[i].cmds)
    ensures Done(choices, |log|, mid, steps[i].cmds) && steps[i].go ==>
              Through(choices, s, before, now, after, steps, i + 1)
    ensures !(Done(choices, |log|, mid, steps[i].cmds) && steps[i].go) ==>
              Ran(choices, s, before, now, after, Plan(steps))
                && !(AllGo(steps) && Done(choices, |before|, s, Plan(steps)))
  {
    hide Ran, Done, Plan, AllGo;
    PlanNext(steps, i);
    RanJoin(choices, s, before, mid, log, now, after, Plan(steps[..i]), steps[i].cmds);
    var more := PlanPart(steps, i + 1);
    PartGoes(steps, i + 1);
    if !Done(choices, |before|, s, Plan(steps[..i + 1])) {
      RanStuck(choices, s, before, now, after, Plan(steps[..i + 1]), more);
    } else if !AllGo(steps[..i + 1]) {
      assert Plan(steps[..i + 1]) + [] == Plan(steps[..i + 1]);
    }
  }

  lemma PartGoes(steps: seq<Step>, i: nat)
    requires i <= |steps|
    ensures AllGo(steps) ==> AllGo(steps[..i])
  {
  }
}

/** The upgrade command: any number of processes contend for one lock file, and the holder upgrades
    its components one after the other, one system call at a time. */
module Upgrade {
  import opened Wrappers
  import opened Disk
  import opened Component
  import opened CrashSafety

  datatype Part = Edgi | K3s | Kernel

  /** One value for each component of the destination. */
  datatype PerPart<T> = PerPart(edgi: T, k3s: T, kernel: T) {
    function Get(x: Part): T {
      match x case Edgi => edgi case K3s => k3s case Kernel => kernel
    }
    function Put(x: Part, t: T): PerPart<T> {
      match x case Edgi => this.(edgi := t) case K3s => this.(k3s := t) case Kernel => this.(kernel := t)
    }
  }

  /** The options of one invocation, and what its environment does to each component's upgrade. */
  datatype Plan = Plan(wanted: PerPart<bool>, calls: PerPart<Call>, remount: bool, reboot: bool)

  function Wanted(plan: Plan, x: Part): seq<Part> { if plan.wanted.Get(x) then [x] else [] }

  function Todo(plan: Plan): seq<Part> {
    Wanted(plan, Edgi) + (Wanted(plan, K3s) + Wanted(plan, Kernel))
  }

  type Pid = nat

  datatype Stage =
    | Starting
    | Between(todo: seq<Part>)
    | Copying(part: Part, todo: seq<Part>, call: Call, local: Local)
    | Finished(rebooted: bool)
    | Dead

  datatype Process = Process(plan: Plan, stage: Stage, remount: bool, copied: bool)

  // An upgrade of one component by one process, cut after so many calls.
  datatype Cut = Cut(pid: Pid, part: Part, call: Call, steps: nat)

  /** The shared state. The log is only there to talk about: it lists the upgrades begun so far. */
  datatype System = System(lock: Option<Pid>, dst: PerPart<Entries>, procs: map<Pid, Process>, log: seq<Cut>)

  datatype Action = Turn(pid: Pid) | Crash(pid: Pid)

  predicate Holding(stage: Stage) { stage.Between? || stage.Copying? }

  function Update(s: System, p: Pid, proc: Process): System {
    s.(procs := s.procs[p := proc])
  }

  /** One step of process `p`: take the lock or give up, begin a component, make one system call,
      note a component's outcome, or release the lock. */
  function TakeTurn(s: System, p: Pid): System
    requires p in s.procs
  {
    var proc := s.procs[p];
    match proc.stage
    case Starting =>
      if s.lock.Some? then Update(s, p, proc.(stage := Dead))
      else Update(s, p, proc.(stage := Between(Todo(proc.plan)))).(lock := Some(p))
    case Between(todo) =>
      if todo == [] then
        Update(s, p, proc.(stage := Finished(proc.copied && proc.plan.reboot))).(lock := None)
      else
        var call := proc.plan.calls.Get(todo[0]).(remount := proc.remount);
        Update(s, p, proc.(stage := Copying(todo[0], todo[1..], call, START)))
          .(log := s.log + [Cut(p, todo[0], call, 0)])
    case Copying(x, todo, call, local) =>
      if local.pc.Done? then
        var copied := local.outcome.Copied?;
        Update(s, p, proc.(stage := Between(todo), copied := proc.copied || copied,
                           remount := proc.remount && !copied))
      else
        var (l, d) := Step(call, local, s.dst.Get(x));
        Update(s, p, proc.(stage := Copying(x, todo, call, l)))
          .(dst := s.dst.Put(x, d), log := Longer(s.log))
    case Finished(_) => s
    case Dead => s
  }

  /** The last upgrade in the log has made one more call. */
  function Longer(log: seq<Cut>): seq<Cut> {
    if log == [] then log
    else var last := log[|log| - 1]; log[..|log| - 1] + [last.(steps := last.steps + 1)]
  }

  /** A process that dies releases its lock; its deferred calls do not run. */
  function Kill(s: System, p: Pid): System
    requires p in s.procs
  {
    Update(s, p, s.procs[p].(stage := Dead)).(lock := if s.lock == Some(p) then None else s.lock)
  }

  function Exec(s: System, a: Action): System {
    if a.pid !in s.procs then s
    else match a case Turn(p) => TakeTurn(s, p) case Crash(p) => Kill(s, p)
  }

  function Behave(s: System, actions: seq<Action>): System {
    if actions == [] then s
    else Exec(Behave(s, actions[..|actions| - 1]), actions[|actions| - 1])
  }

  ghost predicate Initial(s: System) {
    && s.lock == None && s.log == []
    && forall p <- s.procs :: var q := s.procs[p]; q.stage.Starting? && !q.copied && q.remount == q.plan.remount
  }

  // ---------- serial executions ----------

  /** The destination after running the logged upgrades one after the other, each up to its cut. */
  function Replay(dst: PerPart<Entries>, log: seq<Cut>): PerPart<Entries> {
    if log == [] then dst
    else
      var last, before := log[|log| - 1], Replay(dst, log[..|log| - 1]);
      before.Put(last.part, At(last.call, before.Get(last.part), last.steps).1)
  }

  /** Process `p` has completed an upgrade in the log that reported a copy. */
  predicate CopiedBy(dst: PerPart<Entries>, log: seq<Cut>, p: Pid) {
    log != [] &&
    var last, before := log[|log| - 1], log[..|log| - 1];
    || CopiedBy(dst, before, p)
    || (last.pid == p
        && At(last.call, Replay(dst, before).Get(last.part), last.steps).0.outcome.Copied?
        && At(last.call, Replay(dst, before).Get(last.part), last.steps).0.pc.Done?)
  }

  ghost predicate ProcessOk(s: System, dst: PerPart<Entries>, p: Pid)
    requires p in s.procs
  {
    var proc := s.procs[p];
    && (Holding(proc.stage) ==> s.lock == Some(p))
    && (!proc.stage.Dead? ==> proc.remount == (proc.plan.remount && !proc.copied))
    && match proc.stage
       case Starting => !proc.copied && !CopiedBy(dst, s.log, p)
       case Between(_) => proc.copied == CopiedBy(dst, s.log, p)
       case Copying(x, _, call, local) =>
         && s.log != []
         && var last, before := s.log[|s.log| - 1], s.log[..|s.log| - 1];
         && last.pid == p && last.part == x && last.call == call
         && local == At(call, Replay(dst, before).Get(x), last.steps).0
         && proc.copied == CopiedBy(dst, before, p)
       case Finished(r) => r == (proc.plan.reboot && CopiedBy(dst, s.log, p))
       case Dead => true
  }

  ghost predicate SystemOk(s: System, dst: PerPart<Entries>) {
    && s.dst == Replay(dst, s.log)
    && (s.lock.Some? ==> s.lock.value in s.procs && Holding(s.procs[s.lock.value].stage))
    && forall p <- s.procs :: ProcessOk(s, dst, p)
  }

  /** An upgrade that has only begun has copied nothing and changed nothing. */
  lemma BegunCut(dst: PerPart<Entries>, log: seq<Cut>, cut: Cut)
    requires cut.steps == 0
    ensures Replay(dst, log + [cut]) == Replay(dst, log)
    ensures forall q: Pid :: CopiedBy(dst, log + [cut], q) == CopiedBy(dst, log, q)
  {
    assert (log + [cut])[..|log|] == log;
  }

  lemma BeginKeeps(s: System, dst: PerPart<Entries>, p: Pid)
    requires SystemOk(s, dst) && p in s.procs && s.procs[p].stage.Between? && s.procs[p].stage.todo != []
    ensures SystemOk(TakeTurn(s, p), dst)
  {
    var t, proc := TakeTurn(s, p), s.procs[p];
    var x := proc.stage.todo[0];
    var cut := Cut(p, x, proc.plan.calls.Get(x).(remount := proc.remount), 0);
    assert t.log == s.log + [cut] && t.log[..|s.log|] == s.log;
    BegunCut(dst, s.log, cut);
    assert ProcessOk(s, dst, p);
    forall q <- t.procs ensures ProcessOk(t, dst, q) {
      assert q in s.procs && ProcessOk(s, dst, q);
    }
  }

  lemma LockKeeps(s: System, dst: PerPart<Entries>, p: Pid)
    requires SystemOk(s, dst) && p in s.procs && !s.procs[p].stage.Copying?
    requires s.procs[p].stage.Between? ==> s.procs[p].stage.todo == []
    ensures SystemOk(TakeTurn(s, p), dst)
  {
    var t := TakeTurn(s, p);
    assert t.log == s.log && ProcessOk(s, dst, p);
    forall q <- t.procs ensures ProcessOk(t, dst, q) {
      assert q in s.procs && ProcessOk(s, dst, q);
    }
  }

  lemma CallKeeps(s: System, dst: PerPart<Entries>, p: Pid)
    requires SystemOk(s, dst) && p in s.procs && s.procs[p].stage.Copying?
    ensures SystemOk(TakeTurn(s, p), dst)
  {
    var t := TakeTurn(s, p);
    assert ProcessOk(s, dst, p);
    if !s.procs[p].stage.local.pc.Done? {
      assert t.log[..|t.log| - 1] == s.log[..|s.log| - 1];
    }
    forall q <- t.procs ensures ProcessOk(t, dst, q) {
      assert q in s.procs && ProcessOk(s, dst, q);
    }
  }

  lemma TurnKeeps(s: System, dst: PerPart<Entries>, p: Pid)
    requires SystemOk(s, dst) && p in s.procs
    ensures SystemOk(TakeTurn(s, p), dst)
  {
    if s.procs[p].stage.Copying? {
      CallKeeps(s, dst, p);
    } else if s.procs[p].stage.Between? && s.procs[p].stage.todo != [] {
      BeginKeeps(s, dst, p);
    } else {
      LockKeeps(s, dst, p);
    }
  }

  lemma KillKeeps(s: System, dst: PerPart<Entries>, p: Pid)
    requires SystemOk(s, dst) && p in s.procs
    ensures SystemOk(Kill(s, p), dst)
  {
    var t := Kill(s, p);
    forall q <- t.procs ensures ProcessOk(t, dst, q) {
      assert ProcessOk(s, dst, q);
    }
  }

  lemma {:induction false} BehaviourOk(s0: System, actions: seq<Action>)
    requires Initial(s0)
    ensures SystemOk(Behave(s0, actions), s0.dst)
  {
    if actions != [] {
      var init, a := actions[..|actions| - 1], actions[|actions| - 1];
      BehaviourOk(s0, init);
      var s := Behave(s0, init);
      if a.pid in s.procs {
        match a {
          case Turn(p) => TurnKeeps(s, s0.dst, p);
          case Crash(p) => KillKeeps(s, s0.dst, p);
        }
      }
    } else {
      forall p <- s0.procs ensures ProcessOk(s0, s0.dst, p) {
      }
    }
  }

  /** At no time do two processes stand between taking and releasing the lock. */
  lemma MutualExclusion(s0: System, actions: seq<Action>, p: Pid, q: Pid)
    requires Initial(s0)
    requires var s := Behave(s0, actions);
             p in s.procs && q in s.procs && Holding(s.procs[p].stage) && Holding(s.procs[q].stage)
    ensures p == q
  {
    BehaviourOk(s0, actions);
    var s := Behave(s0, actions);
    assert ProcessOk(s, s0.dst, p) && ProcessOk(s, s0.dst, q);
  }

  /** The lock is taken exactly while its process stands there: it is never left behind. */
  lemma LockExact(s0: System, actions: seq<Action>, p: Pid)
    requires Initial(s0)
    ensures var s := Behave(s0, actions);
      s.lock == Some(p) <==> p in s.procs && Holding(s.procs[p].stage)
  {
    BehaviourOk(s0, actions);
    var s := Behave(s0, actions);
    assert p in s.procs ==> ProcessOk(s, s0.dst, p);
  }

  /** Every reachable state of the disk is one that some list of upgrades leaves when they run one
      after the other, each to its end or up to where it was cut off; a finished process asked for
      the reboot exactly when it was told to and one of its own upgrades had copied something. */
  lemma Serializable(s0: System, actions: seq<Action>)
    requires Initial(s0)
    ensures var s := Behave(s0, actions);
      && s.dst == Replay(s0.dst, s.log)
      && forall p <- s.procs | s.procs[p].stage.Finished? ::
           s.procs[p].stage.rebooted == (s.procs[p].plan.reboot && CopiedBy(s0.dst, s.log, p))
  {
    BehaviourOk(s0, actions);
    var s := Behave(s0, actions);
    forall p <- s.procs | s.procs[p].stage.Finished?
      ensures s.procs[p].stage.rebooted == (s.procs[p].plan.reboot && CopiedBy(s0.dst, s.log, p))
    {
      assert ProcessOk(s, s0.dst, p);
    }
  }

  // ---------- current stays valid ----------

  /** An upgrade whose look-up of the destination's version does not fail by itself, or cannot do harm
      by failing because of what is in the directory. */
  predicate Seeing(c: Call, d: Entries) {
    && GoodCall(c)
    && (StatDst in c.fails && SourceVersion(c.src).Some? && CURRENT in d && d[CURRENT].Link? ==>
          Shielded(d, d[CURRENT].target, SourceVersion(c.src).value))
  }

  /** Every upgrade of the component in the log was such a one when it began. */
  ghost predicate LogSeeing(dst: PerPart<Entries>, log: seq<Cut>, x: Part) {
    log != [] ==>
      var last, before := log[|log| - 1], log[..|log| - 1];
      LogSeeing(dst, before, x) && (last.part == x ==> Seeing(last.call, Replay(dst, before).Get(x)))
  }

  /** The version was current at the start, or it is what one of the logged upgrades offered. */
  ghost predicate Offered(log: seq<Cut>, x: Part, a: Name, na: Node, v: Name, n: Node) {
    || (v == a && n == na)
    || exists cut <- log :: cut.part == x && SourceVersion(cut.call.src) == Some(v)
                            && v in cut.call.src && cut.call.src[v] == n
  }

  /** `current` names the version from the start, unchanged, or a complete copy of an offered one. */
  ghost predicate Valid(d: Entries, log: seq<Cut>, x: Part, a: Name, na: Node) {
    exists v, n :: Live(d, v, n) && Offered(log, x, a, na, v, n)
  }

  lemma CutKeepsValid(d: Entries, log: seq<Cut>, last: Cut, x: Part, a: Name, na: Node)
    requires Valid(d, log, x, a, na) && (last.part == x ==> Seeing(last.call, d))
    ensures Valid(if last.part == x then At(last.call, d, last.steps).1 else d, log + [last], x, a, na)
  {
    var v, n :| Live(d, v, n) && Offered(log, x, a, na, v, n);
    assert Offered(log + [last], x, a, na, v, n);
    if last.part == x {
      CrashSafe(last.call, d, v, n, last.steps);
      var after := At(last.call, d, last.steps).1;
      if !Live(after, v, n) {
        var b := SourceVersion(last.call.src).value;
        assert last in log + [last];
        assert Live(after, b, last.call.src[b]) && Offered(log + [last], x, a, na, b, last.call.src[b]);
      }
    }
  }

  lemma {:induction false} ReplayLive(dst: PerPart<Entries>, log: seq<Cut>, x: Part, a: Name, na: Node)
    requires Live(dst.Get(x), a, na) && LogSeeing(dst, log, x)
    ensures Valid(Replay(dst, log).Get(x), log, x, a, na)
  {
    if log == [] {
      assert Offered(log, x, a, na, a, na);
    } else {
      var last, before := log[|log| - 1], log[..|log| - 1];
      ReplayLive(dst, before, x, a, na);
      assert log == before + [last];
      CutKeepsValid(Replay(dst, before).Get(x), before, last, x, a, na);
    }
  }

  /** However many processes run, fail and die, the component's `current` is valid at every moment, as
      long as no upgrade was blind to the version it found. */
  lemma CurrentAlwaysValid(s0: System, actions: seq<Action>, x: Part, a: Name, na: Node)
    requires Initial(s0) && Live(s0.dst.Get(x), a, na)
    requires LogSeeing(s0.dst, Behave(s0, actions).log, x)
    ensures var s := Behave(s0, actions); Valid(s.dst.Get(x), s.log, x, a, na)
  {
    BehaviourOk(s0, actions);
    ReplayLive(s0.dst, Behave(s0, actions).log, x, a, na);
  }

  /** What the next upgrade of the component may leave, whatever fails and wherever it is cut off. */
  ghost predicate NextAlwaysValid(dst: PerPart<Entries>, log: seq<Cut>, x: Part, a: Name, na: Node,
                                  src: Entries, temp: Name)
  {
    forall cut: Cut | cut.part == x && cut.call.src == src && cut.call.temp == temp ::
      Valid(Replay(dst, log + [cut]).Get(x), log + [cut], x, a, na)
  }

  lemma ReplayOneMore(dst: PerPart<Entries>, log: seq<Cut>, cut: Cut)
    ensures Replay(dst, log + [cut]).Get(cut.part) ==
            At(cut.call, Replay(dst, log).Get(cut.part), cut.steps).1
  {
    assert (log + [cut])[..|log|] == log;
  }

  /** Exactly when that is needed: after any log, the next upgrade keeps `current` valid under every
      choice of failing calls if and only if it offers another version than the live one, or a left-over
      entry stops it. */
  lemma NextValidExact(dst: PerPart<Entries>, log: seq<Cut>, x: Part, a: Name, na: Node, v: Name, n: Node,
                       src: Entries, temp: Name, b: Name)
    requires Live(Replay(dst, log).Get(x), v, n) && Offered(log, x, a, na, v, n)
    requires SourceVersion(src) == Some(b) && src[b].Dir? && !Reserved(b) && IsTempName(temp, b)
    requires temp !in Replay(dst, log).Get(x)
    ensures NextAlwaysValid(dst, log, x, a, na, src, temp) <==>
            var d := Replay(dst, log).Get(x); v != b || CURRENT_TMP in d || OldName(b) in d
  {
    var d := Replay(dst, log).Get(x);
    if Shielded(d, v, b) {
      forall cut: Cut | cut.part == x && cut.call.src == src && cut.call.temp == temp
        ensures Valid(Replay(dst, log + [cut]).Get(x), log + [cut], x, a, na)
      {
        ReplayOneMore(dst, log, cut);
        CutKeepsValid(d, log, cut, x, a, na);
      }
    } else {
      var c := Call(src, false, {StatDst}, temp, n, map[]);
      var cut := Cut(0, x, c, 7);
      IgnoredFailureBreaksCurrent(src, d, temp, v, n);
      ReplayOneMore(dst, log, cut);
      assert !Valid(Replay(dst, log + [cut]).Get(x), log + [cut], x, a, na);
    }
  }

  // ---------- when no look-up fails by itself ----------

  predicate Sound(c: Call) { GoodCall(c) && StatDst !in c.fails }

  predicate SoundPlan(plan: Plan) { Sound(plan.calls.edgi) && Sound(plan.calls.k3s) && Sound(plan.calls.kernel) }

  ghost predicate PlansSound(s: System) { forall p :: p in s.procs ==> SoundPlan(s.procs[p].plan) }

  ghost predicate LogSound(log: seq<Cut>) { forall cut <- log :: Sound(cut.call) }

  lemma CallSound(plan: Plan, x: Part, remount: bool)
    requires SoundPlan(plan)
    ensures Sound(plan.calls.Get(x).(remount := remount))
  {
    assert Sound(plan.calls.Get(x));
  }

  lemma LongerSound(log: seq<Cut>)
    requires LogSound(log)
    ensures LogSound(Longer(log))
  {
    forall cut <- Longer(log) ensures Sound(cut.call) {
      if cut !in log {
        assert log[|log| - 1] in log && cut.call == log[|log| - 1].call;
      }
    }
  }

  lemma ExecPlans(s: System, a: Action, p: Pid)
    ensures p in Exec(s, a).procs <==> p in s.procs
    ensures p in s.procs ==> Exec(s, a).procs[p].plan == s.procs[p].plan
  {
  }

  lemma ExecLog(s: System, a: Action)
    requires PlansSound(s) && LogSound(s.log)
    ensures LogSound(Exec(s, a).log)
  {
    if a.Turn? && a.pid in s.procs {
      var proc := s.procs[a.pid];
      if proc.stage.Between? && proc.stage.todo != [] {
        CallSound(proc.plan, proc.stage.todo[0], proc.remount);
      }
      LongerSound(s.log);
    }
  }

  lemma {:induction false} BehaviourSound(s0: System, actions: seq<Action>)
    requires Initial(s0) && PlansSound(s0)
    ensures PlansSound(Behave(s0, actions)) && LogSound(Behave(s0, actions).log)
  {
    if actions != [] {
      var s, a := Behave(s0, actions[..|actions| - 1]), actions[|actions| - 1];
      BehaviourSound(s0, actions[..|actions| - 1]);
      ExecLog(s, a);
      forall p | p in Behave(s0, actions).procs ensures SoundPlan(Behave(s0, actions).procs[p].plan) {
        ExecPlans(s, a, p);
      }
    }
  }

  lemma {:induction false} SoundSeeing(dst: PerPart<Entries>, log: seq<Cut>, x: Part)
    requires LogSound(log)
    ensures LogSeeing(dst, log, x)
  {
    if log != [] {
      SoundSeeing(dst, log[..|log| - 1], x);
      assert log[|log| - 1] in log;
    }
  }

  /** So it is valid at every moment when no plan's look-up fails by itself. */
  lemma SoundAlwaysValid(s0: System, actions: seq<Action>, x: Part, a: Name, na: Node)
    requires Initial(s0) && PlansSound(s0) && Live(s0.dst.Get(x), a, na)
    ensures var s := Behave(s0, actions); Valid(s.dst.Get(x), s.log, x, a, na)
  {
    BehaviourSound(s0, actions);
    SoundSeeing(s0.dst, Behave(s0, actions).log, x);
    CurrentAlwaysValid(s0, actions, x, a, na);
  }

  // ---------- one invocation on its own ----------

  /** The components still to do, each upgraded to the end: the destination, the remount flag and
      whether anything was copied. */
  function RunParts(plan: Plan, todo: seq<Part>, dst: PerPart<Entries>, remount: bool, copied: bool)
    : (PerPart<Entries>, bool, bool)
  {
    if todo == [] then (dst, remount, copied)
    else
      var x := todo[0];
      var call := plan.calls.Get(x).(remount := remount);
      var done := Result(call, dst.Get(x)).Copied?;
      RunParts(plan, todo[1..], dst.Put(x, After(call, dst.Get(x))), remount && !done, copied || done)
  }

  lemma RunWanted(plan: Plan, x: Part, rest: seq<Part>, dst: PerPart<Entries>, remount: bool, copied: bool)
    ensures RunParts(plan, Wanted(plan, x) + rest, dst, remount, copied) ==
            var call := plan.calls.Get(x).(remount := remount);
            var done := Result(call, dst.Get(x)).Copied?;
            if !plan.wanted.Get(x) then RunParts(plan, rest, dst, remount, copied)
            else RunParts(plan, rest, dst.Put(x, After(call, dst.Get(x))), remount && !done, copied || done)
  {
    assert plan.wanted.Get(x) ==> (Wanted(plan, x) + rest)[1..] == rest;
    assert !plan.wanted.Get(x) ==> Wanted(plan, x) + rest == rest;
  }

  lemma {:induction false} ReplaySplit(dst: PerPart<Entries>, log: seq<Cut>, more: seq<Cut>)
    ensures Replay(dst, log + more) == Replay(Replay(dst, log), more)
    ensures forall p: Pid ::
      CopiedBy(dst, log + more, p) == (CopiedBy(dst, log, p) || CopiedBy(Replay(dst, log), more, p))
  {
    if more == [] {
      assert log + more == log;
    } else {
      ReplaySplit(dst, log, more[..|more| - 1]);
      assert (log + more)[..|log + more| - 1] == log + more[..|more| - 1];
    }
  }

  lemma OneCut(dst: PerPart<Entries>, p: Pid, x: Part, call: Call)
    ensures var log := [Cut(p, x, call, LAST)];
      && Replay(dst, log) == dst.Put(x, After(call, dst.Get(x)))
      && CopiedBy(dst, log, p) == Result(call, dst.Get(x)).Copied?
  {
    var log := [Cut(p, x, call, LAST)];
    assert log[..0] == [];
    RunEnds(call, dst.Get(x), LAST);
  }

  /** An uncontended invocation is the serial execution of its whole upgrades; it keeps asking for
      the remount until one of them copies, and knows whether one did. */
  lemma {:induction false} RunIsSerial(plan: Plan, todo: seq<Part>, dst: PerPart<Entries>, remount: bool,
                                       copied: bool, p: Pid)
    returns (log: seq<Cut>)
    requires remount == (plan.remount && !copied)
    ensures var r := RunParts(plan, todo, dst, remount, copied);
      && |log| == |todo|
      && (forall i :: 0 <= i < |log| ==> log[i].pid == p && log[i].part == todo[i] && log[i].steps == LAST)
      && r.0 == Replay(dst, log)
      && r.2 == (copied || CopiedBy(dst, log, p))
      && r.1 == (plan.remount && !r.2)
  {
    log := [];
    if todo != [] {
      var x := todo[0];
      var call := plan.calls.Get(x).(remount := remount);
      var done := Result(call, dst.Get(x)).Copied?;
      var next := dst.Put(x, After(call, dst.Get(x)));
      var rest := RunIsSerial(plan, todo[1..], next, remount && !done, copied || done, p);
      var first := [Cut(p, x, call, LAST)];
      OneCut(dst, p, x, call);
      ReplaySplit(dst, first, rest);
      log := first + rest;
    }
  }

  /** The command: `doRemount` is a package variable that a successful copy turns off. */
  class Command {
    var doRemount: bool

    constructor (remount: bool)
      ensures doRemount == remount
    {
      doRemount := remount;
    }

    method UpgradePart(dst: Directory, call: Call) returns (copied: bool)
      modifies this, dst
      ensures var c := call.(remount := old(doRemount));
        && dst.entries == After(c, old(dst.entries))
        && copied == Result(c, old(dst.entries)).Copied?
        && doRemount == (old(doRemount) && !copied)
    {
      var outcome, _ := CopyComponent(dst, call.(remount := doRemount));
      copied := outcome.Copied?;
      if copied {
        doRemount := false;
      }
    }

    /** Run, from the attempt to take the lock to the decision to reboot: with the lock free, each wanted
        component is upgraded by its own call, which asks for the remount unless an earlier one copied. */
    method Run(plan: Plan, lockFree: bool, edgi: Directory, k3s: Directory, kernel: Directory)
      returns (reboot: bool)
      requires edgi != k3s && k3s != kernel && edgi != kernel
      modifies this, edgi, k3s, kernel
      ensures !lockFree ==>
        unchanged(edgi) && unchanged(k3s) && unchanged(kernel) && unchanged(this) && !reboot
      ensures lockFree ==>
        var callE := plan.calls.edgi.(remount := old(doRemount));
        var copiedE := plan.wanted.edgi && Result(callE, old(edgi.entries)).Copied?;
        var callK := plan.calls.k3s.(remount := old(doRemount) && !copiedE);
        var copiedK := plan.wanted.k3s && Result(callK, old(k3s.entries)).Copied?;
        var callL := plan.calls.kernel.(remount := old(doRemount) && !copiedE && !copiedK);
        var copiedL := plan.wanted.kernel && Result(callL, old(kernel.entries)).Copied?;
        && edgi.entries == (if plan.wanted.edgi then After(callE, old(edgi.entries)) else old(edgi.entries))
        && k3s.entries == (if plan.wanted.k3s then After(callK, old(k3s.entries)) else old(k3s.entries))
        && kernel.entries == (if plan.wanted.kernel then After(callL, old(kernel.entries)) else old(kernel.entries))
        && doRemount == (old(doRemount) && !copiedE && !copiedK && !copiedL)
        && reboot == (plan.reboot && (copiedE || copiedK || copiedL))
    {
      if !lockFree {
        return false;
      }
      var copied := RunComponents(plan, edgi, k3s, kernel);
      reboot := copied && plan.reboot;
    }

    /** The three components, each only when asked for. */
    method RunComponents(plan: Plan, edgi: Directory, k3s: Directory, kernel: Directory) returns (copied: bool)
      requires edgi != k3s && k3s != kernel && edgi != kernel
      modifies this, edgi, k3s, kernel
      ensures
        var callE := plan.calls.edgi.(remount := old(doRemount));
        var copiedE := plan.wanted.edgi && Result(callE, old(edgi.entries)).Copied?;
        var callK := plan.calls.k3s.(remount := old(doRemount) && !copiedE);
        var copiedK := plan.wanted.k3s && Result(callK, old(k3s.entries)).Copied?;
        var callL := plan.calls.kernel.(remount := old(doRemount) && !copiedE && !copiedK);
        var copiedL := plan.wanted.kernel && Result(callL, old(kernel.entries)).Copied?;
        && edgi.entries == (if plan.wanted.edgi then After(callE, old(edgi.entries)) else old(edgi.entries))
        && k3s.entries == (if plan.wanted.k3s then After(callK, old(k3s.entries)) else old(k3s.entries))
        && kernel.entries == (if plan.wanted.kernel then After(callL, old(kernel.entries)) else old(kernel.entries))
        && doRemount == (old(doRemount) && !copiedE && !copiedK && !copiedL)
        && copied == (copiedE || copiedK || copiedL)
    {
      var copiedEdgi, copiedK3s, copiedKernel := false, false, false;
      if plan.wanted.edgi {
        copiedEdgi := UpgradePart(edgi, plan.calls.edgi);
      }
      if plan.wanted.k3s {
        copiedK3s := UpgradePart(k3s, plan.calls.k3s);
      }
      if plan.wanted.kernel {
        copiedKernel := UpgradePart(kernel, plan.calls.kernel);
      }
      copied := copiedEdgi || copiedK3s || copiedKernel;
    }
  }

  /** The same list of upgrades as in the reachable states: what the command does to the three
      directories is what running the wanted components in order does. */
  lemma RunSpelled(plan: Plan, dst: PerPart<Entries>, remount: bool)
    ensures
      var callE := plan.calls.edgi.(remount := remount);
      var copiedE := plan.wanted.edgi && Result(callE, dst.edgi).Copied?;
      var callK := plan.calls.k3s.(remount := remount && !copiedE);
      var copiedK := plan.wanted.k3s && Result(callK, dst.k3s).Copied?;
      var callL := plan.calls.kernel.(remount := remount && !copiedE && !copiedK);
      var copiedL := plan.wanted.kernel && Result(callL, dst.kernel).Copied?;
      RunParts(plan, Todo(plan), dst, remount, false) ==
        (PerPart(if plan.wanted.edgi then After(callE, dst.edgi) else dst.edgi,
                 if plan.wanted.k3s then After(callK, dst.k3s) else dst.k3s,
                 if plan.wanted.kernel then After(callL, dst.kernel) else dst.kernel),
         remount && !copiedE && !copiedK && !copiedL, copiedE || copiedK || copiedL)
  {
    var copiedE := plan.wanted.edgi && Result(plan.calls.edgi.(remount := remount), dst.edgi).Copied?;
    var next := if plan.wanted.edgi
                then dst.Put(Edgi, After(plan.calls.edgi.(remount := remount), dst.edgi)) else dst;
    RunWanted(plan, Edgi, Wanted(plan, K3s) + Wanted(plan, Kernel), dst, remount, false);
    RunLastTwo(plan, next, remount && !copiedE, copiedE);
  }

  lemma RunLastTwo(plan: Plan, dst: PerPart<Entries>, remount: bool, copied: bool)
    ensures
      var callK := plan.calls.k3s.(remount := remount);
      var copiedK := plan.wanted.k3s && Result(callK, dst.k3s).Copied?;
      var callL := plan.calls.kernel.(remount := remount && !copiedK);
      var copiedL := plan.wanted.kernel && Result(callL, dst.kernel).Copied?;
      RunParts(plan, Wanted(plan, K3s) + Wanted(plan, Kernel), dst, remount, copied) ==
        (PerPart(dst.edgi, if plan.wanted.k3s then After(callK, dst.k3s) else dst.k3s,
                 if plan.wanted.kernel then After(callL, dst.kernel) else dst.kernel),
         remount && !copiedK && !copiedL, copied || copiedK || copiedL)
  {
    var callK := plan.calls.k3s.(remount := remount);
    var copiedK := plan.wanted.k3s && Result(callK, dst.k3s).Copied?;
    var next := if plan.wanted.k3s then dst.Put(K3s, After(callK, dst.k3s)) else dst;
    RunWanted(plan, K3s, Wanted(plan, Kernel), dst, remount, copied);
    RunWanted(plan, Kernel, [], next, remount && !copiedK, copied || copiedK);
    assert Wanted(plan, Kernel) + [] == Wanted(plan, Kernel);
  }
}

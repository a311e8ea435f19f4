/** What a finished upgrade command has done, in every state that any number of processes can reach. */
module Completion {
  import opened Wrappers
  import opened Disk
  import opened Component
  import opened Upgrade

  /** The components that process `p` has begun to upgrade, in order. */
  function Begun(log: seq<Cut>, p: Pid): seq<Part> {
    if log == [] then []
    else
      var last := log[|log| - 1];
      Begun(log[..|log| - 1], p) + (if last.pid == p then [last.part] else [])
  }

  /** An upgrade that the plan asks for, with the remount still to be done if none of the process's own
      upgrades before it copied. */
  predicate AsPlanned(dst: PerPart<Entries>, before: seq<Cut>, cut: Cut, plan: Plan) {
    cut.call == plan.calls.Get(cut.part).(remount := plan.remount && !CopiedBy(dst, before, cut.pid))
  }

  /** It has come to its end. */
  predicate Ended(dst: PerPart<Entries>, before: seq<Cut>, cut: Cut) {
    At(cut.call, Replay(dst, before).Get(cut.part), cut.steps).0.pc.Done?
  }

  predicate AllEnded(dst: PerPart<Entries>, log: seq<Cut>, plan: Plan, p: Pid) {
    log != [] ==>
      var last, before := log[|log| - 1], log[..|log| - 1];
      && AllEnded(dst, before, plan, p)
      && (last.pid == p ==> AsPlanned(dst, before, last, plan) && Ended(dst, before, last))
  }

  ghost predicate WorkOk(s: System, dst: PerPart<Entries>, p: Pid)
    requires p in s.procs
  {
    var plan := s.procs[p].plan;
    match s.procs[p].stage
    case Starting => Begun(s.log, p) == [] && AllEnded(dst, s.log, plan, p)
    case Between(todo) => Begun(s.log, p) + todo == Todo(plan) && AllEnded(dst, s.log, plan, p)
    case Copying(_, todo, _, _) =>
      && s.log != [] && Begun(s.log, p) + todo == Todo(plan)
      && var last, before := s.log[|s.log| - 1], s.log[..|s.log| - 1];
      && AsPlanned(dst, before, last, plan) && AllEnded(dst, before, plan, p)
    case Finished(_) => Begun(s.log, p) == Todo(plan) && AllEnded(dst, s.log, plan, p)
    case Dead => true
  }

  ghost predicate AllWorkOk(s: System, dst: PerPart<Entries>) { forall p <- s.procs :: WorkOk(s, dst, p) }

  lemma OneMore(dst: PerPart<Entries>, log: seq<Cut>, cut: Cut, plan: Plan, p: Pid)
    ensures Begun(log + [cut], p) == Begun(log, p) + (if cut.pid == p then [cut.part] else [])
    ensures AllEnded(dst, log + [cut], plan, p) <==>
            && AllEnded(dst, log, plan, p)
            && (cut.pid == p ==> AsPlanned(dst, log, cut, plan) && Ended(dst, log, cut))
  {
    assert (log + [cut])[..|log|] == log;
  }

  /** The log grows, at its end, by what the process at work does: it begins an upgrade or continues it. */
  lemma LogGrows(s: System, dst: PerPart<Entries>, p: Pid)
    requires SystemOk(s, dst) && p in s.procs
    ensures var t, stage := TakeTurn(s, p), s.procs[p].stage;
      if stage.Between? && stage.todo != [] then
        t.log == s.log + [Cut(p, stage.todo[0],
                              s.procs[p].plan.calls.Get(stage.todo[0]).(remount := s.procs[p].remount), 0)]
      else if stage.Copying? && !stage.local.pc.Done? then
        s.log != [] &&
        var last, before := s.log[|s.log| - 1], s.log[..|s.log| - 1];
        last.pid == p && s.log == before + [last] && t.log == before + [last.(steps := last.steps + 1)]
      else t.log == s.log
  {
    assert ProcessOk(s, dst, p);
  }

  /** The upgrades of one process in the log do not change by a step of another. */
  lemma OthersLog(s: System, dst: PerPart<Entries>, p: Pid, q: Pid, plan: Plan)
    requires SystemOk(s, dst) && p in s.procs && p != q
    ensures Begun(TakeTurn(s, p).log, q) == Begun(s.log, q)
    ensures AllEnded(dst, TakeTurn(s, p).log, plan, q) <==> AllEnded(dst, s.log, plan, q)
  {
    var log, log' := s.log, TakeTurn(s, p).log;
    LogGrows(s, dst, p);
    if log' != log {
      var before, last := log'[..|log'| - 1], log'[|log'| - 1];
      assert log' == before + [last] && last.pid == p;
      OneMore(dst, before, last, plan, q);
      if s.procs[p].stage.Copying? {
        OneMore(dst, before, log[|log| - 1], plan, q);
      } else {
        assert before == log;
      }
    }
  }

  /** A step of another process changes nothing about this one's upgrades. */
  lemma OthersKeep(s: System, dst: PerPart<Entries>, p: Pid, q: Pid)
    requires SystemOk(s, dst) && p in s.procs && q in s.procs && p != q && WorkOk(s, dst, q)
    ensures WorkOk(TakeTurn(s, p), dst, q)
  {
    assert ProcessOk(s, dst, p) && ProcessOk(s, dst, q);
    OthersLog(s, dst, p, q, s.procs[q].plan);
    LogGrows(s, dst, p);
  }

  lemma BeginsNext(s: System, dst: PerPart<Entries>, p: Pid)
    requires SystemOk(s, dst) && p in s.procs && WorkOk(s, dst, p)
    requires s.procs[p].stage.Between? && s.procs[p].stage.todo != []
    ensures WorkOk(TakeTurn(s, p), dst, p)
  {
    var t, todo := TakeTurn(s, p), s.procs[p].stage.todo;
    assert ProcessOk(s, dst, p);
    LogGrows(s, dst, p);
    var cut := t.log[|s.log|];
    assert t.log[..|t.log| - 1] == s.log;
    OneMore(dst, s.log, cut, s.procs[p].plan, p);
    assert Begun(t.log, p) + todo[1..] == Begun(s.log, p) + todo;
  }

  lemma Continues(s: System, dst: PerPart<Entries>, p: Pid)
    requires SystemOk(s, dst) && p in s.procs && WorkOk(s, dst, p) && s.procs[p].stage.Copying?
    ensures WorkOk(TakeTurn(s, p), dst, p)
  {
    var t, plan, stage := TakeTurn(s, p), s.procs[p].plan, s.procs[p].stage;
    assert ProcessOk(s, dst, p);
    LogGrows(s, dst, p);
    var last, before := s.log[|s.log| - 1], s.log[..|s.log| - 1];
    assert s.log == before + [last];
    OneMore(dst, before, last, plan, p);
    if !stage.local.pc.Done? {
      var longer := last.(steps := last.steps + 1);
      assert t.log == before + [longer] && t.log[..|t.log| - 1] == before;
      OneMore(dst, before, longer, plan, p);
    }
  }

  lemma OwnTurn(s: System, dst: PerPart<Entries>, p: Pid)
    requires SystemOk(s, dst) && p in s.procs && WorkOk(s, dst, p)
    ensures WorkOk(TakeTurn(s, p), dst, p)
  {
    var stage := s.procs[p].stage;
    if stage.Copying? {
      Continues(s, dst, p);
    } else if stage.Between? && stage.todo != [] {
      BeginsNext(s, dst, p);
    } else {
      LogGrows(s, dst, p);
    }
  }

  lemma ActionKeeps(s: System, dst: PerPart<Entries>, a: Action, q: Pid)
    requires SystemOk(s, dst) && q in s.procs && WorkOk(s, dst, q)
    ensures WorkOk(Exec(s, a), dst, q)
  {
    if a.pid in s.procs && a.Turn? {
      if q != a.pid {
        OthersKeep(s, dst, a.pid, q);
      } else {
        OwnTurn(s, dst, q);
      }
    }
  }

  lemma {:induction false} BehaviourWorks(s0: System, actions: seq<Action>, p: Pid)
    requires Initial(s0) && p in s0.procs
    ensures p in Behave(s0, actions).procs && WorkOk(Behave(s0, actions), s0.dst, p)
  {
    if actions != [] {
      var init, a := actions[..|actions| - 1], actions[|actions| - 1];
      BehaviourWorks(s0, init, p);
      BehaviourOk(s0, init);
      ActionKeeps(Behave(s0, init), s0.dst, a, p);
    }
  }

  lemma {:induction false} EachEnded(dst: PerPart<Entries>, log: seq<Cut>, plan: Plan, p: Pid, i: nat)
    requires AllEnded(dst, log, plan, p) && i < |log| && log[i].pid == p
    ensures AsPlanned(dst, log[..i], log[i], plan) && Ended(dst, log[..i], log[i])
  {
    if i < |log| - 1 {
      EachEnded(dst, log[..|log| - 1], plan, p, i);
      assert log[..|log| - 1][..i] == log[..i];
    }
  }

  lemma {:induction false} SameProcesses(s0: System, actions: seq<Action>, p: Pid)
    ensures p in Behave(s0, actions).procs <==> p in s0.procs
  {
    if actions != [] {
      SameProcesses(s0, actions[..|actions| - 1], p);
    }
  }

  /** However the processes interleave, fail and die: a finished one has begun exactly the components
      that were asked for, in the order edgi, k3s, kernel, and each of them ran to its end, by the
      plan's own call and with the remount exactly as long as none before it had copied. */
  lemma FinishedRanAll(s0: System, actions: seq<Action>, p: Pid)
    requires Initial(s0)
    requires var s := Behave(s0, actions); p in s.procs && s.procs[p].stage.Finished?
    ensures
      var s := Behave(s0, actions);
      var log, plan := s.log, s.procs[p].plan;
      && Begun(log, p) == (if plan.wanted.edgi then [Edgi] else []) + (if plan.wanted.k3s then [K3s] else [])
                          + (if plan.wanted.kernel then [Kernel] else [])
      && forall i | 0 <= i < |log| && log[i].pid == p ::
           var before, x := log[..i], log[i].part;
           && log[i].call == plan.calls.Get(x).(remount := plan.remount && !CopiedBy(s0.dst, before, p))
           && At(log[i].call, Replay(s0.dst, before).Get(x), log[i].steps).0.pc.Done?
  {
    SameProcesses(s0, actions, p);
    BehaviourWorks(s0, actions, p);
    var s := Behave(s0, actions);
    var plan := s.procs[p].plan;
    assert WorkOk(s, s0.dst, p);
    forall i | 0 <= i < |s.log| && s.log[i].pid == p
      ensures AsPlanned(s0.dst, s.log[..i], s.log[i], plan) && Ended(s0.dst, s.log[..i], s.log[i])
    {
      EachEnded(s0.dst, s.log, plan, p, i);
    }
  }

  // ---------- it does finish ----------

  /** How many turns a process that holds the lock still needs, at most. */
  function Left(s: System, p: Pid): int
    requires p in s.procs
  {
    match s.procs[p].stage
    case Between(todo) => 20 * |todo| + 1
    case Copying(_, todo, _, _) => 20 * |todo| + 2 + LAST - (if s.log == [] then 0 else s.log[|s.log| - 1].steps)
    case _ => 0
  }

  ghost predicate UnderWay(s: System, p: Pid) {
    && p in s.procs && Holding(s.procs[p].stage)
    && (s.procs[p].stage.Copying? ==> s.log != [] && s.log[|s.log| - 1].steps <= LAST)
  }

  lemma OwnTurnCounts(s: System, dst: PerPart<Entries>, p: Pid)
    requires SystemOk(s, dst) && UnderWay(s, p)
    ensures var t := TakeTurn(s, p);
      t.procs[p].stage.Finished? || (UnderWay(t, p) && Left(t, p) < Left(s, p))
  {
    assert ProcessOk(s, dst, p);
    LogGrows(s, dst, p);
    var stage := s.procs[p].stage;
    if stage.Copying? {
      var last, before := s.log[|s.log| - 1], s.log[..|s.log| - 1];
      if last.steps == LAST {
        RunEnds(stage.call, Replay(dst, before).Get(stage.part), last.steps);
      }
    }
  }

  lemma OthersTurnsDoNot(s: System, dst: PerPart<Entries>, a: Action, p: Pid)
    requires SystemOk(s, dst) && UnderWay(s, p) && a.pid != p
    ensures UnderWay(Exec(s, a), p) && Left(Exec(s, a), p) == Left(s, p)
  {
    if a.pid in s.procs && a.Turn? {
      assert ProcessOk(s, dst, p) && ProcessOk(s, dst, a.pid);
      LogGrows(s, dst, a.pid);
    }
  }

  /** Finished, or on the way with at most so many turns still to make. */
  ghost predicate WithinTurns(s: System, p: Pid, n: int) {
    p in s.procs && (s.procs[p].stage.Finished? || (UnderWay(s, p) && Left(s, p) <= n))
  }

  lemma OneStep(s: System, dst: PerPart<Entries>, a: Action, p: Pid, n: int)
    requires SystemOk(s, dst) && WithinTurns(s, p, n) && a != Crash(p)
    ensures WithinTurns(Exec(s, a), p, if a == Turn(p) then n - 1 else n)
  {
    if !s.procs[p].stage.Finished? {
      if a == Turn(p) {
        OwnTurnCounts(s, dst, p);
      } else {
        OthersTurnsDoNot(s, dst, a, p);
      }
    }
  }

  lemma {:induction false} KeepsGoing(s0: System, actions: seq<Action>, p: Pid, more: seq<Action>, n: int)
    requires Initial(s0) && WithinTurns(Behave(s0, actions), p, n) && Crash(p) !in more
    ensures WithinTurns(Behave(s0, actions + more), p, n - multiset(more)[Turn(p)])
  {
    if more == [] {
      assert actions + more == actions;
    } else {
      var init, a := more[..|more| - 1], more[|more| - 1];
      assert (actions + more)[..|actions + more| - 1] == actions + init && more == init + [a];
      assert a in more;
      KeepsGoing(s0, actions, p, init, n);
      BehaviourOk(s0, actions + init);
      OneStep(Behave(s0, actions + init), s0.dst, a, p, n - multiset(init)[Turn(p)]);
    }
  }

  ghost predicate GivenUp(s: System, p: Pid) {
    p in s.procs && s.procs[p].stage.Dead? && Begun(s.log, p) == []
  }

  lemma GivenUpStays(s: System, dst: PerPart<Entries>, a: Action, p: Pid)
    requires SystemOk(s, dst) && GivenUp(s, p)
    ensures GivenUp(Exec(s, a), p)
  {
    if a.pid in s.procs && a.Turn? && a.pid != p {
      OthersLog(s, dst, a.pid, p, s.procs[p].plan);
    }
  }

  lemma {:induction false} NeverActs(s0: System, actions: seq<Action>, p: Pid, more: seq<Action>)
    requires Initial(s0) && GivenUp(Behave(s0, actions), p)
    ensures GivenUp(Behave(s0, actions + more), p)
  {
    if more == [] {
      assert actions + more == actions;
    } else {
      var init := more[..|more| - 1];
      assert (actions + more)[..|actions + more| - 1] == actions + init;
      NeverActs(s0, actions, p, init);
      BehaviourOk(s0, actions + init);
      GivenUpStays(Behave(s0, actions + init), s0.dst, more[|more| - 1], p);
    }
  }

  /** A process that asks for the lock in any reachable state and is not killed: it finishes within 61
      more turns of its own, whatever the others do in between, if the lock was free at that moment;
      if it was not, the process gives up and never begins an upgrade. */
  lemma FinishesExact(s0: System, actions: seq<Action>, p: Pid, more: seq<Action>)
    requires Initial(s0) && Crash(p) !in more && multiset(more)[Turn(p)] >= 61
    requires p in Behave(s0, actions).procs && Behave(s0, actions).procs[p].stage.Starting?
    ensures var s, t := Behave(s0, actions), Behave(s0, actions + [Turn(p)] + more);
      && p in t.procs
      && (s.lock == None ==> t.procs[p].stage.Finished?)
      && (s.lock != None ==> t.procs[p].stage.Dead? && Begun(t.log, p) == [])
  {
    SameProcesses(s0, actions, p);
    BehaviourWorks(s0, actions, p);
    var s, now := Behave(s0, actions), actions + [Turn(p)];
    assert now[..|now| - 1] == actions;
    if s.lock == None {
      TodoShort(s.procs[p].plan);
      KeepsGoing(s0, now, p, more, 61);
    } else {
      NeverActs(s0, now, p, more);
    }
  }

  lemma TodoShort(plan: Plan)
    ensures |Todo(plan)| <= 3
  {
  }
}

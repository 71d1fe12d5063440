/** The real-time array in runs of the scheduler: what sched_next takes from it is always the
    earliest of the processes of least priority number that were added and not yet dispatched. */
module RealTimeRuns {
  import opened Scheduling
  import opened Options
  import opened SchedulerInvariant
  import opened SchedulerRuns
  import opened RealTimeQueue

  /** The array holds the processes of `log`, filed. */
  ghost predicate FiledAs(s: Sched, log: seq<nat>) {
    Known(s.procs, log) && s.rt == Filed(s.procs, log)
  }

  lemma FiledKnown(s: Sched, log: seq<nat>)
    requires FiledAs(s, log)
    ensures Known(s.procs, log)
  {}

  /** A state with the same array, in which its processes have the same priorities. */
  lemma StillFiled(s: Sched, r: Sched, log: seq<nat>)
    requires FiledAs(s, log) && r.rt == s.rt && |r.procs| == |s.procs|
    requires forall x :: x in s.rt && x < |s.procs| ==> r.procs[x].priority == s.procs[x].priority
    ensures FiledAs(r, log)
  {
    FiledMembers(s.procs, log);
    forall i | 0 <= i < |log| ensures r.procs[log[i]].priority == s.procs[log[i]].priority { assert log[i] in s.rt; }
    FiledSame(s.procs, r.procs, log);
  }

  predicate RealTime(x: Proc) { x.policy == Fifo || x.policy == RoundRobin }

  /** Departures: the earliest of least priority number. */
  function Departed(procs: seq<Proc>, log: seq<nat>): (rest: seq<nat>)
    requires Known(procs, log)
    ensures Known(procs, rest)
  {
    if log == [] then [] else Without(log, Earliest(procs, log))
  }

  /** A switch: one departure, and the return of an outgoing round-robin process. */
  function SwitchLog(s: Sched, log: seq<nat>): seq<nat>
    requires Shape(s) && Known(s.procs, log)
  {
    Departed(s.procs, log)
    + (if s.cur.Some? && s.procs[s.cur.value].policy == RoundRobin then [s.cur.value] else [])
  }

  /** The processes added and not yet dispatched, in order of arrival, after one more step; told
      without a look at the array. */
  function LogStep(s: Sched, log: seq<nat>, st: Step): seq<nat>
    requires Legal(s, st) && Known(s.procs, log)
  {
    match st
    case DoAdd(p) => if RealTime(s.procs[p]) then log + [p] else log
    case DoYield => SwitchLog(s, log)
    case DoTick => if SliceEnds(s) then SwitchLog(s, log) else log
    case _ => log
  }

  /** sched_next takes a departure off the log. */
  lemma NextFiled(s: Sched, log: seq<nat>)
    requires QueuesOk(s) && FiledAs(s, log)
    ensures FiledAs(Next(s).s, Departed(s.procs, log)) && |Next(s).s.procs| == 65
    ensures log != [] ==> Next(s).proc == log[Earliest(s.procs, log)]
    ensures log == [] <==> s.rt == []
  {
    hide RtOk, LevelOk, Filed, Earliest, Without;
    FiledSorted(s.procs, log);
    if log != [] {
      FrontIsEarliest(s.procs, log);
      NextRealTime(s);
      assert s.rt[1..] == Filed(s.procs, Departed(s.procs, log));
    } else {
      LowestFound(s.q, 0);
      FiledNothing(s.procs, Next(s).s.procs);
    }
  }

  lemma AddFiled(s: Sched, log: seq<nat>, p: nat)
    requires QueuesOk(s) && FiledAs(s, log) && p < MAX_PROCESSES && !Queued(s, p)
    requires s.procs[p].policy != IdleClass && 0 <= s.procs[p].level < LEVELS
    ensures FiledAs(Add(s, p), if RealTime(s.procs[p]) then log + [p] else log)
  {
    hide RtOk, LevelOk, Filed, Insert, Known;
    var s1 := Set(s, p, s.procs[p].(state := Runnable));
    StillFiled(s, s1, log);
    if RealTime(s.procs[p]) {
      AddRealTime(s, p);
      FiledAppend(s1.procs, log, p);
    } else {
      AddNormal(s, p);
      StillFiled(s, Add(s, p), log);
    }
  }

  lemma RequeueFiled(s: Sched, log: seq<nat>, p: nat)
    requires QueuesOk(s) && FiledAs(s, log) && p <= IDLE && !Queued(s, p)
    requires s.procs[p].state == Running && 0 <= s.procs[p].level < LEVELS && s.procs[p].policy != Fifo
    requires s.procs[p].policy == IdleClass <==> p == IDLE
    ensures FiledAs(Requeue(s, p), log + (if s.procs[p].policy == RoundRobin then [p] else []))
  {
    hide RtOk, LevelOk, FiledAs, Add;
    assert log + [] == log;
    var x := s.procs[p];
    var s1 := Set(s, p, x.(switches := x.switches + 1, state := Runnable, level := Demoted(x)));
    SetOutside(s, p, s1.procs[p]);
    StillFiled(s, s1, log);
    if p != IDLE { AddFiled(s1, log, p); }
  }

  lemma YieldFiled(s: Sched, log: seq<nat>, why: Resume)
    requires Base(s) && FiledAs(s, log) && (s.cur.Some? ==> s.procs[s.cur.value].policy != Fifo)
    ensures FiledAs(Yield(s, why), SwitchLog(s, log))
  {
    hide RtOk, LevelOk, Next, FiledAs, Departed, Requeue;
    FiledKnown(s, log);
    ShapeNext(s);
    NextOk(s);
    NextFresh(s);
    NextFiled(s, log);
    var c, rest := Next(s), Departed(s.procs, log);
    assert rest + [] == rest;
    var r := Yield(s, why);
    if s.cur.Some? && s.cur != Some(c.proc) {
      var p := s.cur.value;
      RequeueFiled(c.s, rest, p);
      RequeueOk(c.s, p);
      StillFiled(Requeue(c.s, p), r, SwitchLog(s, log));
    } else if s.cur.None? {
      StillFiled(c.s, r, rest);
    }
  }

  lemma AgeCheckFiled(s: Sched, log: seq<nat>)
    requires QueuesOk(s) && FiledAs(s, log)
    ensures FiledAs(AgeCheck(s), log)
  {
    hide RtOk, LevelOk, FiledAs, Age;
    AgeIs(s);
    StillFiled(s, AgeCheck(s), log);
  }

  lemma TickFiled(s: Sched, log: seq<nat>)
    requires Inv(s) && FiledAs(s, log)
    ensures FiledAs(TickStep(s), if SliceEnds(s) then SwitchLog(s, log) else log)
  {
    hide QueuesOk, ProcsOk, CurrentOk, SliceOk, FiledAs, AgeCheck, Yield, Account, Next;
    FiledKnown(s, log);
    AccountCur(s);
    AccountEffect(s);
    var s1 := Account(s);
    StillFiled(s, s1, log);
    if s.cur.Some? {
      if SliceEnds(s) {
        SameSwitch(s, s1, log);
        YieldOk(s1, AfterTick);
        YieldFiled(s1, log, AfterTick);
        AgeCheckFiled(Yield(s1, AfterTick), SwitchLog(s, log));
      } else {
        AgeCheckFiled(s1, log);
      }
    }
  }

  lemma SameSwitch(s: Sched, r: Sched, log: seq<nat>)
    requires Shape(s) && Shape(r) && Known(s.procs, log) && r.cur == s.cur
    requires forall x :: 0 <= x <= IDLE ==>
                           r.procs[x].priority == s.procs[x].priority && r.procs[x].policy == s.procs[x].policy
    ensures SwitchLog(r, log) == SwitchLog(s, log)
  {
    hide Earliest;
    if log != [] { EarliestSame(s.procs, r.procs, log); }
  }

  lemma YieldStepFiled(s: Sched, log: seq<nat>)
    requires Inv(s) && Legal(s, DoYield) && FiledAs(s, log)
    ensures FiledAs(YieldStep(s), SwitchLog(s, log))
  {
    hide QueuesOk, ProcsOk, CurrentOk, SliceOk, FiledAs, AgeCheck, Yield;
    FiledKnown(s, log);
    YieldOk(s, AfterYield);
    YieldFiled(s, log, AfterYield);
    AgeCheckFiled(Yield(s, AfterYield), SwitchLog(s, log));
  }

  lemma StepFiled(s: Sched, log: seq<nat>, st: Step)
    requires Inv(s) && Legal(s, st) && FiledAs(s, log)
    ensures FiledAs(Apply(s, st), LogStep(s, log, st))
  {
    hide QueuesOk, RtOk, LevelOk, CurrentOk, SliceOk, YieldStep, TickStep, Add, SwitchLog;
    match st
    case DoYield => YieldStepFiled(s, log);
    case DoTick => TickFiled(s, log);
    case DoAdd(p) => AddFiled(s, log, p);
    case _ =>
      OutsideStep(s, st);
      QueuedPlaced(s);
      assert forall x :: x in s.rt ==> Queued(s, x);
      StillFiled(s, Apply(s, st), log);
  }

  lemma ShapeStep(s: Sched, st: Step)
    requires Legal(s, st)
    ensures Shape(Apply(s, st))
  {
    hide Yield, AgeCheck, Add;
    match st
    case DoAdd(p) => ShapeAdd(s, p);
    case DoYield =>
      ShapeYield(s, AfterYield);
      ShapeAgeCheck(Yield(s, AfterYield));
    case DoTick =>
      var s1 := Account(s);
      ShapeAgeCheck(s1);
      ShapeYield(s1, AfterTick);
      ShapeAgeCheck(Yield(s1, AfterTick));
    case _ =>
  }

  lemma ShapeAgeCheck(s: Sched)
    requires Shape(s)
    ensures Shape(AgeCheck(s))
  {}

  /** The log over a run. */
  function LogRun(s: Sched, log: seq<nat>, run: seq<Step>): seq<nat>
    requires LegalRun(s, run) && Known(s.procs, log)
    decreases |run|
  {
    if run == [] then log
    else
      ShapeStep(s, run[0]);
      LogRun(Apply(s, run[0]), LogStep(s, log, run[0]), run[1..])
  }

  /** Along every run the array holds the processes that the log says are pending, filed. */
  lemma {:induction false} RunFiled(s: Sched, log: seq<nat>, run: seq<Step>)
    requires Inv(s) && LegalRun(s, run) && FiledAs(s, log)
    ensures Inv(Run(s, run)) && FiledAs(Run(s, run), LogRun(s, log, run))
    decreases |run|
  {
    hide Inv, Legal, Apply, FiledAs, LogStep, Known;
    FiledKnown(s, log);
    if run != [] {
      StepOk(s, run[0]);
      StepFiled(s, log, run[0]);
      RunFiled(Apply(s, run[0]), LogStep(s, log, run[0]), run[1..]);
    }
  }

  /** From boot, after every run: the array is the log of the processes added and not yet dispatched,
      filed, and sched_next takes the earliest of those with the least priority number. */
  lemma NextIsEarliest(s: Sched, run: seq<Step>)
    requires Initial(s) && LegalRun(s, run)
    ensures var r, log := Run(s, run), LogRun(s, [], run);
            && Inv(r) && FiledAs(r, log) && (log == [] <==> r.rt == [])
            && (log != [] ==> Next(r).proc == log[Earliest(r.procs, log)])
  {
    hide QueuesOk, ProcsOk, CurrentOk, SliceOk, Next, LogRun, Run, LegalRun, Earliest;
    InitialInv(s);
    FiledNothing(s.procs, s.procs);
    RunFiled(s, [], run);
    NextFiled(Run(s, run), LogRun(s, [], run));
  }
}

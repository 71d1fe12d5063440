/** Runs of the scheduler: any interleaving of its steps, each atomic on the one CPU. */
module SchedulerRuns {
  import opened Scheduling
  import opened Options
  import opened SchedulerInvariant
  import Sequences

  /** Exec stands for whatever the current process does between scheduler calls: it leaves
      arbitrary values in the registers. */
  datatype Step =
    | DoAlloc
    | DoFree(p: nat)
    | DoSetPriority(p: nat, priority: int)
    | DoSetPolicy(p: nat, policy: Policy)
    | DoAdd(p: nat)
    | DoYield
    | DoTick
    | Exec(regs: Context)

  /** What callers owe: priority and policy change only for allocated processes that wait nowhere,
      only such processes are freed, a process is added once, and a FIFO process does not yield. */
  predicate Legal(s: Sched, st: Step) {
    Shape(s) &&
    match st
    case DoSetPriority(p, _) => p < MAX_PROCESSES && !Placed(s, p) && s.procs[p].state != Unused
    case DoSetPolicy(p, policy) => p < MAX_PROCESSES && !Placed(s, p) && policy != IdleClass
    case DoFree(p) => p < MAX_PROCESSES && !Placed(s, p)
    case DoAdd(p) => p < MAX_PROCESSES && !Placed(s, p)
    case DoYield => s.cur.Some? ==> s.procs[s.cur.value].policy != Fifo
    case _ => true
  }

  function Apply(s: Sched, st: Step): Sched
    requires Legal(s, st)
  {
    match st
    case DoAlloc => Alloc(s).s
    case DoFree(p) => Release(s, p)
    case DoSetPriority(p, v) => SetPriority(s, p, v)
    case DoSetPolicy(p, policy) => SetPolicy(s, p, policy)
    case DoAdd(p) => Add(s, p)
    case DoYield => YieldStep(s)
    case DoTick => TickStep(s)
    case Exec(regs) => s.(regs := regs)
  }

  predicate LegalRun(s: Sched, run: seq<Step>)
    decreases |run|
  {
    run == [] || (Legal(s, run[0]) && LegalRun(Apply(s, run[0]), run[1..]))
  }

  function Run(s: Sched, run: seq<Step>): Sched
    requires LegalRun(s, run)
    decreases |run|
  {
    if run == [] then s else Run(Apply(s, run[0]), run[1..])
  }

  /** The state after scheduler_init and process_init. */
  predicate Initial(s: Sched) {
    && |s.procs| == 65 && s.q == [[], [], [], []] && s.rt == [] && s.cur == None
    && s.cpuTicks == 0 && s.idleTicks == 0 && s.nextPid == 1
    && (forall x :: 0 <= x < IDLE ==>
          s.procs[x].state == Unused && s.procs[x].policy == Normal && s.procs[x].level == 0 && s.procs[x].cpuTime == 0
                      && s.procs[x].startTime <= s.ticks && s.procs[x].pid == 0)
    && s.procs[IDLE].state == Runnable && s.procs[IDLE].policy == IdleClass && s.procs[IDLE].level == 3
    && s.procs[IDLE].cpuTime == 0 && s.procs[IDLE].startTime <= s.ticks
    && s.procs[IDLE].priority == 139 && s.procs[IDLE].slice == 0
  }

  /** No process has been switched out inside sched_tick or by a yield. */
  predicate NothingResumed(s: Sched) {
    |s.procs| == 65 && forall x :: 0 <= x <= IDLE ==> s.procs[x].resume == Fresh
  }

  predicate Booted(s: Sched) { Initial(s) && NothingResumed(s) }

  lemma InitialInv(s: Sched)
    requires Initial(s)
    ensures Inv(s) && forall x :: !Placed(s, x)
  {}

  lemma StepOk(s: Sched, st: Step)
    requires Inv(s) && Legal(s, st)
    ensures Inv(Apply(s, st))
    ensures forall x :: Placed(Apply(s, st), x) <==> Placed(s, x) || st == DoAdd(x)
  {
    hide RtOk, LevelOk, Inv, Placed, YieldStep, TickStep, Add;
    match st
    case DoAlloc => AllocOk(s);
    case DoFree(p) => FreeOk(s, p);
    case DoSetPriority(p, v) => ChangePriorityOk(s, p, v);
    case DoSetPolicy(p, policy) => ChangePolicyOk(s, p, policy);
    case DoAdd(p) => AddStepOk(s, p);
    case DoYield => YieldStepOk(s);
    case DoTick => TickStepOk(s);
    case Exec(regs) => ExecOk(s, regs);
  }

  lemma AllocOk(s: Sched)
    requires Inv(s)
    ensures Inv(Alloc(s).s) && forall x :: Placed(Alloc(s).s, x) <==> Placed(s, x)
  {
    hide RtOk, LevelOk;
    var p := FirstUnused(s.procs, 0);
    if p < MAX_PROCESSES {
      if Queued(s, p) { QueuedRunnable(s, p); }
      ChangeOk(s, p, Alloc(s).s.procs[p], s.nextPid + 1);
    }
  }

  lemma FreeOk(s: Sched, p: nat)
    requires Inv(s) && p < MAX_PROCESSES && !Placed(s, p)
    ensures Inv(Release(s, p)) && forall x :: Placed(Release(s, p), x) <==> Placed(s, x)
  {
    hide RtOk, LevelOk;
    ChangeOk(s, p, Release(s, p).procs[p], s.nextPid);
  }

  lemma ChangePriorityOk(s: Sched, p: nat, v: int)
    requires Inv(s) && p < MAX_PROCESSES && !Placed(s, p) && s.procs[p].state != Unused
    ensures Inv(SetPriority(s, p, v)) && forall x :: Placed(SetPriority(s, p, v), x) <==> Placed(s, x)
  {
    hide RtOk, LevelOk;
    ChangeOk(s, p, SetPriority(s, p, v).procs[p], s.nextPid);
  }

  lemma ChangePolicyOk(s: Sched, p: nat, policy: Policy)
    requires Inv(s) && p < MAX_PROCESSES && !Placed(s, p) && policy != IdleClass
    ensures Inv(SetPolicy(s, p, policy)) && forall x :: Placed(SetPolicy(s, p, policy), x) <==> Placed(s, x)
  {
    hide RtOk, LevelOk;
    ChangeOk(s, p, SetPolicy(s, p, policy).procs[p], s.nextPid);
  }

  lemma ExecOk(s: Sched, regs: Context)
    requires Inv(s)
    ensures Inv(s.(regs := regs)) && forall x :: Placed(s.(regs := regs), x) <==> Placed(s, x)
  {}

  lemma AddKeeps(s: Sched, p: nat)
    requires Shape(s) && p < MAX_PROCESSES
    ensures var r := Add(s, p);
            && r.cur == s.cur && |r.procs| == 65
            && (forall x :: 0 <= x <= IDLE ==>
                  && r.procs[x].policy == s.procs[x].policy && r.procs[x].priority == s.procs[x].priority
                  && r.procs[x].resume == s.procs[x].resume)
  {
    hide Insert;
  }

  /** Steps other than adding, yielding and ticking leave the queues, the clock and every process
      in a place alone. */
  lemma OutsideStep(s: Sched, st: Step)
    requires Inv(s) && Legal(s, st) && !st.DoAdd? && !st.DoYield? && !st.DoTick?
    ensures var r := Apply(s, st);
            && r.q == s.q && r.rt == s.rt && r.cur == s.cur && r.ticks == s.ticks && |r.procs| == 65
            && (forall x: nat :: Placed(s, x) ==> r.procs[x] == s.procs[x])
            && r.procs[IDLE] == s.procs[IDLE]
  {
    hide RtOk, LevelOk;
    if st.DoAlloc? {
      var p := FirstUnused(s.procs, 0);
      if p < MAX_PROCESSES && Queued(s, p) { QueuedRunnable(s, p); }
    }
  }

  /** After every run, each added process is in exactly one place. */
  lemma {:induction false} RunOk(s: Sched, run: seq<Step>)
    requires Inv(s) && LegalRun(s, run)
    ensures Inv(Run(s, run))
    ensures forall x :: Placed(Run(s, run), x) <==> Placed(s, x) || DoAdd(x) in run
    decreases |run|
  {
    hide Inv, Legal, Apply, Placed;
    if run != [] {
      StepOk(s, run[0]);
      RunOk(Apply(s, run[0]), run[1..]);
      assert run == [run[0]] + run[1..];
    }
  }

  /** Being in a place means being in exactly one: one queue, once, the one that policy and level
      name, or the CPU. */
  lemma ExactlyOnePlace(s: Sched, x: nat)
    requires Inv(s) && Placed(s, x)
    ensures s.cur == Some(x) <==> !Queued(s, x)
    ensures s.procs[x].state == if s.cur == Some(x) then Running else Runnable
    ensures Queued(s, x) ==> (x in s.rt <==> s.procs[x].policy != Normal)
    ensures Queued(s, x) ==> forall l :: 0 <= l < LEVELS ==>
              (x in s.q[l] <==> s.procs[x].policy == Normal && s.procs[x].level == l)
    ensures Queued(s, x) ==> |s.rt| <= MAX_PROCESSES && forall l :: 0 <= l < LEVELS ==> |s.q[l]| <= MAX_PROCESSES
  {
    assert LevelOk(s, 0) && LevelOk(s, 1) && LevelOk(s, 2) && LevelOk(s, 3);
    if Queued(s, x) {
      QueuedRunnable(s, x);
      Sequences.Pigeonhole(s.rt, MAX_PROCESSES);
      forall l | 0 <= l < LEVELS ensures |s.q[l]| <= MAX_PROCESSES {
        Sequences.Pigeonhole(s.q[l], MAX_PROCESSES);
      }
    }
  }

  // ------------------------------------------------------------------ runs put together

  predicate Reaches(s: Sched, run: seq<Step>, r: Sched) { LegalRun(s, run) && Run(s, run) == r }

  lemma {:induction false} ReachesConcat(s: Sched, a: seq<Step>, m: Sched, b: seq<Step>, r: Sched)
    requires Reaches(s, a, m) && Reaches(m, b, r)
    ensures Reaches(s, a + b, r)
    decreases |a|
  {
    hide Legal, Apply;
    if a == [] {
      assert a + b == b;
    } else {
      assert (a + b)[1..] == a[1..] + b;
      ReachesConcat(Apply(s, a[0]), a[1..], m, b, r);
    }
  }

  lemma ReachesOne(s: Sched, st: Step)
    requires Legal(s, st)
    ensures Reaches(s, [st], Apply(s, st))
  {
    hide Legal, Apply;
    var rest := [st][1..];
    assert rest == [] && LegalRun(Apply(s, st), rest) && Run(Apply(s, st), rest) == Apply(s, st);
  }

  lemma ReachesThen(s: Sched, a: seq<Step>, m: Sched, st: Step)
    requires Reaches(s, a, m) && Legal(m, st)
    ensures Reaches(s, a + [st], Apply(m, st))
  {
    hide Legal, Apply;
    ReachesOne(m, st);
    ReachesConcat(s, a, m, [st], Apply(m, st));
  }

  // --------------------------------------------------------- FIFO processes that yield

  /** A FIFO process that yields is lost: it is in no queue, is not current, and still counts as
      RUNNING. */
  lemma FifoYieldLoses(s: Sched, why: Resume)
    requires Inv(s) && s.cur.Some? && s.procs[s.cur.value].policy == Fifo
    ensures var p, r := s.cur.value, Yield(s, why);
            Shape(r) && p < MAX_PROCESSES && !Placed(r, p) && r.procs[p].state == Running && r.cur != Some(p)
  {
    hide RtOk, LevelOk, Next;
    ShapeYield(s, why);
    ShapeNext(s);
    NextOk(s);
    NextFresh(s);
  }

  /** So a switch keeps the invariant exactly when the outgoing process is not a FIFO one. */
  lemma YieldKeepsIff(s: Sched, why: Resume)
    requires Inv(s)
    ensures Inv(Yield(s, why)) <==> (s.cur.Some? ==> s.procs[s.cur.value].policy != Fifo)
  {
    hide QueuesOk, ProcsOk, SliceOk, Yield;
    AccountCur(s);
    if s.cur.Some? && s.procs[s.cur.value].policy == Fifo {
      FifoYieldLoses(s, why);
    } else {
      YieldOk(s, why);
    }
  }
}

/** Who is charged: the CPU time, switch counts and identifiers of the processes over runs, counted
    from the outside by looking at who is current. */
module Charges {
  import opened Scheduling
  import opened Options
  import opened SchedulerInvariant
  import opened SchedulerRuns
  import opened Starvation
  import opened SchedulerAccounts

  // ------------------------------------------------------------------------------ one tick

  /** One tick has been charged to the process that was current in s, and to nobody else; it counts as
      an idle tick exactly when that was idle. */
  predicate ChargedTo(s: Sched, r: Sched) {
    && |s.procs| == |r.procs| == 65 && r.ticks == s.ticks + 1 && r.cpuTicks == s.cpuTicks + 1
    && r.idleTicks == s.idleTicks + (if s.cur == Some(IDLE) then 1 else 0)
    && (forall x :: 0 <= x <= IDLE ==>
          r.procs[x].cpuTime == s.procs[x].cpuTime + (if s.cur == Some(x) then 1 else 0))
  }

  lemma TickCharges(s: Sched)
    requires Shape(s)
    ensures ChargedTo(s, TickStep(s))
  {
    hide Shape, Yield, AgeCheck, Account;
    AccountCharges(s);
    var s1 := Account(s);
    YieldSteady(s1, AfterTick);
    ShapeYield(s1, AfterTick);
    AgeCheckSteady(s1);
    AgeCheckSteady(Yield(s1, AfterTick));
  }

  lemma AccountCharges(s: Sched)
    requires Shape(s)
    ensures var r := Account(s);
            && Shape(r) && |s.procs| == |r.procs| == 65 && r.cur == s.cur && r.nextPid == s.nextPid
            && r.ticks == s.ticks + 1 && r.cpuTicks == s.cpuTicks + 1
            && r.idleTicks == s.idleTicks + (if s.cur == Some(IDLE) then 1 else 0)
            && (forall x :: 0 <= x <= IDLE ==>
                  && r.procs[x].cpuTime == s.procs[x].cpuTime + (if s.cur == Some(x) then 1 else 0)
                  && r.procs[x].switches == s.procs[x].switches && r.procs[x].lastRun == s.procs[x].lastRun
                  && r.procs[x].pid == s.procs[x].pid && r.procs[x].state == s.procs[x].state)
  {}

  /** While the slice lasts, a tick takes one from it, down to 0, and changes nothing else about the
      current process, whatever its policy. */
  lemma TickTakesOne(s: Sched)
    requires Inv(s) && s.cur.Some? && !SliceEnds(s)
    ensures var c, r := s.cur.value, TickStep(s);
            && Inv(r) && r.cur == s.cur
            && r.procs[c].slice == (if s.procs[c].slice == 0 then 0 else s.procs[c].slice - 1)
            && r.procs[c] == s.procs[c].(cpuTime := s.procs[c].cpuTime + 1, slice := r.procs[c].slice)
  {
    hide QueuesOk, ProcsOk, CurrentOk, SliceOk, Yield, AgeCheck, Next;
    AccountCur(s);
    AccountEffect(s);
    AccountOk(s);
    TickStepOk(s);
    AgeCheckCurrent(Account(s));
  }

  // ------------------------------------------------------------------------------ switches

  /** Between s and r, x gets the CPU. */
  predicate Comes(s: Sched, r: Sched, x: nat) { s.cur != Some(x) && r.cur == Some(x) }

  /** 1 if x gets or loses the CPU between s and r. */
  function Turn(s: Sched, r: Sched, x: nat): nat {
    if (s.cur == Some(x)) != (r.cur == Some(x)) then 1 else 0
  }

  /** The numbers a switch counts. */
  predicate SameCounts(s: Sched, r: Sched) {
    |s.procs| == |r.procs| == 65 &&
    forall x :: 0 <= x <= IDLE ==>
      r.procs[x].switches == s.procs[x].switches && r.procs[x].lastRun == s.procs[x].lastRun
  }

  lemma AddCounts(s: Sched, p: nat)
    requires Shape(s) && p < MAX_PROCESSES
    ensures SameCounts(s, Add(s, p))
  {
    hide Insert;
  }

  lemma RequeueCounts(s: Sched, p: nat)
    requires Shape(s) && p <= IDLE && s.procs[p].state == Running
    ensures var r := Requeue(s, p);
            && |r.procs| == 65 && r.ticks == s.ticks
            && (forall x :: 0 <= x <= IDLE ==>
                  && r.procs[x].switches == s.procs[x].switches + (if x == p then 1 else 0)
                  && r.procs[x].lastRun == s.procs[x].lastRun)
  {
    hide Add;
    var x := s.procs[p];
    var y := x.(switches := x.switches + 1, state := Runnable);
    if p < IDLE {
      AddCounts(Set(s, p, y.(level := Demoted(x))), p);
      AddCounts(Set(s, p, y), p);
      AddSteady(Set(s, p, y.(level := Demoted(x))), p);
      AddSteady(Set(s, p, y), p);
    }
  }

  /** A switch is counted once for the process that leaves and once for the one that comes, and the
      latter notes the time. */
  lemma YieldCounts(s: Sched, why: Resume)
    requires Base(s)
    ensures var r := Yield(s, why);
            && |r.procs| == 65
            && (forall x :: 0 <= x <= IDLE ==>
                  && r.procs[x].switches == s.procs[x].switches + Turn(s, r, x)
                  && r.procs[x].lastRun == if Comes(s, r, x) then s.ticks else s.procs[x].lastRun)
  {
    hide QueuesOk, ProcsOk, Next, Requeue;
    BaseShape(s);
    ShapeNext(s);
    NextFresh(s);
    NextTicks(s);
    NextSteady(s);
    var c := Next(s);
    if s.cur.Some? && s.cur != Some(c.proc) { RequeueCounts(c.s, s.cur.value); }
  }

  lemma AgeCheckCounts(s: Sched)
    requires Inv(s)
    ensures SameCounts(s, AgeCheck(s))
  {
    hide RtOk, LevelOk, ProcsOk, CurrentOk, SliceOk, Age;
    AgeIs(s);
  }

  // -------------------------------------------------------------------------------- steps

  predicate InUse(s: Sched, x: nat) { x < |s.procs| && (x == IDLE || s.procs[x].state != Unused) }

  /** What one step adds to the account of a process that stays allocated. */
  ghost predicate Charged(s: Sched, st: Step, r: Sched, x: nat) {
    && InUse(s, x) && InUse(r, x)
    && r.procs[x].pid == s.procs[x].pid
    && r.procs[x].cpuTime == s.procs[x].cpuTime + (if st == DoTick && s.cur == Some(x) then 1 else 0)
    && r.procs[x].switches == s.procs[x].switches + Turn(s, r, x)
    && r.procs[x].lastRun == if Comes(s, r, x) then r.ticks else s.procs[x].lastRun
  }

  lemma TickCharged(s: Sched, x: nat)
    requires Inv(s) && x <= IDLE && InUse(s, x)
    ensures Charged(s, DoTick, TickStep(s), x)
  {
    hide QueuesOk, ProcsOk, CurrentOk, SliceOk, Yield, AgeCheck, Account;
    AccountCur(s);
    AccountCharges(s);
    AccountOk(s);
    var s1 := Account(s);
    if s.cur.Some? && Expired(s1) {
      var s2 := Yield(s1, AfterTick);
      YieldOk(s1, AfterTick);
      YieldSteady(s1, AfterTick);
      YieldCounts(s1, AfterTick);
      ShapeYield(s1, AfterTick);
      AgeCheckSteady(s2);
      AgeCheckCounts(s2);
    } else if s.cur.Some? {
      AgeCheckSteady(s1);
      AgeCheckCounts(s1);
    }
  }

  lemma YieldCharged(s: Sched, x: nat)
    requires Inv(s) && Legal(s, DoYield) && x <= IDLE && InUse(s, x)
    ensures Charged(s, DoYield, YieldStep(s), x)
  {
    hide QueuesOk, ProcsOk, CurrentOk, SliceOk, Yield, AgeCheck;
    var r := Yield(s, AfterYield);
    YieldOk(s, AfterYield);
    YieldSteady(s, AfterYield);
    YieldCounts(s, AfterYield);
    ShapeYield(s, AfterYield);
    AgeCheckSteady(r);
    AgeCheckCounts(r);
  }

  lemma StepCharged(s: Sched, st: Step, x: nat)
    requires Inv(s) && Legal(s, st) && x <= IDLE && InUse(s, x) && st != DoFree(x)
    ensures Charged(s, st, Apply(s, st), x)
    ensures var r := Apply(s, st);
            && r.ticks == s.ticks + (if st == DoTick then 1 else 0)
            && r.cpuTicks == s.cpuTicks + (if st == DoTick then 1 else 0)
            && r.idleTicks == s.idleTicks + (if st == DoTick && s.cur == Some(IDLE) then 1 else 0)
  {
    hide QueuesOk, ProcsOk, CurrentOk, SliceOk, YieldStep, TickStep, Add, Placed;
    match st
    case DoTick =>
      TickCharged(s, x);
      TickCharges(s);
    case DoYield =>
      YieldCharged(s, x);
      YieldTime(s);
    case DoAdd(p) =>
      AddSteady(s, p);
      AddCounts(s, p);
    case _ =>
  }

  lemma YieldTime(s: Sched)
    requires Inv(s) && Legal(s, DoYield)
    ensures var r := YieldStep(s); r.ticks == s.ticks && r.cpuTicks == s.cpuTicks && r.idleTicks == s.idleTicks
  {
    hide QueuesOk, ProcsOk, CurrentOk, SliceOk, Yield, AgeCheck;
    YieldSteady(s, AfterYield);
    ShapeYield(s, AfterYield);
    AgeCheckSteady(Yield(s, AfterYield));
  }

  // --------------------------------------------------------------------------------- runs

  /** The ticks of a run that find x current. */
  function TicksAt(s: Sched, run: seq<Step>, x: nat): nat
    requires LegalRun(s, run)
    decreases |run|
  {
    if run == [] then 0
    else (if run[0] == DoTick && s.cur == Some(x) then 1 else 0) + TicksAt(Apply(s, run[0]), run[1..], x)
  }

  /** The steps of a run that give the CPU to x or take it from x. */
  function Turns(s: Sched, run: seq<Step>, x: nat): nat
    requires LegalRun(s, run)
    decreases |run|
  {
    if run == [] then 0
    else
      var r := Apply(s, run[0]);
      Turn(s, r, x) + Turns(r, run[1..], x)
  }

  /** Over every run, the CPU time of a process that is not freed grows by exactly the ticks that find
      it current, and its switch count by exactly the times it gets or loses the CPU. */
  lemma {:induction false} RunCharges(s: Sched, run: seq<Step>, x: nat)
    requires Inv(s) && LegalRun(s, run) && x <= IDLE && InUse(s, x) && DoFree(x) !in run
    ensures var r := Run(s, run);
            && InUse(r, x) && r.procs[x].pid == s.procs[x].pid
            && r.procs[x].cpuTime == s.procs[x].cpuTime + TicksAt(s, run, x)
            && r.procs[x].switches == s.procs[x].switches + Turns(s, run, x)
    decreases |run|
  {
    hide QueuesOk, ProcsOk, CurrentOk, SliceOk, Legal, Apply;
    if run != [] {
      StepOk(s, run[0]);
      StepCharged(s, run[0], x);
      assert DoFree(x) !in run[1..];
      RunCharges(Apply(s, run[0]), run[1..], x);
    }
  }

  /** And the CPU's own counters by all ticks and by those that find idle current. */
  lemma {:induction false} RunCounts(s: Sched, run: seq<Step>)
    requires Inv(s) && LegalRun(s, run)
    ensures var r := Run(s, run);
            && r.ticks == s.ticks + Ticks(run) && r.cpuTicks == s.cpuTicks + Ticks(run)
            && r.idleTicks == s.idleTicks + TicksAt(s, run, IDLE)
    decreases |run|
  {
    hide QueuesOk, ProcsOk, CurrentOk, SliceOk, Legal, Apply;
    if run != [] {
      StepOk(s, run[0]);
      NotIdleFreed(s, run[0]);
      StepCharged(s, run[0], IDLE);
      RunCounts(Apply(s, run[0]), run[1..]);
    }
  }

  lemma NotIdleFreed(s: Sched, st: Step)
    requires Inv(s) && Legal(s, st)
    ensures st != DoFree(IDLE) && InUse(s, IDLE)
  {}

  // -------------------------------------------------------------------------- identifiers

  /** Identifiers given out are below the next one, and no two slots have the same. */
  predicate PidsOk(s: Sched) {
    && |s.procs| == 65 && s.nextPid >= 1
    && (forall x :: 0 <= x < IDLE ==> s.procs[x].pid < s.nextPid)
    && (forall x, y :: 0 <= x < y < IDLE && s.procs[x].pid != 0 ==> s.procs[x].pid != s.procs[y].pid)
  }

  lemma SamePids(s: Sched, r: Sched)
    requires PidsOk(s) && |r.procs| == 65 && r.nextPid == s.nextPid
    requires forall x :: 0 <= x <= IDLE ==> r.procs[x].pid == s.procs[x].pid
    ensures PidsOk(r)
  {}

  lemma StepPids(s: Sched, st: Step)
    requires Legal(s, st) && PidsOk(s)
    ensures PidsOk(Apply(s, st))
  {
    hide Yield, AgeCheck, Account, Add, Shape;
    match st
    case DoYield =>
      var r := Yield(s, AfterYield);
      YieldSteady(s, AfterYield);
      ShapeYield(s, AfterYield);
      AgeCheckSteady(r);
      SamePids(s, YieldStep(s));
    case DoTick =>
      var s1 := Account(s);
      AccountCharges(s);
      AgeCheckSteady(s1);
      YieldSteady(s1, AfterTick);
      ShapeYield(s1, AfterTick);
      AgeCheckSteady(Yield(s1, AfterTick));
      SamePids(s, TickStep(s));
    case DoAdd(p) =>
      AddSteady(s, p);
      SamePids(s, Add(s, p));
    case _ =>
  }

  /** From boot, no two processes ever have the same identifier. */
  lemma {:induction false} RunPids(s: Sched, run: seq<Step>)
    requires PidsOk(s) && LegalRun(s, run)
    ensures PidsOk(Run(s, run))
    decreases |run|
  {
    hide PidsOk, Legal, Apply;
    if run != [] {
      StepPids(s, run[0]);
      RunPids(Apply(s, run[0]), run[1..]);
    }
  }

  lemma PidsDistinct(s: Sched, run: seq<Step>, x: nat, y: nat)
    requires Initial(s) && LegalRun(s, run) && x < y < MAX_PROCESSES
    ensures var r := Run(s, run);
            && |r.procs| == 65
            && (r.procs[x].pid == r.procs[y].pid ==> r.procs[x].pid == 0)
            && r.procs[x].pid < r.nextPid && r.procs[y].pid < r.nextPid
  {
    hide LegalRun, Run;
    RunPids(s, run);
  }

  // ---------------------------------------------------------------------------- newcomers

  /** A process allocated and added joins the end of level 0, with priority 100, a new identifier, no
      time on its account and no trace of an earlier use of its slot but its saved registers. */
  lemma NewcomerJoins(s: Sched)
    requires Inv(s) && PidsOk(s) && Alloc(s).proc < MAX_PROCESSES
    ensures var p := Alloc(s).proc;
            && s.procs[p].state == Unused && !Placed(s, p) && Inv(Alloc(s).s) && !Placed(Alloc(s).s, p)
            && var r := Add(Alloc(s).s, p);
            && Inv(r) && r.q == s.q[0 := s.q[0] + [p]] && r.rt == s.rt && r.cur == s.cur
            && (forall x :: 0 <= x <= IDLE && x != p ==> r.procs[x] == s.procs[x])
            && (forall x :: 0 <= x < IDLE && x != p ==> r.procs[x].pid < r.procs[p].pid)
            && r.nextPid > r.procs[p].pid > 0
            && r.procs[p] == Proc(r.procs[p].pid, Runnable, 100, 100, Normal, 0, 0, 0, 0, s.ticks, 0,
                                  s.procs[p].ctx, s.procs[p].resume)
  {
    hide RtOk, LevelOk, Add;
    var p := Alloc(s).proc;
    AllocOk(s);
    if Queued(s, p) { QueuedRunnable(s, p); }
    AddStepOk(Alloc(s).s, p);
    AddNormal(Alloc(s).s, p);
  }

  /** A process that is freed leaves an unused slot without identifier, priorities or counts, which is
      allocated again unless an earlier one is unused; nobody else notices. */
  lemma SlotGivenBack(s: Sched, p: nat)
    requires Inv(s) && p < MAX_PROCESSES && !Placed(s, p)
    ensures var r, x := Release(s, p), s.procs[p];
            && Inv(r) && r == s.(procs := r.procs) && |r.procs| == 65
            && (forall y :: 0 <= y <= IDLE && y != p ==> r.procs[y] == s.procs[y])
            && r.procs[p] == Proc(0, Unused, 0, 0, x.policy, 0, 0, 0, 0, x.startTime, x.lastRun, x.ctx, x.resume)
            && Alloc(r).proc == if Alloc(s).proc < p then Alloc(s).proc else p
  {
    hide RtOk, LevelOk;
    FreeOk(s, p);
    var r := Release(s, p);
    var a, b := FirstUnused(s.procs, 0), FirstUnused(r.procs, 0);
    assert b <= p;
    assert a < p ==> r.procs[a].state == Unused;
    assert b < p ==> s.procs[b].state == Unused;
  }
}

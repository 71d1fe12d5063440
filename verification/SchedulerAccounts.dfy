/** What each process gets: its quantum, its share of the tick count, and its registers back. */
module SchedulerAccounts {
  import opened Scheduling
  import opened Options
  import opened SchedulerInvariant
  import opened SchedulerRuns
  import opened Starvation
  import Bits

  // --------------------------------------------------------------------- what a step leaves

  /** The identity and the times of a process are the same, and its slot is not given up. */
  predicate SameAccount(x: Proc, y: Proc) {
    && y.cpuTime == x.cpuTime && y.startTime == x.startTime && y.pid == x.pid
    && (x.state != Unused ==> y.state != Unused)
  }

  /** No accounting between s and r; only process `out` may have had its registers saved. */
  predicate Steady(s: Sched, r: Sched, out: Option<nat>) {
    && |s.procs| == |r.procs| == 65
    && r.ticks == s.ticks && r.cpuTicks == s.cpuTicks && r.idleTicks == s.idleTicks && r.nextPid == s.nextPid
    && (forall x :: 0 <= x <= IDLE ==> SameAccount(s.procs[x], r.procs[x]))
    && (forall x :: 0 <= x <= IDLE && out != Some(x) ==>
                      r.procs[x].ctx == s.procs[x].ctx && r.procs[x].resume == s.procs[x].resume)
  }

  lemma AddSteady(s: Sched, p: nat)
    requires Shape(s) && p < MAX_PROCESSES
    ensures Steady(s, Add(s, p), None) && Add(s, p).cur == s.cur && Add(s, p).regs == s.regs
  {
    hide Insert;
  }

  lemma NextSteady(s: Sched)
    requires Shape(s)
    ensures Steady(s, Next(s).s, None) && Next(s).s.cur == s.cur && Next(s).s.regs == s.regs
  {
    LowestFound(s.q, 0);
  }

  lemma RequeueSteady(s: Sched, p: nat)
    requires Shape(s) && p <= IDLE
    ensures Steady(s, Requeue(s, p), None) && Requeue(s, p).regs == s.regs
  {
    hide Add;
    var x := s.procs[p];
    var y := x.(switches := x.switches + 1, state := Runnable);
    if p < IDLE {
      AddSteady(Set(s, p, y.(level := Demoted(x))), p);
      AddSteady(Set(s, p, y), p);
    }
  }

  /** A switch saves the registers of the outgoing process and loads those of the next. */
  lemma YieldSteady(s: Sched, why: Resume)
    requires Shape(s)
    ensures var r := Yield(s, why);
            && Steady(s, r, s.cur)
            && (r.cur == s.cur ==> r.regs == s.regs && forall x :: 0 <= x <= IDLE ==> r.procs[x].ctx == s.procs[x].ctx)
            && (r.cur != s.cur ==>
                  && r.cur.Some? && r.cur.value <= IDLE && r.regs == s.procs[r.cur.value].ctx
                  && (s.cur.Some? ==> r.procs[s.cur.value].ctx == s.regs))
  {
    hide Next, Requeue;
    ShapeNext(s);
    NextSteady(s);
    var c := Next(s);
    if s.cur.Some? && s.cur != Some(c.proc) { RequeueSteady(c.s, s.cur.value); }
  }

  lemma {:induction false} DrainSteady(s: Sched, l: nat)
    requires Shape(s) && 0 < l < LEVELS
    ensures Steady(s, Drain(s, l), None) && Drain(s, l).cur == s.cur && Drain(s, l).regs == s.regs
    decreases |s.q[l]|
  {
    if s.q[l] != [] {
      var s1 := s.(q := s.q[l := s.q[l][1..]]);
      DrainSteady(Boost(s1, s.q[l][0]), l);
    }
  }

  lemma AgeCheckSteady(s: Sched)
    requires Shape(s)
    ensures Steady(s, AgeCheck(s), None) && AgeCheck(s).cur == s.cur && AgeCheck(s).regs == s.regs
  {
    hide Drain;
    DrainSteady(s, 1);
    DrainSteady(Drain(s, 1), 2);
    DrainSteady(Drain(Drain(s, 1), 2), 3);
  }

  // ------------------------------------------------------------------------------- registers

  /** What one step does to saved and live registers, seen from process p. */
  lemma StepRegisters(s: Sched, st: Step, p: nat)
    requires Legal(s, st) && p <= IDLE
    ensures var r := Apply(s, st);
            && |r.procs| == 65
            && (s.cur != Some(p) ==> r.procs[p].ctx == s.procs[p].ctx)
            && (s.cur != Some(p) && r.cur == Some(p) ==> r.regs == s.procs[p].ctx)
            && (s.cur == Some(p) && r.cur != Some(p) ==> r.procs[p].ctx == s.regs)
  {
    hide Yield, AgeCheck, Add;
    match st
    case DoYield =>
      YieldSteady(s, AfterYield);
      ShapeYield(s, AfterYield);
      AgeCheckSteady(Yield(s, AfterYield));
    case DoTick =>
      var s1 := Account(s);
      AgeCheckSteady(s1);
      YieldSteady(s1, AfterTick);
      ShapeYield(s1, AfterTick);
      AgeCheckSteady(Yield(s1, AfterTick));
    case DoAdd(x) => AddSteady(s, x);
    case _ =>
  }

  /** p is not current until the last step of the run dispatches it. */
  predicate Returns(s: Sched, run: seq<Step>, p: nat)
    requires LegalRun(s, run)
    decreases |run|
  {
    && s.cur != Some(p) && run != []
    && var r := Apply(s, run[0]);
    if r.cur == Some(p) then run[1..] == [] else Returns(r, run[1..], p)
  }

  lemma {:induction false} ReturnsToSaved(s: Sched, run: seq<Step>, p: nat)
    requires LegalRun(s, run) && p <= IDLE && Returns(s, run, p) && |s.procs| == 65
    ensures Run(s, run).regs == s.procs[p].ctx
    decreases |run|
  {
    hide Legal, Apply;
    var r := Apply(s, run[0]);
    StepRegisters(s, run[0], p);
    if r.cur != Some(p) { ReturnsToSaved(r, run[1..], p); }
  }

  /** A process that is switched out and later resumed gets back exactly the registers that were
      live when it was switched out, whatever ran in between. */
  lemma ResumeRestores(s: Sched, st: Step, run: seq<Step>, p: nat)
    requires Legal(s, st) && s.cur == Some(p) && Apply(s, st).cur != Some(p)
    requires LegalRun(Apply(s, st), run) && Returns(Apply(s, st), run, p)
    ensures Run(Apply(s, st), run).regs == s.regs
  {
    hide Apply;
    StepRegisters(s, st, p);
    ReturnsToSaved(Apply(s, st), run, p);
  }

  // ------------------------------------------------------------------------------------ time

  function CpuTime(procs: seq<Proc>, n: nat): int
    requires n <= |procs|
  {
    if n == 0 then 0 else CpuTime(procs, n - 1) + procs[n - 1].cpuTime
  }

  lemma {:induction false} CpuTimeSame(a: seq<Proc>, b: seq<Proc>, n: nat)
    requires n <= |a| == |b| && forall i :: 0 <= i < n ==> a[i].cpuTime == b[i].cpuTime
    ensures CpuTime(a, n) == CpuTime(b, n)
  {
    if n > 0 { CpuTimeSame(a, b, n - 1); }
  }

  lemma {:induction false} CpuTimeChange(a: seq<Proc>, b: seq<Proc>, n: nat, c: nat)
    requires c < n <= |a| == |b| && forall i :: 0 <= i < n && i != c ==> a[i].cpuTime == b[i].cpuTime
    ensures CpuTime(b, n) == CpuTime(a, n) + b[c].cpuTime - a[c].cpuTime
  {
    if c == n - 1 { CpuTimeSame(a, b, n - 1); } else { CpuTimeChange(a, b, n - 1, c); }
  }

  lemma {:induction false} CpuTimeNonNegative(procs: seq<Proc>, n: nat)
    requires n <= |procs|
    ensures CpuTime(procs, n) >= 0
  {
    if n > 0 { CpuTimeNonNegative(procs, n - 1); }
  }

  /** Nobody has more CPU time than ticks since its start, and a process that was never placed has
      none. */
  predicate TimesOk(s: Sched) {
    && |s.procs| == 65 && |s.q| == LEVELS
    && (forall x :: 0 <= x <= IDLE ==> s.procs[x].cpuTime + s.procs[x].startTime <= s.ticks)
    && (forall x :: 0 <= x < IDLE && !Placed(s, x) ==> s.procs[x].cpuTime == 0)
    && s.procs[IDLE].cpuTime == s.idleTicks
  }

  /** CPU ticks that neither idle nor any other process was charged. */
  function Unclaimed(s: Sched): int
    requires |s.procs| == 65
  {
    s.cpuTicks - s.idleTicks - CpuTime(s.procs, MAX_PROCESSES)
  }

  lemma SteadyTimes(s: Sched, r: Sched, out: Option<nat>)
    requires TimesOk(s) && Steady(s, r, out) && |r.q| == LEVELS
    requires forall x :: Placed(s, x) ==> Placed(r, x)
    ensures TimesOk(r) && Unclaimed(r) == Unclaimed(s)
  {
    CpuTimeSame(s.procs, r.procs, MAX_PROCESSES);
  }

  lemma AccountTimes(s: Sched)
    requires Shape(s) && TimesOk(s)
    ensures TimesOk(Account(s)) && Unclaimed(Account(s)) == Unclaimed(s) + (if s.cur.None? then 1 else 0)
  {
    hide CpuTime;
    var r := Account(s);
    if s.cur.Some? && s.cur.value < IDLE {
      CpuTimeChange(s.procs, r.procs, MAX_PROCESSES, s.cur.value);
    } else {
      CpuTimeSame(s.procs, r.procs, MAX_PROCESSES);
    }
  }

  lemma TickTimes(s: Sched)
    requires Inv(s) && TimesOk(s)
    ensures TimesOk(TickStep(s)) && Unclaimed(TickStep(s)) == Unclaimed(s) + (if s.cur.None? then 1 else 0)
  {
    hide RtOk, LevelOk, ProcsOk, CurrentOk, SliceOk, TimesOk, Unclaimed, Steady, Yield, AgeCheck, Account, Placed;
    AccountCur(s);
    AccountTimes(s);
    AccountOk(s);
    var s1 := Account(s);
    if s.cur.Some? {
      if !Expired(s1) {
        AgeCheckTimes(s1);
      } else {
        var s2 := Yield(s1, AfterTick);
        YieldOk(s1, AfterTick);
        YieldSteady(s1, AfterTick);
        SteadyTimes(s1, s2, s1.cur);
        AgeCheckTimes(s2);
      }
    }
  }

  lemma AgeCheckTimes(s: Sched)
    requires Inv(s) && TimesOk(s)
    ensures TimesOk(AgeCheck(s)) && Unclaimed(AgeCheck(s)) == Unclaimed(s)
  {
    hide RtOk, LevelOk, ProcsOk, CurrentOk, SliceOk, TimesOk, Unclaimed, Steady, AgeCheck, Placed;
    AgeCheckSteady(s);
    AgeCheckOk(s);
    SteadyTimes(s, AgeCheck(s), None);
  }

  lemma YieldTimes(s: Sched)
    requires Inv(s) && TimesOk(s) && (s.cur.Some? ==> s.procs[s.cur.value].policy != Fifo)
    ensures TimesOk(YieldStep(s)) && Unclaimed(YieldStep(s)) == Unclaimed(s)
  {
    hide RtOk, LevelOk, ProcsOk, CurrentOk, SliceOk, TimesOk, Unclaimed, Steady, Yield, AgeCheck, Placed;
    var s1 := Yield(s, AfterYield);
    YieldOk(s, AfterYield);
    YieldSteady(s, AfterYield);
    SteadyTimes(s, s1, s.cur);
    AgeCheckTimes(s1);
  }

  lemma StepTimes(s: Sched, st: Step)
    requires Inv(s) && TimesOk(s) && Legal(s, st)
    ensures TimesOk(Apply(s, st))
    ensures Unclaimed(Apply(s, st)) == Unclaimed(s) + (if st == DoTick && s.cur.None? then 1 else 0)
  {
    hide RtOk, LevelOk, ProcsOk, CurrentOk, SliceOk, YieldStep, TickStep, Add, CpuTime;
    StepOk(s, st);
    match st
    case DoYield => YieldTimes(s);
    case DoTick => TickTimes(s);
    case DoAdd(x) => AddSteady(s, x); SteadyTimes(s, Add(s, x), None);
    case DoAlloc => AllocTimes(s);
    case DoFree(p) => CpuTimeSame(s.procs, Release(s, p).procs, MAX_PROCESSES);
    case DoSetPriority(p, v) => SteadyTimes(s, SetPriority(s, p, v), None);
    case DoSetPolicy(p, v) => SteadyTimes(s, SetPolicy(s, p, v), None);
    case Exec(regs) => SteadyTimes(s, s.(regs := regs), None);
  }

  lemma AllocTimes(s: Sched)
    requires Inv(s) && TimesOk(s)
    ensures TimesOk(Alloc(s).s) && Unclaimed(Alloc(s).s) == Unclaimed(s)
  {
    hide RtOk, LevelOk, CpuTime;
    AllocOk(s);
    var p := FirstUnused(s.procs, 0);
    if p < MAX_PROCESSES && Queued(s, p) { QueuedRunnable(s, p); }
    CpuTimeSame(s.procs, Alloc(s).s.procs, MAX_PROCESSES);
  }

  /** Ticks of a run that find no current process. */
  function EmptyTicks(s: Sched, run: seq<Step>): nat
    requires LegalRun(s, run)
    decreases |run|
  {
    if run == [] then 0
    else (if run[0] == DoTick && s.cur.None? then 1 else 0) + EmptyTicks(Apply(s, run[0]), run[1..])
  }

  /** Time is conserved: after every run, CPU ticks are idle ticks plus everyone's CPU time plus the
      ticks with no current process, and nobody has more CPU time than ticks since its start. */
  lemma {:induction false} TimeConserved(s: Sched, run: seq<Step>)
    requires Inv(s) && TimesOk(s) && LegalRun(s, run)
    ensures TimesOk(Run(s, run)) && Unclaimed(Run(s, run)) == Unclaimed(s) + EmptyTicks(s, run)
    decreases |run|
  {
    hide Inv, TimesOk, Unclaimed, Legal, Apply;
    if run != [] {
      StepOk(s, run[0]);
      StepTimes(s, run[0]);
      TimeConserved(Apply(s, run[0]), run[1..]);
    }
  }

  /** sched_print_stats and process_print_stats: neither subtraction underflows and neither
      percentage exceeds 100, in every state reached from scheduler_init. */
  lemma UsageWithin100(s: Sched, run: seq<Step>, x: nat)
    requires Initial(s) && LegalRun(s, run) && x <= IDLE
    ensures var r := Run(s, run);
            && |r.procs| == 65 && r.idleTicks <= r.cpuTicks && r.procs[x].startTime <= r.ticks
            && (r.cpuTicks > 0 ==> (r.cpuTicks - r.idleTicks) * 100 / r.cpuTicks <= 100)
            && (r.ticks > r.procs[x].startTime ==>
                  r.procs[x].cpuTime * 100 / (r.ticks - r.procs[x].startTime) <= 100)
  {
    InitialInv(s);
    InitialTimes(s);
    TimeConserved(s, run);
    var r := Run(s, run);
    CpuTimeNonNegative(r.procs, MAX_PROCESSES);
    if r.cpuTicks > 0 { Percent(r.cpuTicks - r.idleTicks, r.cpuTicks); }
    if r.ticks > r.procs[x].startTime { Percent(r.procs[x].cpuTime, r.ticks - r.procs[x].startTime); }
  }

  lemma InitialTimes(s: Sched)
    requires Initial(s)
    ensures TimesOk(s) && Unclaimed(s) == 0
  {
    ZeroTimes(s.procs, MAX_PROCESSES);
  }

  lemma {:induction false} ZeroTimes(procs: seq<Proc>, n: nat)
    requires n <= |procs| && forall i :: 0 <= i < n ==> procs[i].cpuTime == 0
    ensures CpuTime(procs, n) == 0
  {
    if n > 0 { ZeroTimes(procs, n - 1); }
  }

  lemma Percent(part: nat, whole: nat)
    requires part <= whole && whole > 0
    ensures part * 100 / whole <= 100
  {
    var k := part * 100 / whole;
    assert (k - 100) * whole == k * whole - 100 * whole;
    assert k * whole <= part * 100;
    if k > 100 { Bits.MulAtLeast(k - 100, whole); }
  }

  // ----------------------------------------------------------------------------------- quanta

  /** A normal process that is switched out goes to the end of a level: of its own if it has ticks
      left, else of the next one down, or of the last. */
  lemma SwitchedOut(s: Sched, why: Resume)
    requires Base(s) && s.cur.Some? && s.cur.value < MAX_PROCESSES && s.procs[s.cur.value].policy == Normal
    ensures var c, r, l := s.cur.value, Yield(s, why), s.procs[s.cur.value].level;
            var d := if s.procs[c].slice > 0 then l else if l < 3 then l + 1 else 3;
            && Inv(r) && r.cur != Some(c) && r.procs[c].level == d && r.procs[c].resume == why
            && 0 <= d < LEVELS && r.q[d] != [] && r.q[d][|r.q[d]| - 1] == c
  {
    hide RtOk, LevelOk, Next;
    YieldOk(s, why);
    ShapeNext(s);
    NextOk(s);
    NextFresh(s);
    var n := Next(s);
    RequeueNormal(n.s, s.cur.value);
  }

  /** The step from s to r takes the CPU from process c and gives it to the next one: c
      waits at the end of level d, unless the clock shows a multiple of 100 and the process that
      runs now goes through the end of sched_tick, which puts c on level 0. */
  predicate PutBack(s: Sched, r: Sched, c: nat, d: int, why: Resume)
    requires Shape(s) && Shape(r) && c < MAX_PROCESSES
  {
    ShapeNext(s);
    && r.cur == Some(Next(s).proc) && r.cur != Some(c) && r.procs[c].resume == why
    && if r.ticks % 100 == 0 && s.procs[Next(s).proc].resume == AfterTick
       then r.procs[c].level == 0 && c in r.q[0]
       else r.procs[c].level == d && 0 <= d < LEVELS && r.q[d] != [] && r.q[d][|r.q[d]| - 1] == c
  }

  /** The last tick of a slice demotes by one level, at most to the last. */
  predicate Preempted(s: Sched, r: Sched, c: nat, l: int)
    requires Shape(s) && Shape(r) && c < MAX_PROCESSES
  {
    PutBack(s, r, c, if l < 3 then l + 1 else 3, AfterTick)
  }

  /** A yield before the slice is used up keeps the level. */
  lemma EarlyYield(s: Sched)
    requires Inv(s) && s.cur.Some? && s.cur.value < MAX_PROCESSES && s.procs[s.cur.value].policy == Normal
    ensures Inv(YieldStep(s))
    ensures PutBack(s, YieldStep(s), s.cur.value, s.procs[s.cur.value].level, AfterYield)
  {
    hide QueuesOk, ProcsOk, CurrentOk, Yield, Age, Next, InLevels;
    AccountCur(s);
    YieldStepOk(s);
    LeftOver(s);
    SwitchedOut(s, AfterYield);
    YieldEffect(s, AfterYield);
    AgedLast(Yield(s, AfterYield), s.cur.value);
  }

  lemma LeftOver(s: Sched)
    requires Inv(s) && s.cur.Some? && s.procs[s.cur.value].policy == Normal
    ensures s.procs[s.cur.value].slice > 0
  {}

  /** The tick that uses up the slice takes the CPU away. */
  lemma QuantumEnds(s: Sched)
    requires Inv(s) && s.cur.Some? && s.cur.value < MAX_PROCESSES
    requires s.procs[s.cur.value].policy == Normal && s.procs[s.cur.value].slice == 1
    ensures Inv(TickStep(s)) && Preempted(s, TickStep(s), s.cur.value, s.procs[s.cur.value].level)
  {
    hide QueuesOk, ProcsOk, CurrentOk, SliceOk, Yield, Age, Account, Next, InLevels;
    AccountCur(s);
    TickStepOk(s);
    AccountEffect(s);
    var s1 := Account(s);
    SwitchedOut(s1, AfterTick);
    YieldEffect(s1, AfterTick);
    AgedLast(Yield(s1, AfterTick), s.cur.value);
  }

  /** Aging takes a process from the end of its level to level 0. */
  lemma AgedLast(s: Sched, c: nat)
    requires Inv(s) && c < MAX_PROCESSES && var d := s.procs[c].level; 0 <= d < LEVELS && c in s.q[d]
    ensures var r := Age(s);
            && Inv(r) && r.ticks == s.ticks && r.cur == s.cur
            && r.procs[c].level == 0 && c in r.q[0] && r.procs[c].resume == s.procs[c].resume
  {
    hide RtOk, LevelOk, ProcsOk, CurrentOk, Age;
    AgeOk(s);
    AgeIs(s);
  }

  /** Until then it keeps the CPU: with fewer ticks than its slice and no yield, it is still current,
      on the same level, with exactly the ticks it received taken off its slice. */
  lemma {:induction false} QuantumLasts(s: Sched, run: seq<Step>)
    requires Inv(s) && s.cur.Some? && s.cur.value < MAX_PROCESSES && s.procs[s.cur.value].policy == Normal
    requires LegalRun(s, run) && DoYield !in run && Ticks(run) < s.procs[s.cur.value].slice
    ensures var c, r := s.cur.value, Run(s, run);
            && Inv(r) && r.cur == Some(c) && r.procs[c].slice == s.procs[c].slice - Ticks(run)
            && r.procs[c].level == s.procs[c].level && r.procs[c].policy == Normal
    decreases |run|
  {
    hide RtOk, LevelOk, ProcsOk, CurrentOk, SliceOk, Apply;
    if run != [] {
      StepOk(s, run[0]);
      QuantumStep(s, run[0]);
      assert DoYield !in run[1..];
      QuantumLasts(Apply(s, run[0]), run[1..]);
    }
  }

  lemma QuantumStep(s: Sched, st: Step)
    requires Inv(s) && s.cur.Some? && s.cur.value < MAX_PROCESSES && s.procs[s.cur.value].policy == Normal
    requires Legal(s, st) && st != DoYield && (st == DoTick ==> s.procs[s.cur.value].slice > 1)
    ensures var c, r := s.cur.value, Apply(s, st);
            && |r.procs| == 65 && r.cur == Some(c)
            && r.procs[c].slice == s.procs[c].slice - (if st == DoTick then 1 else 0)
            && r.procs[c].level == s.procs[c].level && r.procs[c].policy == Normal
  {
    hide RtOk, LevelOk, Age, Insert;
    var c := s.cur.value;
    if st == DoTick {
      AccountOk(s);
      AgeIs(Account(s));
      if Queued(Account(s), c) { QueuedRunnable(Account(s), c); }
    }
  }

  /** A normal process starts with the whole slice of its level, whatever step dispatches it. */
  lemma DispatchedFull(s: Sched, st: Step, c: nat)
    requires Inv(s) && Legal(s, st) && s.cur != Some(c) && Apply(s, st).cur == Some(c)
    ensures c <= IDLE && Inv(Apply(s, st))
    ensures var x := Apply(s, st).procs[c];
            x.policy == Normal ==> 0 <= x.level < LEVELS && x.slice == [5, 10, 20, 40][x.level]
  {
    hide QueuesOk, ProcsOk, CurrentOk, SliceOk, Yield, AgeCheck, Account, Next, Placed, Add;
    AccountCur(s);
    StepOk(s, st);
    LevelsOk(Apply(s, st));
    match st
    case DoYield =>
      YieldOk(s, AfterYield);
      YieldEffect(s, AfterYield);
      AgeCheckCurrent(Yield(s, AfterYield));
    case DoTick =>
      AccountEffect(s);
      AccountOk(s);
      var s1 := Account(s);
      if s.cur.Some? && !SliceEnds(s) {
        AgeCheckCurrent(s1);
      } else if s.cur.Some? {
        YieldOk(s1, AfterTick);
        YieldEffect(s1, AfterTick);
        AgeCheckCurrent(Yield(s1, AfterTick));
      }
    case DoAdd(p) => AddSteady(s, p);
    case _ => OutsideStep(s, st);
  }

  lemma LevelsOk(s: Sched)
    requires Inv(s)
    ensures forall x :: 0 <= x <= IDLE ==> 0 <= s.procs[x].level < LEVELS
  {}

  /** A normal process dispatched on level 0, 1, 2 or 3 that does not yield runs for exactly 5, 10, 20
      or 40 ticks, whatever else happens: it is current after every run of fewer ticks, and the tick
      that completes the number takes the CPU away. */
  lemma RunsItsSlice(s: Sched, st: Step, c: nat, run: seq<Step>)
    requires Inv(s) && Legal(s, st) && s.cur != Some(c) && Apply(s, st).cur == Some(c) && c < MAX_PROCESSES
    requires Shape(Apply(s, st)) && Apply(s, st).procs[c].policy == Normal
    requires LegalRun(Apply(s, st), run) && DoYield !in run
    ensures var l, t := Apply(s, st).procs[c].level, Run(Apply(s, st), run);
            && 0 <= l < LEVELS
            && var n := [5, 10, 20, 40][l];
            && (Ticks(run) < n ==> Inv(t) && t.cur == Some(c) && t.procs[c].level == l)
            && (Ticks(run) == n - 1 ==> Inv(TickStep(t)) && Preempted(t, TickStep(t), c, l))
  {
    hide QueuesOk, ProcsOk, CurrentOk, SliceOk, Apply, Legal, Run, LegalRun, TickStep, Preempted;
    DispatchedFull(s, st, c);
    var r := Apply(s, st);
    if Ticks(run) < r.procs[c].slice {
      QuantumLasts(r, run);
      if Ticks(run) == r.procs[c].slice - 1 { QuantumEnds(Run(r, run)); }
    }
  }
}

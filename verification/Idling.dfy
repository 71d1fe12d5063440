/** The idle process: docs/SCHEDULER.md has it run only when nothing else is ready. Exactly when it
    runs although something is. */
module Idling {
  import opened Scheduling
  import opened Options
  import opened SchedulerInvariant
  import opened SchedulerRuns

  /** Some process waits in a queue. */
  predicate Ready(s: Sched)
    requires |s.q| == LEVELS
  {
    s.rt != [] || s.q[0] != [] || s.q[1] != [] || s.q[2] != [] || s.q[3] != []
  }

  lemma ReadyIff(s: Sched)
    requires |s.q| == LEVELS
    ensures Ready(s) <==> exists x :: Queued(s, x)
  {
    if Ready(s) {
      var q := if s.rt != [] then s.rt else if s.q[0] != [] then s.q[0]
      else if s.q[1] != [] then s.q[1] else if s.q[2] != [] then s.q[2] else s.q[3];
      assert Queued(s, q[0]);
    }
  }

  /** Idle runs although a process is ready. */
  predicate Stalled(s: Sched) {
    |s.q| == LEVELS && s.cur == Some(IDLE) && Ready(s)
  }

  /** The current process goes back into a queue when it is switched out. */
  predicate Returning(s: Sched)
    requires Shape(s)
  {
    s.cur.Some? && s.cur.value < MAX_PROCESSES && s.procs[s.cur.value].policy != Fifo
  }

  // ---------------------------------------------------------------------------- steps

  /** A switch leaves idle running next to a ready process exactly when a process that goes back
      into its queue was alone: next is chosen before the outgoing process is requeued. */
  lemma YieldStalls(s: Sched, why: Resume)
    requires Base(s)
    ensures Shape(Yield(s, why))
    ensures Stalled(Yield(s, why)) <==> Returning(s) && !Ready(s)
    ensures Yield(s, why).cur == Some(Next(s).proc)
  {
    hide RtOk, LevelOk, Next, Load, Ready, Requeue;
    ShapeYield(s, why);
    ShapeNext(s);
    NextOk(s);
    NextFresh(s);
    ReadyIff(s);
    var r, c := Yield(s, why), Next(s);
    if s.cur.Some? && s.cur != Some(c.proc) {
      var out := Requeue(c.s, s.cur.value);
      Outgoing(c.s, s.cur.value);
      LoadEffect(out, s.cur, c.proc, why);
      ReadyKept(out, r);
      ReadyIff(out);
      assert Returning(s) ==> Queued(out, s.cur.value);
    } else if s.cur.None? {
      LoadEffect(c.s, s.cur, c.proc, why);
      ReadyKept(c.s, r);
    }
  }

  lemma Outgoing(s: Sched, p: nat)
    requires QueuesOk(s) && ProcsOk(s) && p <= IDLE && !Queued(s, p) && s.procs[p].state == Running
    ensures Shape(Requeue(s, p))
    ensures forall y :: Queued(Requeue(s, p), y) <==>
                        Queued(s, y) || (y == p && p != IDLE && s.procs[p].policy != Fifo)
  {
    hide RtOk, LevelOk;
    if s.procs[p].policy != Fifo { RequeueOk(s, p); }
  }

  lemma ReadyKept(s: Sched, r: Sched)
    requires |s.q| == |r.q| == LEVELS && forall x :: Queued(r, x) <==> Queued(s, x)
    ensures Ready(r) <==> Ready(s)
  {
    ReadyIff(s);
    ReadyIff(r);
  }

  /** Aging moves processes between levels only. */
  lemma AgeCheckStalls(s: Sched)
    requires Inv(s)
    ensures Shape(AgeCheck(s)) && AgeCheck(s).cur == s.cur && (Ready(AgeCheck(s)) <==> Ready(s))
  {
    hide RtOk, LevelOk, ProcsOk, CurrentOk, SliceOk, Age, Ready;
    AgeIs(s);
    if s.ticks % 100 == 0 { ReadyKept(s, Age(s)); }
  }

  /** Told from the state before the step: it leaves idle running next to a ready process, whether
      or not that was so before. */
  predicate Enters(s: Sched, st: Step)
    requires Shape(s)
  {
    match st
    case DoYield => Returning(s) && !Ready(s)
    case DoTick => SliceEnds(s) && !Ready(s)
    case DoAdd(_) => s.cur == Some(IDLE)
    case _ => false
  }

  lemma YieldStepStalls(s: Sched)
    requires Inv(s) && Legal(s, DoYield)
    ensures Shape(YieldStep(s)) && (Stalled(YieldStep(s)) <==> Enters(s, DoYield))
  {
    hide QueuesOk, ProcsOk, CurrentOk, SliceOk, Yield, AgeCheck, Ready;
    YieldOk(s, AfterYield);
    YieldStalls(s, AfterYield);
    AgeCheckStalls(Yield(s, AfterYield));
  }

  lemma TickStepStalls(s: Sched)
    requires Inv(s)
    ensures Shape(TickStep(s)) && (Stalled(TickStep(s)) <==> Stalled(s) || Enters(s, DoTick))
  {
    hide QueuesOk, ProcsOk, CurrentOk, SliceOk, Yield, AgeCheck, Account, Next, Queued;
    AccountCur(s);
    AccountEffect(s);
    AccountOk(s);
    var s1 := Account(s);
    if s.cur.Some? {
      if SliceEnds(s) {
        SliceEndsBusy(s);
        YieldOk(s1, AfterTick);
        YieldStalls(s1, AfterTick);
        AgeCheckStalls(Yield(s1, AfterTick));
      } else {
        AgeCheckStalls(s1);
      }
    }
  }

  lemma SliceEndsBusy(s: Sched)
    requires Inv(s) && SliceEnds(s)
    ensures Returning(s)
  {}

  lemma AddStalls(s: Sched, p: nat)
    requires Inv(s) && p < MAX_PROCESSES && !Placed(s, p)
    ensures Shape(Add(s, p)) && Ready(Add(s, p)) && Add(s, p).cur == s.cur
  {
    hide RtOk, LevelOk, Add;
    AddOk(s, p);
    ReadyIff(Add(s, p));
  }

  /** Every step: idle runs next to a ready process exactly when the step brings that about, or it
      was so before and the step is not a yield. */
  lemma StepStalls(s: Sched, st: Step)
    requires Inv(s) && Legal(s, st)
    ensures Shape(Apply(s, st))
    ensures Stalled(Apply(s, st)) <==> Enters(s, st) || (Stalled(s) && st != DoYield)
  {
    hide QueuesOk, ProcsOk, CurrentOk, SliceOk, YieldStep, TickStep, Add, Placed;
    StepOk(s, st);
    match st
    case DoYield => YieldStepStalls(s);
    case DoTick => TickStepStalls(s);
    case DoAdd(p) => AddStalls(s, p);
    case _ => OutsideStep(s, st);
  }

  // ----------------------------------------------------------------------------- runs

  /** Some step of the run brings it about, and no yield follows. */
  predicate EntersForGood(s: Sched, run: seq<Step>)
    requires LegalRun(s, run)
    decreases |run|
  {
    run != [] && ((Enters(s, run[0]) && DoYield !in run[1..]) || EntersForGood(Apply(s, run[0]), run[1..]))
  }

  /** After every run: idle runs next to a ready process exactly when it did so at the start or some
      step brought it about, and no yield came after that. */
  lemma {:induction false} StalledIff(s: Sched, run: seq<Step>)
    requires Inv(s) && LegalRun(s, run)
    ensures Inv(Run(s, run))
    ensures Stalled(Run(s, run)) <==> (Stalled(s) && DoYield !in run) || EntersForGood(s, run)
    decreases |run|
  {
    hide Inv, Legal, Apply, Stalled, Enters;
    InvShape(s);
    if run != [] {
      StepOk(s, run[0]);
      StepStalls(s, run[0]);
      StalledIff(Apply(s, run[0]), run[1..]);
      assert run == [run[0]] + run[1..];
    }
  }

  lemma InvShape(s: Sched)
    requires Inv(s)
    ensures Shape(s)
  {}

  /** What the documentation says of idle holds at every point of the run. */
  predicate NeverStalls(s: Sched, run: seq<Step>)
    requires LegalRun(s, run)
    decreases |run|
  {
    !Stalled(s) && (run == [] || NeverStalls(Apply(s, run[0]), run[1..]))
  }

  predicate NoEntry(s: Sched, run: seq<Step>)
    requires LegalRun(s, run)
    decreases |run|
  {
    run == [] || (!Enters(s, run[0]) && NoEntry(Apply(s, run[0]), run[1..]))
  }

  /** Where it holds at the start, as it does at boot, it holds throughout a run exactly when no
      process gives up the CPU with nobody ready, by a yield or by the end of its slice, and none is
      added while idle runs. */
  lemma {:induction false} NeverStallsIff(s: Sched, run: seq<Step>)
    requires Inv(s) && !Stalled(s) && LegalRun(s, run)
    ensures NeverStalls(s, run) <==> NoEntry(s, run)
    decreases |run|
  {
    hide Inv, Legal, Apply, Stalled, Enters;
    InvShape(s);
    if run != [] {
      StepOk(s, run[0]);
      StepStalls(s, run[0]);
      if !Stalled(Apply(s, run[0])) { NeverStallsIff(Apply(s, run[0]), run[1..]); }
    }
  }

  // ------------------------------------------------------------------- never preempted

  /** Idle and FIFO processes are never preempted: without a yield the current one stays, whatever
      waits. */
  lemma {:induction false} KeepsCpu(s: Sched, run: seq<Step>)
    requires Inv(s) && s.cur.Some? && LegalRun(s, run) && DoYield !in run
    requires s.procs[s.cur.value].policy == Fifo || s.cur.value == IDLE
    ensures Run(s, run).cur == s.cur
    decreases |run|
  {
    hide QueuesOk, ProcsOk, CurrentOk, SliceOk, Legal, Apply;
    InvShape(s);
    if run != [] {
      StepOk(s, run[0]);
      KeepsCpuStep(s, run[0]);
      assert DoYield !in run[1..];
      KeepsCpu(Apply(s, run[0]), run[1..]);
    }
  }

  lemma KeepsCpuStep(s: Sched, st: Step)
    requires Inv(s) && s.cur.Some? && Legal(s, st) && st != DoYield
    requires s.procs[s.cur.value].policy == Fifo || s.cur.value == IDLE
    ensures var r := Apply(s, st);
            r.cur == s.cur && |r.procs| == 65 && r.procs[s.cur.value].policy == s.procs[s.cur.value].policy
  {
    hide QueuesOk, CurrentOk, SliceOk, AgeCheck, Yield, Add, Next, Account;
    InvShape(s);
    match st
    case DoTick =>
      AccountCur(s);
      AccountEffect(s);
      AccountOk(s);
      AgeCheckCurrent(Account(s));
    case DoAdd(p) => AddKeeps(s, p);
    case _ => OutsideStep(s, st);
  }
}

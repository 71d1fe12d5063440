/** Two short runs from boot: a FIFO process that yields and is lost, and a process that yields
    alone and then waits while idle runs. */
module BootRuns {
  import opened Scheduling
  import opened Options
  import opened SchedulerInvariant
  import opened SchedulerRuns
  import opened Idling

  /** Process 0 is set up with this policy, nobody is in any place, and nothing has run yet. */
  ghost predicate SetUp(s: Sched, policy: Policy) {
    && Inv(s) && s.cur == None && (forall x :: !Placed(s, x))
    && s.procs[0].state == Runnable && s.procs[0].policy == policy && NothingResumed(s)
  }

  /** Process 0 runs alone. */
  predicate Alone(s: Sched, policy: Policy) {
    Inv(s) && s.cur == Some(0) && !Ready(s) && s.procs[0].policy == policy && NothingResumed(s)
  }

  lemma BootAlloc(s: Sched)
    requires Booted(s)
    ensures Legal(s, DoAlloc)
    ensures SetUp(Apply(s, DoAlloc), Normal)
  {
    InitialInv(s);
    AllocOk(s);
  }

  lemma MakeFifo(s: Sched)
    requires SetUp(s, Normal)
    ensures Legal(s, DoSetPriority(0, 50))
    ensures var r := Apply(s, DoSetPriority(0, 50));
            Legal(r, DoSetPolicy(0, Fifo)) && SetUp(Apply(r, DoSetPolicy(0, Fifo)), Fifo)
  {
    hide RtOk, LevelOk, ProcsOk, CurrentOk, SliceOk;
    ChangePriorityOk(s, 0, 50);
    ChangePolicyOk(SetPriority(s, 0, 50), 0, Fifo);
  }

  /** Added and dispatched. */
  lemma Start(s: Sched, policy: Policy)
    requires SetUp(s, policy)
    ensures Legal(s, DoAdd(0)) && Legal(Apply(s, DoAdd(0)), DoYield)
    ensures Alone(Apply(Apply(s, DoAdd(0)), DoYield), policy)
  {
    hide QueuesOk, ProcsOk, CurrentOk, SliceOk, Add, Yield, Next, Queued, Ready;
    InvShape(s);
    AddStepOk(s, 0);
    AddKeeps(s, 0);
    var s1 := Add(s, 0);
    InvShape(s1);
    QueuedPlaced(s1);
    NextOk(s1);
    assert Placed(s1, 0) && Queued(s1, 0);
    YieldOk(s1, AfterYield);
    YieldEffect(s1, AfterYield);
    OnlyCurrent(Yield(s1, AfterYield), 0);
  }

  lemma OnlyCurrent(s: Sched, c: nat)
    requires Inv(s) && s.cur == Some(c) && forall x :: Placed(s, x) ==> x == c
    ensures !Ready(s)
  {
    hide RtOk, LevelOk, Ready, ProcsOk, SliceOk;
    ReadyIff(s);
    QueuedPlaced(s);
    if x :| Queued(s, x) { QueuedRunnable(s, x); }
  }

  // ------------------------------------------------------------------------------- FIFO

  /** What kernel/main.c sets up for its real-time process, and its dispatch. */
  const FIFO_RUN: seq<Step> := [DoAlloc, DoSetPriority(0, 50), DoSetPolicy(0, Fifo), DoAdd(0), DoYield]

  /** A FIFO process set up, added and dispatched after boot is lost when it yields: idle runs, and
      the process is RUNNING but in no place. */
  lemma FifoLostFromBoot(s: Sched) returns (r: Sched)
    requires Booted(s)
    ensures Reaches(s, FIFO_RUN, r) && Alone(r, Fifo)
    ensures var t := YieldStep(r);
            Shape(t) && t.cur == Some(IDLE) && !Placed(t, 0) && t.procs[0].state == Running
  {
    hide Booted, SetUp, Alone, Legal, Apply, YieldStep;
    BootAlloc(s);
    ReachesOne(s, DoAlloc);
    var s1 := Apply(s, DoAlloc);
    MakeFifo(s1);
    var s2 := Apply(s1, DoSetPriority(0, 50));
    ReachesThen(s, [DoAlloc], s1, DoSetPriority(0, 50));
    var s3 := Apply(s2, DoSetPolicy(0, Fifo));
    ReachesThen(s, [DoAlloc, DoSetPriority(0, 50)], s2, DoSetPolicy(0, Fifo));
    Start(s3, Fifo);
    var s4 := Apply(s3, DoAdd(0));
    ReachesThen(s, [DoAlloc, DoSetPriority(0, 50), DoSetPolicy(0, Fifo)], s3, DoAdd(0));
    r := Apply(s4, DoYield);
    ReachesThen(s, [DoAlloc, DoSetPriority(0, 50), DoSetPolicy(0, Fifo), DoAdd(0)], s4, DoYield);
    FifoYields(r);
  }

  lemma FifoYields(s: Sched)
    requires Alone(s, Fifo)
    ensures var t := YieldStep(s);
            Shape(t) && t.cur == Some(IDLE) && !Placed(t, 0) && t.procs[0].state == Running
  {
    hide QueuesOk, ProcsOk, CurrentOk, SliceOk, Next, Ready, AgeCheck;
    InvShape(s);
    FifoYieldLoses(s, AfterYield);
    YieldStalls(s, AfterYield);
    ReadyIff(s);
    NextOk(s);
  }

  // -------------------------------------------------------------------------- the lone process

  const LONE_RUN: seq<Step> := [DoAlloc, DoAdd(0), DoYield, DoYield]

  /** A process added and dispatched after boot that yields with nobody else ready: it waits, and
      idle runs. By StalledIff this lasts until the next yield, whatever else happens. */
  lemma LoneStallsFromBoot(s: Sched) returns (r: Sched)
    requires Booted(s)
    ensures Reaches(s, LONE_RUN, r) && Inv(r) && Stalled(r) && Queued(r, 0)
  {
    hide Booted, SetUp, Alone, Legal, Apply, Stalled;
    BootAlloc(s);
    ReachesOne(s, DoAlloc);
    var s1 := Apply(s, DoAlloc);
    Start(s1, Normal);
    var s2 := Apply(s1, DoAdd(0));
    ReachesThen(s, [DoAlloc], s1, DoAdd(0));
    var s3 := Apply(s2, DoYield);
    ReachesThen(s, [DoAlloc, DoAdd(0)], s2, DoYield);
    LoneYields(s3);
    r := Apply(s3, DoYield);
    ReachesThen(s, [DoAlloc, DoAdd(0), DoYield], s3, DoYield);
  }

  lemma LoneYields(s: Sched)
    requires Alone(s, Normal)
    ensures Legal(s, DoYield)
    ensures var r := Apply(s, DoYield); Inv(r) && Stalled(r) && Queued(r, 0)
  {
    hide QueuesOk, ProcsOk, CurrentOk, SliceOk, YieldStep, Ready, Queued;
    InvShape(s);
    assert Placed(s, 0);
    StepOk(s, DoYield);
    StepStalls(s, DoYield);
  }
}

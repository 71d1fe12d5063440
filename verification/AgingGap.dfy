/** A run from boot on which tick 100 passes without the boost: three time slices of 20, 40 and 40
    ticks, the last of which ends at tick 100 with a switch to a process that has not run yet. */
module AgingGap {
  import opened Scheduling
  import opened Options
  import opened SchedulerInvariant
  import opened SchedulerRuns
  import opened Starvation
  import opened SchedulerAccounts

  // ------------------------------------------------------------------- a whole slice

  /** A normal process c runs with k ticks left, everybody else waits on level 3 in this order. */
  predicate At(s: Sched, t: nat, c: nat, k: nat, waiting: seq<nat>) {
    && Inv(s) && AllNormal(s) && s.ticks == t && c < MAX_PROCESSES && s.cur == Some(c)
    && s.procs[c].slice == k && s.procs[c].level >= 2 && s.q == [[], [], [], waiting]
  }

  predicate SameResumes(s: Sched, r: Sched, c: nat) {
    |s.procs| == |r.procs| == 65 && forall x :: 0 <= x <= IDLE && x != c ==> r.procs[x].resume == s.procs[x].resume
  }

  /** A tick inside the slice and off the multiples of 100. */
  lemma QuietTick(s: Sched, t: nat, c: nat, k: nat, waiting: seq<nat>)
    requires At(s, t, c, k, waiting) && k > 1 && (t + 1) % 100 != 0
    ensures At(TickStep(s), t + 1, c, k - 1, waiting) && SameResumes(s, TickStep(s), c)
  {
    hide RtOk, LevelOk, ProcsOk, CurrentOk;
    AccountOk(s);
  }

  /** The last tick of the slice, with a switch to a process that is not in the middle of
      sched_tick: no aging, whatever the clock says. */
  lemma LastTick(s: Sched, t: nat, c: nat, waiting: seq<nat>)
    requires At(s, t, c, 1, waiting) && waiting != [] && s.procs[waiting[0]].resume == Fresh
    ensures At(TickStep(s), t + 1, waiting[0], 40, waiting[1..] + [c]) && SameResumes(s, TickStep(s), c)
  {
    hide RtOk, LevelOk, ProcsOk, CurrentOk, Yield, Age, Slack;
    var p := waiting[0];
    assert p in s.q[3];
    AccountBound(s, p);
    var s1 := Account(s);
    LowestIs3(s1.q);
    YieldIs(s1, p, AfterTick);
    YieldSteady(s1, AfterTick);
    LevelMember(s1, 3);
    var s2 := Yield(s1, AfterTick);
    assert s2.q == [[], [], [], waiting[1..] + [c]];
    CurrentLevel(s, c);
  }

  lemma CurrentLevel(s: Sched, c: nat)
    requires Inv(s) && s.cur == Some(c)
    ensures 0 <= s.procs[c].level < LEVELS
  {}

  lemma LowestIs3(q: seq<seq<nat>>)
    requires |q| == LEVELS && q[0] == [] && q[1] == [] && q[2] == [] && q[3] != []
    ensures Lowest(q, 0) == 3
  {
    LowestFound(q, 0);
  }

  function Ticking(n: nat): seq<Step> { seq(n, _ => DoTick) }

  /** A whole slice, from the first tick to the switch at its end. */
  lemma {:induction false} WholeSlice(s: Sched, t: nat, c: nat, k: nat, waiting: seq<nat>) returns (r: Sched)
    requires At(s, t, c, k, waiting) && k > 0 && waiting != [] && s.procs[waiting[0]].resume == Fresh
    requires waiting[0] != c && t % 100 + k <= 100
    ensures Reaches(s, Ticking(k), r) && At(r, t + k, waiting[0], 40, waiting[1..] + [c]) && SameResumes(s, r, c)
    decreases k
  {
    hide At, TickStep;
    AtShape(s, t, c, k, waiting);
    var s1 := TickStep(s);
    ReachesOne(s, DoTick);
    if k == 1 {
      LastTick(s, t, c, waiting);
      r := s1;
      assert Ticking(1) == [DoTick];
    } else {
      QuietTick(s, t, c, k, waiting);
      r := WholeSlice(s1, t + 1, c, k - 1, waiting);
      ReachesConcat(s, [DoTick], s1, Ticking(k - 1), r);
      assert Ticking(k) == [DoTick] + Ticking(k - 1);
    }
  }

  lemma AtShape(s: Sched, t: nat, c: nat, k: nat, waiting: seq<nat>)
    requires At(s, t, c, k, waiting)
    ensures Shape(s) && Legal(s, DoTick) && c < MAX_PROCESSES
    ensures forall i :: 0 <= i < |waiting| ==> waiting[i] < MAX_PROCESSES
  {
    assert s.q[3] == waiting;
  }

  // -------------------------------------------------------------------------- set-up

  /** Priority and level of the four processes: process 1 on level 2, the others on level 3. */
  function PriorityOf(x: nat): int { if x == 1 then 120 else 130 }
  function LevelOf(x: nat): int { if x == 1 then 2 else 3 }

  predicate Prepared(x: Proc, i: nat) {
    x.state == Runnable && x.policy == Normal && x.level == LevelOf(i)
  }

  /** The first n processes allocated and given their priorities, nothing added yet. */
  predicate Allocated(s: Sched, n: nat) {
    && n <= 4 && Inv(s) && AllNormal(s) && s.ticks == 0 && s.cur == None && s.q == [[], [], [], []]
    && (forall x :: 0 <= x < n ==> Prepared(s.procs[x], x))
    && (forall x :: n <= x < IDLE ==> s.procs[x].state == Unused)
    && NothingResumed(s)
  }

  lemma AllocateOne(s: Sched, n: nat) returns (r: Sched)
    requires Allocated(s, n) && n < 4
    ensures Reaches(s, [DoAlloc, DoSetPriority(n, PriorityOf(n))], r) && Allocated(r, n + 1)
  {
    hide RtOk, LevelOk;
    AllocOk(s);
    var s1 := Alloc(s).s;
    assert FirstUnused(s.procs, 0) == n;
    r := SetPriority(s1, n, PriorityOf(n));
    ChangePriorityOk(s1, n, PriorityOf(n));
    ReachesOne(s, DoAlloc);
    ReachesThen(s, [DoAlloc], s1, DoSetPriority(n, PriorityOf(n)));
    assert [DoAlloc] + [DoSetPriority(n, PriorityOf(n))] == [DoAlloc, DoSetPriority(n, PriorityOf(n))];
  }

  /** All four allocated; those of `in3` wait on level 3 and process 1 on level 2 if `two`. */
  predicate Added(s: Sched, two: bool, in3: seq<nat>) {
    && Inv(s) && AllNormal(s) && s.ticks == 0 && s.cur == None
    && s.q == [[], [], if two then [1] else [], in3]
    && (forall x :: 0 <= x < 4 ==> Prepared(s.procs[x], x))
    && NothingResumed(s)
  }

  lemma AddOne(s: Sched, two: bool, in3: seq<nat>, x: nat)
    requires Added(s, two, in3) && x < 4 && (if x == 1 then !two else x !in in3)
    ensures Legal(s, DoAdd(x))
    ensures Added(Apply(s, DoAdd(x)), two || x == 1, if x == 1 then in3 else in3 + [x])
  {
    hide RtOk, LevelOk, ProcsOk, CurrentOk;
    assert !Queued(s, x) by { NotYetAdded(s, two, in3, x); }
    AddStepOk(s, x);
    AddNormal(s, x);
    QueuesAfterAdd(s.q, two, in3, x);
  }

  lemma NotYetAdded(s: Sched, two: bool, in3: seq<nat>, x: nat)
    requires Added(s, two, in3) && x < 4 && (if x == 1 then !two else x !in in3)
    ensures !Queued(s, x)
  {
    assert LevelOk(s, 3);
    assert s.q[3] == in3 && s.q[2] == if two then [1] else [];
  }

  lemma QueuesAfterAdd(q: seq<seq<nat>>, two: bool, in3: seq<nat>, x: nat)
    requires q == [[], [], if two then [1] else [], in3] && (x == 1 ==> !two)
    ensures x == 1 ==> q[2 := q[2] + [x]] == [[], [], [1], in3]
    ensures x != 1 ==> q[3 := q[3] + [x]] == [[], [], if two then [1] else [], in3 + [x]]
  {
    assert x == 1 ==> q[2] + [x] == [1];
  }

  /** The first dispatch: process 1, with 20 ticks. */
  lemma FirstDispatch(s: Sched, in3: seq<nat>)
    requires Added(s, true, in3) && in3 != []
    ensures Legal(s, DoYield) && At(Apply(s, DoYield), 0, 1, 20, in3)
    ensures NothingResumed(Apply(s, DoYield))
  {
    hide RtOk, LevelOk, Age;
    YieldOk(s, AfterYield);
    NextNormal(s);
    LowestFound(s.q, 0);
    YieldSteady(s, AfterYield);
    assert s.q[0] == [] && s.q[1] == [] && s.q[2] == [1];
    assert Lowest(s.q, 0) == 2;
    var r := Yield(s, AfterYield);
    assert s.q[2][1..] == [] && r.q == s.q[2 := []];
    assert r.q == [[], [], [], in3];
  }

  // -------------------------------------------------------------------------- the run

  /** The state and the steps before the clock starts. */
  lemma Prepare(s: Sched) returns (run: seq<Step>, r: Sched)
    requires Booted(s) && s.ticks == 0
    ensures Reaches(s, run, r) && At(r, 0, 1, 20, [0, 2, 3])
    ensures NothingResumed(r)
  {
    hide Booted, Allocated, Legal, Apply;
    BootAllocated(s);
    run, r := [], s;
    var n := 0;
    while n < 4
      invariant n <= 4 && Reaches(s, run, r) && Allocated(r, n)
    {
      var next := AllocateOne(r, n);
      ReachesConcat(s, run, r, [DoAlloc, DoSetPriority(n, PriorityOf(n))], next);
      run, r := run + [DoAlloc, DoSetPriority(n, PriorityOf(n))], next;
      n := n + 1;
    }
    AllocatedAdded(r);
    run, r := AddAll(s, run, r);
    FirstDispatch(r, [0, 2, 3]);
    ReachesThen(s, run, r, DoYield);
    run, r := run + [DoYield], Apply(r, DoYield);
  }

  lemma AddNext(s: Sched, run: seq<Step>, r: Sched, two: bool, in3: seq<nat>, x: nat)
    returns (run': seq<Step>, r': Sched)
    requires Reaches(s, run, r) && Added(r, two, in3) && x < 4 && (if x == 1 then !two else x !in in3)
    ensures Reaches(s, run', r') && Added(r', two || x == 1, if x == 1 then in3 else in3 + [x])
  {
    hide Added, Legal, Apply;
    AddOne(r, two, in3, x);
    ReachesThen(s, run, r, DoAdd(x));
    run', r' := run + [DoAdd(x)], Apply(r, DoAdd(x));
  }

  lemma AddAll(s: Sched, run: seq<Step>, r: Sched) returns (run': seq<Step>, r': Sched)
    requires Reaches(s, run, r) && Added(r, false, [])
    ensures Reaches(s, run', r') && Added(r', true, [0, 2, 3])
  {
    hide Added, Reaches;
    run', r' := AddNext(s, run, r, false, [], 1);
    run', r' := AddNext(s, run', r', true, [], 0);
    assert [] + [0] == [0];
    run', r' := AddNext(s, run', r', true, [0], 2);
    assert [0] + [2] == [0, 2];
    run', r' := AddNext(s, run', r', true, [0, 2], 3);
    assert [0, 2] + [3] == [0, 2, 3];
  }

  lemma BootAllocated(s: Sched)
    requires Booted(s) && s.ticks == 0
    ensures Allocated(s, 0) && Reaches(s, [], s)
  {
    InitialInv(s);
  }

  lemma AllocatedAdded(s: Sched)
    requires Allocated(s, 4)
    ensures Added(s, false, [])
  {}

  /** From boot there is a run of 100 ticks after which processes 1, 0 and 2 are still on level 3:
      the boost that docs/SCHEDULER.md promises every 100 ticks has not taken place. */
  lemma AgingMissedFromBoot(s: Sched) returns (run: seq<Step>)
    requires Booted(s) && s.ticks == 0
    ensures LegalRun(s, run) && Run(s, run).ticks == 100
    ensures Run(s, run).cur == Some(3) && Run(s, run).q == [[], [], [], [1, 0, 2]]
  {
    hide Booted, Reaches, At;
    var r0;
    run, r0 := Prepare(s);
    var r1 := WholeSlice(r0, 0, 1, 20, [0, 2, 3]);
    ReachesConcat(s, run, r0, Ticking(20), r1);
    assert [0, 2, 3][1..] + [1] == [2, 3, 1];
    var r2 := WholeSlice(r1, 20, 0, 40, [2, 3, 1]);
    run := run + Ticking(20);
    ReachesConcat(s, run, r1, Ticking(40), r2);
    assert [2, 3, 1][1..] + [0] == [3, 1, 0];
    var r3 := WholeSlice(r2, 60, 2, 40, [3, 1, 0]);
    run := run + Ticking(40);
    ReachesConcat(s, run, r2, Ticking(40), r3);
    assert [3, 1, 0][1..] + [2] == [1, 0, 2];
    run := run + Ticking(40);
    Arrived(s, run, r3, 100, 3, 40, [1, 0, 2]);
  }

  lemma Arrived(s: Sched, run: seq<Step>, r: Sched, t: nat, c: nat, k: nat, waiting: seq<nat>)
    requires Reaches(s, run, r) && At(r, t, c, k, waiting)
    ensures LegalRun(s, run) && Run(s, run).ticks == t
    ensures Run(s, run).cur == Some(c) && Run(s, run).q == [[], [], [], waiting]
  {}
}

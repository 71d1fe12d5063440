/** sched_set_priority, and what a priority means: of two real-time processes that wait, the one with
    the smaller number runs first. */
module Priorities {
  import opened Scheduling
  import opened Options
  import opened SchedulerInvariant
  import opened SchedulerRuns
  import opened Starvation

  /** v is the request, moved into 0..139. */
  predicate IsClamped(priority: int, v: int) {
    && 0 <= v <= 139
    && (v == priority || (v == 0 && priority < 0) || (v == 139 && priority > 139))
  }

  /** The levels of the priorities 100 to 139, ten to each. */
  predicate IsLevel(v: int, level: int) {
    && (100 <= v <= 109 ==> level == 0) && (110 <= v <= 119 ==> level == 1)
    && (120 <= v <= 129 ==> level == 2) && (130 <= v <= 139 ==> level == 3)
  }

  /** From s to r, process p has been given this priority, and nothing else has changed: a real-time
      priority makes it a round-robin process, any other sets its level. */
  predicate PrioritySet(s: Sched, r: Sched, p: nat, priority: int) {
    && p < |s.procs| == |r.procs| && r == s.(procs := r.procs)
    && (forall x :: 0 <= x < |s.procs| && x != p ==> r.procs[x] == s.procs[x])
    && var v := r.procs[p].priority;
    && IsClamped(priority, v)
    && r.procs[p] == s.procs[p].(priority := v, dynamicPriority := v, policy := r.procs[p].policy,
                     level := r.procs[p].level)
    && r.procs[p].policy == (if v <= 99 then RoundRobin else s.procs[p].policy)
    && (if v <= 99 then r.procs[p].level == s.procs[p].level else IsLevel(v, r.procs[p].level))
  }

  lemma SetPrioritySets(s: Sched, p: nat, priority: int)
    requires Shape(s) && p < MAX_PROCESSES
    ensures PrioritySet(s, SetPriority(s, p, priority), p, priority)
  {}

  // ------------------------------------------------------------------------------- steps

  /** The process a step gives the CPU to is the one sched_next chooses, whatever the step. */
  lemma StepNext(s: Sched, st: Step)
    requires Inv(s) && Legal(s, st)
    ensures var r := Apply(s, st); r.cur == s.cur || r.cur == Some(Next(s).proc)
  {
    hide QueuesOk, ProcsOk, CurrentOk, SliceOk, Yield, AgeCheck, Account, Next, Add, Placed;
    AccountCur(s);
    match st
    case DoYield =>
      YieldOk(s, AfterYield);
      YieldEffect(s, AfterYield);
      AgeCheckCurrent(Yield(s, AfterYield));
    case DoTick => TickNext(s);
    case DoAdd(p) => AddKeeps(s, p);
    case _ => OutsideStep(s, st);
  }

  lemma TickNext(s: Sched)
    requires Inv(s)
    ensures TickStep(s).cur == if SliceEnds(s) then Some(Next(s).proc) else s.cur
  {
    hide QueuesOk, ProcsOk, CurrentOk, SliceOk, Yield, AgeCheck, Account, Next, Placed;
    AccountCur(s);
    AccountEffect(s);
    AccountOk(s);
    var s1 := Account(s);
    if SliceEnds(s) {
      YieldOk(s1, AfterTick);
      YieldEffect(s1, AfterTick);
      AgeCheckCurrent(Yield(s1, AfterTick));
    } else if s.cur.Some? {
      AgeCheckCurrent(s1);
    }
  }

  predicate SameClass(s: Sched, r: Sched, x: nat) {
    && x < |s.procs| && x < |r.procs|
    && r.procs[x].policy == s.procs[x].policy && r.procs[x].priority == s.procs[x].priority
  }

  lemma AgeCheckClass(s: Sched, x: nat)
    requires Inv(s) && x <= IDLE
    ensures SameClass(s, AgeCheck(s), x)
  {
    hide RtOk, LevelOk, ProcsOk, CurrentOk, SliceOk, Age;
    AgeIs(s);
  }

  /** Policy and priority of a process in a place never change. */
  lemma StepKeepsClass(s: Sched, st: Step, x: nat)
    requires Inv(s) && Legal(s, st) && Placed(s, x)
    ensures SameClass(s, Apply(s, st), x)
  {
    hide QueuesOk, ProcsOk, CurrentOk, SliceOk, Yield, AgeCheck, Account, Next, Add, Queued;
    AccountCur(s);
    match st
    case DoYield =>
      YieldOk(s, AfterYield);
      YieldEffect(s, AfterYield);
      AgeCheckClass(Yield(s, AfterYield), x);
    case DoTick => TickKeepsClass(s, x);
    case DoAdd(p) => AddKeeps(s, p);
    case _ => OutsideStep(s, st);
  }

  lemma TickKeepsClass(s: Sched, x: nat)
    requires Inv(s) && x <= IDLE
    ensures SameClass(s, TickStep(s), x)
  {
    hide QueuesOk, ProcsOk, CurrentOk, SliceOk, Yield, AgeCheck, Account, Next, Placed;
    AccountCur(s);
    AccountEffect(s);
    AccountOk(s);
    var s1 := Account(s);
    if SliceEnds(s) {
      YieldOk(s1, AfterTick);
      YieldEffect(s1, AfterTick);
      AgeCheckClass(Yield(s1, AfterTick), x);
    } else if s.cur.Some? {
      AgeCheckClass(s1, x);
    }
  }

  // ------------------------------------------------------------------------ who runs first

  /** p and q wait in the real-time array, and p has the smaller number. */
  predicate Ahead(s: Sched, p: nat, q: nat) {
    p in s.rt && q in s.rt && p < |s.procs| && q < |s.procs| && s.procs[p].priority < s.procs[q].priority
  }

  /** A waiting process of real-time policy that is not dispatched still waits in the array. */
  lemma InArray(s: Sched, x: nat)
    requires Inv(s) && Placed(s, x) && s.cur != Some(x) && s.procs[x].policy != Normal
    ensures x in s.rt
  {
    hide RtOk, LevelOk, ProcsOk, CurrentOk, SliceOk;
    ExactlyOnePlace(s, x);
  }

  lemma AheadFacts(s: Sched, p: nat, q: nat)
    requires Inv(s) && Ahead(s, p, q)
    ensures Placed(s, p) && Placed(s, q) && s.cur != Some(p) && s.cur != Some(q)
    ensures s.procs[p].policy != Normal && s.procs[q].policy != Normal
    ensures Next(s).proc != q
  {
    hide LevelOk, ProcsOk, SliceOk, Next;
    NextRealTime(s);
  }

  lemma StepKeepsAhead(s: Sched, st: Step, p: nat, q: nat)
    requires Inv(s) && Legal(s, st) && Ahead(s, p, q)
    ensures Apply(s, st).cur == Some(p) || Ahead(Apply(s, st), p, q)
  {
    hide QueuesOk, ProcsOk, CurrentOk, SliceOk, Apply, Legal, Next, Queued;
    AheadFacts(s, p, q);
    StepOk(s, st);
    StepNext(s, st);
    StepKeepsClass(s, st, p);
    StepKeepsClass(s, st, q);
    var r := Apply(s, st);
    if r.cur != Some(p) {
      InArray(r, p);
      InArray(r, q);
    }
  }

  /** In every run, the waiting process with the larger number gets the CPU only after the other one
      has had it. */
  lemma {:induction false} SmallerFirst(s: Sched, run: seq<Step>, p: nat, q: nat)
    requires Inv(s) && LegalRun(s, run) && Ahead(s, p, q) && Dispatched(s, run, q)
    ensures Dispatched(s, run, p)
    decreases |run|
  {
    hide Inv, Legal, Apply, Ahead;
    AheadFacts(s, p, q);
    var r := Apply(s, run[0]);
    StepOk(s, run[0]);
    StepKeepsAhead(s, run[0], p, q);
    if r.cur != Some(p) { SmallerFirst(r, run[1..], p, q); }
  }

  /** Two processes given real-time priorities a < b and added, in either order: whatever happens
      then, the one with a is dispatched first. */
  lemma PriorityDecides(s: Sched, p: nat, a: int, q: nat, b: int, pFirst: bool, t: Sched, run: seq<Step>)
    requires Inv(s) && p != q && a < b && 0 < b <= 99
    requires var add := if pFirst then [DoAdd(p), DoAdd(q)] else [DoAdd(q), DoAdd(p)];
             Reaches(s, [DoSetPriority(p, a), DoSetPriority(q, b)] + add, t)
    requires LegalRun(t, run) && Dispatched(t, run, q)
    ensures Dispatched(t, run, p)
  {
    hide Inv, Legal, Apply, Ahead, Dispatched;
    var x, y := if pFirst then p else q, if pFirst then q else p;
    var steps := [DoSetPriority(p, a), DoSetPriority(q, b), DoAdd(x), DoAdd(y)];
    assert [DoSetPriority(p, a), DoSetPriority(q, b)] + (if pFirst then [DoAdd(p), DoAdd(q)] else [DoAdd(q), DoAdd(p)])
        == steps;
    FourSteps(s, steps, t);
    BothWait(s, p, a, q, b, x, y);
    SmallerFirst(t, run, p, q);
  }

  lemma FourSteps(s: Sched, run: seq<Step>, t: Sched)
    requires |run| == 4 && Reaches(s, run, t)
    ensures Legal(s, run[0])
    ensures var s1 := Apply(s, run[0]);
            && Legal(s1, run[1])
            && var s2 := Apply(s1, run[1]);
            && Legal(s2, run[2])
            && var s3 := Apply(s2, run[2]);
            Legal(s3, run[3]) && t == Apply(s3, run[3])
  {
    hide Legal, Apply;
    var r1 := run[1..];
    var r2 := r1[1..];
    var r3 := r2[1..];
    assert r1[0] == run[1] && r2[0] == run[2] && r3[0] == run[3] && r3[1..] == [];
    var s1 := Apply(s, run[0]);
    assert LegalRun(s1, r1) && Run(s1, r1) == t;
    var s2 := Apply(s1, run[1]);
    assert LegalRun(s2, r2) && Run(s2, r2) == t;
    var s3 := Apply(s2, run[2]);
    assert LegalRun(s3, r3) && Run(s3, r3) == t;
    assert Run(Apply(s3, run[3]), r3[1..]) == Apply(s3, run[3]);
  }

  lemma BothWait(s: Sched, p: nat, a: int, q: nat, b: int, x: nat, y: nat)
    requires Inv(s) && p != q && a < b && 0 < b <= 99 && ((x == p && y == q) || (x == q && y == p))
    requires Legal(s, DoSetPriority(p, a))
    requires Legal(Apply(s, DoSetPriority(p, a)), DoSetPriority(q, b))
    requires var s2 := Apply(Apply(s, DoSetPriority(p, a)), DoSetPriority(q, b));
             Legal(s2, DoAdd(x)) && Legal(Apply(s2, DoAdd(x)), DoAdd(y))
    ensures var s2 := Apply(Apply(s, DoSetPriority(p, a)), DoSetPriority(q, b));
            var t := Apply(Apply(s2, DoAdd(x)), DoAdd(y));
            Inv(t) && Ahead(t, p, q)
  {
    hide QueuesOk, ProcsOk, CurrentOk, SliceOk, SetPriority, Add, Queued;
    var s1 := SetPriority(s, p, a);
    StepOk(s, DoSetPriority(p, a));
    SetPrioritySets(s, p, a);
    var s2 := SetPriority(s1, q, b);
    StepOk(s1, DoSetPriority(q, b));
    SetPrioritySets(s1, q, b);
    StepOk(s2, DoAdd(x));
    AddKeeps(s2, x);
    var s3 := Add(s2, x);
    StepOk(s3, DoAdd(y));
    AddKeeps(s3, y);
    InArray(Add(s3, y), p);
    InArray(Add(s3, y), q);
  }

  // ------------------------------------------------------------------------- round robin

  /** A round-robin process with at most one tick left loses the CPU at the next tick to the process
      that is next, be it idle, and waits in the array again. */
  lemma RoundRobinPreempted(s: Sched)
    requires Inv(s) && s.cur.Some? && s.procs[s.cur.value].policy == RoundRobin && s.procs[s.cur.value].slice <= 1
    ensures var c, r := s.cur.value, TickStep(s);
            Inv(r) && r.cur == Some(Next(s).proc) && r.cur != Some(c) && c in r.rt
  {
    hide QueuesOk, CurrentOk, SliceOk, TickStep, Next, Queued;
    var c := s.cur.value;
    AccountCur(s);
    assert Placed(s, c);
    TickStepOk(s);
    TickNext(s);
    NextFresh(s);
    TickKeepsClass(s, c);
    InArray(TickStep(s), c);
  }
}

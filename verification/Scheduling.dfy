/** The scheduler of kernel/process/scheduler.c as a step system on values: four feedback
    levels, a real-time queue, an idle process, demotion, aging and tick accounting. */
module Scheduling {
  import opened Bits
  import opened Options

  const MAX_PROCESSES: nat := 64
  const IDLE: nat := 64                    // the idle process, after the 64 table slots
  const LEVELS: nat := 4

  datatype ProcState = Unused | Runnable | Running | Sleeping | Zombie
  datatype Policy = Normal | Fifo | RoundRobin | IdleClass

  /** The registers swtch saves and restores. */
  datatype Context = Context(ra: Word, sp: Word, s0: Word, s1: Word, s2: Word, s3: Word, s4: Word,
                             s5: Word, s6: Word, s7: Word, s8: Word, s9: Word, s10: Word, s11: Word)

  const ZEROS: Context := Context(0, 0, 0, 0, 0, 0, 0, 0, 0, 0, 0, 0, 0, 0)

  /** What a switched-out process does when it is resumed: start, return from a voluntary yield,
      or go on with sched_tick after its call of sched_yield. */
  datatype Resume = Fresh | AfterYield | AfterTick

  datatype Proc = Proc(pid: nat, state: ProcState, priority: int, dynamicPriority: int, policy: Policy,
                       level: int, slice: nat, cpuTime: nat, switches: nat, startTime: nat, lastRun: nat,
                       ctx: Context, resume: Resume)

  /** ticks is the global tick counter; cpuTicks and idleTicks are the CPU's own. */
  datatype Sched = Sched(procs: seq<Proc>, rt: seq<nat>, q: seq<seq<nat>>, cur: Option<nat>,
                         ticks: nat, cpuTicks: nat, idleTicks: nat, nextPid: nat, regs: Context)

  predicate Shape(s: Sched) {
    && |s.procs| == 65 && |s.q| == LEVELS
    && (forall i :: 0 <= i < |s.rt| ==> s.rt[i] < MAX_PROCESSES)
    && (forall l, i :: 0 <= l < LEVELS && 0 <= i < |s.q[l]| ==> s.q[l][i] < MAX_PROCESSES)
    && (s.cur.Some? ==> s.cur.value <= IDLE)
  }

  function SliceOf(level: nat): nat {
    if level == 0 then 5 else if level == 1 then 10 else if level == 2 then 20 else 40
  }

  // ------------------------------------------------------------------ queues

  /** mlfq_enqueue: silently drops on a full queue. */
  function Enqueue(q: seq<nat>, p: nat): seq<nat> {
    if |q| >= MAX_PROCESSES then q else q + [p]
  }

  /** The sorted insertion of rt_enqueue: from the back, past every larger priority number. */
  function Insert(procs: seq<Proc>, rt: seq<nat>, p: nat): seq<nat>
    requires p < |procs| && forall i :: 0 <= i < |rt| ==> rt[i] < |procs|
  {
    if rt == [] || procs[rt[|rt| - 1]].priority <= procs[p].priority then rt + [p]
    else Insert(procs, rt[..|rt| - 1], p) + [rt[|rt| - 1]]
  }

  function RtEnqueue(procs: seq<Proc>, rt: seq<nat>, p: nat): seq<nat>
    requires p < |procs| && forall i :: 0 <= i < |rt| ==> rt[i] < |procs|
  {
    if |rt| >= MAX_PROCESSES then rt else Insert(procs, rt, p)
  }

  function Clamp(level: int): nat {
    if level < 0 then 0 else if level >= LEVELS then LEVELS - 1 else level
  }

  // -------------------------------------------------------------- operations

  function Set(s: Sched, p: nat, x: Proc): Sched
    requires p < |s.procs|
  {
    s.(procs := s.procs[p := x])
  }

  /** sched_add. */
  function Add(s: Sched, p: nat): Sched
    requires Shape(s) && p < MAX_PROCESSES
  {
    var s1 := Set(s, p, s.procs[p].(state := Runnable));
    match s.procs[p].policy
    case Fifo | RoundRobin => s1.(rt := RtEnqueue(s1.procs, s.rt, p))
    case IdleClass => s1
    case Normal =>
      var l := Clamp(s.procs[p].level);
      s1.(q := s.q[l := Enqueue(s.q[l], p)])
  }

  /** The lowest-numbered nonempty level from l on; LEVELS if there is none. */
  function Lowest(q: seq<seq<nat>>, l: nat): (r: nat)
    requires |q| == LEVELS && l <= LEVELS
    decreases LEVELS - l
  {
    if l == LEVELS then LEVELS else if q[l] != [] then l else Lowest(q, l + 1)
  }

  datatype Choice = Choice(proc: nat, s: Sched)

  /** sched_next: the process chosen, and the state with it removed from its queue. */
  function Next(s: Sched): Choice
    requires Shape(s)
  {
    if s.rt != [] then Choice(s.rt[0], s.(rt := s.rt[1..]))
    else
      var l := Lowest(s.q, 0);
      LowestFound(s.q, 0);
      if l == LEVELS then Choice(IDLE, s)
      else
        var p := s.q[l][0];
        Choice(p, Set(s, p, s.procs[p].(slice := SliceOf(l))).(q := s.q[l := s.q[l][1..]]))
  }

  lemma {:induction false} LowestFound(q: seq<seq<nat>>, l: nat)
    requires |q| == LEVELS && l <= LEVELS
    ensures l <= Lowest(q, l) <= LEVELS
    ensures Lowest(q, l) < LEVELS ==> q[Lowest(q, l)] != []
    ensures forall k :: l <= k < Lowest(q, l) ==> q[k] == []
    decreases LEVELS - l
  {
    if l < LEVELS && q[l] == [] { LowestFound(q, l + 1); }
  }

  /** context_switch, first half: what happens to the outgoing process. */
  function Requeue(s: Sched, prev: nat): Sched
    requires Shape(s) && prev <= IDLE
  {
    var x := s.procs[prev];
    if x.state != Running then s
    else
      var y := x.(switches := x.switches + 1);
      if prev == IDLE then Set(s, prev, y.(state := Runnable))
      else if x.policy == Normal then
        var level := if x.slice == 0 && x.level < LEVELS - 1 then x.level + 1 else x.level;
        Add(Set(s, prev, y.(level := level, state := Runnable)), prev)
      else if x.policy == RoundRobin then Add(Set(s, prev, y.(state := Runnable)), prev)
      else Set(s, prev, y)
  }

  /** context_switch, second half, with swtch. */
  function Load(s: Sched, prev: Option<nat>, next: nat, why: Resume): Sched
    requires |s.procs| == 65 && next <= IDLE && (prev.Some? ==> prev.value <= IDLE && prev.value != next)
  {
    var x := s.procs[next];
    var s1 := Set(s, next, x.(state := Running, lastRun := s.ticks, switches := x.switches + 1)).(cur := Some(next));
    var s2 := if prev.None? then s1
              else Set(s1, prev.value, s1.procs[prev.value].(ctx := s.regs, resume := why));
    s2.(regs := x.ctx)
  }

  function Switch(s: Sched, prev: Option<nat>, next: nat, why: Resume): Sched
    requires Shape(s) && next <= IDLE && (prev.Some? ==> prev.value <= IDLE)
  {
    if prev == Some(next) then s
    else if prev.None? then Load(s, prev, next, why)
    else Load(Requeue(s, prev.value), prev, next, why)
  }

  /** sched_yield, up to the moment another process runs. */
  function Yield(s: Sched, why: Resume): Sched
    requires Shape(s)
  {
    var c := Next(s);
    LowestFound(s.q, 0);
    ShapeNext(s);
    Switch(c.s, s.cur, c.proc, why)
  }

  lemma ShapeNext(s: Sched)
    requires Shape(s)
    ensures Shape(Next(s).s) && Next(s).proc <= IDLE
  {
    LowestFound(s.q, 0);
  }

  /** One process moved to level 0 by aging. */
  function Boost(s: Sched, p: nat): Sched
    requires Shape(s) && p < MAX_PROCESSES
  {
    if s.procs[p].policy != Normal then s
    else Set(s, p, s.procs[p].(level := 0, slice := SliceOf(0))).(q := s.q[0 := Enqueue(s.q[0], p)])
  }

  /** The aging loop over level l: each process is taken off the level, and boosted. */
  function Drain(s: Sched, l: nat): (r: Sched)
    requires Shape(s) && 0 < l < LEVELS
    ensures Shape(r)
    decreases |s.q[l]|
  {
    if s.q[l] == [] then s
    else
      var p := s.q[l][0];
      var s1 := s.(q := s.q[l := s.q[l][1..]]);
      assert Shape(s1);
      Drain(Boost(s1, p), l)
  }

  function Age(s: Sched): Sched
    requires Shape(s)
  {
    Drain(Drain(Drain(s, 1), 2), 3)
  }

  /** The end of sched_tick. */
  function AgeCheck(s: Sched): Sched
    requires Shape(s)
  {
    if s.ticks % 100 == 0 then Age(s) else s
  }

  /** sched_tick up to its call of sched_yield: the counters and the time slice. */
  function Account(s: Sched): Sched
    requires Shape(s)
  {
    var s1 := s.(ticks := s.ticks + 1, cpuTicks := s.cpuTicks + 1);
    if s.cur.None? then s1
    else
      var p := s.cur.value;
      var x := s.procs[p];
      Set(s1, p, x.(cpuTime := x.cpuTime + 1, slice := if x.slice > 0 then x.slice - 1 else 0))
      .(idleTicks := if p == IDLE then s.idleTicks + 1 else s.idleTicks)
  }

  /** sched_tick calls sched_yield. */
  predicate Expired(s: Sched)
    requires Shape(s) && s.cur.Some?
  {
    var x := s.procs[s.cur.value];
    x.slice == 0 && (x.policy == Normal || x.policy == RoundRobin)
  }

  /** What the process that runs after a switch does first: one that was switched out inside
      sched_tick goes through the end of it. */
  function Resumed(s: Sched): Sched
    requires Shape(s)
  {
    if s.cur.Some? && s.procs[s.cur.value].resume == AfterTick then AgeCheck(s) else s
  }

  lemma ShapeYield(s: Sched, why: Resume)
    requires Shape(s)
    ensures Shape(Yield(s, why))
  {
    ShapeNext(s);
    var c := Next(s);
    if s.cur.Some? && s.cur != Some(c.proc) { ShapeRequeue(c.s, s.cur.value); }
  }

  lemma ShapeRequeue(s: Sched, prev: nat)
    requires Shape(s) && prev <= IDLE
    ensures Shape(Requeue(s, prev))
  {
    hide Add;
    var x := s.procs[prev];
    var y := x.(switches := x.switches + 1, state := Runnable);
    if prev < IDLE {
      var level := if x.slice == 0 && x.level < LEVELS - 1 then x.level + 1 else x.level;
      ShapeAdd(Set(s, prev, y.(level := level)), prev);
      ShapeAdd(Set(s, prev, y), prev);
    }
  }

  lemma ShapeAdd(s: Sched, p: nat)
    requires Shape(s) && p < MAX_PROCESSES
    ensures Shape(Add(s, p))
  {
    InsertBounded(s.procs[p := s.procs[p].(state := Runnable)], s.rt, p);
  }

  lemma {:induction false} InsertBounded(procs: seq<Proc>, rt: seq<nat>, p: nat)
    requires |procs| == 65 && p < MAX_PROCESSES && forall i :: 0 <= i < |rt| ==> rt[i] < MAX_PROCESSES
    ensures |Insert(procs, rt, p)| == |rt| + 1
    ensures forall i :: 0 <= i < |rt| + 1 ==> Insert(procs, rt, p)[i] < MAX_PROCESSES
  {
    if rt != [] { InsertBounded(procs, rt[..|rt| - 1], p); }
  }

  /** A voluntary yield of the current process. */
  function YieldStep(s: Sched): Sched
    requires Shape(s)
  {
    var s1 := Yield(s, AfterYield);
    ShapeYield(s, AfterYield);
    if s1.cur == s.cur then s1 else Resumed(s1)
  }

  /** A timer interrupt. */
  function TickStep(s: Sched): Sched
    requires Shape(s)
  {
    var s1 := Account(s);
    if s.cur.None? then s1
    else if !Expired(s1) then AgeCheck(s1)
    else
      var s2 := Yield(s1, AfterTick);
      ShapeYield(s1, AfterTick);
      if s2.cur == s1.cur then AgeCheck(s2) else Resumed(s2)
  }

  /** process_alloc: the first unused slot, if any. */
  function FirstUnused(procs: seq<Proc>, i: nat): (r: nat)
    requires |procs| == 65 && i <= MAX_PROCESSES
    ensures i <= r <= MAX_PROCESSES
    ensures r < MAX_PROCESSES ==> procs[r].state == Unused
    ensures forall k :: i <= k < r ==> procs[k].state != Unused
    decreases MAX_PROCESSES - i
  {
    if i == MAX_PROCESSES || procs[i].state == Unused then i else FirstUnused(procs, i + 1)
  }

  function Alloc(s: Sched): Choice
    requires Shape(s)
  {
    var p := FirstUnused(s.procs, 0);
    if p == MAX_PROCESSES then Choice(p, s)
    else
      var x := s.procs[p].(pid := s.nextPid, state := Runnable, priority := 100, dynamicPriority := 100,
               policy := Normal, level := 0, slice := 0, cpuTime := 0, switches := 0,
               startTime := s.ticks, lastRun := 0);
      Choice(p, Set(s, p, x).(nextPid := s.nextPid + 1))
  }

  /** process_free. */
  function Release(s: Sched, p: nat): Sched
    requires Shape(s) && p < MAX_PROCESSES
  {
    Set(s, p, s.procs[p].(state := Unused, pid := 0, priority := 0, dynamicPriority := 0, level := 0,
        slice := 0, cpuTime := 0, switches := 0))
  }

  /** sched_set_priority. */
  function SetPriority(s: Sched, p: nat, priority: int): Sched
    requires Shape(s) && p < MAX_PROCESSES
  {
    var v := if priority < 0 then 0 else if priority > 139 then 139 else priority;
    var x := s.procs[p].(priority := v, dynamicPriority := v);
    if v <= 99 then Set(s, p, x.(policy := RoundRobin))
    else Set(s, p, x.(level := (v - 100) * 4 / 40))
  }

  function SetPolicy(s: Sched, p: nat, policy: Policy): Sched
    requires Shape(s) && p < MAX_PROCESSES
  {
    Set(s, p, s.procs[p].(policy := policy))
  }
}

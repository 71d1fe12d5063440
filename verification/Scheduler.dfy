/** kernel/process/scheduler.c, process.c and swtch as they run: the process table, the queues and
    the CPU, updated in place; each operation computes the state that module Scheduling gives it. */
module KernelScheduler {
  import opened Bits
  import opened Scheduling
  import opened Options
  import opened ReadyQueues
  import opened SchedulerRuns
  import opened Priorities
  import Charges

  /** The registers of the CPU that swtch moves. */
  class Cpu {
    var ra: Word
    var sp: Word
    var s0: Word
    var s1: Word
    var s2: Word
    var s3: Word
    var s4: Word
    var s5: Word
    var s6: Word
    var s7: Word
    var s8: Word
    var s9: Word
    var s10: Word
    var s11: Word

    ghost function Live(): Context
      reads this
    {
      Context(ra, sp, s0, s1, s2, s3, s4, s5, s6, s7, s8, s9, s10, s11)
    }

    constructor ()
      ensures Live() == Context(0, 0, 0, 0, 0, 0, 0, 0, 0, 0, 0, 0, 0, 0)
    {
      ra, sp, s0, s1, s2, s3, s4 := 0, 0, 0, 0, 0, 0, 0;
      s5, s6, s7, s8, s9, s10, s11 := 0, 0, 0, 0, 0, 0, 0;
    }

    /** swtch with a next context: the first half stores, the second half loads. */
    method Swtch(saved: Context, save: bool, next: Context) returns (kept: Context)
      modifies this
      ensures kept == if save then old(Live()) else saved
      ensures Live() == next
    {
      kept := saved;
      if save {
        kept := Context(ra, sp, s0, s1, s2, s3, s4, s5, s6, s7, s8, s9, s10, s11);
      }
      ra, sp := next.ra, next.sp;
      s0, s1, s2, s3, s4, s5 := next.s0, next.s1, next.s2, next.s3, next.s4, next.s5;
      s6, s7, s8, s9, s10, s11 := next.s6, next.s7, next.s8, next.s9, next.s10, next.s11;
    }
  }

  class Scheduler {
    const procs: array<Proc>          // proc_table, and the idle process at index 64
    const r0: Ring                    // ready_queues[0..3]
    const r1: Ring
    const r2: Ring
    const r3: Ring
    const rt: RtQueue
    const cpu: Cpu
    var cur: Option<nat>              // cpu_data[0].current
    var ticks: nat                    // global_ticks
    var cpuTicks: nat                 // cpu_data[0].ticks
    var idleTicks: nat
    var nextPid: nat
    ghost var s: Sched                // the state all of this represents

    /** The structures are separate. */
    ghost predicate Separate()
      reads this
    {
      && procs.Length == 65
      && r0 != r1 && r0 != r2 && r0 != r3 && r1 != r2 && r1 != r3 && r2 != r3
      && r0.queue != r1.queue && r0.queue != r2.queue && r0.queue != r3.queue
      && r1.queue != r2.queue && r1.queue != r3.queue && r2.queue != r3.queue
      && rt.queue != r0.queue && rt.queue != r1.queue && rt.queue != r2.queue && rt.queue != r3.queue
    }

    /** Everything the scheduler writes. */
    ghost function Repr(): set<object> {
      {this, procs, r0, r1, r2, r3, rt, cpu, r0.queue, r1.queue, r2.queue, r3.queue, rt.queue}
    }

    ghost predicate Valid()
      reads this, procs, r0, r1, r2, r3, rt, cpu, r0.queue, r1.queue, r2.queue, r3.queue, rt.queue
    {
      && Separate() && Shape(s)
      && procs[..] == s.procs && rt.Is(s.rt)
      && r0.Is(s.q[0]) && r1.Is(s.q[1]) && r2.Is(s.q[2]) && r3.Is(s.q[3])
      && cur == s.cur && ticks == s.ticks && cpuTicks == s.cpuTicks && idleTicks == s.idleTicks
      && nextPid == s.nextPid && cpu.Live() == s.regs
    }

    /** scheduler_init and process_init on zeroed memory. */
    constructor ()
      ensures Valid() && s == Boot() && Booted(s)
      ensures fresh(procs) && fresh(r0) && fresh(r1) && fresh(r2) && fresh(r3) && fresh(rt) && fresh(cpu)
      ensures fresh(r0.queue) && fresh(r1.queue) && fresh(r2.queue) && fresh(r3.queue) && fresh(rt.queue)
    {
      hide Ring.Is, RtQueue.Is, Shape, Boot, BootProc, Booted;
      var table := new Proc[65](i => BootProc(i));
      procs := table;
      r0 := new Ring();
      r1 := new Ring();
      r2 := new Ring();
      r3 := new Ring();
      rt := new RtQueue();
      cpu := new Cpu();
      cur := None;
      ticks, cpuTicks, idleTicks, nextPid := 0, 0, 0, 1;
      s := Boot();
      new;
      BootOk(table[..]);
    }

    /** A store into the record of process p. */
    method Update(p: nat, x: Proc)
      requires Valid() && p <= IDLE
      modifies this`s, procs
      ensures Valid() && s == Set(old(s), p, x)
    {
      hide Shape, Ring.Is, RtQueue.Is;
      ShapeSet(s, p, x);
      procs[p] := x;
      s := Set(s, p, x);
      assert procs[..] == s.procs;
    }

    /** mlfq_enqueue(&ready_queues[l], p). */
    method EnqueueAt(l: nat, p: nat)
      requires Valid() && l < LEVELS && p < MAX_PROCESSES
      modifies this`s, r0, r1, r2, r3, r0.queue, r1.queue, r2.queue, r3.queue
      ensures Valid() && s == old(s).(q := old(s).q[l := Enqueue(old(s).q[l], p)])
    {
      hide Shape, Ring.Is, RtQueue.Is;
      ShapeLevel(s, l, p);
      if l == 0 { r0.Enqueue(p, s.q[0]); }
      else if l == 1 { r1.Enqueue(p, s.q[1]); }
      else if l == 2 { r2.Enqueue(p, s.q[2]); }
      else { r3.Enqueue(p, s.q[3]); }
      s := s.(q := s.q[l := Enqueue(s.q[l], p)]);
    }

    /** mlfq_dequeue(&ready_queues[l]). */
    method DequeueAt(l: nat) returns (p: Option<nat>)
      requires Valid() && l < LEVELS
      modifies this`s, r0, r1, r2, r3
      ensures Valid()
      ensures old(s).q[l] == [] ==> p == None && s == old(s)
      ensures old(s).q[l] != [] ==> p == Some(old(s).q[l][0]) && s == old(s).(q := old(s).q[l := old(s).q[l][1..]])
    {
      hide Shape, Ring.Is, RtQueue.Is;
      ShapeLevel(s, l, 0);
      if l == 0 { p := r0.Dequeue(s.q[0]); }
      else if l == 1 { p := r1.Dequeue(s.q[1]); }
      else if l == 2 { p := r2.Dequeue(s.q[2]); }
      else { p := r3.Dequeue(s.q[3]); }
      if s.q[l] != [] { s := s.(q := s.q[l := s.q[l][1..]]); }
    }

    /** sched_add. */
    method SchedAdd(p: nat)
      requires Valid() && p < MAX_PROCESSES
      modifies Repr()
      ensures Valid() && s == Add(old(s), p)
    {
      hide Shape, Ring.Is, RtQueue.Is, RtEnqueue, Enqueue;
      ghost var s0 := s;
      ShapeParts(s);
      Update(p, procs[p].(state := Runnable));
      ShapeAdd(s0, p);
      if procs[p].policy == Fifo || procs[p].policy == RoundRobin {
        rt.Enqueue(procs, p, s.rt);
        s := s.(rt := RtEnqueue(s.procs, s.rt, p));
      } else if procs[p].policy == IdleClass {
        return;
      } else {
        var level := procs[p].level;
        if level < 0 { level := 0; }
        if level >= LEVELS { level := LEVELS - 1; }
        EnqueueAt(level, p);
      }
    }

    /** rt_dequeue(&rt_queue) on a nonempty queue. */
    method RtFront() returns (p: nat)
      requires Valid() && s.rt != []
      modifies this`s, rt, rt.queue
      ensures Valid() && p == old(s).rt[0] && s == old(s).(rt := old(s).rt[1..])
    {
      hide Shape, Ring.Is, RtQueue.Is;
      ShapeParts(s);
      ShapeTail(s);
      var front := rt.Dequeue(s.rt);
      p := front.value;
      s := s.(rt := s.rt[1..]);
    }

    /** sched_next. */
    method SchedNext() returns (p: nat)
      requires Valid()
      modifies Repr()
      ensures Valid() && Choice(p, s) == Next(old(s)) && p <= IDLE && cur == old(cur)
      ensures old(s).rt == [] && p != IDLE ==>
                var l := Lowest(old(s).q, 0); l < LEVELS && s.procs[p].slice == [5, 10, 20, 40][l]
    {
      hide Shape, Ring.Is, RtQueue.Is, Lowest;
      ghost var s0 := s;
      ShapeParts(s);
      ShapeNext(s);
      LowestFound(s.q, 0);
      if rt.Size(s.rt) > 0 {
        p := RtFront();
        return;
      }
      var level := 0;
      while level < LEVELS
        invariant 0 <= level <= LEVELS && Valid() && s == s0
        invariant Lowest(s.q, level) == Lowest(s.q, 0)
      {
        LowestStep(s.q, level);
        var n := SizeAt(level);
        if n > 0 {
          var front := DequeueAt(level);
          p := front.value;
          Update(p, procs[p].(slice := SliceOf(level)));
          return;
        }
        level := level + 1;
      }
      LowestStep(s.q, LEVELS);
      p := IDLE;
    }

    /** ready_queues[l].size. */
    method SizeAt(l: nat) returns (n: nat)
      requires Valid() && l < LEVELS
      ensures n == |s.q[l]|
    {
      hide Shape, Ring.Is, RtQueue.Is;
      ShapeParts(s);
      if l == 0 { n := r0.Size(s.q[0]); }
      else if l == 1 { n := r1.Size(s.q[1]); }
      else if l == 2 { n := r2.Size(s.q[2]); }
      else { n := r3.Size(s.q[3]); }
    }

    /** context_switch. `why` records where the outgoing process will resume. */
    method ContextSwitch(prev: Option<nat>, next: nat, why: Resume)
      requires Valid() && next <= IDLE && (prev.Some? ==> prev.value <= IDLE)
      modifies Repr()
      ensures Valid() && s == Switch(old(s), prev, next, why)
    {
      hide Shape, Ring.Is, RtQueue.Is, Requeue, Load;
      ghost var s0 := s;
      ShapeParts(s);
      if prev == Some(next) {
        return;
      }
      if prev.Some? {
        PutBack(prev.value);
        ShapeRequeue(s0, prev.value);
      }
      LoadNext(prev, next, why);
    }

    /** The first half of context_switch: the outgoing process. */
    method PutBack(prev: nat)
      requires Valid() && prev <= IDLE
      modifies Repr()
      ensures Valid() && s == Requeue(old(s), prev)
    {
      hide Shape, Ring.Is, RtQueue.Is, Add;
      ghost var s0 := s;
      ShapeParts(s);
      if procs[prev].state != Running {
        return;
      }
      Update(prev, procs[prev].(switches := procs[prev].switches + 1));
      if prev == IDLE {
        Update(prev, procs[prev].(state := Runnable));
      } else if procs[prev].policy == Normal {
        if procs[prev].slice == 0 && procs[prev].level < LEVELS - 1 {
          Update(prev, procs[prev].(level := procs[prev].level + 1));
        }
        Update(prev, procs[prev].(state := Runnable));
        assert s == Set(s0, prev, s.procs[prev]);
        SchedAdd(prev);
      } else if procs[prev].policy == RoundRobin {
        Update(prev, procs[prev].(state := Runnable));
        assert s == Set(s0, prev, s.procs[prev]);
        SchedAdd(prev);
      }
    }

    /** The second half of context_switch, with swtch. */
    method LoadNext(prev: Option<nat>, next: nat, why: Resume)
      requires Valid() && next <= IDLE && (prev.Some? ==> prev.value <= IDLE && prev.value != next)
      modifies Repr()
      ensures Valid() && s == Load(old(s), prev, next, why)
    {
      hide Shape, Ring.Is, RtQueue.Is;
      ShapeParts(s);
      Update(next, procs[next].(state := Running));
      Update(next, procs[next].(lastRun := ticks));
      Update(next, procs[next].(switches := procs[next].switches + 1));
      SetCurrent(next);
      if prev.Some? {
        var ctx := Swtch(procs[prev.value].ctx, true, procs[next].ctx);
        Update(prev.value, procs[prev.value].(ctx := ctx));
        Update(prev.value, procs[prev.value].(resume := why));
      } else {
        var ctx := Swtch(ZEROS, false, procs[next].ctx);
      }
    }

    method SetCurrent(p: nat)
      requires Valid() && p <= IDLE
      modifies this
      ensures Valid() && s == old(s).(cur := Some(p))
    {
      hide Shape, Ring.Is, RtQueue.Is;
      ShapeCounters(s);
      cur := Some(p);
      s := s.(cur := Some(p));
    }

    /** swtch on this CPU; `save` is false where the old context pointer is NULL. */
    method Swtch(saved: Context, save: bool, next: Context) returns (ctx: Context)
      requires Valid()
      modifies this`s, cpu
      ensures Valid() && s == old(s).(regs := next)
      ensures ctx == if save then old(s).regs else saved
    {
      hide Shape, Ring.Is, RtQueue.Is;
      ShapeCounters(s);
      ctx := cpu.Swtch(saved, save, next);
      s := s.(regs := next);
    }

    /** sched_yield, up to the moment the next process runs. */
    method SchedYield(why: Resume)
      requires Valid()
      modifies Repr()
      ensures Valid() && s == Yield(old(s), why)
    {
      hide Shape, Ring.Is, RtQueue.Is, Next, Switch;
      ghost var s0 := s;
      ShapeParts(s0);
      ShapeNext(s0);
      var prev := cur;
      var next := SchedNext();
      ContextSwitch(prev, next, why);
    }

    /** The counters and the time slice at the start of sched_tick. */
    method CountTick()
      requires Valid()
      modifies this, procs
      ensures Valid() && s == Account(old(s))
    {
      hide Shape, Ring.Is, RtQueue.Is;
      ghost var s0 := s;
      ShapeCounters(s);
      ShapeParts(s);
      ticks := ticks + 1;
      cpuTicks := cpuTicks + 1;
      s := s.(ticks := ticks, cpuTicks := cpuTicks, idleTicks := idleTicks);
      if cur.None? {
        return;
      }
      var p := cur.value;
      Update(p, procs[p].(cpuTime := procs[p].cpuTime + 1));
      if p == IDLE {
        CountIdle();
      }
      if procs[p].slice > 0 {
        Update(p, procs[p].(slice := procs[p].slice - 1));
      }
      assert s == Account(s0);
    }

    method CountIdle()
      requires Valid()
      modifies this
      ensures Valid() && s == old(s).(idleTicks := old(s).idleTicks + 1)
    {
      hide Shape, Ring.Is, RtQueue.Is;
      ShapeCounters(s);
      idleTicks := idleTicks + 1;
      s := s.(ticks := ticks, cpuTicks := cpuTicks, idleTicks := idleTicks);
    }

    /** The aging loop over one level. */
    method DrainLevel(level: nat)
      requires Valid() && 0 < level < LEVELS
      modifies Repr()
      ensures Valid() && s == Drain(old(s), level)
    {
      hide Ring.Is, RtQueue.Is, Drain, Boost;
      var n := SizeAt(level);
      while n > 0
        invariant Valid() && n == |s.q[level]| && Drain(s, level) == Drain(old(s), level)
        decreases n
      {
        DrainTurn(s, level);
        BoostFront(level);
        n := SizeAt(level);
      }
      DrainDone(s, level);
    }

    /** Its body: the front process is taken off and boosted. */
    method BoostFront(level: nat)
      requires Valid() && 0 < level < LEVELS && s.q[level] != []
      modifies Repr()
      ensures Valid() && s == Boost(old(s).(q := old(s).q[level := old(s).q[level][1..]]), old(s).q[level][0])
      ensures |s.q[level]| == |old(s).q[level]| - 1
    {
      hide Ring.Is, RtQueue.Is, Enqueue;
      ghost var s1 := s.(q := s.q[level := s.q[level][1..]]);
      var front := DequeueAt(level);
      var p := front.value;
      if procs[p].policy == Normal {
        Update(p, procs[p].(level := 0));
        Update(p, procs[p].(slice := SliceOf(0)));
        assert s == Set(s1, p, s1.procs[p].(level := 0, slice := SliceOf(0)));
        EnqueueAt(0, p);
      }
    }

    /** The end of sched_tick: aging on every multiple of 100. */
    method AgeTail()
      requires Valid()
      modifies Repr()
      ensures Valid() && s == AgeCheck(old(s))
    {
      hide Shape, Ring.Is, RtQueue.Is, Drain;
      if ticks % 100 == 0 {
        for level := 1 to LEVELS
          invariant Valid()
          invariant s == DrainedTo(old(s), level)
        {
          DrainLevel(level);
        }
      }
    }

    /** sched_tick, and what runs after it: the end of sched_tick is reached by the interrupted
        process itself, or by the process switched to if that one was interrupted there before. */
    method SchedTick()
      requires Valid()
      modifies Repr()
      ensures Valid() && s == TickStep(old(s))
      ensures Charges.ChargedTo(old(s), s)
    {
      hide Shape, Ring.Is, RtQueue.Is, Yield, AgeCheck, Account, Charges.ChargedTo;
      ghost var s0 := s;
      AccountShape(s0);
      Charges.TickCharges(s0);
      var p := cur;
      CountTick();
      if p.None? {
        return;
      }
      var x := procs[p.value];
      if x.slice == 0 && (x.policy == Normal || x.policy == RoundRobin) {
        ghost var s1 := s;
        SchedYield(AfterTick);
        ShapeYield(s1, AfterTick);
        ShapeParts(s);
        if cur == p || (cur.Some? && procs[cur.value].resume == AfterTick) {
          AgeTail();
        }
      } else {
        AgeTail();
      }
    }

    /** A yield of the current process, and what runs after it. */
    method YieldCpu()
      requires Valid()
      modifies Repr()
      ensures Valid() && s == YieldStep(old(s))
    {
      hide Shape, Ring.Is, RtQueue.Is, Yield, AgeCheck;
      ghost var s0 := s;
      var p := cur;
      SchedYield(AfterYield);
      ShapeYield(s0, AfterYield);
      ShapeParts(s);
      if cur != p && cur.Some? && procs[cur.value].resume == AfterTick {
        AgeTail();
      }
    }

    /** process_alloc; None for NULL. */
    method ProcessAlloc() returns (r: Option<nat>)
      requires Valid()
      modifies this, procs
      ensures Valid() && s == Alloc(old(s)).s
      ensures r == if Alloc(old(s)).proc == MAX_PROCESSES then None else Some(Alloc(old(s)).proc)
    {
      hide Shape, Ring.Is, RtQueue.Is;
      ghost var s0 := s;
      ShapeCounters(s);
      for i := 0 to MAX_PROCESSES
        invariant Valid() && s == s0 && FirstUnused(s.procs, i) == FirstUnused(s.procs, 0)
      {
        if procs[i].state == Unused {
          var x := procs[i];
          var pid := nextPid;
          TakePid();
          Update(i, x.(pid := pid, state := Runnable, priority := 100, dynamicPriority := 100,
                 policy := Normal, level := 0, slice := 0, cpuTime := 0, switches := 0,
                 startTime := ticks, lastRun := 0));
          return Some(i);
        }
      }
      r := None;
    }

    /** process_free. */
    method ProcessFree(p: nat)
      requires Valid() && p < MAX_PROCESSES
      modifies this, procs
      ensures Valid() && s == Release(old(s), p)
    {
      hide Shape, Ring.Is, RtQueue.Is;
      ShapeParts(s);
      var x := procs[p].(state := Unused, pid := 0, priority := 0, dynamicPriority := 0);
      Update(p, x.(level := 0, slice := 0, cpuTime := 0, switches := 0));
    }

    /** next_pid++. */
    method TakePid()
      requires Valid()
      modifies this
      ensures Valid() && s == old(s).(nextPid := old(s).nextPid + 1)
    {
      hide Shape, Ring.Is, RtQueue.Is;
      ShapeCounters(s);
      nextPid := nextPid + 1;
      s := s.(nextPid := nextPid);
    }

    /** sched_set_priority. */
    method SchedSetPriority(p: nat, priority: int)
      requires Valid() && p < MAX_PROCESSES
      modifies this, procs
      ensures Valid() && s == SetPriority(old(s), p, priority)
      ensures PrioritySet(old(s), s, p, priority)
    {
      hide Shape, Ring.Is, RtQueue.Is;
      ghost var s0 := s;
      ShapeParts(s);
      var v := priority;
      if v < 0 { v := 0; }
      if v > 139 { v := 139; }
      Update(p, procs[p].(priority := v));
      Update(p, procs[p].(dynamicPriority := v));
      if v <= 99 {
        Update(p, procs[p].(policy := RoundRobin));
      } else {
        var range := 139 - 100 + 1;
        var level := (v - 100) * LEVELS / range;
        if level >= LEVELS { level := LEVELS - 1; }
        Update(p, procs[p].(level := level));
      }
      assert s == SetPriority(s0, p, priority);
      SetPrioritySets(s0, p, priority);
    }
  }

  /** The table after process_init, with the idle process after init_idle_process. */
  function BootProc(i: nat): Proc {
    if i == IDLE then Proc(0xFFFF_FFFF_FFFF_FFFF, Runnable, 139, 0, IdleClass, 3, 0, 0, 0, 0, 0, ZEROS, Fresh)
    else Proc(0, Unused, 0, 0, Normal, 0, 0, 0, 0, 0, 0, ZEROS, Fresh)
  }

  function Boot(): Sched {
    Sched(seq(65, i requires 0 <= i => BootProc(i)), [], [[], [], [], []], None, 0, 0, 0, 1, ZEROS)
  }

  lemma BootOk(table: seq<Proc>)
    requires |table| == 65 && forall i :: 0 <= i < 65 ==> table[i] == BootProc(i)
    ensures table == Boot().procs && Booted(Boot()) && Shape(Boot())
    ensures Boot() == Sched(table, [], [[], [], [], []], None, 0, 0, 0, 1, ZEROS)
  {}

  lemma ShapeSet(s: Sched, p: nat, x: Proc)
    requires Shape(s) && p <= IDLE
    ensures |s.procs| == 65 && |s.q| == LEVELS && Shape(Set(s, p, x))
  {}

  lemma ShapeLevel(s: Sched, l: nat, p: nat)
    requires Shape(s) && l < LEVELS && p < MAX_PROCESSES
    ensures |s.procs| == 65 && |s.q| == LEVELS
    ensures Shape(s.(q := s.q[l := Enqueue(s.q[l], p)]))
    ensures s.q[l] != [] ==> Shape(s.(q := s.q[l := s.q[l][1..]]))
  {}

  lemma ShapeParts(s: Sched)
    requires Shape(s)
    ensures |s.procs| == 65 && |s.q| == LEVELS
    ensures forall i :: 0 <= i < |s.rt| ==> s.rt[i] < MAX_PROCESSES
    ensures s.cur.Some? ==> s.cur.value <= IDLE
  {}

  lemma ShapeCounters(s: Sched)
    requires Shape(s)
    ensures |s.procs| == 65 && |s.q| == LEVELS
    ensures forall p: nat :: p <= IDLE ==> Shape(s.(cur := Some(p)))
    ensures forall c: Context :: Shape(s.(regs := c))
    ensures forall t: nat, c: nat, i: nat :: Shape(s.(ticks := t, cpuTicks := c, idleTicks := i))
    ensures forall n: nat :: Shape(s.(nextPid := n))
  {}

  /** The state after aging the levels below l. */
  ghost function DrainedTo(s: Sched, l: nat): Sched
    requires Shape(s) && 1 <= l <= LEVELS
  {
    if l == 1 then s
    else if l == 2 then Drain(s, 1)
    else if l == 3 then Drain(Drain(s, 1), 2)
    else Age(s)
  }

  lemma DrainTurn(s: Sched, l: nat)
    requires Shape(s) && 0 < l < LEVELS && s.q[l] != []
    ensures var s1 := s.(q := s.q[l := s.q[l][1..]]);
            Shape(s1) && Shape(Boost(s1, s.q[l][0])) && Drain(s, l) == Drain(Boost(s1, s.q[l][0]), l)
  {}

  lemma DrainDone(s: Sched, l: nat)
    requires Shape(s) && 0 < l < LEVELS && s.q[l] == []
    ensures Drain(s, l) == s
  {}

  lemma AccountShape(s: Sched)
    requires Shape(s)
    ensures Shape(Account(s)) && Account(s).cur == s.cur && |Account(s).procs| == 65
    ensures s.cur.Some? ==> s.cur.value <= IDLE
  {}

  lemma ShapeTail(s: Sched)
    requires Shape(s) && s.rt != []
    ensures Shape(s.(rt := s.rt[1..]))
  {}

  lemma LowestStep(q: seq<seq<nat>>, l: nat)
    requires |q| == LEVELS && l <= LEVELS
    ensures Lowest(q, l) == if l == LEVELS then LEVELS else if q[l] != [] then l else Lowest(q, l + 1)
  {}
}

/** What every step of the scheduler keeps: each process in at most one place, in the queue its
    policy and level name, running exactly when it is current; and no queue ever overflows. */
module SchedulerInvariant {
  import opened Scheduling
  import opened Options
  import opened Sequences

  predicate InLevels(s: Sched, x: nat)
    requires |s.q| == LEVELS
  {
    x in s.q[0] || x in s.q[1] || x in s.q[2] || x in s.q[3]
  }

  /** x waits in some queue. */
  predicate Queued(s: Sched, x: nat)
    requires |s.q| == LEVELS
  {
    x in s.rt || InLevels(s, x)
  }

  predicate Sorted(procs: seq<Proc>, rt: seq<nat>) {
    && (forall i :: 0 <= i < |rt| ==> rt[i] < |procs|)
    && (forall i, j :: 0 <= i < j < |rt| ==> procs[rt[i]].priority <= procs[rt[j]].priority)
  }

  predicate RtOk(s: Sched) {
    && |s.procs| == 65 && NoDup(s.rt) && Sorted(s.procs, s.rt)
    && (forall x :: x in s.rt ==> x < MAX_PROCESSES && s.procs[x].state == Runnable
                                  && (s.procs[x].policy == Fifo || s.procs[x].policy == RoundRobin))
  }

  predicate LevelOk(s: Sched, l: nat)
    requires |s.q| == LEVELS && l < LEVELS
  {
    && |s.procs| == 65 && NoDup(s.q[l])
    && (forall x :: x in s.q[l] ==> x < MAX_PROCESSES && s.procs[x].state == Runnable
                                    && s.procs[x].policy == Normal && s.procs[x].level == l)
  }

  predicate QueuesOk(s: Sched) {
    Shape(s) && RtOk(s) && LevelOk(s, 0) && LevelOk(s, 1) && LevelOk(s, 2) && LevelOk(s, 3)
  }

  predicate ProcsOk(s: Sched) {
    && |s.procs| == 65
    && (forall x :: 0 <= x <= IDLE ==> 0 <= s.procs[x].level < LEVELS)
    && (forall x :: 0 <= x <= IDLE ==> (s.procs[x].policy == IdleClass <==> x == IDLE))
    && (forall x :: 0 <= x <= IDLE && s.procs[x].state == Unused ==> s.procs[x].level == 0)
    && (s.procs[IDLE].state == Runnable || s.procs[IDLE].state == Running)
  }

  /** A process is RUNNING exactly when it is the current one. */
  predicate CurrentOk(s: Sched) {
    && |s.procs| == 65
    && (forall x :: 0 <= x <= IDLE ==> (s.procs[x].state == Running <==> s.cur == Some(x)))
  }

  predicate Base(s: Sched) { QueuesOk(s) && ProcsOk(s) && CurrentOk(s) }

  /** A running normal process has between 1 and its level's slice of ticks left. */
  predicate SliceOk(s: Sched)
    requires Shape(s)
  {
    s.cur.Some? && s.procs[s.cur.value].policy == Normal && 0 <= s.procs[s.cur.value].level ==>
      1 <= s.procs[s.cur.value].slice <= SliceOf(s.procs[s.cur.value].level)
  }

  predicate Inv(s: Sched) { Base(s) && SliceOk(s) }

  // ---------------------------------------------------------- no queue overflows

  /** An enqueue of a process that is not yet in the queue is never dropped. */
  lemma NoDrop(q: seq<nat>, p: nat)
    requires NoDup(q) && p !in q && p < MAX_PROCESSES && forall x :: x in q ==> x < MAX_PROCESSES
    ensures |q| < MAX_PROCESSES && Enqueue(q, p) == q + [p] && NoDup(q + [p])
  {
    NoDupConcat(q, [p]);
    Pigeonhole(q + [p], MAX_PROCESSES);
  }

  // ---------------------------------------------------------- sorted insertion

  /** rt_enqueue keeps the order and adds exactly p, behind every process that is at least as
      urgent and before every less urgent one; the others keep their order. */
  lemma {:induction false} InsertPlace(procs: seq<Proc>, rt: seq<nat>, p: nat) returns (k: nat)
    requires p < |procs| && Sorted(procs, rt)
    ensures k <= |rt| && Insert(procs, rt, p) == rt[..k] + [p] + rt[k..]
    ensures forall i :: 0 <= i < k ==> procs[rt[i]].priority <= procs[p].priority
    ensures forall i :: k <= i < |rt| ==> procs[rt[i]].priority > procs[p].priority
  {
    hide Sorted;
    SortedKnown(procs, rt);
    var n := |rt|;
    if rt == [] || procs[rt[n - 1]].priority <= procs[p].priority {
      k := n;
      assert rt[..n] == rt && rt[n..] == [];
    } else {
      SortedPrefix(procs, rt, n - 1);
      k := InsertPlace(procs, rt[..n - 1], p);
      PrefixInsert(rt, k, p);
      assert forall i :: 0 <= i < n - 1 ==> rt[..n - 1][i] == rt[i];
    }
  }

  lemma SortedKnown(procs: seq<Proc>, rt: seq<nat>)
    requires Sorted(procs, rt)
    ensures forall i :: 0 <= i < |rt| ==> rt[i] < |procs|
    ensures forall i :: 0 <= i < |rt| ==> procs[rt[i]].priority <= procs[rt[|rt| - 1]].priority
  {}

  lemma SortedPrefix(procs: seq<Proc>, rt: seq<nat>, n: nat)
    requires Sorted(procs, rt) && n <= |rt|
    ensures Sorted(procs, rt[..n])
  {}

  lemma PrefixInsert(rt: seq<nat>, k: nat, p: nat)
    requires k < |rt|
    ensures var t := rt[..|rt| - 1];
            t[..k] + [p] + t[k..] + [rt[|rt| - 1]] == rt[..k] + [p] + rt[k..]
  {
    var t := rt[..|rt| - 1];
    assert t[..k] == rt[..k] && t[k..] + [rt[|rt| - 1]] == rt[k..];
  }

  lemma InsertOk(procs: seq<Proc>, rt: seq<nat>, p: nat)
    requires p < |procs| && Sorted(procs, rt) && NoDup(rt) && p !in rt
    ensures Sorted(procs, Insert(procs, rt, p)) && NoDup(Insert(procs, rt, p))
    ensures forall x :: x in Insert(procs, rt, p) <==> x in rt || x == p
  {
    hide Insert;
    var k := InsertPlace(procs, rt, p);
    var a, b := rt[..k], rt[k..];
    assert rt == a + b;
    SplitOk(procs, a, b, p);
  }

  lemma SplitOk(procs: seq<Proc>, a: seq<nat>, b: seq<nat>, p: nat)
    requires p < |procs| && Sorted(procs, a + b) && NoDup(a + b) && p !in a + b
    requires forall i :: 0 <= i < |a| ==> procs[(a + b)[i]].priority <= procs[p].priority
    requires forall i :: |a| <= i < |a + b| ==> procs[(a + b)[i]].priority > procs[p].priority
    ensures Sorted(procs, a + [p] + b) && NoDup(a + [p] + b)
  {
    var s, t := a + b, a + [p] + b;
    forall i | 0 <= i < |t| ensures t[i] == Shifted(s, |a|, p, i) && t[i] < |procs| {
      assert i < |a| ==> s[i] == t[i];
      assert i > |a| ==> s[i - 1] == t[i];
    }
    forall i, j | 0 <= i < j < |t| ensures t[i] != t[j] && procs[t[i]].priority <= procs[t[j]].priority {
      assert t[i] == Shifted(s, |a|, p, i) && t[j] == Shifted(s, |a|, p, j);
    }
  }

  function Shifted(s: seq<nat>, k: nat, p: nat, i: nat): nat
    requires k <= |s| && i <= |s|
  {
    if i < k then s[i] else if i == k then p else s[i - 1]
  }

  // ------------------------------------------------------------ queue operations

  /** Fields of a process that waits in no queue do not matter to the queues. */
  lemma SetOutside(s: Sched, p: nat, x: Proc)
    requires QueuesOk(s) && p <= IDLE && !Queued(s, p)
    ensures QueuesOk(Set(s, p, x))
  {
    var s' := Set(s, p, x);
    assert forall y :: y in s.rt ==> s'.procs[y] == s.procs[y];
    assert forall i :: 0 <= i < |s.rt| ==> s.rt[i] in s.rt;
  }

  lemma AddNormal(s: Sched, p: nat)
    requires QueuesOk(s) && p < MAX_PROCESSES && !Queued(s, p)
    requires s.procs[p].policy == Normal && 0 <= s.procs[p].level < LEVELS
    ensures var l := s.procs[p].level;
            Add(s, p) == Set(s, p, s.procs[p].(state := Runnable)).(q := s.q[l := s.q[l] + [p]])
    ensures QueuesOk(Add(s, p))
    ensures forall x :: Queued(Add(s, p), x) <==> Queued(s, x) || x == p
  {
    var l := s.procs[p].level;
    var s1 := Set(s, p, s.procs[p].(state := Runnable));
    SetOutside(s, p, s.procs[p].(state := Runnable));
    assert LevelOk(s, l);
    NoDrop(s.q[l], p);
    var s2 := s1.(q := s.q[l := s.q[l] + [p]]);
    assert s2 == Add(s, p);
    assert LevelOk(s2, l);
  }

  lemma AddRealTime(s: Sched, p: nat)
    requires QueuesOk(s) && p < MAX_PROCESSES && !Queued(s, p)
    requires s.procs[p].policy == Fifo || s.procs[p].policy == RoundRobin
    ensures var s1 := Set(s, p, s.procs[p].(state := Runnable));
            Sorted(s1.procs, s.rt) && Add(s, p) == s1.(rt := Insert(s1.procs, s.rt, p))
    ensures QueuesOk(Add(s, p))
    ensures forall x :: Queued(Add(s, p), x) <==> Queued(s, x) || x == p
  {
    hide Insert;
    var s1 := Set(s, p, s.procs[p].(state := Runnable));
    SetOutside(s, p, s.procs[p].(state := Runnable));
    NoDrop(s.rt, p);
    InsertOk(s1.procs, s.rt, p);
  }

  /** Where sched_add puts a process, in any state: a real-time one into the array, a normal one at the
      end of its level, or of the nearest one there is, a process of the idle class nowhere; a full
      queue takes none. */
  lemma AddRoutes(s: Sched, p: nat, l: nat)
    requires Shape(s) && p < MAX_PROCESSES && l < LEVELS
    ensures var r, x := Add(s, p), s.procs[p];
            var into := x.policy == Normal && (x.level == l || (l == 0 && x.level < 0) || (l == 3 && x.level > 3));
            && |r.q| == LEVELS && r.q[l] == (if into && |s.q[l]| < 64 then s.q[l] + [p] else s.q[l])
            && |r.rt| == |s.rt| + (if (x.policy == Fifo || x.policy == RoundRobin) && |s.rt| < 64 then 1 else 0)
            && r.procs == s.procs[p := x.(state := Runnable)] && r.cur == s.cur
  {
    hide Insert;
    InsertBounded(s.procs[p := s.procs[p].(state := Runnable)], s.rt, p);
  }

  /** sched_add puts p into exactly one queue and moves nothing else. */
  lemma AddOk(s: Sched, p: nat)
    requires QueuesOk(s) && p < MAX_PROCESSES && !Queued(s, p)
    requires s.procs[p].policy != IdleClass && 0 <= s.procs[p].level < LEVELS
    ensures var s' := Add(s, p);
            && QueuesOk(s') && (forall x :: Queued(s', x) <==> Queued(s, x) || x == p)
            && s' == Set(s, p, s.procs[p].(state := Runnable)).(rt := s'.rt, q := s'.q)
  {
    hide Insert, RtOk, LevelOk;
    if s.procs[p].policy == Normal { AddNormal(s, p); } else { AddRealTime(s, p); }
  }

  /** What sched_next does: it takes one process off its queue, or chooses idle when there is
      none. */
  lemma NextOk(s: Sched)
    requires QueuesOk(s)
    ensures var c := Next(s);
            && QueuesOk(c.s) && c.s.cur == s.cur
            && (c.proc == IDLE ==> c.s == s && forall x :: !Queued(s, x))
            && (c.proc != IDLE ==>
                  && c.proc < MAX_PROCESSES && Queued(s, c.proc)
                  && (forall x :: Queued(c.s, x) <==> Queued(s, x) && x != c.proc))
  {
    LowestFound(s.q, 0);
    if s.rt != [] { NextRealTime(s); } else { NextNormal(s); }
  }

  lemma NextRealTime(s: Sched)
    requires QueuesOk(s) && s.rt != []
    ensures var p := s.rt[0];
            && Next(s) == Choice(p, s.(rt := s.rt[1..])) && QueuesOk(Next(s).s)
            && p < MAX_PROCESSES && s.procs[p].policy != Normal && s.procs[p].state == Runnable
            && (forall x :: Queued(Next(s).s, x) <==> Queued(s, x) && x != p)
            && (forall x :: x in s.rt ==> s.procs[p].priority <= s.procs[x].priority)
  {
    NoDupTail(s.rt);
    assert forall i :: 0 <= i < |s.rt[1..]| ==> s.rt[1..][i] == s.rt[i + 1];
  }

  lemma NextNormal(s: Sched)
    requires QueuesOk(s) && s.rt == []
    ensures var l := Lowest(s.q, 0);
            && l <= LEVELS && (forall k :: 0 <= k < l ==> s.q[k] == [])
            && (l == LEVELS ==> Next(s) == Choice(IDLE, s) && forall x :: !Queued(s, x))
            && (l < LEVELS ==>
                  && s.q[l] != [] && s.q[l][0] < MAX_PROCESSES
                  && var p := s.q[l][0];
                  && var x := s.procs[p].(slice := [5, 10, 20, 40][l]);
                  && Next(s) == Choice(p, Set(s, p, x).(q := s.q[l := s.q[l][1..]]))
                  && QueuesOk(Next(s).s)
                  && s.procs[p].policy == Normal && s.procs[p].level == l && s.procs[p].state == Runnable
                  && (forall x :: Queued(Next(s).s, x) <==> Queued(s, x) && x != p))
  {
    LowestFound(s.q, 0);
    var l := Lowest(s.q, 0);
    if l < LEVELS {
      assert LevelOk(s, l);
      NoDupTail(s.q[l]);
      var p := s.q[l][0];
      var s1 := s.(q := s.q[l := s.q[l][1..]]);
      assert QueuesOk(s1);
      assert !Queued(s1, p);
      SetOutside(s1, p, s.procs[p].(slice := SliceOf(l)));
    }
  }

  // --------------------------------------------------------------------- switching

  /** Saving registers into a process that waits does not disturb its queue. */
  lemma SetSame(s: Sched, p: nat, x: Proc)
    requires QueuesOk(s) && p <= IDLE
    requires var y := s.procs[p];
             x.state == y.state && x.policy == y.policy && x.level == y.level && x.priority == y.priority
    ensures QueuesOk(Set(s, p, x))
  {
    var s' := Set(s, p, x);
    assert forall i :: 0 <= i < |s.rt| ==> s'.procs[s.rt[i]].priority == s.procs[s.rt[i]].priority;
    assert forall y :: 0 <= y <= IDLE ==> s'.procs[y].state == s.procs[y].state
                                          && s'.procs[y].policy == s.procs[y].policy
                                          && s'.procs[y].level == s.procs[y].level;
  }

  /** The level a normal process returns to: one down when its slice ran out. */
  function Demoted(x: Proc): int {
    if x.policy == Normal && x.slice == 0 && x.level < LEVELS - 1 then x.level + 1 else x.level
  }

  /** The outgoing process goes back into its queue, idle into none. */
  lemma RequeueOk(s: Sched, p: nat)
    requires QueuesOk(s) && p <= IDLE && !Queued(s, p)
    requires s.procs[p].state == Running && 0 <= s.procs[p].level < LEVELS && s.procs[p].policy != Fifo
    requires s.procs[p].policy == IdleClass <==> p == IDLE
    ensures var r, x := Requeue(s, p), s.procs[p];
            && QueuesOk(r)
            && r == Set(s, p, x.(switches := x.switches + 1, state := Runnable, level := Demoted(x)))
                    .(rt := r.rt, q := r.q)
            && (forall y :: Queued(r, y) <==> Queued(s, y) || (y == p && p != IDLE))
  {
    hide Insert, RtOk, LevelOk;
    var x := s.procs[p];
    var y := x.(switches := x.switches + 1, state := Runnable, level := Demoted(x));
    var s1 := Set(s, p, y);
    SetOutside(s, p, y);
    if p != IDLE { AddOk(s1, p); }
  }

  /** Loading process n, which waits nowhere, over a requeued state. */
  lemma LoadOk(s: Sched, prev: Option<nat>, n: nat, why: Resume)
    requires QueuesOk(s) && ProcsOk(s) && n <= IDLE && !Queued(s, n) && s.procs[n].state == Runnable
    requires prev.Some? ==> prev.value <= IDLE && prev.value != n
    requires forall x :: 0 <= x <= IDLE ==> s.procs[x].state != Running
    requires s.procs[n].policy == Normal ==> s.procs[n].slice == SliceOf(s.procs[n].level)
    ensures var r := Load(s, prev, n, why);
            Inv(r) && r.rt == s.rt && r.q == s.q && r.cur == Some(n)
  {
    hide RtOk, LevelOk;
    var x := s.procs[n];
    var x' := x.(state := Running, lastRun := s.ticks, switches := x.switches + 1);
    SetOutside(s, n, x');
    var s1 := Set(s, n, x');
    if prev.Some? {
      SetSame(s1, prev.value, s1.procs[prev.value].(ctx := s.regs, resume := why));
    }
    var r := Load(s, prev, n, why);
    assert RtOk(r) && LevelOk(r, 0) && LevelOk(r, 1) && LevelOk(r, 2) && LevelOk(r, 3) by {
      QueuesDependOn(r, if prev.None? then s1
                     else Set(s1, prev.value, s1.procs[prev.value].(ctx := s.regs, resume := why)));
    }
  }

  /** Queues speak of processes and queues only. */
  lemma QueuesDependOn(s: Sched, s': Sched)
    requires s.procs == s'.procs && s.rt == s'.rt && s.q == s'.q && QueuesOk(s')
    ensures RtOk(s) && LevelOk(s, 0) && LevelOk(s, 1) && LevelOk(s, 2) && LevelOk(s, 3)
  {}

  /** x waits in a queue or is current. */
  predicate Placed(s: Sched, x: nat)
    requires |s.q| == LEVELS
  {
    x < MAX_PROCESSES && (Queued(s, x) || s.cur == Some(x))
  }

  lemma QueuedRunnable(s: Sched, x: nat)
    requires QueuesOk(s) && Queued(s, x)
    ensures x < MAX_PROCESSES && s.procs[x].state == Runnable
  {}

  lemma QueuedPlaced(s: Sched)
    requires QueuesOk(s)
    ensures forall x :: Queued(s, x) ==> Placed(s, x)
  {
    forall x | Queued(s, x) ensures Placed(s, x) { QueuedRunnable(s, x); }
  }

  /** The process chosen is not the current one, unless that is idle. */
  lemma NextFresh(s: Sched)
    requires Base(s)
    ensures var n := Next(s).proc;
            && n <= IDLE && !Queued(Next(s).s, n) && (s.cur == Some(n) ==> n == IDLE)
            && (s.cur != Some(n) ==> Next(s).s.procs[n].state == Runnable)
            && (s.cur.Some? ==> !Queued(s, s.cur.value) && !Queued(Next(s).s, s.cur.value))
            && (Next(s).s.procs[n].policy == Normal ==> Next(s).s.procs[n].slice == SliceOf(Next(s).s.procs[n].level))
            && (forall x :: 0 <= x <= IDLE && x != n ==> Next(s).s.procs[x] == s.procs[x])
            && (forall x :: 0 <= x <= IDLE ==> Next(s).s.procs[x] == s.procs[x].(slice := Next(s).s.procs[x].slice))
  {
    hide RtOk, LevelOk;
    NextOk(s);
    LowestFound(s.q, 0);
    if s.rt != [] { NextRealTime(s); } else { NextNormal(s); }
    if s.cur.Some? && Queued(s, s.cur.value) { QueuedRunnable(s, s.cur.value); }
  }

  lemma BaseShape(s: Sched)
    requires Base(s)
    ensures Shape(s)
  {}

  /** A switch keeps the invariant and every process in its place, unless the outgoing process
      is a FIFO one. */
  lemma YieldOk(s: Sched, why: Resume)
    requires Base(s) && (s.cur.Some? ==> s.procs[s.cur.value].policy != Fifo)
    ensures Inv(Yield(s, why))
    ensures forall x :: Placed(Yield(s, why), x) <==> Placed(s, x)
  {
    hide QueuesOk, Lowest, Next, Load, Requeue;
    BaseShape(s);
    ShapeNext(s);
    NextOk(s);
    NextFresh(s);
    var c := Next(s);
    if s.cur == Some(c.proc) {
      assert Yield(s, why) == s;
    } else if s.cur.None? {
      LoadOk(c.s, s.cur, c.proc, why);
    } else {
      RequeueOk(c.s, s.cur.value);
      LoadOk(Requeue(c.s, s.cur.value), s.cur, c.proc, why);
    }
  }

  /** Loading a process changes nobody's policy, priority, level or slice. */
  lemma LoadEffect(s: Sched, prev: Option<nat>, n: nat, why: Resume)
    requires |s.procs| == 65 && n <= IDLE && (prev.Some? ==> prev.value <= IDLE && prev.value != n)
    ensures var r := Load(s, prev, n, why);
            && r.cur == Some(n) && r.ticks == s.ticks && r.rt == s.rt && r.q == s.q && |r.procs| == 65
            && (forall x :: 0 <= x <= IDLE ==>
                  && r.procs[x].policy == s.procs[x].policy && r.procs[x].priority == s.procs[x].priority
                  && r.procs[x].level == s.procs[x].level && r.procs[x].slice == s.procs[x].slice
                  && (prev != Some(x) ==> r.procs[x].resume == s.procs[x].resume))
  {}

  /** What a switch does to every process: the outgoing normal one may be demoted, nobody else
      changes policy, priority or level, and the next starts with a full slice. */
  lemma YieldEffect(s: Sched, why: Resume)
    requires Base(s) && (s.cur.Some? ==> s.procs[s.cur.value].policy != Fifo)
    ensures var r, n := Yield(s, why), Next(s).proc;
            && n <= IDLE && r.cur == Some(n) && r.ticks == s.ticks && |r.procs| == 65
            && (forall x :: 0 <= x <= IDLE ==>
                  && r.procs[x].policy == s.procs[x].policy && r.procs[x].priority == s.procs[x].priority
                  && r.procs[x].level == (if s.cur == Some(x) then Demoted(s.procs[x]) else s.procs[x].level)
                  && (s.cur != Some(x) ==> r.procs[x].resume == s.procs[x].resume))
            && (r.procs[n].policy == Normal ==> r.procs[n].slice == SliceOf(r.procs[n].level))
  {
    hide QueuesOk, Next, Load, Requeue, SliceOf;
    BaseShape(s);
    ShapeNext(s);
    NextTicks(s);
    NextOk(s);
    NextFresh(s);
    var c := Next(s);
    if s.cur.None? {
      LoadEffect(c.s, s.cur, c.proc, why);
    } else if s.cur != Some(c.proc) {
      RequeueOk(c.s, s.cur.value);
      LoadEffect(Requeue(c.s, s.cur.value), s.cur, c.proc, why);
    }
  }

  lemma NextTicks(s: Sched)
    requires Shape(s)
    ensures Next(s).s.ticks == s.ticks
  {
    LowestFound(s.q, 0);
  }

  // ------------------------------------------------------------------------ aging

  function Boosted(x: Proc): Proc { x.(level := 0, slice := 5) }

  /** Aging one process: level 0 gains it at the end. */
  lemma BoostOk(s: Sched, p: nat)
    requires QueuesOk(s) && p < MAX_PROCESSES && !Queued(s, p)
    requires s.procs[p].policy == Normal && s.procs[p].state == Runnable
    ensures Boost(s, p) == Set(s, p, Boosted(s.procs[p])).(q := s.q[0 := s.q[0] + [p]])
    ensures QueuesOk(Boost(s, p))
  {
    hide RtOk, LevelOk;
    SetOutside(s, p, Boosted(s.procs[p]));
    var s1 := Set(s, p, Boosted(s.procs[p]));
    AddNormal(s1, p);
    assert s1.procs[p].(state := Runnable) == s1.procs[p];
    assert Set(s1, p, s1.procs[p]) == s1;
    assert Boost(s, p) == Add(s1, p);
  }

  /** Taking the front process off a level. */
  lemma PopOk(s: Sched, l: nat)
    requires QueuesOk(s) && l < LEVELS && s.q[l] != []
    ensures var p, s1 := s.q[l][0], s.(q := s.q[l := s.q[l][1..]]);
            && p < MAX_PROCESSES && s.procs[p].policy == Normal && s.procs[p].state == Runnable
            && QueuesOk(s1) && !Queued(s1, p)
            && (forall x :: x in s.q[l] <==> x == p || x in s.q[l][1..])
            && p !in s.q[l][1..]
  {
    assert LevelOk(s, l);
    NoDupTail(s.q[l]);
  }

  /** One level drained: its processes follow level 0's, in order; nothing is lost. */
  lemma {:induction false} DrainIs(s: Sched, l: nat)
    requires QueuesOk(s) && 0 < l < LEVELS
    ensures var r := Drain(s, l);
            && QueuesOk(r) && r == s.(procs := r.procs, q := s.q[0 := s.q[0] + s.q[l]][l := []])
            && (forall x :: 0 <= x <= IDLE ==> r.procs[x] == if x in s.q[l] then Boosted(s.procs[x]) else s.procs[x])
    decreases |s.q[l]|
  {
    hide RtOk, LevelOk, Queued, Boosted;
    if s.q[l] == [] {
      assert s.q[0] + s.q[l] == s.q[0];
      assert s.q[0 := s.q[0] + s.q[l]][l := []] == s.q;
    } else {
      var p := s.q[l][0];
      var s1 := s.(q := s.q[l := s.q[l][1..]]);
      PopOk(s, l);
      BoostOk(s1, p);
      var s2 := Boost(s1, p);
      DrainIs(s2, l);
      assert s.q[0] + [p] + s.q[l][1..] == s.q[0] + s.q[l];
      assert s.q[0 := s.q[0] + s.q[l]][l := []] == s2.q[0 := s2.q[0] + s2.q[l]][l := []];
    }
  }

  /** Aging turns level 0 into the concatenation of levels 0, 1, 2 and 3, empties the others,
      and gives every process it moves level 0 and a fresh slice. */
  lemma AgeIs(s: Sched)
    requires QueuesOk(s)
    ensures var r := Age(s);
            && QueuesOk(r) && r == s.(procs := r.procs, q := [s.q[0] + s.q[1] + s.q[2] + s.q[3], [], [], []])
            && (forall x :: 0 <= x <= IDLE ==>
                  r.procs[x] == if x in s.q[1] || x in s.q[2] || x in s.q[3] then Boosted(s.procs[x]) else s.procs[x])
  {
    hide RtOk, LevelOk, Drain;
    DrainIs(s, 1);
    var s1 := Drain(s, 1);
    DrainIs(s1, 2);
    var s2 := Drain(s1, 2);
    DrainIs(s2, 3);
    assert s1.q == [s.q[0] + s.q[1], [], s.q[2], s.q[3]];
    assert s2.q == [s.q[0] + s.q[1] + s.q[2], [], [], s.q[3]];
    assert Age(s).q == [s.q[0] + s.q[1] + s.q[2] + s.q[3], [], [], []];
  }

  lemma AgeOk(s: Sched)
    requires Inv(s)
    ensures Inv(Age(s)) && forall x :: Placed(Age(s), x) <==> Placed(s, x)
  {
    hide RtOk, LevelOk, Age;
    AgeIs(s);
    if s.cur.Some? && Queued(s, s.cur.value) { QueuedRunnable(s, s.cur.value); }
  }

  lemma AgeCheckOk(s: Sched)
    requires Inv(s)
    ensures Inv(AgeCheck(s)) && forall x :: Placed(AgeCheck(s), x) <==> Placed(s, x)
  {
    hide Inv, Age, Placed;
    if s.ticks % 100 == 0 { AgeOk(s); }
  }

  /** Aging leaves the current process as it is. */
  lemma AgeCheckCurrent(s: Sched)
    requires Inv(s) && s.cur.Some?
    ensures var r := AgeCheck(s); |r.procs| == 65 && r.cur == s.cur && r.procs[s.cur.value] == s.procs[s.cur.value]
  {
    hide RtOk, LevelOk, ProcsOk, SliceOk, Age;
    AgeIs(s);
    if Queued(s, s.cur.value) { QueuedRunnable(s, s.cur.value); }
  }

  // ------------------------------------------------------------------------ steps

  lemma AccountOk(s: Sched)
    requires Inv(s)
    ensures Base(Account(s)) && (forall x :: Placed(Account(s), x) <==> Placed(s, x))
    ensures s.cur.None? || !Expired(Account(s)) ==> Inv(Account(s))
  {
    hide RtOk, LevelOk;
    if s.cur.Some? {
      var p := s.cur.value;
      if Queued(s, p) { QueuedRunnable(s, p); }
      SetOutside(s, p, Account(s).procs[p]);
      QueuesDependOn(Account(s), Set(s, p, Account(s).procs[p]));
    } else {
      QueuesDependOn(Account(s), s);
    }
  }

  /** The next tick uses up the slice of the current process, and sched_tick calls sched_yield. */
  predicate SliceEnds(s: Sched)
    requires Shape(s)
  {
    && s.cur.Some? && s.procs[s.cur.value].slice <= 1
    && (s.procs[s.cur.value].policy == Normal || s.procs[s.cur.value].policy == RoundRobin)
  }

  /** The counters of a tick: who is next and where everybody waits stays the same. */
  lemma AccountEffect(s: Sched)
    requires Inv(s)
    ensures var r := Account(s);
            && Base(r) && r.rt == s.rt && r.q == s.q && r.cur == s.cur && r.ticks == s.ticks + 1
            && (s.cur.Some? ==> (Expired(r) <==> SliceEnds(s)))
            && (s.cur.Some? && SliceEnds(s) ==> r.procs[s.cur.value].slice == 0)
            && Next(r).proc == Next(s).proc
            && (forall x :: 0 <= x <= IDLE ==>
                  r.procs[x] == s.procs[x].(cpuTime := r.procs[x].cpuTime, slice := r.procs[x].slice))
  {
    hide RtOk, LevelOk;
    AccountOk(s);
    LowestFound(s.q, 0);
  }

  lemma TickStepOk(s: Sched)
    requires Inv(s)
    ensures Inv(TickStep(s)) && forall x :: Placed(TickStep(s), x) <==> Placed(s, x)
  {
    hide QueuesOk, ProcsOk, CurrentOk, SliceOk, Yield, Age, Placed, Account;
    AccountCur(s);
    AccountOk(s);
    var s1 := Account(s);
    if s.cur.Some? {
      if Expired(s1) {
        YieldOk(s1, AfterTick);
        AgeCheckOk(Yield(s1, AfterTick));
      } else {
        AgeCheckOk(s1);
      }
    }
  }

  lemma AccountCur(s: Sched)
    requires Inv(s)
    ensures Shape(s) && Shape(Account(s)) && Account(s).cur == s.cur
  {}

  lemma YieldStepOk(s: Sched)
    requires Inv(s) && (s.cur.Some? ==> s.procs[s.cur.value].policy != Fifo)
    ensures Inv(YieldStep(s)) && forall x :: Placed(YieldStep(s), x) <==> Placed(s, x)
  {
    hide QueuesOk, ProcsOk, CurrentOk, Yield, Age, Placed;
    AccountCur(s);
    YieldOk(s, AfterYield);
    AgeCheckOk(Yield(s, AfterYield));
  }

  lemma AddStepOk(s: Sched, p: nat)
    requires Inv(s) && p < MAX_PROCESSES && !Placed(s, p)
    ensures Inv(Add(s, p)) && forall x :: Placed(Add(s, p), x) <==> Placed(s, x) || x == p
  {
    hide RtOk, LevelOk, Add;
    AddOk(s, p);
  }

  /** A process that waits nowhere may be changed, as long as it stays a table process. */
  lemma ChangeOk(s: Sched, p: nat, x: Proc, pid: nat)
    requires Inv(s) && p < MAX_PROCESSES && !Placed(s, p)
    requires x.policy != IdleClass && 0 <= x.level < LEVELS
    requires x.state != Running && (x.state == Unused ==> x.level == 0)
    ensures var r := Set(s, p, x).(nextPid := pid);
            Inv(r) && forall y :: Placed(r, y) <==> Placed(s, y)
  {
    hide RtOk, LevelOk;
    SetOutside(s, p, x);
    QueuesDependOn(Set(s, p, x).(nextPid := pid), Set(s, p, x));
  }
}

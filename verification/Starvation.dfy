/** Bounded waiting: as long as only normal processes are added, a process that waits is dispatched
    within a bounded number of ticks, under every interleaving of the scheduler's steps. */
module Starvation {
  import opened Scheduling
  import opened Options
  import opened SchedulerInvariant
  import opened SchedulerRuns
  import opened Sequences

  // ------------------------------------------------------------- position in a queue

  function Pos(q: seq<nat>, p: nat): (k: nat)
    requires p in q
    ensures k < |q| && q[k] == p
  {
    if q[0] == p then 0 else Pos(q[1..], p) + 1
  }

  lemma {:induction false} PosConcat(q: seq<nat>, t: seq<nat>, p: nat)
    requires p in q
    ensures p in q + t && Pos(q + t, p) == Pos(q, p)
  {
    if q[0] != p {
      assert (q + t)[1..] == q[1..] + t;
      PosConcat(q[1..], t, p);
    }
  }

  lemma PosTail(q: seq<nat>, p: nat)
    requires p in q && q[0] != p
    ensures p in q[1..] && Pos(q[1..], p) == Pos(q, p) - 1
  {
    assert q == [q[0]] + q[1..];
  }

  // ------------------------------------------------------------------ the potential

  /** How far a table slot can still be demoted; all the way while its process is in no place. */
  function Weight(s: Sched, x: nat): int
    requires x < |s.procs| && |s.q| == LEVELS
  {
    if Placed(s, x) then 3 - s.procs[x].level else 3
  }

  function Slack(s: Sched, n: nat): int
    requires n <= |s.procs| && |s.q| == LEVELS
  {
    if n == 0 then 0 else Slack(s, n - 1) + Weight(s, n - 1)
  }

  lemma {:induction false} SlackSame(s: Sched, r: Sched, n: nat)
    requires n <= |s.procs| == |r.procs| && |s.q| == |r.q| == LEVELS
    requires forall i :: 0 <= i < n ==> Weight(r, i) == Weight(s, i)
    ensures Slack(r, n) == Slack(s, n)
  {
    if n > 0 { SlackSame(s, r, n - 1); }
  }

  lemma {:induction false} SlackChange(s: Sched, r: Sched, n: nat, c: nat)
    requires c < n <= |s.procs| == |r.procs| && |s.q| == |r.q| == LEVELS
    requires forall i :: 0 <= i < n && i != c ==> Weight(r, i) == Weight(s, i)
    ensures Slack(r, n) == Slack(s, n) + Weight(r, c) - Weight(s, c)
  {
    hide Weight;
    if c == n - 1 { SlackSame(s, r, n - 1); } else { SlackChange(s, r, n - 1, c); }
  }

  lemma {:induction false} SlackBounds(s: Sched, n: nat)
    requires n <= |s.procs| && |s.q| == LEVELS && forall i :: 0 <= i < n ==> 0 <= s.procs[i].level <= 3
    ensures 0 <= Slack(s, n) <= 3 * n
  {
    if n > 0 { SlackBounds(s, n - 1); }
  }

  /** No process in any place but normal ones and idle. */
  predicate AllNormal(s: Sched) {
    && |s.procs| == 65 && s.rt == []
    && (s.cur.Some? && s.cur.value < MAX_PROCESSES ==> s.procs[s.cur.value].policy == Normal)
  }

  lemma AllNormalIff(s: Sched)
    requires Base(s)
    ensures AllNormal(s) <==> forall x: nat :: Placed(s, x) ==> s.procs[x].policy == Normal
  {
    if s.rt != [] {
      assert s.rt[0] in s.rt;
      assert Placed(s, s.rt[0]);
    }
  }

  /** p waits, and the CPU is not idle. */
  predicate Contending(s: Sched, p: nat) {
    Base(s) && AllNormal(s) && s.cur.Some? && s.cur.value < MAX_PROCESSES && InLevels(s, p)
  }

  predicate Waiting(s: Sched, p: nat) { Contending(s, p) && SliceOk(s) }

  /** How often aging can still be missed before p is dispatched. */
  function Misses(s: Sched, p: nat): int
    requires Contending(s, p)
  {
    Slack(s, MAX_PROCESSES)
    + (if p in s.q[3] then Pos(s.q[3], p) else 0)
    + (if s.procs[s.cur.value].level == 3 then 1 else 0)
  }

  /** Ticks until p is dispatched, at most. On level 0: the current slice and five ticks for each
      process ahead. Below: up to the next multiple of 100, and 100 more for each time aging can
      be missed there, and 350 from level 0 on. */
  function Bound(s: Sched, p: nat): int
    requires Contending(s, p)
  {
    if p in s.q[0] then s.procs[s.cur.value].slice + 5 * Pos(s.q[0], p)
    else 100 - s.ticks % 100 + 100 * Misses(s, p) + 350
  }

  // ------------------------------------------------------------------------ switching

  /** A switch between normal processes, in full. */
  lemma YieldIs(s: Sched, p: nat, why: Resume)
    requires Contending(s, p)
    ensures var l, c, r := Lowest(s.q, 0), s.cur.value, Yield(s, why);
            var d := Demoted(s.procs[c]);
            && l < LEVELS && s.q[l] != [] && (forall k :: 0 <= k < l ==> s.q[k] == []) && 0 <= d < LEVELS
            && Inv(r) && r.rt == [] && r.ticks == s.ticks
            && r.cur == Some(s.q[l][0]) && s.q[l][0] < MAX_PROCESSES
            && (var q1 := s.q[l := s.q[l][1..]]; r.q == q1[d := q1[d] + [c]])
            && r.procs[s.q[l][0]].slice == SliceOf(l)
            && (forall x :: 0 <= x <= IDLE ==> r.procs[x].policy == s.procs[x].policy)
            && (forall x :: 0 <= x <= IDLE ==> r.procs[x].level == if x == c then d else s.procs[x].level)
            && r.procs[s.q[l][0]].resume == s.procs[s.q[l][0]].resume
  {
    hide RtOk, LevelOk, Lowest;
    var c := s.cur.value;
    YieldOk(s, why);
    NextNormal(s);
    NextFresh(s);
    var n := Next(s);
    RequeueNormal(n.s, c);
  }

  lemma RequeueNormal(s: Sched, c: nat)
    requires QueuesOk(s) && c < MAX_PROCESSES && !Queued(s, c)
    requires s.procs[c].state == Running && 0 <= s.procs[c].level < LEVELS && s.procs[c].policy == Normal
    ensures var d, x := Demoted(s.procs[c]), s.procs[c];
            Requeue(s, c) == Set(s, c, x.(switches := x.switches + 1, state := Runnable, level := d))
            .(q := s.q[d := s.q[d] + [c]])
  {
    hide RtOk, LevelOk;
    var x := s.procs[c];
    var y := x.(switches := x.switches + 1, state := Runnable, level := Demoted(x));
    SetOutside(s, c, y);
    AddNormal(Set(s, c, y), c);
    assert Set(Set(s, c, y), c, y) == Set(s, c, y);
  }

  /** p stays where it is or moves up one place, unless it is the one dispatched. */
  lemma YieldKeepsWaiting(s: Sched, p: nat, why: Resume)
    requires Contending(s, p)
    ensures var r := Yield(s, why);
            && Inv(r)
            && (r.cur != Some(p) ==>
                  && Waiting(r, p) && (forall l :: 0 <= l < LEVELS ==> (p in r.q[l] <==> p in s.q[l]))
                  && (p in s.q[0] ==> Pos(r.q[0], p) == Pos(s.q[0], p) - 1 && r.procs[r.cur.value].slice == 5))
  {
    hide RtOk, LevelOk, ProcsOk, CurrentOk, SliceOk, Yield, Lowest;
    YieldIs(s, p, why);
    var r, l, c := Yield(s, why), Lowest(s.q, 0), s.cur.value;
    assert p != c by { CurrentNotQueued(s, p); }
    assert s.procs[s.q[l][0]].policy == Normal by { LevelMember(s, l); }
    if r.cur != Some(p) {
      var q1 := s.q[l := s.q[l][1..]];
      assert s.q[l] == [s.q[l][0]] + s.q[l][1..];
      if p in s.q[0] {
        assert l == 0;
        PosTail(s.q[0], p);
        var d := Demoted(s.procs[c]);
        PosConcat(s.q[0][1..], [c], p);
      }
    }
  }

  lemma CurrentNotQueued(s: Sched, p: nat)
    requires Contending(s, p)
    ensures s.cur.value != p && p < MAX_PROCESSES
  {
    QueuedRunnable(s, p);
  }

  /** A switch never makes more misses possible; one forced by an expired slice makes one fewer. */
  lemma YieldMisses(s: Sched, p: nat, why: Resume)
    requires Contending(s, p) && Yield(s, why).cur != Some(p) && p !in s.q[0]
    ensures Waiting(Yield(s, why), p)
    ensures Misses(Yield(s, why), p) <= Misses(s, p) - (if s.procs[s.cur.value].slice == 0 then 1 else 0)
  {
    hide RtOk, LevelOk, CurrentOk, SliceOk, Yield, Lowest, Slack;
    YieldIs(s, p, why);
    YieldKeepsWaiting(s, p, why);
    CurrentNotQueued(s, p);
    var r, l, c := Yield(s, why), Lowest(s.q, 0), s.cur.value;
    var n, d := s.q[l][0], Demoted(s.procs[c]);
    YieldOk(s, why);
    SlackChange(s, r, MAX_PROCESSES, c);
    assert c != n by { LevelMember(s, l); }
    assert r.procs[n].level == l by { LevelMember(s, l); }
    if p in s.q[3] {
      if l == 3 {
        PosTail(s.q[3], p);
        PosConcat(s.q[3][1..], [c], p);
      } else {
        PosConcat(s.q[3], [c], p);
      }
    }
  }

  lemma LevelMember(s: Sched, l: nat)
    requires Base(s) && s.cur.Some? && l < LEVELS && s.q[l] != []
    ensures s.q[l][0] != s.cur.value && s.q[l][0] < MAX_PROCESSES
    ensures s.procs[s.q[l][0]].level == l && s.procs[s.q[l][0]].policy == Normal
  {
    assert LevelOk(s, l);
    assert s.q[l][0] in s.q[l];
  }

  // ---------------------------------------------------------------------------- aging

  /** All waiting normal processes, in the order aging gives them. */
  function Lined(s: Sched): seq<nat>
    requires |s.q| == LEVELS
  {
    s.q[0] + s.q[1] + s.q[2] + s.q[3]
  }

  /** Together with the current process they fit into the table. */
  lemma LinedSize(s: Sched, p: nat)
    requires Contending(s, p)
    ensures |Lined(s)| <= 63 && p in Lined(s)
  {
    hide RtOk;
    var c := s.cur.value;
    assert LevelOk(s, 0) && LevelOk(s, 1) && LevelOk(s, 2) && LevelOk(s, 3);
    NoDupConcat(s.q[0], s.q[1]);
    NoDupConcat(s.q[0] + s.q[1], s.q[2]);
    NoDupConcat(s.q[0] + s.q[1] + s.q[2], s.q[3]);
    assert c !in Lined(s);
    NoDupConcat(Lined(s), [c]);
    Pigeonhole(Lined(s) + [c], MAX_PROCESSES);
  }

  /** Aging brings a process from below within 350 ticks, and delays none on level 0. */
  lemma AgeBound(s: Sched, p: nat)
    requires Waiting(s, p)
    ensures Waiting(Age(s), p) && p in Age(s).q[0]
    ensures Bound(Age(s), p) <= if p in s.q[0] then Bound(s, p) else 350
  {
    hide RtOk, LevelOk, ProcsOk, CurrentOk, Age;
    AgeOk(s);
    AgeIs(s);
    LinedSize(s, p);
    var r, c := Age(s), s.cur.value;
    assert r.q[0] == Lined(s);
    assert r.procs[c] == s.procs[c] by { CurrentKept(s, p); }
    assert forall x :: 0 <= x < IDLE ==> r.procs[x].policy == s.procs[x].policy;
    if p in s.q[0] {
      PosConcat(s.q[0], s.q[1], p);
      PosConcat(s.q[0] + s.q[1], s.q[2], p);
      PosConcat(s.q[0] + s.q[1] + s.q[2], s.q[3], p);
    } else {
      CurrentSlice(s, p);
    }
  }

  lemma CurrentKept(s: Sched, p: nat)
    requires Contending(s, p)
    ensures Age(s).procs[s.cur.value] == s.procs[s.cur.value]
  {
    hide RtOk, LevelOk, ProcsOk;
    AgeIs(s);
    if Queued(s, s.cur.value) { QueuedRunnable(s, s.cur.value); }
  }

  lemma CurrentSlice(s: Sched, p: nat)
    requires Waiting(s, p)
    ensures 1 <= s.procs[s.cur.value].slice <= 40
  {}

  /** Whether or not a multiple of 100 is on the clock when sched_tick's end is reached. */
  lemma AgeCheckBound(s: Sched, p: nat)
    requires Waiting(s, p)
    ensures Waiting(AgeCheck(s), p)
    ensures Bound(AgeCheck(s), p) <= Bound(s, p)
  {
    hide Waiting, Contending, Age, Bound;
    if s.ticks % 100 == 0 { AgeBound(s, p); BelowBound(s, p); }
  }

  lemma BelowBound(s: Sched, p: nat)
    requires Waiting(s, p)
    ensures 1 <= Bound(s, p) && (p !in s.q[0] ==> Bound(s, p) >= 351)
  {
    hide RtOk, LevelOk, Slack;
    SlackBounds(s, MAX_PROCESSES);
    CurrentSlice(s, p);
  }

  // ---------------------------------------------------------------------------- steps

  lemma YieldStepBound(s: Sched, p: nat)
    requires Waiting(s, p)
    ensures var r := YieldStep(s);
            r.cur == Some(p) || (Waiting(r, p) && Bound(r, p) <= Bound(s, p))
  {
    hide RtOk, LevelOk, ProcsOk, CurrentOk, Yield, Age, Slack;
    var r := Yield(s, AfterYield);
    YieldKeepsWaiting(s, p, AfterYield);
    if r.cur != Some(p) {
      if p !in s.q[0] { YieldMisses(s, p, AfterYield); YieldTicks(s, p, AfterYield); }
      AgeCheckBound(r, p);
    } else {
      ResumedCur(r);
    }
  }

  lemma YieldTicks(s: Sched, p: nat, why: Resume)
    requires Contending(s, p)
    ensures Yield(s, why).ticks == s.ticks && Yield(s, why).cur != s.cur
  {
    YieldIs(s, p, why);
    LevelMember(s, Lowest(s.q, 0));
  }

  /** Aging does not change who runs. */
  lemma ResumedCur(s: Sched)
    requires Inv(s)
    ensures Resumed(s).cur == s.cur && AgeCheck(s).cur == s.cur
  {
    hide Age, RtOk, LevelOk;
    AgeIs(s);
  }

  /** The counters and the slice: one tick less to wait, before anything else happens. */
  lemma AccountBound(s: Sched, p: nat)
    requires Waiting(s, p)
    ensures var r, c := Account(s), s.cur.value;
            && Contending(r, p) && r.q == s.q && r.cur == s.cur && r.ticks == s.ticks + 1
            && r.procs[c].slice == s.procs[c].slice - 1
            && (Expired(r) <==> s.procs[c].slice == 1) && (!Expired(r) ==> Waiting(r, p))
            && Misses(r, p) == Misses(s, p)
  {
    hide RtOk, LevelOk, Slack;
    AccountOk(s);
    CurrentSlice(s, p);
    SlackSame(s, Account(s), MAX_PROCESSES);
  }

  lemma TickStepBound(s: Sched, p: nat)
    requires Waiting(s, p)
    ensures var r := TickStep(s);
            r.cur == Some(p) || (Waiting(r, p) && Bound(r, p) <= Bound(s, p) - 1)
  {
    hide RtOk, LevelOk, ProcsOk, CurrentOk, SliceOk, Yield, Age, Slack, Account;
    AccountBound(s, p);
    BelowBound(s, p);
    var s1 := Account(s);
    if !Expired(s1) {
      TailBound(s, s1, p, true);
    } else {
      var s2 := Yield(s1, AfterTick);
      YieldKeepsWaiting(s1, p, AfterTick);
      YieldTicks(s1, p, AfterTick);
      if s2.cur != Some(p) {
        if p !in s.q[0] { YieldMisses(s1, p, AfterTick); }
        TailBound(s, s2, p, s2.procs[s2.cur.value].resume == AfterTick);
      } else {
        ResumedCur(s2);
      }
    }
  }

  /** The end of a tick, run or skipped: skipped only where a possible miss has been used up. */
  lemma TailBound(s: Sched, r: Sched, p: nat, runs: bool)
    requires Waiting(s, p) && Waiting(r, p) && r.ticks == s.ticks + 1 && (p in r.q[0] <==> p in s.q[0])
    requires p in s.q[0] ==> Bound(r, p) <= Bound(s, p) - 1
    requires p !in s.q[0] ==> Misses(r, p) <= Misses(s, p) - (if runs then 0 else 1)
    ensures var t := if runs then AgeCheck(r) else r;
            Waiting(t, p) && Bound(t, p) <= Bound(s, p) - 1
  {
    hide Waiting, Contending, Misses, Age;
    BelowBound(s, p);
    BelowBound(r, p);
    if runs && r.ticks % 100 == 0 { AgeBound(r, p); }
  }

  /** Steps that change processes in no place only. */
  lemma OutsideStepBound(s: Sched, st: Step, p: nat)
    requires Waiting(s, p) && Legal(s, st) && !st.DoAdd? && !st.DoYield? && !st.DoTick?
    ensures Waiting(Apply(s, st), p) && Bound(Apply(s, st), p) == Bound(s, p)
  {
    hide Waiting, Bound, Apply, Legal;
    WaitingInv(s, p);
    StepOk(s, st);
    OutsideStep(s, st);
    SameBound(s, Apply(s, st), p);
  }

  lemma WaitingInv(s: Sched, p: nat)
    requires Waiting(s, p)
    ensures Inv(s)
  {}

  /** Bound looks at the queues, the placed processes and the clock only. */
  lemma SameBound(s: Sched, r: Sched, p: nat)
    requires Waiting(s, p) && Inv(r) && r.q == s.q && r.rt == s.rt && r.cur == s.cur && r.ticks == s.ticks
    requires forall x: nat :: Placed(s, x) ==> r.procs[x] == s.procs[x]
    ensures Waiting(r, p) && Bound(r, p) == Bound(s, p)
  {
    hide RtOk, LevelOk, ProcsOk, CurrentOk, Slack;
    assert Placed(s, s.cur.value);
    SlackSame(s, r, MAX_PROCESSES);
  }

  lemma AddBound(s: Sched, x: nat, p: nat)
    requires Waiting(s, p) && x < MAX_PROCESSES && !Placed(s, x) && s.procs[x].policy == Normal
    ensures Waiting(Add(s, x), p) && Bound(Add(s, x), p) <= Bound(s, p)
  {
    hide RtOk, LevelOk, CurrentOk, SliceOk, Slack, Add;
    AddStepOk(s, x);
    AddNormal(s, x);
    if p in s.q[0] { PosConcat(s.q[0], [x], p); }
    if p in s.q[3] { PosConcat(s.q[3], [x], p); }
    SlackChange(s, Add(s, x), MAX_PROCESSES, x);
  }

  /** Only a normal process is ever added. */
  predicate NormalStep(s: Sched, st: Step)
    requires Legal(s, st)
  {
    st.DoAdd? ==> s.procs[st.p].policy == Normal
  }

  predicate NormalRun(s: Sched, run: seq<Step>)
    requires LegalRun(s, run)
    decreases |run|
  {
    run == [] || (NormalStep(s, run[0]) && NormalRun(Apply(s, run[0]), run[1..]))
  }

  lemma StepBound(s: Sched, st: Step, p: nat)
    requires Waiting(s, p) && Legal(s, st) && NormalStep(s, st)
    ensures var r := Apply(s, st);
            r.cur == Some(p) || (Waiting(r, p) && Bound(r, p) <= Bound(s, p) - (if st.DoTick? then 1 else 0))
  {
    hide Waiting, YieldStep, TickStep, Bound, Add;
    if st.DoTick? { TickStepBound(s, p); }
    else if st.DoYield? { YieldStepBound(s, p); }
    else if st.DoAdd? { AddBound(s, st.p, p); }
    else { OutsideStepBound(s, st, p); }
  }

  // ----------------------------------------------------------------------------- runs

  function Ticks(run: seq<Step>): nat {
    if run == [] then 0 else (if run[0].DoTick? then 1 else 0) + Ticks(run[1..])
  }

  /** p is current at some point of the run. */
  predicate Dispatched(s: Sched, run: seq<Step>, p: nat)
    requires LegalRun(s, run)
    decreases |run|
  {
    s.cur == Some(p) || (run != [] && Dispatched(Apply(s, run[0]), run[1..], p))
  }

  /** However the run goes, p is dispatched before Bound ticks have passed. */
  lemma {:induction false} DispatchedWithin(s: Sched, run: seq<Step>, p: nat)
    requires Waiting(s, p) && LegalRun(s, run) && NormalRun(s, run) && Ticks(run) >= Bound(s, p)
    ensures Dispatched(s, run, p)
    decreases |run|
  {
    hide Waiting, Contending, Bound, Legal, Apply, NormalStep;
    BelowBound(s, p);
    var r := Apply(s, run[0]);
    StepBound(s, run[0], p);
    if r.cur != Some(p) { DispatchedWithin(r, run[1..], p); }
  }

  /** Level 0, index k, r ticks left to the current process: at most r + 5k ticks. */
  lemma DispatchedFromLevel0(s: Sched, run: seq<Step>, k: nat)
    requires Inv(s) && AllNormal(s) && s.cur.Some? && s.cur.value < MAX_PROCESSES && k < |s.q[0]|
    requires LegalRun(s, run) && NormalRun(s, run) && Ticks(run) >= s.procs[s.cur.value].slice + 5 * k
    ensures Dispatched(s, run, s.q[0][k])
  {
    var p := s.q[0][k];
    assert LevelOk(s, 0);
    assert Pos(s.q[0], p) == k;
    DispatchedWithin(s, run, p);
  }

  /** After aging, any waiting process: at most 350 ticks. */
  lemma DispatchedAfterAging(s: Sched, run: seq<Step>, p: nat)
    requires Waiting(s, p) && LegalRun(Age(s), run) && NormalRun(Age(s), run) && Ticks(run) >= 350
    ensures Dispatched(Age(s), run, p)
  {
    hide RtOk, LevelOk, Age, Bound;
    AgedBound(s, p);
    DispatchedWithin(Age(s), run, p);
  }

  lemma AgedBound(s: Sched, p: nat)
    requires Waiting(s, p)
    ensures Waiting(Age(s), p) && Bound(Age(s), p) <= 350
  {
    hide RtOk, LevelOk, Age;
    AgeBound(s, p);
    AgeIs(s);
    LinedSize(s, p);
    CurrentKept(s, p);
    CurrentSlice(s, p);
  }

  /** No starvation among normal processes: from every state in which the CPU is not idle, every
      waiting process is dispatched within 25950 ticks, although aging is sometimes missed. */
  lemma NoStarvation(s: Sched, run: seq<Step>, p: nat)
    requires Waiting(s, p) && LegalRun(s, run) && NormalRun(s, run) && Ticks(run) >= 25950
    ensures Dispatched(s, run, p)
  {
    hide Waiting;
    BoundBound(s, p);
    DispatchedWithin(s, run, p);
  }

  lemma BoundBound(s: Sched, p: nat)
    requires Waiting(s, p)
    ensures Bound(s, p) <= 25950
  {
    hide RtOk, LevelOk, Slack;
    SlackBounds(s, MAX_PROCESSES);
    CurrentSlice(s, p);
    LinedSize(s, p);
  }
}

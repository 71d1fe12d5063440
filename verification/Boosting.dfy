/** The boost that docs/SCHEDULER.md promises for every 100 ticks: exactly which processes are on
    level 0 after a tick that makes the clock a multiple of 100. */
module Boosting {
  import opened Scheduling
  import opened Options
  import opened SchedulerInvariant
  import opened SchedulerRuns

  /** Aging lifts every waiting normal process to level 0, and leaves the current one alone. */
  lemma AgeLevel(s: Sched, p: nat)
    requires Inv(s) && Placed(s, p) && s.procs[p].policy == Normal
    ensures Age(s).procs[p].level == if s.cur == Some(p) then s.procs[p].level else 0
  {
    hide RtOk, LevelOk, ProcsOk, CurrentOk, Age;
    AgeIs(s);
    ExactlyOnePlace(s, p);
    PlacedLevel(s, p);
  }

  lemma PlacedLevel(s: Sched, p: nat)
    requires Inv(s) && Placed(s, p)
    ensures p < MAX_PROCESSES && 0 <= s.procs[p].level < LEVELS
  {}

  /** Told from the state before the tick: process p is on level 0 after it. Nobody is boosted when
      no process is current. While the slice lasts, all are but the current one. When it ends, the
      process dispatched stays where it was, and the others are boosted if that process was itself
      switched out inside sched_tick; if not, those on level 0 stay there and the outgoing one is
      demoted. */
  predicate OnTopAfter(s: Sched, p: nat)
    requires Shape(s) && p < MAX_PROCESSES
  {
    ShapeNext(s);
    var top, n := s.procs[p].level == 0, Next(s).proc;
    if s.cur.None? || p == (if SliceEnds(s) then n else s.cur.value) then top
    else if !SliceEnds(s) || s.procs[n].resume == AfterTick then true
    else s.cur != Some(p) && top
  }

  /** The tick that makes the clock a multiple of 100 leaves p on level 0 exactly then. */
  lemma BoostedOnHundredIff(s: Sched, p: nat)
    requires Inv(s) && Placed(s, p) && s.procs[p].policy == Normal && (s.ticks + 1) % 100 == 0
    ensures Inv(TickStep(s)) && (TickStep(s).procs[p].level == 0 <==> OnTopAfter(s, p))
  {
    hide QueuesOk, ProcsOk, CurrentOk, SliceOk, Next, Age, Yield, Account, Placed;
    PlacedLevel(s, p);
    TickStepOk(s);
    AccountCur(s);
    AccountEffect(s);
    AccountOk(s);
    var s1 := Account(s);
    if s.cur.Some? {
      if !SliceEnds(s) {
        AgeLevel(s1, p);
      } else {
        YieldOk(s1, AfterTick);
        YieldEffect(s1, AfterTick);
        AgeLevel(Yield(s1, AfterTick), p);
        NextNotCurrent(s1);
      }
    }
  }

  lemma NextNotCurrent(s: Sched)
    requires Base(s) && s.cur.Some? && Expired(s)
    ensures s.cur.value < MAX_PROCESSES && Next(s).proc != s.cur.value
    ensures 0 <= s.procs[s.cur.value].level
  {
    hide RtOk, LevelOk, Next;
    NextFresh(s);
  }
}

/** The real-time array as a stable priority queue: the process it hands out is the earliest-added
    of those with the least priority number. */
module RealTimeQueue {
  import opened Scheduling
  import opened SchedulerInvariant

  predicate Known(procs: seq<Proc>, s: seq<nat>) {
    forall i :: 0 <= i < |s| ==> s[i] < |procs|
  }

  /** The array after the processes of `log` have been added in this order. */
  function Filed(procs: seq<Proc>, log: seq<nat>): (rt: seq<nat>)
    requires Known(procs, log)
    ensures Known(procs, rt)
  {
    if log == [] then []
    else
      var rt := Filed(procs, log[..|log| - 1]);
      KnownInsert(procs, rt, log[|log| - 1]);
      Insert(procs, rt, log[|log| - 1])
  }

  lemma {:induction false} KnownInsert(procs: seq<Proc>, rt: seq<nat>, p: nat)
    requires Known(procs, rt) && p < |procs|
    ensures Known(procs, Insert(procs, rt, p)) && |Insert(procs, rt, p)| == |rt| + 1
  {
    if rt != [] { KnownInsert(procs, rt[..|rt| - 1], p); }
  }

  lemma {:induction false} FiledSorted(procs: seq<Proc>, log: seq<nat>)
    requires Known(procs, log)
    ensures Sorted(procs, Filed(procs, log)) && |Filed(procs, log)| == |log|
  {
    if log != [] {
      var rt := Filed(procs, log[..|log| - 1]);
      FiledSorted(procs, log[..|log| - 1]);
      KnownInsert(procs, rt, log[|log| - 1]);
      InsertSorted(procs, rt, log[|log| - 1]);
    }
  }

  lemma InsertSorted(procs: seq<Proc>, rt: seq<nat>, p: nat)
    requires Sorted(procs, rt) && p < |procs|
    ensures Sorted(procs, Insert(procs, rt, p))
  {
    hide Insert;
    var k := InsertPlace(procs, rt, p);
    var t := rt[..k] + [p] + rt[k..];
    forall i | 0 <= i < |t| ensures t[i] == Shifted(rt, k, p, i) {}
    forall i, j | 0 <= i < j < |t| ensures procs[t[i]].priority <= procs[t[j]].priority {
      assert t[i] == Shifted(rt, k, p, i) && t[j] == Shifted(rt, k, p, j);
    }
  }

  /** The index of the earliest process of least priority number. */
  function Earliest(procs: seq<Proc>, log: seq<nat>): (e: nat)
    requires Known(procs, log) && log != []
    ensures e < |log|
    ensures forall i :: 0 <= i < e ==> procs[log[i]].priority > procs[log[e]].priority
    ensures forall i :: e <= i < |log| ==> procs[log[i]].priority >= procs[log[e]].priority
  {
    var n := |log| - 1;
    if n == 0 then 0
    else
      var e := Earliest(procs, log[..n]);
      if procs[log[n]].priority < procs[log[e]].priority then n else e
  }

  function Without(log: seq<nat>, e: nat): seq<nat>
    requires e < |log|
  {
    log[..e] + log[e + 1..]
  }

  /** Insertion behind the front leaves the front and works on the rest. */
  lemma {:induction false} InsertBehind(procs: seq<Proc>, rt: seq<nat>, p: nat)
    requires Known(procs, rt) && p < |procs| && rt != [] && procs[rt[0]].priority <= procs[p].priority
    ensures Insert(procs, rt, p) == [rt[0]] + Insert(procs, rt[1..], p)
  {
    var n := |rt| - 1;
    if procs[rt[n]].priority <= procs[p].priority {
      assert n > 0 ==> rt[1..][n - 1] == rt[n];
    } else {
      InsertBehind(procs, rt[..n], p);
      assert rt[1..][..n - 1] == rt[..n][1..];
      assert rt[1..][n - 1] == rt[n];
    }
  }

  lemma {:induction false} InsertBefore(procs: seq<Proc>, rt: seq<nat>, p: nat)
    requires Sorted(procs, rt) && p < |procs| && rt != [] && procs[rt[0]].priority > procs[p].priority
    ensures Insert(procs, rt, p) == [p] + rt
  {
    var k := InsertPlace(procs, rt, p);
    assert k == 0;
  }

  lemma FiledAppend(procs: seq<Proc>, log: seq<nat>, p: nat)
    requires Known(procs, log) && p < |procs|
    ensures Known(procs, log + [p])
    ensures Filed(procs, log + [p]) == Insert(procs, Filed(procs, log), p)
    ensures Filed(procs, []) == [] && Insert(procs, [], p) == [p]
  {
    assert (log + [p])[..|log|] == log;
  }

  lemma EarliestAppend(procs: seq<Proc>, log: seq<nat>, p: nat)
    requires Known(procs, log) && p < |procs| && Known(procs, log + [p])
    ensures Earliest(procs, log + [p]) ==
            if log == [] then 0
            else if procs[p].priority < procs[log[Earliest(procs, log)]].priority then |log| else Earliest(procs, log)
  {
    assert (log + [p])[..|log|] == log;
  }

  lemma WithoutAppend(procs: seq<Proc>, log: seq<nat>, p: nat, e: nat)
    requires e < |log| && Known(procs, log)
    ensures Without(log + [p], e) == Without(log, e) + [p] && Without(log + [p], |log|) == log
    ensures Known(procs, Without(log, e)) && (log + [p])[e] == log[e]
  {}

  /** The array's front is entry e of the log, and the rest is the log without it. */
  ghost predicate Splits(procs: seq<Proc>, log: seq<nat>, e: nat)
    requires Known(procs, log)
  {
    && e < |log| && Known(procs, Without(log, e))
    && Filed(procs, log) == [log[e]] + Filed(procs, Without(log, e))
  }

  lemma SplitsAppend(procs: seq<Proc>, log: seq<nat>, p: nat, e: nat)
    requires Known(procs, log) && p < |procs| && Known(procs, log + [p]) && Splits(procs, log, e)
    ensures Splits(procs, log + [p], if procs[p].priority < procs[log[e]].priority then |log| else e)
  {
    hide Filed, Insert, Sorted, Without, Known;
    var rt := Filed(procs, log);
    FiledAppend(procs, log, p);
    WithoutAppend(procs, log, p, e);
    if procs[p].priority < procs[log[e]].priority {
      FiledSorted(procs, log);
      InsertBefore(procs, rt, p);
    } else {
      InsertBehind(procs, rt, p);
      FiledAppend(procs, Without(log, e), p);
      assert rt[1..] == Filed(procs, Without(log, e));
    }
  }

  /** Taking the front off the array is taking the earliest least off the log: the array is the
      priority queue of the log, before and after. */
  lemma {:induction false} FrontIsEarliest(procs: seq<Proc>, log: seq<nat>)
    requires Known(procs, log) && log != []
    ensures Splits(procs, log, Earliest(procs, log))
  {
    hide Splits, Earliest, Known;
    var n := |log| - 1;
    var rest, p := log[..n], log[n];
    KnownParts(procs, log);
    assert log == rest + [p];
    EarliestAppend(procs, rest, p);
    if n == 0 {
      OneSplits(procs, p);
    } else {
      FrontIsEarliest(procs, rest);
      SplitsAppend(procs, rest, p, Earliest(procs, rest));
    }
  }

  lemma KnownParts(procs: seq<Proc>, log: seq<nat>)
    requires Known(procs, log) && log != []
    ensures Known(procs, log[..|log| - 1]) && log[|log| - 1] < |procs|
  {}

  lemma OneSplits(procs: seq<Proc>, p: nat)
    requires p < |procs|
    ensures Known(procs, [] + [p]) && Splits(procs, [] + [p], 0)
  {
    FiledAppend(procs, [], p);
    assert Without([] + [p], 0) == [];
  }

  // ------------------------------------------------------- what the order depends on

  lemma {:induction false} InsertMembers(procs: seq<Proc>, rt: seq<nat>, p: nat)
    requires Known(procs, rt) && p < |procs|
    ensures forall x :: x in Insert(procs, rt, p) <==> x in rt || x == p
  {
    var n := |rt| - 1;
    if rt != [] && procs[rt[n]].priority > procs[p].priority {
      InsertMembers(procs, rt[..n], p);
      assert rt == rt[..n] + [rt[n]];
    }
  }

  lemma {:induction false} FiledMembers(procs: seq<Proc>, log: seq<nat>)
    requires Known(procs, log)
    ensures forall x :: x in Filed(procs, log) <==> x in log
  {
    hide Insert;
    if log != [] {
      var n := |log| - 1;
      FiledMembers(procs, log[..n]);
      InsertMembers(procs, Filed(procs, log[..n]), log[n]);
      assert log == log[..n] + [log[n]];
    }
  }

  /** The processes of `log` have the same priorities in both tables. */
  predicate SamePriorities(a: seq<Proc>, b: seq<Proc>, log: seq<nat>) {
    |a| == |b| && forall i :: 0 <= i < |log| ==> log[i] < |a| && a[log[i]].priority == b[log[i]].priority
  }

  lemma {:induction false} InsertSame(a: seq<Proc>, b: seq<Proc>, rt: seq<nat>, p: nat)
    requires SamePriorities(a, b, rt) && p < |a| && a[p].priority == b[p].priority
    ensures Insert(a, rt, p) == Insert(b, rt, p)
  {
    if rt != [] { InsertSame(a, b, rt[..|rt| - 1], p); }
  }

  lemma {:induction false} FiledSame(a: seq<Proc>, b: seq<Proc>, log: seq<nat>)
    requires SamePriorities(a, b, log)
    ensures Filed(a, log) == Filed(b, log)
  {
    hide Insert;
    if log != [] {
      var n := |log| - 1;
      FiledSame(a, b, log[..n]);
      var rt := Filed(a, log[..n]);
      FiledMembers(a, log[..n]);
      forall i | 0 <= i < |rt| ensures a[rt[i]].priority == b[rt[i]].priority { assert rt[i] in log[..n]; }
      InsertSame(a, b, rt, log[n]);
    }
  }

  lemma {:induction false} EarliestSame(a: seq<Proc>, b: seq<Proc>, log: seq<nat>)
    requires SamePriorities(a, b, log) && log != []
    ensures Earliest(a, log) == Earliest(b, log)
  {
    if |log| > 1 { EarliestSame(a, b, log[..|log| - 1]); }
  }

  lemma FiledNothing(a: seq<Proc>, b: seq<Proc>)
    ensures Filed(a, []) == Filed(b, []) == []
  {}
}

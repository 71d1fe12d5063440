/** The two queue structures of kernel/process/scheduler.c as they run: a ring buffer and an array
    kept sorted in place. */
module ReadyQueues {
  import opened Scheduling
  import opened Options

  /** Entry i of a ring that starts at head. */
  function Slot(head: nat, i: nat): nat { (head + i) % 64 }

  /** The entries of a ring buffer from front to back. */
  function Unrolled(buffer: seq<nat>, head: nat, size: nat): (s: seq<nat>)
    requires |buffer| == 64
    ensures |s| == size
    ensures forall i :: 0 <= i < size ==> s[i] == buffer[Slot(head, i)]
  {
    if size == 0 then [] else Unrolled(buffer, head, size - 1) + [buffer[Slot(head, size - 1)]]
  }

  lemma UnrolledPut(buffer: seq<nat>, head: nat, size: nat, p: nat)
    requires |buffer| == 64 && head < 64 && size < 64
    ensures Unrolled(buffer[Slot(head, size) := p], head, size + 1) == Unrolled(buffer, head, size) + [p]
  {
    var b := buffer[Slot(head, size) := p];
    forall i | 0 <= i < size ensures Slot(head, i) != Slot(head, size) { SlotsDiffer(head, i, size); }
    var s, t := Unrolled(b, head, size + 1), Unrolled(buffer, head, size) + [p];
    assert forall i :: 0 <= i < size ==> s[i] == t[i];
  }

  lemma SlotsDiffer(head: nat, i: nat, j: nat)
    requires head < 64 && i < j < 64
    ensures Slot(head, i) != Slot(head, j)
  {}

  lemma UnrolledTake(buffer: seq<nat>, head: nat, size: nat)
    requires |buffer| == 64 && head < 64 && size > 0
    ensures Unrolled(buffer, head, size)[0] == buffer[head]
    ensures Unrolled(buffer, Slot(head, 1), size - 1) == Unrolled(buffer, head, size)[1..]
  {
    forall i: nat ensures Slot(Slot(head, 1), i) == Slot(head, i + 1) { SlotNext(head, i); }
  }

  lemma SlotSuccessor(head: nat, size: nat)
    ensures Slot(head, size) < 64 && (Slot(head, size) + 1) % 64 == Slot(head, size + 1)
  {}

  lemma SlotNext(head: nat, i: nat)
    requires head < 64
    ensures Slot(Slot(head, 1), i) == Slot(head, i + 1)
  {}

  /** mlfq_t: a ring of 64 slots. */
  class Ring {
    const queue: array<nat>
    var head: nat
    var tail: nat
    var size: nat

    /** The ring is well formed and holds q, front to back. */
    ghost predicate Is(q: seq<nat>)
      reads this, queue
    {
      && queue.Length == 64 && head < 64 && size <= 64 && tail == Slot(head, size)
      && Unrolled(queue[..], head, size) == q
    }

    constructor ()
      ensures Is([]) && fresh(queue)
    {
      queue := new nat[64];
      head, tail, size := 0, 0, 0;
    }

    function Size(ghost q: seq<nat>): (n: nat)
      requires Is(q)
      reads this, queue
      ensures n == |q|
    {
      size
    }

    /** mlfq_enqueue. */
    method Enqueue(p: nat, ghost q: seq<nat>)
      requires Is(q)
      modifies this, queue
      ensures Is(Scheduling.Enqueue(q, p))
    {
      hide Unrolled, Slot;
      if size >= MAX_PROCESSES {
        return;
      }
      SlotSuccessor(head, size);
      ghost var buffer := queue[..];
      queue[tail] := p;
      assert queue[..] == buffer[tail := p];
      UnrolledPut(buffer, head, size, p);
      tail := (tail + 1) % MAX_PROCESSES;
      size := size + 1;
    }

    /** mlfq_dequeue; None for NULL. */
    method Dequeue(ghost q: seq<nat>) returns (p: Option<nat>)
      requires Is(q)
      modifies this
      ensures p == if q == [] then None else Some(q[0])
      ensures Is(if q == [] then q else q[1..])
    {
      hide Unrolled;
      if size == 0 {
        return None;
      }
      p := Some(queue[head]);
      UnrolledTake(queue[..], head, size);
      SlotNext(head, size - 1);
      head := (head + 1) % MAX_PROCESSES;
      size := size - 1;
    }
  }

  /** rt_queue_t: processes in order of priority. */
  class RtQueue {
    const queue: array<nat>
    var size: nat

    ghost predicate Is(rt: seq<nat>)
      reads this, queue
    {
      queue.Length == 64 && size <= 64 && queue[..size] == rt
    }

    constructor ()
      ensures Is([]) && fresh(queue)
    {
      queue := new nat[64];
      size := 0;
    }

    function Size(ghost rt: seq<nat>): (n: nat)
      requires Is(rt)
      reads this, queue
      ensures n == |rt|
    {
      size
    }

    /** rt_enqueue: shift the less urgent processes up, put p into the gap. */
    method Enqueue(procs: array<Proc>, p: nat, ghost rt: seq<nat>)
      requires Is(rt) && p < procs.Length && forall i :: 0 <= i < |rt| ==> rt[i] < procs.Length
      modifies this, queue
      ensures Is(RtEnqueue(procs[..], rt, p))
    {
      if size >= MAX_PROCESSES {
        return;
      }
      hide Insert;
      ghost var table := procs[..];
      var i := size;
      while i > 0
        invariant 0 <= i <= size < 64
        invariant forall j :: 0 <= j < i ==> queue[j] == rt[j]
        invariant forall j :: i < j <= size ==> queue[j] == rt[j - 1]
        invariant forall j :: i <= j < size ==> table[rt[j]].priority > table[p].priority
        modifies queue
      {
        if procs[queue[i - 1]].priority <= procs[p].priority {
          break;
        }
        queue[i] := queue[i - 1];
        i := i - 1;
      }
      queue[i] := p;
      size := size + 1;
      assert queue[..size] == rt[..i] + [p] + rt[i..];
      InsertAt(table, rt, p, i);
    }

    /** rt_dequeue: take the front, shift the others down; None for NULL. */
    method Dequeue(ghost rt: seq<nat>) returns (p: Option<nat>)
      requires Is(rt)
      modifies this, queue
      ensures p == if rt == [] then None else Some(rt[0])
      ensures Is(if rt == [] then rt else rt[1..])
    {
      if size == 0 {
        return None;
      }
      p := Some(queue[0]);
      size := size - 1;
      var i := 0;
      while i < size
        invariant 0 <= i <= size < 64
        invariant forall j :: 0 <= j < i ==> queue[j] == rt[j + 1]
        invariant forall j :: i <= j <= size ==> queue[j] == rt[j]
        modifies queue
      {
        queue[i] := queue[i + 1];
        i := i + 1;
      }
    }
  }

  /** Where the shifting loop stops is where sorted insertion puts p. */
  lemma {:induction false} InsertAt(procs: seq<Proc>, rt: seq<nat>, p: nat, i: nat)
    requires p < |procs| && i <= |rt| && forall j :: 0 <= j < |rt| ==> rt[j] < |procs|
    requires forall j :: i <= j < |rt| ==> procs[rt[j]].priority > procs[p].priority
    requires i > 0 ==> procs[rt[i - 1]].priority <= procs[p].priority
    ensures Insert(procs, rt, p) == rt[..i] + [p] + rt[i..]
  {
    var n := |rt| - 1;
    if i <= n {
      InsertAt(procs, rt[..n], p, i);
      assert rt[..n][..i] == rt[..i] && rt[..n][i..] + [rt[n]] == rt[i..];
    } else {
      assert rt[..i] == rt && rt[i..] == [];
    }
  }
}

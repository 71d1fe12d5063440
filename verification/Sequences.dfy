/** Sequences without repetition. */
module Sequences {

  predicate NoDup(s: seq<nat>) {
    forall i, j :: 0 <= i < j < |s| ==> s[i] != s[j]
  }

  predicate Bounded(s: seq<nat>, n: nat) {
    forall x :: x in s ==> x < n
  }

  lemma NoDupConcat(s: seq<nat>, t: seq<nat>)
    requires NoDup(s) && NoDup(t) && forall p :: p in s ==> p !in t
    ensures NoDup(s + t)
  {
    var u := s + t;
    forall i, j | 0 <= i < j < |u| ensures u[i] != u[j] {
      if i < |s| <= j {
        assert u[i] == s[i] && u[j] == t[j - |s|];
        assert s[i] in s && t[j - |s|] in t;
      }
    }
  }

  function Elements(s: seq<nat>): set<nat> { set p | p in s }

  lemma NoDupTail(s: seq<nat>)
    requires NoDup(s) && s != []
    ensures NoDup(s[1..]) && s[0] !in s[1..] && s[0] in s
    ensures forall x :: x in s <==> x == s[0] || x in s[1..]
    ensures Elements(s) == Elements(s[1..]) + {s[0]}
  {
    assert s == [s[0]] + s[1..];
  }

  lemma {:induction false} NoDupSize(s: seq<nat>)
    requires NoDup(s)
    ensures |Elements(s)| == |s|
  {
    if s != [] {
      NoDupTail(s);
      NoDupSize(s[1..]);
    }
  }

  function Below(n: nat): set<nat> {
    if n == 0 then {} else Below(n - 1) + {n - 1}
  }

  lemma {:induction false} BelowSize(n: nat)
    ensures |Below(n)| == n
    ensures forall x: nat :: x in Below(n) <==> x < n
  {
    if n > 0 { BelowSize(n - 1); }
  }

  /** A sequence of distinct numbers below n has at most n elements. */
  lemma Pigeonhole(s: seq<nat>, n: nat)
    requires NoDup(s) && Bounded(s, n)
    ensures |s| <= n
  {
    NoDupSize(s);
    BelowSize(n);
    assert Elements(s) <= Below(n);
    assert Below(n) == Elements(s) + (Below(n) - Elements(s));
  }
}

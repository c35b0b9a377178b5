/** Sequences, rings and finite sets: positions, repetition and counting. */
module Finite {

  function Below(n: nat): (s: set<nat>)
    ensures forall i :: i in s <==> 0 <= i < n
    ensures |s| == n
  {
    if n == 0 then {} else Below(n - 1) + {n - 1}
  }

  lemma Between(m: nat, n: nat)
    requires m <= n
    ensures |Below(n) - Below(m)| == n - m
  {
    assert Below(n) == Below(m) + (Below(n) - Below(m));
  }

  /** The position after i in a ring of n. */
  function Succ(i: nat, n: nat): nat {
    if i + 1 == n then 0 else i + 1
  }

  function Without(s: seq<nat>, k: nat): seq<nat>
    requires k < |s|
  {
    s[..k] + s[k + 1..]
  }

  lemma WithoutFirst(s: seq<nat>, k: nat)
    requires k < |s|
    ensures Without(s, k) == if k == 0 then s[1..] else [s[0]] + Without(s[1..], k - 1)
  {
  }

  /** All other entries stay, and without repetition the one taken out is gone. */
  lemma WithoutHas(s: seq<nat>, k: nat, q: nat)
    requires k < |s| && NoRepeats(s)
    ensures q in Without(s, k) <==> q in s && q != s[k]
  {
    var r := Without(s, k);
    if q in s && q != s[k] {
      var j :| 0 <= j < |s| && s[j] == q;
      assert r[if j < k then j else j - 1] == q;
    }
    if q in r {
      var j :| 0 <= j < |r| && r[j] == q;
      assert s[if j < k then j else j + 1] == q;
    }
  }

  lemma WithoutIs(s: seq<nat>, k: nat, r: seq<nat>)
    requires k < |s| && |r| == |s| - 1 && forall j :: 0 <= j < |r| ==> r[j] == s[if j < k then j else j + 1]
    ensures r == Without(s, k)
  {
  }

  ghost predicate NoRepeats(q: seq<nat>) {
    forall i, j :: 0 <= i < j < |q| ==> q[i] != q[j]
  }

  lemma {:induction false} SubsetSize(a: set<nat>, b: set<nat>)
    requires a <= b
    ensures |a| <= |b|
  {
    if a != {} {
      var x :| x in a;
      SubsetSize(a - {x}, b - {x});
    }
  }

  function Elements(q: seq<nat>): (s: set<nat>)
    ensures forall x :: x in s <==> x in q
  {
    if q == [] then {} else Elements(q[..|q| - 1]) + {q[|q| - 1]}
  }

  lemma {:induction false} ElementsSize(q: seq<nat>)
    requires NoRepeats(q)
    ensures |Elements(q)| == |q|
  {
    if q != [] {
      ElementsSize(q[..|q| - 1]);
    }
  }

  /** Distinct numbers below n that leave out one of them are fewer than n. */
  lemma DistinctBound(q: seq<nat>, n: nat, p: nat)
    requires p < n && p !in q && NoRepeats(q)
    requires forall i :: 0 <= i < |q| ==> q[i] < n
    ensures |q| < n
  {
    ElementsSize(q);
    SubsetSize(Elements(q), Below(n) - {p});
  }
}

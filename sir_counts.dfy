/** Particle states and the two NumPy queries the simulation makes on its state
    array: `np.sum(states == v)` (Count) and `np.where(states == v)[0]` (IndicesOf). */
module SirCounts {

  /** The integer encoding of the three compartments. */
  const Susceptible: int := 0
  const Infected: int := 1
  const Recovered: int := 2

  predicate IsState(x: int) {
    x == Susceptible || x == Infected || x == Recovered
  }

  /** Every particle is in one of the three compartments. */
  predicate AllStates(s: seq<int>) {
    forall i :: 0 <= i < |s| ==> IsState(s[i])
  }

  /** Number of entries of `s` whose value lies in `vs`. */
  function CountIn(s: seq<int>, vs: set<int>): (n: nat)
    ensures n <= |s|
  {
    if s == [] then 0
    else CountIn(s[..|s| - 1], vs) + (if s[|s| - 1] in vs then 1 else 0)
  }

  /** `np.sum(s == v)`: the number of particles in state `v`. */
  function Count(s: seq<int>, v: int): nat {
    CountIn(s, {v})
  }

  /** `np.where(s == v)[0]`: the positions holding `v` (see IndicesOfSpec). */
  function IndicesOf(s: seq<int>, v: int): seq<nat> {
    if s == [] then []
    else IndicesOf(s[..|s| - 1], v) + (if s[|s| - 1] == v then [|s| - 1] else [])
  }

  /** `IndicesOf` lists exactly the positions holding `v`, in increasing
      order, one per counted particle. */
  lemma IndicesOfSpec(s: seq<int>, v: int)
    ensures var idx := IndicesOf(s, v);
            (forall k :: 0 <= k < |idx| ==> idx[k] < |s| && s[idx[k]] == v) &&
            (forall i :: 0 <= i < |s| && s[i] == v ==> i in idx) &&
            (forall k, l :: 0 <= k < l < |idx| ==> idx[k] < idx[l]) &&
            |idx| == Count(s, v)
  {
    IndicesOfSound(s, v);
    IndicesOfComplete(s, v);
    IndicesOfCount(s, v);
  }

  /** Every listed position holds `v`, and the list is strictly increasing. */
  lemma {:induction false} IndicesOfSound(s: seq<int>, v: int)
    ensures forall k :: 0 <= k < |IndicesOf(s, v)| ==> IndicesOf(s, v)[k] < |s| && s[IndicesOf(s, v)[k]] == v
    ensures forall k, l :: 0 <= k < l < |IndicesOf(s, v)| ==> IndicesOf(s, v)[k] < IndicesOf(s, v)[l]
  {
    if s != [] {
      var n := |s| - 1;
      var pre := IndicesOf(s[..n], v);
      IndicesOfSound(s[..n], v);
      var idx := IndicesOf(s, v);
      assert idx == pre + (if s[n] == v then [n] else []);
      forall k | 0 <= k < |pre| ensures pre[k] < n && idx[k] == pre[k] && s[pre[k]] == v {
        assert s[..n][pre[k]] == v;
      }
    }
  }

  /** Every position holding `v` is listed. */
  lemma {:induction false} IndicesOfComplete(s: seq<int>, v: int)
    ensures forall i :: 0 <= i < |s| && s[i] == v ==> i in IndicesOf(s, v)
  {
    if s != [] {
      var n := |s| - 1;
      var pre := IndicesOf(s[..n], v);
      IndicesOfComplete(s[..n], v);
      var idx := IndicesOf(s, v);
      assert idx == pre + (if s[n] == v then [n] else []);
      forall i | 0 <= i < |s| && s[i] == v ensures i in idx {
        if i < n {
          assert s[..n][i] == v;
          assert i in pre;
        } else {
          assert idx[|idx| - 1] == n;
        }
      }
    }
  }

  /** One position is listed per particle holding `v`. */
  lemma {:induction false} IndicesOfCount(s: seq<int>, v: int)
    ensures |IndicesOf(s, v)| == Count(s, v)
  {
    if s != [] {
      IndicesOfCount(s[..|s| - 1], v);
    }
  }

  /** Writing `v` at position `i` moves one particle between the counted classes. */
  lemma {:induction false} CountInUpdate(s: seq<int>, i: nat, v: int, vs: set<int>)
    requires i < |s|
    ensures CountIn(s[i := v], vs) + (if s[i] in vs then 1 else 0)
         == CountIn(s, vs) + (if v in vs then 1 else 0)
  {
    var n := |s| - 1;
    if i < n {
      assert s[i := v][..n] == s[..n][i := v];
      CountInUpdate(s[..n], i, v, vs);
    } else {
      assert s[i := v][..n] == s[..n];
    }
  }

  /** Counting over two disjoint value sets adds up. */
  lemma {:induction false} CountInUnion(s: seq<int>, a: set<int>, b: set<int>)
    requires a !! b
    ensures CountIn(s, a + b) == CountIn(s, a) + CountIn(s, b)
  {
    if s != [] {
      CountInUnion(s[..|s| - 1], a, b);
    }
  }

  /** If every position counted in `a` is counted in `b`, `b` has at least as many. */
  lemma {:induction false} CountInMono(a: seq<int>, b: seq<int>, va: set<int>, vb: set<int>)
    requires |a| == |b|
    requires forall i :: 0 <= i < |a| && a[i] in va ==> b[i] in vb
    ensures CountIn(a, va) <= CountIn(b, vb)
  {
    if a != [] {
      var n := |a| - 1;
      CountInMono(a[..n], b[..n], va, vb);
    }
  }

  /** If positions are counted in `a` exactly where they are counted in `b`, the counts agree. */
  lemma CountInSame(a: seq<int>, b: seq<int>, va: set<int>, vb: set<int>)
    requires |a| == |b|
    requires forall i :: 0 <= i < |a| ==> (a[i] in va <==> b[i] in vb)
    ensures CountIn(a, va) == CountIn(b, vb)
  {
    CountInMono(a, b, va, vb);
    CountInMono(b, a, vb, va);
  }

  /** A set holding every entry counts all of them. */
  lemma {:induction false} CountInAll(s: seq<int>, vs: set<int>)
    requires forall i :: 0 <= i < |s| ==> s[i] in vs
    ensures CountIn(s, vs) == |s|
  {
    if s != [] {
      CountInAll(s[..|s| - 1], vs);
    }
  }

  /** Nothing is counted in the empty value set. */
  lemma {:induction false} CountInEmpty(s: seq<int>)
    ensures CountIn(s, {}) == 0
  {
    if s != [] {
      CountInEmpty(s[..|s| - 1]);
    }
  }

  /** Conservation: when every particle is in a compartment, S + I + R is the population. */
  lemma Conservation(s: seq<int>)
    requires AllStates(s)
    ensures Count(s, Susceptible) + Count(s, Infected) + Count(s, Recovered) == |s|
  {
    var all := {Susceptible, Infected, Recovered};
    CountInUnion(s, {Susceptible}, {Infected});
    assert {Susceptible} + {Infected} == {Susceptible, Infected};
    CountInUnion(s, {Susceptible, Infected}, {Recovered});
    assert {Susceptible, Infected} + {Recovered} == all;
    assert forall i :: 0 <= i < |s| ==> s[i] in all by {
      forall i | 0 <= i < |s| ensures s[i] in all {
        assert IsState(s[i]);
      }
    }
    CountInAll(s, all);
  }

  /** I + R counted as one class. */
  lemma InfectedOrRecovered(s: seq<int>)
    ensures Count(s, Infected) + Count(s, Recovered) == CountIn(s, {Infected, Recovered})
  {
    CountInUnion(s, {Infected}, {Recovered});
    assert {Infected} + {Recovered} == {Infected, Recovered};
  }

  /** `np.where(a == v)[0]`, computed by a scan of the array. */
  method Where(a: array<int>, v: int) returns (idx: seq<nat>)
    ensures idx == IndicesOf(a[..], v)
  {
    idx := [];
    for i := 0 to a.Length
      invariant idx == IndicesOf(a[..i], v)
    {
      assert a[..i + 1][..i] == a[..i];
      if a[i] == v {
        idx := idx + [i];
      }
    }
    assert a[..a.Length] == a[..];
  }

  /** `np.sum(a == v)`, computed by a scan of the array. */
  method CountState(a: array<int>, v: int) returns (n: nat)
    ensures n == Count(a[..], v)
  {
    n := 0;
    for i := 0 to a.Length
      invariant n == Count(a[..i], v)
    {
      assert a[..i + 1][..i] == a[..i];
      if a[i] == v {
        n := n + 1;
      }
    }
    assert a[..a.Length] == a[..];
  }
}

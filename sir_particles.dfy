/** The state part of `SIRParticleSimulation`: the integer state array, the
    S/I/R histories, the initialisation and the `update` step. Positions,
    velocities and times are not modelled; the contact test and the random
    draws of a step are parameters of `Update` (see module SirStep). */
module SirParticles {
  import opened SirCounts
  import opened SirStep

  /** The history lists are equally long and non-empty, every entry sums to
      the population, and from each entry to the next S does not grow, R
      does not shrink and I + R does not shrink. */
  ghost predicate HistoryValid(sH: seq<nat>, iH: seq<nat>, rH: seq<nat>, n: nat)
    decreases |sH|
  {
    |sH| >= 1 && |iH| == |sH| && |rH| == |sH| &&
    var last := |sH| - 1;
    sH[last] + iH[last] + rH[last] == n &&
    (last == 0 ||
     (HistoryValid(sH[..last], iH[..last], rH[..last], n) &&
      sH[last] <= sH[last - 1] && rH[last - 1] <= rH[last] &&
      iH[last - 1] + rH[last - 1] <= iH[last] + rH[last]))
  }

  /** What a valid history means entry by entry: every entry sums to the
      population, and from any entry to any later one S does not grow, R
      does not shrink and I + R does not shrink. */
  lemma {:induction false} HistoryValidMeaning(sH: seq<nat>, iH: seq<nat>, rH: seq<nat>, n: nat)
    requires HistoryValid(sH, iH, rH, n)
    ensures |sH| >= 1 && |iH| == |sH| && |rH| == |sH|
    ensures forall t :: 0 <= t < |sH| ==> sH[t] + iH[t] + rH[t] == n
    ensures forall t, u :: 0 <= t < u < |sH| ==>
              sH[u] <= sH[t] && rH[t] <= rH[u] && iH[t] + rH[t] <= iH[u] + rH[u]
    decreases |sH|
  {
    var last := |sH| - 1;
    if last > 0 {
      var sP, iP, rP := sH[..last], iH[..last], rH[..last];
      HistoryValidMeaning(sP, iP, rP, n);
      forall t | 0 <= t < |sH| ensures sH[t] + iH[t] + rH[t] == n {
        if t < last {
          assert sP[t] + iP[t] + rP[t] == n;
        }
      }
      forall t, u | 0 <= t < u < |sH|
        ensures sH[u] <= sH[t] && rH[t] <= rH[u] && iH[t] + rH[t] <= iH[u] + rH[u]
      {
        if u < last {
          assert sP[u] <= sP[t] && rP[t] <= rP[u] && iP[t] + rP[t] <= iP[u] + rP[u];
        } else if t < last - 1 {
          assert sP[last - 1] <= sP[t] && rP[t] <= rP[last - 1] && iP[t] + rP[t] <= iP[last - 1] + rP[last - 1];
        }
      }
    }
  }

  /** Appending a count triple that sums to the population and moves
      monotonically from the last entry keeps the histories valid. */
  lemma HistoryAppend(sH: seq<nat>, iH: seq<nat>, rH: seq<nat>, n: nat, s: nat, i: nat, r: nat)
    requires HistoryValid(sH, iH, rH, n)
    requires s + i + r == n
    requires var last := |sH| - 1;
             s <= sH[last] && rH[last] <= r && iH[last] + rH[last] <= i + r
    ensures HistoryValid(sH + [s], iH + [i], rH + [r], n)
  {
  }

  /** A single count triple that sums to the population is a valid history. */
  lemma HistoryStart(s: nat, i: nat, r: nat, n: nat)
    requires s + i + r == n
    ensures HistoryValid([s], [i], [r], n)
  {
  }

  /** A step of allowed moves from a valid state and history gives a valid
      state, and its counts extend the history validly. */
  lemma StepKeepsHistory(s: seq<int>, r: seq<int>, sH: seq<nat>, iH: seq<nat>, rH: seq<nat>, n: nat,
                         cS: nat, cI: nat, cR: nat)
    requires Transitions(s, r)
    requires |s| == n && AllStates(s) && HistoryValid(sH, iH, rH, n)
    requires sH[|sH| - 1] == Count(s, Susceptible)
    requires iH[|iH| - 1] == Count(s, Infected)
    requires rH[|rH| - 1] == Count(s, Recovered)
    requires cS == Count(r, Susceptible) && cI == Count(r, Infected) && cR == Count(r, Recovered)
    ensures AllStates(r)
    ensures HistoryValid(sH + [cS], iH + [cI], rH + [cR], n)
  {
    TransitionsConserve(s, r);
    TransitionsMonotone(s, r);
    HistoryAppend(sH, iH, rH, n, cS, cI, cR);
  }

  /** The distinct indices `np.random.choice(n, i0, replace=False)` returns. */
  ghost predicate ValidChoice(chosen: seq<nat>, n: nat, i0: nat) {
    |chosen| == i0 &&
    (forall k :: 0 <= k < |chosen| ==> chosen[k] < n) &&
    (forall k, l :: 0 <= k < l < |chosen| ==> chosen[k] != chosen[l])
  }

  /** `np.zeros(n)` with 1 written at every chosen index. */
  function InitialStates(n: nat, chosen: seq<nat>): (s: seq<int>)
    ensures |s| == n
  {
    seq(n, i => if i in chosen then Infected else Susceptible)
  }

  /** Exactly the chosen particles start infected, so the first history entry
      is (n - i0, i0, 0). */
  lemma {:induction false} InitialCounts(n: nat, chosen: seq<nat>)
    requires ValidChoice(chosen, n, |chosen|)
    ensures var s := InitialStates(n, chosen);
            AllStates(s) &&
            Count(s, Infected) == |chosen| &&
            Count(s, Susceptible) == n - |chosen| &&
            Count(s, Recovered) == 0
  {
    var s := InitialStates(n, chosen);
    if chosen == [] {
      CountInAll(s, {Susceptible});
      CountInMono(s, s, {Infected}, {});
      CountInMono(s, s, {Recovered}, {});
      assert CountIn(s, {}) == 0 by { CountInMono(s, s, {}, {}); CountInEmpty(s); }
    } else {
      var m := |chosen| - 1;
      var prefix := chosen[..m];
      var p := chosen[m];
      InitialCounts(n, prefix);
      var s0 := InitialStates(n, prefix);
      assert p !in prefix;
      assert s == s0[p := Infected];
      CountInUpdate(s0, p, Infected, {Infected});
      CountInUpdate(s0, p, Infected, {Susceptible});
      CountInUpdate(s0, p, Infected, {Recovered});
    }
  }

  /** Allocates the initial state array: zeros, then 1 at every chosen index. */
  method NewStates(n: nat, chosen: seq<nat>) returns (a: array<int>)
    requires forall k :: 0 <= k < |chosen| ==> chosen[k] < n
    ensures fresh(a) && a[..] == InitialStates(n, chosen)
  {
    a := new int[n](_ => Susceptible);
    for k := 0 to |chosen|
      invariant a[..] == InitialStates(n, chosen[..k])
    {
      assert chosen[..k + 1] == chosen[..k] + [chosen[k]];
      a[chosen[k]] := Infected;
    }
    assert chosen[..|chosen|] == chosen;
  }

  /** Allocates a copy of `a` (`a.copy()`). */
  method CopyStates(a: array<int>) returns (b: array<int>)
    ensures fresh(b) && b[..] == a[..]
  {
    b := new int[a.Length];
    for i := 0 to a.Length
      invariant b[..i] == a[..i]
    {
      b[i] := a[i];
      assert b[..i + 1] == b[..i] + [b[i]];
      assert a[..i + 1] == a[..i] + [a[i]];
    }
    assert b[..a.Length] == b[..];
    assert a[..a.Length] == a[..];
  }

  /** The infection loop of `update`, in place: every susceptible particle of
      the snapshot scans the infected snapshot and, on its first successful
      draw, is set to 1 and stops. Returns the number of draws consumed. */
  method InfectionLoop(states: array<int>, sus: seq<nat>, inf: seq<nat>, contact: Contact,
                       draws: Draws, pInfect: real) returns (pos: nat)
    requires InRange(sus, states.Length)
    modifies states
    ensures var res := InfectPass(old(states[..]), sus, inf, contact, draws, pInfect, 0);
            states[..] == res.0 && pos == res.1
  {
    pos := 0;
    for j := 0 to |sus|
      invariant InfectPass(old(states[..]), sus, inf, contact, draws, pInfect, 0)
             == InfectPass(states[..], sus[j..], inf, contact, draws, pInfect, pos)
    {
      var p := sus[j];
      ghost var before := states[..];
      ghost var pos0 := pos;
      for k := 0 to |inf|
        invariant states[..] == before
        invariant ScanContacts(p, inf, contact, draws, pInfect, pos0)
               == ScanContacts(p, inf[k..], contact, draws, pInfect, pos)
      {
        if contact(p, inf[k]) {
          var u := draws(pos);
          pos := pos + 1;
          if u < pInfect {
            states[p] := Infected;
            break;
          }
        }
      }
      assert ScanContacts(p, inf, contact, draws, pInfect, pos0).1 == pos;
      assert states[..] == if ScanContacts(p, inf, contact, draws, pInfect, pos0).0
                           then before[p := Infected] else before;
      assert sus[j..][1..] == sus[j + 1..];
    }
  }

  /** The recovery loop of `update`, in place: every particle of the infected
      snapshot draws once, from draw `pos` on, and is set to 2 on success. */
  method RecoveryLoop(states: array<int>, inf: seq<nat>, draws: Draws, pRecover: real, pos: nat)
    requires InRange(inf, states.Length)
    modifies states
    ensures states[..] == RecoverPass(old(states[..]), inf, draws, pRecover, pos)
  {
    var next := pos;
    for k := 0 to |inf|
      invariant next == pos + k
      invariant RecoverPass(old(states[..]), inf, draws, pRecover, pos)
             == RecoverPass(states[..], inf[k..], draws, pRecover, next)
    {
      ghost var before := states[..];
      assert inf[k..][0] == inf[k] && inf[k..][1..] == inf[k + 1..];
      var u := draws(next);
      next := next + 1;
      if u < pRecover {
        states[inf[k]] := Recovered;
        assert states[..] == before[inf[k] := Recovered];
      }
    }
  }

  /** The state changes of `update`, in place: both snapshots are taken, then
      the infection loop and the recovery loop run over them. */
  method StepStates(states: array<int>, contact: Contact, draws: Draws, pInfect: real, pRecover: real)
    modifies states
    ensures states[..] == Step(old(states[..]), contact, draws, pInfect, pRecover)
  {
    IndicesOfSpec(states[..], Susceptible);
    IndicesOfSpec(states[..], Infected);
    var sus := Where(states, Susceptible);
    var inf := Where(states, Infected);
    var pos := InfectionLoop(states, sus, inf, contact, draws, pInfect);
    RecoveryLoop(states, inf, draws, pRecover, pos);
  }

  /** One step from a valid state keeps every particle in a compartment and
      extends valid histories by the new counts to valid histories. */
  lemma StepKeepsValid(s: seq<int>, r: seq<int>, contact: Contact, draws: Draws, pInfect: real, pRecover: real,
                       sH: seq<nat>, iH: seq<nat>, rH: seq<nat>, n: nat, cS: nat, cI: nat, cR: nat)
    requires r == Step(s, contact, draws, pInfect, pRecover)
    requires |s| == n && AllStates(s) && HistoryValid(sH, iH, rH, n)
    requires sH[|sH| - 1] == Count(s, Susceptible)
    requires iH[|iH| - 1] == Count(s, Infected)
    requires rH[|rH| - 1] == Count(s, Recovered)
    requires cS == Count(r, Susceptible) && cI == Count(r, Infected) && cR == Count(r, Recovered)
    ensures AllStates(r)
    ensures HistoryValid(sH + [cS], iH + [cI], rH + [cR], n)
  {
    StepTransitions(s, contact, draws, pInfect, pRecover);
    StepKeepsHistory(s, r, sH, iH, rH, n, cS, cI, cR);
  }

  class Simulation {
    const nTotal: nat
    const i0: nat
    const beta: real
    const gamma: real
    const dt: real
    var states: array<int>
    var sHistory: seq<nat>
    var iHistory: seq<nat>
    var rHistory: seq<nat>

    /** The state array holds the population, every particle is in a
        compartment, the histories are valid and their last entry counts the
        current states. */
    ghost predicate Valid()
      reads this, states
    {
      states.Length == nTotal &&
      AllStates(states[..]) &&
      HistoryValid(sHistory, iHistory, rHistory, nTotal) &&
      sHistory[|sHistory| - 1] == Count(states[..], Susceptible) &&
      iHistory[|iHistory| - 1] == Count(states[..], Infected) &&
      rHistory[|rHistory| - 1] == Count(states[..], Recovered)
    }

    /** The infection threshold `beta * dt` of one contact draw. */
    function InfectProb(): real {
      beta * dt
    }

    /** The recovery threshold `gamma * dt` of one draw. */
    function RecoverProb(): real {
      gamma * dt
    }

    /** `__init__`: `chosen` stands for the indices drawn by
        `np.random.choice(nTotal, i0, replace=False)`. */
    constructor (nTotal: nat, i0: nat, beta: real, gamma: real, dt: real, chosen: seq<nat>)
      requires ValidChoice(chosen, nTotal, i0)
      ensures Valid() && fresh(states)
      ensures this.nTotal == nTotal && this.i0 == i0
      ensures this.beta == beta && this.gamma == gamma && this.dt == dt
      ensures states[..] == InitialStates(nTotal, chosen)
      ensures sHistory == [nTotal - i0] && iHistory == [i0] && rHistory == [0]
    {
      var a := NewStates(nTotal, chosen);
      var cS := CountState(a, Susceptible);
      var cI := CountState(a, Infected);
      var cR := CountState(a, Recovered);
      InitialCounts(nTotal, chosen);
      HistoryStart(cS, cI, cR, nTotal);
      this.nTotal := nTotal;
      this.i0 := i0;
      this.beta := beta;
      this.gamma := gamma;
      this.dt := dt;
      states := a;
      sHistory := [cS];
      iHistory := [cI];
      rHistory := [cR];
    }

    /** `update`: takes the susceptible and infected snapshots, runs the
        infection loop and the recovery loop over them, and appends one count
        to each history. */
    method Update(contact: Contact, draws: Draws)
      requires Valid()
      modifies this`sHistory, this`iHistory, this`rHistory, states
      ensures Valid()
      ensures states[..] == Step(old(states[..]), contact, draws, InfectProb(), RecoverProb())
      ensures sHistory == old(sHistory) + [Count(states[..], Susceptible)]
      ensures iHistory == old(iHistory) + [Count(states[..], Infected)]
      ensures rHistory == old(rHistory) + [Count(states[..], Recovered)]
    {
      ghost var s0 := states[..];
      StepStates(states, contact, draws, beta * dt, gamma * dt);
      var cS := CountState(states, Susceptible);
      var cI := CountState(states, Infected);
      var cR := CountState(states, Recovered);
      StepKeepsValid(s0, states[..], contact, draws, beta * dt, gamma * dt,
                     sHistory, iHistory, rHistory, nTotal, cS, cI, cR);
      sHistory := sHistory + [cS];
      iHistory := iHistory + [cI];
      rHistory := rHistory + [cR];
    }
  }
}

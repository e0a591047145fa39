/** The state transitions of one call of `SIRParticleSimulation.update`, as
    functions on the state sequence. The geometry and the random number
    generator enter as parameters:
    - `contact(p, q)` stands for `np.linalg.norm(pos[p] - pos[q]) < r` at the
      particle positions of this step (they do not change while states change);
    - `draws(j)` is the value returned by the j-th call of `np.random.random()`
      made during this step, counting from 0. */
module SirStep {
  import opened SirCounts

  type Contact = (nat, nat) -> bool
  type Draws = nat -> real

  /** The scan of one susceptible particle `p` over the infected snapshot,
      consuming draws from position `pos`: a draw is made for each particle in
      contact, and the scan stops (`break`) at the first successful draw.
      Returns whether `p` is infected and the position of the next unused draw. */
  function ScanContacts(p: nat, inf: seq<nat>, contact: Contact, draws: Draws,
                        pInfect: real, pos: nat): (res: (bool, nat))
    ensures pos <= res.1 <= pos + |inf|
    ensures res.0 ==> res.1 > pos
  {
    if inf == [] then (false, pos)
    else if contact(p, inf[0]) then
      if draws(pos) < pInfect then (true, pos + 1)
      else ScanContacts(p, inf[1..], contact, draws, pInfect, pos + 1)
    else ScanContacts(p, inf[1..], contact, draws, pInfect, pos)
  }

  /** The `break`: a success is the last draw the scan consumes and every
      earlier draw failed; an infection needs a contact with a particle of the
      infected snapshot; with no such contact no draw is consumed. */
  lemma {:induction false} ScanContactsFirstSuccess(p: nat, inf: seq<nat>, contact: Contact, draws: Draws,
                                                    pInfect: real, pos: nat)
    ensures var res := ScanContacts(p, inf, contact, draws, pInfect, pos);
            (res.0 ==> draws(res.1 - 1) < pInfect) &&
            (forall j :: pos <= j < res.1 - (if res.0 then 1 else 0) ==> draws(j) >= pInfect) &&
            (res.0 ==> exists k :: 0 <= k < |inf| && contact(p, inf[k])) &&
            ((forall k :: 0 <= k < |inf| ==> !contact(p, inf[k])) ==> res == (false, pos))
    decreases |inf|
  {
    if inf != [] {
      var next := if contact(p, inf[0]) then pos + 1 else pos;
      ScanContactsFirstSuccess(p, inf[1..], contact, draws, pInfect, next);
      var res := ScanContacts(p, inf, contact, draws, pInfect, pos);
      if res.0 && !(contact(p, inf[0]) && draws(pos) < pInfect) {
        var k :| 0 <= k < |inf[1..]| && contact(p, inf[1..][k]);
        assert contact(p, inf[k + 1]);
      }
      if forall k :: 0 <= k < |inf| ==> !contact(p, inf[k]) {
        assert !contact(p, inf[0]);
        assert forall k :: 0 <= k < |inf[1..]| ==> !contact(p, inf[1..][k]) by {
          forall k | 0 <= k < |inf[1..]| ensures !contact(p, inf[1..][k]) {
            assert inf[1..][k] == inf[k + 1];
          }
        }
      }
    }
  }

  ghost predicate InRange(idx: seq<nat>, n: nat) {
    forall k :: 0 <= k < |idx| ==> idx[k] < n
  }

  /** The snapshot of the positions holding `v` lies within the state array. */
  lemma IndicesInRange(s: seq<int>, v: int)
    ensures InRange(IndicesOf(s, v), |s|)
  {
    IndicesOfSound(s, v);
  }

  /** The infection loop over the susceptible snapshot `sus`, in order. */
  function InfectPass(s: seq<int>, sus: seq<nat>, inf: seq<nat>, contact: Contact,
                      draws: Draws, pInfect: real, pos: nat): (res: (seq<int>, nat))
    requires InRange(sus, |s|)
    ensures |res.0| == |s| && res.1 >= pos
    decreases |sus|
  {
    if sus == [] then (s, pos)
    else
      var scan := ScanContacts(sus[0], inf, contact, draws, pInfect, pos);
      var s' := if scan.0 then s[sus[0] := Infected] else s;
      InfectPass(s', sus[1..], inf, contact, draws, pInfect, scan.1)
  }

  /** The infection loop only sets particles of `sus` to 1, and only those in
      contact with a particle of the infected snapshot. */
  lemma {:induction false} InfectPassEffect(s: seq<int>, sus: seq<nat>, inf: seq<nat>, contact: Contact,
                                            draws: Draws, pInfect: real, pos: nat)
    requires InRange(sus, |s|)
    ensures var r := InfectPass(s, sus, inf, contact, draws, pInfect, pos).0;
            forall i :: 0 <= i < |s| ==>
              r[i] == s[i] ||
              (r[i] == Infected && i in sus && exists k :: 0 <= k < |inf| && contact(i, inf[k]))
    decreases |sus|
  {
    if sus != [] {
      var scan := ScanContacts(sus[0], inf, contact, draws, pInfect, pos);
      var s' := if scan.0 then s[sus[0] := Infected] else s;
      InfectPassEffect(s', sus[1..], inf, contact, draws, pInfect, scan.1);
      ScanContactsFirstSuccess(sus[0], inf, contact, draws, pInfect, pos);
      var r := InfectPass(s', sus[1..], inf, contact, draws, pInfect, scan.1).0;
      assert r == InfectPass(s, sus, inf, contact, draws, pInfect, pos).0;
      forall i | 0 <= i < |s|
        ensures r[i] == s[i] ||
                (r[i] == Infected && i in sus && exists k :: 0 <= k < |inf| && contact(i, inf[k]))
      {
        if r[i] != s'[i] {
          assert i in sus[1..];
        }
      }
    }
  }

  /** The recovery loop: each particle of the infected snapshot draws once. */
  function RecoverPass(s: seq<int>, inf: seq<nat>, draws: Draws, pRecover: real, pos: nat): (r: seq<int>)
    requires InRange(inf, |s|)
    ensures |r| == |s|
    decreases |inf|
  {
    if inf == [] then s
    else
      var s' := if draws(pos) < pRecover then s[inf[0] := Recovered] else s;
      RecoverPass(s', inf[1..], draws, pRecover, pos + 1)
  }

  /** The recovery loop only sets snapshot-infected particles to 2. */
  lemma {:induction false} RecoverPassEffect(s: seq<int>, inf: seq<nat>, draws: Draws, pRecover: real, pos: nat)
    requires InRange(inf, |s|)
    ensures var r := RecoverPass(s, inf, draws, pRecover, pos);
            forall i :: 0 <= i < |s| ==> r[i] == s[i] || (r[i] == Recovered && i in inf)
    decreases |inf|
  {
    if inf != [] {
      var s' := if draws(pos) < pRecover then s[inf[0] := Recovered] else s;
      RecoverPassEffect(s', inf[1..], draws, pRecover, pos + 1);
      var r := RecoverPass(s', inf[1..], draws, pRecover, pos + 1);
      assert r == RecoverPass(s, inf, draws, pRecover, pos);
      forall i | 0 <= i < |s| ensures r[i] == s[i] || (r[i] == Recovered && i in inf) {
        if r[i] != s'[i] {
          assert i in inf[1..];
        }
      }
    }
  }

  /** The moves one step allows a particle: S stays or becomes I (a particle
      infected in this step does not also recover), I stays or becomes R, and
      R (or any value outside the encoding) never changes. */
  predicate Transition(x: int, y: int) {
    (x == Susceptible ==> y == Susceptible || y == Infected) &&
    (x == Infected ==> y == Infected || y == Recovered) &&
    (x != Susceptible && x != Infected ==> y == x)
  }

  ghost predicate Transitions(s: seq<int>, r: seq<int>) {
    |r| == |s| && forall i :: 0 <= i < |s| ==> Transition(s[i], r[i])
  }

  /** Allowed moves keep every particle in {0, 1, 2}, so S + I + R stays the population. */
  lemma TransitionsConserve(s: seq<int>, r: seq<int>)
    requires AllStates(s) && Transitions(s, r)
    ensures AllStates(r)
    ensures Count(r, Susceptible) + Count(r, Infected) + Count(r, Recovered) == |s|
  {
    assert AllStates(r) by {
      forall i | 0 <= i < |r| ensures IsState(r[i]) {
        assert IsState(s[i]) && Transition(s[i], r[i]);
      }
    }
    Conservation(r);
  }

  /** Under allowed moves S never grows, R never shrinks and I + R never shrinks. */
  lemma TransitionsMonotone(s: seq<int>, r: seq<int>)
    requires Transitions(s, r)
    ensures Count(r, Susceptible) <= Count(s, Susceptible)
    ensures Count(s, Recovered) <= Count(r, Recovered)
    ensures Count(s, Infected) + Count(s, Recovered) <= Count(r, Infected) + Count(r, Recovered)
  {
    assert forall i :: 0 <= i < |s| ==> Transition(s[i], r[i]);
    CountInMono(r, s, {Susceptible}, {Susceptible});
    CountInMono(s, r, {Recovered}, {Recovered});
    CountInMono(s, r, {Infected, Recovered}, {Infected, Recovered});
    InfectedOrRecovered(s);
    InfectedOrRecovered(r);
  }

  /** One `update`: both snapshots are taken first, then the infection loop
      runs, then the recovery loop continues with the next unused draw. */
  function Step(s: seq<int>, contact: Contact, draws: Draws, pInfect: real, pRecover: real): seq<int> {
    IndicesInRange(s, Susceptible);
    IndicesInRange(s, Infected);
    var sus := IndicesOf(s, Susceptible);
    var inf := IndicesOf(s, Infected);
    var infected := InfectPass(s, sus, inf, contact, draws, pInfect, 0);
    RecoverPass(infected.0, inf, draws, pRecover, infected.1)
  }

  /** The number of draws the infection loop of a step consumes; the recovery
      loop's draws are those from this position on. */
  function InfectionDraws(s: seq<int>, contact: Contact, draws: Draws, pInfect: real): nat {
    IndicesInRange(s, Susceptible);
    InfectPass(s, IndicesOf(s, Susceptible), IndicesOf(s, Infected), contact, draws, pInfect, 0).1
  }

  /** Every particle makes one of the allowed moves in a step. */
  lemma StepTransitions(s: seq<int>, contact: Contact, draws: Draws, pInfect: real, pRecover: real)
    ensures Transitions(s, Step(s, contact, draws, pInfect, pRecover))
  {
    IndicesOfSpec(s, Susceptible);
    IndicesOfSpec(s, Infected);
    var sus := IndicesOf(s, Susceptible);
    var inf := IndicesOf(s, Infected);
    var infected := InfectPass(s, sus, inf, contact, draws, pInfect, 0);
    InfectPassEffect(s, sus, inf, contact, draws, pInfect, 0);
    RecoverPassEffect(infected.0, inf, draws, pRecover, infected.1);
  }

  /** A new infection needs a contact with a particle that was infected at
      the start of the step. */
  lemma StepInfectionNeedsContact(s: seq<int>, contact: Contact, draws: Draws, pInfect: real, pRecover: real, i: nat)
    requires i < |s| && s[i] == Susceptible
    requires Step(s, contact, draws, pInfect, pRecover)[i] == Infected
    ensures exists j :: 0 <= j < |s| && s[j] == Infected && contact(i, j)
  {
    IndicesOfSpec(s, Susceptible);
    IndicesOfSpec(s, Infected);
    var sus := IndicesOf(s, Susceptible);
    var inf := IndicesOf(s, Infected);
    var infected := InfectPass(s, sus, inf, contact, draws, pInfect, 0);
    InfectPassEffect(s, sus, inf, contact, draws, pInfect, 0);
    RecoverPassEffect(infected.0, inf, draws, pRecover, infected.1);
    assert infected.0[i] != s[i];
    var k :| 0 <= k < |inf| && contact(i, inf[k]);
    assert s[inf[k]] == Infected;
  }

  /** When no draw can succeed the infection loop changes nothing. */
  lemma {:induction false} InfectPassAllFail(s: seq<int>, sus: seq<nat>, inf: seq<nat>, contact: Contact,
                                             draws: Draws, pInfect: real, pos: nat)
    requires InRange(sus, |s|)
    requires forall j :: pos <= j < InfectPass(s, sus, inf, contact, draws, pInfect, pos).1 ==> draws(j) >= pInfect
    ensures InfectPass(s, sus, inf, contact, draws, pInfect, pos).0 == s
    decreases |sus|
  {
    if sus != [] {
      var scan := ScanContacts(sus[0], inf, contact, draws, pInfect, pos);
      ScanContactsFirstSuccess(sus[0], inf, contact, draws, pInfect, pos);
      assert !scan.0;
      InfectPassAllFail(s, sus[1..], inf, contact, draws, pInfect, scan.1);
    }
  }

  /** With an empty infected snapshot the infection loop changes nothing. */
  lemma {:induction false} InfectPassNoInfected(s: seq<int>, sus: seq<nat>, contact: Contact,
                                                draws: Draws, pInfect: real, pos: nat)
    requires InRange(sus, |s|)
    ensures InfectPass(s, sus, [], contact, draws, pInfect, pos).0 == s
    decreases |sus|
  {
    if sus != [] {
      InfectPassNoInfected(s, sus[1..], contact, draws, pInfect, pos);
    }
  }

  /** When no draw can succeed the recovery loop changes nothing. */
  lemma {:induction false} RecoverPassAllFail(s: seq<int>, inf: seq<nat>, draws: Draws, pRecover: real, pos: nat)
    requires InRange(inf, |s|)
    requires forall j :: pos <= j < pos + |inf| ==> draws(j) >= pRecover
    ensures RecoverPass(s, inf, draws, pRecover, pos) == s
    decreases |inf|
  {
    if inf != [] {
      RecoverPassAllFail(s, inf[1..], draws, pRecover, pos + 1);
    }
  }

  /** `update` keeps every particle in {0, 1, 2}, so S + I + R stays the population. */
  lemma StepConserves(s: seq<int>, contact: Contact, draws: Draws, pInfect: real, pRecover: real)
    requires AllStates(s)
    ensures var r := Step(s, contact, draws, pInfect, pRecover);
            AllStates(r) && Count(r, Susceptible) + Count(r, Infected) + Count(r, Recovered) == |s|
  {
    StepTransitions(s, contact, draws, pInfect, pRecover);
    TransitionsConserve(s, Step(s, contact, draws, pInfect, pRecover));
  }

  /** Across one step S never grows, R never shrinks and I + R never shrinks. */
  lemma StepMonotone(s: seq<int>, contact: Contact, draws: Draws, pInfect: real, pRecover: real)
    ensures var r := Step(s, contact, draws, pInfect, pRecover);
            Count(r, Susceptible) <= Count(s, Susceptible) &&
            Count(s, Recovered) <= Count(r, Recovered) &&
            Count(s, Infected) + Count(s, Recovered) <= Count(r, Infected) + Count(r, Recovered)
  {
    StepTransitions(s, contact, draws, pInfect, pRecover);
    TransitionsMonotone(s, Step(s, contact, draws, pInfect, pRecover));
  }

  /** With no infected particle at the start of the step no state changes. */
  lemma StepNoInfected(s: seq<int>, contact: Contact, draws: Draws, pInfect: real, pRecover: real)
    requires Count(s, Infected) == 0
    ensures Step(s, contact, draws, pInfect, pRecover) == s
  {
    IndicesOfSpec(s, Susceptible);
    IndicesOfSpec(s, Infected);
    var sus := IndicesOf(s, Susceptible);
    assert IndicesOf(s, Infected) == [];
    InfectPassNoInfected(s, sus, contact, draws, pInfect, 0);
  }

  /** When every draw of the infection loop fails the infection test (beta = 0,
      say), S is unchanged and I cannot grow, whatever the recovery draws are. */
  lemma StepNoInfection(s: seq<int>, contact: Contact, draws: Draws, pInfect: real, pRecover: real)
    requires forall j: nat :: j < InfectionDraws(s, contact, draws, pInfect) ==> draws(j) >= pInfect
    ensures var r := Step(s, contact, draws, pInfect, pRecover);
            Count(r, Susceptible) == Count(s, Susceptible) && Count(r, Infected) <= Count(s, Infected)
  {
    var r := Step(s, contact, draws, pInfect, pRecover);
    IndicesOfSpec(s, Susceptible);
    IndicesOfSpec(s, Infected);
    var sus := IndicesOf(s, Susceptible);
    var inf := IndicesOf(s, Infected);
    InfectPassAllFail(s, sus, inf, contact, draws, pInfect, 0);
    var pos := InfectPass(s, sus, inf, contact, draws, pInfect, 0).1;
    assert r == RecoverPass(s, inf, draws, pRecover, pos);
    RecoverPassEffect(s, inf, draws, pRecover, pos);
    assert forall i :: 0 <= i < |s| ==> (r[i] in {Susceptible} <==> s[i] in {Susceptible});
    assert forall i :: 0 <= i < |s| && r[i] in {Infected} ==> s[i] in {Infected};
    CountInSame(r, s, {Susceptible}, {Susceptible});
    CountInMono(r, s, {Infected}, {Infected});
  }

  /** When every draw of the recovery loop fails the recovery test (gamma = 0,
      say), R is unchanged and I cannot shrink, whatever the infection draws are. */
  lemma StepNoRecovery(s: seq<int>, contact: Contact, draws: Draws, pInfect: real, pRecover: real)
    requires var pos := InfectionDraws(s, contact, draws, pInfect);
             forall j: nat :: pos <= j < pos + Count(s, Infected) ==> draws(j) >= pRecover
    ensures var r := Step(s, contact, draws, pInfect, pRecover);
            Count(r, Recovered) == Count(s, Recovered) && Count(s, Infected) <= Count(r, Infected)
  {
    var r := Step(s, contact, draws, pInfect, pRecover);
    IndicesOfSpec(s, Susceptible);
    IndicesOfSpec(s, Infected);
    var sus := IndicesOf(s, Susceptible);
    var inf := IndicesOf(s, Infected);
    var infected := InfectPass(s, sus, inf, contact, draws, pInfect, 0);
    InfectPassEffect(s, sus, inf, contact, draws, pInfect, 0);
    RecoverPassAllFail(infected.0, inf, draws, pRecover, infected.1);
    CountInSame(r, s, {Recovered}, {Recovered});
    CountInMono(s, r, {Infected}, {Infected});
  }

  /** The state after `t` updates, the k-th using `contacts(k)` and `draws(k)`. */
  function Evolve(s: seq<int>, contacts: nat -> Contact, draws: nat -> Draws,
                  pInfect: real, pRecover: real, t: nat): (r: seq<int>)
    ensures |r| == |s|
    decreases t
  {
    if t == 0 then s
    else Step(Evolve(s, contacts, draws, pInfect, pRecover, t - 1), contacts(t - 1), draws(t - 1), pInfect, pRecover)
  }
}

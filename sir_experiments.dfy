/** The multi-run driver of the particle script: every run starts from a copy
    of one fixed initial state array, runs its updates, keeps the first
    `numSteps + 1` history entries, and the per-time S/I/R counts are summed
    into accumulators and divided by the number of runs. */
module SirExperiments {
  import opened SirCounts
  import opened SirStep
  import opened SirParticles

  /** The three series of a run. */
  datatype Compartment = S | I | R

  /** One entry of `runs`: `run_id` and the truncated S, I and R histories. */
  datatype RunRecord = RunRecord(runId: nat, s: seq<nat>, i: seq<nat>, r: seq<nat>)

  /** The `mean` entry: the S, I and R series averaged over the runs. */
  datatype MeanRecord = MeanRecord(s: seq<real>, i: seq<real>, r: seq<real>)

  function Series(run: RunRecord, c: Compartment): seq<nat> {
    match c
    case S => run.s
    case I => run.i
    case R => run.r
  }

  /** Entry `t` of series `c` of a run, as a real; 0 past the end of the
      series, which does not happen for the driver's runs, all of the same
      length. */
  function Entry(run: RunRecord, c: Compartment, t: nat): real {
    var xs := Series(run, c);
    if t < |xs| then xs[t] as real else 0.0
  }

  /** The sum over the first `k` runs of series `c` at time index `t`. */
  function SumTo(runs: seq<RunRecord>, c: Compartment, t: nat, k: nat): real
    requires k <= |runs|
    decreases k
  {
    if k == 0 then 0.0 else SumTo(runs, c, t, k - 1) + Entry(runs[k - 1], c, t)
  }

  /** The sum over all runs of series `c` at time index `t`. */
  function SumAt(runs: seq<RunRecord>, c: Compartment, t: nat): real {
    SumTo(runs, c, t, |runs|)
  }

  /** Runs added after the first `k` do not change the sum over those `k`. */
  lemma {:induction false} SumToAppend(runs: seq<RunRecord>, run: RunRecord, c: Compartment, t: nat, k: nat)
    requires k <= |runs|
    ensures SumTo(runs + [run], c, t, k) == SumTo(runs, c, t, k)
    decreases k
  {
    if k > 0 {
      SumToAppend(runs, run, c, t, k - 1);
      assert (runs + [run])[k - 1] == runs[k - 1];
    }
  }

  /** Adding a run to the end adds its entry to the sum. */
  lemma SumAtAppend(runs: seq<RunRecord>, run: RunRecord, c: Compartment, t: nat)
    ensures SumAt(runs + [run], c, t) == SumAt(runs, c, t) + Entry(run, c, t)
  {
    SumToAppend(runs, run, c, t, |runs|);
    assert (runs + [run])[|runs|] == run;
  }

  /** `x` added `k` times. */
  function Times(k: nat, x: real): real {
    if k == 0 then 0.0 else Times(k - 1, x) + x
  }

  lemma {:induction false} TimesIsProduct(k: nat, x: real)
    ensures Times(k, x) == (k as real) * x
  {
    if k > 0 {
      TimesIsProduct(k - 1, x);
    }
  }

  /** When every run conserves the population at `t`, the three sums over the
      first `k` runs add up to `k` times the population. */
  lemma {:induction false} SumsConserve(runs: seq<RunRecord>, n: nat, t: nat, k: nat)
    requires k <= |runs|
    requires forall j :: 0 <= j < |runs| ==>
               Entry(runs[j], S, t) + Entry(runs[j], I, t) + Entry(runs[j], R, t) == n as real
    ensures SumTo(runs, S, t, k) + SumTo(runs, I, t, k) + SumTo(runs, R, t, k) == Times(k, n as real)
    decreases k
  {
    if k > 0 {
      SumsConserve(runs, n, t, k - 1);
    }
  }

  /** A series whose entry does not grow from `t` to `u` in any run has a
      non-growing sum. */
  lemma {:induction false} SumAtMonotone(runs: seq<RunRecord>, c: Compartment, t: nat, u: nat, k: nat)
    requires k <= |runs|
    requires forall j :: 0 <= j < |runs| ==> Entry(runs[j], c, u) <= Entry(runs[j], c, t)
    ensures SumTo(runs, c, u, k) <= SumTo(runs, c, t, k)
    decreases k
  {
    if k > 0 {
      SumAtMonotone(runs, c, t, u, k - 1);
    }
  }

  /** I + R does not shrink from `t` to `u` in any run, so neither does its sum. */
  lemma {:induction false} SumInfectedRecoveredMonotone(runs: seq<RunRecord>, t: nat, u: nat, k: nat)
    requires k <= |runs|
    requires forall j :: 0 <= j < |runs| ==>
               Entry(runs[j], I, t) + Entry(runs[j], R, t) <= Entry(runs[j], I, u) + Entry(runs[j], R, u)
    ensures SumTo(runs, I, t, k) + SumTo(runs, R, t, k) <= SumTo(runs, I, u, k) + SumTo(runs, R, u, k)
    decreases k
  {
    if k > 0 {
      SumInfectedRecoveredMonotone(runs, t, u, k - 1);
    }
  }

  /** The mean is the elementwise sum over the runs divided by their number. */
  ghost predicate IsMean(mean: MeanRecord, runs: seq<RunRecord>, len: nat) {
    |runs| >= 1 &&
    |mean.s| == len && |mean.i| == len && |mean.r| == len &&
    forall t :: 0 <= t < len ==>
      mean.s[t] == SumAt(runs, S, t) / (|runs| as real) &&
      mean.i[t] == SumAt(runs, I, t) / (|runs| as real) &&
      mean.r[t] == SumAt(runs, R, t) / (|runs| as real)
  }

  /** Every run holds a valid history of length `len` over `n` particles. */
  ghost predicate AllRunsValid(runs: seq<RunRecord>, len: nat, n: nat) {
    forall k :: 0 <= k < |runs| ==> |runs[k].s| == len && HistoryValid(runs[k].s, runs[k].i, runs[k].r, n)
  }

  /** When every run holds a valid history, the summed S does not grow from
      `t` to a later `u`, and the summed R and the summed I + R do not shrink. */
  lemma SumsMonotone(runs: seq<RunRecord>, len: nat, n: nat, t: nat, u: nat)
    requires AllRunsValid(runs, len, n) && t < u < len
    ensures SumAt(runs, S, u) <= SumAt(runs, S, t) && SumAt(runs, R, t) <= SumAt(runs, R, u)
    ensures SumAt(runs, I, t) + SumAt(runs, R, t) <= SumAt(runs, I, u) + SumAt(runs, R, u)
  {
    forall j | 0 <= j < |runs|
      ensures Entry(runs[j], S, u) <= Entry(runs[j], S, t) && Entry(runs[j], R, t) <= Entry(runs[j], R, u) &&
              Entry(runs[j], I, t) + Entry(runs[j], R, t) <= Entry(runs[j], I, u) + Entry(runs[j], R, u)
    {
      HistoryValidMeaning(runs[j].s, runs[j].i, runs[j].r, n);
    }
    SumAtMonotone(runs, S, t, u, |runs|);
    SumAtMonotone(runs, R, u, t, |runs|);
    SumInfectedRecoveredMonotone(runs, t, u, |runs|);
  }

  /** When every run holds a valid history, the three sums at `t` add up to
      runs times population. */
  lemma SumsConserveValid(runs: seq<RunRecord>, len: nat, n: nat, t: nat)
    requires AllRunsValid(runs, len, n) && t < len
    ensures SumAt(runs, S, t) + SumAt(runs, I, t) + SumAt(runs, R, t) == Times(|runs|, n as real)
  {
    forall j | 0 <= j < |runs|
      ensures Entry(runs[j], S, t) + Entry(runs[j], I, t) + Entry(runs[j], R, t) == n as real
    {
      HistoryValidMeaning(runs[j].s, runs[j].i, runs[j].r, n);
    }
    SumsConserve(runs, n, t, |runs|);
  }

  /** The mean at one time index is the sum of the runs divided by their number. */
  lemma MeanAt(mean: MeanRecord, runs: seq<RunRecord>, len: nat, t: nat)
    requires IsMean(mean, runs, len) && t < len
    ensures |runs| >= 1
    ensures mean.s[t] == SumAt(runs, S, t) / (|runs| as real)
    ensures mean.i[t] == SumAt(runs, I, t) / (|runs| as real)
    ensures mean.r[t] == SumAt(runs, R, t) / (|runs| as real)
  {
  }

  /** The mean sums to the population at every time index. */
  lemma MeanConserves(mean: MeanRecord, runs: seq<RunRecord>, len: nat, n: nat, t: nat)
    requires IsMean(mean, runs, len) && AllRunsValid(runs, len, n)
    requires t < len
    ensures mean.s[t] + mean.i[t] + mean.r[t] == n as real
  {
    SumsConserveValid(runs, len, n, t);
    MeanAt(mean, runs, len, t);
    DivideSum3(SumAt(runs, S, t), SumAt(runs, I, t), SumAt(runs, R, t), |runs|, n as real,
               mean.s[t], mean.i[t], mean.r[t]);
  }

  /** From any time index to a later one the mean S does not grow and the
      mean R and the mean I + R do not shrink. */
  lemma MeanMonotone(mean: MeanRecord, runs: seq<RunRecord>, len: nat, n: nat, t: nat, u: nat)
    requires IsMean(mean, runs, len) && AllRunsValid(runs, len, n)
    requires t < u < len
    ensures mean.s[u] <= mean.s[t] && mean.r[t] <= mean.r[u]
    ensures mean.i[t] + mean.r[t] <= mean.i[u] + mean.r[u]
  {
    var m := |runs| as real;
    SumsMonotone(runs, len, n, t, u);
    MeanAt(mean, runs, len, t);
    MeanAt(mean, runs, len, u);
    DivideMono(SumAt(runs, S, u), SumAt(runs, S, t), m, mean.s[u], mean.s[t]);
    DivideMono(SumAt(runs, R, t), SumAt(runs, R, u), m, mean.r[t], mean.r[u]);
    DivideMono2(SumAt(runs, I, t), SumAt(runs, R, t), SumAt(runs, I, u), SumAt(runs, R, u), m,
                mean.i[t], mean.r[t], mean.i[u], mean.r[u]);
  }

  lemma DivideSum3(a: real, b: real, c: real, k: nat, n: real, x: real, y: real, z: real)
    requires k >= 1 && a + b + c == Times(k, n)
    requires x == a / (k as real) && y == b / (k as real) && z == c / (k as real)
    ensures x + y + z == n
  {
    TimesIsProduct(k, n);
    var m := k as real;
    assert a / m + b / m + c / m == (a + b + c) / m;
  }

  lemma DivideMono(a: real, b: real, m: real, x: real, y: real)
    requires m >= 1.0 && a <= b && x == a / m && y == b / m
    ensures x <= y
  {
  }

  lemma DivideMono2(a1: real, a2: real, b1: real, b2: real, m: real, x1: real, x2: real, y1: real, y2: real)
    requires m >= 1.0 && a1 + a2 <= b1 + b2
    requires x1 == a1 / m && x2 == a2 / m && y1 == b1 / m && y2 == b2 / m
    ensures x1 + x2 <= y1 + y2
  {
    assert x1 + x2 == (a1 + a2) / m && y1 + y2 == (b1 + b2) / m;
  }

  /** The series of counts of compartment `v` over the first `t` updates of
      a run that starts from `s`: entry u counts the state after u updates. */
  function CountHistory(s: seq<int>, contacts: nat -> Contact, draws: nat -> Draws,
                        pInfect: real, pRecover: real, v: int, t: nat): (h: seq<nat>)
    ensures |h| == t + 1
    decreases t
  {
    if t == 0 then [Count(s, v)]
    else CountHistory(s, contacts, draws, pInfect, pRecover, v, t - 1)
         + [Count(Evolve(s, contacts, draws, pInfect, pRecover, t), v)]
  }

  /** Entry u of the series counts the state after u updates. */
  lemma {:induction false} CountHistoryAt(s: seq<int>, contacts: nat -> Contact, draws: nat -> Draws,
                                          pInfect: real, pRecover: real, v: int, t: nat, u: nat)
    requires u <= t
    ensures CountHistory(s, contacts, draws, pInfect, pRecover, v, t)[u]
         == Count(Evolve(s, contacts, draws, pInfect, pRecover, u), v)
    decreases t
  {
    if u < t {
      CountHistoryAt(s, contacts, draws, pInfect, pRecover, v, t - 1, u);
    }
  }

  /** Truncating the series after u updates gives the series of u updates. */
  lemma {:induction false} CountHistoryPrefix(s: seq<int>, contacts: nat -> Contact, draws: nat -> Draws,
                                              pInfect: real, pRecover: real, v: int, t: nat, u: nat)
    requires u <= t
    ensures CountHistory(s, contacts, draws, pInfect, pRecover, v, t)[..u + 1]
         == CountHistory(s, contacts, draws, pInfect, pRecover, v, u)
    decreases t
  {
    if u < t {
      CountHistoryPrefix(s, contacts, draws, pInfect, pRecover, v, t - 1, u);
      var h := CountHistory(s, contacts, draws, pInfect, pRecover, v, t - 1);
      assert (h + [Count(Evolve(s, contacts, draws, pInfect, pRecover, t), v)])[..u + 1] == h[..u + 1];
    }
  }

  /** Whatever the contacts and draws, a run from a state in which every
      particle is in a compartment keeps every particle in one and yields
      valid histories: conserved totals, S never growing, R and I + R never
      shrinking. */
  lemma {:induction false} EvolveValid(s: seq<int>, contacts: nat -> Contact, draws: nat -> Draws,
                                       pInfect: real, pRecover: real, t: nat)
    requires AllStates(s)
    ensures AllStates(Evolve(s, contacts, draws, pInfect, pRecover, t))
    ensures HistoryValid(CountHistory(s, contacts, draws, pInfect, pRecover, Susceptible, t),
                         CountHistory(s, contacts, draws, pInfect, pRecover, Infected, t),
                         CountHistory(s, contacts, draws, pInfect, pRecover, Recovered, t), |s|)
    decreases t
  {
    if t == 0 {
      Conservation(s);
      HistoryStart(Count(s, Susceptible), Count(s, Infected), Count(s, Recovered), |s|);
    } else {
      EvolveValid(s, contacts, draws, pInfect, pRecover, t - 1);
      EvolveValidStep(s, contacts, draws, pInfect, pRecover, t);
    }
  }

  /** The inductive step of EvolveValid: validity after `t - 1` updates
      carries over to `t`. */
  lemma EvolveValidStep(s: seq<int>, contacts: nat -> Contact, draws: nat -> Draws,
                        pInfect: real, pRecover: real, t: nat)
    requires t >= 1
    requires AllStates(Evolve(s, contacts, draws, pInfect, pRecover, t - 1))
    requires HistoryValid(CountHistory(s, contacts, draws, pInfect, pRecover, Susceptible, t - 1),
                          CountHistory(s, contacts, draws, pInfect, pRecover, Infected, t - 1),
                          CountHistory(s, contacts, draws, pInfect, pRecover, Recovered, t - 1), |s|)
    ensures AllStates(Evolve(s, contacts, draws, pInfect, pRecover, t))
    ensures HistoryValid(CountHistory(s, contacts, draws, pInfect, pRecover, Susceptible, t),
                         CountHistory(s, contacts, draws, pInfect, pRecover, Infected, t),
                         CountHistory(s, contacts, draws, pInfect, pRecover, Recovered, t), |s|)
  {
    var prev := Evolve(s, contacts, draws, pInfect, pRecover, t - 1);
    var next := Evolve(s, contacts, draws, pInfect, pRecover, t);
    assert next == Step(prev, contacts(t - 1), draws(t - 1), pInfect, pRecover);
    var sH := CountHistory(s, contacts, draws, pInfect, pRecover, Susceptible, t - 1);
    var iH := CountHistory(s, contacts, draws, pInfect, pRecover, Infected, t - 1);
    var rH := CountHistory(s, contacts, draws, pInfect, pRecover, Recovered, t - 1);
    CountHistoryAt(s, contacts, draws, pInfect, pRecover, Susceptible, t - 1, t - 1);
    CountHistoryAt(s, contacts, draws, pInfect, pRecover, Infected, t - 1, t - 1);
    CountHistoryAt(s, contacts, draws, pInfect, pRecover, Recovered, t - 1, t - 1);
    StepTransitions(prev, contacts(t - 1), draws(t - 1), pInfect, pRecover);
    StepKeepsHistory(prev, next, sH, iH, rH, |s|,
                     Count(next, Susceptible), Count(next, Infected), Count(next, Recovered));
  }

  /** A run's state and histories after `k` updates. */
  ghost predicate Follows(st: seq<int>, sH: seq<nat>, iH: seq<nat>, rH: seq<nat>, s: seq<int>,
                          contacts: nat -> Contact, draws: nat -> Draws, pInfect: real, pRecover: real, k: nat)
  {
    st == Evolve(s, contacts, draws, pInfect, pRecover, k) &&
    sH == CountHistory(s, contacts, draws, pInfect, pRecover, Susceptible, k) &&
    iH == CountHistory(s, contacts, draws, pInfect, pRecover, Infected, k) &&
    rH == CountHistory(s, contacts, draws, pInfect, pRecover, Recovered, k)
  }

  /** One more `update` with the inputs of the k-th one, and one more count
      appended to each history, give the run after `k + 1` updates. */
  lemma FollowsNext(st: seq<int>, sH: seq<nat>, iH: seq<nat>, rH: seq<nat>, next: seq<int>, s: seq<int>,
                    contacts: nat -> Contact, draws: nat -> Draws, pInfect: real, pRecover: real, k: nat)
    requires Follows(st, sH, iH, rH, s, contacts, draws, pInfect, pRecover, k)
    requires next == Step(st, contacts(k), draws(k), pInfect, pRecover)
    ensures Follows(next, sH + [Count(next, Susceptible)], iH + [Count(next, Infected)],
                    rH + [Count(next, Recovered)], s, contacts, draws, pInfect, pRecover, k + 1)
  {
  }

  /** The record run `k` yields: its id and the count series of its first
      `numSteps` updates. */
  function ExpectedRun(s: seq<int>, k: nat, contacts: nat -> Contact, draws: nat -> Draws,
                       pInfect: real, pRecover: real, numSteps: nat): RunRecord
  {
    RunRecord(k, CountHistory(s, contacts, draws, pInfect, pRecover, Susceptible, numSteps),
              CountHistory(s, contacts, draws, pInfect, pRecover, Infected, numSteps),
              CountHistory(s, contacts, draws, pInfect, pRecover, Recovered, numSteps))
  }

  /** Run `j` of `runs` is the record run `j` yields, for every `j`. */
  ghost predicate RunsFollow(runs: seq<RunRecord>, s: seq<int>, contacts: nat -> nat -> Contact,
                             draws: nat -> nat -> Draws, pInfect: real, pRecover: real, numSteps: nat)
  {
    forall j :: 0 <= j < |runs| ==>
      runs[j] == ExpectedRun(s, j, contacts(j), draws(j), pInfect, pRecover, numSteps)
  }

  lemma RunsFollowAppend(runs: seq<RunRecord>, run: RunRecord, s: seq<int>, contacts: nat -> nat -> Contact,
                         draws: nat -> nat -> Draws, pInfect: real, pRecover: real, numSteps: nat)
    requires RunsFollow(runs, s, contacts, draws, pInfect, pRecover, numSteps)
    requires run == ExpectedRun(s, |runs|, contacts(|runs|), draws(|runs|), pInfect, pRecover, numSteps)
    ensures RunsFollow(runs + [run], s, contacts, draws, pInfect, pRecover, numSteps)
  {
    var ext := runs + [run];
    forall j | 0 <= j < |ext|
      ensures ext[j] == ExpectedRun(s, j, contacts(j), draws(j), pInfect, pRecover, numSteps)
    {
      if j < |runs| {
        assert ext[j] == runs[j];
      }
    }
  }

  /** `make_sim`: a fresh simulation whose states are a copy of `states0` and
      whose histories hold the single entry counted from it. `chosen` stands
      for the indices the constructor draws before its states are replaced. */
  method MakeSim(states0: array<int>, i0: nat, beta: real, gamma: real, dt: real, chosen: seq<nat>)
    returns (sim: Simulation)
    requires AllStates(states0[..]) && ValidChoice(chosen, states0.Length, i0)
    ensures fresh(sim) && fresh(sim.states) && sim.Valid()
    ensures sim.nTotal == states0.Length
    ensures sim.InfectProb() == beta * dt && sim.RecoverProb() == gamma * dt
    ensures sim.states[..] == states0[..]
    ensures sim.sHistory == [Count(states0[..], Susceptible)]
    ensures sim.iHistory == [Count(states0[..], Infected)]
    ensures sim.rHistory == [Count(states0[..], Recovered)]
  {
    sim := new Simulation(states0.Length, i0, beta, gamma, dt, chosen);
    var copy := CopyStates(states0);
    var cS := CountState(copy, Susceptible);
    var cI := CountState(copy, Infected);
    var cR := CountState(copy, Recovered);
    Conservation(copy[..]);
    HistoryStart(cS, cI, cR, states0.Length);
    sim.states := copy;
    sim.sHistory := [cS];
    sim.iHistory := [cI];
    sim.rHistory := [cR];
  }

  /** The `update` calls a run makes (driven by the animation in the source):
      the k-th uses `contacts(k)` and `draws(k)`. Entry t of each history
      counts the state after t updates. */
  method RunUpdates(sim: Simulation, updates: nat, contacts: nat -> Contact, draws: nat -> Draws)
    requires sim.Valid() && |sim.sHistory| == 1
    modifies sim`sHistory, sim`iHistory, sim`rHistory, sim.states
    ensures sim.Valid()
    ensures Follows(sim.states[..], sim.sHistory, sim.iHistory, sim.rHistory, old(sim.states[..]),
                    contacts, draws, sim.InfectProb(), sim.RecoverProb(), updates)
  {
    ghost var s0 := sim.states[..];
    ghost var pI, pR := sim.InfectProb(), sim.RecoverProb();
    for k := 0 to updates
      invariant sim.Valid() && sim.states == old(sim.states)
      invariant Follows(sim.states[..], sim.sHistory, sim.iHistory, sim.rHistory, s0, contacts, draws, pI, pR, k)
    {
      ghost var st, sH, iH, rH := sim.states[..], sim.sHistory, sim.iHistory, sim.rHistory;
      sim.Update(contacts(k), draws(k));
      FollowsNext(st, sH, iH, rH, sim.states[..], s0, contacts, draws, pI, pR, k);
    }
  }

  /** One iteration's run: `make_sim`, the updates, and the record holding the
      first `numSteps + 1` entries of each history (`S_history[:num_steps+1]`). */
  method RunOne(states0: array<int>, i0: nat, beta: real, gamma: real, dt: real, k: nat,
                numSteps: nat, updates: nat, chosen: seq<nat>, contacts: nat -> Contact, draws: nat -> Draws)
    returns (run: RunRecord)
    requires AllStates(states0[..]) && ValidChoice(chosen, states0.Length, i0)
    requires numSteps <= updates
    ensures run == ExpectedRun(states0[..], k, contacts, draws, beta * dt, gamma * dt, numSteps)
  {
    var sim := MakeSim(states0, i0, beta, gamma, dt, chosen);
    RunUpdates(sim, updates, contacts, draws);
    var len := numSteps + 1;
    CountHistoryPrefix(states0[..], contacts, draws, beta * dt, gamma * dt, Susceptible, updates, numSteps);
    CountHistoryPrefix(states0[..], contacts, draws, beta * dt, gamma * dt, Infected, updates, numSteps);
    CountHistoryPrefix(states0[..], contacts, draws, beta * dt, gamma * dt, Recovered, updates, numSteps);
    run := RunRecord(k, sim.sHistory[..len], sim.iHistory[..len], sim.rHistory[..len]);
  }

  /** `accS += s_arr` (likewise I and R): elementwise addition in place. */
  method AddInto(acc: array<real>, xs: seq<nat>)
    requires |xs| == acc.Length
    modifies acc
    ensures forall t :: 0 <= t < acc.Length ==> acc[t] == old(acc[t]) + xs[t] as real
  {
    for t := 0 to acc.Length
      invariant forall j :: 0 <= j < t ==> acc[j] == old(acc[j]) + xs[j] as real
      invariant forall j :: t <= j < acc.Length ==> acc[j] == old(acc[j])
    {
      acc[t] := acc[t] + xs[t] as real;
    }
  }

  /** The accumulators hold, at every time index below `len`, the sums of the
      runs' series. */
  ghost predicate Accumulates(accS: seq<real>, accI: seq<real>, accR: seq<real>, runs: seq<RunRecord>, len: nat) {
    |accS| == len && |accI| == len && |accR| == len &&
    forall t :: 0 <= t < len ==>
      accS[t] == SumAt(runs, S, t) && accI[t] == SumAt(runs, I, t) && accR[t] == SumAt(runs, R, t)
  }

  /** After adding a run of length `len` to each accumulator, they hold the
      sums over the extended list of runs. */
  lemma AccumulateRun(runs: seq<RunRecord>, run: RunRecord, len: nat,
                      oldS: seq<real>, oldI: seq<real>, oldR: seq<real>,
                      newS: seq<real>, newI: seq<real>, newR: seq<real>)
    requires |run.s| == len && |run.i| == len && |run.r| == len
    requires Accumulates(oldS, oldI, oldR, runs, len)
    requires |newS| == len && |newI| == len && |newR| == len
    requires forall t :: 0 <= t < len ==>
               newS[t] == oldS[t] + run.s[t] as real && newI[t] == oldI[t] + run.i[t] as real &&
               newR[t] == oldR[t] + run.r[t] as real
    ensures Accumulates(newS, newI, newR, runs + [run], len)
  {
    forall t | 0 <= t < len
      ensures newS[t] == SumAt(runs + [run], S, t) &&
              newI[t] == SumAt(runs + [run], I, t) && newR[t] == SumAt(runs + [run], R, t)
    {
      SumAtAppend(runs, run, S, t);
      SumAtAppend(runs, run, I, t);
      SumAtAppend(runs, run, R, t);
    }
  }

  /** `S_sum += S; I_sum += I; R_sum += R` for one run: the accumulators
      then hold the sums over the runs including `run`. */
  method AddRun(accS: array<real>, accI: array<real>, accR: array<real>, ghost runs: seq<RunRecord>, run: RunRecord)
    requires accS != accI && accS != accR && accI != accR
    requires Accumulates(accS[..], accI[..], accR[..], runs, accS.Length)
    requires |run.s| == accS.Length && |run.i| == accS.Length && |run.r| == accS.Length
    modifies accS, accI, accR
    ensures Accumulates(accS[..], accI[..], accR[..], runs + [run], accS.Length)
  {
    ghost var oldS, oldI, oldR := accS[..], accI[..], accR[..];
    AddInto(accS, run.s);
    ghost var newS := accS[..];
    AddInto(accI, run.i);
    ghost var newI := accI[..];
    AddInto(accR, run.r);
    assert accS[..] == newS && accI[..] == newI;
    AccumulateRun(runs, run, accS.Length, oldS, oldI, oldR, accS[..], accI[..], accR[..]);
  }

  method RunExperiments(states0: array<int>, i0: nat, beta: real, gamma: real, dt: real,
                        nExp: nat, numSteps: nat, updates: nat, chosen: nat -> seq<nat>,
                        contacts: nat -> nat -> Contact, draws: nat -> nat -> Draws)
    returns (runs: seq<RunRecord>, mean: MeanRecord)
    requires AllStates(states0[..])
    requires forall k :: 0 <= k < nExp ==> ValidChoice(chosen(k), states0.Length, i0)
    requires nExp >= 1 && numSteps <= updates
    ensures |runs| == nExp
    ensures forall k :: 0 <= k < nExp ==>
              runs[k] == ExpectedRun(states0[..], k, contacts(k), draws(k), beta * dt, gamma * dt, numSteps)
    ensures IsMean(mean, runs, numSteps + 1)
  {
    var len := numSteps + 1;
    var accS := new real[len](_ => 0.0);
    var accI := new real[len](_ => 0.0);
    var accR := new real[len](_ => 0.0);
    runs := [];
    for k := 0 to nExp
      invariant |runs| == k
      invariant RunsFollow(runs, states0[..], contacts, draws, beta * dt, gamma * dt, numSteps)
      invariant Accumulates(accS[..], accI[..], accR[..], runs, len)
    {
      var run := RunOne(states0, i0, beta, gamma, dt, k, numSteps, updates, chosen(k), contacts(k), draws(k));
      AddRun(accS, accI, accR, runs, run);
      RunsFollowAppend(runs, run, states0[..], contacts, draws, beta * dt, gamma * dt, numSteps);
      runs := runs + [run];
    }
    var m := nExp as real;
    var sumS, sumI, sumR := accS[..], accI[..], accR[..];
    mean := MeanRecord(seq(len, t requires 0 <= t < len => sumS[t] / m),
                       seq(len, t requires 0 <= t < len => sumI[t] / m),
                       seq(len, t requires 0 <= t < len => sumR[t] / m));
  }

  /** What the runs' histories guarantee carries over to the mean of the
      experiments: at every time index it sums to the population, and from
      any time index to a later one its S does not grow and its R and its
      I + R do not shrink. */
  lemma ExperimentMean(s: seq<int>, runs: seq<RunRecord>, mean: MeanRecord, numSteps: nat,
                       contacts: nat -> nat -> Contact, draws: nat -> nat -> Draws,
                       pInfect: real, pRecover: real)
    requires AllStates(s)
    requires forall k :: 0 <= k < |runs| ==>
               runs[k] == ExpectedRun(s, k, contacts(k), draws(k), pInfect, pRecover, numSteps)
    requires IsMean(mean, runs, numSteps + 1)
    ensures forall t :: 0 <= t <= numSteps ==> mean.s[t] + mean.i[t] + mean.r[t] == |s| as real
    ensures forall t, u :: 0 <= t < u <= numSteps ==>
              mean.s[u] <= mean.s[t] && mean.r[t] <= mean.r[u] &&
              mean.i[t] + mean.r[t] <= mean.i[u] + mean.r[u]
  {
    forall k | 0 <= k < |runs|
      ensures |runs[k].s| == numSteps + 1 && HistoryValid(runs[k].s, runs[k].i, runs[k].r, |s|)
    {
      EvolveValid(s, contacts(k), draws(k), pInfect, pRecover, numSteps);
    }
    forall t | 0 <= t <= numSteps ensures mean.s[t] + mean.i[t] + mean.r[t] == |s| as real {
      MeanConserves(mean, runs, numSteps + 1, |s|, t);
    }
    forall t, u | 0 <= t < u <= numSteps
      ensures mean.s[u] <= mean.s[t] && mean.r[t] <= mean.r[u] &&
              mean.i[t] + mean.r[t] <= mean.i[u] + mean.r[u]
    {
      MeanMonotone(mean, runs, numSteps + 1, |s|, t, u);
    }
  }
}

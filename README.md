# SIR particle simulation: state machine and multi-run mean

This project models the integer part of `SIRParticleSimulation` from `3.py`. The class in `1.py` is the same, with its lines shifted by two, so each member models both; the table cites whichever file one row needs. The project also models the batch script of `3.py`, which runs `Nexp` simulations from one fixed initial state array and averages their S/I/R series.

The code of `1.py` and `3.py` simulates moving particles in a box. Two particles are in contact when their distance is below the interaction radius `r`. This model follows that code.

## What is modelled

**Particle states (`SirCounts`).**
- Every particle holds 0 (S), 1 (I) or 2 (R).
- `Count` is `np.sum(states == v)`.
- `IndicesOf` is `np.where(states == v)[0]`.
- `Where` and `CountState` compute these two by scanning the state `array`.
- Counts are unbounded naturals (numpy's int64 never overflows at these sizes).

**One `update` (`SirStep`, pure specification).**
- The step is a function on the state sequence.
- It takes snapshots of the susceptible and infected indices first.
- Then comes the infection loop:
  - each susceptible particle scans the infected snapshot in order;
  - a random draw is made only for a pair in contact;
  - the scan stops at the first successful draw.
- Then comes the recovery loop: every particle of the infected snapshot draws once.
- The geometry is a parameter `contact(p, q)`. It stands for `norm(pos[p] - pos[q]) < r` once the positions of this step are fixed.
- The random numbers are a parameter `draws(j)`: the value of the `j`-th `np.random.random()` call of the step.
- The draw counter carries on from the infection loop into the recovery loop, so the order in which draws are consumed is exact.
- The thresholds are `beta * dt` and `gamma * dt`, as exact reals.

**The class (`SirParticles.Simulation`).**
- The class has the state `array` and the three history lists.
- The constructor (`__init__`) takes the `np.random.choice` result as a parameter `chosen`.
- `Update` changes the array in place in two loops, each proved against the functions of `SirStep`:
  - `InfectionLoop` is the nested loop over susceptible and infected particles, with its `break`;
  - `RecoveryLoop` is the single loop over the infected snapshot.
- `Update` then appends one count to each history.
- The invariant `Valid()` says:
  - every particle is in {0, 1, 2};
  - the histories are equally long;
  - every entry sums to `Ntotal`;
  - from entry to entry S never grows, while R and I + R never shrink;
  - the last entry counts the current states.

**The batch script (`SirExperiments`).**
- `MakeSim` is `make_sim`.
- `RunOne` is the run part of one pass of the `for k in range(Nexp)` loop: `make_sim`, the updates and the record truncated to the first `num_steps + 1` history entries.
- `AddInto` and `AddRun` are the `accS += s_arr` updates, on `array<real>` accumulators.
- `RunExperiments` is the whole loop and the mean, computed in exact reals.
- Each run's record is tied to `CountHistory`, the count series of the stepping function `Evolve`.
- Through `CountHistory`, what one update guarantees is lifted to whole runs (`EvolveValid`) and then to the mean (`ExperimentMean`):
  - the mean sums to `Ntotal` at every time index;
  - mean S never grows, and mean R and mean I + R never shrink.

## Model

| member | source | states |
|---|---|---|
| SirCounts.Count | 3.py:125-127 | `np.sum(states == v)`: the number of particles in state `v`, at most the population; `Conservation` and `InitialCounts` state what it adds up to |
| SirCounts.IndicesOf | 3.py:99-100 | `np.where(states == v)[0]`, built position by position; `IndicesOfSpec` proves it is the ordered list of exactly the positions holding `v` |
| SirCounts.IndicesOfSpec | 3.py:99-100 | `np.where(states == v)[0]` lists exactly the positions holding `v`, in increasing order, one per counted particle |
| SirCounts.Where | 3.py:99-100 | the scan of the state array returns the index list of the positions holding `v` |
| SirCounts.CountState | 3.py:125-127 | the scan of the state array returns the number of particles in state `v` |
| SirCounts.Conservation | 3.py:74-76 | when every particle is in {0, 1, 2}, S + I + R equals the population |
| SirStep.ScanContacts | 3.py:104-111 | one susceptible particle's scan consumes between 0 and one draw per infected particle; an infection consumes at least one |
| SirStep.ScanContactsFirstSuccess | 3.py:104-111 | the `break`: on infection the last draw consumed succeeded and all earlier ones failed; infection needs a contact with the infected snapshot; with no contact no draw is made |
| SirStep.InfectPass | 3.py:103-111 | the infection loop over the susceptible snapshot in order, each particle scanning from the next unused draw; it keeps one state per particle and never moves the draw position back; `InfectPassEffect`, `InfectPassAllFail` and `InfectPassNoInfected` state what it changes |
| SirStep.InfectPassEffect | 3.py:103-111 | the infection loop changes only snapshot-susceptible particles, only to 1, and only those in contact with a snapshot-infected particle |
| SirStep.RecoverPass | 3.py:114-118 | the recovery loop: the k-th particle of the infected snapshot draws `draws(pos + k)` once; it keeps one state per particle; `RecoverPassEffect` and `RecoverPassAllFail` state what it changes |
| SirStep.RecoverPassEffect | 3.py:114-118 | the recovery loop changes only snapshot-infected particles, and only to 2 |
| SirStep.InfectPassAllFail | 3.py:103-111 | when every draw the infection loop consumes fails the infection test, the loop changes nothing |
| SirStep.InfectPassNoInfected | 3.py:103-111 | with an empty infected snapshot, the infection loop changes nothing |
| SirStep.RecoverPassAllFail | 3.py:114-118 | when each of the draws the recovery loop consumes, one per infected particle from `pos` on, fails the recovery test, the loop changes nothing |
| SirStep.TransitionsConserve | 3.py:109-118 | the moves S→S/I, I→I/R and R→R keep every particle in {0, 1, 2} and S + I + R at the population |
| SirStep.TransitionsMonotone | 3.py:109-118 | under those moves S never grows, R never shrinks and I + R never shrinks |
| SirStep.Step | 3.py:96-118 | one `update` on the states: both snapshots taken first, then the infection pass from draw 0, then the recovery pass from the next unused draw; `StepTransitions`, `StepConserves` and `StepMonotone` state its effect |
| SirStep.StepTransitions | 3.py:96-118 | in one update, an S particle ends as S or I, an I particle as I or R, and an R particle stays R; so a particle infected in this step is still 1 at its end |
| SirStep.StepInfectionNeedsContact | 3.py:99-111 | a particle that becomes infected was susceptible at the start of the step and in contact with a particle infected at the start |
| SirStep.StepConserves | 1.py:101-125 | after an update every particle is in {0, 1, 2} and the new counts sum to the population |
| SirStep.StepMonotone | 1.py:107-125 | across one update S does not grow, R does not shrink and I + R does not shrink |
| SirStep.StepNoInfected | 3.py:100-118 | with no infected particle at the start, an update changes no state |
| SirStep.StepNoInfection | 3.py:103-118 | when every draw of the infection loop fails, the S count is unchanged and the I count cannot grow, whatever the recovery draws |
| SirStep.StepNoRecovery | 3.py:103-118 | when every draw of the recovery loop fails, the R count is unchanged and the I count cannot shrink, whatever the infection draws |
| SirStep.Evolve | 3.py:222-225 | the states after `t` successive `update` calls, the k-th with its own contacts and draws; it keeps one state per particle; `EvolveValid` states that the states stay in {0, 1, 2} |
| SirParticles.HistoryValidMeaning | 3.py:124-127 | valid histories are equally long and non-empty, every entry sums to the population, and between any two entries S does not grow while R and I + R do not shrink |
| SirParticles.HistoryAppend | 1.py:122-125 | appending one conserving, monotone count triple to each history keeps them valid, and so equally long |
| SirParticles.StepKeepsValid | 3.py:103-127 | an update from a valid state keeps the particles in {0, 1, 2} and extends valid histories to valid histories |
| SirParticles.InitialStates | 3.py:63-66 | the states `__init__` sets: 1 at the chosen indices, 0 elsewhere, one per particle; `InitialCounts` gives their counts |
| SirParticles.InitialCounts | 3.py:63-66 | with `I0` distinct chosen indices below `Ntotal`, exactly `I0` particles start infected, `Ntotal - I0` susceptible and none recovered |
| SirParticles.NewStates | 3.py:63-66 | `np.zeros` followed by writing 1 at the chosen indices gives the initial state sequence |
| SirParticles.CopyStates | 3.py:335 | `states0.copy()` is a fresh array with the same contents |
| SirParticles.InfectionLoop | 3.py:103-111 | the in-place nested loop with `break` yields the state of the infection pass and the number of draws it consumed |
| SirParticles.RecoveryLoop | 3.py:114-118 | the in-place recovery loop, starting at the next unused draw, yields the state of the recovery pass |
| SirParticles.StepStates | 3.py:96-118 | the in-place state changes of `update` equal one step of the specification |
| SirParticles.Simulation.constructor | 3.py:62-76 | the new simulation is valid, holds the initial states, and its first history entry is (`Ntotal - I0`, `I0`, 0) |
| SirParticles.Simulation.Update | 3.py:80-127 | `update` keeps the simulation valid, turns the states into one step of the specification, and appends their counts to the histories |
| SirExperiments.SumAtAppend | 3.py:370 | adding a run to the accumulators adds its entry to the sum at every time index |
| SirExperiments.SumsMonotone | 3.py:370 | over runs with valid histories, the summed S does not grow over time while the summed R and I + R do not shrink |
| SirExperiments.SumsConserveValid | 3.py:370 | over runs with valid histories, the three sums at a time index add up to the number of runs times the population |
| SirExperiments.MeanConserves | 3.py:372-377 | the mean S + I + R equals the population at every time index |
| SirExperiments.MeanMonotone | 3.py:372-377 | between time indices the mean S does not grow while the mean R and I + R do not shrink |
| SirExperiments.CountHistory | 3.py:124-127 | the history of one compartment after `t` updates, one entry per update plus the initial one; `CountHistoryAt` and `EvolveValid` state its entries |
| SirExperiments.CountHistoryAt | 3.py:124-127 | entry `u` of a run's history is the count of the states after `u` updates |
| SirExperiments.CountHistoryPrefix | 3.py:358-361 | truncating the history of `updates` steps to `num_steps + 1` entries gives the history of `num_steps` steps |
| SirExperiments.EvolveValid | 3.py:80-127 | for any contacts and draws, a run from states in {0, 1, 2} keeps them there and produces valid histories |
| SirExperiments.ExpectedRun | 3.py:358-369 | the record `runs.append` stores for run `k`: id `k` and the first `num_steps + 1` counts of each compartment from the shared initial states; `RunOne` and `RunExperiments` are proved to produce it |
| SirExperiments.MakeSim | 3.py:331-343 | `make_sim` returns a valid fresh simulation holding a copy of `states0` and single-entry histories counted from it |
| SirExperiments.RunUpdates | 3.py:222-225 | the `update` calls of a run leave the states and histories that the stepping function predicts |
| SirExperiments.RunOne | 3.py:351-369 | a run record has id `k` and the first `num_steps + 1` counts of the run started from `states0` |
| SirExperiments.AddInto | 3.py:370 | `acc += xs`, elementwise |
| SirExperiments.AddRun | 3.py:370 | after `accS += s_arr; accI += i_arr; accR += r_arr` the accumulators hold the sums over the runs so far |
| SirExperiments.RunExperiments | 3.py:345-377 | `runs` has `Nexp` records, the k-th with id `k` and the counts of run `k`; `mean` at every time index is the sum over the runs divided by `Nexp` |
| SirExperiments.ExperimentMean | 3.py:372-377 | the mean of the experiments sums to the population at every time index and is monotone: S non-increasing, R and I + R non-decreasing |

## Left out

- Positions, velocities, the wall bounce and `np.linalg.norm`: floating-point geometry. It enters only through the `contact` parameter of each update.
- NumPy's random generator: each update's draws are a parameter `draws`, and the initial choice of infected particles is a parameter `chosen`. Arbitrary functions cover every stream the generator can produce.
- `current_time`, `time_history`, `infection_time` and `time_infected`: float bookkeeping with no effect on the states.
- Rendering and animation (`run_simulation`, `get_colors`, `plot_final_results`): the number of `update` calls is set by FuncAnimation, so it is a parameter `updates` with `num_steps <= updates`.
- SirExperiments.RunOne: requires `num_steps <= updates`. With 1 to `num_steps - 1` updates the truncated series has 2 to `num_steps` entries, and `accS += s_arr` raises a shape error. With no update at all the series has one entry, and NumPy broadcasts it: the initial count is added at every time index. Neither case is modelled.
- SirParticles.Simulation.constructor: requires `I0` distinct indices below `Ntotal`. The error `np.random.choice` raises when `I0 > Ntotal` is not modelled.
- SirExperiments.RunExperiments: requires `Nexp >= 1`. The NaN mean of `Nexp = 0` is not modelled.
- Floating-point rounding: the thresholds `beta * dt` and `gamma * dt`, the accumulators and the mean are exact reals.
- Run records (`RunRecord`) hold their series as `seq<nat>`, where the script keeps `dtype=float` arrays. Every entry is a particle count, so the value is the same.
- The JSON payload and file write, the `t` arrays and the script's printing: I/O.

# Swarm and evolutionary optimisers of a 2-D target, in Dafny

This project models the three algorithm files of a small optimisation demo:

- `src/algorithms/fitness.py`: the `Fitness` objective, the mean squared
  error of a candidate point to a fixed target `(target_x, target_y)`.
- `src/algorithms/pso.py`: particle swarm optimisation. `Particle` objects
  hold a position array, a velocity and a personal best. A `PSO` swarm
  updates them in list order with randomly drawn informants, then refreshes
  its global best.
- `src/algorithms/ga.py`: a genetic algorithm over a 2-D numpy population.
  It uses tournament selection with replacement, two-point crossover and
  Gaussian mutation. Each generation is written into a freshly allocated
  `pop_size x 2` array.

## Layout

- `common.dfy` (module `Common`):
  - `Option`, standing for "the Python code raises";
  - `ArgMin`, which is `values.index(min(values))`;
  - the support of `random.uniform`;
  - `np.zeros`.
- `fitness.dfy` (module `Objective`):
  - `Fitness` as a datatype;
  - `Problem`, `AssessFitness` and `MeanSquaredError`;
  - the zero-iff and symmetry properties of the error.
- `pso.dfy` (module `Pso`) has two halves:
  - A value-level specification of one sweep of `update_swarm`: `ParticleStep`, `StepAt`, `SweepUpTo` and `Sweep`. Beside it is `update_global_fittest` (`RefreshGlobal`).
  - The classes `Particle` and `PSO`. Positions are `array<real>` updated in place. `fittestPosition` is a reference to the very same array, as in the Python code. Each method is proved against the specification half.
- `ga.dfy` (module `Ga`):
  - Selection, crossover and mutation as functions.
  - `update_population` as a value (`NextPopulation`) and as a method that fills an `array2<real>` row by row (`FillPopulation`), proved equal.
  - The class `GeneticAlgorithm`, whose `NextGeneration` replaces the population array and recomputes the best row.

Every random draw is a parameter constrained to the values the generator can
return:

- `random.randint` and `random.uniform`: bounds;
- `np.random.choice`: indices in range;
- `np.random.rand`: values in `[0, 1)`;
- `np.random.normal`: any reals, or zeros when the scale is zero;
- `np.empty`: arbitrary rows, passed in as `empty`.

An exception the code would raise is a `None` result or an `ok == false` flag.
The model covers these:

- `min` of an empty list;
- `np.random.normal` with a negative scale.

Some behaviour is modelled exactly as the code does it, where the
documentation says otherwise:

- In `Particle.__init__`, `fittest_position` is bound to the same array as
  `position`. `position += ...` updates that array in place, so the personal
  best always equals the current position. As a result:
  - The cognitive term never contributes (`ParticleStepIgnoresCognitive`).
  - A particle's stored best can get worse (`PersonalBestCanWorsen`).
- The docstring of `update_swarm` says each particle is its own informant.
  But `np.append` returns a new array, and the code drops it. The model
  therefore draws the informants only from the sample.
- `PSO.__init__` passes `self.target_x, self.target_y, i` into the
  `index, target_x, target_y` parameters of `Particle`. Each particle's `id`
  is therefore `target_x`, and its own target is `(target_y, i)`.
- The docstrings of `mutation` and `update_population` call `mutation_rate`
  the probability of mutation for each gene. The code draws a single
  `random.uniform(0, 1)` per child, and that one draw decides whether the
  whole child mutates (`Mutate`).
- The class docstring of `GeneticAlgorithm` calls `current_best` the fitness
  value of the best individual. `find_current_best` returns the row itself,
  so `currentBest` is a `seq<real>`, the first fittest row.

Two further behaviours of the code:

- In `update_population`, with an odd population size the last row of the new
  array is never written: it keeps what `np.empty` left there
  (`NextPopulationRows`).
- The GA has no elitism: a generation can lose the best row
  (`BestCanWorsen`).

## Model

| member | source | states |
|---|---|---|
| `Common.ArgMin` | src/algorithms/ga.py:56-58 | the position picked by `fitnesses.index(min(fitnesses))` is an index of the list |
| `Common.ArgMinPrefixIsFirstMin` | src/algorithms/pso.py:205-207 | among the first `n` values, the index found holds a least value and every earlier value is strictly larger |
| `Common.ArgMinIsFirstMin` | src/algorithms/ga.py:56-58 | `index(min(...))` is the first index of a least value: no value is smaller, and every value before it is strictly larger |
| `Common.Zeros` | src/algorithms/pso.py:121 | `np.zeros(n)` has `n` entries |
| `Objective.SumSquaredDiff` | src/algorithms/fitness.py:47 | the sum of squared element-wise differences is never negative |
| `Objective.SumSquaredDiffSelf` | src/algorithms/fitness.py:47 | a vector's squared difference to itself sums to zero |
| `Objective.SumSquaredDiffPositive` | src/algorithms/fitness.py:47 | two different vectors of one length have a positive sum of squared differences |
| `Objective.SumSquaredDiffSymmetric` | src/algorithms/fitness.py:47 | the sum of squared differences does not depend on argument order |
| `Objective.SumSquaredDiffPair` | src/algorithms/fitness.py:47 | on 2-vectors the sum is the two squared differences |
| `Objective.Fitness.Problem` | src/algorithms/fitness.py:21 | `problem_` is the mean of the two squared distances to `(target_x, target_y)`, and is never negative |
| `Objective.Fitness.MeanSquaredError` | src/algorithms/fitness.py:47 | the mean squared error of two equal-length vectors is never negative |
| `Objective.MeanSquaredErrorZeroIff` | src/algorithms/fitness.py:36-47 | the error is zero if and only if the two vectors are equal |
| `Objective.MeanSquaredErrorSymmetric` | src/algorithms/fitness.py:36-47 | the error is symmetric in its two arguments |
| `Objective.ProblemZeroIffAtTarget` | src/algorithms/fitness.py:6-21 | `problem_` is zero exactly at the target point |
| `Objective.Fitness.AssessFitness` | src/algorithms/fitness.py:23-34 | the value is the handed problem's value at the individual |
| `Objective.AssessFitnessIgnoresTarget` | src/algorithms/fitness.py:23-34 | the fitness's own target plays no part: any two `Fitness` values assess a point alike |
| `Objective.AssessProblemZeroIffAtTarget` | src/algorithms/fitness.py:23-34 | `assess_fitness_` returns the problem's value, so with `problem_` it is zero exactly at the target |
| `Pso.Advance` | src/algorithms/pso.py:69 | `position + velocity * step` keeps the position's dimension |
| `Pso.AdvanceZero` | src/algorithms/pso.py:121 | a zero velocity (the initial `np.zeros`) leaves the position unmoved |
| `Pso.NewVelocity` | src/algorithms/pso.py:73-76 | the new velocity has the old velocity's dimension |
| `Pso.PositionFitnesses` | src/algorithms/pso.py:205 | one fitness per particle |
| `Pso.InformantFitnesses` | src/algorithms/pso.py:205 | one fitness per drawn informant |
| `Pso.FittestInformant` | src/algorithms/pso.py:144-147 | the informant picked is a swarm index that occurs in the drawn sample |
| `Pso.FittestInformantIsFittest` | src/algorithms/pso.py:205-208 | the informant picked is no less fit than every drawn informant, and the first such in sample order |
| `Pso.ParticleStep` | src/algorithms/pso.py:52-80 | a turn keeps the dimensions, and `previous_fitness` becomes the fitness of the new position |
| `Pso.ParticleStepIgnoresCognitive` | src/algorithms/pso.py:70-74 | the cognitive draw and `follow_personal_best` have no effect on a step, because the personal best is the position itself |
| `Pso.StepAt` | src/algorithms/pso.py:148-154 | updating one particle keeps the swarm's size |
| `Pso.Sweep` | src/algorithms/pso.py:143-154 | one whole `update_swarm` keeps the swarm's size; what each particle becomes is stated by `Pso.SweepParticle` |
| `Pso.SweepUpTo` | src/algorithms/pso.py:143-154 | the swarm after `i` turns has the same size |
| `Pso.AfterTurn` | src/algorithms/pso.py:143-154 | a turn keeps the swarm's size |
| `Pso.SweepUpToNext` | src/algorithms/pso.py:143-154 | the state after `i + 1` turns is turn `i` applied to the state after `i` turns, which includes the earlier updates |
| `Pso.SweepUpToUnprocessed` | src/algorithms/pso.py:143 | particles whose turn has not come are as they were |
| `Pso.SweepUpToSettled` | src/algorithms/pso.py:143 | once a particle has had its turn, later turns leave it unchanged |
| `Pso.SweepParticle` | src/algorithms/pso.py:143-154 | after a sweep, each particle holds the result of its own turn, taken from its original state; its `previous_fitness` is the fitness of its final position |
| `Pso.FirstSweepKeepsPositions` | src/algorithms/pso.py:69-121 | with the initial zero velocities, the first sweep moves no particle |
| `Pso.PersonalBestCanWorsen` | src/algorithms/pso.py:77-80 | counterexample: a particle on the target with a non-zero velocity moves off it, and its stored personal best worsens from 0 to 0.5 |
| `Pso.RefreshGlobal` | src/algorithms/pso.py:164-167 | the new global best is the old one, or a strictly fitter particle, and either way no particle is fitter; a replacement is the first particle of least fitness in list order, as `fitnesses.index(min(fitnesses))` picks it |
| `Pso.Particle.constructor` | src/algorithms/pso.py:31-40 | stores its arguments, aliases the personal best to the position array, starts `previous_fitness` at `1e7` |
| `Pso.Particle.AssessFitness` | src/algorithms/pso.py:42-50 | the problem evaluated at the current position |
| `Pso.Particle.Update` | src/algorithms/pso.py:52-80 | the position array moves in place by the old velocity. The velocity is recomputed from the bests as they are after the move. `previous_fitness` is the new fitness. The personal best is rebound to the position only on a strict improvement. |
| `Pso.PSO.constructor` | src/algorithms/pso.py:105-125 | `swarm_size` fresh particles, each with its own position array, at the drawn positions with zero velocity. The arguments are shifted by one place. The global best is the drawn particle. `num_informants` (2 when omitted) is stored as given. |
| `Pso.PSO.PersonalBestFitnesses` | src/algorithms/pso.py:205 | one personal-best fitness per particle |
| `Pso.PSO.FindCurrentBest` | src/algorithms/pso.py:190-208 | `None` (empty list) if and only if there are no particles. Otherwise it returns a particle whose personal best is fittest, the first such. |
| `Pso.PSO.SwarmPick` | src/algorithms/pso.py:164 | ranking the swarm by personal best is ranking it by current position |
| `Pso.PSO.InformantPick` | src/algorithms/pso.py:144-147 | `find_current_best` over the sampled particles picks the particle `FittestInformant` names |
| `Pso.PSO.PickInformant` | src/algorithms/pso.py:144-147 | draws the informants and returns the fittest of them, a member of the swarm |
| `Pso.PSO.UpdateParticle` | src/algorithms/pso.py:144-154 | one turn changes exactly particle `i`, to `ParticleStep` of the swarm as it was |
| `Pso.PSO.Turn` | src/algorithms/pso.py:143-154 | turn `i` carries the swarm from the state after `i` turns to the state after `i + 1` |
| `Pso.PSO.SweepAll` | src/algorithms/pso.py:143-154 | the loop leaves the swarm in the state `Sweep` describes, and keeps the global best |
| `Pso.PSO.UpdateSwarm` | src/algorithms/pso.py:127-154 | succeeds exactly when there is at least one informant, and then the swarm becomes `Sweep` of the old states. With no informants it raises before anything changes. |
| `Pso.PSO.UpdateGlobalFittest` | src/algorithms/pso.py:156-167 | the global best becomes `RefreshGlobal` of the swarm |
| `Pso.PSO.Improve` | src/algorithms/pso.py:169-187 | a sweep followed by the global refresh, on the swept states |
| `Ga.Slice` | src/algorithms/ga.py:116-117 | numpy's `s[lo:hi]` clamps both bounds to the end, and is empty when the window is empty |
| `Ga.SliceAt` | src/algorithms/ga.py:116-117 | element `k` of `s[lo:hi]` is element `lo + k` of `s` |
| `Ga.Fitnesses` | src/algorithms/ga.py:56 | one fitness per row |
| `Ga.FindCurrentBest` | src/algorithms/ga.py:42-59 | `None` (`min` of an empty list raises) exactly when the population is empty |
| `Ga.FindCurrentBestIsFirstFittest` | src/algorithms/ga.py:56-59 | the row returned is one of least fitness, and no earlier row is as fit |
| `Ga.Challengers` | src/algorithms/ga.py:91-92 | one challenger per drawn index |
| `Ga.TournamentSelectWithReplacement` | src/algorithms/ga.py:78-93 | raises exactly when the tournament is empty |
| `Ga.TournamentWinnerIsFittest` | src/algorithms/ga.py:91-93 | the winner is one of the drawn rows, and no drawn row is fitter |
| `Ga.CrossoverCuts` | src/algorithms/ga.py:108-114 | the cuts come out ordered and strictly increasing, taken from the draws. When the draws are equal the window is widened by one. |
| `Ga.CrossoverCutsBounds` | src/algorithms/ga.py:107-114 | with both draws in `[0, l]` the window is non-empty and ends at most at `l + 1` |
| `Ga.Crossover` | src/algorithms/ga.py:95-118 | both children have the parents' length |
| `Ga.SlicedCrossover` | src/algorithms/ga.py:108-117 | the two children built from the three slices of each parent have the parents' common length, whatever the cut points |
| `Ga.CrossoverIsSliced` | src/algorithms/ga.py:115-117 | the gene-by-gene crossover equals the concatenation of the three numpy slices the code builds |
| `Ga.CrossoverKeepsGenePairs` | src/algorithms/ga.py:115-117 | at every gene the two children hold the two parents' genes, and inside the window each child has the other parent's gene |
| `Ga.CrossoverInvolution` | src/algorithms/ga.py:115-117 | crossing the children at the same cuts gives the parents back |
| `Ga.CrossoverNoChange` | src/algorithms/ga.py:113-117 | identical parents, or a window entirely past the end, give children equal to the parents |
| `Ga.Mutate` | src/algorithms/ga.py:120-137 | raises exactly when the gate opens and the scale is negative. Otherwise the child keeps its length, and is unchanged when the gate stays shut. |
| `Ga.MutateInverse` | src/algorithms/ga.py:133-137 | a mutated child minus its noise is the child. A rate of at least 1 always mutates, a negative rate never does, and zero-scale noise changes nothing. |
| `Ga.Offspring` | src/algorithms/ga.py:164-165 | without `should_mutate` the child is stored as it is, and it always keeps its length |
| `Ga.Parents` | src/algorithms/ga.py:157-162 | the two tournament winners are rows of the population's width |
| `Ga.Pair` | src/algorithms/ga.py:157-168 | when one iteration stores its two children, both have the population's width |
| `Ga.ChildBSlot` | src/algorithms/ga.py:166-167 | `int(i + pop_size / 2)` (true division, then truncation) is `i + pop_size div 2` |
| `Ga.Iterations` | src/algorithms/ga.py:156-168 | `n` iterations have `n` outcomes |
| `Ga.IterationsThrough` | src/algorithms/ga.py:156-168 | iterations `0` to `i` have `i + 1` outcomes |
| `Ga.IterationsGrow` | src/algorithms/ga.py:156 | a further iteration leaves the earlier outcomes unchanged |
| `Ga.IterationsLast` | src/algorithms/ga.py:157-168 | the last outcome is that iteration's pair of children |
| `Ga.IterationsStable` | src/algorithms/ga.py:156 | outcome `k` does not depend on how many iterations follow |
| `Ga.IterationAt` | src/algorithms/ga.py:156-168 | outcome `k` is iteration `k`'s pair, computed from the current population and its own draws |
| `Ga.Assemble` | src/algorithms/ga.py:154-168 | the array is `None` exactly when some iteration raised, and otherwise has one row per slot |
| `Ga.AssembleRows` | src/algorithms/ga.py:154-168 | when every iteration succeeds: rows `0..half-1` hold the first children, rows `half..2*half-1` the second children, and the rest keep `np.empty`'s contents |
| `Ga.NextPopulation` | src/algorithms/ga.py:139-169 | a successful generation has `pop_size` rows |
| `Ga.NextPopulationFailsIff` | src/algorithms/ga.py:156-168 | a generation raises exactly when one of its iterations does |
| `Ga.NextPopulationRows` | src/algorithms/ga.py:154-168 | iteration `i` fills rows `i` and `int(i + pop_size / 2)` with its children. For an odd size the last row keeps `np.empty`'s contents. |
| `Ga.UnmutatedPairKeepsGenes` | src/algorithms/ga.py:157-165 | without mutation an iteration stores the crossover of the two winners, so each gene pair of the stored rows is the winners' gene pair |
| `Ga.BestCanWorsen` | src/algorithms/ga.py:37-40 | counterexample to elitism: one generation can replace a population whose best fitness is 0 with one whose best is 1 |
| `Ga.Breed` | src/algorithms/ga.py:157-168 | the loop body up to the stores computes exactly iteration `i`'s outcome |
| `Ga.SetRow` | src/algorithms/ga.py:164 | `a[r] = row` overwrites row `r` and nothing else |
| `Ga.FillPopulation` | src/algorithms/ga.py:153-169 | the loop succeeds exactly when `NextPopulation` does, and then leaves the array holding its rows |
| `Ga.CreatePopulation` | src/algorithms/ga.py:61-76 | a fresh `population_size x vector_length` array holding the draws |
| `Ga.GeneticAlgorithm.constructor` | src/algorithms/ga.py:16-19 | the population is the drawn array, and `current_best` is its first fittest row |
| `Ga.GeneticAlgorithm.UpdatePopulation` | src/algorithms/ga.py:139-169 | returns a fresh `pop_size x 2` array. It succeeds exactly when `NextPopulation` does, and then holds its rows. |
| `Ga.GeneticAlgorithm.NextGeneration` | src/algorithms/ga.py:21-40 | on success the population becomes `NextPopulation` of the old one, and `current_best` its first fittest row. When a mutation raises, nothing changes. |

## Left out

- The dashboards and panels (`app.py`, `pdd-dashboard.py`, `pdd_dashboard.py`, `src/pso_panel.py`, `src/ga_panel.py`) are not part of this model: they are UI code that only calls the algorithms.
- Floating point: numbers are exact reals. Rounding, overflow, `inf` and `NaN` are not modelled; `min` over lists with `NaN` behaves differently in Python.
- Randomness: each draw is a parameter restricted to the generator's range. The distributions themselves are not modelled.
- The objective the algorithms call is an arbitrary total function `seq<real> -> real`. `ga.py` calls `self.fitness(x)` and `pso.py` calls whatever `problem` it is given. `src/ga_panel.py` imports `MeanSquaredError` (line 2), which `fitness.py` does not define, and binds it to the name `Fitness` (line 10). Lines 31, 174 and 195 hand `GeneticAlgorithm` an instance of it, so the callable behind `self.fitness(x)` (`ga.py:56`) is not in the source and is modelled as an abstract function. `src/pso_panel.py` hands `PSO` the callable `problem_` of its `Fitness`, which the model covers.
- `Objective.Fitness.Problem`: requires a 2-vector. On other lengths numpy broadcasting (or its error) decides the value, and that is not modelled.
- `Objective.Fitness.MeanSquaredError`: requires two equal, non-zero lengths. Broadcasting of other shapes and the `NaN` mean of empty arrays are not modelled.
- `Pso.PSO.constructor`: requires `swarm_size > 0`. With zero particles `np.random.choice` raises, and the model does not return that error.
- `Pso.PSO.UpdateSwarm`: `num_informants` is a `nat`. The constructor stores a negative count without error, and `np.random.choice` then raises in `update_swarm` (`pso.py:144`); that error is not modelled.
- `Pso.PSO.UpdateSwarm`: `particle not in informants` has no effect because the result of `np.append` is dropped. The model therefore omits the membership test itself.
- `Ga.GeneticAlgorithm.UpdatePopulation`: requires rows of two genes, the width of `np.empty((pop_size, 2))`. numpy would also broadcast one-gene rows into both columns and raise on other widths. Neither case is modelled.
- `Ga.FillPopulation`: requires two-gene rows, for the same reason.
- `Ga.GeneticAlgorithm.constructor`: requires `population_size > 0`. With an empty population `min` raises in `find_current_best`, and the model does not return that error.
- `Ga.Crossover`: requires parents of one length, as rows of one population always are. `Ga.SlicedCrossover` models the slicing for any lengths, but is related to `Crossover` only for equal lengths.
- `Ga.Breed`: mutates both children before storing row `i`. The code stores child A's row before mutating child B. When child B's mutation raises, the partly filled array is lost with the exception, so the difference cannot be observed.
- `Pso.Particle.Update`: the personal-best fitness is not stored separately. `ParticleState` has no personal-best component, because the personal best is always the position array itself.

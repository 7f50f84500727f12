/** The genetic algorithm of src/algorithms/ga.py.

    Selection, crossover and mutation return new vectors and are modelled as
    functions over `seq<real>`; `update_population` fills a preallocated
    two-column array row by row and is a method over an `array2<real>`,
    proved against the value-level `NextPopulation`. Random draws are
    parameters. */
module Ga {
  import opened Common

  function Min(a: nat, b: nat): nat { if a <= b then a else b }

  /** numpy's `s[lo:hi]`: bounds beyond the end are clamped to it, and a
      window whose start is not before its end is empty. */
  function Slice(s: seq<real>, lo: nat, hi: nat): (r: seq<real>)
    ensures |r| == if Min(lo, |s|) <= Min(hi, |s|) then Min(hi, |s|) - Min(lo, |s|) else 0
    decreases |s| - lo
  {
    if lo < hi && lo < |s| then [s[lo]] + Slice(s, lo + 1, hi) else []
  }

  /** Element `k` of `s[lo:hi]` is element `lo + k` of `s`. */
  lemma {:induction false} SliceAt(s: seq<real>, lo: nat, hi: nat, k: nat)
    requires k < |Slice(s, lo, hi)|
    ensures lo + k < |s| && Slice(s, lo, hi)[k] == s[lo + k]
    decreases |s| - lo
  {
    if k > 0 {
      SliceAt(s, lo + 1, hi, k - 1);
    }
  }

  /** The fitness of every row. */
  function Fitnesses(f: seq<real> -> real, population: seq<seq<real>>): (r: seq<real>)
    ensures |r| == |population|
  {
    seq(|population|, j requires 0 <= j < |population| => f(population[j]))
  }

  /** `find_current_best`: the first row of least fitness, or `None` where
      `min` of an empty list raises. */
  function FindCurrentBest(f: seq<real> -> real, population: seq<seq<real>>): (r: Option<seq<real>>)
    ensures r.None? <==> |population| == 0
  {
    if |population| == 0 then None
    else Some(population[ArgMin(Fitnesses(f, population))])
  }

  /** The row found is one of least fitness, and no earlier row is as fit. */
  lemma FindCurrentBestIsFirstFittest(f: seq<real> -> real, population: seq<seq<real>>)
    requires |population| > 0
    ensures var best := FindCurrentBest(f, population).value;
            exists k :: (0 <= k < |population| && best == population[k]
              && (forall j :: 0 <= j < |population| ==> f(population[k]) <= f(population[j]))
              && (forall j :: 0 <= j < k ==> f(population[k]) < f(population[j])))
  {
    var fits := Fitnesses(f, population);
    var k := ArgMin(fits);
    ArgMinIsFirstMin(fits);
    assert forall j :: 0 <= j < |population| ==> fits[j] == f(population[j]);
    assert FindCurrentBest(f, population).value == population[k];
  }

  /** The rows `np.random.choice` picked, with replacement. */
  function Challengers(population: seq<seq<real>>, indexes: seq<nat>): (r: seq<seq<real>>)
    requires forall m :: 0 <= m < |indexes| ==> indexes[m] < |population|
    ensures |r| == |indexes|
  {
    seq(|indexes|, m requires 0 <= m < |indexes| => population[indexes[m]])
  }

  /** `tournament_select_with_replacement`: `indexes` are the
      `tournament_size` draws of `np.random.choice`, each a row of the
      population; the winner is the first fittest challenger. An empty
      tournament makes `min` raise. */
  function TournamentSelectWithReplacement(f: seq<real> -> real, population: seq<seq<real>>, tournamentSize: nat, indexes: seq<nat>): (r: Option<seq<real>>)
    requires |indexes| == tournamentSize
    requires forall m :: 0 <= m < |indexes| ==> indexes[m] < |population|
    ensures r.None? <==> tournamentSize == 0
  {
    FindCurrentBest(f, Challengers(population, indexes))
  }

  /** The winner is a drawn row, and no drawn row is fitter. */
  lemma TournamentWinnerIsFittest(f: seq<real> -> real, population: seq<seq<real>>, tournamentSize: nat, indexes: seq<nat>)
    requires |indexes| == tournamentSize > 0
    requires forall m :: 0 <= m < |indexes| ==> indexes[m] < |population|
    ensures var winner := TournamentSelectWithReplacement(f, population, tournamentSize, indexes).value;
            exists m :: (0 <= m < |indexes| && winner == population[indexes[m]]
              && forall l :: 0 <= l < |indexes| ==> f(winner) <= f(population[indexes[l]]))
  {
    var challengers := Challengers(population, indexes);
    FindCurrentBestIsFirstFittest(f, challengers);
    assert forall m :: 0 <= m < |indexes| ==> challengers[m] == population[indexes[m]];
  }

  /** The cut points of `crossover`: the two `random.randint(0, l)` draws,
      put in order, with an empty window widened by one. */
  function CrossoverCuts(c0: nat, d0: nat): (cuts: (nat, nat))
    ensures cuts.0 < cuts.1
    ensures cuts.0 <= c0 && cuts.0 <= d0 && (cuts.0 == c0 || cuts.0 == d0)
    ensures if c0 == d0 then cuts.1 == c0 + 1 else cuts.1 == c0 || cuts.1 == d0
  {
    var (c, d) := if c0 > d0 then (d0, c0) else (c0, d0);
    if c == d then (c, d + 1) else (c, d)
  }

  /** With both draws in `[0, l]` the window is non-empty and ends at most
      one place past the end. */
  lemma CrossoverCutsBounds(l: nat, c0: nat, d0: nat)
    requires c0 <= l && d0 <= l
    ensures CrossoverCuts(c0, d0).0 < CrossoverCuts(c0, d0).1 <= l + 1
  {
  }

  /** `crossover` exactly as it is written: the concatenation of three
      numpy slices of each parent around the window `[c, d)`. `c0` and `d0`
      are the `random.randint(0, l)` draws, `l` the length of the first
      parent. */
  function SlicedCrossover(parentA: seq<real>, parentB: seq<real>, c0: nat, d0: nat): (children: (seq<real>, seq<real>))
    ensures |parentA| == |parentB| ==> |children.0| == |children.1| == |parentA|
  {
    var (c, d) := CrossoverCuts(c0, d0);
    (Slice(parentA, 0, c) + Slice(parentB, c, d) + Slice(parentA, d, |parentA|),
     Slice(parentB, 0, c) + Slice(parentA, c, d) + Slice(parentB, d, |parentB|))
  }

  /** `crossover` on two rows of one population: two-point crossover, gene
      by gene. Child A takes parent B's genes inside the window `[c, d)` and
      parent A's outside it; child B the other way round. */
  function Crossover(parentA: seq<real>, parentB: seq<real>, c0: nat, d0: nat): (children: (seq<real>, seq<real>))
    requires |parentA| == |parentB| && c0 <= |parentA| && d0 <= |parentA|
    ensures |children.0| == |children.1| == |parentA|
  {
    var (c, d) := CrossoverCuts(c0, d0);
    (seq(|parentA|, i requires 0 <= i < |parentA| => if c <= i < d then parentB[i] else parentA[i]),
     seq(|parentA|, i requires 0 <= i < |parentA| => if c <= i < d then parentA[i] else parentB[i]))
  }

  /** The gene-by-gene crossover is the one the slices compute. */
  lemma CrossoverIsSliced(parentA: seq<real>, parentB: seq<real>, c0: nat, d0: nat)
    requires |parentA| == |parentB| && c0 <= |parentA| && d0 <= |parentA|
    ensures Crossover(parentA, parentB, c0, d0) == SlicedCrossover(parentA, parentB, c0, d0)
  {
    var (c, d) := CrossoverCuts(c0, d0);
    var (childA, childB) := Crossover(parentA, parentB, c0, d0);
    var l := |parentA|;
    var a1, b2, a3 := Slice(parentA, 0, c), Slice(parentB, c, d), Slice(parentA, d, l);
    var b1, a2, b3 := Slice(parentB, 0, c), Slice(parentA, c, d), Slice(parentB, d, l);
    assert |a1| == |b1| == Min(c, l) && |b2| == |a2| && |a3| == |b3|;
    assert |a1 + b2 + a3| == l;
    forall i | 0 <= i < l
      ensures (a1 + b2 + a3)[i] == childA[i] && (b1 + a2 + b3)[i] == childB[i]
    {
      if i < |a1| {
        SliceAt(parentA, 0, c, i);
        SliceAt(parentB, 0, c, i);
      } else if i < |a1| + |b2| {
        SliceAt(parentB, c, d, i - |a1|);
        SliceAt(parentA, c, d, i - |a1|);
        assert (a1 + b2 + a3)[i] == b2[i - |a1|] && (b1 + a2 + b3)[i] == a2[i - |a1|];
      } else {
        SliceAt(parentA, d, l, i - |a1| - |b2|);
        SliceAt(parentB, d, l, i - |a1| - |b2|);
        assert (a1 + b2 + a3)[i] == a3[i - |a1| - |b2|] && (b1 + a2 + b3)[i] == b3[i - |a1| - |b2|];
      }
    }
    assert a1 + b2 + a3 == childA && b1 + a2 + b3 == childB;
  }

  /** At every position the two children hold the two parents' genes, and
      the window really is exchanged: inside it each child carries the other
      parent's gene. */
  lemma CrossoverKeepsGenePairs(parentA: seq<real>, parentB: seq<real>, c0: nat, d0: nat)
    requires |parentA| == |parentB| && c0 <= |parentA| && d0 <= |parentA|
    ensures var (childA, childB) := Crossover(parentA, parentB, c0, d0);
            var (c, d) := CrossoverCuts(c0, d0);
            (forall i :: 0 <= i < |parentA| ==> multiset{childA[i], childB[i]} == multiset{parentA[i], parentB[i]})
            && (forall i :: c <= i < d && i < |parentA| ==> childA[i] == parentB[i] && childB[i] == parentA[i])
  {
    var (childA, childB) := Crossover(parentA, parentB, c0, d0);
    forall i | 0 <= i < |parentA|
      ensures multiset{childA[i], childB[i]} == multiset{parentA[i], parentB[i]}
    {
      assert childA[i] == parentA[i] || childA[i] == parentB[i];
    }
  }

  /** Crossing the children over at the same cuts gives the parents back. */
  lemma CrossoverInvolution(parentA: seq<real>, parentB: seq<real>, c0: nat, d0: nat)
    requires |parentA| == |parentB| && c0 <= |parentA| && d0 <= |parentA|
    ensures var (childA, childB) := Crossover(parentA, parentB, c0, d0);
            Crossover(childA, childB, c0, d0) == (parentA, parentB)
  {
    var (childA, childB) := Crossover(parentA, parentB, c0, d0);
    var (backA, backB) := Crossover(childA, childB, c0, d0);
    assert backA == parentA && backB == parentB;
  }

  /** Identical parents, or a window lying wholly past the end, give children
      equal to the parents. */
  lemma CrossoverNoChange(parentA: seq<real>, parentB: seq<real>, c0: nat, d0: nat)
    requires |parentA| == |parentB| && c0 <= |parentA| && d0 <= |parentA|
    requires parentA == parentB || c0 == d0 == |parentA|
    ensures Crossover(parentA, parentB, c0, d0) == (parentA, parentB)
  {
    var (childA, childB) := Crossover(parentA, parentB, c0, d0);
    assert childA == parentA && childB == parentB;
  }

  /** The values `np.random.normal(0, scale, size)` can return for a child of
      length `size`: any reals, and only zeros when the scale is zero. */
  predicate NoiseFits(noise: seq<real>, size: nat, scale: real)
  {
    |noise| == size && (scale == 0.0 ==> forall k :: 0 <= k < |noise| ==> noise[k] == 0.0)
  }

  /** `mutate`: a single `random.uniform(0, 1)` draw `u` gates Gaussian
      noise over every gene. A negative scale makes `np.random.normal` raise,
      but only once the gate has opened. */
  function Mutate(child: seq<real>, mutationRate: real, mutationScale: real, u: real, noise: seq<real>): (r: Option<seq<real>>)
    requires InUniformRange(u, 0.0, 1.0) && NoiseFits(noise, |child|, mutationScale)
    ensures r.None? <==> mutationRate >= u && mutationScale < 0.0
    ensures r.Some? ==> |r.value| == |child|
    ensures r.Some? && mutationRate < u ==> r.value == child
  {
    if mutationRate >= u then
      if mutationScale < 0.0 then None
      else Some(seq(|child|, k requires 0 <= k < |child| => child[k] + noise[k]))
    else Some(child)
  }

  /** Taking the noise off a mutated child gives the child back; a rate of
      at least 1 always mutates, a negative rate never does, and zero-scale
      noise changes nothing. */
  lemma MutateInverse(child: seq<real>, mutationRate: real, mutationScale: real, u: real, noise: seq<real>)
    requires InUniformRange(u, 0.0, 1.0) && NoiseFits(noise, |child|, mutationScale)
    requires mutationScale >= 0.0
    ensures var r := Mutate(child, mutationRate, mutationScale, u, noise);
            r.Some?
            && (mutationRate >= u ==> forall k :: 0 <= k < |child| ==> r.value[k] - noise[k] == child[k])
            && (mutationRate >= 1.0 ==> forall k :: 0 <= k < |child| ==> r.value[k] == child[k] + noise[k])
            && (mutationRate < 0.0 ==> r.value == child)
            && (mutationScale == 0.0 ==> r.value == child)
  {
    var r := Mutate(child, mutationRate, mutationScale, u, noise);
    if mutationScale == 0.0 && mutationRate >= u {
      assert forall k :: 0 <= k < |child| ==> r.value[k] == child[k] + noise[k] == child[k];
    }
  }

  /** A child as `update_population` stores it: mutated when `should_mutate`
      is set, as it is otherwise (no draw is then consumed). */
  function Offspring(child: seq<real>, shouldMutate: bool, mutationRate: real, mutationScale: real, u: real, noise: seq<real>): (r: Option<seq<real>>)
    requires shouldMutate ==> InUniformRange(u, 0.0, 1.0) && NoiseFits(noise, |child|, mutationScale)
    ensures !shouldMutate ==> r == Some(child)
    ensures r.Some? ==> |r.value| == |child|
  {
    if shouldMutate then Mutate(child, mutationRate, mutationScale, u, noise) else Some(child)
  }

  /** The draws one iteration of `update_population` consumes, in the order
      the code makes them: two tournaments, the two cuts, then the gate and
      noise of each child's mutation. */
  datatype PairDraws = PairDraws(
    challengersA: seq<nat>, challengersB: seq<nat>,
    cutC: nat, cutD: nat,
    gateA: real, noiseA: seq<real>,
    gateB: real, noiseB: seq<real>)

  /** The tournament size `update_population` uses. */
  const TournamentSize: nat := 2

  /** Both tournaments drew `TournamentSize` rows of a population of `size`. */
  predicate ChallengersFit(d: PairDraws, size: nat)
  {
    |d.challengersA| == TournamentSize && |d.challengersB| == TournamentSize
    && (forall m :: 0 <= m < |d.challengersA| ==> d.challengersA[m] < size)
    && (forall m :: 0 <= m < |d.challengersB| ==> d.challengersB[m] < size)
  }

  /** The draws are ones the generators can produce for a population of
      `size` rows of `width` genes. */
  predicate PairDrawsFit(d: PairDraws, size: nat, width: nat, mutationScale: real)
  {
    ChallengersFit(d, size)
    && d.cutC <= width && d.cutD <= width
    && InUniformRange(d.gateA, 0.0, 1.0) && NoiseFits(d.noiseA, width, mutationScale)
    && InUniformRange(d.gateB, 0.0, 1.0) && NoiseFits(d.noiseB, width, mutationScale)
  }

  /** Every row has `width` genes. */
  predicate Rectangular(population: seq<seq<real>>, width: nat)
  {
    forall j :: 0 <= j < |population| ==> |population[j]| == width
  }

  /** The two tournament winners of one iteration. */
  function Parents(f: seq<real> -> real, population: seq<seq<real>>, d: PairDraws): (parents: (seq<real>, seq<real>))
    requires |population| > 0 && Rectangular(population, |population[0]|)
    requires ChallengersFit(d, |population|)
    ensures |parents.0| == |parents.1| == |population[0]|
  {
    TournamentWinnerIsFittest(f, population, TournamentSize, d.challengersA);
    TournamentWinnerIsFittest(f, population, TournamentSize, d.challengersB);
    (TournamentSelectWithReplacement(f, population, TournamentSize, d.challengersA).value,
     TournamentSelectWithReplacement(f, population, TournamentSize, d.challengersB).value)
  }

  /** One iteration of the loop of `update_population`: the two children it
      stores, or `None` where a mutation raises. */
  function Pair(f: seq<real> -> real, population: seq<seq<real>>, shouldMutate: bool, mutationRate: real, mutationScale: real, d: PairDraws): (r: Option<(seq<real>, seq<real>)>)
    requires |population| > 0 && Rectangular(population, |population[0]|)
    requires PairDrawsFit(d, |population|, |population[0]|, mutationScale)
    ensures r.Some? ==> |r.value.0| == |r.value.1| == |population[0]|
  {
    var (parentA, parentB) := Parents(f, population, d);
    var (childA, childB) := Crossover(parentA, parentB, d.cutC, d.cutD);
    var a := Offspring(childA, shouldMutate, mutationRate, mutationScale, d.gateA, d.noiseA);
    var b := Offspring(childB, shouldMutate, mutationRate, mutationScale, d.gateB, d.noiseB);
    if a.None? || b.None? then None else Some((a.value, b.value))
  }

  /** Where `update_population` stores the second child of iteration `i`:
      `int(i + pop_size / 2)`, a true division followed by truncation. */
  function ChildBSlot(i: nat, popSize: nat): (slot: nat)
    ensures slot == i + popSize / 2
  {
    var x := i as real + popSize as real / 2.0;
    assert x.Floor == i + popSize / 2 by {
      var h := popSize / 2;
      assert popSize as real / 2.0 == h as real + (popSize % 2) as real / 2.0;
    }
    x.Floor
  }

  /** The preconditions `update_population` needs of its draws. */
  predicate GenerationDrawsFit(population: seq<seq<real>>, mutationScale: real, draws: seq<PairDraws>)
  {
    |draws| == |population| / 2
    && (|population| > 0 ==>
          Rectangular(population, |population[0]|)
          && forall i :: 0 <= i < |draws| ==> PairDrawsFit(draws[i], |population|, |population[0]|, mutationScale))
  }

  /** The outcomes of the first `n` iterations of the loop of
      `update_population`, in order. `Iterations` and `IterationsThrough`
      are one recursion over the iteration count, split in two only so that
      the solver unfolds one step at a time; the split carries no meaning of
      its own. */
  function Iterations(f: seq<real> -> real, population: seq<seq<real>>, shouldMutate: bool, mutationRate: real, mutationScale: real,
                      draws: seq<PairDraws>, n: nat): (r: seq<Option<(seq<real>, seq<real>)>>)
    requires GenerationDrawsFit(population, mutationScale, draws) && n <= |draws|
    ensures |r| == n
    decreases n, 0
  {
    if n == 0 then [] else IterationsThrough(f, population, shouldMutate, mutationRate, mutationScale, draws, n - 1)
  }

  /** The outcomes of iterations `0` to `i`, the last one included. */
  function IterationsThrough(f: seq<real> -> real, population: seq<seq<real>>, shouldMutate: bool, mutationRate: real, mutationScale: real,
                             draws: seq<PairDraws>, i: nat): (r: seq<Option<(seq<real>, seq<real>)>>)
    requires GenerationDrawsFit(population, mutationScale, draws) && i < |draws|
    ensures |r| == i + 1
    decreases i, 1
  {
    Iterations(f, population, shouldMutate, mutationRate, mutationScale, draws, i)
      + [Pair(f, population, shouldMutate, mutationRate, mutationScale, draws[i])]
  }

  /** One more iteration leaves the earlier outcomes as they were. */
  lemma IterationsGrow(f: seq<real> -> real, population: seq<seq<real>>, shouldMutate: bool, mutationRate: real, mutationScale: real,
                       draws: seq<PairDraws>, n: nat)
    requires GenerationDrawsFit(population, mutationScale, draws) && n < |draws|
    ensures Iterations(f, population, shouldMutate, mutationRate, mutationScale, draws, n + 1)[..n]
            == Iterations(f, population, shouldMutate, mutationRate, mutationScale, draws, n)
  {
    assert Iterations(f, population, shouldMutate, mutationRate, mutationScale, draws, n + 1)
           == IterationsThrough(f, population, shouldMutate, mutationRate, mutationScale, draws, n);
  }

  /** The last of `n + 1` outcomes is iteration `n`'s pair. */
  lemma IterationsLast(f: seq<real> -> real, population: seq<seq<real>>, shouldMutate: bool, mutationRate: real, mutationScale: real,
                       draws: seq<PairDraws>, n: nat)
    requires GenerationDrawsFit(population, mutationScale, draws) && n < |draws|
    ensures Iterations(f, population, shouldMutate, mutationRate, mutationScale, draws, n + 1)[n]
            == Pair(f, population, shouldMutate, mutationRate, mutationScale, draws[n])
  {
    assert Iterations(f, population, shouldMutate, mutationRate, mutationScale, draws, n + 1)
           == IterationsThrough(f, population, shouldMutate, mutationRate, mutationScale, draws, n);
  }

  /** Entry `k` of the outcomes does not depend on how many iterations
      follow it. */
  lemma {:induction false} IterationsStable(f: seq<real> -> real, population: seq<seq<real>>, shouldMutate: bool, mutationRate: real, mutationScale: real,
                                            draws: seq<PairDraws>, n: nat, k: nat)
    requires GenerationDrawsFit(population, mutationScale, draws) && k < n <= |draws|
    ensures Iterations(f, population, shouldMutate, mutationRate, mutationScale, draws, n)[k]
            == Iterations(f, population, shouldMutate, mutationRate, mutationScale, draws, k + 1)[k]
  {
    if k < n - 1 {
      IterationsGrow(f, population, shouldMutate, mutationRate, mutationScale, draws, n - 1);
      assert Iterations(f, population, shouldMutate, mutationRate, mutationScale, draws, n)[..n - 1][k]
             == Iterations(f, population, shouldMutate, mutationRate, mutationScale, draws, n)[k];
      IterationsStable(f, population, shouldMutate, mutationRate, mutationScale, draws, n - 1, k);
    }
  }

  /** Entry `k` of the outcomes is iteration `k`'s pair. */
  lemma IterationAt(f: seq<real> -> real, population: seq<seq<real>>, shouldMutate: bool, mutationRate: real, mutationScale: real,
                    draws: seq<PairDraws>, n: nat, k: nat)
    requires GenerationDrawsFit(population, mutationScale, draws) && k < n <= |draws|
    ensures Iterations(f, population, shouldMutate, mutationRate, mutationScale, draws, n)[k]
            == Pair(f, population, shouldMutate, mutationRate, mutationScale, draws[k])
  {
    IterationsStable(f, population, shouldMutate, mutationRate, mutationScale, draws, n, k);
    IterationsLast(f, population, shouldMutate, mutationRate, mutationScale, draws, k);
  }

  /** The array the loop leaves behind, given the outcome of each of its
      `|results|` iterations: row `i` holds the first child of iteration `i`,
      row `i + |results|` its second child, and a row no iteration writes
      keeps what `np.empty` left in it, here `empty`. `None` where an
      iteration raises. */
  function Assemble(results: seq<Option<(seq<real>, seq<real>)>>, empty: seq<seq<real>>): (r: Option<seq<seq<real>>>)
    requires 2 * |results| <= |empty|
    ensures r.None? <==> exists i :: 0 <= i < |results| && results[i].None?
    ensures r.Some? ==> |r.value| == |empty|
  {
    var half := |results|;
    if exists i :: 0 <= i < half && results[i].None? then None
    else
      Some(seq(|empty|, r requires 0 <= r < |empty| =>
        if r < half then results[r].value.0
        else if r < 2 * half then results[r - half].value.1
        else empty[r]))
  }

  /** When every iteration succeeds, each row of the array is the child the
      loop stored there, or untouched. */
  lemma AssembleRows(results: seq<Option<(seq<real>, seq<real>)>>, empty: seq<seq<real>>, children: seq<(seq<real>, seq<real>)>)
    requires 2 * |results| <= |empty| && |children| == |results|
    requires forall k :: 0 <= k < |results| ==> results[k] == Some(children[k])
    ensures var next := Assemble(results, empty);
            var half := |results|;
            next.Some?
            && forall r :: 0 <= r < |empty| ==>
                 next.value[r] == if r < half then children[r].0 else if r < 2 * half then children[r - half].1 else empty[r]
  {
  }

  /** `update_population` as a value: the array assembled from the
      `|population| / 2` iterations of its loop. */
  function NextPopulation(f: seq<real> -> real, population: seq<seq<real>>, shouldMutate: bool, mutationRate: real, mutationScale: real,
                          draws: seq<PairDraws>, empty: seq<seq<real>>): (r: Option<seq<seq<real>>>)
    requires GenerationDrawsFit(population, mutationScale, draws) && |empty| == |population|
    ensures r.Some? ==> |r.value| == |population|
  {
    Assemble(Iterations(f, population, shouldMutate, mutationRate, mutationScale, draws, |draws|), empty)
  }

  /** A generation fails exactly when one of its iterations raises. */
  lemma NextPopulationFailsIff(f: seq<real> -> real, population: seq<seq<real>>, shouldMutate: bool, mutationRate: real, mutationScale: real,
                               draws: seq<PairDraws>, empty: seq<seq<real>>)
    requires GenerationDrawsFit(population, mutationScale, draws) && |empty| == |population|
    ensures NextPopulation(f, population, shouldMutate, mutationRate, mutationScale, draws, empty).None?
            <==> exists i :: 0 <= i < |draws| && Pair(f, population, shouldMutate, mutationRate, mutationScale, draws[i]).None?
  {
    var results := Iterations(f, population, shouldMutate, mutationRate, mutationScale, draws, |draws|);
    if i :| 0 <= i < |draws| && Pair(f, population, shouldMutate, mutationRate, mutationScale, draws[i]).None? {
      IterationAt(f, population, shouldMutate, mutationRate, mutationScale, draws, |draws|, i);
    }
    if i :| 0 <= i < |results| && results[i].None? {
      IterationAt(f, population, shouldMutate, mutationRate, mutationScale, draws, |draws|, i);
    }
  }

  /** Iteration `i` stores its children in rows `i` and `int(i + n / 2)`;
      when the population size `n` is odd the last row is never written. */
  lemma NextPopulationRows(f: seq<real> -> real, population: seq<seq<real>>, shouldMutate: bool, mutationRate: real, mutationScale: real,
                           draws: seq<PairDraws>, empty: seq<seq<real>>, i: nat)
    requires GenerationDrawsFit(population, mutationScale, draws) && |empty| == |population|
    requires NextPopulation(f, population, shouldMutate, mutationRate, mutationScale, draws, empty).Some?
    requires i < |population| / 2
    ensures var next := NextPopulation(f, population, shouldMutate, mutationRate, mutationScale, draws, empty).value;
            var p := Pair(f, population, shouldMutate, mutationRate, mutationScale, draws[i]);
            p.Some? && next[i] == p.value.0 && next[ChildBSlot(i, |population|)] == p.value.1
    ensures var next := NextPopulation(f, population, shouldMutate, mutationRate, mutationScale, draws, empty).value;
            |population| % 2 == 1 ==> next[|population| - 1] == empty[|population| - 1]
  {
    IterationAt(f, population, shouldMutate, mutationRate, mutationScale, draws, |draws|, i);
  }

  /** Without mutation each iteration stores the crossover of two tournament
      winners unchanged, so at every gene the two stored rows hold the two
      parents' genes. */
  lemma UnmutatedPairKeepsGenes(f: seq<real> -> real, population: seq<seq<real>>, mutationRate: real, mutationScale: real, d: PairDraws)
    requires |population| > 0 && Rectangular(population, |population[0]|)
    requires PairDrawsFit(d, |population|, |population[0]|, mutationScale)
    ensures var p := Pair(f, population, false, mutationRate, mutationScale, d);
            var (parentA, parentB) := Parents(f, population, d);
            p.Some? && p.value == Crossover(parentA, parentB, d.cutC, d.cutD)
            && forall k :: 0 <= k < |population[0]| ==> multiset{p.value.0[k], p.value.1[k]} == multiset{parentA[k], parentB[k]}
  {
    var (parentA, parentB) := Parents(f, population, d);
    CrossoverKeepsGenePairs(parentA, parentB, d.cutC, d.cutD);
  }

  /** There is no elitism: a generation can lose the best row. With rows
      `[0, 0]` and `[1, 1]` under the objective "first gene", both
      tournaments drawing row 1 twice, the next population holds only
      `[1, 1]`, and the best fitness rises from 0 to 1. */
  lemma BestCanWorsen()
    ensures var f := (x: seq<real>) => if |x| > 0 then x[0] else 0.0;
            var population := [[0.0, 0.0], [1.0, 1.0]];
            var d := PairDraws([1, 1], [1, 1], 0, 0, 0.0, [0.0, 0.0], 0.0, [0.0, 0.0]);
            var next := NextPopulation(f, population, false, 0.0, 0.0, [d], [[0.0, 0.0], [0.0, 0.0]]);
            FindCurrentBest(f, population) == Some([0.0, 0.0])
            && next == Some([[1.0, 1.0], [1.0, 1.0]])
            && FindCurrentBest(f, next.value) == Some([1.0, 1.0])
  {
    var f := (x: seq<real>) => if |x| > 0 then x[0] else 0.0;
    var population := [[0.0, 0.0], [1.0, 1.0]];
    var d := PairDraws([1, 1], [1, 1], 0, 0, 0.0, [0.0, 0.0], 0.0, [0.0, 0.0]);
    TournamentWinnerIsFittest(f, population, TournamentSize, d.challengersA);
    assert Parents(f, population, d) == (population[1], population[1]);
    CrossoverNoChange(population[1], population[1], 0, 0);
    assert Pair(f, population, false, 0.0, 0.0, d) == Some((population[1], population[1]));
    IterationAt(f, population, false, 0.0, 0.0, [d], 1, 0);
    var next := NextPopulation(f, population, false, 0.0, 0.0, [d], [[0.0, 0.0], [0.0, 0.0]]);
    assert next.value == [population[1], population[1]];
    FindCurrentBestIsFirstFittest(f, next.value);
    FindCurrentBestIsFirstFittest(f, population);
    assert f(population[0]) < f(population[1]);
  }

  /** The body of the loop of `update_population` up to the stores: two
      tournaments, the crossover of their winners and the mutation of each
      child. Its result is the outcome of iteration `i` of `n`. */
  method Breed(f: seq<real> -> real, population: seq<seq<real>>, shouldMutate: bool, mutationRate: real, mutationScale: real,
               draws: seq<PairDraws>, n: nat, i: nat) returns (pair: Option<(seq<real>, seq<real>)>)
    requires GenerationDrawsFit(population, mutationScale, draws) && i < n <= |draws|
    ensures pair == Iterations(f, population, shouldMutate, mutationRate, mutationScale, draws, n)[i]
    ensures pair.Some? ==> |pair.value.0| == |pair.value.1| == |population[0]|
  {
    var d := draws[i];
    var parentA := TournamentSelectWithReplacement(f, population, TournamentSize, d.challengersA).value;
    var parentB := TournamentSelectWithReplacement(f, population, TournamentSize, d.challengersB).value;
    assert (parentA, parentB) == Parents(f, population, d);
    var (childA, childB) := Crossover(parentA, parentB, d.cutC, d.cutD);
    var a := Offspring(childA, shouldMutate, mutationRate, mutationScale, d.gateA, d.noiseA);
    var b := Offspring(childB, shouldMutate, mutationRate, mutationScale, d.gateB, d.noiseB);
    pair := if a.None? || b.None? then None else Some((a.value, b.value));
    IterationAt(f, population, shouldMutate, mutationRate, mutationScale, draws, n, i);
  }

  /** Row `r` of the array once the loop has stored `children`: the first
      children fill the rows from 0, the second children the rows from
      `half`, and the rest still hold `empty`. */
  function StoredRow(children: seq<(seq<real>, seq<real>)>, empty: seq<seq<real>>, half: nat, r: nat): seq<real>
    requires |children| <= half && r < |empty|
  {
    if r < |children| then children[r].0
    else if half <= r < half + |children| then children[r - half].1
    else empty[r]
  }

  /** numpy's row assignment `a[r] = row`. */
  method SetRow(a: array2<real>, r: nat, row: seq<real>)
    requires r < a.Length0 && |row| == a.Length1
    modifies a
    ensures forall i, j :: 0 <= i < a.Length0 && 0 <= j < a.Length1 ==> a[i, j] == if i == r then row[j] else old(a[i, j])
  {
    for j := 0 to a.Length1
      invariant forall i, k :: 0 <= i < a.Length0 && 0 <= k < a.Length1 ==> a[i, k] == if i == r && k < j then row[k] else old(a[i, k])
    {
      a[r, j] := row[j];
    }
  }

  /** The loop of `update_population`: iteration `i` stores its two
      children in rows `i` and `int(i + pop_size / 2)` of `next`, which
      starts out holding `empty`. */
  method FillPopulation(f: seq<real> -> real, population: seq<seq<real>>, shouldMutate: bool, mutationRate: real, mutationScale: real,
                        draws: seq<PairDraws>, empty: seq<seq<real>>, next: array2<real>) returns (ok: bool)
    requires GenerationDrawsFit(population, mutationScale, draws)
    requires |population| > 0 ==> |population[0]| == 2
    requires |empty| == |population| == next.Length0 && Rectangular(empty, 2) && next.Length1 == 2
    requires forall r, c :: 0 <= r < next.Length0 && 0 <= c < 2 ==> next[r, c] == empty[r][c]
    modifies next
    ensures ok <==> NextPopulation(f, population, shouldMutate, mutationRate, mutationScale, draws, empty).Some?
    ensures ok ==> Rows(next) == NextPopulation(f, population, shouldMutate, mutationRate, mutationScale, draws, empty).value
  {
    var popSize := next.Length0;
    var half := (popSize as real / 2.0).Floor;
    assert half == popSize / 2 by { assert ChildBSlot(0, popSize) == popSize / 2; }
    ghost var results := Iterations(f, population, shouldMutate, mutationRate, mutationScale, draws, half);
    ghost var children: seq<(seq<real>, seq<real>)> := [];
    for i := 0 to half
      invariant |children| == i
      invariant forall k :: 0 <= k < i ==> results[k] == Some(children[k]) && |children[k].0| == 2 && |children[k].1| == 2
      invariant forall r, c :: 0 <= r < popSize && 0 <= c < 2 ==> next[r, c] == StoredRow(children, empty, half, r)[c]
    {
      var pair := Breed(f, population, shouldMutate, mutationRate, mutationScale, draws, half, i);
      if pair.None? {
        return false;
      }
      var (childA, childB) := pair.value;
      SetRow(next, i, childA);
      var slot := ChildBSlot(i, popSize);
      SetRow(next, slot, childB);
      children := children + [(childA, childB)];
    }
    AssembleRows(results, empty, children);
    ghost var expected := NextPopulation(f, population, shouldMutate, mutationRate, mutationScale, draws, empty).value;
    assert forall r :: 0 <= r < popSize ==> expected[r] == StoredRow(children, empty, half, r);
    RowsAre(next, expected);
    return true;
  }

  /** The rows of a two-dimensional array. */
  function Rows(a: array2<real>): (r: seq<seq<real>>)
    reads a
    ensures |r| == a.Length0 && Rectangular(r, a.Length1)
  {
    seq(a.Length0, i requires 0 <= i < a.Length0 reads a => seq(a.Length1, j requires 0 <= j < a.Length1 reads a => a[i, j]))
  }

  /** An array whose cells are those of a rectangular list of rows has
      those rows. */
  lemma RowsAre(a: array2<real>, content: seq<seq<real>>)
    requires |content| == a.Length0 && Rectangular(content, a.Length1)
    requires forall r, c :: 0 <= r < a.Length0 && 0 <= c < a.Length1 ==> a[r, c] == content[r][c]
    ensures Rows(a) == content
  {
    assert forall r :: 0 <= r < a.Length0 ==> Rows(a)[r] == content[r];
  }

  /** `create_population`: the `np.random.rand(population_size,
      vector_length)` draws, each in `[0, 1)`, as a new array. */
  method CreatePopulation(populationSize: nat, vectorLength: nat, draws: seq<seq<real>>) returns (population: array2<real>)
    requires |draws| == populationSize && Rectangular(draws, vectorLength)
    requires forall i, j :: 0 <= i < populationSize && 0 <= j < vectorLength ==> 0.0 <= draws[i][j] < 1.0
    ensures fresh(population)
    ensures population.Length0 == populationSize && population.Length1 == vectorLength
    ensures Rows(population) == draws
  {
    population := new real[populationSize, vectorLength]((i, j) requires 0 <= i < populationSize && 0 <= j < vectorLength => draws[i][j]);
    RowsAre(population, draws);
  }

  /** The genetic algorithm's state: the population array, which each
      generation replaces by a new one, and the row of it with least
      fitness. */
  class GeneticAlgorithm {
    const fitness: seq<real> -> real
    var currentPopulation: array2<real>
    var currentBest: seq<real>

    /** The population is not empty and `currentBest` is its first fittest row. */
    ghost predicate Valid()
      reads this, currentPopulation
    {
      currentPopulation.Length0 > 0 && FindCurrentBest(fitness, Rows(currentPopulation)) == Some(currentBest)
    }

    /** `GeneticAlgorithm(population_size, vector_length, fitness)`;
        `initial` are the `np.random.rand` draws. An empty population makes
        `min` raise in `find_current_best`. */
    constructor (populationSize: nat, vectorLength: nat, fitness: seq<real> -> real, initial: seq<seq<real>>)
      requires populationSize > 0
      requires |initial| == populationSize && Rectangular(initial, vectorLength)
      requires forall i, j :: 0 <= i < populationSize && 0 <= j < vectorLength ==> 0.0 <= initial[i][j] < 1.0
      ensures Valid() && this.fitness == fitness
      ensures Rows(currentPopulation) == initial
      ensures currentPopulation.Length1 == vectorLength
    {
      this.fitness := fitness;
      var population := CreatePopulation(populationSize, vectorLength, initial);
      currentPopulation := population;
      currentBest := FindCurrentBest(fitness, Rows(population)).value;
    }

    /** `update_population`: `empty` is what `np.empty` leaves in the new
        `pop_size x 2` array. The new array holds two genes per row, so the
        population it replaces must too. */
    method UpdatePopulation(current: array2<real>, shouldMutate: bool, mutationRate: real, mutationScale: real,
                            draws: seq<PairDraws>, empty: seq<seq<real>>) returns (next: array2<real>, ok: bool)
      requires current.Length1 == 2
      requires GenerationDrawsFit(Rows(current), mutationScale, draws)
      requires |empty| == current.Length0 && Rectangular(empty, 2)
      ensures fresh(next) && next.Length0 == current.Length0 && next.Length1 == 2
      ensures ok <==> NextPopulation(fitness, Rows(current), shouldMutate, mutationRate, mutationScale, draws, empty).Some?
      ensures ok ==> Rows(next) == NextPopulation(fitness, Rows(current), shouldMutate, mutationRate, mutationScale, draws, empty).value
    {
      var population := Rows(current);
      var popSize := current.Length0;
      next := new real[popSize, 2]((r, c) requires 0 <= r < popSize && 0 <= c < 2 => empty[r][c]);
      ok := FillPopulation(fitness, population, shouldMutate, mutationRate, mutationScale, draws, empty, next);
    }

    /** `next_generation`: the new population replaces the old one, then the
        best row is recomputed from it alone. */
    method NextGeneration(mutationRate: real, mutationScale: real, shouldMutate: bool, draws: seq<PairDraws>, empty: seq<seq<real>>) returns (ok: bool)
      requires Valid() && currentPopulation.Length1 == 2
      requires GenerationDrawsFit(Rows(currentPopulation), mutationScale, draws)
      requires |empty| == currentPopulation.Length0 && Rectangular(empty, 2)
      modifies this
      ensures Valid() && currentPopulation.Length1 == 2
      ensures ok <==> NextPopulation(fitness, old(Rows(currentPopulation)), shouldMutate, mutationRate, mutationScale, draws, empty).Some?
      ensures ok ==> Rows(currentPopulation) == NextPopulation(fitness, old(Rows(currentPopulation)), shouldMutate, mutationRate, mutationScale, draws, empty).value
      ensures !ok ==> currentPopulation == old(currentPopulation) && currentBest == old(currentBest)
    {
      var next, updated := UpdatePopulation(currentPopulation, shouldMutate, mutationRate, mutationScale, draws, empty);
      if !updated {
        return false;
      }
      currentPopulation := next;
      currentBest := FindCurrentBest(fitness, Rows(next)).value;
      ok := true;
    }
  }
}

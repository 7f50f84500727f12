/** Particle swarm optimisation of src/algorithms/pso.py.

    The first half of the module is a value-level specification of one sweep of
    `update_swarm` and of `update_global_fittest`; the second half holds the
    `Particle` and `PSO` classes, whose arrays and in-place updates follow the
    Python code, and whose methods are proved against that specification. */
module Pso {
  import opened Common
  import Objective

  /** The five coefficients `improve` and `update_swarm` pass down to
      `Particle.update`. */
  datatype Coefficients = Coefficients(
    followCurrent: real,
    followPersonalBest: real,
    followSocialBest: real,
    followGlobalBest: real,
    scaleUpdateStep: real)

  /** The random values one particle's turn in `update_swarm` consumes: the
      informant indices drawn by `np.random.choice` and the three
      `random.uniform` scalars of `Particle.update`. */
  datatype ParticleDraws = ParticleDraws(informants: seq<nat>, cognitive: real, social: real, glob: real)

  /** The draws are ones the random generators can produce. */
  predicate DrawsFit(d: ParticleDraws, swarmSize: nat, numInformants: nat, c: Coefficients)
  {
    |d.informants| == numInformants
    && (forall m :: 0 <= m < |d.informants| ==> d.informants[m] < swarmSize)
    && InUniformRange(d.cognitive, 0.0, c.followPersonalBest)
    && InUniformRange(d.social, 0.0, c.followSocialBest)
    && InUniformRange(d.glob, 0.0, c.followGlobalBest)
  }

  /** What a particle holds, as values. Its personal best is not a separate
      component: the Python particle's `fittest_position` is always the same
      array as its `position` (see `Particle.Valid`). */
  datatype ParticleState = ParticleState(position: seq<real>, velocity: seq<real>, previousFitness: real)

  /** An informant sample the swarm can answer: non-empty, indices in range. */
  predicate InformantsFit(informants: seq<nat>, swarmSize: nat)
  {
    |informants| > 0 && forall m :: 0 <= m < |informants| ==> informants[m] < swarmSize
  }

  /** Element `j` of a vector. The vectors of one swarm all have the same
      length, so the 0.0 beyond the end is never read. */
  function At(v: seq<real>, j: nat): real
  {
    if j < |v| then v[j] else 0.0
  }

  /** `position + velocity * scale_update_step` */
  function Advance(position: seq<real>, velocity: seq<real>, step: real): (r: seq<real>)
    ensures |r| == |position|
  {
    seq(|position|, j requires 0 <= j < |position| => position[j] + At(velocity, j) * step)
  }

  /** The velocity rule: the old velocity scaled by `follow_current`, plus the
      differences to the personal, informant and global bests, each scaled by
      one scalar shared by every dimension. */
  function NewVelocity(
    followCurrent: real, velocity: seq<real>,
    cognitive: real, personalBest: seq<real>, position: seq<real>,
    social: real, informantBest: seq<real>,
    glob: real, globalBest: seq<real>): (r: seq<real>)
    ensures |r| == |velocity|
  {
    seq(|velocity|, j requires 0 <= j < |velocity| =>
      followCurrent * velocity[j]
      + cognitive * (At(personalBest, j) - At(position, j))
      + social * (At(informantBest, j) - At(position, j))
      + glob * (At(globalBest, j) - At(position, j)))
  }

  /** The fitness of every particle at its current position. */
  function PositionFitnesses(f: seq<real> -> real, states: seq<ParticleState>): (r: seq<real>)
    ensures |r| == |states|
  {
    seq(|states|, j requires 0 <= j < |states| => f(states[j].position))
  }

  /** `find_current_best` over an informant sample, as an index into the swarm. */
  function FittestInformant(f: seq<real> -> real, states: seq<ParticleState>, informants: seq<nat>): (k: nat)
    requires InformantsFit(informants, |states|)
    ensures k < |states| && k in informants
  {
    informants[ArgMin(InformantFitnesses(f, states, informants))]
  }

  /** The fitness of each informant at its current position. */
  function InformantFitnesses(f: seq<real> -> real, states: seq<ParticleState>, informants: seq<nat>): (r: seq<real>)
    requires InformantsFit(informants, |states|)
    ensures |r| == |informants|
  {
    seq(|informants|, m requires 0 <= m < |informants| => f(states[informants[m]].position))
  }

  /** The informant chosen is a fittest one, and the first fittest in sample order. */
  lemma FittestInformantIsFittest(f: seq<real> -> real, states: seq<ParticleState>, informants: seq<nat>)
    requires InformantsFit(informants, |states|)
    ensures var k := FittestInformant(f, states, informants);
            (forall m :: 0 <= m < |informants| ==> f(states[k].position) <= f(states[informants[m]].position))
            && exists a :: 0 <= a < |informants| && informants[a] == k
                           && forall m :: 0 <= m < a ==> f(states[k].position) < f(states[informants[m]].position)
  {
    var fits := InformantFitnesses(f, states, informants);
    var a := ArgMin(fits);
    ArgMinIsFirstMin(fits);
    assert forall m :: 0 <= m < |informants| ==> fits[m] == f(states[informants[m]].position) && fits[a] <= fits[m];
    assert forall m :: 0 <= m < a ==> fits[m] == f(states[informants[m]].position) && fits[a] < fits[m];
  }

  /** Particle `i`'s turn in `update_swarm`: the fittest informant is chosen
      before the particle moves; the particle then moves by its old velocity,
      and the informant and global bests are read after the move (either may
      be the particle itself). Since the personal best is the position
      itself, the cognitive difference is taken between two equal vectors. */
  function ParticleStep(f: seq<real> -> real, c: Coefficients, states: seq<ParticleState>, i: nat, g: nat, d: ParticleDraws): (r: ParticleState)
    requires i < |states| && g < |states| && InformantsFit(d.informants, |states|)
    ensures |r.position| == |states[i].position| && |r.velocity| == |states[i].velocity|
    ensures r.previousFitness == f(r.position)
  {
    var s := states[i];
    var moved := Advance(s.position, s.velocity, c.scaleUpdateStep);
    var after := states[i := s.(position := moved)];
    var k := FittestInformant(f, states, d.informants);
    ParticleState(
      moved,
      NewVelocity(c.followCurrent, s.velocity, d.cognitive, moved, moved,
                  d.social, after[k].position, d.glob, after[g].position),
      f(moved))
  }

  function StepAt(f: seq<real> -> real, c: Coefficients, states: seq<ParticleState>, i: nat, g: nat, d: ParticleDraws): (r: seq<ParticleState>)
    requires i < |states| && g < |states| && InformantsFit(d.informants, |states|)
    ensures |r| == |states|
  {
    states[i := ParticleStep(f, c, states, i, g, d)]
  }

  predicate SweepDrawsFit(draws: seq<ParticleDraws>, swarmSize: nat)
  {
    |draws| == swarmSize && forall j :: 0 <= j < |draws| ==> InformantsFit(draws[j].informants, swarmSize)
  }

  /** The swarm after the first `i` turns of `update_swarm`, taken in list
      order, each turn seeing the particles already updated.
      `SweepUpTo`, `AfterTurn` and `TurnedParticle` are one recursion over
      `i`, split into three functions only so that the solver unfolds one
      layer at a time; the split carries no meaning of its own. */
  function SweepUpTo(f: seq<real> -> real, c: Coefficients, states: seq<ParticleState>, g: nat, draws: seq<ParticleDraws>, i: nat): (r: seq<ParticleState>)
    requires g < |states| && SweepDrawsFit(draws, |states|) && i <= |states|
    ensures |r| == |states|
    decreases i, 0
  {
    if i == 0 then states else AfterTurn(f, c, states, g, draws, i - 1)
  }

  /** The swarm right after turn `i`: only particle `i` has changed. */
  function AfterTurn(f: seq<real> -> real, c: Coefficients, states: seq<ParticleState>, g: nat, draws: seq<ParticleDraws>, i: nat): (r: seq<ParticleState>)
    requires g < |states| && SweepDrawsFit(draws, |states|) && i < |states|
    ensures |r| == |states|
    decreases i, 2
  {
    SweepUpTo(f, c, states, g, draws, i)[i := TurnedParticle(f, c, states, g, draws, i)]
  }

  /** Particle `i` as its turn leaves it, having seen the swarm after the
      turns before it. */
  function TurnedParticle(f: seq<real> -> real, c: Coefficients, states: seq<ParticleState>, g: nat, draws: seq<ParticleDraws>, i: nat): ParticleState
    requires g < |states| && SweepDrawsFit(draws, |states|) && i < |states|
    decreases i, 1
  {
    ParticleStep(f, c, SweepUpTo(f, c, states, g, draws, i), i, g, draws[i])
  }

  /** One complete `update_swarm`: every particle has had its turn. */
  function Sweep(f: seq<real> -> real, c: Coefficients, states: seq<ParticleState>, g: nat, draws: seq<ParticleDraws>): (r: seq<ParticleState>)
    requires g < |states| && SweepDrawsFit(draws, |states|)
    ensures |r| == |states|
  {
    SweepUpTo(f, c, states, g, draws, |states|)
  }

  /** `update_global_fittest`: the argmin of the swarm replaces the incumbent
      only when it is strictly fitter. Either way the result is a fittest
      particle of the swarm, and a replacement is the first fittest one in
      list order. */
  function RefreshGlobal(f: seq<real> -> real, states: seq<ParticleState>, g: nat): (r: nat)
    requires g < |states|
    ensures r < |states|
    ensures r == g || f(states[r].position) < f(states[g].position)
    ensures forall j :: 0 <= j < |states| ==> f(states[r].position) <= f(states[j].position)
    ensures r != g ==> forall j :: 0 <= j < r ==> f(states[r].position) < f(states[j].position)
  {
    var fits := PositionFitnesses(f, states);
    var k := ArgMin(fits);
    ArgMinIsFirstMin(fits);
    assert forall j :: 0 <= j < |states| ==> fits[j] == f(states[j].position) && fits[k] <= fits[j];
    assert forall j :: 0 <= j < k ==> fits[k] < fits[j];
    if f(states[k].position) < f(states[g].position) then k else g
  }

  lemma SweepUpToNext(f: seq<real> -> real, c: Coefficients, states: seq<ParticleState>, g: nat, draws: seq<ParticleDraws>, i: nat)
    requires g < |states| && SweepDrawsFit(draws, |states|) && i < |states|
    ensures SweepUpTo(f, c, states, g, draws, i + 1) == StepAt(f, c, SweepUpTo(f, c, states, g, draws, i), i, g, draws[i])
  {
    assert TurnedParticle(f, c, states, g, draws, i) == ParticleStep(f, c, SweepUpTo(f, c, states, g, draws, i), i, g, draws[i]);
  }

  /** Moving with a zero velocity leaves the position where it is. */
  lemma AdvanceZero(position: seq<real>, step: real)
    ensures Advance(position, Zeros(|position|), step) == position
  {
  }

  /** The cognitive draw (and with it `follow_personal_best`) never affects a
      step: the personal best and the position are the same vector. */
  lemma ParticleStepIgnoresCognitive(f: seq<real> -> real, c: Coefficients, states: seq<ParticleState>, i: nat, g: nat, d: ParticleDraws)
    requires i < |states| && g < |states| && InformantsFit(d.informants, |states|)
    ensures ParticleStep(f, c, states, i, g, d) == ParticleStep(f, c.(followPersonalBest := 0.0), states, i, g, d.(cognitive := 0.0))
  {
    var s := states[i];
    var moved := Advance(s.position, s.velocity, c.scaleUpdateStep);
    var after := states[i := s.(position := moved)];
    var k := FittestInformant(f, states, d.informants);
    var v := NewVelocity(c.followCurrent, s.velocity, d.cognitive, moved, moved, d.social, after[k].position, d.glob, after[g].position);
    var v0 := NewVelocity(c.followCurrent, s.velocity, 0.0, moved, moved, d.social, after[k].position, d.glob, after[g].position);
    forall j | 0 <= j < |v| ensures v[j] == v0[j] {
      assert At(moved, j) - At(moved, j) == 0.0;
    }
  }

  /** A turn leaves the particles after it as they were. */
  lemma {:induction false} SweepUpToUnprocessed(f: seq<real> -> real, c: Coefficients, states: seq<ParticleState>, g: nat, draws: seq<ParticleDraws>, i: nat, j: nat)
    requires g < |states| && SweepDrawsFit(draws, |states|) && i <= j < |states|
    ensures SweepUpTo(f, c, states, g, draws, i)[j] == states[j]
  {
    if i > 0 { SweepUpToUnprocessed(f, c, states, g, draws, i - 1, j); }
  }

  /** Once a particle has had its turn, later turns leave it as it is. */
  lemma {:induction false} SweepUpToSettled(f: seq<real> -> real, c: Coefficients, states: seq<ParticleState>, g: nat, draws: seq<ParticleDraws>, i: nat, j: nat)
    requires g < |states| && SweepDrawsFit(draws, |states|) && j < i <= |states|
    ensures SweepUpTo(f, c, states, g, draws, i)[j] == SweepUpTo(f, c, states, g, draws, j + 1)[j]
  {
    if i > j + 1 {
      SweepUpToSettled(f, c, states, g, draws, i - 1, j);
      var prev := SweepUpTo(f, c, states, g, draws, i - 1);
      assert SweepUpTo(f, c, states, g, draws, i)[j] == prev[j];
    }
  }

  /** After a sweep every particle's turn used its own state as the sweep left
      it at its turn, and each `previous_fitness` is the fitness of the
      particle's final position. */
  lemma SweepParticle(f: seq<real> -> real, c: Coefficients, states: seq<ParticleState>, g: nat, draws: seq<ParticleDraws>, j: nat)
    requires g < |states| && SweepDrawsFit(draws, |states|) && j < |states|
    ensures Sweep(f, c, states, g, draws)[j] == ParticleStep(f, c, SweepUpTo(f, c, states, g, draws, j), j, g, draws[j])
    ensures SweepUpTo(f, c, states, g, draws, j)[j] == states[j]
    ensures Sweep(f, c, states, g, draws)[j].previousFitness == f(Sweep(f, c, states, g, draws)[j].position)
  {
    SweepUpToSettled(f, c, states, g, draws, |states|, j);
    SweepUpToUnprocessed(f, c, states, g, draws, j, j);
    assert TurnedParticle(f, c, states, g, draws, j) == ParticleStep(f, c, SweepUpTo(f, c, states, g, draws, j), j, g, draws[j]);
  }

  /** The swarm starts with zero velocities, and a particle moves before its
      velocity is recomputed, so the first `update_swarm` after construction
      moves no particle. */
  lemma FirstSweepKeepsPositions(f: seq<real> -> real, c: Coefficients, states: seq<ParticleState>, g: nat, draws: seq<ParticleDraws>)
    requires g < |states| && SweepDrawsFit(draws, |states|)
    requires forall j :: 0 <= j < |states| ==> states[j].velocity == Zeros(|states[j].position|)
    ensures forall j :: 0 <= j < |states| ==> Sweep(f, c, states, g, draws)[j].position == states[j].position
  {
    forall j | 0 <= j < |states| ensures Sweep(f, c, states, g, draws)[j].position == states[j].position {
      SweepParticle(f, c, states, g, draws, j);
      AdvanceZero(states[j].position, c.scaleUpdateStep);
    }
  }

  /** The personal best is not monotone: a particle sitting exactly on the
      target of `Fitness(0, 0).problem_` with a non-zero velocity moves off
      it, and its stored personal best (its position) gets worse. */
  lemma PersonalBestCanWorsen()
    ensures var f := (x: seq<real>) => if |x| == 2 then Objective.Fitness(0.0, 0.0).Problem(x) else 0.0;
            var states := [ParticleState([0.0, 0.0], [1.0, 0.0], 0.0)];
            var c := Coefficients(1.0, 1.0, 1.0, 1.0, 1.0);
            var d := ParticleDraws([0], 0.0, 0.0, 0.0);
            f(states[0].position) == 0.0 && f(ParticleStep(f, c, states, 0, 0, d).position) == 0.5
  {
    var f := (x: seq<real>) => if |x| == 2 then Objective.Fitness(0.0, 0.0).Problem(x) else 0.0;
    var states := [ParticleState([0.0, 0.0], [1.0, 0.0], 0.0)];
    var c := Coefficients(1.0, 1.0, 1.0, 1.0, 1.0);
    var d := ParticleDraws([0], 0.0, 0.0, 0.0);
    var moved := Advance(states[0].position, states[0].velocity, 1.0);
    assert moved == [1.0, 0.0];
    assert Objective.Square(1.0 - 0.0) == 1.0;
    assert Objective.Square(0.0 - 0.0) == 0.0;
  }

  /** A particle. `position` is updated in place and never rebound, so it is a
      constant reference to an array; `fittest_position` is a field that the
      constructor and a strict improvement bind to that very array. */
  class Particle {
    var velocity: seq<real>
    const position: array<real>
    var fittestPosition: array<real>
    const problem: seq<real> -> real
    const id: real
    var previousFitness: real
    const targetX: real
    const targetY: real
    const fitness: Objective.Fitness

    /** The personal best is the position array itself. */
    ghost predicate Valid()
      reads this
    {
      fittestPosition == position
    }

    ghost function State(): ParticleState
      reads this, position
    {
      ParticleState(position[..], velocity, previousFitness)
    }

    /** `Particle(problem, velocity, position, index, target_x, target_y)` */
    constructor (problem: seq<real> -> real, velocity: seq<real>, position: array<real>, index: real, targetX: real, targetY: real)
      ensures Valid()
      ensures this.velocity == velocity && this.position == position && this.problem == problem
      ensures id == index && previousFitness == 10000000.0
      ensures this.targetX == targetX && this.targetY == targetY
      ensures fitness == Objective.Fitness(targetX, targetY)
    {
      this.velocity := velocity;
      this.position := position;
      fittestPosition := position;
      this.problem := problem;
      id := index;
      previousFitness := 10000000.0;
      this.targetX := targetX;
      this.targetY := targetY;
      fitness := Objective.Fitness(targetX, targetY);
    }

    /** `assess_fitness`: the problem at the current position. */
    function AssessFitness(): (r: real)
      reads position
      ensures r == problem(position[..])
    {
      fitness.AssessFitness(position[..], problem)
    }

    /** `update`: move by the old velocity, recompute the velocity from the
        bests as they are after the move, then record the new fitness,
        rebinding the personal best on a strict improvement. */
    method Update(fittestInformant: Particle, globalFittest: Particle, c: Coefficients, cognitive: real, social: real, glob: real)
      requires Valid()
      requires |velocity| == position.Length
      requires fittestInformant.fittestPosition.Length == globalFittest.fittestPosition.Length == position.Length
      requires InUniformRange(cognitive, 0.0, c.followPersonalBest)
      requires InUniformRange(social, 0.0, c.followSocialBest)
      requires InUniformRange(glob, 0.0, c.followGlobalBest)
      modifies this, position
      ensures Valid() && |velocity| == position.Length
      ensures position[..] == Advance(old(position[..]), old(velocity), c.scaleUpdateStep)
      ensures velocity == NewVelocity(c.followCurrent, old(velocity), cognitive, position[..], position[..],
                                      social, fittestInformant.fittestPosition[..], glob, globalFittest.fittestPosition[..])
      ensures previousFitness == problem(position[..])
      ensures fittestPosition == if problem(position[..]) < old(previousFitness) then position else old(fittestPosition)
    {
      ghost var moved := Advance(position[..], velocity, c.scaleUpdateStep);
      forall j | 0 <= j < position.Length {
        position[j] := position[j] + velocity[j] * c.scaleUpdateStep;
      }
      assert forall j :: 0 <= j < position.Length ==> position[j] == moved[j];
      assert position[..] == moved;
      velocity := NewVelocity(c.followCurrent, velocity, cognitive, fittestPosition[..], position[..],
                              social, fittestInformant.fittestPosition[..], glob, globalFittest.fittestPosition[..]);
      var currentFitness := AssessFitness();
      if currentFitness < previousFitness {
        fittestPosition := position;
      }
      previousFitness := currentFitness;
    }
  }

  /** The swarm. The particle list is built once and never rebound; the global
      best is a reference to one of its particles. */
  class PSO {
    const swarmSize: nat
    const numInformants: nat
    const problem: seq<real> -> real
    const targetX: real
    const targetY: real
    const swarm: seq<Particle>
    var globalFittest: Particle
    /** Which particle `globalFittest` is. */
    ghost var globalIndex: nat
    const fitness: Objective.Fitness

    /** The fixed layout of the swarm: at least one particle, each with its
        own position array, each sharing the swarm's problem, all of one
        dimension. It reads only constants, so no update can break it. */
    ghost predicate Layout()
    {
      |swarm| > 0
      && (forall j, k :: 0 <= j < k < |swarm| ==> swarm[j].position != swarm[k].position)
      && (forall j :: 0 <= j < |swarm| ==>
            swarm[j].problem == problem && swarm[j].position.Length == swarm[0].position.Length)
    }

    /** Every particle's personal best is its position, and its velocity has
        the position's dimension. */
    ghost predicate ParticlesValid()
      reads swarm
    {
      forall j :: 0 <= j < |swarm| ==> swarm[j].Valid() && |swarm[j].velocity| == swarm[j].position.Length
    }

    ghost predicate SwarmValid()
      reads swarm
    {
      Layout() && ParticlesValid()
    }

    ghost predicate Valid()
      reads this, swarm
    {
      |swarm| == swarmSize && SwarmValid()
      && globalIndex < |swarm| && globalFittest == swarm[globalIndex]
    }

    /** The particles' states, in list order. */
    ghost function States(): (r: seq<ParticleState>)
      reads swarm, set p | p in swarm :: p.position
      ensures |r| == |swarm|
    {
      seq(|swarm|, j requires 0 <= j < |swarm| reads swarm, set p | p in swarm :: p.position => swarm[j].State())
    }

    /** `PSO(problem, swarm_size, vector_length, target_x, target_y,
        num_informants)`. `initialPositions` are the `np.random.rand` draws and
        `choice` the index `np.random.choice` picks for the global best. The
        arguments reach `Particle` shifted by one place: its `index` gets
        `target_x`, its `target_x` gets `target_y` and its `target_y` gets the
        particle's list index. The source defaults `num_informants` to 2,
        which callers that omit it get; Dafny callers pass it explicitly.
        A negative count is stored without complaint there and only fails in
        `update_swarm`; here the count is a `nat`. */
    constructor (problem: seq<real> -> real, swarmSize: nat, vectorLength: nat, targetX: real, targetY: real,
                 numInformants: nat, initialPositions: seq<seq<real>>, choice: nat)
      requires swarmSize > 0 && choice < swarmSize
      requires |initialPositions| == swarmSize
      requires forall j :: 0 <= j < swarmSize ==> |initialPositions[j]| == vectorLength
      requires forall j, m :: 0 <= j < swarmSize && 0 <= m < vectorLength ==> 0.0 <= initialPositions[j][m] < 1.0
      ensures Valid()
      ensures this.swarmSize == swarmSize && this.numInformants == numInformants && this.problem == problem
      ensures this.targetX == targetX && this.targetY == targetY && fitness == Objective.Fitness(targetX, targetY)
      ensures States() == seq(swarmSize, j requires 0 <= j < swarmSize => ParticleState(initialPositions[j], Zeros(vectorLength), 10000000.0))
      ensures forall j :: 0 <= j < swarmSize ==> swarm[j].id == targetX && swarm[j].targetX == targetY && swarm[j].targetY == j as real
      ensures globalIndex == choice
      ensures forall j :: 0 <= j < swarmSize ==> fresh(swarm[j]) && fresh(swarm[j].position)
    {
      var ps: seq<Particle> := [];
      for j := 0 to swarmSize
        invariant |ps| == j
        invariant forall k :: 0 <= k < j ==> fresh(ps[k]) && fresh(ps[k].position)
        invariant forall k, l :: 0 <= k < l < j ==> ps[k].position != ps[l].position
        invariant forall k :: 0 <= k < j ==>
          ps[k].Valid() && ps[k].problem == problem && ps[k].velocity == Zeros(vectorLength)
          && ps[k].position[..] == initialPositions[k] && ps[k].previousFitness == 10000000.0
          && ps[k].id == targetX && ps[k].targetX == targetY && ps[k].targetY == k as real
      {
        var position := new real[vectorLength](m requires 0 <= m < vectorLength => initialPositions[j][m]);
        assert position[..] == initialPositions[j];
        var particle := new Particle(problem, Zeros(vectorLength), position, targetX, targetY, j as real);
        ps := ps + [particle];
      }
      this.swarmSize := swarmSize;
      this.numInformants := numInformants;
      this.problem := problem;
      this.targetX := targetX;
      this.targetY := targetY;
      swarm := ps;
      globalFittest := ps[choice];
      globalIndex := choice;
      fitness := Objective.Fitness(targetX, targetY);
    }

    /** The fitness of each particle's personal best. */
    function PersonalBestFitnesses(ps: seq<Particle>, problem: seq<real> -> real): (r: seq<real>)
      reads ps, set p | p in ps :: p.fittestPosition
      ensures |r| == |ps|
    {
      seq(|ps|, j requires 0 <= j < |ps| reads ps, set p | p in ps :: p.fittestPosition =>
        fitness.AssessFitness(ps[j].fittestPosition[..], problem))
    }

    /** With the personal best aliased to the position, ranking particles by
        personal best is ranking them by current position. */
    lemma SwarmPick()
      requires SwarmValid()
      ensures FindCurrentBest(swarm, problem) == Some(swarm[ArgMin(PositionFitnesses(problem, States()))])
    {
      var states := States();
      forall j | 0 <= j < |swarm|
        ensures PersonalBestFitnesses(swarm, problem)[j] == PositionFitnesses(problem, states)[j]
      {
        assert swarm[j].Valid() && states[j] == swarm[j].State();
      }
      assert PersonalBestFitnesses(swarm, problem) == PositionFitnesses(problem, states);
    }

    /** `find_current_best` over the particles an informant sample names picks
        the particle `FittestInformant` names. */
    lemma InformantPick(indices: seq<nat>, informants: seq<Particle>)
      requires SwarmValid() && InformantsFit(indices, |swarm|)
      requires |informants| == |indices| && forall m :: 0 <= m < |indices| ==> informants[m] == swarm[indices[m]]
      ensures FindCurrentBest(informants, problem) == Some(swarm[FittestInformant(problem, States(), indices)])
    {
      var states := States();
      var fits := seq(|indices|, m requires 0 <= m < |indices| => problem(states[indices[m]].position));
      forall m | 0 <= m < |indices| ensures PersonalBestFitnesses(informants, problem)[m] == fits[m] {
        assert swarm[indices[m]].Valid() && states[indices[m]] == swarm[indices[m]].State();
      }
      assert PersonalBestFitnesses(informants, problem) == fits;
    }

    /** `find_current_best`: the first particle of `ps` whose personal best is
        fittest, or `None` where `min` of an empty list raises. */
    function FindCurrentBest(ps: seq<Particle>, problem: seq<real> -> real): (r: Option<Particle>)
      reads ps, set p | p in ps :: p.fittestPosition
      ensures r.None? <==> |ps| == 0
      ensures r.Some? ==>
        exists k :: (0 <= k < |ps| && r.value == ps[k]
          && (forall j :: 0 <= j < |ps| ==> problem(ps[k].fittestPosition[..]) <= problem(ps[j].fittestPosition[..]))
          && (forall j :: 0 <= j < k ==> problem(ps[k].fittestPosition[..]) < problem(ps[j].fittestPosition[..])))
    {
      if |ps| == 0 then None
      else
        var fits := PersonalBestFitnesses(ps, problem);
        var k := ArgMin(fits);
        ArgMinIsFirstMin(fits);
        assert forall j :: 0 <= j < |ps| ==> fits[j] == problem(ps[j].fittestPosition[..]);
        Some(ps[k])
    }

    /** The swarm's states after particle `i` alone has taken its step. */
    lemma StatesAfterStep(s0: seq<ParticleState>, i: nat, c: Coefficients, d: ParticleDraws)
      requires |s0| == |swarm| && i < |swarm| && globalIndex < |swarm| && InformantsFit(d.informants, |swarm|)
      requires forall j :: 0 <= j < |swarm| && j != i ==> swarm[j].State() == s0[j]
      requires swarm[i].State() == ParticleStep(problem, c, s0, i, globalIndex, d)
      ensures States() == StepAt(problem, c, s0, i, globalIndex, d)
    {
    }

    /** The particles named by the informant draw `np.random.choice` made,
        and the fittest of them by `find_current_best`. */
    method PickInformant(indices: seq<nat>) returns (fittest: Particle)
      requires SwarmValid() && InformantsFit(indices, |swarm|)
      ensures fittest == swarm[FittestInformant(problem, States(), indices)]
      ensures fittest in swarm
    {
      var informants := seq(|indices|, m requires 0 <= m < |indices| => swarm[indices[m]]);
      var best := FindCurrentBest(informants, problem);
      InformantPick(indices, informants);
      fittest := best.value;
    }

    /** One turn of the loop of `update_swarm`: draw the informants, pick the
        fittest of them, and update particle `i`. The particle is never added
        to its own informants: `np.append` returns a new array that is
        dropped. */
    method UpdateParticle(i: nat, c: Coefficients, d: ParticleDraws)
      requires Valid() && i < |swarm| && numInformants > 0 && DrawsFit(d, |swarm|, numInformants, c)
      modifies swarm[i], swarm[i].position
      ensures Valid()
      ensures States() == StepAt(problem, c, old(States()), i, globalIndex, d)
    {
      ghost var s0 := States();
      var fittestInformant := PickInformant(d.informants);
      ghost var k := FittestInformant(problem, s0, d.informants);
      var particle := swarm[i];
      particle.Update(fittestInformant, globalFittest, c, d.cognitive, d.social, d.glob);
      ghost var moved := Advance(s0[i].position, s0[i].velocity, c.scaleUpdateStep);
      ghost var after := s0[i := s0[i].(position := moved)];
      forall j | 0 <= j < |swarm| && j != i
        ensures swarm[j].State() == s0[j] && swarm[j].Valid()
      {
        assert swarm[j] != swarm[i];
      }
      assert swarm[k].fittestPosition[..] == after[k].position;
      assert globalFittest.fittestPosition[..] == after[globalIndex].position;
      assert swarm[i].State() == ParticleStep(problem, c, s0, i, globalIndex, d);
      StatesAfterStep(s0, i, c, d);
    }

    /** Turn `i` of `update_swarm` carries the swarm from the state after
        `i` turns to the state after `i + 1`. */
    method Turn(i: nat, c: Coefficients, draws: seq<ParticleDraws>, ghost s0: seq<ParticleState>)
      requires Valid() && i < |swarm| && numInformants > 0 && |draws| == |swarm|
      requires DrawsFit(draws[i], |swarm|, numInformants, c)
      requires |s0| == |swarm| && SweepDrawsFit(draws, |swarm|)
      requires States() == SweepUpTo(problem, c, s0, globalIndex, draws, i)
      modifies swarm[i], swarm[i].position
      ensures Valid()
      ensures States() == SweepUpTo(problem, c, s0, globalIndex, draws, i + 1)
    {
      UpdateParticle(i, c, draws[i]);
      SweepUpToNext(problem, c, s0, globalIndex, draws, i);
    }

    /** The loop of `update_swarm`, once the informant count is known to be
        positive: every particle in list order takes its turn. */
    method SweepAll(c: Coefficients, draws: seq<ParticleDraws>)
      requires Valid() && numInformants > 0 && SweepDrawsFit(draws, |swarm|)
      requires forall j :: 0 <= j < |draws| ==> DrawsFit(draws[j], |swarm|, numInformants, c)
      modifies set p | p in swarm :: p, set p | p in swarm :: p.position
      ensures Valid() && globalIndex == old(globalIndex)
      ensures States() == Sweep(problem, c, old(States()), globalIndex, draws)
    {
      ghost var s0 := States();
      for i := 0 to |swarm|
        invariant Valid() && globalIndex == old(globalIndex)
        invariant States() == SweepUpTo(problem, c, s0, globalIndex, draws, i)
      {
        Turn(i, c, draws, s0);
      }
    }

    /** `update_swarm`: every particle in list order takes its turn, seeing
        the particles updated before it. With no informants the first turn
        raises (`min` of an empty list) before anything has changed. */
    method UpdateSwarm(c: Coefficients, draws: seq<ParticleDraws>) returns (ok: bool)
      requires Valid() && |draws| == |swarm|
      requires forall j :: 0 <= j < |draws| ==> DrawsFit(draws[j], |swarm|, numInformants, c)
      modifies set p | p in swarm :: p, set p | p in swarm :: p.position
      ensures Valid() && globalIndex == old(globalIndex)
      ensures ok <==> numInformants > 0
      ensures ok ==> SweepDrawsFit(draws, |swarm|) && States() == Sweep(problem, c, old(States()), globalIndex, draws)
      ensures !ok ==> States() == old(States())
    {
      if numInformants == 0 {
        return false;
      }
      assert SweepDrawsFit(draws, |swarm|) by {
        forall j | 0 <= j < |draws| ensures InformantsFit(draws[j].informants, |swarm|) {
          assert DrawsFit(draws[j], |swarm|, numInformants, c);
        }
      }
      SweepAll(c, draws);
      return true;
    }

    /** `update_global_fittest`: the swarm's fittest particle (by personal
        best) replaces the global best only when its current fitness is
        strictly lower. */
    method UpdateGlobalFittest()
      requires Valid()
      modifies this
      ensures Valid()
      ensures globalIndex == RefreshGlobal(problem, States(), old(globalIndex))
    {
      ghost var states := States();
      ghost var k := ArgMin(PositionFitnesses(problem, states));
      var fittest := FindCurrentBest(swarm, problem);
      SwarmPick();
      assert fittest.value.AssessFitness() == problem(states[k].position) by {
        assert states[k] == swarm[k].State();
      }
      assert globalFittest.AssessFitness() == problem(states[globalIndex].position) by {
        assert states[globalIndex] == swarm[globalIndex].State();
      }
      var globalFittestFitness := globalFittest.AssessFitness();
      if fittest.value.AssessFitness() < globalFittestFitness {
        globalFittest := fittest.value;
        globalIndex := k;
      }
      assert States() == states;
    }

    /** `improve`: a sweep, then the global refresh. */
    method Improve(c: Coefficients, draws: seq<ParticleDraws>) returns (ok: bool)
      requires Valid() && |draws| == |swarm|
      requires forall j :: 0 <= j < |draws| ==> DrawsFit(draws[j], |swarm|, numInformants, c)
      modifies this, set p | p in swarm :: p, set p | p in swarm :: p.position
      ensures Valid()
      ensures ok <==> numInformants > 0
      ensures ok ==> SweepDrawsFit(draws, |swarm|) && States() == Sweep(problem, c, old(States()), old(globalIndex), draws)
                     && globalIndex == RefreshGlobal(problem, States(), old(globalIndex))
      ensures !ok ==> States() == old(States()) && globalIndex == old(globalIndex)
    {
      ok := UpdateSwarm(c, draws);
      if ok {
        UpdateGlobalFittest();
      }
    }
  }
}

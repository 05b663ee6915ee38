/**
 * The script's global game state and the operations that drive a training run: building
 * one rocket per genome (createRockets), one frame of every rocket (updateRockets), the
 * generational replacement (evolve), the training branch of gameLoop that chooses between
 * them, saving the best genome, the acceleration toggle and the duel's win check.
 *
 * neataptic's operations are inputs: neat.sort is given as the order it produces,
 * neat.getOffspring as the networks it breeds, and neat.mutate as a function from a
 * population index and a network to the mutated network. Math.random() draws are inputs too.
 */
module Game {
  import opened Numerics
  import opened World
  import opened Neat
  import opened Physics
  import opened Drift
  import opened Bodies

  datatype Option<T> = None | Some(value: T)

  /** Who wins the duel against the trained AI. */
  datatype Winner = PlayerWins | AIWins

  /** One frame of a centerTime counter: one more frame in the area, or back to 0. */
  function Dwell(count: nat, inArea: bool): nat {
    if inArea then count + 1 else 0
  }

  /** The counter after a run of frames, `frames[k]` saying whether frame k was in the area. */
  function DwellAfter(count: nat, frames: seq<bool>): nat {
    if |frames| == 0 then count
    else Dwell(DwellAfter(count, frames[..|frames| - 1]), frames[|frames| - 1])
  }

  /**
   * A counter is never more than its starting value plus the frames since, and every one of
   * the last `DwellAfter` frames (as far as the run reaches back) was spent in the area: a
   * counter of WIN_TIME after a run from 0 means WIN_TIME consecutive frames in the area.
   */
  lemma {:induction false} DwellIsStreak(count: nat, frames: seq<bool>)
    ensures DwellAfter(count, frames) <= count + |frames|
    ensures forall j :: 0 <= j < |frames| && |frames| - j <= DwellAfter(count, frames) ==> frames[j]
    ensures 0 < |frames| && !frames[|frames| - 1] ==> DwellAfter(count, frames) == 0
  {
    if |frames| > 0 {
      var prefix := frames[..|frames| - 1];
      DwellIsStreak(count, prefix);
      forall j | 0 <= j < |frames| && |frames| - j <= DwellAfter(count, frames)
        ensures frames[j]
      {
        if j < |prefix| {
          assert frames[j] == prefix[j];
        }
      }
    }
  }

  /** Conversely, n frames in a row in the area, ending now, raise the counter to at least n. */
  lemma {:induction false} StreakCounts(count: nat, frames: seq<bool>, n: nat)
    requires n <= |frames| && forall j :: |frames| - n <= j < |frames| ==> frames[j]
    ensures DwellAfter(count, frames) >= n
  {
    if n > 0 {
      var prefix := frames[..|frames| - 1];
      forall j | |prefix| - (n - 1) <= j < |prefix|
        ensures prefix[j]
      {
        assert prefix[j] == frames[j];
      }
      StreakCounts(count, prefix, n - 1);
      assert frames[|frames| - 1];
    }
  }

  /**
   * The states a list of rockets reaches in one frame toward the same target, each flying its
   * own network: what updateRockets makes of them. The defining equation is only brought to
   * bear where a proof already speaks of that rocket's frame.
   */
  lemma FrameStates(before: seq<RocketState>, nets: seq<Network>, activate: Activation, dt: real,
                    mode: GameMode, c: CollectionState, m: MathLib) returns (after: seq<RocketState>)
    requires |nets| == |before|
    ensures |after| == |before|
    ensures forall j {:trigger RocketFrame(before[j], nets[j], activate, dt, mode, c, m)} :: 0 <= j < |before| ==>
      after[j] == RocketFrame(before[j], nets[j], activate, dt, mode, c, m)
  {
    after := seq(|before|, j requires 0 <= j < |before| => RocketFrame(before[j], nets[j], activate, dt, mode, c, m));
  }

  /** The target after k sub-steps of the training branch, sub-step j using the draws draws[j]. */
  function TargetAfter(c: CollectionState, draws: seq<TargetDraw>, k: nat): CollectionState
    requires k <= |draws|
  {
    if k == 0 then c else UpdateCollectionPosition(TargetAfter(c, draws, k - 1), draws[k - 1], 1.0)
  }

  /** One frame of a rocket flying `net`, as a function of its own state and the target's. */
  function FrameOf(net: Network, activate: Activation, mode: GameMode, m: MathLib): (RocketState, CollectionState) -> RocketState {
    (r: RocketState, t: CollectionState) => RocketFrame(r, net, activate, 1.0, mode, t, m)
  }

  /** A frame that leaves an inactive rocket as it is. */
  ghost predicate KeepsInactive(frame: (RocketState, CollectionState) -> RocketState) {
    forall r: RocketState, t: CollectionState :: !r.active ==> frame(r, t) == r
  }

  /** A frame that never switches a rocket on. */
  ghost predicate NeverActivates(frame: (RocketState, CollectionState) -> RocketState) {
    forall r: RocketState, t: CollectionState :: frame(r, t).active ==> r.active
  }

  /** updateRockets' frame of a rocket skips it when inactive and never switches it on. */
  lemma FrameLaws(net: Network, activate: Activation, mode: GameMode, m: MathLib)
    ensures KeepsInactive(FrameOf(net, activate, mode, m))
    ensures NeverActivates(FrameOf(net, activate, mode, m))
  {
    forall r: RocketState, t: CollectionState | !r.active
      ensures FrameOf(net, activate, mode, m)(r, t) == r
    {
      TickInactive(r, activate(net, NeuralInputs(Aged(r), t, m)), 1.0, mode, t, m);
    }
  }

  /**
   * A rocket after k sub-steps of `frame`: in each one the target moves first, and the rocket
   * then flies one frame toward where the target now is.
   */
  function RocketAfter(s: RocketState, frame: (RocketState, CollectionState) -> RocketState, c: CollectionState,
                       draws: seq<TargetDraw>, k: nat): RocketState
    requires k <= |draws|
  {
    if k == 0 then s else frame(RocketAfter(s, frame, c, draws, k - 1), TargetAfter(c, draws, k))
  }

  /** Rocket i of the generation s0, flying the network nets0[i], is still active after k sub-steps. */
  ghost predicate ActiveAfter(s0: seq<RocketState>, nets0: seq<Network>, c0: CollectionState, draws: seq<TargetDraw>,
                              activate: Activation, mode: GameMode, m: MathLib, k: nat, i: nat)
  {
    k <= |draws| && i < |s0| && i < |nets0| && RocketAfter(s0[i], FrameOf(nets0[i], activate, mode, m), c0, draws, k).active
  }

  /**
   * allRocketsInactive ends a generation because an inactive rocket never changes again: it is
   * the same after any number of sub-steps.
   */
  lemma {:induction false} InactiveStaysPut(s: RocketState, frame: (RocketState, CollectionState) -> RocketState,
                                            c: CollectionState, draws: seq<TargetDraw>, k: nat)
    requires k <= |draws| && !s.active && KeepsInactive(frame)
    ensures RocketAfter(s, frame, c, draws, k) == s
  {
    if k > 0 {
      InactiveStaysPut(s, frame, c, draws, k - 1);
    }
  }

  /** A rocket active after some sub-steps was active at every earlier one: none is switched back on. */
  lemma {:induction false} NeverReactivated(s: RocketState, frame: (RocketState, CollectionState) -> RocketState,
                                            c: CollectionState, draws: seq<TargetDraw>, j: nat, k: nat)
    requires j <= k <= |draws| && NeverActivates(frame)
    requires RocketAfter(s, frame, c, draws, k).active
    ensures RocketAfter(s, frame, c, draws, j).active
  {
    if j < k {
      assert RocketAfter(s, frame, c, draws, k - 1).active;
      NeverReactivated(s, frame, c, draws, j, k - 1);
    }
  }

  /**
   * Over the sub-steps of a frame the target keeps its size, and after at least one of them its
   * speeds lie in [-5, 5] and, if it fits, it lies in the drift box.
   */
  lemma {:induction false} TargetAfterInBox(c: CollectionState, draws: seq<TargetDraw>, k: nat)
    requires k <= |draws|
    ensures var t := TargetAfter(c, draws, k);
      && t.width == c.width && t.height == c.height
      && (k > 0 ==>
            && -COLLECTION_MAX_SPEED <= t.speedX <= COLLECTION_MAX_SPEED
            && -COLLECTION_MAX_SPEED <= t.speedY <= COLLECTION_MAX_SPEED
            && (c.width <= CANVAS_WIDTH * (1.0 - 2.0 * COLLECTION_MARGIN) ==> LEFT_EDGE <= t.x <= RightEdge(t))
            && (c.height <= CANVAS_HEIGHT * (1.0 - 2.0 * COLLECTION_MARGIN) ==> TOP_EDGE <= t.y <= BottomEdge(t)))
  {
    if k > 0 {
      var p := TargetAfter(c, draws, k - 1);
      TargetAfterInBox(c, draws, k - 1);
      SpeedBounded(p, draws[k - 1], 1.0);
      PositionInBox(p, draws[k - 1], 1.0);
    }
  }

  /** The globals of the script that training and the duel read and write. */
  class Simulation {
    /** The rockets of the current generation, rockets[i] flying neat.population[i]. */
    var rockets: seq<Rocket>
    /** neat.population. */
    var population: seq<Genome>
    var generation: nat
    var currentFrame: nat
    var bestFitness: real
    var playMode: bool
    var savedGenome: Genome?
    var accelerationFactor: nat
    var gameMode: GameMode
    var centerTimePlayer: nat
    var centerTimeAI: nat
    /** The gate of gameLoop's training branch; only startPlayAgainstAI writes it, to false. */
    var isTraining: bool
    /** window.centralCollection. */
    const target: Collection

    /**
     * initializeGame followed by resetSimulation: the target as initializeGame places it (two
     * Math.random() draws crx, cry), neataptic's initial population, counters at 0, training
     * mode at normal speed, and one fresh rocket per genome at the spawn point drawn from rx, ry.
     */
    constructor (genomes: seq<Genome>, crx: real, cry: real, rx: real, ry: real)
      requires |genomes| == POPULATION_SIZE
      requires forall i, j :: 0 <= i < j < |genomes| ==> genomes[i] != genomes[j]
      ensures Valid() && population == genomes
      ensures fresh(target) && target.State() == InitialCollection(crx, cry)
      ensures forall i :: 0 <= i < |rockets| ==> fresh(rockets[i]) && rockets[i].State() == Spawned(SpawnX(rx), SpawnY(ry))
      ensures generation == 0 && currentFrame == 0 && bestFitness == 0.0
      ensures !playMode && savedGenome == null && accelerationFactor == 1 && gameMode == Training
      ensures centerTimePlayer == 0 && centerTimeAI == 0 && isTraining
    {
      population := genomes;
      rockets := [];
      generation, currentFrame, bestFitness := 0, 0, 0.0;
      playMode, savedGenome := false, null;
      accelerationFactor, gameMode := 1, Training;
      centerTimePlayer, centerTimeAI := 0, 0;
      isTraining := true;
      target := new Collection(crx, cry);
      new;
      CreateRockets(rx, ry);
    }

    /**
     * The population has neat.popsize distinct genomes and the rockets are bound to them one
     * to one, in population order.
     */
    ghost predicate Valid()
      reads this`population, this`rockets
    {
      && |population| == POPULATION_SIZE
      && |rockets| == |population|
      && (forall i :: 0 <= i < |rockets| ==> rockets[i].brain == population[i])
      && (forall i, j :: 0 <= i < j < |population| ==> population[i] != population[j])
    }

    /**
     * allRocketsInactive outside play mode: no rocket of the generation is still active. Such a
     * generation can no longer change (InactiveGenerationFrozen), which is why gameLoop evolves then.
     */
    predicate AllRocketsInactive()
      reads this, rockets
    {
      forall i :: 0 <= i < |rockets| ==> !rockets[i].active
    }

    /** Once every rocket is inactive, any number of further sub-steps leaves every rocket where it is. */
    lemma InactiveGenerationFrozen(activate: Activation, m: MathLib, draws: seq<TargetDraw>, k: nat)
      requires Valid() && AllRocketsInactive() && k <= |draws|
      ensures forall i :: 0 <= i < |rockets| ==>
        RocketAfter(rockets[i].State(), FrameOf(population[i].net, activate, gameMode, m), target.State(), draws, k) == rockets[i].State()
    {
      forall i | 0 <= i < |rockets|
        ensures RocketAfter(rockets[i].State(), FrameOf(population[i].net, activate, gameMode, m), target.State(), draws, k) == rockets[i].State()
      {
        FrameLaws(population[i].net, activate, gameMode, m);
        InactiveStaysPut(rockets[i].State(), FrameOf(population[i].net, activate, gameMode, m), target.State(), draws, k);
      }
    }

    /**
     * `order` is what neat.sort() leaves: a rearrangement of the population indices by
     * decreasing score.
     */
    ghost predicate SortedOrder(order: seq<nat>)
      reads this, population
    {
      && |order| == |population|
      && (forall i :: 0 <= i < |order| ==> order[i] < |population|)
      && (forall i, j :: 0 <= i < j < |order| ==> order[i] != order[j])
      && (forall i, j :: 0 <= i < j < |order| ==> population[order[i]].score >= population[order[j]].score)
    }

    /**
     * createRockets outside play mode: one fresh rocket per genome, in population order,
     * every one at rest at the same random spawn point.
     */
    method CreateRockets(rx: real, ry: real)
      modifies this`rockets
      ensures |rockets| == |population|
      ensures forall i :: 0 <= i < |rockets| ==>
        && fresh(rockets[i])
        && rockets[i].brain == population[i]
        && rockets[i].State() == Spawned(SpawnX(rx), SpawnY(ry))
      ensures forall i, j :: 0 <= i < j < |rockets| ==> rockets[i] != rockets[j]
    {
      var spawnX := SpawnX(rx);
      var spawnY := SpawnY(ry);
      var created: seq<Rocket> := [];
      var i := 0;
      while i < |population|
        invariant 0 <= i <= |population|
        invariant |created| == i
        invariant forall j :: 0 <= j < i ==>
          && fresh(created[j])
          && created[j].brain == population[j]
          && created[j].State() == Spawned(spawnX, spawnY)
        invariant forall j, k :: 0 <= j < k < i ==> created[j] != created[k]
      {
        var rocket := new Rocket(spawnX, spawnY, population[i]);
        created := created + [rocket];
        i := i + 1;
      }
      rockets := created;
    }

    /**
     * updateRockets: every rocket, in order, flies one frame toward the target with its own
     * brain; inactive rockets are skipped, and each active rocket's genome gets its fitness
     * as score. Networks are not changed.
     */
    method UpdateRockets(dt: real, activate: Activation, m: MathLib)
      requires Valid()
      modifies rockets, population
      ensures forall i {:trigger rockets[i].State()} :: 0 <= i < |rockets| ==>
        rockets[i].State() == RocketFrame(old(rockets[i].State()), population[i].net, activate, dt, gameMode, target.State(), m)
      ensures forall i :: 0 <= i < |population| ==>
        && population[i].net == old(population[i].net)
        && population[i].score == (if old(rockets[i].active) then rockets[i].fitness else old(population[i].score))
    {
      var c, mode := target.State(), gameMode;
      var rs, ps := rockets, population;
      ghost var before := seq(|rs|, j requires 0 <= j < |rs| reads rs => rs[j].State());
      ghost var nets := seq(|ps|, j requires 0 <= j < |ps| reads ps => ps[j].net);
      ghost var scores := seq(|ps|, j requires 0 <= j < |ps| reads ps => ps[j].score);
      ghost var after := FrameStates(before, nets, activate, dt, mode, c, m);
      var i := 0;
      while i < |rockets|
        invariant 0 <= i <= |rockets|
        invariant forall j :: 0 <= j < |population| ==> population[j].net == nets[j]
        invariant forall j :: 0 <= j < i ==>
          && rockets[j].State() == after[j]
          && population[j].score == (if before[j].active then after[j].fitness else scores[j])
        invariant forall j :: i <= j < |rockets| ==>
          rockets[j].State() == before[j] && population[j].score == scores[j]
      {
        assert rockets[i].State() == before[i];
        UpdateRocket(i, dt, activate, mode, c, m);
        assert population[i].net == nets[i];
        assert rockets[i].State() == after[i];
        i := i + 1;
      }
      forall k | 0 <= k < |rockets|
        ensures rockets[k].State() == RocketFrame(old(rockets[k].State()), population[k].net, activate, dt, gameMode, target.State(), m)
      {
        assert before[k] == old(rockets[k].State()) && nets[k] == population[k].net;
      }
    }

    /**
     * The forEach body of updateRockets for rockets[i]; no other rocket or genome changes, as
     * every rocket has a brain of its own.
     */
    method UpdateRocket(i: nat, dt: real, activate: Activation, mode: GameMode, c: CollectionState, m: MathLib)
      requires Valid() && i < |rockets|
      modifies rockets[i], population[i]
      ensures population[i].net == old(population[i].net)
      ensures rockets[i].State() == RocketFrame(old(rockets[i].State()), population[i].net, activate, dt, mode, c, m)
      ensures population[i].score == (if old(rockets[i].active) then rockets[i].fitness else old(population[i].score))
      ensures forall j :: 0 <= j < |rockets| && j != i ==>
        rockets[j].State() == old(rockets[j].State()) && population[j].score == old(population[j].score)
    {
      rockets[i].Update(dt, activate, mode, c, m);
    }

    /**
     * evolve. In play mode nothing happens. Otherwise the new population is the first
     * ELITISM genomes in neat.sort's order (the same objects), then the offspring as fresh
     * genomes; neat.mutate() then mutates every member, elites included. The generation
     * counter rises by one, the frame counter and bestFitness are reset, and a fresh rocket
     * is made for every genome at a new spawn point.
     */
    method Evolve(order: seq<nat>, offspring: seq<Network>, mutate: (nat, Network) -> Network, rx: real, ry: real)
      requires Valid() && SortedOrder(order)
      requires |offspring| == POPULATION_SIZE - ELITISM
      modifies this, population
      ensures old(playMode) ==> unchanged(this) && forall i :: 0 <= i < |population| ==> unchanged(population[i])
      ensures !old(playMode) ==> Evolved(order, offspring, mutate, rx, ry)
    {
      if playMode {
        return;
      }
      Repopulate(order, offspring, mutate);
      generation := generation + 1;
      currentFrame := 0;
      bestFitness := 0.0;
      CreateRockets(rx, ry);
    }

    /**
     * The state evolve leaves outside play mode: the first ELITISM genomes are the best ones in
     * neat.sort's order (the same objects, mutated, their scores kept), the rest are fresh
     * mutated offspring, the generation counter is one higher, the frame counter and
     * bestFitness are 0, every genome has a fresh rocket at the new spawn point, and nothing
     * else has changed.
     */
    twostate predicate Evolved(order: seq<nat>, offspring: seq<Network>, mutate: (nat, Network) -> Network, rx: real, ry: real)
      requires |order| >= ELITISM && forall i :: 0 <= i < ELITISM ==> order[i] < |old(population)|
      requires |offspring| == POPULATION_SIZE - ELITISM
      reads this, population, rockets
    {
      && Valid()
      && (forall i :: 0 <= i < ELITISM ==>
            population[i] == old(population[order[i]])
            && population[i].net == mutate(i, old(population[order[i]].net))
            && population[i].score == old(population[order[i]].score))
      && (forall i :: ELITISM <= i < POPULATION_SIZE ==>
            fresh(population[i])
            && population[i].net == mutate(i, offspring[i - ELITISM])
            && population[i].score == 0.0)
      && generation == old(generation) + 1
      && currentFrame == 0
      && bestFitness == 0.0
      && (forall i :: 0 <= i < |rockets| ==> fresh(rockets[i]) && rockets[i].State() == Spawned(SpawnX(rx), SpawnY(ry)))
      && playMode == old(playMode) && gameMode == old(gameMode) && savedGenome == old(savedGenome)
      && accelerationFactor == old(accelerationFactor) && isTraining == old(isTraining)
      && centerTimePlayer == old(centerTimePlayer) && centerTimeAI == old(centerTimeAI)
    }

    /**
     * neat.population = newPopulation followed by neat.mutate(): the elites in neat.sort's
     * order and the fresh offspring, every one of them mutated.
     */
    method Repopulate(order: seq<nat>, offspring: seq<Network>, mutate: (nat, Network) -> Network)
      requires Valid() && SortedOrder(order)
      requires |offspring| == POPULATION_SIZE - ELITISM
      modifies this`population, population
      ensures |population| == POPULATION_SIZE
      ensures forall i, j :: 0 <= i < j < |population| ==> population[i] != population[j]
      ensures forall i :: 0 <= i < ELITISM ==>
        && population[i] == old(population[order[i]])
        && population[i].net == mutate(i, old(population[order[i]].net))
        && population[i].score == old(population[order[i]].score)
      ensures forall i :: ELITISM <= i < POPULATION_SIZE ==>
        && fresh(population[i])
        && population[i].net == mutate(i, offspring[i - ELITISM])
        && population[i].score == 0.0
    {
      var newPopulation := Breed(order, offspring);
      population := newPopulation;
      MutateAll(mutate);
    }

    /**
     * The two push loops of evolve: the first ELITISM genomes in neat.sort's order, then one
     * fresh, unscored genome per offspring network, with no genome twice.
     */
    method Breed(order: seq<nat>, offspring: seq<Network>) returns (newPopulation: seq<Genome>)
      requires Valid() && SortedOrder(order)
      requires |offspring| == POPULATION_SIZE - ELITISM
      ensures |newPopulation| == POPULATION_SIZE
      ensures forall j :: 0 <= j < ELITISM ==> newPopulation[j] == population[order[j]]
      ensures forall j :: ELITISM <= j < POPULATION_SIZE ==>
        fresh(newPopulation[j]) && newPopulation[j].net == offspring[j - ELITISM] && newPopulation[j].score == 0.0
      ensures forall j, k :: 0 <= j < k < POPULATION_SIZE ==> newPopulation[j] != newPopulation[k]
    {
      newPopulation := [];
      var i := 0;
      while i < ELITISM
        invariant 0 <= i <= ELITISM
        invariant |newPopulation| == i
        invariant forall j :: 0 <= j < i ==> newPopulation[j] == population[order[j]]
      {
        newPopulation := newPopulation + [population[order[i]]];
        i := i + 1;
      }
      i := 0;
      while i < POPULATION_SIZE - ELITISM
        invariant 0 <= i <= POPULATION_SIZE - ELITISM
        invariant |newPopulation| == ELITISM + i
        invariant forall j :: 0 <= j < ELITISM ==> newPopulation[j] == population[order[j]]
        invariant forall j :: ELITISM <= j < ELITISM + i ==>
          fresh(newPopulation[j]) && newPopulation[j].net == offspring[j - ELITISM] && newPopulation[j].score == 0.0
        invariant forall j, k :: ELITISM <= j < k < ELITISM + i ==> newPopulation[j] != newPopulation[k]
      {
        var child := new Genome(offspring[i]);
        newPopulation := newPopulation + [child];
        i := i + 1;
      }
      DistinctPopulation(order, newPopulation);
    }

    /** The population assembled by evolve has no genome twice. */
    lemma DistinctPopulation(order: seq<nat>, bred: seq<Genome>)
      requires Valid() && SortedOrder(order)
      requires |bred| == POPULATION_SIZE
      requires forall j :: 0 <= j < ELITISM ==> bred[j] == population[order[j]]
      requires forall j :: ELITISM <= j < POPULATION_SIZE ==> bred[j] !in population
      requires forall j, k :: ELITISM <= j < k < POPULATION_SIZE ==> bred[j] != bred[k]
      ensures forall j, k :: 0 <= j < k < POPULATION_SIZE ==> bred[j] != bred[k]
    {
    }

    /** neat.mutate(): every genome of the population has its network replaced by a mutation of it. */
    method MutateAll(mutate: (nat, Network) -> Network)
      requires forall i, j :: 0 <= i < j < |population| ==> population[i] != population[j]
      modifies population
      ensures forall i :: 0 <= i < |population| ==> population[i].net == mutate(i, old(population[i].net))
      ensures forall i :: 0 <= i < |population| ==> population[i].score == old(population[i].score)
    {
      var i := 0;
      while i < |population|
        invariant 0 <= i <= |population|
        invariant forall j :: 0 <= j < i ==> population[j].net == mutate(j, old(population[j].net))
        invariant forall j :: i <= j < |population| ==> population[j].net == old(population[j].net)
        invariant forall j :: 0 <= j < |population| ==> population[j].score == old(population[j].score)
      {
        population[i].net := mutate(i, population[i].net);
        i := i + 1;
      }
    }

    /**
     * The training branch of gameLoop (isTraining) for one animation frame. Outside play mode,
     * when the generation is over (LIFESPAN frames, or no active rocket) it evolves. Otherwise
     * it runs up to accelerationFactor sub-steps of one target move, one rocket frame and one
     * frame count each, stopping early once LIFESPAN is reached or every rocket is inactive.
     * `draws[k]` are the Math.random() values of sub-step k. In play mode nothing happens here.
     */
    method TrainingFrame(draws: seq<TargetDraw>, activate: Activation, m: MathLib,
                         order: seq<nat>, offspring: seq<Network>, mutate: (nat, Network) -> Network,
                         rx: real, ry: real)
      returns (evolved: bool, steps: nat)
      requires isTraining && Valid() && SortedOrder(order)
      requires |offspring| == POPULATION_SIZE - ELITISM
      requires |draws| >= accelerationFactor
      modifies this, rockets, population, target
      ensures Valid()
      ensures accelerationFactor == old(accelerationFactor) && playMode == old(playMode) && isTraining
      ensures evolved <==> !old(playMode) && (old(currentFrame) >= LIFESPAN || old(AllRocketsInactive()))
      ensures old(playMode) ==> !evolved && steps == 0
      ensures evolved ==> Evolved(order, offspring, mutate, rx, ry) && steps == 0 && target.State() == old(target.State())
      ensures !evolved ==>
        && steps <= accelerationFactor
        && target.State() == TargetAfter(old(target.State()), draws, steps)
        && population == old(population) && rockets == old(rockets)
        && (forall i :: 0 <= i < |rockets| ==>
              rockets[i].State() == RocketAfter(old(rockets[i].State()), FrameOf(population[i].net, activate, gameMode, m), old(target.State()), draws, steps))
        && (forall i :: 0 <= i < |population| ==>
              && population[i].net == old(population[i].net)
              && population[i].score == (if steps > 0 && old(rockets[i].active) then rockets[i].fitness else old(population[i].score)))
        && currentFrame == old(currentFrame) + steps
        && (old(currentFrame) < LIFESPAN ==> currentFrame <= LIFESPAN)
        && (steps > 1 ==>
              && old(currentFrame) + steps - 1 < LIFESPAN
              && exists i {:trigger RocketAfter(old(rockets[i].State()), FrameOf(population[i].net, activate, gameMode, m), old(target.State()), draws, steps - 1)} ::
                   0 <= i < |rockets| &&
                   RocketAfter(old(rockets[i].State()), FrameOf(population[i].net, activate, gameMode, m), old(target.State()), draws, steps - 1).active)
        && generation == old(generation) && bestFitness == old(bestFitness) && savedGenome == old(savedGenome)
        && gameMode == old(gameMode) && centerTimePlayer == old(centerTimePlayer) && centerTimeAI == old(centerTimeAI)
        && (!old(playMode) && accelerationFactor > 0 ==> steps > 0)
        && (steps < accelerationFactor && !old(playMode) ==> currentFrame >= LIFESPAN || AllRocketsInactive())
    {
      evolved := (currentFrame >= LIFESPAN || AllRocketsInactive()) && !playMode;
      if evolved {
        Evolve(order, offspring, mutate, rx, ry);
        steps := 0;
      } else {
        steps := RunSubSteps(draws, activate, m);
      }
    }

    /**
     * The sub-step loop of the training branch: at most accelerationFactor rounds of one target
     * move, one frame of every rocket and one frame count, leaving the loop once LIFESPAN is
     * reached or no rocket is active. The loop belongs to the `!playMode` branch, so in play mode
     * it runs no round.
     */
    method RunSubSteps(draws: seq<TargetDraw>, activate: Activation, m: MathLib) returns (steps: nat)
      requires Valid() && |draws| >= accelerationFactor
      modifies this`currentFrame, rockets, population, target
      ensures steps <= accelerationFactor
      ensures target.State() == TargetAfter(old(target.State()), draws, steps)
      ensures forall i :: 0 <= i < |rockets| ==>
        rockets[i].State() == RocketAfter(old(rockets[i].State()), FrameOf(population[i].net, activate, gameMode, m), old(target.State()), draws, steps)
      ensures forall i :: 0 <= i < |population| ==>
        && population[i].net == old(population[i].net)
        && population[i].score == (if steps > 0 && old(rockets[i].active) then rockets[i].fitness else old(population[i].score))
      ensures currentFrame == old(currentFrame) + steps
      ensures playMode ==> steps == 0
      ensures !playMode && accelerationFactor > 0 ==> steps > 0
      ensures old(currentFrame) < LIFESPAN ==> currentFrame <= LIFESPAN
      ensures steps < accelerationFactor && !playMode ==> currentFrame >= LIFESPAN || AllRocketsInactive()
      ensures steps > 1 ==>
        && old(currentFrame) + steps - 1 < LIFESPAN
        && exists i {:trigger RocketAfter(old(rockets[i].State()), FrameOf(population[i].net, activate, gameMode, m), old(target.State()), draws, steps - 1)} ::
             0 <= i < |rockets| &&
             RocketAfter(old(rockets[i].State()), FrameOf(population[i].net, activate, gameMode, m), old(target.State()), draws, steps - 1).active
    {
      ghost var s0, nets0, scores0, c0 := RocketStates(), Nets(), Scores(), target.State();
      assert AfterSubSteps(s0, nets0, scores0, c0, draws, activate, m, 0);
      ghost var w, at;
      steps, w, at := RunLoop(draws, activate, m, s0, nets0, scores0, c0);
      forall i | 0 <= i < |rockets|
        ensures rockets[i].State() == RocketAfter(old(rockets[i].State()), FrameOf(population[i].net, activate, gameMode, m), old(target.State()), draws, steps)
      {
        assert s0[i] == old(rockets[i].State()) && nets0[i] == population[i].net;
      }
      if steps > 1 {
        FrameLaws(nets0[w], activate, gameMode, m);
        NeverReactivated(s0[w], FrameOf(nets0[w], activate, gameMode, m), c0, draws, steps - 1, at);
        assert s0[w] == old(rockets[w].State()) && nets0[w] == population[w].net;
      }
    }

    /** The loop of RunSubSteps, from the generation s0, nets0, scores0, c0 it starts from. */
    method RunLoop(draws: seq<TargetDraw>, activate: Activation, m: MathLib,
                   ghost s0: seq<RocketState>, ghost nets0: seq<Network>, ghost scores0: seq<real>, ghost c0: CollectionState)
        returns (steps: nat, ghost alive: nat, ghost aliveAt: nat)
      requires Valid() && |draws| >= accelerationFactor
      requires AfterSubSteps(s0, nets0, scores0, c0, draws, activate, m, 0)
      modifies this`currentFrame, rockets, population, target
      ensures Valid() && steps <= accelerationFactor
      ensures AfterSubSteps(s0, nets0, scores0, c0, draws, activate, m, steps)
      ensures currentFrame == old(currentFrame) + steps
      ensures playMode ==> steps == 0
      ensures !playMode && accelerationFactor > 0 ==> steps > 0
      ensures old(currentFrame) < LIFESPAN ==> currentFrame <= LIFESPAN
      ensures steps < accelerationFactor && !playMode ==> currentFrame >= LIFESPAN || AllRocketsInactive()
      ensures steps > 1 ==>
        && steps - 1 <= aliveAt <= steps && old(currentFrame) + aliveAt < LIFESPAN
        && ActiveAfter(s0, nets0, c0, draws, activate, gameMode, m, aliveAt, alive)
    {
      steps, alive, aliveAt := 0, 0, 0;
      var stop := false;
      ghost var mode := gameMode;
      while steps < accelerationFactor && !stop && !playMode
        invariant Valid() && steps <= accelerationFactor && gameMode == mode
        invariant playMode ==> steps == 0
        invariant currentFrame == old(currentFrame) + steps
        invariant old(currentFrame) < LIFESPAN ==> currentFrame <= LIFESPAN
        invariant stop ==> steps > 0 && (currentFrame >= LIFESPAN || AllRocketsInactive())
        invariant AfterSubSteps(s0, nets0, scores0, c0, draws, activate, m, steps)
        invariant aliveAt == (if stop then steps - 1 else steps)
        invariant steps > 0 && (steps > 1 || !stop) ==>
          old(currentFrame) + aliveAt < LIFESPAN && ActiveAfter(s0, nets0, c0, draws, activate, mode, m, aliveAt, alive)
      {
        ghost var live;
        stop, live := Round(draws, steps, activate, m, s0, nets0, scores0, c0);
        if !stop {
          alive, aliveAt := live, steps + 1;
        }
        steps := steps + 1;
      }
    }

    /**
     * One pass of the loop body: a sub-step, then the test that leaves the loop. When the loop
     * goes on, `live` names a rocket still active.
     */
    method Round(draws: seq<TargetDraw>, k: nat, activate: Activation, m: MathLib,
                 ghost s0: seq<RocketState>, ghost nets0: seq<Network>, ghost scores0: seq<real>, ghost c0: CollectionState)
        returns (stop: bool, ghost live: nat)
      requires Valid() && k < |draws|
      requires AfterSubSteps(s0, nets0, scores0, c0, draws, activate, m, k)
      modifies this`currentFrame, rockets, population, target
      ensures AfterSubSteps(s0, nets0, scores0, c0, draws, activate, m, k + 1)
      ensures currentFrame == old(currentFrame) + 1
      ensures stop <==> currentFrame >= LIFESPAN || AllRocketsInactive()
      ensures !stop ==> ActiveAfter(s0, nets0, c0, draws, activate, gameMode, m, k + 1, live)
    {
      SubStep(draws, k, activate, m, s0, nets0, scores0, c0);
      stop := currentFrame >= LIFESPAN || AllRocketsInactive();
      live := 0;
      if !stop {
        live := SomeRocketActive(s0, nets0, scores0, c0, draws, activate, m, k + 1);
      }
    }

    /** A generation that is not all inactive has a rocket i still active after its k sub-steps. */
    lemma SomeRocketActive(s0: seq<RocketState>, nets0: seq<Network>, scores0: seq<real>, c0: CollectionState,
                           draws: seq<TargetDraw>, activate: Activation, m: MathLib, k: nat)
        returns (i: nat)
      requires AfterSubSteps(s0, nets0, scores0, c0, draws, activate, m, k) && !AllRocketsInactive()
      ensures i < |rockets| && ActiveAfter(s0, nets0, c0, draws, activate, gameMode, m, k, i)
    {
      i :| 0 <= i < |rockets| && rockets[i].active;
      assert rockets[i].State().active;
    }

    /** The rocket states, as a sequence. */
    ghost function RocketStates(): seq<RocketState>
      reads this, rockets
    {
      seq(|rockets|, i requires 0 <= i < |rockets| reads this, rockets => rockets[i].State())
    }

    /** The genomes' networks, as a sequence. */
    ghost function Nets(): seq<Network>
      reads this, population
    {
      seq(|population|, i requires 0 <= i < |population| reads this, population => population[i].net)
    }

    /** The genomes' scores, as a sequence. */
    ghost function Scores(): seq<real>
      reads this, population
    {
      seq(|population|, i requires 0 <= i < |population| reads this, population => population[i].score)
    }

    /**
     * The generation after k sub-steps from rocket states s0, networks nets0, scores scores0 and
     * target c0: the target and every rocket where TargetAfter and RocketAfter put them, and the
     * score of every genome whose rocket was active its rocket's fitness.
     */
    ghost predicate AfterSubSteps(s0: seq<RocketState>, nets0: seq<Network>, scores0: seq<real>, c0: CollectionState,
                                  draws: seq<TargetDraw>, activate: Activation, m: MathLib, k: nat)
      reads this`rockets, this`population, this`gameMode, rockets, population, target
    {
      && k <= |draws|
      && |s0| == |rockets| == |nets0| == |scores0| == |population|
      && target.State() == TargetAfter(c0, draws, k)
      && (forall i {:trigger rockets[i].State()} :: 0 <= i < |rockets| ==>
            rockets[i].State() == RocketAfter(s0[i], FrameOf(nets0[i], activate, gameMode, m), c0, draws, k))
      && (forall i :: 0 <= i < |population| ==>
            && population[i].net == nets0[i]
            && population[i].score == (if k > 0 && s0[i].active then rockets[i].fitness else scores0[i]))
    }

    /** One sub-step: the target moves, every rocket flies one frame toward it, and the frame count advances. */
    method SubStep(draws: seq<TargetDraw>, k: nat, activate: Activation, m: MathLib,
                   ghost s0: seq<RocketState>, ghost nets0: seq<Network>, ghost scores0: seq<real>, ghost c0: CollectionState)
      requires Valid() && k < |draws|
      requires AfterSubSteps(s0, nets0, scores0, c0, draws, activate, m, k)
      modifies this`currentFrame, rockets, population, target
      ensures AfterSubSteps(s0, nets0, scores0, c0, draws, activate, m, k + 1)
      ensures currentFrame == old(currentFrame) + 1
    {
      target.UpdatePosition(1.0, draws[k]);
      UpdateRockets(1.0, activate, m);
      currentFrame := currentFrame + 1;
      forall i | 0 <= i < |rockets| && !s0[i].active
        ensures old(rockets[i].State()) == s0[i]
      {
        FrameLaws(nets0[i], activate, gameMode, m);
        InactiveStaysPut(s0[i], FrameOf(nets0[i], activate, gameMode, m), c0, draws, k);
      }
      forall i | 0 <= i < |rockets| && !old(rockets[i].active)
        ensures rockets[i].State() == old(rockets[i].State())
      {
        TickInactive(old(rockets[i].State()), activate(population[i].net, NeuralInputs(Aged(old(rockets[i].State())), target.State(), m)),
                     1.0, gameMode, target.State(), m);
      }
    }

    /**
     * The rocket saveBestGenome's reduce picks, which replaces its running best only by a rocket
     * of strictly higher currentFitness: the first one of highest currentFitness. None when
     * there are no rockets (reduce would throw; saveBestGenome checks for that first).
     */
    method BestRocketIndex() returns (best: Option<nat>)
      ensures best.None? <==> |rockets| == 0
      ensures best.Some? ==>
        && best.value < |rockets|
        && IsFirstBest(best.value)
    {
      if |rockets| == 0 {
        return None;
      }
      var k := 0;
      var i := 1;
      while i < |rockets|
        invariant 1 <= i <= |rockets|
        invariant k < i
        invariant forall j :: 0 <= j < i ==> rockets[j].currentFitness <= rockets[k].currentFitness
        invariant forall j :: 0 <= j < k ==> rockets[j].currentFitness < rockets[k].currentFitness
      {
        if rockets[i].currentFitness > rockets[k].currentFitness {
          k := i;
        }
        i := i + 1;
      }
      return Some(k);
    }

    /** Rocket k has the highest currentFitness, and every rocket before it a strictly lower one. */
    predicate IsFirstBest(k: nat)
      reads this, rockets
      requires k < |rockets|
    {
      && (forall j :: 0 <= j < |rockets| ==> rockets[j].currentFitness <= rockets[k].currentFitness)
      && (forall j :: 0 <= j < k ==> rockets[j].currentFitness < rockets[k].currentFitness)
    }

    /**
     * saveBestGenome: with no rockets it reports an error and keeps savedGenome; otherwise
     * savedGenome becomes the brain (the genome object itself) of the first rocket of highest
     * currentFitness.
     */
    method SaveBestGenome() returns (saved: bool)
      modifies this`savedGenome
      ensures saved <==> |rockets| > 0
      ensures !saved ==> savedGenome == old(savedGenome)
      ensures saved ==> exists k :: 0 <= k < |rockets| && savedGenome == rockets[k].brain && IsFirstBest(k)
    {
      var best := BestRocketIndex();
      if best.None? {
        return false;
      }
      savedGenome := rockets[best.value].brain;
      return true;
    }

    /**
     * startPlayAgainstAI without the duel's own rockets, countdown and timers: while training,
     * training stops, the mode becomes the duel and the best genome is saved; when a genome is
     * available the dwell counters start from 0 (setupVsAIMode). Otherwise nothing happens.
     */
    method StartPlayAgainstAI()
      modifies this
      ensures !old(isTraining) ==> unchanged(this)
      ensures old(isTraining) ==>
        && !isTraining && gameMode == VsAI
        && (|rockets| > 0 ==> exists k :: 0 <= k < |rockets| && savedGenome == rockets[k].brain && IsFirstBest(k))
        && (|rockets| == 0 ==> savedGenome == old(savedGenome))
        && (savedGenome != null ==> centerTimePlayer == 0 && centerTimeAI == 0)
        && (savedGenome == null ==> centerTimePlayer == old(centerTimePlayer) && centerTimeAI == old(centerTimeAI))
        && bestFitness == old(bestFitness)
      ensures rockets == old(rockets) && population == old(population) && playMode == old(playMode)
      ensures generation == old(generation) && currentFrame == old(currentFrame)
      ensures accelerationFactor == old(accelerationFactor)
    {
      if isTraining {
        isTraining := false;
        gameMode := VsAI;
        var _ := SaveBestGenome();
        if savedGenome == null {
          return;
        }
        centerTimePlayer, centerTimeAI := 0, 0;
      }
    }

    /** toggleAcceleration: switch between normal speed and ten sub-steps per frame. */
    method ToggleAcceleration()
      modifies this`accelerationFactor
      ensures accelerationFactor == ToggledFactor(old(accelerationFactor))
    {
      if accelerationFactor == 1 {
        accelerationFactor := 10;
      } else {
        accelerationFactor := 1;
      }
    }

    /**
     * checkWinCondition for the duel, the target being window.centralCollection: each dwell
     * counter grows while its rocket is in the collection area and drops to 0 otherwise; the
     * player is checked first, so when both reach WIN_TIME in the same frame the player wins.
     * A win ends the game (endGame): back to training mode, and the training is reset.
     */
    method CheckWinCondition(player: RocketState, ai: RocketState, m: MathLib, rx: real, ry: real)
      returns (winner: Option<Winner>)
      modifies this
      ensures centerTimePlayer == Dwell(old(centerTimePlayer), IsInCollectionArea(player, old(target.State()), m))
      ensures centerTimeAI == Dwell(old(centerTimeAI), IsInCollectionArea(ai, old(target.State()), m))
      ensures winner == Some(PlayerWins) <==> centerTimePlayer >= WIN_TIME
      ensures winner == Some(AIWins) <==> centerTimePlayer < WIN_TIME && centerTimeAI >= WIN_TIME
      ensures winner.None? ==>
        && gameMode == old(gameMode) && playMode == old(playMode) && savedGenome == old(savedGenome)
        && generation == old(generation) && currentFrame == old(currentFrame) && bestFitness == old(bestFitness)
        && rockets == old(rockets) && population == old(population)
        && accelerationFactor == old(accelerationFactor) && isTraining == old(isTraining)
      ensures winner.Some? ==> gameMode == Training && ResetDone(rx, ry)
      ensures winner.Some? ==>
        population == old(population) && accelerationFactor == old(accelerationFactor) && isTraining == old(isTraining)
    {
      var c := target.State();
      centerTimePlayer := Dwell(centerTimePlayer, IsInCollectionArea(player, c, m));
      centerTimeAI := Dwell(centerTimeAI, IsInCollectionArea(ai, c, m));
      if centerTimePlayer >= WIN_TIME {
        winner := Some(PlayerWins);
        EndGame(rx, ry);
      } else if centerTimeAI >= WIN_TIME {
        winner := Some(AIWins);
        EndGame(rx, ry);
      } else {
        winner := None;
      }
    }

    /**
     * endGame: gameMode goes back to training, then resetTraining. isTraining is not touched:
     * after a duel it stays false, so gameLoop's training branch does not run again. The alert
     * is not modelled.
     */
    method EndGame(rx: real, ry: real)
      modifies this
      ensures gameMode == Training && ResetDone(rx, ry)
      ensures population == old(population) && accelerationFactor == old(accelerationFactor)
      ensures centerTimePlayer == old(centerTimePlayer) && centerTimeAI == old(centerTimeAI)
      ensures isTraining == old(isTraining)
    {
      gameMode := Training;
      ResetTraining(rx, ry);
    }

    /**
     * What resetTraining leaves: training (not play) mode, no saved genome, counters at 0, and
     * one rocket at rest at the spawn point drawn from rx, ry for every genome.
     */
    ghost predicate ResetDone(rx: real, ry: real)
      reads this, rockets
    {
      && !playMode && savedGenome == null
      && generation == 0 && currentFrame == 0 && bestFitness == 0.0
      && |rockets| == |population|
      && (forall i :: 0 <= i < |rockets| ==> rockets[i].brain == population[i] && rockets[i].State() == Spawned(SpawnX(rx), SpawnY(ry)))
    }

    /** resetTraining: the population is kept, everything else starts over. */
    method ResetTraining(rx: real, ry: real)
      modifies this
      ensures ResetDone(rx, ry)
      ensures population == old(population) && gameMode == old(gameMode) && accelerationFactor == old(accelerationFactor)
      ensures centerTimePlayer == old(centerTimePlayer) && centerTimeAI == old(centerTimeAI)
      ensures isTraining == old(isTraining)
      ensures forall i :: 0 <= i < |rockets| ==> fresh(rockets[i])
    {
      playMode := false;
      savedGenome := null;
      generation := 0;
      currentFrame := 0;
      bestFitness := 0.0;
      CreateRockets(rx, ry);
    }
  }

  /** The factor toggleAcceleration switches to: 10 from normal speed, normal speed from anything else. */
  function ToggledFactor(factor: nat): (r: nat)
    ensures r == 1 || r == 10
    ensures r == 10 <==> factor == 1
  {
    if factor == 1 then 10 else 1
  }

  /** Pressing the button twice restores either setting. */
  lemma ToggleTwice(factor: nat)
    requires factor == 1 || factor == 10
    ensures ToggledFactor(ToggledFactor(factor)) == factor
  {
  }

  /**
   * The win check's counters: a counter started at 0 reaches WIN_TIME exactly when the last
   * WIN_TIME frames were all spent in the area.
   */
  lemma WinIffStreak(frames: seq<bool>)
    ensures DwellAfter(0, frames) >= WIN_TIME <==>
            |frames| >= WIN_TIME && forall j :: |frames| - WIN_TIME <= j < |frames| ==> frames[j]
  {
    DwellIsStreak(0, frames);
    if |frames| >= WIN_TIME && forall j :: |frames| - WIN_TIME <= j < |frames| ==> frames[j] {
      StreakCounts(0, frames, WIN_TIME);
    }
  }
}

/**
 * What the script uses of the neataptic library. A network is an opaque value; a genome is
 * an object (neataptic's Network instance) whose `score` the script writes and whose network
 * neat.mutate() changes in place. Evaluating a network (brain.activate) is a function the
 * model is given; it is not defined here.
 */
module Neat {

  /** A neural network as the library stores it; only equality is needed. */
  type Network(==)

  /** brain.activate: the 3 outputs a network computes from the 11 sensor inputs. */
  type Activation = (Network, seq<real>) -> seq<real>

  /** A population member: its network and the score the simulation assigns to it. */
  class Genome {
    var net: Network
    var score: real

    /** A genome bred by neat.getOffspring(); it has not been scored yet. */
    constructor (net: Network)
      ensures this.net == net && score == 0.0
    {
      this.net := net;
      score := 0.0;
    }
  }
}

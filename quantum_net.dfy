/** The vocabulary the quantum hosts and repeaters share: measurement bases,
    symbolic qubit states, Pauli corrections, quantum channels, the classical
    control messages of BB84 and entanglement swapping, and a read-only view
    of the quantum topology (the kind of every node and the channels it has),
    which is fixed once the topology is loaded. */
module QuantumNet {
  import opened Common

  /** The two BB84 bases, named as the source names them: "Z" (rectilinear)
      and "X" (diagonal). */
  datatype Basis = ZBasis | XBasis

  type Bit = b: int | 0 <= b <= 1

  /** The Pauli correction an end host applies after a Bell measurement. */
  datatype Pauli = I | X | Z | XZ

  /** Quantum states are symbolic: the physics (amplitudes, density matrices,
      noise) is not modelled, only where a state came from and which
      corrections were applied to it. */
  datatype QState =
    | Prepared(basis: Basis, bit: Bit)     // prepare_qubit(basis, bit)
    | External(id: nat)                    // any state handed in from outside
    | BellHalf(owner: string, half: nat)   // one half of a Bell pair
    | Corrected(p: Pauli, inner: QState)   // a Pauli operator applied to `inner`

  /** A quantum channel between two named nodes. `id` stands for the
      channel object's identity. */
  datatype Channel = Channel(id: nat, node1: string, node2: string, numBits: nat, errorRateThreshold: real)

  /** `channel.get_other_node(node)`: the endpoint that is not `me`. */
  function OtherEnd(ch: Channel, me: string): string
  {
    if ch.node1 == me then ch.node2 else ch.node1
  }

  /** The protocol a node runs. */
  datatype Protocol = BB84 | EntanglementSwapping | OtherProtocol(tag: string)

  /** Classical control messages exchanged by the hosts and repeaters. */
  datatype Message =
    | ReconcileBases(bases: seq<Basis>)
    | SharedBasesIndices(indices: seq<int>)
    | EstimateErrorRate(sample: seq<(int, int)>)   // pairs (their bit, index)
    | ErrorRateExceeded(rate: real)                // the "error_rate" message
    | Complete
    | SwapCorrection(measurement: (int, int), otherNodeAddress: string)
    | Unrecognised(kind: string)

  /** The kind of a node of the quantum topology. */
  datatype NodeKind = HostNode | RepeaterNode | OtherNode

  /** A read-only view of the quantum topology: node kinds and, per node,
      its list of quantum channels in the order they were added. */
  datatype QuantumWorld = QuantumWorld(kinds: map<string, NodeKind>, channels: map<string, seq<Channel>>)

  function KindOf(w: QuantumWorld, n: string): NodeKind
  {
    if n in w.kinds then w.kinds[n] else OtherNode
  }

  function ChannelsOf(w: QuantumWorld, n: string): seq<Channel>
  {
    if n in w.channels then w.channels[n] else []
  }

  /** The outcome an operation ends with: normally, or with an exception of
      the source. */
  datatype Outcome = Done | Raised(error: Failure)

  datatype Failure =
    | QuantumChannelDoesNotExists   // bb84_send_qubits without a quantum channel
    | NoneHasNoAttribute            // an attribute read on a missing channel or node
    | EmptyRandomRange              // randrange over an empty range
    | SampleLargerThanPopulation    // sample asked for more items than there are
    | IndexOutOfRange               // a list index outside the list
}

/** The simplified topology the topology agent produces: a flat list of
    nodes, connections as `[from, to]` pairs, networks as `[name, type]`
    pairs, and zones grouping networks. Node types are kept as the strings
    the records carry, since the checks compare and search them as text. */
module Topology {
  import opened Common

  /** `SimplifiedNode`: a host, router, repeater or adapter. `network` is
      set on standard nodes, the two adapter networks on adapters. */
  datatype SimplifiedNode = SimplifiedNode(
    name: string,
    kind: string,
    network: Option<string>,
    classicalNetwork: Option<string>,
    quantumNetwork: Option<string>)

  datatype NetworkKind = ClassicalNetwork | QuantumNetwork

  /** `SimplifiedZone`: a named group of network names. */
  datatype SimplifiedZone = SimplifiedZone(name: string, networks: seq<string>)

  /** `SimplifiedTopology`. A connection is a pair of node names, a network
      a pair of its name and kind. */
  datatype SimplifiedTopology = SimplifiedTopology(
    worldName: string,
    nodes: seq<SimplifiedNode>,
    connections: seq<(string, string)>,
    networks: seq<(string, NetworkKind)>,
    zones: seq<SimplifiedZone>)

  /** The five node types the record admits. */
  predicate KnownKind(kind: string)
  {
    kind == "ClassicalHost" || kind == "ClassicalRouter" || kind == "QuantumHost" ||
    kind == "QuantumRepeater" || kind == "Adapter"
  }

  /** Python truthiness of an optional string: present and not empty. */
  predicate Truthy(o: Option<string>)
  {
    o.Some? && o.value != ""
  }
}

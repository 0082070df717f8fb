# q-sim core, modelled in Dafny

This project models the deterministic core of q-sim, a simulator of quantum
and classical networks with a set of AI agents around it. It covers:

- the BB84 key-agreement engine of a quantum host (`Host`, class
  `QuantumHost`): basis reconciliation, the error sample, the error-rate
  threshold decision, key extraction, the eavesdropper relay rule,
  classical message dispatch and the entanglement-swap Pauli correction;
- the entanglement-swapping repeater (`Repeater`, class `QuantumRepeater`):
  its bounded, last-write-wins qubit memory, forwarding, the swap trigger,
  the end-host walks with a visited set and the 2-bit outcome encoding;
- classical forwarding at an internet exchange (`Routing`): the shared route
  table, buffer draining, hop lists and next-hop selection, with the
  shortest-path search specified as an oracle;
- the reference BB84 lab maths (`Bb84Lab`): sifting, QBER, the 11% verdict,
  privacy amplification and the state restore of the eavesdropping run;
- the static topology validator (`Validator`), the topology scoring checks
  (`Scoring`) and the simplified-to-world converter (`Parser`), over the
  simplified topology records (`Topology`);
- the non-LLM path of both log summarisation agents (`LogSummary`,
  `LogSummaryTasks`);
- the agent registry (`Agents`, class `AgentManager`).

`Common` holds Python's list indexing and slicing, `str.split`, `lower()`
and substring tests. `QuantumNet` holds the quantum network's nodes and
channels.

Qubits are symbolic values: a qubit is prepared from a basis and a bit,
arrives from outside, or is the corrected form of another. Every random
draw and every measurement outcome is a parameter. Python exceptions are
values of result datatypes (`None`, `Raised(...)`, `Crashed`,
`ValueError(...)`, `KeyError(...)`), so every error path the code takes
is part of the model.

## Model

| member | source | states |
|---|---|---|
| Common.PyGet | quantum_network/host.py:290-292 | Python indexing: defined exactly for `-len <= i < len`, negative indices count from the end |
| Common.PyPrefix | ai_agent/src/agents/log_summarization_agent.py:204-208 | `s[:stop]` is a prefix of `s`, of length `min(stop, len)` for a non-negative stop, the whole list without a stop |
| Common.SplitJoin | ai_agent/src/agents/log_summarization_agent.py:182 | splitting on a separator and joining with it gives back the text |
| Common.JoinSplit | ai_agent/src/agents/log_summarization_agent.py:182 | joining separator-free pieces and splitting again gives back the pieces |
| Common.Lower | ai_agent/src/agents/log_summarization_agent.py:164-170 | `lower()` keeps the length and lowers each ASCII letter |
| Common.ContainsAt | ai_agent/src/agents/log_summarization_agent.py:164-170 | `sub in s` holds exactly when `sub` occurs at some position of `s` |
| Host.GetChannel | quantum_network/host.py:212-223 | without a target the first channel or none; with one the first channel joining the two hosts, none exactly when no channel does |
| Host.ChannelExists | quantum_network/host.py:55-75 | the result is one of the host's channels, direct to the target or towards a neighbour that relays to it; a direct channel is preferred |
| Host.OutgoingVictimChannel | quantum_network/host.py:132-138 | the first channel other than the incoming one, never the incoming one, none exactly when every channel is the incoming one |
| Host.ReconciledIndices | quantum_network/host.py:250-255 | exactly the strictly increasing indices below both lengths at which the two basis lists agree |
| Host.ReconciledSymmetric | quantum_network/host.py:250-255 | both sides of a reconciliation compute the same index list |
| Host.ExtractKey | quantum_network/host.py:290-292 | the key has one bit per shared index, the own outcome there; an index out of range raises IndexError |
| Host.KeysAgree | quantum_network/host.py:290-292 | two hosts whose outcomes agree at every shared index extract the same key |
| Host.Bb84KeysAgree | quantum_network/host.py:250-292 | a noiseless round without an eavesdropper gives sender and receiver the same key |
| Host.Mismatches | quantum_network/host.py:263-269 | the count of sampled pairs that differ from the own outcome, an IndexError when an index is out of range |
| Host.ErrorRate | quantum_network/host.py:263-269 | 0 for an empty sample, otherwise a share in [0, 1]; defined exactly when the mismatch count is |
| Host.ErrorRateExtremes | quantum_network/host.py:263-269 | the rate is 0 exactly when no pair mismatches, and 1 exactly when every pair does |
| Host.ErrorSample | quantum_network/host.py:205 | one pair `(own outcome, index)` per drawn index, in draw order |
| Host.AgreeingSampleHasNoErrors | quantum_network/host.py:196-269 | a peer's sample checked against agreeing outcomes has no mismatch and rate 0 |
| Host.CorrectionsMatchOutcomes | quantum_network/host.py:367-382 | each of the four outcomes selects a correction, distinct outcomes distinct corrections: (0,0) I, (0,1) X, (1,0) Z, (1,1) XZ |
| Host.FindPartner | quantum_network/host.py:385-390 | the new partner is the node beyond the repeater on the first channel, never the host itself |
| Host.ReceiveAllRecords | quantum_network/host.py:140-150 | each received qubit adds one basis and one outcome, keeping the two lists index-aligned |
| Host.ReceiveAllReconcilesOnce | quantum_network/host.py:140-167 | a non-eavesdropper sends its bases exactly once, when its outcome count reaches the channel's bit count, with every basis chosen so far |
| Host.Drawn | quantum_network/host.py:236-238 | one draw per bit, basis or bit, the i-th the i-th draw |
| Host.PreparedQubits | quantum_network/host.py:243-244 | one qubit per basis and bit, each prepared from them |
| Host.Transmissions | quantum_network/host.py:248-249 | the qubits put on one channel, in order |
| Host.QuantumHost.constructor | quantum_network/host.py:16-49 | a host with no channels, no choices and no entanglement state |
| Host.QuantumHost.AddQuantumChannel | quantum_network/host.py:52-53 | the channel is appended and nothing else changes |
| Host.QuantumHost.Bb84SendQubits | quantum_network/host.py:225-249 | choices cleared; without a channel QuantumChannelDoesNotExists with empty lists; otherwise one basis, bit and qubit per bit of the entangled (else first) channel, all sent on it |
| Host.QuantumHost.GenerateQubits | quantum_network/host.py:234-244 | the drawing loop leaves the drawn bases and bits and the prepared qubits |
| Host.QuantumHost.SendQubits | quantum_network/host.py:91-93 | each qubit is put on the channel in order and the memory emptied |
| Host.QuantumHost.ProcessReceivedQbit | quantum_network/host.py:140-161 | one receive step: basis and outcome appended, an eavesdropper relays on the other channel, a host sends its bases when the count is reached |
| Host.QuantumHost.Forward | quantum_network/host.py:77-89 | the queue is drained, each qubit processed in order with its draws |
| Host.QuantumHost.Bb84ReconcileBases | quantum_network/host.py:250-261 | the agreeing indices are stored and sent to the peer |
| Host.QuantumHost.UpdateSharedBasesIndices | quantum_network/host.py:196-210 | the peer's indices are stored verbatim; no channel, a `randrange` over an empty range, or a `sample` larger than the outcomes raises its own error and sends nothing; every other field is kept; otherwise the sample of `(outcome, index)` pairs is sent |
| Host.QuantumHost.Bb84EstimateErrorRate | quantum_network/host.py:263-288 | an out-of-range index or a missing channel raises; above the threshold only an `error_rate` message; otherwise `complete`, then the key extracted and handed over |
| Host.QuantumHost.CompleteKey | quantum_network/host.py:282-288 | the extracted key goes to the completion callback; an out-of-range index raises and nothing is completed |
| Host.QuantumHost.ApplyEntanglementCorrection | quantum_network/host.py:341-411 | no change without a qubit or for another partner; otherwise the Pauli correction, and where it stops early (no channel, no repeater, no node beyond) the choices, outcomes, qubits sent, memory and partner are kept; else a shared channel with the original bit count, BB84 started on it, the partner reset |
| Host.QuantumHost.ShareChannel | quantum_network/host.py:390-411 | the new channel is the entangled channel of both ends, the target's other fields untouched; BB84 restarts on it (fresh draws sent, memory cleared when there are bits) and the partner is reset |
| Host.QuantumHost.ReceiveClassicalData | quantum_network/host.py:169-194 | a swap correction in swapping mode has exactly the effect of `apply_entanglement_correction` and is ignored otherwise; in BB84 mode or with an entangled channel each BB84 message has exactly its handler's effect (reconcile, error sample, error-rate estimate, key completion); otherwise, and for `error_rate` or unknown types, nothing changes |
| Repeater.FirstOtherEnd | quantum_network/repeater.py:34-48 | the far end of the first channel whose far end is not the excluded node; none when there is none |
| Repeater.ChannelSearch | quantum_network/repeater.py:50-64 | the visited set only grows; a channel found is one of the repeater's channels, and its far end is the host or starts a chain of repeaters to the host, so the repeater leads to the host; a direct channel to the host is found when the repeater was not yet visited |
| Repeater.ChannelScan | quantum_network/repeater.py:55-64 | a channel found is among those scanned and its far end is the host or a repeater from which a chain of repeaters leads to the host; a direct channel to the host is always found |
| Repeater.EndHostSearch | quantum_network/repeater.py:66-87 | the visited set only grows; a result is an end host led to from the repeater by a chain of repeaters |
| Repeater.EndHostScan | quantum_network/repeater.py:71-87 | a result is an end host reached over a channel whose far end is not `from_node`, directly or through repeaters; a direct host other than `from_node` is always found |
| Repeater.BellBits | quantum_network/repeater.py:201-208 | outcome k in 0..3 maps to two bits `(k/2, k%2)` with `2*b0 + b1 == k`, a bijection |
| Repeater.EndHostBeyond | quantum_network/repeater.py:152-168 | the end host on one side: the neighbour itself when it is a host, a result is always a host |
| Repeater.PlanSwapNamesEndHosts | quantum_network/repeater.py:152-173 | the correction goes only to an end host and names the end host on the other side |
| Repeater.PlanSwapAsWrittenNamesRepeater | quantum_network/repeater.py:159-168 | on the chain A-R1-R2-B the code as written names R1, the intended resolution A |
| Repeater.PlanSwapAgreesOnLikeNeighbours | quantum_network/repeater.py:159-168 | the resolution as written and the corrected one agree whenever both neighbours are of the same kind |
| Repeater.PlanSwapAsWrittenTargetsHost | quantum_network/repeater.py:152-168 | as written, a correction still goes only to an end host, the second neighbour itself when it is one |
| Repeater.EndHostWalkReturnsOnCycle | quantum_network/repeater.py:71-87 | on the triangle R2-R1-B the walk from R2 away from B comes back to B: only the first step avoids `from_node` |
| Repeater.FirstOtherChannel | quantum_network/repeater.py:101-108 | the first channel other than the source, never the source, none exactly when all are the source |
| Repeater.QuantumRepeater.constructor | quantum_network/repeater.py:14-29 | an empty repeater with the given memory size |
| Repeater.QuantumRepeater.AddQuantumChannel | quantum_network/repeater.py:31-32 | the channel is appended and nothing else changes |
| Repeater.QuantumRepeater.ReceiveQubit | quantum_network/repeater.py:89-114 | full memory: no change; empty memory from a host: forwarded on the first other channel towards a repeater; otherwise stored under the sender, overwriting, memory bound kept, and a swap resolved as the code writes it |
| Repeater.QuantumRepeater.ExecuteEntanglementSwapping | quantum_network/repeater.py:121-179 | fewer than two qubits: no change; else the first two keys, the correction sent to the end host resolved as the code writes it (each walk guarded by the other neighbour's kind) and memory cleared, untouched when no target resolves |
| Repeater.QuantumRepeater.ClearQmemory | quantum_network/repeater.py:210-212 | memory emptied, nothing else changes |
| Routing.NextHopIsNeighbour | classical_network/routing.py:73-81 | a shortest path's second node is a neighbour; the path has length 1 exactly when source and destination coincide |
| Routing.RouteTable.AddEdge | classical_network/routing.py:24-25 | the edge joins the graph, its endpoints become adjacent |
| Routing.LinkTo | classical_network/routing.py:82-84 | the first connection joining the exchange and the node, none exactly when no connection does |
| Routing.RoutePacket | classical_network/routing.py:64-87 | NodeNotFound and NetworkXNoPath pass through; NotConnectedError when the path has length at most 1 or no connection leads to the next hop; otherwise exactly one transmission on the first connection to the next hop, with the hop recorded and the next hop set |
| Routing.ReceivePacket | classical_network/routing.py:59-62 | the exchange joins the hop list; only data packets are routed further, a routable one transmitted on the first connection to its next hop with the exchange recorded twice |
| Routing.Run | classical_network/routing.py:48-56 | packets are processed in order until the first error, which stops the run |
| Routing.Process | classical_network/routing.py:48-56 | without an error every packet is consumed |
| Routing.RunAppend | classical_network/routing.py:48-56 | processing two batches is processing the first, then the second |
| Routing.ProcessTransmitsRouted | classical_network/routing.py:48-87 | every transmitted data packet went to a neighbour on a shortest path and its hop list grew by the exchange twice |
| Routing.EdgesAdded | classical_network/routing.py:89-94 | no edge the exchange adds touches the exchange itself |
| Routing.LoneExchangeCannotRoute | classical_network/routing.py:89-98 | an exchange whose table holds only edges it added itself can never route: the search reports it missing |
| Routing.InternetExchange.constructor | classical_network/routing.py:34-39 | an exchange with no connections and empty buffers over the shared table |
| Routing.InternetExchange.AddConnection | classical_network/routing.py:89-94 | the connection is appended; an edge is added exactly when neither endpoint is the exchange |
| Routing.InternetExchange.Forward | classical_network/routing.py:48-56 | the buffers are drained, transmissions and unexpected packets are those of processing the buffered packets in order; the first NotConnectedError aborts |
| Routing.ExchangeClass.GetInstance | classical_network/routing.py:35-46 | the first call creates the instance over the shared table, later calls return that same instance |
| Bb84Lab.MatchingIndicesExact | test_lab.py:64-71 | the matching positions are exactly those with equal bases, increasing |
| Bb84Lab.SiftIsBitsAtMatches | test_lab.py:64-71 | the sifted key's j-th bit is Alice's bit at the j-th matching position |
| Bb84Lab.SiftExample | test_lab.py:268-280 | bases [0,1,0,1] against [0,0,0,1] with bits [1,0,1,0] give the 3-bit key [1,1,0] |
| Bb84Lab.ErrorsAtMostMatches | test_lab.py:152-170 | errors are counted only at matching positions, never more than the matches |
| Bb84Lab.NoErrorsWhenAgreeing | test_lab.py:152-170 | Bob measuring Alice's bit at every match gives no error |
| Bb84Lab.Qber | test_lab.py:152-170 | 0 when nothing matches, otherwise errors over matches, in [0, 1] |
| Bb84Lab.QberResult | test_lab.py:152-170 | 0 for an empty shared key, none where the loop reads past a list, the rate otherwise |
| Bb84Lab.NoiselessQber | test_lab.py:152-170 | an error-free run has rate 0 |
| Bb84Lab.QberCountsSiftedKey | test_lab.py:152-170 | the rate's denominator is the sifted key's length |
| Bb84Lab.Verdict | test_lab.py:73-79 | one of the two verdicts |
| Bb84Lab.VerdictThreshold | test_lab.py:73-79 | an eavesdropper is reported exactly above 0.11; 0.15 is detected and 0.11 is not (the check at lines 283-291) |
| Bb84Lab.PrivacyAmplification | test_lab.py:91-100 | a prefix of the raw key of length `max(0, len - 2e - 64)`, empty when `len <= 2e + 64` |
| Bb84Lab.Eavesdropped | test_lab.py:209-216 | Bob's measurements after Eve: flipped exactly where she intercepts, picks the other basis and the resend goes wrong |
| Bb84Lab.EveOnlyFlipsOnWrongBasis | test_lab.py:209-216 | a changed measurement means Eve chose the other basis |
| Bb84Lab.NoInterceptionNoChange | test_lab.py:209-216 | without interception the measurements are unchanged |
| Bb84Lab.EstimateBounds | test_lab.py:188-201 | the error estimate from a rate in [0, 1] lies between 0 and the key length |
| Bb84Lab.AttackSucceeded | test_lab.py:209-216 | an attack that intercepts nothing past Alice's bases never reads past them |
| Bb84Lab.Lab.constructor | test_lab.py:50-58 | 100 bits and empty lists |
| Bb84Lab.Lab.BasisReconciliation | test_lab.py:64-71 | the sifted key when the lists are long enough, none (IndexError) otherwise |
| Bb84Lab.Lab.CalculateQber | test_lab.py:152-170 | the QBER of the lab's lists |
| Bb84Lab.Lab.DetectEavesdropping | test_lab.py:73-79 | the verdict on the lab's QBER, none when that raises |
| Bb84Lab.Lab.TestPrivacyAmplification | test_lab.py:188-201 | the amplified shared key; none for an empty key (division by zero) |
| Bb84Lab.Lab.SimulateEavesdropping | test_lab.py:203-230 | the key re-sifted after Eve, its QBER returned, and Bob's measurements restored to their value before the call |
| Validator.Dedup | ai_agent/src/agents/topology_agent/validator.py:171-173 | the same elements, never more |
| Validator.DedupKeepsFirstOccurrenceOrder | ai_agent/src/agents/topology_agent/validator.py:171-173 | the result is distinct and in order of first occurrence |
| Validator.DedupOfDistinct | ai_agent/src/agents/topology_agent/validator.py:171-173 | a distinct list is unchanged |
| Validator.NodeMap | ai_agent/src/agents/topology_agent/validator.py:21-23 | keys are exactly the node names, each mapped to a node of that name |
| Validator.NodeMapKeepsLast | ai_agent/src/agents/topology_agent/validator.py:21-23 | a name maps to its last node |
| Validator.AdjacencyLists | ai_agent/src/agents/topology_agent/validator.py:9-19 | one list per node name |
| Validator.BuildAdjacencyList | ai_agent/src/agents/topology_agent/validator.py:9-19 | the loops build the key order and the lists of the specification |
| Validator.AddConnections | ai_agent/src/agents/topology_agent/validator.py:15-19 | each node's list is its neighbours from the connections, in connection order |
| Validator.NeighboursSymmetric | ai_agent/src/agents/topology_agent/validator.py:15-19 | `v` is listed for `u` as often as `u` for `v` |
| Validator.NeighbourHasConnection | ai_agent/src/agents/topology_agent/validator.py:15-19 | a listed neighbour comes from a connection, in either orientation |
| Validator.ConnectionGivesNeighbour | ai_agent/src/agents/topology_agent/validator.py:15-19 | a connection lists each end for the other |
| Validator.IsReachable | ai_agent/src/agents/topology_agent/validator.py:25-45 | true exactly when a node of the target type is reachable from the start, the start included |
| Validator.NodeTypeErrors | ai_agent/src/agents/topology_agent/validator.py:57-64 | no message exactly when the node is well typed |
| Validator.TypeErrorsExact | ai_agent/src/agents/topology_agent/validator.py:49-65 | the messages are exactly those of the nodes; none exactly when every node is well typed |
| Validator.CheckNodeTypes | ai_agent/src/agents/topology_agent/validator.py:49-65 | the loop reports the type errors of the specification |
| Validator.PairPhysics | ai_agent/src/agents/topology_agent/validator.py:80-89 | a crash exactly for a classical or adapter node with an unknown neighbour; no message exactly when the pair is separated |
| Validator.PhysicsErrorsMeaning | ai_agent/src/agents/topology_agent/validator.py:67-91 | no crash exactly when every lookup succeeds; no message exactly when the layers are separated |
| Validator.PhysicsReportsClassicalQuantum | ai_agent/src/agents/topology_agent/validator.py:83-85 | every classical-to-quantum adjacency is reported |
| Validator.CheckConnectionPhysics | ai_agent/src/agents/topology_agent/validator.py:67-91 | the loop computes the physics errors of the specification |
| Validator.HostPortsMeaning | ai_agent/src/agents/topology_agent/validator.py:105-116 | a quantum host passes exactly with degree 2, one Adapter and one quantum neighbour |
| Validator.AdapterPortsMeaning | ai_agent/src/agents/topology_agent/validator.py:118-126 | an adapter passes exactly with degree 2, a classical and a quantum-host neighbour |
| Validator.NodePortErrorsMeaning | ai_agent/src/agents/topology_agent/validator.py:100-131 | a node passes exactly when its kind's port rule holds |
| Validator.PortErrorsMeaning | ai_agent/src/agents/topology_agent/validator.py:93-133 | no crash exactly when every lookup succeeds; no message exactly when every node's wiring is respected |
| Validator.CheckPortConstraints | ai_agent/src/agents/topology_agent/validator.py:93-133 | the loop computes the port errors of the specification |
| Validator.TerminationErrorsEmpty | ai_agent/src/agents/topology_agent/validator.py:135-148 | no message exactly when every quantum node reaches a classical host |
| Validator.TerminationNamesIsolated | ai_agent/src/agents/topology_agent/validator.py:135-148 | each isolated node is reported |
| Validator.TerminationOnlyIsolated | ai_agent/src/agents/topology_agent/validator.py:135-148 | only isolated nodes are reported |
| Validator.CheckTermination | ai_agent/src/agents/topology_agent/validator.py:135-148 | the loop computes the termination errors of the specification |
| Validator.ValidateStaticTopology | ai_agent/src/agents/topology_agent/validator.py:152-179 | the report of the specification: graph checks only without type errors, errors de-duplicated |
| Validator.ValidIffRulesHold | ai_agent/src/agents/topology_agent/validator.py:152-179 | the report names the world, its errors are distinct, and it is valid exactly when all four rules hold |
| Validator.PortLookupsIffNotDangling | ai_agent/src/agents/topology_agent/validator.py:93-133 | the port lookups fail exactly when a connection has one endpoint that is a node and one that is not |
| Validator.CrashIffDangling | ai_agent/src/agents/topology_agent/validator.py:152-179 | validation raises exactly when the types are fine and such a dangling connection exists |
| Scoring.BfsFromMeaning | ai_agent/tests/topology_agent/scoring.py:53-67 | the path the breadth-first search returns is a shortest walk from start to end, none exactly when end is unreachable |
| Scoring.BfsPath | ai_agent/tests/topology_agent/scoring.py:53-67 | the walk `BfsFrom` finds in adjacency order; a found path is a shortest walk from start to end; none exactly when end is unreachable |
| Scoring.TypeMap | ai_agent/tests/topology_agent/scoring.py:34-36 | keys are the node names, each mapped to its node's type |
| Scoring.MatchingExact | ai_agent/tests/topology_agent/scoring.py:39-50 | a name is found exactly when some node carries it and passes the type filter and the case-insensitive substring filter |
| Scoring.MatchingUnfiltered | ai_agent/tests/topology_agent/scoring.py:39-50 | without filters every name is found, in order |
| Scoring.FindNodes | ai_agent/tests/topology_agent/scoring.py:39-50 | the loop finds the matching names in topology order |
| Scoring.PairPath | ai_agent/tests/topology_agent/scoring.py:88-92 | none for equal names, else the breadth-first path; a path exactly for two distinct connected nodes, a shortest walk |
| Scoring.FirstConnectedPath | ai_agent/tests/topology_agent/scoring.py:109-114 | none exactly when no pair is connected, else the first connected pair in scan order and the breadth-first path between them, a shortest walk |
| Scoring.CheckEndToEndPath | ai_agent/tests/topology_agent/scoring.py:74-94 | passes exactly when both filters match and some distinct pair is connected |
| Scoring.CheckPathTraversesType | ai_agent/tests/topology_agent/scoring.py:97-122 | decided on the first connected pair: passes exactly when the path the breadth-first search returns for it shows every required type |
| Scoring.TraverseVerdictUnique | ai_agent/tests/topology_agent/scoring.py:109-122 | the verdict is determined by the topology and assertion, ties between shortest paths included |
| Scoring.SquarePathGoesFirstWay | ai_agent/tests/topology_agent/scoring.py:53-67 | on the square A-B-D, A-C-D with B listed first, the search returns A, B, D |
| Scoring.NeighbourTypes | ai_agent/tests/topology_agent/scoring.py:139 | exactly the known types of the neighbours |
| Scoring.FailingExact | ai_agent/tests/topology_agent/scoring.py:125-145 | a node fails exactly when it matches and has no neighbour of the expected type |
| Scoring.CheckDirectNeighbor | ai_agent/tests/topology_agent/scoring.py:125-145 | passes exactly when every matching node has a neighbour of the expected type, failures listed |
| Scoring.CollectFailing | ai_agent/tests/topology_agent/scoring.py:137-141 | the loop collects exactly the matching nodes, in order, that have no neighbour of the expected type |
| Scoring.Share | ai_agent/tests/topology_agent/scoring.py:189 | in [0, 1]; 1 exactly when all pass (1 for no checks), 0 exactly when some check exists and none passes |
| Scoring.ScoreStructuralValidity | ai_agent/tests/topology_agent/scoring.py:160-164 | 1.0 or 0.0 by the validation report; none exactly when validation raises |
| Scoring.CheckAssertion | ai_agent/tests/topology_agent/scoring.py:174-187 | each known assertion type decided by its check, unknown types fail |
| Scoring.CountTrueExtremes | ai_agent/tests/topology_agent/scoring.py:167-190 | all results pass exactly when the count is the length, none exactly when it is 0 |
| Scoring.ScoreLogicalCorrectness | ai_agent/tests/topology_agent/scoring.py:167-190 | one verdict per assertion; the score is passed over total |
| Scoring.LogicalScoreMeaning | ai_agent/tests/topology_agent/scoring.py:167-190 | the score is 1.0 exactly when every assertion passes, 0.0 exactly when some exist and none passes |
| Scoring.CountTypeZero | ai_agent/tests/topology_agent/scoring.py:199-202 | a type counts 0 exactly when no node has it |
| Scoring.CountCheck | ai_agent/tests/topology_agent/scoring.py:204-220 | passes on equality for exact counts, on at least for minimum counts |
| Scoring.MinimumCheck | ai_agent/tests/topology_agent/scoring.py:222-238 | one check exactly when the key is present, passing when the count reaches it |
| Scoring.IssuesCount | ai_agent/tests/topology_agent/scoring.py:193-241 | issues plus passes is the number of checks |
| Scoring.RequirementScoreMeaning | ai_agent/tests/topology_agent/scoring.py:240 | the score is 1.0 exactly when there is no issue |
| Scoring.RequirementChecksLength | ai_agent/tests/topology_agent/scoring.py:193-241 | one check per exact count, per minimum count and per present network and zone minimum |
| Scoring.CountTypes | ai_agent/tests/topology_agent/scoring.py:199-202 | the tally gives every type its count of nodes |
| Scoring.ChecksAgainstCounts | ai_agent/tests/topology_agent/scoring.py:204-220 | checks against the tally are the checks against the nodes |
| Scoring.RunCountChecks | ai_agent/tests/topology_agent/scoring.py:204-220 | the loop's passes and issues are those of the checks |
| Scoring.ScoreRequirementFulfillment | ai_agent/tests/topology_agent/scoring.py:193-241 | the issues and the score of the requirement checks |
| Scoring.MissingFields | ai_agent/tests/topology_agent/scoring.py:244-254 | exactly the fields that are absent, None, "" or [] |
| Scoring.MissingAll | ai_agent/tests/topology_agent/scoring.py:244-254 | every field is missing exactly when each is blank |
| Scoring.ScoreMetadataCompleteness | ai_agent/tests/topology_agent/scoring.py:244-254 | the missing fields and `(4 - missing) / 4` |
| Scoring.MetadataScoreMeaning | ai_agent/tests/topology_agent/scoring.py:244-254 | the score is 1.0 exactly when no field is blank |
| Parser.EmptyNetworks | ai_agent/src/agents/topology_agent/parser.py:95-101 | one empty network per declared name, named and addressed by it |
| Parser.DeclaredNetworks | ai_agent/src/agents/topology_agent/parser.py:95-101 | each declared name once in the order, the map holds exactly the declared names |
| Parser.CreateNetworks | ai_agent/src/agents/topology_agent/parser.py:95-101 | the loop builds that order and map |
| Parser.AdapterEndIsLastMatch | ai_agent/src/agents/topology_agent/parser.py:105-131 | an adapter's host for a tag is the far end of the last connection offering one, "" when none does |
| Parser.MatchIsNeighbour | ai_agent/src/agents/topology_agent/parser.py:109-121 | a matched host is a neighbour whose type mentions the tag and not "Adapter" |
| Parser.AdapterEnds | ai_agent/src/agents/topology_agent/parser.py:105-131 | the scan finds the classical and the quantum host |
| Parser.HostMapKeepsLast | ai_agent/src/agents/topology_agent/parser.py:103-142 | each name maps to the record of its last node |
| Parser.CreateHosts | ai_agent/src/agents/topology_agent/parser.py:103-142 | a failed validation exactly when an adapter lacks a network; else the key order and the host map |
| Parser.NetworkHostsMeaning | ai_agent/src/agents/topology_agent/parser.py:144-146 | a network's hosts are the records of exactly the non-adapter nodes naming it |
| Parser.NoAdapterAmongHosts | ai_agent/src/agents/topology_agent/parser.py:144-146 | no adapter lands among a network's hosts |
| Parser.PlaceHosts | ai_agent/src/agents/topology_agent/parser.py:144-146 | each network gains exactly its hosts, in node order |
| Parser.FindNode | ai_agent/src/agents/topology_agent/parser.py:186-188 | the first node of that name, none exactly when there is none |
| Parser.Target | ai_agent/src/agents/topology_agent/parser.py:186-198 | a connection goes only to a declared network |
| Parser.ConnectionRecords | ai_agent/src/agents/topology_agent/parser.py:171-198 | each record is named "from-to", with noise model "none", no loss, from a connection assigned to that network |
| Parser.ConnectionsPlacedOnce | ai_agent/src/agents/topology_agent/parser.py:159-198 | over all networks there are exactly as many records as assigned connections, never more than connections |
| Parser.PlaceConnections | ai_agent/src/agents/topology_agent/parser.py:159-198 | a KeyError exactly when an endpoint is unknown; else each network gains its connections |
| Parser.ZoneNetworksMeaning | ai_agent/src/agents/topology_agent/parser.py:203-207 | a zone keeps exactly its declared networks |
| Parser.ZoneAdaptersMeaning | ai_agent/src/agents/topology_agent/parser.py:208-216 | a zone holds an adapter exactly when its classical or quantum network is listed |
| Parser.ZonesMeaning | ai_agent/src/agents/topology_agent/parser.py:202-225 | a zone is omitted exactly when it has no declared network or nothing to place |
| Parser.AssembleZones | ai_agent/src/agents/topology_agent/parser.py:202-225 | the loop assembles those zones |
| Parser.FinalNetworks | ai_agent/src/agents/topology_agent/parser.py:144-198 | the final networks have the declared names |
| Parser.AssembledNetworks | ai_agent/src/agents/topology_agent/parser.py:144-198 | placing hosts and then connections gives the final networks |
| Parser.ConvertedFails | ai_agent/src/agents/topology_agent/parser.py:77-250 | conversion fails exactly when an adapter lacks a network or a connection names an unknown node |
| Parser.ConvertSimplifiedToComplex | ai_agent/src/agents/topology_agent/parser.py:77-250 | the conversion of the specification |
| LogSummary.TimestampedMembers | ai_agent/src/agents/log_summarization_agent.py:179-184 | a line is kept exactly when it carries the timestamp prefix |
| LogSummary.ExtractLogsExact | ai_agent/src/agents/log_summarization_agent.py:179-184 | the kept lines are exactly the timestamped lines of the content, none holding a newline |
| LogSummary.SelectTaskChoice | ai_agent/src/agents/log_summarization_agent.py:164-170 | "extract_patterns" exactly when neither "summar" keyword but a pattern keyword occurs, otherwise "summarize" |
| LogSummary.SplitMax | ai_agent/src/agents/log_summarization_agent.py:214-219 | at most `maxsplit + 1` pieces, no separator in the pieces before the last |
| LogSummary.SplitMaxCount | ai_agent/src/agents/log_summarization_agent.py:214-219 | `1 + min(occurrences, maxsplit)` pieces |
| LogSummary.SplitMaxJoin | ai_agent/src/agents/log_summarization_agent.py:214-219 | joining the pieces gives back the line |
| LogSummary.ParseLineParses | ai_agent/src/agents/log_summarization_agent.py:211-231 | a line parses exactly when it has at least three spaces |
| LogSummary.ParseLineRebuilds | ai_agent/src/agents/log_summarization_agent.py:211-231 | level and component hold no space, and the entry's parts rebuild the line |
| LogSummary.ParseLogs | ai_agent/src/agents/log_summarization_agent.py:211-231 | the loop keeps the parsed entries in order |
| LogSummary.ParsedFromLines | ai_agent/src/agents/log_summarization_agent.py:211-231 | every entry comes from some line |
| LogSummary.FocusedMembers | ai_agent/src/agents/log_summarization_agent.py:234-237 | with a non-empty focus exactly the entries of listed components remain |
| LogSummary.CountLevel | ai_agent/src/agents/log_summarization_agent.py:240-241 | never more than the entries |
| LogSummary.SummaryCounts | ai_agent/src/agents/log_summarization_agent.py:244-255 | each component's level count is its number of entries, and the counts sum to the entries |
| LogSummary.TallyComponents | ai_agent/src/agents/log_summarization_agent.py:244-255 | the loop builds that summary |
| LogSummary.KeyIssuesMeaning | ai_agent/src/agents/log_summarization_agent.py:307-319 | at most 5 issues, each "component: message" of an ERROR or WARN entry among the first 5 |
| LogSummary.SummarizedCounts | ai_agent/src/agents/log_summarization_agent.py:201-322 | at most `max_entries` entries; errors plus warnings at most the entries; the component counts sum to the entries |
| LogSummary.LevelsDisjoint | ai_agent/src/agents/log_summarization_agent.py:240-241 | errors plus warnings never exceed the entries |
| LogSummary.CountLevels | ai_agent/src/agents/log_summarization_agent.py:240-241 | the loop's error and warning counts |
| LogSummary.SummarizeLogs | ai_agent/src/agents/log_summarization_agent.py:201-322 | the summary of the specification |
| LogSummary.ExtractPatterns | ai_agent/src/agents/log_summarization_agent.py:324-335 | "Pattern analysis: " prefixed to the summary text, nothing else changed |
| LogSummary.RunOutcome | ai_agent/src/agents/log_summarization_agent.py:186-199 | done exactly for the two task ids; the text carries the prefix exactly for "extract_patterns" |
| LogSummary.ProcessMessageOutcome | ai_agent/src/agents/log_summarization_agent.py:160-177 | a message is always handled, with the prefix exactly when patterns were chosen, and at most 100 counted entries |
| LogSummaryTasks.SelectTaskAgrees | ai_agent/src/agents/log_summarization/log_summarization_agent.py:84-89 | the task chosen has the id the older agent chooses, one of the two log tasks |
| LogSummaryTasks.DispatchHandles | ai_agent/src/agents/log_summarization/log_summarization_agent.py:112-121 | exactly the four log tasks are handled, each by its own handler; others raise ValueError with the f-string rendering of the enum member, "Task AgentTaskType.<NAME> not supported" |
| LogSummaryTasks.RoutingRejected | ai_agent/src/agents/log_summarization/log_summarization_agent.py:120-121 | a routing task is refused as "Task AgentTaskType.ROUTING not supported", not with the value "routing" |
| LogSummaryTasks.ProcessMessageHandled | ai_agent/src/agents/log_summarization/log_summarization_agent.py:79-121 | `run`'s dispatch hands every task `process_message` selects to the summary or the pattern handler; the pattern task is exactly the selected task that `_register_tasks` does not declare |
| LogSummaryTasks.ResolveLogs | ai_agent/src/agents/log_summarization/log_summarization_agent.py:128-138 | stored logs with a simulation id, else the given ones; HTTP 400 exactly when the list is empty |
| LogSummaryTasks.MarkPatternAnalysis | ai_agent/src/agents/log_summarization/log_summarization_agent.py:198-207 | KeyError without a summary text; TypeError when it is not text; otherwise the same keys, the prefixed text, other entries unchanged |
| Agents.RemoveMeaning | ai_agent/src/orchestration/agent_manager.py:52-58 | removal takes out exactly the id, keeps ids distinct, shortens by one when present |
| Agents.RegisterShutdownRoundTrip | ai_agent/src/orchestration/agent_manager.py:27-58 | registering a new id and shutting it down restores the id list |
| Agents.AgentManager.constructor | ai_agent/src/orchestration/agent_manager.py:8-10 | an empty registry |
| Agents.AgentManager.RegisterAgent | ai_agent/src/orchestration/agent_manager.py:27-34 | a taken id raises ValueError and changes nothing; else the instance is stored and the id appended |
| Agents.AgentManager.GetAgent | ai_agent/src/orchestration/agent_manager.py:36-38 | the registered instance, none exactly for an unknown id |
| Agents.AgentManager.ListAgents | ai_agent/src/orchestration/agent_manager.py:40-42 | exactly the registered ids, each once, in registration order |
| Agents.CallRun | ai_agent/src/agents/base_agent.py:53-56 | an agent's `run` binds exactly two positional arguments, the task id and the input; any other number raises TypeError |
| Agents.AgentManager.ExecuteAgentAsWritten | ai_agent/src/orchestration/agent_manager.py:44-50 | an unknown id raises ValueError; a registered agent's `run` is called with the input alone and raises TypeError, so no agent ever runs |
| Agents.AgentManager.ExecuteAgent | ai_agent/src/orchestration/agent_manager.py:44-50 | corrected: an unknown id raises ValueError; otherwise exactly the registered agent runs, given the task id and the input |
| Agents.AgentManager.ShutdownAgent | ai_agent/src/orchestration/agent_manager.py:52-58 | true and the id removed exactly when registered; false and nothing changed otherwise |

## Left out

- Quantum physics: qubit preparation, measurement probabilities, partial
  traces and the Bell-basis weights use QuTiP's complex numerics. Qubits are
  symbolic and every outcome is a parameter.
- Randomness (`random.choice`, `randrange`, `sample`, `random()`,
  `randint`) is passed in as parameters or oracle functions.
- The entanglement-swapping branch of the host's `forward`
  (quantum_network/host.py:83-84) and the branch for any other protocol
  without an entangled channel (quantum_network/host.py:85-86) never
  dequeue and spin forever; the host's `Forward` requires that neither is
  taken.
- `perform_qkd`, `request_entanglement` and `generate_entanglement` on the
  host: they set up swapping runs through Bell states and other hosts'
  methods. In BB84 mode `perform_qkd` is `bb84_send_qubits`, which is
  modelled.
- The repeater's `is_eavesdropper` comes from `QuantumNode`, which is not
  part of this model; a repeater is never taken for an eavesdropper.
- Threads and tick loops (`InternetExchange.start`), the simulation manager,
  sockets, Redis, Celery, the web server and configuration.
- `RouteTable.get_path` is networkx's shortest path; it is a parameter that
  any breadth-first shortest path satisfies.
- Routing.InternetExchange.Forward: its contract ties the run to `Process`;
  that every transmitted packet went to a shortest-path neighbour is stated
  by the lemma `Routing.ProcessTransmitsRouted` instead.
- The parser's layout (`_calculate_graph_layout`), coordinates, bounding
  boxes, connection lengths and the world's owner field.
- `TopologyJudgement`, `judge_topology` and `compute_aggregate_score` weigh
  floats; the report generator writes files.
- Bb84Lab.Lab.TestPrivacyAmplification: the QBER and the error estimate
  `int(qber * raw_key_length)` (test_lab.py:191) are exact reals here.
  Python's float product can fall just below an integer and truncate one
  lower: one error in 98 matches gives `1/98*98 == 0.9999999999999999`,
  an estimate of 0 and a 34-bit key, where the model estimates 1 and
  keeps 32 bits. The same holds for `Bb84Lab.ErrorEstimate`.
- Scoring.CheckAssertion: an assertion is a record with every field
  present, so a dictionary missing `type` (scoring.py:175) or a key its
  checker reads, which raises `KeyError` in the source, is not modelled;
  assertions are taken to be well-formed.
- The LLM paths of both log summarisation agents, their prompts and model
  output schemas. The task-based agent's input and output validation lives
  in a base class (ai_agent/src/agents/base/base_agent.py) that is not part
  of this model; its answer, pattern and realtime handlers are LLM calls,
  so only their dispatch is modelled.
- LogSummaryTasks.ProcessMessageHandled: says that `run`'s dispatch reaches
  a handler, not that the handler runs. `_register_tasks` does not declare
  `extract_patterns` (`Registered`), so a base class that looks the task
  up before dispatching, as ai_agent/src/agents/base_agent.py:58-62 does,
  would raise `ValueError` for a pattern message first.
- Agent construction with the language model client (`_initialize_llm`,
  agent classes) and the agent's own `run`, which `execute_agent` calls.
- Event emission (`_send_update`), `print` and logging.
- `\s`, `\d` and `lower()` are ASCII-only here; Python's Unicode classes
  and case mapping are not modelled.
- The lab's `run_protocol`, `analyze_diagonal_measurements` and
  `analyze_results` print and measure qubits; they are not modelled.

## Findings

| source | as written | input that shows it | evidently intended | confidence | as-written member | corrected member |
|---|---|---|---|---|---|---|
| ai_agent/src/orchestration/agent_manager.py:50 | `agent.run(input_data)` passes one argument, but every agent's `run` is declared with a task id and the input (ai_agent/src/agents/base_agent.py:54) | register any agent under "a", then `execute_agent("a", {})`: the call raises TypeError for the missing `input_data` | the task id passed along, `agent.run(task_id, input_data)` | not executed | Agents.AgentManager.ExecuteAgentAsWritten | Agents.AgentManager.ExecuteAgent |
| quantum_network/repeater.py:159-168 | the walk to the end host beyond neighbour 1 is guarded by the type of neighbour 2, and the walk beyond neighbour 2 by the type of neighbour 1 | chain A-R1-R2-B seen from R2 holding qubits from R1 and B: the correction goes to B but names R1, so B's partner check discards it | each walk guarded by its own neighbour's type, naming A | not executed | Repeater.PlanSwapAsWrittenNamesRepeater | Repeater.PlanSwapNamesEndHosts |

The class `QuantumRepeater` runs the resolution as written
(`PlanSwapAsWritten`), so its contracts describe the program as it is.
`PlanSwap` is the corrected resolution, with its properties proved in
`PlanSwapNamesEndHosts`. `PlanSwapAgreesOnLikeNeighbours` shows that the
two resolutions differ only when the two neighbours are of different kinds.
`AgentManager.ExecuteAgent` takes the task id the corrected call passes on.

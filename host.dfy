/** The quantum end host: the BB84 key-agreement engine (sending qubits,
    measuring received ones, basis reconciliation, error-rate estimation and
    key extraction), the eavesdropper relay rule, the dispatch of classical
    control messages and the Pauli correction that completes an
    entanglement swap. Qubit physics is symbolic and every random draw or
    measurement outcome is a parameter. */
module Host {
  import opened Common
  import opened QuantumNet
  import opened Repeater

  function Min(a: int, b: int): int
  {
    if a <= b then a else b
  }

  // ---------------------------------------------------------------------
  // Channel lookups

  /** A channel joins `me` and `other`, in either orientation. */
  predicate Connects(ch: Channel, me: string, other: string)
  {
    (ch.node1 == me && ch.node2 == other) || (ch.node2 == me && ch.node1 == other)
  }

  /** The first channel of `chs` that satisfies `p`. */
  function FirstWhere(chs: seq<Channel>, p: Channel -> bool): (r: Option<Channel>)
    ensures r.Some? ==> exists k :: 0 <= k < |chs| && chs[k] == r.value && p(chs[k]) && forall j :: 0 <= j < k ==> !p(chs[j])
    ensures r.None? <==> forall k :: 0 <= k < |chs| ==> !p(chs[k])
  {
    if chs == [] then None
    else if p(chs[0]) then Some(chs[0])
    else
      var r := FirstWhere(chs[1..], p);
      assert forall k :: 1 <= k < |chs| ==> chs[k] == chs[1..][k - 1];
      if r.Some? then
        var k :| 0 <= k < |chs[1..]| && chs[1..][k] == r.value && p(chs[1..][k]) && forall j :: 0 <= j < k ==> !p(chs[1..][j]);
        assert chs[k + 1] == r.value && forall j :: 0 <= j < k + 1 ==> !p(chs[j]);
        r
      else r
  }

  /** `get_channel(to_host)`: without a target the first channel (if any),
      otherwise the first channel joining this host and the target. */
  function GetChannel(chs: seq<Channel>, me: string, to: Option<string>): (r: Option<Channel>)
    ensures to.None? ==> r == (if chs == [] then None else Some(chs[0]))
    ensures to.Some? ==> (r.None? <==> forall k :: 0 <= k < |chs| ==> !Connects(chs[k], me, to.value))
    ensures to.Some? && r.Some? ==> r.value in chs && Connects(r.value, me, to.value)
  {
    match to
    case None => if chs == [] then None else Some(chs[0])
    case Some(h) => FirstWhere(chs, ch => Connects(ch, me, h))
  }

  /** Whether the neighbour `n` offers a route onwards to `to`: a repeater
      whose own search reaches `to`, or an end host with exactly two
      channels (an eavesdropper), whose victim lookup, given a node where it
      expects a channel, always yields its first channel. */
  predicate RelaysTo(w: QuantumWorld, n: string, to: string)
  {
    (KindOf(w, n) == RepeaterNode && ChannelSearch(w, n, to, {}).0.Some?) ||
    (KindOf(w, n) == HostNode && |ChannelsOf(w, n)| == 2)
  }

  /** The test of `proxy_channel_exists` for one channel of host `me`. */
  predicate ProxyThrough(w: QuantumWorld, me: string, ch: Channel, to: string)
  {
    if ch.node1 == me then RelaysTo(w, ch.node2, to)
    else if ch.node2 == me then RelaysTo(w, ch.node1, to)
    else false
  }

  /** `channel_exists(to_host)`: the first direct channel to the target,
      else the first channel towards a neighbour that relays to it. */
  function ChannelExists(w: QuantumWorld, chs: seq<Channel>, me: string, to: string): (r: Option<Channel>)
    ensures r.Some? ==> r.value in chs && (Connects(r.value, me, to) || ProxyThrough(w, me, r.value, to))
    ensures r.None? <==> forall k :: 0 <= k < |chs| ==> !Connects(chs[k], me, to) && !ProxyThrough(w, me, chs[k], to)
    ensures (exists k :: 0 <= k < |chs| && Connects(chs[k], me, to)) ==> r.Some? && Connects(r.value, me, to)
  {
    var direct := GetChannel(chs, me, Some(to));
    if direct.Some? then direct else FirstWhere(chs, ch => ProxyThrough(w, me, ch, to))
  }

  /** `is_eavesdropper`: a host with exactly two quantum channels sits
      between two others and relays what it measures. */
  predicate IsEavesdropper(chs: seq<Channel>)
  {
    |chs| == 2
  }

  /** `get_outgoing_victim_channel(incoming)`: the first other channel. */
  function OutgoingVictimChannel(chs: seq<Channel>, incoming: Channel): (r: Option<Channel>)
    ensures r.Some? ==> r.value in chs && r.value != incoming
    ensures r.None? <==> forall k :: 0 <= k < |chs| ==> chs[k] == incoming
    ensures IsEavesdropper(chs) && chs[0] != chs[1] ==> r.Some?
  {
    FirstOtherChannel(chs, incoming)
  }

  // ---------------------------------------------------------------------
  // BB84 bookkeeping

  /** `bb84_reconcile_bases`: the positions below `n` at which the two
      basis lists agree, in increasing order. */
  function Agreeing(mine: seq<Basis>, theirs: seq<Basis>, n: nat): (r: seq<int>)
    requires n <= |mine| && n <= |theirs|
    ensures forall j :: 0 <= j < |r| ==> 0 <= r[j] < n && mine[r[j]] == theirs[r[j]]
    ensures forall j, k :: 0 <= j < k < |r| ==> r[j] < r[k]
    ensures forall i :: 0 <= i < n && mine[i] == theirs[i] ==> i in r
  {
    if n == 0 then []
    else Agreeing(mine, theirs, n - 1) + (if mine[n - 1] == theirs[n - 1] then [n - 1] else [])
  }

  function ReconciledIndices(mine: seq<Basis>, theirs: seq<Basis>): (r: seq<int>)
    ensures forall j :: 0 <= j < |r| ==> 0 <= r[j] < |mine| && r[j] < |theirs| && mine[r[j]] == theirs[r[j]]
    ensures forall j, k :: 0 <= j < k < |r| ==> r[j] < r[k]
    ensures forall i :: 0 <= i < |mine| && i < |theirs| && mine[i] == theirs[i] ==> i in r
  {
    Agreeing(mine, theirs, Min(|mine|, |theirs|))
  }

  /** Reconciliation gives both sides the same indices. */
  lemma {:induction false} AgreeingSymmetric(a: seq<Basis>, b: seq<Basis>, n: nat)
    requires n <= |a| && n <= |b|
    ensures Agreeing(a, b, n) == Agreeing(b, a, n)
  {
    if n > 0 {
      AgreeingSymmetric(a, b, n - 1);
    }
  }

  lemma ReconciledSymmetric(a: seq<Basis>, b: seq<Basis>)
    ensures ReconciledIndices(a, b) == ReconciledIndices(b, a)
  {
    AgreeingSymmetric(a, b, Min(|a|, |b|));
  }

  /** `bb84_extract_key`: the own outcome at each shared index, with
      Python's indexing; an index outside the list raises IndexError. */
  function ExtractKey(outcomes: seq<Bit>, shared: seq<int>): (r: Option<seq<Bit>>)
    ensures r.Some? <==> forall j :: 0 <= j < |shared| ==> -|outcomes| <= shared[j] < |outcomes|
    ensures r.Some? ==> |r.value| == |shared|
    ensures r.Some? ==> forall j :: 0 <= j < |shared| ==> PyGet(outcomes, shared[j]) == Some(r.value[j])
  {
    if shared == [] then Some([])
    else
      var head := PyGet(outcomes, shared[0]);
      var rest := ExtractKey(outcomes, shared[1..]);
      assert forall j :: 1 <= j < |shared| ==> shared[j] == shared[1..][j - 1];
      if head.None? || rest.None? then None else Some([head.value] + rest.value)
  }

  /** Two hosts whose outcomes agree at every shared index extract the
      same key. */
  lemma KeysAgree(a: seq<Bit>, b: seq<Bit>, shared: seq<int>)
    requires forall j :: 0 <= j < |shared| ==> 0 <= shared[j] < |a| && shared[j] < |b| && a[shared[j]] == b[shared[j]]
    ensures ExtractKey(a, shared).Some? && ExtractKey(a, shared) == ExtractKey(b, shared)
  {
    var ka := ExtractKey(a, shared).value;
    var kb := ExtractKey(b, shared).value;
    assert forall j :: 0 <= j < |shared| ==> ka[j] == a[shared[j]] == b[shared[j]] == kb[j];
  }

  /** A noiseless BB84 round without an eavesdropper: the receiver measured
      the sender's bit wherever both chose the same basis. The receiver
      reconciles against the sender's bases and sends the indices, which the
      sender stores verbatim; both then extract the same key. */
  lemma Bb84KeysAgree(senderBases: seq<Basis>, senderBits: seq<Bit>, receiverBases: seq<Basis>, receiverBits: seq<Bit>)
    requires |senderBases| == |senderBits| && |receiverBases| == |receiverBits|
    requires forall i :: 0 <= i < |senderBases| && i < |receiverBases| && senderBases[i] == receiverBases[i] ==> senderBits[i] == receiverBits[i]
    ensures var shared := ReconciledIndices(receiverBases, senderBases);
      shared == ReconciledIndices(senderBases, receiverBases) &&
      ExtractKey(senderBits, shared).Some? &&
      ExtractKey(senderBits, shared) == ExtractKey(receiverBits, shared)
  {
    var shared := ReconciledIndices(receiverBases, senderBases);
    ReconciledSymmetric(receiverBases, senderBases);
    KeysAgree(senderBits, receiverBits, shared);
  }

  /** The number of sampled pairs whose bit differs from the own outcome at
      that index; an index outside the list raises IndexError. */
  function Mismatches(outcomes: seq<Bit>, sample: seq<(int, int)>): (r: Option<nat>)
    ensures r.Some? <==> forall j :: 0 <= j < |sample| ==> -|outcomes| <= sample[j].1 < |outcomes|
    ensures r.Some? ==> r.value <= |sample|
    ensures r.Some? && (forall j :: 0 <= j < |sample| ==> PyGet(outcomes, sample[j].1) == Some(sample[j].0)) ==> r.value == 0
    ensures r.Some? && (forall j :: 0 <= j < |sample| ==> PyGet(outcomes, sample[j].1) != Some(sample[j].0)) ==> r.value == |sample|
  {
    if sample == [] then Some(0)
    else
      var own := PyGet(outcomes, sample[0].1);
      var rest := Mismatches(outcomes, sample[1..]);
      assert forall j :: 1 <= j < |sample| ==> sample[j] == sample[1..][j - 1];
      if own.None? || rest.None? then None
      else Some((if own.value != sample[0].0 then 1 else 0) + rest.value)
  }

  /** The estimated error rate: 0 for an empty sample, otherwise the share
      of mismatching pairs. */
  function ErrorRate(outcomes: seq<Bit>, sample: seq<(int, int)>): (r: Option<real>)
    ensures r.Some? <==> Mismatches(outcomes, sample).Some?
    ensures r.Some? ==> 0.0 <= r.value <= 1.0
  {
    if sample == [] then Some(0.0)
    else
      var m := Mismatches(outcomes, sample);
      if m.None? then None
      else
        Ratio(m.value, |sample|);
        Some(m.value as real / |sample| as real)
  }

  /** The rate is zero exactly when no sampled pair mismatches, and one
      exactly when every sampled pair does. */
  lemma ErrorRateExtremes(outcomes: seq<Bit>, sample: seq<(int, int)>)
    requires ErrorRate(outcomes, sample).Some?
    ensures ErrorRate(outcomes, sample).value == 0.0 <==> Mismatches(outcomes, sample).value == 0
    ensures sample != [] ==>
      (ErrorRate(outcomes, sample).value == 1.0 <==> Mismatches(outcomes, sample).value == |sample|)
  {
    if sample != [] {
      var e := Mismatches(outcomes, sample).value;
      Quotient(e as real, |sample| as real, ErrorRate(outcomes, sample).value);
    }
  }

  /** `error_sample`: the own outcome at each drawn index, with the index. */
  function ErrorSample(outcomes: seq<Bit>, picked: seq<int>): (r: seq<(int, int)>)
    requires forall j :: 0 <= j < |picked| ==> 0 <= picked[j] < |outcomes|
    ensures |r| == |picked|
    ensures forall j :: 0 <= j < |r| ==> r[j].1 == picked[j] && r[j].0 == outcomes[picked[j]]
  {
    seq(|picked|, j requires 0 <= j < |picked| => (outcomes[picked[j]] as int, picked[j]))
  }

  /** A sample drawn by the peer, checked against outcomes that agree with
      the peer's at every drawn index, shows no errors. */
  lemma AgreeingSampleHasNoErrors(peer: seq<Bit>, own: seq<Bit>, picked: seq<int>)
    requires forall j :: 0 <= j < |picked| ==> 0 <= picked[j] < |peer| && picked[j] < |own| && peer[picked[j]] == own[picked[j]]
    ensures ErrorRate(own, ErrorSample(peer, picked)) == Some(0.0)
  {
    var s := ErrorSample(peer, picked);
    assert forall j :: 0 <= j < |s| ==> PyGet(own, s[j].1) == Some(s[j].0);
  }

  /** `random.randrange(2, num_bits // 4)` and `random.sample(range(population), k)`
      could have returned `size` and `picked`: the size lies in the range
      when that range is non-empty, and when the sample fits the
      population, `picked` holds `min(size, shared)` distinct indices of it. */
  predicate SampleDrawn(numBits: nat, shared: nat, population: nat, size: int, picked: seq<int>)
  {
    numBits / 4 > 2 ==>
      2 <= size < numBits / 4 &&
      (Min(size, shared) <= population ==>
        |picked| == Min(size, shared) &&
        (forall j :: 0 <= j < |picked| ==> 0 <= picked[j] < population) &&
        (forall j, k :: 0 <= j < k < |picked| ==> picked[j] != picked[k]))
  }

  /** The correction a Bell-measurement result calls for; any other pair
      calls for none. */
  function PauliFor(m: (int, int)): Option<Pauli>
  {
    if m == (0, 0) then Some(I)
    else if m == (0, 1) then Some(X)
    else if m == (1, 0) then Some(Z)
    else if m == (1, 1) then Some(XZ)
    else None
  }

  /** The qubit after the correction; `XZ` is Z applied first, then X. */
  function Correct(m: (int, int), q: QState): QState
  {
    match PauliFor(m)
    case None => q
    case Some(I) => q
    case Some(p) => Corrected(p, q)
  }

  /** Every outcome a repeater can report selects a correction, and
      different outcomes select different corrections. */
  lemma CorrectionsMatchOutcomes()
    ensures forall k :: 0 <= k < 4 ==> PauliFor(BellBits(k)).Some?
    ensures forall k, j :: 0 <= k < 4 && 0 <= j < 4 && PauliFor(BellBits(k)) == PauliFor(BellBits(j)) ==> k == j
    ensures PauliFor(BellBits(0)) == Some(I) && PauliFor(BellBits(1)) == Some(X)
    ensures PauliFor(BellBits(2)) == Some(Z) && PauliFor(BellBits(3)) == Some(XZ)
  {
    assert BellBits(0) == (0, 0) && BellBits(1) == (0, 1) && BellBits(2) == (1, 0) && BellBits(3) == (1, 1);
  }

  /** Where `apply_entanglement_correction` stands after the correction:
      no first channel, no repeater at its far end, no node beyond the
      repeater, or the far end host to share the new channel with. */
  datatype Partner = NoChannel | NoRepeater | NoTarget | Target(original: Channel, target: string)

  function FindPartner(w: QuantumWorld, chs: seq<Channel>, me: string): (r: Partner)
    ensures r.Target? ==> chs != [] && r.original == chs[0] && r.target != me
    ensures r.Target? ==> KindOf(w, OtherEnd(chs[0], me)) == RepeaterNode
    ensures r.NoChannel? <==> chs == []
  {
    if chs == [] then NoChannel
    else
      var repeater := OtherEnd(chs[0], me);
      if KindOf(w, repeater) != RepeaterNode then NoRepeater
      else
        match FirstOtherEnd(repeater, ChannelsOf(w, repeater), Some(me))
        case None => NoTarget
        case Some(t) => Target(chs[0], t)
  }

  // ---------------------------------------------------------------------
  // Receiving qubits

  /** The part of a host's state that receiving a qubit changes. */
  datatype ReceiverView = ReceiverView(qmemory: Option<QState>, bases: seq<Basis>, outcomes: seq<Bit>, sent: seq<(Channel, QState)>, outbox: seq<Message>)

  /** `process_received_qbit`: store the qubit, record the basis and the
      outcome drawn for it; an eavesdropper re-prepares what it measured
      and relays it on the other channel, any other host sends its bases
      once it holds as many outcomes as its first channel carries bits. */
  function ReceiveStep(chs: seq<Channel>, v: ReceiverView, q: QState, from: Channel, basis: Basis, outcome: Bit): (r: (ReceiverView, Outcome))
  {
    var bases := v.bases + [basis];
    var outcomes := v.outcomes + [outcome];
    if IsEavesdropper(chs) then
      match OutgoingVictimChannel(chs, from)
      case Some(out) => (ReceiverView(None, bases, outcomes, v.sent + [(out, Prepared(basis, outcome))], v.outbox), Done)
      case None => (ReceiverView(Some(q), bases, outcomes, v.sent, v.outbox), Done)
    else if chs == [] then (ReceiverView(Some(q), bases, outcomes, v.sent, v.outbox), Raised(NoneHasNoAttribute))
    else if |outcomes| == chs[0].numBits then (ReceiverView(Some(q), bases, outcomes, v.sent, v.outbox + [ReconcileBases(bases)]), Done)
    else (ReceiverView(Some(q), bases, outcomes, v.sent, v.outbox), Done)
  }

  /** Processing the received qubits `items` in order, with the bases and
      outcomes drawn for them. */
  function ReceiveAll(chs: seq<Channel>, v: ReceiverView, items: seq<(QState, Channel)>, bases: seq<Basis>, outcomes: seq<Bit>): ReceiverView
    requires |items| == |bases| == |outcomes|
  {
    if items == [] then v
    else
      var n := |items| - 1;
      ReceiveStep(chs, ReceiveAll(chs, v, items[..n], bases[..n], outcomes[..n]), items[n].0, items[n].1, bases[n], outcomes[n]).0
  }

  /** Every received qubit adds exactly one basis and one outcome, so the
      two lists stay index-aligned. */
  lemma {:induction false} ReceiveAllRecords(chs: seq<Channel>, v: ReceiverView, items: seq<(QState, Channel)>, bases: seq<Basis>, outcomes: seq<Bit>)
    requires |items| == |bases| == |outcomes|
    ensures ReceiveAll(chs, v, items, bases, outcomes).bases == v.bases + bases
    ensures ReceiveAll(chs, v, items, bases, outcomes).outcomes == v.outcomes + outcomes
  {
    if items != [] {
      var n := |items| - 1;
      ReceiveAllRecords(chs, v, items[..n], bases[..n], outcomes[..n]);
      assert bases == bases[..n] + [bases[n]];
      assert outcomes == outcomes[..n] + [outcomes[n]];
    }
  }

  /** A host that is not an eavesdropper and has a channel sends its bases
      exactly once, when the outcome count reaches the channel's number of
      bits, and the message carries every basis chosen up to then. */
  lemma {:induction false} ReceiveAllReconcilesOnce(chs: seq<Channel>, v: ReceiverView, items: seq<(QState, Channel)>, bases: seq<Basis>, outcomes: seq<Bit>)
    requires !IsEavesdropper(chs) && chs != []
    requires |items| == |bases| == |outcomes|
    ensures var m := |v.outcomes|;
      var nb := chs[0].numBits;
      ReceiveAll(chs, v, items, bases, outcomes).outbox ==
        v.outbox + (if m < nb <= m + |items| then [ReconcileBases(v.bases + bases[..nb - m])] else [])
  {
    if items != [] {
      var n := |items| - 1;
      ReceiveAllReconcilesOnce(chs, v, items[..n], bases[..n], outcomes[..n]);
      ReceiveAllRecords(chs, v, items[..n], bases[..n], outcomes[..n]);
      var m := |v.outcomes|;
      var nb := chs[0].numBits;
      var pre := ReceiveAll(chs, v, items[..n], bases[..n], outcomes[..n]);
      assert ReceiveAll(chs, v, items, bases, outcomes) == ReceiveStep(chs, pre, items[n].0, items[n].1, bases[n], outcomes[n]).0;
      assert |pre.outcomes + [outcomes[n]]| == m + n + 1;
      if m + n + 1 == nb {
        assert bases[..nb - m] == bases[..n] + [bases[n]];
        assert pre.bases + [bases[n]] == v.bases + bases[..nb - m];
      } else if m < nb <= m + n {
        assert bases[..n][..nb - m] == bases[..nb - m];
      }
    }
  }

  /** The first `n` draws of `bb84_send_qubits`, of bases or of bits. */
  function Drawn<T>(n: nat, choose: nat -> T): (r: seq<T>)
    ensures |r| == n && forall i :: 0 <= i < n ==> r[i] == choose(i)
  {
    seq(n, i requires 0 <= i => choose(i))
  }

  /** Each drawn basis and bit, prepared as a qubit. */
  function PreparedQubits(bases: seq<Basis>, bits: seq<Bit>): (r: seq<QState>)
    requires |bases| == |bits|
    ensures |r| == |bases|
    ensures forall i :: 0 <= i < |r| ==> r[i] == Prepared(bases[i], bits[i])
  {
    seq(|bases|, i requires 0 <= i < |bases| => Prepared(bases[i], bits[i]))
  }

  /** The qubits `qs`, in order, put on channel `ch`. */
  function Transmissions(ch: Channel, qs: seq<QState>): (r: seq<(Channel, QState)>)
    ensures |r| == |qs|
    ensures forall i :: 0 <= i < |r| ==> r[i] == (ch, qs[i])
  {
    seq(|qs|, i requires 0 <= i < |qs| => (ch, qs[i]))
  }

  /** A quantum end host. `world` is its view of the rest of the quantum
      topology. The queue of received qubits (`qmemeory_buffer`), the
      qubits put on channels, the classical messages sent and the keys
      handed to the completion callback are recorded as sequences. */
  class QuantumHost {
    const name: string
    const protocol: Protocol
    const world: QuantumWorld
    var quantumChannels: seq<Channel>
    var basisChoices: seq<Basis>
    var measurementOutcomes: seq<Bit>
    var sharedBasesIndices: seq<int>
    var qmemory: Option<QState>
    var entangledQubit: Option<QState>
    var partnerAddress: Option<string>
    var entangledChannel: Option<Channel>
    var inbox: seq<(QState, Channel)>
    var sent: seq<(Channel, QState)>
    var outbox: seq<Message>
    var completedKeys: seq<seq<Bit>>

    /** The basis of each measured or sent qubit sits at the index of its
        outcome. */
    ghost predicate Valid()
      reads this
    {
      |basisChoices| == |measurementOutcomes|
    }

    function View(): ReceiverView
      reads this
    {
      ReceiverView(qmemory, basisChoices, measurementOutcomes, sent, outbox)
    }

    constructor (name: string, protocol: Protocol, world: QuantumWorld)
      ensures Valid()
      ensures this.name == name && this.protocol == protocol && this.world == world
      ensures quantumChannels == [] && basisChoices == [] && measurementOutcomes == [] && sharedBasesIndices == []
      ensures qmemory == None && entangledQubit == None && partnerAddress == None && entangledChannel == None
      ensures inbox == [] && sent == [] && outbox == [] && completedKeys == []
    {
      this.name := name;
      this.protocol := protocol;
      this.world := world;
      quantumChannels := [];
      basisChoices := [];
      measurementOutcomes := [];
      sharedBasesIndices := [];
      qmemory := None;
      entangledQubit := None;
      partnerAddress := None;
      entangledChannel := None;
      inbox := [];
      sent := [];
      outbox := [];
      completedKeys := [];
    }

    method AddQuantumChannel(ch: Channel)
      modifies this
      ensures quantumChannels == old(quantumChannels) + [ch]
      ensures basisChoices == old(basisChoices) && measurementOutcomes == old(measurementOutcomes)
      ensures sharedBasesIndices == old(sharedBasesIndices) && qmemory == old(qmemory)
      ensures entangledQubit == old(entangledQubit) && partnerAddress == old(partnerAddress) && entangledChannel == old(entangledChannel)
      ensures inbox == old(inbox) && sent == old(sent) && outbox == old(outbox) && completedKeys == old(completedKeys)
    {
      quantumChannels := quantumChannels + [ch];
    }

    /** `bb84_send_qubits`: forget earlier choices; without a channel raise
        QuantumChannelDoesNotExists; otherwise draw a basis and a bit per bit
        of the entangled channel (or else the first channel), prepare the
        qubits, then put them all on that channel. */
    method Bb84SendQubits(chooseBasis: nat -> Basis, chooseBit: nat -> Bit) returns (o: Outcome)
      modifies this
      ensures Valid()
      ensures old(quantumChannels) == [] ==> o == Raised(QuantumChannelDoesNotExists) && basisChoices == [] && measurementOutcomes == [] && sent == old(sent) && qmemory == old(qmemory)
      ensures old(quantumChannels) != [] ==>
        var ch := if old(entangledChannel).Some? then old(entangledChannel).value else old(quantumChannels)[0];
        o == Done &&
        basisChoices == Drawn(ch.numBits, chooseBasis) &&
        measurementOutcomes == Drawn(ch.numBits, chooseBit) &&
        sent == old(sent) + Transmissions(ch, PreparedQubits(basisChoices, measurementOutcomes)) &&
        qmemory == (if ch.numBits == 0 then old(qmemory) else None)
      ensures quantumChannels == old(quantumChannels) && sharedBasesIndices == old(sharedBasesIndices)
      ensures entangledQubit == old(entangledQubit) && partnerAddress == old(partnerAddress) && entangledChannel == old(entangledChannel)
      ensures inbox == old(inbox) && outbox == old(outbox) && completedKeys == old(completedKeys)
    {
      basisChoices := [];
      measurementOutcomes := [];
      if quantumChannels == [] {
        return Raised(QuantumChannelDoesNotExists);
      }
      var ch := if entangledChannel.Some? then entangledChannel.value else quantumChannels[0];
      var generated := GenerateQubits(ch.numBits, chooseBasis, chooseBit);
      SendQubits(generated, ch);
      return Done;
    }

    /** The drawing loop of `bb84_send_qubits`, starting from empty lists. */
    method GenerateQubits(n: nat, chooseBasis: nat -> Basis, chooseBit: nat -> Bit) returns (generated: seq<QState>)
      requires basisChoices == [] && measurementOutcomes == []
      modifies this`basisChoices, this`measurementOutcomes
      ensures basisChoices == Drawn(n, chooseBasis)
      ensures measurementOutcomes == Drawn(n, chooseBit)
      ensures generated == PreparedQubits(basisChoices, measurementOutcomes)
    {
      generated := [];
      var i := 0;
      while i < n
        invariant 0 <= i <= n
        invariant basisChoices == Drawn(i, chooseBasis)
        invariant measurementOutcomes == Drawn(i, chooseBit)
        invariant generated == PreparedQubits(basisChoices, measurementOutcomes)
      {
        var basis := chooseBasis(i);
        var bit := chooseBit(i);
        basisChoices := basisChoices + [basis];
        measurementOutcomes := measurementOutcomes + [bit];
        generated := generated + [Prepared(basis, bit)];
        i := i + 1;
      }
    }

    /** The sending loop of `bb84_send_qubits`: `send_qubit` for each qubit,
        each of which empties the qubit memory. */
    method SendQubits(qs: seq<QState>, ch: Channel)
      modifies this`sent, this`qmemory
      ensures sent == old(sent) + Transmissions(ch, qs)
      ensures qmemory == (if qs == [] then old(qmemory) else None)
    {
      var j := 0;
      while j < |qs|
        invariant 0 <= j <= |qs|
        invariant sent == old(sent) + Transmissions(ch, qs[..j])
        invariant qmemory == (if j == 0 then old(qmemory) else None)
      {
        sent := sent + [(ch, qs[j])];
        qmemory := None;
        j := j + 1;
      }
      assert qs[..j] == qs;
    }

    /** `process_received_qbit` with the basis drawn and the outcome
        measured for this qubit. */
    method ProcessReceivedQbit(q: QState, from: Channel, basis: Basis, outcome: Bit) returns (o: Outcome)
      requires Valid()
      modifies this
      ensures Valid()
      ensures View() == ReceiveStep(quantumChannels, old(View()), q, from, basis, outcome).0
      ensures o == ReceiveStep(quantumChannels, old(View()), q, from, basis, outcome).1
      ensures quantumChannels == old(quantumChannels) && sharedBasesIndices == old(sharedBasesIndices)
      ensures entangledQubit == old(entangledQubit) && partnerAddress == old(partnerAddress) && entangledChannel == old(entangledChannel)
      ensures inbox == old(inbox) && completedKeys == old(completedKeys)
    {
      qmemory := Some(q);
      var channel := GetChannel(quantumChannels, name, None);
      basisChoices := basisChoices + [basis];
      measurementOutcomes := measurementOutcomes + [outcome];
      if IsEavesdropper(quantumChannels) {
        var outgoing := OutgoingVictimChannel(quantumChannels, from);
        if outgoing.Some? {
          sent := sent + [(outgoing.value, Prepared(basis, outcome))];
          qmemory := None;
        }
      } else {
        if channel.None? {
          return Raised(NoneHasNoAttribute);
        }
        if |measurementOutcomes| == channel.value.numBits {
          outbox := outbox + [ReconcileBases(basisChoices)];
        }
      }
      return Done;
    }

    /** `forward`: drain the queue of received qubits, processing each with
        the basis and outcome drawn for it; an exception is caught and the
        next qubit processed. In entanglement-swapping mode without an
        entangled channel the source never dequeues and spins forever, so
        that case is excluded unless the queue is empty. */
    method Forward(bases: seq<Basis>, outcomes: seq<Bit>)
      requires Valid()
      requires inbox == [] || protocol == BB84 || entangledChannel.Some?
      requires |bases| == |inbox| && |outcomes| == |inbox|
      modifies this
      ensures Valid()
      ensures inbox == []
      ensures View() == ReceiveAll(quantumChannels, old(View()), old(inbox), bases, outcomes)
      ensures quantumChannels == old(quantumChannels) && sharedBasesIndices == old(sharedBasesIndices)
      ensures entangledQubit == old(entangledQubit) && partnerAddress == old(partnerAddress) && entangledChannel == old(entangledChannel)
      ensures completedKeys == old(completedKeys)
    {
      var items := inbox;
      var i := 0;
      while inbox != []
        invariant Valid()
        invariant 0 <= i <= |items| && inbox == items[i..]
        invariant View() == ReceiveAll(quantumChannels, old(View()), items[..i], bases[..i], outcomes[..i])
        invariant quantumChannels == old(quantumChannels) && sharedBasesIndices == old(sharedBasesIndices)
        invariant entangledQubit == old(entangledQubit) && partnerAddress == old(partnerAddress) && entangledChannel == old(entangledChannel)
        invariant completedKeys == old(completedKeys)
        decreases |inbox|
      {
        var (q, from) := inbox[0];
        inbox := inbox[1..];
        var _ := ProcessReceivedQbit(q, from, bases[i], outcomes[i]);
        assert items[..i + 1][..i] == items[..i];
        assert bases[..i + 1][..i] == bases[..i] && outcomes[..i + 1][..i] == outcomes[..i];
        i := i + 1;
      }
      assert items[..i] == items && bases[..i] == bases && outcomes[..i] == outcomes;
    }

    /** The fields no BB84 classical handler touches: the channels, the
        choices and outcomes, the memories, the entanglement state, the
        received queue and the qubits sent. */
    twostate predicate Bb84Frame()
      reads this
    {
      quantumChannels == old(quantumChannels) && basisChoices == old(basisChoices) && measurementOutcomes == old(measurementOutcomes) &&
      qmemory == old(qmemory) && entangledQubit == old(entangledQubit) && partnerAddress == old(partnerAddress) && entangledChannel == old(entangledChannel) &&
      inbox == old(inbox) && sent == old(sent)
    }

    /** What `bb84_reconcile_bases` leaves: the agreeing indices stored and
        sent, and nothing else changed. */
    twostate predicate BasesReconciled(theirBases: seq<Basis>)
      reads this
    {
      sharedBasesIndices == ReconciledIndices(old(basisChoices), theirBases) &&
      outbox == old(outbox) + [SharedBasesIndices(sharedBasesIndices)] &&
      completedKeys == old(completedKeys) && Bb84Frame()
    }

    /** `bb84_reconcile_bases`: keep the indices at which the peer chose the
        same basis and send them to the peer. */
    method Bb84ReconcileBases(theirBases: seq<Basis>)
      modifies this
      ensures BasesReconciled(theirBases)
    {
      sharedBasesIndices := ReconciledIndices(basisChoices, theirBases);
      outbox := outbox + [SharedBasesIndices(sharedBasesIndices)];
    }

    /** What `update_shared_bases_indices` leaves: the peer's indices stored
        verbatim; no channel, a `randrange` over an empty range or a sample
        larger than the outcomes raise and send nothing; otherwise the
        sample of `(own outcome, index)` pairs is sent. Nothing else
        changes. */
    twostate predicate SampleSent(indices: seq<int>, sampleSize: int, picked: seq<int>, o: Outcome)
      reads this
    {
      sharedBasesIndices == indices && completedKeys == old(completedKeys) && Bb84Frame() &&
      (old(quantumChannels) == [] ==> o == Raised(NoneHasNoAttribute) && outbox == old(outbox)) &&
      (old(quantumChannels) != [] && old(quantumChannels)[0].numBits / 4 <= 2 ==> o == Raised(EmptyRandomRange) && outbox == old(outbox)) &&
      (old(quantumChannels) != [] && old(quantumChannels)[0].numBits / 4 > 2 && Min(sampleSize, |indices|) > old(|measurementOutcomes|) ==>
         o == Raised(SampleLargerThanPopulation) && outbox == old(outbox)) &&
      (o == Done <==> old(quantumChannels) != [] && old(quantumChannels)[0].numBits / 4 > 2 && Min(sampleSize, |indices|) <= old(|measurementOutcomes|)) &&
      (o == Done ==>
         |picked| == Min(sampleSize, |indices|) &&
         (forall j :: 0 <= j < |picked| ==> 0 <= picked[j] < |measurementOutcomes|) &&
         outbox == old(outbox) + [EstimateErrorRate(ErrorSample(measurementOutcomes, picked))])
    }

    /** `update_shared_bases_indices`: store the peer's indices verbatim,
        then send a sample of `(own outcome, index)` pairs for error
        estimation. `sampleSize` and `picked` are what `randrange` and
        `sample` returned. */
    method UpdateSharedBasesIndices(indices: seq<int>, sampleSize: int, picked: seq<int>) returns (o: Outcome)
      requires quantumChannels != [] ==> SampleDrawn(quantumChannels[0].numBits, |indices|, |measurementOutcomes|, sampleSize, picked)
      modifies this
      ensures SampleSent(indices, sampleSize, picked, o)
    {
      var channel := GetChannel(quantumChannels, name, None);
      sharedBasesIndices := indices;
      if channel.None? {
        return Raised(NoneHasNoAttribute);
      }
      if channel.value.numBits / 4 <= 2 {
        return Raised(EmptyRandomRange);
      }
      if Min(sampleSize, |sharedBasesIndices|) > |measurementOutcomes| {
        return Raised(SampleLargerThanPopulation);
      }
      var errorSample := ErrorSample(measurementOutcomes, picked);
      outbox := outbox + [EstimateErrorRate(errorSample)];
      return Done;
    }

    /** What `bb84_estimate_error_rate` leaves: an out-of-range index or a
        missing channel raise; above the threshold only the error-rate
        message is sent; otherwise `complete` is sent and the key extracted
        is completed, an out-of-range shared index raising after `complete`.
        Nothing else changes. */
    twostate predicate ErrorRateEstimated(sample: seq<(int, int)>, o: Outcome)
      reads this
    {
      var rate := ErrorRate(old(measurementOutcomes), sample);
      var key := ExtractKey(old(measurementOutcomes), old(sharedBasesIndices));
      sharedBasesIndices == old(sharedBasesIndices) && Bb84Frame() &&
      if rate.None? then o == Raised(IndexOutOfRange) && outbox == old(outbox) && completedKeys == old(completedKeys)
      else if old(quantumChannels) == [] then o == Raised(NoneHasNoAttribute) && outbox == old(outbox) && completedKeys == old(completedKeys)
      else if rate.value > old(quantumChannels)[0].errorRateThreshold then
        o == Done && outbox == old(outbox) + [ErrorRateExceeded(rate.value)] && completedKeys == old(completedKeys)
      else if key.None? then o == Raised(IndexOutOfRange) && outbox == old(outbox) + [Complete] && completedKeys == old(completedKeys)
      else o == Done && outbox == old(outbox) + [Complete] && completedKeys == old(completedKeys) + [key.value]
    }

    /** `bb84_estimate_error_rate`: above the first channel's threshold only
        an error-rate message is sent; otherwise `complete` is sent, then the
        key is extracted and handed to the completion callback. */
    method Bb84EstimateErrorRate(sample: seq<(int, int)>) returns (o: Outcome)
      modifies this
      ensures ErrorRateEstimated(sample, o)
    {
      var rate := ErrorRate(measurementOutcomes, sample);
      if rate.None? {
        return Raised(IndexOutOfRange);
      }
      var channel := GetChannel(quantumChannels, name, None);
      if channel.None? {
        return Raised(NoneHasNoAttribute);
      }
      if rate.value > channel.value.errorRateThreshold {
        outbox := outbox + [ErrorRateExceeded(rate.value)];
        return Done;
      }
      outbox := outbox + [Complete];
      o := CompleteKey();
    }

    /** What completing the key leaves: the extracted key handed to the
        callback, or IndexError with nothing completed; nothing else
        changes. */
    twostate predicate KeyCompleted(o: Outcome)
      reads this
    {
      var key := ExtractKey(old(measurementOutcomes), old(sharedBasesIndices));
      (if key.None? then o == Raised(IndexOutOfRange) && completedKeys == old(completedKeys)
       else o == Done && completedKeys == old(completedKeys) + [key.value]) &&
      sharedBasesIndices == old(sharedBasesIndices) && outbox == old(outbox) && Bb84Frame()
    }

    /** `bb84_extract_key` followed by the completion callback. */
    method CompleteKey() returns (o: Outcome)
      modifies this
      ensures KeyCompleted(o)
    {
      var key := ExtractKey(measurementOutcomes, sharedBasesIndices);
      if key.None? {
        return Raised(IndexOutOfRange);
      }
      completedKeys := completedKeys + [key.value];
      return Done;
    }

    /** The correction stopped before BB84 restarted: the partner, the
        entangled channel, the choices, the outcomes, the qubits sent and
        the memory are as they were. */
    twostate predicate NothingRestarted()
      reads this
    {
      partnerAddress == old(partnerAddress) && entangledChannel == old(entangledChannel) &&
      basisChoices == old(basisChoices) && measurementOutcomes == old(measurementOutcomes) &&
      sent == old(sent) && qmemory == old(qmemory)
    }

    /** Only the entangled channel of this host changed. */
    twostate predicate OnlyEntangledChannelChanged()
      reads this
    {
      quantumChannels == old(quantumChannels) && basisChoices == old(basisChoices) && measurementOutcomes == old(measurementOutcomes) &&
      sharedBasesIndices == old(sharedBasesIndices) && qmemory == old(qmemory) && entangledQubit == old(entangledQubit) &&
      partnerAddress == old(partnerAddress) && inbox == old(inbox) && sent == old(sent) && outbox == old(outbox) &&
      completedKeys == old(completedKeys)
    }

    /** Every peer other than this host and `except` is untouched. */
    twostate predicate OtherPeersUnchanged(peers: map<string, QuantumHost>, except: Option<string>)
      reads peers.Values
    {
      forall n :: n in peers && n != name && Some(n) != except ==> unchanged(peers[n])
    }

    /** What `apply_entanglement_correction` leaves once the correction is
        for the partner: the stored qubit corrected; without a first channel
        or a node beyond its repeater an exception, without a repeater
        nothing more; otherwise a new channel with the original number of
        bits shared with that node (whose other fields stay), BB84 started
        on it and the partner reset. The channels, shared indices, queue,
        messages and keys stay. */
    twostate predicate CorrectionApplied(m: (int, int), peers: map<string, QuantumHost>,
                                         chooseBasis: nat -> Basis, chooseBit: nat -> Bit,
                                         newChannelId: nat, defaultThreshold: real, o: Outcome)
      reads this, peers.Values
    {
      old(entangledQubit).Some? &&
      entangledQubit == Some(Correct(m, old(entangledQubit).value)) &&
      quantumChannels == old(quantumChannels) && sharedBasesIndices == old(sharedBasesIndices) &&
      inbox == old(inbox) && outbox == old(outbox) && completedKeys == old(completedKeys) &&
      match FindPartner(world, old(quantumChannels), name)
      case NoChannel => o == Raised(NoneHasNoAttribute) && NothingRestarted() && OtherPeersUnchanged(peers, None)
      case NoRepeater => o == Done && NothingRestarted() && OtherPeersUnchanged(peers, None)
      case NoTarget => o == Raised(NoneHasNoAttribute) && NothingRestarted() && OtherPeersUnchanged(peers, None)
      case Target(original, target) =>
        var ch := Channel(newChannelId, name, target, original.numBits, defaultThreshold);
        o == Done && partnerAddress == None && entangledChannel == Some(ch) &&
        (target in peers ==> peers[target].entangledChannel == Some(ch) && peers[target].OnlyEntangledChannelChanged()) &&
        OtherPeersUnchanged(peers, Some(target)) &&
        basisChoices == Drawn(ch.numBits, chooseBasis) &&
        measurementOutcomes == Drawn(ch.numBits, chooseBit) &&
        sent == old(sent) + Transmissions(ch, PreparedQubits(basisChoices, measurementOutcomes)) &&
        qmemory == (if ch.numBits == 0 then old(qmemory) else None)
    }

    /** `apply_entanglement_correction`: ignored without a stored qubit or
        for another partner; otherwise the Pauli correction is applied, and
        when the first channel leads to a repeater with a node beyond it, a
        new channel with the original number of bits is shared with that
        node, BB84 starts on it and the partner address is reset. `peers`
        are the end-host objects by name; the new channel's identity and
        default threshold are parameters. */
    method ApplyEntanglementCorrection(m: (int, int), other: string, peers: map<string, QuantumHost>,
                                       chooseBasis: nat -> Basis, chooseBit: nat -> Bit,
                                       newChannelId: nat, defaultThreshold: real) returns (o: Outcome)
      requires Valid()
      requires forall n :: n in peers ==> peers[n].name == n
      modifies this, peers.Values
      ensures Valid()
      ensures old(entangledQubit).None? || old(partnerAddress) != Some(other) ==>
        o == Done && unchanged(this) && unchanged(peers.Values)
      ensures old(entangledQubit).Some? && old(partnerAddress) == Some(other) ==>
        CorrectionApplied(m, peers, chooseBasis, chooseBit, newChannelId, defaultThreshold, o)
      ensures quantumChannels == old(quantumChannels) && sharedBasesIndices == old(sharedBasesIndices)
      ensures inbox == old(inbox) && outbox == old(outbox) && completedKeys == old(completedKeys)
    {
      if entangledQubit.None? || partnerAddress != Some(other) {
        return Done;
      }
      entangledQubit := Some(Correct(m, entangledQubit.value));
      var partner := FindPartner(world, quantumChannels, name);
      match partner
      case NoChannel =>
        return Raised(NoneHasNoAttribute);
      case NoRepeater =>
        return Done;
      case NoTarget =>
        return Raised(NoneHasNoAttribute);
      case Target(original, target) =>
        var ch := Channel(newChannelId, name, target, original.numBits, defaultThreshold);
        ShareChannel(ch, target, peers, chooseBasis, chooseBit);
        return Done;
    }

    /** The end of a correction that found `target` beyond the repeater:
        `ch` becomes the entangled channel of both ends, BB84 starts on it
        and the partner address is reset. */
    method ShareChannel(ch: Channel, target: string, peers: map<string, QuantumHost>,
                        chooseBasis: nat -> Basis, chooseBit: nat -> Bit)
      requires Valid()
      requires quantumChannels != [] && target != name
      requires forall n :: n in peers ==> peers[n].name == n
      modifies this, peers.Values
      ensures Valid()
      ensures partnerAddress == None && entangledChannel == Some(ch)
      ensures target in peers ==> peers[target].entangledChannel == Some(ch) && peers[target].OnlyEntangledChannelChanged()
      ensures OtherPeersUnchanged(peers, Some(target))
      ensures basisChoices == Drawn(ch.numBits, chooseBasis) && measurementOutcomes == Drawn(ch.numBits, chooseBit)
      ensures sent == old(sent) + Transmissions(ch, PreparedQubits(basisChoices, measurementOutcomes))
      ensures qmemory == (if ch.numBits == 0 then old(qmemory) else None)
      ensures quantumChannels == old(quantumChannels) && sharedBasesIndices == old(sharedBasesIndices) && entangledQubit == old(entangledQubit)
      ensures inbox == old(inbox) && outbox == old(outbox) && completedKeys == old(completedKeys)
    {
      entangledChannel := Some(ch);
      if target in peers {
        peers[target].entangledChannel := Some(ch);
      }
      var _ := Bb84SendQubits(chooseBasis, chooseBit);
      partnerAddress := None;
    }

    /** `receive_classical_data`: a swap correction is applied only in
        entanglement-swapping mode; the BB84 messages are acted on only in
        BB84 mode or once an entangled channel exists; an error-rate message
        or an unknown type changes nothing. The further parameters are the
        draws the handlers need. */
    method ReceiveClassicalData(msg: Message, peers: map<string, QuantumHost>,
                                chooseBasis: nat -> Basis, chooseBit: nat -> Bit,
                                newChannelId: nat, defaultThreshold: real,
                                sampleSize: int, picked: seq<int>) returns (o: Outcome)
      requires Valid()
      requires forall n :: n in peers ==> peers[n].name == n
      requires msg.SharedBasesIndices? && quantumChannels != [] ==>
        SampleDrawn(quantumChannels[0].numBits, |msg.indices|, |measurementOutcomes|, sampleSize, picked)
      modifies this, peers.Values
      ensures Valid()
      ensures msg.SwapCorrection? && protocol != EntanglementSwapping ==> o == Done && unchanged(this) && unchanged(peers.Values)
      ensures msg.SwapCorrection? && old(entangledQubit).None? ==> o == Done && unchanged(this) && unchanged(peers.Values)
      ensures msg.SwapCorrection? && old(partnerAddress) != Some(msg.otherNodeAddress) ==> o == Done && unchanged(this) && unchanged(peers.Values)
      ensures msg.SwapCorrection? && protocol == EntanglementSwapping && old(entangledQubit).Some? && old(partnerAddress) == Some(msg.otherNodeAddress) ==>
        CorrectionApplied(msg.measurement, peers, chooseBasis, chooseBit, newChannelId, defaultThreshold, o)
      ensures !msg.SwapCorrection? ==> OtherPeersUnchanged(peers, None)
      ensures !msg.SwapCorrection? && protocol != BB84 && old(entangledChannel).None? ==> o == Done && unchanged(this)
      ensures (msg.ErrorRateExceeded? || msg.Unrecognised?) ==> o == Done && unchanged(this)
      ensures msg.ReconcileBases? && (protocol == BB84 || old(entangledChannel).Some?) ==>
        o == Done && BasesReconciled(msg.bases)
      ensures msg.SharedBasesIndices? && (protocol == BB84 || old(entangledChannel).Some?) ==>
        SampleSent(msg.indices, sampleSize, picked, o)
      ensures msg.EstimateErrorRate? && (protocol == BB84 || old(entangledChannel).Some?) ==>
        ErrorRateEstimated(msg.sample, o)
      ensures msg.Complete? && (protocol == BB84 || old(entangledChannel).Some?) ==>
        KeyCompleted(o)
    {
      if msg.SwapCorrection? {
        if protocol == EntanglementSwapping {
          o := ApplyEntanglementCorrection(msg.measurement, msg.otherNodeAddress, peers, chooseBasis, chooseBit, newChannelId, defaultThreshold);
        } else {
          o := Done;
        }
        return;
      }
      o := Done;
      if protocol == BB84 || entangledChannel.Some? {
        match msg
        case ReconcileBases(bases) =>
          Bb84ReconcileBases(bases);
        case EstimateErrorRate(sample) =>
          o := Bb84EstimateErrorRate(sample);
        case Complete =>
          o := CompleteKey();
        case SharedBasesIndices(indices) =>
          o := UpdateSharedBasesIndices(indices, sampleSize, picked);
        case ErrorRateExceeded(_) =>
        case Unrecognised(_) =>
      }
    }
  }
}

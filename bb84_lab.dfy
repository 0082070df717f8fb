/** The reference BB84 lab: Alice's bits and bases, Bob's bases and
    measurements, sifting the key on matching bases, the quantum bit error
    rate, the 11% eavesdropping threshold, privacy amplification, and the
    simulated intercept-and-resend attack. Bits and bases are the integers
    the lab stores; an index past the end of a list, which raises in the
    lab, is the `None` result. */
module Bb84Lab {
  import opened Common

  // ---------------------------------------------------------------------
  // Sifting

  /** The first `n` positions can be compared: Bob has a basis there, and
      Alice a bit wherever the bases match. */
  predicate SiftableUpTo(aliceBases: seq<int>, bobBases: seq<int>, aliceBits: seq<int>, n: nat)
  {
    n <= |aliceBases| && n <= |bobBases| &&
    forall k :: 0 <= k < n && aliceBases[k] == bobBases[k] ==> k < |aliceBits|
  }

  /** `basis_reconciliation` reads no list past its end. */
  predicate SiftInRange(aliceBases: seq<int>, bobBases: seq<int>, aliceBits: seq<int>)
  {
    SiftableUpTo(aliceBases, bobBases, aliceBits, |aliceBases|)
  }

  /** The positions below `n` where Alice and Bob chose the same basis. */
  function MatchingIndices(aliceBases: seq<int>, bobBases: seq<int>, n: nat): (r: seq<nat>)
    requires n <= |aliceBases| && n <= |bobBases|
    ensures |r| <= n
    decreases n
  {
    if n == 0 then []
    else MatchingIndices(aliceBases, bobBases, n - 1) + (if aliceBases[n - 1] == bobBases[n - 1] then [n - 1] else [])
  }

  /** The matching positions are exactly those below `n` with equal bases,
      listed in increasing order. */
  lemma {:induction false} MatchingIndicesExact(aliceBases: seq<int>, bobBases: seq<int>, n: nat)
    requires n <= |aliceBases| && n <= |bobBases|
    ensures forall k :: k in MatchingIndices(aliceBases, bobBases, n) ==> k < n
    ensures forall k :: 0 <= k < n ==> (k in MatchingIndices(aliceBases, bobBases, n) <==> aliceBases[k] == bobBases[k])
    ensures forall j, k :: 0 <= j < k < |MatchingIndices(aliceBases, bobBases, n)| ==>
      MatchingIndices(aliceBases, bobBases, n)[j] < MatchingIndices(aliceBases, bobBases, n)[k]
  {
    if n > 0 {
      MatchingIndicesExact(aliceBases, bobBases, n - 1);
      var prev := MatchingIndices(aliceBases, bobBases, n - 1);
      assert forall j :: 0 <= j < |prev| ==> prev[j] in prev;
    }
  }

  /** The sifted key of the first `n` positions: Alice's bits, in order,
      where the bases match. */
  function Sift(aliceBases: seq<int>, bobBases: seq<int>, aliceBits: seq<int>, n: nat): seq<int>
    requires SiftableUpTo(aliceBases, bobBases, aliceBits, n)
    decreases n
  {
    if n == 0 then []
    else Sift(aliceBases, bobBases, aliceBits, n - 1) + (if aliceBases[n - 1] == bobBases[n - 1] then [aliceBits[n - 1]] else [])
  }

  /** The sifted key holds Alice's bit at each matching position, in order:
      its j-th bit is her bit at the j-th matching position. */
  lemma {:induction false} SiftIsBitsAtMatches(aliceBases: seq<int>, bobBases: seq<int>, aliceBits: seq<int>, n: nat)
    requires SiftableUpTo(aliceBases, bobBases, aliceBits, n)
    ensures |Sift(aliceBases, bobBases, aliceBits, n)| == |MatchingIndices(aliceBases, bobBases, n)|
    ensures forall j :: 0 <= j < |MatchingIndices(aliceBases, bobBases, n)| ==>
      MatchingIndices(aliceBases, bobBases, n)[j] < |aliceBits| &&
      Sift(aliceBases, bobBases, aliceBits, n)[j] == aliceBits[MatchingIndices(aliceBases, bobBases, n)[j]]
  {
    if n > 0 {
      SiftIsBitsAtMatches(aliceBases, bobBases, aliceBits, n - 1);
      MatchingIndicesExact(aliceBases, bobBases, n);
    }
  }

  /** The first check of `validate_fixes`: bases [0,1,0,1] against
      [0,0,0,1] with bits [1,0,1,0] sift to a 3-bit key. */
  lemma SiftExample()
    ensures SiftInRange([0, 1, 0, 1], [0, 0, 0, 1], [1, 0, 1, 0])
    ensures Sift([0, 1, 0, 1], [0, 0, 0, 1], [1, 0, 1, 0], 4) == [1, 1, 0]
  {
    assert Sift([0, 1, 0, 1], [0, 0, 0, 1], [1, 0, 1, 0], 1) == [1];
    assert Sift([0, 1, 0, 1], [0, 0, 0, 1], [1, 0, 1, 0], 3) == [1, 1];
  }

  // ---------------------------------------------------------------------
  // The quantum bit error rate

  /** The first `n` positions can be compared, and Bob has a measurement
      at each matching one. */
  predicate QberUpTo(aliceBases: seq<int>, bobBases: seq<int>, aliceBits: seq<int>, bobMeasurements: seq<int>, n: nat)
  {
    SiftableUpTo(aliceBases, bobBases, aliceBits, n) &&
    forall k :: 0 <= k < n && aliceBases[k] == bobBases[k] ==> k < |bobMeasurements|
  }

  /** `calculate_qber`'s loop reads no list past its end. */
  predicate QberInRange(aliceBases: seq<int>, bobBases: seq<int>, aliceBits: seq<int>, bobMeasurements: seq<int>)
  {
    QberUpTo(aliceBases, bobBases, aliceBits, bobMeasurements, |aliceBases|)
  }

  /** The matching positions below `n` where Bob measured another bit. */
  function Errors(aliceBases: seq<int>, bobBases: seq<int>, aliceBits: seq<int>, bobMeasurements: seq<int>, n: nat): nat
    requires QberUpTo(aliceBases, bobBases, aliceBits, bobMeasurements, n)
    decreases n
  {
    if n == 0 then 0
    else
      Errors(aliceBases, bobBases, aliceBits, bobMeasurements, n - 1) +
      (if aliceBases[n - 1] == bobBases[n - 1] && aliceBits[n - 1] != bobMeasurements[n - 1] then 1 else 0)
  }

  /** Errors are counted only at matching positions, so there are never
      more errors than matches. */
  lemma {:induction false} ErrorsAtMostMatches(aliceBases: seq<int>, bobBases: seq<int>, aliceBits: seq<int>, bobMeasurements: seq<int>, n: nat)
    requires QberUpTo(aliceBases, bobBases, aliceBits, bobMeasurements, n)
    ensures Errors(aliceBases, bobBases, aliceBits, bobMeasurements, n) <= |MatchingIndices(aliceBases, bobBases, n)|
  {
    if n > 0 {
      ErrorsAtMostMatches(aliceBases, bobBases, aliceBits, bobMeasurements, n - 1);
    }
  }

  /** When Bob measured Alice's bit at every matching position there is no
      error. */
  lemma {:induction false} NoErrorsWhenAgreeing(aliceBases: seq<int>, bobBases: seq<int>, aliceBits: seq<int>, bobMeasurements: seq<int>, n: nat)
    requires QberUpTo(aliceBases, bobBases, aliceBits, bobMeasurements, n)
    requires forall i :: 0 <= i < n && aliceBases[i] == bobBases[i] ==> aliceBits[i] == bobMeasurements[i]
    ensures Errors(aliceBases, bobBases, aliceBits, bobMeasurements, n) == 0
  {
    if n > 0 {
      NoErrorsWhenAgreeing(aliceBases, bobBases, aliceBits, bobMeasurements, n - 1);
    }
  }

  /** The error rate over all positions: 0 when no basis matches,
      otherwise errors over matches; never outside [0, 1]. */
  function Qber(aliceBases: seq<int>, bobBases: seq<int>, aliceBits: seq<int>, bobMeasurements: seq<int>): (r: real)
    requires QberInRange(aliceBases, bobBases, aliceBits, bobMeasurements)
    ensures 0.0 <= r <= 1.0
  {
    var matches := |MatchingIndices(aliceBases, bobBases, |aliceBases|)|;
    ErrorsAtMostMatches(aliceBases, bobBases, aliceBits, bobMeasurements, |aliceBases|);
    if matches == 0 then 0.0
    else
      var errors := Errors(aliceBases, bobBases, aliceBits, bobMeasurements, |aliceBases|);
      Ratio(errors, matches);
      errors as real / matches as real
  }

  /** `calculate_qber`: 0 for an empty shared key, `None` where the loop
      reads past a list, the error rate otherwise. */
  function QberResult(aliceBases: seq<int>, bobBases: seq<int>, aliceBits: seq<int>, bobMeasurements: seq<int>, sharedKey: seq<int>): (r: Option<real>)
    ensures r.Some? ==> 0.0 <= r.value <= 1.0
    ensures sharedKey == [] ==> r == Some(0.0)
    ensures sharedKey != [] ==> (r.Some? <==> QberInRange(aliceBases, bobBases, aliceBits, bobMeasurements))
  {
    if sharedKey == [] then Some(0.0)
    else if QberInRange(aliceBases, bobBases, aliceBits, bobMeasurements) then Some(Qber(aliceBases, bobBases, aliceBits, bobMeasurements))
    else None
  }

  /** A run without errors on the sifted positions has rate 0. */
  lemma NoiselessQber(aliceBases: seq<int>, bobBases: seq<int>, aliceBits: seq<int>, bobMeasurements: seq<int>)
    requires QberInRange(aliceBases, bobBases, aliceBits, bobMeasurements)
    requires forall i :: 0 <= i < |aliceBases| && aliceBases[i] == bobBases[i] ==> aliceBits[i] == bobMeasurements[i]
    ensures Qber(aliceBases, bobBases, aliceBits, bobMeasurements) == 0.0
  {
    NoErrorsWhenAgreeing(aliceBases, bobBases, aliceBits, bobMeasurements, |aliceBases|);
  }

  /** The rate's denominator is the length of the sifted key. */
  lemma QberCountsSiftedKey(aliceBases: seq<int>, bobBases: seq<int>, aliceBits: seq<int>, bobMeasurements: seq<int>)
    requires QberInRange(aliceBases, bobBases, aliceBits, bobMeasurements)
    ensures |MatchingIndices(aliceBases, bobBases, |aliceBases|)| == |Sift(aliceBases, bobBases, aliceBits, |aliceBases|)|
  {
    SiftIsBitsAtMatches(aliceBases, bobBases, aliceBits, |aliceBases|);
  }

  // ---------------------------------------------------------------------
  // Detection and privacy amplification

  const DetectionThreshold: real := 0.11

  /** `detect_eavesdropping` on a given error rate. */
  function Verdict(qber: real): (r: string)
    ensures r == "EAVESDROPPER DETECTED" || r == "SECURE"
  {
    if qber > DetectionThreshold then "EAVESDROPPER DETECTED" else "SECURE"
  }

  /** An eavesdropper is reported exactly above the 11% threshold; the
      second check of `validate_fixes` (15% is detected) is an instance. */
  lemma VerdictThreshold(qber: real)
    ensures Verdict(qber) == "EAVESDROPPER DETECTED" <==> qber > 0.11
    ensures Verdict(0.15) == "EAVESDROPPER DETECTED"
    ensures Verdict(0.11) == "SECURE"
  {
    assert "EAVESDROPPER DETECTED" != "SECURE";
  }

  const HashBits: int := 64

  /** `privacy_amplification`: keep a prefix of the raw key, shortened by
      twice the estimated errors and by the 64 bits of the hash. */
  function PrivacyAmplification(rawKey: seq<int>, errorEstimate: int): (r: seq<int>)
    ensures |r| <= |rawKey| && r == rawKey[..|r|]
    ensures |rawKey| <= 2 * errorEstimate + HashBits ==> r == []
    ensures |rawKey| > 2 * errorEstimate + HashBits ==>
      |r| == if 2 * errorEstimate + HashBits >= 0 then |rawKey| - 2 * errorEstimate - HashBits else |rawKey|
  {
    var secureLength := |rawKey| - 2 * errorEstimate - HashBits;
    PyPrefix(rawKey, Some(if secureLength < 0 then 0 else secureLength))
  }

  // ---------------------------------------------------------------------
  // The lab's state

  /** Whether Eve's interception at position `i` flips Bob's measurement:
      she intercepts, guesses another basis than Alice's, and the resent
      qubit measures wrong. The three random draws are oracles. */
  predicate EveFlips(aliceBases: seq<int>, intercepts: nat -> bool, eveBasis: nat -> int, wrong: nat -> bool, i: nat)
    requires i < |aliceBases|
  {
    intercepts(i) && eveBasis(i) != aliceBases[i] && wrong(i)
  }

  /** Bob's measurements after Eve interfered with the first `n`. */
  function Eavesdropped(m: seq<int>, aliceBases: seq<int>, intercepts: nat -> bool, eveBasis: nat -> int, wrong: nat -> bool, n: nat): (r: seq<int>)
    requires n <= |m| && n <= |aliceBases|
    ensures |r| == |m|
    ensures forall i :: n <= i < |m| ==> r[i] == m[i]
    ensures forall i :: 0 <= i < n ==> r[i] == if EveFlips(aliceBases, intercepts, eveBasis, wrong, i) then 1 - m[i] else m[i]
    decreases n
  {
    if n == 0 then m
    else
      var prev := Eavesdropped(m, aliceBases, intercepts, eveBasis, wrong, n - 1);
      if EveFlips(aliceBases, intercepts, eveBasis, wrong, n - 1) then prev[n - 1 := 1 - prev[n - 1]] else prev
  }

  /** The position where the attack loop fails: the first intercepted
      position with no basis of Alice's to compare with. */
  predicate AttackFailsAt(m: seq<int>, aliceBases: seq<int>, intercepts: nat -> bool, i: nat)
  {
    |aliceBases| <= i < |m| && intercepts(i) &&
    forall k :: |aliceBases| <= k < i ==> !intercepts(k)
  }

  /** Eve only disturbs positions where her basis differs from Alice's, so
      where Bob's measurement changed, Eve chose the other basis. */
  lemma EveOnlyFlipsOnWrongBasis(m: seq<int>, aliceBases: seq<int>, intercepts: nat -> bool, eveBasis: nat -> int, wrong: nat -> bool, n: nat, i: nat)
    requires n <= |m| && n <= |aliceBases| && i < |m|
    requires Eavesdropped(m, aliceBases, intercepts, eveBasis, wrong, n)[i] != m[i]
    ensures i < n && intercepts(i) && eveBasis(i) != aliceBases[i]
  {
  }

  function Min(a: int, b: int): int
  {
    if a < b then a else b
  }

  /** Eve's interference leaves no measurement alone when she never
      intercepts. */
  lemma {:induction false} NoInterceptionNoChange(m: seq<int>, aliceBases: seq<int>, intercepts: nat -> bool, eveBasis: nat -> int, wrong: nat -> bool, n: nat)
    requires n <= |m| && n <= |aliceBases|
    requires forall i :: !intercepts(i)
    ensures Eavesdropped(m, aliceBases, intercepts, eveBasis, wrong, n) == m
  {
    if n > 0 {
      NoInterceptionNoChange(m, aliceBases, intercepts, eveBasis, wrong, n - 1);
    }
  }

  /** The lab's protocol data (`BB84DebuggingLabSolutions`). */
  class Lab {
    const nBits: nat
    var aliceBits: seq<int>
    var aliceBases: seq<int>
    var bobBases: seq<int>
    var bobMeasurements: seq<int>
    var sharedKey: seq<int>

    constructor ()
      ensures nBits == 100
      ensures aliceBits == [] && aliceBases == [] && bobBases == [] && bobMeasurements == [] && sharedKey == []
    {
      nBits := 100;
      aliceBits := [];
      aliceBases := [];
      bobBases := [];
      bobMeasurements := [];
      sharedKey := [];
    }

    /** `basis_reconciliation`: Alice's bits where the bases match. */
    method BasisReconciliation() returns (r: Option<seq<int>>)
      ensures r.Some? <==> SiftInRange(aliceBases, bobBases, aliceBits)
      ensures r.Some? ==> r.value == Sift(aliceBases, bobBases, aliceBits, |aliceBases|)
    {
      var key: seq<int> := [];
      var i := 0;
      while i < |aliceBases|
        invariant SiftableUpTo(aliceBases, bobBases, aliceBits, i)
        invariant key == Sift(aliceBases, bobBases, aliceBits, i)
      {
        if i >= |bobBases| {
          return None;
        }
        if aliceBases[i] == bobBases[i] {
          if i >= |aliceBits| {
            return None;
          }
          key := key + [aliceBits[i]];
        }
        i := i + 1;
      }
      return Some(key);
    }

    /** `calculate_qber` on the lab's lists. */
    method CalculateQber() returns (r: Option<real>)
      ensures r == QberResult(aliceBases, bobBases, aliceBits, bobMeasurements, sharedKey)
    {
      if |sharedKey| == 0 {
        return Some(0.0);
      }
      var errors := 0;
      var matching: seq<nat> := [];
      var i := 0;
      while i < |aliceBases|
        invariant QberUpTo(aliceBases, bobBases, aliceBits, bobMeasurements, i)
        invariant matching == MatchingIndices(aliceBases, bobBases, i)
        invariant errors == Errors(aliceBases, bobBases, aliceBits, bobMeasurements, i)
      {
        if i >= |bobBases| {
          return None;
        }
        if aliceBases[i] == bobBases[i] {
          matching := matching + [i];
          if i >= |aliceBits| || i >= |bobMeasurements| {
            return None;
          }
          if aliceBits[i] != bobMeasurements[i] {
            errors := errors + 1;
          }
        }
        i := i + 1;
      }
      if |matching| == 0 {
        return Some(0.0);
      }
      return Some(errors as real / |matching| as real);
    }

    /** `detect_eavesdropping`: the verdict on the lab's error rate. */
    method DetectEavesdropping() returns (r: Option<string>)
      ensures var q := QberResult(aliceBases, bobBases, aliceBits, bobMeasurements, sharedKey);
        (r.Some? <==> q.Some?) && (r.Some? ==> r.value == Verdict(q.value))
    {
      var q := CalculateQber();
      if q.None? {
        return None;
      }
      return Some(Verdict(q.value));
    }

    /** `test_privacy_amplification`: amplify the shared key with the
        error estimate `int(qber * len(shared_key))`. Reporting the
        efficiency divides by the raw key's length, which fails for an
        empty shared key. */
    method TestPrivacyAmplification() returns (r: Option<seq<int>>)
      ensures r.Some? <==> sharedKey != [] && QberInRange(aliceBases, bobBases, aliceBits, bobMeasurements)
      ensures r.Some? ==> 0 <= ErrorEstimate(aliceBases, bobBases, aliceBits, bobMeasurements, sharedKey) <= |sharedKey|
      ensures r.Some? ==> r.value == PrivacyAmplification(sharedKey, ErrorEstimate(aliceBases, bobBases, aliceBits, bobMeasurements, sharedKey))
    {
      var rawLength := |sharedKey|;
      var q := CalculateQber();
      if q.None? {
        return None;
      }
      var errorEstimate := (q.value * rawLength as real).Floor;
      EstimateBounds(q.value, rawLength);
      var secure := PrivacyAmplification(sharedKey, errorEstimate);
      if rawLength == 0 {
        return None;
      }
      assert errorEstimate == ErrorEstimate(aliceBases, bobBases, aliceBits, bobMeasurements, sharedKey);
      return Some(secure);
    }

    /** `simulate_eavesdropping`: Eve intercepts and resends, the key is
        sifted again and its error rate measured, and Bob's measurements
        are put back. An exception on the way leaves them as Eve left
        them. Eve's random draws are the oracles `intercepts`, `eveBasis`
        and `wrong`. */
    method SimulateEavesdropping(intercepts: nat -> bool, eveBasis: nat -> int, wrong: nat -> bool) returns (r: Option<real>)
      modifies this
      ensures aliceBits == old(aliceBits) && aliceBases == old(aliceBases) && bobBases == old(bobBases)
      ensures var attacked := Eavesdropped(old(bobMeasurements), aliceBases, intercepts, eveBasis, wrong, Min(|old(bobMeasurements)|, |aliceBases|));
        if exists i :: AttackFailsAt(old(bobMeasurements), aliceBases, intercepts, i) then
          r.None? && bobMeasurements == attacked && sharedKey == old(sharedKey)
        else if !SiftInRange(aliceBases, bobBases, aliceBits) then
          r.None? && bobMeasurements == attacked && sharedKey == old(sharedKey)
        else
          sharedKey == Sift(aliceBases, bobBases, aliceBits, |aliceBases|) &&
          r == QberResult(aliceBases, bobBases, aliceBits, attacked, sharedKey) &&
          bobMeasurements == (if r.Some? then old(bobMeasurements) else attacked)
    {
      var original := bobMeasurements;
      var i := 0;
      while i < |bobMeasurements|
        invariant |bobMeasurements| == |original| && i <= |original|
        invariant forall k :: |aliceBases| <= k < i ==> !intercepts(k)
        invariant bobMeasurements == Eavesdropped(original, aliceBases, intercepts, eveBasis, wrong, Min(i, |aliceBases|))
        invariant sharedKey == old(sharedKey)
        invariant aliceBits == old(aliceBits) && aliceBases == old(aliceBases) && bobBases == old(bobBases)
      {
        if intercepts(i) {
          if i >= |aliceBases| {
            assert AttackFailsAt(original, aliceBases, intercepts, i);
            return None;
          }
          if eveBasis(i) != aliceBases[i] && wrong(i) {
            bobMeasurements := bobMeasurements[i := 1 - bobMeasurements[i]];
          }
        }
        i := i + 1;
      }
      AttackSucceeded(original, aliceBases, intercepts);
      var key := BasisReconciliation();
      if key.None? {
        return None;
      }
      sharedKey := key.value;
      r := CalculateQber();
      if r.None? {
        return;
      }
      var status := DetectEavesdropping();
      bobMeasurements := original;
    }
  }

  /** `int(qber * len(shared_key))` for a key whose rate can be computed. */
  function ErrorEstimate(aliceBases: seq<int>, bobBases: seq<int>, aliceBits: seq<int>, bobMeasurements: seq<int>, sharedKey: seq<int>): int
    requires QberInRange(aliceBases, bobBases, aliceBits, bobMeasurements)
  {
    (Qber(aliceBases, bobBases, aliceBits, bobMeasurements) * |sharedKey| as real).Floor
  }

  /** The error estimate drawn from a rate in [0, 1] is between 0 and the
      key's length. */
  lemma EstimateBounds(q: real, n: nat)
    requires 0.0 <= q <= 1.0
    ensures 0 <= (q * n as real).Floor <= n
  {
    assert 0.0 <= q * n as real <= n as real;
  }

  /** The attack loop that did not fail met no intercepted position past
      Alice's bases. */
  lemma AttackSucceeded(m: seq<int>, aliceBases: seq<int>, intercepts: nat -> bool)
    requires forall k :: |aliceBases| <= k < |m| ==> !intercepts(k)
    ensures !exists i :: AttackFailsAt(m, aliceBases, intercepts, i)
  {
  }
}

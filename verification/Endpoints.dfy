/**
 The nodes that count and send: nodes/src/packet_counter_node.c and
 nodes/src/sender_node.c.
 */
module Endpoints {
  import opened Bytes
  import opened Tagger

  const VLAN_ETH_FRAME_LEN: nat := 1518

  /** Sniffer and sender give up when this many errors in a row are followed by another. */
  const MAX_ERRORS: nat := 3

  // ---------------------------------------------------------------- packet counter

  /** The statistics of a counter, without the width of their C type. */
  datatype Stats = Stats(total: nat, bytes: nat, vlan: nat, nonVlan: nat)

  const NO_STATS := Stats(0, 0, 0, 0)

  /** The statistics of the frames `fs`. */
  function Tally(fs: seq<Frame>): Stats {
    if fs == [] then NO_STATS
    else Counted(Tally(fs[..|fs| - 1]), fs[|fs| - 1])
  }

  function Counted(s: Stats, f: Frame): Stats {
    Stats(s.total + 1, s.bytes + |f|,
          s.vlan + if IsVlan(f) then 1 else 0,
          s.nonVlan + if IsVlan(f) then 0 else 1)
  }

  function TotalBytes(fs: seq<Frame>): nat {
    if fs == [] then 0 else |fs[0]| + TotalBytes(fs[1..])
  }

  lemma WrapStep(x: nat, k: nat)
    ensures (x % U64 + k) % U64 == (x + k) % U64
  {
  }

  /** The counters as the C code keeps them: `unsigned long`, wrapping. */
  function Wrapped(s: Stats): Stats {
    Stats(s.total % U64, s.bytes % U64, s.vlan % U64, s.nonVlan % U64)
  }

  /** A frame with the bytes 81 00 after its addresses. */
  predicate HasTag(f: Frame) {
    |f| >= 16 && f[12] == 0x81 && f[13] == 0x00
  }

  /** The places of `fs` with such a frame. */
  function TaggedPlaces(fs: seq<Frame>): set<nat> {
    set k: nat | k < |fs| && HasTag(fs[k])
  }

  lemma TaggedPlacesSnoc(fs: seq<Frame>, f: Frame)
    ensures |TaggedPlaces(fs + [f])| == |TaggedPlaces(fs)| + if HasTag(f) then 1 else 0
  {
    hide HasTag;
    var gs, n: nat := fs + [f], |fs|;
    assert forall k :: 0 <= k < n ==> gs[k] == fs[k];
    assert gs[n] == f;
    assert n !in TaggedPlaces(fs);
    assert TaggedPlaces(gs) == if HasTag(f) then TaggedPlaces(fs) + {n} else TaggedPlaces(fs);
  }

  /** Every frame is counted once as a packet, once by its size and once by its kind. */
  lemma {:induction false} TallyAgrees(fs: seq<Frame>)
    ensures var t := Tally(fs);
            && t.total == |fs| == t.vlan + t.nonVlan && t.bytes == TotalBytes(fs)
            && t.vlan == |TaggedPlaces(fs)|
    ensures (forall i :: 0 <= i < |fs| ==> IsVlan(fs[i])) ==> Tally(fs).nonVlan == 0 && Tally(fs).vlan == |fs|
  {
    if fs == [] {
    } else {
      TallyAgrees(fs[..|fs| - 1]);
      BytesSnoc(fs[..|fs| - 1], fs[|fs| - 1]);
      TaggedPlacesSnoc(fs[..|fs| - 1], fs[|fs| - 1]);
      assert fs == fs[..|fs| - 1] + [fs[|fs| - 1]];
    }
  }

  lemma {:induction false} BytesSnoc(fs: seq<Frame>, f: Frame)
    ensures TotalBytes(fs + [f]) == TotalBytes(fs) + |f|
  {
    if fs == [] {
      assert fs + [f] == [f];
    } else {
      BytesSnoc(fs[1..], f);
      assert (fs + [f])[1..] == fs[1..] + [f];
    }
  }

  /** `PacketCounterContext`. */
  class CounterNode {
    var totalPackets: nat
    var totalBytes: nat
    var vlanPackets: nat
    var nonVlanPackets: nat

    constructor ()
      ensures Shows(NO_STATS)
    {
      totalPackets, totalBytes, vlanPackets, nonVlanPackets := 0, 0, 0, 0;
    }

    /** The fields hold the statistics `s`, each modulo 2^64. */
    ghost predicate Shows(s: Stats)
      reads this
    {
      && totalPackets == Wrapped(s).total
      && totalBytes == Wrapped(s).bytes
      && vlanPackets == Wrapped(s).vlan
      && nonVlanPackets == Wrapped(s).nonVlan
    }

    /** The loop body of `packet_counter_node_process`: every frame goes on unchanged. */
    method Count(f: Frame, ghost s: Stats) returns (sent: Frame)
      requires Shows(s)
      modifies this
      ensures Shows(Counted(s, f)) && sent == f
    {
      WrapStep(s.total, 1);
      WrapStep(s.bytes, |f|);
      WrapStep(s.vlan, 1);
      WrapStep(s.nonVlan, 1);
      totalPackets := (totalPackets + 1) % U64;
      totalBytes := (totalBytes + |f|) % U64;
      if |f| >= 16 && Be16(f, 12) == ETH_P_8021Q {
        vlanPackets := (vlanPackets + 1) % U64;
      } else {
        nonVlanPackets := (nonVlanPackets + 1) % U64;
      }
      sent := f;
    }

    /** The loop over the frames it pops. */
    method Process(popped: seq<Frame>) returns (sent: seq<Frame>)
      requires Shows(NO_STATS)
      modifies this
      ensures Shows(Tally(popped)) && sent == popped
      ensures var w, tagged := 0x1_0000_0000_0000_0000, |TaggedPlaces(popped)|;
              && tagged <= |popped|
              && totalPackets == |popped| % w && totalBytes == TotalBytes(popped) % w
              && vlanPackets == tagged % w && nonVlanPackets == (|popped| - tagged) % w
    {
      sent := [];
      for i := 0 to |popped|
        invariant Shows(Tally(popped[..i])) && sent == popped[..i]
      {
        assert popped[..i + 1][..i] == popped[..i] && popped[..i + 1][i] == popped[i];
        var f := Count(popped[i], Tally(popped[..i]));
        sent := sent + [f];
      }
      assert popped[..|popped|] == popped;
      TallyAgrees(popped);
    }
  }

  // ---------------------------------------------------------------- sender

  /** The frames a sender tries to send; longer ones are skipped. */
  predicate Sendable(f: Frame) {
    |f| < VLAN_ETH_FRAME_LEN
  }

  /** The length of the run of failures that ends the attempts so far. */
  function TrailingFailures(outcomes: seq<bool>): nat {
    if outcomes == [] || outcomes[|outcomes| - 1] then 0
    else 1 + TrailingFailures(outcomes[..|outcomes| - 1])
  }

  /** Four failures in a row somewhere in `outcomes`. */
  ghost predicate GivesUp(outcomes: seq<bool>) {
    exists k :: 0 <= k && k + 4 <= |outcomes|
      && !outcomes[k] && !outcomes[k + 1] && !outcomes[k + 2] && !outcomes[k + 3]
  }

  /** The frames of `fs` that were attempted, with attempt `k` ending as `outcomes[k]`, and that went out. */
  function SentOf(attempted: seq<Frame>, outcomes: seq<bool>): seq<Frame>
    requires |attempted| <= |outcomes|
  {
    if attempted == [] then []
    else
      var n := |attempted| - 1;
      SentOf(attempted[..n], outcomes) + if outcomes[n] then [attempted[n]] else []
  }

  function Attempts(fs: seq<Frame>): seq<Frame> {
    if fs == [] then []
    else Attempts(fs[..|fs| - 1]) + if Sendable(fs[|fs| - 1]) then [fs[|fs| - 1]] else []
  }

  lemma {:induction false} AttemptsGrow(fs: seq<Frame>, i: nat)
    requires i <= |fs|
    ensures |Attempts(fs[..i])| <= |Attempts(fs)| && Attempts(fs[..i]) <= Attempts(fs)
  {
    if i < |fs| {
      AttemptsGrow(fs[..|fs| - 1], i);
      assert fs[..|fs| - 1][..i] == fs[..i];
    } else {
      assert fs[..i] == fs;
    }
  }

  lemma LastFailure(outcomes: seq<bool>, k: nat)
    requires k <= |outcomes|
    ensures k > 0 && outcomes[k - 1] ==> TrailingFailures(outcomes[..k]) == 0
    ensures k > 0 && !outcomes[k - 1] ==> TrailingFailures(outcomes[..k]) == 1 + TrailingFailures(outcomes[..k - 1])
    ensures TrailingFailures(outcomes[..k]) > 0 ==> k > 0 && !outcomes[k - 1]
  {
    if k > 0 {
      assert outcomes[..k][..k - 1] == outcomes[..k - 1] && outcomes[..k][k - 1] == outcomes[k - 1];
    }
  }

  /** The run of failures tells whether the sender has to give up. */
  lemma FourInARow(outcomes: seq<bool>, k: nat)
    requires k <= |outcomes| && TrailingFailures(outcomes[..k]) > 3
    ensures GivesUp(outcomes)
  {
    LastFailure(outcomes, k);
    LastFailure(outcomes, k - 1);
    LastFailure(outcomes, k - 2);
    LastFailure(outcomes, k - 3);
    assert !outcomes[k - 4];
  }

  lemma RunsStayShort(outcomes: seq<bool>, k: nat)
    requires k + 4 <= |outcomes|
    requires !outcomes[k] && !outcomes[k + 1] && !outcomes[k + 2] && !outcomes[k + 3]
    ensures TrailingFailures(outcomes[..k + 4]) > MAX_ERRORS
  {
    LastFailure(outcomes, k + 1);
    LastFailure(outcomes, k + 2);
    LastFailure(outcomes, k + 3);
    LastFailure(outcomes, k + 4);
  }

  /** No run of failures within the first `n` attempts has exceeded the limit. */
  ghost predicate ShortRuns(outcomes: seq<bool>, n: nat)
    requires n <= |outcomes|
  {
    forall k :: 0 <= k <= n ==> TrailingFailures(outcomes[..k]) <= MAX_ERRORS
  }

  lemma ShortRunsStep(outcomes: seq<bool>, n: nat)
    requires n < |outcomes| && ShortRuns(outcomes, n)
    ensures TrailingFailures(outcomes[..n + 1]) <= MAX_ERRORS ==> ShortRuns(outcomes, n + 1)
  {
    hide TrailingFailures;
  }

  lemma ShortRunsNone(outcomes: seq<bool>)
    ensures ShortRuns(outcomes, 0) && TrailingFailures(outcomes[..0]) == 0
  {
  }

  lemma ShortRunsOnly(outcomes: seq<bool>)
    requires ShortRuns(outcomes, |outcomes|)
    ensures !GivesUp(outcomes)
  {
    if GivesUp(outcomes) {
      var k :| 0 <= k && k + 4 <= |outcomes|
        && !outcomes[k] && !outcomes[k + 1] && !outcomes[k + 2] && !outcomes[k + 3];
      RunsStayShort(outcomes, k);
    }
  }

  /** The attempts for the first `i` frames, what went out, and the failures in a row at the end. */
  ghost predicate SentSoFar(popped: seq<Frame>, outcomes: seq<bool>, i: nat, sent: seq<Frame>, attempts: nat, errors: nat) {
    && i <= |popped| && attempts == |Attempts(popped[..i])| <= |outcomes|
    && sent == SentOf(Attempts(popped[..i]), outcomes)
    && errors == TrailingFailures(outcomes[..attempts])
  }

  lemma NothingSentYet(popped: seq<Frame>, outcomes: seq<bool>)
    ensures SentSoFar(popped, outcomes, 0, [], 0, 0)
  {
  }

  /** Attempted are the frames below 1518 bytes, and sent the attempted ones whose send succeeded, in order. */
  lemma AttemptsAndSuccesses(fs: seq<Frame>, f: Frame, attempted: seq<Frame>, g: Frame, outcomes: seq<bool>)
    requires |attempted| < |outcomes|
    ensures Attempts([]) == [] && Attempts(fs + [f]) == if |f| < 1518 then Attempts(fs) + [f] else Attempts(fs)
    ensures SentOf([], outcomes) == []
    ensures SentOf(attempted + [g], outcomes) ==
            if outcomes[|attempted|] then SentOf(attempted, outcomes) + [g] else SentOf(attempted, outcomes)
  {
    assert (fs + [f])[..|fs|] == fs && (attempted + [g])[..|attempted|] == attempted;
  }

  lemma AttemptsStep(popped: seq<Frame>, i: nat)
    requires i < |popped|
    ensures Attempts(popped[..i + 1]) == Attempts(popped[..i]) + if Sendable(popped[i]) then [popped[i]] else []
  {
    assert popped[..i + 1][..i] == popped[..i] && popped[..i + 1][i] == popped[i];
  }

  /** A frame that is too long changes nothing. */
  lemma SkippedOne(popped: seq<Frame>, outcomes: seq<bool>, i: nat, sent: seq<Frame>, attempts: nat, errors: nat)
    requires SentSoFar(popped, outcomes, i, sent, attempts, errors) && i < |popped| && !Sendable(popped[i])
    ensures SentSoFar(popped, outcomes, i + 1, sent, attempts, errors)
  {
    hide SentOf, TrailingFailures, Attempts;
    AttemptsStep(popped, i);
    assert Attempts(popped[..i]) + [] == Attempts(popped[..i]);
  }

  /** One attempt: a success ends the run of failures, a failure prolongs it. */
  lemma AttemptedOne(popped: seq<Frame>, outcomes: seq<bool>, i: nat, sent: seq<Frame>, attempts: nat, errors: nat)
    requires SentSoFar(popped, outcomes, i, sent, attempts, errors) && i < |popped| && Sendable(popped[i])
    requires |outcomes| == |Attempts(popped)|
    ensures attempts < |outcomes|
    ensures if outcomes[attempts] then SentSoFar(popped, outcomes, i + 1, sent + [popped[i]], attempts + 1, 0)
            else SentSoFar(popped, outcomes, i + 1, sent, attempts + 1, errors + 1)
  {
    hide TrailingFailures, Attempts, SentOf;
    AttemptsStep(popped, i);
    AttemptsGrow(popped, i + 1);
    LastFailure(outcomes, attempts + 1);
    var tried := Attempts(popped[..i + 1]);
    assert tried[..attempts] == Attempts(popped[..i]) && tried[attempts] == popped[i];
    OutcomeDecides(tried, outcomes, attempts);
    assert sent + [] == sent;
  }

  lemma OutcomeDecides(attempted: seq<Frame>, outcomes: seq<bool>, n: nat)
    requires |attempted| == n + 1 <= |outcomes|
    ensures SentOf(attempted, outcomes) == SentOf(attempted[..n], outcomes) + if outcomes[n] then [attempted[n]] else []
  {
  }

  /** What `SentSoFar` says of the whole list of attempts. */
  lemma SoFarMeans(popped: seq<Frame>, outcomes: seq<bool>, i: nat, sent: seq<Frame>, attempts: nat, errors: nat)
    requires SentSoFar(popped, outcomes, i, sent, attempts, errors)
    ensures attempts <= |outcomes| && attempts <= |Attempts(popped)|
    ensures sent == SentOf(Attempts(popped)[..attempts], outcomes)
    ensures errors == TrailingFailures(outcomes[..attempts])
    ensures i == |popped| ==> attempts == |Attempts(popped)|
  {
    hide SentOf, TrailingFailures, Attempts;
    AttemptsGrow(popped, i);
    assert Attempts(popped)[..attempts] == Attempts(popped[..i]);
    if i == |popped| {
      assert popped[..i] == popped;
    }
  }

  /**
   The loop of `sender_node_process` over the frames it pops, with `outcomes[k]` the
   success of the `k`-th `sendto`. It sets the exit flag exactly when four sends in a
   row have failed; otherwise every frame below 1518 bytes is attempted, in order.
   */
  method Send(popped: seq<Frame>, outcomes: seq<bool>) returns (sent: seq<Frame>, exited: bool, attempts: nat)
    requires |outcomes| == |Attempts(popped)|
    ensures attempts <= |outcomes|
    ensures sent == SentOf(Attempts(popped)[..attempts], outcomes)
    ensures !exited ==> attempts == |outcomes|
    ensures exited <==> GivesUp(outcomes)
    ensures exited ==> TrailingFailures(outcomes[..attempts]) == 4
  {
    hide Attempts, SentOf, TrailingFailures, GivesUp, SentSoFar, ShortRuns;
    sent, attempts := [], 0;
    var errCounter := 0;
    NothingSentYet(popped, outcomes);
    ShortRunsNone(outcomes);
    for i := 0 to |popped|
      invariant SentSoFar(popped, outcomes, i, sent, attempts, errCounter)
      invariant attempts <= |outcomes| && ShortRuns(outcomes, attempts) && errCounter <= MAX_ERRORS
    {
      var f := popped[i];
      if |f| >= VLAN_ETH_FRAME_LEN {
        SkippedOne(popped, outcomes, i, sent, attempts, errCounter);
        continue;
      }
      AttemptedOne(popped, outcomes, i, sent, attempts, errCounter);
      ShortRunsStep(outcomes, attempts);
      var ok := outcomes[attempts];
      attempts := attempts + 1;
      if !ok {
        SoFarMeans(popped, outcomes, i + 1, sent, attempts, errCounter + 1);
        if errCounter == MAX_ERRORS {
          FourInARow(outcomes, attempts);
          return sent, true, attempts;
        }
        errCounter := errCounter + 1;
      } else {
        errCounter := 0;
        sent := sent + [f];
        SoFarMeans(popped, outcomes, i + 1, sent, attempts, 0);
      }
    }
    SoFarMeans(popped, outcomes, |popped|, sent, attempts, errCounter);
    exited := false;
    ShortRunsOnly(outcomes);
  }
}

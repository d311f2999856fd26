/**
 nodes/src/dispatcher_node.c: round-robin dealing of popped frames to `n` outputs,
 whatever the target queues accept.
 */
module Dispatcher {
  import opened Bytes

  // ---------------------------------------------------------------- dealing

  /** The output after `cur`. */
  function Advance(cur: nat, n: nat): (next: nat)
    requires cur < n
    ensures next < n
  {
    if cur + 1 == n then 0 else cur + 1
  }

  /** The output that the `k`-th frame from `cur` on goes to. */
  function Target(cur: nat, n: nat, k: nat): (t: nat)
    requires cur < n
    ensures t < n
    decreases k
  {
    if k == 0 then cur else Target(Advance(cur, n), n, k - 1)
  }

  function Blank(n: nat): (d: seq<seq<Frame>>)
    ensures |d| == n && forall j :: 0 <= j < n ==> d[j] == []
  {
    seq(n, _ => [])
  }

  /** The frames offered to each of `n` outputs when `fs` is dealt from output `cur` on. */
  function Deal(fs: seq<Frame>, cur: nat, n: nat): (d: seq<seq<Frame>>)
    requires cur < n
    ensures |d| == n
  {
    if fs == [] then Blank(n)
    else
      var d := Deal(fs[1..], Advance(cur, n), n);
      d[cur := [fs[0]] + d[cur]]
  }

  /** Taking one frame from each output in turn. */
  function Collect(d: seq<seq<Frame>>, cur: nat, count: nat): seq<Frame>
    requires cur < |d|
    decreases count
  {
    if count == 0 || d[cur] == [] then []
    else [d[cur][0]] + Collect(d[cur := d[cur][1..]], Advance(cur, |d|), count - 1)
  }

  /** Collecting in turn what was dealt in turn rebuilds the input, in order. */
  lemma {:induction false} CollectRebuilds(fs: seq<Frame>, cur: nat, n: nat)
    requires cur < n
    ensures Collect(Deal(fs, cur, n), cur, |fs|) == fs
  {
    if fs == [] {
    } else {
      CollectRebuilds(fs[1..], Advance(cur, n), n);
      var rest := Deal(fs[1..], Advance(cur, n), n);
      var d := Deal(fs, cur, n);
      assert d[cur][1..] == rest[cur];
      assert d[cur := d[cur][1..]] == rest;
    }
  }

  /** The outputs served so far in the round that began at `cur`. */
  ghost predicate Served(j: nat, cur: nat, end: nat) {
    if cur <= end then cur <= j < end else j >= cur || j < end
  }

  /**
   Fairness: the numbers of offers differ by one at most, and the outputs that are one
   ahead are those between the first and the next target.
   */
  lemma {:induction false} DealIsFair(fs: seq<Frame>, cur: nat, n: nat) returns (rounds: nat)
    requires cur < n
    ensures var d, end := Deal(fs, cur, n), Target(cur, n, |fs|);
            forall j :: 0 <= j < n ==> |d[j]| == rounds + if Served(j, cur, end) then 1 else 0
    decreases |fs|
  {
    if fs == [] {
      rounds := 0;
    } else {
      var last := |fs| - 1;
      rounds := DealIsFair(fs[..last], cur, n);
      DealSnoc(fs[..last], fs[last], cur, n);
      assert fs == fs[..last] + [fs[last]];
      TargetStep(cur, n, last);
      if Target(cur, n, |fs|) == cur {
        rounds := rounds + 1;
      }
    }
  }

  /** At every moment the numbers of offers differ by one at most. */
  lemma OffersAreBalanced(fs: seq<Frame>, cur: nat, n: nat, i: nat, j: nat)
    requires cur < n && i < n && j < n
    ensures -1 <= |Deal(fs, cur, n)[i]| - |Deal(fs, cur, n)[j]| <= 1
  {
    var rounds := DealIsFair(fs, cur, n);
  }

  lemma {:induction false} TargetStep(cur: nat, n: nat, k: nat)
    requires cur < n
    ensures Target(cur, n, k + 1) == Advance(Target(cur, n, k), n)
    decreases k
  {
    if k == 0 {
    } else {
      TargetStep(Advance(cur, n), n, k - 1);
    }
  }

  /** The `k`-th frame goes to output `(cur + k) mod n`. */
  lemma {:induction false} TargetIsModular(cur: nat, n: nat, k: nat)
    requires cur < n
    ensures Target(cur, n, k) == (cur + k) % n
    decreases k
  {
    if k == 0 {
      ModSmall(cur, n);
    } else {
      TargetIsModular(cur, n, k - 1);
      TargetStep(cur, n, k - 1);
      ModStep(cur + k - 1, n);
    }
  }

  /** An `unsigned long` that has counted to `x`. */
  function Counter(x: nat): nat {
    x % 0x1_0000_0000_0000_0000
  }

  lemma CounterIs(x: nat)
    ensures Counter(x) == x % 0x1_0000_0000_0000_0000
  {
  }

  /** A value that an `unsigned long` can have. */
  predicate IsCounter(x: nat) {
    x < 0x1_0000_0000_0000_0000
  }

  lemma CounterStarts(x: nat)
    requires IsCounter(x)
    ensures x == Counter(x + 0)
  {
  }

  /** `++` on an `unsigned long`. */
  function Increment(c: nat): nat {
    (c + 1) % 0x1_0000_0000_0000_0000
  }

  lemma CounterStep(x: nat)
    ensures Increment(Counter(x)) == Counter(x + 1)
  {
  }

  lemma ModSmall(x: nat, n: nat)
    requires x < n
    ensures x % n == x
  {
  }

  lemma ModStep(x: nat, n: nat)
    requires n > 0
    ensures (x + 1) % n == if x % n + 1 == n then 0 else x % n + 1
  {
    var q, r := x / n, x % n;
    assert x == q * n + r;
    if r + 1 == n {
      assert x + 1 == (q + 1) * n;
      Remainder(q + 1, 0, n);
    } else {
      Remainder(q, r + 1, n);
    }
  }

  lemma Multiples(d: int, n: nat)
    ensures d >= 1 ==> d * n >= n
    ensures d <= -1 ==> d * n <= -(n as int)
  {
  }

  lemma Remainder(q: nat, r: nat, n: nat)
    requires r < n
    ensures (q * n + r) % n == r
  {
    var x := q * n + r;
    var d := x / n - q;
    assert x == (x / n) * n + x % n;
    assert d * n == r - x % n;
    Multiples(d, n);
  }

  /** One more frame is appended to the offers of the next target. */
  lemma {:induction false} DealSnoc(fs: seq<Frame>, f: Frame, cur: nat, n: nat)
    requires cur < n
    ensures var t, d := Target(cur, n, |fs|), Deal(fs, cur, n);
            Deal(fs + [f], cur, n) == d[t := d[t] + [f]]
  {
    if fs == [] {
      assert fs + [f] == [f] && [f][1..] == [];
      assert [f] + Blank(n)[cur] == Blank(n)[cur] + [f];
    } else {
      DealSnoc(fs[1..], f, Advance(cur, n), n);
      assert (fs + [f])[1..] == fs[1..] + [f];
      var e, t := Deal(fs[1..], Advance(cur, n), n), Target(cur, n, |fs|);
      if t == cur {
        assert [fs[0]] + (e[cur] + [f]) == ([fs[0]] + e[cur]) + [f];
      }
      var before: seq<seq<Frame>> := e[cur := [fs[0]] + e[cur]];
      var after: seq<seq<Frame>> := e[t := e[t] + [f]];
      assert after[cur := [fs[0]] + after[cur]] == before[t := before[t] + [f]];
    }
  }

  // ---------------------------------------------------------------- the node

  /** The output for the `k`-th frame. */
  function Number(cur: nat, n: nat, k: nat): nat
    requires n > 0
  {
    (cur + k) % n
  }

  /** The popped frames whose number from `cur` on is `j` modulo `n`, where `kept` says so, in order. */
  function Every(fs: seq<Frame>, kept: seq<bool>, cur: nat, n: nat, j: nat): (r: seq<Frame>)
    requires n > 0 && |kept| == |fs|
  {
    if fs == [] then []
    else
      var k := |fs| - 1;
      Every(fs[..k], kept[..k], cur, n, j) + if Number(cur, n, k) == j && kept[k] then [fs[k]] else []
  }

  lemma NumberIsTarget(cur: nat, n: nat, k: nat)
    requires cur < n
    ensures Number(cur, n, k) == Target(cur, n, k)
  {
    TargetIsModular(cur, n, k);
  }

  /** Output `j` is offered every frame whose number is `j` modulo `n`, and no other. */
  lemma {:induction false} DealtByNumber(fs: seq<Frame>, cur: nat, n: nat, j: nat)
    requires cur < n && j < n
    ensures Deal(fs, cur, n)[j] == Every(fs, seq(|fs|, _ => true), cur, n, j)
  {
    if fs != [] {
      var k := |fs| - 1;
      DealtByNumber(fs[..k], cur, n, j);
      DealSnoc(fs[..k], fs[k], cur, n);
      NumberIsTarget(cur, n, k);
      assert fs == fs[..k] + [fs[k]];
      assert seq(|fs|, _ => true)[..k] == seq(k, _ => true);
    }
  }

  /** Output `t` gets one frame more. */
  function Appended(d: seq<seq<Frame>>, t: nat, f: Frame): (r: seq<seq<Frame>>)
    requires t < |d|
    ensures |r| == |d|
  {
    d[t := d[t] + [f]]
  }

  lemma TotalAppended(d: seq<seq<Frame>>, t: nat, f: Frame)
    requires t < |d|
    ensures TotalSize(Appended(d, t, f)) == TotalSize(d) + 1
  {
    TotalUpdate(d, t, d[t] + [f]);
  }

  lemma DealNext(fs: seq<Frame>, k: nat, cur: nat, n: nat)
    requires cur < n && k < |fs|
    ensures Deal(fs[..k + 1], cur, n) == Appended(Deal(fs[..k], cur, n), Target(cur, n, k), fs[k])
  {
    DealSnoc(fs[..k], fs[k], cur, n);
    assert fs[..k + 1] == fs[..k] + [fs[k]];
  }

  /** What each output takes. */
  ghost predicate Delivered(d: seq<seq<Frame>>, fs: seq<Frame>, kept: seq<bool>, cur: nat, n: nat)
    requires n > 0 && |fs| == |kept|
  {
    |d| == n && forall j :: 0 <= j < n ==> d[j] == Every(fs, kept, cur, n, j)
  }

  lemma NothingDealt(fs: seq<Frame>, kept: seq<bool>, cur: nat, n: nat)
    requires cur < n && |fs| == |kept|
    ensures Deal(fs[..0], cur, n) == Blank(n) && Delivered(Blank(n), fs[..0], kept[..0], cur, n)
    ensures Target(cur, n, 0) == cur && TotalSize(Blank(n)) == 0
  {
    TotalOfEmpty(n);
  }

  lemma DeliveredNext(d: seq<seq<Frame>>, fs: seq<Frame>, kept: seq<bool>, k: nat, cur: nat, n: nat)
    requires cur < n && k < |fs| == |kept| && Delivered(d, fs[..k], kept[..k], cur, n)
    ensures Delivered(if kept[k] then Appended(d, Target(cur, n, k), fs[k]) else d, fs[..k + 1], kept[..k + 1], cur, n)
  {
    hide Number, Target, Every;
    NumberIsTarget(cur, n, k);
    forall j | 0 <= j < n
      ensures Every(fs[..k + 1], kept[..k + 1], cur, n, j)
           == d[j] + if Target(cur, n, k) == j && kept[k] then [fs[k]] else []
    {
      EveryNext(fs, kept, k, cur, n, j);
    }
  }

  lemma EveryNext(fs: seq<Frame>, kept: seq<bool>, k: nat, cur: nat, n: nat, j: nat)
    requires n > 0 && k < |fs| == |kept|
    ensures Every(fs[..k + 1], kept[..k + 1], cur, n, j)
         == Every(fs[..k], kept[..k], cur, n, j) + if Number(cur, n, k) == j && kept[k] then [fs[k]] else []
  {
    hide Number;
    assert fs[..k + 1][..k] == fs[..k] && fs[..k + 1][k] == fs[k];
    assert kept[..k + 1][..k] == kept[..k] && kept[..k + 1][k] == kept[k];
  }

  /** How many pushes succeeded. */
  function Successes(accepted: seq<bool>): nat {
    multiset(accepted)[true]
  }

  lemma SuccessesStep(accepted: seq<bool>, k: nat)
    requires k < |accepted|
    ensures Successes(accepted[..k + 1]) == Successes(accepted[..k]) + if accepted[k] then 1 else 0
  {
    assert accepted[..k + 1] == accepted[..k] + [accepted[k]];
  }

  lemma DeliveredMeans(d: seq<seq<Frame>>, fs: seq<Frame>, kept: seq<bool>, cur: nat, n: nat)
    requires n > 0 && |fs| == |kept| && Delivered(d, fs, kept, cur, n)
    ensures |d| == n && forall j :: 0 <= j < n ==> d[j] == Every(fs, kept, cur, n, j)
  {
    hide Every;
  }

  /** What the outputs have taken in all is what was accepted. */
  lemma {:induction false} DeliveredAddUp(d: seq<seq<Frame>>, fs: seq<Frame>, kept: seq<bool>, cur: nat, n: nat)
    requires cur < n && |fs| == |kept| && Delivered(d, fs, kept, cur, n)
    ensures TotalSize(d) == multiset(kept)[true]
    decreases |fs|
  {
    hide TotalSize, Target, Number;
    if fs == [] {
      assert d == Blank(n);
      TotalOfEmpty(n);
    } else {
      var k := |fs| - 1;
      var e := seq(n, (j: nat) => Every(fs[..k], kept[..k], cur, n, j));
      DeliveredAddUp(e, fs[..k], kept[..k], cur, n);
      DeliveredNext(e, fs, kept, k, cur, n);
      assert fs[..k + 1] == fs && kept[..k + 1] == kept && kept == kept[..k] + [kept[k]];
      var t := Target(cur, n, k);
      TotalAppended(e, t, fs[k]);
      assert d == if kept[k] then Appended(e, t, fs[k]) else e;
    }
  }

  /** What the loop has done after the first `k` frames, with `sent` pushes accepted. */
  ghost predicate DealtSoFar(popped: seq<Frame>, accepted: seq<bool>, start: nat, n: nat, k: nat,
                             offers: seq<seq<Frame>>, delivered: seq<seq<Frame>>, index: nat, sent: nat) {
    && start < n && k <= |popped| == |accepted| && |offers| == |delivered| == n
    && offers == Deal(popped[..k], start, n) && Delivered(delivered, popped[..k], accepted[..k], start, n)
    && index == Target(start, n, k) && sent == Successes(accepted[..k])
  }

  lemma DealtStart(popped: seq<Frame>, accepted: seq<bool>, start: nat, n: nat)
    requires start < n && |popped| == |accepted|
    ensures DealtSoFar(popped, accepted, start, n, 0, Blank(n), Blank(n), start, 0)
  {
    NothingDealt(popped, accepted, start, n);
    assert accepted[..0] == [];
  }

  lemma DealtNext(popped: seq<Frame>, accepted: seq<bool>, start: nat, n: nat, k: nat,
                  offers: seq<seq<Frame>>, delivered: seq<seq<Frame>>, index: nat, sent: nat)
    requires DealtSoFar(popped, accepted, start, n, k, offers, delivered, index, sent) && k < |popped| && index < n
    ensures DealtSoFar(popped, accepted, start, n, k + 1, Appended(offers, index, popped[k]),
                       if accepted[k] then Appended(delivered, index, popped[k]) else delivered,
                       Advance(index, n), sent + if accepted[k] then 1 else 0)
  {
    hide Deal, Target, Delivered, Appended, Advance, Successes;
    TargetStep(start, n, k);
    DeliveredNext(delivered, popped, accepted, k, start, n);
    DealNext(popped, k, start, n);
    SuccessesStep(accepted, k);
  }

  lemma DealtAll(popped: seq<Frame>, accepted: seq<bool>, start: nat, n: nat,
                 offers: seq<seq<Frame>>, delivered: seq<seq<Frame>>, index: nat, sent: nat)
    requires DealtSoFar(popped, accepted, start, n, |popped|, offers, delivered, index, sent)
    ensures offers == Deal(popped, start, n) && index == Target(start, n, |popped|)
    ensures sent == multiset(accepted)[true] == TotalSize(delivered)
    ensures |delivered| == n && forall j :: 0 <= j < n ==> delivered[j] == Every(popped, accepted, start, n, j)
  {
    hide Deal, Target, TotalSize, Delivered, Every;
    assert popped[..|popped|] == popped && accepted[..|accepted|] == accepted;
    DeliveredAddUp(delivered, popped, accepted, start, n);
    DeliveredMeans(delivered, popped, accepted, start, n);
  }

  /** `DispatcherContext` with the round-robin strategy; `packets_sent` is an `unsigned long`. */
  class DispatcherNode {
    var nextIndex: nat
    var packetsSent: nat

    constructor ()
      ensures nextIndex == 0 && packetsSent == 0
    {
      nextIndex, packetsSent := 0, 0;
    }

    /** The target of the next frame: the index wraps around. */
    method NextTarget(n: nat) returns (target: nat)
      requires nextIndex < n
      modifies this`nextIndex
      ensures target == old(nextIndex) && nextIndex == Advance(old(nextIndex), n)
    {
      ModSmall(nextIndex, n);
      ModStep(nextIndex, n);
      target := nextIndex % n;
      nextIndex := (nextIndex + 1) % n;
    }

    /**
     The loop of `dispatcher_node_process`. `accepted[k]` is what the target queue
     answers to the `k`-th push, since its consumer runs meanwhile. `offers[j]` lists
     what output `j` is offered and `delivered[j]` what it takes.
     */
    method Process(popped: seq<Frame>, accepted: seq<bool>, n: nat)
      returns (offers: seq<seq<Frame>>, delivered: seq<seq<Frame>>)
      requires n > 0 && |accepted| == |popped|
      requires nextIndex < n && IsCounter(packetsSent)
      modifies this
      ensures offers == Deal(popped, old(nextIndex), n)
      ensures nextIndex == (old(nextIndex) + |popped|) % n
      ensures packetsSent == (old(packetsSent) + multiset(accepted)[true]) % 0x1_0000_0000_0000_0000
      ensures |delivered| == n && TotalSize(delivered) == multiset(accepted)[true]
      ensures forall j :: 0 <= j < n ==> delivered[j] == Every(popped, accepted, old(nextIndex), n, j)
    {
      hide DealtSoFar, Deal, Target, TotalSize, Every, Appended, Advance, Counter, Increment, IsCounter;
      offers, delivered := Blank(n), Blank(n);
      ghost var start, before, sent := nextIndex, packetsSent, 0;
      DealtStart(popped, accepted, start, n);
      CounterStarts(before);
      for k := 0 to |popped|
        invariant |offers| == |delivered| == n && nextIndex < n
        invariant DealtSoFar(popped, accepted, start, n, k, offers, delivered, nextIndex, sent)
        invariant packetsSent == Counter(before + sent)
      {
        DealtNext(popped, accepted, start, n, k, offers, delivered, nextIndex, sent);
        var target := NextTarget(n);
        offers := Appended(offers, target, popped[k]);
        if accepted[k] {
          delivered := Appended(delivered, target, popped[k]);
          CounterStep(before + sent);
          packetsSent, sent := Increment(packetsSent), sent + 1;
        }
      }
      DealtAll(popped, accepted, start, n, offers, delivered, nextIndex, sent);
      TargetIsModular(start, n, |popped|);
      CounterIs(before + sent);
    }
  }

  function TotalSize(d: seq<seq<Frame>>): nat {
    if d == [] then 0 else |d[0]| + TotalSize(d[1..])
  }

  lemma {:induction false} TotalOfEmpty(n: nat)
    ensures TotalSize(Blank(n)) == 0
  {
    if n == 0 {
    } else {
      TotalOfEmpty(n - 1);
      assert Blank(n)[1..] == Blank(n - 1);
    }
  }

  lemma {:induction false} TotalUpdate(d: seq<seq<Frame>>, i: nat, s: seq<Frame>)
    requires i < |d|
    ensures TotalSize(d[i := s]) == TotalSize(d) - |d[i]| + |s|
  {
    if i > 0 {
      assert d[i := s][1..] == d[1..][i - 1 := s];
      TotalUpdate(d[1..], i - 1, s);
    } else {
      assert d[0 := s][1..] == d[1..];
    }
  }

  /** Every offered frame is delivered or counted as a failed push: sent plus failed is popped. */
  lemma {:induction false} OffersAddUp(fs: seq<Frame>, cur: nat, n: nat)
    requires cur < n
    ensures TotalSize(Deal(fs, cur, n)) == |fs|
  {
    if fs == [] {
      TotalOfEmpty(n);
    } else {
      OffersAddUp(fs[1..], Advance(cur, n), n);
      var d := Deal(fs[1..], Advance(cur, n), n);
      TotalUpdate(d, cur, [fs[0]] + d[cur]);
    }
  }
}

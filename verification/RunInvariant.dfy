/**
 What every move of a pipeline keeps: each queued or held frame is the image of one
 that its node took in earlier, nodes push in the order in which they take in, and
 counters and the dispatcher's index agree with the number of frames taken in.
 */
module RunInvariant {
  import opened Bytes
  import opened PipelineRun
  import D = Dispatcher
  import R = Ring
  import E = Endpoints
  import T = Tagger

  // ---------------------------------------------------------------- where a frame comes from

  /** Node `i` has taken in a frame as number `at`; a sniffer's frames are numbered by their capture. */
  predicate IsSource(net: Net, s: State, i: nat, at: nat)
    requires Good(net) && Sizes(net, s)
  {
    && i < |net.topo.kinds|
    && if net.topo.kinds[i].Sniffer? then at < |s.captured| && s.captured[at].node == i
       else Reads(net, i) && at < s.taken[Input(net, i)]
  }

  function Source(net: Net, s: State, i: nat, at: nat): Tok
    requires Good(net) && Sizes(net, s) && IsSource(net, s, i, at)
  {
    if net.topo.kinds[i].Sniffer? then Tok(at, [], s.captured[at].bytes, at)
    else s.hist[Input(net, i)][at]
  }

  /** The number that the next frame taken in by node `i` will get. */
  function Limit(net: Net, s: State, i: nat): nat
    requires Good(net) && Sizes(net, s) && i < |net.topo.kinds|
  {
    if net.topo.kinds[i].Sniffer? then |s.captured| else if Reads(net, i) then s.taken[Input(net, i)] else 0
  }

  /** All frames that node `i` has offered to output `out` so far have smaller numbers. */
  function Bound(net: Net, s: State, i: nat, out: nat): nat
    requires Good(net) && Sizes(net, s) && i < |net.topo.kinds|
  {
    match s.locals[i]
    case Busy(_, at, first, next, _) => if first <= out < next then at + 1 else at
    case Sending(_, at) => at
    case _ => Limit(net, s, i)
  }

  /** `t` is what node `i` makes of the frame it took in as number `at`. */
  predicate MadeFrom(net: Net, s: State, i: nat, at: nat, t: Tok)
    requires Good(net) && Sizes(net, s)
  {
    && IsSource(net, s, i, at)
    && var src := Source(net, s, i, at);
       t.id == src.id && t.route == src.route && Worked(net, i, src.bytes) == Some(t.bytes)
  }

  // ---------------------------------------------------------------- the invariant

  predicate LocalOk(net: Net, s: State, i: nat)
    requires Good(net) && Sizes(net, s) && i < |net.topo.kinds|
  {
    var kind, n := net.topo.kinds[i], |net.topo.outs[i]|;
    match s.locals[i]
    case Busy(t, at, first, next, last) =>
      && !kind.Sender? && MadeFrom(net, s, i, at, t)
      && at < Limit(net, s, i) && (kind.Sniffer? || at + 1 == Limit(net, s, i))
      && first <= next <= last <= n
      && (if kind.Dispatcher? then last == first + 1 && first == at % n else first == 0 && last == n)
    case Sending(t, at) =>
      && kind.Sender? && IsSource(net, s, i, at) && t == Source(net, s, i, at)
      && E.Sendable(t.bytes) && at + 1 == Limit(net, s, i)
    case _ => true
  }

  function LastHop(t: Tok): Hop
    requires t.route != []
  {
    t.route[|t.route| - 1]
  }

  /** A frame in the history of queue `q` came over a hop into `q` from what that node took in as number `from`. */
  predicate TokOk(net: Net, s: State, q: nat, t: Tok)
    requires Good(net) && Sizes(net, s)
  {
    && t.route != [] && 0 < |t.bytes| <= R.MAX_PKG_SIZE
    && var h := LastHop(t);
       && h.node < |net.topo.kinds| && !net.topo.kinds[h.node].Sender?
       && h.out < |net.topo.outs[h.node]| && Target(net, h.node, h.out) == q
       && MadeFrom(net, s, h.node, t.from, t.(route := t.route[..|t.route| - 1]))
       && t.from < Bound(net, s, h.node, h.out)
       && (net.topo.kinds[h.node].Dispatcher? ==> h.out == t.from % |net.topo.outs[h.node]|)
  }

  predicate Before(t: Tok, u: Tok) {
    t.route != [] && u.route != [] && LastHop(t) == LastHop(u) ==> t.from < u.from
  }

  /** Frames that came over one hop are queued in the order in which its node took them in. */
  predicate Ordered(ts: seq<Tok>) {
    forall a, b :: 0 <= a < b < |ts| ==> Before(ts[a], ts[b])
  }

  predicate TurnOk(net: Net, s: State, i: nat)
    requires Good(net) && Sizes(net, s) && i < |net.topo.kinds|
  {
    net.topo.kinds[i].Dispatcher? && net.topo.outs[i] != [] ==>
      s.turn[i] == Limit(net, s, i) % |net.topo.outs[i]|
  }

  predicate StatsOk(net: Net, s: State, i: nat)
    requires Good(net) && Sizes(net, s) && i < |net.topo.kinds|
  {
    net.topo.kinds[i].Counter? && Reads(net, i) ==>
      var q := Input(net, i);
      s.stats[i] == E.Tally(FramesOf(s.hist[q][..s.taken[q]]))
  }

  predicate SentOk(net: Net, s: State, e: End)
    requires Good(net) && Sizes(net, s)
  {
    e.fate.Sent? ==>
      && IsSource(net, s, e.node, e.at) && net.topo.kinds[e.node].Sender?
      && e.tok == Source(net, s, e.node, e.at) && E.Sendable(e.tok.bytes)
      && e.at < Bound(net, s, e.node, 0)
  }

  predicate SentBefore(e: End, f: End) {
    e.fate.Sent? && f.fate.Sent? && e.node == f.node ==> e.at < f.at
  }

  ghost predicate Inv(net: Net, s: State) {
    && Good(net) && Sizes(net, s)
    && (forall i :: 0 <= i < |net.topo.kinds| ==> LocalOk(net, s, i))
    && (forall q, k :: 0 <= q < |s.hist| && 0 <= k < |s.hist[q]| ==> TokOk(net, s, q, s.hist[q][k]))
    && (forall q :: 0 <= q < |s.hist| ==> Ordered(s.hist[q]))
    && (forall i :: 0 <= i < |net.topo.kinds| ==> TurnOk(net, s, i))
    && (forall i :: 0 <= i < |net.topo.kinds| ==> StatsOk(net, s, i))
    && (forall k :: 0 <= k < |s.ended| ==> SentOk(net, s, s.ended[k]))
    && (forall a, b :: 0 <= a < b < |s.ended| ==> SentBefore(s.ended[a], s.ended[b]))
    && (forall k :: 0 <= k < |s.captured| ==> |s.captured[k].bytes| <= T.MAX_CAPTURE && s.captured[k].node < |net.topo.kinds|)
  }

  // ---------------------------------------------------------------- what a move leaves alone

  lemma InvHolds(net: Net, s: State)
    requires Inv(net, s)
    ensures Good(net) && Sizes(net, s)
  {
  }

  lemma Lengths(net: Net)
    requires Good(net)
    ensures |net.topo.kinds| == |net.topo.inputs| == |net.topo.outs|
  {
  }

  /** No two nodes read one queue. */
  lemma OneReader(net: Net, i: nat, j: nat)
    requires Good(net) && Reads(net, i) && Reads(net, j) && Input(net, i) == Input(net, j)
    ensures i == j
  {
  }

  /** Nothing is ever taken back. */
  ghost predicate Extends(net: Net, s: State, s': State) {
    && Sizes(net, s) && Sizes(net, s')
    && (forall q :: 0 <= q < |s.hist| ==> s.hist[q] <= s'.hist[q] && s.taken[q] <= s'.taken[q])
    && s.captured <= s'.captured
  }

  lemma SizesKept(net: Net, s: State, m: Move)
    requires Enabled(net, s, m)
    ensures Sizes(net, Apply(net, s, m))
  {
    NodesAfter(net, s, m);
    QueuesAfter(net, s, m);
    hide Good, Apply;
  }

  lemma NodesAfter(net: Net, s: State, m: Move)
    requires Enabled(net, s, m)
    ensures var s' := Apply(net, s, m);
            |s'.locals| == |s'.turn| == |s'.stats| == |s'.errors| == |net.topo.kinds|
  {
    hide Good, E.Counted, Received, FateOf, Extra, Target, Input, Accepts, Outgoing, Reads;
  }

  lemma CapturedAfter(net: Net, s: State, m: Move)
    requires Enabled(net, s, m)
    ensures var s' := Apply(net, s, m);
            s'.captured == if m.event.Capture? then s.captured + [Captured(m.node, m.event.f)] else s.captured
  {
    hide Good, E.Counted, Received, FateOf, Extra;
  }

  lemma MoveExtends(net: Net, s: State, m: Move)
    requires Enabled(net, s, m)
    ensures Extends(net, s, Apply(net, s, m))
  {
    hide Good, Apply;
    SizesKept(net, s, m);
    QueuesAfter(net, s, m);
    CapturedAfter(net, s, m);
  }

  /** The local state and the counters of the other nodes. */
  lemma OthersAfter(net: Net, s: State, m: Move, j: nat)
    requires Enabled(net, s, m) && j < |net.topo.kinds| && j != m.node
    ensures var s' := Apply(net, s, m);
            && |s'.locals| == |s'.turn| == |s'.stats| == |s.locals|
            && s'.locals[j] == s.locals[j] && s'.turn[j] == s.turn[j] && s'.stats[j] == s.stats[j]
  {
    hide Good, E.Counted, Received, FateOf, Extra;
  }

  lemma SourceKept(net: Net, s: State, s': State, i: nat, at: nat)
    requires Good(net) && Extends(net, s, s') && IsSource(net, s, i, at)
    ensures IsSource(net, s', i, at) && Source(net, s', i, at) == Source(net, s, i, at)
  {
    Lengths(net);
    hide Good;
    if net.topo.kinds[i].Sniffer? {
      assert s'.captured[at] == s.captured[at];
    } else {
      assert s.hist[Input(net, i)] <= s'.hist[Input(net, i)];
    }
  }

  lemma LimitAfter(net: Net, s: State, m: Move, i: nat)
    requires Enabled(net, s, m) && i < |net.topo.kinds|
    requires Sizes(net, Apply(net, s, m))
    ensures Limit(net, Apply(net, s, m), i) >= Limit(net, s, i)
    ensures i != m.node && !net.topo.kinds[i].Sniffer? ==> Limit(net, Apply(net, s, m), i) == Limit(net, s, i)
    ensures i == m.node ==>
              Limit(net, Apply(net, s, m), i) == Limit(net, s, i) + if m.event.Take? || m.event.Capture? then 1 else 0
  {
    Lengths(net);
    QueuesAfter(net, s, m);
    CapturedAfter(net, s, m);
    if i != m.node && Reads(net, i) && Reads(net, m.node) && Input(net, i) == Input(net, m.node) {
      OneReader(net, i, m.node);
    }
    hide Good, Apply;
  }

  // ---------------------------------------------------------------- the local states

  lemma OtherLocalKept(net: Net, s: State, m: Move, j: nat)
    requires Enabled(net, s, m) && j < |net.topo.kinds| && j != m.node
    requires LocalOk(net, s, j)
    ensures Sizes(net, Apply(net, s, m)) && LocalOk(net, Apply(net, s, m), j)
  {
    Lengths(net);
    hide Good, Apply;
    var s' := Apply(net, s, m);
    SizesKept(net, s, m);
    MoveExtends(net, s, m);
    OthersAfter(net, s, m, j);
    LimitAfter(net, s, m, j);
    var l := s.locals[j];
    if l.Busy? || l.Sending? {
      SourceKept(net, s, s', j, l.at);
    }
  }

  /** What `Receive` leaves of a frame that its node has just taken in. */
  lemma ReceivedOk(net: Net, s: State, i: nat, at: nat, first: nat)
    requires Good(net) && Sizes(net, s) && i < |net.topo.kinds|
    requires IsSource(net, s, i, at) && at + 1 == Limit(net, s, i)
    requires s.locals[i] == Received(net, i, Source(net, s, i, at), at, first)
    requires net.topo.kinds[i].Dispatcher? ==> net.topo.outs[i] != [] && first == at % |net.topo.outs[i]|
    requires net.topo.kinds[i].Sender? ==> Reads(net, i)
    ensures LocalOk(net, s, i)
  {
    Lengths(net);
    hide Good;
  }

  lemma CaptureSource(net: Net, s: State, i: nat, f: Frame)
    requires Enabled(net, s, Move(i, Capture(f)))
    requires Sizes(net, ApplyCapture(net, s, i, f))
    ensures var s', k := ApplyCapture(net, s, i, f), |s.captured|;
            && IsSource(net, s', i, k) && Source(net, s', i, k) == Tok(k, [], f, k)
            && s'.locals[i] == Received(net, i, Tok(k, [], f, k), k, 0)
  {
    Lengths(net);
    hide Good, Received, FateOf, Extra;
  }

  lemma TakeSource(net: Net, s: State, i: nat)
    requires Enabled(net, s, Move(i, Take))
    requires Sizes(net, ApplyTake(net, s, i))
    ensures var s', q := ApplyTake(net, s, i), Input(net, i);
            && IsSource(net, s', i, s.taken[q]) && Source(net, s', i, s.taken[q]) == s.hist[q][s.taken[q]]
            && s'.locals[i] == Received(net, i, s.hist[q][s.taken[q]], s.taken[q],
                                        if net.topo.kinds[i].Dispatcher? then s.turn[i] % |net.topo.outs[i]| else 0)
  {
    Lengths(net);
    hide Good, Received, FateOf, Extra, E.Counted;
  }

  lemma MoverAfter(net: Net, s: State, m: Move)
    requires Enabled(net, s, m) && !m.event.Take? && !m.event.Capture?
    ensures |Apply(net, s, m).locals| == |s.locals|
    ensures var l, l' := s.locals[m.node], Apply(net, s, m).locals[m.node];
            match m.event
            case Push => l' == l.(next := l.next + 1)
            case Signal => l' == l
            case _ => l'.Idle? || l'.Stopped?
  {
    hide Good;
  }

  lemma MoverOk(net: Net, s: State, m: Move)
    requires Enabled(net, s, m) && LocalOk(net, s, m.node) && TurnOk(net, s, m.node)
    ensures Sizes(net, Apply(net, s, m)) && LocalOk(net, Apply(net, s, m), m.node)
  {
    Lengths(net);
    var s', i := Apply(net, s, m), m.node;
    SizesKept(net, s, m);
    LimitAfter(net, s, m, i);
    if m.event.Capture? {
      CaptureSource(net, s, i, m.event.f);
      hide Good, Received, ApplyCapture;
      ReceivedOk(net, s', i, |s.captured|, 0);
    } else if m.event.Take? {
      TakeSource(net, s, i);
      var n := |net.topo.outs[i]|;
      if net.topo.kinds[i].Dispatcher? {
        D.ModSmall(s.taken[Input(net, i)] % n, n);
      }
      hide Good, Received, ApplyTake;
      ReceivedOk(net, s', i, s.taken[Input(net, i)],
                 if net.topo.kinds[i].Dispatcher? then s.turn[i] % n else 0);
    } else {
      MoverAfter(net, s, m);
      MoveExtends(net, s, m);
      var l := s.locals[i];
      if l.Busy? || l.Sending? {
        SourceKept(net, s, s', i, l.at);
      }
      hide Good, Apply;
    }
  }

  // ---------------------------------------------------------------- the queues

  lemma BoundGrows(net: Net, s: State, m: Move, i: nat, out: nat)
    requires Enabled(net, s, m) && i < |net.topo.kinds| && LocalOk(net, s, i)
    requires Sizes(net, Apply(net, s, m))
    ensures Bound(net, s, i, out) <= Bound(net, Apply(net, s, m), i, out)
  {
    Lengths(net);
    LimitAfter(net, s, m, i);
    if i != m.node {
      OthersAfter(net, s, m, i);
    } else if m.event.Take? {
      TakeSource(net, s, i);
    } else if m.event.Capture? {
      CaptureSource(net, s, i, m.event.f);
    } else {
      MoverAfter(net, s, m);
    }
    hide Good, Apply;
  }

  lemma TokStays(net: Net, s: State, m: Move, q: nat, t: Tok)
    requires Enabled(net, s, m) && TokOk(net, s, q, t) && LocalOk(net, s, LastHop(t).node)
    requires Sizes(net, Apply(net, s, m))
    ensures TokOk(net, Apply(net, s, m), q, t)
  {
    Lengths(net);
    hide Good, Apply, Bound, LocalOk;
    var h := LastHop(t);
    MoveExtends(net, s, m);
    SourceKept(net, s, Apply(net, s, m), h.node, t.from);
    BoundGrows(net, s, m, h.node, h.out);
  }

  lemma OutgoingOk(net: Net, s: State, i: nat)
    requires Enabled(net, s, Move(i, Push)) && LocalOk(net, s, i)
    requires Accepts(s, Target(net, i, s.locals[i].next), s.locals[i].tok.bytes)
    requires Sizes(net, Apply(net, s, Move(i, Push)))
    ensures TokOk(net, Apply(net, s, Move(i, Push)), Target(net, i, s.locals[i].next), Outgoing(i, s.locals[i]))
  {
    Lengths(net);
    hide Good, Apply;
    var m, l := Move(i, Push), s.locals[i];
    var s', t := Apply(net, s, m), Outgoing(i, l);
    MoveExtends(net, s, m);
    SourceKept(net, s, s', i, l.at);
    MoverAfter(net, s, m);
    assert t.route[..|t.route| - 1] == l.tok.route && LastHop(t) == Hop(i, l.next);
  }

  lemma ToksOk(net: Net, s: State, m: Move, q: nat, k: nat)
    requires Enabled(net, s, m) && Inv(net, s) && q < |s.hist|
    requires Sizes(net, Apply(net, s, m)) && k < |Apply(net, s, m).hist[q]|
    ensures TokOk(net, Apply(net, s, m), q, Apply(net, s, m).hist[q][k])
  {
    hide Good, Apply, LocalOk, TokOk, Ordered;
    QueuesAfter(net, s, m);
    if k < |s.hist[q]| {
      HopExists(net, s, q, s.hist[q][k]);
      TokStays(net, s, m, q, s.hist[q][k]);
    } else {
      OutgoingOk(net, s, m.node);
    }
  }

  lemma HopExists(net: Net, s: State, q: nat, t: Tok)
    requires Good(net) && Sizes(net, s) && TokOk(net, s, q, t)
    ensures t.route != [] && LastHop(t).node < |net.topo.kinds|
  {
  }

  /** The frame pushed now was taken in after all that its hop has brought to the queue. */
  lemma OutgoingIsLast(net: Net, s: State, i: nat, q: nat, t: Tok)
    requires Enabled(net, s, Move(i, Push)) && LocalOk(net, s, i)
    requires TokOk(net, s, q, t)
    ensures Before(t, Outgoing(i, s.locals[i]))
  {
    Lengths(net);
    hide Good, MadeFrom;
  }

  lemma OrderKept(net: Net, s: State, m: Move, q: nat)
    requires Enabled(net, s, m) && Inv(net, s) && q < |s.hist|
    requires Sizes(net, Apply(net, s, m))
    ensures Ordered(Apply(net, s, m).hist[q])
  {
    hide Good, Apply, LocalOk, TokOk, Before, Accepts;
    QueuesAfter(net, s, m);
    var ts := Apply(net, s, m).hist[q];
    forall a, b | 0 <= a < b < |ts|
      ensures Before(ts[a], ts[b])
    {
      if b == |s.hist[q]| {
        OutgoingIsLast(net, s, m.node, q, s.hist[q][a]);
      } else {
        assert Ordered(s.hist[q]);
      }
    }
  }

  // ---------------------------------------------------------------- indices, counters and the log

  /** Advancing the wrapped index is advancing the number of frames taken in. */
  lemma TurnStep(x: nat, n: nat)
    requires n > 0
    ensures (x % n + 1) % n == (x + 1) % n
  {
    D.ModSmall(x % n, n);
    D.ModStep(x % n, n);
    D.ModStep(x, n);
  }

  lemma TakeCounts(net: Net, s: State, i: nat)
    requires Enabled(net, s, Move(i, Take))
    ensures var s', q := ApplyTake(net, s, i), Input(net, i);
            && (net.topo.kinds[i].Dispatcher? ==> s'.turn == s.turn[i := (s.turn[i] + 1) % |net.topo.outs[i]|])
            && (net.topo.kinds[i].Counter? ==>
                  s'.stats == s.stats[i := E.Counted(s.stats[i], s.hist[q][s.taken[q]].bytes)])
  {
    Lengths(net);
    hide Good, E.Counted, Received, FateOf, Extra;
  }

  lemma OthersCountNothing(net: Net, s: State, m: Move)
    requires Enabled(net, s, m) && !m.event.Take?
    ensures Apply(net, s, m).turn == s.turn && Apply(net, s, m).stats == s.stats
  {
    hide Good, Received, FateOf, Extra;
  }

  lemma TurnKept(net: Net, s: State, m: Move, i: nat)
    requires Enabled(net, s, m) && i < |net.topo.kinds| && TurnOk(net, s, i)
    requires Sizes(net, Apply(net, s, m))
    ensures TurnOk(net, Apply(net, s, m), i)
  {
    Lengths(net);
    hide Good, Apply, ApplyTake;
    LimitAfter(net, s, m, i);
    if i != m.node {
      OthersAfter(net, s, m, i);
    } else {
      if m.event.Take? {
        TakeCounts(net, s, i);
      } else {
        OthersCountNothing(net, s, m);
      }
      if net.topo.outs[i] != [] {
        TurnStep(Limit(net, s, i), |net.topo.outs[i]|);
      }
    }
  }

  lemma TallySnoc(ts: seq<Tok>, k: nat)
    requires k < |ts|
    ensures E.Tally(FramesOf(ts[..k + 1])) == E.Counted(E.Tally(FramesOf(ts[..k])), ts[k].bytes)
  {
    var fs := FramesOf(ts[..k + 1]);
    assert fs[..k] == FramesOf(ts[..k]) && fs[k] == ts[k].bytes;
  }

  lemma StatsKept(net: Net, s: State, m: Move, i: nat)
    requires Enabled(net, s, m) && i < |net.topo.kinds| && StatsOk(net, s, i)
    requires Sizes(net, Apply(net, s, m))
    ensures StatsOk(net, Apply(net, s, m), i)
  {
    Lengths(net);
    hide Good, Apply, E.Tally, E.Counted, FramesOf;
    if net.topo.kinds[i].Counter? && Reads(net, i) {
      var q := Input(net, i);
      LimitAfter(net, s, m, i);
      MoveExtends(net, s, m);
      assert Apply(net, s, m).hist[q][..s.taken[q]] == s.hist[q][..s.taken[q]];
      if i != m.node {
        OthersAfter(net, s, m, i);
      } else {
        if m.event.Take? {
          TakeCounts(net, s, i);
          TallySnoc(s.hist[q], s.taken[q]);
          assert Apply(net, s, m).hist[q][..s.taken[q] + 1] == s.hist[q][..s.taken[q] + 1];
        } else {
          OthersCountNothing(net, s, m);
        }
      }
    }
  }

  /** The log only grows, and a frame is logged as sent by `Send` alone. */
  lemma EndedAfter(net: Net, s: State, m: Move)
    requires Enabled(net, s, m)
    ensures s.ended <= Apply(net, s, m).ended && |Apply(net, s, m).ended| <= |s.ended| + 1
    ensures forall k :: |s.ended| <= k < |Apply(net, s, m).ended| && Apply(net, s, m).ended[k].fate.Sent? ==>
              m.event.Send? && Apply(net, s, m).ended[k] == End(s.locals[m.node].tok, m.node, s.locals[m.node].at, Sent)
  {
    hide Good, E.Counted, Received, Extra;
  }

  lemma SentStays(net: Net, s: State, m: Move, e: End)
    requires Enabled(net, s, m) && SentOk(net, s, e)
    requires e.fate.Sent? ==> LocalOk(net, s, e.node)
    requires Sizes(net, Apply(net, s, m))
    ensures SentOk(net, Apply(net, s, m), e)
  {
    if e.fate.Sent? {
      Lengths(net);
      hide Good, Apply, Bound, LocalOk;
      MoveExtends(net, s, m);
      SourceKept(net, s, Apply(net, s, m), e.node, e.at);
      BoundGrows(net, s, m, e.node, 0);
    }
  }

  lemma SentNow(net: Net, s: State, i: nat, ok: bool)
    requires Enabled(net, s, Move(i, Send(ok))) && LocalOk(net, s, i)
    requires Sizes(net, Apply(net, s, Move(i, Send(ok))))
    ensures SentOk(net, Apply(net, s, Move(i, Send(ok))), End(s.locals[i].tok, i, s.locals[i].at, Sent))
  {
    Lengths(net);
    hide Good, Apply;
    var m := Move(i, Send(ok));
    MoveExtends(net, s, m);
    SourceKept(net, s, Apply(net, s, m), i, s.locals[i].at);
    MoverAfter(net, s, m);
    LimitAfter(net, s, m, i);
  }

  lemma LogKept(net: Net, s: State, m: Move, k: nat)
    requires Enabled(net, s, m) && Inv(net, s)
    requires Sizes(net, Apply(net, s, m)) && k < |Apply(net, s, m).ended|
    ensures SentOk(net, Apply(net, s, m), Apply(net, s, m).ended[k])
  {
    hide Good, Apply, LocalOk, TokOk;
    EndedAfter(net, s, m);
    if k < |s.ended| {
      assert SentOk(net, s, s.ended[k]);
      SentStays(net, s, m, s.ended[k]);
    } else if Apply(net, s, m).ended[k].fate.Sent? {
      SentNow(net, s, m.node, m.event.ok);
    }
  }

  lemma LogOrderKept(net: Net, s: State, m: Move, a: nat, b: nat)
    requires Enabled(net, s, m) && Inv(net, s)
    requires a < b < |Apply(net, s, m).ended|
    ensures SentBefore(Apply(net, s, m).ended[a], Apply(net, s, m).ended[b])
  {
    hide Good, Apply, LocalOk, TokOk;
    EndedAfter(net, s, m);
    if b < |s.ended| {
      assert SentBefore(s.ended[a], s.ended[b]);
    } else {
      assert SentOk(net, s, s.ended[a]);
    }
  }

  lemma CapturedKept(net: Net, s: State, m: Move, k: nat)
    requires Enabled(net, s, m) && Inv(net, s) && k < |Apply(net, s, m).captured|
    ensures |Apply(net, s, m).captured[k].bytes| <= T.MAX_CAPTURE && Apply(net, s, m).captured[k].node < |net.topo.kinds|
  {
    hide Good, Apply;
    CapturedAfter(net, s, m);
  }

  // ---------------------------------------------------------------- every run

  /** The invariant holds after every move of every node, under any schedule. */
  lemma InvKept(net: Net, s: State, m: Move)
    requires Enabled(net, s, m) && Inv(net, s)
    ensures Inv(net, Apply(net, s, m))
  {
    var s' := Apply(net, s, m);
    SizesKept(net, s, m);
    hide Apply, LocalOk, TokOk, TurnOk, StatsOk, SentOk, SentBefore, Ordered, Enabled;
    forall i | 0 <= i < |net.topo.kinds|
      ensures LocalOk(net, s', i) && TurnOk(net, s', i) && StatsOk(net, s', i)
    {
      TurnKept(net, s, m, i);
      StatsKept(net, s, m, i);
      if i == m.node {
        MoverOk(net, s, m);
      } else {
        OtherLocalKept(net, s, m, i);
      }
    }
    forall q, k | 0 <= q < |s'.hist| && 0 <= k < |s'.hist[q]|
      ensures TokOk(net, s', q, s'.hist[q][k])
    {
      ToksOk(net, s, m, q, k);
    }
    forall q | 0 <= q < |s'.hist|
      ensures Ordered(s'.hist[q])
    {
      OrderKept(net, s, m, q);
    }
    forall k | 0 <= k < |s'.ended|
      ensures SentOk(net, s', s'.ended[k])
    {
      LogKept(net, s, m, k);
    }
    forall a, b | 0 <= a < b < |s'.ended|
      ensures SentBefore(s'.ended[a], s'.ended[b])
    {
      LogOrderKept(net, s, m, a, b);
    }
    forall k | 0 <= k < |s'.captured|
      ensures |s'.captured[k].bytes| <= T.MAX_CAPTURE && s'.captured[k].node < |net.topo.kinds|
    {
      CapturedKept(net, s, m, k);
    }
  }

  lemma InitInv(net: Net)
    requires Good(net)
    ensures Inv(net, Init(net))
  {
  }

  /** In every state that any sequence of moves reaches from `s`, the invariant of `s` holds. */
  lemma {:induction false} InvAlways(net: Net, s: State, ms: seq<Move>, s': State)
    requires Inv(net, s) && Reaches(net, s, ms, s')
    ensures Inv(net, s')
    decreases |ms|
  {
    hide Inv, Enabled, Apply;
    if ms == [] {
    } else {
      InvKept(net, s, ms[0]);
      InvAlways(net, Apply(net, s, ms[0]), ms[1..], s');
    }
  }

  lemma InvReached(net: Net, ms: seq<Move>, s: State)
    requires Good(net) && Reaches(net, Init(net), ms, s)
    ensures Inv(net, s)
  {
    hide Inv, Reaches, Init;
    InitInv(net);
    InvAlways(net, Init(net), ms, s);
  }
}

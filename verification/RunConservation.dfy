/**
 Conservation over whole runs: every captured frame, and every copy that a fan-out
 makes of one, is in one place: in a queue, with a node, or in the log of the frames
 that left the pipeline.
 */
module RunConservation {
  import opened Bytes
  import opened PipelineRun
  import opened RunInvariant
  import E = Endpoints

  // ---------------------------------------------------------------- counting identities

  /** How often frame `id` occurs in `ts`. */
  function Copies(ts: seq<Tok>, id: nat): nat {
    if ts == [] then 0 else Copies(ts[..|ts| - 1], id) + One(ts[|ts| - 1].id == id)
  }

  function One(b: bool): nat {
    if b then 1 else 0
  }

  lemma {:induction false} CopiesUncons(ts: seq<Tok>, id: nat)
    requires ts != []
    ensures Copies(ts, id) == One(ts[0].id == id) + Copies(ts[1..], id)
  {
    var n := |ts| - 1;
    if n > 0 {
      CopiesUncons(ts[..n], id);
      assert ts[1..][..n - 1] == ts[..n][1..];
    }
  }

  lemma CopiesSnoc(ts: seq<Tok>, t: Tok, id: nat)
    ensures Copies(ts + [t], id) == Copies(ts, id) + One(t.id == id)
  {
    assert (ts + [t])[..|ts|] == ts;
  }

  function Sum(ns: seq<nat>): nat {
    if ns == [] then 0 else ns[0] + Sum(ns[1..])
  }

  lemma {:induction false} SumUpdate(ns: seq<nat>, i: nat, n: nat)
    requires i < |ns|
    ensures Sum(ns[i := n]) + ns[i] == Sum(ns) + n
  {
    if i == 0 {
      assert ns[0 := n][1..] == ns[1..];
    } else {
      assert ns[i := n][1..] == ns[1..][i - 1 := n];
      SumUpdate(ns[1..], i - 1, n);
    }
  }

  lemma {:induction false} SumOfZeros(ns: seq<nat>)
    requires forall k :: 0 <= k < |ns| ==> ns[k] == 0
    ensures Sum(ns) == 0
  {
    if ns == [] {
    } else {
      SumOfZeros(ns[1..]);
    }
  }

  function QueuedIn(net: Net, s: State, id: nat): (ns: seq<nat>)
    requires Sizes(net, s)
    ensures |ns| == net.topo.queues
    ensures forall q :: 0 <= q < |ns| ==> ns[q] == Copies(s.hist[q][s.taken[q]..], id)
  {
    seq(net.topo.queues, q requires 0 <= q < net.topo.queues => Copies(s.hist[q][s.taken[q]..], id))
  }

  function HeldIn(s: State, id: nat): (ns: seq<nat>)
    ensures |ns| == |s.locals| && forall i :: 0 <= i < |ns| ==> ns[i] == HeldBy(s.locals[i], id)
  {
    seq(|s.locals|, i requires 0 <= i < |s.locals| => HeldBy(s.locals[i], id))
  }

  /** The copies of frame `id` in all queues. */
  function Queued(net: Net, s: State, id: nat): nat
    requires Sizes(net, s)
  {
    Sum(QueuedIn(net, s, id))
  }

  /** The copies of frame `id` that nodes hold. */
  function Held(s: State, id: nat): nat {
    Sum(HeldIn(s, id))
  }

  /** The copies of frame `id` that left with the given fate. */
  function Left(log: seq<End>, fate: Fate, id: nat): nat {
    if log == [] then 0
    else
      var e := log[|log| - 1];
      Left(log[..|log| - 1], fate, id) + One(e.fate == fate && e.tok.id == id)
  }

  function Gone(log: seq<End>, id: nat): nat {
    if log == [] then 0
    else Gone(log[..|log| - 1], id) + One(log[|log| - 1].tok.id == id)
  }

  lemma {:induction false} FatesPartition(log: seq<End>, id: nat)
    ensures Gone(log, id) == Left(log, Dropped, id) + Left(log, Filtered, id) + Left(log, Skipped, id)
                             + Left(log, SendFailed, id) + Left(log, Sent, id) + Left(log, Consumed, id)
  {
    if log == [] {
    } else {
      FatesPartition(log[..|log| - 1], id);
    }
  }

  lemma GoneSnoc(log: seq<End>, e: End, id: nat)
    ensures Gone(log + [e], id) == Gone(log, id) + One(e.tok.id == id)
  {
    assert (log + [e])[..|log|] == log;
  }

  // ---------------------------------------------------------------- what a move shifts

  /** Frame `id` is captured once, and then every copy of it is in one place. */
  predicate Conserved(net: Net, s: State, id: nat)
    requires Sizes(net, s)
  {
    One(id < |s.captured|) + s.copied[id] == Queued(net, s, id) + Held(s, id) + Gone(s.ended, id)
  }

  lemma HeldAfter(net: Net, s: State, m: Move, id: nat)
    requires Enabled(net, s, m)
    ensures |Apply(net, s, m).locals| == |s.locals|
    ensures Held(Apply(net, s, m), id) + HeldBy(s.locals[m.node], id)
            == Held(s, id) + HeldBy(Apply(net, s, m).locals[m.node], id)
  {
    hide Good, Apply, HeldBy, Sum;
    var s', i := Apply(net, s, m), m.node;
    NodesAfter(net, s, m);
    forall j | 0 <= j < |s.locals|
      ensures HeldIn(s', id)[j] == HeldIn(s, id)[i := HeldBy(s'.locals[i], id)][j]
    {
      if j != i {
        OthersAfter(net, s, m, j);
      }
    }
    assert HeldIn(s', id) == HeldIn(s, id)[i := HeldBy(s'.locals[i], id)];
    SumUpdate(HeldIn(s, id), i, HeldBy(s'.locals[i], id));
  }

  lemma QueuedAfterPush(net: Net, s: State, i: nat, id: nat)
    requires Enabled(net, s, Move(i, Push))
    requires Sizes(net, Apply(net, s, Move(i, Push)))
    ensures var l := s.locals[i];
            Queued(net, Apply(net, s, Move(i, Push)), id) ==
            Queued(net, s, id) + One(Accepts(s, Target(net, i, l.next), l.tok.bytes) && l.tok.id == id)
  {
    hide Good, Apply, Sum, Copies, Accepts;
    var m, l := Move(i, Push), s.locals[i];
    var s', q := Apply(net, s, m), Target(net, i, l.next);
    QueuesAfter(net, s, m);
    if Accepts(s, q, l.tok.bytes) {
      var h := s.hist[q][s.taken[q]..];
      assert s'.hist[q][s'.taken[q]..] == h + [Outgoing(i, l)];
      CopiesSnoc(h, Outgoing(i, l), id);
      SumUpdate(QueuedIn(net, s, id), q, Copies(h + [Outgoing(i, l)], id));
      assert QueuedIn(net, s', id) == QueuedIn(net, s, id)[q := Copies(h + [Outgoing(i, l)], id)];
    } else {
      assert QueuedIn(net, s', id) == QueuedIn(net, s, id);
    }
  }

  lemma QueuedAfterTake(net: Net, s: State, i: nat, id: nat)
    requires Enabled(net, s, Move(i, Take))
    requires Sizes(net, Apply(net, s, Move(i, Take)))
    ensures var q := Input(net, i);
            Queued(net, Apply(net, s, Move(i, Take)), id) + One(s.hist[q][s.taken[q]].id == id) == Queued(net, s, id)
  {
    hide Good, Apply, Sum, Copies;
    var m, q := Move(i, Take), Input(net, i);
    var s' := Apply(net, s, m);
    QueuesAfter(net, s, m);
    var h := s.hist[q][s.taken[q]..];
    assert s'.hist[q][s'.taken[q]..] == h[1..];
    CopiesUncons(h, id);
    SumUpdate(QueuedIn(net, s, id), q, Copies(h[1..], id));
    assert QueuedIn(net, s', id) == QueuedIn(net, s, id)[q := Copies(h[1..], id)];
  }

  lemma QueuedStays(net: Net, s: State, m: Move, id: nat)
    requires Enabled(net, s, m) && !m.event.Take? && !m.event.Push?
    requires Sizes(net, Apply(net, s, m))
    ensures Queued(net, Apply(net, s, m), id) == Queued(net, s, id)
  {
    hide Good, Apply, Sum;
    QueuesAfter(net, s, m);
    assert QueuedIn(net, Apply(net, s, m), id) == QueuedIn(net, s, id);
  }

  /** The one copy that a node takes in becomes the copies it holds, less the extra ones, or ends. */
  lemma ReceiveBalances(net: Net, i: nat, t: Tok, at: nat, first: nat)
    requires Good(net) && i < |net.topo.kinds|
    ensures var l := Received(net, i, t, at, first);
            && HeldBy(l, t.id) + One(FateOf(net, i, t, first).Some?) == 1 + Extra(l)
            && forall id :: id != t.id ==> HeldBy(l, id) == 0
  {
    Lengths(net);
    hide Good, Worked;
  }

  lemma ReceiveConserves(net: Net, s: State, i: nat, t: Tok, at: nat, first: nat, id: nat)
    requires Good(net) && i < |net.topo.kinds| == |s.locals|
    ensures var s', l := Receive(net, s, i, t, at, first), Received(net, i, t, at, first);
            Gone(s'.ended, id) + s.copied[id] + HeldBy(l, id) == Gone(s.ended, id) + s'.copied[id] + One(t.id == id)
  {
    hide Good, Gone, HeldBy, Extra, Received, FateOf;
    ReceiveBalances(net, i, t, at, first);
    if FateOf(net, i, t, first).Some? {
      GoneSnoc(s.ended, End(t, i, at, FateOf(net, i, t, first).value), id);
    } else {
      assert s.ended + [] == s.ended;
    }
  }

  lemma CaptureReceives(net: Net, s: State, i: nat, f: Frame, id: nat)
    requires Enabled(net, s, Move(i, Capture(f)))
    ensures var s' := ApplyCapture(net, s, i, f);
            && |s'.locals| == |s.locals|
            && Gone(s'.ended, id) + s.copied[id] + HeldBy(s'.locals[i], id)
               == Gone(s.ended, id) + s'.copied[id] + One(|s.captured| == id)
  {
    hide Good, Gone, Extra, Received, FateOf, HeldBy;
    var k := |s.captured|;
    var base := s.(captured := s.captured + [Captured(i, f)], errors := s.errors[i := 0]);
    ReceiveConserves(net, base, i, Tok(k, [], f, k), k, 0, id);
  }

  lemma TakeReceives(net: Net, s: State, i: nat, id: nat)
    requires Enabled(net, s, Move(i, Take))
    ensures var s', q := ApplyTake(net, s, i), Input(net, i);
            && |s'.locals| == |s.locals|
            && Gone(s'.ended, id) + s.copied[id] + HeldBy(s'.locals[i], id)
               == Gone(s.ended, id) + s'.copied[id] + One(s.hist[q][s.taken[q]].id == id)
  {
    Lengths(net);
    hide Good, Gone, Extra, Received, FateOf, E.Counted, HeldBy;
    var q, n := Input(net, i), |net.topo.outs[i]|;
    var at := s.taken[q];
    var t := s.hist[q][at];
    var base := s.(
      taken := s.taken[q := at + 1],
      turn := if net.topo.kinds[i].Dispatcher? then s.turn[i := (s.turn[i] + 1) % n] else s.turn,
      stats := if net.topo.kinds[i].Counter? then s.stats[i := E.Counted(s.stats[i], t.bytes)] else s.stats);
    ReceiveConserves(net, base, i, t, at, if net.topo.kinds[i].Dispatcher? then s.turn[i] % n else 0, id);
  }

  /** The log and the copies of the moves that take nothing in. */
  lemma LogAfter(net: Net, s: State, m: Move)
    requires Enabled(net, s, m) && !m.event.Capture? && !m.event.Take?
    ensures var s', l := Apply(net, s, m), s.locals[m.node];
            && s'.copied == s.copied
            && match m.event
               case Push =>
                 s'.ended == if Accepts(s, Target(net, m.node, l.next), l.tok.bytes) then s.ended
                             else s.ended + [End(l.tok, m.node, l.at, Dropped)]
               case Send(ok) => s'.ended == s.ended + [End(l.tok, m.node, l.at, if ok then Sent else SendFailed)]
               case _ => s'.ended == s.ended
  {
    hide Good;
  }

  lemma ConservedKept(net: Net, s: State, m: Move, id: nat)
    requires Enabled(net, s, m) && Conserved(net, s, id)
    ensures Sizes(net, Apply(net, s, m)) && Conserved(net, Apply(net, s, m), id)
  {
    hide Good, Gone, Extra, Received, FateOf, Queued, Held, Apply, ApplyCapture, ApplyTake, Accepts;
    var i, l := m.node, s.locals[m.node];
    SizesKept(net, s, m);
    HeldAfter(net, s, m, id);
    CapturedAfter(net, s, m);
    if m.event.Capture? {
      QueuedStays(net, s, m, id);
      ApplyReceives(net, s, m);
      CaptureReceives(net, s, i, m.event.f, id);
    } else if m.event.Take? {
      QueuedAfterTake(net, s, i, id);
      ApplyReceives(net, s, m);
      TakeReceives(net, s, i, id);
    } else {
      MoverAfter(net, s, m);
      LogAfter(net, s, m);
      if m.event.Push? {
        QueuedAfterPush(net, s, i, id);
        GoneSnoc(s.ended, End(l.tok, i, l.at, Dropped), id);
      } else {
        QueuedStays(net, s, m, id);
        if m.event.Send? {
          GoneSnoc(s.ended, End(l.tok, i, l.at, if m.event.ok then Sent else SendFailed), id);
        }
      }
    }
  }

  lemma ApplyReceives(net: Net, s: State, m: Move)
    requires Enabled(net, s, m)
    ensures m.event.Capture? ==> Apply(net, s, m) == ApplyCapture(net, s, m.node, m.event.f)
    ensures m.event.Take? ==> Apply(net, s, m) == ApplyTake(net, s, m.node)
  {
    hide Good, ApplyCapture, ApplyTake;
  }

  lemma {:induction false} ConservedAlways(net: Net, s: State, ms: seq<Move>, s': State, id: nat)
    requires Sizes(net, s) && Conserved(net, s, id) && Reaches(net, s, ms, s')
    ensures Sizes(net, s') && Conserved(net, s', id)
    decreases |ms|
  {
    hide Conserved, Enabled, Apply;
    if ms == [] {
    } else {
      ConservedKept(net, s, ms[0], id);
      ConservedAlways(net, Apply(net, s, ms[0]), ms[1..], s', id);
    }
  }

  lemma InitConserved(net: Net, id: nat)
    ensures Sizes(net, Init(net)) && Conserved(net, Init(net), id)
  {
    SumOfZeros(QueuedIn(net, Init(net), id));
    SumOfZeros(HeldIn(Init(net), id));
  }

  /**
   Conservation. In every reachable state of every topology, a captured frame and the
   copies that fan-outs made of it are exactly those in queues, with nodes, dropped at
   full queues, filtered, skipped, failed in sending, sent, and consumed by a node
   without outputs; nothing that was not captured is anywhere.
   */
  lemma Conservation(net: Net, ms: seq<Move>, s: State, id: nat)
    requires Good(net) && Reaches(net, Init(net), ms, s)
    ensures Sizes(net, s)
    ensures (if id < |s.captured| then 1 else 0) + s.copied[id]
            == Queued(net, s, id) + Held(s, id)
               + Left(s.ended, Dropped, id) + Left(s.ended, Filtered, id) + Left(s.ended, Skipped, id)
               + Left(s.ended, SendFailed, id) + Left(s.ended, Sent, id) + Left(s.ended, Consumed, id)
  {
    hide Reaches, Left, Good, Init, Queued, Held, Sizes;
    InitConserved(net, id);
    ConservedAlways(net, Init(net), ms, s, id);
    FatesPartition(s.ended, id);
  }

  // ---------------------------------------------------------------- without fan-out

  /** Only dispatchers have more than one output. */
  predicate Unicast(net: Net)
    requires Good(net)
  {
    forall i :: 0 <= i < |net.topo.kinds| && !net.topo.kinds[i].Dispatcher? ==> |net.topo.outs[i]| <= 1
  }

  lemma NoExtra(net: Net, i: nat, t: Tok, at: nat, first: nat)
    requires Good(net) && Unicast(net) && i < |net.topo.kinds|
    ensures Extra(Received(net, i, t, at, first)) == 0
  {
    Lengths(net);
    hide Good, Worked;
  }

  lemma CopiedAfter(net: Net, s: State, m: Move)
    requires Enabled(net, s, m) && Unicast(net)
    ensures Apply(net, s, m).copied == s.copied
  {
    hide Good, Unicast, Extra, Received, FateOf, Apply, E.Counted;
    if m.event.Capture? {
      ApplyReceives(net, s, m);
      NoExtra(net, m.node, Tok(|s.captured|, [], m.event.f, |s.captured|), |s.captured|, 0);
    } else if m.event.Take? {
      Lengths(net);
      ApplyReceives(net, s, m);
      var q := Input(net, m.node);
      NoExtra(net, m.node, s.hist[q][s.taken[q]], s.taken[q],
              if net.topo.kinds[m.node].Dispatcher? then s.turn[m.node] % |net.topo.outs[m.node]| else 0);
    } else {
      LogAfter(net, s, m);
    }
  }

  lemma {:induction false} CopiedNothing(net: Net, s: State, ms: seq<Move>, s': State)
    requires Good(net) && Unicast(net) && Reaches(net, s, ms, s')
    ensures s'.copied == s.copied
    decreases |ms|
  {
    hide Enabled, Apply, Good;
    if ms == [] {
    } else {
      CopiedAfter(net, s, ms[0]);
      CopiedNothing(net, Apply(net, s, ms[0]), ms[1..], s');
    }
  }

  /** Without fan-out each captured frame is in exactly one place, and no other frame is anywhere. */
  lemma EachFrameInOnePlace(net: Net, ms: seq<Move>, s: State, id: nat)
    requires Good(net) && Unicast(net) && Reaches(net, Init(net), ms, s)
    ensures Sizes(net, s)
    ensures Queued(net, s, id) + Held(s, id)
            + Left(s.ended, Dropped, id) + Left(s.ended, Filtered, id) + Left(s.ended, Skipped, id)
            + Left(s.ended, SendFailed, id) + Left(s.ended, Sent, id) + Left(s.ended, Consumed, id)
            == if id < |s.captured| then 1 else 0
  {
    hide Reaches, Left, Good, Queued, Held, Sizes, Unicast;
    Conservation(net, ms, s, id);
    CopiedNothing(net, Init(net), ms, s);
  }
}

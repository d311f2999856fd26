/**
 What each move of the run does to the node that makes it, in the terms of the C code:
 the outputs it goes on to, the sizes it refuses and the errors it tolerates.
 */
module RunSteps {
  import opened Bytes
  import opened PipelineRun
  import opened Topology
  import E = Endpoints
  import I = RunInvariant
  import T = Tagger

  /** An idle sniffer can capture any frame of at most 1518 bytes, and holds it for all its outputs. */
  lemma CaptureDoes(net: Net, s: State, i: nat, f: Frame)
    requires Good(net) && Sizes(net, s) && i < |net.topo.kinds|
    requires net.topo.kinds[i].Sniffer? && s.locals[i] == Idle && |f| <= 1518
    ensures Enabled(net, s, Move(i, Capture(f))) && i < |net.topo.outs|
    ensures var s', k, n := Apply(net, s, Move(i, Capture(f))), |s.captured|, |net.topo.outs[i]|;
            && s'.locals == s.locals[i := Busy(Tok(k, [], f, k), k, 0, 0, n)]
            && s'.captured == s.captured + [Captured(i, f)] && s'.errors == s.errors[i := 0]
            && s'.hist == s.hist && s'.taken == s.taken && s'.turn == s.turn && s'.stats == s.stats && s'.exit == s.exit
            && (n > 0 ==> s'.ended == s.ended)
  {
    I.Lengths(net);
    hide Good;
    assert s.ended + [] == s.ended;
  }

  /** What a node that has taken in `t` as number `at` holds, and how the log grows. */
  ghost predicate TookIn(net: Net, s: State, s': State, i: nat, t: Tok, at: nat)
    requires Good(net) && Sizes(net, s) && i < |net.topo.kinds| == |net.topo.outs|
  {
    var n := |net.topo.outs[i]|;
    match net.topo.kinds[i]
    case Sender =>
      if |t.bytes| < 1518 then s'.locals == s.locals[i := Sending(t, at)] && s'.ended == s.ended
      else s'.locals == s.locals && s'.ended == s.ended + [End(t, i, at, Skipped)]
    case Tagger =>
      var w := T.TagOf(t.bytes, net.rules);
      if w.None? then s'.locals == s.locals && s'.ended == s.ended + [End(t, i, at, Filtered)]
      else
        && s'.locals == s.locals[i := Busy(t.(bytes := w.value), at, 0, 0, n)]
        && s'.ended == s.ended + if n == 0 then [End(t, i, at, Consumed)] else []
    case Dispatcher =>
      && n > 0 && s'.turn == s.turn[i := (s.turn[i] + 1) % n] && s'.ended == s.ended
      && s'.locals == s.locals[i := Busy(t, at, s.turn[i] % n, s.turn[i] % n, s.turn[i] % n + 1)]
    case _ =>
      && s'.locals == s.locals[i := Busy(t, at, 0, 0, n)]
      && s'.ended == s.ended + if n == 0 then [End(t, i, at, Consumed)] else []
  }

  /**
   `Take`: a collector, logger or counter holds the frame unchanged for all its outputs,
   a tagger its tagged image if there is one, a dispatcher the frame for the next output in
   turn, and a sender a frame below 1518 bytes for sending.
   */
  lemma TakeDoes(net: Net, s: State, i: nat)
    requires Enabled(net, s, Move(i, Take))
    ensures |net.topo.outs| == |net.topo.kinds|
    ensures var s', q := Apply(net, s, Move(i, Take)), Input(net, i);
            && TookIn(net, s, s', i, s.hist[q][s.taken[q]], s.taken[q])
            && s'.taken == s.taken[q := s.taken[q] + 1] && s'.hist == s.hist
            && s'.captured == s.captured && s'.errors == s.errors && s'.exit == s.exit
            && (!net.topo.kinds[i].Dispatcher? ==> s'.turn == s.turn)
            && (!net.topo.kinds[i].Counter? ==> s'.stats == s.stats)
  {
    I.Lengths(net);
    hide Good, E.Counted, T.TagOf;
    assert s.ended + [] == s.ended;
    assert s.locals[i := Idle] == s.locals;
  }

  /** A counter counts the frame as one packet, by its size and by the bytes 81 00 after the addresses. */
  lemma CounterCounts(net: Net, s: State, i: nat)
    requires Enabled(net, s, Move(i, Take)) && net.topo.kinds[i].Counter?
    ensures var q := Input(net, i);
            var f, st, st' := s.hist[q][s.taken[q]].bytes, s.stats[i], Apply(net, s, Move(i, Take)).stats;
            var tagged := |f| >= 16 && f[12] == 0x81 && f[13] == 0;
            st' == s.stats[i := E.Stats(st.total + 1, st.bytes + |f|,
                                        st.vlan + if tagged then 1 else 0, st.nonVlan + if tagged then 0 else 1)]
  {
    I.Lengths(net);
    T.VlanBytes(s.hist[Input(net, i)][s.taken[Input(net, i)]].bytes);
    hide Good, Received, FateOf, Extra, T.IsVlan;
  }

  /**
   `Push`: the queue takes a frame of 1 to 1522 bytes while it holds fewer than 1000, and
   the frame is dropped otherwise; either way the node goes on to its next output.
   */
  lemma PushDoes(net: Net, s: State, i: nat)
    requires Enabled(net, s, Move(i, Push))
    ensures i < |net.topo.outs|
    ensures var s', l := Apply(net, s, Move(i, Push)), s.locals[i];
            var q, t := net.topo.outs[i][l.next], Tok(l.tok.id, l.tok.route + [Hop(i, l.next)], l.tok.bytes, l.at);
            var room := 1 <= |l.tok.bytes| <= 1522 && |s.hist[q]| - s.taken[q] < 1000;
            && s'.locals == s.locals[i := l.(next := l.next + 1)]
            && s'.hist == (if room then s.hist[q := s.hist[q] + [t]] else s.hist)
            && s'.ended == s.ended + (if room then [] else [End(l.tok, i, l.at, Dropped)])
            && s'.taken == s.taken && s'.turn == s.turn && s'.stats == s.stats
            && s'.captured == s.captured && s'.errors == s.errors && s'.exit == s.exit
  {
    I.Lengths(net);
    hide Good;
    assert s.ended + [] == s.ended;
  }

  /** A node that has gone through its outputs is idle again. */
  lemma FinishDoes(net: Net, s: State, i: nat)
    requires Good(net) && Sizes(net, s) && i < |net.topo.kinds| && s.locals[i].Busy? && s.locals[i].next == s.locals[i].last
    ensures Enabled(net, s, Move(i, Finish))
    ensures Apply(net, s, Move(i, Finish)) == s.(locals := s.locals[i := Idle])
  {
    hide Good;
  }

  /** `Send`: a success ends a run of errors; the fourth failure in a row sets the exit flag and stops the sender. */
  lemma SendDoes(net: Net, s: State, i: nat, ok: bool)
    requires Good(net) && Sizes(net, s) && i < |net.topo.kinds| && s.locals[i].Sending?
    ensures Enabled(net, s, Move(i, Send(ok)))
    ensures var l, log := s.locals[i], s.ended + [End(s.locals[i].tok, i, s.locals[i].at, if ok then Sent else SendFailed)];
            Apply(net, s, Move(i, Send(ok))) ==
            if ok then s.(locals := s.locals[i := Idle], errors := s.errors[i := 0], ended := log)
            else if s.errors[i] == 3 then s.(locals := s.locals[i := Stopped], exit := true, ended := log)
            else s.(locals := s.locals[i := Idle], errors := s.errors[i := s.errors[i] + 1], ended := log)
  {
    hide Good;
  }

  /** `CaptureFails`: the fourth error in a row sets the exit flag and stops the sniffer. */
  lemma CaptureFailsDoes(net: Net, s: State, i: nat)
    requires Good(net) && Sizes(net, s) && i < |net.topo.kinds| && net.topo.kinds[i].Sniffer? && s.locals[i] == Idle
    ensures Enabled(net, s, Move(i, CaptureFails))
    ensures Apply(net, s, Move(i, CaptureFails)) ==
            if s.errors[i] >= 3 then s.(locals := s.locals[i := Stopped], exit := true)
            else s.(errors := s.errors[i := s.errors[i] + 1])
  {
    hide Good;
  }

  /** A failed wait stops every consumer but a sender, and the exit flag stops an idle node. */
  lemma StopDoes(net: Net, s: State, i: nat)
    requires Good(net) && Sizes(net, s) && i < |net.topo.kinds| && s.locals[i] == Idle
    ensures s.exit ==>
              && Enabled(net, s, Move(i, Stop))
              && Apply(net, s, Move(i, Stop)) == s.(locals := s.locals[i := Stopped])
    ensures Enabled(net, s, Move(i, WaitFails)) ==>
              Apply(net, s, Move(i, WaitFails)) ==
              if net.topo.kinds[i].Sender? then s else s.(locals := s.locals[i := Stopped])
  {
    hide Good;
  }
}

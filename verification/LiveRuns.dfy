/**
 Frames do get through: in both pipelines of pipeline_patterns/patterns.c a captured frame
 under a nonzero tag can be sent, tagged, and where the pipeline counts and logs it is
 counted and logged as well.
 */
module LiveRuns {
  import opened Bytes
  import opened RuleTable
  import opened Topology
  import opened PipelineRun
  import opened PatternRuns
  import opened RunSteps
  import E = Endpoints
  import I = RunInvariant
  import N = NodeThreads
  import T = Tagger

  // ---------------------------------------------------------------- one node handles one frame

  /** The queues after node `i` has pushed `t` to its outputs from `k` up to `n`. */
  function Pushed(outs: seq<nat>, hist: seq<seq<Tok>>, i: nat, t: Tok, at: nat, k: nat, n: nat): (h: seq<seq<Tok>>)
    requires k <= n <= |outs| && forall j :: k <= j < n ==> outs[j] < |hist|
    ensures |h| == |hist|
    decreases n - k
  {
    if k == n then hist
    else
      Pushed(outs, hist[outs[k] := hist[outs[k]] + [Tok(t.id, t.route + [Hop(i, k)], t.bytes, at)]], i, t, at, k + 1, n)
  }

  /** The output queues from `k` to `n` have room for `n` frames more. */
  ghost predicate Room(net: Net, s: State, i: nat, k: nat, n: nat)
    requires Sizes(net, s) && i < |net.topo.outs|
  {
    n <= |net.topo.outs[i]| &&
    forall j :: k <= j < n ==>
      var q := net.topo.outs[i][j]; q < net.topo.queues && |s.hist[q]| - s.taken[q] + n - k <= 1000
  }

  /** A node that holds a frame can push it to all its outputs and be idle again. */
  lemma {:induction false} FanOut(net: Net, s: State, i: nat, t: Tok, at: nat, first: nat, k: nat, n: nat)
      returns (ms: seq<Move>, s': State)
    requires Good(net) && Sizes(net, s) && i < |net.topo.kinds| && i < |net.topo.outs|
    requires k <= n && Room(net, s, i, k, n)
    requires s.locals[i] == Busy(t, at, first, k, n) && 1 <= |t.bytes| <= 1522
    ensures Reaches(net, s, ms, s') && Sizes(net, s')
    ensures s'.hist == Pushed(net.topo.outs[i], s.hist, i, t, at, k, n)
    ensures s' == s.(hist := s'.hist, locals := s.locals[i := Idle])
    decreases n - k
  {
    hide Good, Enabled, Apply;
    if k == n {
      FinishDoes(net, s, i);
      N.OneMove(net, s, Move(i, Finish));
      ms, s' := [Move(i, Finish)], Apply(net, s, Move(i, Finish));
    } else {
      var b := PushOne(net, s, i, t, at, first, k, n);
      var rest;
      rest, s' := FanOut(net, b, i, t, at, first, k + 1, n);
      N.OneMove(net, s, Move(i, Push));
      N.RunsJoin(net, s, [Move(i, Push)], b, rest, s');
      ms := [Move(i, Push)] + rest;
      assert s.locals[i := Busy(t, at, first, k + 1, n)][i := Idle] == s.locals[i := Idle];
    }
  }

  lemma PushOne(net: Net, s: State, i: nat, t: Tok, at: nat, first: nat, k: nat, n: nat) returns (b: State)
    requires Good(net) && Sizes(net, s) && i < |net.topo.kinds| && i < |net.topo.outs|
    requires k < n && Room(net, s, i, k, n)
    requires s.locals[i] == Busy(t, at, first, k, n) && 1 <= |t.bytes| <= 1522
    ensures Enabled(net, s, Move(i, Push)) && b == Apply(net, s, Move(i, Push))
    ensures Sizes(net, b) && Room(net, b, i, k + 1, n)
    ensures var q := net.topo.outs[i][k];
            b == s.(hist := s.hist[q := s.hist[q] + [Tok(t.id, t.route + [Hop(i, k)], t.bytes, at)]],
                    locals := s.locals[i := Busy(t, at, first, k + 1, n)])
  {
    assert Enabled(net, s, Move(i, Push)) by { hide Good; }
    PushDoes(net, s, i);
    b := Apply(net, s, Move(i, Push));
    assert b.ended == s.ended + [];
    CopiedStays(net, s, i);
  }

  lemma CopiedStays(net: Net, s: State, i: nat)
    requires Enabled(net, s, Move(i, Push))
    ensures Apply(net, s, Move(i, Push)).copied == s.copied
  {
    hide Good;
  }

  /** The first and the last output of node `i` for the next frame it takes. */
  function Outputs(net: Net, s: State, i: nat): (r: (nat, nat))
    requires Sizes(net, s) && i < |net.topo.kinds| && i < |net.topo.outs|
    requires net.topo.kinds[i].Dispatcher? ==> net.topo.outs[i] != []
    ensures r.0 <= r.1 <= |net.topo.outs[i]|
  {
    var n := |net.topo.outs[i]|;
    if net.topo.kinds[i].Dispatcher? then (s.turn[i] % n, s.turn[i] % n + 1) else (0, n)
  }

  /** Node `i` is idle, has a frame to read that goes on as `w`, and room for it behind its outputs. */
  ghost predicate CanRelay(net: Net, s: State, i: nat, w: Frame) {
    && Good(net) && Sizes(net, s) && i < |net.topo.kinds| && i < |net.topo.outs| && net.rules != []
    && !net.topo.kinds[i].Sniffer? && !net.topo.kinds[i].Sender? && s.locals[i] == Idle && Reads(net, i)
    && (net.topo.kinds[i].Dispatcher? ==> net.topo.outs[i] != [])
    && 1 <= |w| <= 1522 && Room(net, s, i, Outputs(net, s, i).0, Outputs(net, s, i).1)
    && var q := Input(net, i);
       && s.taken[q] < |s.hist[q]|
       && var b := s.hist[q][s.taken[q]].bytes;
          if net.topo.kinds[i].Tagger? then T.TagOf(b, net.rules) == Some(w) else w == b
  }

  lemma TakeOne(net: Net, s: State, i: nat, w: Frame) returns (b: State)
    requires CanRelay(net, s, i, w)
    ensures Enabled(net, s, Move(i, Take)) && b == Apply(net, s, Move(i, Take)) && Sizes(net, b)
    ensures var q, (lo, hi) := Input(net, i), Outputs(net, s, i);
            && Room(net, b, i, lo, hi)
            && b.locals == s.locals[i := Busy(s.hist[q][s.taken[q]].(bytes := w), s.taken[q], lo, lo, hi)]
            && b.taken == s.taken[q := s.taken[q] + 1] && b.hist == s.hist
            && b.captured == s.captured && b.errors == s.errors && b.exit == s.exit
            && b.ended == s.ended + (if lo == hi then [End(s.hist[q][s.taken[q]], i, s.taken[q], Consumed)] else [])
            && (!net.topo.kinds[i].Counter? ==> b.stats == s.stats)
            && (net.topo.kinds[i].Counter? && |w| >= 16 && w[12] == 0x81 && w[13] == 0 ==>
                  var st := s.stats[i];
                  b.stats == s.stats[i := E.Stats(st.total + 1, st.bytes + |w|, st.vlan + 1, st.nonVlan)])
  {
    hide Good, Apply, T.TagOf;
    TakeDoes(net, s, i);
    if net.topo.kinds[i].Counter? {
      CounterCounts(net, s, i);
    }
    b := Apply(net, s, Move(i, Take));
  }

  /** A node can take in the next frame and hand it on to all its outputs. */
  lemma Relay(net: Net, s: State, i: nat, w: Frame) returns (ms: seq<Move>, s': State)
    requires CanRelay(net, s, i, w)
    ensures Reaches(net, s, ms, s') && Sizes(net, s')
    ensures var q, (lo, hi) := Input(net, i), Outputs(net, s, i);
            var t := s.hist[q][s.taken[q]];
            && s'.hist == Pushed(net.topo.outs[i], s.hist, i, t.(bytes := w), s.taken[q], lo, hi)
            && s'.taken == s.taken[q := s.taken[q] + 1] && s'.locals == s.locals
            && s'.captured == s.captured && s'.errors == s.errors && s'.exit == s.exit
            && s'.ended == s.ended + (if lo == hi then [End(t, i, s.taken[q], Consumed)] else [])
            && (!net.topo.kinds[i].Counter? ==> s'.stats == s.stats)
            && (net.topo.kinds[i].Counter? && |w| >= 16 && w[12] == 0x81 && w[13] == 0 ==>
                  var st := s.stats[i];
                  s'.stats == s.stats[i := E.Stats(st.total + 1, st.bytes + |w|, st.vlan + 1, st.nonVlan)])
  {
    var b := TakeOne(net, s, i, w);
    hide Good, Enabled, Apply, T.TagOf;
    var q, r := Input(net, i), Outputs(net, s, i);
    var t := s.hist[q][s.taken[q]].(bytes := w);
    var rest;
    rest, s' := FanOut(net, b, i, t, s.taken[q], r.0, r.0, r.1);
    N.OneMove(net, s, Move(i, Take));
    N.RunsJoin(net, s, [Move(i, Take)], b, rest, s');
    ms := [Move(i, Take)] + rest;
    assert s.locals[i := Busy(t, s.taken[q], r.0, r.0, r.1)][i := Idle] == s.locals;
  }

  /** A sniffer can capture a frame and hand it on to all its outputs. */
  lemma CaptureRelay(net: Net, s: State, i: nat, f: Frame) returns (ms: seq<Move>, s': State)
    requires Good(net) && Sizes(net, s) && i < |net.topo.kinds| && i < |net.topo.outs|
    requires net.topo.kinds[i].Sniffer? && s.locals[i] == Idle && 1 <= |f| <= 1518
    requires net.topo.outs[i] != [] && Room(net, s, i, 0, |net.topo.outs[i]|)
    ensures Reaches(net, s, ms, s') && Sizes(net, s')
    ensures var k := |s.captured|;
            && s'.hist == Pushed(net.topo.outs[i], s.hist, i, Tok(k, [], f, k), k, 0, |net.topo.outs[i]|)
            && s'.captured == s.captured + [Captured(i, f)] && s'.errors == s.errors[i := 0]
            && s'.locals == s.locals && s'.taken == s.taken && s'.stats == s.stats
            && s'.ended == s.ended && s'.exit == s.exit && s'.turn == s.turn
  {
    hide Good, Enabled, Apply;
    CaptureDoes(net, s, i, f);
    var m := Move(i, Capture(f));
    var b, k, n := Apply(net, s, m), |s.captured|, |net.topo.outs[i]|;
    var rest;
    rest, s' := FanOut(net, b, i, Tok(k, [], f, k), k, 0, 0, n);
    N.OneMove(net, s, m);
    N.RunsJoin(net, s, [m], b, rest, s');
    ms := [m] + rest;
    assert s.locals[i := Busy(Tok(k, [], f, k), k, 0, 0, n)][i := Idle] == s.locals;
  }

  /** An idle sender can send the next frame, if it is shorter than 1518 bytes. */
  lemma SendOne(net: Net, s: State, i: nat) returns (ms: seq<Move>, s': State)
    requires Good(net) && Sizes(net, s) && i < |net.topo.kinds| && net.topo.kinds[i].Sender? && s.locals[i] == Idle
    requires Reads(net, i) && s.taken[Input(net, i)] < |s.hist[Input(net, i)]|
    requires |s.hist[Input(net, i)][s.taken[Input(net, i)]].bytes| < 1518
    ensures Reaches(net, s, ms, s') && Sizes(net, s')
    ensures var q := Input(net, i);
            && s'.hist == s.hist && s'.taken == s.taken[q := s.taken[q] + 1] && s'.locals == s.locals
            && s'.captured == s.captured && s'.errors == s.errors[i := 0] && s'.exit == s.exit && s'.stats == s.stats
            && s'.ended == s.ended + [End(s.hist[q][s.taken[q]], i, s.taken[q], Sent)]
  {
    hide Good, Apply;
    I.Lengths(net);
    TakeDoes(net, s, i);
    var b := Apply(net, s, Move(i, Take));
    SendDoes(net, b, i, true);
    s' := Apply(net, b, Move(i, Send(true)));
    hide Enabled;
    N.OneMove(net, s, Move(i, Take));
    N.OneMove(net, b, Move(i, Send(true)));
    N.RunsJoin(net, s, [Move(i, Take)], b, [Move(i, Send(true))], s');
    ms := [Move(i, Take)] + [Move(i, Send(true))];
    var q := Input(net, i);
    assert s.locals[i := Sending(s.hist[q][s.taken[q]], s.taken[q])][i := Idle] == s.locals;
  }

  // ---------------------------------------------------------------- steps of a whole run

  /** `f` tagged with `vid`, byte by byte. */
  function Image(f: Frame, vid: nat): (w: Frame)
    requires |f| >= 34 && vid <= 4095
    ensures |w| == |f| + 4 && w[12] == 0x81 && w[13] == 0x00
  {
    f[..12] + [0x81, 0x00, vid / 256, vid % 256] + f[12..]
  }

  /** An IPv4 frame short enough to be sent tagged, with a nonzero destination in rule `k`, whose tag is nonzero. */
  ghost predicate Deliverable(f: Frame, rules: seq<Rule>, k: nat) {
    && ValidRules(rules) && k < |rules| && 0 < rules[k].tag <= 4095
    && 34 <= |f| <= 1513 && f[12] == 8 && f[13] == 0
    && T.Destination(f) != 0 && rules[k].left <= T.Destination(f) <= rules[k].right
  }

  /** There are such frames of every length. */
  lemma SampleIsDeliverable(n: nat)
    requires 34 <= n <= 1513
    ensures Deliverable(T.Sample(n), [Rule(0x0A00_0001, 0x0A00_0001, 1)], 0)
  {
  }

  /** The run so far: every node is idle, and these frames were queued and taken. */
  ghost predicate Quiet(net: Net, ms: seq<Move>, s: State, hist: seq<seq<Tok>>, taken: seq<nat>) {
    && Reaches(net, Init(net), ms, s) && Sizes(net, s) && s.hist == hist && s.taken == taken
    && !s.exit && (forall i :: 0 <= i < |s.locals| ==> s.locals[i] == Idle)
  }

  lemma PushedOnce(outs: seq<nat>, hist: seq<seq<Tok>>, i: nat, t: Tok, at: nat, k: nat)
    requires k < |outs| && outs[k] < |hist|
    ensures Pushed(outs, hist, i, t, at, k, k + 1) ==
            hist[outs[k] := hist[outs[k]] + [Tok(t.id, t.route + [Hop(i, k)], t.bytes, at)]]
  {
  }

  /** Node `i` reads queue `q`, and its output `k` leads to queue `o`; only a dispatcher has others. */
  ghost predicate Wire(net: Net, i: nat, q: nat, k: nat, o: nat) {
    && Good(net) && i < |net.topo.kinds| == |net.topo.outs| && Reads(net, i) && Input(net, i) == q
    && !net.topo.kinds[i].Sniffer? && !net.topo.kinds[i].Sender?
    && k < |net.topo.outs[i]| && net.topo.outs[i][k] == o < net.topo.queues
    && (!net.topo.kinds[i].Dispatcher? ==> k == 0 && |net.topo.outs[i]| == 1)
  }

  lemma WireOutputs(net: Net, s: State, i: nat, q: nat, k: nat, o: nat)
    requires Sizes(net, s) && Wire(net, i, q, k, o) && (net.topo.kinds[i].Dispatcher? ==> s.turn[i] == k)
    ensures Outputs(net, s, i) == (k, k + 1)
  {
    hide Good, Reads, Input;
  }

  lemma WireRelays(net: Net, ms: seq<Move>, s: State, hist: seq<seq<Tok>>, taken: seq<nat>,
                   i: nat, q: nat, k: nat, o: nat, t: Tok, w: Frame)
    requires Quiet(net, ms, s, hist, taken) && Wire(net, i, q, k, o) && net.rules != []
    requires net.topo.kinds[i].Dispatcher? ==> s.turn[i] == k
    requires hist[q] == [t] && taken[q] == 0 && hist[o] == [] && 1 <= |w| <= 1522
    requires if net.topo.kinds[i].Tagger? then T.TagOf(t.bytes, net.rules) == Some(w) else w == t.bytes
    ensures CanRelay(net, s, i, w) && Outputs(net, s, i) == (k, k + 1)
  {
    WireOutputs(net, s, i, q, k, o);
    hide Good, Reaches, Init, Outputs, T.TagOf;
    assert |s.hist[o]| == 0;
  }

  lemma RelayOne(net: Net, s: State, i: nat, q: nat, k: nat, o: nat, t: Tok, w: Frame)
      returns (ms: seq<Move>, s': State)
    requires CanRelay(net, s, i, w) && Outputs(net, s, i) == (k, k + 1) && k < |net.topo.outs[i]|
    requires Input(net, i) == q && net.topo.outs[i][k] == o < |s.hist|
    requires s.hist[q] == [t] && s.taken[q] == 0 && s.hist[o] == []
    ensures Reaches(net, s, ms, s') && Sizes(net, s')
    ensures s'.hist == s.hist[o := [Tok(t.id, t.route + [Hop(i, k)], w, 0)]] && s'.taken == s.taken[q := 1]
    ensures s'.captured == s.captured && s'.ended == s.ended && s'.locals == s.locals && s'.exit == s.exit
    ensures !net.topo.kinds[i].Counter? ==> s'.stats == s.stats
    ensures net.topo.kinds[i].Counter? && |w| >= 16 && w[12] == 0x81 && w[13] == 0 ==>
              var st := s.stats[i];
              s'.stats == s.stats[i := E.Stats(st.total + 1, st.bytes + |w|, st.vlan + 1, st.nonVlan)]
  {
    hide Good, Reaches, Pushed, Outputs, Room, T.TagOf;
    ms, s' := Relay(net, s, i, w);
    PushedOnce(net.topo.outs[i], s.hist, i, t.(bytes := w), 0, k);
    assert [] + [Tok(t.id, t.route + [Hop(i, k)], w, 0)] == [Tok(t.id, t.route + [Hop(i, k)], w, 0)];
  }

  /** The run goes on: node `i` takes `t`, the only frame in `q`, and hands it on as `w`. */
  lemma Forward(net: Net, ms: seq<Move>, s: State, hist: seq<seq<Tok>>, taken: seq<nat>,
                i: nat, q: nat, k: nat, o: nat, t: Tok, w: Frame)
      returns (ns: seq<Move>, s': State)
    requires Quiet(net, ms, s, hist, taken) && Wire(net, i, q, k, o) && net.rules != []
    requires net.topo.kinds[i].Dispatcher? ==> s.turn[i] == k
    requires hist[q] == [t] && taken[q] == 0 && hist[o] == [] && 1 <= |w| <= 1522
    requires if net.topo.kinds[i].Tagger? then T.TagOf(t.bytes, net.rules) == Some(w) else w == t.bytes
    ensures Quiet(net, ns, s', hist[o := [Tok(t.id, t.route + [Hop(i, k)], w, 0)]], taken[q := 1])
    ensures s'.captured == s.captured && s'.ended == s.ended
    ensures !net.topo.kinds[i].Counter? ==> s'.stats == s.stats
    ensures net.topo.kinds[i].Counter? && |w| >= 16 && w[12] == 0x81 && w[13] == 0 ==>
              var st := s.stats[i];
              s'.stats == s.stats[i := E.Stats(st.total + 1, st.bytes + |w|, st.vlan + 1, st.nonVlan)]
  {
    WireRelays(net, ms, s, hist, taken, i, q, k, o, t, w);
    hide Good, Reaches, Init, Pushed, CanRelay, Outputs, T.TagOf;
    var rest;
    rest, s' := RelayOne(net, s, i, q, k, o, t, w);
    N.RunsJoin(net, Init(net), ms, s, rest, s');
    ns := ms + rest;
  }

  /** The run goes on: sender `i` sends `t`, the only frame in `q`. */
  lemma SendNext(net: Net, ms: seq<Move>, s: State, hist: seq<seq<Tok>>, taken: seq<nat>, i: nat, q: nat, t: Tok)
      returns (ns: seq<Move>, s': State)
    requires Quiet(net, ms, s, hist, taken) && Good(net) && i < |net.topo.kinds| && net.topo.kinds[i].Sender?
    requires Reads(net, i) && Input(net, i) == q && hist[q] == [t] && taken[q] == 0 && |t.bytes| < 1518
    ensures Quiet(net, ns, s', hist, taken[q := 1])
    ensures s'.captured == s.captured && s'.stats == s.stats && s'.ended == s.ended + [End(t, i, 0, Sent)]
  {
    hide Good, Reaches, Init;
    var last;
    last, s' := SendOne(net, s, i);
    N.RunsJoin(net, Init(net), ms, s, last, s');
    ns := ms + last;
  }

  /** The run goes on: node `i` without outputs takes `t`, the only frame in `q`. */
  lemma Consume(net: Net, ms: seq<Move>, s: State, hist: seq<seq<Tok>>, taken: seq<nat>, i: nat, q: nat, t: Tok)
      returns (ns: seq<Move>, s': State)
    requires Quiet(net, ms, s, hist, taken) && Good(net) && net.rules != []
    requires i < |net.topo.kinds| == |net.topo.outs| && (net.topo.kinds[i].Logger? || net.topo.kinds[i].Counter?)
    requires net.topo.outs[i] == [] && Reads(net, i) && Input(net, i) == q && hist[q] == [t] && taken[q] == 0
    requires 16 <= |t.bytes| <= 1522 && t.bytes[12] == 0x81 && t.bytes[13] == 0
    ensures Quiet(net, ns, s', hist, taken[q := 1])
    ensures s'.captured == s.captured && s'.ended == s.ended + [End(t, i, 0, Consumed)]
    ensures !net.topo.kinds[i].Counter? ==> s'.stats == s.stats
    ensures net.topo.kinds[i].Counter? ==>
              var st := s.stats[i];
              s'.stats == s.stats[i := E.Stats(st.total + 1, st.bytes + |t.bytes|, st.vlan + 1, st.nonVlan)]
  {
    hide Good, Reaches, Init;
    var rest;
    rest, s' := Relay(net, s, i, t.bytes);
    N.RunsJoin(net, Init(net), ms, s, rest, s');
    ns := ms + rest;
  }

  // ---------------------------------------------------------------- the VLAN tagger

  lemma VlanFacts(rules: seq<Rule>)
    requires ValidRules(rules)
    ensures var net := VlanNet(rules);
            && Good(net) && Sizes(net, Init(net))
            && |net.topo.kinds| == |net.topo.outs| == 6 && net.topo.outs[0] == [0] && net.topo.kinds[0].Sniffer?
            && Wire(net, 5, 0, 0, 1) && Wire(net, 1, 1, 0, 3) && Wire(net, 3, 3, 0, 4)
            && Reads(net, 4) && Input(net, 4) == 4 && net.topo.kinds[4].Sender?
            && net.topo.kinds[5].Dispatcher? && net.topo.kinds[1].Tagger? && net.topo.kinds[3].Counter?
  {
    hide ValidRules;
  }

  lemma VlanStart(rules: seq<Rule>)
    ensures var s := Init(VlanNet(rules));
            && s.hist == [[], [], [], [], []] && s.taken == [0, 0, 0, 0, 0]
            && s.locals == [Idle, Idle, Idle, Idle, Idle, Idle] && s.turn == [0, 0, 0, 0, 0, 0]
            && s.captured == [] && s.ended == [] && !s.exit && s.stats[3] == E.Stats(0, 0, 0, 0)
  {
  }

  lemma VlanCaptured(rules: seq<Rule>, f: Frame) returns (ms: seq<Move>, s: State)
    requires ValidRules(rules) && 1 <= |f| <= 1518
    ensures Quiet(VlanNet(rules), ms, s, [[Tok(0, [Hop(0, 0)], f, 0)], [], [], [], []], [0, 0, 0, 0, 0])
    ensures s.captured == [Captured(0, f)] && s.ended == [] && s.stats == Init(VlanNet(rules)).stats
    ensures s.turn == [0, 0, 0, 0, 0, 0]
  {
    VlanFacts(rules);
    VlanStart(rules);
    var net := VlanNet(rules);
    hide ValidRules, Good, Pushed, Init, Reaches, VlanTopo;
    var i := Init(net);
    ms, s := CaptureRelay(net, i, 0, f);
    PushedOnce(net.topo.outs[0], i.hist, 0, Tok(0, [], f, 0), 0, 0);
    assert [] + [Hop(0, 0)] == [Hop(0, 0)];
    var t := Tok(0, [Hop(0, 0)], f, 0);
    assert s.hist == [[], [], [], [], []][0 := [] + [t]];
    assert s.hist[0] == [t];
    assert s.hist == [[t], [], [], [], []];
  }

  lemma VlanDealt(rules: seq<Rule>, f: Frame) returns (ms: seq<Move>, s: State)
    requires ValidRules(rules) && rules != [] && 1 <= |f| <= 1518
    ensures var t, u := Tok(0, [Hop(0, 0)], f, 0), Tok(0, [Hop(0, 0), Hop(5, 0)], f, 0);
            Quiet(VlanNet(rules), ms, s, [[t], [u], [], [], []], [1, 0, 0, 0, 0])
    ensures s.captured == [Captured(0, f)] && s.ended == [] && s.stats == Init(VlanNet(rules)).stats
  {
    VlanFacts(rules);
    hide ValidRules, Good, Init, Reaches, T.TagOf, VlanTopo, Wire, Sizes, Quiet;
    var t, u := Tok(0, [Hop(0, 0)], f, 0), Tok(0, [Hop(0, 0), Hop(5, 0)], f, 0);
    ms, s := VlanCaptured(rules, f);
    ms, s := Forward(VlanNet(rules), ms, s, [[t], [], [], [], []], [0, 0, 0, 0, 0], 5, 0, 0, 1, t, f);
    assert [Hop(0, 0)] + [Hop(5, 0)] == [Hop(0, 0), Hop(5, 0)];
    assert [[t], [], [], [], []][1 := [u]] == [[t], [u], [], [], []];
    assert [0, 0, 0, 0, 0][0 := 1] == [1, 0, 0, 0, 0];
  }

  lemma VlanTagged(rules: seq<Rule>, f: Frame, k: nat) returns (ms: seq<Move>, s: State)
    requires Deliverable(f, rules, k)
    ensures var t, u := Tok(0, [Hop(0, 0)], f, 0), Tok(0, [Hop(0, 0), Hop(5, 0)], f, 0);
            var v := Tok(0, [Hop(0, 0), Hop(5, 0), Hop(1, 0)], Image(f, rules[k].tag), 0);
            Quiet(VlanNet(rules), ms, s, [[t], [u], [], [v], []], [1, 1, 0, 0, 0])
    ensures s.captured == [Captured(0, f)] && s.ended == [] && s.stats == Init(VlanNet(rules)).stats
  {
    VlanFacts(rules);
    T.TaggedBytes(f, rules, k);
    var w := Image(f, rules[k].tag);
    hide ValidRules, Good, Init, Reaches, T.TagOf, VlanTopo, Wire, Sizes, Quiet, Image;
    var t, u := Tok(0, [Hop(0, 0)], f, 0), Tok(0, [Hop(0, 0), Hop(5, 0)], f, 0);
    var v := Tok(0, [Hop(0, 0), Hop(5, 0), Hop(1, 0)], w, 0);
    ms, s := VlanDealt(rules, f);
    ms, s := Forward(VlanNet(rules), ms, s, [[t], [u], [], [], []], [1, 0, 0, 0, 0], 1, 1, 0, 3, u, w);
    assert [Hop(0, 0), Hop(5, 0)] + [Hop(1, 0)] == [Hop(0, 0), Hop(5, 0), Hop(1, 0)];
    assert [[t], [u], [], [], []][3 := [v]] == [[t], [u], [], [v], []];
    assert [1, 0, 0, 0, 0][1 := 1] == [1, 1, 0, 0, 0];
  }

  lemma VlanCounted(rules: seq<Rule>, f: Frame, k: nat) returns (ms: seq<Move>, s: State)
    requires Deliverable(f, rules, k)
    ensures var t, u := Tok(0, [Hop(0, 0)], f, 0), Tok(0, [Hop(0, 0), Hop(5, 0)], f, 0);
            var v := Tok(0, [Hop(0, 0), Hop(5, 0), Hop(1, 0)], Image(f, rules[k].tag), 0);
            Quiet(VlanNet(rules), ms, s, [[t], [u], [], [v], [Tok(0, WorkerRoute(0), v.bytes, 0)]], [1, 1, 0, 1, 0])
    ensures s.captured == [Captured(0, f)] && s.ended == []
    ensures |s.stats| > 3 && s.stats[3] == E.Stats(1, |f| + 4, 1, 0)
  {
    VlanFacts(rules);
    VlanStart(rules);
    var w := Image(f, rules[k].tag);
    hide ValidRules, Good, Init, Reaches, T.TagOf, VlanTopo, Wire, Image, Quiet;
    var t, u := Tok(0, [Hop(0, 0)], f, 0), Tok(0, [Hop(0, 0), Hop(5, 0)], f, 0);
    var v, x := Tok(0, [Hop(0, 0), Hop(5, 0), Hop(1, 0)], w, 0), Tok(0, WorkerRoute(0), w, 0);
    ms, s := VlanTagged(rules, f, k);
    ms, s := Forward(VlanNet(rules), ms, s, [[t], [u], [], [v], []], [1, 1, 0, 0, 0], 3, 3, 0, 4, v, w);
    assert [Hop(0, 0), Hop(5, 0), Hop(1, 0)] + [Hop(3, 0)] == WorkerRoute(0);
    assert [[t], [u], [], [v], []][4 := [x]] == [[t], [u], [], [v], [x]];
    assert [1, 1, 0, 0, 0][3 := 1] == [1, 1, 0, 1, 0];
  }

  /**
   In the VLAN tagger a captured frame can go through dispatcher, first tagger and counter
   to the sender, and be sent tagged.
   */
  lemma VlanDelivers(rules: seq<Rule>, f: Frame, k: nat) returns (ms: seq<Move>, s: State)
    requires Deliverable(f, rules, k)
    ensures var net, w := VlanNet(rules), Image(f, rules[k].tag);
            && Reaches(net, Init(net), ms, s)
            && s.captured == [Captured(0, f)]
            && s.ended == [End(Tok(0, WorkerRoute(0), w, 0), 4, 0, Sent)]
            && s.taken == [1, 1, 0, 1, 1] && |s.stats| > 3 && s.stats[3] == E.Stats(1, |f| + 4, 1, 0)
  {
    VlanFacts(rules);
    var net, w := VlanNet(rules), Image(f, rules[k].tag);
    hide ValidRules, Good, Init, Reaches, VlanTopo, VlanNet, WorkerRoute, Wire, Sizes, Image;
    ms, s := VlanCounted(rules, f, k);
    var hist, t := s.hist, Tok(0, WorkerRoute(0), w, 0);
    ms, s := SendNext(net, ms, s, hist, [1, 1, 0, 1, 0], 4, 4, t);
    assert s.taken == [1, 1, 0, 1, 1];
    assert s.ended == [] + [End(t, 4, 0, Sent)];
  }

  // ---------------------------------------------------------------- the detailed logging pipeline

  lemma LoggingFacts(rules: seq<Rule>)
    requires ValidRules(rules)
    ensures var net := LoggingNet(rules);
            && Good(net) && Sizes(net, Init(net)) && |net.topo.kinds| == |net.topo.outs| == 9
            && net.topo.outs[0] == [0, 3] && net.topo.kinds[0].Sniffer?
            && Wire(net, 8, 0, 0, 1) && Wire(net, 1, 1, 0, 4)
            && net.topo.kinds[8].Dispatcher? && net.topo.kinds[1].Tagger? && IsCollector(net)
  {
    hide ValidRules;
  }

  lemma LoggingEnds(rules: seq<Rule>)
    requires ValidRules(rules)
    ensures Good(LoggingNet(rules)) && |LoggingTopo().kinds| == |LoggingTopo().outs| == 9
    ensures var net := LoggingNet(rules);
            && Reads(net, 5) && Input(net, 5) == 6 && net.topo.kinds[5].Logger? && net.topo.outs[5] == []
            && Reads(net, 6) && Input(net, 6) == 7 && net.topo.kinds[6].Counter? && net.topo.outs[6] == []
            && Reads(net, 7) && Input(net, 7) == 5 && net.topo.kinds[7].Sender?
  {
    hide ValidRules;
  }

  lemma LoggingStart(rules: seq<Rule>)
    ensures var s := Init(LoggingNet(rules));
            && s.hist == [[], [], [], [], [], [], [], []] && s.taken == [0, 0, 0, 0, 0, 0, 0, 0]
            && s.locals == [Idle, Idle, Idle, Idle, Idle, Idle, Idle, Idle, Idle] && s.turn == [0, 0, 0, 0, 0, 0, 0, 0, 0]
            && s.captured == [] && s.ended == [] && !s.exit && s.stats[6] == E.Stats(0, 0, 0, 0)
  {
  }

  lemma LoggingCaptured(rules: seq<Rule>, f: Frame) returns (ms: seq<Move>, s: State)
    requires ValidRules(rules) && 1 <= |f| <= 1518
    ensures var t, l := Tok(0, [Hop(0, 0)], f, 0), Tok(0, [Hop(0, 1)], f, 0);
            Quiet(LoggingNet(rules), ms, s, [[t], [], [], [l], [], [], [], []], [0, 0, 0, 0, 0, 0, 0, 0])
    ensures s.captured == [Captured(0, f)] && s.ended == [] && s.stats == Init(LoggingNet(rules)).stats
    ensures s.turn == [0, 0, 0, 0, 0, 0, 0, 0, 0]
  {
    LoggingFacts(rules);
    LoggingStart(rules);
    var net := LoggingNet(rules);
    hide ValidRules, Good, Pushed, Init, Reaches, LoggingTopo, LoggingNet, Wire;
    var i := Init(net);
    assert Room(net, i, 0, 0, 2);
    ms, s := CaptureRelay(net, i, 0, f);
    PushedTwice(i.hist, f);
    assert s.hist == [[Tok(0, [Hop(0, 0)], f, 0)], [], [], [Tok(0, [Hop(0, 1)], f, 0)], [], [], [], []];
  }

  lemma PushedTwice(hist: seq<seq<Tok>>, f: Frame)
    requires hist == [[], [], [], [], [], [], [], []]
    ensures Pushed([0, 3], hist, 0, Tok(0, [], f, 0), 0, 0, 2) ==
            [[Tok(0, [Hop(0, 0)], f, 0)], [], [], [Tok(0, [Hop(0, 1)], f, 0)], [], [], [], []]
  {
    var t, l := Tok(0, [Hop(0, 0)], f, 0), Tok(0, [Hop(0, 1)], f, 0);
    PushedOnce([0, 3], hist, 0, Tok(0, [], f, 0), 0, 0);
    assert [] + [Hop(0, 0)] == [Hop(0, 0)] && [] + [Hop(0, 1)] == [Hop(0, 1)];
    assert [] + [t] == [t] && [] + [l] == [l];
    assert hist[0 := [t]] == [[t], [], [], [], [], [], [], []];
    PushedOnce([0, 3], hist[0 := [t]], 0, Tok(0, [], f, 0), 0, 1);
    assert hist[0 := [t]][3 := [l]] == [[t], [], [], [l], [], [], [], []];
  }

  lemma LoggingDealt(rules: seq<Rule>, f: Frame) returns (ms: seq<Move>, s: State)
    requires ValidRules(rules) && rules != [] && 1 <= |f| <= 1518
    ensures var t, l, u := Tok(0, [Hop(0, 0)], f, 0), Tok(0, [Hop(0, 1)], f, 0), Tok(0, [Hop(0, 0), Hop(8, 0)], f, 0);
            Quiet(LoggingNet(rules), ms, s, [[t], [u], [], [l], [], [], [], []], [1, 0, 0, 0, 0, 0, 0, 0])
    ensures s.captured == [Captured(0, f)] && s.ended == [] && s.stats == Init(LoggingNet(rules)).stats
  {
    LoggingFacts(rules);
    hide ValidRules, Good, Init, Reaches, LoggingTopo, LoggingNet, Wire, Sizes, Quiet;
    var t, l, u := Tok(0, [Hop(0, 0)], f, 0), Tok(0, [Hop(0, 1)], f, 0), Tok(0, [Hop(0, 0), Hop(8, 0)], f, 0);
    ms, s := LoggingCaptured(rules, f);
    ms, s := Forward(LoggingNet(rules), ms, s, [[t], [], [], [l], [], [], [], []], [0, 0, 0, 0, 0, 0, 0, 0], 8, 0, 0, 1, t, f);
    assert [Hop(0, 0)] + [Hop(8, 0)] == [Hop(0, 0), Hop(8, 0)];
    assert [[t], [], [], [l], [], [], [], []][1 := [u]] == [[t], [u], [], [l], [], [], [], []];
    assert [0, 0, 0, 0, 0, 0, 0, 0][0 := 1] == [1, 0, 0, 0, 0, 0, 0, 0];
  }

  lemma LoggingTagged(rules: seq<Rule>, f: Frame, k: nat) returns (ms: seq<Move>, s: State)
    requires Deliverable(f, rules, k)
    ensures var t, l, u := Tok(0, [Hop(0, 0)], f, 0), Tok(0, [Hop(0, 1)], f, 0), Tok(0, [Hop(0, 0), Hop(8, 0)], f, 0);
            var v := Tok(0, [Hop(0, 0), Hop(8, 0), Hop(1, 0)], Image(f, rules[k].tag), 0);
            Quiet(LoggingNet(rules), ms, s, [[t], [u], [], [l], [v], [], [], []], [1, 1, 0, 0, 0, 0, 0, 0])
    ensures s.captured == [Captured(0, f)] && s.ended == [] && s.stats == Init(LoggingNet(rules)).stats
  {
    LoggingFacts(rules);
    T.TaggedBytes(f, rules, k);
    var w := Image(f, rules[k].tag);
    hide ValidRules, Good, Init, Reaches, T.TagOf, LoggingTopo, Wire, Sizes, Quiet, Image;
    var t, l, u := Tok(0, [Hop(0, 0)], f, 0), Tok(0, [Hop(0, 1)], f, 0), Tok(0, [Hop(0, 0), Hop(8, 0)], f, 0);
    var v := Tok(0, [Hop(0, 0), Hop(8, 0), Hop(1, 0)], w, 0);
    ms, s := LoggingDealt(rules, f);
    ms, s := Forward(LoggingNet(rules), ms, s, [[t], [u], [], [l], [], [], [], []], [1, 0, 0, 0, 0, 0, 0, 0], 1, 1, 0, 4, u, w);
    assert [Hop(0, 0), Hop(8, 0)] + [Hop(1, 0)] == [Hop(0, 0), Hop(8, 0), Hop(1, 0)];
    assert [[t], [u], [], [l], [], [], [], []][4 := [v]] == [[t], [u], [], [l], [v], [], [], []];
    assert [1, 0, 0, 0, 0, 0, 0, 0][1 := 1] == [1, 1, 0, 0, 0, 0, 0, 0];
  }

  /** The frame as the collector gets it, and as it hands it to output `k`. */
  function Collected(w: Frame): Tok {
    Tok(0, [Hop(0, 0), Hop(8, 0), Hop(1, 0)], w, 0)
  }

  function Branch(w: Frame, k: nat): Tok {
    Tok(0, [Hop(0, 0), Hop(8, 0), Hop(1, 0), Hop(3, k)], w, 0)
  }

  function Branched(h: seq<seq<Tok>>, w: Frame): seq<seq<Tok>>
    requires |h| >= 5
  {
    [h[0], h[1], h[2], h[3], h[4], [Branch(w, 0)], [Branch(w, 1)], [Branch(w, 2)]]
  }

  lemma PushedThrice(h: seq<seq<Tok>>, w: Frame)
    requires |h| == 8 && h[5] == [] && h[6] == [] && h[7] == []
    ensures Pushed([5, 6, 7], h, 3, Collected(w), 0, 0, 3) == Branched(h, w)
  {
    var outs, t := [5, 6, 7], Collected(w);
    assert t.route + [Hop(3, 0)] == Branch(w, 0).route;
    assert t.route + [Hop(3, 1)] == Branch(w, 1).route;
    assert t.route + [Hop(3, 2)] == Branch(w, 2).route;
    assert forall x: Tok :: [] + [x] == [x];
    var h1 := h[5 := [Branch(w, 0)]];
    var h2 := h1[6 := [Branch(w, 1)]];
    assert Pushed(outs, h, 3, t, 0, 0, 3) == Pushed(outs, h1, 3, t, 0, 1, 3);
    assert Pushed(outs, h, 3, t, 0, 0, 3) == Pushed(outs, h2, 3, t, 0, 2, 3);
    assert h2[7 := [Branch(w, 2)]] == Branched(h, w);
  }

  /** Node 3 is the collector of the detailed logging pipeline. */
  ghost predicate IsCollector(net: Net) {
    && Good(net) && |net.topo.kinds| == |net.topo.outs| == 9 && net.topo.kinds[3].Collector? && net.topo.queues == 8
    && Reads(net, 3) && Input(net, 3) == 4 && net.topo.outs[3] == [5, 6, 7]
  }

  lemma CollectorReady(net: Net, ms: seq<Move>, s: State, hist: seq<seq<Tok>>, taken: seq<nat>, w: Frame)
    requires IsCollector(net) && Quiet(net, ms, s, hist, taken) && net.rules != []
    requires hist[4] == [Collected(w)] && taken[4] == 0 && 1 <= |w| <= 1522
    requires hist[5] == [] && hist[6] == [] && hist[7] == []
    ensures CanRelay(net, s, 3, w) && Outputs(net, s, 3) == (0, 3)
  {
    hide Good, Reaches, Init, T.TagOf;
  }

  lemma CollectorRelays(net: Net, s: State, w: Frame) returns (ms: seq<Move>, s': State)
    requires IsCollector(net) && CanRelay(net, s, 3, w) && Outputs(net, s, 3) == (0, 3)
    requires s.hist[4] == [Collected(w)] && s.taken[4] == 0
    requires s.hist[5] == [] && s.hist[6] == [] && s.hist[7] == []
    ensures Reaches(net, s, ms, s') && Sizes(net, s')
    ensures s'.hist == Branched(s.hist, w) && s'.taken == s.taken[4 := 1] && s'.locals == s.locals
    ensures s'.captured == s.captured && s'.ended == s.ended && s'.stats == s.stats && s'.exit == s.exit
  {
    hide Good, Reaches, Pushed, CanRelay, Outputs, Branched, T.TagOf;
    ms, s' := Relay(net, s, 3, w);
    PushedThrice(s.hist, w);
  }

  /** The run goes on: the collector takes the frame and hands it to sender, logger 2 and counter. */
  lemma Collect(net: Net, ms: seq<Move>, s: State, hist: seq<seq<Tok>>, taken: seq<nat>, w: Frame)
      returns (ns: seq<Move>, s': State)
    requires IsCollector(net) && Quiet(net, ms, s, hist, taken) && net.rules != []
    requires hist[4] == [Collected(w)] && taken[4] == 0 && 1 <= |w| <= 1522
    requires hist[5] == [] && hist[6] == [] && hist[7] == []
    ensures Quiet(net, ns, s', Branched(hist, w), taken[4 := 1])
    ensures s'.captured == s.captured && s'.ended == s.ended && s'.stats == s.stats
  {
    CollectorReady(net, ms, s, hist, taken, w);
    hide Good, Reaches, Init, IsCollector, CanRelay, Outputs;
    var rest;
    rest, s' := CollectorRelays(net, s, w);
    N.RunsJoin(net, Init(net), ms, s, rest, s');
    ns := ms + rest;
  }

  lemma LoggingCollected(rules: seq<Rule>, f: Frame, k: nat) returns (ms: seq<Move>, s: State)
    requires Deliverable(f, rules, k)
    ensures var w := Image(f, rules[k].tag);
            var t, l, u := Tok(0, [Hop(0, 0)], f, 0), Tok(0, [Hop(0, 1)], f, 0), Tok(0, [Hop(0, 0), Hop(8, 0)], f, 0);
            Quiet(LoggingNet(rules), ms, s,
                  [[t], [u], [], [l], [Collected(w)], [Branch(w, 0)], [Branch(w, 1)], [Branch(w, 2)]],
                  [1, 1, 0, 0, 1, 0, 0, 0])
    ensures s.captured == [Captured(0, f)] && s.ended == [] && s.stats == Init(LoggingNet(rules)).stats
  {
    LoggingFacts(rules);
    var w := Image(f, rules[k].tag);
    hide ValidRules, Good, Init, Reaches, T.TagOf, LoggingTopo, Wire, Image, Quiet, IsCollector;
    var t, l, u := Tok(0, [Hop(0, 0)], f, 0), Tok(0, [Hop(0, 1)], f, 0), Tok(0, [Hop(0, 0), Hop(8, 0)], f, 0);
    ms, s := LoggingTagged(rules, f, k);
    ms, s := Collect(LoggingNet(rules), ms, s, [[t], [u], [], [l], [Collected(w)], [], [], []], [1, 1, 0, 0, 0, 0, 0, 0], w);
    assert [1, 1, 0, 0, 0, 0, 0, 0][4 := 1] == [1, 1, 0, 0, 1, 0, 0, 0];
  }

  /**
   In the detailed logging pipeline a captured frame can be sent tagged, and the same
   tagged frame counted by the counter and taken by logger 2.
   */
  lemma LoggingDelivers(rules: seq<Rule>, f: Frame, k: nat) returns (ms: seq<Move>, s: State)
    requires Deliverable(f, rules, k)
    ensures var net, w := LoggingNet(rules), Image(f, rules[k].tag);
            && Reaches(net, Init(net), ms, s)
            && s.captured == [Captured(0, f)]
            && s.ended == [End(Branch(w, 0), 7, 0, Sent), End(Branch(w, 1), 5, 0, Consumed),
                           End(Branch(w, 2), 6, 0, Consumed)]
            && s.taken == [1, 1, 0, 0, 1, 1, 1, 1] && |s.stats| > 6 && s.stats[6] == E.Stats(1, |f| + 4, 1, 0)
  {
    LoggingEnds(rules);
    LoggingStart(rules);
    var net, w := LoggingNet(rules), Image(f, rules[k].tag);
    hide ValidRules, Good, Init, Reaches, LoggingTopo, LoggingNet, Wire, Image, Quiet;
    var t, l, u := Tok(0, [Hop(0, 0)], f, 0), Tok(0, [Hop(0, 1)], f, 0), Tok(0, [Hop(0, 0), Hop(8, 0)], f, 0);
    var hist := [[t], [u], [], [l], [Collected(w)], [Branch(w, 0)], [Branch(w, 1)], [Branch(w, 2)]];
    ms, s := LoggingCollected(rules, f, k);
    ms, s := SendNext(net, ms, s, hist, [1, 1, 0, 0, 1, 0, 0, 0], 7, 5, Branch(w, 0));
    ms, s := Consume(net, ms, s, hist, [1, 1, 0, 0, 1, 0, 0, 0][5 := 1], 5, 6, Branch(w, 1));
    ms, s := Consume(net, ms, s, hist, [1, 1, 0, 0, 1, 0, 0, 0][5 := 1][6 := 1], 6, 7, Branch(w, 2));
  }
}

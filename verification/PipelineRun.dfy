/**
 A whole pipeline as a transition system: the node threads of pipeline/node.c and
 nodes/src over the bounded queues between them, in every interleaving. Each step is
 one pop, one push, one send or one capture; queue/queue.c makes these atomic (see
 `Monitor`).

 Every frame carries an identity from its capture on, and the history of the hops it
 took. The code keeps neither; no step depends on them.
 */
module PipelineRun {
  import opened Bytes
  import opened RuleTable
  import opened Topology
  import R = Ring
  import T = Tagger
  import E = Endpoints

  datatype Net = Net(topo: Topo, rules: seq<Rule>)

  ghost predicate Good(net: Net) {
    WellFormed(net.topo) && ValidRules(net.rules)
  }

  /** One output of one node. */
  datatype Hop = Hop(node: nat, out: nat)

  /**
   A frame under way. `id` is its place in the order of captures, `route` the hops it
   has taken, and `from` the place that it had among the frames its last node took in.
   */
  datatype Tok = Tok(id: nat, route: seq<Hop>, bytes: Frame, from: nat)

  /** What a node thread is doing: `at` is the place of its frame among those it took in. */
  datatype Local =
    | Idle
    | Busy(tok: Tok, at: nat, first: nat, next: nat, last: nat) // pushing to outputs next..last
    | Sending(tok: Tok, at: nat)
    | Stopped

  datatype Fate = Dropped | Filtered | Skipped | SendFailed | Sent | Consumed

  /** The end of one copy of a frame. */
  datatype End = End(tok: Tok, node: nat, at: nat, fate: Fate)

  datatype Captured = Captured(node: nat, bytes: Frame)

  /**
   Queue `q` holds `hist[q][taken[q]..]`. `turn` is the dispatcher's `next_index`, `stats`
   what a counter has counted, `errors` the run of socket errors, and `ended` the log of
   the copies that have left the pipeline; `copied` counts the extra copies of a fan-out.
   */
  datatype State = State(
    hist: seq<seq<Tok>>,
    taken: seq<nat>,
    locals: seq<Local>,
    turn: seq<nat>,
    stats: seq<E.Stats>,
    errors: seq<nat>,
    captured: seq<Captured>,
    ended: seq<End>,
    copied: multiset<nat>,
    exit: bool)

  /** What the thread of a node does next. */
  datatype Event =
    | Capture(f: Frame)
    | CaptureFails
    | Take
    | WaitFails          // pthread_cond_wait returns an error
    | Push
    | Finish
    | Send(ok: bool)
    | Stop               // the loop sees the exit flag
    | Signal             // somebody sets the exit flag

  datatype Move = Move(node: nat, event: Event)

  // ---------------------------------------------------------------- what a node does with a frame

  /** The bytes that node `i` passes on for `b`, if any. */
  function Worked(net: Net, i: nat, b: Frame): Option<Frame>
    requires Good(net) && i < |net.topo.kinds|
  {
    if net.topo.kinds[i].Tagger? then T.TagOf(b, net.rules) else Some(b)
  }

  /** The range of outputs that a node offers a frame to. */
  function Range(net: Net, i: nat, first: nat): (nat, nat)
    requires Good(net) && i < |net.topo.kinds|
  {
    if net.topo.kinds[i].Dispatcher? then (first, first + 1) else (0, |net.topo.outs[i]|)
  }

  /** What the node does after taking in `t`. */
  function Received(net: Net, i: nat, t: Tok, at: nat, first: nat): Local
    requires Good(net) && i < |net.topo.kinds|
  {
    if net.topo.kinds[i].Sender? then
      if E.Sendable(t.bytes) then Sending(t, at) else Idle
    else
      var w := Worked(net, i, t.bytes);
      if w.None? then Idle
      else
        var (lo, hi) := Range(net, i, first);
        Busy(t.(bytes := w.value), at, lo, lo, hi)
  }

  /** The frame ends with the node that took it in. */
  function FateOf(net: Net, i: nat, t: Tok, first: nat): Option<Fate>
    requires Good(net) && i < |net.topo.kinds|
  {
    if net.topo.kinds[i].Sender? then
      if E.Sendable(t.bytes) then None else Some(Skipped)
    else if Worked(net, i, t.bytes).None? then Some(Filtered)
    else if Range(net, i, first).0 == Range(net, i, first).1 then Some(Consumed)
    else None
  }

  /** How many copies of frame `id` a node still holds. */
  function HeldBy(l: Local, id: nat): nat {
    match l
    case Busy(t, _, _, next, last) => if t.id == id && next <= last then last - next else 0
    case Sending(t, _) => if t.id == id then 1 else 0
    case _ => 0
  }

  /** The copies beyond the first that a node makes of the frame it took in. */
  function Extra(l: Local): nat {
    if l.Busy? && l.next < l.last then l.last - l.next - 1 else 0
  }

  // ---------------------------------------------------------------- steps

  predicate Sizes(net: Net, s: State) {
    && |s.hist| == |s.taken| == net.topo.queues
    && |s.locals| == |s.turn| == |s.stats| == |s.errors| == |net.topo.kinds|
    && (forall q :: 0 <= q < |s.hist| ==> s.taken[q] <= |s.hist[q]| <= s.taken[q] + R.Q_SIZE)
  }

  /** `push` takes the frame: it has a legal size and the queue is not full. */
  predicate Accepts(s: State, q: nat, f: Frame)
    requires q < |s.hist| && q < |s.taken|
  {
    0 < |f| <= R.MAX_PKG_SIZE && |s.hist[q]| < s.taken[q] + R.Q_SIZE
  }

  /** The queue that output `out` of node `i` leads to. */
  function Target(net: Net, i: nat, out: nat): (q: nat)
    requires Good(net) && i < |net.topo.kinds| && out < |net.topo.outs[i]|
    ensures q < net.topo.queues
  {
    net.topo.outs[i][out]
  }

  predicate Reads(net: Net, i: nat) {
    i < |net.topo.kinds| && i < |net.topo.inputs| && net.topo.inputs[i].Some?
  }

  function Input(net: Net, i: nat): (q: nat)
    requires Good(net) && Reads(net, i)
    ensures q < net.topo.queues
  {
    net.topo.inputs[i].value
  }

  ghost predicate Enabled(net: Net, s: State, m: Move) {
    && Good(net) && Sizes(net, s) && m.node < |net.topo.kinds|
    && var l, kind := s.locals[m.node], net.topo.kinds[m.node];
       match m.event
       case Capture(f) => l.Idle? && kind.Sniffer? && |f| <= T.MAX_CAPTURE
       case CaptureFails => l.Idle? && kind.Sniffer?
       case Take =>
         && l.Idle? && !kind.Sniffer? && Reads(net, m.node)
         && s.taken[Input(net, m.node)] < |s.hist[Input(net, m.node)]|
         && (kind.Tagger? ==> net.rules != [])
         && (kind.Dispatcher? ==> net.topo.outs[m.node] != [])
       case WaitFails =>
         && l.Idle? && !kind.Sniffer? && Reads(net, m.node)
         && s.taken[Input(net, m.node)] == |s.hist[Input(net, m.node)]|
       case Push => l.Busy? && l.next < l.last <= |net.topo.outs[m.node]|
       case Finish => l.Busy? && l.next == l.last
       case Send(_) => l.Sending?
       case Stop => l.Idle? && s.exit
       case Signal => true
  }

  function Receive(net: Net, s: State, i: nat, t: Tok, at: nat, first: nat): State
    requires Good(net) && i < |net.topo.kinds| == |s.locals|
  {
    var l, fate := Received(net, i, t, at, first), FateOf(net, i, t, first);
    s.(locals := s.locals[i := l],
       ended := s.ended + if fate.Some? then [End(t, i, at, fate.value)] else [],
       copied := s.copied[t.id := s.copied[t.id] + Extra(l)])
  }

  function ApplyCapture(net: Net, s: State, i: nat, f: Frame): State
    requires Enabled(net, s, Move(i, Capture(f)))
  {
    var k := |s.captured|;
    Receive(net, s.(captured := s.captured + [Captured(i, f)], errors := s.errors[i := 0]), i, Tok(k, [], f, k), k, 0)
  }

  function ApplyTake(net: Net, s: State, i: nat): State
    requires Enabled(net, s, Move(i, Take))
  {
    var q := Input(net, i);
    var at := s.taken[q];
    var t := s.hist[q][at];
    var n := |net.topo.outs[i]|;
    var s' := s.(
      taken := s.taken[q := at + 1],
      turn := if net.topo.kinds[i].Dispatcher? then s.turn[i := (s.turn[i] + 1) % n] else s.turn,
      stats := if net.topo.kinds[i].Counter? then s.stats[i := E.Counted(s.stats[i], t.bytes)] else s.stats);
    Receive(net, s', i, t, at, if net.topo.kinds[i].Dispatcher? then s.turn[i] % n else 0)
  }

  /** The frame as the next queue gets it. */
  function Outgoing(i: nat, l: Local): Tok
    requires l.Busy?
  {
    Tok(l.tok.id, l.tok.route + [Hop(i, l.next)], l.tok.bytes, l.at)
  }

  function ApplyPush(net: Net, s: State, i: nat): State
    requires Enabled(net, s, Move(i, Push))
  {
    var l := s.locals[i];
    var q := Target(net, i, l.next);
    var s' := s.(locals := s.locals[i := l.(next := l.next + 1)]);
    if Accepts(s, q, l.tok.bytes) then
      s'.(hist := s.hist[q := s.hist[q] + [Outgoing(i, l)]])
    else
      s'.(ended := s.ended + [End(l.tok, i, l.at, Dropped)])
  }

  function ApplySend(net: Net, s: State, i: nat, ok: bool): State
    requires Enabled(net, s, Move(i, Send(ok)))
  {
    var l := s.locals[i];
    if ok then
      s.(locals := s.locals[i := Idle], errors := s.errors[i := 0], ended := s.ended + [End(l.tok, i, l.at, Sent)])
    else if s.errors[i] == E.MAX_ERRORS then
      s.(locals := s.locals[i := Stopped], exit := true, ended := s.ended + [End(l.tok, i, l.at, SendFailed)])
    else
      s.(locals := s.locals[i := Idle], errors := s.errors[i := s.errors[i] + 1],
         ended := s.ended + [End(l.tok, i, l.at, SendFailed)])
  }

  function ApplyCaptureFails(net: Net, s: State, i: nat): State
    requires Enabled(net, s, Move(i, CaptureFails))
  {
    if s.errors[i] >= E.MAX_ERRORS then s.(locals := s.locals[i := Stopped], exit := true)
    else s.(errors := s.errors[i := s.errors[i] + 1])
  }

  function Apply(net: Net, s: State, m: Move): State
    requires Enabled(net, s, m)
  {
    match m.event
    case Capture(f) => ApplyCapture(net, s, m.node, f)
    case CaptureFails => ApplyCaptureFails(net, s, m.node)
    case Take => ApplyTake(net, s, m.node)
    case WaitFails =>
      if net.topo.kinds[m.node].Sender? then s else s.(locals := s.locals[m.node := Stopped])
    case Push => ApplyPush(net, s, m.node)
    case Finish => s.(locals := s.locals[m.node := Idle])
    case Send(ok) => ApplySend(net, s, m.node, ok)
    case Stop => s.(locals := s.locals[m.node := Stopped])
    case Signal => s.(exit := true)
  }

  /** The pipeline before its threads start. */
  function Init(net: Net): State {
    var n, queues := |net.topo.kinds|, net.topo.queues;
    State(seq(queues, _ => []), seq(queues, _ => 0), seq(n, _ => Idle), seq(n, _ => 0), seq(n, _ => E.NO_STATS),
          seq(n, _ => 0), [], [], multiset{}, false)
  }

  /** The moves `ms` lead from `s` to `s'`. */
  ghost predicate Reaches(net: Net, s: State, ms: seq<Move>, s': State)
    decreases |ms|
  {
    if ms == [] then s == s'
    else Enabled(net, s, ms[0]) && Reaches(net, Apply(net, s, ms[0]), ms[1..], s')
  }

  // ---------------------------------------------------------------- the queues are the bounded FIFO

  function FramesOf(ts: seq<Tok>): seq<Frame> {
    Each(ts, (t: Tok) => t.bytes)
  }

  /** What queue `q` holds, as the ring buffer sees it. */
  function Contents(net: Net, s: State, q: nat): (c: seq<Frame>)
    requires Sizes(net, s) && q < net.topo.queues
    ensures |c| <= R.Q_SIZE
  {
    FramesOf(s.hist[q][s.taken[q]..])
  }

  /** The queue operation that a move performs on queue `q`, if any, with its result. */
  function OperationOn(net: Net, s: State, m: Move, q: nat): (o: Option<(R.Op, R.Res)>)
    requires Enabled(net, s, m) && q < net.topo.queues
  {
    match m.event
    case Push =>
      var l := s.locals[m.node];
      if q != Target(net, m.node, l.next) then None
      else
        var n := if |l.tok.bytes| > R.MAX_PKG_SIZE then -1 else if Accepts(s, q, l.tok.bytes) then |l.tok.bytes| else 0;
        Some((R.Push(l.tok.bytes), R.Size(n)))
    case Take =>
      if q != Input(net, m.node) then None else Some((R.Pop, R.Read(s.hist[q][s.taken[q]].bytes)))
    case _ => None
  }

  /** Only an accepted push adds to a queue and only `Take` removes from one. */
  lemma QueuesAfter(net: Net, s: State, m: Move)
    requires Enabled(net, s, m)
    ensures var s', i := Apply(net, s, m), m.node;
            && (if m.event.Push? && Accepts(s, Target(net, i, s.locals[i].next), s.locals[i].tok.bytes) then
                  var q := Target(net, i, s.locals[i].next);
                  s'.hist == s.hist[q := s.hist[q] + [Outgoing(i, s.locals[i])]]
                else s'.hist == s.hist)
            && s'.taken == if m.event.Take? then s.taken[Input(net, i) := s.taken[Input(net, i)] + 1] else s.taken
  {
    hide Good, E.Counted, Received, FateOf, Extra;
  }

  /** Every move acts on every queue as one operation of the bounded FIFO, or not at all. */
  lemma MovesAreQueueOperations(net: Net, s: State, m: Move, q: nat)
    requires Enabled(net, s, m) && q < net.topo.queues
    requires Sizes(net, Apply(net, s, m))
    ensures var c, c', o := Contents(net, s, q), Contents(net, Apply(net, s, m), q), OperationOn(net, s, m, q);
            if o.Some? then R.Fifo(c, o.value.0, o.value.1, c') else c' == c
  {
    hide Good, Apply;
    QueuesAfter(net, s, m);
    var h, h' := s.hist[q][s.taken[q]..], Apply(net, s, m).hist[q][Apply(net, s, m).taken[q]..];
    if m.event.Push? && q == Target(net, m.node, s.locals[m.node].next) {
      if Accepts(s, q, s.locals[m.node].tok.bytes) {
        assert h' == h + [Outgoing(m.node, s.locals[m.node])];
      }
    } else if m.event.Take? && q == Input(net, m.node) {
      assert h' == h[1..];
    } else {
      assert h' == h;
    }
  }
}

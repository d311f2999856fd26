/**
 Why the nodes of `PipelineRun` may use their queues in one step: the same node threads
 over the statement-level queues of `Monitor`. A node calls `push` or `pop`, the
 statements of all calls on all queues interleave, and the node goes on when its call
 has returned. Every run of these threads is a run of `PipelineRun`, in which a call
 happens at the moment it takes effect.
 */
module NodeThreads {
  import opened Bytes
  import E = Endpoints
  import H = RunTheorems
  import I = RunInvariant
  import M = Monitor
  import P = PipelineRun
  import R = Ring
  import RT = RuleTable
  import T = Tagger

  // ---------------------------------------------------------------- threads

  /** Where a node thread is; inside a call, `Monitor` has the statement it executes. */
  datatype Control =
    | Idle
    | Popping
    | Busy(bytes: Frame, first: nat, next: nat, last: nat)
    | Pushing(bytes: Frame, first: nat, next: nat, last: nat)
    | Sending(bytes: Frame)
    | Stopped

  datatype Out = Out(node: nat, bytes: Frame)

  /** Thread `i` of every queue is node `i`; `sent` lists what has gone out, in order. */
  datatype Threads = Threads(
    queues: seq<M.State>,
    controls: seq<Control>,
    turn: seq<nat>,
    stats: seq<E.Stats>,
    errors: seq<nat>,
    captured: seq<P.Captured>,
    sent: seq<Out>,
    exit: bool)

  datatype Step =
    | Own(node: nat, event: P.Event)   // a move of a node outside every queue
    | CallPush(node: nat)
    | CallPop(node: nat)
    | Inside(queue: nat, m: M.Move)    // one statement in a queue
    | Return(node: nat)

  predicate Fits(net: P.Net, s: Threads) {
    var n := |net.topo.kinds|;
    && |s.queues| == net.topo.queues
    && |s.controls| == |s.turn| == |s.stats| == |s.errors| == n
    && forall q :: 0 <= q < |s.queues| ==> |s.queues[q].threads| == n
  }

  /** The queue whose call the node is in. */
  function CallOn(net: P.Net, s: Threads, i: nat): Option<nat>
    requires P.Good(net) && Fits(net, s) && i < |s.controls|
  {
    match s.controls[i]
    case Popping => if P.Reads(net, i) then Some(P.Input(net, i)) else None
    case Pushing(_, _, next, _) => if next < |net.topo.outs[i]| then Some(P.Target(net, i, next)) else None
    case _ => None
  }

  ghost predicate Enabled(net: P.Net, s: Threads, step: Step) {
    && P.Good(net) && Fits(net, s)
    && (!step.Inside? ==> step.node < |s.controls|)
    && match step
       case Own(i, event) => OwnEnabled(net, s, i, event)
       case CallPush(i) =>
         var c := s.controls[i];
         && c.Busy? && c.next < c.last <= |net.topo.outs[i]|
         && M.Enabled(s.queues[P.Target(net, i, c.next)], M.Begin(i, R.Push(c.bytes)))
       case CallPop(i) =>
         && s.controls[i].Idle? && !net.topo.kinds[i].Sniffer? && P.Reads(net, i)
         && (net.topo.kinds[i].Tagger? ==> net.rules != [])
         && (net.topo.kinds[i].Dispatcher? ==> net.topo.outs[i] != [])
         && M.Enabled(s.queues[P.Input(net, i)], M.Begin(i, R.Pop))
       case Inside(q, m) => q < |s.queues| && !m.Begin? && !m.Leave? && M.Enabled(s.queues[q], m)
       case Return(i) =>
         && CallOn(net, s, i).Some? && M.Enabled(s.queues[CallOn(net, s, i).value], M.Leave(i))
         && (net.topo.kinds[i].Dispatcher? ==> net.topo.outs[i] != [])
  }

  predicate OwnEnabled(net: P.Net, s: Threads, i: nat, event: P.Event)
    requires P.Good(net) && Fits(net, s) && i < |s.controls|
  {
    var c := s.controls[i];
    match event
    case Capture(f) => c.Idle? && net.topo.kinds[i].Sniffer? && |f| <= T.MAX_CAPTURE
    case CaptureFails => c.Idle? && net.topo.kinds[i].Sniffer?
    case Finish => c.Busy? && c.next == c.last
    case Send(_) => c.Sending?
    case Stop => c.Idle? && s.exit
    case Signal => true
    case _ => false
  }

  /** What the node does with a frame it has taken in. */
  function Received(net: P.Net, i: nat, f: Frame, first: nat): Control
    requires P.Good(net) && i < |net.topo.kinds|
  {
    if net.topo.kinds[i].Sender? then
      if E.Sendable(f) then Sending(f) else Idle
    else
      var w := P.Worked(net, i, f);
      if w.None? then Idle
      else
        var (lo, hi) := P.Range(net, i, first);
        Busy(w.value, lo, lo, hi)
  }

  function NewTurn(net: P.Net, i: nat, turn: nat): nat
    requires P.Good(net) && i < |net.topo.kinds|
    requires net.topo.kinds[i].Dispatcher? ==> net.topo.outs[i] != []
  {
    if net.topo.kinds[i].Dispatcher? then (turn + 1) % |net.topo.outs[i]| else turn
  }

  function First(net: P.Net, i: nat, turn: nat): nat
    requires P.Good(net) && i < |net.topo.kinds|
    requires net.topo.kinds[i].Dispatcher? ==> net.topo.outs[i] != []
  {
    if net.topo.kinds[i].Dispatcher? then turn % |net.topo.outs[i]| else 0
  }

  function NewStats(net: P.Net, i: nat, stats: E.Stats, f: Frame): E.Stats
    requires i < |net.topo.kinds|
  {
    if net.topo.kinds[i].Counter? then E.Counted(stats, f) else stats
  }

  function ApplyOwn(net: P.Net, s: Threads, i: nat, event: P.Event): Threads
    requires P.Good(net) && Fits(net, s) && i < |s.controls| && OwnEnabled(net, s, i, event)
  {
    match event
    case Capture(f) =>
      s.(controls := s.controls[i := Received(net, i, f, 0)], errors := s.errors[i := 0],
         captured := s.captured + [P.Captured(i, f)])
    case CaptureFails =>
      if s.errors[i] >= E.MAX_ERRORS then s.(controls := s.controls[i := Stopped], exit := true)
      else s.(errors := s.errors[i := s.errors[i] + 1])
    case Finish => s.(controls := s.controls[i := Idle])
    case Send(ok) =>
      if ok then
        s.(controls := s.controls[i := Idle], errors := s.errors[i := 0],
           sent := s.sent + [Out(i, s.controls[i].bytes)])
      else if s.errors[i] == E.MAX_ERRORS then s.(controls := s.controls[i := Stopped], exit := true)
      else s.(controls := s.controls[i := Idle], errors := s.errors[i := s.errors[i] + 1])
    case Stop => s.(controls := s.controls[i := Stopped])
    case Signal => s.(exit := true)
    case _ => s
  }

  /** The node goes on with the result of its call. */
  function Resume(net: P.Net, s: Threads, i: nat, res: R.Res): Threads
    requires P.Good(net) && Fits(net, s) && i < |s.controls|
    requires net.topo.kinds[i].Dispatcher? ==> net.topo.outs[i] != []
  {
    match s.controls[i]
    case Pushing(b, first, next, last) => s.(controls := s.controls[i := Busy(b, first, next + 1, last)])
    case Popping =>
      if res.Read? then
        s.(controls := s.controls[i := Received(net, i, res.frame, First(net, i, s.turn[i]))],
           turn := s.turn[i := NewTurn(net, i, s.turn[i])],
           stats := s.stats[i := NewStats(net, i, s.stats[i], res.frame)])
      else s.(controls := s.controls[i := if net.topo.kinds[i].Sender? then Idle else Stopped])
    case _ => s
  }

  function MoveQueue(s: Threads, q: nat, m: M.Move): Threads
    requires q < |s.queues| && M.Enabled(s.queues[q], m)
  {
    s.(queues := s.queues[q := M.Apply(s.queues[q], m)])
  }

  ghost function Apply(net: P.Net, s: Threads, step: Step): Threads
    requires Enabled(net, s, step)
  {
    match step
    case Own(i, event) => ApplyOwn(net, s, i, event)
    case CallPush(i) =>
      var c := s.controls[i];
      MoveQueue(s, P.Target(net, i, c.next), M.Begin(i, R.Push(c.bytes)))
      .(controls := s.controls[i := Pushing(c.bytes, c.first, c.next, c.last)])
    case CallPop(i) =>
      MoveQueue(s, P.Input(net, i), M.Begin(i, R.Pop)).(controls := s.controls[i := Popping])
    case Inside(q, m) => MoveQueue(s, q, m)
    case Return(i) =>
      var q := CallOn(net, s, i).value;
      Resume(net, MoveQueue(s, q, M.Leave(i)), i, s.queues[q].threads[i].res)
  }

  function Init(net: P.Net): Threads {
    var n := |net.topo.kinds|;
    Threads(seq(net.topo.queues, _ => M.Init(n)), seq(n, _ => Idle), seq(n, _ => 0), seq(n, _ => E.NO_STATS),
            seq(n, _ => 0), [], [], false)
  }

  ghost predicate Reaches(net: P.Net, s: Threads, steps: seq<Step>, s': Threads)
    decreases |steps|
  {
    if steps == [] then s == s'
    else Enabled(net, s, steps[0]) && Reaches(net, Apply(net, s, steps[0]), steps[1..], s')
  }

  // ---------------------------------------------------------------- the relation

  /** A node of the run, without identities and routes. */
  function Erased(l: P.Local): Control {
    match l
    case Idle => Idle
    case Busy(t, _, first, next, last) => Busy(t.bytes, first, next, last)
    case Sending(t, _) => Sending(t.bytes)
    case Stopped => Stopped
  }

  function SentLog(log: seq<P.End>): seq<Out> {
    if log == [] then []
    else
      var e := log[|log| - 1];
      SentLog(log[..|log| - 1]) + if e.fate.Sent? then [Out(e.node, e.tok.bytes)] else []
  }

  /** Where node `i` is in its call on queue `q`. */
  function PhaseIn(net: P.Net, s: Threads, q: nat, i: nat): M.Phase
    requires Fits(net, s) && q < |s.queues| && i < |s.controls|
  {
    M.Expected(s.queues[q].threads[i])
  }

  /** The counters of node `i` in the run. */
  datatype View = View(control: Control, turn: nat, stats: E.Stats)

  function ViewOf(net: P.Net, a: P.State, i: nat): View
    requires P.Sizes(net, a) && i < |net.topo.kinds|
  {
    View(Erased(a.locals[i]), a.turn[i], a.stats[i])
  }

  /** What the run says of node `i`: the thread itself, or what it will be when its call has returned. */
  ghost predicate NodeRel(net: P.Net, s: Threads, a: P.State, i: nat)
    requires P.Good(net) && Fits(net, s) && P.Sizes(net, a) && i < |net.topo.kinds|
  {
    var v, turn, stats := ViewOf(net, a, i), s.turn[i], s.stats[i];
    match s.controls[i]
    case Popping =>
      && P.Reads(net, i) && !net.topo.kinds[i].Sniffer?
      && (net.topo.kinds[i].Tagger? ==> net.rules != [])
      && (net.topo.kinds[i].Dispatcher? ==> net.topo.outs[i] != [])
      && var p := PhaseIn(net, s, P.Input(net, i), i);
         || (p == M.Pending(R.Pop) && v == View(Idle, turn, stats))
         || (p == M.Effective(R.Pop, R.WaitFailed)
             && v == View(if net.topo.kinds[i].Sender? then Idle else Stopped, turn, stats))
         || (p.Effective? && p.op == R.Pop && p.res.Read?
             && v == View(Received(net, i, p.res.frame, First(net, i, turn)),
                          NewTurn(net, i, turn), NewStats(net, i, stats, p.res.frame)))
    case Pushing(b, first, next, last) =>
      && next < last <= |net.topo.outs[i]|
      && var p := PhaseIn(net, s, P.Target(net, i, next), i);
         || (p == M.Pending(R.Push(b)) && v == View(Busy(b, first, next, last), turn, stats))
         || (p.Effective? && p.op == R.Push(b) && v == View(Busy(b, first, next + 1, last), turn, stats))
    case c => v == View(c, turn, stats)
  }

  /** Outside its call a node is in no queue. */
  predicate OutsideOthers(net: P.Net, s: Threads, q: nat, i: nat)
    requires P.Good(net) && Fits(net, s) && q < |s.queues| && i < |s.controls|
  {
    CallOn(net, s, i) != Some(q) ==> PhaseIn(net, s, q, i) == M.Outside
  }

  ghost predicate QueueRel(net: P.Net, s: Threads, a: P.State, q: nat)
    requires Fits(net, s) && P.Sizes(net, a) && q < |s.queues|
  {
    M.Inv(s.queues[q]) && M.Contents(s.queues[q].trace) == P.Contents(net, a, q)
  }

  predicate LogRel(s: Threads, a: P.State) {
    s.errors == a.errors && s.captured == a.captured && s.sent == SentLog(a.ended) && s.exit == a.exit
  }

  ghost predicate Rel(net: P.Net, s: Threads, a: P.State) {
    && P.Good(net) && Fits(net, s) && P.Sizes(net, a)
    && LogRel(s, a)
    && (forall q :: 0 <= q < |s.queues| ==> QueueRel(net, s, a, q))
    && (forall i :: 0 <= i < |s.controls| ==> NodeRel(net, s, a, i))
    && (forall q, i :: 0 <= q < |s.queues| && 0 <= i < |s.controls| ==> OutsideOthers(net, s, q, i))
  }

  // ---------------------------------------------------------------- moves of the run

  lemma SentLogGrows(log: seq<P.End>, log': seq<P.End>)
    requires log <= log' && |log'| <= |log| + 1
    ensures |log'| > |log| && log'[|log|].fate.Sent? ==>
              SentLog(log') == SentLog(log) + [Out(log'[|log|].node, log'[|log|].tok.bytes)]
    ensures |log'| == |log| || !log'[|log|].fate.Sent? ==> SentLog(log') == SentLog(log)
  {
    if |log'| > |log| {
      assert log'[..|log'| - 1] == log;
    } else {
      assert log' == log;
    }
  }

  /** Queue operations leave everything but queues, locals and counters alone. */
  lemma LogAfterCall(net: P.Net, a: P.State, m: P.Move)
    requires P.Enabled(net, a, m) && (m.event.Push? || m.event.Take? || m.event.WaitFails?)
    ensures var a' := P.Apply(net, a, m);
            && a'.errors == a.errors && a'.captured == a.captured && a'.exit == a.exit
            && SentLog(a'.ended) == SentLog(a.ended)
  {
    I.EndedAfter(net, a, m);
    SentLogGrows(a.ended, P.Apply(net, a, m).ended);
    hide P.Good, P.Received, P.FateOf, P.Extra, E.Counted, SentLog;
  }

  lemma OtherViews(net: P.Net, a: P.State, m: P.Move, j: nat)
    requires P.Enabled(net, a, m) && j < |net.topo.kinds| && j != m.node
    ensures P.Sizes(net, P.Apply(net, a, m)) && ViewOf(net, P.Apply(net, a, m), j) == ViewOf(net, a, j)
  {
    I.SizesKept(net, a, m);
    I.OthersAfter(net, a, m, j);
    hide P.Apply, P.Good;
  }

  lemma ErasedReceived(net: P.Net, i: nat, t: P.Tok, at: nat, first: nat)
    requires P.Good(net) && i < |net.topo.kinds|
    ensures Erased(P.Received(net, i, t, at, first)) == Received(net, i, t.bytes, first)
  {
    hide P.Good, P.Worked, P.Range;
  }

  lemma PushMove(net: P.Net, a: P.State, i: nat)
    requires P.Enabled(net, a, P.Move(i, P.Push))
    ensures var a' := P.Apply(net, a, P.Move(i, P.Push)); var l := a.locals[i];
            && P.Sizes(net, a')
            && ViewOf(net, a', i) == View(Busy(l.tok.bytes, l.first, l.next + 1, l.last), a.turn[i], a.stats[i])
  {
    var m := P.Move(i, P.Push);
    I.SizesKept(net, a, m);
    I.MoverAfter(net, a, m);
    I.OthersCountNothing(net, a, m);
    hide P.Apply, P.Good;
  }

  lemma WaitFailsMove(net: P.Net, a: P.State, i: nat)
    requires P.Enabled(net, a, P.Move(i, P.WaitFails))
    ensures var a' := P.Apply(net, a, P.Move(i, P.WaitFails));
            && P.Sizes(net, a')
            && ViewOf(net, a', i) == View(if net.topo.kinds[i].Sender? then Idle else Stopped, a.turn[i], a.stats[i])
  {
    hide P.Good;
  }

  lemma TakeMove(net: P.Net, a: P.State, i: nat)
    requires P.Enabled(net, a, P.Move(i, P.Take))
    ensures var a', q := P.Apply(net, a, P.Move(i, P.Take)), P.Input(net, i);
            var f := a.hist[q][a.taken[q]].bytes;
            && P.Sizes(net, a')
            && (net.topo.kinds[i].Dispatcher? ==> net.topo.outs[i] != [])
            && ViewOf(net, a', i) == View(Received(net, i, f, First(net, i, a.turn[i])),
                                          NewTurn(net, i, a.turn[i]), NewStats(net, i, a.stats[i], f))
  {
    var m, q := P.Move(i, P.Take), P.Input(net, i);
    I.Lengths(net);
    I.SizesKept(net, a, m);
    TakeAppliesTake(net, a, i);
    I.TakeSource(net, a, i);
    TakeCounters(net, a, i);
    var t, at := a.hist[q][a.taken[q]], a.taken[q];
    var first := if net.topo.kinds[i].Dispatcher? then a.turn[i] % |net.topo.outs[i]| else 0;
    ErasedReceived(net, i, t, at, first);
    hide P.Good, P.Apply, P.ApplyTake, Received, P.Received, Erased;
  }

  lemma TakeAppliesTake(net: P.Net, a: P.State, i: nat)
    requires P.Enabled(net, a, P.Move(i, P.Take))
    ensures P.Apply(net, a, P.Move(i, P.Take)) == P.ApplyTake(net, a, i)
  {
    hide P.Good, P.ApplyTake;
  }

  lemma TakeCounters(net: P.Net, a: P.State, i: nat)
    requires P.Enabled(net, a, P.Move(i, P.Take))
    ensures net.topo.kinds[i].Dispatcher? ==> net.topo.outs[i] != []
    ensures |P.ApplyTake(net, a, i).turn| == |a.turn| && |P.ApplyTake(net, a, i).stats| == |a.stats|
    ensures var a', q := P.ApplyTake(net, a, i), P.Input(net, i);
            && a'.turn[i] == NewTurn(net, i, a.turn[i])
            && a'.stats[i] == NewStats(net, i, a.stats[i], a.hist[q][a.taken[q]].bytes)
  {
    hide P.Good, P.Received, P.FateOf, P.Extra, E.Counted;
  }

  /** A move acts on queue `q` as the operation `op` with result `res`, as long as the queue agrees. */
  lemma ContentsAfter(net: P.Net, a: P.State, m: P.Move, q: nat)
    requires P.Enabled(net, a, m) && q < net.topo.queues
    ensures P.Sizes(net, P.Apply(net, a, m))
    ensures var c, c', o := P.Contents(net, a, q), P.Contents(net, P.Apply(net, a, m), q), P.OperationOn(net, a, m, q);
            if o.Some? then R.Fifo(c, o.value.0, o.value.1, c') else c' == c
  {
    I.SizesKept(net, a, m);
    P.MovesAreQueueOperations(net, a, m, q);
  }

  // ---------------------------------------------------------------- what a step leaves alone

  /** A node whose thread, phase and view stay the same stays related. */
  lemma NodeRelStays(net: P.Net, s: Threads, s': Threads, a: P.State, a': P.State, i: nat)
    requires P.Good(net) && Fits(net, s) && Fits(net, s') && P.Sizes(net, a) && P.Sizes(net, a')
    requires i < |s.controls| && NodeRel(net, s, a, i)
    requires s'.controls[i] == s.controls[i] && s'.turn[i] == s.turn[i] && s'.stats[i] == s.stats[i]
    requires ViewOf(net, a', i) == ViewOf(net, a, i)
    requires var q := CallOn(net, s, i); q.Some? ==> PhaseIn(net, s', q.value, i) == PhaseIn(net, s, q.value, i)
    ensures NodeRel(net, s', a', i)
  {
    I.Lengths(net);
    hide P.Good, Received, ViewOf;
  }

  /** One queue after a move in it, for every thread. */
  lemma QueueMoves(net: P.Net, s: Threads, q: nat, m: M.Move)
    requires Fits(net, s) && q < |s.queues| && M.Inv(s.queues[q]) && M.Enabled(s.queues[q], m)
    ensures var s', e := MoveQueue(s, q, m), M.EventOf(s.queues[q], m);
            && Fits(net, s') && m.t < |s.controls| && M.Inv(s'.queues[q])
            && (forall r, u :: 0 <= r < |s.queues| && 0 <= u < |s.controls| ==>
                  PhaseIn(net, s', r, u)
                  == if r == q && u == m.t then M.PhaseAfter(PhaseIn(net, s, r, u), e) else PhaseIn(net, s, r, u))
  {
    M.MovesSeenFromOutside(s.queues[q], m);
    hide M.Inv, M.Apply, M.EventOf, M.Expected;
  }

  // ---------------------------------------------------------------- a statement inside a queue

  lemma RelQueue(net: P.Net, s: Threads, a: P.State, q: nat)
    requires Rel(net, s, a) && q < |s.queues|
    ensures P.Good(net) && Fits(net, s) && P.Sizes(net, a) && LogRel(s, a)
    ensures QueueRel(net, s, a, q) && M.Inv(s.queues[q])
  {
    hide M.Inv, M.Contents, P.Good, P.Sizes, LogRel, NodeRel, OutsideOthers;
  }

  lemma RelNode(net: P.Net, s: Threads, a: P.State, i: nat)
    requires Rel(net, s, a) && i < |s.controls|
    ensures P.Good(net) && Fits(net, s) && P.Sizes(net, a) && i < |net.topo.kinds|
    ensures NodeRel(net, s, a, i)
    ensures forall q :: 0 <= q < |s.queues| ==> OutsideOthers(net, s, q, i)
  {
    hide QueueRel, P.Good, P.Sizes, LogRel, NodeRel, OutsideOthers;
  }

  lemma RelOf(net: P.Net, s: Threads, a: P.State)
    requires P.Good(net) && Fits(net, s) && P.Sizes(net, a) && LogRel(s, a)
    requires forall q :: 0 <= q < |s.queues| ==> QueueRel(net, s, a, q)
    requires forall i :: 0 <= i < |s.controls| ==> NodeRel(net, s, a, i)
    requires forall q, i :: 0 <= q < |s.queues| && 0 <= i < |s.controls| ==> OutsideOthers(net, s, q, i)
    ensures Rel(net, s, a)
  {
    hide QueueRel, P.Good, P.Sizes, LogRel, NodeRel, OutsideOthers;
  }

  /** Only the thread that moves can get into another phase, and only in its call. */
  lemma OutsideStays(net: P.Net, s: Threads, q: nat, m: M.Move, r: nat, i: nat)
    requires P.Good(net) && Fits(net, s) && q < |s.queues| && M.Inv(s.queues[q]) && M.Enabled(s.queues[q], m)
    requires r < |s.queues| && i < |s.controls| && OutsideOthers(net, s, r, i)
    requires r == q && i == m.t ==> CallOn(net, s, i) == Some(q) || M.EventOf(s.queues[q], m) == None
    ensures Fits(net, MoveQueue(s, q, m)) && OutsideOthers(net, MoveQueue(s, q, m), r, i)
  {
    hide M.Inv, M.Apply, M.Expected, M.EventOf, M.Enabled, P.Good, PhaseIn;
    QueueMoves(net, s, q, m);
  }

  /** A statement that takes no effect is no move of the run. */
  lemma QuietStatement(net: P.Net, s: Threads, a: P.State, q: nat, m: M.Move)
    requires Rel(net, s, a) && Enabled(net, s, Inside(q, m)) && M.EventOf(s.queues[q], m) == None
    ensures Rel(net, MoveQueue(s, q, m), a)
  {
    hide Rel, M.Inv, M.Apply, M.Contents, M.Expected, M.EventOf, M.Enabled, NodeRel, P.Good, OutsideOthers, PhaseIn;
    var s' := MoveQueue(s, q, m);
    RelQueue(net, s, a, q);
    QueueMoves(net, s, q, m);
    M.MovesSeenFromOutside(s.queues[q], m);
    forall i | 0 <= i < |s.controls|
      ensures NodeRel(net, s', a, i)
    {
      RelNode(net, s, a, i);
      NodeRelStays(net, s, s', a, a, i);
    }
    forall r, i | 0 <= r < |s.queues| && 0 <= i < |s.controls|
      ensures OutsideOthers(net, s', r, i)
    {
      RelNode(net, s, a, i);
      OutsideStays(net, s, q, m, r, i);
    }
    forall r | 0 <= r < |s.queues|
      ensures QueueRel(net, s', a, r)
    {
      RelQueue(net, s, a, r);
    }
    RelOf(net, s', a);
  }

  /** The move of the run that a call makes when it takes effect. */
  function MoveOf(t: nat, op: R.Op, res: R.Res): P.Move {
    P.Move(t, if op.Push? then P.Push else if res.Read? then P.Take else P.WaitFails)
  }

  /** Statement `m` takes effect in queue `q`, as operation `op` with result `res`. */
  ghost predicate TakesEffect(net: P.Net, s: Threads, q: nat, m: M.Move, op: R.Op, res: R.Res) {
    && Enabled(net, s, Inside(q, m))
    && M.EventOf(s.queues[q], m).Some?
    && var e := M.EventOf(s.queues[q], m).value;
       e.Effect? && e.t == m.t && e.op == op && e.res == res
  }

  /** What the queue knows of an effect. */
  lemma EffectFacts(net: P.Net, s: Threads, a: P.State, q: nat, m: M.Move, op: R.Op, res: R.Res)
    requires Rel(net, s, a) && TakesEffect(net, s, q, m, op, res)
    ensures Fits(net, s) && P.Sizes(net, a) && P.Good(net) && m.t < |s.controls|
    ensures PhaseIn(net, s, q, m.t) == M.Pending(op)
    ensures var s', c := MoveQueue(s, q, m), P.Contents(net, a, q);
            && Fits(net, s') && M.Inv(s'.queues[q])
            && R.Fifo(c, op, res, M.Contents(s'.queues[q].trace))
            && (op.Pop? ==> res.Read? || (res == R.WaitFailed && c == []))
            && PhaseIn(net, s', q, m.t) == M.Effective(op, res)
  {
    RelQueue(net, s, a, q);
    QueueMoves(net, s, q, m);
    M.MovesSeenFromOutside(s.queues[q], m);
    hide Rel, M.Inv, M.Apply, M.Contents, M.Expected, M.EventOf, LogRel, P.Good, P.Sizes;
  }

  /** A thread that takes effect is in a call on that queue. */
  lemma EffectInCall(net: P.Net, s: Threads, a: P.State, q: nat, m: M.Move, op: R.Op, res: R.Res)
    requires Rel(net, s, a) && TakesEffect(net, s, q, m, op, res)
    ensures Fits(net, s) && P.Good(net) && m.t < |s.controls| && CallOn(net, s, m.t) == Some(q)
    ensures if s.controls[m.t].Pushing? then op == R.Push(s.controls[m.t].bytes)
            else s.controls[m.t].Popping? && op == R.Pop
  {
    EffectFacts(net, s, a, q, m, op, res);
    RelNode(net, s, a, m.t);
    I.Lengths(net);
    hide Rel, M.Inv, M.Apply, M.Contents, M.Expected, M.EventOf, P.Good, P.Sizes, PhaseIn, ViewOf, Received;
    assert OutsideOthers(net, s, q, m.t);
  }

  /** A node whose `push` is pending is, in the run, about to push. */
  lemma PendingPush(net: P.Net, s: Threads, a: P.State, i: nat)
    requires P.Good(net) && Fits(net, s) && P.Sizes(net, a) && i < |net.topo.kinds| && NodeRel(net, s, a, i)
    requires s.controls[i].Pushing? && s.controls[i].next < |net.topo.outs[i]|
    requires PhaseIn(net, s, P.Target(net, i, s.controls[i].next), i) == M.Pending(R.Push(s.controls[i].bytes))
    ensures var c, l := s.controls[i], a.locals[i];
            && l.Busy? && l.tok.bytes == c.bytes && l.first == c.first && l.next == c.next && l.last == c.last
            && c.next < c.last <= |net.topo.outs[i]|
            && a.turn[i] == s.turn[i] && a.stats[i] == s.stats[i]
  {
    hide P.Good, P.Sizes, PhaseIn;
  }

  /** A node whose `pop` is pending is, in the run, about to take a frame. */
  lemma PendingPop(net: P.Net, s: Threads, a: P.State, i: nat)
    requires P.Good(net) && Fits(net, s) && P.Sizes(net, a) && i < |net.topo.kinds| && NodeRel(net, s, a, i)
    requires s.controls[i].Popping? && P.Reads(net, i)
    requires PhaseIn(net, s, P.Input(net, i), i) == M.Pending(R.Pop)
    ensures a.locals[i].Idle? && !net.topo.kinds[i].Sniffer?
    ensures net.topo.kinds[i].Tagger? ==> net.rules != []
    ensures net.topo.kinds[i].Dispatcher? ==> net.topo.outs[i] != []
    ensures a.turn[i] == s.turn[i] && a.stats[i] == s.stats[i]
  {
    I.Lengths(net);
    hide P.Good, P.Sizes, PhaseIn, Received;
  }

  /** The run is ready for the move. */
  lemma EffectIsEnabled(net: P.Net, s: Threads, a: P.State, q: nat, m: M.Move, op: R.Op, res: R.Res)
    requires Rel(net, s, a) && TakesEffect(net, s, q, m, op, res)
    ensures P.Enabled(net, a, MoveOf(m.t, op, res))
    ensures op.Pop? && res.Read? ==>
              && q == P.Input(net, m.t) && a.taken[q] < |a.hist[q]| && res.frame == a.hist[q][a.taken[q]].bytes
  {
    hide Rel, M.Inv, M.Apply, M.Contents, M.Expected, M.EventOf, M.Enabled, P.Good, PhaseIn, NodeRel, MoveQueue;
    hide P.Contents, P.FramesOf, TakesEffect, R.PushSpec, QueueRel;
    EffectFacts(net, s, a, q, m, op, res);
    EffectInCall(net, s, a, q, m, op, res);
    RelNode(net, s, a, m.t);
    I.Lengths(net);
    ContentsMeans(net, a, q);
    if s.controls[m.t].Pushing? {
      PendingPush(net, s, a, m.t);
    } else {
      PendingPop(net, s, a, m.t);
    }
  }

  lemma ContentsMeans(net: P.Net, a: P.State, q: nat)
    requires P.Sizes(net, a) && q < net.topo.queues
    ensures var c := P.Contents(net, a, q);
            && (c == [] <==> a.taken[q] == |a.hist[q]|)
            && (c != [] ==> a.taken[q] < |a.hist[q]| && c[0] == a.hist[q][a.taken[q]].bytes)
  {
  }

  /** What the queues hold and what the run says they hold still agree. */
  lemma EffectAgrees(net: P.Net, s: Threads, a: P.State, q: nat, m: M.Move, op: R.Op, res: R.Res, r: nat)
    requires Rel(net, s, a) && TakesEffect(net, s, q, m, op, res) && r < |s.queues|
    requires P.Enabled(net, a, MoveOf(m.t, op, res))
    ensures Fits(net, MoveQueue(s, q, m)) && P.Sizes(net, P.Apply(net, a, MoveOf(m.t, op, res)))
    ensures QueueRel(net, MoveQueue(s, q, m), P.Apply(net, a, MoveOf(m.t, op, res)), r)
  {
    var p := MoveOf(m.t, op, res);
    EffectFacts(net, s, a, q, m, op, res);
    EffectInCall(net, s, a, q, m, op, res);
    RelNode(net, s, a, m.t);
    RelQueue(net, s, a, r);
    I.Lengths(net);
    ContentsAfter(net, a, p, r);
    if op.Push? {
      PendingPush(net, s, a, m.t);
    }
    hide Rel, M.Inv, M.Apply, M.Contents, M.Expected, M.EventOf, M.Enabled, P.Good, P.Apply, PhaseIn, NodeRel, P.Contents;
    if r == q && op.Push? {
      assert P.OperationOn(net, a, p, q).value.0 == op;
    }
  }

  lemma PushRelates(net: P.Net, s: Threads, a: P.State, i: nat, res: R.Res)
    requires P.Good(net) && Fits(net, s) && P.Sizes(net, a) && i < |net.topo.kinds| && i < |net.topo.outs|
    requires var c := s.controls[i];
             && c.Pushing? && c.next < c.last <= |net.topo.outs[i]|
             && PhaseIn(net, s, P.Target(net, i, c.next), i) == M.Effective(R.Push(c.bytes), res)
             && ViewOf(net, a, i) == View(Busy(c.bytes, c.first, c.next + 1, c.last), s.turn[i], s.stats[i])
    ensures NodeRel(net, s, a, i)
  {
    hide P.Good, P.Sizes, PhaseIn, ViewOf;
  }

  lemma PopRelates(net: P.Net, s: Threads, a: P.State, i: nat, res: R.Res)
    requires P.Good(net) && Fits(net, s) && P.Sizes(net, a) && i < |net.topo.kinds| && i < |net.topo.outs|
    requires s.controls[i].Popping? && P.Reads(net, i) && !net.topo.kinds[i].Sniffer?
    requires net.topo.kinds[i].Tagger? ==> net.rules != []
    requires net.topo.kinds[i].Dispatcher? ==> net.topo.outs[i] != []
    requires PhaseIn(net, s, P.Input(net, i), i) == M.Effective(R.Pop, res)
    requires res.Read? || res == R.WaitFailed
    requires ViewOf(net, a, i) ==
             if res.Read? then View(Received(net, i, res.frame, First(net, i, s.turn[i])),
                                    NewTurn(net, i, s.turn[i]), NewStats(net, i, s.stats[i], res.frame))
             else View(if net.topo.kinds[i].Sender? then Idle else Stopped, s.turn[i], s.stats[i])
    ensures NodeRel(net, s, a, i)
  {
    hide P.Good, P.Sizes, PhaseIn, ViewOf, Received, First, NewTurn, NewStats;
  }

  /** The node that takes effect stays related: the run is now ahead of the thread. */
  lemma EffectRelates(net: P.Net, s: Threads, a: P.State, q: nat, m: M.Move, op: R.Op, res: R.Res)
    requires Rel(net, s, a) && TakesEffect(net, s, q, m, op, res)
    requires P.Enabled(net, a, MoveOf(m.t, op, res))
    ensures Fits(net, MoveQueue(s, q, m)) && P.Sizes(net, P.Apply(net, a, MoveOf(m.t, op, res)))
    ensures m.t < |net.topo.kinds| && NodeRel(net, MoveQueue(s, q, m), P.Apply(net, a, MoveOf(m.t, op, res)), m.t)
  {
    hide Rel, M.Inv, M.Apply, M.Contents, M.Expected, M.EventOf, M.Enabled, P.Good, P.Apply, P.Enabled, NodeRel;
    hide P.Contents, PhaseIn, ViewOf, QueueRel, Received, First, NewTurn, NewStats, R.PushSpec;
    var t := m.t;
    EffectFacts(net, s, a, q, m, op, res);
    EffectInCall(net, s, a, q, m, op, res);
    EffectIsEnabled(net, s, a, q, m, op, res);
    RelNode(net, s, a, t);
    I.Lengths(net);
    var s', a' := MoveQueue(s, q, m), P.Apply(net, a, MoveOf(t, op, res));
    if op.Push? {
      PendingPush(net, s, a, t);
      PushMove(net, a, t);
      PushRelates(net, s', a', t, res);
    } else {
      PendingPop(net, s, a, t);
      if res.Read? {
        TakeMove(net, a, t);
      } else {
        WaitFailsMove(net, a, t);
      }
      PopRelates(net, s', a', t, res);
    }
  }

  /** A statement that takes effect is one move of the run. */
  lemma EffectStatement(net: P.Net, s: Threads, a: P.State, q: nat, m: M.Move, op: R.Op, res: R.Res)
    requires Rel(net, s, a) && TakesEffect(net, s, q, m, op, res)
    ensures P.Enabled(net, a, MoveOf(m.t, op, res))
    ensures Rel(net, MoveQueue(s, q, m), P.Apply(net, a, MoveOf(m.t, op, res)))
  {
    hide Rel, M.Inv, M.Apply, M.Contents, M.Expected, M.EventOf, NodeRel, QueueRel, OutsideOthers;
    hide P.Good, P.Apply, P.Enabled, ViewOf, PhaseIn, SentLog;
    var s', p := MoveQueue(s, q, m), MoveOf(m.t, op, res);
    EffectIsEnabled(net, s, a, q, m, op, res);
    EffectInCall(net, s, a, q, m, op, res);
    EffectRelates(net, s, a, q, m, op, res);
    RelQueue(net, s, a, q);
    QueueMoves(net, s, q, m);
    LogAfterCall(net, a, p);
    var a' := P.Apply(net, a, p);
    forall r | 0 <= r < |s.queues|
      ensures QueueRel(net, s', a', r)
    {
      EffectAgrees(net, s, a, q, m, op, res, r);
    }
    forall i | 0 <= i < |s.controls|
      ensures NodeRel(net, s', a', i)
    {
      if i != m.t {
        RelNode(net, s, a, i);
        OtherViews(net, a, p, i);
        NodeRelStays(net, s, s', a, a', i);
      }
    }
    forall r, i | 0 <= r < |s.queues| && 0 <= i < |s.controls|
      ensures OutsideOthers(net, s', r, i)
    {
      RelNode(net, s, a, i);
      OutsideStays(net, s, q, m, r, i);
    }
    RelOf(net, s', a');
  }

  // ---------------------------------------------------------------- calls and returns

  /** `s'` is `s` with another control and other counters for node `i`. */
  predicate OnlyNode(s: Threads, s': Threads, i: nat) {
    && |s'.controls| == |s.controls| && |s'.turn| == |s.turn| && |s'.stats| == |s.stats|
    && (forall j :: 0 <= j < |s.controls| && j != i ==> s'.controls[j] == s.controls[j])
    && (forall j :: 0 <= j < |s.turn| && j != i ==> s'.turn[j] == s.turn[j])
    && (forall j :: 0 <= j < |s.stats| && j != i ==> s'.stats[j] == s.stats[j])
    && s'.errors == s.errors && s'.captured == s.captured && s'.sent == s.sent && s'.exit == s.exit
  }

  /** Entering and leaving a call is no move of the run. */
  lemma CallBoundary(net: P.Net, s: Threads, a: P.State, q: nat, m: M.Move, s': Threads)
    requires Rel(net, s, a) && q < |s.queues| && M.Enabled(s.queues[q], m) && (m.Begin? || m.Leave?)
    requires s'.queues == MoveQueue(s, q, m).queues && OnlyNode(s, s', m.t)
    requires m.t < |s.controls| && Fits(net, s') && P.Good(net) && P.Sizes(net, a) && NodeRel(net, s', a, m.t)
    requires forall r :: 0 <= r < |s.queues| ==> OutsideOthers(net, s', r, m.t)
    ensures Rel(net, s', a)
  {
    hide Rel, M.Inv, M.Apply, M.Contents, M.Expected, M.Enabled, NodeRel, P.Good, PhaseIn;
    RelQueue(net, s, a, q);
    QueueMoves(net, s, q, m);
    M.MovesSeenFromOutside(s.queues[q], m);
    SamePhases(net, MoveQueue(s, q, m), s');
    forall i | 0 <= i < |s.controls|
      ensures NodeRel(net, s', a, i)
    {
      if i != m.t {
        RelNode(net, s, a, i);
        NodeRelStays(net, s, s', a, a, i);
      }
    }
    forall r, i | 0 <= r < |s.queues| && 0 <= i < |s.controls|
      ensures OutsideOthers(net, s', r, i)
    {
      if i != m.t {
        RelNode(net, s, a, i);
        assert OutsideOthers(net, s, r, i);
        assert PhaseIn(net, s', r, i) == PhaseIn(net, s, r, i);
      }
    }
    forall r | 0 <= r < |s.queues|
      ensures QueueRel(net, s', a, r)
    {
      RelQueue(net, s, a, r);
    }
    RelOf(net, s', a);
  }

  lemma SamePhases(net: P.Net, s: Threads, s': Threads)
    requires Fits(net, s) && Fits(net, s') && s'.queues == s.queues
    ensures forall q, i :: 0 <= q < |s.queues| && 0 <= i < |s.controls| ==> PhaseIn(net, s', q, i) == PhaseIn(net, s, q, i)
  {
  }

  /** A calling thread: the phase of its new call, which was in no queue before. */
  lemma CallFacts(net: P.Net, s: Threads, a: P.State, i: nat, q: nat, op: R.Op)
    requires Rel(net, s, a) && q < |s.queues| && i < |s.controls| && M.Enabled(s.queues[q], M.Begin(i, op))
    ensures P.Good(net) && Fits(net, s) && Fits(net, MoveQueue(s, q, M.Begin(i, op)))
    ensures forall r :: 0 <= r < |s.queues| ==>
              PhaseIn(net, MoveQueue(s, q, M.Begin(i, op)), r, i)
              == if r == q then M.Pending(op) else PhaseIn(net, s, r, i)
  {
    hide Rel, M.Inv, M.Apply, M.Contents, M.Expected, P.Good;
    RelQueue(net, s, a, q);
    QueueMoves(net, s, q, M.Begin(i, op));
    assert M.EventOf(s.queues[q], M.Begin(i, op)) == Some(M.Invoke(i, op));
  }

  lemma CallStep(net: P.Net, s: Threads, a: P.State, step: Step)
    requires Rel(net, s, a) && Enabled(net, s, step) && (step.CallPush? || step.CallPop?)
    ensures Rel(net, Apply(net, s, step), a)
  {
    hide Rel, M.Inv, M.Apply, M.Contents, M.Expected, M.Enabled, M.EventOf, P.Good, PhaseIn;
    var i, c, s' := step.node, s.controls[step.node], Apply(net, s, step);
    I.Lengths(net);
    RelNode(net, s, a, i);
    var q := if step.CallPush? then P.Target(net, i, c.next) else P.Input(net, i);
    var op := if step.CallPush? then R.Push(c.bytes) else R.Pop;
    CallFacts(net, s, a, i, q, op);
    SamePhases(net, MoveQueue(s, q, M.Begin(i, op)), s');
    assert CallOn(net, s', i) == Some(q) && CallOn(net, s, i) == None;
    forall r | 0 <= r < |s.queues|
      ensures OutsideOthers(net, s', r, i)
    {
      assert OutsideOthers(net, s, r, i);
    }
    CallBoundary(net, s, a, q, M.Begin(i, op), s');
  }

  /** The result that a returning thread gets is the one its call took effect with. */
  lemma ReturnsEffect(l: M.Local)
    requires l.Returning?
    ensures M.Expected(l) == M.Effective(l.op, l.res)
  {
  }

  /** A returning thread: the phase of its call before and after, and what it gets. */
  lemma ReturnFacts(net: P.Net, s: Threads, a: P.State, i: nat)
    requires Rel(net, s, a) && Enabled(net, s, Return(i))
    ensures P.Good(net) && Fits(net, s) && i < |s.controls| && CallOn(net, s, i).Some?
    ensures var q := CallOn(net, s, i).value;
            && q < |s.queues| && s.queues[q].threads[i].Returning? && M.Enabled(s.queues[q], M.Leave(i))
            && var l := s.queues[q].threads[i];
               && PhaseIn(net, s, q, i) == M.Effective(l.op, l.res)
               && Fits(net, MoveQueue(s, q, M.Leave(i)))
               && forall r :: 0 <= r < |s.queues| ==>
                    PhaseIn(net, MoveQueue(s, q, M.Leave(i)), r, i)
                    == if r == q then M.Outside else PhaseIn(net, s, r, i)
  {
    hide Rel, M.Inv, M.Apply, M.Contents, M.Expected, P.Good;
    var q, m := CallOn(net, s, i).value, M.Leave(i);
    RelQueue(net, s, a, q);
    QueueMoves(net, s, q, m);
    ReturnsEffect(s.queues[q].threads[i]);
    assert M.EventOf(s.queues[q], m) == Some(M.Return(i, s.queues[q].threads[i].res));
  }

  lemma ReturnStep(net: P.Net, s: Threads, a: P.State, i: nat)
    requires Rel(net, s, a) && Enabled(net, s, Return(i))
    ensures Rel(net, Apply(net, s, Return(i)), a)
  {
    hide Rel, M.Inv, M.Apply, M.Contents, M.Expected, M.Enabled, M.EventOf, P.Good, PhaseIn, NodeRel;
    hide Received, First, NewTurn, NewStats, ViewOf;
    var q, s' := CallOn(net, s, i).value, Apply(net, s, Return(i));
    I.Lengths(net);
    ReturnFacts(net, s, a, i);
    RelNode(net, s, a, i);
    var m, l := M.Leave(i), s.queues[q].threads[i];
    SamePhases(net, MoveQueue(s, q, m), s');
    ResumeRelates(net, s, s', a, i, l.op, l.res);
    forall r | 0 <= r < |s.queues|
      ensures OutsideOthers(net, s', r, i)
    {
      assert OutsideOthers(net, s, r, i);
    }
    CallBoundary(net, s, a, q, m, s');
  }

  lemma ReceivedIsNoCall(net: P.Net, i: nat, f: Frame, first: nat)
    requires P.Good(net) && i < |net.topo.kinds|
    ensures !Received(net, i, f, first).Popping? && !Received(net, i, f, first).Pushing?
  {
    hide P.Good, P.Worked, P.Range;
  }

  /** When the call has returned, the thread is where the run has put it. */
  lemma ResumeRelates(net: P.Net, s: Threads, s': Threads, a: P.State, i: nat, op: R.Op, res: R.Res)
    requires P.Good(net) && Fits(net, s) && Fits(net, s') && P.Sizes(net, a) && i < |s.controls| && NodeRel(net, s, a, i)
    requires CallOn(net, s, i).Some? && PhaseIn(net, s, CallOn(net, s, i).value, i) == M.Effective(op, res)
    requires net.topo.kinds[i].Dispatcher? ==> i < |net.topo.outs| && net.topo.outs[i] != []
    requires s'.controls == Resume(net, s, i, res).controls
    requires s'.turn == Resume(net, s, i, res).turn && s'.stats == Resume(net, s, i, res).stats
    ensures CallOn(net, s', i) == None && NodeRel(net, s', a, i)
  {
    I.Lengths(net);
    hide P.Good, P.Sizes, PhaseIn, Received, First, NewTurn, NewStats, ViewOf;
    if s.controls[i].Popping? && res.Read? {
      ReceivedIsNoCall(net, i, res.frame, First(net, i, s.turn[i]));
    }
  }

  // ---------------------------------------------------------------- moves outside the queues

  lemma OwnIsEnabled(net: P.Net, s: Threads, a: P.State, i: nat, event: P.Event)
    requires Rel(net, s, a) && Enabled(net, s, Own(i, event))
    ensures P.Enabled(net, a, P.Move(i, event))
    ensures event.Signal? || (CallOn(net, s, i) == None && ViewOf(net, a, i) == View(s.controls[i], s.turn[i], s.stats[i]))
  {
    I.Lengths(net);
    RelNode(net, s, a, i);
    hide M.Inv, M.Contents, P.Good, PhaseIn, QueueRel, OutsideOthers;
  }

  lemma CaptureView(net: P.Net, a: P.State, i: nat, f: Frame)
    requires P.Enabled(net, a, P.Move(i, P.Capture(f)))
    ensures var a' := P.ApplyCapture(net, a, i, f);
            && |a'.locals| == |a.locals| && Erased(a'.locals[i]) == Received(net, i, f, 0)
            && a'.turn == a.turn && a'.stats == a.stats && a'.errors == a.errors[i := 0] && a'.exit == a.exit
            && a'.captured == a.captured + [P.Captured(i, f)]
  {
    var k := |a.captured|;
    ErasedReceived(net, i, P.Tok(k, [], f, k), k, 0);
    hide P.Good, P.Received, P.FateOf, P.Extra, Received, Erased;
  }

  /** The thread and the run make the same move. */
  lemma OwnView(net: P.Net, s: Threads, a: P.State, i: nat, event: P.Event)
    requires P.Good(net) && Fits(net, s) && i < |s.controls| && OwnEnabled(net, s, i, event)
    requires P.Enabled(net, a, P.Move(i, event)) && P.Sizes(net, P.Apply(net, a, P.Move(i, event)))
    requires LogRel(s, a)
    requires event.Signal? || ViewOf(net, a, i) == View(s.controls[i], s.turn[i], s.stats[i])
    ensures var s', a' := ApplyOwn(net, s, i, event), P.Apply(net, a, P.Move(i, event));
            && Fits(net, s')
            && (if event.Signal? then ViewOf(net, a', i) == ViewOf(net, a, i) && s'.controls == s.controls
                else ViewOf(net, a', i) == View(s'.controls[i], s'.turn[i], s'.stats[i]))
  {
    if event.Capture? {
      CaptureView(net, a, i, event.f);
    }
    hide P.Good, P.ApplyCapture, Received;
  }

  lemma OwnLog(net: P.Net, s: Threads, a: P.State, i: nat, event: P.Event)
    requires P.Good(net) && Fits(net, s) && i < |s.controls| && OwnEnabled(net, s, i, event)
    requires P.Enabled(net, a, P.Move(i, event)) && LogRel(s, a)
    requires event.Signal? || ViewOf(net, a, i) == View(s.controls[i], s.turn[i], s.stats[i])
    ensures LogRel(ApplyOwn(net, s, i, event), P.Apply(net, a, P.Move(i, event)))
  {
    var a' := P.Apply(net, a, P.Move(i, event));
    I.EndedAfter(net, a, P.Move(i, event));
    SentLogGrows(a.ended, a'.ended);
    if event.Capture? {
      CaptureView(net, a, i, event.f);
      hide SentLog, P.Good, P.ApplyCapture, Received;
    } else {
      SentNow(net, a, i, event);
      hide SentLog, P.Good, Received;
    }
  }

  lemma SentNow(net: P.Net, a: P.State, i: nat, event: P.Event)
    requires P.Enabled(net, a, P.Move(i, event)) && !event.Capture? && !event.Take?
    ensures var a' := P.Apply(net, a, P.Move(i, event));
            event == P.Send(true) ==> a'.ended == a.ended + [P.End(a.locals[i].tok, i, a.locals[i].at, P.Sent)]
  {
    hide P.Good;
  }

  lemma OwnStep(net: P.Net, s: Threads, a: P.State, i: nat, event: P.Event)
    requires Rel(net, s, a) && Enabled(net, s, Own(i, event))
    ensures P.Enabled(net, a, P.Move(i, event))
    ensures Rel(net, Apply(net, s, Own(i, event)), P.Apply(net, a, P.Move(i, event)))
  {
    OwnIsEnabled(net, s, a, i, event);
    hide Rel, M.Inv, M.Contents, M.Expected, M.Enabled, P.Good, P.Apply, P.Enabled, PhaseIn, NodeRel, ViewOf;
    var s', m := Apply(net, s, Own(i, event)), P.Move(i, event);
    assert s' == ApplyOwn(net, s, i, event);
    I.SizesKept(net, a, m);
    RelNode(net, s, a, i);
    RelLog(net, s, a);
    OwnView(net, s, a, i, event);
    OwnLog(net, s, a, i, event);
    OwnChanges(net, s, i, event);
    var a' := P.Apply(net, a, m);
    SamePhases(net, s, s');
    forall r | 0 <= r < |s.queues|
      ensures QueueRel(net, s', a', r)
    {
      RelQueue(net, s, a, r);
      ContentsAfter(net, a, m, r);
    }
    forall j | 0 <= j < |s.controls|
      ensures NodeRel(net, s', a', j)
    {
      RelNode(net, s, a, j);
      if j != i {
        OtherViews(net, a, m, j);
        NodeRelStays(net, s, s', a, a', j);
      } else if event.Signal? {
        NodeRelStays(net, s, s', a, a', i);
      } else {
        RestingRelates(net, s', a', i);
      }
    }
    forall r, j | 0 <= r < |s.queues| && 0 <= j < |s.controls|
      ensures OutsideOthers(net, s', r, j)
    {
      RelNode(net, s, a, j);
      assert OutsideOthers(net, s, r, j);
      assert PhaseIn(net, s', r, j) == PhaseIn(net, s, r, j);
    }
    RelOf(net, s', a');
  }

  lemma RelLog(net: P.Net, s: Threads, a: P.State)
    requires Rel(net, s, a)
    ensures LogRel(s, a)
  {
  }

  lemma RestingRelates(net: P.Net, s: Threads, a: P.State, i: nat)
    requires P.Good(net) && Fits(net, s) && P.Sizes(net, a) && i < |s.controls|
    requires !s.controls[i].Popping? && !s.controls[i].Pushing?
    requires ViewOf(net, a, i) == View(s.controls[i], s.turn[i], s.stats[i])
    ensures NodeRel(net, s, a, i)
  {
    hide P.Good, ViewOf;
  }

  /** A move outside the queues leaves the queues and the other nodes alone, and ends outside every call. */
  lemma OwnChanges(net: P.Net, s: Threads, i: nat, event: P.Event)
    requires P.Good(net) && Fits(net, s) && i < |s.controls| && OwnEnabled(net, s, i, event)
    ensures var s' := ApplyOwn(net, s, i, event);
            && Fits(net, s') && s'.queues == s.queues && s'.turn == s.turn && s'.stats == s.stats
            && (forall j :: 0 <= j < |s.controls| && j != i ==> s'.controls[j] == s.controls[j])
            && (!event.Signal? ==> !s'.controls[i].Popping? && !s'.controls[i].Pushing?)
            && (event.Signal? ==> s'.controls == s.controls)
  {
    if event.Capture? {
      ReceivedIsNoCall(net, i, event.f, 0);
    }
    hide P.Good, Received;
  }

  // ---------------------------------------------------------------- refinement

  /** Every step of the threads is at most one move of the run. */
  lemma Simulates(net: P.Net, s: Threads, a: P.State, step: Step) returns (ms: seq<P.Move>, a': P.State)
    requires Rel(net, s, a) && Enabled(net, s, step)
    ensures |ms| <= 1 && P.Reaches(net, a, ms, a') && Rel(net, Apply(net, s, step), a')
  {
    hide Rel, M.Apply, M.Enabled, P.Apply, P.Enabled;
    ms, a' := [], a;
    match step
    case Own(i, event) =>
      OwnStep(net, s, a, i, event);
      ms, a' := [P.Move(i, event)], P.Apply(net, a, P.Move(i, event));
      OneMove(net, a, P.Move(i, event));
    case CallPush(_) => CallStep(net, s, a, step);
    case CallPop(_) => CallStep(net, s, a, step);
    case Return(i) => ReturnStep(net, s, a, i);
    case Inside(q, m) =>
      InsideEvents(s.queues[q], m);
      var e := M.EventOf(s.queues[q], m);
      if e.None? {
        QuietStatement(net, s, a, q, m);
      } else {
        var op, res := e.value.op, e.value.res;
        EffectStatement(net, s, a, q, m, op, res);
        ms, a' := [MoveOf(m.t, op, res)], P.Apply(net, a, MoveOf(m.t, op, res));
        OneMove(net, a, MoveOf(m.t, op, res));
      }
  }

  lemma OneMove(net: P.Net, a: P.State, m: P.Move)
    requires P.Enabled(net, a, m)
    ensures P.Reaches(net, a, [m], P.Apply(net, a, m))
  {
    hide P.Enabled, P.Apply;
    assert [m][1..] == [];
  }

  lemma InsideEvents(s: M.State, m: M.Move)
    requires M.Enabled(s, m) && !m.Begin? && !m.Leave?
    ensures var e := M.EventOf(s, m); e.Some? ==> e.value.Effect? && e.value.t == m.t
  {
    hide M.Stmt;
  }

  lemma {:induction false} RunsJoin(net: P.Net, a: P.State, ms: seq<P.Move>, b: P.State, ns: seq<P.Move>, c: P.State)
    requires P.Reaches(net, a, ms, b) && P.Reaches(net, b, ns, c)
    ensures P.Reaches(net, a, ms + ns, c)
    decreases |ms|
  {
    hide P.Enabled, P.Apply;
    if ms == [] {
      assert ms + ns == ns;
    } else {
      assert (ms + ns)[0] == ms[0] && (ms + ns)[1..] == ms[1..] + ns;
      RunsJoin(net, P.Apply(net, a, ms[0]), ms[1..], b, ns, c);
    }
  }

  lemma InitRel(net: P.Net)
    requires P.Good(net)
    ensures Rel(net, Init(net), P.Init(net))
  {
    M.InitInv(|net.topo.kinds|);
    I.Lengths(net);
    hide P.Good, M.Inv;
  }

  lemma {:induction false} RefinesFrom(net: P.Net, s: Threads, a: P.State, steps: seq<Step>, s': Threads)
    returns (ms: seq<P.Move>, a': P.State)
    requires Rel(net, s, a) && Reaches(net, s, steps, s')
    ensures P.Reaches(net, a, ms, a') && Rel(net, s', a')
    decreases |steps|
  {
    hide Rel, Enabled, Apply, P.Reaches;
    if steps == [] {
      ms, a' := [], a;
      NoMoves(net, a);
    } else {
      var ns, b := Simulates(net, s, a, steps[0]);
      var rest;
      rest, a' := RefinesFrom(net, Apply(net, s, steps[0]), b, steps[1..], s');
      RunsJoin(net, a, ns, b, rest, a');
      ms := ns + rest;
    }
  }

  lemma NoMoves(net: P.Net, a: P.State)
    ensures P.Reaches(net, a, [], a)
  {
  }

  /**
   Refinement. Whatever the node threads do at the level of statements, under any
   schedule of all threads on all queues, there is a run of the pipeline with the same
   captures, the same frames sent in the same order, the same errors and exit flag,
   the same contents of every queue, and the same counters of every node outside a call.
   */
  lemma ThreadsRefineTheRun(net: P.Net, steps: seq<Step>, s: Threads) returns (ms: seq<P.Move>, a: P.State)
    requires P.Good(net) && Reaches(net, Init(net), steps, s)
    ensures P.Reaches(net, P.Init(net), ms, a)
    ensures P.Sizes(net, a) && Fits(net, s)
    ensures s.captured == a.captured && s.sent == SentLog(a.ended) && s.errors == a.errors && s.exit == a.exit
    ensures forall q :: 0 <= q < |s.queues| ==> M.Contents(s.queues[q].trace) == P.Contents(net, a, q)
    ensures forall i :: 0 <= i < |s.controls| && !s.controls[i].Popping? && !s.controls[i].Pushing? ==>
              s.turn[i] == a.turn[i] && s.stats[i] == a.stats[i] && s.controls[i] == Erased(a.locals[i])
  {
    hide Rel, Reaches, Init, P.Reaches, P.Init, P.Good, P.Contents, M.Contents, M.Inv, NodeRel;
    InitRel(net);
    ms, a := RefinesFrom(net, Init(net), P.Init(net), steps, s);
    RelLog(net, s, a);
    RelSizes(net, s, a);
    forall q | 0 <= q < |s.queues|
      ensures M.Contents(s.queues[q].trace) == P.Contents(net, a, q)
    {
      RelQueue(net, s, a, q);
    }
    forall i | 0 <= i < |s.controls| && !s.controls[i].Popping? && !s.controls[i].Pushing?
      ensures s.turn[i] == a.turn[i] && s.stats[i] == a.stats[i] && s.controls[i] == Erased(a.locals[i])
    {
      RelNode(net, s, a, i);
      RestingViews(net, s, a, i);
    }
  }

  lemma RestingViews(net: P.Net, s: Threads, a: P.State, i: nat)
    requires P.Good(net) && Fits(net, s) && P.Sizes(net, a) && i < |s.controls| && NodeRel(net, s, a, i)
    requires !s.controls[i].Popping? && !s.controls[i].Pushing?
    ensures s.turn[i] == a.turn[i] && s.stats[i] == a.stats[i] && s.controls[i] == Erased(a.locals[i])
  {
    hide P.Good;
  }

  lemma RelSizes(net: P.Net, s: Threads, a: P.State)
    requires Rel(net, s, a)
    ensures Fits(net, s) && P.Sizes(net, a)
  {
    hide QueueRel, NodeRel, OutsideOthers;
  }

  // ---------------------------------------------------------------- no call is refused by the model

  /** What a node is about to push fits a frame buffer. */
  lemma BusyFits(net: P.Net, a: P.State, i: nat)
    requires I.Inv(net, a) && i < |a.locals| && i < |net.topo.kinds| && a.locals[i].Busy?
    ensures |a.locals[i].tok.bytes| <= FRAME_BUFFER
    ensures i < |net.topo.outs| && a.locals[i].next <= a.locals[i].last <= |net.topo.outs[i]|
  {
    I.Lengths(net);
    assert I.LocalOk(net, a, i);
    var at := a.locals[i].at;
    if net.topo.kinds[i].Sniffer? {
      assert |a.captured[at].bytes| <= T.MAX_CAPTURE;
    } else {
      var q := P.Input(net, i);
      assert I.TokOk(net, a, q, a.hist[q][at]);
      H.UntaggedIsShort(net, a, q, at);
      if net.topo.kinds[i].Tagger? {
        TaggedFits(net, a.hist[q][at].bytes);
      }
    }
    hide I.Inv, I.TokOk, P.Good;
  }

  lemma TaggedFits(net: P.Net, f: Frame)
    requires P.Good(net) && (T.IsVlan(f) || |f| <= T.MAX_CAPTURE)
    ensures T.TagOf(f, net.rules).Some? ==> |T.TagOf(f, net.rules).value| <= FRAME_BUFFER
  {
    if T.Taggable(f, net.rules) {
      RT.TaggedWhenCovered(net.rules, Be32(f, 30));
    }
  }

  lemma OutsideIsIdle(l: M.Local)
    ensures M.Expected(l) == M.Outside ==> l.Idle?
  {
  }

  /** A thread that wants to push can always make its call: the model refuses no call that the code makes. */
  lemma PushCanBeCalled(net: P.Net, steps: seq<Step>, s: Threads, i: nat)
    requires P.Good(net) && Reaches(net, Init(net), steps, s)
    requires i < |s.controls| && s.controls[i].Busy? && s.controls[i].next < s.controls[i].last
    ensures Enabled(net, s, CallPush(i))
  {
    hide Reaches, Init, P.Reaches, P.Init, P.Good, M.Contents, M.Inv, I.Inv;
    InitRel(net);
    var ms, a := RefinesFrom(net, Init(net), P.Init(net), steps, s);
    I.InvReached(net, ms, a);
    RelNode(net, s, a, i);
    RestingViews(net, s, a, i);
    BusyFits(net, a, i);
    hide Rel;
    var q := P.Target(net, i, s.controls[i].next);
    assert OutsideOthers(net, s, q, i);
    OutsideIsIdle(s.queues[q].threads[i]);
  }

  /** And so can a thread that wants to pop. */
  lemma PopCanBeCalled(net: P.Net, steps: seq<Step>, s: Threads, i: nat)
    requires P.Good(net) && Reaches(net, Init(net), steps, s)
    requires i < |s.controls| && s.controls[i].Idle? && P.Reads(net, i) && !net.topo.kinds[i].Sniffer?
    requires net.topo.kinds[i].Tagger? ==> net.rules != []
    requires net.topo.kinds[i].Dispatcher? ==> i < |net.topo.outs| && net.topo.outs[i] != []
    ensures Enabled(net, s, CallPop(i))
  {
    hide Reaches, Init, P.Reaches, P.Init, P.Good, M.Contents, M.Inv;
    InitRel(net);
    var ms, a := RefinesFrom(net, Init(net), P.Init(net), steps, s);
    RelNode(net, s, a, i);
    I.Lengths(net);
    hide Rel;
    var q := P.Input(net, i);
    assert OutsideOthers(net, s, q, i);
    OutsideIsIdle(s.queues[q].threads[i]);
  }

  /** Each frame that has gone out is in the log of the run. */
  lemma {:induction false} SentLogMember(log: seq<P.End>, k: nat) returns (j: nat)
    requires k < |SentLog(log)|
    ensures j < |log| && log[j].fate.Sent? && SentLog(log)[k] == Out(log[j].node, log[j].tok.bytes)
  {
    var n := |log| - 1;
    if k < |SentLog(log[..n])| {
      j := SentLogMember(log[..n], k);
    } else {
      j := n;
    }
  }
}

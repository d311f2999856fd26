/**
 What the refinement of `NodeThreads` gives for the threads themselves: they never block
 each other while there is work, and they neither lose count nor multiply frames.
 */
module ThreadTheorems {
  import opened Bytes
  import opened NodeThreads
  import C = RunConservation
  import H = RunTheorems
  import I = RunInvariant
  import M = Monitor
  import P = PipelineRun
  import R = Ring

  // ---------------------------------------------------------------- no deadlock

  /** Steps that get work done: no spurious wakeup, no failing wait, no outside signal and no new capture. */
  predicate Working(step: Step) {
    match step
    case Own(_, event) => event.Finish? || event.Send?
    case Inside(_, m) => m.Acquire? || m.Execute? || m.Signal?
    case _ => true
  }

  lemma InCall(net: P.Net, s: Threads, a: P.State, i: nat, q: nat)
    requires Rel(net, s, a) && i < |s.controls| && CallOn(net, s, i) == Some(q)
    ensures q < |s.queues| && M.Inv(s.queues[q]) && i < |s.queues[q].threads|
    ensures s.controls[i].Popping? || s.controls[i].Pushing?
    ensures PhaseIn(net, s, q, i) != M.Outside
    ensures s.controls[i].Pushing? ==> PhaseIn(net, s, q, i) != M.Pending(R.Pop)
    ensures i < |net.topo.outs| && (net.topo.kinds[i].Dispatcher? ==> net.topo.outs[i] != [])
  {
    I.Lengths(net);
    RelNode(net, s, a, i);
    hide Rel, M.Inv, M.Expected, P.Good, Received, ViewOf, NewTurn, NewStats, First;
    RelQueue(net, s, a, q);
  }

  /** A thread outside the mutex that is neither idle nor asleep can go on as soon as the mutex is free. */
  lemma ThreadMoves(s: M.State, i: nat) returns (m: M.Move)
    requires M.Inv(s) && s.owner.None? && i < |s.threads|
    requires !s.threads[i].Idle? && !s.threads[i].Asleep? && !s.threads[i].Returning?
    ensures M.Enabled(s, m) && (m.Acquire? || m.Execute?)
  {
    R.HasShape(s.ring, M.Contents(s.trace));
    hide R.Rep, M.Legal, M.PhaseInv, M.WakeInv, M.Contents, R.Shape;
    assert !M.Critical(s.threads[i]);
    m := if s.threads[i].PushCheck? then M.Execute(i) else M.Acquire(i);
  }

  /** A busy thread sees some thread move in its queue, is about to return, or sleeps on an empty queue. */
  lemma QueueMoves(s: M.State, i: nat) returns (m: M.Move)
    requires M.Inv(s) && i < |s.threads| && !s.threads[i].Idle?
    ensures || ((m.Acquire? || m.Execute? || m.Signal?) && M.Enabled(s, m))
            || (m == M.Leave(i) && M.Enabled(s, m))
            || (s.threads[i].Asleep? && M.Contents(s.trace) == [])
  {
    hide M.Inv, M.Contents;
    m := M.Leave(i);
    if s.owner.Some? {
      m := M.OwnerMoves(s, s.owner.value);
    } else if s.threads[i].Asleep? {
      if M.Contents(s.trace) != [] {
        var u := M.SomebodyWakes(s, i);
        m := M.Acquire(u);
      }
    } else if !s.threads[i].Returning? {
      m := ThreadMoves(s, i);
    }
  }

  lemma PhaseShows(l: M.Local)
    ensures M.Expected(l) != M.Outside ==> !l.Idle?
    ensures l.Asleep? ==> M.Expected(l) == M.Pending(R.Pop)
  {
  }

  /** A thread in a call sees some thread move in its queue, or sleeps on an empty queue. */
  lemma CallMoves(net: P.Net, s: Threads, a: P.State, i: nat, q: nat) returns (step: Step)
    requires Rel(net, s, a) && i < |s.controls| && CallOn(net, s, i) == Some(q)
    ensures || (Working(step) && Enabled(net, s, step))
            || (q < |s.queues| && s.controls[i].Popping? && M.Contents(s.queues[q].trace) == [])
  {
    hide Rel, M.Inv, P.Good, M.Contents, M.Enabled, M.Expected;
    RelSizes(net, s, a);
    RelQueue(net, s, a, q);
    InCall(net, s, a, i, q);
    PhaseShows(s.queues[q].threads[i]);
    var m := QueueMoves(s.queues[q], i);
    step := if m.Leave? then Return(i) else Inside(q, m);
  }

  /**
   No deadlock. While a queue whose reader has not stopped holds a frame, some thread
   can take a working step, whatever all threads on all queues are doing.
   */
  lemma NoDeadlock(net: P.Net, steps: seq<Step>, s: Threads, i: nat)
    requires P.Good(net) && Reaches(net, Init(net), steps, s)
    requires i < |s.controls| && P.Reads(net, i) && !net.topo.kinds[i].Sniffer?
    requires net.topo.kinds[i].Tagger? ==> net.rules != []
    requires net.topo.kinds[i].Dispatcher? ==> i < |net.topo.outs| && net.topo.outs[i] != []
    requires !s.controls[i].Stopped?
    requires P.Input(net, i) < |s.queues| && M.Contents(s.queues[P.Input(net, i)].trace) != []
    ensures exists step :: Working(step) && Enabled(net, s, step)
  {
    hide Reaches, Init, P.Reaches, P.Init, P.Good, M.Contents, M.Inv, I.Inv, Rel, NodeRel;
    InitRel(net);
    var ms, a := RefinesFrom(net, Init(net), P.Init(net), steps, s);
    I.InvReached(net, ms, a);
    RelNode(net, s, a, i);
    I.Lengths(net);
    match s.controls[i]
    case Idle =>
      PopCanBeCalled(net, steps, s, i);
      assert Working(CallPop(i)) && Enabled(net, s, CallPop(i));
    case Busy(_, _, next, last) =>
      RestingViews(net, s, a, i);
      BusyFits(net, a, i);
      if next < last {
        PushCanBeCalled(net, steps, s, i);
        assert Working(CallPush(i)) && Enabled(net, s, CallPush(i));
      } else {
        assert Working(Own(i, P.Finish)) && Enabled(net, s, Own(i, P.Finish));
      }
    case Sending(_) => assert Working(Own(i, P.Send(true))) && Enabled(net, s, Own(i, P.Send(true)));
    case Popping => var step := CallMoves(net, s, a, i, P.Input(net, i));
    case Pushing(_, _, next, _) =>
      PushingHasTarget(net, s, a, i);
      var step := CallMoves(net, s, a, i, P.Target(net, i, next));
  }

  lemma PushingHasTarget(net: P.Net, s: Threads, a: P.State, i: nat)
    requires P.Good(net) && Fits(net, s) && P.Sizes(net, a) && i < |net.topo.kinds| && NodeRel(net, s, a, i)
    requires s.controls[i].Pushing?
    ensures i < |net.topo.outs| && s.controls[i].next < |net.topo.outs[i]|
  {
    I.Lengths(net);
    hide P.Good, ViewOf;
  }

  // ---------------------------------------------------------------- counting

  /** The copies of the first `n` frames in `ts`. */
  function Total(ts: seq<P.Tok>, n: nat): nat {
    if n == 0 then 0 else Total(ts, n - 1) + C.Copies(ts, n - 1)
  }

  lemma {:induction false} TotalOfNone(n: nat)
    ensures Total([], n) == 0
  {
    if n == 0 {
    } else {
      TotalOfNone(n - 1);
    }
  }

  lemma {:induction false} TotalSnoc(ts: seq<P.Tok>, t: P.Tok, n: nat)
    ensures Total(ts + [t], n) == Total(ts, n) + if t.id < n then 1 else 0
  {
    if n == 0 {
    } else {
      TotalSnoc(ts, t, n - 1);
      C.CopiesSnoc(ts, t, n - 1);
    }
  }

  lemma {:induction false} TotalIsLength(ts: seq<P.Tok>, n: nat)
    requires forall t :: t in ts ==> t.id < n
    ensures Total(ts, n) == |ts|
  {
    if ts == [] {
      TotalOfNone(n);
    } else {
      var k := |ts| - 1;
      TotalIsLength(ts[..k], n);
      TotalSnoc(ts[..k], ts[k], n);
      assert ts[..k] + [ts[k]] == ts;
    }
  }

  lemma {:induction false} TotalIsSmall(ts: seq<P.Tok>, n: nat)
    requires forall id: nat :: C.Copies(ts, id) <= 1
    ensures Total(ts, n) <= n
  {
    if n == 0 {
    } else {
      TotalIsSmall(ts, n - 1);
    }
  }

  lemma {:induction false} CopiesJoin(ts: seq<P.Tok>, us: seq<P.Tok>, id: nat)
    ensures C.Copies(ts + us, id) == C.Copies(ts, id) + C.Copies(us, id)
  {
    if us == [] {
      assert ts + us == ts;
    } else {
      var k := |us| - 1;
      CopiesJoin(ts, us[..k], id);
      assert (ts + us)[..|ts + us| - 1] == ts + us[..k];
    }
  }

  /** What the first `n` queues hold, one after the other. */
  function Waiting(net: P.Net, a: P.State, n: nat): seq<P.Tok>
    requires P.Sizes(net, a) && n <= net.topo.queues
  {
    if n == 0 then [] else Waiting(net, a, n - 1) + a.hist[n - 1][a.taken[n - 1]..]
  }

  function FirstSum(ns: seq<nat>, n: nat): nat
    requires n <= |ns|
  {
    if n == 0 then 0 else FirstSum(ns, n - 1) + ns[n - 1]
  }

  lemma {:induction false} FirstSumUncons(ns: seq<nat>, n: nat)
    requires 0 < n <= |ns|
    ensures FirstSum(ns, n) == ns[0] + FirstSum(ns[1..], n - 1)
  {
    if n == 1 {
    } else {
      FirstSumUncons(ns, n - 1);
    }
  }

  lemma {:induction false} SumIsFirstSum(ns: seq<nat>)
    ensures C.Sum(ns) == FirstSum(ns, |ns|)
  {
    if ns == [] {
    } else {
      FirstSumUncons(ns, |ns|);
      SumIsFirstSum(ns[1..]);
    }
  }

  lemma {:induction false} WaitingCopies(net: P.Net, a: P.State, n: nat, id: nat)
    requires P.Sizes(net, a) && n <= net.topo.queues
    ensures C.Copies(Waiting(net, a, n), id) == FirstSum(C.QueuedIn(net, a, id), n)
  {
    hide C.Copies;
    if n == 0 {
      NoCopies(id);
    } else {
      WaitingCopies(net, a, n - 1, id);
      CopiesJoin(Waiting(net, a, n - 1), a.hist[n - 1][a.taken[n - 1]..], id);
    }
  }

  lemma NoCopies(id: nat)
    ensures C.Copies([], id) == 0
  {
  }

  /** The frames sent, with their identities. */
  function SentToks(log: seq<P.End>): (ts: seq<P.Tok>)
    ensures |ts| == |SentLog(log)|
  {
    if log == [] then []
    else
      var e := log[|log| - 1];
      SentToks(log[..|log| - 1]) + if e.fate.Sent? then [e.tok] else []
  }

  lemma {:induction false} SentCopies(log: seq<P.End>, id: nat)
    ensures C.Copies(SentToks(log), id) == C.Left(log, P.Sent, id)
  {
    if log == [] {
    } else {
      var e, before := log[|log| - 1], log[..|log| - 1];
      SentCopies(before, id);
      if e.fate.Sent? {
        C.CopiesSnoc(SentToks(before), e.tok, id);
      } else {
        assert SentToks(before) + [] == SentToks(before);
      }
    }
  }

  lemma {:induction false} FewCopiesFewFrames(ts: seq<P.Tok>, n: nat)
    requires forall id: nat :: C.Copies(ts, id) <= if id < n then 1 else 0
    ensures |ts| <= n
  {
    forall t | t in ts
      ensures t.id < n
    {
      Present(ts, t);
    }
    TotalIsLength(ts, n);
    TotalIsSmall(ts, n);
  }

  lemma {:induction false} Present(ts: seq<P.Tok>, t: P.Tok)
    requires t in ts
    ensures C.Copies(ts, t.id) > 0
  {
    var k := |ts| - 1;
    if ts[k] == t {
    } else {
      Present(ts[..k], t);
    }
  }

  /** Without fan-out the frames waiting in queues and the frames sent are no more than those captured. */
  lemma NothingMultiplies(net: P.Net, ms: seq<P.Move>, a: P.State)
    requires P.Good(net) && C.Unicast(net) && P.Reaches(net, P.Init(net), ms, a)
    ensures P.Sizes(net, a)
    ensures |Waiting(net, a, net.topo.queues)| + |SentLog(a.ended)| <= |a.captured|
  {
    hide P.Reaches, P.Init, P.Good, C.Unicast, C.Copies, C.Left, C.Sum;
    C.EachFrameInOnePlace(net, ms, a, 0);
    var all := Waiting(net, a, net.topo.queues) + SentToks(a.ended);
    forall id: nat
      ensures C.Copies(all, id) <= if id < |a.captured| then 1 else 0
    {
      C.EachFrameInOnePlace(net, ms, a, id);
      CopiesJoin(Waiting(net, a, net.topo.queues), SentToks(a.ended), id);
      WaitingCopies(net, a, net.topo.queues, id);
      SumIsFirstSum(C.QueuedIn(net, a, id));
      SentCopies(a.ended, id);
    }
    FewCopiesFewFrames(all, |a.captured|);
  }

  /** The frames in the first `n` queues of the threads. */
  ghost function InQueues(s: Threads, n: nat): nat
    requires n <= |s.queues|
  {
    if n == 0 then 0 else InQueues(s, n - 1) + |M.Contents(s.queues[n - 1].trace)|
  }

  lemma {:induction false} SameInQueues(net: P.Net, s: Threads, a: P.State, n: nat)
    requires P.Sizes(net, a) && n <= net.topo.queues == |s.queues|
    requires forall q :: 0 <= q < |s.queues| ==> M.Contents(s.queues[q].trace) == P.Contents(net, a, q)
    ensures InQueues(s, n) == |Waiting(net, a, n)|
  {
    hide M.Contents;
    if n == 0 {
    } else {
      SameInQueues(net, s, a, n - 1);
      assert M.Contents(s.queues[n - 1].trace) == P.Contents(net, a, n - 1);
    }
  }

  /** The same for the threads, statement by statement, under any schedule. */
  lemma ThreadsMultiplyNothing(net: P.Net, steps: seq<Step>, s: Threads)
    requires P.Good(net) && C.Unicast(net) && Reaches(net, Init(net), steps, s)
    ensures InQueues(s, |s.queues|) + |s.sent| <= |s.captured|
  {
    hide Reaches, Init, P.Reaches, P.Init, P.Good, C.Unicast, InQueues, Waiting, M.Contents, P.Contents;
    var ms, a := ThreadsRefineTheRun(net, steps, s);
    NothingMultiplies(net, ms, a);
    SameInQueues(net, s, a, |s.queues|);
  }
}

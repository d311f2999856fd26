/**
 queue/queue.c as a monitor: any number of threads, one mutex, one condition
 variable, and every C statement a step of its own.

 A state also carries the trace of what has happened: invocations, the moments at
 which operations take effect, and returns. The theorems at the end are about every
 run: each operation takes effect once, between its invocation and its return and
 under the mutex; in that order the operations form a run of the bounded FIFO; and
 no wakeup is lost.
 */
module Monitor {
  import opened Bytes
  import opened Ring

  // ---------------------------------------------------------------- threads

  /** The statement a thread executes next. */
  datatype Local =
    | Idle
    | PushCheck(f: Frame)
    | PushLock(f: Frame)
    | PushTest(f: Frame)
    | PushCopy(f: Frame)
    | PushSize(f: Frame)
    | PushAdvance(f: Frame)
    | PushSignal(f: Frame)
    | PopLock
    | PopTest(woken: bool)
    | Asleep                     // inside pthread_cond_wait, not signalled
    | Woken                      // inside pthread_cond_wait, waiting for the mutex
    | PopCopy
    | PopSize(buf: Frame)
    | PopClear(buf: Frame, n: nat)
    | PopAdvance(buf: Frame, n: nat)
    | RemLock
    | RemTest
    | RemClear
    | RemAdvance
    | PeekLock(newest: bool)
    | PeekTest(newest: bool)
    | PeekSize(newest: bool)
    | PeekCopy(newest: bool, n: nat)
    | Unlock(op: Op, res: Res)
    | Returning(op: Op, res: Res)

  /** Statements executed while holding the mutex. */
  predicate Critical(l: Local) {
    || l.PushTest? || l.PushCopy? || l.PushSize? || l.PushAdvance? || l.PushSignal?
    || l.PopTest? || l.PopCopy? || l.PopSize? || l.PopClear? || l.PopAdvance?
    || l.RemTest? || l.RemClear? || l.RemAdvance?
    || l.PeekTest? || l.PeekSize? || l.PeekCopy? || l.Unlock?
  }

  /** `locked` says whether the thread held the mutex when its operation took effect. */
  datatype Event =
    | Invoke(t: nat, op: Op)
    | Effect(t: nat, op: Op, res: Res, locked: bool)
    | Return(t: nat, res: Res)

  datatype State = State(
    ring: RingState,
    owner: Option<nat>,
    threads: seq<Local>,
    trace: seq<Event>)

  // ---------------------------------------------------------------- statements

  /** The operation a busy thread is executing. */
  function OpOf(l: Local): Op {
    match l
    case PushCheck(f) => Push(f)
    case PushLock(f) => Push(f)
    case PushTest(f) => Push(f)
    case PushCopy(f) => Push(f)
    case PushSize(f) => Push(f)
    case PushAdvance(f) => Push(f)
    case PushSignal(f) => Push(f)
    case RemLock => RemoveFront
    case RemTest => RemoveFront
    case RemClear => RemoveFront
    case RemAdvance => RemoveFront
    case PeekLock(newest) => if newest then Back else Front
    case PeekTest(newest) => if newest then Back else Front
    case PeekSize(newest) => if newest then Back else Front
    case PeekCopy(newest, _) => if newest then Back else Front
    case Unlock(op, _) => op
    case Returning(op, _) => op
    case _ => Pop
  }

  function Start(op: Op): Local {
    match op
    case Push(f) => PushCheck(f)
    case Pop => PopLock
    case RemoveFront => RemLock
    case Front => PeekLock(false)
    case Back => PeekLock(true)
  }

  predicate WantsLock(l: Local) {
    l.PushLock? || l.PopLock? || l.Woken? || l.RemLock? || l.PeekLock?
  }

  function Locked(l: Local): Local
    requires WantsLock(l)
  {
    match l
    case PushLock(f) => PushTest(f)
    case PopLock => PopTest(false)
    case Woken => PopTest(true)
    case RemLock => RemTest
    case PeekLock(newest) => PeekTest(newest)
  }

  /** What one statement does: the next one, the ring, the result if it takes effect here, and a mutex release. */
  datatype Outcome = Outcome(next: Local, ring: RingState, effect: Option<Res>, release: bool)

  predicate Runs(l: Local, r: RingState) {
    && Shape(r)
    && (l.PushCheck? || (Critical(l) && !l.PushSignal?))
    && (l.PushCopy? ==> |l.f| <= MAX_PKG_SIZE)
  }

  /** The first `n` bytes at most, as `memcpy` would copy them. */
  function Copied(buf: Frame, n: nat): Frame {
    buf[..if n <= |buf| then n else |buf|]
  }

  function Stmt(l: Local, r: RingState): Outcome
    requires Runs(l, r)
  {
    match l
    case PushCheck(f) =>
      if |f| > MAX_PKG_SIZE then Outcome(Returning(Push(f), Size(-1)), r, Some(Size(-1)), false)
      else if |f| == 0 then Outcome(Returning(Push(f), Size(0)), r, Some(Size(0)), false)
      else Outcome(PushLock(f), r, None, false)
    case PushTest(f) =>
      if IsFull(r) then Outcome(Unlock(Push(f), Size(0)), r, Some(Size(0)), false)
      else Outcome(PushCopy(f), r, None, false)
    case PushCopy(f) => Outcome(PushSize(f), CopyIn(r, f), None, false)
    case PushSize(f) => Outcome(PushAdvance(f), SizeIn(r, |f|), None, false)
    case PushAdvance(f) => Outcome(PushSignal(f), AdvanceRear(r), Some(Size(|f|)), false)
    case PopTest(_) => if IsEmpty(r) then Outcome(Asleep, r, None, true) else Outcome(PopCopy, r, None, false)
    case PopCopy => Outcome(PopSize(Stored(r, r.front)), r, None, false)
    case PopSize(buf) => Outcome(PopClear(buf, r.sizes[r.front]), r, None, false)
    case PopClear(buf, n) => Outcome(PopAdvance(buf, n), ClearFront(r), None, false)
    case PopAdvance(buf, n) =>
      Outcome(Unlock(Pop, Read(Copied(buf, n))), AdvanceFront(r), Some(Read(Copied(buf, n))), false)
    case RemTest =>
      if IsEmpty(r) then Outcome(Unlock(RemoveFront, Done), r, Some(Done), false)
      else Outcome(RemClear, r, None, false)
    case RemClear => Outcome(RemAdvance, ClearFront(r), None, false)
    case RemAdvance => Outcome(Unlock(RemoveFront, Done), AdvanceFront(r), Some(Done), false)
    case PeekTest(newest) =>
      if IsEmpty(r) then Outcome(Unlock(OpOf(l), Empty), r, Some(Empty), false)
      else Outcome(PeekSize(newest), r, None, false)
    case PeekSize(newest) =>
      Outcome(PeekCopy(newest, r.sizes[if newest then Prev(r.rear) else r.front]), r, None, false)
    case PeekCopy(newest, n) =>
      var res := Read(Copied(r.slots[if newest then Prev(r.rear) else r.front], n));
      Outcome(Unlock(OpOf(l), res), r, Some(res), false)
    case Unlock(op, res) => Outcome(Returning(op, res), r, None, true)
  }

  // ---------------------------------------------------------------- steps of the whole system

  datatype Move =
    | Begin(t: nat, op: Op)
    | Acquire(t: nat)
    | Execute(t: nat)
    | Signal(t: nat, woken: Option<nat>)   // the signal in push, and the sleeper it wakes
    | WaitFails(t: nat)                    // pthread_cond_wait returns an error
    | Wake(t: nat)                         // a spurious wakeup, or send_signal_queue
    | Leave(t: nat)                        // return to the caller

  predicate Enabled(s: State, m: Move) {
    && m.t < |s.threads|
    && var l := s.threads[m.t];
       match m
       case Begin(_, op) => l.Idle? && (op.Push? ==> |op.f| < 0x1_0000)
       case Acquire(_) => s.owner.None? && WantsLock(l)
       case Execute(_) => Runs(l, s.ring) && (Critical(l) ==> s.owner == Some(m.t))
       case Signal(_, u) =>
         && l.PushSignal? && s.owner == Some(m.t)
         && (if u.Some? then u.value < |s.threads| && s.threads[u.value].Asleep?
             else forall v :: 0 <= v < |s.threads| ==> !s.threads[v].Asleep?)
       case WaitFails(_) => l.PopTest? && s.owner == Some(m.t) && Shape(s.ring) && IsEmpty(s.ring)
       case Wake(_) => l.Asleep?
       case Leave(_) => l.Returning?
  }

  function Goto(s: State, t: nat, l: Local): State
    requires t < |s.threads|
  {
    s.(threads := s.threads[t := l])
  }

  function Apply(s: State, m: Move): State
    requires Enabled(s, m)
  {
    var t := m.t;
    var l := s.threads[t];
    match m
    case Begin(_, op) => Goto(s, t, Start(op)).(trace := s.trace + [Invoke(t, op)])
    case Acquire(_) => Goto(s, t, Locked(l)).(owner := Some(t))
    case Execute(_) =>
      var o := Stmt(l, s.ring);
      State(
        o.ring,
        if o.release then None else s.owner,
        s.threads[t := o.next],
        if o.effect.Some? then s.trace + [Effect(t, OpOf(l), o.effect.value, s.owner == Some(t))] else s.trace)
    case Signal(_, u) =>
      var s' := if u.Some? then Goto(s, u.value, Woken) else s;
      Goto(s', t, Unlock(Push(l.f), Size(|l.f|)))
    case WaitFails(_) =>
      Goto(s, t, Unlock(Pop, WaitFailed)).(trace := s.trace + [Effect(t, Pop, WaitFailed, true)])
    case Wake(_) => Goto(s, t, Woken)
    case Leave(_) => Goto(s, t, Idle).(trace := s.trace + [Return(t, l.res)])
  }

  // ---------------------------------------------------------------- reading a trace

  /** Where a thread stands in its current operation, as the trace tells it. */
  datatype Phase = Outside | Pending(op: Op) | Effective(op: Op, res: Res) | Broken

  function PhaseOf(trace: seq<Event>, t: nat): Phase {
    if trace == [] then Outside
    else
      var before := PhaseOf(trace[..|trace| - 1], t);
      var e := trace[|trace| - 1];
      if e.t != t then before
      else match e
        case Invoke(_, op) => if before.Outside? then Pending(op) else Broken
        case Effect(_, op, res, _) => if before == Pending(op) then Effective(op, res) else Broken
        case Return(_, res) => if before.Effective? && before.res == res then Outside else Broken
  }

  /** The abstract queue after one effect. */
  function After(c: seq<Frame>, op: Op, res: Res): seq<Frame> {
    match op
    case Push(f) => PushSpec(c, f).0
    case Pop => if c != [] && res.Read? then c[1..] else c
    case RemoveFront => if c == [] then c else c[1..]
    case Front => c
    case Back => c
  }

  /** The abstract queue after all effects of the trace, in order. */
  function Contents(trace: seq<Event>): seq<Frame> {
    if trace == [] then []
    else
      var c := Contents(trace[..|trace| - 1]);
      var e := trace[|trace| - 1];
      if e.Effect? then After(c, e.op, e.res) else c
  }

  /** Every effect is a step of the bounded FIFO, and happens under the mutex unless `push` refused its arguments. */
  ghost predicate Legal(trace: seq<Event>) {
    trace != [] ==>
      var before := trace[..|trace| - 1];
      var e := trace[|trace| - 1];
      && Legal(before)
      && (e.Effect? ==>
            && Fifo(Contents(before), e.op, e.res, Contents(trace))
            && (e.locked || (e.op.Push? && !(0 < |e.op.f| <= MAX_PKG_SIZE))))
  }

  /** The frames that pushes put in, in order of effect. */
  function Accepted(trace: seq<Event>): seq<Frame> {
    if trace == [] then []
    else
      var e := trace[|trace| - 1];
      Accepted(trace[..|trace| - 1]) + if e.Effect? then Gain(e.op, e.res) else []
  }

  /** What an operation puts in. */
  function Gain(op: Op, res: Res): seq<Frame> {
    if op.Push? && res.Size? && res.n > 0 then [op.f] else []
  }

  /** What it takes out of the queue `c`. */
  function Loss(c: seq<Frame>, op: Op, res: Res): seq<Frame> {
    if op.Pop? && res.Read? then [res.frame]
    else if op.RemoveFront? && c != [] then [c[0]]
    else []
  }

  /** The frames that `pop` and `remove_front` took out, in order of effect. */
  function Removed(trace: seq<Event>): seq<Frame> {
    if trace == [] then []
    else
      var before := trace[..|trace| - 1];
      var e := trace[|trace| - 1];
      Removed(before) + if e.Effect? then Loss(Contents(before), e.op, e.res) else []
  }

  lemma Snoc(trace: seq<Event>, e: Event)
    ensures (trace + [e])[..|trace + [e]| - 1] == trace
    ensures (trace + [e])[|trace + [e]| - 1] == e
  {
  }

  /** One operation: what was there and what goes in is what comes out and what stays. */
  lemma OperationBalances(c: seq<Frame>, op: Op, res: Res, c': seq<Frame>)
    requires Fifo(c, op, res, c') && |c| <= Q_SIZE
    ensures |c'| <= Q_SIZE
    ensures c + Gain(op, res) == Loss(c, op, res) + c'
  {
  }

  /** What went in is what came out followed by what is still there, in order. */
  lemma {:induction false} AcceptedIsRemovedThenContents(trace: seq<Event>)
    requires Legal(trace)
    ensures Accepted(trace) == Removed(trace) + Contents(trace)
    ensures |Contents(trace)| <= Q_SIZE
  {
    hide Fifo, After, Gain, Loss;
    if trace == [] {
    } else {
      var before, e := trace[..|trace| - 1], trace[|trace| - 1];
      AcceptedIsRemovedThenContents(before);
      if e.Effect? {
        var c, gain, loss := Contents(before), Gain(e.op, e.res), Loss(Contents(before), e.op, e.res);
        OperationBalances(c, e.op, e.res, Contents(trace));
        assert (Removed(before) + c) + gain == Removed(before) + (c + gain);
        assert Removed(before) + (loss + Contents(trace)) == (Removed(before) + loss) + Contents(trace);
      }
    }
  }

  // ---------------------------------------------------------------- the invariant

  /** The phase that a program point stands for. */
  function Expected(l: Local): Phase {
    match l
    case Idle => Outside
    case PushSignal(f) => Effective(Push(f), Size(|f|))
    case Unlock(op, res) => Effective(op, res)
    case Returning(op, res) => Effective(op, res)
    case _ => Pending(OpOf(l))
  }

  predicate Pushable(f: Frame) {
    0 < |f| <= MAX_PKG_SIZE
  }

  /** What holds of the ring while its owner is at program point `l`. */
  ghost predicate Midway(l: Local, r: RingState, c: seq<Frame>) {
    && Shape(r)
    && match l
       case PushTest(f) => Rep(r, c) && Pushable(f)
       case PushCopy(f) => Rep(r, c) && Pushable(f) && |c| < Q_SIZE
       case PushSize(f) => Rep(r, c) && Pushable(f) && |c| < Q_SIZE && r.slots[r.rear][..|f|] == f
       case PushAdvance(f) =>
         && Pushable(f) && |c| < Q_SIZE && r.slots[r.rear][..|f|] == f
         && r.sizes[r.rear] == |f| && Rep(SizeIn(r, 0), c)
       case PopCopy => Rep(r, c) && c != []
       case PopSize(buf) => Rep(r, c) && c != [] && buf == c[0]
       case PopClear(buf, n) => Rep(r, c) && c != [] && buf == c[0] && n == |buf|
       case PopAdvance(buf, n) =>
         && c != [] && buf == c[0] && n == |buf|
         && r.sizes[r.front] == 0 && Rep(r.(sizes := r.sizes[r.front := n]), c)
       case RemClear => Rep(r, c) && c != []
       case RemAdvance =>
         && c != []
         && r.sizes[r.front] == 0 && Rep(r.(sizes := r.sizes[r.front := |c[0]|]), c)
       case PeekSize(_) => Rep(r, c) && c != []
       case PeekCopy(newest, n) => Rep(r, c) && c != [] && n == if newest then |c[|c| - 1]| else |c[0]|
       case _ => Rep(r, c)
  }

  ghost predicate RingInv(s: State) {
    match s.owner
    case None => Rep(s.ring, Contents(s.trace))
    case Some(t) => t < |s.threads| && Midway(s.threads[t], s.ring, Contents(s.trace))
  }

  ghost predicate MutexInv(s: State) {
    && (s.owner.Some? ==> s.owner.value < |s.threads| && Critical(s.threads[s.owner.value]))
    && (forall t :: 0 <= t < |s.threads| && Critical(s.threads[t]) ==> s.owner == Some(t))
  }

  /** A push past its checks has an acceptable frame. */
  ghost predicate ArgumentsInv(s: State) {
    forall t :: 0 <= t < |s.threads| && s.threads[t].PushLock? ==> Pushable(s.threads[t].f)
  }

  ghost predicate PhaseInv(s: State) {
    forall t :: 0 <= t < |s.threads| ==> PhaseOf(s.trace, t) == Expected(s.threads[t])
  }

  function Total(ls: seq<Local>, w: Local -> nat): nat {
    if ls == [] then 0 else w(ls[0]) + Total(ls[1..], w)
  }

  function Sleeper(l: Local): nat { if l.Asleep? then 1 else 0 }

  /** Consumers that were woken and have not yet tested the queue again. */
  function Rouser(l: Local): nat { if l.Woken? || l == PopTest(true) then 1 else 0 }

  /** Consumers about to take a frame, and a producer about to signal one. */
  function Pledge(l: Local): nat {
    if l.PushSignal? || l.PopCopy? || l.PopSize? || l.PopClear? || l.PopAdvance? then 1 else 0
  }

  ghost predicate WakeInv(s: State) {
    Total(s.threads, Sleeper) > 0 ==>
      |Contents(s.trace)| <= Total(s.threads, Rouser) + Total(s.threads, Pledge)
  }

  ghost predicate Inv(s: State) {
    && MutexInv(s)
    && RingInv(s)
    && ArgumentsInv(s)
    && PhaseInv(s)
    && Legal(s.trace)
    && WakeInv(s)
  }

  lemma {:induction false} TotalUpdate(ls: seq<Local>, i: nat, l: Local, w: Local -> nat)
    requires i < |ls|
    ensures Total(ls[i := l], w) + w(ls[i]) == Total(ls, w) + w(l)
  {
    if i > 0 {
      assert ls[i := l][1..] == ls[1..][i - 1 := l];
      TotalUpdate(ls[1..], i - 1, l, w);
    } else {
      assert ls[i := l][1..] == ls[1..];
    }
  }

  lemma {:induction false} TotalPositive(ls: seq<Local>, i: nat, w: Local -> nat)
    requires i < |ls|
    ensures Total(ls, w) >= w(ls[i])
  {
    if i == 0 {
    } else {
      TotalPositive(ls[1..], i - 1, w);
    }
  }

  lemma {:induction false} TotalZero(ls: seq<Local>, w: Local -> nat)
    requires forall i :: 0 <= i < |ls| ==> w(ls[i]) == 0
    ensures Total(ls, w) == 0
  {
    if ls == [] {
    } else {
      TotalZero(ls[1..], w);
    }
  }

  lemma {:induction false} TotalWitness(ls: seq<Local>, w: Local -> nat) returns (i: nat)
    requires Total(ls, w) > 0
    ensures i < |ls| && w(ls[i]) > 0
  {
    if w(ls[0]) > 0 {
      i := 0;
    } else {
      var j := TotalWitness(ls[1..], w);
      i := j + 1;
    }
  }

  /** All three counts follow the change of one thread. */
  lemma Recount(ls: seq<Local>, t: nat, l: Local)
    requires t < |ls|
    ensures Total(ls[t := l], Sleeper) + Sleeper(ls[t]) == Total(ls, Sleeper) + Sleeper(l)
    ensures Total(ls[t := l], Rouser) + Rouser(ls[t]) == Total(ls, Rouser) + Rouser(l)
    ensures Total(ls[t := l], Pledge) + Pledge(ls[t]) == Total(ls, Pledge) + Pledge(l)
  {
    TotalUpdate(ls, t, l, Sleeper);
    TotalUpdate(ls, t, l, Rouser);
    TotalUpdate(ls, t, l, Pledge);
  }

  // ---------------------------------------------------------------- one statement, by itself

  /** A statement keeps its thread inside the mutex or releases it, and moves the phase exactly when it takes effect. */
  lemma StmtControl(l: Local, r: RingState)
    requires Runs(l, r)
    ensures var o := Stmt(l, r);
            && (Critical(l) ==> (Critical(o.next) <==> !o.release))
            && (!Critical(l) ==> !Critical(o.next) && !o.release && o.ring == r)
            && (o.next.PushLock? ==> Pushable(o.next.f))
            && (if o.effect.Some? then Expected(l) == Pending(OpOf(l)) && Expected(o.next) == Effective(OpOf(l), o.effect.value)
                else Expected(o.next) == Expected(l))
  {
    hide Stmt, Runs, Critical, Expected;
    StmtRelease(l, r);
    StmtPhase(l, r);
  }

  lemma StmtRelease(l: Local, r: RingState)
    requires Runs(l, r)
    ensures var o := Stmt(l, r);
            && (Critical(l) ==> (Critical(o.next) <==> !o.release))
            && (!Critical(l) ==> !Critical(o.next) && !o.release && o.ring == r)
            && (o.next.PushLock? ==> Pushable(o.next.f))
  {
    hide Shape, IsEmpty, IsFull, CopyIn, SizeIn, AdvanceRear, ClearFront, AdvanceFront, Stored, Copied, OpOf;
  }

  lemma StmtPhase(l: Local, r: RingState)
    requires Runs(l, r)
    ensures var o := Stmt(l, r);
            if o.effect.Some? then Expected(l) == Pending(OpOf(l)) && Expected(o.next) == Effective(OpOf(l), o.effect.value)
            else Expected(o.next) == Expected(l)
  {
    hide Stmt, Expected, OpOf, Runs;
    PushPhase(l, r);
    PopPhase(l, r);
    RestPhase(l, r);
  }

  predicate InPush(l: Local) {
    l.PushCheck? || l.PushTest? || l.PushCopy? || l.PushSize? || l.PushAdvance?
  }

  predicate InPop(l: Local) {
    l.PopTest? || l.PopCopy? || l.PopSize? || l.PopClear? || l.PopAdvance?
  }

  lemma PushPhase(l: Local, r: RingState)
    requires Runs(l, r)
    ensures var o := Stmt(l, r);
            InPush(l) ==>
              if o.effect.Some? then Expected(l) == Pending(OpOf(l)) && Expected(o.next) == Effective(OpOf(l), o.effect.value)
              else Expected(o.next) == Expected(l)
  {
    if InPush(l) {
      hide Shape, IsEmpty, IsFull, CopyIn, SizeIn, AdvanceRear, ClearFront, AdvanceFront, Stored, Copied;
    }
  }

  lemma PopPhase(l: Local, r: RingState)
    requires Runs(l, r)
    ensures var o := Stmt(l, r);
            InPop(l) ==>
              if o.effect.Some? then Expected(l) == Pending(OpOf(l)) && Expected(o.next) == Effective(OpOf(l), o.effect.value)
              else Expected(o.next) == Expected(l)
  {
    if InPop(l) {
      hide Shape, IsEmpty, IsFull, CopyIn, SizeIn, AdvanceRear, ClearFront, AdvanceFront, Stored, Copied;
    }
  }

  lemma RestPhase(l: Local, r: RingState)
    requires Runs(l, r)
    ensures var o := Stmt(l, r);
            !InPush(l) && !InPop(l) ==>
              if o.effect.Some? then Expected(l) == Pending(OpOf(l)) && Expected(o.next) == Effective(OpOf(l), o.effect.value)
              else Expected(o.next) == Expected(l)
  {
    if !InPush(l) && !InPop(l) {
      hide Shape, IsEmpty, IsFull, CopyIn, SizeIn, AdvanceRear, ClearFront, AdvanceFront, Stored, Copied;
    }
  }

  /** The queue after a statement. */
  function Left(l: Local, o: Outcome, c: seq<Frame>): seq<Frame> {
    if o.effect.Some? then After(c, OpOf(l), o.effect.value) else c
  }

  ghost predicate StmtGood(l: Local, r: RingState, c: seq<Frame>)
    requires Runs(l, r)
  {
    var o := Stmt(l, r);
    && (if o.release then Rep(o.ring, Left(l, o, c)) else Midway(o.next, o.ring, Left(l, o, c)))
    && (o.effect.Some? ==> Fifo(c, OpOf(l), o.effect.value, Left(l, o, c)))
  }

  /** The argument checks of `push` need no mutex and leave the queue alone. */
  lemma CheckStmt(l: Local, r: RingState, c: seq<Frame>)
    requires Runs(l, r) && !Critical(l)
    ensures var o := Stmt(l, r);
            && !o.release && o.ring == r && !Critical(o.next) && Left(l, o, c) == c
            && (o.effect.Some? ==> Fifo(c, OpOf(l), o.effect.value, c) && OpOf(l).Push? && !Pushable(OpOf(l).f))
  {
  }

  lemma PushStmts(l: Local, r: RingState, c: seq<Frame>)
    requires Runs(l, r) && Midway(l, r, c)
    requires l.PushTest? || l.PushCopy? || l.PushSize? || l.PushAdvance?
    ensures StmtGood(l, r, c)
  {
    match l
    case PushTest(f) => TestsAreExact(r, c);
    case PushCopy(f) => CopyInKeeps(r, c, f);
    case PushSize(f) =>
      TestsAreExact(r, c);
      assert SizeIn(SizeIn(r, |f|), 0).sizes == r.sizes;
    case PushAdvance(f) =>
      var r0 := SizeIn(r, 0);
      PushCompletes(r0, c, f);
      assert SizeIn(r0, |f|).sizes == r.sizes;
  }

  lemma PopStmts(l: Local, r: RingState, c: seq<Frame>)
    requires Runs(l, r) && Midway(l, r, c)
    requires l.PopTest? || l.PopCopy? || l.PopSize? || l.PopClear? || l.PopAdvance?
    ensures StmtGood(l, r, c)
  {
    hide Rep;
    TestsWhenRep(r, c);
    match l
    case PopTest(_) =>
    case PopCopy => FrontIsOldest(r, c);
    case PopSize(buf) => FrontIsOldest(r, c);
    case PopClear(buf, n) =>
      FrontIsOldest(r, c);
      assert ClearFront(r).sizes[r.front := n] == r.sizes;
    case PopAdvance(buf, n) =>
      var r0 := r.(sizes := r.sizes[r.front := n]);
      HasShape(r0, c);
      RemoveCompletes(r0, c);
      assert ClearFront(r0).sizes == r.sizes;
      assert buf[..n] == buf;
  }

  lemma TestsWhenRep(r: RingState, c: seq<Frame>)
    ensures Rep(r, c) ==> Shape(r) && (IsEmpty(r) <==> c == []) && (IsFull(r) <==> |c| == Q_SIZE) && |c| <= Q_SIZE
  {
    if Rep(r, c) {
      TestsAreExact(r, c);
    }
  }

  lemma RemoveStmts(l: Local, r: RingState, c: seq<Frame>)
    requires Runs(l, r) && Midway(l, r, c)
    requires l.RemTest? || l.RemClear? || l.RemAdvance?
    ensures StmtGood(l, r, c)
  {
    hide Rep;
    TestsWhenRep(r, c);
    match l
    case RemTest =>
    case RemClear =>
      FrontIsOldest(r, c);
      assert ClearFront(r).sizes[r.front := |c[0]|] == r.sizes;
    case RemAdvance =>
      var r0 := r.(sizes := r.sizes[r.front := |c[0]|]);
      HasShape(r0, c);
      RemoveCompletes(r0, c);
      assert ClearFront(r0).sizes == r.sizes;
  }

  lemma PeekStmts(l: Local, r: RingState, c: seq<Frame>)
    requires Runs(l, r) && Midway(l, r, c)
    requires l.PeekTest? || l.PeekSize? || l.PeekCopy? || l.Unlock?
    ensures StmtGood(l, r, c)
  {
    hide Rep;
    TestsWhenRep(r, c);
    if l.PeekSize? || l.PeekCopy? {
      FrontIsOldest(r, c);
      BackIsNewest(r, c);
    }
  }

  /** A statement never uses up more promised wakeups than the frames it removes, unless the queue is empty. */
  lemma StmtWakes(l: Local, r: RingState, c: seq<Frame>)
    requires Runs(l, r) && (Critical(l) ==> Midway(l, r, c))
    ensures var o := Stmt(l, r);
            && Sleeper(l) == 0
            && (if o.next.Asleep? then c == [] && Left(l, o, c) == []
                else |Left(l, o, c)| + Rouser(l) + Pledge(l) <= |c| + Rouser(o.next) + Pledge(o.next))
  {
    hide Rep;
    TestsWhenRep(r, c);
  }

  // ---------------------------------------------------------------- each part is kept

  /** One thread moves to `l`, and the mutex changes hands as `l` says. */
  lemma MutexMoves(s: State, t: nat, l: Local, owner: Option<nat>, s': State)
    requires MutexInv(s) && ArgumentsInv(s) && t < |s.threads|
    requires s'.threads == s.threads[t := l] && s'.owner == owner
    requires l.PushLock? ==> Pushable(l.f)
    requires
      || (owner == s.owner && (Critical(l) <==> s.owner == Some(t)))
      || (owner == Some(t) && s.owner.None? && Critical(l))
      || (owner.None? && s.owner == Some(t) && !Critical(l))
    ensures MutexInv(s') && ArgumentsInv(s')
  {
  }

  lemma MutexKept(s: State, m: Move)
    requires MutexInv(s) && ArgumentsInv(s) && Enabled(s, m)
    ensures MutexInv(Apply(s, m)) && ArgumentsInv(Apply(s, m))
  {
    hide Stmt;
    var s' := Apply(s, m);
    var l := s.threads[m.t];
    if m.Execute? {
      StmtControl(l, s.ring);
      MutexMoves(s, m.t, s'.threads[m.t], s'.owner, s');
    } else if m.Signal? {
      var s1 := if m.woken.Some? then Goto(s, m.woken.value, Woken) else s;
      if m.woken.Some? {
        MutexMoves(s, m.woken.value, Woken, s.owner, s1);
      }
      MutexMoves(s1, m.t, s'.threads[m.t], s'.owner, s');
    } else {
      MutexMoves(s, m.t, s'.threads[m.t], s'.owner, s');
    }
  }

  /** One thread moves to `l`, adding at most one event of its own. */
  lemma PhaseMoves(s: State, t: nat, l: Local, e: Option<Event>, s': State)
    requires PhaseInv(s) && t < |s.threads|
    requires s'.threads == s.threads[t := l]
    requires s'.trace == if e.Some? then s.trace + [e.value] else s.trace
    requires e.None? ==> Expected(l) == Expected(s.threads[t])
    requires e.Some? ==> e.value.t == t
    requires e.Some? ==>
      match e.value
      case Invoke(_, op) => Expected(s.threads[t]) == Outside && Expected(l) == Pending(op)
      case Effect(_, op, res, _) => Expected(s.threads[t]) == Pending(op) && Expected(l) == Effective(op, res)
      case Return(_, res) =>
        Expected(s.threads[t]).Effective? && Expected(s.threads[t]).res == res && Expected(l) == Outside
    ensures PhaseInv(s')
  {
    if e.Some? {
      Snoc(s.trace, e.value);
    }
    forall u | 0 <= u < |s'.threads|
      ensures PhaseOf(s'.trace, u) == Expected(s'.threads[u])
    {
      assert PhaseOf(s.trace, u) == Expected(s.threads[u]);
    }
  }

  lemma ExecuteKeepsPhase(s: State, t: nat)
    requires PhaseInv(s) && Enabled(s, Execute(t))
    ensures PhaseInv(Apply(s, Execute(t)))
  {
    hide Stmt;
    var l := s.threads[t];
    var o := Stmt(l, s.ring);
    StmtControl(l, s.ring);
    var e := if o.effect.Some? then Some(Effect(t, OpOf(l), o.effect.value, s.owner == Some(t))) else None;
    PhaseMoves(s, t, o.next, e, Apply(s, Execute(t)));
  }

  lemma SignalKeepsPhase(s: State, t: nat, u: Option<nat>)
    requires PhaseInv(s) && Enabled(s, Signal(t, u))
    ensures PhaseInv(Apply(s, Signal(t, u)))
  {
    var l := s.threads[t];
    var s1 := if u.Some? then Goto(s, u.value, Woken) else s;
    if u.Some? {
      PhaseMoves(s, u.value, Woken, None, s1);
    }
    PhaseMoves(s1, t, Unlock(Push(l.f), Size(|l.f|)), None, Apply(s, Signal(t, u)));
  }

  lemma EventKeepsPhase(s: State, m: Move)
    requires PhaseInv(s) && Enabled(s, m) && (m.Begin? || m.WaitFails? || m.Leave?)
    ensures PhaseInv(Apply(s, m))
  {
    hide Stmt;
    var s' := Apply(s, m);
    match m
    case Begin(t, op) => PhaseMoves(s, t, Start(op), Some(Invoke(t, op)), s');
    case WaitFails(t) =>
      PhaseMoves(s, t, Unlock(Pop, WaitFailed), Some(Effect(t, Pop, WaitFailed, true)), s');
    case Leave(t) => PhaseMoves(s, t, Idle, Some(Return(t, s.threads[t].res)), s');
  }

  lemma PhaseKept(s: State, m: Move)
    requires PhaseInv(s) && Enabled(s, m)
    ensures PhaseInv(Apply(s, m))
  {
    hide Stmt;
    match m
    case Execute(t) => ExecuteKeepsPhase(s, t);
    case Signal(t, u) => SignalKeepsPhase(s, t, u);
    case Acquire(t) => PhaseMoves(s, t, Locked(s.threads[t]), None, Apply(s, m));
    case Wake(t) => PhaseMoves(s, t, Woken, None, Apply(s, m));
    case _ => EventKeepsPhase(s, m);
  }

  lemma ExecuteKeepsRing(s: State, t: nat)
    requires Inv(s) && Enabled(s, Execute(t))
    ensures RingInv(Apply(s, Execute(t)))
    ensures Legal(Apply(s, Execute(t)).trace)
    ensures Contents(Apply(s, Execute(t)).trace) == Left(s.threads[t], Stmt(s.threads[t], s.ring), Contents(s.trace))
  {
    hide Stmt, Midway, Rep;
    var s' := Apply(s, Execute(t));
    var l := s.threads[t];
    var c := Contents(s.trace);
    if |s'.trace| > |s.trace| {
      Snoc(s.trace, s'.trace[|s.trace|]);
    }
    if !Critical(l) {
      CheckStmt(l, s.ring, c);
    } else if l.PushTest? || l.PushCopy? || l.PushSize? || l.PushAdvance? {
      PushStmts(l, s.ring, c);
    } else if l.PopTest? || l.PopCopy? || l.PopSize? || l.PopClear? || l.PopAdvance? {
      PopStmts(l, s.ring, c);
    } else if l.RemTest? || l.RemClear? || l.RemAdvance? {
      RemoveStmts(l, s.ring, c);
    } else {
      PeekStmts(l, s.ring, c);
    }
  }

  predicate Rests(l: Local) {
    l.PushTest? || l.PushSignal? || l.PopTest? || l.RemTest? || l.PeekTest? || l.Unlock?
  }

  /** At the first test, at the signal and at the unlock the ring is whole. */
  lemma Resting(l: Local, r: RingState, c: seq<Frame>)
    requires Rep(r, c) && Rests(l) && (l.PushTest? ==> Pushable(l.f))
    ensures Midway(l, r, c)
  {
  }

  lemma AtRest(l: Local, r: RingState, c: seq<Frame>)
    requires Midway(l, r, c) && Rests(l)
    ensures Rep(r, c)
  {
  }

  /** One thread moves to `l` without touching the ring or the abstract queue. */
  lemma RingMoves(s: State, t: nat, l: Local, s': State)
    requires MutexInv(s) && RingInv(s) && t < |s.threads|
    requires s'.threads == s.threads[t := l] && s'.ring == s.ring
    requires Contents(s'.trace) == Contents(s.trace)
    requires
      || (s'.owner == s.owner && s.owner != Some(t))
      || (s'.owner == s.owner == Some(t) && Rests(s.threads[t]) && l.Unlock?)
      || (s'.owner == Some(t) && s.owner.None? && Rests(l) && (l.PushTest? ==> Pushable(l.f)))
    ensures RingInv(s')
  {
    hide Rep, Midway;
    if s'.owner == Some(t) {
      if s.owner.Some? {
        AtRest(s.threads[t], s.ring, Contents(s.trace));
      }
      Resting(l, s.ring, Contents(s.trace));
    }
  }

  /** What a move adds to the trace. */
  function EventOf(s: State, m: Move): Option<Event>
    requires Enabled(s, m)
  {
    match m
    case Begin(t, op) => Some(Invoke(t, op))
    case Execute(t) =>
      var o := Stmt(s.threads[t], s.ring);
      if o.effect.Some? then Some(Effect(t, OpOf(s.threads[t]), o.effect.value, s.owner == Some(t))) else None
    case WaitFails(t) => Some(Effect(t, Pop, WaitFailed, true))
    case Leave(t) => Some(Return(t, s.threads[t].res))
    case _ => None
  }

  lemma TraceAfter(s: State, m: Move)
    requires Enabled(s, m)
    ensures var e := EventOf(s, m);
            && Apply(s, m).trace == (if e.Some? then s.trace + [e.value] else s.trace)
            && (e.Some? ==> e.value.t == m.t)
            && |Apply(s, m).threads| == |s.threads|
  {
    hide Stmt;
  }

  /** An event that is no effect, or only that of a failed wait, leaves the abstract queue alone. */
  lemma QuietEvent(trace: seq<Event>, e: Event)
    requires Legal(trace)
    requires e.Effect? ==> e.op == Pop && e.res == WaitFailed && e.locked
    ensures Legal(trace + [e]) && Contents(trace + [e]) == Contents(trace)
  {
    Snoc(trace, e);
  }

  /** The steps that leave the ring alone are legal, and the abstract queue stays. */
  lemma TraceKept(s: State, m: Move)
    requires Legal(s.trace) && Enabled(s, m) && !m.Execute?
    ensures Legal(Apply(s, m).trace)
    ensures Contents(Apply(s, m).trace) == Contents(s.trace)
  {
    hide Apply, Stmt, Legal, Contents;
    TraceAfter(s, m);
    var e := EventOf(s, m);
    if e.Some? {
      QuietEvent(s.trace, e.value);
    }
  }

  /** A step other than a statement or a signal moves one thread, and at most takes the mutex at rest. */
  lemma StepShape(s: State, m: Move)
    requires MutexInv(s) && ArgumentsInv(s) && Enabled(s, m) && !m.Execute? && !m.Signal?
    ensures var s', l := Apply(s, m), Apply(s, m).threads[m.t];
            && s'.threads == s.threads[m.t := l] && s'.ring == s.ring
            && (|| (s'.owner == s.owner && s.owner != Some(m.t))
                || (s'.owner == s.owner == Some(m.t) && Rests(s.threads[m.t]) && l.Unlock?)
                || (s'.owner == Some(m.t) && s.owner.None? && Rests(l) && (l.PushTest? ==> Pushable(l.f))))
  {
    hide Stmt, Shape;
  }

  lemma RingKept(s: State, m: Move)
    requires MutexInv(s) && ArgumentsInv(s) && RingInv(s) && Legal(s.trace)
    requires Enabled(s, m) && !m.Execute?
    ensures RingInv(Apply(s, m))
    ensures Legal(Apply(s, m).trace)
    ensures Contents(Apply(s, m).trace) == Contents(s.trace)
  {
    hide Apply, Stmt, Rep, Midway, Legal, Contents, RingInv;
    TraceKept(s, m);
    if m.Signal? {
      SignalKeepsRing(s, m.t, m.woken);
    } else {
      StepShape(s, m);
      RingMoves(s, m.t, Apply(s, m).threads[m.t], Apply(s, m));
    }
  }

  lemma SignalKeepsRing(s: State, t: nat, u: Option<nat>)
    requires MutexInv(s) && ArgumentsInv(s) && RingInv(s) && Enabled(s, Signal(t, u))
    ensures RingInv(Apply(s, Signal(t, u)))
  {
    hide Stmt, Rep, Midway;
    var l := s.threads[t];
    var s1 := if u.Some? then Goto(s, u.value, Woken) else s;
    if u.Some? {
      RingMoves(s, u.value, Woken, s1);
      MutexMoves(s, u.value, Woken, s.owner, s1);
    }
    RingMoves(s1, t, Unlock(Push(l.f), Size(|l.f|)), Apply(s, Signal(t, u)));
  }

  /** One thread moves to `l`, and the queue changes from `c` to `c'`. */
  lemma WakeMoves(s: State, t: nat, l: Local, s': State)
    requires WakeInv(s) && t < |s.threads| && s'.threads == s.threads[t := l]
    requires
      var c, c' := Contents(s.trace), Contents(s'.trace);
      || c' == []
      || (Sleeper(l) <= Sleeper(s.threads[t])
          && |c'| + Rouser(s.threads[t]) + Pledge(s.threads[t]) <= |c| + Rouser(l) + Pledge(l))
    ensures WakeInv(s')
  {
    Recount(s.threads, t, l);
  }

  lemma ExecuteKeepsWake(s: State, t: nat)
    requires Inv(s) && Enabled(s, Execute(t))
    ensures WakeInv(Apply(s, Execute(t)))
  {
    hide Stmt, Midway, Rep;
    var l := s.threads[t];
    ExecuteKeepsRing(s, t);
    StmtWakes(l, s.ring, Contents(s.trace));
    WakeMoves(s, t, Stmt(l, s.ring).next, Apply(s, Execute(t)));
  }

  lemma WakeKept(s: State, m: Move)
    requires Inv(s) && Enabled(s, m) && !m.Signal? && !m.Execute?
    ensures WakeInv(Apply(s, m))
  {
    hide Stmt, Rep, Midway, Legal, PhaseOf, Contents, Fifo;
    RingKept(s, m);
    if m.WaitFails? {
      AtRest(s.threads[m.t], s.ring, Contents(s.trace));
      TestsAreExact(s.ring, Contents(s.trace));
    }
    WakeMoves(s, m.t, Apply(s, m).threads[m.t], Apply(s, m));
  }

  lemma SignalKeepsWake(s: State, t: nat, u: Option<nat>)
    requires Inv(s) && Enabled(s, Signal(t, u))
    ensures WakeInv(Apply(s, Signal(t, u)))
  {
    var l := s.threads[t];
    var ls := if u.Some? then s.threads[u.value := Woken] else s.threads;
    if u.Some? {
      Recount(s.threads, u.value, Woken);
      TotalPositive(s.threads, u.value, Sleeper);
    } else {
      TotalZero(s.threads, Sleeper);
    }
    Recount(ls, t, Unlock(Push(l.f), Size(|l.f|)));
  }

  lemma InvKept(s: State, m: Move)
    requires Inv(s) && Enabled(s, m)
    ensures Inv(Apply(s, m))
  {
    hide Stmt, Rep, Midway;
    MutexKept(s, m);
    PhaseKept(s, m);
    if m.Execute? {
      ExecuteKeepsRing(s, m.t);
      ExecuteKeepsWake(s, m.t);
    } else {
      RingKept(s, m);
      if m.Signal? {
        SignalKeepsWake(s, m.t, m.woken);
      } else {
        WakeKept(s, m);
      }
    }
  }

  // ---------------------------------------------------------------- every run

  function Empties(n: nat): (r: RingState)
    requires n == Q_SIZE
    ensures Rep(r, [])
  {
    RingState(seq(n, _ => seq(MAX_PKG_SIZE, _ => 0)), seq(n, _ => 0), 0, 0)
  }

  /** `init`, before any of `n` threads has called the queue. */
  function Init(n: nat): (s: State) {
    State(Empties(Q_SIZE), None, seq(n, _ => Idle), [])
  }

  ghost predicate Reaches(s: State, ms: seq<Move>, s': State)
    decreases |ms|
  {
    if ms == [] then s == s'
    else Enabled(s, ms[0]) && Reaches(Apply(s, ms[0]), ms[1..], s')
  }

  lemma InitInv(n: nat)
    ensures Inv(Init(n))
  {
    TotalZero(Init(n).threads, Sleeper);
  }

  lemma {:induction false} InvAlways(s: State, ms: seq<Move>, s': State)
    requires Inv(s) && Reaches(s, ms, s')
    ensures Inv(s')
    decreases |ms|
  {
    if ms == [] {
    } else {
      InvKept(s, ms[0]);
      InvAlways(Apply(s, ms[0]), ms[1..], s');
    }
  }

  /**
   Linearizability. In every reachable state of every interleaving, each thread's
   events read Invoke, Effect, Return in turn with one operation and one result, the
   effects in trace order are a run of the bounded FIFO, each under the mutex, and a
   free mutex means that the ring holds exactly what that run leaves.
   */
  lemma Linearizable(n: nat, ms: seq<Move>, s: State)
    requires Reaches(Init(n), ms, s)
    ensures Legal(s.trace)
    ensures forall t :: 0 <= t < |s.threads| ==> !PhaseOf(s.trace, t).Broken?
    ensures s.owner.None? ==> Rep(s.ring, Contents(s.trace))
    ensures Accepted(s.trace) == Removed(s.trace) + Contents(s.trace)
  {
    InitInv(n);
    InvAlways(Init(n), ms, s);
    AcceptedIsRemovedThenContents(s.trace);
    forall t | 0 <= t < |s.threads|
      ensures !PhaseOf(s.trace, t).Broken?
    {
      assert PhaseOf(s.trace, t) == Expected(s.threads[t]);
    }
  }

  /** The owner of the mutex always has a next statement: it is never stuck, and never copies out of range. */
  lemma OwnerNeverStuck(n: nat, ms: seq<Move>, s: State, t: nat)
    requires Reaches(Init(n), ms, s) && s.owner == Some(t)
    ensures exists m: Move :: m.t == t && Enabled(s, m)
  {
    hide Inv;
    InitInv(n);
    InvAlways(Init(n), ms, s);
    var m := OwnerMoves(s, t);
  }

  /** Its statement, or its signal. */
  lemma OwnerMoves(s: State, t: nat) returns (m: Move)
    requires Inv(s) && s.owner == Some(t)
    ensures m.t == t && (m.Execute? || m.Signal?) && Enabled(s, m)
  {
    hide Rep, Stmt, Midway, Legal, PhaseInv, WakeInv, ArgumentsInv, Shape;
    OwnerHasShape(s, t);
    assert Critical(s.threads[t]);
    if s.threads[t].PushSignal? {
      if v :| 0 <= v < |s.threads| && s.threads[v].Asleep? {
        m := Signal(t, Some(v));
      } else {
        m := Signal(t, None);
      }
    } else {
      m := Execute(t);
    }
  }

  lemma OwnerHasShape(s: State, t: nat)
    requires RingInv(s) && s.owner == Some(t)
    ensures t < |s.threads| && Shape(s.ring)
    ensures s.threads[t].PushCopy? ==> Pushable(s.threads[t].f)
  {
  }

  /** A thread that returns from `pop` with a frame got the frame its effect took from the queue. */
  lemma ReturnsWhatItTook(n: nat, ms: seq<Move>, s: State, t: nat)
    requires Reaches(Init(n), ms, s) && t < |s.threads| && s.threads[t].Returning?
    ensures PhaseOf(s.trace, t) == Effective(s.threads[t].op, s.threads[t].res)
  {
    InitInv(n);
    InvAlways(Init(n), ms, s);
  }

  /**
   No lost wakeup. While a consumer sleeps and the mutex is free, the queued frames
   are no more than the woken consumers that have not tested again; so a sleeper
   beside a nonempty queue is never alone.
   */
  lemma NoLostWakeup(n: nat, ms: seq<Move>, s: State, sleeper: nat)
    requires Reaches(Init(n), ms, s)
    requires sleeper < |s.threads| && s.threads[sleeper].Asleep?
    requires s.owner.None?
    ensures |Contents(s.trace)| <= Total(s.threads, Rouser)
    ensures Contents(s.trace) != [] ==>
              exists u :: 0 <= u < |s.threads| && s.threads[u].Woken? && Enabled(s, Acquire(u))
  {
    InitInv(n);
    InvAlways(Init(n), ms, s);
    WokenAreEnough(s, sleeper);
    if Contents(s.trace) != [] {
      var u := SomebodyWakes(s, sleeper);
    }
  }

  lemma WokenAreEnough(s: State, sleeper: nat)
    requires Inv(s) && s.owner.None? && sleeper < |s.threads| && s.threads[sleeper].Asleep?
    ensures |Contents(s.trace)| <= Total(s.threads, Rouser)
  {
    hide Rep, Contents, Legal, PhaseInv;
    TotalPositive(s.threads, sleeper, Sleeper);
    TotalZero(s.threads, Pledge);
  }

  lemma SomebodyWakes(s: State, sleeper: nat) returns (u: nat)
    requires Inv(s) && s.owner.None? && sleeper < |s.threads| && s.threads[sleeper].Asleep?
    requires Contents(s.trace) != []
    ensures u < |s.threads| && s.threads[u].Woken? && Enabled(s, Acquire(u))
  {
    hide Rep, Contents, Legal, PhaseInv;
    WokenAreEnough(s, sleeper);
    u := TotalWitness(s.threads, Rouser);
  }

  /** Mutual exclusion: two threads are never both between lock and unlock. */
  lemma MutualExclusion(n: nat, ms: seq<Move>, s: State, t: nat, u: nat)
    requires Reaches(Init(n), ms, s)
    requires t < |s.threads| && u < |s.threads| && Critical(s.threads[t]) && Critical(s.threads[u])
    ensures t == u
  {
    InitInv(n);
    InvAlways(Init(n), ms, s);
  }

  // ---------------------------------------------------------------- the queue as its callers see it

  /** The phase in which a move leaves its thread. */
  function PhaseAfter(p: Phase, e: Option<Event>): Phase {
    match e
    case None => p
    case Some(Invoke(_, op)) => Pending(op)
    case Some(Effect(_, op, res, _)) => Effective(op, res)
    case Some(Return(_, _)) => Outside
  }

  /** A popping statement takes effect with a frame; only a failing wait takes effect without one. */
  lemma PopReads(l: Local, r: RingState)
    requires Runs(l, r)
    ensures OpOf(l).Pop? && Stmt(l, r).effect.Some? ==> Stmt(l, r).effect.value.Read?
  {
  }

  /** A move changes the phase of its own thread only, and the queue only when it takes effect. */
  lemma MovesSeenFromOutside(s: State, m: Move)
    requires Inv(s) && Enabled(s, m)
    ensures Inv(Apply(s, m)) && |Apply(s, m).threads| == |s.threads|
    ensures forall u :: 0 <= u < |s.threads| ==>
              Expected(Apply(s, m).threads[u])
              == if u == m.t then PhaseAfter(Expected(s.threads[u]), EventOf(s, m)) else Expected(s.threads[u])
    ensures var e, c, c' := EventOf(s, m), Contents(s.trace), Contents(Apply(s, m).trace);
            if e.Some? && e.value.Effect? then
              && Fifo(c, e.value.op, e.value.res, c')
              && Expected(s.threads[m.t]) == Pending(e.value.op)
              && (e.value.op.Pop? ==> if m.WaitFails? then e.value.res == WaitFailed && c == [] else e.value.res.Read?)
            else c' == c
  {
    var s' := Apply(s, m);
    InvKept(s, m);
    TraceAfter(s, m);
    EffectIsPending(s, m);
    hide Apply, Stmt, Rep, Midway;
    forall u | 0 <= u < |s.threads|
      ensures Expected(s'.threads[u])
              == if u == m.t then PhaseAfter(Expected(s.threads[u]), EventOf(s, m)) else Expected(s.threads[u])
    {
      assert PhaseOf(s.trace, u) == Expected(s.threads[u]) && PhaseOf(s'.trace, u) == Expected(s'.threads[u]);
      PhaseSnoc(s.trace, EventOf(s, m), u);
      NeverBroken(s'.threads[u]);
    }
    if EventOf(s, m).Some? {
      Snoc(s.trace, EventOf(s, m).value);
    }
  }

  lemma NeverBroken(l: Local)
    ensures !Expected(l).Broken?
  {
  }

  lemma PhaseSnoc(trace: seq<Event>, e: Option<Event>, u: nat)
    ensures var p := PhaseOf(if e.Some? then trace + [e.value] else trace, u);
            p.Broken? || p == if e.Some? && e.value.t == u then PhaseAfter(PhaseOf(trace, u), e) else PhaseOf(trace, u)
  {
    if e.Some? {
      Snoc(trace, e.value);
    }
  }

  lemma EffectIsPending(s: State, m: Move)
    requires Inv(s) && Enabled(s, m)
    ensures var e := EventOf(s, m);
            e.Some? && e.value.Effect? ==>
              && Expected(s.threads[m.t]) == Pending(e.value.op)
              && (e.value.op.Pop? ==>
                    if m.WaitFails? then e.value.res == WaitFailed && Contents(s.trace) == [] else e.value.res.Read?)
  {
    if m.Execute? {
      StmtControl(s.threads[m.t], s.ring);
      PopReads(s.threads[m.t], s.ring);
    } else if m.WaitFails? {
      TestsAreExact(s.ring, Contents(s.trace));
    }
  }
}

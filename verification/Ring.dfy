/**
 The bounded ring buffer of queue/queue.c, without its locks.

 The C structure keeps no element count: a slot is occupied exactly when its
 `sizes` entry is nonzero, so `front == rear` means either full or empty.
 `Rep` relates a ring to the sequence of frames it holds.
 */
module Ring {
  import opened Bytes

  const Q_SIZE: nat := 1000
  const MAX_PKG_SIZE: nat := FRAME_BUFFER

  // ---------------------------------------------------------------- the bounded FIFO

  /** What `push` answers and leaves behind, on the abstract queue. */
  function PushSpec(c: seq<Frame>, f: Frame): (r: (seq<Frame>, int)) {
    if |f| > MAX_PKG_SIZE then (c, -1)
    else if |f| == 0 || |c| >= Q_SIZE then (c, 0)
    else (c + [f], |f|)
  }

  /** The sequential operations on the queue. */
  datatype Op = Push(f: Frame) | Pop | RemoveFront | Front | Back

  /** What an operation reports: a frame read, a number, nothing, or a failed wait. */
  datatype Res = Read(frame: Frame) | Size(n: int) | Done | Empty | WaitFailed

  /** The bounded FIFO as a relation; `pop` has no result on an empty queue unless its wait fails. */
  ghost predicate Fifo(c: seq<Frame>, op: Op, res: Res, c': seq<Frame>) {
    match op
    case Push(f) => c' == PushSpec(c, f).0 && res == Size(PushSpec(c, f).1)
    case Pop =>
      || (c != [] && res == Read(c[0]) && c' == c[1..])
      || (res == WaitFailed && c' == c)
    case RemoveFront => res == Done && c' == if c == [] then [] else c[1..]
    case Front => c' == c && res == if c == [] then Empty else Read(c[0])
    case Back => c' == c && res == if c == [] then Empty else Read(c[|c| - 1])
  }

  /**
   In the bounded FIFO frames come out in the order in which they went in; only `pop` and
   `remove_front` take frames out, and at most 1000 frames of 1 to 1522 bytes are in it.
   */
  lemma FifoLaws(c: seq<Frame>, op: Op, res: Res, c': seq<Frame>)
    requires Fifo(c, op, res, c')
    ensures c' != c ==>
              || (c != [] && c' == c[1..])
              || exists f: Frame :: op == Push(f) && 1 <= |f| <= 1522 && |c| < 1000 && c' == c + [f]
    ensures op.Push? ==> (c' == c + [op.f] <==> res == Size(|op.f|) && |op.f| > 0)
    ensures op.Push? ==> (c' == c <==> res in {Size(0), Size(-1)})
    ensures op.Push? && 1 <= |op.f| <= 1522 && |c| < 1000 ==> c' == c + [op.f]
    ensures op.Push? ==> (res == Size(-1) <==> |op.f| > 1522)
    ensures c != [] && (op.Pop? || op.Front?) && res != WaitFailed ==> res == Read(c[0])
    ensures c != [] && op.Back? ==> res == Read(c[|c| - 1])
    ensures op.Pop? && (c == [] || res == WaitFailed) ==> res == WaitFailed && c' == c
    ensures c != [] && (op.Pop? || op.RemoveFront?) && res != WaitFailed ==> c' == c[1..]
    ensures c == [] && (op.Front? || op.Back?) ==> res == Empty
  {
    if op.Push? {
      assert |c + [op.f]| == |c| + 1;
    }
  }

  // ---------------------------------------------------------------- the ring as a value

  datatype RingState = RingState(slots: seq<Frame>, sizes: seq<nat>, front: nat, rear: nat)

  predicate Shape(r: RingState) {
    && |r.slots| == |r.sizes| == Q_SIZE
    && r.front < Q_SIZE && r.rear < Q_SIZE
    && (forall i :: 0 <= i < Q_SIZE ==> |r.slots[i]| == MAX_PKG_SIZE)
    && (forall i :: 0 <= i < Q_SIZE ==> r.sizes[i] <= MAX_PKG_SIZE)
  }

  /** `next`: the index after `i`. */
  function Next(i: nat): (n: nat)
    requires i < Q_SIZE
    ensures n < Q_SIZE
  {
    if i == Q_SIZE - 1 then 0 else i + 1
  }

  /** The index before `i`, as `back` computes it. */
  function Prev(i: nat): (p: nat)
    requires i < Q_SIZE
    ensures p < Q_SIZE && Next(p) == i
  {
    if i == 0 then Q_SIZE - 1 else i - 1
  }

  /** The slot `k` places after `front`. */
  function Slot(front: nat, k: nat): (i: nat)
    requires front < Q_SIZE && k <= Q_SIZE
    ensures i < Q_SIZE
  {
    if front + k < Q_SIZE then front + k else front + k - Q_SIZE
  }

  /** The frame stored in slot `i`. */
  function Stored(r: RingState, i: nat): (f: Frame)
    requires Shape(r) && i < Q_SIZE
    ensures |f| == r.sizes[i]
  {
    r.slots[i][..r.sizes[i]]
  }

  /** `r` holds exactly the frames `c`, oldest first, and every other slot has size zero. */
  ghost predicate Rep(r: RingState, c: seq<Frame>) {
    && Shape(r)
    && |c| <= Q_SIZE
    && r.rear == Slot(r.front, |c|)
    && (forall k :: 0 <= k < |c| ==> c[k] == Stored(r, Slot(r.front, k)) && |c[k]| > 0)
    && (forall k :: |c| <= k < Q_SIZE ==> r.sizes[Slot(r.front, k)] == 0)
  }

  predicate IsEmpty(r: RingState)
    requires Shape(r)
  {
    r.sizes[r.front] == 0
  }

  predicate IsFull(r: RingState)
    requires Shape(r)
  {
    r.sizes[r.rear] != 0
  }

  /** Every slot is reached from `front`, and by one offset only. */
  lemma SlotOf(front: nat, i: nat) returns (k: nat)
    requires front < Q_SIZE && i < Q_SIZE
    ensures k < Q_SIZE && Slot(front, k) == i
    ensures forall m :: 0 <= m < Q_SIZE && Slot(front, m) == i ==> m == k
  {
    k := if front <= i then i - front else i + Q_SIZE - front;
  }

  /** The two tests are exact although no count is kept. */
  lemma TestsAreExact(r: RingState, c: seq<Frame>)
    requires Rep(r, c)
    ensures IsEmpty(r) <==> |c| == 0
    ensures IsFull(r) <==> |c| == Q_SIZE
  {
    assert Slot(r.front, 0) == r.front;
    if |c| == Q_SIZE {
      assert Slot(r.front, Q_SIZE) == r.front;
      assert c[0] == Stored(r, Slot(r.front, 0));
    } else {
      assert r.sizes[Slot(r.front, |c|)] == 0;
    }
    if |c| > 0 {
      assert c[0] == Stored(r, Slot(r.front, 0));
    }
  }

  /** `sizes` is nonzero exactly on the cyclic interval that holds the contents. */
  lemma OccupiedSlots(r: RingState, c: seq<Frame>, i: nat)
    requires Rep(r, c) && i < Q_SIZE
    ensures r.sizes[i] != 0 <==> exists k :: 0 <= k < |c| && Slot(r.front, k) == i
  {
    var k := SlotOf(r.front, i);
    if k < |c| {
      assert c[k] == Stored(r, Slot(r.front, k));
    } else {
      assert r.sizes[Slot(r.front, k)] == 0;
    }
  }

  lemma SameCount(r: RingState, c: seq<Frame>, d: seq<Frame>)
    requires Rep(r, c) && Rep(r, d)
    ensures |d| <= |c|
  {
    if |c| < Q_SIZE {
      assert r.sizes[Slot(r.front, |c|)] == 0;
    }
  }

  /** A ring holds one sequence only: the sizes determine the count. */
  lemma ContentsAreUnique(r: RingState, c: seq<Frame>, d: seq<Frame>)
    requires Rep(r, c) && Rep(r, d)
    ensures c == d
  {
    SameCount(r, c, d);
    SameCount(r, d, c);
    forall k | 0 <= k < |c|
      ensures c[k] == d[k]
    {
      assert c[k] == Stored(r, Slot(r.front, k));
      assert d[k] == Stored(r, Slot(r.front, k));
    }
  }

  lemma HasShape(r: RingState, c: seq<Frame>)
    requires Rep(r, c)
    ensures Shape(r) && |c| <= Q_SIZE
  {
  }

  lemma FrontIsOldest(r: RingState, c: seq<Frame>)
    requires Rep(r, c) && c != []
    ensures Stored(r, r.front) == c[0]
  {
    assert c[0] == Stored(r, Slot(r.front, 0));
  }

  /** `back` reads the slot before `rear`, and that is the newest frame. */
  lemma BackIsNewest(r: RingState, c: seq<Frame>)
    requires Rep(r, c) && c != []
    ensures Stored(r, Prev(r.rear)) == c[|c| - 1]
  {
    assert Prev(r.rear) == Slot(r.front, |c| - 1);
    assert c[|c| - 1] == Stored(r, Slot(r.front, |c| - 1));
  }

  // ---------------------------------------------------------------- the three writes

  /** `memcpy` into the rear slot. */
  function CopyIn(r: RingState, f: Frame): RingState
    requires Shape(r) && |f| <= MAX_PKG_SIZE
  {
    r.(slots := r.slots[r.rear := Overlay(r.slots[r.rear], f)])
  }

  function SizeIn(r: RingState, n: nat): RingState
    requires Shape(r)
  {
    r.(sizes := r.sizes[r.rear := n])
  }

  function AdvanceRear(r: RingState): RingState
    requires Shape(r)
  {
    r.(rear := Next(r.rear))
  }

  function ClearFront(r: RingState): RingState
    requires Shape(r)
  {
    r.(sizes := r.sizes[r.front := 0])
  }

  function AdvanceFront(r: RingState): RingState
    requires Shape(r)
  {
    r.(front := Next(r.front))
  }

  /** Between `memcpy` and the size write of a push the ring still holds `c`. */
  lemma CopyInKeeps(r: RingState, c: seq<Frame>, f: Frame)
    requires Rep(r, c) && |c| < Q_SIZE && |f| <= MAX_PKG_SIZE
    ensures Rep(CopyIn(r, f), c)
    ensures CopyIn(r, f).slots[r.rear][..|f|] == f
  {
    var r' := CopyIn(r, f);
    forall k | 0 <= k < |c|
      ensures c[k] == Stored(r', Slot(r'.front, k))
    {
      assert c[k] == Stored(r, Slot(r.front, k));
      assert Slot(r.front, k) != r.rear;
    }
  }

  /** The size write and the advance of a push complete it. */
  lemma PushCompletes(r: RingState, c: seq<Frame>, f: Frame)
    requires Rep(r, c) && |c| < Q_SIZE && 0 < |f| <= MAX_PKG_SIZE
    requires r.slots[r.rear][..|f|] == f
    ensures Shape(SizeIn(r, |f|))
    ensures Rep(AdvanceRear(SizeIn(r, |f|)), c + [f])
  {
    var s := SizeIn(r, |f|);
    var r' := AdvanceRear(s);
    var d := c + [f];
    forall k | 0 <= k < |d|
      ensures d[k] == Stored(r', Slot(r'.front, k)) && |d[k]| > 0
    {
      if k < |c| {
        assert c[k] == Stored(r, Slot(r.front, k));
        assert Slot(r.front, k) != r.rear;
      }
    }
    forall k | |d| <= k < Q_SIZE
      ensures r'.sizes[Slot(r'.front, k)] == 0
    {
      assert r.sizes[Slot(r.front, k)] == 0;
      assert Slot(r.front, k) != r.rear;
    }
  }

  /** Clearing the front size and advancing removes the oldest frame. */
  lemma RemoveCompletes(r: RingState, c: seq<Frame>)
    requires Rep(r, c) && c != []
    ensures Shape(ClearFront(r))
    ensures Rep(AdvanceFront(ClearFront(r)), c[1..])
  {
    var r' := AdvanceFront(ClearFront(r));
    var d := c[1..];
    assert Slot(r.front, 0) == r.front;
    forall k | 0 <= k < |d|
      ensures d[k] == Stored(r', Slot(r'.front, k)) && |d[k]| > 0
    {
      assert c[k + 1] == Stored(r, Slot(r.front, k + 1));
      assert Slot(r'.front, k) == Slot(r.front, k + 1) != r.front;
    }
    forall k | |d| <= k < Q_SIZE
      ensures r'.sizes[Slot(r'.front, k)] == 0
    {
      if k + 1 < Q_SIZE {
        assert r.sizes[Slot(r.front, k + 1)] == 0;
        assert Slot(r'.front, k) == Slot(r.front, k + 1);
      } else {
        assert Slot(r'.front, k) == r.front;
      }
    }
  }

  lemma CopiedIn(r: RingState, r': RingState, f: Frame)
    requires Shape(r) && |f| <= MAX_PKG_SIZE
    requires r' == r.(slots := r.slots[r.rear := Overlay(r.slots[r.rear], f)])
    ensures r' == CopyIn(r, f)
  {
  }

  lemma Advanced(r: RingState, r': RingState, n: nat)
    requires Shape(r) && n <= MAX_PKG_SIZE
    requires r' == r.(sizes := r.sizes[r.rear := n], rear := Next(r.rear))
    ensures Shape(SizeIn(r, n)) && r' == AdvanceRear(SizeIn(r, n))
  {
  }

  // ---------------------------------------------------------------- the object

  /**
   `Queue_t`, updated in place. `Contents` is the abstract queue; `accepted` and
   `removed` record its whole life.
   */
  class RingQueue {
    var slots: array<Frame>
    var sizes: array<nat>
    var front: nat
    var rear: nat
    ghost var Contents: seq<Frame>
    ghost var accepted: seq<Frame>
    ghost var removed: seq<Frame>

    ghost function Snapshot(): RingState
      reads this, slots, sizes
    {
      RingState(slots[..], sizes[..], front, rear)
    }

    /** The objects whose fields belong to this queue. */
    ghost function Repr(): set<object>
      reads this
    {
      {this, slots, sizes}
    }

    ghost predicate Valid()
      reads this, slots, sizes
    {
      && Rep(Snapshot(), Contents)
      && accepted == removed + Contents
    }

    constructor ()
      ensures Valid() && fresh(Repr())
      ensures Contents == [] && accepted == [] && removed == []
    {
      front, rear := 0, 0;
      sizes := new nat[Q_SIZE](_ => 0);
      var blank := seq(MAX_PKG_SIZE, _ => 0);
      slots := new Frame[Q_SIZE](_ => blank);
      Contents, accepted, removed := [], [], [];
    }

    method Push(f: Frame) returns (r: int)
      requires Valid()
      modifies this, slots, sizes
      ensures Valid() && Repr() == old(Repr())
      ensures (Contents, r) == PushSpec(old(Contents), f)
      ensures r == if |f| > 1522 then -1 else if |f| == 0 || |old(Contents)| >= 1000 then 0 else |f|
      ensures Contents == if r > 0 then old(Contents) + [f] else old(Contents)
      ensures accepted == if r > 0 then old(accepted) + [f] else old(accepted)
      ensures removed == old(removed)
    {
      hide Rep, CopyIn, SizeIn, AdvanceRear, Overlay, Stored, Slot;
      if |f| > MAX_PKG_SIZE {
        return -1;
      }
      if |f| == 0 {
        return 0;
      }
      ghost var r0 := Snapshot();
      HasShape(r0, Contents);
      TestsAreExact(r0, Contents);
      if sizes[rear] != 0 {
        return 0;
      }
      CopyInKeeps(r0, Contents, f);
      slots[rear] := Overlay(slots[rear], f);
      ghost var r1 := Snapshot();
      CopiedIn(r0, r1, f);
      PushCompletes(r1, Contents, f);
      sizes[rear] := |f|;
      rear := if rear == Q_SIZE - 1 then 0 else rear + 1;
      Advanced(r1, Snapshot(), |f|);
      Contents, accepted := Contents + [f], accepted + [f];
      r := |f|;
    }

    /** The empty test of `pop` reads inside the array and is exact. */
    lemma EmptyTest()
      requires Valid()
      ensures front < sizes.Length && (sizes[front] == 0 <==> Contents == [])
    {
      TestsAreExact(Snapshot(), Contents);
    }

    /** The part of `pop` after its wait loop. */
    method Take() returns (f: Frame)
      requires Valid() && Contents != []
      modifies this, sizes
      ensures Valid() && Repr() == old(Repr())
      ensures f == old(Contents)[0] && Contents == old(Contents)[1..]
      ensures removed == old(removed) + [f] && accepted == old(accepted)
    {
      hide Rep;
      ghost var r0 := Snapshot();
      ghost var c := Contents;
      HasShape(r0, c);
      FrontIsOldest(r0, c);
      RemoveCompletes(r0, c);
      f := slots[front][..sizes[front]];
      sizes[front] := 0;
      front := if front == Q_SIZE - 1 then 0 else front + 1;
      assert Snapshot() == AdvanceFront(ClearFront(r0));
      removed, Contents := removed + [f], Contents[1..];
    }

    /**
     `pop`. Each wait releases the mutex: `waits[i]` lists what other threads do to the
     queue before this one wakes for the `i`-th time, the empty list being a spurious
     wakeup, and a wait past the end of `waits` fails. The frame is the oldest one at the
     first wakeup that finds any; without one the call fails.
     */
    method Pop(waits: seq<seq<Op>>) returns (res: Res)
      requires Valid()
      modifies this, slots, sizes
      ensures Valid() && Repr() == old(Repr())
      ensures res == WaitFailed <==> forall k :: 0 <= k <= |waits| ==> Disturbed(old(Contents), Flat(waits[..k])) == []
      ensures res == WaitFailed ==> Contents == []
      ensures forall k :: 0 <= k <= |waits| && Disturbed(old(Contents), Flat(waits[..k])) != []
                          && (forall j :: 0 <= j < k ==> Disturbed(old(Contents), Flat(waits[..j])) == []) ==>
                var queued := Disturbed(old(Contents), Flat(waits[..k]));
                res == Read(queued[0]) && Contents == queued[1..]
    {
      hide RingQueue.Valid, FoundAt, Disturbed;
      var w := 0;
      ghost var c := Contents;
      EmptyTest();
      var empty := sizes[front] == 0;
      FoundFirst(c, waits);
      while empty
        invariant 0 <= w <= |waits|
        invariant Valid() && Repr() == old(Repr())
        invariant empty <==> Contents == []
        invariant Contents == FoundAt(c, waits, w)
        invariant forall j :: 0 <= j < w ==> FoundAt(c, waits, j) == []
        decreases |waits| - w
      {
        if w == |waits| {
          FoundNone(c, waits);
          return WaitFailed;
        }
        FoundNext(c, waits, w);
        Others(waits[w]);
        w := w + 1;
        EmptyTest();
        empty := sizes[front] == 0;
      }
      FoundOnce(c, waits, w);
      var f := Take();
      res := Read(f);
    }

    /** What other threads do to the queue while `pop` waits. */
    method Others(ops: seq<Op>)
      requires Valid()
      modifies this, slots, sizes
      ensures Valid() && Repr() == old(Repr())
      ensures Contents == Disturbed(old(Contents), ops)
    {
      for i := 0 to |ops|
        invariant Valid() && Repr() == old(Repr())
        invariant Disturbed(Contents, ops[i..]) == Disturbed(old(Contents), ops)
      {
        assert ops[i..][0] == ops[i] && ops[i..][1..] == ops[i + 1..];
        match ops[i] {
          case Push(f) => var _ := Push(f);
          case Pop => RemoveFront();
          case RemoveFront => RemoveFront();
          case _ =>
        }
      }
    }

    method RemoveFront()
      requires Valid()
      modifies this, sizes
      ensures Valid() && Repr() == old(Repr())
      ensures Contents == if old(Contents) == [] then [] else old(Contents)[1..]
      ensures accepted == old(accepted)
      ensures removed == old(removed) + old(Contents)[..|old(Contents)| - |Contents|]
    {
      TestsAreExact(Snapshot(), Contents);
      if sizes[front] == 0 {
        return;
      }
      var _ := Take();
    }

    method Front() returns (res: Res)
      requires Valid()
      ensures res == if Contents == [] then Empty else Read(Contents[0])
    {
      TestsAreExact(Snapshot(), Contents);
      if sizes[front] == 0 {
        return Empty;
      }
      assert Contents[0] == Stored(Snapshot(), Slot(front, 0));
      res := Read(slots[front][..sizes[front]]);
    }

    method Back() returns (res: Res)
      requires Valid()
      ensures res == if Contents == [] then Empty else Read(Contents[|Contents| - 1])
    {
      TestsAreExact(Snapshot(), Contents);
      if sizes[front] == 0 {
        return Empty;
      }
      BackIsNewest(Snapshot(), Contents);
      var cursor := if rear == 0 then Q_SIZE - 1 else rear - 1;
      res := Read(slots[cursor][..sizes[cursor]]);
    }
  }

  /** The queue after the pushes `fs`. */
  function Arrived(c: seq<Frame>, fs: seq<Frame>): seq<Frame>
    decreases |fs|
  {
    if fs == [] then c else Arrived(PushSpec(c, fs[0]).0, fs[1..])
  }

  lemma {:induction false} ArrivedSnoc(c: seq<Frame>, fs: seq<Frame>, f: Frame)
    ensures Arrived(c, fs + [f]) == PushSpec(Arrived(c, fs), f).0
    decreases |fs|
  {
    if fs == [] {
      assert fs + [f] == [f] && [f][1..] == [];
    } else {
      ArrivedSnoc(PushSpec(c, fs[0]).0, fs[1..], f);
      assert (fs + [f])[1..] == fs[1..] + [f];
    }
  }

  /** The queue after one operation of another thread; its `pop` on an empty queue only waits. */
  function Disturb(c: seq<Frame>, op: Op): seq<Frame> {
    match op
    case Push(f) => PushSpec(c, f).0
    case Pop => if c == [] then c else c[1..]
    case RemoveFront => if c == [] then c else c[1..]
    case _ => c
  }

  function Disturbed(c: seq<Frame>, ops: seq<Op>): seq<Frame>
    decreases |ops|
  {
    if ops == [] then c else Disturbed(Disturb(c, ops[0]), ops[1..])
  }

  /** All the operations of the lists `ws`, in order. */
  function Flat(ws: seq<seq<Op>>): seq<Op> {
    if ws == [] then [] else Flat(ws[..|ws| - 1]) + ws[|ws| - 1]
  }

  lemma {:induction false} DisturbedJoin(c: seq<Frame>, a: seq<Op>, b: seq<Op>)
    ensures Disturbed(c, a + b) == Disturbed(Disturbed(c, a), b)
    decreases |a|
  {
    if a == [] {
      assert a + b == b;
    } else {
      assert (a + b)[0] == a[0] && (a + b)[1..] == a[1..] + b;
      DisturbedJoin(Disturb(c, a[0]), a[1..], b);
    }
  }

  lemma FlatSnoc(ws: seq<seq<Op>>, k: nat)
    requires k < |ws|
    ensures Flat(ws[..k + 1]) == Flat(ws[..k]) + ws[k]
  {
    assert ws[..k + 1][..k] == ws[..k];
  }

  /** The queue a popping thread finds at its `k`-th wakeup, when it has not left before. */
  function FoundAt(c: seq<Frame>, waits: seq<seq<Op>>, k: nat): seq<Frame>
    requires k <= |waits|
  {
    Disturbed(c, Flat(waits[..k]))
  }

  lemma FoundNone(c: seq<Frame>, waits: seq<seq<Op>>)
    requires forall k :: 0 <= k <= |waits| ==> FoundAt(c, waits, k) == []
    ensures forall k :: 0 <= k <= |waits| ==> Disturbed(c, Flat(waits[..k])) == []
  {
    forall k | 0 <= k <= |waits|
      ensures Disturbed(c, Flat(waits[..k])) == FoundAt(c, waits, k)
    {
    }
  }

  /** Only one wakeup is the first to find a frame. */
  lemma FoundOnce(c: seq<Frame>, waits: seq<seq<Op>>, w: nat)
    requires w <= |waits| && FoundAt(c, waits, w) != []
    requires forall k :: 0 <= k < w ==> FoundAt(c, waits, k) == []
    ensures exists k :: 0 <= k <= |waits| && Disturbed(c, Flat(waits[..k])) != []
    ensures forall k :: 0 <= k <= |waits| && Disturbed(c, Flat(waits[..k])) != []
                        && (forall j :: 0 <= j < k ==> Disturbed(c, Flat(waits[..j])) == []) ==>
              Disturbed(c, Flat(waits[..k])) == FoundAt(c, waits, w)
  {
    assert Disturbed(c, Flat(waits[..w])) == FoundAt(c, waits, w);
    forall k | 0 <= k < w
      ensures Disturbed(c, Flat(waits[..k])) == FoundAt(c, waits, k)
    {
    }
  }

  lemma FoundFirst(c: seq<Frame>, waits: seq<seq<Op>>)
    ensures FoundAt(c, waits, 0) == c
  {
    assert waits[..0] == [];
  }

  lemma FoundNext(c: seq<Frame>, waits: seq<seq<Op>>, k: nat)
    requires k < |waits|
    ensures FoundAt(c, waits, k + 1) == Disturbed(FoundAt(c, waits, k), waits[k])
  {
    FlatSnoc(waits, k);
    DisturbedJoin(c, Flat(waits[..k]), waits[k]);
  }

  /** What another thread does is one operation of the bounded FIFO, and no other outcome but a failed wait is. */
  lemma DisturbIsAnOperation(c: seq<Frame>, op: Op, res: Res, c': seq<Frame>)
    ensures exists r :: Fifo(c, op, r, Disturb(c, op))
    ensures Fifo(c, op, res, c') && res != WaitFailed ==> c' == Disturb(c, op)
    ensures Disturbed(c, [op]) == Disturb(c, op)
  {
    assert [op][1..] == [];
    var front := if c == [] then Empty else Read(c[0]);
    var back := if c == [] then Empty else Read(c[|c| - 1]);
    var popped := if c == [] then WaitFailed else front;
    var r :=
      match op
      case Push(f) => Size(PushSpec(c, f).1)
      case Pop => popped
      case RemoveFront => Done
      case Front => front
      case Back => back;
    assert Fifo(c, op, r, Disturb(c, op));
  }
}

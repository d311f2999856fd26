/**
 Building the graph and pushing to its edges: pipeline/node.c and pipeline/pipeline.c.
 */
module Graph {
  import opened Bytes
  import opened Ring
  import opened Topology

  const MAX_NODE_OUTPUTS: nat := 16
  const MAX_PIPELINE_NODES: nat := 32
  const MAX_PIPELINE_QUEUES: nat := 64

  /** `Node`, without its thread, name and context. */
  class Node {
    const kind: Kind
    var input: RingQueue?
    var outputs: seq<RingQueue>

    constructor (kind: Kind)
      ensures this.kind == kind && input == null && outputs == []
    {
      this.kind := kind;
      input, outputs := null, [];
    }

    /** `node_add_output`. */
    method AddOutput(q: RingQueue?) returns (r: int)
      modifies this`outputs
      ensures r == if q == null || old(|outputs|) >= 16 then -1 else 0
      ensures outputs == if r == 0 then old(outputs) + [q] else old(outputs)
    {
      if q == null || |outputs| >= MAX_NODE_OUTPUTS {
        return -1;
      }
      outputs := outputs + [q];
      r := 0;
    }

    /** `node_set_input`. */
    method SetInput(q: RingQueue?) returns (r: int)
      modifies this`input
      ensures r == if q == null then -1 else 0
      ensures input == if r == 0 then q else old(input)
    {
      if q == null {
        return -1;
      }
      input := q;
      r := 0;
    }
  }

  /** `n` copies of a frame. */
  function Copies(f: Frame, n: nat): seq<Frame> {
    if n == 0 then [] else Copies(f, n - 1) + [f]
  }

  /** How often `q` occurs among the first `i` outputs. */
  ghost function Occurs(outputs: seq<RingQueue>, i: nat, q: RingQueue): nat
    requires i <= |outputs|
  {
    if i == 0 then 0 else Occurs(outputs, i - 1, q) + if outputs[i - 1] == q then 1 else 0
  }

  /** What `q` holds after the first `i` pushes of `node_send_to_outputs`. */
  ghost function Offered(c: seq<Frame>, f: Frame, outputs: seq<RingQueue>, i: nat, q: RingQueue): seq<Frame>
    requires i <= |outputs|
  {
    Arrived(c, Copies(f, Occurs(outputs, i, q)))
  }

  lemma OfferedNext(c: seq<Frame>, f: Frame, outputs: seq<RingQueue>, i: nat, q: RingQueue)
    requires i < |outputs|
    ensures Offered(c, f, outputs, 0, q) == c
    ensures Offered(c, f, outputs, i + 1, q)
         == if outputs[i] == q then PushSpec(Offered(c, f, outputs, i, q), f).0 else Offered(c, f, outputs, i, q)
  {
    ArrivedSnoc(c, Copies(f, Occurs(outputs, i, q)), f);
  }

  lemma {:induction false} OccursIsMultiplicity(outputs: seq<RingQueue>, i: nat, q: RingQueue)
    requires i <= |outputs|
    ensures Occurs(outputs, i, q) == multiset(outputs[..i])[q]
  {
    if i > 0 {
      OccursIsMultiplicity(outputs, i - 1, q);
      assert outputs[..i] == outputs[..i - 1] + [outputs[i - 1]];
    }
  }

  lemma {:induction false} CopiesArrive(c: seq<Frame>, f: Frame, n: nat)
    requires |c| <= 1000
    ensures var room := 1000 - |c|;
            Arrived(c, Copies(f, n)) ==
            c + seq(if 1 <= |f| <= 1522 then if n <= room then n else room else 0, _ => f)
  {
    if n > 0 {
      CopiesArrive(c, f, n - 1);
      ArrivedSnoc(c, Copies(f, n - 1), f);
    }
  }

  /** A queue that is listed `n` times ends with `n` copies more, or with 1000 frames; with a bad size, with none more. */
  lemma OfferedCopies(c: seq<Frame>, f: Frame, outputs: seq<RingQueue>, q: RingQueue)
    requires |c| <= 1000
    ensures var n, room := multiset(outputs)[q], 1000 - |c|;
            Offered(c, f, outputs, |outputs|, q) ==
            c + seq(if 1 <= |f| <= 1522 then if n <= room then n else room else 0, _ => f)
  {
    OccursIsMultiplicity(outputs, |outputs|, q);
    assert outputs[..|outputs|] == outputs;
    CopiesArrive(c, f, Occurs(outputs, |outputs|, q));
  }

  ghost predicate Separate(outputs: seq<RingQueue>)
    reads outputs
  {
    forall i, j :: 0 <= i < |outputs| && 0 <= j < |outputs| && outputs[i] != outputs[j] ==>
      outputs[i].Repr() !! outputs[j].Repr()
  }

  /**
   `node_send_to_outputs`: every output gets the frame or drops it on its own; a queue
   listed several times is offered it as many times.
   */
  method SendToOutputs(outputs: seq<RingQueue>, f: Frame)
    requires forall i :: 0 <= i < |outputs| ==> outputs[i].Valid()
    requires Separate(outputs)
    modifies set i, o | 0 <= i < |outputs| && o in outputs[i].Repr() :: o
    ensures forall i :: 0 <= i < |outputs| ==> outputs[i].Valid()
    ensures forall i :: 0 <= i < |outputs| ==>
      outputs[i].Contents == Offered(old(outputs[i].Contents), f, outputs, |outputs|, outputs[i])
  {
    hide RingQueue.Valid, Offered, PushSpec;
    if outputs == [] {
      return;
    }
    forall i | 0 <= i < |outputs|
      ensures Offered(outputs[i].Contents, f, outputs, 0, outputs[i]) == outputs[i].Contents
    {
      OfferedNext(outputs[i].Contents, f, outputs, 0, outputs[i]);
    }
    for k := 0 to |outputs|
      invariant forall i :: 0 <= i < |outputs| ==> outputs[i].Valid() && outputs[i].Repr() == old(outputs[i].Repr())
      invariant forall i :: 0 <= i < |outputs| ==>
        outputs[i].Contents == Offered(old(outputs[i].Contents), f, outputs, k, outputs[i])
    {
      forall i | 0 <= i < |outputs|
        ensures Offered(old(outputs[i].Contents), f, outputs, k + 1, outputs[i])
             == if outputs[k] == outputs[i] then PushSpec(Offered(old(outputs[i].Contents), f, outputs, k, outputs[i]), f).0
                else Offered(old(outputs[i].Contents), f, outputs, k, outputs[i])
      {
        OfferedNext(old(outputs[i].Contents), f, outputs, k, outputs[i]);
      }
      PushOne(outputs, k, f);
    }
  }

  /** One push of that loop: other queues are untouched. */
  method PushOne(outputs: seq<RingQueue>, k: nat, f: Frame)
    requires k < |outputs| && Separate(outputs)
    requires forall i :: 0 <= i < |outputs| ==> outputs[i].Valid()
    modifies outputs[k].Repr()
    ensures forall i :: 0 <= i < |outputs| ==> outputs[i].Valid() && outputs[i].Repr() == old(outputs[i].Repr())
    ensures forall i :: 0 <= i < |outputs| ==>
      outputs[i].Contents == if outputs[i] == outputs[k] then PushSpec(old(outputs[i].Contents), f).0 else old(outputs[i].Contents)
  {
    hide RingQueue.Valid, PushSpec;
    var _ := outputs[k].Push(f);
  }

  // ---------------------------------------------------------------- allocation

  /** Whether the next allocation succeeds; `answers` lists the outcomes to come, and then all fail. */
  predicate Succeeds(answers: seq<bool>) {
    answers != [] && answers[0]
  }

  function Later(answers: seq<bool>): seq<bool> {
    if answers == [] then [] else answers[1..]
  }

  /** The first `n` allocations succeed. */
  predicate Granted(answers: seq<bool>, n: nat) {
    n <= |answers| && forall k :: 0 <= k < n ==> answers[k]
  }

  lemma GrantedStep(answers: seq<bool>, n: nat)
    ensures Granted(answers, n + 1) <==> Succeeds(answers) && Granted(Later(answers), n)
    ensures Granted(answers, n + 1) ==>
              n + 1 <= |answers| && n <= |Later(answers)| && Later(answers)[n..] == answers[n + 1..]
  {
    if Succeeds(answers) && Granted(Later(answers), n) {
      forall k | 0 <= k < n + 1
        ensures answers[k]
      {
        assert k > 0 ==> Later(answers)[k - 1] == answers[k];
      }
    }
  }

  /** Two and three allocations, one after the other. */
  lemma GrantedFew(answers: seq<bool>)
    ensures var a := answers; var b := Later(a); var c := Later(b);
            && (Granted(a, 2) <==> Succeeds(a) && Succeeds(b))
            && (Granted(a, 3) <==> Succeeds(a) && Succeeds(b) && Succeeds(c))
            && (Granted(a, 2) ==> 2 <= |a| && c == a[2..])
  {
    GrantedStep(answers, 1);
    GrantedStep(answers, 2);
    GrantedStep(Later(answers), 0);
    GrantedStep(Later(answers), 1);
    GrantedStep(Later(Later(answers)), 0);
  }

  /** The first `m + n` allocations succeed if the first `m` do and then the next `n`. */
  lemma GrantedSplits(answers: seq<bool>, m: nat, n: nat)
    ensures Granted(answers, m) ==> m <= |answers|
    ensures Granted(answers, m + n) <==> Granted(answers, m) && Granted(answers[m..], n)
    ensures Granted(answers, m + n) ==> m + n <= |answers| && answers[m..][n..] == answers[m + n..]
  {
    if m <= |answers| && Granted(answers, m) && Granted(answers[m..], n) {
      forall k | 0 <= k < m + n
        ensures answers[k]
      {
        assert k >= m ==> answers[m..][k - m] == answers[k];
      }
    }
  }

  lemma GrantedLast(answers: seq<bool>, n: nat)
    requires n <= |answers|
    ensures Granted(answers, n + 1) <==> Granted(answers, n) && Succeeds(answers[n..])
    ensures Succeeds(answers[n..]) ==> n + 1 <= |answers| && Later(answers[n..]) == answers[n + 1..]
  {
  }

  /** The node, if there is one. */
  ghost function Nonnull(n: Node?): set<Node> {
    if n == null then {} else {n}
  }

  // ---------------------------------------------------------------- the pipeline

  /** `Pipeline`. */
  class Pipeline {
    var nodes: seq<Node>
    var queues: seq<RingQueue>
    ghost var owners: seq<Node>   // owners[k] reads queues[k]

    constructor ()
      ensures Valid() && nodes == [] && queues == []
    {
      nodes, queues, owners := [], [], [];
    }

    /** Every node in the table. */
    ghost predicate Registered(n: Node?)
      reads this`nodes
    {
      n != null ==> n in nodes
    }

    /**
     Each queue is the input of exactly one registered node, every input and every
     output entry is a queue of this pipeline, and the tables keep their bounds.
     */
    ghost predicate Valid()
      reads this, nodes
    {
      && |nodes| <= 32
      && |owners| == |queues|
      && (forall i, j :: 0 <= i < j < |queues| ==> queues[i] != queues[j])
      && (forall k :: 0 <= k < |owners| ==> owners[k] in nodes && owners[k].input == queues[k])
      && (forall n :: n in nodes && n.input != null ==> n.input in queues)
      && (forall n, m :: n in nodes && m in nodes && n.input != null && n.input == m.input ==> n == m)
      && (forall n :: n in nodes ==> |n.outputs| <= 16)
      && (forall n, q :: n in nodes && q in n.outputs ==> q in queues)
    }

    /** There are never more queues than nodes, so the limit on queues is not reached. */
    lemma QueuesFewerThanNodes()
      requires Valid()
      ensures |queues| <= |nodes| <= 32
    {
      forall i, j | 0 <= i < j < |owners|
        ensures owners[i] != owners[j]
      {
        assert owners[i].input != owners[j].input;
      }
      Pigeonhole(owners, nodes);
    }

    /** Each queue is read by one registered node and by no other. */
    lemma OneReaderEach(q: RingQueue)
      requires Valid() && q in queues
      ensures exists n :: n in nodes && n.input == q && forall m :: m in nodes && m.input == q ==> m == n
    {
      var k :| 0 <= k < |queues| && queues[k] == q;
      assert owners[k] in nodes && owners[k].input == q;
    }

    /** `pipeline_add_node`. The graph stays valid when the node is unconnected or already part of it. */
    method AddNode(n: Node?) returns (r: int)
      modifies this`nodes
      ensures r == if n == null || old(|nodes|) >= 32 then -1 else 0
      ensures nodes == if r == 0 then old(nodes) + [n] else old(nodes)
      ensures old(Valid()) && (n == null || n in old(nodes) || (n.input == null && n.outputs == [])) ==> Valid()
    {
      if n == null || |nodes| >= MAX_PIPELINE_NODES {
        return -1;
      }
      nodes := nodes + [n];
      r := 0;
    }

    /** `pipeline_create_queue`: a full table is refused before anything is allocated. */
    method CreateQueue(answers: seq<bool>) returns (q: RingQueue?, rest: seq<bool>)
      modifies this`queues
      ensures q != null <==> old(|queues|) < 64 && Succeeds(answers)
      ensures q != null ==> fresh(q)
      ensures queues == if q != null then old(queues) + [q] else old(queues)
      ensures rest == if old(|queues|) < 64 then Later(answers) else answers
    {
      if |queues| >= MAX_PIPELINE_QUEUES {
        return null, answers;
      }
      rest := Later(answers);
      if !Succeeds(answers) {
        return null, rest;
      }
      q := new RingQueue();
      queues := queues + [q];
    }

    /**
     `pipeline_connect`: the target's input queue is reused if it has one. Between
     registered nodes the graph stays valid, whether the call succeeds or fails.
     */
    method Connect(from: Node?, to: Node?, answers: seq<bool>) returns (r: int, rest: seq<bool>)
      modifies this`queues, this`owners, Nonnull(from)`outputs, Nonnull(to)`input
      ensures old(Valid() && Registered(from) && Registered(to)) ==> Valid()
      ensures r == if from != null && to != null && to.input != null && old(|from.outputs|) < 16 then 0 else -1
      ensures from != null ==> from.outputs == if r == 0 then old(from.outputs) + [to.input] else old(from.outputs)
      ensures from == null || to == null || old(to.input) != null ==> queues == old(queues) && rest == answers
      ensures to != null && (from == null || old(to.input) != null) ==> to.input == old(to.input)
      ensures from != null && to != null && old(to.input) == null ==>
        && (to.input != null <==> old(|queues|) < 64 && Succeeds(answers))
        && (to.input != null ==> fresh(to.input) && queues == old(queues) + [to.input])
        && (to.input == null ==> queues == old(queues))
        && rest == if old(|queues|) < 64 then Later(answers) else answers
    {
      hide Succeeds, Later;
      rest := answers;
      if from == null || to == null {
        return -1, rest;
      }
      var queue: RingQueue;
      if to.input != null {
        queue := to.input;
      } else {
        var created;
        created, rest := CreateQueue(answers);
        if created == null {
          return -1, rest;
        }
        queue := created;
        var _ := to.SetInput(queue);
        owners := owners + [to];
      }
      var added := from.AddOutput(queue);
      r := if added != 0 then -1 else 0;
    }

    /**
     `pipeline_connect_shared`: a new dispatcher between `from` and the targets. On
     success its outputs are the queues that the targets read, null targets skipped;
     on targets that nobody feeds yet it succeeds exactly when the dispatcher can be
     created, every table has room, and one queue for each target and one for the
     dispatcher can be allocated.
     */
    method ConnectShared(from: Node?, targets: seq<Node?>, created: bool, answers: seq<bool>)
      returns (r: int, dispatcher: Node?, rest: seq<bool>)
      modifies this, Nonnull(from)`outputs, targets`input
      ensures old(Valid() && Registered(from) && AllRegistered(targets)) ==> Valid()
      ensures r == 0 || r == -1
      ensures nodes == old(nodes) || (dispatcher != null && nodes == old(nodes) + [dispatcher])
      ensures dispatcher != null ==> fresh(dispatcher) && dispatcher.kind == Kind.Dispatcher
      ensures r == 0 ==>
        && from != null && dispatcher != null
        && nodes == old(nodes) + [dispatcher]
        && dispatcher.input != null && fresh(dispatcher.input)
        && from.outputs == old(from.outputs) + [dispatcher.input]
        && Serves(targets, dispatcher.outputs)
      ensures r == 0 && old(Unconnected(targets)) ==> queues == old(queues) + [dispatcher.input] + dispatcher.outputs
      ensures old(Valid() && Registered(from) && AllRegistered(targets) && Unconnected(targets)) ==>
        var n := Live(targets, |targets|);
        && (r == 0 <==>
              && from != null && targets != [] && created && old(|nodes|) < 32
              && old(|from.outputs|) < 16 && n <= 16 && Granted(answers, 1 + n))
        && (r == 0 ==> rest == answers[1 + n..])
      ensures r != 0 && from != null ==>
        from.outputs == old(from.outputs) || (dispatcher != null && |dispatcher.outputs| < Live(targets, |targets|))
      ensures r != 0 && from != null ==> |from.outputs| <= old(|from.outputs|) + 1
      ensures !created ==> dispatcher == null && nodes == old(nodes) && queues == old(queues) && rest == answers
    {
      hide Valid, ServesUpTo, Distinct, Free, Live, Granted, Succeeds, Later;
      dispatcher, rest := null, answers;
      if from == null || |targets| == 0 {
        return -1, dispatcher, rest;
      }
      if !created {
        return -1, dispatcher, rest;
      }
      ghost var fine := Valid() && Registered(from) && AllRegistered(targets);
      dispatcher := new Node(Kind.Dispatcher);
      r := AddNode(dispatcher);
      if r != 0 {
        return -1, null, rest;
      }
      if fine {
        QueuesFewerThanNodes();
      }
      r, rest := Connect(from, dispatcher, answers);
      GrantedStep(answers, Live(targets, |targets|));
      if r != 0 {
        return -1, dispatcher, rest;
      }
      r, rest := ConnectTargets(dispatcher, targets, rest);
    }

    ghost predicate AllRegistered(targets: seq<Node?>)
      reads this`nodes
    {
      forall i :: 0 <= i < |targets| ==> Registered(targets[i])
    }

    /** The loop of `pipeline_connect_shared`. */
    method ConnectTargets(dispatcher: Node, targets: seq<Node?>, answers: seq<bool>) returns (r: int, rest: seq<bool>)
      requires dispatcher.outputs == [] && dispatcher !in targets
      modifies this`queues, this`owners, dispatcher`outputs, targets`input
      ensures r == 0 || r == -1
      ensures old(Valid() && Registered(dispatcher) && AllRegistered(targets)) ==> Valid()
      ensures r == 0 ==> Serves(targets, dispatcher.outputs)
      ensures r != 0 ==> |dispatcher.outputs| < Live(targets, |targets|)
      ensures r == 0 && old(Unconnected(targets)) ==> queues == old(queues) + dispatcher.outputs
      ensures old(Valid() && Registered(dispatcher) && AllRegistered(targets) && Unconnected(targets)) ==>
        var n := Live(targets, |targets|);
        && (r == 0 <==> n <= 16 && Granted(answers, n))
        && (r == 0 ==> rest == answers[n..])
    {
      hide Valid, ServesUpTo, Distinct, Free, Grown, Registered, Live;
      r, rest := 0, answers;
      ghost var base := queues;
      ghost var apart := Unconnected(targets);
      ghost var fine := Valid() && Registered(dispatcher) && AllRegistered(targets);
      GrownNone(base);
      ServesNone(targets);
      LiveNone(targets);
      for i := 0 to |targets|
        invariant r == 0
        invariant fine ==> Valid() && Registered(dispatcher) && AllRegistered(targets)
        invariant ServesUpTo(targets, i, dispatcher.outputs)
        invariant apart ==> Distinct(targets) && Free(targets, i) && Grown(base, dispatcher.outputs, queues)
        invariant |dispatcher.outputs| == Live(targets, i) <= 16
        invariant apart && fine ==> Granted(answers, Live(targets, i)) && rest == answers[Live(targets, i)..]
      {
        LiveStep(targets, i);
        LiveGrows(targets, i + 1, |targets|);
        if Live(targets, i) <= |answers| {
          GrantedLast(answers, Live(targets, i));
        }
        r, rest := ConnectNext(dispatcher, targets, i, rest, base);
        if r != 0 {
          return;
        }
      }
      GrownMeans(base, dispatcher.outputs, queues);
    }

    /** One pass of that loop; a null target is skipped. */
    method ConnectNext(dispatcher: Node, targets: seq<Node?>, i: nat, answers: seq<bool>, ghost base: seq<RingQueue>)
      returns (r: int, rest: seq<bool>)
      requires i < |targets| && targets[i] != dispatcher
      requires ServesUpTo(targets, i, dispatcher.outputs) && |dispatcher.outputs| <= 16
      modifies this`queues, this`owners, dispatcher`outputs, Nonnull(targets[i])`input
      ensures r == 0 || r == -1
      ensures old(Valid() && Registered(dispatcher) && Registered(targets[i])) ==> Valid()
      ensures r == 0 ==> ServesUpTo(targets, i + 1, dispatcher.outputs)
      ensures r == 0 ==> |dispatcher.outputs| == Live(targets, i + 1) <= 16
      ensures r != 0 ==> targets[i] != null && |dispatcher.outputs| == Live(targets, i)
      ensures r == 0 && old(Free(targets, i)) && old(Grown(base, dispatcher.outputs, queues)) ==>
        Grown(base, dispatcher.outputs, queues)
      ensures Distinct(targets) && old(Free(targets, i)) ==> Free(targets, i + 1)
      ensures targets[i] == null ==> r == 0 && rest == answers
      ensures targets[i] != null && old(Free(targets, i)) && old(Valid()) ==>
        && (r == 0 <==> Live(targets, i) < 16 && Succeeds(answers))
        && rest == Later(answers)
    {
      hide Grown, Live, Granted, Succeeds, Later;
      LiveStep(targets, i);
      LengthServed(targets, i, dispatcher.outputs);
      var t := targets[i];
      if t == null {
        return 0, answers;
      }
      if Valid() {
        QueuesFewerThanNodes();
      }
      hide Valid;
      r, rest := Connect(dispatcher, t, answers);
      if r == 0 {
        GrownBy(base, old(dispatcher.outputs), old(queues), t.input);
      }
    }
  }

  /** `queues` is `base` with `outs` appended. */
  ghost predicate Grown(base: seq<RingQueue>, outs: seq<RingQueue>, queues: seq<RingQueue>) {
    queues == base + outs
  }

  lemma GrownNone(base: seq<RingQueue>)
    ensures Grown(base, [], base)
  {
  }

  lemma GrownMeans(base: seq<RingQueue>, outs: seq<RingQueue>, queues: seq<RingQueue>)
    ensures Grown(base, outs, queues) ==> queues == base + outs
  {
  }

  lemma GrownBy(base: seq<RingQueue>, outs: seq<RingQueue>, queues: seq<RingQueue>, q: RingQueue)
    ensures Grown(base, outs, queues) ==> Grown(base, outs + [q], queues + [q])
  {
  }

  /** Targets that no one feeds yet, each named once. */
  ghost predicate Unconnected(ts: seq<Node?>)
    reads ts`input
  {
    Distinct(ts) && Free(ts, 0)
  }

  ghost predicate Distinct(ts: seq<Node?>) {
    forall i, j :: 0 <= i < j < |ts| && ts[i] != null ==> ts[i] != ts[j]
  }

  ghost predicate Free(ts: seq<Node?>, i: nat)
    reads ts`input
  {
    forall k :: i <= k < |ts| && ts[k] != null ==> ts[k].input == null
  }

  /** How many of the first `i` nodes are not null. */
  ghost function Live(ts: seq<Node?>, i: nat): (n: nat)
    requires i <= |ts|
    ensures n <= i
  {
    if i == 0 then 0 else Live(ts, i - 1) + if ts[i - 1] == null then 0 else 1
  }

  lemma ServesNone(ts: seq<Node?>)
    ensures ServesUpTo(ts, 0, [])
  {
  }

  lemma LiveNone(ts: seq<Node?>)
    ensures Live(ts, 0) == 0
  {
  }

  lemma {:induction false} LiveGrows(ts: seq<Node?>, i: nat, j: nat)
    requires i <= j <= |ts|
    ensures Live(ts, i) <= Live(ts, j)
    decreases j
  {
    if i < j {
      LiveGrows(ts, i, j - 1);
    }
  }

  lemma LengthServed(ts: seq<Node?>, i: nat, qs: seq<RingQueue>)
    requires ServesUpTo(ts, i, qs)
    ensures |qs| == Live(ts, i)
  {
  }

  lemma LiveStep(ts: seq<Node?>, i: nat)
    requires i < |ts|
    ensures Live(ts, i + 1) == Live(ts, i) + if ts[i] == null then 0 else 1
  {
  }

  /** `qs` lists, in order, the input queues of the nodes in `ts` that are not null. */
  ghost predicate Serves(ts: seq<Node?>, qs: seq<RingQueue>)
    reads ts`input
  {
    ServesUpTo(ts, |ts|, qs)
  }

  ghost predicate ServesUpTo(ts: seq<Node?>, i: nat, qs: seq<RingQueue>)
    reads ts`input
  {
    && i <= |ts|
    && |qs| == Live(ts, i)
    && (forall k :: 0 <= k < i && ts[k] != null ==> Live(ts, k) < |qs| && ts[k].input == qs[Live(ts, k)])
  }

  /** Distinct members of a sequence are no more than its length. */
  lemma Pigeonhole(xs: seq<Node>, ys: seq<Node>)
    requires forall i, j :: 0 <= i < j < |xs| ==> xs[i] != xs[j]
    requires forall x :: x in xs ==> x in ys
    ensures |xs| <= |ys|
  {
    DistinctSize(xs);
    SetSize(ys);
    SubsetSize(set x | x in xs, set y | y in ys);
  }

  lemma {:induction false} DistinctSize(xs: seq<Node>)
    requires forall i, j :: 0 <= i < j < |xs| ==> xs[i] != xs[j]
    ensures |set x | x in xs| == |xs|
  {
    if xs == [] {
    } else {
      DistinctSize(xs[1..]);
      assert (set x | x in xs) == {xs[0]} + set x | x in xs[1..];
    }
  }

  lemma {:induction false} SetSize(ys: seq<Node>)
    ensures |set y | y in ys| <= |ys|
  {
    if ys == [] {
    } else {
      SetSize(ys[1..]);
      assert (set y | y in ys) == {ys[0]} + set y | y in ys[1..];
    }
  }
}

/**
 pipeline_patterns/patterns.c: the two pipelines, built call by call on an empty graph.
 */
module Patterns {
  import opened Bytes
  import opened Ring
  import opened Topology
  import opened Graph

  /** The pipeline `p` has the shape `t`, node by node and queue by queue. */
  ghost predicate Wired(p: Pipeline, t: Topo)
    reads p, p.nodes
  {
    && |p.nodes| == |t.kinds| == |t.inputs| == |t.outs| && |p.queues| == t.queues
    && forall i :: 0 <= i < |p.nodes| ==> NodeWired(p.nodes[i], t.kinds[i], t.inputs[i], t.outs[i], p.queues)
  }

  ghost predicate NodeWired(n: Node, kind: Kind, input: Option<nat>, outs: seq<nat>, queues: seq<RingQueue>)
    reads n
  {
    && n.kind == kind
    && (input.None? ==> n.input == null)
    && (input.Some? ==> input.value < |queues| && n.input == queues[input.value])
    && |n.outputs| == |outs|
    && (forall j :: 0 <= j < |outs| ==> outs[j] < |queues| && n.outputs[j] == queues[outs[j]])
  }

  /** Every valid graph has a shape. */
  lemma EveryGraphHasAShape(p: Pipeline) returns (t: Topo)
    requires p.Valid()
    ensures Wired(p, t)
  {
    t := Topo([], [], [], |p.queues|);
    for i := 0 to |p.nodes|
      invariant |t.kinds| == |t.inputs| == |t.outs| == i && t.queues == |p.queues|
      invariant forall k :: 0 <= k < i ==> NodeWired(p.nodes[k], t.kinds[k], t.inputs[k], t.outs[k], p.queues)
    {
      var n := p.nodes[i];
      var input: Option<nat> := None;
      if n.input != null {
        var q :| 0 <= q < |p.queues| && p.queues[q] == n.input;
        input := Some(q);
      }
      var outs := Places(n.outputs, p.queues);
      t := Topo(t.kinds + [n.kind], t.inputs + [input], t.outs + [outs], t.queues);
      assert NodeWired(n, n.kind, input, outs, p.queues);
    }
  }

  lemma {:induction false} Places(outputs: seq<RingQueue>, queues: seq<RingQueue>) returns (outs: seq<nat>)
    requires forall q :: q in outputs ==> q in queues
    ensures |outs| == |outputs|
    ensures forall j :: 0 <= j < |outs| ==> outs[j] < |queues| && outputs[j] == queues[outs[j]]
  {
    if outputs == [] {
      outs := [];
    } else {
      var rest := Places(outputs[1..], queues);
      assert outputs[0] in queues;
      var k :| 0 <= k < |queues| && queues[k] == outputs[0];
      outs := [k] + rest;
    }
  }

  /**
   That shape is well formed exactly when no node with an input was added twice: two
   threads of one node would read one queue.
   */
  lemma ShapeIsWellFormed(p: Pipeline, t: Topo)
    requires p.Valid() && Wired(p, t)
    ensures WellFormed(t) <==>
            forall i, j :: 0 <= i < j < |p.nodes| && p.nodes[i].input != null ==> p.nodes[i] != p.nodes[j]
  {
    forall i | 0 <= i < |p.nodes|
      ensures NodeWired(p.nodes[i], t.kinds[i], t.inputs[i], t.outs[i], p.queues)
      ensures forall k :: 0 <= k < |t.outs[i]| ==> t.outs[i][k] < t.queues
      ensures t.inputs[i].Some? <==> p.nodes[i].input != null
    {
    }
    forall i, j | 0 <= i < j < |p.nodes| && t.inputs[i].Some?
      ensures t.inputs[i] != t.inputs[j] <==> p.nodes[i] != p.nodes[j]
    {
      SameInputSameNode(p, t, i, j);
    }
  }

  /** Such a graph exists: `pipeline_add_node` accepts a node that reads a queue a second time. */
  method AddedTwice() returns (p: Pipeline, ghost t: Topo)
    ensures p.Valid() && |p.nodes| == 3
    ensures p.nodes[1] == p.nodes[2] && p.nodes[1].input != null
    ensures Wired(p, t) && !WellFormed(t)
  {
    hide Pipeline.Valid, Wired, WellFormed, Later;
    p := new Pipeline();
    var source := new Node(Kind.Sniffer);
    var sink := new Node(Kind.Sender);
    var _ := p.AddNode(source);
    var _ := p.AddNode(sink);
    assert p.nodes == [source, sink];
    assert p.nodes[0] == source && p.nodes[1] == sink;
    assert Succeeds([true]);
    hide Succeeds;
    var _ := Feed(p, source, sink, [true]);
    var _ := p.AddNode(sink);
    assert p.nodes == [source, sink, sink];
    t := EveryGraphHasAShape(p);
    ShapeIsWellFormed(p, t);
    assert p.nodes[1] == p.nodes[2];
  }

  lemma SameInputSameNode(p: Pipeline, t: Topo, i: nat, j: nat)
    requires p.Valid() && Wired(p, t) && i < j < |p.nodes| && t.inputs[i].Some?
    ensures t.inputs[i] == t.inputs[j] <==> p.nodes[i] == p.nodes[j]
  {
    assert NodeWired(p.nodes[i], t.kinds[i], t.inputs[i], t.outs[i], p.queues);
    assert NodeWired(p.nodes[j], t.kinds[j], t.inputs[j], t.outs[j], p.queues);
  }

  /** Nodes that are not connected to anything yet. */
  ghost predicate Bare(ns: seq<Node>)
    reads ns
  {
    forall i :: 0 <= i < |ns| ==> ns[i].input == null && ns[i].outputs == []
  }

  /** The calls of `pipeline_add_node` that open a pattern. */
  method AddAll(p: Pipeline, ns: seq<Node>)
    requires p.Valid() && p.nodes == [] && p.queues == []
    requires Bare(ns) && |ns| < 32
    modifies p`nodes
    ensures p.Valid() && p.nodes == ns
  {
    for i := 0 to |ns|
      invariant p.Valid() && p.nodes == ns[..i]
    {
      var _ := p.AddNode(ns[i]);
      assert ns[..i + 1] == ns[..i] + [ns[i]];
    }
    assert ns[..|ns|] == ns;
  }

  /** One connect call to a target that nobody feeds yet. */
  method Feed(p: Pipeline, from: Node, to: Node, answers: seq<bool>) returns (rest: seq<bool>)
    requires p.Valid() && from in p.nodes && to in p.nodes
    requires to.input == null && |from.outputs| < 16
    modifies p`queues, p`owners, from`outputs, to`input
    ensures p.Valid() && rest == Later(answers)
    ensures to.input != null <==> Succeeds(answers)
    ensures to.input != null ==> p.queues == old(p.queues) + [to.input] && from.outputs == old(from.outputs) + [to.input]
    ensures to.input == null ==> p.queues == old(p.queues) && from.outputs == old(from.outputs)
  {
    p.QueuesFewerThanNodes();
    hide Pipeline.Valid, Succeeds, Later;
    var r;
    r, rest := p.Connect(from, to, answers);
  }

  /** The taggers behind a dispatcher, as both patterns begin: three queues. */
  method ConnectTaggers(p: Pipeline, sniffer: Node, tagger1: Node, tagger2: Node, dispatching: bool, answers: seq<bool>)
    returns (ok: bool, dispatcher: Node?, rest: seq<bool>)
    requires p.Valid() && |p.nodes| < 32
    requires sniffer in p.nodes && tagger1 in p.nodes && tagger2 in p.nodes
    requires tagger1 != tagger2
    requires p.queues == []
    requires IsBare(sniffer, Kind.Sniffer) && IsBare(tagger1, Kind.Tagger) && IsBare(tagger2, Kind.Tagger)
    modifies p, sniffer`outputs, tagger1`input, tagger2`input
    ensures p.Valid()
    ensures p.nodes == old(p.nodes) || (dispatcher != null && p.nodes == old(p.nodes) + [dispatcher])
    ensures dispatcher != null ==> fresh(dispatcher) && dispatcher.kind == Kind.Dispatcher
    ensures ok <==> dispatching && Granted(answers, 3)
    ensures ok ==>
      && dispatcher != null && p.nodes == old(p.nodes) + [dispatcher]
      && dispatcher.input != null && tagger1.input != null && tagger2.input != null
      && p.queues == [dispatcher.input, tagger1.input, tagger2.input]
      && sniffer.outputs == [dispatcher.input] && dispatcher.outputs == [tagger1.input, tagger2.input]
      && rest == answers[3..]
    ensures |sniffer.outputs| <= 1
    ensures !ok ==> sniffer.outputs == [] || (dispatcher != null && |dispatcher.outputs| < 2)
  {
    hide Granted, Pipeline.Valid;
    var r;
    ghost var targets: seq<Node?> := [tagger1, tagger2];
    assert Live(targets, 0) == 0 && Live(targets, 1) == 1 && Live(targets, 2) == 2;
    r, dispatcher, rest := p.ConnectShared(sniffer, [tagger1, tagger2], dispatching, answers);
    ok := r == 0;
  }

  /**
   `vlan_tagger_pattern`. It returns 1 only if one of its own nodes could not be created,
   and then nothing was added. The results of the connect calls are ignored, so a 0 means
   the full topology exactly when the dispatcher could be created too, as `dispatching`
   says, and the first five queues could be allocated.
   */
  method VlanTaggerPattern(p: Pipeline, created: bool, dispatching: bool, answers: seq<bool>) returns (r: int)
    requires p.Valid() && p.nodes == [] && p.queues == []
    modifies p
    ensures p.Valid()
    ensures r == if created then 0 else 1
    ensures r != 0 ==> p.nodes == [] && p.queues == []
    ensures r == 0 ==> (Wired(p, VlanTopo()) <==> dispatching && Granted(answers, 5))
  {
    if !created {
      return 1;
    }
    var sniffer := new Node(Kind.Sniffer);
    var tagger1 := new Node(Kind.Tagger);
    var tagger2 := new Node(Kind.Tagger);
    var counter := new Node(Kind.Counter);
    var sender := new Node(Kind.Sender);
    ghost var ns := [sniffer, tagger1, tagger2, counter, sender];
    assert ns[0] == sniffer && ns[1] == tagger1 && ns[2] == tagger2 && ns[3] == counter && ns[4] == sender;
    AddAll(p, [sniffer, tagger1, tagger2, counter, sender]);
    WireVlan(p, sniffer, tagger1, tagger2, counter, sender, dispatching, answers);
    r := 0;
  }

  ghost predicate IsBare(n: Node, kind: Kind)
    reads n
  {
    n.kind == kind && n.input == null && n.outputs == []
  }

  /** The connect calls of `vlan_tagger_pattern`. */
  method WireVlan(p: Pipeline, sniffer: Node, tagger1: Node, tagger2: Node, counter: Node, sender: Node,
                  dispatching: bool, answers: seq<bool>)
    requires p.Valid() && p.queues == []
    requires p.nodes == [sniffer, tagger1, tagger2, counter, sender] && tagger1 != tagger2
    requires IsBare(sniffer, Kind.Sniffer) && IsBare(tagger1, Kind.Tagger) && IsBare(tagger2, Kind.Tagger)
    requires IsBare(counter, Kind.Counter) && IsBare(sender, Kind.Sender)
    modifies p, sniffer, tagger1, tagger2, counter, sender
    ensures p.Valid()
    ensures Wired(p, VlanTopo()) <==> dispatching && Granted(answers, 5)
  {
    hide Pipeline.Valid, Wired, NodeWired, Granted;
    ghost var ns := p.nodes;
    assert ns[0] == sniffer && ns[1] == tagger1 && ns[2] == tagger2 && ns[3] == counter && ns[4] == sender;
    var begun, dispatcher, rest := ConnectTaggers(p, sniffer, tagger1, tagger2, dispatching, answers);
    assert ns <= p.nodes;
    assert p.nodes[1] == tagger1 && p.nodes[2] == tagger2 && p.nodes[3] == counter && p.nodes[4] == sender;
    var done := ConnectVlanTail(p, tagger1, tagger2, counter, sender, rest);
    GrantedSplits(answers, 3, 2);
    if begun && done {
      VlanWired(p, sniffer, tagger1, tagger2, counter, sender, dispatcher);
    } else {
      VlanIncomplete(p, sniffer, tagger1, tagger2, counter, sender, dispatcher);
    }
  }

  /** Without one of the five queues the graph is not the whole topology. */
  lemma VlanIncomplete(p: Pipeline, sniffer: Node, tagger1: Node, tagger2: Node, counter: Node, sender: Node,
                       dispatcher: Node?)
    requires var ns := [sniffer, tagger1, tagger2, counter, sender];
             p.nodes == ns || (dispatcher != null && p.nodes == ns + [dispatcher])
    requires || sniffer.outputs == [] || (dispatcher != null && |dispatcher.outputs| < 2)
             || tagger1.outputs == [] || sender.input == null
    ensures !Wired(p, VlanTopo())
  {
    hide Wired;
    VlanMeans(p);
  }

  /** What the full topology asks of some of its nodes. */
  lemma VlanMeans(p: Pipeline)
    ensures Wired(p, VlanTopo()) ==>
              && |p.nodes| == 6 && p.nodes[0].outputs != [] && p.nodes[1].outputs != []
              && p.nodes[4].input != null && |p.nodes[5].outputs| == 2
  {
    var t := VlanTopo();
    if Wired(p, t) {
      assert NodeWired(p.nodes[0], t.kinds[0], t.inputs[0], t.outs[0], p.queues);
      assert NodeWired(p.nodes[1], t.kinds[1], t.inputs[1], t.outs[1], p.queues);
      assert NodeWired(p.nodes[4], t.kinds[4], t.inputs[4], t.outs[4], p.queues);
      assert NodeWired(p.nodes[5], t.kinds[5], t.inputs[5], t.outs[5], p.queues);
    }
  }

  lemma VlanWired(p: Pipeline, sniffer: Node, tagger1: Node, tagger2: Node, counter: Node, sender: Node, dispatcher: Node)
    requires p.nodes == [sniffer, tagger1, tagger2, counter, sender] + [dispatcher]
    requires sniffer.kind == Kind.Sniffer && tagger1.kind == tagger2.kind == Kind.Tagger
    requires counter.kind == Kind.Counter && sender.kind == Kind.Sender && dispatcher.kind == Kind.Dispatcher
    requires dispatcher.input != null && tagger1.input != null && tagger2.input != null
    requires counter.input != null && sender.input != null
    requires p.queues == [dispatcher.input, tagger1.input, tagger2.input] + [counter.input] + [sender.input]
    requires sniffer.input == null && sniffer.outputs == [dispatcher.input]
    requires tagger1.outputs == [counter.input] && tagger2.outputs == [counter.input]
    requires counter.outputs == [sender.input] && sender.outputs == []
    requires dispatcher.outputs == [tagger1.input, tagger2.input]
    ensures Wired(p, VlanTopo())
  {
    hide Pipeline.Valid;
    var t := VlanTopo();
    assert NodeWired(sniffer, t.kinds[0], t.inputs[0], t.outs[0], p.queues);
    assert NodeWired(tagger1, t.kinds[1], t.inputs[1], t.outs[1], p.queues);
    assert NodeWired(tagger2, t.kinds[2], t.inputs[2], t.outs[2], p.queues);
    assert NodeWired(counter, t.kinds[3], t.inputs[3], t.outs[3], p.queues);
    assert NodeWired(sender, t.kinds[4], t.inputs[4], t.outs[4], p.queues);
    assert NodeWired(dispatcher, t.kinds[5], t.inputs[5], t.outs[5], p.queues);
  }

  /** The rest of `vlan_tagger_pattern`: two queues. */
  method ConnectVlanTail(p: Pipeline, tagger1: Node, tagger2: Node, counter: Node, sender: Node, answers: seq<bool>)
    returns (ok: bool)
    requires p.Valid()
    requires tagger1 in p.nodes && tagger2 in p.nodes && counter in p.nodes && sender in p.nodes
    requires tagger1.kind == tagger2.kind == Kind.Tagger && tagger1 != tagger2
    requires tagger1.outputs == [] && tagger2.outputs == []
    requires IsBare(counter, Kind.Counter) && IsBare(sender, Kind.Sender)
    modifies p`queues, p`owners, tagger1`outputs, tagger2`outputs, counter`outputs, counter`input, sender`input
    ensures p.Valid()
    ensures ok <==> Granted(answers, 2)
    ensures ok ==>
      && counter.input != null && sender.input != null
      && p.queues == old(p.queues) + [counter.input] + [sender.input]
      && tagger1.outputs == [counter.input] && tagger2.outputs == [counter.input]
      && counter.outputs == [sender.input]
    ensures !ok ==> tagger1.outputs == [] || sender.input == null
  {
    GrantedFew(answers);
    hide Pipeline.Valid, Granted, Succeeds, Later;
    var r1, r2, r3, rest;
    p.QueuesFewerThanNodes();
    r1, rest := p.Connect(tagger1, counter, answers);
    p.QueuesFewerThanNodes();
    r2, rest := p.Connect(tagger2, counter, rest);
    p.QueuesFewerThanNodes();
    r3, rest := p.Connect(counter, sender, rest);
    ok := r1 == 0 && r3 == 0;
  }

  /** `detailed_logging_pattern`; its full topology takes the dispatcher and eight queues. */
  method DetailedLoggingPattern(p: Pipeline, created: bool, dispatching: bool, answers: seq<bool>) returns (r: int)
    requires p.Valid() && p.nodes == [] && p.queues == []
    modifies p
    ensures p.Valid()
    ensures r == if created then 0 else 1
    ensures r != 0 ==> p.nodes == [] && p.queues == []
    ensures r == 0 ==> (Wired(p, LoggingTopo()) <==> dispatching && Granted(answers, 8))
  {
    if !created {
      return 1;
    }
    hide Pipeline.Valid, Wired, Granted;
    hide LoggingNodes;
    var sniffer, tagger1, tagger2, collector, logger1, logger2, counter, sender := CreateLogging(p);
    WireLogging(p, sniffer, tagger1, tagger2, collector, logger1, logger2, counter, sender, dispatching,
                answers);
    r := 0;
  }

  /** The nodes of the pattern, in the order in which they are added. */
  ghost predicate LoggingNodes(ns: seq<Node>, sniffer: Node, tagger1: Node, tagger2: Node, collector: Node,
                               logger1: Node, logger2: Node, counter: Node, sender: Node)
  {
    ns == [sniffer, tagger1, tagger2, collector, logger1, logger2, counter, sender]
  }

  lemma LoggingMembers(ns: seq<Node>, sniffer: Node, tagger1: Node, tagger2: Node, collector: Node,
                       logger1: Node, logger2: Node, counter: Node, sender: Node)
    requires LoggingNodes(ns, sniffer, tagger1, tagger2, collector, logger1, logger2, counter, sender)
    ensures |ns| == 8
    ensures sniffer in ns && tagger1 in ns && tagger2 in ns && collector in ns
    ensures logger1 in ns && logger2 in ns && counter in ns && sender in ns
  {
    assert ns[0] == sniffer && ns[1] == tagger1 && ns[2] == tagger2 && ns[3] == collector;
    assert ns[4] == logger1 && ns[5] == logger2 && ns[6] == counter && ns[7] == sender;
  }

  /** The nodes of `detailed_logging_pattern`, created and added. */
  method CreateLogging(p: Pipeline)
    returns (sniffer: Node, tagger1: Node, tagger2: Node, collector: Node,
             logger1: Node, logger2: Node, counter: Node, sender: Node)
    requires p.Valid() && p.nodes == [] && p.queues == []
    modifies p`nodes
    ensures p.Valid()
    ensures LoggingNodes(p.nodes, sniffer, tagger1, tagger2, collector, logger1, logger2, counter, sender)
    ensures tagger1 != tagger2 && logger1 != logger2
    ensures fresh(sniffer) && fresh(tagger1) && fresh(tagger2) && fresh(collector)
    ensures fresh(logger1) && fresh(logger2) && fresh(counter) && fresh(sender)
    ensures IsBare(sniffer, Kind.Sniffer) && IsBare(tagger1, Kind.Tagger) && IsBare(tagger2, Kind.Tagger)
    ensures IsBare(collector, Kind.Collector) && IsBare(logger1, Kind.Logger) && IsBare(logger2, Kind.Logger)
    ensures IsBare(counter, Kind.Counter) && IsBare(sender, Kind.Sender)
  {
    hide Pipeline.Valid;
    sniffer := new Node(Kind.Sniffer);
    tagger1 := new Node(Kind.Tagger);
    tagger2 := new Node(Kind.Tagger);
    collector := new Node(Kind.Collector);
    logger1 := new Node(Kind.Logger);
    logger2 := new Node(Kind.Logger);
    counter := new Node(Kind.Counter);
    sender := new Node(Kind.Sender);
    AddAll(p, [sniffer, tagger1, tagger2, collector, logger1, logger2, counter, sender]);
  }

  /** The connect calls of `detailed_logging_pattern`. */
  method WireLogging(p: Pipeline, sniffer: Node, tagger1: Node, tagger2: Node, collector: Node,
                     logger1: Node, logger2: Node, counter: Node, sender: Node, dispatching: bool, answers: seq<bool>)
    requires p.Valid() && p.queues == []
    requires LoggingNodes(p.nodes, sniffer, tagger1, tagger2, collector, logger1, logger2, counter, sender)
    requires tagger1 != tagger2 && logger1 != logger2
    requires IsBare(sniffer, Kind.Sniffer) && IsBare(tagger1, Kind.Tagger) && IsBare(tagger2, Kind.Tagger)
    requires IsBare(collector, Kind.Collector) && IsBare(logger1, Kind.Logger) && IsBare(logger2, Kind.Logger)
    requires IsBare(counter, Kind.Counter) && IsBare(sender, Kind.Sender)
    modifies p, sniffer, tagger1, tagger2, collector, logger1, logger2, counter, sender
    ensures p.Valid()
    ensures Wired(p, LoggingTopo()) <==> dispatching && Granted(answers, 8)
  {
    hide Pipeline.Valid, Wired, NodeWired, Granted, FrontBuilt, LoggingNodes;
    ghost var ns := p.nodes;
    LoggingMembers(ns, sniffer, tagger1, tagger2, collector, logger1, logger2, counter, sender);
    var begun, dispatcher, rest := WireFront(p, sniffer, tagger1, tagger2, collector, logger1, dispatching, answers);
    ghost var front := p.queues;
    var done := ConnectSinks(p, collector, sender, logger2, counter, rest);
    GrantedSplits(answers, 5, 3);
    if begun && done {
      LoggingWired(p, ns, sniffer, tagger1, tagger2, collector, logger1, logger2, counter, sender, dispatcher, front);
    } else {
      LoggingIncomplete(p, ns, sniffer, tagger1, tagger2, collector, logger1, logger2, counter, sender, dispatcher);
    }
  }

  /** The front of the pipeline reads and writes the queues `qs`. */
  ghost predicate FrontBuilt(sniffer: Node, dispatcher: Node, tagger1: Node, tagger2: Node, logger1: Node,
                             collector: Node, qs: seq<RingQueue>)
    reads sniffer`outputs, dispatcher`input, dispatcher`outputs, tagger1`input, tagger1`outputs
    reads tagger2`input, tagger2`outputs, logger1`input, collector`input
  {
    && |qs| == 5
    && dispatcher.input == qs[0] && tagger1.input == qs[1] && tagger2.input == qs[2]
    && logger1.input == qs[3] && collector.input == qs[4]
    && sniffer.outputs == [qs[0], qs[3]] && dispatcher.outputs == [qs[1], qs[2]]
    && tagger1.outputs == [qs[4]] && tagger2.outputs == [qs[4]]
  }

  /** Everything in front of the collector: five queues. */
  method WireFront(p: Pipeline, sniffer: Node, tagger1: Node, tagger2: Node, collector: Node, logger1: Node,
                   dispatching: bool, answers: seq<bool>)
    returns (ok: bool, dispatcher: Node?, rest: seq<bool>)
    requires p.Valid() && p.queues == [] && |p.nodes| < 32
    requires sniffer in p.nodes && tagger1 in p.nodes && tagger2 in p.nodes && collector in p.nodes && logger1 in p.nodes
    requires tagger1 != tagger2
    requires IsBare(sniffer, Kind.Sniffer) && IsBare(tagger1, Kind.Tagger) && IsBare(tagger2, Kind.Tagger)
    requires IsBare(collector, Kind.Collector) && IsBare(logger1, Kind.Logger)
    modifies p, sniffer`outputs, tagger1, tagger2, collector`input, logger1`input
    ensures p.Valid()
    ensures p.nodes == old(p.nodes) || (dispatcher != null && p.nodes == old(p.nodes) + [dispatcher])
    ensures dispatcher != null ==> fresh(dispatcher) && dispatcher.kind == Kind.Dispatcher
    ensures ok <==> dispatching && Granted(answers, 5)
    ensures ok ==>
      && dispatcher != null && p.nodes == old(p.nodes) + [dispatcher]
      && FrontBuilt(sniffer, dispatcher, tagger1, tagger2, logger1, collector, p.queues)
      && rest == answers[5..]
    ensures !ok ==> || |sniffer.outputs| < 2 || (dispatcher != null && |dispatcher.outputs| < 2)
                    || logger1.input == null || tagger1.outputs == []
  {
    hide Pipeline.Valid, Granted;
    var begun, done;
    begun, dispatcher, rest := ConnectTaggers(p, sniffer, tagger1, tagger2, dispatching, answers);
    done, rest := ConnectCollector(p, sniffer, tagger1, tagger2, collector, logger1, rest);
    GrantedSplits(answers, 3, 2);
    ok := begun && done;
  }

  /** Without one of the eight queues the graph is not the whole topology. */
  lemma LoggingIncomplete(p: Pipeline, ns: seq<Node>, sniffer: Node, tagger1: Node, tagger2: Node, collector: Node,
                          logger1: Node, logger2: Node, counter: Node, sender: Node, dispatcher: Node?)
    requires LoggingNodes(ns, sniffer, tagger1, tagger2, collector, logger1, logger2, counter, sender)
    requires p.nodes == ns || (dispatcher != null && p.nodes == ns + [dispatcher])
    requires || |sniffer.outputs| < 2 || (dispatcher != null && |dispatcher.outputs| < 2)
             || logger1.input == null || tagger1.outputs == []
             || sender.input == null || logger2.input == null || counter.input == null
    ensures !Wired(p, LoggingTopo())
  {
    hide Wired;
    LoggingMeans(p);
  }

  lemma LoggingMeans(p: Pipeline)
    ensures Wired(p, LoggingTopo()) ==>
              && |p.nodes| == 9 && |p.nodes[0].outputs| == 2 && p.nodes[1].outputs != []
              && p.nodes[4].input != null && p.nodes[5].input != null && p.nodes[6].input != null
              && p.nodes[7].input != null && |p.nodes[8].outputs| == 2
  {
    var t := LoggingTopo();
    if Wired(p, t) {
      assert NodeWired(p.nodes[0], t.kinds[0], t.inputs[0], t.outs[0], p.queues);
      assert NodeWired(p.nodes[1], t.kinds[1], t.inputs[1], t.outs[1], p.queues);
      assert NodeWired(p.nodes[4], t.kinds[4], t.inputs[4], t.outs[4], p.queues);
      assert NodeWired(p.nodes[5], t.kinds[5], t.inputs[5], t.outs[5], p.queues);
      assert NodeWired(p.nodes[6], t.kinds[6], t.inputs[6], t.outs[6], p.queues);
      assert NodeWired(p.nodes[7], t.kinds[7], t.inputs[7], t.outs[7], p.queues);
      assert NodeWired(p.nodes[8], t.kinds[8], t.inputs[8], t.outs[8], p.queues);
    }
  }

  /** The first logger and the collector: two queues. */
  method ConnectCollector(p: Pipeline, sniffer: Node, tagger1: Node, tagger2: Node, collector: Node, logger1: Node,
                          answers: seq<bool>)
    returns (ok: bool, rest: seq<bool>)
    requires p.Valid()
    requires sniffer in p.nodes && tagger1 in p.nodes && tagger2 in p.nodes && collector in p.nodes && logger1 in p.nodes
    requires sniffer.kind == Kind.Sniffer && tagger1.kind == tagger2.kind == Kind.Tagger && tagger1 != tagger2
    requires tagger1.outputs == [] && tagger2.outputs == [] && |sniffer.outputs| < 16
    requires IsBare(collector, Kind.Collector) && IsBare(logger1, Kind.Logger)
    modifies p`queues, p`owners, sniffer`outputs, tagger1`outputs, tagger2`outputs, collector`input, logger1`input
    ensures p.Valid()
    ensures ok <==> Granted(answers, 2)
    ensures ok ==>
      && logger1.input != null && collector.input != null
      && p.queues == old(p.queues) + [logger1.input] + [collector.input]
      && sniffer.outputs == old(sniffer.outputs) + [logger1.input]
      && tagger1.outputs == [collector.input] && tagger2.outputs == [collector.input]
      && rest == answers[2..]
    ensures |sniffer.outputs| <= old(|sniffer.outputs|) + 1
    ensures !ok ==> logger1.input == null || tagger1.outputs == []
  {
    GrantedFew(answers);
    hide Pipeline.Valid, Granted, Succeeds, Later;
    var r1, r2, r3;
    p.QueuesFewerThanNodes();
    r1, rest := p.Connect(sniffer, logger1, answers);
    p.QueuesFewerThanNodes();
    r2, rest := p.Connect(tagger1, collector, rest);
    p.QueuesFewerThanNodes();
    r3, rest := p.Connect(tagger2, collector, rest);
    ok := r1 == 0 && r2 == 0;
  }

  /** The nodes behind the collector: three queues. */
  method ConnectSinks(p: Pipeline, collector: Node, sender: Node, logger2: Node, counter: Node, answers: seq<bool>)
    returns (ok: bool)
    requires p.Valid()
    requires collector in p.nodes && sender in p.nodes && logger2 in p.nodes && counter in p.nodes
    requires collector.kind == Kind.Collector && collector.outputs == []
    requires IsBare(sender, Kind.Sender) && IsBare(logger2, Kind.Logger) && IsBare(counter, Kind.Counter)
    modifies p`queues, p`owners, collector`outputs, sender`input, logger2`input, counter`input
    ensures p.Valid()
    ensures ok <==> Granted(answers, 3)
    ensures ok ==>
      && sender.input != null && logger2.input != null && counter.input != null
      && p.queues == old(p.queues) + [sender.input] + [logger2.input] + [counter.input]
      && collector.outputs == old(collector.outputs) + [sender.input] + [logger2.input] + [counter.input]
    ensures !ok ==> sender.input == null || logger2.input == null || counter.input == null
  {
    GrantedFew(answers);
    hide Pipeline.Valid, Granted, Succeeds, Later;
    var rest := Feed(p, collector, sender, answers);
    rest := Feed(p, collector, logger2, rest);
    rest := Feed(p, collector, counter, rest);
    ok := sender.input != null && logger2.input != null && counter.input != null;
  }

  lemma LoggingWired(p: Pipeline, ns: seq<Node>, sniffer: Node, tagger1: Node, tagger2: Node, collector: Node,
                     logger1: Node, logger2: Node, counter: Node, sender: Node, dispatcher: Node,
                     front: seq<RingQueue>)
    requires LoggingNodes(ns, sniffer, tagger1, tagger2, collector, logger1, logger2, counter, sender)
    requires p.nodes == ns + [dispatcher]
    requires sniffer.kind == Kind.Sniffer && tagger1.kind == tagger2.kind == Kind.Tagger
    requires collector.kind == Kind.Collector && logger1.kind == logger2.kind == Kind.Logger
    requires counter.kind == Kind.Counter && sender.kind == Kind.Sender && dispatcher.kind == Kind.Dispatcher
    requires FrontBuilt(sniffer, dispatcher, tagger1, tagger2, logger1, collector, front)
    requires logger2.input != null && counter.input != null && sender.input != null
    requires p.queues == front + [sender.input] + [logger2.input] + [counter.input]
    requires collector.outputs == [] + [sender.input] + [logger2.input] + [counter.input]
    requires sniffer.input == null
    requires logger1.outputs == [] && logger2.outputs == [] && counter.outputs == [] && sender.outputs == []
    ensures Wired(p, LoggingTopo())
  {
    hide Pipeline.Valid;
    var t := LoggingTopo();
    assert NodeWired(sniffer, t.kinds[0], t.inputs[0], t.outs[0], p.queues);
    assert NodeWired(tagger1, t.kinds[1], t.inputs[1], t.outs[1], p.queues);
    assert NodeWired(tagger2, t.kinds[2], t.inputs[2], t.outs[2], p.queues);
    assert NodeWired(collector, t.kinds[3], t.inputs[3], t.outs[3], p.queues);
    assert NodeWired(logger1, t.kinds[4], t.inputs[4], t.outs[4], p.queues);
    assert NodeWired(logger2, t.kinds[5], t.inputs[5], t.outs[5], p.queues);
    assert NodeWired(counter, t.kinds[6], t.inputs[6], t.outs[6], p.queues);
    assert NodeWired(sender, t.kinds[7], t.inputs[7], t.outs[7], p.queues);
    assert NodeWired(dispatcher, t.kinds[8], t.inputs[8], t.outs[8], p.queues);
  }
}

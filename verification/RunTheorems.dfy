/**
 What holds in every reachable state of every well-formed pipeline: where a frame
 comes from, in which order frames arrive, that none is sent twice, and what counters
 behind the taggers have counted.
 */
module RunTheorems {
  import opened Bytes
  import opened PipelineRun
  import opened RunInvariant
  import opened RunConservation
  import RT = RuleTable
  import T = Tagger
  import E = Endpoints

  // ---------------------------------------------------------------- provenance

  /** What becomes of `f` on its way along `route`: the nodes after the sniffer work on it in turn. */
  function Image(net: Net, route: seq<Hop>, f: Frame): Option<Frame>
    requires Good(net)
  {
    if |route| <= 1 then Some(f)
    else
      var before := Image(net, route[..|route| - 1], f);
      var i := route[|route| - 1].node;
      if before.None? || i >= |net.topo.kinds| then None
      else if net.topo.kinds[i].Tagger? then T.TagOf(before.value, net.rules)
      else before
  }

  /** `route` begins at sniffer `start`, each of its hops leads to the node of the next one, and the last to queue `q`. */
  predicate Leads(net: Net, start: nat, route: seq<Hop>, q: nat)
    requires Good(net)
  {
    && route != []
    && var h := route[|route| - 1];
       && h.node < |net.topo.kinds| && h.out < |net.topo.outs[h.node]| && Target(net, h.node, h.out) == q
       && if |route| == 1 then h.node == start && net.topo.kinds[start].Sniffer?
          else Reads(net, h.node) && Leads(net, start, route[..|route| - 1], Input(net, h.node))
  }

  /** A frame that did not come from a sniffer: the frame its last node took in, and what it made of it. */
  lemma Parent(net: Net, s: State, q: nat, k: nat)
    requires Inv(net, s) && q < |s.hist| && k < |s.hist[q]|
    ensures Good(net) && |net.topo.outs| == |net.topo.kinds|
    ensures var t := s.hist[q][k];
            && t.route != [] && LastHop(t).node < |net.topo.kinds| && !net.topo.kinds[LastHop(t).node].Sender?
            && LastHop(t).out < |net.topo.outs[LastHop(t).node]|
            && Target(net, LastHop(t).node, LastHop(t).out) == q
            && var i := LastHop(t).node;
               && (net.topo.kinds[i].Dispatcher? ==> LastHop(t).out == t.from % |net.topo.outs[i]|)
               && if net.topo.kinds[i].Sniffer? then
                    |t.route| == 1 && t.id == t.from < |s.captured| && s.captured[t.id] == Captured(i, t.bytes)
                  else
                    && Reads(net, i) && Input(net, i) < |s.hist| && t.from < |s.hist[Input(net, i)]|
                    && var u := s.hist[Input(net, i)][t.from];
                       && u.id == t.id && u.route == t.route[..|t.route| - 1] && u.route != []
                       && Worked(net, i, u.bytes) == Some(t.bytes)
  {
    Lengths(net);
    var t := s.hist[q][k];
    assert TokOk(net, s, q, t);
    var i := LastHop(t).node;
    if !net.topo.kinds[i].Sniffer? {
      assert TokOk(net, s, Input(net, i), s.hist[Input(net, i)][t.from]);
    }
    hide Good, Worked, LocalOk, Bound;
  }

  /** Every frame in a queue is the image, along its route, of the frame captured under its identity. */
  lemma {:induction false} Provenance(net: Net, s: State, q: nat, k: nat)
    requires Inv(net, s) && q < |s.hist| && k < |s.hist[q]|
    ensures var t := s.hist[q][k];
            && t.id < |s.captured| && Leads(net, s.captured[t.id].node, t.route, q)
            && Image(net, t.route, s.captured[t.id].bytes) == Some(t.bytes)
    decreases |s.hist[q][k].route|
  {
    hide Inv, Good, T.TagOf;
    var t := s.hist[q][k];
    Parent(net, s, q, k);
    var i := LastHop(t).node;
    if !net.topo.kinds[i].Sniffer? {
      Provenance(net, s, Input(net, i), t.from);
    }
  }

  // ---------------------------------------------------------------- order

  /** Frames that took one route into a queue are there in the order of capture. */
  lemma {:induction false} SameRouteInOrder(net: Net, s: State, q: nat, a: nat, b: nat)
    requires Inv(net, s) && q < |s.hist| && a < b < |s.hist[q]|
    requires s.hist[q][a].route == s.hist[q][b].route
    ensures s.hist[q][a].id < s.hist[q][b].id
    decreases |s.hist[q][a].route|
  {
    var t, u := s.hist[q][a], s.hist[q][b];
    assert Before(t, u) by {
      assert Ordered(s.hist[q]);
    }
    Parent(net, s, q, a);
    Parent(net, s, q, b);
    hide Inv, Good, Worked;
    var i := LastHop(t).node;
    if !net.topo.kinds[i].Sniffer? {
      SameRouteInOrder(net, s, Input(net, i), t.from, u.from);
    }
  }

  /** A dispatcher deals in turn: what reaches output `j` of `n` is every `n`-th frame it took in. */
  lemma DealtInTurn(net: Net, s: State, q: nat, k: nat)
    requires Inv(net, s) && q < |s.hist| && k < |s.hist[q]|
    ensures var t := s.hist[q][k];
            && t.route != [] && LastHop(t).node < |net.topo.kinds|
            && var i := LastHop(t).node;
               net.topo.kinds[i].Dispatcher? ==>
                 && net.topo.outs[i] != [] && LastHop(t).out == t.from % |net.topo.outs[i]|
                 && Reads(net, i) && t.from < |s.hist[Input(net, i)]|
                 && s.hist[Input(net, i)][t.from].id == t.id && s.hist[Input(net, i)][t.from].bytes == t.bytes
  {
    Parent(net, s, q, k);
    hide Inv, Good;
  }

  /** In every reachable state the index of a dispatcher is the number of frames it has taken in, modulo its outputs. */
  lemma TurnAgrees(net: Net, ms: seq<Move>, s: State, i: nat)
    requires Good(net) && Reaches(net, Init(net), ms, s)
    requires Reads(net, i) && net.topo.kinds[i].Dispatcher?
    ensures i < |net.topo.outs| && i < |s.turn| && Input(net, i) < |s.taken|
    ensures var n := |net.topo.outs[i]|;
            n > 0 ==> s.turn[i] == s.taken[Input(net, i)] % n
  {
    InvReached(net, ms, s);
    Lengths(net);
    assert TurnOk(net, s, i);
    hide Inv, Reaches, Init;
  }

  // ---------------------------------------------------------------- no duplication

  /**
   A set of queues without fan-out: a node other than a dispatcher writes to one of them
   at most, and what feeds them reads from them or is a sniffer.
   */
  ghost predicate Trunk(net: Net, trunk: set<nat>)
    requires Good(net)
  {
    && (forall i, j, k :: LeadsInto(net, i, j, trunk) && LeadsInto(net, i, k, trunk) ==>
          net.topo.kinds[i].Dispatcher? || j == k)
    && (forall i, j :: LeadsInto(net, i, j, trunk) && Reads(net, i) ==>
          net.topo.kinds[i].Sniffer? || Input(net, i) in trunk)
  }

  predicate LeadsInto(net: Net, i: int, j: int, qs: set<nat>)
    requires Good(net)
  {
    0 <= i < |net.topo.kinds| && 0 <= j < |net.topo.outs[i]| && net.topo.outs[i][j] in qs
  }

  function AllQueues(n: nat): (qs: set<nat>)
    ensures forall q :: q in qs <==> 0 <= q < n
  {
    if n == 0 then {} else AllQueues(n - 1) + {n - 1}
  }

  /** Where only dispatchers have several outputs, all queues together are such a set. */
  lemma UnicastIsTrunk(net: Net)
    requires Good(net) && Unicast(net)
    ensures Trunk(net, AllQueues(net.topo.queues))
  {
  }

  /** Without fan-out, one frame is never twice at the same depth of the pipeline. */
  lemma {:induction false} OncePerDepth(net: Net, s: State, trunk: set<nat>, q: nat, a: nat, r: nat, b: nat)
    requires Inv(net, s) && Trunk(net, trunk) && q in trunk && r in trunk
    requires q < |s.hist| && a < |s.hist[q]| && r < |s.hist| && b < |s.hist[r]|
    requires s.hist[q][a].id == s.hist[r][b].id && |s.hist[q][a].route| == |s.hist[r][b].route|
    ensures q == r && a == b
    decreases |s.hist[q][a].route|
  {
    var t, u := s.hist[q][a], s.hist[r][b];
    Lengths(net);
    assert a < b && q == r ==> Before(t, u) by {
      assert Ordered(s.hist[q]);
    }
    assert b < a && q == r ==> Before(u, t) by {
      assert Ordered(s.hist[q]);
    }
    Parent(net, s, q, a);
    Parent(net, s, r, b);
    var i, j := LastHop(t).node, LastHop(u).node;
    assert LeadsInto(net, i, LastHop(t).out, trunk) && LeadsInto(net, j, LastHop(u).out, trunk);
    if !net.topo.kinds[i].Sniffer? {
      assert |t.route| > 1;
      OncePerDepth(net, s, trunk, Input(net, i), t.from, Input(net, j), u.from);
      OneReader(net, i, j);
    }
    hide Inv, Good, Worked;
    assert i == j && t.from == u.from;
    assert LastHop(t) == LastHop(u);
  }

  /** The place where a frame was when it had taken the first `n` hops of its route, and the node that took it on. */
  lemma {:induction false} Ancestor(net: Net, s: State, trunk: set<nat>, q: nat, k: nat, n: nat) returns (r: nat, b: nat)
    requires Inv(net, s) && Trunk(net, trunk) && q in trunk
    requires q < |s.hist| && k < |s.hist[q]| && 1 <= n < |s.hist[q][k].route|
    ensures r in trunk && r < |s.hist| && b < |s.hist[r]|
    ensures s.hist[r][b].id == s.hist[q][k].id && s.hist[r][b].route == s.hist[q][k].route[..n]
    ensures var i := s.hist[q][k].route[n].node;
            Reads(net, i) && Input(net, i) == r && !net.topo.kinds[i].Sender?
    decreases |s.hist[q][k].route|
  {
    hide Inv, Good, Worked;
    InvHolds(net, s);
    Lengths(net);
    var t := s.hist[q][k];
    Parent(net, s, q, k);
    var i := LastHop(t).node;
    var p := Input(net, i);
    assert LeadsInto(net, i, LastHop(t).out, trunk);
    if n == |t.route| - 1 {
      r, b := p, t.from;
    } else {
      r, b := Ancestor(net, s, trunk, p, t.from, n);
      assert t.route[..|t.route| - 1][..n] == t.route[..n];
    }
  }

  lemma SentComesFrom(net: Net, s: State, k: nat)
    requires Inv(net, s) && k < |s.ended| && s.ended[k].fate.Sent?
    ensures var e := s.ended[k];
            && Reads(net, e.node) && net.topo.kinds[e.node].Sender? && e.at < |s.hist[Input(net, e.node)]|
            && e.tok == s.hist[Input(net, e.node)][e.at] && E.Sendable(e.tok.bytes)
  {
    assert SentOk(net, s, s.ended[k]);
    hide LocalOk, TokOk, Bound, Good;
  }

  predicate SentFrom(net: Net, s: State, trunk: set<nat>, k: nat)
    requires Good(net)
  {
    k < |s.ended| && s.ended[k].fate.Sent? && Reads(net, s.ended[k].node) && Input(net, s.ended[k].node) in trunk
  }

  /** Two log entries of one frame cannot be at different depths: a sender passes nothing on. */
  lemma NotDeeper(net: Net, s: State, trunk: set<nat>, a: nat, b: nat)
    requires Inv(net, s) && Trunk(net, trunk)
    requires SentFrom(net, s, trunk, a) && SentFrom(net, s, trunk, b)
    requires s.ended[a].tok.id == s.ended[b].tok.id
    ensures |s.ended[a].tok.route| >= |s.ended[b].tok.route|
  {
    SentComesFrom(net, s, a);
    SentComesFrom(net, s, b);
    var e, f := s.ended[a], s.ended[b];
    var p, q := Input(net, e.node), Input(net, f.node);
    Parent(net, s, p, e.at);
    if |e.tok.route| < |f.tok.route| {
      var r, k := Ancestor(net, s, trunk, q, f.at, |e.tok.route|);
      OncePerDepth(net, s, trunk, p, e.at, r, k);
      OneReader(net, e.node, f.tok.route[|e.tok.route|].node);
    }
  }

  /** No frame is sent twice by senders whose frames come along a trunk, whatever else fans out. */
  lemma NoFrameIsSentTwice(net: Net, ms: seq<Move>, s: State, trunk: set<nat>, a: nat, b: nat)
    requires Good(net) && Trunk(net, trunk) && Reaches(net, Init(net), ms, s)
    requires a < b && SentFrom(net, s, trunk, a) && SentFrom(net, s, trunk, b)
    ensures s.ended[a].tok.id != s.ended[b].tok.id
  {
    InvReached(net, ms, s);
    assert SentBefore(s.ended[a], s.ended[b]);
    if s.ended[a].tok.id == s.ended[b].tok.id {
      NotDeeper(net, s, trunk, a, b);
      NotDeeper(net, s, trunk, b, a);
      SentComesFrom(net, s, a);
      SentComesFrom(net, s, b);
      var e, f := s.ended[a], s.ended[b];
      OncePerDepth(net, s, trunk, Input(net, e.node), e.at, Input(net, f.node), f.at);
      OneReader(net, e.node, f.node);
    }
  }

  /** Nothing is invented: what is sent is the image of a captured frame, and shorter than 1518 bytes. */
  lemma SentIsImage(net: Net, ms: seq<Move>, s: State, k: nat)
    requires Good(net) && Reaches(net, Init(net), ms, s)
    requires k < |s.ended| && s.ended[k].fate.Sent?
    ensures var t := s.ended[k].tok;
            && t.id < |s.captured| && E.Sendable(t.bytes)
            && Image(net, t.route, s.captured[t.id].bytes) == Some(t.bytes)
            && Reads(net, s.ended[k].node)
            && Leads(net, s.captured[t.id].node, t.route, Input(net, s.ended[k].node))
  {
    InvReached(net, ms, s);
    SentComesFrom(net, s, k);
    Provenance(net, s, Input(net, s.ended[k].node), s.ended[k].at);
  }

  /** Frames that reach a sender by one route are sent in the order of capture. */
  lemma SentInOrder(net: Net, ms: seq<Move>, s: State, a: nat, b: nat)
    requires Good(net) && Reaches(net, Init(net), ms, s)
    requires a < b < |s.ended| && s.ended[a].fate.Sent? && s.ended[b].fate.Sent?
    requires s.ended[a].node == s.ended[b].node && s.ended[a].tok.route == s.ended[b].tok.route
    ensures s.ended[a].tok.id < s.ended[b].tok.id
  {
    InvReached(net, ms, s);
    SentComesFrom(net, s, a);
    SentComesFrom(net, s, b);
    assert SentBefore(s.ended[a], s.ended[b]);
    SameRouteInOrder(net, s, Input(net, s.ended[a].node), s.ended[a].at, s.ended[b].at);
  }

  // ---------------------------------------------------------------- behind the taggers

  /** Only taggers, and nodes that read from `clean` queues, write to `clean` queues. */
  predicate Behind(net: Net, clean: set<nat>)
    requires Good(net)
  {
    forall i, out :: 0 <= i < |net.topo.kinds| && 0 <= out < |net.topo.outs[i]| && net.topo.outs[i][out] in clean ==>
      || net.topo.kinds[i].Tagger?
      || (!net.topo.kinds[i].Sniffer? && (Reads(net, i) ==> Input(net, i) in clean))
  }

  lemma TaggerTags(net: Net, i: nat, b: Frame, w: Frame)
    requires Good(net) && i < |net.topo.kinds| && net.topo.kinds[i].Tagger?
    requires Worked(net, i, b) == Some(w)
    ensures T.IsVlan(w) && T.Strip(w) == b
  {
    RT.TaggedWhenCovered(net.rules, Be32(b, 30));
    T.StripRestores(b, RT.Lookup(net.rules, Be32(b, 30)));
  }

  /** Every frame in a queue behind the taggers carries a tag. */
  lemma {:induction false} BehindIsTagged(net: Net, s: State, clean: set<nat>, q: nat, k: nat)
    requires Inv(net, s) && Behind(net, clean) && q in clean && q < |s.hist| && k < |s.hist[q]|
    ensures var b := s.hist[q][k].bytes; T.IsVlan(b) && |b| >= 16 && b[12] == 0x81 && b[13] == 0x00
    decreases |s.hist[q][k].route|
  {
    Lengths(net);
    Parent(net, s, q, k);
    hide Inv, Good;
    var t := s.hist[q][k];
    var i := LastHop(t).node;
    assert net.topo.outs[i][LastHop(t).out] in clean;
    if net.topo.kinds[i].Tagger? {
      TaggerTags(net, i, s.hist[Input(net, i)][t.from].bytes, t.bytes);
    } else {
      BehindIsTagged(net, s, clean, Input(net, i), t.from);
    }
  }

  lemma {:induction false} UntaggedIsShort(net: Net, s: State, q: nat, k: nat)
    requires Inv(net, s) && q < |s.hist| && k < |s.hist[q]|
    ensures T.IsVlan(s.hist[q][k].bytes) || |s.hist[q][k].bytes| <= 1518
    decreases |s.hist[q][k].route|
  {
    Lengths(net);
    Parent(net, s, q, k);
    var t := s.hist[q][k];
    var i := LastHop(t).node;
    if net.topo.kinds[i].Sniffer? {
      assert |s.captured[t.id].bytes| <= T.MAX_CAPTURE;
    }
    hide Inv, Good;
    if net.topo.kinds[i].Tagger? {
      TaggerTags(net, i, s.hist[Input(net, i)][t.from].bytes, t.bytes);
    } else if !net.topo.kinds[i].Sniffer? {
      UntaggedIsShort(net, s, Input(net, i), t.from);
    }
  }

  /**
   The tagger's output buffer always suffices: only untagged frames get a tag, and in
   every reachable state of every pipeline those have 1518 bytes at most.
   */
  lemma TaggedFrameFits(net: Net, ms: seq<Move>, s: State, q: nat, k: nat)
    requires Good(net) && Reaches(net, Init(net), ms, s) && q < |s.hist| && k < |s.hist[q]|
    ensures var w := T.TagOf(s.hist[q][k].bytes, net.rules);
            w.Some? ==> |w.value| <= 1522
  {
    InvReached(net, ms, s);
    UntaggedIsShort(net, s, q, k);
    hide Inv, Reaches;
    var f := s.hist[q][k].bytes;
    if T.Taggable(f, net.rules) {
      RT.TaggedWhenCovered(net.rules, Be32(f, 30));
    }
  }

  /**
   Counter agreement: in every reachable state a counter has counted each frame it took
   once by kind and once by size; behind the taggers the count of untagged frames is 0.
   */
  lemma CountersAgree(net: Net, ms: seq<Move>, s: State, clean: set<nat>, i: nat)
    requires Good(net) && Reaches(net, Init(net), ms, s)
    requires Reads(net, i) && net.topo.kinds[i].Counter?
    requires Behind(net, clean) && Input(net, i) in clean
    ensures var q := Input(net, i);
            && Sizes(net, s)
            && var st, took := s.stats[i], FramesOf(s.hist[q][..s.taken[q]]);
               && st.total == st.vlan + st.nonVlan == |took|
               && st.bytes == E.TotalBytes(took)
               && st.nonVlan == 0
  {
    InvReached(net, ms, s);
    var q := Input(net, i);
    var took := FramesOf(s.hist[q][..s.taken[q]]);
    assert StatsOk(net, s, i);
    E.TallyAgrees(took);
    forall k | 0 <= k < |took|
      ensures T.IsVlan(took[k])
    {
      BehindIsTagged(net, s, clean, q, k);
    }
  }
}

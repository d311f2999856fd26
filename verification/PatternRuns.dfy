/**
 The two pipelines of pipeline_patterns/patterns.c, in every reachable state.
 */
module PatternRuns {
  import opened Bytes
  import opened RuleTable
  import opened Topology
  import opened PipelineRun
  import opened RunInvariant
  import opened RunConservation
  import opened RunTheorems
  import N = NodeThreads
  import T = Tagger
  import E = Endpoints

  function VlanNet(rules: seq<Rule>): Net {
    Net(VlanTopo(), rules)
  }

  function LoggingNet(rules: seq<Rule>): Net {
    Net(LoggingTopo(), rules)
  }

  lemma VlanIsGood(rules: seq<Rule>)
    requires ValidRules(rules)
    ensures Good(VlanNet(rules)) && Unicast(VlanNet(rules))
  {
    hide ValidRules;
  }

  lemma LoggingIsGood(rules: seq<Rule>)
    requires ValidRules(rules)
    ensures Good(LoggingNet(rules))
  {
    hide ValidRules;
  }

  // ---------------------------------------------------------------- the routes of the VLAN tagger

  /** Sniffer, dispatcher, tagger `w`, counter. */
  function WorkerRoute(w: nat): seq<Hop> {
    [Hop(0, 0), Hop(5, w), Hop(1 + w, 0), Hop(3, 0)]
  }

  /** Which node writes to which queue. */
  lemma VlanWriters(rules: seq<Rule>, i: nat, out: nat)
    requires ValidRules(rules) && i < 6 && out < |VlanTopo().outs[i]|
    ensures Good(VlanNet(rules))
    ensures match Target(VlanNet(rules), i, out)
            case 0 => i == 0 && out == 0
            case 1 => i == 5 && out == 0
            case 2 => i == 5 && out == 1
            case 3 => (i == 1 || i == 2) && out == 0
            case _ => i == 3 && out == 0
  {
  }

  /** The frames on the way to the workers are the captured ones, unchanged. */
  lemma BeforeTagging(rules: seq<Rule>, s: State, q: nat, k: nat)
    requires ValidRules(rules) && Inv(VlanNet(rules), s) && q <= 2 && q < |s.hist| && k < |s.hist[q]|
    ensures var t := s.hist[q][k];
            && t.id < |s.captured| && t.bytes == s.captured[t.id].bytes
            && t.route == if q == 0 then [Hop(0, 0)] else [Hop(0, 0), Hop(5, q - 1)]
  {
    var net, t := VlanNet(rules), s.hist[q][k];
    Parent(net, s, q, k);
    VlanWriters(rules, LastHop(t).node, LastHop(t).out);
    hide Inv, Good;
    if q != 0 {
      Parent(net, s, 0, t.from);
      var u := s.hist[0][t.from];
      VlanWriters(rules, LastHop(u).node, LastHop(u).out);
      assert u.route == [Hop(0, 0)];
      assert t.route == u.route + [LastHop(t)];
    } else {
      assert t.route == [LastHop(t)];
    }
  }

  lemma VlanReaders(rules: seq<Rule>)
    requires ValidRules(rules) && Good(VlanNet(rules))
    ensures VlanTopo().kinds == [Kind.Sniffer, Kind.Tagger, Kind.Tagger, Kind.Counter, Kind.Sender, Kind.Dispatcher]
    ensures |VlanTopo().outs| == 6
    ensures forall i :: 1 <= i <= 4 ==> Reads(VlanNet(rules), i) && Input(VlanNet(rules), i) == i
  {
    hide ValidRules;
  }

  /** What a worker hands to the counter is the tagged image of a captured frame. */
  lemma FromWorker(rules: seq<Rule>, s: State, k: nat) returns (w: nat)
    requires ValidRules(rules) && Inv(VlanNet(rules), s) && 3 < |s.hist| && k < |s.hist[3]|
    ensures var t := s.hist[3][k];
            && t.id < |s.captured| && T.TagOf(s.captured[t.id].bytes, rules) == Some(t.bytes)
            && w < 2 && t.route == [Hop(0, 0), Hop(5, w), Hop(1 + w, 0)]
  {
    hide Inv, Good, ValidRules, T.TagOf, VlanTopo, Target, Sizes;
    var net, t := VlanNet(rules), s.hist[3][k];
    InvHolds(net, s);
    VlanReaders(rules);
    Parent(net, s, 3, k);
    VlanWriters(rules, LastHop(t).node, LastHop(t).out);
    w := LastHop(t).node - 1;
    BeforeTagging(rules, s, 1 + w, t.from);
    assert t.route == [Hop(0, 0), Hop(5, w)] + [Hop(1 + w, 0)];
  }

  /** The frames before the sender are the tagged images of captured ones. */
  lemma AfterTagging(rules: seq<Rule>, s: State, k: nat) returns (w: nat)
    requires ValidRules(rules) && Inv(VlanNet(rules), s) && 4 < |s.hist| && k < |s.hist[4]|
    ensures var t := s.hist[4][k];
            && t.id < |s.captured| && T.TagOf(s.captured[t.id].bytes, rules) == Some(t.bytes)
            && w < 2 && t.route == WorkerRoute(w)
  {
    hide Inv, Good, ValidRules, T.TagOf, VlanTopo, Target, Sizes;
    var net, t := VlanNet(rules), s.hist[4][k];
    InvHolds(net, s);
    VlanReaders(rules);
    Parent(net, s, 4, k);
    VlanWriters(rules, LastHop(t).node, LastHop(t).out);
    w := FromWorker(rules, s, t.from);
    assert t.route == [Hop(0, 0), Hop(5, w), Hop(1 + w, 0)] + [Hop(3, 0)];
  }

  // ---------------------------------------------------------------- what is sent

  predicate Via(e: End, w: nat) {
    e.fate.Sent? && e.tok.route == WorkerRoute(w)
  }

  /** The frames sent so far that went through worker `w`, in the order of sending. */
  function SentVia(log: seq<End>, w: nat): (es: seq<End>)
    ensures forall e :: e in es ==> e in log && Via(e, w)
  {
    if log == [] then []
    else SentVia(log[..|log| - 1], w) + if Via(log[|log| - 1], w) then [log[|log| - 1]] else []
  }

  function BytesOf(es: seq<End>): seq<Frame> {
    Each(es, (e: End) => e.tok.bytes)
  }

  function CapturedFrames(cs: seq<Captured>): seq<Frame> {
    Each(cs, (c: Captured) => c.bytes)
  }

  predicate Rising(es: seq<End>) {
    forall a, b :: 0 <= a < b < |es| ==> es[a].tok.id < es[b].tok.id
  }

  predicate RisingVia(log: seq<End>, w: nat) {
    forall a, b :: 0 <= a < b < |log| && Via(log[a], w) && Via(log[b], w) ==> log[a].tok.id < log[b].tok.id
  }

  lemma {:induction false} SentViaRises(log: seq<End>, w: nat)
    requires RisingVia(log, w)
    ensures Rising(SentVia(log, w))
  {
    if log == [] {
    } else {
      var n := |log| - 1;
      SentViaRises(log[..n], w);
      forall e | e in SentVia(log[..n], w)
        ensures Via(log[n], w) ==> e.tok.id < log[n].tok.id
      {
        var a :| 0 <= a < n && log[..n][a] == e;
      }
    }
  }

  /** `e` carries the tagged image of the frame that `fs` lists under its identity. */
  predicate IsImage(e: End, fs: seq<Frame>, rules: seq<Rule>)
    requires ValidRules(rules)
  {
    e.tok.id < |fs| && T.TagOf(fs[e.tok.id], rules) == Some(e.tok.bytes)
  }

  /** `s` is `t` with some elements left out. */
  ghost predicate Within(s: seq<Frame>, t: seq<Frame>)
    decreases |t|
  {
    if t == [] then s == []
    else
      || Within(s, t[..|t| - 1])
      || (s != [] && s[|s| - 1] == t[|t| - 1] && Within(s[..|s| - 1], t[..|t| - 1]))
  }

  /** The places `at` of `t`, in strict order, hold the elements of `s`. */
  predicate Picks(at: seq<nat>, s: seq<Frame>, t: seq<Frame>) {
    && |at| == |s|
    && (forall i :: 0 <= i < |at| ==> at[i] < |t| && t[at[i]] == s[i])
    && (forall i, j :: 0 <= i < j < |at| ==> at[i] < at[j])
  }

  lemma WithinMore(s: seq<Frame>, t: seq<Frame>, f: Frame)
    requires Within(s, t)
    ensures Within(s, t + [f])
  {
    assert (t + [f])[..|t|] == t;
  }

  lemma WithinBoth(s: seq<Frame>, t: seq<Frame>, f: Frame)
    requires Within(s, t)
    ensures Within(s + [f], t + [f])
  {
    assert (t + [f])[..|t|] == t && (s + [f])[..|s|] == s;
  }

  /** A subsequence names its places. */
  lemma {:induction false} PlacesOf(s: seq<Frame>, t: seq<Frame>) returns (at: seq<nat>)
    requires Within(s, t)
    ensures Picks(at, s, t)
    decreases |t|
  {
    if t == [] {
      at := [];
    } else if Within(s, t[..|t| - 1]) {
      at := PlacesOf(s, t[..|t| - 1]);
    } else {
      at := PlacesOf(s[..|s| - 1], t[..|t| - 1]);
      at := at + [|t| - 1];
    }
  }

  function FirstPlace(at: seq<nat>): nat {
    if at == [] then 0 else at[0]
  }

  /** Places in order make a subsequence. */
  lemma {:induction false} PickedIsWithin(at: seq<nat>, s: seq<Frame>, t: seq<Frame>)
    requires Picks(at, s, t)
    ensures Within(s, t)
    decreases |t|
  {
    if t == [] {
      assert at == [] || FirstPlace(at) < |t|;
    } else {
      var u, k := t[..|t| - 1], |at| - 1;
      if at != [] && at[k] == |t| - 1 {
        assert Picks(at[..k], s[..k], u);
        PickedIsWithin(at[..k], s[..k], u);
      } else {
        assert Picks(at, s, u) by {
          forall i | 0 <= i < |at|
            ensures at[i] < |u|
          {
            assert i < k ==> at[i] < at[k];
          }
        }
        PickedIsWithin(at, s, u);
      }
    }
  }

  lemma {:induction false} NothingIsWithin(fs: seq<Frame>)
    ensures Within([], fs)
  {
    if fs == [] {
    } else {
      NothingIsWithin(fs[..|fs| - 1]);
    }
  }

  /** Images of captured frames with rising identities are a subsequence of all images. */
  lemma {:induction false} ImagesAreWithin(es: seq<End>, fs: seq<Frame>, rules: seq<Rule>)
    requires ValidRules(rules) && Rising(es)
    requires forall k :: 0 <= k < |es| ==> IsImage(es[k], fs, rules)
    ensures Within(BytesOf(es), T.TagAll(fs, rules))
    decreases |fs|
  {
    hide Within, T.TagOf, ValidRules;
    if es == [] {
      NothingIsWithin(T.TagAll(fs, rules));
      assert BytesOf(es) == [];
    } else {
      var m := |es| - 1;
      assert IsImage(es[m], fs, rules);
      var n := |fs| - 1;
      var all := T.TagAll(fs[..n], rules);
      if es[m].tok.id == n {
        ImagesAreWithin(es[..m], fs[..n], rules);
        WithinBoth(BytesOf(es[..m]), all, es[m].tok.bytes);
        assert BytesOf(es) == BytesOf(es[..m]) + [es[m].tok.bytes];
      } else {
        ImagesAreWithin(es, fs[..n], rules);
        if T.TagOf(fs[n], rules).Some? {
          WithinMore(BytesOf(es), all, T.TagOf(fs[n], rules).value);
        } else {
          assert all + [] == all;
        }
      }
    }
  }

  /**
   Order and provenance. In every reachable state of the VLAN tagger pipeline, under
   any schedule and any pattern of full queues, every sent frame went through one of
   the two workers, and what was sent through a worker is, in order, a subsequence of
   the tagged images of the captured frames.
   */
  lemma WorkerOrder(rules: seq<Rule>, ms: seq<Move>, s: State, w: nat)
    requires ValidRules(rules) && Reaches(VlanNet(rules), Init(VlanNet(rules)), ms, s)
    ensures forall k :: 0 <= k < |s.ended| && s.ended[k].fate.Sent? ==> Via(s.ended[k], 0) || Via(s.ended[k], 1)
    ensures Within(BytesOf(SentVia(s.ended, w)), T.TagAll(CapturedFrames(s.captured), rules))
  {
    var net := VlanNet(rules);
    VlanIsGood(rules);
    InvReached(net, ms, s);
    forall k | 0 <= k < |s.ended| && s.ended[k].fate.Sent?
      ensures Via(s.ended[k], 0) || Via(s.ended[k], 1)
      ensures IsImage(s.ended[k], CapturedFrames(s.captured), rules)
    {
      SentThroughWorker(rules, s, k);
    }
    forall a, b | 0 <= a < b < |s.ended| && Via(s.ended[a], w) && Via(s.ended[b], w)
      ensures s.ended[a].tok.id < s.ended[b].tok.id
    {
      SentThroughWorker(rules, s, a);
      SentThroughWorker(rules, s, b);
      SentInOrder(net, ms, s, a, b);
    }
    hide Inv, Good, Reaches, IsImage, T.TagAll, Within, ValidRules;
    SentViaRises(s.ended, w);
    var es := SentVia(s.ended, w);
    forall k | 0 <= k < |es|
      ensures IsImage(es[k], CapturedFrames(s.captured), rules)
    {
      assert es[k] in es;
    }
    ImagesAreWithin(SentVia(s.ended, w), CapturedFrames(s.captured), rules);
  }

  lemma SenderIsLast(rules: seq<Rule>, i: nat)
    requires ValidRules(rules) && Good(VlanNet(rules)) && Reads(VlanNet(rules), i) && VlanTopo().kinds[i].Sender?
    ensures i == 4 && Input(VlanNet(rules), i) == 4
  {
    hide ValidRules;
  }

  lemma SentThroughWorker(rules: seq<Rule>, s: State, k: nat)
    requires ValidRules(rules) && Inv(VlanNet(rules), s)
    requires k < |s.ended| && s.ended[k].fate.Sent?
    ensures Via(s.ended[k], 0) || Via(s.ended[k], 1)
    ensures IsImage(s.ended[k], CapturedFrames(s.captured), rules) && s.ended[k].node == 4
  {
    hide Inv, Good, ValidRules, T.TagOf, VlanTopo;
    var net := VlanNet(rules);
    InvHolds(net, s);
    SentComesFrom(net, s, k);
    SenderIsLast(rules, s.ended[k].node);
    var w := AfterTagging(rules, s, s.ended[k].at);
  }

  // ---------------------------------------------------------------- further corollaries

  /** The VLAN tagger sends no frame twice. */
  lemma VlanSendsOnce(rules: seq<Rule>, ms: seq<Move>, s: State, a: nat, b: nat)
    requires ValidRules(rules) && Reaches(VlanNet(rules), Init(VlanNet(rules)), ms, s)
    requires a < b < |s.ended| && s.ended[a].fate.Sent? && s.ended[b].fate.Sent?
    ensures s.ended[a].tok.id != s.ended[b].tok.id
  {
    var net, trunk := VlanNet(rules), AllQueues(VlanTopo().queues);
    VlanIsGood(rules);
    UnicastIsTrunk(net);
    InvReached(net, ms, s);
    SentComesFrom(net, s, a);
    SentComesFrom(net, s, b);
    hide Inv, Reaches, Trunk, ValidRules;
    NoFrameIsSentTwice(net, ms, s, trunk, a, b);
  }

  /** Nor does the detailed logging pipeline, although its sniffer and its collector fan out. */
  lemma LoggingSendsOnce(rules: seq<Rule>, ms: seq<Move>, s: State, a: nat, b: nat)
    requires ValidRules(rules) && Reaches(LoggingNet(rules), Init(LoggingNet(rules)), ms, s)
    requires a < b < |s.ended| && s.ended[a].fate.Sent? && s.ended[b].fate.Sent?
    ensures s.ended[a].tok.id != s.ended[b].tok.id
  {
    var net := LoggingNet(rules);
    LoggingIsGood(rules);
    LoggingTrunk(rules);
    InvReached(net, ms, s);
    hide Inv, Good, Reaches, Init, Trunk, ValidRules, LoggingTopo;
    SentComesFrom(net, s, a);
    SentComesFrom(net, s, b);
    LoggingSender(rules, s.ended[a].node);
    LoggingSender(rules, s.ended[b].node);
    NoFrameIsSentTwice(net, ms, s, {0, 1, 2, 4, 5}, a, b);
  }

  lemma LoggingSender(rules: seq<Rule>, i: nat)
    requires Good(LoggingNet(rules)) && Reads(LoggingNet(rules), i) && LoggingTopo().kinds[i].Sender?
    ensures Input(LoggingNet(rules), i) == 5
  {
    hide ValidRules;
  }

  /** The queues on the way to the sender. */
  lemma LoggingTrunk(rules: seq<Rule>)
    requires Good(LoggingNet(rules))
    ensures Trunk(LoggingNet(rules), {0, 1, 2, 4, 5})
  {
    hide ValidRules;
  }

  /** In the VLAN tagger every captured frame is in exactly one place. */
  lemma VlanConservation(rules: seq<Rule>, ms: seq<Move>, s: State, id: nat)
    requires ValidRules(rules) && Reaches(VlanNet(rules), Init(VlanNet(rules)), ms, s)
    ensures Sizes(VlanNet(rules), s)
    ensures Queued(VlanNet(rules), s, id) + Held(s, id)
            + Left(s.ended, Dropped, id) + Left(s.ended, Filtered, id) + Left(s.ended, Skipped, id)
            + Left(s.ended, SendFailed, id) + Left(s.ended, Sent, id) + Left(s.ended, Consumed, id)
            == if id < |s.captured| then 1 else 0
  {
    VlanIsGood(rules);
    EachFrameInOnePlace(VlanNet(rules), ms, s, id);
  }

  /** The tag makes a frame of 1514 bytes, the longest that Ethernet carries untagged, too long for the sender. */
  lemma FullFramesAreTooLong(f: Frame, rules: seq<Rule>)
    requires ValidRules(rules) && T.TagOf(f, rules).Some?
    ensures E.Sendable(T.TagOf(f, rules).value) <==> |f| < 1514
  {
    TaggedWhenCovered(rules, Be32(f, 30));
  }

  /** For example 10.0.0.1 under the tag 1: 1513 bytes can be sent and 1514 cannot. */
  lemma OneByteTooMany()
    ensures var rules := [Rule(0x0A00_0001, 0x0A00_0001, 1)];
            && ValidRules(rules)
            && T.TagOf(T.Sample(1513), rules).Some? && E.Sendable(T.TagOf(T.Sample(1513), rules).value)
            && T.TagOf(T.Sample(1514), rules).Some? && !E.Sendable(T.TagOf(T.Sample(1514), rules).value)
  {
    var rules := [Rule(0x0A00_0001, 0x0A00_0001, 1)];
    assert Covers(rules[0], 0x0A00_0001);
    T.ForwardedExactly(T.Sample(1513), rules);
    T.ForwardedExactly(T.Sample(1514), rules);
    FullFramesAreTooLong(T.Sample(1513), rules);
    FullFramesAreTooLong(T.Sample(1514), rules);
  }

  /** So whatever the VLAN tagger sends was captured with 1513 bytes at most, and stripping the tag gives it back. */
  lemma SentFramesRestore(rules: seq<Rule>, ms: seq<Move>, s: State, k: nat)
    requires ValidRules(rules) && Reaches(VlanNet(rules), Init(VlanNet(rules)), ms, s)
    requires k < |s.ended| && s.ended[k].fate.Sent?
    ensures var t := s.ended[k].tok;
            && t.id < |s.captured| && 34 <= |s.captured[t.id].bytes| < 1514
            && |t.bytes| >= 16 && t.bytes[12] == 0x81 && t.bytes[13] == 0x00
            && T.Strip(t.bytes) == s.captured[t.id].bytes
            && T.VlanId(t.bytes) == Lookup(rules, Be32(s.captured[t.id].bytes, 30)) != 0
  {
    VlanIsGood(rules);
    InvReached(VlanNet(rules), ms, s);
    SentThroughWorker(rules, s, k);
    SentComesFrom(VlanNet(rules), s, k);
    hide Inv, Good, Reaches, ValidRules;
    var f := s.captured[s.ended[k].tok.id].bytes;
    FullFramesAreTooLong(f, rules);
    TaggedWhenCovered(rules, Be32(f, 30));
    T.StripRestores(f, Lookup(rules, Be32(f, 30)));
  }

  /** The same for the threads of the VLAN tagger, statement by statement: whatever goes out is a tagged captured frame. */
  lemma ThreadsSendImages(rules: seq<Rule>, steps: seq<N.Step>, s: N.Threads, k: nat)
    requires ValidRules(rules) && N.Reaches(VlanNet(rules), N.Init(VlanNet(rules)), steps, s)
    requires k < |s.sent|
    ensures exists c :: 0 <= c < |s.captured| && T.TagOf(s.captured[c].bytes, rules) == Some(s.sent[k].bytes)
  {
    var net := VlanNet(rules);
    VlanIsGood(rules);
    var ms, a := N.ThreadsRefineTheRun(net, steps, s);
    InvReached(net, ms, a);
    var j := N.SentLogMember(a.ended, k);
    SentThroughWorker(rules, a, j);
    hide Inv, Good, Reaches, N.Reaches, ValidRules, T.TagOf;
    assert T.TagOf(s.captured[a.ended[j].tok.id].bytes, rules) == Some(s.sent[k].bytes);
  }

  /** Which worker each sent frame went through. */
  function WorkersOf(log: seq<End>): (ws: seq<nat>)
    ensures |ws| == |N.SentLog(log)| && forall k :: 0 <= k < |ws| ==> ws[k] < 2
  {
    if log == [] then []
    else
      var e := log[|log| - 1];
      WorkersOf(log[..|log| - 1]) + if !e.fate.Sent? then [] else if Via(e, 0) then [0] else [1]
  }

  /** The frames that `ws` ascribes to worker `w`, in order. */
  function Picked(sent: seq<N.Out>, ws: seq<nat>, w: nat): seq<Frame>
    requires |ws| == |sent|
  {
    if sent == [] then []
    else
      var n := |sent| - 1;
      Picked(sent[..n], ws[..n], w) + if ws[n] == w then [sent[n].bytes] else []
  }

  lemma {:induction false} PickedIsVia(log: seq<End>, w: nat)
    requires w < 2 && forall k :: 0 <= k < |log| && log[k].fate.Sent? ==> Via(log[k], 0) || Via(log[k], 1)
    ensures Picked(N.SentLog(log), WorkersOf(log), w) == BytesOf(SentVia(log, w))
  {
    if log == [] {
    } else {
      var n := |log| - 1;
      PickedIsVia(log[..n], w);
      if log[n].fate.Sent? {
        OneRoute(log[n]);
        var sent, ws := N.SentLog(log), WorkersOf(log);
        assert sent[..|sent| - 1] == N.SentLog(log[..n]) && ws[..|sent| - 1] == WorkersOf(log[..n]);
        BytesSnoc(SentVia(log[..n], w), log[n]);
        assert SentVia(log[..n], w) + [] == SentVia(log[..n], w);
      } else {
        assert N.SentLog(log) == N.SentLog(log[..n]) && WorkersOf(log) == WorkersOf(log[..n]);
        assert SentVia(log, w) == SentVia(log[..n], w);
      }
    }
  }

  lemma OneRoute(e: End)
    ensures !(Via(e, 0) && Via(e, 1))
  {
    assert WorkerRoute(0)[1] != WorkerRoute(1)[1];
  }

  lemma BytesSnoc(es: seq<End>, e: End)
    ensures BytesOf(es + [e]) == BytesOf(es) + [e.tok.bytes]
  {
  }

  /**
   Order for the threads of the VLAN tagger: what they send, statement by statement,
   splits into two sequences, each a subsequence of the tagged images of the captures.
   */
  lemma ThreadsKeepOrder(rules: seq<Rule>, steps: seq<N.Step>, s: N.Threads) returns (ws: seq<nat>)
    requires ValidRules(rules) && N.Reaches(VlanNet(rules), N.Init(VlanNet(rules)), steps, s)
    ensures |ws| == |s.sent| && forall k :: 0 <= k < |ws| ==> ws[k] < 2
    ensures forall w :: 0 <= w < 2 ==> Within(Picked(s.sent, ws, w), T.TagAll(CapturedFrames(s.captured), rules))
  {
    hide Good, Reaches, N.Reaches, N.Init, ValidRules, T.TagAll, Within, Via, Picked;
    VlanIsGood(rules);
    var ms, a := N.ThreadsRefineTheRun(VlanNet(rules), steps, s);
    ws := WorkersOf(a.ended);
    forall w | 0 <= w < 2
      ensures Within(Picked(s.sent, ws, w), T.TagAll(CapturedFrames(s.captured), rules))
    {
      WorkerOrder(rules, ms, a, w);
      PickedIsVia(a.ended, w);
    }
  }

  /** The counters of both patterns never see an untagged frame. */
  lemma PatternCountersAgree(rules: seq<Rule>, ms: seq<Move>, s: State, logging: bool)
    requires var net := if logging then LoggingNet(rules) else VlanNet(rules);
             ValidRules(rules) && Reaches(net, Init(net), ms, s)
    ensures var i, q := if logging then 6 else 3, if logging then 7 else 3;
            && i < |s.stats| && q < |s.hist| && q < |s.taken| && s.taken[q] <= |s.hist[q]|
            && var st, took := s.stats[i], FramesOf(s.hist[q][..s.taken[q]]);
               st == E.Stats(|took|, E.TotalBytes(took), |took|, 0)
  {
    hide Reaches, Init, ValidRules, VlanTopo, LoggingTopo;
    if logging {
      LoggingIsGood(rules);
      LoggingIsBehind(rules);
      CountersAgree(LoggingNet(rules), ms, s, {4, 5, 6, 7}, 6);
    } else {
      VlanIsGood(rules);
      VlanIsBehind(rules);
      CountersAgree(VlanNet(rules), ms, s, {3, 4}, 3);
    }
  }

  lemma VlanIsBehind(rules: seq<Rule>)
    requires Good(VlanNet(rules))
    ensures Behind(VlanNet(rules), {3, 4}) && Reads(VlanNet(rules), 3) && Input(VlanNet(rules), 3) == 3
    ensures VlanTopo().kinds[3].Counter?
  {
  }

  lemma LoggingIsBehind(rules: seq<Rule>)
    requires Good(LoggingNet(rules))
    ensures Behind(LoggingNet(rules), {4, 5, 6, 7}) && Reads(LoggingNet(rules), 6) && Input(LoggingNet(rules), 6) == 7
    ensures LoggingTopo().kinds[6].Counter?
  {
  }
}

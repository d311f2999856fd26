/**
 The shape of a pipeline: what kind each node is, which queue it reads and which
 queues it writes. `Graph` builds such shapes; `PipelineRun` runs them.
 */
module Topology {
  import opened Bytes

  datatype Kind = Sniffer | Tagger | Counter | Logger | Collector | Sender | Dispatcher

  /** Nodes and queues are numbered in the order in which they were added. */
  datatype Topo = Topo(kinds: seq<Kind>, inputs: seq<Option<nat>>, outs: seq<seq<nat>>, queues: nat)

  /** Every edge leads to a queue, and no two nodes read the same one. */
  predicate WellFormed(t: Topo) {
    && |t.kinds| == |t.inputs| == |t.outs|
    && (forall i :: 0 <= i < |t.inputs| && t.inputs[i].Some? ==> t.inputs[i].value < t.queues)
    && (forall i, k :: 0 <= i < |t.outs| && 0 <= k < |t.outs[i]| ==> t.outs[i][k] < t.queues)
    && (forall i, j :: 0 <= i < j < |t.inputs| && t.inputs[i].Some? ==> t.inputs[i] != t.inputs[j])
  }

  /** Sniffer -> Dispatcher -> [Tagger1, Tagger2] -> PacketCounter -> Sender. */
  function VlanTopo(): Topo {
    Topo([Sniffer, Tagger, Tagger, Counter, Sender, Dispatcher],
         [None, Some(1), Some(2), Some(3), Some(4), Some(0)],
         [[0], [3], [3], [4], [], [1, 2]],
         5)
  }

  /** Sniffer -> Dispatcher, Logger1; the taggers -> Collector -> Sender, Logger2, PacketCounter. */
  function LoggingTopo(): Topo {
    Topo([Sniffer, Tagger, Tagger, Collector, Logger, Logger, Counter, Sender, Dispatcher],
         [None, Some(1), Some(2), Some(4), Some(3), Some(6), Some(7), Some(5), Some(0)],
         [[0, 3], [4], [4], [5, 6, 7], [], [], [], [], [1, 2]],
         8)
  }
}

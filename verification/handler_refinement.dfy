/** Handling a message in one go, as the engine does, is a sequence of network steps. */
module HandlerRefinement {
  import opened Types
  import opened VectorClocks
  import opened CrdtSpec
  import opened Delivery
  import opened Replication
  import opened Closure
  import opened GossipSpec
  import opened Gossip

  lemma CanApplyNext(net: Net, n: Id)
    requires NetInv(net) && n in net.inbox && net.inbox[n] != []
    ensures CanStep(net, ApplyNext(n)) && NetInv(NextNet(net, ApplyNext(n)))
    ensures n in net.world.nodes && n in NextNet(net, ApplyNext(n)).world.nodes
    ensures NextNet(net, ApplyNext(n)).world.nodes[n] == Apply(net.world.nodes[n], net.inbox[n][0])
  {
    hide CausalInv, PacketsOk, SnapsOk, Apply, Deliverable, AllInTransit;
    ApplyNextKeeps(net, n);
  }

  /** The network after node n has worked through what it started on. */
  ghost function Drained(net: Net, n: Id): (out: Net)
    requires NetInv(net) && n in net.inbox
    ensures NetInv(out) && n in out.inbox && out.inbox[n] == [] && out.sent == net.sent
    decreases |net.inbox[n]|
  {
    if net.inbox[n] == [] then net
    else
      CanApplyNext(net, n);
      Drained(NextNet(net, ApplyNext(n)), n)
  }

  /** Applying the batch one operation at a time. */
  lemma {:induction false} DrainedAppliesAll(net: Net, n: Id)
    requires NetInv(net) && n in net.inbox
    ensures n in net.world.nodes && n in Drained(net, n).world.nodes
    ensures Drained(net, n).world.nodes[n] == ApplyAll(net.world.nodes[n], net.inbox[n])
    decreases |net.inbox[n]|
  {
    hide CausalInv, PacketsOk, SnapsOk, Apply, Deliverable, Do, AllInTransit;
    if net.inbox[n] != [] {
      CanApplyNext(net, n);
      DrainedAppliesAll(NextNet(net, ApplyNext(n)), n);
    }
  }

  /** Receiving p as it arrives, applying its operations and answering: the steps of the network
      reach the state and the reply that the engine's handler computes from the decoded message,
      keeping the network's invariant. */
  lemma HandlerIsNetworkSteps(net: Net, n: Id, p: Packet)
    requires NetInv(net) && CanStep(net, StartBatch(n, p))
    ensures var started := NextNet(net, StartBatch(n, p));
            && NetInv(started) && n in started.inbox
            && var drained := Drained(started, n);
            && n in drained.world.nodes && drained.world.nodes[n] == ApplyAll(net.world.nodes[n], Batch(ArrivedMessage(p.msg)))
            && CanStep(drained, Answer(n, p))
            && var reply := ReplyTo(ApplyAll(net.world.nodes[n], Batch(ArrivedMessage(p.msg))), ArrivedMessage(p.msg));
            && NextNet(drained, Answer(n, p)).sent
               == net.sent + (if reply.None? then {} else {Packet(p.msg.senderId, reply.value)})
            && NetInv(NextNet(drained, Answer(n, p)))
  {
    hide CausalInv, PacketsOk, SnapsOk, InboxOk, ApplyAll, ReplyTo, Batch, NetInv, Drained, ArrivedMessage, HoldsDropped;
    NetStepKeeps(net, StartBatch(n, p));
    var started := NextNet(net, StartBatch(n, p));
    DrainedAppliesAll(started, n);
    NetStepKeeps(Drained(started, n), Answer(n, p));
  }
}

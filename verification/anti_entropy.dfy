/** What a whole anti-entropy exchange achieves, and what gathering to one node and scattering
    from it achieves, over arbitrary runs of the network. */
module AntiEntropy {
  import opened Types
  import opened VectorClocks
  import opened CrdtSpec
  import opened ClockCodec
  import opened Delivery
  import opened Replication
  import opened Closure
  import opened GossipSpec
  import opened Gossip

  /** With asked a clock of r's past at step i, answered by s at step j: once r holds the whole
      (possibly stale) answer at step k, it holds everything s held when it answered. */
  lemma AnswerSuffices(nets: seq<Net>, steps: seq<Step>, i: nat, j: nat, k: nat, asked: Entries, r: Id, s: Id)
    requires IsNetRun(nets, steps) && SafePushes(nets, steps) && i <= j <= k < |nets|
    requires PastClock(nets[i].world, asked, r) && s in nets[j].world.nodes && r in nets[k].world.nodes
    requires Ids(Since(nets[j].world.nodes[s].log, asked)) <= nets[k].world.nodes[r].seen
    ensures nets[j].world.nodes[s].seen <= nets[k].world.nodes[r].seen
  {
    hide IsNetRun, SafePushes, CausalInv, Later, Since, Known, BoundedClock, InOrder, AllMade;
    NetRunKeeps(nets, steps, j);
    var wi, wj, wk := nets[i].world, nets[j].world, nets[k].world;
    OwnClockPast(wj, s);
    RunIsLater(nets, steps, i, j);
    RunIsLater(nets, steps, i, k);
    LaterExtends(wi, wj);
    LaterExtends(wi, wk);
    KnownLater(wi, wj, asked, wi.nodes[r].seen);
    AnswerComplete(wj.made, wj.nodes[s].log, asked, wi.nodes[r].seen);
  }

  /** r starts on the batch in p at step a and is done with it, and with no other one, by step b. */
  ghost predicate Works(nets: seq<Net>, steps: seq<Step>, a: nat, b: nat, r: Id, p: Packet) {
    && a < b < |nets| && b <= |steps| && steps[a] == StartBatch(r, p)
    && (forall c | a < c < b :: !(steps[c].StartBatch? && steps[c].n == r))
    && r in nets[b].inbox && nets[b].inbox[r] == []
  }

  /** Nothing of a batch is forgotten while it is worked through, whatever else happens. */
  lemma {:induction false} BatchProgress(nets: seq<Net>, steps: seq<Step>, a: nat, b: nat, c: nat, r: Id, p: Packet)
    requires IsNetRun(nets, steps) && SafePushes(nets, steps) && Works(nets, steps, a, b, r, p) && a < c <= b
    ensures r in nets[c].inbox && r in nets[c].world.nodes
    ensures Ids(Batch(ArrivedMessage(p.msg))) <= nets[c].world.nodes[r].seen + Ids(nets[c].inbox[r])
  {
    hide IsNetRun, SafePushes, NetInv, StartNet, CanStep, NextNet, Batch, ArrivedMessage;
    NetRunStep(nets, steps, c);
    NetRunKeeps(nets, steps, c - 1);
    if c == a + 1 {
      BatchStarted(nets[a], r, p);
    } else {
      BatchProgress(nets, steps, a, b, c - 1, r, p);
      StepForgetsNothing(nets[c - 1], steps[c - 1], r);
    }
  }

  lemma BatchStarted(net: Net, r: Id, p: Packet)
    requires CanStep(net, StartBatch(r, p))
    ensures var next := NextNet(net, StartBatch(r, p));
            r in next.world.nodes && r in next.inbox && next.inbox[r] == Batch(ArrivedMessage(p.msg))
  {
  }

  lemma StepForgetsNothing(net: Net, st: Step, r: Id)
    requires NetInv(net) && CanStep(net, st) && r in net.inbox && r in net.world.nodes
    requires !(st.StartBatch? && st.n == r)
    ensures var next := NextNet(net, st);
            && r in next.inbox && r in next.world.nodes
            && net.world.nodes[r].seen + Ids(net.inbox[r]) <= next.world.nodes[r].seen + Ids(next.inbox[r])
  {
    hide NetInv, CanStep, NextNet, Later, Ids;
    NetStepIsLater(net, st);
    LaterExtends(net.world, NextNet(net, st).world);
    if st == ApplyNext(r) {
      HeadApplied(net, r);
    } else {
      InboxKept(net, st, r);
    }
  }

  lemma InboxKept(net: Net, st: Step, r: Id)
    requires CanStep(net, st) && r in net.inbox && st != ApplyNext(r) && !(st.StartBatch? && st.n == r)
    ensures r in NextNet(net, st).inbox && NextNet(net, st).inbox[r] == net.inbox[r]
  {
    hide Do, ReplyTo, Outgoing, Batch, ArrivedMessage;
  }

  lemma HeadApplied(net: Net, r: Id)
    requires NetInv(net) && CanStep(net, ApplyNext(r))
    ensures var next := NextNet(net, ApplyNext(r));
            && r in next.inbox && r in next.world.nodes
            && net.world.nodes[r].seen + Ids(net.inbox[r]) <= next.world.nodes[r].seen + Ids(next.inbox[r])
  {
    hide NetInv, Ids, Merged, ApplyToBook;
    var ops := net.inbox[r];
    assert ops == [ops[0]] + ops[1..];
    IdsConcat([ops[0]], ops[1..]);
    IdsOne(ops[0]);
  }

  lemma IdsOne(op: Operation)
    ensures Ids([op]) == {op.opId}
  {
  }

  /** r asks s at step i with the clock it last read; s answers at step j; r works through the
      answer from step a to step b. */
  ghost predicate Exchange(nets: seq<Net>, steps: seq<Step>, i: nat, j: nat, a: nat, b: nat, r: Id, s: Id) {
    && |nets| == |steps| + 1 && i < j < a < b < |nets|
    && steps[i] == Send(r, s, AntiEntropyReq) && r in nets[i].world.nodes && r in nets[i].snap
    && var request := Outgoing(nets[i].world.nodes[r], AntiEntropyReq, nets[i].snap[r]);
    && steps[j] == Answer(s, Packet(s, request)) && s in nets[j].world.nodes
    && var reply := ReplyTo(nets[j].world.nodes[s], ArrivedMessage(request));
    && reply.Some? && Works(nets, steps, a, b, r, Packet(r, reply.value))
  }

  lemma AnswerBatch(n: Node, r: Node, clock: Clock)
    ensures var reply := ReplyTo(n, ArrivedMessage(Outgoing(r, AntiEntropyReq, clock)));
            && reply.Some?
            && Batch(ArrivedMessage(reply.value)) == ArrivedAll(Since(n.log, Restored(clock).entries))
  {
    hide Restored, ArrivedAll, Since;
    var request := Outgoing(r, AntiEntropyReq, clock);
    ArrivedMessageParts(request);
    hide ArrivedMessage;
    ArrivedMessageParts(ReplyTo(n, ArrivedMessage(request)).value);
  }

  /** Anti-entropy completeness: after a whole exchange, with anything else going on before, between
      and after its parts, the requester holds everything the responder held when it answered. */
  lemma AntiEntropyComplete(nets: seq<Net>, steps: seq<Step>, i: nat, j: nat, a: nat, b: nat, r: Id, s: Id)
    requires IsNetRun(nets, steps) && SafePushes(nets, steps) && Exchange(nets, steps, i, j, a, b, r, s)
    ensures r in nets[b].world.nodes && s in nets[j].world.nodes
    ensures nets[j].world.nodes[s].seen <= nets[b].world.nodes[r].seen
  {
    hide IsNetRun, SafePushes, CausalInv, PacketsOk, InboxOk, Works, ReplyTo, Outgoing, Batch, PastClock, Ids, Since,
      ArrivedMessage, ArrivedAll, Restored;
    NetRunKeeps(nets, steps, i);
    var clock := nets[i].snap[r];
    var responder := nets[j].world.nodes[s];
    AnswerBatch(responder, nets[i].world.nodes[r], clock);
    var request := Outgoing(nets[i].world.nodes[r], AntiEntropyReq, clock);
    var p := Packet(r, ReplyTo(responder, ArrivedMessage(request)).value);
    BatchProgress(nets, steps, a, b, b, r, p);
    WorksEmpty(nets, steps, a, b, r, p);
    var asked := Restored(clock).entries;
    ArrivedIds(Since(responder.log, asked));
    RestoredPast(nets[i].world, clock, r);
    AnswerSuffices(nets, steps, i, j, b, asked, r, s);
  }

  lemma WorksEmpty(nets: seq<Net>, steps: seq<Step>, a: nat, b: nat, r: Id, p: Packet)
    requires Works(nets, steps, a, b, r, p)
    ensures r in nets[b].inbox && nets[b].inbox[r] == [] && Ids(nets[b].inbox[r]) == {}
  {
  }

  /** Some exchange in which r pulls from s is answered at or after from and done by upto. */
  ghost predicate Pulled(nets: seq<Net>, steps: seq<Step>, from: nat, upto: nat, r: Id, s: Id) {
    exists i: nat, j: nat, a: nat, b: nat :: Exchange(nets, steps, i, j, a, b, r, s) && from <= j && b <= upto
  }

  lemma PulledHolds(nets: seq<Net>, steps: seq<Step>, from: nat, upto: nat, r: Id, s: Id)
    requires IsNetRun(nets, steps) && SafePushes(nets, steps) && from <= upto < |nets|
    requires Pulled(nets, steps, from, upto, r, s)
    ensures s in nets[from].world.nodes && r in nets[upto].world.nodes
    ensures nets[from].world.nodes[s].seen <= nets[upto].world.nodes[r].seen
  {
    hide IsNetRun, SafePushes, Later, Exchange;
    var i: nat, j: nat, a: nat, b: nat :| Exchange(nets, steps, i, j, a, b, r, s) && from <= j && b <= upto;
    ExchangeOrder(nets, steps, i, j, a, b, r, s);
    AntiEntropyComplete(nets, steps, i, j, a, b, r, s);
    RunIsLater(nets, steps, from, j);
    RunIsLater(nets, steps, b, upto);
    LaterExtends(nets[from].world, nets[j].world);
    LaterExtends(nets[b].world, nets[upto].world);
  }

  lemma ExchangeOrder(nets: seq<Net>, steps: seq<Step>, i: nat, j: nat, a: nat, b: nat, r: Id, s: Id)
    requires Exchange(nets, steps, i, j, a, b, r, s)
    ensures i < j < a < b < |nets|
  {
  }

  /** Gather and scatter: one node pulls from all others, then all others pull from it. Everything
      made by the beginning is then held by every node, and if nothing was made meanwhile all logs
      are equal as sets. */
  lemma GatherScatter(nets: seq<Net>, steps: seq<Step>, t0: nat, t1: nat, t2: nat, hub: Id)
    requires IsNetRun(nets, steps) && SafePushes(nets, steps) && t0 <= t1 <= t2 < |nets|
    requires hub in nets[t0].world.nodes
    requires forall s | s in nets[t0].world.nodes && s != hub :: Pulled(nets, steps, t0, t1, hub, s)
    requires forall r | r in nets[t0].world.nodes && r != hub :: Pulled(nets, steps, t1, t2, r, hub)
    ensures forall r | r in nets[t2].world.nodes :: nets[t0].world.made.Keys <= nets[t2].world.nodes[r].seen
    ensures nets[t2].world.made.Keys == nets[t0].world.made.Keys ==>
              forall r | r in nets[t2].world.nodes :: nets[t2].world.nodes[r].seen == nets[t2].world.made.Keys
  {
    hide IsNetRun, SafePushes, Pulled, Later, NetInv;
    RunIsLater(nets, steps, t0, t1);
    RunIsLater(nets, steps, t1, t2);
    LaterExtends(nets[t0].world, nets[t1].world);
    LaterExtends(nets[t1].world, nets[t2].world);
    NetRunKeeps(nets, steps, t0);
    NetRunKeeps(nets, steps, t2);
    forall r, x | r in nets[t2].world.nodes && x in nets[t0].world.made
      ensures x in nets[t2].world.nodes[r].seen
    {
      var o := OriginHolds(nets[t0], x);
      if o != hub { PulledHolds(nets, steps, t0, t1, hub, o); }
      if r != hub { PulledHolds(nets, steps, t1, t2, r, hub); }
    }
    forall r | r in nets[t2].world.nodes
      ensures nets[t2].world.nodes[r].seen <= nets[t2].world.made.Keys
    {
      OnlyMadeHeld(nets[t2], r);
    }
  }

  lemma OriginHolds(net: Net, x: Id) returns (o: Id)
    requires NetInv(net) && x in net.world.made
    ensures o in net.world.nodes && x in net.world.nodes[o].seen
  {
    o := net.world.made[x].op.originNode;
    hide LogsOk, NodeClosed, PacketsOk, InboxOk, SnapsOk;
    assert KnownOp(net.world, x);
  }

  lemma OnlyMadeHeld(net: Net, r: Id)
    requires NetInv(net) && r in net.world.nodes
    ensures net.world.nodes[r].seen <= net.world.made.Keys
  {
    hide MadeOk, NodeClosed, PacketsOk, InboxOk, SnapsOk, Leq;
    forall x | x in net.world.nodes[r].seen
      ensures x in net.world.made
    {
      SeenIsLogged(net.world.nodes[r], net.world.made, x);
    }
  }
}

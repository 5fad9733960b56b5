/** What a node sends and answers, as functions of its state. */
module GossipSpec {
  import opened Types
  import opened VectorClocks
  import opened CrdtSpec

  predicate CarriesOps(kind: MessageType) {
    kind.GossipPush? || kind.GossipPushPull? || kind.AntiEntropyRes?
  }

  /** A message a node sends on its own account: pushes carry recent operations, requests none. */
  function Outgoing(n: Node, kind: MessageType, clock: Clock): Message {
    Message(kind, n.id, clock, if kind.GossipPush? || kind.GossipPushPull? then PushOps(n.log) else [])
  }

  /** The operations a received message asks the node to apply, one after another. */
  function Batch(msg: Message): seq<Operation> {
    if CarriesOps(msg.kind) then msg.operations else []
  }

  /** The reply to a received message, computed from the node's present log. */
  ghost function ReplyTo(n: Node, msg: Message): Option<Message> {
    var ops := Since(n.log, msg.senderClock.entries);
    match msg.kind
    case GossipPull => if ops == [] then None else Some(Message(GossipPush, n.id, n.clock, ops))
    case GossipPushPull => if ops == [] then None else Some(Message(GossipPush, n.id, n.clock, FirstOps(ops)))
    case AntiEntropyReq => Some(Message(AntiEntropyRes, n.id, n.clock, ops))
    case _ => None
  }

  /** What a message carries: a push or push-pull the log, or its last twenty operations where there
      are more; anything else nothing. */
  lemma OutgoingCarries(n: Node, kind: MessageType, clock: Clock)
    ensures var msg := Outgoing(n, kind, clock);
            && msg.kind == kind && msg.senderId == n.id && msg.senderClock == clock
            && ((kind.GossipPush? || kind.GossipPushPull?) && |n.log| <= 20 ==> msg.operations == n.log)
            && ((kind.GossipPush? || kind.GossipPushPull?) && |n.log| > 20 ==> msg.operations == n.log[|n.log| - 20..])
            && (!kind.GossipPush? && !kind.GossipPushPull? ==> msg.operations == [])
  {
  }

  /** Pushes, push-pulls and anti-entropy answers have every operation they carry applied; no other
      message changes the node. */
  lemma BatchTaken(n: Node, msg: Message)
    ensures var after := ApplyAll(n, Batch(msg));
            if msg.kind.GossipPush? || msg.kind.GossipPushPull? || msg.kind.AntiEntropyRes? then
              && (forall op | op in msg.operations :: op.opId in after.seen)
              && after.seen == n.seen + Ids(msg.operations)
            else
              after == n
  {
    hide Apply;
    var added := BatchLogged(n, Batch(msg));
  }

  /** Who is answered, and with what. A pull or push-pull is answered if and only if some logged
      operation is neither strictly below the sender's clock nor at that very clock, with a push of
      all such operations in log order, cut to the first twenty for a push-pull. An anti-entropy
      request is always answered with all of them, and nothing else is answered. */
  lemma AnsweredExactly(n: Node, msg: Message) returns (at: seq<nat>, all: seq<Operation>)
    ensures Sifted(n.log, msg.senderClock.entries, at, all)
    ensures var reply, peer := ReplyTo(n, msg), msg.senderClock.entries;
            && (msg.kind.GossipPull? || msg.kind.GossipPushPull? ==>
                  (reply.Some? <==> exists op :: op in n.log && !Before(op.clock.entries, peer) && op.clock.entries != peer))
            && (msg.kind.AntiEntropyReq? ==> reply.Some?)
            && (reply.Some? ==> msg.kind.GossipPull? || msg.kind.GossipPushPull? || msg.kind.AntiEntropyReq?)
            && (reply.Some? ==>
                  && reply.value.senderId == n.id && reply.value.senderClock == n.clock
                  && reply.value.kind == (if msg.kind.AntiEntropyReq? then AntiEntropyRes else GossipPush)
                  && reply.value.operations == if msg.kind.GossipPushPull? && |all| > 20 then all[..20] else all)
  {
    hide Before, Since, Sifted;
    all := Since(n.log, msg.senderClock.entries);
    at := SinceSifts(n.log, msg.senderClock.entries);
    SiftedMembers(n.log, msg.senderClock.entries, at, all);
    if all != [] {
      assert all[0] in all;
    }
  }

  /** In particular an operation made at the very clock the requester has is not sent again. */
  lemma SameClockNotAnswered(n: Node, msg: Message, op: Operation)
    requires op in n.log && op.clock.entries == msg.senderClock.entries && ReplyTo(n, msg).Some?
    ensures op !in ReplyTo(n, msg).value.operations
  {
    hide Before, Since, Sifted, ReplyTo;
    var at, all := AnsweredExactly(n, msg);
    SiftedMembers(n.log, msg.senderClock.entries, at, all);
  }
}

/** The replicas with a lossy, duplicating, reordering network between them. Every message ever
    sent may be delivered at any later time, any number of times, or never, and arrives as the wire
    carries it; a node works through one delivered batch at a time, and local operations interleave
    with it. */
module Gossip {
  import opened Types
  import opened VectorClocks
  import opened BookSpec
  import opened CrdtSpec
  import opened Delivery
  import opened ClockCodec
  import opened Replication
  import opened Closure
  import opened GossipSpec

  datatype Packet = Packet(dst: Id, msg: Message)

  /** snap is the clock a node read at the start of its present gossip round. */
  datatype Net = Net(world: World, sent: set<Packet>, inbox: map<Id, seq<Operation>>, snap: map<Id, Clock>)

  datatype Step =
    | Local(e: Event)
    | ReadClock(n: Id)
    | Send(n: Id, dst: Id, kind: MessageType)
    | Answer(n: Id, p: Packet)
    | StartBatch(n: Id, p: Packet)
    | ApplyNext(n: Id)

  ghost predicate CanStep(net: Net, st: Step) {
    match st
    case Local(e) => !e.ApplyAt? && Enabled(net.world, e)
    case ReadClock(n) => n in net.world.nodes
    case Send(n, dst, kind) =>
      n in net.world.nodes && dst in net.world.nodes && n in net.snap && !kind.AntiEntropyRes?
    case Answer(n, p) => n in net.world.nodes && p in net.sent && p.dst == n
    case StartBatch(n, p) => n in net.world.nodes && p in net.sent && p.dst == n && n in net.inbox && net.inbox[n] == []
    case ApplyNext(n) => n in net.world.nodes && n in net.inbox && net.inbox[n] != []
  }

  ghost function NextNet(net: Net, st: Step): Net
    requires CanStep(net, st)
  {
    match st
    case Local(e) => net.(world := Do(net.world, e))
    case ReadClock(n) => net.(snap := net.snap[n := net.world.nodes[n].clock])
    case Send(n, dst, kind) =>
      net.(sent := net.sent + {Packet(dst, Outgoing(net.world.nodes[n], kind, net.snap[n]))})
    case Answer(n, p) =>
      var reply := ReplyTo(net.world.nodes[n], ArrivedMessage(p.msg));
      if reply.None? then net else net.(sent := net.sent + {Packet(p.msg.senderId, reply.value)})
    case StartBatch(n, p) => net.(inbox := net.inbox[n := Batch(ArrivedMessage(p.msg))])
    case ApplyNext(n) =>
      net.(world := Do(net.world, ApplyAt(n, net.inbox[n][0])), inbox := net.inbox[n := net.inbox[n][1..]])
  }

  ghost predicate StartNet(net: Net) {
    && Start(net.world) && net.sent == {}
    && net.inbox == (map n | n in net.world.nodes :: [])
    && net.snap == (map n | n in net.world.nodes :: net.world.nodes[n].clock)
  }

  /** A push may leave older operations out only where the receiver already holds those that the
      pushed ones reach; in particular a whole log is safe. Requests and answers are unrestricted. */
  predicate SafePush(net: Net, st: Step) {
    st.Send? && (st.kind.GossipPush? || st.kind.GossipPushPull?)
    && st.n in net.world.nodes && st.dst in net.world.nodes ==>
      HoldsDropped(net.world.nodes[st.n].log, |PushOps(net.world.nodes[st.n].log)|, net.world.nodes[st.dst].seen)
  }

  ghost predicate IsNetRun(nets: seq<Net>, steps: seq<Step>) {
    && |nets| == |steps| + 1 && StartNet(nets[0])
    && forall i | 0 <= i < |steps| :: CanStep(nets[i], steps[i]) && nets[i + 1] == NextNet(nets[i], steps[i])
  }

  ghost predicate SafePushes(nets: seq<Net>, steps: seq<Step>) {
    forall i | 0 <= i < |steps| && i < |nets| :: SafePush(nets[i], steps[i])
  }

  // ---- the invariant of the network ----

  /** Known to node r, and out of reach of future operations. */
  ghost predicate PastClock(w: World, c: Entries, r: Id) {
    r in w.nodes && BoundedClock(w, c) && Known(w.made, c, w.nodes[r].seen)
  }

  ghost predicate AllLogged(w: World, ops: seq<Operation>) {
    forall i | 0 <= i < |ops| :: SomewhereLogged(w, ops[i])
  }

  ghost predicate AllInTransit(w: World, ops: seq<Operation>) {
    forall i | 0 <= i < |ops| :: InTransit(w, ops[i])
  }

  ghost predicate PacketOk(w: World, p: Packet) {
    && p.dst in w.nodes && p.msg.senderId in w.nodes
    && PastClock(w, p.msg.senderClock.entries, p.msg.senderId)
    && AllLogged(w, p.msg.operations) && Deliverable(w.made, p.msg.operations, w.nodes[p.dst].seen)
  }

  ghost predicate PacketsOk(w: World, sent: set<Packet>) {
    forall p | p in sent :: PacketOk(w, p)
  }

  ghost predicate InboxOk(w: World, inbox: map<Id, seq<Operation>>) {
    forall n | n in inbox ::
      n in w.nodes && AllInTransit(w, inbox[n]) && Deliverable(w.made, inbox[n], w.nodes[n].seen)
  }

  ghost predicate SnapsOk(w: World, snap: map<Id, Clock>) {
    forall n | n in snap :: PastClock(w, snap[n].entries, n)
  }

  ghost predicate NetInv(net: Net) {
    && CausalInv(net.world)
    && PacketsOk(net.world, net.sent) && InboxOk(net.world, net.inbox) && SnapsOk(net.world, net.snap)
  }

  lemma PastClockLater(w: World, w': World, c: Entries, r: Id)
    requires PastClock(w, c, r) && Later(w, w')
    ensures PastClock(w', c, r)
  {
    BoundedLater(w, w', c);
    KnownLater(w, w', c, w.nodes[r].seen);
    KnownMore(w'.made, c, w.nodes[r].seen, w'.nodes[r].seen);
  }

  lemma DeliverableToLater(w: World, w': World, ops: seq<Operation>, n: Id)
    requires ClockInv(w) && Later(w, w') && n in w.nodes && Deliverable(w.made, ops, w.nodes[n].seen)
    ensures n in w'.nodes && Deliverable(w'.made, ops, w'.nodes[n].seen)
  {
    hide Deliverable, LogsOk, MadeOk, Bounded, DepsOk, PastOk;
    DeliverableLater(w, w', ops, w.nodes[n].seen);
    DeliverableMore(w'.made, ops, w.nodes[n].seen, w'.nodes[n].seen);
  }

  lemma LoggedLater(w: World, w': World, op: Operation)
    requires Later(w, w')
    ensures SomewhereLogged(w, op) ==> SomewhereLogged(w', op)
    ensures InTransit(w, op) ==> InTransit(w', op)
  {
    hide Arrived, Leq, Covers;
    if SomewhereLogged(w, op) { StillLogged(w, w', op); }
    if InTransit(w, op) {
      var sent :| SomewhereLogged(w, sent) && op == Arrived(sent);
      StillLogged(w, w', sent);
    }
  }

  lemma StillLogged(w: World, w': World, op: Operation)
    requires Later(w, w') && SomewhereLogged(w, op)
    ensures SomewhereLogged(w', op)
  {
    hide Leq, Covers;
    var m :| m in w.nodes && op in w.nodes[m].log;
    var i :| 0 <= i < |w.nodes[m].log| && w.nodes[m].log[i] == op;
    assert w'.nodes[m].log[i] == op;
  }

  lemma AllLater(w: World, w': World, ops: seq<Operation>)
    requires Later(w, w')
    ensures AllLogged(w, ops) ==> AllLogged(w', ops)
    ensures AllInTransit(w, ops) ==> AllInTransit(w', ops)
  {
    hide Later, SomewhereLogged, InTransit;
    forall i | 0 <= i < |ops|
      ensures SomewhereLogged(w, ops[i]) ==> SomewhereLogged(w', ops[i])
      ensures InTransit(w, ops[i]) ==> InTransit(w', ops[i])
    {
      LoggedLater(w, w', ops[i]);
    }
  }

  lemma PacketLater(w: World, w': World, p: Packet)
    requires ClockInv(w) && Later(w, w') && PacketOk(w, p)
    ensures PacketOk(w', p)
  {
    hide ClockInv, Later, Deliverable, PastClock, AllLogged;
    PastClockLater(w, w', p.msg.senderClock.entries, p.msg.senderId);
    DeliverableToLater(w, w', p.msg.operations, p.dst);
    AllLater(w, w', p.msg.operations);
    LaterExtends(w, w');
  }

  /** Everything in transit, in progress or remembered stays good while the world grows. */
  lemma TransitLater(net: Net, w': World)
    requires NetInv(net) && Later(net.world, w')
    ensures PacketsOk(w', net.sent) && InboxOk(w', net.inbox) && SnapsOk(w', net.snap)
  {
    hide ClockInv, Later, Deliverable, PastClock, PacketOk, NodeClosed, AllInTransit;
    forall p | p in net.sent
      ensures PacketOk(w', p)
    {
      PacketLater(net.world, w', p);
    }
    forall n | n in net.inbox
      ensures n in w'.nodes && AllInTransit(w', net.inbox[n]) && Deliverable(w'.made, net.inbox[n], w'.nodes[n].seen)
    {
      AllLater(net.world, w', net.inbox[n]);
      DeliverableToLater(net.world, w', net.inbox[n], n);
    }
    forall n | n in net.snap
      ensures PastClock(w', net.snap[n].entries, n)
    {
      PastClockLater(net.world, w', net.snap[n].entries, n);
    }
  }

  lemma OwnClockPast(w: World, n: Id)
    requires CausalInv(w) && n in w.nodes
    ensures PastClock(w, w.nodes[n].clock.entries, n) && w.nodes[n].id == n && LogOk(w.nodes[n], w.made)
    ensures Deliverable(w.made, w.nodes[n].log, {})
  {
    hide Deliverable, Known, LogOk;
    assert NodeClosed(w.made, w.nodes[n]);
    NodeClockBounded(w, n);
  }

  lemma PartLogged(w: World, n: Id, ops: seq<Operation>)
    requires n in w.nodes && forall op | op in ops :: op in w.nodes[n].log
    ensures AllLogged(w, ops)
  {
    forall i | 0 <= i < |ops|
      ensures SomewhereLogged(w, ops[i])
    {
      assert ops[i] in ops;
    }
  }

  lemma OutgoingOk(w: World, n: Id, dst: Id, kind: MessageType, clock: Clock)
    requires CausalInv(w) && n in w.nodes && dst in w.nodes && PastClock(w, clock.entries, n)
    requires kind.GossipPush? || kind.GossipPushPull? ==>
               HoldsDropped(w.nodes[n].log, |PushOps(w.nodes[n].log)|, w.nodes[dst].seen)
    ensures PacketOk(w, Packet(dst, Outgoing(w.nodes[n], kind, clock)))
  {
    hide CausalInv, PastClock, Deliverable, LogOk, HoldsDropped, PushOps, AllLogged;
    OwnClockPast(w, n);
    NothingDeliverable(w.made, w.nodes[dst].seen);
    PartLogged(w, n, []);
    var log := w.nodes[n].log;
    if kind.GossipPush? || kind.GossipPushPull? {
      PushIsSuffix(log);
      SuffixDeliverable(w.made, log, |PushOps(log)|, w.nodes[dst].seen);
      PartLogged(w, n, PushOps(log));
    }
  }

  lemma NothingDeliverable(made: History, held: set<Id>)
    ensures Deliverable(made, [], held)
  {
  }

  lemma PushIsSuffix(log: seq<Operation>)
    ensures |PushOps(log)| <= |log| && PushOps(log) == log[|log| - |PushOps(log)|..]
  {
  }

  /** A clock says the same of the past as it arrives. */
  lemma RestoredPast(w: World, c: Clock, r: Id)
    requires PastClock(w, c.entries, r)
    ensures PastClock(w, Restored(c).entries, r)
  {
    hide Restored;
    forall n | n in w.nodes
      ensures At(Restored(c).entries, n) <= At(w.nodes[n].clock.entries, n)
    {
      RestoredAt(c, n);
    }
    forall x | x in w.made && Covers(Restored(c).entries, w.made[x].op)
      ensures x in w.nodes[r].seen
    {
      RestoredAt(c, w.made[x].op.originNode);
    }
  }

  /** Answers are deliverable, whole or cut short, to whoever asked with a clock of its past. */
  lemma ReplyOk(w: World, n: Id, p: Packet)
    requires CausalInv(w) && n in w.nodes && PacketOk(w, p)
    requires ReplyTo(w.nodes[n], ArrivedMessage(p.msg)).Some?
    ensures PacketOk(w, Packet(p.msg.senderId, ReplyTo(w.nodes[n], ArrivedMessage(p.msg)).value))
  {
    hide CausalInv, Deliverable, LogOk, PastClock, AllLogged, Since, ArrivedMessage, Restored;
    OwnClockPast(w, n);
    ArrivedMessageParts(p.msg);
    RestoredPast(w, p.msg.senderClock, p.msg.senderId);
    var peer := Restored(p.msg.senderClock).entries;
    var held := w.nodes[p.msg.senderId].seen;
    var log := w.nodes[n].log;
    var ops := Since(log, peer);
    PastKnown(w, peer, p.msg.senderId);
    AnswerDeliverable(w.made, log, peer, held);
    SinceFromLog(log, peer);
    PartLogged(w, n, ops);
    if |ops| > PUSH_LIMIT {
      DeliverablePrefix(w.made, ops, held, PUSH_LIMIT);
      PartLogged(w, n, ops[..PUSH_LIMIT]);
    }
  }

  lemma PastKnown(w: World, c: Entries, r: Id)
    requires PastClock(w, c, r)
    ensures Known(w.made, c, w.nodes[r].seen)
  {
  }

  lemma BatchOk(w: World, p: Packet)
    requires MadeOk(w) && PacketOk(w, p)
    ensures AllInTransit(w, Batch(ArrivedMessage(p.msg)))
    ensures Deliverable(w.made, Batch(ArrivedMessage(p.msg)), w.nodes[p.dst].seen)
  {
    hide MadeOk, Deliverable, ArrivedAll, ArrivedMessage, PastClock, SomewhereLogged;
    var ops := p.msg.operations;
    ArrivedMessageParts(p.msg);
    ArrivedDeliverable(w, ops, w.nodes[p.dst].seen);
    NothingDeliverable(w.made, w.nodes[p.dst].seen);
    ArrivedAllAt(ops);
    hide Arrived;
    forall i | 0 <= i < |ops|
      ensures InTransit(w, ArrivedAll(ops)[i])
    {
      assert SomewhereLogged(w, ops[i]);
    }
  }

  /** A local operation or the next one of a batch. */
  lemma WorldStepKeeps(net: Net, e: Event)
    requires NetInv(net) && Enabled(net.world, e) && CausalStep(net.world, e)
    ensures var w' := Do(net.world, e);
            CausalInv(w') && PacketsOk(w', net.sent) && InboxOk(w', net.inbox) && SnapsOk(w', net.snap)
  {
    hide CausalInv, InTransit, OrderIdUnused, CausalStep, Do, PacketsOk, InboxOk, SnapsOk, Later;
    StepKeepsClosed(net.world, e);
    TransitLater(net, Do(net.world, e));
  }

  /** What is next in a batch in progress may be applied, and its causes are known. */
  lemma NextIsEnabled(net: Net, n: Id)
    requires NetInv(net) && CanStep(net, ApplyNext(n))
    ensures var e := ApplyAt(n, net.inbox[n][0]); Enabled(net.world, e) && CausalStep(net.world, e)
    ensures Deliverable(net.world.made, net.inbox[n], net.world.nodes[n].seen)
  {
    hide CausalInv, PacketsOk, SnapsOk, Deliverable, InTransit, Known;
    assert InTransit(net.world, net.inbox[n][0]);
    DeliverableHead(net.world.made, net.inbox[n], net.world.nodes[n].seen);
  }

  lemma ApplyNextKeeps(net: Net, n: Id)
    requires NetInv(net) && CanStep(net, ApplyNext(n))
    ensures NetInv(NextNet(net, ApplyNext(n)))
  {
    hide CausalInv, PacketsOk, SnapsOk, Deliverable, InTransit, ApplyToBook, Merged, CausalStep;
    var ops := net.inbox[n];
    var e := ApplyAt(n, ops[0]);
    NextIsEnabled(net, n);
    WorldStepKeeps(net, e);
    var w' := Do(net.world, e);
    assert ops[0].opId in w'.nodes[n].seen;
    DeliverableTail(w'.made, ops, w'.nodes[n].seen);
    assert w'.nodes[n].seen + {ops[0].opId} == w'.nodes[n].seen;
  }

  lemma MadeOfCausal(w: World)
    requires CausalInv(w)
    ensures MadeOk(w)
  {
  }

  lemma NetStepKeeps(net: Net, st: Step)
    requires NetInv(net) && CanStep(net, st) && SafePush(net, st)
    ensures NetInv(NextNet(net, st))
  {
    hide CausalInv, Deliverable, PacketOk, PastClock, ReplyTo, Outgoing, Batch, Do, InTransit, OrderIdUnused, AllInTransit,
      ArrivedMessage, HoldsDropped;
    match st
    case Local(e) => WorldStepKeeps(net, e);
    case ReadClock(n) => OwnClockPast(net.world, n);
    case Send(n, dst, kind) => OutgoingOk(net.world, n, dst, kind, net.snap[n]);
    case Answer(n, p) =>
      if ReplyTo(net.world.nodes[n], ArrivedMessage(p.msg)).Some? {
        ReplyOk(net.world, n, p);
      }
    case StartBatch(n, p) =>
      MadeOfCausal(net.world);
      BatchOk(net.world, p);
    case ApplyNext(n) => ApplyNextKeeps(net, n);
  }

  lemma StartNetInv(net: Net)
    requires StartNet(net)
    ensures NetInv(net)
  {
    StartKeepsClockInv(net.world);
    hide ClockInv, Covers;
    assert net.world.made == map[];
  }

  lemma NetRunStep(nets: seq<Net>, steps: seq<Step>, i: nat)
    requires IsNetRun(nets, steps) && i < |nets|
    ensures StartNet(nets[0]) && |nets| == |steps| + 1
    ensures i > 0 ==> CanStep(nets[i - 1], steps[i - 1]) && nets[i] == NextNet(nets[i - 1], steps[i - 1])
  {
    hide StartNet, CanStep, NextNet;
    if i > 0 {
      var k := i - 1;
      assert CanStep(nets[k], steps[k]) && nets[k + 1] == NextNet(nets[k], steps[k]);
    }
  }

  lemma {:induction false} NetRunKeeps(nets: seq<Net>, steps: seq<Step>, i: nat)
    requires IsNetRun(nets, steps) && SafePushes(nets, steps) && i < |nets|
    ensures NetInv(nets[i])
  {
    hide IsNetRun, StartNet, CanStep, NextNet, NetInv, SafePush;
    NetRunStep(nets, steps, i);
    if i == 0 {
      StartNetInv(nets[0]);
    } else {
      NetRunKeeps(nets, steps, i - 1);
      assert SafePush(nets[i - 1], steps[i - 1]);
      NetStepKeeps(nets[i - 1], steps[i - 1]);
    }
  }

  /** Causal closure over every run with safe pushes: after every single step, a node holds exactly
      the operations its clock covers. */
  lemma CausalClosure(nets: seq<Net>, steps: seq<Step>, i: nat, n: Id, x: Id)
    requires IsNetRun(nets, steps) && SafePushes(nets, steps) && i < |nets|
    requires n in nets[i].world.nodes && x in nets[i].world.made
    ensures var w := nets[i].world;
            Covers(w.nodes[n].clock.entries, w.made[x].op) <==> x in w.nodes[n].seen
  {
    hide IsNetRun, SafePushes, Covers, CausalInv;
    NetRunKeeps(nets, steps, i);
    ClockSummarisesLog(nets[i].world, n, x);
  }

  // ---- anti-entropy ----

  lemma WorldStepIsLater(w: World, e: Event)
    requires CausalInv(w) && Enabled(w, e)
    ensures Later(w, Do(w, e))
  {
    hide NodeClosed, Later, LogsOk, MadeOk, Bounded, DepsOk, PastOk, StepShape, Do, InTransit, OrderIdUnused;
    EveryStepHasShape(w, e);
    ShapeIsLater(w, e, Do(w, e));
  }

  lemma NetStepIsLater(net: Net, st: Step)
    requires NetInv(net) && CanStep(net, st)
    ensures Later(net.world, NextNet(net, st).world)
  {
    hide CausalInv, PacketsOk, InboxOk, SnapsOk, Later, Do, InTransit, OrderIdUnused, ReplyTo, Outgoing, Batch,
      ArrivedMessage, Deliverable, CausalStep;
    LaterReflexive(net.world);
    match st
    case Local(e) => WorldStepIsLater(net.world, e);
    case ApplyNext(n) =>
      NextIsEnabled(net, n);
      WorldStepIsLater(net.world, ApplyAt(n, net.inbox[n][0]));
    case _ =>
  }

  lemma {:induction false} RunIsLater(nets: seq<Net>, steps: seq<Step>, i: nat, k: nat)
    requires IsNetRun(nets, steps) && SafePushes(nets, steps) && i <= k < |nets|
    ensures Later(nets[i].world, nets[k].world)
    decreases k - i
  {
    hide IsNetRun, SafePushes, NetInv, CanStep, NextNet, Later;
    if i == k {
      LaterReflexive(nets[i].world);
    } else {
      RunIsLater(nets, steps, i, k - 1);
      NetRunKeeps(nets, steps, k - 1);
      NetRunStep(nets, steps, k);
      NetStepIsLater(nets[k - 1], steps[k - 1]);
      LaterTransitive(nets[i].world, nets[k - 1].world, nets[k].world);
    }
  }
}

/** The gossip engine class: choosing a peer, doing a round and handling a message, updated in
    place, against the functions of the network model. */
module Engines {
  import opened Types
  import opened BookSpec
  import opened CrdtSpec
  import opened CrdtBooks
  import opened GossipSpec
  import opened PeerSelection
  import SchedulerLaws
  import opened Golden
  import opened Scheduler

  datatype Strategy = Random | RoundRobin | Wythoff

  /** A message handed to the transport. */
  datatype Sent = Sent(msg: Message, host: string, port: nat)

  /** Position of the first peer with the sender's id or host, or the number of peers. */
  function FirstHeard(peers: seq<PeerInfo>, senderId: Id, senderHost: string): (i: nat)
    ensures i <= |peers| && (i < |peers| ==> peers[i].nodeId == senderId || peers[i].host == senderHost)
    ensures forall j | 0 <= j < i :: peers[j].nodeId != senderId && peers[j].host != senderHost
  {
    if peers == [] || peers[0].nodeId == senderId || peers[0].host == senderHost then 0
    else FirstHeard(peers[1..], senderId, senderHost) + 1
  }

  /** That peer is alive and goes by the sender's id from now on. */
  function AfterHearing(peers: seq<PeerInfo>, senderId: Id, senderHost: string): seq<PeerInfo> {
    var i := FirstHeard(peers, senderId, senderHost);
    if i == |peers| then peers else peers[i := peers[i].(isAlive := true, nodeId := senderId)]
  }

  /** A peer that was dead is asked for everything; n is the node before the message is applied. */
  function OnRevival(n: Node, peers: seq<PeerInfo>, senderId: Id, senderHost: string): seq<Sent> {
    var i := FirstHeard(peers, senderId, senderHost);
    if i == |peers| || peers[i].isAlive then []
    else [Sent(Outgoing(n, AntiEntropyReq, n.clock), peers[i].host, peers[i].port)]
  }

  /** Whoever is heard from is alive: the first peer with the sender's id or host is alive and has
      the sender's id afterwards, no other peer and no address changes, and one request with the
      node's clock goes to that peer's address if and only if it was dead. */
  lemma HearingRevives(n: Node, peers: seq<PeerInfo>, senderId: Id, senderHost: string)
    ensures var i, after := FirstHeard(peers, senderId, senderHost), AfterHearing(peers, senderId, senderHost);
            var sent := OnRevival(n, peers, senderId, senderHost);
            && |after| == |peers| && (forall j | 0 <= j < |peers| && j != i :: after[j] == peers[j])
            && (i < |peers| ==> after[i] == PeerInfo(senderId, peers[i].host, peers[i].port, true))
            && (i < |peers| && !peers[i].isAlive ==>
                  sent == [Sent(Message(AntiEntropyReq, n.id, n.clock, []), peers[i].host, peers[i].port)])
            && (i == |peers| || peers[i].isAlive ==> sent == [])
  {
  }

  /** What a round of each strategy sends to the chosen peer. */
  function RoundMessage(n: Node, strategy: Strategy, mode: SyncMode): Message {
    Outgoing(n, if strategy != Wythoff then GossipPushPull else if mode == Pull then GossipPull else GossipPush, n.clock)
  }

  /** Under the schedule a round pulls, carrying nothing, if and only if it is a whole part of a
      multiple of the golden ratio, and otherwise pushes; the other strategies always push-pull. A
      push carries the log, or its last twenty operations where there are more. */
  lemma RoundSends(n: Node, strategy: Strategy, round: nat)
    requires round >= 1
    ensures var msg := RoundMessage(n, strategy, GetSyncMode(round));
            && msg.senderId == n.id && msg.senderClock == n.clock
            && (strategy == Wythoff && (exists k: nat :: k >= 1 && FloorPhi(k) == round) ==>
                  msg.kind == GossipPull && msg.operations == [])
            && (strategy == Wythoff && !(exists k: nat :: k >= 1 && FloorPhi(k) == round) ==> msg.kind == GossipPush)
            && (strategy == Random || strategy == RoundRobin ==> msg.kind == GossipPushPull)
            && (msg.kind != GossipPull && |n.log| <= 20 ==> msg.operations == n.log)
            && (msg.kind != GossipPull && |n.log| > 20 ==> msg.operations == n.log[|n.log| - 20..])
  {
    hide Form, IsFloorPhi, GetSyncMode, RoundMessage;
    MessageByMode(n, strategy, GetSyncMode(round));
    if k: nat :| k >= 1 && FloorPhi(k) == round {
      PullAt(round, k);
    } else {
      PushAt(round);
    }
  }

  lemma PullAt(round: nat, k: nat)
    requires round >= 1 && k >= 1 && FloorPhi(k) == round
    ensures GetSyncMode(round) == Pull
  {
    hide Form, IsFloorPhi;
    BeattyPartition(round);
  }

  lemma PushAt(round: nat)
    requires round >= 1 && !exists k: nat :: k >= 1 && FloorPhi(k) == round
    ensures GetSyncMode(round) == Push
  {
    hide Form, IsFloorPhi;
    BeattyPartition(round);
  }

  lemma MessageByMode(n: Node, strategy: Strategy, mode: SyncMode)
    ensures var msg := RoundMessage(n, strategy, mode);
            && msg.senderId == n.id && msg.senderClock == n.clock
            && (strategy == Wythoff && mode == Pull ==> msg.kind == GossipPull && msg.operations == [])
            && (strategy == Wythoff && mode != Pull ==> msg.kind == GossipPush)
            && (strategy != Wythoff ==> msg.kind == GossipPushPull)
            && (msg.kind != GossipPull && |n.log| <= 20 ==> msg.operations == n.log)
            && (msg.kind != GossipPull && |n.log| > 20 ==> msg.operations == n.log[|n.log| - 20..])
  {
    hide Outgoing;
    OutgoingCarries(n, if strategy != Wythoff then GossipPushPull else if mode == Pull then GossipPull else GossipPush, n.clock);
  }

  lemma ApplyOneMore(n: Node, ops: seq<Operation>, i: nat)
    requires i < |ops|
    ensures ApplyAll(n, ops[i..]) == ApplyAll(Apply(n, ops[i]), ops[i + 1..])
  {
    assert ops[i..][0] == ops[i] && ops[i..][1..] == ops[i + 1..];
  }

  class GossipEngine {
    const nodeId: Id
    const strategy: Strategy
    const myNodeIndex: nat
    const crdt: CrdtOrderBook
    var peers: seq<PeerInfo>
    var round: nat
    var rrIndex: nat

    ghost predicate Valid()
      reads this, crdt, crdt.clock
    {
      crdt.Wired() && crdt.nodeId == nodeId && |peers| + 1 < TWO_32 && (peers == [] || rrIndex < |peers|)
    }

    /** A node's own index is its place in the sorted list of all ids. */
    constructor (nodeId: Id, crdt: CrdtOrderBook, seeds: seq<PeerInfo>, strategy: Strategy)
      requires crdt.Wired() && crdt.nodeId == nodeId && |seeds| + 1 < TWO_32
      ensures Valid() && this.nodeId == nodeId && this.crdt == crdt && this.strategy == strategy
      ensures peers == seeds && round == 0 && rrIndex == 0
      ensures myNodeIndex == IndexOf(AllIds(nodeId, seeds), nodeId) < |AllIds(nodeId, seeds)|
    {
      this.nodeId, this.crdt, this.peers, this.strategy := nodeId, crdt, seeds, strategy;
      this.round, this.rrIndex := 0, 0;
      var allIds := AllIds(nodeId, seeds);
      SortUniqueEffect([nodeId] + PeerIds(seeds));
      assert nodeId in allIds;
      var i := 0;
      while allIds[i] != nodeId
        invariant 0 <= i <= IndexOf(allIds, nodeId)
        decreases IndexOf(allIds, nodeId) - i
      {
        i := i + 1;
      }
      this.myNodeIndex := i;
    }

    /** Any live peer, or any peer at all when none is alive; draw is the random number. */
    method SelectRandomPeer(draw: nat) returns (chosen: Option<nat>)
      ensures chosen.None? <==> peers == []
      ensures chosen.Some? ==> chosen.value < |peers|
      ensures chosen.Some? && (exists i :: 0 <= i < |peers| && peers[i].isAlive) ==> peers[chosen.value].isAlive
    {
      var alive: seq<nat> := [];
      var i := 0;
      while i < |peers|
        invariant 0 <= i <= |peers|
        invariant forall k | k in alive :: k < i && peers[k].isAlive
        invariant forall k | 0 <= k < i && peers[k].isAlive :: k in alive
      {
        if peers[i].isAlive {
          alive := alive + [i];
        }
        i := i + 1;
      }
      if alive == [] {
        if peers == [] {
          return None;
        }
        return Some(draw % |peers|);
      }
      assert alive[draw % |alive|] in alive;
      return Some(alive[draw % |alive|]);
    }

    /** The next live peer round the circle; the same one again when none is alive. */
    method SelectRoundRobinPeer() returns (chosen: Option<nat>)
      requires Valid()
      modifies this`rrIndex
      ensures Valid()
      ensures peers == [] ==> chosen == None && rrIndex == old(rrIndex)
      ensures peers != [] ==> rrIndex == NextPeer(peers, old(rrIndex)) && chosen == Some(rrIndex)
    {
      hide Place, Inv;
      if peers == [] {
        return None;
      }
      var start := rrIndex;
      var n := |peers|;
      ghost var d := 1;
      NextPlace(n, start, n);
      rrIndex := (rrIndex + 1) % n;
      while !peers[rrIndex].isAlive && rrIndex != start
        invariant 1 <= d <= n && rrIndex == Place(n, start, d)
        invariant Advance(peers, start, 1) == Advance(peers, start, d)
        decreases n - d
      {
        NextPlace(n, start, d);
        rrIndex := (rrIndex + 1) % n;
        d := d + 1;
      }
      NextPlace(n, start, d);
      return Some(rrIndex);
    }

    /** One round of the schedule: whether this node is the sender, to whom, and in which mode. */
    method SelectWythoffPeer() returns (chosen: Option<nat>, mode: SyncMode)
      requires Valid()
      modifies this`round
      ensures Valid()
      ensures round == if peers == [] then old(round) else old(round) + 1
      ensures chosen == WythoffChoice(nodeId, peers, myNodeIndex, round)
      ensures peers != [] ==> mode == GetSyncMode(round)
    {
      hide NumPairs, GetPair, GetSyncMode, AllIds, Inv;
      mode := Push;
      if peers == [] {
        return None, mode;
      }
      round := round + 1;
      SchedulerLaws.NumPairsPositive(|peers| + 1);
      var pair := GetPair(|peers| + 1, round);
      mode := GetSyncMode(round);
      if pair.sender != myNodeIndex {
        return None, mode;
      }
      var allIds := AllIds(nodeId, peers);
      if pair.receiver >= |allIds| {
        return None, mode;
      }
      var target := allIds[pair.receiver];
      var i := 0;
      while i < |peers|
        invariant 0 <= i <= IndexOf(PeerIds(peers), target)
      {
        if peers[i].nodeId == target {
          return Some(i), mode;
        }
        i := i + 1;
      }
      return None, mode;
    }

    /** One gossip round: at most one message, to a peer of this node, carrying the node's clock
        and, unless it is a pull, its most recent operations. */
    method DoGossipRound(draw: nat) returns (sent: Option<Sent>)
      requires Valid()
      modifies this`round, this`rrIndex
      ensures Valid()
      ensures sent.Some? ==> sent.value.msg == RoundMessage(crdt.View(), strategy, GetSyncMode(round))
      ensures strategy != Wythoff ==> (sent.Some? <==> peers != [])
      ensures strategy == Random && sent.Some? ==>
                exists i :: 0 <= i < |peers| && sent.value.host == peers[i].host && sent.value.port == peers[i].port
                            && (peers[i].isAlive || forall j | 0 <= j < |peers| :: !peers[j].isAlive)
      ensures strategy == RoundRobin && sent.Some? ==>
                rrIndex < |peers| && sent.value.host == peers[rrIndex].host && sent.value.port == peers[rrIndex].port
      ensures strategy == Wythoff ==>
                var choice := WythoffChoice(nodeId, peers, myNodeIndex, round);
                && (sent.Some? <==> choice.Some?)
                && (sent.Some? ==>
                      sent.value.host == peers[choice.value].host && sent.value.port == peers[choice.value].port)
      ensures strategy == Wythoff && peers != [] ==> round == old(round) + 1
      ensures strategy == RoundRobin && peers != [] ==> rrIndex == NextPeer(peers, old(rrIndex))
    {
      hide WythoffChoice, NextPeer, GetSyncMode, Inv;
      var chosen: Option<nat>;
      var mode := Push;
      match strategy {
        case Random => chosen := SelectRandomPeer(draw);
        case RoundRobin => chosen := SelectRoundRobinPeer();
        case Wythoff => chosen, mode := SelectWythoffPeer();
      }
      if chosen.None? {
        return None;
      }
      var peer := peers[chosen.value];
      var clock := crdt.GetClock();
      if strategy == Wythoff && mode == Pull {
        return Some(Sent(Message(GossipPull, nodeId, clock, []), peer.host, peer.port));
      }
      var ops := crdt.opLog;
      var toSend := ops;
      if |ops| > PUSH_LIMIT {
        toSend := ops[|ops| - PUSH_LIMIT..];
      }
      var kind := if strategy == Wythoff then GossipPush else GossipPushPull;
      return Some(Sent(Message(kind, nodeId, clock, toSend), peer.host, peer.port));
    }

    /** Marks the sender as heard from, asking it for everything if it was thought dead. */
    method MarkHeard(senderId: Id, senderHost: string) returns (sent: seq<Sent>)
      requires Valid()
      modifies this`peers
      ensures Valid()
      ensures peers == AfterHearing(old(peers), senderId, senderHost)
      ensures sent == OnRevival(crdt.View(), old(peers), senderId, senderHost)
      ensures var i := FirstHeard(old(peers), senderId, senderHost);
              && |peers| == |old(peers)| && (forall j | 0 <= j < |peers| && j != i :: peers[j] == old(peers)[j])
              && (i < |peers| ==> peers[i] == old(peers)[i].(isAlive := true, nodeId := senderId))
              && (sent == [] <==> i == |peers| || old(peers)[i].isAlive)
    {
      sent := [];
      var i := 0;
      while i < |peers|
        invariant 0 <= i <= FirstHeard(old(peers), senderId, senderHost)
        invariant peers == old(peers) && sent == []
      {
        if peers[i].nodeId == senderId || peers[i].host == senderHost {
          var wasDead := !peers[i].isAlive;
          peers := peers[i := peers[i].(isAlive := true, nodeId := senderId)];
          if wasDead {
            sent := [Sent(Message(AntiEntropyReq, nodeId, crdt.GetClock(), []), peers[i].host, peers[i].port)];
          }
          return;
        }
        i := i + 1;
      }
    }

    /** Applies the operations of a message one by one. */
    method ApplyBatch(ops: seq<Operation>)
      requires Valid()
      modifies crdt, crdt.book, crdt.clock
      ensures Valid() && crdt.View() == ApplyAll(old(crdt.View()), ops)
    {
      assert ops[0..] == ops;
      var i := 0;
      while i < |ops|
        invariant 0 <= i <= |ops| && Valid()
        invariant ApplyAll(crdt.View(), ops[i..]) == ApplyAll(old(crdt.View()), ops)
      {
        ApplyOneMore(crdt.View(), ops, i);
        var applied := crdt.ApplyRemoteOperation(ops[i]);
        i := i + 1;
      }
      assert ops[i..] == [];
    }

    /** Handles a message: the peer table, the replica and everything sent. */
    method HandleMessage(msg: Message, senderHost: string, senderPort: nat) returns (sent: seq<Sent>)
      requires Valid()
      modifies this`peers, crdt, crdt.book, crdt.clock
      ensures Valid()
      ensures peers == AfterHearing(old(peers), msg.senderId, senderHost)
      ensures crdt.View() == ApplyAll(old(crdt.View()), Batch(msg))
      ensures sent == OnRevival(old(crdt.View()), old(peers), msg.senderId, senderHost)
                      + (var reply := ReplyTo(crdt.View(), msg);
                         if reply.None? then [] else [Sent(reply.value, senderHost, senderPort)])
      ensures msg.kind.GossipPush? || msg.kind.GossipPushPull? || msg.kind.AntiEntropyRes? ==>
                crdt.seenOps == old(crdt.seenOps) + Ids(msg.operations)
      ensures !(msg.kind.GossipPush? || msg.kind.GossipPushPull? || msg.kind.AntiEntropyRes?) ==>
                crdt.View() == old(crdt.View())
    {
      hide OnRevival, AfterHearing, Apply, Since, Inv;
      BatchTaken(crdt.View(), msg);
      sent := MarkHeard(msg.senderId, senderHost);
      match msg.kind {
        case GossipPush =>
          ApplyBatch(msg.operations);
        case GossipPushPull =>
          ApplyBatch(msg.operations);
          var ours := crdt.GetOperationsSince(msg.senderClock);
          if ours != [] {
            if |ours| > PUSH_LIMIT {
              ours := ours[..PUSH_LIMIT];
            }
            sent := sent + [Sent(Message(GossipPush, nodeId, crdt.GetClock(), ours), senderHost, senderPort)];
          }
        case GossipPull =>
          var ours := crdt.GetOperationsSince(msg.senderClock);
          if ours != [] {
            sent := sent + [Sent(Message(GossipPush, nodeId, crdt.GetClock(), ours), senderHost, senderPort)];
          }
        case Heartbeat =>
        case AntiEntropyReq =>
          var ours := crdt.GetOperationsSince(msg.senderClock);
          sent := sent + [Sent(Message(AntiEntropyRes, nodeId, crdt.GetClock(), ours), senderHost, senderPort)];
        case AntiEntropyRes =>
          ApplyBatch(msg.operations);
        case OtherMessage(_) =>
      }
    }
  }
}

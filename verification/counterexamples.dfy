/** A run in which a push that leaves its oldest operation out loses it. */
module Counterexamples {
  import opened Types
  import opened VectorClocks
  import opened BookSpec
  import opened CrdtSpec
  import opened PriceWire
  import opened Delivery
  import opened Replication
  import opened Closure
  import opened GossipSpec
  import opened Gossip

  function StartWorld(a: Id, b: Id): (w: World)
    ensures Start(w)
  {
    World(map[a := NewNode(a), b := NewNode(b)], map[], map[])
  }

  function Name(k: nat): (id: Id)
    ensures |id| == k
  {
    seq(k, _ => 'x')
  }

  function Placing(k: nat): Event {
    PlaceAt("a", Buy, 1.0, 1, Name(k), Name(k))
  }

  function StartNetOf(a: Id, b: Id): (net: Net)
    ensures net.world == StartWorld(a, b)
  {
    Net(StartWorld(a, b), {}, map[a := [], b := []], map[a := NewNode(a).clock, b := NewNode(b).clock])
  }

  lemma StartNetOfIsStart(a: Id, b: Id)
    ensures StartNet(StartNetOf(a, b))
  {
    var net := StartNetOf(a, b);
    assert net.inbox == (map n | n in net.world.nodes :: []);
    assert net.snap == (map n | n in net.world.nodes :: net.world.nodes[n].clock);
  }

  function StartOfTwo(): Net {
    StartNetOf("a", "b")
  }

  ghost predicate LogAfter(n: Node, made: History, k: nat) {
    && n.id == "a" && |n.log| == k && n.clock.entries == map["a" := k]
    && (forall i | 0 <= i < k ::
          && n.log[i].opId == Name(i) && n.log[i].originNode == "a" && n.log[i].clock.entries == map["a" := i + 1]
          && Name(i) in made && made[Name(i)].op == n.log[i])
    && forall x | x in made :: |x| < k && (made[x].op.kind.AddOrder? ==> made[x].op.order.orderId == x)
  }

  /** Node a has placed k orders and b has heard of none. */
  ghost predicate Placed(net: Net, k: nat) {
    && net == StartOfTwo().(world := net.world)
    && net.world.nodes.Keys == {"a", "b"} && net.world.nodes["b"] == NewNode("b")
    && LogAfter(net.world.nodes["a"], net.world.made, k)
  }

  lemma OneMoreLogged(a: Node, made: History, k: nat)
    requires LogAfter(a, made, k)
    ensures var next := LocalAdd(a, Buy, 1.0, 1, Name(k), Name(k));
            && |next.log| == k + 1
            && LogAfter(next, made[Name(k) := Made(next.log[k], a.seen)], k + 1)
  {
    hide Add, Name;
    assert map["a" := k]["a" := k + 1] == map["a" := k + 1];
    assert Ticked(a).clock.entries == map["a" := k + 1];
  }

  lemma NextIsFree(a: Node, made: History, k: nat)
    requires LogAfter(a, made, k)
    ensures Name(k) !in made && OrderIdUnused(made, Name(k))
  {
  }

  lemma OneMore(net: Net, k: nat)
    requires Placed(net, k)
    ensures CanStep(net, Local(Placing(k))) && Placed(NextNet(net, Local(Placing(k))), k + 1)
  {
    OneMoreLogged(net.world.nodes["a"], net.world.made, k);
    NextIsFree(net.world.nodes["a"], net.world.made, k);
    LogLength(net.world.nodes["a"], net.world.made, k);
    hide LocalAdd, LogAfter, Name, OrderIdUnused, NewNode;
  }

  lemma LogLength(a: Node, made: History, k: nat)
    requires LogAfter(a, made, k)
    ensures |a.log| == k
  {
  }

  lemma Extend(nets: seq<Net>, steps: seq<Step>, st: Step) returns (nets': seq<Net>, steps': seq<Step>)
    requires IsNetRun(nets, steps) && CanStep(nets[|steps|], st)
    ensures IsNetRun(nets', steps') && |nets'| == |steps'| + 1
    ensures nets'[|steps'|] == NextNet(nets[|steps|], st)
  {
    hide CanStep, NextNet, StartNet;
    nets', steps' := nets + [NextNet(nets[|steps|], st)], steps + [st];
    forall i | 0 <= i < |steps'|
      ensures CanStep(nets'[i], steps'[i]) && nets'[i + 1] == NextNet(nets'[i], steps'[i])
    {
      if i < |steps| {
        assert nets'[i] == nets[i] && nets'[i + 1] == nets[i + 1] && steps'[i] == steps[i];
      }
    }
  }

  lemma NothingPlaced()
    ensures StartNet(StartOfTwo()) && Placed(StartOfTwo(), 0)
  {
    StartNetOfIsStart("a", "b");
  }

  lemma SingleRun(net: Net)
    requires StartNet(net)
    ensures IsNetRun([net], [])
  {
    hide StartNet;
  }

  lemma {:induction false} PlaceMany(k: nat) returns (nets: seq<Net>, steps: seq<Step>)
    ensures IsNetRun(nets, steps) && |nets| == |steps| + 1 && Placed(nets[|steps|], k)
  {
    hide IsNetRun, StartNet, CanStep, NextNet, Placed, StartOfTwo;
    if k == 0 {
      nets, steps := [StartOfTwo()], [];
      NothingPlaced();
      SingleRun(StartOfTwo());
    } else {
      nets, steps := PlaceMany(k - 1);
      OneMore(nets[|steps|], k - 1);
      nets, steps := Extend(nets, steps, Local(Placing(k - 1)));
    }
  }

  /** b has got, of the PUSH_LIMIT + 1 operations of a, those the push carries but the first. */
  lemma PushReaches(net: Net) returns (p: Packet)
    requires Placed(net, PUSH_LIMIT + 1)
    ensures CanStep(net, Send("a", "b", GossipPush))
    ensures var sent := NextNet(net, Send("a", "b", GossipPush));
            && CanStep(sent, StartBatch("b", p))
            && var started := NextNet(sent, StartBatch("b", p));
            && CanStep(started, ApplyNext("b"))
            && var done := NextNet(started, ApplyNext("b"));
            && done.world.made == net.world.made
            && "a" in done.world.nodes && done.world.nodes["a"] == net.world.nodes["a"]
            && "b" in done.world.nodes && done.world.nodes["b"] == Apply(NewNode("b"), Arrived(net.world.nodes["a"].log[1]))
  {
    hide Apply, Add, Arrived, ArrivedAll, ArrivedMessage, LogAfter;
    var a := net.world.nodes["a"];
    LogLength(a, net.world.made, PUSH_LIMIT + 1);
    p := Packet("b", Outgoing(a, GossipPush, net.snap["a"]));
    assert PushOps(a.log) == a.log[1..] && a.log[1..][0] == a.log[1];
    ArrivedMessageParts(p.msg);
    ArrivedAllAt(p.msg.operations);
  }

  /** The operation left out: reached by the clock of the first one received, so never asked for. */
  lemma FirstIsMissed(a: Node, made: History)
    requires LogAfter(a, made, PUSH_LIMIT + 1)
    ensures var b := Apply(NewNode("b"), Arrived(a.log[1]));
            && Name(0) in made && made[Name(0)].op in a.log && Covers(b.clock.entries, made[Name(0)].op)
            && Name(0) !in b.seen
            && forall log, c | Leq(b.clock.entries, c) :: made[Name(0)].op !in Since(log, c)
  {
    hide ApplyToBook, Since, Merged, Carried;
    var b, first := Apply(NewNode("b"), Arrived(a.log[1])), made[Name(0)].op;
    assert a.log[0] == first && Name(0) != Name(1);
    forall n: Id
      ensures At(b.clock.entries, n) == if n == "a" then 2 else 0
    {
      MergedAt(map["b" := 0], Arrived(a.log[1]).clock.entries, n);
      RestoredAt(a.log[1].clock, n);
    }
    forall log, c | Leq(b.clock.entries, c)
      ensures first !in Since(log, c)
    {
      assert Leq(first.clock.entries, b.clock.entries);
      LeqTransitive(first.clock.entries, b.clock.entries, c);
      assert At(first.clock.entries, "a") < At(b.clock.entries, "a") <= At(c, "a");
      SinceFromLog(log, c);
    }
  }

  /** A push cut to the last PUSH_LIMIT operations breaks causal closure, and for good: b's clock
      covers an operation it does not hold, and no answer to its clock, or to a later one, contains it. */
  lemma TruncatedPushLosesOperation() returns (nets: seq<Net>, steps: seq<Step>, x: Id)
    ensures IsNetRun(nets, steps)
    ensures var w := nets[|steps|].world;
            && "a" in w.nodes && "b" in w.nodes && x in w.made && w.made[x].op in w.nodes["a"].log
            && Covers(w.nodes["b"].clock.entries, w.made[x].op) && x !in w.nodes["b"].seen
            && forall log, c | Leq(w.nodes["b"].clock.entries, c) :: w.made[x].op !in Since(log, c)
  {
    nets, steps := PlaceMany(PUSH_LIMIT + 1);
    hide IsNetRun, CanStep, NextNet, LogAfter, Apply, Arrived, Since, Covers, Leq;
    var before := nets[|steps|].world;
    var p := PushReaches(nets[|steps|]);
    nets, steps := Extend(nets, steps, Send("a", "b", GossipPush));
    nets, steps := Extend(nets, steps, StartBatch("b", p));
    nets, steps := Extend(nets, steps, ApplyNext("b"));
    x := Name(0);
    FirstIsMissed(before.nodes["a"], before.made);
  }
}

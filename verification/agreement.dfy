/** Anti-entropy and convergence together: a whole cluster ends with the same book. */
module Agreement {
  import opened Types
  import opened BookSpec
  import opened CrdtSpec
  import opened Replication
  import opened CarriedPrices
  import opened Closure
  import opened Gossip
  import opened AntiEntropy
  import opened Convergence

  /** Once one node has pulled from all others and all others from it, with nothing new made
      meanwhile, any two nodes hold the same operations. They have the same open orders, and show
      the same prices and totals, if they filled the uncancelled orders alike and the prices of
      those still open survive the wire, however the operations reached the nodes before. For
      orders that one of the two placed, no less will do. */
  lemma ClusterAgrees(nets: seq<Net>, steps: seq<Step>, t0: nat, t1: nat, t2: nat, hub: Id, a: Id, b: Id, s: Side)
    requires IsNetRun(nets, steps) && SafePushes(nets, steps) && t0 <= t1 <= t2 < |nets|
    requires hub in nets[t0].world.nodes
    requires forall n | n in nets[t0].world.nodes && n != hub ::
               Pulled(nets, steps, t0, t1, hub, n) && Pulled(nets, steps, t1, t2, n, hub)
    requires nets[t2].world.made.Keys == nets[t0].world.made.Keys
    requires a in nets[t2].world.nodes && b in nets[t2].world.nodes && a != b
    ensures var w := nets[t2].world;
            var b1, b2 := w.nodes[a].book, w.nodes[b].book;
            && w.nodes[a].seen == w.nodes[b].seen == w.made.Keys
            && ((forall x | Uncancelled(w, a, x) :: FilledAlike(w, a, b, x)) ==>
                  LiveOrders(b1) == LiveOrders(b2) && Quotes(b1.Levels(s)) == Quotes(b2.Levels(s)))
            && (LiveOrders(b1) == LiveOrders(b2) ==>
                  forall x | Uncancelled(w, a, x) && PlacedByEither(w, a, b, x) :: FilledAlike(w, a, b, x))
  {
    hide IsNetRun, SafePushes, Pulled, LiveOrders, Quotes, FilledAlike, PlacedByEither;
    GatherScatter(nets, steps, t0, t1, t2, hub);
    Convergence.Convergence(nets, steps, t2, a, b, s);
  }
}

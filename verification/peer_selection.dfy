/** Which peer a gossip round goes to: round robin, and the Wythoff schedule over node ids. */
module PeerSelection {
  import opened Arithmetic
  import opened Types
  import opened Scheduler
  import opened SchedulerLaws

  datatype PeerInfo = PeerInfo(nodeId: Id, host: string, port: nat, isAlive: bool)

  // ---- round robin ----

  /** The place d steps round a circle of n from start. */
  function Place(n: nat, start: nat, d: nat): (p: nat)
    requires n > 0
    ensures p < n
  {
    (start + d) % n
  }

  predicate AliveAt(peers: seq<PeerInfo>, start: nat, d: nat)
    requires |peers| > 0
  {
    peers[Place(|peers|, start, d)].isAlive
  }

  /** Number of places moved on, at least one, to the next live peer; a full circle if none lives. */
  function Advance(peers: seq<PeerInfo>, start: nat, d: nat): (r: nat)
    requires |peers| > 0 && 1 <= d <= |peers|
    ensures d <= r <= |peers|
    ensures forall k | d <= k < r :: !AliveAt(peers, start, k)
    ensures r < |peers| ==> AliveAt(peers, start, r)
    decreases |peers| - d
  {
    if d == |peers| || AliveAt(peers, start, d) then d else Advance(peers, start, d + 1)
  }

  function NextPeer(peers: seq<PeerInfo>, start: nat): (i: nat)
    requires |peers| > 0
    ensures i < |peers|
  {
    Place(|peers|, start, Advance(peers, start, 1))
  }

  /** Where the index stands after k selections. */
  function Rotated(peers: seq<PeerInfo>, start: nat, k: nat): (i: nat)
    requires |peers| > 0 && start < |peers|
    ensures i < |peers|
  {
    if k == 0 then start else NextPeer(peers, Rotated(peers, start, k - 1))
  }

  /** Places to move on from i to reach p, at least one. */
  function Distance(n: nat, i: nat, p: nat): (d: nat)
    requires i < n && p < n
    ensures 1 <= d <= n && (i + d == p || i + d == p + n)
  {
    if p > i then p - i else p + n - i
  }

  /** Going round the circle one place at a time. */
  lemma NextPlace(n: nat, start: nat, d: nat)
    requires start < n && 1 <= d <= n
    ensures Place(n, start, 1) == (start + 1) % n
    ensures Place(n, start, d) == start <==> d == n
    ensures d < n ==> (Place(n, start, d) + 1) % n == Place(n, start, d + 1)
  {
    Wrapped(n, start, d);
    if d < n {
      Wrapped(n, start, d + 1);
      Wrapped(n, Place(n, start, d), 1);
    }
  }

  /** A selection lands on a live peer it meets first, so it comes closer to p or reaches it. */
  lemma SelectionApproaches(peers: seq<PeerInfo>, i: nat, p: nat)
    requires i < |peers| && p < |peers| && peers[p].isAlive
    ensures var j := NextPeer(peers, i);
            peers[j].isAlive && (j == p || Distance(|peers|, j, p) < Distance(|peers|, i, p))
  {
    var n := |peers|;
    var d, a := Distance(n, i, p), Advance(peers, i, 1);
    Wrapped(n, i, d);
    assert AliveAt(peers, i, d);
    assert a <= d;
    Wrapped(n, i, a);
  }

  lemma Wrapped(n: nat, i: nat, d: nat)
    requires i < n && 1 <= d <= n
    ensures (i + d) % n == if i + d < n then i + d else i + d - n
  {
    if i + d < n {
      ModBound(i + d, n);
    } else {
      DivModUnique(i + d, 1, i + d - n, n);
    }
  }

  /** Round robin is fair: while liveness stays as it is, every live peer is selected within as
      many selections as there are places to it, hence within |peers|; dead peers never are. */
  lemma {:induction false} RoundRobinFair(peers: seq<PeerInfo>, start: nat, p: nat) returns (k: nat)
    requires start < |peers| && p < |peers| && peers[p].isAlive
    ensures 1 <= k <= Distance(|peers|, start, p) <= |peers|
    ensures Rotated(peers, start, k) == p
    ensures forall m | 1 <= m <= k :: peers[Rotated(peers, start, m)].isAlive
    decreases Distance(|peers|, start, p)
  {
    SelectionApproaches(peers, start, p);
    var j := NextPeer(peers, start);
    assert Rotated(peers, start, 1) == NextPeer(peers, Rotated(peers, start, 0));
    if j == p {
      k := 1;
    } else {
      var m := RoundRobinFair(peers, j, p);
      k := m + 1;
      forall i | 1 <= i <= k
        ensures peers[Rotated(peers, start, i)].isAlive
      {
        RotatedSplit(peers, start, i - 1);
      }
      RotatedSplit(peers, start, m);
    }
  }

  lemma {:induction false} RotatedSplit(peers: seq<PeerInfo>, start: nat, k: nat)
    requires start < |peers|
    ensures Rotated(peers, start, k + 1) == Rotated(peers, NextPeer(peers, start), k)
  {
    if k == 0 {
      assert Rotated(peers, start, 1) == NextPeer(peers, Rotated(peers, start, 0));
    } else {
      RotatedSplit(peers, start, k - 1);
    }
  }

  // ---- the sorted list of node ids ----

  /** Lexicographic order of strings. */
  predicate Less(a: string, b: string) {
    if b == [] then false
    else if a == [] then true
    else a[0] < b[0] || (a[0] == b[0] && Less(a[1..], b[1..]))
  }

  /** a and b agree before place k, where a ends or has the smaller character. */
  ghost predicate PartsAt(a: string, b: string, k: nat) {
    && k <= |a| && k < |b| && (forall i | 0 <= i < k :: a[i] == b[i])
    && (k == |a| || a[k] < b[k])
  }

  lemma PartsLater(a: string, b: string, k: nat)
    requires a != [] && b != [] && a[0] == b[0]
    ensures PartsAt(a, b, k + 1) <==> PartsAt(a[1..], b[1..], k)
    ensures !PartsAt(a, b, 0)
  {
    if PartsAt(a[1..], b[1..], k) {
      forall i | 0 <= i < k + 1
        ensures a[i] == b[i]
      {
        if i > 0 { assert a[1..][i - 1] == b[1..][i - 1]; }
      }
    }
  }

  /** Less is dictionary order. */
  lemma {:induction false} DictionaryOrder(a: string, b: string)
    ensures Less(a, b) <==> exists k: nat :: PartsAt(a, b, k)
    decreases |a|
  {
    if a != [] && b != [] && a[0] == b[0] {
      DictionaryOrder(a[1..], b[1..]);
      hide PartsAt;
      if j: nat :| PartsAt(a[1..], b[1..], j) {
        PartsLater(a, b, j);
        assert PartsAt(a, b, j + 1);
      }
      if k: nat :| PartsAt(a, b, k) {
        PartsLater(a, b, if k == 0 then 0 else k - 1);
        assert k > 0 && PartsAt(a[1..], b[1..], k - 1);
      }
    } else if b != [] && (a == [] || a[0] < b[0]) {
      assert PartsAt(a, b, 0);
    }
  }

  lemma {:induction false} LessTotal(a: string, b: string)
    ensures Less(a, b) || Less(b, a) || a == b
    ensures !(Less(a, b) && Less(b, a)) && !Less(a, a)
    decreases |a|
  {
    if a != [] {
      LessTotal(a[1..], a[1..]);
      if b != [] {
        LessTotal(a[1..], b[1..]);
        assert a == [a[0]] + a[1..] && b == [b[0]] + b[1..];
      }
    }
  }

  lemma {:induction false} LessTransitive(a: string, b: string, c: string)
    requires Less(a, b) && Less(b, c)
    ensures Less(a, c)
    decreases |a|
  {
    if a != [] && a[0] == b[0] && b[0] == c[0] {
      LessTransitive(a[1..], b[1..], c[1..]);
    }
  }

  ghost predicate Ascending(ids: seq<Id>) {
    forall i, j | 0 <= i < j < |ids| :: Less(ids[i], ids[j])
  }

  /** Insertion that drops duplicates. */
  function Insert(ids: seq<Id>, x: Id): seq<Id> {
    if ids == [] || Less(x, ids[0]) then [x] + ids
    else if ids[0] == x then ids
    else [ids[0]] + Insert(ids[1..], x)
  }

  function SortUnique(ids: seq<Id>): seq<Id> {
    if ids == [] then [] else Insert(SortUnique(ids[1..]), ids[0])
  }

  lemma {:induction false} InsertEffect(ids: seq<Id>, x: Id)
    requires Ascending(ids)
    ensures Ascending(Insert(ids, x))
    ensures forall y :: y in Insert(ids, x) <==> y == x || y in ids
  {
    if ids == [] || Less(x, ids[0]) {
      forall j | 0 <= j < |ids|
        ensures Less(x, ids[j])
      {
        if j > 0 { LessTransitive(x, ids[0], ids[j]); }
      }
    } else if ids[0] != x {
      InsertEffect(ids[1..], x);
      LessTotal(x, ids[0]);
      var rest := Insert(ids[1..], x);
      forall j | 0 <= j < |rest|
        ensures Less(ids[0], rest[j])
      {
        assert rest[j] in rest;
        if rest[j] != x {
          var i :| 0 <= i < |ids[1..]| && ids[1..][i] == rest[j];
          assert ids[i + 1] == rest[j];
        }
      }
    }
  }

  /** Sorting and removing duplicates gives an ascending list of the same ids. */
  lemma {:induction false} SortUniqueEffect(ids: seq<Id>)
    ensures Ascending(SortUnique(ids))
    ensures forall y :: y in SortUnique(ids) <==> y in ids
  {
    if ids != [] {
      SortUniqueEffect(ids[1..]);
      InsertEffect(SortUnique(ids[1..]), ids[0]);
    }
  }

  /** An ascending list is fixed by its elements. */
  lemma {:induction false} AscendingUnique(a: seq<Id>, b: seq<Id>)
    requires Ascending(a) && Ascending(b) && forall y :: y in a <==> y in b
    ensures a == b
  {
    assert b != [] ==> b[0] in b;
    if a != [] {
      assert a[0] in a;
      var k :| 0 <= k < |b| && b[k] == a[0];
      var m :| 0 <= m < |a| && a[m] == b[0];
      LessTotal(a[0], b[0]);
      assert a[0] == b[0];
      TailMembers(a);
      TailMembers(b);
      AscendingUnique(a[1..], b[1..]);
      assert a == [a[0]] + a[1..] && b == [b[0]] + b[1..];
    }
  }

  lemma TailMembers(a: seq<Id>)
    requires Ascending(a) && a != []
    ensures Ascending(a[1..])
    ensures forall y :: y in a[1..] <==> y in a && y != a[0]
  {
    forall y | y in a[1..]
      ensures y != a[0]
    {
      var i :| 0 <= i < |a[1..]| && a[1..][i] == y;
      LessTotal(a[0], y);
    }
  }

  function PeerIds(peers: seq<PeerInfo>): (ids: seq<Id>)
    ensures |ids| == |peers| && forall i | 0 <= i < |peers| :: ids[i] == peers[i].nodeId
  {
    seq(|peers|, i requires 0 <= i < |peers| => peers[i].nodeId)
  }

  function AllIds(me: Id, peers: seq<PeerInfo>): seq<Id> {
    SortUnique([me] + PeerIds(peers))
  }

  /** Position of the first occurrence, or the length. */
  function IndexOf(ids: seq<Id>, x: Id): (i: nat)
    ensures i <= |ids| && (i < |ids| ==> ids[i] == x)
    ensures forall j | 0 <= j < i :: ids[j] != x
    ensures i < |ids| <==> x in ids
  {
    if ids == [] then 0 else if ids[0] == x then 0 else IndexOf(ids[1..], x) + 1
  }

  /** Agreement on indices: nodes with the same membership compute the same list, in whatever
      order and however often their configuration lists the peers. */
  lemma SameMembersSameList(me1: Id, peers1: seq<PeerInfo>, me2: Id, peers2: seq<PeerInfo>)
    requires Members(me1, peers1) == Members(me2, peers2)
    ensures AllIds(me1, peers1) == AllIds(me2, peers2)
  {
    SortUniqueEffect([me1] + PeerIds(peers1));
    SortUniqueEffect([me2] + PeerIds(peers2));
    assert forall y :: y in [me1] + PeerIds(peers1) <==> y in Members(me1, peers1);
    assert forall y :: y in [me2] + PeerIds(peers2) <==> y in Members(me2, peers2);
    AscendingUnique(AllIds(me1, peers1), AllIds(me2, peers2));
  }

  ghost function Members(me: Id, peers: seq<PeerInfo>): set<Id> {
    set y | y in [me] + PeerIds(peers)
  }

  // ---- the Wythoff choice ----

  /** The peer a node with the given index talks to in a round, as an index into its peers. */
  function WythoffChoice(me: Id, peers: seq<PeerInfo>, index: nat, round: nat): (i: Option<nat>)
    requires |peers| + 1 < TWO_32
    ensures i.Some? ==> i.value < |peers|
  {
    if peers == [] then None
    else
      NumPairsPositive(|peers| + 1);
      var pair := GetPair(|peers| + 1, round);
      var ids := AllIds(me, peers);
      if pair.sender != index || pair.receiver >= |ids| then None
      else
        var i := IndexOf(PeerIds(peers), ids[pair.receiver]);
        if i < |peers| then Some(i) else None
  }

  /** Stable distinct ids: a node's peers are all different and different from itself. */
  ghost predicate DistinctIds(me: Id, peers: seq<PeerInfo>) {
    forall i, j | 0 <= i < j < |peers| + 1 :: ([me] + PeerIds(peers))[i] != ([me] + PeerIds(peers))[j]
  }

  lemma {:induction false} DistinctCount(ids: seq<Id>)
    requires forall i, j | 0 <= i < j < |ids| :: ids[i] != ids[j]
    ensures |set y | y in ids| == |ids|
  {
    if ids != [] {
      DistinctCount(ids[1..]);
      assert (set y | y in ids) == {ids[0]} + set y | y in ids[1..];
    }
  }

  lemma AscendingDistinct(ids: seq<Id>)
    requires Ascending(ids)
    ensures forall i, j | 0 <= i < j < |ids| :: ids[i] != ids[j]
  {
    forall i, j | 0 <= i < j < |ids|
      ensures ids[i] != ids[j]
    {
      LessTotal(ids[i], ids[j]);
    }
  }

  /** With distinct ids, the list has one entry a node. */
  lemma AllIdsLength(me: Id, peers: seq<PeerInfo>)
    requires DistinctIds(me, peers)
    ensures |AllIds(me, peers)| == |peers| + 1
    ensures Ascending(AllIds(me, peers)) && forall y :: y in AllIds(me, peers) <==> y == me || y in PeerIds(peers)
  {
    var all := [me] + PeerIds(peers);
    SortUniqueEffect(all);
    AscendingDistinct(AllIds(me, peers));
    DistinctCount(all);
    DistinctCount(AllIds(me, peers));
    assert (set y | y in all) == set y | y in AllIds(me, peers);
  }

  lemma ListedAt(ids: seq<Id>, i: nat)
    requires Ascending(ids) && i < |ids|
    ensures IndexOf(ids, ids[i]) == i
  {
    AscendingDistinct(ids);
  }

  /** The pair of a round, for a cluster of n nodes. */
  function PairOf(n: nat, round: nat): (pair: GossipPair)
    requires 2 <= n < TWO_32
    ensures ValidPair(n, pair)
  {
    NumPairsPositive(n);
    NoSelfGossip(n, round);
    GetPair(n, round)
  }

  /** A scheduled sender with distinct ids always gets a real peer other than itself, namely the
      scheduled receiver; any other node gets none. */
  lemma SenderGetsRealPeer(me: Id, peers: seq<PeerInfo>, round: nat)
    requires DistinctIds(me, peers) && 1 <= |peers| < TWO_32 - 1
    ensures var ids := AllIds(me, peers);
            var choice := WythoffChoice(me, peers, IndexOf(ids, me), round);
            var pair := PairOf(|peers| + 1, round);
            && |ids| == |peers| + 1 && (choice.Some? <==> ids[pair.sender] == me)
            && (choice.Some? ==> peers[choice.value].nodeId == ids[pair.receiver] != me)
  {
    var ids := AllIds(me, peers);
    var pair := PairOf(|peers| + 1, round);
    NumPairsPositive(|peers| + 1);
    AllIdsLength(me, peers);
    hide NumPairs, GetPair, SortUnique, AllIds;
    AscendingDistinct(ids);
    ListedAt(ids, pair.sender);
    assert ids[pair.receiver] in ids;
  }

  /** A cluster: every node lists all the others, each once. */
  ghost predicate Cluster(peersOf: map<Id, seq<PeerInfo>>) {
    forall m | m in peersOf :: DistinctIds(m, peersOf[m]) && Members(m, peersOf[m]) == peersOf.Keys
  }

  /** What node m does in a round of the schedule. */
  function ChoiceOf(peersOf: map<Id, seq<PeerInfo>>, m: Id, round: nat): Option<nat>
    requires m in peersOf && |peersOf[m]| + 1 < TWO_32
  {
    WythoffChoice(m, peersOf[m], IndexOf(AllIds(m, peersOf[m]), m), round)
  }

  lemma ClusterSize(peersOf: map<Id, seq<PeerInfo>>, m: Id)
    requires Cluster(peersOf) && m in peersOf
    ensures |peersOf[m]| + 1 == |peersOf|
  {
    DistinctCount([m] + PeerIds(peersOf[m]));
    assert Members(m, peersOf[m]) == (set y | y in [m] + PeerIds(peersOf[m]));
    assert |peersOf.Keys| == |peersOf|;
  }

  /** What one member does in a round, in terms of the list of ids that any member w computes. */
  lemma MemberChoice(peersOf: map<Id, seq<PeerInfo>>, w: Id, m: Id, round: nat)
    requires Cluster(peersOf) && w in peersOf && m in peersOf && 2 <= |peersOf| < TWO_32
    ensures |peersOf[m]| + 1 == |peersOf| == |AllIds(w, peersOf[w])|
    ensures ChoiceOf(peersOf, m, round).Some? <==> AllIds(w, peersOf[w])[PairOf(|peersOf|, round).sender] == m
    ensures ChoiceOf(peersOf, m, round).Some? ==> OtherMember(peersOf, m, ChoiceOf(peersOf, m, round).value)
  {
    hide PairOf, WythoffChoice, DistinctIds, AllIds;
    ClusterSize(peersOf, m);
    SameMembersSameList(m, peersOf[m], w, peersOf[w]);
    SenderGetsRealPeer(m, peersOf[m], round);
    PeersAreMembers(m, peersOf[m]);
  }

  /** The i-th peer of m is another node of the cluster. */
  predicate OtherMember(peersOf: map<Id, seq<PeerInfo>>, m: Id, i: nat) {
    m in peersOf && i < |peersOf[m]| && peersOf[m][i].nodeId in peersOf && peersOf[m][i].nodeId != m
  }

  /** In every round exactly one node of a cluster sends, and to another node of the cluster. */
  lemma ExactlyOneSender(peersOf: map<Id, seq<PeerInfo>>, round: nat) returns (s: Id)
    requires Cluster(peersOf) && 2 <= |peersOf| < TWO_32
    ensures s in peersOf
    ensures forall m | m in peersOf :: |peersOf[m]| + 1 == |peersOf|
    ensures forall m | m in peersOf :: ChoiceOf(peersOf, m, round).Some? <==> m == s
    ensures OtherMember(peersOf, s, ChoiceOf(peersOf, s, round).value)
  {
    hide PairOf, ChoiceOf, AllIds, OtherMember;
    var w :| w in peersOf;
    MemberChoice(peersOf, w, w, round);
    s := AllIds(w, peersOf[w])[PairOf(|peersOf|, round).sender];
    ListedMembers(peersOf, w);
    forall m | m in peersOf
      ensures |peersOf[m]| + 1 == |peersOf|
      ensures ChoiceOf(peersOf, m, round).Some? <==> m == s
      ensures ChoiceOf(peersOf, m, round).Some? ==> OtherMember(peersOf, m, ChoiceOf(peersOf, m, round).value)
    {
      MemberChoice(peersOf, w, m, round);
    }
  }

  lemma ListedMembers(peersOf: map<Id, seq<PeerInfo>>, w: Id)
    requires Cluster(peersOf) && w in peersOf
    ensures forall y :: y in AllIds(w, peersOf[w]) <==> y in peersOf
  {
    hide DistinctIds;
    AllIdsLength(w, peersOf[w]);
    forall y
      ensures y in AllIds(w, peersOf[w]) <==> y in Members(w, peersOf[w])
    {
    }
  }

  lemma PeersAreMembers(me: Id, peers: seq<PeerInfo>)
    ensures forall i | 0 <= i < |peers| :: peers[i].nodeId in Members(me, peers)
  {
    forall i | 0 <= i < |peers|
      ensures peers[i].nodeId in Members(me, peers)
    {
      assert ([me] + PeerIds(peers))[i + 1] == peers[i].nodeId;
    }
  }

  /** Fairness of whole clusters: in any n*(n-1) consecutive rounds every node of a cluster of
      three or more sends once at least, and to a real peer. */
  lemma EveryMemberSends(peersOf: map<Id, seq<PeerInfo>>, m: Id, r0: nat) returns (r: nat)
    requires Cluster(peersOf) && m in peersOf && |peersOf| >= 3 && |peersOf| * (|peersOf| - 1) < TWO_32
    ensures r0 <= r < r0 + |peersOf| * (|peersOf| - 1)
    ensures |peersOf[m]| + 1 == |peersOf| < TWO_32
    ensures ChoiceOf(peersOf, m, r).Some? && OtherMember(peersOf, m, ChoiceOf(peersOf, m, r).value)
  {
    hide NumPairs, GetPair, ChoiceOf, AllIds, OtherMember, Cluster;
    var n := |peersOf|;
    AtMostProduct(n);
    ClusterSize(peersOf, m);
    ListedMembers(peersOf, m);
    var ids := AllIds(m, peersOf[m]);
    MemberChoice(peersOf, m, m, r0);
    r := EveryNodeSends(n, IndexOf(ids, m), r0);
    MemberChoice(peersOf, m, m, r);
  }

  lemma AtMostProduct(n: nat)
    requires n >= 2
    ensures n <= n * (n - 1)
  {
    ScaleOrder(1, n - 1, n);
  }
}

/** The Wythoff gossip scheduler in exact arithmetic. */
module Scheduler {
  import opened Arithmetic
  import opened Types
  import opened Golden
  import opened GoldenLaws

  datatype GossipPair = GossipPair(sender: nat, receiver: nat)
  datatype SyncMode = Push | Pull

  /** Number of directed pairs, computed in 32-bit unsigned arithmetic as the scheduler does. */
  function NumPairs(n: nat): nat {
    (n * (n - 1)) % TWO_32
  }

  function DecodePair(n: nat, index: nat): GossipPair
    requires n >= 2
  {
    var sender := index / (n - 1);
    var receiver := index % (n - 1);
    GossipPair(sender, if receiver >= sender then receiver + 1 else receiver)
  }

  function GetPair(n: nat, round: nat): GossipPair
    requires n >= 2 && NumPairs(n) > 0
  {
    DecodePair(n, FloorPhi(round) % NumPairs(n))
  }

  /** Membership test for { floor(k*phi) : k >= 1 } through the candidate k = ceil(n/phi). */
  predicate InBeattyPhi(n: nat) {
    FloorPhi(CeilDivPhi(n)) == n
  }

  function GetSyncMode(round: nat): SyncMode {
    if InBeattyPhi(round) then Pull else Push
  }

  // ---- pairs ----

  function EncodePair(n: nat, p: GossipPair): int {
    p.sender * (n - 1) + (if p.receiver > p.sender then p.receiver - 1 else p.receiver)
  }

  predicate ValidPair(n: nat, p: GossipPair) {
    p.sender < n && p.receiver < n && p.sender != p.receiver
  }

  lemma NumPairsBound(n: nat)
    requires n >= 1
    ensures NumPairs(n) <= n * (n - 1)
    ensures n * (n - 1) < TWO_32 ==> NumPairs(n) == n * (n - 1)
  {
    ProductNonNegative(n, n - 1);
    ModBound(n * (n - 1), TWO_32);
  }

  lemma DecodeValid(n: nat, index: nat)
    requires n >= 2 && index < n * (n - 1)
    ensures ValidPair(n, DecodePair(n, index)) && EncodePair(n, DecodePair(n, index)) == index
  {
    DivModRange(index, n, n - 1);
  }

  lemma EncodeInRange(n: nat, p: GossipPair)
    requires n >= 2 && ValidPair(n, p)
    ensures 0 <= EncodePair(n, p) < n * (n - 1)
  {
    ScaleOrder(p.sender, n - 1, n - 1);
    ProductNonNegative(p.sender, n - 1);
  }

  lemma DecodeOfEncode(n: nat, p: GossipPair)
    requires n >= 2 && ValidPair(n, p)
    ensures EncodePair(n, p) >= 0 && DecodePair(n, EncodePair(n, p)) == p
  {
    EncodeInRange(n, p);
    var r := if p.receiver > p.sender then p.receiver - 1 else p.receiver;
    DivModUnique(EncodePair(n, p), p.sender, r, n - 1);
  }

  /** Indices 0..n*(n-1)-1 and ordered pairs of distinct nodes correspond one to one. */
  lemma DecodePairBijective(n: nat, index: nat, p: GossipPair)
    requires n >= 2 && index < n * (n - 1)
    ensures ValidPair(n, DecodePair(n, index))
    ensures ValidPair(n, p) ==> 0 <= EncodePair(n, p) < n * (n - 1)
    ensures ValidPair(n, p) ==> (DecodePair(n, index) == p <==> index == EncodePair(n, p))
  {
    hide DecodePair, EncodePair;
    DecodeValid(n, index);
    if ValidPair(n, p) {
      EncodeInRange(n, p);
      DecodeOfEncode(n, p);
    }
  }

  /** Every scheduled pair joins two different existing nodes, even when the pair count wraps. */
  lemma NoSelfGossip(n: nat, round: nat)
    requires n >= 2 && NumPairs(n) > 0
    ensures ValidPair(n, GetPair(n, round))
  {
    hide Form, NumPairs;
    NumPairsBound(n);
    var index := FloorPhi(round) % NumPairs(n);
    DecodePairBijective(n, index, DecodePair(n, index));
  }

  lemma SamePairSameIndex(n: nat, i: nat, j: nat)
    requires n >= 2 && i < n * (n - 1) && j < n * (n - 1)
    requires DecodePair(n, i) == DecodePair(n, j)
    ensures i == j
  {
    DecodePairBijective(n, i, DecodePair(n, j));
    DecodePairBijective(n, j, DecodePair(n, j));
  }

  // ---- push and pull: the Beatty partition ----

  /** floor(k * phi^2); phi^2 is the larger root of x*x - 3*x + 1. */
  function FloorPhiSquared(k: nat): (m: nat)
    ensures k <= m && m * m - 3 * (m * k) + k * k <= 0
    ensures 0 < (m + 1) * (m + 1) - 3 * ((m + 1) * k) + k * k
  {
    SquareShift(FloorPhi(k), k);
    SquareShift(FloorPhi(k) + 1, k);
    FloorPhi(k) + k
  }

  lemma SquareShift(m: int, k: int)
    ensures (m + k) * (m + k) - 3 * ((m + k) * k) + k * k == Form(m, k)
  {
  }

  /** If any k gives floor(k*phi) = n, the candidate ceil(n/phi) does. */
  lemma CandidateSuffices(n: nat, j: nat)
    requires n >= 1 && j >= 1 && FloorPhi(j) == n
    ensures CeilDivPhi(n) == j
  {
    hide Form;
    FloorPhiStep(j - 1);
    SidesOrderAt(n, j - 1);
    CeilDivPhiUnique(CeilDivPhi(n), j, n);
  }

  /** A number above floor(k*phi) lies above k*phi. */
  lemma SidesOrderAt(m: nat, k: nat)
    requires m > FloorPhi(k)
    ensures Form(m, k) > 0
  {
    hide Form;
    Up(FloorPhi(k) + 1, m, k);
  }

  /** Between two multiples of phi: when no multiple of phi falls in [n, n + 1), the number
      n + 1 - k, with k = ceil(n/phi), is the index of n in the second sequence. */
  lemma ComplementIndex(n: nat, k: nat)
    requires 1 <= k <= n && Form(n, k - 1) > 0 >= Form(n + 1, k)
    ensures FloorPhiSquared(n + 1 - k) == n
  {
    hide Form;
    var j := n + 1 - k;
    Reflect(n, k - 1);
    Reflect(n + 1, k);
    NeverZero(n + 1, k);
    assert Form(k - 1, j) == -Form(n, k - 1) && Form(k, j) == -Form(n + 1, k);
    FloorPhiUnique(k - 1, FloorPhi(j), j);
  }

  /** A member of the second sequence is never in the first. */
  lemma SequencesDisjoint(n: nat, j: nat)
    requires n >= 1 && j >= 1 && FloorPhiSquared(j) == n
    ensures !InBeattyPhi(n)
  {
    hide Form;
    var a := n - j;
    assert FloorPhi(j) == a;
    // a and a + 1 bracket n/phi and (n + 1)/phi
    Reflect(n, a);
    Reflect(n + 1, a + 1);
    NeverZero(a, j);
    assert Form(n, a) > 0 >= Form(n + 1, a + 1);
    assert Form(n, a + 1) <= 0 by {
      if Form(n, a + 1) > 0 { Up(n, n + 1, a + 1); }
    }
    CeilDivPhiUnique(CeilDivPhi(n), a + 1, n);
  }

  /** Every round is a pull or a push, never both: the two Beatty sequences partition the
      positive integers, and the one-candidate membership test decides which side. */
  lemma BeattyPartition(n: nat)
    requires n >= 1
    ensures GetSyncMode(n) == Pull <==> exists k: nat :: k >= 1 && FloorPhi(k) == n
    ensures GetSyncMode(n) == Push <==> exists k: nat :: k >= 1 && FloorPhiSquared(k) == n
  {
    hide Form;
    forall k: nat | k >= 1 && FloorPhi(k) == n
      ensures InBeattyPhi(n)
    {
      CandidateSuffices(n, k);
    }
    forall k: nat | k >= 1 && FloorPhiSquared(k) == n
      ensures !InBeattyPhi(n)
    {
      SequencesDisjoint(n, k);
    }
    var k := CeilDivPhi(n);
    if InBeattyPhi(n) {
      assert k >= 1 && FloorPhi(k) == n;
    } else {
      assert Form(n + 1, k) <= 0 by {
        if Form(n + 1, k) > 0 { FloorPhiUnique(n, FloorPhi(k), k); }
      }
      ComplementIndex(n, k);
      assert n + 1 - k >= 1 && FloorPhiSquared(n + 1 - k) == n;
    }
  }
}

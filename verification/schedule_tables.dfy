/** The tables the scheduler fills in loops: a precomputed schedule and the coverage counts. */
module ScheduleTables {
  import opened Golden
  import opened Scheduler

  /** The pairs of rounds start, start + 1, ..., start + count - 1, in order. */
  method PrecomputeSchedule(n: nat, start: nat, count: nat) returns (schedule: seq<GossipPair>)
    requires n >= 2 && NumPairs(n) > 0
    ensures |schedule| == count
    ensures forall i :: 0 <= i < count ==> schedule[i] == GetPair(n, start + i)
  {
    hide NumPairs, DecodePair, FloorPhi;
    schedule := [];
    var r := start;
    while r < start + count
      invariant start <= r <= start + count
      invariant |schedule| == r - start
      invariant forall i :: 0 <= i < |schedule| ==> schedule[i] == GetPair(n, start + i)
    {
      schedule := schedule + [GetPair(n, r)];
      r := r + 1;
    }
  }

  /** How many of the rounds 1..rounds are scheduled for pair p. */
  function Occurrences(n: nat, rounds: nat, p: GossipPair): nat
    requires n >= 2 && NumPairs(n) > 0
  {
    if rounds == 0 then 0
    else Occurrences(n, rounds - 1, p) + (if GetPair(n, rounds) == p then 1 else 0)
  }

  /** It is the number of rounds from 1 on that schedule the pair. */
  lemma {:induction false} OccurrencesCount(n: nat, rounds: nat, p: GossipPair)
    requires n >= 2 && NumPairs(n) > 0
    ensures Occurrences(n, rounds, p) == |set r: nat | 1 <= r <= rounds && GetPair(n, r) == p|
  {
    hide NumPairs, GetPair;
    var at := set r: nat | 1 <= r <= rounds && GetPair(n, r) == p;
    if rounds == 0 {
      assert at == {};
    } else {
      OccurrencesCount(n, rounds - 1, p);
      var before := set r: nat | 1 <= r <= rounds - 1 && GetPair(n, r) == p;
      assert rounds !in before;
      assert at == if GetPair(n, rounds) == p then before + {rounds} else before;
    }
  }

  /** Counts, for every pair of nodes, the rounds in which it was scheduled. */
  method CoverageMatrix(n: nat, rounds: nat) returns (matrix: array2<nat>)
    requires n >= 2 && NumPairs(n) > 0
    ensures fresh(matrix) && matrix.Length0 == n && matrix.Length1 == n
    ensures forall i, j :: 0 <= i < n && 0 <= j < n ==> matrix[i, j] == Occurrences(n, rounds, GossipPair(i, j))
  {
    hide NumPairs, DecodePair, FloorPhi;
    matrix := new nat[n, n]((i, j) => 0);
    var r := 1;
    while r <= rounds
      invariant 1 <= r <= rounds + 1
      invariant forall i, j :: 0 <= i < n && 0 <= j < n ==> matrix[i, j] == Occurrences(n, r - 1, GossipPair(i, j))
    {
      var pair := GetPair(n, r);
      NoSelfGossip(n, r);
      matrix[pair.sender, pair.receiver] := matrix[pair.sender, pair.receiver] + 1;
      r := r + 1;
    }
  }

  /** Sum of the first j counts of row i, and of all counts of the first i rows. */
  function RowSum(n: nat, rounds: nat, i: nat, j: nat): nat
    requires n >= 2 && NumPairs(n) > 0
  {
    if j == 0 then 0 else RowSum(n, rounds, i, j - 1) + Occurrences(n, rounds, GossipPair(i, j - 1))
  }

  function TotalSum(n: nat, rounds: nat, i: nat): nat
    requires n >= 2 && NumPairs(n) > 0
  {
    if i == 0 then 0 else TotalSum(n, rounds, i - 1) + RowSum(n, rounds, i - 1, n)
  }

  lemma {:induction false} RowStep(n: nat, rounds: nat, i: nat, j: nat)
    requires n >= 2 && NumPairs(n) > 0 && rounds >= 1
    ensures var p := GetPair(n, rounds);
            RowSum(n, rounds, i, j) == RowSum(n, rounds - 1, i, j) + (if p.sender == i && p.receiver < j then 1 else 0)
    decreases j
  {
    hide NumPairs, DecodePair, GetPair, FloorPhi;
    if j > 0 {
      RowStep(n, rounds, i, j - 1);
    }
  }

  lemma {:induction false} TotalStep(n: nat, rounds: nat, i: nat)
    requires n >= 2 && NumPairs(n) > 0 && rounds >= 1
    ensures TotalSum(n, rounds, i) == TotalSum(n, rounds - 1, i) + (if GetPair(n, rounds).sender < i then 1 else 0)
    decreases i
  {
    hide NumPairs, DecodePair, GetPair, FloorPhi, Occurrences, RowSum;
    if i > 0 {
      TotalStep(n, rounds, i - 1);
      RowStep(n, rounds, i - 1, n);
      NoSelfGossip(n, rounds);
    }
  }

  lemma {:induction false} RowEmpty(n: nat, i: nat, j: nat)
    requires n >= 2 && NumPairs(n) > 0
    ensures RowSum(n, 0, i, j) == 0
  {
    if j > 0 { RowEmpty(n, i, j - 1); }
  }

  lemma {:induction false} TotalEmpty(n: nat, i: nat)
    requires n >= 2 && NumPairs(n) > 0
    ensures TotalSum(n, 0, i) == 0
  {
    if i > 0 {
      TotalEmpty(n, i - 1);
      RowEmpty(n, i - 1, n);
    }
  }

  /** The coverage matrix loses no round: its entries add up to the number of rounds, and its
      diagonal is zero. */
  lemma {:induction false} CoverageConserved(n: nat, rounds: nat, i: nat)
    requires n >= 2 && NumPairs(n) > 0
    ensures TotalSum(n, rounds, n) == rounds
    ensures Occurrences(n, rounds, GossipPair(i, i)) == 0
    decreases rounds
  {
    hide NumPairs, DecodePair, GetPair, FloorPhi;
    if rounds == 0 {
      TotalEmpty(n, n);
    } else {
      CoverageConserved(n, rounds - 1, i);
      TotalStep(n, rounds, n);
      NoSelfGossip(n, rounds);
    }
  }
}

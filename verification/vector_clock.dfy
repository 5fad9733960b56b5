/** Vector clocks: their order, and the class that updates one in place. */
module VectorClocks {
  import opened Types

  type Entries = map<Id, nat>

  function At(c: Entries, n: Id): nat {
    if n in c then c[n] else 0
  }

  ghost predicate Leq(a: Entries, b: Entries) {
    forall n: Id :: At(a, n) <= At(b, n)
  }

  /** The strict order that happens_before decides. */
  ghost predicate Before(a: Entries, b: Entries) {
    Leq(a, b) && !Leq(b, a)
  }

  function Merged(a: Entries, b: Entries): (c: Entries) {
    map n | n in a.Keys + b.Keys :: if At(a, n) >= At(b, n) then At(a, n) else At(b, n)
  }

  /** merge is the least upper bound of the two clocks. */
  lemma MergedIsLeastUpperBound(a: Entries, b: Entries, c: Entries)
    ensures Leq(a, Merged(a, b)) && Leq(b, Merged(a, b))
    ensures Leq(a, c) && Leq(b, c) ==> Leq(Merged(a, b), c)
  {
    forall n: Id
      ensures At(a, n) <= At(Merged(a, b), n) && At(b, n) <= At(Merged(a, b), n)
      ensures At(Merged(a, b), n) == At(a, n) || At(Merged(a, b), n) == At(b, n)
    {
    }
  }

  lemma LeqTransitive(a: Entries, b: Entries, c: Entries)
    requires Leq(a, b) && Leq(b, c)
    ensures Leq(a, c)
  {
    forall n: Id
      ensures At(a, n) <= At(c, n)
    {
      assert At(a, n) <= At(b, n);
    }
  }

  /** Happens-before is a strict order, and two clocks are concurrent both when they are
      incomparable and when they agree everywhere (up to zero entries). */
  lemma BeforeIsStrictOrder(a: Entries, b: Entries, c: Entries)
    ensures !Before(a, a)
    ensures Before(a, b) && Before(b, c) ==> Before(a, c)
    ensures !Before(a, b) && !Before(b, a) <==>
            (forall n: Id :: At(a, n) == At(b, n)) || (!Leq(a, b) && !Leq(b, a))
  {
    if Before(a, b) && Before(b, c) {
      LeqTransitive(a, b, c);
      if Leq(c, a) {
        LeqTransitive(b, c, a);
      }
    }
    if Leq(a, b) && Leq(b, a) {
      forall n: Id
        ensures At(a, n) == At(b, n)
      {
        assert At(a, n) <= At(b, n) && At(b, n) <= At(a, n);
      }
    }
  }

  class VectorClock {
    const nodeId: Id
    var entries: Entries

    ghost function Value(): Clock
      reads this
    {
      Clock(nodeId, entries)
    }

    constructor (nodeId: Id)
      ensures Value() == Clock(nodeId, map[nodeId := 0])
    {
      this.nodeId := nodeId;
      this.entries := map[nodeId := 0];
    }

    method Tick() returns (now: nat)
      modifies this
      ensures now == At(old(entries), nodeId) + 1
      ensures entries == old(entries)[nodeId := now]
    {
      now := At(entries, nodeId) + 1;
      entries := entries[nodeId := now];
    }

    /** Raises every entry to the other clock's, in whatever order that clock is iterated. */
    method Merge(other: Clock)
      modifies this
      ensures entries == Merged(old(entries), other.entries)
    {
      var todo := other.entries.Keys;
      while todo != {}
        invariant todo <= other.entries.Keys
        invariant entries.Keys == old(entries).Keys + (other.entries.Keys - todo)
        invariant forall n | n in entries && n !in todo && n in other.entries ::
                    entries[n] == Merged(old(entries), other.entries)[n]
        invariant forall n | n in entries && (n in todo || n !in other.entries) ::
                    entries[n] == At(old(entries), n)
        decreases todo
      {
        var key :| key in todo;
        todo := todo - {key};
        var val := other.entries[key];
        entries := entries[key := if At(entries, key) >= val then At(entries, key) else val];
      }
    }

    method HappensBefore(other: Clock) returns (before: bool)
      ensures before <==> Before(entries, other.entries)
    {
      before := DecideBefore(entries, other.entries);
    }

    /** The two loops with an early exit and a flag decide the strict order. */
    static method DecideBefore(entries: Entries, other: Entries) returns (before: bool)
      ensures before <==> Before(entries, other)
    {
      var atLeastOneLess := false;
      var todo := entries.Keys;
      while todo != {}
        invariant todo <= entries.Keys
        invariant forall n | n in entries && n !in todo :: entries[n] <= At(other, n)
        invariant atLeastOneLess <==> exists n :: n in entries && n !in todo && entries[n] < At(other, n)
        decreases todo
      {
        var key :| key in todo;
        var val := entries[key];
        var otherVal := At(other, key);
        if val > otherVal {
          assert At(entries, key) > At(other, key);
          return false;
        }
        if val < otherVal {
          atLeastOneLess := true;
        }
        todo := todo - {key};
      }
      assert Leq(entries, other);
      ghost var lessInShared := atLeastOneLess;
      todo := other.Keys;
      while todo != {}
        invariant todo <= other.Keys
        invariant atLeastOneLess <==>
                  lessInShared || exists n :: n in other && n !in todo && n !in entries && other[n] > 0
        decreases todo
      {
        var key :| key in todo;
        if key !in entries && other[key] > 0 {
          atLeastOneLess := true;
        }
        todo := todo - {key};
      }
      before := atLeastOneLess;
      if before {
        if lessInShared {
          var n :| n in entries && entries[n] < At(other, n);
          assert At(entries, n) < At(other, n);
        } else {
          var n :| n in other && n !in entries && other[n] > 0;
          assert At(entries, n) < At(other, n);
        }
      } else {
        forall n: Id
          ensures At(other, n) <= At(entries, n)
        {
        }
      }
    }

    method IsConcurrent(other: VectorClock) returns (concurrent: bool)
      ensures concurrent <==> !Before(entries, other.entries) && !Before(other.entries, entries)
    {
      var forward := HappensBefore(Clock(other.nodeId, other.entries));
      var backward := other.HappensBefore(Clock(nodeId, entries));
      concurrent := !forward && !backward;
    }
  }
}

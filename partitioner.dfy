// Round-robin ownership of platforms by worker processes
// (assign_platform_ids_to_process in simulate.cc).

module Partitioner {

  /** The ids a worker owns: start, start + P, start + 2P, ... below total. */
  function OwnedIds(start: int, totalProcess: int, totalPlatforms: int): seq<int>
    requires totalProcess >= 1
    decreases totalPlatforms - start
  {
    if start >= totalPlatforms then []
    else [start] + OwnedIds(start + totalProcess, totalProcess, totalPlatforms)
  }

  /**
   * assign_platform_ids_to_process: the platform ids of worker `rank`, in the
   * order the loop produces them.
   */
  method AssignPlatformIdsToProcess(rank: int, totalProcess: int, totalPlatforms: int) returns (out: seq<int>)
    requires totalProcess >= 1
    ensures out == OwnedIds(rank, totalProcess, totalPlatforms)
  {
    out := [];
    var platform := rank;
    while platform < totalPlatforms
      invariant out + OwnedIds(platform, totalProcess, totalPlatforms) == OwnedIds(rank, totalProcess, totalPlatforms)
      decreases totalPlatforms - platform
    {
      out := out + [platform];
      platform := platform + totalProcess;
    }
  }

  /** k copies of p, k >= 1, add up to at least p. */
  lemma {:induction false} MulAtLeast(k: int, p: int)
    requires k >= 1 && p >= 1
    ensures k * p >= p
    decreases k
  {
    if k > 1 {
      MulAtLeast(k - 1, p);
      assert k * p == (k - 1) * p + p;
    }
  }

  /** The i-th listed id is start + i * P. */
  lemma {:induction false} OwnedIdsTerms(start: int, totalProcess: int, totalPlatforms: int)
    requires totalProcess >= 1
    ensures forall i | 0 <= i < |OwnedIds(start, totalProcess, totalPlatforms)| ::
      OwnedIds(start, totalProcess, totalPlatforms)[i] == start + i * totalProcess
    decreases totalPlatforms - start
  {
    var r := OwnedIds(start, totalProcess, totalPlatforms);
    if start < totalPlatforms {
      var tail := OwnedIds(start + totalProcess, totalProcess, totalPlatforms);
      OwnedIdsTerms(start + totalProcess, totalProcess, totalPlatforms);
      assert r == [start] + tail;
      forall i | 0 < i < |r|
        ensures r[i] == start + i * totalProcess
      {
        assert r[i] == tail[i - 1] == start + totalProcess + (i - 1) * totalProcess;
        assert (i - 1) * totalProcess + totalProcess == i * totalProcess;
      }
    }
  }

  /**
   * The list is strictly ascending, every id lies in start..total-1, and the
   * term after the last would reach total.
   */
  lemma {:induction false} OwnedIdsBounds(start: int, totalProcess: int, totalPlatforms: int)
    requires totalProcess >= 1
    ensures var r := OwnedIds(start, totalProcess, totalPlatforms);
      && (forall i | 0 <= i < |r| :: start <= r[i] < totalPlatforms)
      && (forall i, j | 0 <= i < j < |r| :: r[i] < r[j])
      && start + |r| * totalProcess >= totalPlatforms
    decreases totalPlatforms - start
  {
    var r := OwnedIds(start, totalProcess, totalPlatforms);
    if start < totalPlatforms {
      var tail := OwnedIds(start + totalProcess, totalProcess, totalPlatforms);
      OwnedIdsBounds(start + totalProcess, totalProcess, totalPlatforms);
      assert r == [start] + tail;
      forall i, j | 0 <= i < j < |r|
        ensures r[i] < r[j]
      {
        assert r[j] == tail[j - 1];
        if i > 0 {
          assert r[i] == tail[i - 1];
        }
      }
      assert |r| * totalProcess == |tail| * totalProcess + totalProcess;
    }
  }

  /** a and a + kP leave the same remainder. */
  lemma ModuloOfMultiple(a: int, k: int, p: int)
    requires p >= 1
    ensures (a + k * p) % p == a % p
  {
    var q := a / p;
    assert a == q * p + a % p;
    assert a + k * p == (q + k) * p + a % p;
    RemainderUnique(a + k * p, q + k, a % p, p);
  }

  /** Euclidean division: a remainder in 0..p-1 is the remainder. */
  lemma RemainderUnique(a: int, q: int, r: int, p: int)
    requires p >= 1 && 0 <= r < p && a == q * p + r
    ensures a % p == r
  {
    var q' := a / p;
    var r' := a % p;
    assert a == q' * p + r';
    assert (q - q') * p == r' - r;
    if q' < q {
      MulAtLeast(q - q', p);
    } else if q' > q {
      MulAtLeast(q' - q, p);
    }
  }

  /** x is listed iff it lies between start and total and is start plus a multiple of P. */
  lemma {:induction false} OwnedIdsMembers(start: int, totalProcess: int, totalPlatforms: int, x: int)
    requires totalProcess >= 1
    ensures x in OwnedIds(start, totalProcess, totalPlatforms) <==>
            start <= x < totalPlatforms && (x - start) % totalProcess == 0
    decreases totalPlatforms - start
  {
    var p := totalProcess;
    if start < totalPlatforms {
      OwnedIdsMembers(start + p, p, totalPlatforms, x);
      ModuloOfMultiple(x - start - p, 1, p);
      assert (x - start - p) % p == (x - start) % p;
      if start < x < start + p {
        RemainderUnique(x - start, 0, x - start, p);
      }
    }
  }

  /**
   * Over ranks 0..P-1 the lists partition 0..total-1: id x is listed for
   * exactly the rank x mod P.
   */
  lemma OwnershipPartition(totalProcess: int, totalPlatforms: int, x: int, rank: int)
    requires totalProcess >= 1
    requires 0 <= rank < totalProcess
    requires 0 <= x < totalPlatforms
    ensures x in OwnedIds(rank, totalProcess, totalPlatforms) <==> x % totalProcess == rank
  {
    var p := totalProcess;
    OwnedIdsMembers(rank, p, totalPlatforms, x);
    var q := x / p;
    assert x == q * p + x % p;
    ModuloOfMultiple(x - rank, -q, p);
    assert x - rank + (-q) * p == x % p - rank;
    if x % p == rank {
      assert (x - rank) % p == 0 % p;
    } else if x % p > rank {
      RemainderUnique(x % p - rank, 0, x % p - rank, p);
    } else {
      RemainderUnique(x % p - rank, -1, x % p - rank + p, p);
    }
  }

  /** Every id a worker owns is congruent to its rank modulo P. */
  lemma OwnedIdsCongruent(rank: int, totalProcess: int, totalPlatforms: int)
    requires totalProcess >= 1 && 0 <= rank < totalProcess
    ensures forall x | x in OwnedIds(rank, totalProcess, totalPlatforms) :: x >= 0 && x % totalProcess == rank
  {
    forall x | x in OwnedIds(rank, totalProcess, totalPlatforms)
      ensures x >= 0 && x % totalProcess == rank
    {
      OwnedIdsMembers(rank, totalProcess, totalPlatforms, x);
      OwnershipPartition(totalProcess, totalPlatforms, x, rank);
    }
  }
}

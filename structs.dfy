// Trains, holding-area entries, links and platforms (structs.hpp): the
// per-tick state machine of one platform.

module Structs {

  import opened Optional

  /** A train of line 'g', 'y' or 'b'; id -1 stands for "no train". */
  datatype Train = Train(line: char, id: int)

  /** A holding-area entry: a train and the tick it arrived at. */
  datatype Pair = Pair(train: Train, t: int)

  /** What send_out reports when no train left the link: line 'b', id -1. */
  const NoDeparture := Train('b', -1)

  /** send_out's destination for NoDeparture: the character 'b', that is 98. */
  const NoDestination := 'b' as int

  /**
   * Compare::operator(): a ranks below b in the holding queue, that is a
   * arrived later, or at the same tick with a larger train id.
   */
  predicate Compare(a: Pair, b: Pair): (r: bool)
    ensures r <==> KeyLess(b, a)
  {
    if a.t == b.t then a.train.id > b.train.id else a.t > b.t
  }

  /** The key the queue orders by: (arrival tick, train id), the least first. */
  predicate KeyLess(a: Pair, b: Pair) {
    a.t < b.t || (a.t == b.t && a.train.id < b.train.id)
  }

  /** Compare is the strict lexicographic order on (t, train id), reversed. */
  lemma CompareIsKeyOrder(a: Pair, b: Pair, c: Pair)
    ensures !Compare(a, a)
    ensures Compare(a, b) && Compare(b, c) ==> Compare(a, c)
    ensures !Compare(a, b) && !Compare(b, a) <==> a.t == b.t && a.train.id == b.train.id
  {
  }

  /**
   * The entry std::priority_queue::top returns: no entry ranks above it.
   * Among entries with equal keys the first inserted one is taken.
   */
  function Top(q: seq<Pair>): (k: nat)
    requires |q| > 0
    ensures k < |q|
    ensures forall j | 0 <= j < |q| :: !Compare(q[k], q[j])
    ensures forall j | 0 <= j < k :: Compare(q[j], q[k])
    decreases |q|
  {
    if |q| == 1 then 0
    else
      var k := Top(q[..|q| - 1]);
      if Compare(q[k], q[|q| - 1]) then |q| - 1 else k
  }

  function RemoveAt(q: seq<Pair>, k: nat): seq<Pair>
    requires k < |q|
  {
    q[..k] + q[k + 1..]
  }

  /** Popping the top removes exactly that one entry. */
  lemma PopRemovesTop(q: seq<Pair>)
    requires |q| > 0
    ensures |RemoveAt(q, Top(q))| == |q| - 1
    ensures multiset(RemoveAt(q, Top(q))) + multiset{q[Top(q)]} == multiset(q)
  {
    var k := Top(q);
    assert q == q[..k] + [q[k]] + q[k + 1..];
  }

  /** The order in which repeated pops hand out the queue's entries. */
  function PopOrder(q: seq<Pair>): seq<Pair>
    decreases |q|
  {
    if |q| == 0 then []
    else
      var k := Top(q);
      [q[k]] + PopOrder(RemoveAt(q, k))
  }

  /** Pops hand out every entry once, by non-decreasing (tick, train id). */
  lemma {:induction false} PopOrderSortedPermutation(q: seq<Pair>)
    ensures multiset(PopOrder(q)) == multiset(q)
    ensures forall i, j | 0 <= i < j < |PopOrder(q)| :: !Compare(PopOrder(q)[i], PopOrder(q)[j])
    decreases |q|
  {
    if |q| > 0 {
      var k := Top(q);
      var rest := RemoveAt(q, k);
      PopRemovesTop(q);
      PopOrderSortedPermutation(rest);
      var p := PopOrder(q);
      assert p == [q[k]] + PopOrder(rest);
      forall i, j | 0 <= i < j < |p|
        ensures !Compare(p[i], p[j])
      {
        if i > 0 {
          assert p[i] == PopOrder(rest)[i - 1] && p[j] == PopOrder(rest)[j - 1];
        } else {
          assert p[j] == PopOrder(rest)[j - 1];
          assert p[j] in multiset(PopOrder(rest));
          assert p[j] in multiset(q);
          var m :| 0 <= m < |q| && q[m] == p[j];
        }
      }
    }
  }

  /** Entries (5,3), (5,1), (2,9) pop as (2,9), (5,1), (5,3). */
  lemma PopOrderExample()
    ensures PopOrder([Pair(Train('g', 3), 5), Pair(Train('g', 1), 5), Pair(Train('g', 9), 2)])
         == [Pair(Train('g', 9), 2), Pair(Train('g', 1), 5), Pair(Train('g', 3), 5)]
  {
    var q := [Pair(Train('g', 3), 5), Pair(Train('g', 1), 5), Pair(Train('g', 9), 2)];
    assert Top(q) == 2;
    var q1 := RemoveAt(q, 2);
    assert q1 == [Pair(Train('g', 3), 5), Pair(Train('g', 1), 5)];
    assert Top(q1) == 1;
    var q2 := RemoveAt(q1, 1);
    assert q2 == [Pair(Train('g', 3), 5)];
    assert PopOrder(q2) == [Pair(Train('g', 3), 5)];
  }

  /**
   * can_train_leave of both a link and a platform: a train is present and the
   * tick has not passed its entry tick plus the duration (travel time or
   * unloading time).
   */
  predicate MayLeave(occupied: bool, enterTime: int, duration: int, tick: int) {
    occupied && enterTime + duration >= tick
  }

  /**
   * The leave check admits every tick up to the deadline and none after it:
   * a train that entered at tick e with a duration d >= 1 may already leave
   * at tick e + 1, and one with duration 0 can leave at no later tick.
   */
  lemma MayLeaveWindow(e: int, d: int, tick: int)
    ensures MayLeave(true, e, d, tick) <==> tick <= e + d
    ensures d >= 1 ==> MayLeave(true, e, d, e + 1)
    ensures d == 0 && tick > e ==> !MayLeave(true, e, d, tick)
    ensures !MayLeave(false, e, d, tick)
  {
  }

  /** The outgoing link of a platform: at most one train and its travel time. */
  class Link {
    var travelTime: int
    var train: Option<Train>
    var enterTime: int

    constructor (travelTime: int)
      ensures this.travelTime == travelTime && train == None && enterTime == 0
    {
      this.travelTime := travelTime;
      train := None;
      enterTime := 0;
    }

    /** is_link_free: no train is on the link, so no tick lets one leave it. */
    predicate IsLinkFree(): (r: bool)
      reads this
      ensures r <==> train == None
      ensures r <==> forall tick :: !CanTrainLeave(tick)
    {
      if train == None then true
      else
        assert CanTrainLeave(enterTime + travelTime);
        false
    }

    /** can_train_leave: a train is on the link and tick is at most its entry tick plus the travel time. */
    predicate CanTrainLeave(tick: int): (r: bool)
      reads this
      ensures r <==> train.Some? && tick - enterTime <= travelTime
    {
      MayLeave(train.Some?, enterTime, travelTime, tick)
    }

    /** Hands out the train on the link and empties it. */
    method TrainLeave() returns (out: Train)
      requires train.Some?
      modifies this`train
      ensures out == old(train).value && train == None
    {
      out := train.value;
      train := None;
    }

    method TrainEnter(t: Train, tick: int)
      modifies this`train, this`enterTime
      ensures train == Some(t) && enterTime == tick
    {
      train := Some(t);
      enterTime := tick;
    }
  }

  /**
   * A platform: a dwell slot (train, entry tick, unloading time), its outgoing
   * link, the holding queue of waiting trains, the per-line successor platform
   * and the list of platforms that feed it. loadTime is the load-time
   * generator's next(train id).
   */
  class Platform {
    const loadTime: int -> int
    var outputPlatforms: map<char, int>
    var inputPlatforms: seq<int>
    var pq: seq<Pair>
    const link: Link
    var train: Option<Train>
    var unloadingTime: int
    var enterTime: int

    constructor (loadTime: int -> int, travelTime: int)
      ensures this.loadTime == loadTime && fresh(link)
      ensures link.travelTime == travelTime && link.train == None && link.enterTime == 0
      ensures outputPlatforms == map[] && inputPlatforms == [] && pq == []
      ensures train == None && unloadingTime == 0 && enterTime == 0
    {
      this.loadTime := loadTime;
      outputPlatforms := map[];
      inputPlatforms := [];
      pq := [];
      link := new Link(travelTime);
      train := None;
      unloadingTime := 0;
      enterTime := 0;
    }

    /** The trains on the link and in the dwell slot. */
    ghost function Held(): multiset<Train>
      reads this, link
    {
      (if link.train.Some? then multiset{link.train.value} else multiset{})
      + (if train.Some? then multiset{train.value} else multiset{})
    }

    /** is_platform_free: no train dwells, so no tick lets one leave the slot. */
    predicate IsPlatformFree(): (r: bool)
      reads this
      ensures r <==> train == None
      ensures r <==> forall tick :: !CanTrainLeave(tick)
    {
      if train == None then true
      else
        assert CanTrainLeave(enterTime + unloadingTime);
        false
    }

    /** can_train_leave: a train dwells and tick is at most its entry tick plus the unloading time. */
    predicate CanTrainLeave(tick: int): (r: bool)
      reads this
      ensures r <==> train.Some? && tick - enterTime <= unloadingTime
    {
      MayLeave(train.Some?, enterTime, unloadingTime, tick)
    }

    method TrainLeave() returns (out: Train)
      requires train.Some?
      modifies this`train
      ensures out == old(train).value && train == None
    {
      out := train.value;
      train := None;
    }

    /** Puts t in the dwell slot at tick, with the generator's unloading time. */
    method TrainEnter(t: Train, tick: int)
      modifies this`train, this`unloadingTime, this`enterTime
      ensures train == Some(t) && unloadingTime == loadTime(t.id) && enterTime == tick
    {
      train := Some(t);
      unloadingTime := loadTime(t.id);
      enterTime := tick;
    }

    /**
     * First step of a tick: the link releases its train if it may leave, then
     * the dwell slot's train moves onto a free link if it may leave. Returns the
     * released train (NoDeparture otherwise) and its destination platform:
     * output_platforms[line], where a missing line is inserted with 0, or
     * NoDestination for a train id of -1.
     */
    method SendOut(tick: int) returns (out: Pair)
      modifies this`train, this`outputPlatforms, link`train, link`enterTime
      ensures out.train == if old(link.CanTrainLeave(tick)) then old(link.train).value else NoDeparture
      ensures out.t == if out.train.id == -1 then NoDestination
                       else if out.train.line in old(outputPlatforms) then old(outputPlatforms)[out.train.line]
                       else 0
      ensures outputPlatforms == if out.train.id != -1 && out.train.line !in old(outputPlatforms)
                                 then old(outputPlatforms)[out.train.line := 0] else old(outputPlatforms)
      ensures (old(link.IsLinkFree()) || old(link.CanTrainLeave(tick))) && old(CanTrainLeave(tick)) ==>
                link.train == old(train) && link.enterTime == tick && train == None
      ensures !((old(link.IsLinkFree()) || old(link.CanTrainLeave(tick))) && old(CanTrainLeave(tick))) ==>
                link.train == (if old(link.CanTrainLeave(tick)) then None else old(link.train)) &&
                link.enterTime == old(link.enterTime) && train == old(train)
      ensures Held() + (if old(link.CanTrainLeave(tick)) then multiset{out.train} else multiset{}) == old(Held())
    {
      var t := NoDeparture;
      if link.CanTrainLeave(tick) {
        t := link.TrainLeave();
      }
      if link.IsLinkFree() && CanTrainLeave(tick) {
        link.TrainEnter(train.value, tick);
        train := None;
      }
      var dest: int;
      if t.id == -1 {
        dest := NoDestination;
      } else {
        if t.line !in outputPlatforms {
          outputPlatforms := outputPlatforms[t.line := 0];
        }
        dest := outputPlatforms[t.line];
      }
      out := Pair(t, dest);
    }

    /** Second step: every arriving train joins the holding queue stamped with tick. */
    method SendIn(trains: seq<Train>, tick: int)
      modifies this`pq
      ensures pq == old(pq) + Stamped(trains, tick)
    {
      var i := 0;
      while i < |trains|
        invariant 0 <= i <= |trains|
        invariant pq == old(pq) + Stamped(trains[..i], tick)
      {
        assert Stamped(trains[..i + 1], tick) == Stamped(trains[..i], tick) + [Pair(trains[i], tick)];
        pq := pq + [Pair(trains[i], tick)];
        i := i + 1;
      }
      assert trains[..i] == trains;
    }

    /** The single-train form of send_in. */
    method SendInTrain(t: Train, tick: int)
      modifies this`pq
      ensures pq == old(pq) + [Pair(t, tick)]
    {
      pq := pq + [Pair(t, tick)];
    }

    /**
     * Third step: a free dwell slot takes the queue's top entry at tick; an
     * occupied slot or an empty queue leaves everything as it was.
     */
    method PushTrainToPlatform(tick: int)
      modifies this`pq, this`train, this`unloadingTime, this`enterTime
      ensures old(pq) != [] && old(train) == None ==>
                var k := Top(old(pq));
                && train == Some(old(pq)[k].train)
                && enterTime == tick && unloadingTime == loadTime(old(pq)[k].train.id)
                && pq == RemoveAt(old(pq), k)
      ensures !(old(pq) != [] && old(train) == None) ==>
                pq == old(pq) && train == old(train)
                && unloadingTime == old(unloadingTime) && enterTime == old(enterTime)
    {
      if pq != [] && IsPlatformFree() {
        var k := Top(pq);
        var p := pq[k];
        pq := RemoveAt(pq, k);
        TrainEnter(p.train, tick);
      }
    }
  }

  /** The entries send_in pushes: each train paired with the same tick. */
  function Stamped(trains: seq<Train>, tick: int): (r: seq<Pair>)
    ensures |r| == |trains|
    ensures forall i | 0 <= i < |r| :: r[i] == Pair(trains[i], tick)
  {
    seq(|trains|, i requires 0 <= i < |trains| => Pair(trains[i], tick))
  }
}

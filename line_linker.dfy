// Wiring of the platforms along one line (link_platforms in simulate.cc):
// each platform on the route gets its per-line successor, and the
// successor records it as a feeder.

module LineLinker {

  import opened Optional
  import opened Structs

  /** A platform's wiring as a value: per-line successor and feeder list. */
  datatype Wiring = Wiring(outputs: map<char, int>, inputs: seq<int>)

  /** A wiring step: src outputs to dst on the line, and dst lists src as a feeder. */
  type Edge = (int, int)

  predicate Distinct(ps: seq<Platform>) {
    forall a, b | 0 <= a < b < |ps| :: ps[a] != ps[b]
  }

  function WiringOf(ps: seq<Platform>): (w: seq<Wiring>)
    reads ps
    ensures |w| == |ps|
    ensures forall k | 0 <= k < |ps| :: w[k] == Wiring(ps[k].outputPlatforms, ps[k].inputPlatforms)
  {
    seq(|ps|, k requires 0 <= k < |ps| reads ps => Wiring(ps[k].outputPlatforms, ps[k].inputPlatforms))
  }

  predicate EdgesWithin(es: seq<Edge>, n: int) {
    forall j | 0 <= j < |es| :: 0 <= es[j].0 < n && 0 <= es[j].1 < n
  }

  /** One wiring step: output_platforms[line] = dst, then input_platforms.push_back(src). */
  function Connect(w: seq<Wiring>, line: char, e: Edge): (w': seq<Wiring>)
    requires 0 <= e.0 < |w| && 0 <= e.1 < |w|
    ensures |w'| == |w|
  {
    var w1 := w[e.0 := w[e.0].(outputs := w[e.0].outputs[line := e.1])];
    w1[e.1 := w1[e.1].(inputs := w1[e.1].inputs + [e.0])]
  }

  /** The wiring after the steps es, in order. */
  function Apply(w: seq<Wiring>, line: char, es: seq<Edge>): (w': seq<Wiring>)
    requires EdgesWithin(es, |w|)
    ensures |w'| == |w|
  {
    if es == [] then w
    else Connect(Apply(w, line, es[..|es| - 1]), line, es[|es| - 1])
  }

  // ---------------------------------------------------------------------
  // The route and the platform ids it uses.

  predicate HasPlatform(platformIds: map<int, map<int, int>>, stationIds: map<string, int>, a: string, b: string) {
    a in stationIds && b in stationIds && stationIds[a] in platformIds && stationIds[b] in platformIds[stationIds[a]]
  }

  /** A line's station route with the lookups that turn a station pair into a platform id. */
  datatype LineRoute = LineRoute(stations: seq<string>, platformIds: map<int, map<int, int>>, stationIds: map<string, int>)
  {
    /** Both directions of every consecutive station pair have a platform. */
    predicate Linked() {
      forall i | 0 <= i < |stations| - 1 ::
        HasPlatform(platformIds, stationIds, stations[i], stations[i + 1]) &&
        HasPlatform(platformIds, stationIds, stations[i + 1], stations[i])
    }

    /** The platform from the a-th to the b-th station of the route (adjacent positions). */
    function Pid(a: nat, b: nat): int
      requires Linked() && a < |stations| && b < |stations| && (a == b + 1 || b == a + 1)
    {
      var i := if a < b then a else b;
      assert HasPlatform(platformIds, stationIds, stations[i], stations[i + 1]);
      platformIds[stationIds[stations[a]]][stationIds[stations[b]]]
    }

    /** Both platforms between stations i and i+1 are indexes of an arena of n platforms. */
    predicate PairWithin(i: nat, n: int)
      requires Linked() && i + 1 < |stations|
    {
      0 <= Pid(i, i + 1) < n && 0 <= Pid(i + 1, i) < n
    }

    /** Every platform of the route is an index of an arena of n platforms. */
    predicate IdsWithin(n: int)
      requires Linked()
    {
      forall i: nat | i + 1 < |stations| :: PairWithin(i, n)
    }
  }

  /** The two wiring steps of loop iteration i, branch by branch as the source has them. */
  function StepEdges(rt: LineRoute, i: nat): seq<Edge>
    requires rt.Linked() && i + 1 < |rt.stations|
  {
    var n := |rt.stations|;
    if i == 0 && i + 1 == n - 1 then
      [(rt.Pid(0, 1), rt.Pid(1, 0)), (rt.Pid(1, 0), rt.Pid(0, 1))]
    else if i == 0 then
      [(rt.Pid(0, 1), rt.Pid(1, 2)), (rt.Pid(1, 0), rt.Pid(0, 1))]
    else if i + 1 == n - 1 then
      [(rt.Pid(i, i + 1), rt.Pid(i + 1, i)), (rt.Pid(i + 1, i), rt.Pid(i, i - 1))]
    else
      [(rt.Pid(i, i + 1), rt.Pid(i + 1, i + 2)), (rt.Pid(i + 1, i), rt.Pid(i, i - 1))]
  }

  /** The steps of the first k iterations. */
  function RouteEdges(rt: LineRoute, k: nat): (es: seq<Edge>)
    requires rt.Linked() && k < |rt.stations|
    ensures |es| == 2 * k
  {
    if k == 0 then [] else RouteEdges(rt, k - 1) + StepEdges(rt, k - 1)
  }

  /** All the steps link_platforms performs for a route of at least one station. */
  function LineEdges(rt: LineRoute): seq<Edge>
    requires rt.Linked() && |rt.stations| >= 1
  {
    RouteEdges(rt, |rt.stations| - 1)
  }

  /**
   * Forward step of iteration i: the platform s_i -> s_i+1 feeds s_i+1 -> s_i+2,
   * or turns back onto s_i+1 -> s_i at the last station.
   */
  function Forward(rt: LineRoute, i: nat): Edge
    requires rt.Linked() && i + 1 < |rt.stations|
  {
    (rt.Pid(i, i + 1), if i + 2 == |rt.stations| then rt.Pid(i + 1, i) else rt.Pid(i + 1, i + 2))
  }

  /**
   * Backward step of iteration i: the platform s_i+1 -> s_i feeds s_i -> s_i-1,
   * or turns back onto s_0 -> s_1 at the first station.
   */
  function Backward(rt: LineRoute, i: nat): Edge
    requires rt.Linked() && i + 1 < |rt.stations|
  {
    (rt.Pid(i + 1, i), if i == 0 then rt.Pid(0, 1) else rt.Pid(i, i - 1))
  }

  /** The four branches of the loop are one rule: forward, then backward. */
  lemma StepIsForwardThenBackward(rt: LineRoute, i: nat)
    requires rt.Linked() && i + 1 < |rt.stations|
    ensures StepEdges(rt, i) == [Forward(rt, i), Backward(rt, i)]
  {
  }

  /** Step 2i is iteration i's forward step and step 2i+1 its backward step. */
  lemma {:induction false} RouteEdgesAt(rt: LineRoute, k: nat, i: nat)
    requires rt.Linked() && k < |rt.stations| && i < k
    ensures RouteEdges(rt, k)[2 * i] == Forward(rt, i)
    ensures RouteEdges(rt, k)[2 * i + 1] == Backward(rt, i)
    decreases k
  {
    StepIsForwardThenBackward(rt, k - 1);
    if i < k - 1 {
      RouteEdgesAt(rt, k - 1, i);
    }
  }

  lemma IterationWithin(rt: LineRoute, i: nat, n: int)
    requires rt.Linked() && i + 1 < |rt.stations| && rt.IdsWithin(n)
    ensures 0 <= Forward(rt, i).0 < n && 0 <= Forward(rt, i).1 < n
    ensures 0 <= Backward(rt, i).0 < n && 0 <= Backward(rt, i).1 < n
  {
    assert rt.PairWithin(i, n);
    if i + 2 < |rt.stations| {
      assert rt.PairWithin(i + 1, n);
    }
    if i > 0 {
      assert rt.PairWithin(i - 1, n);
    }
  }

  lemma RouteEdgesWithin(rt: LineRoute, k: nat, n: int)
    requires rt.Linked() && k < |rt.stations| && rt.IdsWithin(n)
    ensures EdgesWithin(RouteEdges(rt, k), n)
  {
    forall j | 0 <= j < |RouteEdges(rt, k)|
      ensures 0 <= RouteEdges(rt, k)[j].0 < n && 0 <= RouteEdges(rt, k)[j].1 < n
    {
      var i := j / 2;
      RouteEdgesAt(rt, k, i);
      IterationWithin(rt, i, n);
      if j % 2 == 0 {
        assert j == 2 * i;
      } else {
        assert j == 2 * i + 1;
      }
    }
  }

  // ---------------------------------------------------------------------
  // The imperative wiring.

  /** Performs one wiring step on the platform objects. */
  method Wire(ps: seq<Platform>, line: char, src: int, dst: int)
    requires Distinct(ps) && 0 <= src < |ps| && 0 <= dst < |ps|
    modifies ps`outputPlatforms, ps`inputPlatforms
    ensures WiringOf(ps) == Connect(old(WiringOf(ps)), line, (src, dst))
  {
    ps[src].outputPlatforms := ps[src].outputPlatforms[line := dst];
    ps[dst].inputPlatforms := ps[dst].inputPlatforms + [src];
  }

  lemma ApplyTwoMore(w: seq<Wiring>, line: char, es: seq<Edge>, e1: Edge, e2: Edge)
    requires EdgesWithin(es, |w|)
    requires 0 <= e1.0 < |w| && 0 <= e1.1 < |w| && 0 <= e2.0 < |w| && 0 <= e2.1 < |w|
    ensures EdgesWithin(es + [e1, e2], |w|)
    ensures Apply(w, line, es + [e1, e2]) == Connect(Connect(Apply(w, line, es), line, e1), line, e2)
  {
    assert (es + [e1, e2])[..|es| + 1] == es + [e1];
    assert (es + [e1])[..|es|] == es;
    assert [e1, e2][0] == e1 && [e1, e2][1] == e2;
  }

  /** One iteration of link_platforms' loop, with the source's four branches. */
  method LinkStep(line: char, rt: LineRoute, platforms: seq<Platform>, i: nat)
    requires rt.Linked() && i + 1 < |rt.stations| && rt.IdsWithin(|platforms|)
    requires Distinct(platforms)
    modifies platforms`outputPlatforms, platforms`inputPlatforms
    ensures 0 <= Forward(rt, i).0 < |platforms| && 0 <= Forward(rt, i).1 < |platforms|
    ensures 0 <= Backward(rt, i).0 < |platforms| && 0 <= Backward(rt, i).1 < |platforms|
    ensures WiringOf(platforms)
         == Connect(Connect(old(WiringOf(platforms)), line, Forward(rt, i)), line, Backward(rt, i))
  {
    IterationWithin(rt, i, |platforms|);
    var n := |rt.stations|;
    if i == 0 && i + 1 == n - 1 {
      var pa := rt.Pid(0, 1);
      var pb := rt.Pid(1, 0);
      Wire(platforms, line, pa, pb);
      Wire(platforms, line, pb, pa);
    } else if i == 0 {
      var pa := rt.Pid(0, 1);
      var pb := rt.Pid(1, 2);
      Wire(platforms, line, pa, pb);
      var pc := rt.Pid(1, 0);
      Wire(platforms, line, pc, pa);
    } else if i + 1 == n - 1 {
      var pa := rt.Pid(i, i + 1);
      var pb := rt.Pid(i + 1, i);
      Wire(platforms, line, pa, pb);
      var pc := rt.Pid(i, i - 1);
      Wire(platforms, line, pb, pc);
    } else {
      var pa := rt.Pid(i, i + 1);
      var pb := rt.Pid(i + 1, i + 2);
      Wire(platforms, line, pa, pb);
      var pc := rt.Pid(i + 1, i);
      var pd := rt.Pid(i, i - 1);
      Wire(platforms, line, pc, pd);
    }
  }

  /**
   * link_platforms: walks the route's consecutive station pairs and wires the
   * platforms of line `line`. The result is the wiring the steps of
   * LineEdges produce; nothing but output_platforms and input_platforms
   * changes.
   */
  method LinkPlatforms(line: char, stationLine: seq<string>, platformIds: map<int, map<int, int>>,
                       stationIds: map<string, int>, platforms: seq<Platform>)
    requires |stationLine| >= 1
    requires LineRoute(stationLine, platformIds, stationIds).Linked()
    requires LineRoute(stationLine, platformIds, stationIds).IdsWithin(|platforms|)
    requires Distinct(platforms)
    modifies platforms`outputPlatforms, platforms`inputPlatforms
    ensures EdgesWithin(LineEdges(LineRoute(stationLine, platformIds, stationIds)), |platforms|)
    ensures WiringOf(platforms)
         == Apply(old(WiringOf(platforms)), line, LineEdges(LineRoute(stationLine, platformIds, stationIds)))
  {
    var rt := LineRoute(stationLine, platformIds, stationIds);
    ghost var w0 := WiringOf(platforms);
    var n := |stationLine|;
    var i := 0;
    RouteEdgesWithin(rt, n - 1, |platforms|);
    while i < n - 1
      invariant 0 <= i <= n - 1
      invariant |w0| == |platforms| && EdgesWithin(RouteEdges(rt, i), |platforms|)
      invariant WiringOf(platforms) == Apply(w0, line, RouteEdges(rt, i))
    {
      IterationWithin(rt, i, |platforms|);
      RouteEdgesWithin(rt, i + 1, |platforms|);
      ApplyTwoMore(w0, line, RouteEdges(rt, i), Forward(rt, i), Backward(rt, i));
      StepIsForwardThenBackward(rt, i);
      assert RouteEdges(rt, i + 1) == RouteEdges(rt, i) + [Forward(rt, i), Backward(rt, i)];
      LinkStep(line, rt, platforms, i);
      i := i + 1;
    }
  }

  // ---------------------------------------------------------------------
  // What the wiring steps leave behind.

  /** The feeders the steps add to platform k, in the order they are pushed. */
  function Feeders(es: seq<Edge>, k: int): seq<int> {
    if es == [] then []
    else Feeders(es[..|es| - 1], k) + (if es[|es| - 1].1 == k then [es[|es| - 1].0] else [])
  }

  /** The successor the last step out of platform k sets, if any step leaves k. */
  function LastTarget(es: seq<Edge>, k: int): Option<int> {
    if es == [] then None
    else if es[|es| - 1].0 == k then Some(es[|es| - 1].1)
    else LastTarget(es[..|es| - 1], k)
  }

  predicate SourcesDistinct(es: seq<Edge>) {
    forall a, b | 0 <= a < b < |es| :: es[a].0 != es[b].0
  }

  /** Platform k's feeder list grows by exactly the sources of the steps into k, in order. */
  lemma {:induction false} ApplyInputs(w: seq<Wiring>, line: char, es: seq<Edge>, k: int)
    requires EdgesWithin(es, |w|) && 0 <= k < |w|
    ensures Apply(w, line, es)[k].inputs == w[k].inputs + Feeders(es, k)
    decreases |es|
  {
    if es != [] {
      ApplyInputs(w, line, es[..|es| - 1], k);
    }
  }

  /**
   * Platform k's successor map changes only under the key `line`, and only
   * when some step leaves k: then it holds the last such step's target.
   */
  lemma {:induction false} ApplyOutputs(w: seq<Wiring>, line: char, es: seq<Edge>, k: int)
    requires EdgesWithin(es, |w|) && 0 <= k < |w|
    ensures Apply(w, line, es)[k].outputs
         == match LastTarget(es, k)
            case None => w[k].outputs
            case Some(d) => w[k].outputs[line := d]
    decreases |es|
  {
    if es != [] {
      ApplyOutputs(w, line, es[..|es| - 1], k);
    }
  }

  /** The feeder entries of all platforms together. */
  function TotalInputs(w: seq<Wiring>): nat {
    if w == [] then 0 else TotalInputs(w[..|w| - 1]) + |w[|w| - 1].inputs|
  }

  /** Replacing platform k's wiring changes the total by the change in k's feeder count. */
  lemma {:induction false} TotalInputsUpdate(w: seq<Wiring>, k: nat, v: Wiring)
    requires k < |w|
    ensures TotalInputs(w[k := v]) + |w[k].inputs| == TotalInputs(w) + |v.inputs|
    decreases |w|
  {
    var last := |w| - 1;
    assert w[k := v][..last] == if k < last then w[..last][k := v] else w[..last];
    if k < last {
      TotalInputsUpdate(w[..last], k, v);
    }
  }

  /** Over the whole arena, every wiring step adds exactly one feeder entry. */
  lemma {:induction false} InputsAdded(w: seq<Wiring>, line: char, es: seq<Edge>)
    requires EdgesWithin(es, |w|)
    ensures TotalInputs(Apply(w, line, es)) == TotalInputs(w) + |es|
    decreases |es|
  {
    if es != [] {
      var e := es[|es| - 1];
      var w0 := Apply(w, line, es[..|es| - 1]);
      InputsAdded(w, line, es[..|es| - 1]);
      var w1 := w0[e.0 := w0[e.0].(outputs := w0[e.0].outputs[line := e.1])];
      TotalInputsUpdate(w0, e.0, w1[e.0]);
      TotalInputsUpdate(w1, e.1, w1[e.1].(inputs := w1[e.1].inputs + [e.0]));
    }
  }

  /** Wiring a route of n stations adds exactly 2(n-1) feeder entries over the arena. */
  lemma RouteInputsAdded(w: seq<Wiring>, line: char, rt: LineRoute)
    requires rt.Linked() && |rt.stations| >= 1 && EdgesWithin(LineEdges(rt), |w|)
    ensures TotalInputs(Apply(w, line, LineEdges(rt))) == TotalInputs(w) + 2 * (|rt.stations| - 1)
  {
    InputsAdded(w, line, LineEdges(rt));
  }

  /** x is a feeder added to k iff some step goes from x to k. */
  lemma {:induction false} FeedersMembers(es: seq<Edge>, k: int, x: int)
    ensures x in Feeders(es, k) <==> exists j | 0 <= j < |es| :: es[j] == (x, k)
    decreases |es|
  {
    if es != [] {
      var last := |es| - 1;
      FeedersMembers(es[..last], k, x);
      if x in Feeders(es[..last], k) {
        var j :| 0 <= j < last && es[..last][j] == (x, k);
        assert es[j] == (x, k);
      } else if exists j | 0 <= j < |es| :: es[j] == (x, k) {
        var j :| 0 <= j < |es| && es[j] == (x, k);
        if j < last {
          assert es[..last][j] == (x, k);
        }
      }
    }
  }

  /** When no two steps leave the same platform, each step's target is its source's successor. */
  lemma {:induction false} LastTargetOfUniqueSource(es: seq<Edge>, j: nat)
    requires SourcesDistinct(es) && j < |es|
    ensures LastTarget(es, es[j].0) == Some(es[j].1)
    decreases |es|
  {
    var last := |es| - 1;
    if j < last {
      assert es[..last][j] == es[j];
      LastTargetOfUniqueSource(es[..last], j);
    }
  }

  /** A two-station line: each platform turns back onto the other. */
  lemma TwoStationLine(rt: LineRoute)
    requires rt.Linked() && |rt.stations| == 2
    ensures LineEdges(rt) == [(rt.Pid(0, 1), rt.Pid(1, 0)), (rt.Pid(1, 0), rt.Pid(0, 1))]
  {
    StepIsForwardThenBackward(rt, 0);
  }

  /**
   * After link_platforms, when the route's platforms are distinct, the
   * platform s_i -> s_i+1 has successor s_i+1 -> s_i+2 on the line (or turns
   * back at the last station), and s_i+1 -> s_i has successor s_i -> s_i-1
   * (or turns back at the first station); every other line's entry is kept.
   */
  lemma RouteSuccessors(w: seq<Wiring>, line: char, rt: LineRoute, i: nat)
    requires rt.Linked() && i + 1 < |rt.stations|
    requires EdgesWithin(LineEdges(rt), |w|) && SourcesDistinct(LineEdges(rt))
    ensures 0 <= Forward(rt, i).0 < |w| && 0 <= Backward(rt, i).0 < |w|
    ensures Apply(w, line, LineEdges(rt))[Forward(rt, i).0].outputs
         == w[Forward(rt, i).0].outputs[line := Forward(rt, i).1]
    ensures Apply(w, line, LineEdges(rt))[Backward(rt, i).0].outputs
         == w[Backward(rt, i).0].outputs[line := Backward(rt, i).1]
  {
    var es := LineEdges(rt);
    RouteEdgesAt(rt, |rt.stations| - 1, i);
    assert es[2 * i] == Forward(rt, i) && es[2 * i + 1] == Backward(rt, i);
    LastTargetOfUniqueSource(es, 2 * i);
    LastTargetOfUniqueSource(es, 2 * i + 1);
    ApplyOutputs(w, line, es, Forward(rt, i).0);
    ApplyOutputs(w, line, es, Backward(rt, i).0);
  }

  /** Each wiring step shows up as a feeder of its target after link_platforms. */
  lemma RouteFeeders(w: seq<Wiring>, line: char, rt: LineRoute, i: nat)
    requires rt.Linked() && i + 1 < |rt.stations| && EdgesWithin(LineEdges(rt), |w|)
    ensures 0 <= Forward(rt, i).1 < |w| && 0 <= Backward(rt, i).1 < |w|
    ensures Forward(rt, i).0 in Apply(w, line, LineEdges(rt))[Forward(rt, i).1].inputs
    ensures Backward(rt, i).0 in Apply(w, line, LineEdges(rt))[Backward(rt, i).1].inputs
  {
    var es := LineEdges(rt);
    RouteEdgesAt(rt, |rt.stations| - 1, i);
    assert es[2 * i] == Forward(rt, i) && es[2 * i + 1] == Backward(rt, i);
    FeedersMembers(es, Forward(rt, i).1, Forward(rt, i).0);
    FeedersMembers(es, Backward(rt, i).1, Backward(rt, i).0);
    ApplyInputs(w, line, es, Forward(rt, i).1);
    ApplyInputs(w, line, es, Backward(rt, i).1);
  }
}

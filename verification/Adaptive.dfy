/**
 * The adaptive scheduler: an exponential moving average of edge latency steers a CPU threshold,
 * and a single scan picks a node under that threshold.
 */
module AdaptiveScheduling {
  import opened Common
  import opened Scheduling

  const INITIAL_THRESHOLD := 80.0
  const ALPHA := 0.3

  datatype Feedback = Feedback(observations: seq<real>, ema: real, threshold: real)

  const START := Feedback([], 0.0, INITIAL_THRESHOLD)

  function Min(x: real, y: real): real { if x <= y then x else y }

  /** A deque with a maximum length drops from the left. */
  function Push(s: seq<real>, x: real, window: nat): seq<real> {
    var s' := s + [x];
    if |s'| <= window then s' else s'[|s'| - window..]
  }

  function Smooth(ema: real, x: real): real { if ema == 0.0 then x else ALPHA * x + (1.0 - ALPHA) * ema }

  function Adjusted(ema: real, sla: real, threshold: real): real
    requires sla != 0.0
  {
    if ema <= 0.0 then threshold
    else if ema / sla < 0.5 then Min(90.0, threshold + 1.0)
    else if ema / sla > 0.9 then Max(60.0, threshold - 2.0)
    else threshold
  }

  function Observe(f: Feedback, x: real, sla: real, window: nat): Feedback
    requires sla != 0.0
  {
    var ema := Smooth(f.ema, x);
    Feedback(Push(f.observations, x, window), ema, Adjusted(ema, sla, f.threshold))
  }

  function ObserveAll(f: Feedback, xs: seq<real>, sla: real, window: nat): Feedback
    requires sla != 0.0
  {
    if xs == [] then f else Observe(ObserveAll(f, xs[..|xs| - 1], sla, window), xs[|xs| - 1], sla, window)
  }

  predicate Busy(n: Node, threshold: real) { n.cpu > threshold || n.mem > 90.0 }

  /** The node the scan must find: the requester if it has capacity, else a least-loaded node with capacity. */
  ghost predicate BestFor(n: Node, t: Task, ns: seq<Node>, threshold: real) {
    && n in ns && !Busy(n, threshold)
    && ((exists k :: k in ns && !Busy(k, threshold) && k.id == t.requester) ==> n.id == t.requester)
    && (n.id != t.requester ==> forall k :: k in ns && !Busy(k, threshold) ==> n.cpu <= k.cpu)
  }

  /** Every node with capacity before position i is more loaded: ties go to the earliest. */
  ghost predicate FirstLeast(ns: seq<Node>, i: nat, threshold: real)
    requires i < |ns|
  {
    forall j :: 0 <= j < i && !Busy(ns[j], threshold) ==> ns[i].cpu < ns[j].cpu
  }

  /** The average latency is within the SLA, or nothing was observed. */
  predicate LatencyOk(ema: real, sla: real) { ema <= sla || ema == 0.0 }

  /** When the policy gives up on the edge: no node has capacity, or the latency is not within the SLA. */
  ghost predicate ShiftsToCloud(ns: seq<Node>, threshold: real, ema: real, sla: real) {
    (forall n :: n in ns ==> Busy(n, threshold)) || !LatencyOk(ema, sla)
  }

  /** The same as documented: edge only if there are nodes, none is overloaded and the latency is within the SLA. */
  ghost predicate DocumentedShift(ns: seq<Node>, threshold: real, ema: real, sla: real) {
    ns == [] || (exists n :: n in ns && Busy(n, threshold)) || !LatencyOk(ema, sla)
  }

  /** Some nodes are overloaded, some are not. */
  ghost predicate Mixed(ns: seq<Node>, threshold: real) {
    (exists n :: n in ns && Busy(n, threshold)) && (exists n :: n in ns && !Busy(n, threshold))
  }

  /** They differ exactly for a mixed set of nodes with an acceptable latency: then the code stays on the edge. */
  lemma DocumentedShiftDiffers(ns: seq<Node>, threshold: real, ema: real, sla: real)
    ensures ShiftsToCloud(ns, threshold, ema, sla) ==> DocumentedShift(ns, threshold, ema, sla)
    ensures (ShiftsToCloud(ns, threshold, ema, sla) <==> DocumentedShift(ns, threshold, ema, sla)) <==>
      !(LatencyOk(ema, sla) && Mixed(ns, threshold))
  {
    if ns != [] && forall n :: n in ns ==> Busy(n, threshold) { assert ns[0] in ns; }
  }

  /** One overloaded node out of two, nothing observed yet: the documented rule says cloud, the code says edge. */
  lemma OneBusyNode(sla: real)
    ensures var busy, idle := Node(Id("a"), "", 95.0, 10.0, 5.0, 0.0), Node(Id("b"), "", 10.0, 10.0, 5.0, 0.0);
      && DocumentedShift([busy, idle], START.threshold, START.ema, sla)
      && !ShiftsToCloud([busy, idle], START.threshold, START.ema, sla)
  {
    var busy, idle := Node(Id("a"), "", 95.0, 10.0, 5.0, 0.0), Node(Id("b"), "", 10.0, 10.0, 5.0, 0.0);
    assert busy in [busy, idle] && Busy(busy, START.threshold);
    assert idle in [busy, idle] && !Busy(idle, START.threshold);
  }

  /** A single report at the start decides by its load alone: edge up to 80 percent CPU and 90 percent memory. */
  lemma SingleAtStart(n: Node, sla: real)
    ensures ShiftsToCloud([n], START.threshold, START.ema, sla) <==> n.cpu > 80.0 || n.mem > 90.0
  {
    assert n in [n];
  }

  function EdgeScoreFor(ema: real, sla: real): real
    requires sla != 0.0
  {
    Max(0.0, Min(1.0, 1.0 - (if ema > 0.0 then ema / sla else 0.3) * 0.5))
  }

  class AdaptiveScheduler {
    const sla: real
    const window: nat
    const cloudEndpoint: string
    var observations: seq<real>
    var ema: real
    var threshold: real

    ghost function View(): Feedback
      reads this
    {
      Feedback(observations, ema, threshold)
    }

    constructor (sla: real, window: nat, cloudEndpoint: string)
      ensures this.sla == sla && this.window == window && this.cloudEndpoint == cloudEndpoint && View() == START
    {
      this.sla, this.window, this.cloudEndpoint := sla, window, cloudEndpoint;
      observations, ema, threshold := [], 0.0, INITIAL_THRESHOLD;
    }

    method RecordLatency(x: real)
      requires sla != 0.0
      modifies this
      ensures View() == Observe(old(View()), x, sla, window)
    {
      observations := Push(observations, x, window);
      if ema == 0.0 { ema := x; } else { ema := ALPHA * x + (1.0 - ALPHA) * ema; }
      AdjustThresholds();
    }

    method AdjustThresholds()
      requires sla != 0.0
      modifies this`threshold
      ensures threshold == Adjusted(ema, sla, old(threshold))
    {
      if ema <= 0.0 { return; }
      var ratio := ema / sla;
      if ratio < 0.5 {
        threshold := Min(90.0, threshold + 1.0);
      } else if ratio > 0.9 {
        threshold := Max(60.0, threshold - 2.0);
      }
    }

    /** The scan of `evaluate`: stops at the requesting node, else keeps the least loaded so far. */
    method FindNode(t: Task, ns: seq<Node>) returns (best: Option<Node>)
      ensures best.None? <==> forall n :: n in ns ==> Busy(n, threshold)
      ensures best.Some? ==> BestFor(best.value, t, ns, threshold)
      ensures best.Some? && best.value.id != t.requester ==>
        exists i :: 0 <= i < |ns| && ns[i] == best.value && FirstLeast(ns, i, threshold)
    {
      ghost var at := 0;
      best := None;
      for i := 0 to |ns|
        invariant best.None? <==> forall j :: 0 <= j < i ==> Busy(ns[j], threshold)
        invariant best.Some? ==> best.value in ns && !Busy(best.value, threshold) && best.value.id != t.requester
        invariant best.Some? ==> 0 <= at < i && ns[at] == best.value && FirstLeast(ns, at, threshold)
        invariant best.Some? ==> forall j ::
          0 <= j < i && !Busy(ns[j], threshold) ==> best.value.cpu <= ns[j].cpu && ns[j].id != t.requester
      {
        var n := ns[i];
        if !Busy(n, threshold) {
          if n.id == t.requester { return Some(n); }
          if best.None? || n.cpu < best.value.cpu { best, at := Some(n), i; }
        }
      }
    }

    /** Edge exactly when some node has capacity and the average latency is within the SLA (or nothing was observed). */
    method EvaluateAdaptive(t: Task, ns: seq<Node>) returns (p: Placement)
      requires sla != 0.0
      ensures p.target.Cloud? <==> ShiftsToCloud(ns, threshold, ema, sla)
      ensures p.target.Cloud? ==> p == CloudPlacement(t, cloudEndpoint, 50.0, if ns == [] then 0.5 else 0.4)
      ensures !p.target.Cloud? ==> p.score == EdgeScoreFor(ema, sla)
      ensures !p.target.Cloud? ==> exists n ::
        BestFor(n, t, ns, threshold) && PlacedOn(p, t, n)
        && p.estimated == if n.avgLatency != 0.0 then n.avgLatency else ema
      ensures 0.0 <= p.score <= 1.0
    {
      if ns == [] { return CloudPlacement(t, cloudEndpoint, 50.0, 0.5); }
      var latencyOk := LatencyOk(ema, sla);
      var best := FindNode(t, ns);
      if best.Some? && latencyOk {
        var n := best.value;
        var slaRatio := if ema > 0.0 then ema / sla else 0.3;
        var score := Max(0.0, Min(1.0, 1.0 - slaRatio * 0.5));
        p := EdgePlacement(t, n, if n.avgLatency != 0.0 then n.avgLatency else ema, score);
        assert PlacedOn(p, t, n);
        return;
      }
      p := CloudPlacement(t, cloudEndpoint, 50.0, 0.4);
    }
  }

  // ------------------------------------------------------- over every latency sequence

  /** The threshold never leaves [60, 90]. */
  lemma {:induction false} ThresholdRange(xs: seq<real>, sla: real, window: nat)
    requires sla != 0.0
    ensures 60.0 <= ObserveAll(START, xs, sla, window).threshold <= 90.0
  {
    if xs != [] { ThresholdRange(xs[..|xs| - 1], sla, window); }
  }

  /** With positive latencies the average stays between the least and the greatest observation. */
  lemma {:induction false} EmaBetween(xs: seq<real>, sla: real, window: nat, lo: real, hi: real)
    requires sla != 0.0 && xs != [] && 0.0 < lo && forall i :: 0 <= i < |xs| ==> lo <= xs[i] <= hi
    ensures lo <= ObserveAll(START, xs, sla, window).ema <= hi
  {
    if |xs| == 1 {
      assert xs[..0] == [];
    } else {
      EmaBetween(xs[..|xs| - 1], sla, window, lo, hi);
    }
  }

  function Power(x: real, n: nat): real { if n == 0 then 1.0 else x * Power(x, n - 1) }

  /** Under constant latency c > 0 the distance to c shrinks by 0.7 with every observation. */
  lemma {:induction false} EmaConverges(f: Feedback, c: real, n: nat, sla: real, window: nat)
    requires sla != 0.0 && c > 0.0 && f.ema > 0.0
    ensures var ema := ObserveAll(f, seq(n, _ => c), sla, window).ema;
      ema > 0.0 && ema - c == Power(0.7, n) * (f.ema - c)
  {
    if n > 0 {
      assert seq(n, _ => c)[..n - 1] == seq(n - 1, _ => c);
      EmaConverges(f, c, n - 1, sla, window);
      assert Power(0.7, n) * (f.ema - c) == 0.7 * (Power(0.7, n - 1) * (f.ema - c));
    }
  }

  /** The deque holds the last `window` observations. */
  lemma {:induction false} DequeIsSuffix(xs: seq<real>, sla: real, window: nat)
    requires sla != 0.0
    ensures var s := ObserveAll(START, xs, sla, window).observations;
      s == if |xs| <= window then xs else xs[|xs| - window..]
  {
    if xs != [] {
      var init := xs[..|xs| - 1];
      DequeIsSuffix(init, sla, window);
      assert xs == init + [xs[|xs| - 1]];
    }
  }

  /**
   * The loop closes: an average that stays above 0.9 of the SLA drives the threshold to its floor of
   * 60 within ten observations of the start, and one below 0.5 to its ceiling of 90 within ten.
   */
  lemma {:induction false} ThresholdSettles(xs: seq<real>, sla: real, window: nat, lo: real, hi: real)
    requires sla > 0.0 && xs != [] && 0.0 < lo && (forall i :: 0 <= i < |xs| ==> lo <= xs[i] <= hi)
    ensures lo > 0.9 * sla ==> ObserveAll(START, xs, sla, window).threshold == Max(60.0, 80.0 - 2.0 * |xs| as real)
    ensures hi < 0.5 * sla ==> ObserveAll(START, xs, sla, window).threshold == Min(90.0, 80.0 + |xs| as real)
  {
    var init := xs[..|xs| - 1];
    EmaBetween(xs, sla, window, lo, hi);
    var ema := ObserveAll(START, xs, sla, window).ema;
    Ratio(ema, sla);
    if |xs| > 1 {
      ThresholdSettles(init, sla, window, lo, hi);
    } else {
      assert init == [];
    }
  }

  /** How one observation moves the threshold, by the new average and without division. */
  lemma ThresholdStep(f: Feedback, x: real, sla: real, window: nat)
    requires sla > 0.0
    ensures var f' := Observe(f, x, sla, window);
      && (0.0 < f'.ema < 0.5 * sla ==> f'.threshold == Min(90.0, f.threshold + 1.0))
      && (f'.ema > 0.9 * sla ==> f'.threshold == Max(60.0, f.threshold - 2.0))
      && (f'.ema <= 0.0 || 0.5 * sla <= f'.ema <= 0.9 * sla ==> f'.threshold == f.threshold)
  {
    Ratio(Observe(f, x, sla, window).ema, sla);
  }

  /** The edge score falls from 1 by half the share of the SLA in use, and is 0.85 before anything was observed. */
  lemma EdgeScoreMeaning(ema: real, sla: real)
    requires sla > 0.0
    ensures ema <= 0.0 ==> EdgeScoreFor(ema, sla) == 0.85
    ensures 0.0 < ema <= 2.0 * sla ==> (1.0 - EdgeScoreFor(ema, sla)) * (2.0 * sla) == ema
    ensures ema > 2.0 * sla ==> EdgeScoreFor(ema, sla) == 0.0
  {
    var q := ema / sla;
    assert q * sla == ema;
    assert ema > 0.0 ==> q > 0.0;
    assert q <= 2.0 <==> q * sla <= 2.0 * sla;
    assert (q * 0.5) * (2.0 * sla) == q * sla;
  }

  lemma Ratio(x: real, sla: real)
    requires sla > 0.0
    ensures x / sla < 0.5 <==> x < 0.5 * sla
    ensures x / sla > 0.9 <==> x > 0.9 * sla
  {
    var q := x / sla;
    assert q * sla == x;
    assert q < 0.5 <==> q * sla < 0.5 * sla;
    assert q > 0.9 <==> q * sla > 0.9 * sla;
  }
}

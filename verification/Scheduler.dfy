/**
 * Edge/cloud placement: the three deployed policies, the engine that keeps the highest score,
 * and the decision their numbers add up to. Floats are reals; `round(x, 4)` rounds half to even.
 */
module Scheduling {
  import opened Common

  datatype Id = Id(name: string)

  datatype Node = Node(id: Id, address: string, cpu: real, mem: real, avgLatency: real, reportedAt: real)

  datatype Task = Task(taskId: string, inputBytes: int, maxLatency: real, requester: Id)

  datatype Target = EdgeLocal | EdgeRemote | Cloud

  datatype Placement = Placement(taskId: string, target: Target, nodeId: Id, endpoint: string,
                                   estimated: real, score: real)

  const NOWHERE := Id("")
  const CPU_OVERLOAD := 85.0
  const MEMORY_OVERLOAD := 90.0
  const SMALL_MODEL := 10 * 1024 * 1024
  const CLOUD_COST_FACTOR := 0.15
  const LATENCY_WEIGHT := 0.6
  const COST_WEIGHT := 0.4
  const CLOUD_LATENCY := 50.0

  predicate Overloaded(n: Node) { n.cpu > CPU_OVERLOAD || n.mem > MEMORY_OVERLOAD }

  predicate Small(t: Task) { t.inputBytes < SMALL_MODEL }

  function RoundHalfEven(x: real): int {
    var f := x.Floor;
    var d := x - f as real;
    if d < 0.5 || (d == 0.5 && f % 2 == 0) then f else f + 1
  }

  function Round4(x: real): real { RoundHalfEven(x * 10000.0) as real / 10000.0 }

  function Max(x: real, y: real): real { if x >= y then x else y }

  // --------------------------------------------------- choosing among healthy nodes

  function Healthy(ns: seq<Node>): seq<Node> {
    if ns == [] then []
    else
      var init, last := Healthy(ns[..|ns| - 1]), ns[|ns| - 1];
      if Overloaded(last) then init else init + [last]
  }

  /** Stable insertion: x came before everything in s. */
  function InsertByCpu(x: Node, s: seq<Node>): seq<Node> {
    if s == [] || x.cpu <= s[0].cpu then [x] + s else [s[0]] + InsertByCpu(x, s[1..])
  }

  function SortByCpu(s: seq<Node>): seq<Node> {
    if s == [] then [] else InsertByCpu(s[0], SortByCpu(s[1..]))
  }

  function Find(s: seq<Node>, id: Id): Option<Node> {
    if s == [] then None else if s[0].id == id then Some(s[0]) else Find(s[1..], id)
  }

  function Pick(healthy: seq<Node>, requester: Id): Node
    requires healthy != []
  {
    SortLength(healthy);
    match Find(healthy, requester)
    case Some(n) => n
    case None => SortByCpu(healthy)[0]
  }

  lemma {:induction false} InsertLength(x: Node, s: seq<Node>)
    ensures |InsertByCpu(x, s)| == |s| + 1
  {
    if s != [] { InsertLength(x, s[1..]); }
  }

  lemma {:induction false} SortLength(s: seq<Node>)
    ensures |SortByCpu(s)| == |s|
  {
    if s != [] {
      SortLength(s[1..]);
      InsertLength(s[0], SortByCpu(s[1..]));
    }
  }

  // ------------------------------------------------------------------- policies

  function EdgePlacement(t: Task, n: Node, estimated: real, score: real): Placement {
    Placement(t.taskId, if n.id == t.requester then EdgeLocal else EdgeRemote, n.id, n.address, estimated, score)
  }

  function CloudPlacement(t: Task, endpoint: string, estimated: real, score: real): Placement {
    Placement(t.taskId, Cloud, NOWHERE, endpoint, estimated, score)
  }

  function LatencyOr(n: Node, fallback: real): real { if n.avgLatency > 0.0 then n.avgLatency else fallback }

  function LatencyFirst(t: Task, ns: seq<Node>): Placement {
    var healthy := Healthy(ns);
    if ns == [] then CloudPlacement(t, "", 50.0, 0.3)
    else if healthy == [] then CloudPlacement(t, "", 50.0, 0.35)
    else
      var best := Pick(healthy, t.requester);
      EdgePlacement(t, best, LatencyOr(best, 10.0), if best.id == t.requester then 0.9 else 0.8)
  }

  function CostAware(t: Task, ns: seq<Node>, cloudEndpoint: string): Placement {
    var healthy := Healthy(ns);
    if Small(t) && healthy != [] then
      var best := Pick(healthy, t.requester);
      EdgePlacement(t, best, LatencyOr(best, 15.0), if best.id == t.requester then 0.85 else 0.75)
    else
      CloudPlacement(t, cloudEndpoint, 40.0, Max(0.1, if ns == [] then 0.6 else 0.7 - CLOUD_COST_FACTOR))
  }

  function LatencyScore(latency: real, maxLatency: real): real
    requires latency > 0.0
  {
    if latency >= maxLatency then 0.0 else Max(0.0, 1.0 - latency / maxLatency)
  }

  function EdgeCost(t: Task): real { if Small(t) then 0.9 else 0.5 }

  function CloudCost(t: Task): real { if Small(t) then 0.3 else 0.7 }

  function EdgeScore(t: Task, n: Node): real {
    LATENCY_WEIGHT * LatencyScore(LatencyOr(n, 10.0), t.maxLatency) + COST_WEIGHT * EdgeCost(t)
  }

  function CloudScore(t: Task): real {
    LATENCY_WEIGHT * LatencyScore(CLOUD_LATENCY, t.maxLatency) + COST_WEIGHT * CloudCost(t)
  }

  /** First node with the highest edge score among those not overloaded. */
  function BestEdge(t: Task, ns: seq<Node>): Option<Node> {
    if ns == [] then None
    else
      var best, last := BestEdge(t, ns[..|ns| - 1]), ns[|ns| - 1];
      if Overloaded(last) then best
      else if best.None? || EdgeScore(t, last) > EdgeScore(t, best.value) then Some(last)
      else best
  }

  function Balanced(t: Task, ns: seq<Node>): Placement {
    var best := BestEdge(t, ns);
    if best.Some? && EdgeScore(t, best.value) >= CloudScore(t)
    then EdgePlacement(t, best.value, LatencyOr(best.value, 10.0), Round4(EdgeScore(t, best.value)))
    else CloudPlacement(t, "", 50.0, Round4(CloudScore(t)))
  }

  datatype Policy = LatencyFirstPolicy | CostAwarePolicy(endpoint: string) | BalancedPolicy

  function Evaluate(p: Policy, t: Task, ns: seq<Node>): Placement {
    match p
    case LatencyFirstPolicy => LatencyFirst(t, ns)
    case CostAwarePolicy(endpoint) => CostAware(t, ns, endpoint)
    case BalancedPolicy => Balanced(t, ns)
  }

  /** Best so far over the policy list: a later policy must score strictly higher. */
  function Choose(ps: seq<Policy>, t: Task, ns: seq<Node>): Option<Placement> {
    if ps == [] then None
    else
      var best, p := Choose(ps[..|ps| - 1], t, ns), Evaluate(ps[|ps| - 1], t, ns);
      if p.score > (if best.None? then -1.0 else best.value.score) then Some(p) else best
  }

  function Decide(ps: seq<Policy>, t: Task, ns: seq<Node>): Placement {
    match Choose(ps, t, ns)
    case Some(p) => p
    case None => CloudPlacement(t, "", 0.0, 0.0)
  }

  function Deployed(endpoint: string): seq<Policy> { [LatencyFirstPolicy, CostAwarePolicy(endpoint), BalancedPolicy] }

  // --------------------------------------------------------- the imperative parts

  /** `sort(key=cpu)` followed by `[0]`, or the requesting node when it is in the list. */
  method PickNode(healthy: seq<Node>, requester: Id) returns (best: Node)
    requires healthy != []
    ensures best == Pick(healthy, requester)
  {
    SortLength(healthy);
    var i := 0;
    while i < |healthy|
      invariant 0 <= i <= |healthy| && Find(healthy[i..], requester) == Find(healthy, requester)
    {
      if healthy[i].id == requester { return healthy[i]; }
      i := i + 1;
    }
    var sorted := SortInPlace(healthy);
    best := sorted[0];
  }

  method SortInPlace(s: seq<Node>) returns (sorted: seq<Node>)
    ensures sorted == SortByCpu(s)
  {
    sorted := [];
    var i := |s|;
    while i > 0
      invariant 0 <= i <= |s| && sorted == SortByCpu(s[i..])
    {
      i := i - 1;
      sorted := InsertByCpu(s[i], sorted);
    }
  }

  method HealthyNodes(ns: seq<Node>) returns (healthy: seq<Node>)
    ensures healthy == Healthy(ns)
  {
    healthy := [];
    for i := 0 to |ns|
      invariant healthy == Healthy(ns[..i])
    {
      assert ns[..i + 1][..i] == ns[..i];
      if !Overloaded(ns[i]) { healthy := healthy + [ns[i]]; }
    }
    assert ns[..|ns|] == ns;
  }

  method EvaluateLatencyFirst(t: Task, ns: seq<Node>) returns (p: Placement)
    ensures p == LatencyFirst(t, ns)
  {
    if ns == [] { return CloudPlacement(t, "", 50.0, 0.3); }
    var healthy := HealthyNodes(ns);
    if healthy == [] { return CloudPlacement(t, "", 50.0, 0.35); }
    var best := PickNode(healthy, t.requester);
    p := EdgePlacement(t, best, LatencyOr(best, 10.0), if best.id == t.requester then 0.9 else 0.8);
  }

  method EvaluateCostAware(t: Task, ns: seq<Node>, endpoint: string) returns (p: Placement)
    ensures p == CostAware(t, ns, endpoint)
  {
    var healthy := HealthyNodes(ns);
    if Small(t) && healthy != [] {
      var best := PickNode(healthy, t.requester);
      return EdgePlacement(t, best, LatencyOr(best, 15.0), if best.id == t.requester then 0.85 else 0.75);
    }
    var cloudScore := 0.7 - CLOUD_COST_FACTOR;
    if ns == [] { cloudScore := 0.6; }
    p := CloudPlacement(t, endpoint, 40.0, Max(0.1, cloudScore));
  }

  method EvaluateBalanced(t: Task, ns: seq<Node>) returns (p: Placement)
    ensures p == Balanced(t, ns)
  {
    var bestScore := -1.0;
    var best: Option<Node> := None;
    for i := 0 to |ns|
      invariant best == BestEdge(t, ns[..i])
      invariant bestScore == if best.None? then -1.0 else EdgeScore(t, best.value)
    {
      assert ns[..i + 1][..i] == ns[..i];
      var n := ns[i];
      if !Overloaded(n) {
        EdgeScoreRange(t, n);
        var combined := EdgeScore(t, n);
        if combined > bestScore { bestScore, best := combined, Some(n); }
      }
    }
    assert ns[..|ns|] == ns;
    var cloud := CloudScore(t);
    if best.Some? && bestScore >= cloud {
      return EdgePlacement(t, best.value, LatencyOr(best.value, 10.0), Round4(bestScore));
    }
    p := CloudPlacement(t, "", 50.0, Round4(cloud));
  }

  /** Latest report per node, in order of first report. */
  class ResourceMonitor {
    const staleThreshold: real
    var nodes: seq<Node>

    ghost predicate Valid()
      reads this
    {
      DistinctIds(nodes)
    }

    constructor (staleThreshold: real)
      ensures Valid() && this.staleThreshold == staleThreshold && nodes == []
    {
      this.staleThreshold, nodes := staleThreshold, [];
    }

    /** A report is stamped with the current time and replaces the previous one of its node in place, or comes last. */
    method Update(report: Node, now: real)
      requires Valid()
      modifies this
      ensures Valid() && report.(reportedAt := now) in nodes
      ensures forall n :: n in nodes && n.id != report.id <==> n in old(nodes) && n.id != report.id
      ensures forall i :: 0 <= i < |old(nodes)| && old(nodes)[i].id == report.id ==>
        nodes == old(nodes)[i := report.(reportedAt := now)]
      ensures (forall n :: n in old(nodes) ==> n.id != report.id) ==> nodes == old(nodes) + [report.(reportedAt := now)]
    {
      var stamped := report.(reportedAt := now);
      var i := 0;
      while i < |nodes| && nodes[i].id != report.id
        invariant 0 <= i <= |nodes| && forall j :: 0 <= j < i ==> nodes[j].id != report.id
      {
        i := i + 1;
      }
      ghost var before := nodes;
      if i < |nodes| {
        nodes := nodes[i := stamped];
        assert nodes[i] == stamped;
      } else {
        nodes := nodes + [stamped];
        assert nodes[|before|] == stamped;
      }
      forall n: Node | n.id != report.id ensures n in nodes <==> n in before {
        if n in before {
          var j :| 0 <= j < |before| && before[j] == n;
          assert nodes[j] == n;
        }
      }
    }

    method GetResourceMap(now: real) returns (active: seq<Node>)
      ensures active == Current(nodes, now, staleThreshold)
    {
      active := [];
      for i := 0 to |nodes|
        invariant active == Current(nodes[..i], now, staleThreshold)
      {
        assert nodes[..i + 1][..i] == nodes[..i];
        if now - nodes[i].reportedAt <= staleThreshold { active := active + [nodes[i]]; }
      }
      assert nodes[..|nodes|] == nodes;
    }
  }

  predicate DistinctIds(ns: seq<Node>) { forall i, j :: 0 <= i < j < |ns| ==> ns[i].id != ns[j].id }

  /** The reports that are not stale. */
  function Current(ns: seq<Node>, now: real, threshold: real): seq<Node> {
    if ns == [] then []
    else
      var init, last := Current(ns[..|ns| - 1], now, threshold), ns[|ns| - 1];
      if now - last.reportedAt <= threshold then init + [last] else init
  }

  class SchedulerEngine {
    const monitor: ResourceMonitor
    const policies: seq<Policy>
    var queue: seq<Task>
    var results: map<string, Placement>

    constructor (monitor: ResourceMonitor, policies: seq<Policy>)
      ensures this.monitor == monitor && this.policies == policies && queue == [] && results == map[]
    {
      this.monitor, this.policies, queue, results := monitor, policies, [], map[];
    }

    method SubmitTask(t: Task, now: real) returns (p: Placement)
      modifies this`results
      ensures p == Decide(policies, t, Current(monitor.nodes, now, monitor.staleThreshold))
      ensures results == old(results)[t.taskId := p]
    {
      var resources := monitor.GetResourceMap(now);
      var best: Option<Placement> := None;
      var bestScore := -1.0;
      for i := 0 to |policies|
        invariant results == old(results) && best == Choose(policies[..i], t, resources)
        invariant bestScore == if best.None? then -1.0 else best.value.score
      {
        assert policies[..i + 1][..i] == policies[..i];
        var q;
        match policies[i] {
          case LatencyFirstPolicy => q := EvaluateLatencyFirst(t, resources);
          case CostAwarePolicy(endpoint) => q := EvaluateCostAware(t, resources, endpoint);
          case BalancedPolicy => q := EvaluateBalanced(t, resources);
        }
        if q.score > bestScore { bestScore, best := q.score, Some(q); }
      }
      assert policies[..|policies|] == policies;
      p := if best.Some? then best.value else CloudPlacement(t, "", 0.0, 0.0);
      results := results[t.taskId := p];
    }

    method EnqueueTask(t: Task)
      modifies this`queue
      ensures queue == old(queue) + [t]
    {
      queue := queue + [t];
    }

    /** Places every queued task, first in first out; the i-th task is placed when the clock reads clock[i]. */
    method DrainQueue(clock: seq<real>) returns (processed: nat)
      requires |clock| >= |queue|
      modifies this
      ensures queue == [] && processed == |old(queue)|
      ensures results == Placed(policies, old(queue), monitor.nodes, monitor.staleThreshold, clock, old(results))
    {
      processed := 0;
      while queue != []
        invariant 0 <= processed <= |old(queue)| && queue == old(queue)[processed..]
        invariant results
          == Placed(policies, old(queue)[..processed], monitor.nodes, monitor.staleThreshold, clock, old(results))
        decreases |queue|
      {
        var t := queue[0];
        queue := queue[1..];
        assert old(queue)[..processed + 1][..processed] == old(queue)[..processed];
        var p := SubmitTask(t, clock[processed]);
        processed := processed + 1;
      }
      assert old(queue)[..processed] == old(queue);
    }
  }

  /** The results after placing the tasks in order, each on the reports that are fresh at its own time. */
  function Placed(ps: seq<Policy>, ts: seq<Task>, ns: seq<Node>, threshold: real, clock: seq<real>,
                  r: map<string, Placement>): map<string, Placement>
    requires |ts| <= |clock|
  {
    if ts == [] then r
    else
      var n := |ts| - 1;
      Placed(ps, ts[..n], ns, threshold, clock, r)[ts[n].taskId := Decide(ps, ts[n], Current(ns, clock[n], threshold))]
  }

  ghost predicate Queued(ts: seq<Task>, from: nat, id: string) { exists j :: from <= j < |ts| && ts[j].taskId == id }

  lemma QueuedPrefix(ts: seq<Task>, from: nat, id: string)
    requires from < |ts|
    ensures Queued(ts, from, id) <==> Queued(ts[..|ts| - 1], from, id) || ts[|ts| - 1].taskId == id
  {
    var n := |ts| - 1;
    if Queued(ts[..n], from, id) {
      var j :| from <= j < n && ts[..n][j].taskId == id;
      assert ts[j].taskId == id;
    }
    if j :| from <= j < n && ts[j].taskId == id { assert ts[..n][j].taskId == id; }
  }

  lemma {:induction false} OthersKept(ps: seq<Policy>, ts: seq<Task>, ns: seq<Node>, threshold: real, clock: seq<real>,
                                      r: map<string, Placement>, id: string)
    requires |ts| <= |clock| && !Queued(ts, 0, id)
    ensures var r' := Placed(ps, ts, ns, threshold, clock, r);
      (id in r' <==> id in r) && (id in r ==> r'[id] == r[id])
  {
    if ts != [] {
      QueuedPrefix(ts, 0, id);
      OthersKept(ps, ts[..|ts| - 1], ns, threshold, clock, r, id);
    }
  }

  /** Only tasks of the queue get a result, and the one a task is left with is that of its last occurrence. */
  lemma {:induction false} LastPlacement(ps: seq<Policy>, ts: seq<Task>, ns: seq<Node>, threshold: real,
                                         clock: seq<real>, r: map<string, Placement>, id: string, i: nat)
    requires |ts| <= |clock|
    ensures !Queued(ts, 0, id) ==>
      var r' := Placed(ps, ts, ns, threshold, clock, r);
      (id in r' <==> id in r) && (id in r ==> r'[id] == r[id])
    ensures i < |ts| && ts[i].taskId == id && !Queued(ts, i + 1, id) ==>
      var r' := Placed(ps, ts, ns, threshold, clock, r);
      id in r' && r'[id] == Decide(ps, ts[i], Current(ns, clock[i], threshold))
  {
    if !Queued(ts, 0, id) { OthersKept(ps, ts, ns, threshold, clock, r, id); }
    if i + 1 < |ts| {
      QueuedPrefix(ts, i + 1, id);
      LastPlacement(ps, ts[..|ts| - 1], ns, threshold, clock, r, id, i);
    }
  }

  // ------------------------------------------------------------- score arithmetic

  lemma LatencyScoreValue(latency: real, m: real)
    requires latency > 0.0
    ensures 0.0 <= LatencyScore(latency, m) < 1.0
    ensures m > latency ==> LatencyScore(latency, m) == 1.0 - latency / m
    ensures m > latency ==> LatencyScore(latency, m) * m == m - latency
  {
    if m > latency {
      var q := latency / m;
      assert q * m == latency;
      assert q >= 1.0 ==> q * m >= m;
      assert q <= 0.0 ==> q * m <= 0.0;
      assert (1.0 - q) * m == m - latency;
    }
  }

  lemma EdgeScoreRange(t: Task, n: Node)
    ensures 0.2 <= EdgeScore(t, n) < 0.96
    ensures !Small(t) ==> EdgeScore(t, n) < 0.8
  {
    LatencyScoreValue(LatencyOr(n, 10.0), t.maxLatency);
  }

  lemma RoundedAbove(y: real, n: int)
    ensures RoundHalfEven(y) > n <==> y > n as real + 0.5 || (y == n as real + 0.5 && n % 2 != 0)
  {
    var f := y.Floor;
    assert f as real <= y < f as real + 1.0;
    if f < n {
      assert f + 1 <= n && (f + 1) as real <= n as real;
    } else if f > n {
      assert f >= n + 1 && f as real >= (n + 1) as real;
    }
  }

  lemma RoundBounds(x: real, n: int)
    ensures Round4(x) > n as real / 10000.0 <==>
      x * 10000.0 > n as real + 0.5 || (x * 10000.0 == n as real + 0.5 && n % 2 != 0)
  {
    var y := x * 10000.0;
    RoundedAbove(y, n);
    assert RoundHalfEven(y) > n <==> RoundHalfEven(y) as real > n as real;
  }

  /** Rounding keeps order and moves a score by at most 0.00005. */
  lemma RoundFaithful(x: real, y: real)
    ensures x <= y ==> Round4(x) <= Round4(y)
    ensures -0.00005 <= Round4(x) - x <= 0.00005
  {
    var u, v := x * 10000.0, y * 10000.0;
    NearestInteger(u);
    if x <= y {
      var n := RoundHalfEven(v);
      RoundedAbove(v, n);
      RoundedAbove(u, n);
      assert RoundHalfEven(u) as real <= n as real;
    }
  }

  lemma NearestInteger(u: real)
    ensures -0.5 <= RoundHalfEven(u) as real - u <= 0.5
  {
    assert u.Floor as real <= u < u.Floor as real + 1.0;
    assert (u.Floor + 1) as real == u.Floor as real + 1.0;
  }

  lemma Scaled(s: real, m: real, l: real, bar: real)
    requires m > 0.0 && s * m == m - l
    ensures 6000.0 * s > bar <==> 6000.0 * (m - l) > bar * m
  {
    var d := 6000.0 * s - bar;
    assert d > 0.0 <==> d * m > 0.0;
    assert d * m == 6000.0 * (s * m) - bar * m;
  }

  /** For a large model the rounded cloud score beats 0.8 exactly above 600000/1599 ms. */
  lemma CloudBeatsRemote(t: Task)
    requires !Small(t)
    ensures Round4(CloudScore(t)) > 0.8 <==> 1599.0 * t.maxLatency > 600000.0
  {
    var m := t.maxLatency;
    LatencyScoreValue(CLOUD_LATENCY, m);
    RoundBounds(CloudScore(t), 8000);
    if m > 50.0 {
      Scaled(LatencyScore(CLOUD_LATENCY, m), m, 50.0, 5200.5);
    }
  }

  /** Then no edge score reaches the cloud score either. */
  lemma CloudBeatsEveryEdge(t: Task, n: Node)
    requires !Small(t) && Round4(CloudScore(t)) > 0.8
    ensures EdgeScore(t, n) < CloudScore(t)
  {
    EdgeScoreRange(t, n);
    RoundBounds(CloudScore(t), 8000);
  }

  lemma CloudScoreRange(t: Task)
    ensures CloudScore(t) < 0.88 && (Small(t) ==> CloudScore(t) < 0.72)
    ensures Round4(CloudScore(t)) <= 0.88 && (Small(t) ==> Round4(CloudScore(t)) <= 0.72)
    ensures Round4(CloudScore(t)) >= 0.0
  {
    LatencyScoreValue(CLOUD_LATENCY, t.maxLatency);
    RoundBounds(CloudScore(t), 8800);
    RoundBounds(CloudScore(t), 7200);
  }

  // ----------------------------------------------------------- what is picked

  ghost predicate SomeHealthy(ns: seq<Node>) { exists n :: n in ns && !Overloaded(n) }

  ghost predicate RequesterHealthy(t: Task, ns: seq<Node>) {
    exists n :: n in ns && !Overloaded(n) && n.id == t.requester
  }

  lemma {:induction false} HealthyMembers(ns: seq<Node>)
    ensures forall n :: n in Healthy(ns) <==> n in ns && !Overloaded(n)
    ensures Healthy(ns) != [] <==> SomeHealthy(ns)
  {
    if ns != [] {
      HealthyMembers(ns[..|ns| - 1]);
      assert ns == ns[..|ns| - 1] + [ns[|ns| - 1]];
    }
    if Healthy(ns) != [] { assert Healthy(ns)[0] in Healthy(ns); }
  }

  lemma {:induction false} CurrentMembers(ns: seq<Node>, now: real, threshold: real)
    ensures forall n :: n in Current(ns, now, threshold) <==> n in ns && now - n.reportedAt <= threshold
  {
    if ns != [] {
      CurrentMembers(ns[..|ns| - 1], now, threshold);
      assert ns == ns[..|ns| - 1] + [ns[|ns| - 1]];
    }
  }

  lemma {:induction false} FindMember(s: seq<Node>, id: Id)
    ensures Find(s, id).Some? ==> Find(s, id).value in s && Find(s, id).value.id == id
    ensures Find(s, id).None? ==> forall n :: n in s ==> n.id != id
  {
    if s != [] && s[0].id != id { FindMember(s[1..], id); }
  }

  lemma InsertHead(x: Node, s: seq<Node>)
    ensures InsertByCpu(x, s) != []
    ensures InsertByCpu(x, s)[0] == if s == [] || x.cpu <= s[0].cpu then x else s[0]
  {
  }

  /** The head of the sorted list is a least-loaded node. */
  lemma {:induction false} SortHead(s: seq<Node>)
    requires s != []
    ensures |SortByCpu(s)| == |s|
    ensures SortByCpu(s)[0] in s && forall n :: n in s ==> SortByCpu(s)[0].cpu <= n.cpu
  {
    SortLength(s);
    InsertHead(s[0], SortByCpu(s[1..]));
    if |s| > 1 { SortHead(s[1..]); }
  }

  /** Ties go to the earliest: the sort is stable. */
  lemma {:induction false} SortHeadFirst(s: seq<Node>) returns (i: nat)
    requires s != []
    ensures i < |s| && |SortByCpu(s)| == |s| && SortByCpu(s)[0] == s[i]
    ensures forall j :: 0 <= j < i ==> s[j].cpu > s[i].cpu
  {
    SortHead(s);
    InsertHead(s[0], SortByCpu(s[1..]));
    i := 0;
    if |s| > 1 {
      var k := SortHeadFirst(s[1..]);
      if s[0].cpu > s[1..][k].cpu { i := k + 1; }
    }
  }

  /** So it is with the node the balanced scan keeps. */
  lemma {:induction false} BestEdgeFirst(t: Task, ns: seq<Node>) returns (i: nat)
    requires BestEdge(t, ns).Some?
    ensures i < |ns| && BestEdge(t, ns).value == ns[i]
    ensures forall j :: 0 <= j < i && !Overloaded(ns[j]) ==> EdgeScore(t, ns[j]) < EdgeScore(t, ns[i])
  {
    var n := |ns| - 1;
    i := n;
    BestEdgeSpec(t, ns[..n]);
    if BestEdge(t, ns[..n]).Some? {
      var k := BestEdgeFirst(t, ns[..n]);
      assert forall j :: 0 <= j < n ==> ns[..n][j] == ns[j] && ns[j] in ns[..n];
      if Overloaded(ns[n]) || EdgeScore(t, ns[n]) <= EdgeScore(t, ns[k]) { i := k; }
    } else {
      assert forall j :: 0 <= j < n ==> ns[j] in ns[..n];
    }
  }

  /** The requesting node when it is healthy, else a healthy node with the lowest CPU use. */
  lemma PickSpec(t: Task, ns: seq<Node>)
    requires SomeHealthy(ns)
    ensures Healthy(ns) != []
    ensures var n := Pick(Healthy(ns), t.requester);
      && n in ns && !Overloaded(n)
      && (n.id == t.requester <==> RequesterHealthy(t, ns))
      && (!RequesterHealthy(t, ns) ==> forall k :: k in ns && !Overloaded(k) ==> n.cpu <= k.cpu)
  {
    HealthyMembers(ns);
    var h := Healthy(ns);
    FindMember(h, t.requester);
    SortHead(h);
  }

  lemma {:induction false} BestEdgeSpec(t: Task, ns: seq<Node>)
    ensures BestEdge(t, ns).Some? <==> SomeHealthy(ns)
    ensures BestEdge(t, ns).Some? ==> BestEdge(t, ns).value in ns && !Overloaded(BestEdge(t, ns).value)
    ensures BestEdge(t, ns).Some? ==>
      forall n :: n in ns && !Overloaded(n) ==> EdgeScore(t, n) <= EdgeScore(t, BestEdge(t, ns).value)
  {
    if ns != [] {
      BestEdgeSpec(t, ns[..|ns| - 1]);
      assert ns == ns[..|ns| - 1] + [ns[|ns| - 1]];
    }
  }

  // -------------------------------------------------------- the engine's decision

  lemma DeployedChoice(endpoint: string, t: Task, ns: seq<Node>)
    ensures var a, b, c := LatencyFirst(t, ns), CostAware(t, ns, endpoint), Balanced(t, ns);
      var ab := if b.score > a.score then b else a;
      Decide(Deployed(endpoint), t, ns) == if c.score > ab.score then c else ab
  {
    var ps := Deployed(endpoint);
    assert ps[..2][..1] == ps[..1] && ps[..1][..0] == [];
    assert Choose(ps[..1], t, ns) == Some(LatencyFirst(t, ns));
    assert Choose(ps[..2], t, ns).Some?;
  }

  lemma BalancedToCloud(t: Task, ns: seq<Node>)
    ensures Balanced(t, ns).target.Cloud? ==> Balanced(t, ns).score == Round4(CloudScore(t))
    ensures !SomeHealthy(ns) ==> Balanced(t, ns).target.Cloud?
    ensures !Small(t) && 1599.0 * t.maxLatency > 600000.0 ==> Balanced(t, ns).target.Cloud?
  {
    BestEdgeSpec(t, ns);
    if !Small(t) && 1599.0 * t.maxLatency > 600000.0 {
      CloudBeatsRemote(t);
      if BestEdge(t, ns).Some? { CloudBeatsEveryEdge(t, BestEdge(t, ns).value); }
    }
  }

  /**
   * The cross-policy theorem. With the deployed policies a task goes to the cloud exactly when no
   * healthy node is known, or when the requesting node is not healthy, the input is at least 10 MiB
   * and the latency budget exceeds 600000/1599 ms (about 375.23 ms).
   */
  lemma CloudExactly(endpoint: string, t: Task, ns: seq<Node>)
    ensures Decide(Deployed(endpoint), t, ns).target.Cloud? <==>
      || !SomeHealthy(ns)
      || (!RequesterHealthy(t, ns) && !Small(t) && 1599.0 * t.maxLatency > 600000.0)
  {
    DeployedChoice(endpoint, t, ns);
    BalancedToCloud(t, ns);
    CloudScoreRange(t);
    if SomeHealthy(ns) {
      PickSpec(t, ns);
      assert ns != [];
      if !Small(t) { CloudBeatsRemote(t); }
    } else {
      HealthyMembers(ns);
    }
  }

  ghost predicate PlacedOn(p: Placement, t: Task, n: Node) {
    && p.nodeId == n.id && p.endpoint == n.address && p.taskId == t.taskId
    && (p.target.EdgeLocal? <==> n.id == t.requester)
  }

  /** An edge placement always names a known node that is not overloaded. */
  lemma EdgeIsHealthy(endpoint: string, t: Task, ns: seq<Node>)
    requires !Decide(Deployed(endpoint), t, ns).target.Cloud?
    ensures exists n :: n in ns && !Overloaded(n) && PlacedOn(Decide(Deployed(endpoint), t, ns), t, n)
  {
    DeployedChoice(endpoint, t, ns);
    CloudExactly(endpoint, t, ns);
    PickSpec(t, ns);
    BestEdgeSpec(t, ns);
    var p := Decide(Deployed(endpoint), t, ns);
    if p == Balanced(t, ns) {
      assert PlacedOn(p, t, BestEdge(t, ns).value);
    } else {
      assert PlacedOn(p, t, Pick(Healthy(ns), t.requester));
    }
  }

  // ------------------------------------------- the complete decision, in closed form

  function Latency(n: Node): real { LatencyOr(n, 10.0) }

  /** For a small input the rounded edge score of a node exceeds 0.9, or 0.8, exactly below these latencies. */
  lemma EdgeBeats(t: Task, n: Node)
    requires Small(t)
    ensures Round4(EdgeScore(t, n)) > 0.9 <==> 12000.0 * Latency(n) < 1199.0 * t.maxLatency
    ensures Round4(EdgeScore(t, n)) > 0.8 <==> 12000.0 * Latency(n) < 3199.0 * t.maxLatency
  {
    LatencyScoreValue(Latency(n), t.maxLatency);
    Bid(EdgeScore(t, n), LatencyScore(Latency(n), t.maxLatency), t.maxLatency, Latency(n));
  }

  lemma Bid(x: real, s: real, m: real, l: real)
    requires l > 0.0 && x == 0.6 * s + 0.36 && if m > l then s * m == m - l else s == 0.0
    ensures Round4(x) > 0.9 <==> 12000.0 * l < 1199.0 * m
    ensures Round4(x) > 0.8 <==> 12000.0 * l < 3199.0 * m
  {
    RoundBounds(x, 9000);
    RoundBounds(x, 8000);
    if m > l { EdgeCross(s, m, l); }
  }

  lemma EdgeCross(s: real, m: real, l: real)
    requires m > l > 0.0 && s * m == m - l
    ensures 6000.0 * s > 5400.5 <==> 12000.0 * l < 1199.0 * m
    ensures 6000.0 * s > 4400.5 <==> 12000.0 * l < 3199.0 * m
  {
    Scaled(s, m, l, 5400.5);
    Scaled(s, m, l, 4400.5);
  }

  /** Among nodes faster than the budget a higher edge score is a lower latency. */
  lemma HigherScoreIsFaster(t: Task, n: Node, k: Node)
    requires Latency(n) < t.maxLatency && EdgeScore(t, k) <= EdgeScore(t, n)
    ensures Latency(n) <= Latency(k)
  {
    var m := t.maxLatency;
    LatencyScoreValue(Latency(n), m);
    LatencyScoreValue(Latency(k), m);
    if Latency(k) < m {
      Faster(LatencyScore(Latency(n), m), LatencyScore(Latency(k), m), m, Latency(n), Latency(k));
    }
  }

  lemma Faster(p: real, q: real, m: real, a: real, b: real)
    requires m > 0.0 && p * m == m - a && q * m == m - b && q <= p
    ensures a <= b
  {
    assert (p - q) * m >= 0.0;
  }

  /** Some healthy node is fast enough for a small input to outbid the other two policies. */
  ghost predicate FastNode(t: Task, ns: seq<Node>) {
    exists n :: n in ns && !Overloaded(n)
      && 12000.0 * Latency(n) < (if RequesterHealthy(t, ns) then 1199.0 else 3199.0) * t.maxLatency
  }

  lemma FastIffBestBids(t: Task, ns: seq<Node>)
    requires SomeHealthy(ns) && Small(t)
    ensures BestEdge(t, ns).Some?
    ensures FastNode(t, ns) <==>
      Round4(EdgeScore(t, BestEdge(t, ns).value)) > if RequesterHealthy(t, ns) then 0.9 else 0.8
    ensures FastNode(t, ns) ==> Latency(BestEdge(t, ns).value) < t.maxLatency
  {
    BestEdgeSpec(t, ns);
    var best := BestEdge(t, ns).value;
    EdgeBeats(t, best);
    if FastNode(t, ns) {
      var n :| n in ns && !Overloaded(n)
        && 12000.0 * Latency(n) < (if RequesterHealthy(t, ns) then 1199.0 else 3199.0) * t.maxLatency;
      EdgeBeats(t, n);
      RoundFaithful(EdgeScore(t, n), EdgeScore(t, best));
    }
  }

  /** The node the balanced policy proposes when it wins: a healthy node of least latency. */
  ghost predicate Fastest(n: Node, ns: seq<Node>) {
    n in ns && !Overloaded(n) && forall k :: k in ns && !Overloaded(k) ==> Latency(n) <= Latency(k)
  }

  /** The requesting node if it is healthy, else a healthy node with the lowest CPU use. */
  ghost predicate Preferred(n: Node, t: Task, ns: seq<Node>) {
    && n in ns && !Overloaded(n) && (n.id == t.requester <==> RequesterHealthy(t, ns))
    && (!RequesterHealthy(t, ns) ==> forall k :: k in ns && !Overloaded(k) ==> n.cpu <= k.cpu)
  }

  /**
   * Where the deployed policies place an inference task when some node is healthy: the cloud (see CloudExactly);
   * for a small input with a fast enough node, a node of least latency; otherwise the preferred node.
   */
  lemma PlacementExactly(endpoint: string, t: Task, ns: seq<Node>)
    requires SomeHealthy(ns)
    ensures var p := Decide(Deployed(endpoint), t, ns);
      if !RequesterHealthy(t, ns) && !Small(t) && 1599.0 * t.maxLatency > 600000.0 then p.target.Cloud?
      else if Small(t) && FastNode(t, ns) then
        exists n :: Fastest(n, ns) && OnEdge(p, t, n, Round4(EdgeScore(t, n)), 10.0)
      else exists n :: Preferred(n, t, ns) && OnEdge(p, t, n, if n.id == t.requester then 0.9 else 0.8, 10.0)
  {
    var p := Decide(Deployed(endpoint), t, ns);
    CloudExactly(endpoint, t, ns);
    if !p.target.Cloud? {
      DeployedChoice(endpoint, t, ns);
      PickSpec(t, ns);
      BestEdgeSpec(t, ns);
      CloudScoreRange(t);
      var best, pick := BestEdge(t, ns).value, Pick(Healthy(ns), t.requester);
      EdgeScoreRange(t, best);
      if Small(t) {
        FastIffBestBids(t, ns);
      } else {
        RoundBounds(EdgeScore(t, best), 8000);
      }
      if Small(t) && FastNode(t, ns) {
        assert Fastest(best, ns) by {
          forall k | k in ns && !Overloaded(k) ensures Latency(best) <= Latency(k) { HigherScoreIsFaster(t, best, k); }
        }
        assert EdgeScore(t, best) >= CloudScore(t) by { RoundFaithful(EdgeScore(t, best), CloudScore(t)); }
        assert OnEdge(p, t, best, Round4(EdgeScore(t, best)), 10.0);
      } else {
        assert Preferred(pick, t, ns) && OnEdge(p, t, pick, if pick.id == t.requester then 0.9 else 0.8, 10.0);
      }
    }
  }

  // ------------------------------------------------ every field of every placement

  /** A placement on node n, field by field. */
  ghost predicate OnEdge(p: Placement, t: Task, n: Node, score: real, fallback: real) {
    && PlacedOn(p, t, n) && !p.target.Cloud? && p.score == score
    && p.estimated == if n.avgLatency > 0.0 then n.avgLatency else fallback
  }

  /** A cloud placement, field by field. */
  ghost predicate InCloud(p: Placement, t: Task, endpoint: string, estimated: real, score: real) {
    && p.target.Cloud? && p.taskId == t.taskId && p.nodeId == NOWHERE
    && p.endpoint == endpoint && p.estimated == estimated && p.score == score
  }

  lemma PickPreferred(t: Task, ns: seq<Node>)
    requires SomeHealthy(ns)
    ensures Healthy(ns) != [] && Preferred(Pick(Healthy(ns), t.requester), t, ns)
  {
    PickSpec(t, ns);
  }

  /** Latency first: the preferred node at 0.9 if local and 0.8 if not, or a cloud bid that loses to any node. */
  lemma LatencyFirstExactly(t: Task, ns: seq<Node>)
    ensures !SomeHealthy(ns) ==> InCloud(LatencyFirst(t, ns), t, "", 50.0, if ns == [] then 0.3 else 0.35)
    ensures SomeHealthy(ns) ==> exists n ::
      Preferred(n, t, ns) && OnEdge(LatencyFirst(t, ns), t, n, if n.id == t.requester then 0.9 else 0.8, 10.0)
  {
    HealthyMembers(ns);
    if SomeHealthy(ns) {
      PickPreferred(t, ns);
      var n := Pick(Healthy(ns), t.requester);
      assert OnEdge(LatencyFirst(t, ns), t, n, if n.id == t.requester then 0.9 else 0.8, 10.0);
    }
  }

  /** Cost aware: an input below 10 MiB goes to the preferred node, anything else to the cloud endpoint. */
  lemma CostAwareExactly(t: Task, ns: seq<Node>, endpoint: string)
    ensures t.inputBytes < 10485760 && SomeHealthy(ns) ==> exists n ::
      Preferred(n, t, ns) && OnEdge(CostAware(t, ns, endpoint), t, n, if n.id == t.requester then 0.85 else 0.75, 15.0)
    ensures !(t.inputBytes < 10485760 && SomeHealthy(ns)) ==>
      InCloud(CostAware(t, ns, endpoint), t, endpoint, 40.0, if ns == [] then 0.6 else 0.55)
  {
    HealthyMembers(ns);
    if SomeHealthy(ns) {
      PickPreferred(t, ns);
      var n := Pick(Healthy(ns), t.requester);
      if Small(t) {
        assert OnEdge(CostAware(t, ns, endpoint), t, n, if n.id == t.requester then 0.85 else 0.75, 15.0);
      }
    }
  }

  /** A healthy node of the highest edge score. */
  ghost predicate HighestEdge(n: Node, t: Task, ns: seq<Node>) {
    n in ns && !Overloaded(n) && forall k :: k in ns && !Overloaded(k) ==> EdgeScore(t, k) <= EdgeScore(t, n)
  }

  /** Balanced: a healthy node of the highest edge score if that reaches the cloud score, else the cloud. */
  lemma BalancedExactly(t: Task, ns: seq<Node>)
    ensures (exists n :: n in ns && !Overloaded(n) && EdgeScore(t, n) >= CloudScore(t)) ==>
      exists n :: HighestEdge(n, t, ns) && OnEdge(Balanced(t, ns), t, n, Round4(EdgeScore(t, n)), 10.0)
    ensures !(exists n :: n in ns && !Overloaded(n) && EdgeScore(t, n) >= CloudScore(t)) ==>
      InCloud(Balanced(t, ns), t, "", 50.0, Round4(CloudScore(t)))
  {
    BestEdgeSpec(t, ns);
    if BestEdge(t, ns).Some? {
      var n := BestEdge(t, ns).value;
      assert HighestEdge(n, t, ns);
      if EdgeScore(t, n) >= CloudScore(t) { assert OnEdge(Balanced(t, ns), t, n, Round4(EdgeScore(t, n)), 10.0); }
    }
  }

  /** The balanced scores without division: six tenths for the latency budget left over, four tenths for the cost. */
  lemma ScoreFormulas(t: Task, n: Node)
    ensures var m, l, small := t.maxLatency, Latency(n), t.inputBytes < 10485760;
      && (l < m ==> EdgeScore(t, n) * m == 0.6 * (m - l) + (if small then 0.36 else 0.2) * m)
      && (l >= m ==> EdgeScore(t, n) == if small then 0.36 else 0.2)
      && (50.0 < m ==> CloudScore(t) * m == 0.6 * (m - 50.0) + (if small then 0.12 else 0.28) * m)
      && (50.0 >= m ==> CloudScore(t) == if small then 0.12 else 0.28)
  {
    LatencyScoreValue(Latency(n), t.maxLatency);
    LatencyScoreValue(CLOUD_LATENCY, t.maxLatency);
  }

  lemma EvaluateRange(p: Policy, t: Task, ns: seq<Node>)
    ensures 0.0 <= Evaluate(p, t, ns).score
  {
    match p {
      case LatencyFirstPolicy => LatencyFirstExactly(t, ns);
      case CostAwarePolicy(endpoint) => CostAwareExactly(t, ns, endpoint);
      case BalancedPolicy =>
        CloudScoreRange(t);
        if BestEdge(t, ns).Some? {
          EdgeScoreRange(t, BestEdge(t, ns).value);
          RoundFaithful(0.0, EdgeScore(t, BestEdge(t, ns).value));
        }
    }
  }

  /** Policy i wins: its score is the highest, and no earlier policy has it too. */
  ghost predicate Wins(ps: seq<Policy>, t: Task, ns: seq<Node>, i: nat) {
    && i < |ps| && (forall j :: 0 <= j < |ps| ==> Evaluate(ps[j], t, ns).score <= Evaluate(ps[i], t, ns).score)
    && (forall j :: 0 <= j < i ==> Evaluate(ps[j], t, ns).score < Evaluate(ps[i], t, ns).score)
  }

  lemma {:induction false} ChooseWinner(ps: seq<Policy>, t: Task, ns: seq<Node>) returns (i: nat)
    requires ps != []
    ensures Wins(ps, t, ns, i) && Choose(ps, t, ns) == Some(Evaluate(ps[i], t, ns))
  {
    var n := |ps| - 1;
    EvaluateRange(ps[n], t, ns);
    i := n;
    if n > 0 {
      var k := ChooseWinner(ps[..n], t, ns);
      assert forall j :: 0 <= j < n ==> ps[..n][j] == ps[j];
      if Evaluate(ps[n], t, ns).score <= Evaluate(ps[k], t, ns).score { i := k; }
    } else {
      assert ps[..n] == [];
    }
  }

  /** For any list of policies the engine takes the placement of the first policy with the highest score. */
  lemma FirstHighestWins(ps: seq<Policy>, t: Task, ns: seq<Node>) returns (i: nat)
    requires ps != []
    ensures Wins(ps, t, ns, i) && Decide(ps, t, ns) == Evaluate(ps[i], t, ns)
  {
    i := ChooseWinner(ps, t, ns);
  }

  /** Without any policy the task goes to the cloud with nothing else filled in. */
  lemma NoPolicies(t: Task, ns: seq<Node>)
    ensures InCloud(Decide([], t, ns), t, "", 0.0, 0.0)
  {
  }

  /** Without a healthy node, the balanced policy outbids the cost-aware one exactly above this budget. */
  ghost predicate BalancedOutbids(t: Task, ns: seq<Node>) {
    var small := t.inputBytes < 10485760;
    600000.0 < t.maxLatency
      * if ns == [] then (if small then 2399.0 else 5599.0) else (if small then 3399.0 else 6599.0)
  }

  lemma CloudBid(x: real, s: real, m: real, small: bool)
    requires x == 0.6 * s + (if small then 0.12 else 0.28) && if m > 50.0 then s * m == m - 50.0 else s == 0.0
    ensures Round4(x) > 0.6 <==> 600000.0 < m * if small then 2399.0 else 5599.0
    ensures Round4(x) > 0.55 <==> 600000.0 < m * if small then 3399.0 else 6599.0
  {
    RoundBounds(x, 6000);
    RoundBounds(x, 5500);
    if m > 50.0 {
      Scaled(s, m, 50.0, if small then 4800.5 else 3200.5);
      Scaled(s, m, 50.0, if small then 4300.5 else 2700.5);
    }
  }

  lemma OutbidsIff(t: Task, ns: seq<Node>)
    ensures BalancedOutbids(t, ns) <==> Round4(CloudScore(t)) > if ns == [] then 0.6 else 0.55
  {
    LatencyScoreValue(CLOUD_LATENCY, t.maxLatency);
    CloudBid(CloudScore(t), LatencyScore(CLOUD_LATENCY, t.maxLatency), t.maxLatency, Small(t));
  }

  /** The whole cloud placement: from the cost-aware policy, unless the balanced one outbids it. */
  lemma CloudPlacementExactly(endpoint: string, t: Task, ns: seq<Node>)
    requires Decide(Deployed(endpoint), t, ns).target.Cloud?
    ensures var p := Decide(Deployed(endpoint), t, ns);
      if SomeHealthy(ns) || BalancedOutbids(t, ns) then InCloud(p, t, "", 50.0, Round4(CloudScore(t)))
      else InCloud(p, t, endpoint, 40.0, if ns == [] then 0.6 else 0.55)
  {
    DeployedChoice(endpoint, t, ns);
    CloudExactly(endpoint, t, ns);
    BalancedToCloud(t, ns);
    LatencyFirstExactly(t, ns);
    CostAwareExactly(t, ns, endpoint);
    OutbidsIff(t, ns);
    CloudScoreRange(t);
    if SomeHealthy(ns) { CloudBeatsRemote(t); }
  }

  /** With no node reporting and the default budget of 100 ms the task goes to the cloud endpoint at 40 ms. */
  lemma DefaultBudget(endpoint: string, t: Task)
    requires t.maxLatency == 100.0
    ensures InCloud(Decide(Deployed(endpoint), t, []), t, endpoint, 40.0, 0.6)
  {
    CloudExactly(endpoint, t, []);
    CloudPlacementExactly(endpoint, t, []);
  }

  /** A single report decides by its load: edge up to 85 percent CPU and 90 percent memory. */
  lemma SingleReport(endpoint: string, t: Task, n: Node)
    ensures Decide(Deployed(endpoint), t, [n]).target.Cloud? <==>
      || n.cpu > 85.0 || n.mem > 90.0
      || (n.id != t.requester && t.inputBytes >= 10485760 && 1599.0 * t.maxLatency > 600000.0)
  {
    CloudExactly(endpoint, t, [n]);
    assert n in [n];
  }

  /** End to end, for the reports of any monitor at any time: only fresh, healthy nodes receive work. */
  lemma FreshPlacement(endpoint: string, t: Task, reports: seq<Node>, now: real, threshold: real)
    ensures var p := Decide(Deployed(endpoint), t, Current(reports, now, threshold));
      && (p.target.Cloud? || exists n ::
           n in reports && !Overloaded(n) && now - n.reportedAt <= threshold && PlacedOn(p, t, n))
      && ((forall n :: n in reports ==> Overloaded(n) || now - n.reportedAt > threshold) ==> p.target.Cloud?)
      && ((exists n :: n in reports && !Overloaded(n) && now - n.reportedAt <= threshold && n.id == t.requester) ==>
           !p.target.Cloud?)
  {
    var ns := Current(reports, now, threshold);
    CurrentMembers(reports, now, threshold);
    CloudExactly(endpoint, t, ns);
    var p := Decide(Deployed(endpoint), t, ns);
    if !p.target.Cloud? { EdgeIsHealthy(endpoint, t, ns); }
  }
}

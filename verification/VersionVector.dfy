/**
 * Version vectors, and the theorem they exist for: on every trace of local events and
 * deliveries, comparing vectors decides happened-before.
 */
module VersionVectors {

  datatype Node = Node(id: string)
  type Clock = map<Node, nat>

  /** A missing entry reads as 0. */
  function At(c: Clock, n: Node): nat { if n in c then c[n] else 0 }

  ghost predicate Leq(a: Clock, b: Clock) { forall n :: At(a, n) <= At(b, n) }

  ghost predicate Same(a: Clock, b: Clock) { forall n :: At(a, n) == At(b, n) }

  /** Every component at least as large, and at least one larger. */
  ghost predicate Dominates(a: Clock, b: Clock) { Leq(b, a) && exists n :: At(a, n) > At(b, n) }

  ghost predicate Concurrent(a: Clock, b: Clock) { !Dominates(a, b) && !Dominates(b, a) && !Same(a, b) }

  function Incremented(c: Clock, n: Node): Clock { c[n := At(c, n) + 1] }

  function Max(x: nat, y: nat): nat { if x >= y then x else y }

  function Merged(a: Clock, b: Clock): Clock {
    map n | n in a.Keys + b.Keys :: Max(At(a, n), At(b, n))
  }

  /** The merge after the items of b named in `seen` have been taken. */
  ghost function MergedSoFar(a: Clock, b: Clock, seen: set<Node>): Clock {
    map n | n in a.Keys + seen :: if n in seen then Max(At(a, n), At(b, n)) else At(a, n)
  }

  lemma MergeEnds(a: Clock, b: Clock)
    ensures MergedSoFar(a, b, {}) == a && MergedSoFar(a, b, b.Keys) == Merged(a, b)
  {
  }

  lemma MergeOne(a: Clock, b: Clock, seen: set<Node>, n: Node)
    requires n !in seen
    ensures var c := MergedSoFar(a, b, seen);
      c[n := Max(At(c, n), At(b, n))] == MergedSoFar(a, b, seen + {n})
  {
  }

  class VersionVector {
    var clock: Clock

    constructor ()
      ensures clock == map[]
    {
      clock := map[];
    }

    method Increment(n: Node) returns (v: nat)
      modifies this
      ensures clock == Incremented(old(clock), n) && v == At(clock, n)
    {
      clock := clock[n := (if n in clock then clock[n] else 0) + 1];
      v := clock[n];
    }

    /** Takes the other vector's items one by one, in any order; `other` may be this very object. */
    method Merge(other: VersionVector)
      modifies this
      ensures clock == Merged(old(clock), old(other.clock))
      ensures other != this ==> other.clock == old(other.clock)
    {
      var items := other.clock;
      var todo := items.Keys;
      MergeEnds(clock, items);
      assert items.Keys - todo == {};
      while todo != {}
        invariant todo <= items.Keys
        invariant clock == MergedSoFar(old(clock), items, items.Keys - todo)
        decreases |todo|
      {
        var n :| n in todo;
        var version := items[n];
        MergeOne(old(clock), items, items.Keys - todo, n);
        assert items.Keys - todo + {n} == items.Keys - (todo - {n});
        clock := clock[n := Max(At(clock, n), version)];
        todo := todo - {n};
      }
      assert items.Keys - todo == items.Keys;
    }

    method Dominating(other: VersionVector) returns (r: bool)
      ensures r <==> Dominates(clock, other.clock)
    {
      var allNodes := clock.Keys + other.clock.Keys;
      var todo := allNodes;
      var atLeastOneGreater := false;
      while todo != {}
        invariant todo <= allNodes
        invariant forall n :: n in allNodes && n !in todo ==> At(clock, n) >= At(other.clock, n)
        invariant atLeastOneGreater <==> exists n :: n in allNodes && n !in todo && At(clock, n) > At(other.clock, n)
        decreases |todo|
      {
        var n :| n in todo;
        var selfVal, otherVal := At(clock, n), At(other.clock, n);
        if selfVal < otherVal { return false; }
        if selfVal > otherVal { atLeastOneGreater := true; }
        todo := todo - {n};
      }
      assert forall n :: n !in allNodes ==> At(clock, n) == 0 && At(other.clock, n) == 0;
      r := atLeastOneGreater;
    }

    method Equal(other: VersionVector) returns (r: bool)
      ensures r <==> Same(clock, other.clock)
    {
      var allNodes := clock.Keys + other.clock.Keys;
      r := forall n :: n in allNodes ==> At(clock, n) == At(other.clock, n);
      assert forall n :: n !in allNodes ==> At(clock, n) == 0 && At(other.clock, n) == 0;
    }

    /** A vector of its own with the same counters, as it is sent to another node. */
    method Copy() returns (c: VersionVector)
      ensures fresh(c) && c.clock == clock
    {
      c := new VersionVector();
      c.clock := clock;
    }

    method ConcurrentWith(other: VersionVector) returns (r: bool)
      ensures r <==> Concurrent(clock, other.clock)
    {
      r := Dominating(other);
      if r { return false; }
      r := other.Dominating(this);
      if r { return false; }
      var same := Equal(other);
      r := !same;
    }
  }

  /** Merge is the least upper bound, with missing entries read as 0. */
  lemma MergeIsLeastUpperBound(a: Clock, b: Clock, c: Clock)
    ensures Leq(a, Merged(a, b)) && Leq(b, Merged(a, b))
    ensures Leq(Merged(a, b), c) <==> Leq(a, c) && Leq(b, c)
  {
    forall n ensures At(Merged(a, b), n) == Max(At(a, n), At(b, n)) {
      assert n in Merged(a, b) <==> n in a.Keys + b.Keys;
    }
    if Leq(Merged(a, b), c) {
      forall n ensures At(a, n) <= At(c, n) && At(b, n) <= At(c, n) {
        assert At(Merged(a, b), n) <= At(c, n);
      }
    }
  }

  // ------------------------------------------------------------------ traces

  /** A node acts (its own counter goes up), or receives the vector another step left its node with. */
  datatype Op = Act(node: Node) | Deliver(node: Node, from: nat)

  ghost predicate WellFormed(tr: seq<Op>) {
    forall j :: 0 <= j < |tr| && tr[j].Deliver? ==> tr[j].from < j
  }

  /** The same node's previous step, if any. */
  ghost function Prev(tr: seq<Op>, n: Node, j: nat): (p: int)
    requires j <= |tr|
    ensures -1 <= p < j
    ensures p >= 0 ==> tr[p].node == n
    ensures forall k :: p < k < j ==> tr[k].node != n
  {
    if j == 0 then -1 else if tr[j - 1].node == n then j - 1 else Prev(tr, n, j - 1)
  }

  /** The vector held by node n after the first j steps. */
  ghost function Held(tr: seq<Op>, n: Node, j: nat): Clock
    requires WellFormed(tr) && j <= |tr|
    decreases j, 0
  {
    var p := Prev(tr, n, j);
    if p < 0 then map[] else Stamp(tr, p)
  }

  /** The vector of the acting node right after step j. */
  ghost function Stamp(tr: seq<Op>, j: nat): Clock
    requires WellFormed(tr) && j < |tr|
    decreases j, 1
  {
    match tr[j]
    case Act(n) => Incremented(Held(tr, n, j), n)
    case Deliver(n, i) => Merged(Held(tr, n, j), Stamp(tr, i))
  }

  /** Happened-before-or-same between steps: the closure of program order and delivery. */
  ghost predicate Before(tr: seq<Op>, i: nat, j: nat)
    requires WellFormed(tr) && i < |tr| && j < |tr|
    decreases j
  {
    || i == j
    || (var p := Prev(tr, tr[j].node, j); p >= 0 && Before(tr, i, p))
    || (tr[j].Deliver? && Before(tr, i, tr[j].from))
  }

  /** Number of acts of node n among the first j steps. */
  ghost function Acts(tr: seq<Op>, n: Node, j: nat): nat
    requires j <= |tr|
  {
    if j == 0 then 0 else Acts(tr, n, j - 1) + if tr[j - 1] == Act(n) then 1 else 0
  }

  lemma {:induction false} ActsMonotone(tr: seq<Op>, n: Node, i: nat, j: nat)
    requires i <= j <= |tr|
    ensures Acts(tr, n, i) <= Acts(tr, n, j)
    decreases j
  {
    if i < j { ActsMonotone(tr, n, i, j - 1); }
  }

  lemma {:induction false} ActsConstant(tr: seq<Op>, n: Node, i: nat, j: nat)
    requires i <= j <= |tr| && forall k :: i <= k < j ==> tr[k].node != n
    ensures Acts(tr, n, i) == Acts(tr, n, j)
    decreases j
  {
    if i < j { ActsConstant(tr, n, i, j - 1); }
  }

  /** A vector never runs ahead of the acts performed, and is exact on its owner. */
  lemma {:induction false} StampCounts(tr: seq<Op>, j: nat, m: Node)
    requires WellFormed(tr) && j < |tr|
    ensures At(Stamp(tr, j), m) <= Acts(tr, m, j + 1)
    ensures At(Stamp(tr, j), tr[j].node) == Acts(tr, tr[j].node, j + 1)
    decreases j
  {
    var n := tr[j].node;
    var p := Prev(tr, n, j);
    var held := Held(tr, n, j);
    assert At(held, m) <= Acts(tr, m, j) && At(held, n) == Acts(tr, n, j) by {
      if p >= 0 {
        StampCounts(tr, p, m);
        ActsMonotone(tr, m, p + 1, j);
        ActsConstant(tr, n, p + 1, j);
      } else {
        ActsConstant(tr, n, 0, j);
      }
    }
    if tr[j].Deliver? {
      var i := tr[j].from;
      StampCounts(tr, i, m);
      StampCounts(tr, i, n);
      ActsMonotone(tr, m, i + 1, j);
      ActsMonotone(tr, n, i + 1, j);
    }
  }

  /** All earlier steps of the same node come before. */
  lemma {:induction false} ProgramOrder(tr: seq<Op>, i: nat, j: nat)
    requires WellFormed(tr) && i <= j < |tr| && tr[i].node == tr[j].node
    ensures Before(tr, i, j)
    decreases j
  {
    if i < j { ProgramOrder(tr, i, Prev(tr, tr[j].node, j)); }
  }

  /** The k-th act of node m lies in the past of step j exactly when j's vector counts at least k for m. */
  lemma {:induction false} PastIffCounted(tr: seq<Op>, i: nat, j: nat)
    requires WellFormed(tr) && i < |tr| && j < |tr| && tr[i].Act?
    ensures Before(tr, i, j) <==> Acts(tr, tr[i].node, i + 1) <= At(Stamp(tr, j), tr[i].node)
    decreases j
  {
    var m, n := tr[i].node, tr[j].node;
    var p := Prev(tr, n, j);
    if m == n {
      OwnPast(tr, i, j);
    } else {
      if p >= 0 { PastIffCounted(tr, i, p); }
      if tr[j].Deliver? { PastIffCounted(tr, i, tr[j].from); }
    }
  }

  lemma BeforeIsEarlier(tr: seq<Op>, i: nat, j: nat)
    requires WellFormed(tr) && i < |tr| && j < |tr| && Before(tr, i, j)
    ensures i <= j
    decreases j
  {
  }

  /** The acts of one node are numbered in order. */
  lemma ActsStrict(tr: seq<Op>, i: nat, j: nat)
    requires i < |tr| && j < |tr| && tr[i].Act?
    ensures i <= j <==> Acts(tr, tr[i].node, i + 1) <= Acts(tr, tr[i].node, j + 1)
  {
    var n := tr[i].node;
    if i <= j { ActsMonotone(tr, n, i + 1, j + 1); } else { ActsMonotone(tr, n, j + 1, i); }
  }

  lemma OwnPast(tr: seq<Op>, i: nat, j: nat)
    requires WellFormed(tr) && i < |tr| && j < |tr| && tr[i].Act? && tr[i].node == tr[j].node
    ensures Before(tr, i, j) <==> Acts(tr, tr[i].node, i + 1) <= At(Stamp(tr, j), tr[i].node)
  {
    assert At(Stamp(tr, j), tr[i].node) == Acts(tr, tr[i].node, j + 1) by { StampCounts(tr, j, tr[i].node); }
    ActsStrict(tr, i, j);
    assert Before(tr, i, j) <==> i <= j by {
      if i <= j { ProgramOrder(tr, i, j); } else if Before(tr, i, j) { BeforeIsEarlier(tr, i, j); }
    }
  }

  /** Vectors grow along happened-before. */
  lemma {:induction false} StampMonotone(tr: seq<Op>, i: nat, j: nat)
    requires WellFormed(tr) && i < |tr| && j < |tr| && Before(tr, i, j)
    ensures Leq(Stamp(tr, i), Stamp(tr, j))
    decreases j
  {
    if i != j {
      var p := Prev(tr, tr[j].node, j);
      var held := Held(tr, tr[j].node, j);
      if tr[j].Deliver? { MergeIsLeastUpperBound(held, Stamp(tr, tr[j].from), map[]); }
      assert Leq(held, Stamp(tr, j));
      if p >= 0 && Before(tr, i, p) {
        StampMonotone(tr, i, p);
      } else {
        StampMonotone(tr, i, tr[j].from);
      }
    }
  }

  lemma BeforeIffLeq(tr: seq<Op>, i: nat, j: nat)
    requires WellFormed(tr) && i < |tr| && j < |tr| && tr[i].Act?
    ensures Before(tr, i, j) <==> Leq(Stamp(tr, i), Stamp(tr, j))
  {
    PastIffCounted(tr, i, j);
    StampCounts(tr, i, tr[i].node);
    if Before(tr, i, j) { StampMonotone(tr, i, j); }
  }

  /** The vector-clock theorem: `dominates` is happened-after and `concurrent_with` is causal independence. */
  lemma DominatesIffHappenedAfter(tr: seq<Op>, i: nat, j: nat)
    requires WellFormed(tr) && i < |tr| && j < |tr| && i != j && tr[i].Act? && tr[j].Act?
    ensures Dominates(Stamp(tr, j), Stamp(tr, i)) <==> Before(tr, i, j)
    ensures Concurrent(Stamp(tr, i), Stamp(tr, j)) <==> !Before(tr, i, j) && !Before(tr, j, i)
  {
    BeforeIffLeq(tr, i, j);
    BeforeIffLeq(tr, j, i);
    if Before(tr, i, j) { BeforeIsEarlier(tr, i, j); }
    if Before(tr, j, i) { BeforeIsEarlier(tr, j, i); }
    LeqCases(Stamp(tr, i), Stamp(tr, j));
    LeqCases(Stamp(tr, j), Stamp(tr, i));
  }

  lemma LeqCases(a: Clock, b: Clock)
    ensures Dominates(b, a) <==> Leq(a, b) && !Leq(b, a)
    ensures Same(a, b) <==> Leq(a, b) && Leq(b, a)
  {
  }

  // -------------------------------------------------- vectors as causal histories

  /** The acts a step has seen. */
  ghost function History(tr: seq<Op>, j: nat): set<nat>
    requires WellFormed(tr) && j < |tr|
  {
    set i | 0 <= i < |tr| && tr[i].Act? && Before(tr, i, j)
  }

  /** What the node had already seen when it took step j. */
  ghost function Inherited(tr: seq<Op>, j: nat): set<nat>
    requires WellFormed(tr) && j < |tr|
  {
    var p := Prev(tr, tr[j].node, j);
    if p < 0 then {} else History(tr, p)
  }

  lemma {:induction false} BeforeTransitive(tr: seq<Op>, i: nat, j: nat, k: nat)
    requires WellFormed(tr) && i < |tr| && j < |tr| && k < |tr| && Before(tr, i, j) && Before(tr, j, k)
    ensures Before(tr, i, k)
    decreases k
  {
    if j != k {
      var p := Prev(tr, tr[k].node, k);
      if p >= 0 && Before(tr, j, p) {
        BeforeTransitive(tr, i, j, p);
      } else {
        BeforeTransitive(tr, i, j, tr[k].from);
      }
    }
  }

  lemma HistoryFollowsVector(tr: seq<Op>, i: nat, j: nat)
    requires WellFormed(tr) && i < |tr| && j < |tr| && Leq(Stamp(tr, i), Stamp(tr, j))
    ensures History(tr, i) <= History(tr, j)
  {
    forall e | e in History(tr, i) ensures e in History(tr, j) {
      PastIffCounted(tr, e, i);
      PastIffCounted(tr, e, j);
      assert At(Stamp(tr, i), tr[e].node) <= At(Stamp(tr, j), tr[e].node);
    }
  }

  lemma VectorFollowsHistory(tr: seq<Op>, i: nat, j: nat)
    requires WellFormed(tr) && i < |tr| && j < |tr| && History(tr, i) <= History(tr, j)
    ensures Leq(Stamp(tr, i), Stamp(tr, j))
  {
    forall n ensures At(Stamp(tr, i), n) <= At(Stamp(tr, j), n) {
      if At(Stamp(tr, i), n) > 0 {
        StampCounts(tr, i, n);
        var e := NthAct(tr, n, At(Stamp(tr, i), n), i + 1);
        PastIffCounted(tr, e, i);
        assert e in History(tr, j);
        PastIffCounted(tr, e, j);
      }
    }
  }

  /** Histories are downward closed, comparing vectors is comparing histories, and a delivery unites them. */
  lemma VectorsRefineHistories(tr: seq<Op>, i: nat, j: nat)
    requires WellFormed(tr) && i < |tr| && j < |tr|
    ensures forall e, f :: f in History(tr, j) && e in History(tr, f) ==> e in History(tr, j)
    ensures Leq(Stamp(tr, i), Stamp(tr, j)) <==> History(tr, i) <= History(tr, j)
    ensures tr[j].Deliver? ==> History(tr, j) == History(tr, tr[j].from) + Inherited(tr, j)
  {
    forall e, f | f in History(tr, j) && e in History(tr, f) ensures e in History(tr, j) {
      BeforeTransitive(tr, e, f, j);
    }
    if Leq(Stamp(tr, i), Stamp(tr, j)) { HistoryFollowsVector(tr, i, j); }
    if History(tr, i) <= History(tr, j) { VectorFollowsHistory(tr, i, j); }
  }

  lemma {:induction false} NthAct(tr: seq<Op>, n: Node, k: nat, j: nat) returns (e: nat)
    requires j <= |tr| && 0 < k <= Acts(tr, n, j)
    ensures e < j && tr[e] == Act(n) && Acts(tr, n, e + 1) == k
    decreases j
  {
    if k <= Acts(tr, n, j - 1) { e := NthAct(tr, n, k, j - 1); } else { e := j - 1; }
  }

  // ------------------------------------------------------------- a run on objects

  lemma HeldStep(tr: seq<Op>, n: Node, j: nat)
    requires WellFormed(tr) && j < |tr|
    ensures Held(tr, n, j + 1) == if tr[j].node == n then Stamp(tr, j) else Held(tr, n, j)
  {
  }

  /** Every node's object holds its vector after j steps, and the messages are the stamps of those steps. */
  ghost predicate Agrees(tr: seq<Op>, j: nat, nodes: map<Node, VersionVector>, sent: seq<VersionVector>)
    requires WellFormed(tr) && j <= |tr|
    reads nodes.Values, sent
  {
    && |sent| == j
    && (forall n :: Held(tr, n, j) == if n in nodes then nodes[n].clock else map[])
    && (forall i :: 0 <= i < j ==> sent[i].clock == Stamp(tr, i))
  }

  /** No vector is shared: not between nodes, and not with a message. */
  ghost predicate Unshared(nodes: map<Node, VersionVector>, sent: seq<VersionVector>) {
    && (forall n, m :: n in nodes && m in nodes && nodes[n] == nodes[m] ==> n == m)
    && (forall n, i :: n in nodes && 0 <= i < |sent| ==> nodes[n] != sent[i])
  }

  /** Step j on the vector object of its node: an act increments it, a delivery merges a copy sent earlier. */
  method TakeStep(tr: seq<Op>, j: nat, v: VersionVector, sent: seq<VersionVector>) returns (copy: VersionVector)
    requires WellFormed(tr) && j < |tr| && |sent| == j
    requires v.clock == Held(tr, tr[j].node, j) && forall i :: 0 <= i < j ==> sent[i].clock == Stamp(tr, i)
    modifies v
    ensures v.clock == Stamp(tr, j) && fresh(copy) && copy.clock == Stamp(tr, j)
  {
    match tr[j] {
      case Act(n) => var count := v.Increment(n);
      case Deliver(_, i) => v.Merge(sent[i]);
    }
    copy := v.Copy();
  }

  /** A node that has not moved yet has an empty vector. */
  method Register(tr: seq<Op>, j: nat, nodes: map<Node, VersionVector>, sent: seq<VersionVector>, n: Node)
    returns (nodes': map<Node, VersionVector>)
    requires WellFormed(tr) && j <= |tr| && Agrees(tr, j, nodes, sent) && Unshared(nodes, sent)
    ensures Agrees(tr, j, nodes', sent) && Unshared(nodes', sent) && n in nodes'
    ensures forall m :: m in nodes' ==> fresh(nodes'[m]) || (m in nodes && nodes'[m] == nodes[m])
  {
    nodes' := nodes;
    if n !in nodes {
      var v := new VersionVector();
      nodes' := nodes[n := v];
    }
  }

  /** A whole trace on objects; every step sends a copy of its node's vector. */
  method Replay(tr: seq<Op>) returns (nodes: map<Node, VersionVector>, sent: seq<VersionVector>)
    requires WellFormed(tr)
    ensures Agrees(tr, |tr|, nodes, sent)
  {
    nodes, sent := map[], [];
    for j := 0 to |tr|
      invariant (forall n :: n in nodes ==> fresh(nodes[n])) && (forall i :: 0 <= i < |sent| ==> fresh(sent[i]))
      invariant Unshared(nodes, sent) && Agrees(tr, j, nodes, sent)
    {
      var n := tr[j].node;
      nodes := Register(tr, j, nodes, sent, n);
      var copy := TakeStep(tr, j, nodes[n], sent);
      forall m ensures Held(tr, m, j + 1) == if m in nodes then nodes[m].clock else map[] {
        HeldStep(tr, m, j);
      }
      sent := sent + [copy];
    }
  }

  /** Comparing the vector objects that two acts sent decides which happened before which. */
  method CompareActs(tr: seq<Op>, i: nat, j: nat) returns (after: bool, concurrent: bool)
    requires WellFormed(tr) && i < |tr| && j < |tr| && i != j && tr[i].Act? && tr[j].Act?
    ensures after <==> Before(tr, i, j)
    ensures concurrent <==> !Before(tr, i, j) && !Before(tr, j, i)
  {
    var nodes, sent := Replay(tr);
    DominatesIffHappenedAfter(tr, i, j);
    after := sent[j].Dominating(sent[i]);
    concurrent := sent[i].ConcurrentWith(sent[j]);
  }
}

/**
 * Rolling and canary firmware rollout. Node metadata (`pending_firmware`) and the
 * `target_version` keys in Redis are maps from node ids; every Redis command may fail, or
 * take effect and then fail, and the health a poll sees is chosen by the environment.
 */
module OtaRollout {
  import opened Common

  datatype Id = Id(name: string)

  datatype Act = Touch(id: Id) | Passed(id: Id)

  /** Marks on the nodes, and the order in which nodes were touched and found healthy. */
  datatype Fleet = Fleet(pending: map<Id, string>, targets: map<Id, string>, log: seq<Act>)

  /** Environment for one node: its SET, what each health poll sees, and the DELETE of a rollback. */
  datatype Env = Env(put: Call, polls: seq<bool>, del: Call)

  datatype Timing = Timing(timeout: real, poll: real)

  datatype Result = Pass | Unhealthy | Error

  /** All updated; the same, but the closing audit record raised; the opening one raised; or stopped at a node. */
  datatype Outcome = Updated | Unrecorded | NotStarted | Stopped(at: nat, why: Result)

  /** Some poll before the timeout sees the node ALIVE. */
  ghost predicate Healthy(polls: seq<bool>, t: Timing) {
    exists k :: 0 <= k < |polls| && polls[k] && Elapsed(k, t.poll) < t.timeout
  }

  /** The sleep accumulated before poll k. */
  function Elapsed(k: nat, poll: real): real { k as real * poll }

  ghost function Mark(f: Fleet, id: Id, fw: string, c: Call): Fleet {
    Fleet(f.pending[id := fw], if c.Failed? then f.targets else f.targets[id := fw], f.log + [Touch(id)])
  }

  ghost function Unmark(f: Fleet, id: Id, c: Call): Fleet {
    f.(pending := f.pending - {id}, targets := if c.Failed? then f.targets else f.targets - {id})
  }

  /** Update, wait, and roll back if the wait fails. */
  ghost function Attempt(f: Fleet, id: Id, fw: string, e: Env, t: Timing): (Fleet, Result) {
    var f1 := Mark(f, id, fw, e.put);
    if !e.put.Done? then (f1, Error)
    else if Healthy(e.polls, t) then (f1.(log := f1.log + [Passed(id)]), Pass)
    else (Unmark(f1, id, e.del), if e.del.Done? then Unhealthy else Error)
  }

  ghost function Roll(f: Fleet, ids: seq<Id>, k: nat, fw: string, es: seq<Env>, t: Timing): (Fleet, Outcome)
    requires k <= |ids| <= |es|
    decreases |ids| - k
  {
    if k == |ids| then (f, Updated)
    else
      var (f', r) := Attempt(f, ids[k], fw, es[k], t);
      if r.Pass? then Roll(f', ids, k + 1, fw, es, t) else (f', Stopped(k, r))
  }

  /** Canary first; the others only after the canary passed again at the end of the watch period. */
  ghost function Canary(f: Fleet, ids: seq<Id>, fw: string, es: seq<Env>, watch: Env, t: Timing): (Fleet, Outcome)
    requires |ids| <= |es|
  {
    if ids == [] then (f, Updated)
    else
      var (f1, r) := Attempt(f, ids[0], fw, es[0], t);
      if !r.Pass? then (f1, Stopped(0, r))
      else if !Healthy(watch.polls, t) then
        (Unmark(f1, ids[0], watch.del), Stopped(0, if watch.del.Done? then Unhealthy else Error))
      else Roll(f1.(log := f1.log + [Passed(ids[0])]), ids, 1, fw, es, t)
  }

  // ----------------------------------------------------- the imperative coordinator

  class OtaCoordinator {
    var pending: map<Id, string>
    var targets: map<Id, string>
    var log: seq<Act>

    ghost function View(): Fleet
      reads this
    {
      Fleet(pending, targets, log)
    }

    constructor ()
      ensures View() == Fleet(map[], map[], [])
    {
      pending, targets, log := map[], map[], [];
    }

    /** Polls until the node is ALIVE or the accumulated sleep reaches the timeout. */
    method WaitForHealth(polls: seq<bool>, t: Timing) returns (healthy: bool)
      requires t.poll > 0.0
      ensures healthy <==> Healthy(polls, t)
    {
      var elapsed, k := 0.0, 0;
      while elapsed < t.timeout
        invariant k >= 0 && elapsed == Elapsed(k, t.poll)
        invariant forall i :: 0 <= i < k && i < |polls| ==> !polls[i]
        decreases PollsLeft(t.timeout - elapsed, t.poll)
      {
        if k < |polls| && polls[k] { return true; }
        PollsRunOut(t.timeout - elapsed, t.poll);
        NextPoll(k, t.poll);
        elapsed := elapsed + t.poll;
        k := k + 1;
      }
      TooLate(polls, t, k);
      healthy := false;
    }

    method UpdateNode(id: Id, fw: string, c: Call) returns (ok: bool)
      modifies this
      ensures View() == Mark(old(View()), id, fw, c) && ok == c.Done?
    {
      pending, log := pending[id := fw], log + [Touch(id)];
      if !c.Failed? { targets := targets[id := fw]; }
      ok := c.Done?;
    }

    method RollbackNode(id: Id, c: Call) returns (ok: bool)
      modifies this
      ensures View() == Unmark(old(View()), id, c) && ok == c.Done?
    {
      pending := pending - {id};
      if !c.Failed? { targets := targets - {id}; }
      ok := c.Done?;
    }

    method TryNode(id: Id, fw: string, e: Env, t: Timing) returns (r: Result)
      requires t.poll > 0.0
      modifies this
      ensures (View(), r) == Attempt(old(View()), id, fw, e, t)
    {
      var ok := UpdateNode(id, fw, e.put);
      if !ok { return Error; }
      var healthy := WaitForHealth(e.polls, t);
      if healthy {
        log := log + [Passed(id)];
        return Pass;
      }
      ok := RollbackNode(id, e.del);
      r := if ok then Unhealthy else Error;
    }

    method RollOut(ids: seq<Id>, from: nat, fw: string, es: seq<Env>, t: Timing) returns (out: Outcome)
      requires t.poll > 0.0 && from <= |ids| <= |es|
      modifies this
      ensures (View(), out) == Roll(old(View()), ids, from, fw, es, t)
    {
      var k := from;
      while k < |ids|
        invariant from <= k <= |ids|
        invariant Roll(View(), ids, k, fw, es, t) == Roll(old(View()), ids, from, fw, es, t)
      {
        var r := TryNode(ids[k], fw, es[k], t);
        if !r.Pass? { return Stopped(k, r); }
        k := k + 1;
      }
      out := Updated;
    }

    /**
     * An absent or empty node list means every ALIVE node. `started` and `ended` are the audit records written
     * before the first node and after the last.
     */
    method StartRollingUpdate(fw: string, nodes: Option<seq<Id>>, alive: seq<Id>, started: Call, es: seq<Env>,
                              t: Timing,
                              ended: Call)
      returns (out: Outcome)
      requires t.poll > 0.0 && |alive| <= |es| && (nodes.Some? ==> |nodes.value| <= |es|)
      modifies this
      ensures !started.Done? ==> View() == old(View()) && out == NotStarted
      ensures started.Done? ==>
        var ids := if nodes.Some? && nodes.value != [] then nodes.value else alive;
        var (f', rolled) := Roll(old(View()), ids, 0, fw, es, t);
        View() == f' && out == if rolled.Updated? && !ended.Done? then Unrecorded else rolled
    {
      var ids := if nodes.Some? && nodes.value != [] then nodes.value else alive;
      if !started.Done? { return NotStarted; }
      out := RollOut(ids, 0, fw, es, t);
      if out.Updated? && !ended.Done? { out := Unrecorded; }
    }

    /** Without an ALIVE node nothing happens, not even an audit record. */
    method StartCanaryUpdate(fw: string, alive: seq<Id>, started: Call, es: seq<Env>, watch: Env, t: Timing,
                             ended: Call)
      returns (out: Outcome)
      requires t.poll > 0.0 && |alive| <= |es|
      modifies this
      ensures alive == [] ==> View() == old(View()) && out == Updated
      ensures alive != [] && !started.Done? ==> View() == old(View()) && out == NotStarted
      ensures alive != [] && started.Done? ==>
        var (f', rolled) := Canary(old(View()), alive, fw, es, watch, t);
        View() == f' && out == if rolled.Updated? && !ended.Done? then Unrecorded else rolled
    {
      if alive == [] { return Updated; }
      if !started.Done? { return NotStarted; }
      var r := TryNode(alive[0], fw, es[0], t);
      if !r.Pass? { return Stopped(0, r); }
      var healthy := WaitForHealth(watch.polls, t);
      if !healthy {
        var ok := RollbackNode(alive[0], watch.del);
        return Stopped(0, if ok then Unhealthy else Error);
      }
      log := log + [Passed(alive[0])];
      out := RollOut(alive, 1, fw, es, t);
      if out.Updated? && !ended.Done? { out := Unrecorded; }
    }
  }

  ghost function PollsLeft(left: real, poll: real): int
    requires poll > 0.0
  {
    (left / poll).Floor
  }

  lemma PollsRunOut(left: real, poll: real)
    requires poll > 0.0 && left > 0.0
    ensures PollsLeft(left - poll, poll) < PollsLeft(left, poll) && PollsLeft(left, poll) >= 0
  {
    var q := left / poll;
    assert q * poll == left && q > 0.0;
    assert (q - 1.0) * poll == left - poll;
    QuotientUnique(q - 1.0, left - poll, poll);
  }

  lemma QuotientUnique(q: real, x: real, y: real)
    requires y > 0.0 && q * y == x
    ensures x / y == q
  {
    var d := x / y;
    assert d * y == x;
    assert (d - q) * y == 0.0;
  }

  lemma LaterPoll(k: nat, i: nat, poll: real)
    requires poll > 0.0
    ensures k <= i ==> Elapsed(k, poll) <= Elapsed(i, poll)
  {
  }

  lemma NextPoll(k: nat, poll: real)
    ensures Elapsed(k, poll) + poll == Elapsed(k + 1, poll)
  {
  }

  lemma TooLate(polls: seq<bool>, t: Timing, k: nat)
    requires t.poll > 0.0 && Elapsed(k, t.poll) >= t.timeout
    requires forall i :: 0 <= i < k && i < |polls| ==> !polls[i]
    ensures !Healthy(polls, t)
  {
    forall i | 0 <= i < |polls| && polls[i] ensures Elapsed(i, t.poll) >= t.timeout {
      LaterPoll(k, i, t.poll);
    }
  }

  // ------------------------------------------------------------------ theorems

  /** With the default timing (60 seconds, every 2) exactly the first 30 polls count. */
  lemma DefaultPolls(polls: seq<bool>)
    ensures Healthy(polls, Timing(60.0, 2.0)) <==> exists k :: 0 <= k < |polls| && k < 30 && polls[k]
  {
    if k :| 0 <= k < |polls| && k < 30 && polls[k] { assert Elapsed(k, 2.0) < 60.0; }
  }

  ghost predicate Distinct(ids: seq<Id>) { forall i, j :: 0 <= i < j < |ids| ==> ids[i] != ids[j] }

  ghost predicate Carries(f: Fleet, id: Id, fw: string) {
    id in f.pending && f.pending[id] == fw && id in f.targets && f.targets[id] == fw
  }

  ghost predicate Bare(f: Fleet, id: Id) { id !in f.pending && id !in f.targets }

  ghost predicate SameMarks(f: Fleet, g: Fleet, id: Id) {
    && (id in f.pending <==> id in g.pending) && (id in f.pending ==> f.pending[id] == g.pending[id])
    && (id in f.targets <==> id in g.targets) && (id in f.targets ==> f.targets[id] == g.targets[id])
  }

  ghost predicate SameTarget(f: Fleet, g: Fleet, id: Id) {
    (id in f.targets <==> id in g.targets) && (id in f.targets ==> f.targets[id] == g.targets[id])
  }

  /** How an attempt that did not pass leaves its node, by what became of its SET and of a DELETE after it. */
  ghost predicate Abandoned(f: Fleet, f': Fleet, id: Id, fw: string, e: Env, t: Timing) {
    match e.put
    case Failed(_) => id in f'.pending && f'.pending[id] == fw && SameTarget(f, f', id)
    case Lost(_) => Carries(f', id, fw)
    case Done =>
      && !Healthy(e.polls, t) && id !in f'.pending
      && (if e.del.Failed? then id in f'.targets && f'.targets[id] == fw else id !in f'.targets)
  }

  lemma AttemptMarks(f: Fleet, id: Id, fw: string, e: Env, t: Timing, other: Id)
    ensures var (f', r) := Attempt(f, id, fw, e, t);
      && (other != id ==> SameMarks(f, f', other))
      && (r.Pass? ==> Carries(f', id, fw) && Healthy(e.polls, t))
      && (r.Unhealthy? ==> Bare(f', id) && !Healthy(e.polls, t))
      && (!r.Pass? ==> Abandoned(f, f', id, fw, e, t))
      && (r.Unhealthy? <==> e.put.Done? && !Healthy(e.polls, t) && e.del.Done?)
  {
  }

  /** How a rollout that ended with `out` left node i. */
  ghost predicate PrefixShape(f: Fleet, f': Fleet, ids: seq<Id>, k: nat, out: Outcome, fw: string, es: seq<Env>,
                              t: Timing, i: nat)
    requires i < |ids| <= |es|
  {
    var stop := if out.Stopped? then out.at else |ids|;
    && (k <= i < stop ==> Carries(f', ids[i], fw) && Healthy(es[i].polls, t))
    && (i == stop && out.Stopped? && out.why.Unhealthy? ==> Bare(f', ids[i]) && !Healthy(es[i].polls, t))
    && (i == stop && out.Stopped? ==> Abandoned(f, f', ids[i], fw, es[i], t))
    && (stop < i || i < k ==> SameMarks(f, f', ids[i]))
  }

  /**
   * Prefix safety: nodes before the stopping point carry the firmware and passed their health
   * check, an unhealthy node carries neither mark, a node whose Redis command failed carries
   * exactly the marks that command left, and every other node is as it was.
   */
  lemma {:induction false} RollPrefix(f: Fleet, ids: seq<Id>, k: nat, fw: string, es: seq<Env>, t: Timing)
    requires k <= |ids| <= |es| && Distinct(ids)
    ensures var (f', out) := Roll(f, ids, k, fw, es, t);
      && (out.Updated? || out.Stopped?) && (out.Stopped? ==> k <= out.at < |ids| && !out.why.Pass?)
      && (forall i :: 0 <= i < |ids| ==> PrefixShape(f, f', ids, k, out, fw, es, t, i))
      && (forall id :: id !in ids ==> SameMarks(f, f', id))
    decreases |ids| - k
  {
    if k < |ids| {
      var (f1, r) := Attempt(f, ids[k], fw, es[k], t);
      var (f', out) := Roll(f, ids, k, fw, es, t);
      if r.Pass? { RollPrefix(f1, ids, k + 1, fw, es, t); }
      forall i | 0 <= i < |ids| ensures PrefixShape(f, f', ids, k, out, fw, es, t, i) {
        AttemptMarks(f, ids[k], fw, es[k], t, ids[i]);
        if r.Pass? { assert PrefixShape(f1, f', ids, k + 1, out, fw, es, t, i); }
      }
      forall id | id !in ids ensures SameMarks(f, f', id) {
        AttemptMarks(f, ids[k], fw, es[k], t, id);
      }
    }
  }

  /** The node's SET is answered and its health check passes. */
  ghost predicate Passes(e: Env, t: Timing) { e.put.Done? && Healthy(e.polls, t) }

  /** `at` is where the rollout of nodes k onwards must end: at its first node that does not pass. */
  ghost predicate EndsAt(es: seq<Env>, t: Timing, k: nat, n: nat, out: Outcome)
    requires k <= n <= |es|
  {
    if out.Stopped? then
      && k <= out.at < n && (forall i :: k <= i < out.at ==> Passes(es[i], t)) && !Passes(es[out.at], t)
      && out.why == if es[out.at].put.Done? && es[out.at].del.Done? then Unhealthy else Error
    else
      out.Updated? && forall i :: k <= i < n ==> Passes(es[i], t)
  }

  /** Progress: a rollout updates node after node until the first that does not pass, and all of them if all pass. */
  lemma {:induction false} RollEnds(f: Fleet, ids: seq<Id>, k: nat, fw: string, es: seq<Env>, t: Timing)
    requires k <= |ids| <= |es|
    ensures EndsAt(es, t, k, |ids|, Roll(f, ids, k, fw, es, t).1)
    decreases |ids| - k
  {
    if k < |ids| {
      var (f1, r) := Attempt(f, ids[k], fw, es[k], t);
      if r.Pass? { RollEnds(f1, ids, k + 1, fw, es, t); }
    }
  }

  /** The canary and its watch as one environment: what decides whether the canary keeps the firmware. */
  function Watched(e: Env, watch: Env): Env { e.(polls := watch.polls, del := watch.del) }

  /**
   * The canary rollout in full. All nodes are updated exactly if every SET is answered and every check passes, the
   * canary's twice. Otherwise it ends at the first failure: nodes before it carry the firmware, that node carries
   * exactly the marks its failed command left, and all others are as before.
   */
  lemma CanaryExactly(f: Fleet, ids: seq<Id>, fw: string, es: seq<Env>, watch: Env, t: Timing)
    requires 0 < |ids| <= |es| && Distinct(ids)
    ensures var (f', out) := Canary(f, ids, fw, es, watch, t);
      && (out.Updated? <==> Healthy(watch.polls, t) && forall i :: 0 <= i < |ids| ==> Passes(es[i], t))
      && (!Passes(es[0], t) ==> EndsAt(es, t, 0, |ids|, out) && Abandoned(f, f', ids[0], fw, es[0], t))
      && (Passes(es[0], t) && !Healthy(watch.polls, t) ==>
           && out == Stopped(0, if watch.del.Done? then Unhealthy else Error)
           && Abandoned(f, f', ids[0], fw, Watched(es[0], watch), t))
      && (Passes(es[0], t) && Healthy(watch.polls, t) ==>
           EndsAt(es, t, 0, |ids|, out) && forall i :: 0 <= i < |ids| ==> PrefixShape(f, f', ids, 0, out, fw, es, t, i))
      && (forall id :: id !in ids || (id != ids[0] && out.Stopped? && out.at == 0) ==> SameMarks(f, f', id))
  {
    var (f', out) := Canary(f, ids, fw, es, watch, t);
    var (f1, r) := Attempt(f, ids[0], fw, es[0], t);
    AttemptMarks(f, ids[0], fw, es[0], t, ids[0]);
    forall id | id != ids[0] ensures SameMarks(f, f1, id) { AttemptMarks(f, ids[0], fw, es[0], t, id); }
    if Passes(es[0], t) && Healthy(watch.polls, t) {
      CanaryRolls(f, ids, fw, es, watch, t);
    }
  }

  lemma CanaryRolls(f: Fleet, ids: seq<Id>, fw: string, es: seq<Env>, watch: Env, t: Timing)
    requires 0 < |ids| <= |es| && Distinct(ids) && Passes(es[0], t) && Healthy(watch.polls, t)
    ensures var (f', out) := Canary(f, ids, fw, es, watch, t);
      && EndsAt(es, t, 0, |ids|, out) && EndsAt(es, t, 1, |ids|, out)
      && (forall i :: 0 <= i < |ids| ==> PrefixShape(f, f', ids, 0, out, fw, es, t, i))
      && (forall id :: id !in ids ==> SameMarks(f, f', id))
  {
    var (f', out) := Canary(f, ids, fw, es, watch, t);
    var (f1, r) := Attempt(f, ids[0], fw, es[0], t);
    var f2 := f1.(log := f1.log + [Passed(ids[0])]);
    AttemptMarks(f, ids[0], fw, es[0], t, ids[0]);
    RollEnds(f2, ids, 1, fw, es, t);
    RollPrefix(f2, ids, 1, fw, es, t);
    forall i | 0 <= i < |ids| ensures PrefixShape(f, f', ids, 0, out, fw, es, t, i) {
      AttemptMarks(f, ids[0], fw, es[0], t, ids[i]);
      assert PrefixShape(f2, f', ids, 1, out, fw, es, t, i);
    }
    forall id | id !in ids ensures SameMarks(f, f', id) { AttemptMarks(f, ids[0], fw, es[0], t, id); }
  }

  /** The rollout came as far as node i. */
  predicate Reached(out: Outcome, i: nat) { out.Updated? || (out.Stopped? && i <= out.at) }

  /** Every node up to the stopping point is touched, and every one before it is seen to pass. */
  lemma {:induction false} RollLogs(f: Fleet, ids: seq<Id>, k: nat, fw: string, es: seq<Env>, t: Timing, i: nat)
    requires k <= i < |ids| <= |es|
    ensures var (f', out) := Roll(f, ids, k, fw, es, t);
      && (forall a :: a in f.log ==> a in f'.log)
      && (Reached(out, i) ==> Touch(ids[i]) in f'.log)
      && (Reached(out, i) && !(out.Stopped? && out.at == i) ==> Passed(ids[i]) in f'.log)
    decreases |ids| - k
  {
    var (f1, r) := Attempt(f, ids[k], fw, es[k], t);
    assert Touch(ids[k]) in f1.log by { assert f1.log[|f.log|] == Touch(ids[k]); }
    assert forall a :: a in f.log ==> a in f1.log;
    RollEnds(f, ids, k, fw, es, t);
    if r.Pass? {
      assert f1.log[|f.log| + 1] == Passed(ids[k]);
      if k + 1 < |ids| { RollLogs(f1, ids, k + 1, fw, es, t, if i > k then i else k + 1); }
    }
  }

  /** Whenever a node of the list is touched, all nodes before it in the list have passed already. */
  ghost predicate TouchedInOrder(log: seq<Act>, ids: seq<Id>) {
    forall p, i, j :: 0 <= p < |log| && 0 <= i < j < |ids| && log[p] == Touch(ids[j]) ==> Passed(ids[i]) in log[..p]
  }

  ghost predicate AllPassed(log: seq<Act>, ids: seq<Id>, k: nat)
    requires k <= |ids|
  {
    forall i :: 0 <= i < k ==> Passed(ids[i]) in log
  }

  lemma Extend(log: seq<Act>, a: Act, ids: seq<Id>, k: nat)
    requires Distinct(ids) && k < |ids| && TouchedInOrder(log, ids) && AllPassed(log, ids, k)
    requires a == Touch(ids[k]) || a == Passed(ids[k])
    ensures TouchedInOrder(log + [a], ids) && AllPassed(log + [a], ids, k)
    ensures a.Passed? ==> AllPassed(log + [a], ids, k + 1)
  {
    var log' := log + [a];
    forall p, i, j | 0 <= p < |log'| && 0 <= i < j < |ids| && log'[p] == Touch(ids[j])
      ensures Passed(ids[i]) in log'[..p] {
      if p < |log| { assert log'[..p] == log[..p]; } else { assert log'[..p] == log && j == k; }
    }
    assert forall x :: x in log ==> x in log';
    assert a in log' by { assert log'[|log|] == a; }
  }

  lemma {:induction false} OrderKept(f: Fleet, ids: seq<Id>, k: nat, fw: string, es: seq<Env>, t: Timing)
    requires k <= |ids| <= |es| && Distinct(ids) && TouchedInOrder(f.log, ids) && AllPassed(f.log, ids, k)
    ensures TouchedInOrder(Roll(f, ids, k, fw, es, t).0.log, ids)
    decreases |ids| - k
  {
    if k < |ids| {
      var (f1, r) := Attempt(f, ids[k], fw, es[k], t);
      Extend(f.log, Touch(ids[k]), ids, k);
      if r.Pass? {
        Extend(f.log + [Touch(ids[k])], Passed(ids[k]), ids, k);
        OrderKept(f1, ids, k + 1, fw, es, t);
      }
    }
  }

  /** The fleet as if it had the history p before its own. */
  ghost function Since(p: seq<Act>, f: Fleet): Fleet { f.(log := p + f.log) }

  lemma AttemptSince(p: seq<Act>, f: Fleet, id: Id, fw: string, e: Env, t: Timing)
    ensures Attempt(Since(p, f), id, fw, e, t) == (Since(p, Attempt(f, id, fw, e, t).0), Attempt(f, id, fw, e, t).1)
  {
    assert p + f.log + [Touch(id)] == p + (f.log + [Touch(id)]);
    assert p + f.log + [Touch(id)] + [Passed(id)] == p + (f.log + [Touch(id)] + [Passed(id)]);
  }

  /** A rollout only appends to the history, and does not depend on it. */
  lemma {:induction false} RollSince(p: seq<Act>, f: Fleet, ids: seq<Id>, k: nat, fw: string, es: seq<Env>, t: Timing)
    requires k <= |ids| <= |es|
    ensures var (g, out) := Roll(f, ids, k, fw, es, t);
      Roll(Since(p, f), ids, k, fw, es, t) == (Since(p, g), out)
    decreases |ids| - k
  {
    if k < |ids| {
      AttemptSince(p, f, ids[k], fw, es[k], t);
      var (f1, r) := Attempt(f, ids[k], fw, es[k], t);
      if r.Pass? { RollSince(p, f1, ids, k + 1, fw, es, t); }
    }
  }

  lemma CanarySince(p: seq<Act>, f: Fleet, ids: seq<Id>, fw: string, es: seq<Env>, watch: Env, t: Timing)
    requires 0 < |ids| <= |es|
    ensures var (g, out) := Canary(f, ids, fw, es, watch, t);
      Canary(Since(p, f), ids, fw, es, watch, t) == (Since(p, g), out)
  {
    AttemptSince(p, f, ids[0], fw, es[0], t);
    var (f1, r) := Attempt(f, ids[0], fw, es[0], t);
    assert p + f1.log + [Passed(ids[0])] == p + (f1.log + [Passed(ids[0])]);
    RollSince(p, f1.(log := f1.log + [Passed(ids[0])]), ids, 1, fw, es, t);
  }

  /**
   * On a coordinator with any history, a rollout touches no node before every earlier node of its list has passed
   * its health check in this very rollout, whatever Redis and the nodes do; and it touches every node it reaches.
   */
  lemma RollTouches(f: Fleet, ids: seq<Id>, fw: string, es: seq<Env>, t: Timing)
    requires |ids| <= |es| && Distinct(ids)
    ensures var log' := Roll(f, ids, 0, fw, es, t).0.log;
      && f.log <= log' && TouchedInOrder(log'[|f.log|..], ids)
      && forall i :: 0 <= i < |ids| && Reached(Roll(f, ids, 0, fw, es, t).1, i) ==> Touch(ids[i]) in log'[|f.log|..]
  {
    var f0 := f.(log := []);
    OrderKept(f0, ids, 0, fw, es, t);
    forall i | 0 <= i < |ids| && Reached(Roll(f0, ids, 0, fw, es, t).1, i)
      ensures Touch(ids[i]) in Roll(f0, ids, 0, fw, es, t).0.log
    {
      RollLogs(f0, ids, 0, fw, es, t, i);
    }
    RollSince(f.log, f0, ids, 0, fw, es, t);
    assert Since(f.log, f0) == f;
  }

  lemma FreshCanaryOrder(f: Fleet, ids: seq<Id>, fw: string, es: seq<Env>, watch: Env, t: Timing)
    requires 0 < |ids| <= |es| && Distinct(ids) && f.log == []
    ensures TouchedInOrder(Canary(f, ids, fw, es, watch, t).0.log, ids)
  {
    var (f1, r) := Attempt(f, ids[0], fw, es[0], t);
    Extend([], Touch(ids[0]), ids, 0);
    if r.Pass? && Healthy(watch.polls, t) {
      Extend([Touch(ids[0])], Passed(ids[0]), ids, 0);
      Extend(f1.log, Passed(ids[0]), ids, 0);
      OrderKept(f1.(log := f1.log + [Passed(ids[0])]), ids, 1, fw, es, t);
    } else if r.Pass? {
      Extend([Touch(ids[0])], Passed(ids[0]), ids, 0);
    }
  }

  lemma FreshCanaryMarks(f: Fleet, ids: seq<Id>, fw: string, es: seq<Env>, watch: Env, t: Timing, id: Id)
    requires 0 < |ids| <= |es| && Distinct(ids) && f.log == []
    ensures var (f', out) := Canary(f, ids, fw, es, watch, t);
      && (id != ids[0] && (!SameMarks(f, f', id) || Touch(id) in f'.log) ==>
           id in ids && es[0].put.Done? && Healthy(es[0].polls, t) && Healthy(watch.polls, t))
      && (out == Stopped(0, Unhealthy) ==> Bare(f', ids[0]))
  {
    var (f1, r) := Attempt(f, ids[0], fw, es[0], t);
    AttemptMarks(f, ids[0], fw, es[0], t, id);
    if r.Pass? && Healthy(watch.polls, t) {
      var f2 := f1.(log := f1.log + [Passed(ids[0])]);
      RollPrefix(f2, ids, 1, fw, es, t);
      TouchesListed(f2, ids, 1, fw, es, t, id);
    }
  }

  /**
   * Canary safety, with any history: any change to another node means the canary passed both of its checks; touches
   * stay in order; and a canary that failed a check and was rolled back carries no mark.
   */
  lemma CanaryGuards(f: Fleet, ids: seq<Id>, fw: string, es: seq<Env>, watch: Env, t: Timing, id: Id)
    requires 0 < |ids| <= |es| && Distinct(ids)
    ensures var (f', out) := Canary(f, ids, fw, es, watch, t);
      && f.log <= f'.log && TouchedInOrder(f'.log[|f.log|..], ids)
      && (id != ids[0] && (!SameMarks(f, f', id) || Touch(id) in f'.log[|f.log|..]) ==>
           id in ids && es[0].put.Done? && Healthy(es[0].polls, t) && Healthy(watch.polls, t))
      && (out == Stopped(0, Unhealthy) ==> Bare(f', ids[0]))
  {
    var f0 := f.(log := []);
    FreshCanaryOrder(f0, ids, fw, es, watch, t);
    FreshCanaryMarks(f0, ids, fw, es, watch, t, id);
    CanarySince(f.log, f0, ids, fw, es, watch, t);
    assert Since(f.log, f0) == f;
  }

  /** Only nodes of the list are ever touched. */
  lemma {:induction false} TouchesListed(f: Fleet, ids: seq<Id>, k: nat, fw: string, es: seq<Env>, t: Timing, id: Id)
    requires k <= |ids| <= |es| && (Touch(id) in f.log ==> id in ids)
    ensures Touch(id) in Roll(f, ids, k, fw, es, t).0.log ==> id in ids
    decreases |ids| - k
  {
    if k < |ids| {
      var (f1, r) := Attempt(f, ids[k], fw, es[k], t);
      if r.Pass? { TouchesListed(f1, ids, k + 1, fw, es, t, id); }
    }
  }
}

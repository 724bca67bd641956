/**
 * Cluster membership: node objects shared by reference, the status machine driven by RPCs,
 * gossip and timeouts, and the failure detector's guarantees over timed runs.
 */
module Membership {
  import opened Common

  datatype Id = Id(name: string)

  datatype Status = Joining | Alive | Suspect | Dead | Leaving

  datatype Info = Info(status: Status, lastHeartbeat: real, isLeader: bool)

  type View = map<Id, Info>

  // ------------------------------------------------ transitions on the abstract view

  function Refreshed(i: Info, now: real): Info {
    i.(lastHeartbeat := now, status := if i.status.Joining? || i.status.Suspect? then Alive else i.status)
  }

  function Suspected(i: Info): Info {
    if i.status.Dead? || i.status.Leaving? then i else i.(status := Suspect)
  }

  function Killed(i: Info): Info { i.(status := Dead, isLeader := false) }

  function TimedOut(i: Info, now: real, timeout: real): Info {
    if i.status.Dead? || i.status.Leaving? then i
    else if now - i.lastHeartbeat > timeout * 2.0 then Killed(i)
    else if now - i.lastHeartbeat > timeout then Suspected(i)
    else i
  }

  function OnSignal(v: View, id: Id, now: real): View { if id in v then v[id := Refreshed(v[id], now)] else v }

  function OnHeartbeat(v: View, id: Id, now: real): View {
    if id in v then OnSignal(v, id, now) else OnJoin(v, id, now)
  }

  function OnJoin(v: View, id: Id, now: real): View { v[id := Info(Alive, now, false)] }

  function OnLeave(v: View, id: Id): View { if id in v then v[id := v[id].(status := Leaving)] else v }

  function OnMiss(v: View, id: Id): View { if id in v then v[id := Suspected(v[id])] else v }

  function OnCheck(v: View, local: Id, now: real, timeout: real): View {
    map id | id in v :: if id == local then v[id] else TimedOut(v[id], now, timeout)
  }

  function CheckedOne(v: View, local: Id, id: Id, now: real, timeout: real): View
    requires id in v
  {
    if id == local then v else v[id := TimedOut(v[id], now, timeout)]
  }

  /** The check after all nodes but those in `todo` have been visited. */
  ghost function CheckedExcept(v: View, local: Id, todo: set<Id>, now: real, timeout: real): View {
    map id | id in v :: if id == local || id in todo then v[id] else TimedOut(v[id], now, timeout)
  }

  lemma CheckedNext(v: View, local: Id, todo: set<Id>, id: Id, now: real, timeout: real)
    requires id in todo && id in v
    ensures CheckedOne(CheckedExcept(v, local, todo, now, timeout), local, id, now, timeout)
         == CheckedExcept(v, local, todo - {id}, now, timeout)
  {
  }

  // ------------------------------------------------------- the imperative state

  class ClusterNode {
    const id: Id
    var status: Status
    var lastHeartbeat: real
    var isLeader: bool

    constructor (id: Id, status: Status, now: real)
      ensures this.id == id && this.status == status && lastHeartbeat == now && !isLeader
    {
      this.id, this.status, lastHeartbeat, isLeader := id, status, now, false;
    }

    function Describe(): Info
      reads this
    {
      Info(status, lastHeartbeat, isLeader)
    }
  }

  class ClusterState {
    const localId: Id
    var nodes: map<Id, ClusterNode>
    var clusterVersion: nat

    /** Every node object is filed under its own id, so distinct keys are distinct objects. */
    ghost predicate Valid()
      reads this, nodes.Values
    {
      forall id :: id in nodes ==> nodes[id].id == id
    }

    ghost function Abstract(): View
      reads this, nodes.Values
    {
      map id | id in nodes :: nodes[id].Describe()
    }

    /** Starts with the local node registered, as the service does. */
    constructor (localId: Id, now: real)
      ensures Valid() && this.localId == localId && Abstract() == map[localId := Info(Alive, now, false)]
      ensures fresh(nodes.Values)
    {
      this.localId, clusterVersion := localId, 1;
      var n := new ClusterNode(localId, Alive, now);
      nodes := map[localId := n];
    }

    method AddNode(node: ClusterNode)
      requires Valid()
      modifies this
      ensures Valid() && nodes == old(nodes)[node.id := node] && clusterVersion == old(clusterVersion) + 1
      ensures Abstract() == old(Abstract())[node.id := node.Describe()]
    {
      nodes := nodes[node.id := node];
      clusterVersion := clusterVersion + 1;
    }

    method UpdateNodeHeartbeat(id: Id, now: real)
      requires Valid()
      modifies nodes.Values
      ensures Valid() && Abstract() == OnSignal(old(Abstract()), id, now)
    {
      if id in nodes {
        var node := nodes[id];
        node.lastHeartbeat := now;
        if node.status.Joining? || node.status.Suspect? { node.status := Alive; }
      }
    }

    method MarkSuspect(id: Id)
      requires Valid()
      modifies this`clusterVersion, nodes.Values
      ensures Valid() && Abstract() == OnMiss(old(Abstract()), id)
      ensures clusterVersion == old(clusterVersion)
        + if id in nodes && !old(nodes[id].status).Dead? && !old(nodes[id].status).Leaving? then 1 else 0
    {
      if id in nodes {
        var node := nodes[id];
        if !node.status.Dead? && !node.status.Leaving? {
          node.status := Suspect;
          clusterVersion := clusterVersion + 1;
        }
      }
    }

    method MarkDead(id: Id)
      requires Valid()
      modifies this`clusterVersion, nodes.Values
      ensures Valid()
      ensures Abstract() == if id in old(Abstract())
        then old(Abstract())[id := Killed(old(Abstract())[id])] else old(Abstract())
      ensures clusterVersion == old(clusterVersion) + if id in nodes then 1 else 0
    {
      if id in nodes {
        nodes[id].status := Dead;
        nodes[id].isLeader := false;
        clusterVersion := clusterVersion + 1;
      }
    }

    method MarkLeaving(id: Id)
      requires Valid()
      modifies this`clusterVersion, nodes.Values
      ensures Valid() && Abstract() == OnLeave(old(Abstract()), id)
      ensures clusterVersion == old(clusterVersion) + if id in nodes then 1 else 0
    {
      if id in nodes {
        nodes[id].status := Leaving;
        clusterVersion := clusterVersion + 1;
      }
    }

    /** The timeout rules for one node. */
    method CheckNode(id: Id, now: real, timeout: real)
      requires Valid() && id in nodes
      modifies this`clusterVersion, nodes.Values
      ensures Valid() && Abstract() == CheckedOne(old(Abstract()), localId, id, now, timeout)
    {
      var node := nodes[id];
      if id == localId { return; }
      if node.status.Dead? || node.status.Leaving? { return; }
      var elapsed := now - node.lastHeartbeat;
      if elapsed > timeout * 2.0 {
        MarkDead(id);
      } else if elapsed > timeout {
        if !node.status.Suspect? { MarkSuspect(id); }
      }
    }

    /** `HeartbeatService._check_timeouts`: one pass over a snapshot of the nodes, in any order. */
    method CheckTimeouts(now: real, timeout: real)
      requires Valid()
      modifies this`clusterVersion, nodes.Values
      ensures Valid() && Abstract() == OnCheck(old(Abstract()), localId, now, timeout)
    {
      var todo := nodes.Keys;
      assert Abstract().Keys == todo;
      while todo != {}
        invariant Valid() && todo <= nodes.Keys
        invariant Abstract() == CheckedExcept(old(Abstract()), localId, todo, now, timeout)
        decreases |todo|
      {
        var id :| id in todo;
        CheckedNext(old(Abstract()), localId, todo, id, now, timeout);
        CheckNode(id, now, timeout);
        todo := todo - {id};
      }
    }

    /**
     * The Heartbeat RPC. `existing` is the very object that UpdateNodeHeartbeat mutates, so the
     * test for SUSPECT or JOINING that follows it in the service can never succeed.
     */
    method Heartbeat(id: Id, now: real)
      requires Valid()
      modifies this, nodes.Values
      ensures Valid() && Abstract() == OnHeartbeat(old(Abstract()), id, now)
      ensures clusterVersion == old(clusterVersion) + if id in old(nodes) then 0 else 1
      ensures fresh(nodes.Values - old(nodes.Values))
    {
      if id !in nodes {
        var node := new ClusterNode(id, Alive, now);
        AddNode(node);
      } else {
        var existing := nodes[id];
        UpdateNodeHeartbeat(id, now);
        assert existing.Describe() == Abstract()[id];
        assert !existing.status.Suspect? && !existing.status.Joining?;
      }
    }

    method JoinCluster(id: Id, now: real)
      requires Valid()
      modifies this
      ensures Valid() && Abstract() == OnJoin(old(Abstract()), id, now)
      ensures fresh(nodes.Values - old(nodes.Values))
    {
      var node := new ClusterNode(id, Alive, now);
      AddNode(node);
    }

    method LeaveCluster(id: Id) returns (ack: bool)
      requires Valid()
      modifies this`clusterVersion, nodes.Values
      ensures Valid() && Abstract() == OnLeave(old(Abstract()), id) && (ack <==> id in nodes)
    {
      ack := id in nodes;
      if ack { MarkLeaving(id); }
    }

    /** Any event of a timed run, dispatched to the service method that handles it. */
    method Handle(s: Setup, t: Timed)
      requires Valid() && s.local == localId
      modifies this, nodes.Values
      ensures Valid() && Abstract() == Apply(s, old(Abstract()), t)
      ensures fresh(nodes.Values - old(nodes.Values))
    {
      match t.ev {
        case Join(id) => JoinCluster(id, t.at);
        case Heard(id) => Heartbeat(id, t.at);
        case Ping(id) => UpdateNodeHeartbeat(id, t.at);
        case Leave(id) => var ack := LeaveCluster(id);
        case Miss(id) => if id != localId { MarkSuspect(id); }
        case Check => CheckTimeouts(t.at, s.timeout);
      }
    }
  }

  /** A whole run on one cluster state. */
  method Serve(s: Setup, tr: seq<Timed>) returns (c: ClusterState)
    ensures c.Valid() && c.Abstract() == Run(s, tr)
  {
    c := new ClusterState(s.local, s.start);
    for i := 0 to |tr|
      invariant c.Valid() && c.localId == s.local && fresh(c) && fresh(c.nodes.Values)
      invariant c.Abstract() == Run(s, tr[..i])
    {
      assert tr[..i + 1][..i] == tr[..i];
      c.Handle(s, tr[i]);
    }
    assert tr[..|tr|] == tr;
  }

  // ---------------------------------------------------------------- timed runs

  /** A missed gossip ping names a peer: the local node is never probed. */
  datatype Event = Join(id: Id) | Heard(id: Id) | Ping(id: Id) | Leave(id: Id) | Miss(id: Id) | Check

  datatype Timed = Timed(at: real, ev: Event)

  datatype Setup = Setup(local: Id, start: real, timeout: real)

  ghost function Apply(s: Setup, v: View, t: Timed): View {
    match t.ev
    case Join(id) => OnJoin(v, id, t.at)
    case Heard(id) => OnHeartbeat(v, id, t.at)
    case Ping(id) => OnSignal(v, id, t.at)
    case Leave(id) => OnLeave(v, id)
    case Miss(id) => if id == s.local then v else OnMiss(v, id)
    case Check => OnCheck(v, s.local, t.at, s.timeout)
  }

  ghost function Run(s: Setup, tr: seq<Timed>): View {
    if tr == [] then map[s.local := Info(Alive, s.start, false)] else Apply(s, Run(s, tr[..|tr| - 1]), tr[|tr| - 1])
  }

  /** Time runs forward. */
  ghost predicate Monotone(s: Setup, tr: seq<Timed>) {
    && (forall i :: 0 <= i < |tr| ==> s.start <= tr[i].at)
    && (forall i, j :: 0 <= i < j < |tr| ==> tr[i].at <= tr[j].at)
  }

  /** The latest signal of a node, read off the trace alone; a ping from an unknown node is no signal. */
  ghost function LastSignal(s: Setup, tr: seq<Timed>, id: Id): Option<real> {
    if tr == [] then (if id == s.local then Some(s.start) else None)
    else
      var before, t := LastSignal(s, tr[..|tr| - 1], id), tr[|tr| - 1];
      if t.ev == Join(id) || t.ev == Heard(id) || (t.ev == Ping(id) && before.Some?) then Some(t.at) else before
  }

  /** The state's timestamp is the trace's latest signal. */
  lemma {:induction false} HeartbeatIsLastSignal(s: Setup, tr: seq<Timed>, id: Id)
    ensures id in Run(s, tr) <==> LastSignal(s, tr, id).Some?
    ensures id in Run(s, tr) ==> Run(s, tr)[id].lastHeartbeat == LastSignal(s, tr, id).value
  {
    if tr != [] { HeartbeatIsLastSignal(s, tr[..|tr| - 1], id); }
  }

  ghost predicate Has(v: View, id: Id, st: Status) { id in v && v[id].status == st }

  // ------------------------------------------------------------ status machine

  /** How one event may change a status. */
  lemma StepStatus(s: Setup, v: View, t: Timed, id: Id)
    requires id in v
    ensures id in Apply(s, v, t)
    ensures Has(v, id, Dead) && t.ev != Join(id) && t.ev != Leave(id) ==> Has(Apply(s, v, t), id, Dead)
    ensures Has(v, id, Leaving) && t.ev != Join(id) ==> Has(Apply(s, v, t), id, Leaving)
    ensures Has(v, s.local, Alive) && t.ev != Leave(s.local) ==> Has(Apply(s, v, t), s.local, Alive)
    ensures !Has(v, id, Dead) && Has(Apply(s, v, t), id, Dead) ==>
      t.ev == Check && id != s.local && t.at - v[id].lastHeartbeat > s.timeout * 2.0
  {
  }

  lemma {:induction false} DeadUntilJoinOrLeave(s: Setup, tr: seq<Timed>, i: nat, id: Id)
    requires i <= |tr| && Has(Run(s, tr[..i]), id, Dead)
    requires forall k :: i <= k < |tr| ==> tr[k].ev != Join(id) && tr[k].ev != Leave(id)
    ensures Has(Run(s, tr), id, Dead)
    decreases |tr|
  {
    if i < |tr| {
      assert tr[..|tr| - 1][..i] == tr[..i];
      DeadUntilJoinOrLeave(s, tr[..|tr| - 1], i, id);
      StepStatus(s, Run(s, tr[..|tr| - 1]), tr[|tr| - 1], id);
    } else {
      assert tr[..i] == tr;
    }
  }

  lemma {:induction false} LeavingUntilJoin(s: Setup, tr: seq<Timed>, i: nat, id: Id)
    requires i <= |tr| && Has(Run(s, tr[..i]), id, Leaving)
    requires forall k :: i <= k < |tr| ==> tr[k].ev != Join(id)
    ensures Has(Run(s, tr), id, Leaving)
    decreases |tr|
  {
    if i < |tr| {
      assert tr[..|tr| - 1][..i] == tr[..i];
      LeavingUntilJoin(s, tr[..|tr| - 1], i, id);
      StepStatus(s, Run(s, tr[..|tr| - 1]), tr[|tr| - 1], id);
    } else {
      assert tr[..i] == tr;
    }
  }

  lemma {:induction false} LocalStaysAlive(s: Setup, tr: seq<Timed>)
    requires forall k :: 0 <= k < |tr| ==> tr[k].ev != Leave(s.local)
    ensures Has(Run(s, tr), s.local, Alive)
  {
    if tr != [] {
      LocalStaysAlive(s, tr[..|tr| - 1]);
      StepStatus(s, Run(s, tr[..|tr| - 1]), tr[|tr| - 1], s.local);
    }
  }

  // --------------------------------------------------------- failure detection

  /** Event k is a signal of a known node. */
  ghost predicate Signals(s: Setup, tr: seq<Timed>, k: int, id: Id)
    requires 0 <= k < |tr|
  {
    tr[k].ev == Join(id) || tr[k].ev == Heard(id) || (tr[k].ev == Ping(id) && LastSignal(s, tr[..k], id).Some?)
  }

  /** No signal is later than the last one. */
  lemma {:induction false} LastSignalIsLatest(s: Setup, tr: seq<Timed>, id: Id, k: int)
    requires Monotone(s, tr) && 0 <= k < |tr| && Signals(s, tr, k, id)
    ensures LastSignal(s, tr, id).Some? && tr[k].at <= LastSignal(s, tr, id).value
  {
    var init := tr[..|tr| - 1];
    if k < |init| {
      assert init[..k] == tr[..k];
      LastSignalIsLatest(s, init, id, k);
      LastSignalPast(s, init, id);
    }
  }

  lemma {:induction false} LastSignalPast(s: Setup, tr: seq<Timed>, id: Id)
    requires Monotone(s, tr) && LastSignal(s, tr, id).Some?
    ensures LastSignal(s, tr, id).value == s.start || exists k ::
      0 <= k < |tr| && Signals(s, tr, k, id) && LastSignal(s, tr, id).value == tr[k].at
  {
    if tr != [] {
      var init, n := tr[..|tr| - 1], |tr| - 1;
      if Signals(s, tr, n, id) {
      } else {
        LastSignalPast(s, init, id);
        if LastSignal(s, init, id).value != s.start {
          var k :| 0 <= k < |init| && Signals(s, init, k, id) && LastSignal(s, init, id).value == init[k].at;
          assert init[..k] == tr[..k] && Signals(s, tr, k, id);
        }
      }
    }
  }

  /** Event k is a leave of a known node that has not joined again. */
  ghost predicate LeftSince(s: Setup, tr: seq<Timed>, k: int, id: Id)
    requires 0 <= k < |tr|
  {
    && tr[k].ev == Leave(id) && LastSignal(s, tr[..k], id).Some?
    && forall j :: k < j < |tr| ==> tr[j].ev != Join(id)
  }

  ghost predicate HasLeft(s: Setup, tr: seq<Timed>, id: Id) { exists k :: 0 <= k < |tr| && LeftSince(s, tr, k, id) }

  lemma HasLeftStep(s: Setup, tr: seq<Timed>, id: Id)
    requires tr != []
    ensures var init, t := tr[..|tr| - 1], tr[|tr| - 1];
      HasLeft(s, tr, id) <==>
        (t.ev == Leave(id) && LastSignal(s, init, id).Some?) || (t.ev != Join(id) && HasLeft(s, init, id))
  {
    var init, n := tr[..|tr| - 1], |tr| - 1;
    if HasLeft(s, init, id) && tr[n].ev != Join(id) {
      var k :| 0 <= k < |init| && LeftSince(s, init, k, id);
      assert init[..k] == tr[..k] && LeftSince(s, tr, k, id);
    }
    if tr[n].ev == Leave(id) && LastSignal(s, init, id).Some? { assert LeftSince(s, tr, n, id); }
    if HasLeft(s, tr, id) {
      var k :| 0 <= k < |tr| && LeftSince(s, tr, k, id);
      if k < n { assert init[..k] == tr[..k] && LeftSince(s, init, k, id); }
    }
  }

  /** A node is LEAVING exactly if it left and has not joined again, whatever else was heard of it. */
  lemma {:induction false} LeavingExactly(s: Setup, tr: seq<Timed>, id: Id)
    ensures Has(Run(s, tr), id, Leaving) <==> HasLeft(s, tr, id)
  {
    if tr != [] {
      LeavingExactly(s, tr[..|tr| - 1], id);
      HasLeftStep(s, tr, id);
      HeartbeatIsLastSignal(s, tr[..|tr| - 1], id);
    }
  }

  /** Event c is a check that finds peer id, which has not left, silent for more than twice the timeout. */
  ghost predicate Condemns(s: Setup, tr: seq<Timed>, c: int, id: Id)
    requires 0 <= c < |tr|
  {
    && tr[c].ev == Check && id != s.local && !HasLeft(s, tr[..c], id)
    && LastSignal(s, tr[..c], id).Some? && tr[c].at - LastSignal(s, tr[..c], id).value > s.timeout * 2.0
  }

  /** And the peer has neither joined nor left since. */
  ghost predicate CondemnedSince(s: Setup, tr: seq<Timed>, c: int, id: Id)
    requires 0 <= c < |tr|
  {
    Condemns(s, tr, c, id) && forall j :: c < j < |tr| ==> tr[j].ev != Join(id) && tr[j].ev != Leave(id)
  }

  lemma CondemnedStep(s: Setup, tr: seq<Timed>, c: int, id: Id)
    requires 0 <= c < |tr| - 1
    ensures CondemnedSince(s, tr, c, id) <==>
      CondemnedSince(s, tr[..|tr| - 1], c, id) && tr[|tr| - 1].ev != Join(id) && tr[|tr| - 1].ev != Leave(id)
  {
    assert tr[..|tr| - 1][..c] == tr[..c];
  }

  lemma CondemnedIsDead(s: Setup, tr: seq<Timed>, c: int, id: Id)
    requires 0 <= c < |tr| && CondemnedSince(s, tr, c, id)
    ensures Has(Run(s, tr), id, Dead)
  {
    HeartbeatIsLastSignal(s, tr[..c], id);
    LeavingExactly(s, tr[..c], id);
    assert tr[..c + 1][..c] == tr[..c];
    DeadUntilJoinOrLeave(s, tr, c + 1, id);
  }

  /**
   * Accuracy, exactly: a node is DEAD if and only if some check found it silent for over twice the timeout
   * since its last signal before that check, while it had not left, and it has neither joined nor left since.
   */
  lemma {:induction false} DeadExactly(s: Setup, tr: seq<Timed>, id: Id)
    ensures Has(Run(s, tr), id, Dead) <==> exists c :: 0 <= c < |tr| && CondemnedSince(s, tr, c, id)
  {
    forall c | 0 <= c < |tr| && CondemnedSince(s, tr, c, id) ensures Has(Run(s, tr), id, Dead) {
      CondemnedIsDead(s, tr, c, id);
    }
    if Has(Run(s, tr), id, Dead) {
      var init, n := tr[..|tr| - 1], |tr| - 1;
      DeadExactly(s, init, id);
      HeartbeatIsLastSignal(s, init, id);
      if Has(Run(s, init), id, Dead) {
        var c :| 0 <= c < |init| && CondemnedSince(s, init, c, id);
        CondemnedStep(s, tr, c, id);
      } else {
        LeavingExactly(s, init, id);
        StepStatus(s, Run(s, init), tr[n], id);
        assert CondemnedSince(s, tr, n, id);
      }
    }
  }

  /** Once DEAD or LEAVING, a node stays one of the two until it joins again. */
  lemma {:induction false} GoneUntilJoin(s: Setup, tr: seq<Timed>, i: nat, id: Id)
    requires i <= |tr| && (Has(Run(s, tr[..i]), id, Dead) || Has(Run(s, tr[..i]), id, Leaving))
    requires forall k :: i <= k < |tr| ==> tr[k].ev != Join(id)
    ensures Has(Run(s, tr), id, Dead) || Has(Run(s, tr), id, Leaving)
    decreases |tr|
  {
    if i < |tr| {
      assert tr[..|tr| - 1][..i] == tr[..i];
      GoneUntilJoin(s, tr[..|tr| - 1], i, id);
      StepStatus(s, Run(s, tr[..|tr| - 1]), tr[|tr| - 1], id);
    } else {
      assert tr[..i] == tr;
    }
  }

  /** Event k gave reason to suspect node id: a missed ping, or a check that found it silent beyond the timeout. */
  ghost predicate Suspicious(s: Setup, tr: seq<Timed>, k: int, id: Id)
    requires 0 <= k < |tr|
  {
    && id != s.local && LastSignal(s, tr[..k], id).Some?
    && (tr[k].ev == Miss(id) || (tr[k].ev == Check && tr[k].at - LastSignal(s, tr[..k], id).value > s.timeout))
  }

  ghost predicate SuspectSince(s: Setup, tr: seq<Timed>, k: int, id: Id)
    requires 0 <= k < |tr|
  {
    Suspicious(s, tr, k, id) && forall j :: k < j < |tr| ==> !Signals(s, tr, j, id)
  }

  lemma SuspectStep(s: Setup, tr: seq<Timed>, k: int, id: Id)
    requires 0 <= k < |tr| - 1
    ensures SuspectSince(s, tr, k, id) <==> SuspectSince(s, tr[..|tr| - 1], k, id) && !Signals(s, tr, |tr| - 1, id)
  {
    var init, n := tr[..|tr| - 1], |tr| - 1;
    assert init[..k] == tr[..k];
    forall j | k < j < n ensures Signals(s, tr, j, id) <==> Signals(s, init, j, id) { assert init[..j] == tr[..j]; }
    if SuspectSince(s, init, k, id) && !Signals(s, tr, n, id) {
      forall j | k < j < |tr| ensures !Signals(s, tr, j, id) { assert j < n ==> !Signals(s, init, j, id); }
    }
    if SuspectSince(s, tr, k, id) {
      forall j | k < j < n ensures !Signals(s, init, j, id) { assert !Signals(s, tr, j, id); }
    }
  }

  lemma {:induction false} CauseSuspects(s: Setup, tr: seq<Timed>, k: int, id: Id)
    requires 0 <= k < |tr| && SuspectSince(s, tr, k, id)
    ensures var v := Run(s, tr); Has(v, id, Suspect) || Has(v, id, Dead) || Has(v, id, Leaving)
    decreases |tr|
  {
    var init, n := tr[..|tr| - 1], |tr| - 1;
    HeartbeatIsLastSignal(s, init, id);
    if k < n {
      SuspectStep(s, tr, k, id);
      CauseSuspects(s, init, k, id);
    }
  }

  lemma {:induction false} SuspectHasCause(s: Setup, tr: seq<Timed>, id: Id)
    requires Has(Run(s, tr), id, Suspect)
    ensures exists k :: 0 <= k < |tr| && SuspectSince(s, tr, k, id)
  {
    var init, n := tr[..|tr| - 1], |tr| - 1;
    HeartbeatIsLastSignal(s, init, id);
    if Has(Run(s, init), id, Suspect) {
      SuspectHasCause(s, init, id);
      var k :| 0 <= k < |init| && SuspectSince(s, init, k, id);
      SuspectStep(s, tr, k, id);
    } else {
      assert SuspectSince(s, tr, n, id);
    }
  }

  /**
   * A node is SUSPECT exactly if something suspicious happened after its last signal and it is neither DEAD
   * nor LEAVING; so one signal clears it.
   */
  lemma SuspectExactly(s: Setup, tr: seq<Timed>, id: Id)
    ensures Has(Run(s, tr), id, Suspect) <==>
      && (exists k :: 0 <= k < |tr| && SuspectSince(s, tr, k, id))
      && !Has(Run(s, tr), id, Dead) && !Has(Run(s, tr), id, Leaving)
  {
    if Has(Run(s, tr), id, Suspect) { SuspectHasCause(s, tr, id); }
    if k :| 0 <= k < |tr| && SuspectSince(s, tr, k, id) { CauseSuspects(s, tr, k, id); }
  }

  lemma {:induction false} NeverJoining(s: Setup, tr: seq<Timed>, id: Id)
    ensures !Has(Run(s, tr), id, Joining)
  {
    if tr != [] { NeverJoining(s, tr[..|tr| - 1], id); }
  }

  /**
   * A node is ALIVE exactly if it is known, nothing suspicious happened after its last signal, no check condemned it
   * and it has not left: a new peer is ALIVE at once, and no reachable state holds JOINING.
   */
  lemma AliveExactly(s: Setup, tr: seq<Timed>, id: Id)
    ensures Has(Run(s, tr), id, Alive) <==>
      && LastSignal(s, tr, id).Some? && !HasLeft(s, tr, id)
      && !(exists k :: 0 <= k < |tr| && SuspectSince(s, tr, k, id))
      && !(exists c :: 0 <= c < |tr| && CondemnedSince(s, tr, c, id))
  {
    HeartbeatIsLastSignal(s, tr, id);
    NeverJoining(s, tr, id);
    LeavingExactly(s, tr, id);
    DeadExactly(s, tr, id);
    SuspectExactly(s, tr, id);
    if k :| 0 <= k < |tr| && SuspectSince(s, tr, k, id) { CauseSuspects(s, tr, k, id); }
  }

  /** Whoever sets the flag: no event makes a leader, and a DEAD node never keeps or regains the flag. */
  lemma LeaderFlag(s: Setup, v: View, t: Timed, id: Id)
    requires Has(v, id, Dead) ==> !v[id].isLeader
    ensures var v' := Apply(s, v, t);
      && (id in v' && v'[id].isLeader ==> id in v && v[id].isLeader && !v'[id].status.Dead? && t.ev != Join(id))
      && (id in v && v[id].isLeader && t.ev != Join(id) && !Has(v', id, Dead) ==> v'[id].isLeader)
  {
  }

  /** A check that finds a peer silent beyond the timeout never leaves it ALIVE. */
  lemma CheckSuspects(s: Setup, tr: seq<Timed>, c: int, id: Id)
    requires 0 <= c < |tr| && tr[c].ev == Check && id != s.local && s.timeout >= 0.0
    requires LastSignal(s, tr[..c], id).Some? && tr[c].at - LastSignal(s, tr[..c], id).value > s.timeout
    ensures var v := Run(s, tr[..c + 1]); Has(v, id, Suspect) || Has(v, id, Dead) || Has(v, id, Leaving)
  {
    HeartbeatIsLastSignal(s, tr[..c], id);
    assert tr[..c + 1][..c] == tr[..c];
  }

  lemma CheckKills(s: Setup, tr: seq<Timed>, c: int, id: Id)
    requires 0 <= c < |tr| && tr[c].ev == Check && id != s.local
    requires LastSignal(s, tr[..c], id).Some? && tr[c].at - LastSignal(s, tr[..c], id).value > s.timeout * 2.0
    ensures Has(Run(s, tr[..c + 1]), id, Dead) || Has(Run(s, tr[..c + 1]), id, Leaving)
  {
    HeartbeatIsLastSignal(s, tr[..c], id);
    assert tr[..c + 1][..c] == tr[..c];
  }

  /**
   * Completeness: if the latest signal of a peer is more than 2 * timeout + period ago at time
   * `now`, some check ran within the last period, and the peer is not LEAVING, then it is DEAD.
   */
  lemma Completeness(s: Setup, tr: seq<Timed>, id: Id, now: real, period: real, c: int)
    requires Monotone(s, tr) && s.timeout >= 0.0 && id != s.local
    requires LastSignal(s, tr, id).Some? && now > LastSignal(s, tr, id).value + s.timeout * 2.0 + period
    requires 0 <= c < |tr| && tr[c].ev == Check && tr[c].at >= now - period
    requires !Has(Run(s, tr), id, Leaving)
    ensures Has(Run(s, tr), id, Dead)
  {
    forall k | c <= k < |tr| ensures !Signals(s, tr, k, id) && tr[k].ev != Join(id) {
      if Signals(s, tr, k, id) { LastSignalIsLatest(s, tr, id, k); }
    }
    SilentSince(s, tr, id, c);
    CheckKills(s, tr, c, id);
    GoneUntilJoin(s, tr, c + 1, id);
  }

  lemma {:induction false} SilentSince(s: Setup, tr: seq<Timed>, id: Id, c: int)
    requires 0 <= c <= |tr| && forall k :: c <= k < |tr| ==> !Signals(s, tr, k, id)
    ensures LastSignal(s, tr[..c], id) == LastSignal(s, tr, id)
    decreases |tr|
  {
    if c < |tr| {
      var init := tr[..|tr| - 1];
      assert !Signals(s, tr, |tr| - 1, id);
      forall k | c <= k < |init| ensures !Signals(s, init, k, id) {
        assert init[..k] == tr[..k] && !Signals(s, tr, k, id);
      }
      SilentSince(s, init, id, c);
      assert init[..c] == tr[..c];
    } else {
      assert tr[..c] == tr;
    }
  }
}

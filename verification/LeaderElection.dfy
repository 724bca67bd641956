/**
 * Lease-based leader election over one Redis key with a time to live. `try_acquire` and `release` are
 * split at every await: a command is on its way, Redis runs it, and some time later the node handles the
 * reply or an exception. A command whose caller has given up may still reach Redis later. The moves of
 * different nodes, such stray commands and the clock interleave freely.
 */
module LeaderElections {
  import opened Common

  datatype Node = Node(id: string)

  /** The lock key: absent, or naming its owner until it expires. */
  datatype Lock = Absent | Held(owner: Node, expiry: real)

  predicate Live(lock: Lock, now: real) { lock.Held? && now < lock.expiry }

  predicate Names(lock: Lock, now: real, n: Node) { Live(lock, now) && lock.owner == n }

  /**
   * Where a node stands. `Ask...`: the command is on its way. `...Done`: Redis has run it and the reply is on
   * its way. `seen` is the expiry that a GET saw on the node's own lock, `granted` the one that a SET gave it.
   */
  datatype Phase =
    | Idle
    | AskSetNx | SetNxDone(granted: Option<real>)
    | AskHolder | HolderDone(mine: Option<real>)
    | AskRenew(seen: real) | RenewDone(until: real)
    | AskRelease | ReleaseDone(mine: Option<real>)
    | AskDelete(seen: real) | DeleteDone

  datatype Member = Member(leads: bool, phase: Phase) {
    /** Believes to be the leader and is not giving the lock up. */
    predicate Reigns() { leads && !phase.AskDelete? && !phase.DeleteDone? }
  }

  predicate Asked(ph: Phase) { ph.AskSetNx? || ph.AskHolder? || ph.AskRenew? || ph.AskRelease? || ph.AskDelete? }

  predicate Answered(ph: Phase) { !ph.Idle? && !Asked(ph) }

  /** A node starts a call, Redis runs its command, the node handles the reply, or the awaited call raises. */
  datatype Move = StartAcquire | StartRelease | Serve | Hear | Raise

  predicate Enabled(m: Member, move: Move) {
    match move
    case StartAcquire => m.phase.Idle?
    case StartRelease => m.phase.Idle?
    case Serve => Asked(m.phase)
    case Hear => Answered(m.phase)
    case Raise => !m.phase.Idle?
  }

  /** The expiry of the lock if it names node n now. */
  function Mine(lock: Lock, now: real, n: Node): Option<real> {
    if Names(lock, now, n) then Some(lock.expiry) else None
  }

  /** Redis runs the command that is on its way. */
  function Run(now: real, ttl: real, lock: Lock, n: Node, ph: Phase): (Lock, Phase)
    requires Asked(ph)
  {
    match ph
    case AskSetNx => if Live(lock, now) then (lock, SetNxDone(None))
      else (Held(n, now + ttl), SetNxDone(Some(now + ttl)))
    case AskHolder => (lock, HolderDone(Mine(lock, now, n)))
    case AskRenew(_) => (Held(n, now + ttl), RenewDone(now + ttl))
    case AskRelease => (lock, ReleaseDone(Mine(lock, now, n)))
    case AskDelete(_) => (Absent, DeleteDone)
  }

  /** The local code from a reply to the next await. */
  function Resume(m: Member): Member
    requires Answered(m.phase)
  {
    match m.phase
    case SetNxDone(granted) => if granted.Some? then Member(true, Idle) else m.(phase := AskHolder)
    case HolderDone(mine) => if mine.Some? then m.(phase := AskRenew(mine.value)) else Member(false, Idle)
    case RenewDone(_) => Member(true, Idle)
    case ReleaseDone(mine) => if mine.Some? then m.(phase := AskDelete(mine.value)) else Member(false, Idle)
    case DeleteDone => Member(false, Idle)
  }

  function Execute(now: real, ttl: real, lock: Lock, n: Node, m: Member, move: Move): (Lock, Member)
    requires Enabled(m, move)
  {
    match move
    case StartAcquire => (lock, m.(phase := AskSetNx))
    case StartRelease => (lock, if m.leads then m.(phase := AskRelease) else m)
    case Serve =>
      var (lock', ph) := Run(now, ttl, lock, n, m.phase);
      (lock', m.(phase := ph))
    case Hear => (lock, Resume(m))
    case Raise => (lock, m.(phase := Idle))
  }

  // ------------------------------------------------------ the imperative node

  class RedisKey {
    var now: real
    var lock: Lock

    constructor (now: real)
      ensures this.now == now && lock == Absent
    {
      this.now, lock := now, Absent;
    }

    method SetIfAbsent(n: Node, ttl: real) returns (done: bool)
      modifies this`lock
      ensures done <==> !Live(old(lock), now)
      ensures lock == if done then Held(n, now + ttl) else old(lock)
    {
      done := !Live(lock, now);
      if done { lock := Held(n, now + ttl); }
    }

    method Get() returns (seen: Lock)
      ensures seen == if Live(lock, now) then lock else Absent
    {
      seen := if Live(lock, now) then lock else Absent;
    }

    method Set(n: Node, ttl: real)
      modifies this`lock
      ensures lock == Held(n, now + ttl)
    {
      lock := Held(n, now + ttl);
    }

    method Delete()
      modifies this`lock
      ensures lock == Absent
    {
      lock := Absent;
    }
  }

  class LeaderElection {
    const redis: RedisKey
    const nodeId: Node
    const ttl: real
    var isLeader: bool
    var phase: Phase

    constructor (redis: RedisKey, nodeId: Node, ttl: real)
      ensures this.redis == redis && this.nodeId == nodeId && this.ttl == ttl
      ensures View() == Member(false, Idle)
    {
      this.redis, this.nodeId, this.ttl := redis, nodeId, ttl;
      isLeader, phase := false, Idle;
    }

    ghost function View(): Member
      reads this
    {
      Member(isLeader, phase)
    }

    /** Redis runs this node's command; the answer is on its way. */
    method RunCommand()
      requires Asked(phase)
      modifies this`phase, redis`lock
      ensures (redis.lock, phase) == Run(redis.now, ttl, old(redis.lock), nodeId, old(phase))
    {
      match phase {
        case AskSetNx =>
          var done := redis.SetIfAbsent(nodeId, ttl);
          phase := SetNxDone(if done then Some(redis.now + ttl) else None);
        case AskHolder =>
          var current := redis.Get();
          phase := HolderDone(if current.Held? && current.owner == nodeId then Some(current.expiry) else None);
        case AskRenew(_) =>
          redis.Set(nodeId, ttl);
          phase := RenewDone(redis.now + ttl);
        case AskRelease =>
          var current := redis.Get();
          phase := ReleaseDone(if current.Held? && current.owner == nodeId then Some(current.expiry) else None);
        case AskDelete(_) =>
          redis.Delete();
          phase := DeleteDone;
      }
    }

    /** The node handles the answer, up to its next command or the end of the call. */
    method HandleReply()
      requires Answered(phase)
      modifies this
      ensures View() == Resume(old(View()))
    {
      match phase {
        case SetNxDone(granted) =>
          if granted.Some? { isLeader, phase := true, Idle; } else { phase := AskHolder; }
        case HolderDone(mine) =>
          if mine.Some? { phase := AskRenew(mine.value); } else { isLeader, phase := false, Idle; }
        case RenewDone(_) =>
          isLeader, phase := true, Idle;
        case ReleaseDone(mine) =>
          if mine.Some? { phase := AskDelete(mine.value); } else { isLeader, phase := false, Idle; }
        case DeleteDone =>
          isLeader, phase := false, Idle;
      }
    }

    /** One move of this node. */
    method Perform(move: Move)
      requires Enabled(View(), move)
      modifies this, redis`lock
      ensures (redis.lock, View()) == Execute(redis.now, ttl, old(redis.lock), nodeId, old(View()), move)
    {
      match move {
        case StartAcquire => phase := AskSetNx;
        case StartRelease => if isLeader { phase := AskRelease; }
        case Serve => RunCommand();
        case Hear => HandleReply();
        case Raise => phase := Idle;
      }
    }

    /** A command and its reply with nothing in between. */
    method Await()
      requires Asked(phase)
      modifies this, redis`lock
      ensures var (lock, ph) := Run(redis.now, ttl, old(redis.lock), nodeId, old(phase));
        redis.lock == lock && View() == Resume(Member(old(isLeader), ph))
    {
      Perform(Serve);
      Perform(Hear);
    }

    /** `try_acquire` when nothing else happens in between. */
    method TryAcquire() returns (leader: bool)
      requires phase == Idle
      modifies this, redis`lock
      ensures phase == Idle && isLeader == leader
      ensures leader <==> !Live(old(redis.lock), redis.now) || old(redis.lock).owner == nodeId
      ensures redis.lock == if leader then Held(nodeId, redis.now + ttl) else old(redis.lock)
    {
      Perform(StartAcquire);
      Await();
      if phase == AskHolder {
        Await();
        if phase.AskRenew? { Await(); }
      }
      leader := isLeader;
    }

    /** `release` when nothing else happens in between: only a lock that names this node is deleted. */
    method Release()
      requires phase == Idle
      modifies this, redis`lock
      ensures phase == Idle && !isLeader
      ensures redis.lock ==
        if old(isLeader) && Names(old(redis.lock), redis.now, nodeId) then Absent else old(redis.lock)
    {
      Perform(StartRelease);
      if phase == AskRelease {
        Await();
        if phase.AskDelete? { Await(); }
      }
    }
  }

  // ------------------------------------------------------------ runs of a cluster

  /** A command on its way to Redis whose caller no longer waits for it. */
  datatype Stray = Stray(node: Node, cmd: Phase)

  datatype Cluster = Cluster(now: real, lock: Lock, members: map<Node, Member>, strays: set<Stray>)

  datatype Action = Tick(to: real) | Do(node: Node, move: Move) | Land(stray: Stray)

  ghost predicate Possible(s: Cluster, a: Action) {
    match a
    case Tick(to) => s.now <= to
    case Do(n, move) => n in s.members && Enabled(s.members[n], move)
    case Land(stray) => stray in s.strays && Asked(stray.cmd)
  }

  function Given(n: Node, ph: Phase, move: Move): set<Stray> {
    if move.Raise? && Asked(ph) then {Stray(n, ph)} else {}
  }

  ghost function Next(ttl: real, s: Cluster, a: Action): Cluster
    requires Possible(s, a)
  {
    match a
    case Tick(to) => s.(now := to)
    case Do(n, move) =>
      var (lock, m) := Execute(s.now, ttl, s.lock, n, s.members[n], move);
      s.(lock := lock, members := s.members[n := m], strays := s.strays + Given(n, s.members[n].phase, move))
    case Land(stray) =>
      s.(lock := Run(s.now, ttl, s.lock, stray.node, stray.cmd).0, strays := s.strays - {stray})
  }

  /** What the environment must grant for the lease to be safe. */
  datatype Rule =
    | RenewInTime | DeleteInTime | GiveUpInTime | DeleteAnswered
    | GrantHeardInTime | RenewalHeardInTime
    | StrayRenewalDies | StrayDeleteDies
    | LeaseKept

  /** The rules as they bear on a move of a node in phase ph. */
  predicate MoveObeys(now: real, ph: Phase, move: Move, rule: Rule) {
    match rule
    // a renewing SET lands before the lease its GET saw expires
    case RenewInTime => move.Serve? && ph.AskRenew? ==> now < ph.seen
    // so does a releasing DELETE
    case DeleteInTime => move.Serve? && ph.AskDelete? ==> now < ph.seen
    // or it is given up before that
    case GiveUpInTime => move.Raise? && ph.AskDelete? ==> now < ph.seen
    // a DELETE that took effect is answered
    case DeleteAnswered => move.Raise? ==> !ph.DeleteDone?
    // a SET NX that was granted the lease hears of it before that lease expires
    case GrantHeardInTime => move.Hear? && ph.SetNxDone? && ph.granted.Some? ==> now < ph.granted.value
    // so does a renewing SET
    case RenewalHeardInTime => move.Hear? && ph.RenewDone? ==> now < ph.until
    case StrayRenewalDies => true
    case StrayDeleteDies => true
    case LeaseKept => true
  }

  ghost predicate Obeys(s: Cluster, a: Action, rule: Rule)
    requires Possible(s, a)
  {
    match a
    // time does not run past the lease of a node that reigns
    case Tick(to) =>
      rule.LeaseKept? && s.lock.Held? && s.lock.owner in s.members && s.members[s.lock.owner].Reigns() ==>
      to < s.lock.expiry
    case Do(n, move) => MoveObeys(s.now, s.members[n].phase, move, rule)
    // a renewing SET that was given up never lands, and neither does such a DELETE
    case Land(stray) =>
      (rule.StrayRenewalDies? ==> !stray.cmd.AskRenew?) && (rule.StrayDeleteDies? ==> !stray.cmd.AskDelete?)
  }

  ghost predicate Start(s: Cluster) {
    forall n :: n in s.members ==> s.members[n] == Member(false, Idle)
  }

  /** A run from s in which every step is possible and obeys all rules but `waived`. */
  ghost predicate RunOk(ttl: real, s: Cluster, run: seq<Action>, waived: set<Rule>)
    decreases |run|
  {
    run == [] || (
      && Possible(s, run[0])
      && (forall r :: r !in waived ==> Obeys(s, run[0], r))
      && RunOk(ttl, Next(ttl, s, run[0]), run[1..], waived))
  }

  ghost function After(ttl: real, s: Cluster, run: seq<Action>, waived: set<Rule>): Cluster
    requires RunOk(ttl, s, run, waived)
    decreases |run|
  {
    if run == [] then s else After(ttl, Next(ttl, s, run[0]), run[1..], waived)
  }

  ghost predicate OneLeader(s: Cluster) {
    && (forall n :: n in s.members && s.members[n].Reigns() ==> Names(s.lock, s.now, n))
    && (forall n, k :: n in s.members && k in s.members && s.members[n].Reigns() && s.members[k].Reigns() ==> n == k)
  }

  /** The lease a node has been told of, or is about to be. */
  function Lease(ph: Phase): Option<real> {
    match ph
    case SetNxDone(granted) => granted
    case HolderDone(mine) => mine
    case AskRenew(seen) => Some(seen)
    case RenewDone(until) => Some(until)
    case ReleaseDone(mine) => mine
    case AskDelete(seen) => Some(seen)
    case _ => None
  }

  /** Until it expires, that very lease is what the lock holds. */
  predicate LeaseHeld(now: real, lock: Lock, n: Node, m: Member) {
    var e := Lease(m.phase);
    e.Some? && now < e.value ==> lock == Held(n, e.value)
  }

  predicate Crowned(now: real, lock: Lock, n: Node, m: Member) { m.Reigns() ==> Names(lock, now, n) }

  ghost predicate Inv(s: Cluster) {
    forall n :: n in s.members ==> Crowned(s.now, s.lock, n, s.members[n]) && LeaseHeld(s.now, s.lock, n, s.members[n])
  }

  /** The moving node keeps its part of the invariant. */
  lemma OwnMove(now: real, ttl: real, lock: Lock, n: Node, m: Member, move: Move)
    requires ttl > 0.0 && Enabled(m, move) && forall r :: MoveObeys(now, m.phase, move, r)
    requires Crowned(now, lock, n, m) && LeaseHeld(now, lock, n, m)
    ensures var (lock', m') := Execute(now, ttl, lock, n, m, move);
      Crowned(now, lock', n, m') && LeaseHeld(now, lock', n, m')
  {
    assert MoveObeys(now, m.phase, move, RenewInTime) && MoveObeys(now, m.phase, move, DeleteInTime)
      && MoveObeys(now, m.phase, move, GiveUpInTime) && MoveObeys(now, m.phase, move, DeleteAnswered)
      && MoveObeys(now, m.phase, move, GrantHeardInTime) && MoveObeys(now, m.phase, move, RenewalHeardInTime);
  }

  /** The lock only changes hands when it is not live, so no other node's part is disturbed. */
  lemma OthersMove(now: real, ttl: real, lock: Lock, n: Node, m: Member, move: Move, k: Node, other: Member)
    requires Enabled(m, move) && (forall r :: MoveObeys(now, m.phase, move, r)) && k != n
    requires LeaseHeld(now, lock, n, m) && Crowned(now, lock, k, other) && LeaseHeld(now, lock, k, other)
    ensures var lock' := Execute(now, ttl, lock, n, m, move).0;
      Crowned(now, lock', k, other) && LeaseHeld(now, lock', k, other)
  {
    assert MoveObeys(now, m.phase, move, RenewInTime) && MoveObeys(now, m.phase, move, DeleteInTime);
  }

  /** A stray SET NX or GET disturbs no node. */
  lemma LandKeeps(now: real, ttl: real, lock: Lock, stray: Stray, k: Node, m: Member)
    requires ttl > 0.0 && Asked(stray.cmd) && !stray.cmd.AskRenew? && !stray.cmd.AskDelete?
    requires Crowned(now, lock, k, m) && LeaseHeld(now, lock, k, m)
    ensures var lock' := Run(now, ttl, lock, stray.node, stray.cmd).0;
      Crowned(now, lock', k, m) && LeaseHeld(now, lock', k, m)
  {
  }

  lemma StepKeeps(ttl: real, s: Cluster, a: Action)
    requires ttl > 0.0 && Inv(s) && Possible(s, a) && forall r :: Obeys(s, a, r)
    ensures Inv(Next(ttl, s, a))
  {
    var s' := Next(ttl, s, a);
    match a {
      case Tick(to) =>
        assert Obeys(s, a, LeaseKept);
      case Do(n, move) =>
        forall r ensures MoveObeys(s.now, s.members[n].phase, move, r) { assert Obeys(s, a, r); }
        OwnMove(s.now, ttl, s.lock, n, s.members[n], move);
        forall k | k in s.members && k != n
          ensures Crowned(s'.now, s'.lock, k, s'.members[k]) && LeaseHeld(s'.now, s'.lock, k, s'.members[k])
        {
          OthersMove(s.now, ttl, s.lock, n, s.members[n], move, k, s.members[k]);
        }
      case Land(stray) =>
        assert Obeys(s, a, StrayRenewalDies) && Obeys(s, a, StrayDeleteDies);
        forall k | k in s.members
          ensures Crowned(s'.now, s'.lock, k, s'.members[k]) && LeaseHeld(s'.now, s'.lock, k, s'.members[k])
        {
          LandKeeps(s.now, ttl, s.lock, stray, k, s.members[k]);
        }
    }
  }

  /**
   * An exception changes neither the lock nor any node's belief, and outside the DELETE of a release not even who
   * reigns; a command that was still on its way becomes a stray.
   */
  lemma ExceptionKeeps(ttl: real, s: Cluster, n: Node)
    requires Possible(s, Do(n, Raise))
    ensures var s', ph := Next(ttl, s, Do(n, Raise)), s.members[n].phase;
      && s'.now == s.now && s'.lock == s.lock && s'.members.Keys == s.members.Keys
      && (forall k :: k in s.members ==> s'.members[k].leads == s.members[k].leads)
      && (forall k :: k in s.members && k != n ==> s'.members[k] == s.members[k])
      && s'.members[n].phase.Idle?
      && (!ph.AskDelete? && !ph.DeleteDone? ==> (s'.members[n].Reigns() <==> s.members[n].Reigns()))
      && (forall stray :: stray in s'.strays <==> stray in s.strays || (Asked(ph) && stray == Stray(n, ph)))
  {
  }

  /** Lease safety in every run: at most one node reigns, and the live lock names it. */
  lemma {:induction false} LeaseSafety(ttl: real, s: Cluster, run: seq<Action>)
    requires ttl > 0.0 && Inv(s) && RunOk(ttl, s, run, {})
    ensures OneLeader(After(ttl, s, run, {}))
    decreases |run|
  {
    if run != [] {
      StepKeeps(ttl, s, run[0]);
      LeaseSafety(ttl, Next(ttl, s, run[0]), run[1..]);
    }
  }

  lemma SafeFromStart(ttl: real, s: Cluster, run: seq<Action>)
    requires ttl > 0.0 && Start(s) && RunOk(ttl, s, run, {})
    ensures OneLeader(After(ttl, s, run, {}))
  {
    LeaseSafety(ttl, s, run);
  }

  // -------------------------------------------------- every rule is needed

  /** The run is possible, obeys all rules but `waived`, and ends in s'. */
  ghost predicate RunsTo(ttl: real, s: Cluster, run: seq<Action>, s': Cluster, waived: set<Rule>) {
    RunOk(ttl, s, run, waived) && After(ttl, s, run, waived) == s'
  }

  ghost predicate StepsTo(ttl: real, s: Cluster, a: Action, s': Cluster, waived: set<Rule>) {
    Possible(s, a) && s' == Next(ttl, s, a) && forall r :: r !in waived ==> Obeys(s, a, r)
  }

  lemma OneStep(ttl: real, s: Cluster, a: Action, s': Cluster, waived: set<Rule>)
    requires StepsTo(ttl, s, a, s', waived)
    ensures RunsTo(ttl, s, [a], s', waived)
  {
    assert RunOk(ttl, s', [a][1..], waived);
  }

  lemma {:induction false} Join(ttl: real, s: Cluster, p: seq<Action>, s1: Cluster, q: seq<Action>, s2: Cluster,
                                waived: set<Rule>)
    requires RunsTo(ttl, s, p, s1, waived) && RunsTo(ttl, s1, q, s2, waived)
    ensures RunsTo(ttl, s, p + q, s2, waived)
    decreases |p|
  {
    if p == [] {
      assert p + q == q;
    } else {
      Join(ttl, Next(ttl, s, p[0]), p[1..], s1, q, s2, waived);
      assert (p + q)[0] == p[0] && (p + q)[1..] == p[1..] + q;
    }
  }

  /** The same moves of one node in a row. */
  function Moves(n: Node, moves: seq<Move>): seq<Action> {
    seq(|moves|, i requires 0 <= i < |moves| => Do(n, moves[i]))
  }

  /** One node moves on its own: what its moves do to the lock and to itself. */
  ghost predicate Solo(now: real, ttl: real, lock: Lock, n: Node, m: Member, moves: seq<Move>, waived: set<Rule>,
                       lock': Lock, m': Member)
    decreases |moves|
  {
    if moves == [] then lock == lock' && m == m'
    else
      && Enabled(m, moves[0]) && (forall r :: r !in waived ==> MoveObeys(now, m.phase, moves[0], r))
      && var (lock1, m1) := Execute(now, ttl, lock, n, m, moves[0]);
         Solo(now, ttl, lock1, n, m1, moves[1..], waived, lock', m')
  }

  lemma {:induction false} SoloJoin(now: real, ttl: real, lock: Lock, n: Node, m: Member, p: seq<Move>,
                                    lock1: Lock, m1: Member,
                                    q: seq<Move>, lock2: Lock, m2: Member, waived: set<Rule>)
    requires Solo(now, ttl, lock, n, m, p, waived, lock1, m1) && Solo(now, ttl, lock1, n, m1, q, waived, lock2, m2)
    ensures Solo(now, ttl, lock, n, m, p + q, waived, lock2, m2)
    decreases |p|
  {
    if p == [] {
      assert p + q == q;
    } else {
      var (lock', m') := Execute(now, ttl, lock, n, m, p[0]);
      SoloJoin(now, ttl, lock', n, m', p[1..], lock1, m1, q, lock2, m2, waived);
      assert (p + q)[1..] == p[1..] + q;
    }
  }

  /** The cluster has changed in the lock and in node n only, except that there may be new strays. */
  ghost predicate Changed(s: Cluster, n: Node, lock': Lock, m': Member, s': Cluster) {
    s' == Cluster(s.now, lock', s.members[n := m'], s'.strays) && s.strays <= s'.strays
  }

  lemma {:induction false} SoloRuns(ttl: real, s: Cluster, n: Node, moves: seq<Move>, waived: set<Rule>,
                                    lock': Lock, m': Member)
    returns (s': Cluster)
    requires n in s.members && Solo(s.now, ttl, s.lock, n, s.members[n], moves, waived, lock', m')
    ensures Changed(s, n, lock', m', s') && RunsTo(ttl, s, Moves(n, moves), s', waived)
    decreases |moves|
  {
    if moves == [] {
      s' := s;
    } else {
      var s1 := Next(ttl, s, Do(n, moves[0]));
      s' := SoloRuns(ttl, s1, n, moves[1..], waived, lock', m');
      assert s1.members[n := m'] == s.members[n := m'];
      assert Moves(n, moves)[1..] == Moves(n, moves[1..]);
    }
  }

  const TAKE: seq<Move> := [StartAcquire, Serve, Hear]

  /** A node takes the free lock and becomes leader. */
  lemma TakeRuns(ttl: real, s: Cluster, n: Node, waived: set<Rule>) returns (s': Cluster)
    requires ttl > 0.0 && n in s.members && s.members[n] == Member(false, Idle) && !Live(s.lock, s.now)
    ensures Changed(s, n, Held(n, s.now + ttl), Member(true, Idle), s') && RunsTo(ttl, s, Moves(n, TAKE), s', waived)
  {
    s' := SoloRuns(ttl, s, n, TAKE, waived, Held(n, s.now + ttl), Member(true, Idle));
  }

  /** A node takes the lock without hearing of it, tries again and gets as far as the renewing SET. */
  const RENEW: seq<Move> := [StartAcquire, Serve, Raise] + [StartAcquire, Serve, Hear] + [Serve, Hear]

  /** A node leads, and gets as far as the releasing DELETE. */
  const GIVE_BACK: seq<Move> := TAKE + [StartRelease, Serve, Hear]

  /** What node a does at time 0 in the schedule that breaks safety when only `rule` is dropped. */
  function First(rule: Rule): seq<Move> {
    match rule
    case RenewInTime => RENEW
    case DeleteInTime => GIVE_BACK
    case GiveUpInTime => GIVE_BACK
    // its DELETE is applied but unanswered, so it keeps its flag
    case DeleteAnswered => GIVE_BACK + [Serve, Raise]
    // its SET NX is applied and the reply is on its way
    case GrantHeardInTime => [StartAcquire, Serve]
    // the same of its renewing SET
    case RenewalHeardInTime => RENEW + [Serve]
    case StrayRenewalDies => RENEW
    case StrayDeleteDies => GIVE_BACK
    case LeaseKept => TAKE
  }

  /** And what it does after 16 seconds have passed and b has taken the lock. */
  function Second(rule: Rule): seq<Move> {
    match rule
    case RenewInTime => [Serve, Hear]
    case DeleteInTime => [Serve, Hear]
    case GiveUpInTime => [Raise]
    case GrantHeardInTime => [Hear]
    case RenewalHeardInTime => [Hear]
    case _ => []
  }

  /** Where a stands, and whose the lock is, after its first moves. */
  function AfterFirst(rule: Rule, a: Node): (Lock, Member) {
    match rule
    case RenewInTime => (Held(a, 15.0), Member(false, AskRenew(15.0)))
    case DeleteInTime => (Held(a, 15.0), Member(true, AskDelete(15.0)))
    case GiveUpInTime => (Held(a, 15.0), Member(true, AskDelete(15.0)))
    case DeleteAnswered => (Absent, Member(true, Idle))
    case GrantHeardInTime => (Held(a, 15.0), Member(false, SetNxDone(Some(15.0))))
    case RenewalHeardInTime => (Held(a, 15.0), Member(false, RenewDone(15.0)))
    case StrayRenewalDies => (Held(a, 15.0), Member(false, AskRenew(15.0)))
    case StrayDeleteDies => (Held(a, 15.0), Member(true, AskDelete(15.0)))
    case LeaseKept => (Held(a, 15.0), Member(true, Idle))
  }

  /** And after its second ones. */
  function AfterSecond(rule: Rule, a: Node, b: Node): (Lock, Member) {
    match rule
    case RenewInTime => (Held(a, 31.0), Member(true, Idle))
    case DeleteInTime => (Absent, Member(false, Idle))
    case StrayRenewalDies => (Held(b, 31.0), Member(false, Idle))
    case _ => (Held(b, 31.0), Member(true, Idle))
  }

  lemma GivesBack(a: Node, waived: set<Rule>)
    ensures Solo(0.0, 15.0, Absent, a, Member(false, Idle), GIVE_BACK, waived,
                 Held(a, 15.0), Member(true, AskDelete(15.0)))
  {
    SoloJoin(0.0, 15.0, Absent, a, Member(false, Idle), TAKE, Held(a, 15.0), Member(true, Idle),
             [StartRelease, Serve, Hear], Held(a, 15.0), Member(true, AskDelete(15.0)), waived);
  }

  lemma LosesDelete(a: Node)
    ensures Solo(0.0, 15.0, Absent, a, Member(false, Idle), GIVE_BACK + [Serve, Raise], {DeleteAnswered},
                 Absent, Member(true, Idle))
  {
    GivesBack(a, {DeleteAnswered});
    SoloJoin(0.0, 15.0, Absent, a, Member(false, Idle), GIVE_BACK, Held(a, 15.0),
             Member(true, AskDelete(15.0)), [Serve, Raise], Absent, Member(true, Idle), {DeleteAnswered});
  }

  lemma AsksHolder(a: Node, waived: set<Rule>)
    ensures Solo(0.0, 15.0, Absent, a, Member(false, Idle),
                 [StartAcquire, Serve, Raise] + [StartAcquire, Serve, Hear], waived,
                 Held(a, 15.0), Member(false, AskHolder))
  {
    SoloJoin(0.0, 15.0, Absent, a, Member(false, Idle), [StartAcquire, Serve, Raise],
             Held(a, 15.0), Member(false, Idle),
             [StartAcquire, Serve, Hear], Held(a, 15.0), Member(false, AskHolder), waived);
  }

  lemma Renews(a: Node, waived: set<Rule>)
    ensures Solo(0.0, 15.0, Absent, a, Member(false, Idle), RENEW, waived,
                 Held(a, 15.0), Member(false, AskRenew(15.0)))
  {
    AsksHolder(a, waived);
    SoloJoin(0.0, 15.0, Absent, a, Member(false, Idle), [StartAcquire, Serve, Raise] + [StartAcquire, Serve, Hear],
             Held(a, 15.0), Member(false, AskHolder), [Serve, Hear],
             Held(a, 15.0), Member(false, AskRenew(15.0)), waived);
  }

  lemma RenewalServed(a: Node, waived: set<Rule>)
    ensures Solo(0.0, 15.0, Absent, a, Member(false, Idle), RENEW + [Serve], waived,
                 Held(a, 15.0), Member(false, RenewDone(15.0)))
  {
    Renews(a, waived);
    SoloJoin(0.0, 15.0, Absent, a, Member(false, Idle), RENEW, Held(a, 15.0), Member(false, AskRenew(15.0)),
             [Serve], Held(a, 15.0), Member(false, RenewDone(15.0)), waived);
  }

  lemma FirstMoves(rule: Rule, a: Node)
    ensures var (lock, m) := AfterFirst(rule, a);
      Solo(0.0, 15.0, Absent, a, Member(false, Idle), First(rule), {rule}, lock, m)
  {
    match rule {
      case RenewInTime => Renews(a, {rule});
      case DeleteInTime => GivesBack(a, {rule});
      case GiveUpInTime => GivesBack(a, {rule});
      case DeleteAnswered => LosesDelete(a);
      case GrantHeardInTime =>
      case RenewalHeardInTime => RenewalServed(a, {rule});
      case StrayRenewalDies => Renews(a, {rule});
      case StrayDeleteDies => GivesBack(a, {rule});
      case LeaseKept =>
    }
  }

  lemma SecondMoves(rule: Rule, a: Node, b: Node)
    requires a != b
    ensures var (lock, m) := AfterSecond(rule, a, b);
      Solo(16.0, 15.0, Held(b, 31.0), a, AfterBreak(rule, a), Second(rule), {rule}, lock, m)
  {
  }

  function AfterBreak(rule: Rule, a: Node): Member {
    match rule
    case StrayRenewalDies => Member(false, Idle)
    case StrayDeleteDies => Member(true, Idle)
    case _ => AfterFirst(rule, a).1
  }

  /** In between a may give up its command: a renewing SET, or a DELETE, which then lands all the same. */
  function GivenUp(rule: Rule, a: Node): seq<Action> {
    match rule
    case StrayRenewalDies => [Do(a, Raise)]
    case StrayDeleteDies => [Do(a, Raise)] + [Land(Stray(a, AskDelete(15.0)))]
    case _ => []
  }

  function Opening(rule: Rule, a: Node, b: Node): seq<Action> {
    Moves(a, First(rule)) + GivenUp(rule, a) + [Tick(16.0)] + Moves(b, TAKE) + Moves(a, Second(rule))
  }

  /**
   * In two schedules c joins while b leads: when a's late DELETE has freed the lock, and when a's stray renewal
   * has taken it over, for a node that does not know it and lets it expire.
   */
  function Ending(rule: Rule, a: Node, c: Node): seq<Action> {
    match rule
    case DeleteInTime => Moves(c, TAKE)
    case StrayRenewalDies => [Land(Stray(a, AskRenew(15.0)))] + [Tick(32.0)] + Moves(c, TAKE)
    case _ => []
  }

  function Breaking(rule: Rule, a: Node, b: Node, c: Node): seq<Action> { Opening(rule, a, b) + Ending(rule, a, c) }

  function AllIdle(a: Node, b: Node, c: Node): Cluster {
    Cluster(0.0, Absent, map[a := Member(false, Idle), b := Member(false, Idle), c := Member(false, Idle)], {})
  }

  ghost predicate TwoReign(s: Cluster) {
    exists n, k :: n in s.members && k in s.members && n != k && s.members[n].Reigns() && s.members[k].Reigns()
  }

  lemma GivenUpDeleteLands(s: Cluster, a: Node) returns (s': Cluster)
    requires a in s.members && s.members[a] == Member(true, AskDelete(15.0)) && s.lock == Held(a, 15.0) && s.now == 0.0
    ensures RunsTo(15.0, s, GivenUp(StrayDeleteDies, a), s', {StrayDeleteDies})
    ensures s'.now == 0.0 && s'.lock == Absent && s'.members == s.members[a := Member(true, Idle)]
  {
    var s1 := Next(15.0, s, Do(a, Raise));
    OneStep(15.0, s, Do(a, Raise), s1, {StrayDeleteDies});
    s' := Next(15.0, s1, Land(Stray(a, AskDelete(15.0))));
    OneStep(15.0, s1, Land(Stray(a, AskDelete(15.0))), s', {StrayDeleteDies});
    Join(15.0, s, [Do(a, Raise)], s1, [Land(Stray(a, AskDelete(15.0)))], s', {StrayDeleteDies});
  }

  lemma GivenUpRuns(rule: Rule, s: Cluster, a: Node) returns (s': Cluster)
    requires s.now == 0.0 && a in s.members && (s.lock, s.members[a]) == AfterFirst(rule, a)
    ensures RunsTo(15.0, s, GivenUp(rule, a), s', {rule})
    ensures s'.now == 0.0 && s'.members == s.members[a := AfterBreak(rule, a)]
    ensures s'.lock == if rule.StrayDeleteDies? then Absent else s.lock
    ensures rule.StrayRenewalDies? ==> Stray(a, AskRenew(15.0)) in s'.strays
  {
    match rule {
      case StrayRenewalDies =>
        s' := Next(15.0, s, Do(a, Raise));
        OneStep(15.0, s, Do(a, Raise), s', {rule});
      case StrayDeleteDies =>
        s' := GivenUpDeleteLands(s, a);
      case _ =>
        s' := s;
        assert s.members[a := s.members[a]] == s.members;
    }
  }

  /** All the moves up to a's second ones. */
  lemma OpeningRuns(rule: Rule, a: Node, b: Node, c: Node) returns (s: Cluster)
    requires a != b && b != c && a != c
    ensures RunsTo(15.0, AllIdle(a, b, c), Opening(rule, a, b), s, {rule})
    ensures s.now == 16.0 && s.lock == AfterSecond(rule, a, b).0
    ensures a in s.members && s.members[a] == AfterSecond(rule, a, b).1
    ensures b in s.members && s.members[b] == Member(true, Idle)
    ensures c in s.members && s.members[c] == Member(false, Idle)
    ensures rule.StrayRenewalDies? ==> Stray(a, AskRenew(15.0)) in s.strays
  {
    var s0 := AllIdle(a, b, c);
    var (lock1, m1) := AfterFirst(rule, a);
    FirstMoves(rule, a);
    var run := Moves(a, First(rule));
    var s1 := SoloRuns(15.0, s0, a, First(rule), {rule}, lock1, m1);
    var s2 := GivenUpRuns(rule, s1, a);
    Join(15.0, s0, run, s1, GivenUp(rule, a), s2, {rule});
    run := run + GivenUp(rule, a);
    var s3 := TickRuns(rule, s2, a);
    Join(15.0, s0, run, s2, [Tick(16.0)], s3, {rule});
    run := run + [Tick(16.0)];
    var s4 := TakeRuns(15.0, s3, b, {rule});
    Join(15.0, s0, run, s3, Moves(b, TAKE), s4, {rule});
    run := run + Moves(b, TAKE);
    var (lock2, m2) := AfterSecond(rule, a, b);
    SecondMoves(rule, a, b);
    s := SoloRuns(15.0, s4, a, Second(rule), {rule}, lock2, m2);
    Join(15.0, s0, run, s4, Moves(a, Second(rule)), s, {rule});
  }

  lemma TickRuns(rule: Rule, s: Cluster, a: Node) returns (s': Cluster)
    requires s.now == 0.0 && a in s.members && s.members[a] == AfterBreak(rule, a)
    requires s.lock == if rule.StrayDeleteDies? then Absent else AfterFirst(rule, a).0
    ensures RunsTo(15.0, s, [Tick(16.0)], s', {rule}) && s' == s.(now := 16.0) && !Live(s'.lock, 16.0)
  {
    s' := s.(now := 16.0);
    OneStep(15.0, s, Tick(16.0), s', {rule});
  }

  /** A stray renewal takes the lock over for a node that does not know it; it expires, and c takes it. */
  lemma StrayRenewalEnding(s: Cluster, a: Node, b: Node, c: Node) returns (s': Cluster)
    requires a != b && b != c && a != c && s.now == 16.0 && Stray(a, AskRenew(15.0)) in s.strays
    requires a in s.members && s.members[a] == Member(false, Idle)
    requires b in s.members && s.members[b] == Member(true, Idle)
    requires c in s.members && s.members[c] == Member(false, Idle)
    ensures RunsTo(15.0, s, Ending(StrayRenewalDies, a, c), s', {StrayRenewalDies}) && TwoReign(s')
  {
    var stray := Stray(a, AskRenew(15.0));
    var s1 := Next(15.0, s, Land(stray));
    OneStep(15.0, s, Land(stray), s1, {StrayRenewalDies});
    var s2 := s1.(now := 32.0);
    OneStep(15.0, s1, Tick(32.0), s2, {StrayRenewalDies});
    Join(15.0, s, [Land(stray)], s1, [Tick(32.0)], s2, {StrayRenewalDies});
    s' := TakeRuns(15.0, s2, c, {StrayRenewalDies});
    Join(15.0, s, [Land(stray)] + [Tick(32.0)], s2, Moves(c, TAKE), s', {StrayRenewalDies});
    assert b in s'.members && c in s'.members && s'.members[b].Reigns() && s'.members[c].Reigns();
  }

  lemma EndingRuns(rule: Rule, s: Cluster, a: Node, b: Node, c: Node) returns (s': Cluster)
    requires a != b && b != c && a != c && s.now == 16.0 && s.lock == AfterSecond(rule, a, b).0
    requires a in s.members && s.members[a] == AfterSecond(rule, a, b).1
    requires b in s.members && s.members[b] == Member(true, Idle)
    requires c in s.members && s.members[c] == Member(false, Idle)
    requires rule.StrayRenewalDies? ==> Stray(a, AskRenew(15.0)) in s.strays
    ensures RunsTo(15.0, s, Ending(rule, a, c), s', {rule}) && TwoReign(s')
  {
    match rule {
      case DeleteInTime =>
        s' := TakeRuns(15.0, s, c, {rule});
        assert b in s'.members && c in s'.members && s'.members[b].Reigns() && s'.members[c].Reigns();
      case StrayRenewalDies =>
        s' := StrayRenewalEnding(s, a, b, c);
      case _ =>
        s' := s;
        assert s.members[a].Reigns() && s.members[b].Reigns();
    }
  }

  /** No rule can be dropped: for each there is a run that obeys the others and ends with two reigning nodes. */
  lemma EveryRuleNeeded(rule: Rule, a: Node, b: Node, c: Node)
    requires a != b && b != c && a != c
    ensures Start(AllIdle(a, b, c)) && RunOk(15.0, AllIdle(a, b, c), Breaking(rule, a, b, c), {rule})
    ensures TwoReign(After(15.0, AllIdle(a, b, c), Breaking(rule, a, b, c), {rule}))
    ensures !OneLeader(After(15.0, AllIdle(a, b, c), Breaking(rule, a, b, c), {rule}))
  {
    var s := OpeningRuns(rule, a, b, c);
    var s' := EndingRuns(rule, s, a, b, c);
    Join(15.0, AllIdle(a, b, c), Opening(rule, a, b), s, Ending(rule, a, c), s', {rule});
  }
}

/** When the worker settles everything it has taken, and the one failure after which it never does. */
module PersistenceProgress {
  import opened Common
  import opened Persistence
  import opened PersistenceSafety

  ghost predicate AllStored(w: World) { forall i :: Taken(w, i) ==> Stored(w, i) }

  ghost predicate AllAcked(w: World) { forall i :: Taken(w, i) ==> i in w.acked }

  /** Some buffered row is already in the table, so that every flush hits the primary key. */
  ghost predicate Jammed(w: World) { exists j :: 0 <= j < |w.buffer| && w.buffer[j].id in w.table }

  lemma JammedIff(log: seq<Body>, w: World, t: nat)
    requires Inv(log, w, t)
    ensures Jammed(w) <==> Head(w) < t
    ensures Jammed(w) <==> Conflict(w.table, w.buffer)
  {
    ConflictIff(log, w, t);
    assert forall j :: 0 <= j < |w.buffer| ==> RowFor(log, w.origin, Head(w) + j, w.buffer[j]);
    assert forall j :: 0 <= j < |w.buffer| ==> w.buffer[j].id == Head(w) + j;
  }

  // ------------------------------------------------------- when a run jams

  /** This pass flushes a non-empty buffer, and the commit takes effect but raises. */
  ghost predicate LosesCommit(cfg: Config, log: seq<Body>, w: World, p: Pass)
    requires w.delivered <= |log|
  {
    var (mid, c) := TakeBatch(cfg, log, w, p);
    p.read.Done? && c.Done? && mid.buffer != [] && FlushDue(cfg, |mid.buffer|, p.now, mid.lastFlush) && p.commit.Lost?
  }

  /** Some pass of the run loses a commit. */
  ghost predicate LosesACommit(cfg: Config, log: seq<Body>, w: World, script: seq<Pass>)
    requires w.delivered <= |log|
    decreases |script|
  {
    script != [] &&
    var (w', end) := Step(cfg, log, w, script[0]);
    LosesCommit(cfg, log, w, script[0]) || (end != Cut(true) && LosesACommit(cfg, log, w', script[1..]))
  }

  /** One flush jams a worker that was not jammed exactly if its commit is lost. */
  lemma FlushJams(log: seq<Body>, w: World, commit: Call, ack: Call, t: nat) returns (t': nat)
    requires Inv(log, w, t) && Head(w) == t
    ensures var w' := FlushAndAck(w, commit, ack).0;
      Inv(log, w', t') && (Head(w') < t' <==> w.buffer != [] && commit.Lost?)
  {
    ConflictIff(log, w, t);
    t' := FlushKeeps(log, w, commit, t);
    var w1 := Flush(w, commit).0;
    if w1.buffer == [] { AckPendingKeeps(log, w1, ack, t'); }
  }

  lemma DecideJams(cfg: Config, log: seq<Body>, w: World, p: Pass, t: nat) returns (t': nat)
    requires Inv(log, w, t) && Head(w) == t
    ensures var w' := Decide(cfg, w, p).0;
      && Inv(log, w', t')
      && (Head(w') < t' <==> w.buffer != [] && FlushDue(cfg, |w.buffer|, p.now, w.lastFlush) && p.commit.Lost?)
  {
    t' := FlushJams(log, w, p.commit, p.ack, t);
    StampKeeps(log, FlushAndAck(w, p.commit, p.ack).0, p.later, t');
    if !FlushDue(cfg, |w.buffer|, p.now, w.lastFlush) { t' := t; }
  }

  lemma StepJams(cfg: Config, log: seq<Body>, w: World, p: Pass, t: nat) returns (t': nat)
    requires Inv(log, w, t) && Head(w) == t
    ensures var w' := Step(cfg, log, w, p).0;
      Inv(log, w', t') && (Head(w') < t' <==> LosesCommit(cfg, log, w, p))
  {
    t' := t;
    var w' := Step(cfg, log, w, p).0;
    var (mid, c) := TakeBatch(cfg, log, w, p);
    BatchKeeps(cfg, log, w, p, t);
    if p.read.Failed? {
      assert w' == w;
    } else if p.read.Lost? {
      DeliverKeeps(log, w, w'.delivered, t);
    } else if !c.Done? {
      assert w' == mid;
    } else {
      t' := DecideJams(cfg, log, mid, p, t);
      assert w' == Decide(cfg, mid, p).0;
    }
  }

  /** A buffered row that is already committed makes the flush fail whatever the environment does. */
  lemma FlushJammed(log: seq<Body>, w: World, commit: Call, ack: Call, t: nat)
    requires Inv(log, w, t) && Head(w) < t
    ensures FlushAndAck(w, commit, ack).0 == w && !FlushAndAck(w, commit, ack).1.Done?
  {
    ConflictIff(log, w, t);
  }

  /** Nothing more is stored, and only malformed entries are acknowledged. */
  ghost predicate Stuck(log: seq<Body>, w: World, w': World) {
    && w'.table == w.table && w.buffer <= w'.buffer
    && forall i :: i in w'.acked && i !in w.acked ==> i < |log| && log[i].Malformed?
  }

  lemma BatchStuck(cfg: Config, log: seq<Body>, w: World, p: Pass)
    requires w.delivered <= |log|
    ensures Stuck(log, w, TakeBatch(cfg, log, w, p).0)
  {
    var hi := w.delivered + Fetched(cfg, log, w.delivered, p.count);
    AbsorbGrows(log, w.(delivered := hi), w.delivered, hi, p.badAcks);
  }

  lemma StepStuck(cfg: Config, log: seq<Body>, w: World, p: Pass, t: nat)
    requires Inv(log, w, t) && Head(w) < t
    ensures var w' := Step(cfg, log, w, p).0;
      Inv(log, w', t) && Head(w') < t && Stuck(log, w, w')
  {
    var w', mid := Step(cfg, log, w, p).0, TakeBatch(cfg, log, w, p).0;
    BatchKeeps(cfg, log, w, p, t);
    BatchStuck(cfg, log, w, p);
    FlushJammed(log, mid, p.commit, p.ack, t);
    assert w' == w || w' == mid || w' == w.(delivered := w'.delivered);
    if p.read.Lost? { DeliverKeeps(log, w, w'.delivered, t); }
  }

  lemma {:induction false} RunStuck(cfg: Config, log: seq<Body>, w: World, script: seq<Pass>, t: nat)
    requires Inv(log, w, t) && Head(w) < t
    ensures var w' := Run(cfg, log, w, script);
      Inv(log, w', t) && Head(w') < t && Stuck(log, w, w')
    decreases |script|
  {
    if script != [] {
      StepStuck(cfg, log, w, script[0], t);
      var (w', end) := Step(cfg, log, w, script[0]);
      if end != Cut(true) { RunStuck(cfg, log, w', script[1..], t); }
    }
  }

  lemma {:induction false} RunJams(cfg: Config, log: seq<Body>, w: World, script: seq<Pass>, t: nat) returns (t': nat)
    requires Inv(log, w, t) && Head(w) == t
    ensures var w' := Run(cfg, log, w, script);
      Inv(log, w', t') && (Head(w') < t' <==> LosesACommit(cfg, log, w, script))
    decreases |script|
  {
    t' := t;
    if script != [] {
      t' := StepJams(cfg, log, w, script[0], t);
      var (w', end) := Step(cfg, log, w, script[0]);
      if end != Cut(true) {
        if Head(w') < t' {
          RunStuck(cfg, log, w', script[1..], t');
        } else {
          t' := RunJams(cfg, log, w', script[1..], t');
        }
      }
    }
  }

  /** A run ends jammed exactly if one of its flushes had a commit that took effect and raised. */
  lemma JamsExactly(cfg: Config, log: seq<Body>, start: real, script: seq<Pass>)
    ensures Jammed(Run(cfg, log, Fresh(start), script)) <==> LosesACommit(cfg, log, Fresh(start), script)
  {
    var t := RunJams(cfg, log, Fresh(start), script, 0);
    JammedIff(log, Run(cfg, log, Fresh(start), script), t);
  }

  /**
   * Jammed is for good: after a run with such a commit no continuation and no shutdown flush adds a row
   * or acknowledges a readable entry.
   */
  lemma LostCommitJams(cfg: Config, log: seq<Body>, start: real, script: seq<Pass>, more: seq<Pass>,
                       commit: Call, ack: Call)
    requires LosesACommit(cfg, log, Fresh(start), script)
    ensures var w := Run(cfg, log, Fresh(start), script);
      && Stuck(log, w, Run(cfg, log, w, more)) && Jammed(Run(cfg, log, w, more))
      && Shutdown(Run(cfg, log, w, more), commit, ack) == Run(cfg, log, w, more)
  {
    var w := Run(cfg, log, Fresh(start), script);
    var t := RunJams(cfg, log, Fresh(start), script, 0);
    RunStuck(cfg, log, w, more, t);
    var w' := Run(cfg, log, w, more);
    JammedIff(log, w', t);
    FlushJammed(log, w', commit, ack, t);
  }

  /** The rows of that commit are stored, once, but stay buffered, and their entries stay unacknowledged. */
  lemma LostCommitStores(cfg: Config, log: seq<Body>, start: real, script: seq<Pass>, p: Pass)
    requires !LosesACommit(cfg, log, Fresh(start), script)
    requires LosesCommit(cfg, log, Run(cfg, log, Fresh(start), script), p)
    ensures var w := Run(cfg, log, Fresh(start), script);
      var mid, w' := TakeBatch(cfg, log, w, p).0, Step(cfg, log, w, p).0;
      AllStored(w') && w'.buffer == mid.buffer && w'.acked == mid.acked && NothingLostByAck(log, w')
  {
    var w := Run(cfg, log, Fresh(start), script);
    var mid, w' := TakeBatch(cfg, log, w, p).0, Step(cfg, log, w, p).0;
    var t := RunJams(cfg, log, Fresh(start), script, 0);
    BatchKeeps(cfg, log, w, p, t);
    ConflictIff(log, mid, t);
    var t' := FlushKeeps(log, mid, p.commit, t);
    assert w' == Flush(mid, p.commit).0;
    InvObserved(log, w', t');
    forall i | Taken(w', i) ensures Stored(w', i) {
      var k :| 0 <= k < |w'.origin| && w'.origin[k] == i;
      assert k in w'.table;
    }
  }

  /** One pass is enough: the first reading arrives, its flush is due, and the reply to the commit is lost. */
  lemma CommitCanBeLost(cfg: Config, start: real, r: Reading) returns (log: seq<Body>, script: seq<Pass>)
    requires cfg.batchSize > 0
    ensures LosesACommit(cfg, log, Fresh(start), script)
  {
    var p := Pass(Done, 1, [], start + cfg.flushInterval, Lost(false), Done, start);
    log, script := [Parsed(r)], [p];
    var w1 := Fresh(start).(delivered := 1);
    assert Absorb(log, Keep(w1, 0, r), 1, 1, []) == (Keep(w1, 0, r), Done);
    assert TakeBatch(cfg, log, Fresh(start), p) == (Keep(w1, 0, r), Done);
  }

  // ------------------------------------------------- settling what was taken

  lemma EmptyBufferStored(log: seq<Body>, w: World, t: nat)
    requires Inv(log, w, t) && w.buffer == []
    ensures AllStored(w)
  {
    forall i | Taken(w, i) ensures Stored(w, i) {
      var k :| 0 <= k < |w.origin| && w.origin[k] == i;
      assert k in w.table;
    }
  }

  /** Everything older than `pending_ids` is acknowledged. */
  lemma NothingPendingAcked(log: seq<Body>, w: World, t: nat)
    requires Inv(log, w, t) && w.pending == []
    ensures AllAcked(w)
  {
    forall i | Taken(w, i) ensures i in w.acked {
      var k :| 0 <= k < |w.origin| && w.origin[k] == i;
    }
  }

  /** A buffered entry is never acknowledged. */
  lemma BufferedUnacked(log: seq<Body>, w: World, t: nat)
    requires Inv(log, w, t) && w.buffer != []
    ensures !AllAcked(w)
  {
    var k := Head(w);
    assert Taken(w, w.origin[k]);
    Positions(log, w, t, k);
    assert RowFor(log, w.origin, k, w.buffer[0]);
  }

  lemma FlushSettles(log: seq<Body>, w: World, t: nat)
    requires Inv(log, w, t) && Head(w) == t
    ensures var w' := FlushAndAck(w, Done, Done).0;
      w'.origin == w.origin && w'.buffer == [] && w'.pending == [] && AllStored(w') && AllAcked(w')
  {
    var w' := FlushAndAck(w, Done, Done).0;
    assert w'.origin == w.origin && w'.buffer == [] && w'.pending == [] by { ConflictIff(log, w, t); }
    var t' := FlushAndAckKeeps(log, w, Done, Done, t);
    EmptyBufferStored(log, w', t');
    NothingPendingAcked(log, w', t');
  }

  /** After any run, one successful flush and ack settles everything taken, exactly if no commit was lost. */
  lemma RetrySettles(cfg: Config, log: seq<Body>, start: real, script: seq<Pass>)
    ensures var w := Run(cfg, log, Fresh(start), script);
      var w' := FlushAndAck(w, Done, Done).0;
      && (AllAcked(w') <==> !LosesACommit(cfg, log, Fresh(start), script))
      && (AllAcked(w') ==> w'.origin == w.origin && w'.buffer == [] && w'.pending == [] && AllStored(w'))
  {
    var w := Run(cfg, log, Fresh(start), script);
    var t := RunJams(cfg, log, Fresh(start), script, 0);
    if Head(w) < t {
      FlushJammed(log, w, Done, Done, t);
      BufferedUnacked(log, w, t);
    } else {
      FlushSettles(log, w, t);
    }
  }

  /** With nothing to flush, everything taken is acknowledged exactly if everything pending is. */
  lemma PendingAcked(log: seq<Body>, w: World, t: nat)
    requires Inv(log, w, t)
    ensures AllAcked(w) <==> Elements(w.pending) <= w.acked
  {
    PendingTaken(w);
    assert forall i :: i in w.pending ==> Taken(w, i);
    forall i | Taken(w, i) && i !in w.acked ensures i in w.pending {
      var k :| 0 <= k < |w.origin| && w.origin[k] == i;
      Positions(log, w, t, k);
    }
  }

  /**
   * After any run, a clean shutdown acknowledges every entry taken exactly if no commit was lost and there
   * was a row to flush, or nothing pending was unacknowledged: an empty buffer leaves `pending_ids` as it is.
   */
  lemma ShutdownSettles(cfg: Config, log: seq<Body>, start: real, script: seq<Pass>)
    ensures var w := Run(cfg, log, Fresh(start), script);
      AllAcked(Shutdown(w, Done, Done)) <==>
        if w.buffer != [] then !LosesACommit(cfg, log, Fresh(start), script) else Elements(w.pending) <= w.acked
  {
    var w := Run(cfg, log, Fresh(start), script);
    var t := RunJams(cfg, log, Fresh(start), script, 0);
    if w.buffer != [] {
      RetrySettles(cfg, log, start, script);
    } else {
      PendingAcked(log, w, t);
    }
  }

  // ---------------------------------------------------------------- timeliness

  lemma {:induction false} AbsorbClean(log: seq<Body>, w: World, i: nat, hi: nat, acks: seq<Call>)
    requires i <= hi <= |log| && forall c :: c in acks ==> c.Done?
    ensures Absorb(log, w, i, hi, acks).1.Done?
    decreases hi - i
  {
    if i < hi {
      match log[i] {
        case Parsed(r) => AbsorbClean(log, Keep(w, i, r), i + 1, hi, Rest(acks));
        case Malformed => AbsorbClean(log, Acknowledge(w, {i}, First(acks)), i + 1, hi, Rest(acks));
      }
    }
  }

  ghost predicate Clean(p: Pass) {
    p.read.Done? && p.commit.Done? && p.ack.Done? && forall c :: c in p.badAcks ==> c.Done?
  }

  lemma DecideSettles(cfg: Config, log: seq<Body>, w: World, p: Pass, t: nat)
    requires Inv(log, w, t) && p.commit.Done? && p.ack.Done? && p.now - w.lastFlush >= cfg.flushInterval
    ensures var (w', end) := Decide(cfg, w, p);
      && (end.Completed? <==> Head(w) == t)
      && (end.Completed? ==> w'.buffer == [] && AllStored(w') && (w.buffer != [] ==> AllAcked(w')))
  {
    if Head(w) < t {
      FlushJammed(log, w, p.commit, p.ack, t);
    } else {
      var w' := Decide(cfg, w, p).0;
      assert Decide(cfg, w, p).1.Completed? && w'.buffer == [] && (w.buffer != [] ==> w'.pending == []) by {
        ConflictIff(log, w, t);
      }
      var t' := DecideKeeps(cfg, log, w, p, t);
      EmptyBufferStored(log, w', t');
      if w.buffer != [] { NothingPendingAcked(log, w', t'); }
    }
  }

  /**
   * Timeliness: after any run, a failure-free pass once the flush interval has passed completes exactly if
   * no commit was lost; then every taken entry is stored, and acknowledged too if there was a row to flush.
   */
  lemma CleanPassSettles(cfg: Config, log: seq<Body>, start: real, script: seq<Pass>, p: Pass)
    requires Clean(p) && p.now - Run(cfg, log, Fresh(start), script).lastFlush >= cfg.flushInterval
    ensures var w := Run(cfg, log, Fresh(start), script);
      var (w', end) := Step(cfg, log, w, p);
      && (end.Completed? <==> !LosesACommit(cfg, log, Fresh(start), script))
      && (end.Completed? ==> w'.buffer == [] && AllStored(w'))
      && (end.Completed? && TakeBatch(cfg, log, w, p).0.buffer != [] ==> AllAcked(w'))
  {
    var w := Run(cfg, log, Fresh(start), script);
    var t := RunJams(cfg, log, Fresh(start), script, 0);
    var hi := w.delivered + Fetched(cfg, log, w.delivered, p.count);
    AbsorbClean(log, w.(delivered := hi), w.delivered, hi, p.badAcks);
    BatchKeeps(cfg, log, w, p, t);
    DecideSettles(cfg, log, TakeBatch(cfg, log, w, p).0, p, t);
  }

  // ------------------------------------------------------- the flush timer

  /** The pass wrote its rows out and completed. */
  ghost predicate Flushes(cfg: Config, log: seq<Body>, w: World, p: Pass)
    requires w.delivered <= |log|
  {
    var (w', end) := Step(cfg, log, w, p);
    p.read.Done? && end.Completed? && TakeBatch(cfg, log, w, p).0.buffer != [] && w'.buffer == []
  }

  /** When the last flush of the run completed, or `since` if none did. */
  ghost function FlushedAt(cfg: Config, log: seq<Body>, w: World, script: seq<Pass>, since: real): real
    requires w.delivered <= |log|
    decreases |script|
  {
    if script == [] then since
    else
      var (w', end) := Step(cfg, log, w, script[0]);
      var at := if Flushes(cfg, log, w, script[0]) then script[0].later else since;
      if end == Cut(true) then at else FlushedAt(cfg, log, w', script[1..], at)
  }

  lemma StepStamp(cfg: Config, log: seq<Body>, w: World, p: Pass)
    requires w.delivered <= |log| && cfg.batchSize > 0
    ensures Step(cfg, log, w, p).0.lastFlush == if Flushes(cfg, log, w, p) then p.later else w.lastFlush
  {
    var hi := w.delivered + Fetched(cfg, log, w.delivered, p.count);
    AbsorbGrows(log, w.(delivered := hi), w.delivered, hi, p.badAcks);
  }

  lemma {:induction false} StampIsLastFlush(cfg: Config, log: seq<Body>, w: World, script: seq<Pass>)
    requires w.delivered <= |log| && cfg.batchSize > 0
    ensures Run(cfg, log, w, script).lastFlush == FlushedAt(cfg, log, w, script, w.lastFlush)
    decreases |script|
  {
    if script != [] {
      StepStamp(cfg, log, w, script[0]);
      var (w', end) := Step(cfg, log, w, script[0]);
      if end != Cut(true) { StampIsLastFlush(cfg, log, w', script[1..]); }
    }
  }

  /**
   * No flush comes early: after any run, a pass that does more than take its batch holds a full batch, or the flush
   * interval has passed since the last completed flush.
   */
  lemma NoEarlyFlush(cfg: Config, log: seq<Body>, start: real, script: seq<Pass>, p: Pass)
    requires cfg.batchSize > 0 && p.read.Done?
    ensures var w := Run(cfg, log, Fresh(start), script);
      var w', mid := Step(cfg, log, w, p).0, TakeBatch(cfg, log, w, p).0;
      w' == mid || |mid.buffer| >= cfg.batchSize
      || p.now - FlushedAt(cfg, log, Fresh(start), script, start) >= cfg.flushInterval
  {
    var w := Run(cfg, log, Fresh(start), script);
    StampIsLastFlush(cfg, log, Fresh(start), script);
    var hi := w.delivered + Fetched(cfg, log, w.delivered, p.count);
    assert TakeBatch(cfg, log, w, p).0.lastFlush == w.lastFlush;
  }

  /** How many records there were when the last flush of the run completed, or `settled` if none did. */
  ghost function SettledAt(cfg: Config, log: seq<Body>, w: World, script: seq<Pass>, settled: nat): nat
    requires w.delivered <= |log|
    decreases |script|
  {
    if script == [] then settled
    else
      var (w', end) := Step(cfg, log, w, script[0]);
      var now := if Flushes(cfg, log, w, script[0]) then |w'.origin| else settled;
      if end == Cut(true) then now else SettledAt(cfg, log, w', script[1..], now)
  }

  /** A pass clears `pending_ids` exactly if it completes a flush; otherwise it only adds the entries it takes. */
  lemma StepPending(cfg: Config, log: seq<Body>, w: World, p: Pass)
    requires w.delivered <= |log| && cfg.batchSize > 0
    ensures var w' := Step(cfg, log, w, p).0;
      && w.origin <= w'.origin
      && (Flushes(cfg, log, w, p) ==> w'.pending == [])
      && (!Flushes(cfg, log, w, p) ==> w.pending <= w'.pending)
      && (!Flushes(cfg, log, w, p) ==> |w'.pending| - |w.pending| == |w'.origin| - |w.origin|)
  {
    var hi := w.delivered + Fetched(cfg, log, w.delivered, p.count);
    AbsorbGrows(log, w.(delivered := hi), w.delivered, hi, p.badAcks);
  }

  lemma {:induction false} PendingFrom(cfg: Config, log: seq<Body>, w: World, script: seq<Pass>, settled: nat)
    requires w.delivered <= |log| && cfg.batchSize > 0 && |w.pending| == |w.origin| - settled
    ensures var w' := Run(cfg, log, w, script);
      |w'.pending| == |w'.origin| - SettledAt(cfg, log, w, script, settled)
    decreases |script|
  {
    if script != [] {
      StepPending(cfg, log, w, script[0]);
      var (w', end) := Step(cfg, log, w, script[0]);
      var now := if Flushes(cfg, log, w, script[0]) then |w'.origin| else settled;
      if end != Cut(true) { PendingFrom(cfg, log, w', script[1..], now); }
    }
  }

  /** `pending_ids` names exactly the entries taken since the last completed flush, acknowledged or not. */
  lemma PendingExactly(cfg: Config, log: seq<Body>, start: real, script: seq<Pass>)
    requires cfg.batchSize > 0
    ensures var w, settled := Run(cfg, log, Fresh(start), script), SettledAt(cfg, log, Fresh(start), script, 0);
      settled <= |w.origin| && w.pending == w.origin[settled..]
  {
    PendingFrom(cfg, log, Fresh(start), script, 0);
    var t := ReachableInv(cfg, log, start, script);
  }

  // ------------------------------------------------------------ cancellation

  /** The first malformed entry from i on whose ack was not answered. */
  ghost predicate FirstBad(log: seq<Body>, i: nat, hi: nat, acks: seq<Call>, j: nat)
    requires i <= hi <= |log|
  {
    && i <= j < hi && log[j].Malformed? && !AckAt(acks, j - i).Done?
    && forall k :: i <= k < j && log[k].Malformed? ==> AckAt(acks, k - i).Done?
  }

  lemma FirstBadNext(log: seq<Body>, i: nat, hi: nat, acks: seq<Call>, j: nat)
    requires i < j < hi <= |log| && FirstBad(log, i, hi, acks, j)
    ensures FirstBad(log, i + 1, hi, Rest(acks), j) && (log[i].Malformed? ==> First(acks).Done?)
    ensures AckAt(Rest(acks), j - i - 1) == AckAt(acks, j - i)
  {
    forall k | i + 1 <= k < j && log[k].Malformed? ensures AckAt(Rest(acks), k - i - 1).Done? {
      assert AckAt(Rest(acks), k - i - 1) == AckAt(acks, k - i);
    }
    assert log[i].Malformed? ==> AckAt(acks, i - i).Done?;
  }

  /** A batch ends with the ack of the first malformed entry that was not answered. */
  lemma {:induction false} BatchEnds(log: seq<Body>, w: World, i: nat, hi: nat, acks: seq<Call>, j: nat)
    requires i <= hi <= |log| && FirstBad(log, i, hi, acks, j)
    ensures Absorb(log, w, i, hi, acks).1 == AckAt(acks, j - i)
    decreases hi - i
  {
    if i < j {
      FirstBadNext(log, i, hi, acks, j);
      match log[i] {
        case Parsed(r) => BatchEnds(log, Keep(w, i, r), i + 1, hi, Rest(acks), j);
        case Malformed => BatchEnds(log, Acknowledge(w, {i}, First(acks)), i + 1, hi, Rest(acks), j);
      }
    }
  }

  ghost predicate Cancels(c: Call) { !c.Done? && c.cancelled }

  /** The flush of this pass is cancelled: its commit, or the ack that follows a commit that was answered. */
  ghost predicate FlushCancelled(w: World, p: Pass) {
    || (w.buffer != [] && Cancels(p.commit))
    || ((w.buffer == [] || (p.commit.Done? && !Conflict(w.table, w.buffer))) && w.pending != [] && Cancels(p.ack))
  }

  /** A pass ends in a cancellation exactly if the call that ended it was cancelled. */
  lemma CancelledExactly(cfg: Config, log: seq<Body>, w: World, p: Pass)
    requires w.delivered <= |log|
    ensures var (mid, c) := TakeBatch(cfg, log, w, p);
      Step(cfg, log, w, p).1 == Cut(true) <==>
        || Cancels(p.read)
        || (p.read.Done? && Cancels(c))
        || (p.read.Done? && c.Done? && FlushDue(cfg, |mid.buffer|, p.now, w.lastFlush) && FlushCancelled(mid, p))
  {
  }

  /** No pass of the script is cancelled. */
  ghost predicate Undisturbed(cfg: Config, log: seq<Body>, w: World, script: seq<Pass>)
    requires w.delivered <= |log|
    decreases |script|
  {
    script == [] || (
      var (w', end) := Step(cfg, log, w, script[0]);
      end != Cut(true) && Undisturbed(cfg, log, w', script[1..]))
  }

  /** The loop takes pass after pass and ends with the first cancelled one: nothing is read after it. */
  lemma {:induction false} CancelStops(cfg: Config, log: seq<Body>, w: World, a: seq<Pass>, p: Pass, b: seq<Pass>)
    requires w.delivered <= |log| && Undisturbed(cfg, log, w, a)
    ensures var (w', end) := Step(cfg, log, Run(cfg, log, w, a), p);
      w'.delivered <= |log| && Run(cfg, log, w, a + [p] + b) == if end == Cut(true) then w' else Run(cfg, log, w', b)
    decreases |a|
  {
    var all := a + [p] + b;
    if a == [] {
      assert all[0] == p && all[1..] == b;
      DeliveredWithin(cfg, log, w, p);
    } else {
      assert all[0] == a[0] && all[1..] == a[1..] + [p] + b;
      CancelStops(cfg, log, Step(cfg, log, w, a[0]).0, a[1..], p, b);
    }
  }

  lemma DeliveredWithin(cfg: Config, log: seq<Body>, w: World, p: Pass)
    requires w.delivered <= |log|
    ensures Step(cfg, log, w, p).0.delivered <= |log|
  {
  }
}

/** What every run of the stream-to-Postgres worker keeps, whatever fails and whenever. */
module PersistenceSafety {
  import opened Common
  import opened Persistence

  // ------------------------------------------------------------ observations

  /** Some row of the table was created for entry i. */
  ghost predicate Stored(w: World, i: nat) {
    exists k :: k in w.table && k < |w.origin| && w.origin[k] == i
  }

  ghost predicate Buffered(w: World, i: nat) {
    exists j :: 0 <= j < |w.buffer| && w.buffer[j].id < |w.origin| && w.origin[w.buffer[j].id] == i
  }

  /** Entry i was parsed and given a record. */
  ghost predicate Taken(w: World, i: nat) { i in w.origin }

  // --------------------------------------------------------------- invariant

  /** First record still in the buffer. */
  ghost function Head(w: World): int { |w.origin| - |w.buffer| }

  /** First record whose entry is still in `pending_ids`. */
  ghost function Unacked(w: World): int { |w.origin| - |w.pending| }

  /** `row` is the k-th record, made from the reading of its entry. */
  ghost predicate RowFor(log: seq<Body>, origin: seq<nat>, k: int, row: Row) {
    && 0 <= k < |origin| && origin[k] < |log| && log[origin[k]].Parsed?
    && var r := log[origin[k]].reading;
       row.id == k && row.deviceId == r.deviceId && row.deviceType == r.deviceType && row.timestamp == r.timestamp
       && row.payload == r.payload && row.metadata == r.metadata
  }

  /** Records are created in stream order, from delivered entries that parse. */
  ghost predicate OriginOk(log: seq<Body>, delivered: nat, origin: seq<nat>) {
    && delivered <= |log|
    && (forall i, j :: 0 <= i < j < |origin| ==> origin[i] < origin[j])
    && (forall k :: 0 <= k < |origin| ==> origin[k] < delivered && log[origin[k]].Parsed?)
  }

  /** The buffer holds the newest records, in order. */
  ghost predicate BufferOk(log: seq<Body>, origin: seq<nat>, buffer: seq<Row>) {
    forall j :: 0 <= j < |buffer| ==> RowFor(log, origin, |origin| - |buffer| + j, buffer[j])
  }

  /** `pending_ids` names the entries of the newest records, in order. */
  ghost predicate PendingOk(origin: seq<nat>, pending: seq<nat>) {
    && |pending| <= |origin|
    && forall j :: 0 <= j < |pending| ==> pending[j] == origin[|origin| - |pending| + j]
  }

  /** The table is exactly the oldest t records. */
  ghost predicate TableOk(log: seq<Body>, origin: seq<nat>, table: map<nat, Row>, t: nat) {
    && (forall k :: k in table <==> 0 <= k < t)
    && (forall k :: k in table ==> RowFor(log, origin, k, table[k]))
  }

  /** Acked entries are malformed or have a record older than the buffer; records older than `pending_ids` are acked. */
  ghost predicate AckOk(log: seq<Body>, delivered: nat, origin: seq<nat>, acked: set<nat>, unacked: int, head: int) {
    && (forall i :: i in acked ==> i < delivered && i < |log| && (log[i].Malformed? || OlderThan(origin, i, head)))
    && (forall k :: 0 <= k < unacked && k < |origin| ==> origin[k] in acked)
  }

  ghost predicate OlderThan(origin: seq<nat>, i: nat, head: int) {
    exists k :: 0 <= k < head && k < |origin| && origin[k] == i
  }

  /**
   * Committed records are a prefix [0, t), buffered ones a suffix [Head, ..), and
   * `pending_ids` names a suffix that starts no later: committed but unacknowledged
   * entries, then the buffered ones in order. Head < t happens only after a commit
   * that took effect and then raised.
   */
  ghost predicate Inv(log: seq<Body>, w: World, t: nat) {
    && 0 <= Unacked(w) <= Head(w) <= t <= |w.origin|
    && OriginOk(log, w.delivered, w.origin)
    && PendingOk(w.origin, w.pending)
    && BufferOk(log, w.origin, w.buffer)
    && TableOk(log, w.origin, w.table, t)
    && AckOk(log, w.delivered, w.origin, w.acked, Unacked(w), Head(w))
  }

  // ------------------------------------------------- every step keeps it

  lemma RowStays(log: seq<Body>, origin: seq<nat>, i: nat, k: int, row: Row)
    requires RowFor(log, origin, k, row)
    ensures RowFor(log, origin + [i], k, row)
  {
    assert (origin + [i])[k] == origin[k];
  }

  lemma TableStays(log: seq<Body>, origin: seq<nat>, table: map<nat, Row>, t: nat, i: nat)
    requires TableOk(log, origin, table, t)
    ensures TableOk(log, origin + [i], table, t)
  {
    forall k | k in table ensures RowFor(log, origin + [i], k, table[k]) { RowStays(log, origin, i, k, table[k]); }
  }

  lemma BufferGrows(log: seq<Body>, origin: seq<nat>, buffer: seq<Row>, i: nat, r: Reading)
    requires BufferOk(log, origin, buffer) && i < |log| && log[i] == Parsed(r)
    ensures BufferOk(log, origin + [i], buffer + [ToRow(|origin|, r)])
  {
    var o, b := origin + [i], buffer + [ToRow(|origin|, r)];
    forall j | 0 <= j < |b| ensures RowFor(log, o, |o| - |b| + j, b[j]) {
      if j < |buffer| { RowStays(log, origin, i, |origin| - |buffer| + j, buffer[j]); }
    }
  }

  lemma AckStays(log: seq<Body>, w: World, i: nat)
    requires AckOk(log, w.delivered, w.origin, w.acked, Unacked(w), Head(w)) && 0 <= Unacked(w) <= |w.origin|
    ensures AckOk(log, w.delivered, w.origin + [i], w.acked, Unacked(w), Head(w))
  {
    var o := w.origin + [i];
    forall e | e in w.acked && !log[e].Malformed? ensures OlderThan(o, e, Head(w)) {
      var k :| 0 <= k < Head(w) && k < |w.origin| && w.origin[k] == e;
      assert o[k] == e;
    }
  }

  lemma KeepKeeps(log: seq<Body>, w: World, i: nat, r: Reading, t: nat)
    requires Inv(log, w, t) && i < w.delivered && log[i] == Parsed(r)
    requires forall k :: 0 <= k < |w.origin| ==> w.origin[k] < i
    ensures Inv(log, Keep(w, i, r), t)
  {
    TableStays(log, w.origin, w.table, t, i);
    BufferGrows(log, w.origin, w.buffer, i, r);
    AckStays(log, w, i);
  }

  lemma {:induction false} AbsorbKeeps(log: seq<Body>, w: World, i: nat, hi: nat, acks: seq<Call>, t: nat)
    requires Inv(log, w, t) && i <= hi <= w.delivered
    requires forall k :: 0 <= k < |w.origin| ==> w.origin[k] < i
    ensures Inv(log, Absorb(log, w, i, hi, acks).0, t)
    decreases hi - i
  {
    if i < hi {
      match log[i] {
        case Parsed(r) =>
          KeepKeeps(log, w, i, r, t);
          AbsorbKeeps(log, Keep(w, i, r), i + 1, hi, Rest(acks), t);
        case Malformed =>
          var w' := Acknowledge(w, {i}, First(acks));
          assert Inv(log, w', t);
          if First(acks).Done? { AbsorbKeeps(log, w', i + 1, hi, Rest(acks), t); }
      }
    }
  }

  lemma {:induction false} InsertAllAdds(table: map<nat, Row>, rows: seq<Row>, lo: nat, k: nat)
    requires forall j :: 0 <= j < |rows| ==> rows[j].id == lo + j
    ensures k in InsertAll(table, rows) <==> k in table || lo <= k < lo + |rows|
    ensures k in InsertAll(table, rows) ==>
      InsertAll(table, rows)[k] == if lo <= k < lo + |rows| then rows[k - lo] else table[k]
  {
    if rows != [] { InsertAllAdds(table, rows[..|rows| - 1], lo, k); }
  }

  /** The bulk insert hits the primary key exactly when a buffered row is already committed. */
  lemma ConflictIff(log: seq<Body>, w: World, t: nat)
    requires Inv(log, w, t)
    ensures Conflict(w.table, w.buffer) <==> Head(w) < t
  {
    assert forall j :: 0 <= j < |w.buffer| ==> RowFor(log, w.origin, Head(w) + j, w.buffer[j]);
    assert forall j :: 0 <= j < |w.buffer| ==> w.buffer[j].id == Head(w) + j;
    if Head(w) < t {
      assert w.buffer[0].id in w.table;
    }
  }

  /** Committing the buffer extends the committed prefix to all records. */
  lemma CommittedTable(log: seq<Body>, origin: seq<nat>, table: map<nat, Row>, rows: seq<Row>)
    requires |rows| <= |origin| && BufferOk(log, origin, rows) && TableOk(log, origin, table, |origin| - |rows|)
    ensures TableOk(log, origin, InsertAll(table, rows), |origin|)
  {
    var t := |origin| - |rows|;
    assert forall j :: 0 <= j < |rows| ==> RowFor(log, origin, t + j, rows[j]);
    var table' := InsertAll(table, rows);
    forall k: nat ensures k in table' <==> k < |origin| { InsertAllAdds(table, rows, t, k); }
    forall k | k in table' ensures RowFor(log, origin, k, table'[k]) {
      InsertAllAdds(table, rows, t, k);
      if t <= k { assert RowFor(log, origin, t + (k - t), rows[k - t]); }
    }
  }

  lemma FlushKeeps(log: seq<Body>, w: World, c: Call, t: nat) returns (t': nat)
    requires Inv(log, w, t)
    ensures t <= t' && Inv(log, Flush(w, c).0, t')
    ensures Flush(w, c).0.buffer == [] ==> t' == |w.origin|
    ensures t' == if w.buffer != [] && Head(w) == t && c.Effective() then |w.origin| else t
  {
    ConflictIff(log, w, t);
    var w' := Flush(w, c).0;
    if w.buffer != [] && Head(w) == t && c.Effective() {
      t' := |w.origin|;
      assert w'.table == InsertAll(w.table, w.buffer);
      CommittedTable(log, w.origin, w.table, w.buffer);
      AckWeaken(log, w, Head(w'));
    } else {
      t' := t;
      assert w' == w;
    }
  }

  lemma AckWeaken(log: seq<Body>, w: World, head: int)
    requires AckOk(log, w.delivered, w.origin, w.acked, Unacked(w), Head(w)) && Head(w) <= head
    ensures AckOk(log, w.delivered, w.origin, w.acked, Unacked(w), head)
  {
    forall i | i in w.acked && !log[i].Malformed? ensures OlderThan(w.origin, i, head) {
      var k :| 0 <= k < Head(w) && k < |w.origin| && w.origin[k] == i;
    }
  }

  /** After a successful flush everything pending is committed, so it may be acknowledged. */
  lemma AckPendingKeeps(log: seq<Body>, w: World, ack: Call, t: nat)
    requires Inv(log, w, t) && w.buffer == []
    ensures Inv(log, Acknowledge(w, Elements(w.pending), ack), t)
    ensures ack.Effective() ==> Inv(log, Acknowledge(w, Elements(w.pending), ack).(pending := []), t)
  {
    if ack.Effective() {
      var acked := w.acked + Elements(w.pending);
      forall i | i in acked ensures i < w.delivered && (log[i].Malformed? || OlderThan(w.origin, i, |w.origin|)) {
        if i !in w.acked {
          var j :| 0 <= j < |w.pending| && w.pending[j] == i;
          assert w.origin[Unacked(w) + j] == i;
        }
      }
      forall k | 0 <= k < |w.origin| ensures w.origin[k] in acked {
        if Unacked(w) <= k { assert w.pending[k - Unacked(w)] == w.origin[k]; }
      }
    }
  }

  lemma FlushAndAckKeeps(log: seq<Body>, w: World, commit: Call, ack: Call, t: nat) returns (t': nat)
    requires Inv(log, w, t)
    ensures t <= t' && Inv(log, FlushAndAck(w, commit, ack).0, t')
    ensures Head(w) < t ==> t' == t
  {
    t' := FlushKeeps(log, w, commit, t);
    var w1 := Flush(w, commit).0;
    if w1.buffer == [] { AckPendingKeeps(log, w1, ack, t'); }
  }

  lemma DeliverKeeps(log: seq<Body>, w: World, hi: nat, t: nat)
    requires Inv(log, w, t) && w.delivered <= hi <= |log|
    ensures Inv(log, w.(delivered := hi), t)
  {
  }

  lemma DecideKeeps(cfg: Config, log: seq<Body>, w: World, p: Pass, t: nat) returns (t': nat)
    requires Inv(log, w, t)
    ensures t <= t' && Inv(log, Decide(cfg, w, p).0, t')
    ensures Head(w) < t ==> t' == t
  {
    t' := FlushAndAckKeeps(log, w, p.commit, p.ack, t);
    StampKeeps(log, FlushAndAck(w, p.commit, p.ack).0, p.later, t');
    if !FlushDue(cfg, |w.buffer|, p.now, w.lastFlush) { t' := t; }
  }

  /** Taking a batch keeps the invariant and leaves the committed and the flushed prefix where they are. */
  lemma BatchKeeps(cfg: Config, log: seq<Body>, w: World, p: Pass, t: nat)
    requires Inv(log, w, t)
    ensures var mid := TakeBatch(cfg, log, w, p).0;
      && Inv(log, mid, t) && Head(mid) == Head(w)
      && mid.table == w.table && mid.lastFlush == w.lastFlush && w.buffer <= mid.buffer
  {
    var lo := w.delivered;
    var hi := lo + Fetched(cfg, log, lo, p.count);
    var w1 := w.(delivered := hi);
    DeliverKeeps(log, w, hi, t);
    AbsorbKeeps(log, w1, lo, hi, p.badAcks, t);
    AbsorbGrows(log, w1, lo, hi, p.badAcks);
  }

  /** Every pass keeps the invariant; a commit in doubt freezes the committed prefix. */
  lemma StepKeeps(cfg: Config, log: seq<Body>, w: World, p: Pass, t: nat) returns (t': nat)
    requires Inv(log, w, t)
    ensures t <= t' && Inv(log, Step(cfg, log, w, p).0, t')
    ensures Head(w) < t ==> t' == t
  {
    t' := t;
    var w' := Step(cfg, log, w, p).0;
    var (mid, c) := TakeBatch(cfg, log, w, p);
    BatchKeeps(cfg, log, w, p, t);
    if p.read.Failed? {
      assert w' == w;
    } else if p.read.Lost? {
      DeliverKeeps(log, w, w'.delivered, t);
    } else if !c.Done? {
      assert w' == mid;
    } else {
      t' := DecideKeeps(cfg, log, mid, p, t);
      assert w' == Decide(cfg, mid, p).0;
    }
  }

  lemma StampKeeps(log: seq<Body>, w: World, now: real, t: nat)
    requires Inv(log, w, t)
    ensures Inv(log, w.(lastFlush := now), t)
  {
  }

  /** A batch only appends: `pending_ids`, buffer and records each gain the same number of elements. */
  lemma {:induction false} AbsorbGrows(log: seq<Body>, w: World, i: nat, hi: nat, acks: seq<Call>)
    requires i <= hi <= |log|
    ensures var w' := Absorb(log, w, i, hi, acks).0;
      && w.origin <= w'.origin && w.buffer <= w'.buffer && w.pending <= w'.pending
      && |w'.origin| - |w.origin| == |w'.buffer| - |w.buffer| == |w'.pending| - |w.pending| <= hi - i
      && (forall k :: |w.origin| <= k < |w'.origin| ==> i <= w'.origin[k])
      && w.acked <= w'.acked
      && (forall e :: e in w'.acked && e !in w.acked ==> i <= e < hi && log[e].Malformed?)
    decreases hi - i
  {
    if i < hi {
      match log[i] {
        case Parsed(r) => AbsorbGrows(log, Keep(w, i, r), i + 1, hi, Rest(acks));
        case Malformed =>
          var w' := Acknowledge(w, {i}, First(acks));
          if First(acks).Done? { AbsorbGrows(log, w', i + 1, hi, Rest(acks)); }
      }
    }
  }

  // ------------------------------------------------------- theorems over runs

  lemma {:induction false} RunKeeps(cfg: Config, log: seq<Body>, w: World, script: seq<Pass>, t: nat) returns (t': nat)
    requires Inv(log, w, t)
    ensures t <= t' && Inv(log, Run(cfg, log, w, script), t')
    decreases |script|
  {
    t' := t;
    if script != [] {
      t' := StepKeeps(cfg, log, w, script[0], t);
      var (w', end) := Step(cfg, log, w, script[0]);
      if end != Cut(true) { t' := RunKeeps(cfg, log, w', script[1..], t'); }
    }
  }

  lemma ReachableInv(cfg: Config, log: seq<Body>, start: real, script: seq<Pass>) returns (t: nat)
    ensures Inv(log, Run(cfg, log, Fresh(start), script), t)
  {
    t := RunKeeps(cfg, log, Fresh(start), script, 0);
  }

  lemma ShutdownInv(cfg: Config, log: seq<Body>, start: real, script: seq<Pass>, commit: Call, ack: Call)
    returns (t: nat)
    ensures Inv(log, Shutdown(Run(cfg, log, Fresh(start), script), commit, ack), t)
  {
    t := ReachableInv(cfg, log, start, script);
    var w := Run(cfg, log, Fresh(start), script);
    if w.buffer != [] { t := FlushAndAckKeeps(log, w, commit, ack, t); }
  }

  ghost predicate SameEntry(w: World, k: nat, l: nat) {
    k < |w.origin| && l < |w.origin| && w.origin[k] == w.origin[l]
  }

  /** What an observer of Redis and Postgres can rely on. */
  ghost predicate NothingLostByAck(log: seq<Body>, w: World)
  {
    // an acknowledged entry cannot be parsed, or its reading is in the table
    && (forall i :: i in w.acked ==> i < |log| && (log[i].Malformed? || Stored(w, i)))
    // every row is the reading of the entry it was made for ...
    && (forall k :: k in w.table ==> RowFor(log, w.origin, k, w.table[k]))
    // ... and no two rows come from one entry
    && (forall k, l :: k in w.table && l in w.table && SameEntry(w, k, l) ==> k == l)
  }

  lemma InvObserved(log: seq<Body>, w: World, t: nat)
    requires Inv(log, w, t)
    ensures NothingLostByAck(log, w)
  {
    forall i | i in w.acked && log[i].Parsed? ensures Stored(w, i) {
      var k :| 0 <= k < Head(w) && k < |w.origin| && w.origin[k] == i;
      assert k in w.table;
    }
  }

  /** At every loop head of every run, and after the shutdown flush. */
  lemma AckedIsStored(cfg: Config, log: seq<Body>, start: real, script: seq<Pass>, commit: Call, ack: Call)
    ensures NothingLostByAck(log, Run(cfg, log, Fresh(start), script))
    ensures NothingLostByAck(log, Shutdown(Run(cfg, log, Fresh(start), script), commit, ack))
  {
    var t := ReachableInv(cfg, log, start, script);
    InvObserved(log, Run(cfg, log, Fresh(start), script), t);
    t := ShutdownInv(cfg, log, start, script, commit, ack);
    InvObserved(log, Shutdown(Run(cfg, log, Fresh(start), script), commit, ack), t);
  }

  /** The same of the worker object itself, from construction to the end of its life. */
  method RunWorker(cfg: Config, log: seq<Body>, start: real, script: seq<Pass>, commit: Call, ack: Call)
    returns (w: Worker)
    ensures NothingLostByAck(log, w.State())
  {
    w := new Worker(cfg, log, start);
    w.StreamToPostgres(script, commit, ack);
    AckedIsStored(cfg, log, start, script, commit, ack);
  }

  datatype Fate = AckedMalformed | StoredAcked | StoredAwaitingAck | OnlyBuffered | InDoubt | Dropped

  /** Each fate in terms of what Redis, Postgres and the worker hold. */
  ghost predicate Has(log: seq<Body>, w: World, i: nat, f: Fate)
    requires i < |log|
  {
    match f
    case AckedMalformed => log[i].Malformed? && i in w.acked
    case StoredAcked => Stored(w, i) && i in w.acked
    case StoredAwaitingAck => Stored(w, i) && i in w.pending && i !in w.acked && !Buffered(w, i)
    case OnlyBuffered => Buffered(w, i) && i in w.pending && !Stored(w, i)
    case InDoubt => Buffered(w, i) && i in w.pending && Stored(w, i)
    case Dropped => i !in w.acked && i !in w.pending && !Taken(w, i)
  }

  ghost function FateOf(log: seq<Body>, w: World, t: nat, i: nat): Fate
    requires i < |log|
  {
    if log[i].Malformed? then if i in w.acked then AckedMalformed else Dropped
    else if i in w.acked then StoredAcked
    else if !Taken(w, i) then Dropped
    else if OlderThan(w.origin, i, Head(w)) then StoredAwaitingAck
    else if OlderThan(w.origin, i, t) then InDoubt
    else OnlyBuffered
  }

  /** Membership in table, buffer and `pending_ids` is a comparison of record numbers. */
  lemma Positions(log: seq<Body>, w: World, t: nat, k: nat)
    requires Inv(log, w, t) && k < |w.origin|
    ensures Stored(w, w.origin[k]) <==> k < t
    ensures Buffered(w, w.origin[k]) <==> Head(w) <= k
    ensures w.origin[k] in w.pending <==> Unacked(w) <= k
    ensures OlderThan(w.origin, w.origin[k], Head(w)) <==> k < Head(w)
    ensures OlderThan(w.origin, w.origin[k], t) <==> k < t
  {
    assert forall j :: 0 <= j < |w.buffer| ==> RowFor(log, w.origin, Head(w) + j, w.buffer[j]);
    assert forall j :: 0 <= j < |w.buffer| ==> w.buffer[j].id == Head(w) + j;
    if k < t { assert k in w.table; }
    if Head(w) <= k { assert w.buffer[k - Head(w)].id == k; }
    if Unacked(w) <= k { assert w.pending[k - Unacked(w)] == w.origin[k]; }
  }

  lemma OneFate(log: seq<Body>, w: World, t: nat, i: nat)
    requires Inv(log, w, t) && i < w.delivered
    ensures forall f :: Has(log, w, i, f) <==> f == FateOf(log, w, t, i)
  {
    if Taken(w, i) {
      var k :| 0 <= k < |w.origin| && w.origin[k] == i;
      Positions(log, w, t, k);
    } else {
      PendingTaken(w);
    }
  }

  lemma PendingTaken(w: World)
    requires PendingOk(w.origin, w.pending)
    ensures forall i :: i in w.pending ==> i in w.origin
  {
    forall i | i in w.pending ensures i in w.origin {
      var j :| 0 <= j < |w.pending| && w.pending[j] == i;
      assert w.origin[Unacked(w) + j] == i;
    }
  }

  ghost predicate ExactlyOneFate(log: seq<Body>, w: World, i: nat)
    requires i < |log|
  {
    exists f :: Has(log, w, i, f) && forall g :: Has(log, w, i, g) ==> g == f
  }

  /** Conservation: each delivered entry has exactly one fate, in every reachable state. */
  lemma Conservation(cfg: Config, log: seq<Body>, start: real, script: seq<Pass>)
    ensures var w := Run(cfg, log, Fresh(start), script);
      forall i :: 0 <= i < w.delivered ==> ExactlyOneFate(log, w, i)
  {
    var w := Run(cfg, log, Fresh(start), script);
    var t := ReachableInv(cfg, log, start, script);
    forall i | 0 <= i < w.delivered
      ensures ExactlyOneFate(log, w, i)
    {
      OneFate(log, w, t, i);
      assert Has(log, w, i, FateOf(log, w, t, i));
    }
  }

  /** Committed entries that are no longer buffered, then the buffered rows' entries in order. */
  ghost predicate PendingShape(w: World) {
    var n := |w.pending| - |w.buffer|;
    && n >= 0
    && (forall j :: 0 <= j < n ==> Stored(w, w.pending[j]) && !Buffered(w, w.pending[j]))
    && (forall j :: 0 <= j < |w.buffer| ==> w.buffer[j].id < |w.origin| && w.pending[n + j] == w.origin[w.buffer[j].id])
  }

  lemma InvPendingShape(log: seq<Body>, w: World, t: nat)
    requires Inv(log, w, t)
    ensures PendingShape(w)
  {
    var n := |w.pending| - |w.buffer|;
    forall j | 0 <= j < n ensures Stored(w, w.pending[j]) && !Buffered(w, w.pending[j]) {
      Positions(log, w, t, Unacked(w) + j);
    }
    forall j | 0 <= j < |w.buffer| ensures w.buffer[j].id < |w.origin| && w.pending[n + j] == w.origin[w.buffer[j].id] {
      assert RowFor(log, w.origin, Head(w) + j, w.buffer[j]);
    }
  }

  lemma PendingSplit(cfg: Config, log: seq<Body>, start: real, script: seq<Pass>)
    ensures PendingShape(Run(cfg, log, Fresh(start), script))
  {
    var t := ReachableInv(cfg, log, start, script);
    InvPendingShape(log, Run(cfg, log, Fresh(start), script), t);
  }

  // ------------------------------------------- which entries a pass drops, and for good

  /** What happened to the bad-message ack of the k-th entry of a batch. */
  function AckAt(acks: seq<Call>, k: nat): Call { if k < |acks| then acks[k] else Done }

  /** Malformed entry j costs entry e its place: j's ack raised before e's turn, or e is j and its ack had no effect. */
  ghost predicate Spoils(log: seq<Body>, lo: nat, acks: seq<Call>, j: nat, e: nat)
    requires lo <= j < |log|
  {
    log[j].Malformed? && if j == e then AckAt(acks, j - lo).Failed? else !AckAt(acks, j - lo).Done?
  }

  ghost predicate Skipped(log: seq<Body>, lo: nat, acks: seq<Call>, e: nat)
    requires lo <= e < |log|
  {
    exists j :: lo <= j <= e && Spoils(log, lo, acks, j, e)
  }

  /** Being skipped, one entry at a time. */
  lemma SkippedStep(log: seq<Body>, lo: nat, acks: seq<Call>, e: nat)
    requires lo <= e < |log|
    ensures Skipped(log, lo, acks, e) <==>
      Spoils(log, lo, acks, lo, e) || (lo < e && Skipped(log, lo + 1, Rest(acks), e))
  {
    forall j | lo < j <= e ensures Spoils(log, lo, acks, j, e) <==> Spoils(log, lo + 1, Rest(acks), j, e) {
      assert AckAt(Rest(acks), j - (lo + 1)) == AckAt(acks, j - lo);
    }
    if Skipped(log, lo, acks, e) {
      var j :| lo <= j <= e && Spoils(log, lo, acks, j, e);
      assert lo < j ==> Spoils(log, lo + 1, Rest(acks), j, e);
    }
    if lo < e && Skipped(log, lo + 1, Rest(acks), e) {
      var j :| lo < j <= e && Spoils(log, lo + 1, Rest(acks), j, e);
      assert Spoils(log, lo, acks, j, e);
    }
  }

  /** Entry e has left no trace. */
  ghost predicate Traceless(w: World, e: nat) { e !in w.origin && e !in w.acked }

  /** The per-message loop leaves no trace of an entry exactly if it was skipped. */
  lemma {:induction false} AbsorbSkips(log: seq<Body>, w: World, i: nat, hi: nat, acks: seq<Call>, e: nat)
    requires i <= e < hi <= |log| && Traceless(w, e)
    ensures Traceless(Absorb(log, w, i, hi, acks).0, e) <==> Skipped(log, i, acks, e)
    decreases hi - i
  {
    SkippedStep(log, i, acks, e);
    match log[i] {
      case Parsed(r) =>
        AbsorbGrows(log, Keep(w, i, r), i + 1, hi, Rest(acks));
        assert Keep(w, i, r).origin[|w.origin|] == i;
        if i < e { AbsorbSkips(log, Keep(w, i, r), i + 1, hi, Rest(acks), e); }
      case Malformed =>
        var c := First(acks);
        var w' := Acknowledge(w, {i}, c);
        if c.Done? {
          AbsorbGrows(log, w', i + 1, hi, Rest(acks));
          if i < e { AbsorbSkips(log, w', i + 1, hi, Rest(acks), e); }
        }
    }
  }

  /** Nothing changes for entry i except that an entry already taken may be acknowledged. */
  ghost predicate Untouched(w: World, w': World, i: nat) {
    && (i in w'.origin <==> i in w.origin)
    && (i in w'.acked ==> i in w.acked || i in w.origin) && (i in w.acked ==> i in w'.acked)
  }

  lemma FlushUntouched(w: World, commit: Call, ack: Call, i: nat)
    requires PendingOk(w.origin, w.pending)
    ensures Untouched(w, FlushAndAck(w, commit, ack).0, i)
  {
    PendingTaken(w);
  }

  lemma DecideUntouched(cfg: Config, w: World, p: Pass, i: nat)
    requires PendingOk(w.origin, w.pending)
    ensures Untouched(w, Decide(cfg, w, p).0, i) && Decide(cfg, w, p).0.delivered == w.delivered
  {
    FlushUntouched(w, p.commit, p.ack, i);
  }

  lemma BatchUntouched(cfg: Config, log: seq<Body>, w: World, p: Pass, i: nat)
    requires i < w.delivered <= |log|
    ensures Untouched(w, TakeBatch(cfg, log, w, p).0, i) && w.delivered <= TakeBatch(cfg, log, w, p).0.delivered
  {
    var hi := w.delivered + Fetched(cfg, log, w.delivered, p.count);
    AbsorbGrows(log, w.(delivered := hi), w.delivered, hi, p.badAcks);
  }

  lemma StepUntouched(cfg: Config, log: seq<Body>, w: World, p: Pass, t: nat, i: nat)
    requires Inv(log, w, t) && i < w.delivered
    ensures Untouched(w, Step(cfg, log, w, p).0, i) && w.delivered <= Step(cfg, log, w, p).0.delivered
  {
    var mid := TakeBatch(cfg, log, w, p).0;
    BatchUntouched(cfg, log, w, p, i);
    assert PendingOk(mid.origin, mid.pending) by { BatchKeeps(cfg, log, w, p, t); }
    DecideUntouched(cfg, mid, p, i);
  }

  lemma DroppedIsTraceless(log: seq<Body>, w: World, t: nat, i: nat)
    requires Inv(log, w, t) && i < w.delivered
    ensures Has(log, w, i, Dropped) <==> Traceless(w, i)
    ensures Traceless(w, i) ==> !Stored(w, i)
  {
    PendingTaken(w);
  }

  /** The read of this pass was lost, or a bad-message ack of its batch cost entry e its place. */
  ghost predicate PassDrops(log: seq<Body>, w: World, p: Pass, e: nat)
    requires w.delivered <= e < |log|
  {
    p.read.Lost? || Skipped(log, w.delivered, p.badAcks, e)
  }

  lemma BatchSkips(cfg: Config, log: seq<Body>, w: World, p: Pass, e: nat)
    requires w.delivered <= |log| && w.delivered <= e < TakeBatch(cfg, log, w, p).0.delivered <= |log|
    requires Traceless(w, e)
    ensures Traceless(TakeBatch(cfg, log, w, p).0, e) <==> Skipped(log, w.delivered, p.badAcks, e)
  {
    var hi := w.delivered + Fetched(cfg, log, w.delivered, p.count);
    AbsorbSkips(log, w.(delivered := hi), w.delivered, hi, p.badAcks, e);
  }

  lemma StepSkips(cfg: Config, log: seq<Body>, w: World, p: Pass, t: nat, e: nat)
    requires Inv(log, w, t) && w.delivered <= e < Step(cfg, log, w, p).0.delivered
    ensures e < |log| && (Traceless(Step(cfg, log, w, p).0, e) <==> PassDrops(log, w, p, e))
  {
    var mid := TakeBatch(cfg, log, w, p).0;
    assert e !in w.origin && e !in w.acked;
    assert PendingOk(mid.origin, mid.pending) && mid.delivered <= |log| by { BatchKeeps(cfg, log, w, p, t); }
    DecideUntouched(cfg, mid, p, e);
    if p.read.Done? { BatchSkips(cfg, log, w, p, e); }
  }

  /** Exactly when a pass drops an entry it was handed. */
  lemma PassDropsIff(cfg: Config, log: seq<Body>, w: World, p: Pass, t: nat, e: nat)
    requires Inv(log, w, t) && w.delivered <= e < Step(cfg, log, w, p).0.delivered
    ensures e < |log| && (Has(log, Step(cfg, log, w, p).0, e, Dropped) <==> PassDrops(log, w, p, e))
  {
    StepSkips(cfg, log, w, p, t, e);
    var t' := StepKeeps(cfg, log, w, p, t);
    DroppedIsTraceless(log, Step(cfg, log, w, p).0, t', e);
  }

  /** The pass of the run that was handed entry e drops it. */
  ghost predicate RunDrops(cfg: Config, log: seq<Body>, w: World, script: seq<Pass>, e: nat)
    requires w.delivered <= e < |log|
    decreases |script|
  {
    script != [] &&
    var (w', end) := Step(cfg, log, w, script[0]);
    if e < w'.delivered then PassDrops(log, w, script[0], e)
    else end != Cut(true) && RunDrops(cfg, log, w', script[1..], e)
  }

  /** Dropped is for good: no continuation stores or acknowledges the entry, and neither does the shutdown flush. */
  lemma {:induction false} DroppedForever(cfg: Config, log: seq<Body>, w: World, script: seq<Pass>, t: nat, i: nat,
                                          commit: Call, ack: Call)
    requires Inv(log, w, t) && i < w.delivered
    ensures var w' := Run(cfg, log, w, script);
      && (Has(log, w', i, Dropped) <==> Has(log, w, i, Dropped))
      && (Has(log, Shutdown(w', commit, ack), i, Dropped) <==> Has(log, w, i, Dropped))
      && (Has(log, w, i, Dropped) ==> !Stored(Shutdown(w', commit, ack), i) && i !in Shutdown(w', commit, ack).acked)
    decreases |script|
  {
    DroppedIsTraceless(log, w, t, i);
    if script != [] {
      StepUntouched(cfg, log, w, script[0], t, i);
      var (w', end) := Step(cfg, log, w, script[0]);
      var t' := StepKeeps(cfg, log, w, script[0], t);
      DroppedIsTraceless(log, w', t', i);
      if end != Cut(true) {
        DroppedForever(cfg, log, w', script[1..], t', i, commit, ack);
      } else {
        ShutdownUntouched(log, w', t', i, commit, ack);
      }
    } else {
      ShutdownUntouched(log, w, t, i, commit, ack);
    }
  }

  lemma ShutdownUntouched(log: seq<Body>, w: World, t: nat, i: nat, commit: Call, ack: Call)
    requires Inv(log, w, t) && i < w.delivered
    ensures var w' := Shutdown(w, commit, ack);
      && (Has(log, w', i, Dropped) <==> Has(log, w, i, Dropped))
      && (Has(log, w, i, Dropped) ==> !Stored(w', i) && i !in w'.acked)
  {
    DroppedIsTraceless(log, w, t, i);
    if w.buffer != [] {
      var w' := FlushAndAck(w, commit, ack).0;
      var t' := FlushAndAckKeeps(log, w, commit, ack, t);
      FlushUntouched(w, commit, ack, i);
      DroppedIsTraceless(log, w', t', i);
    }
  }

  lemma {:induction false} DroppedFrom(cfg: Config, log: seq<Body>, w: World, script: seq<Pass>, t: nat, e: nat)
    requires Inv(log, w, t) && w.delivered <= e < Run(cfg, log, w, script).delivered
    ensures Has(log, Run(cfg, log, w, script), e, Dropped) <==> RunDrops(cfg, log, w, script, e)
    decreases |script|
  {
    var (w', end) := Step(cfg, log, w, script[0]);
    var t' := StepKeeps(cfg, log, w, script[0], t);
    if e < w'.delivered {
      PassDropsIff(cfg, log, w, script[0], t, e);
      if end != Cut(true) { DroppedForever(cfg, log, w', script[1..], t', e, Done, Done); }
    } else {
      DroppedFrom(cfg, log, w', script[1..], t', e);
    }
  }

  /** In every run: an entry ends up dropped exactly if the pass that was handed it dropped it. */
  lemma DroppedExactly(cfg: Config, log: seq<Body>, start: real, script: seq<Pass>, e: nat)
    requires e < Run(cfg, log, Fresh(start), script).delivered
    ensures Has(log, Run(cfg, log, Fresh(start), script), e, Dropped) <==> RunDrops(cfg, log, Fresh(start), script, e)
  {
    DroppedFrom(cfg, log, Fresh(start), script, 0, e);
  }

  /** A readable entry lost: behind a malformed one whose ack is refused, or by a read whose reply is lost. */
  lemma GoodEntryDropped(cfg: Config, start: real, r: Reading) returns (log: seq<Body>, script: seq<Pass>, e: nat)
    requires cfg.batchSize > 0
    ensures e < Run(cfg, log, Fresh(start), script).delivered && log[e] == Parsed(r)
    ensures Has(log, Run(cfg, log, Fresh(start), script), e, Dropped)
    ensures cfg.batchSize >= 2 ==> forall p :: p in script ==> p.read.Done? && p.commit.Done? && p.ack.Done?
  {
    var w := Fresh(start);
    if cfg.batchSize >= 2 {
      var p := Pass(Done, 2, [Failed(false)], start, Done, Done, start);
      log, script, e := [Malformed, Parsed(r)], [p], 1;
      assert Absorb(log, w.(delivered := 2), 0, 2, p.badAcks) == (w.(delivered := 2), Failed(false));
      assert Step(cfg, log, w, p) == (w.(delivered := 2), Cut(false));
      assert Run(cfg, log, w, script) == Run(cfg, log, w.(delivered := 2), []);
    } else {
      var p := Pass(Lost(false), 1, [], start, Done, Done, start);
      log, script, e := [Parsed(r)], [p], 0;
      assert Step(cfg, log, w, p) == (w.(delivered := 1), Cut(false));
      assert Run(cfg, log, w, script) == Run(cfg, log, w.(delivered := 1), []);
    }
  }
}

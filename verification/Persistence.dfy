/**
 * The worker that moves entries of the raw-telemetry stream into PostgreSQL.
 *
 * The Redis consumer group and the database are small explicit environments.
 * Every awaited call carries a `Call` saying what the environment did with it, so
 * a run is a script of such choices and the theorems quantify over all scripts.
 */
module Persistence {
  import opened Common

  // ---------------------------------------------------------------- data model

  datatype Reading = Reading(deviceId: string, deviceType: string, timestamp: string,
                             payload: string, metadata: string)

  /** What `from_stream_dict` makes of one stream entry. */
  datatype Body = Parsed(reading: Reading) | Malformed

  datatype Row = Row(id: nat, deviceId: string, deviceType: string, timestamp: string,
                     payload: string, metadata: string)

  /** Environment choices for one pass of the main loop. */
  datatype Pass = Pass(read: Call, count: nat, badAcks: seq<Call>, now: real,
                       commit: Call, ack: Call, later: real)

  datatype Config = Config(batchSize: nat, flushInterval: real)

  /**
   * Snapshot of worker and environment. Entries are named by their position in the
   * stream; the k-th record ever created has id k and `origin[k]` is its entry.
   */
  datatype World = World(delivered: nat, acked: set<nat>, table: map<nat, Row>,
                         buffer: seq<Row>, pending: seq<nat>, lastFlush: real,
                         origin: seq<nat>)

  function ToRow(id: nat, r: Reading): Row {
    Row(id, r.deviceId, r.deviceType, r.timestamp, r.payload, r.metadata)
  }

  // ------------------------------------------------- what each call does (spec)

  ghost function Elements(ids: seq<nat>): set<nat> { set i | i in ids }

  ghost function Acknowledge(w: World, ids: set<nat>, c: Call): World {
    if c.Effective() then w.(acked := w.acked + ids) else w
  }

  ghost function Keep(w: World, i: nat, r: Reading): World {
    w.(buffer := w.buffer + [ToRow(|w.origin|, r)], pending := w.pending + [i], origin := w.origin + [i])
  }

  function First(acks: seq<Call>): Call { if acks == [] then Done else acks[0] }

  function Rest(acks: seq<Call>): seq<Call> { if acks == [] then [] else acks[1..] }

  /** The per-message loop over entries [i, hi); the second result is the call that ended it. */
  ghost function Absorb(log: seq<Body>, w: World, i: nat, hi: nat, acks: seq<Call>): (r: (World, Call))
    requires i <= hi <= |log|
    ensures r.0.delivered == w.delivered && r.0.table == w.table && r.0.lastFlush == w.lastFlush
    decreases hi - i
  {
    if i == hi then (w, Done)
    else match log[i]
      case Parsed(r) => Absorb(log, Keep(w, i, r), i + 1, hi, Rest(acks))
      case Malformed =>
        var c := First(acks);
        var w' := Acknowledge(w, {i}, c);
        if c.Done? then Absorb(log, w', i + 1, hi, Rest(acks)) else (w', c)
  }

  function InsertAll(table: map<nat, Row>, rows: seq<Row>): map<nat, Row> {
    if rows == [] then table else InsertAll(table, rows[..|rows| - 1])[rows[|rows| - 1].id := rows[|rows| - 1]]
  }

  predicate Conflict(table: map<nat, Row>, rows: seq<Row>) {
    || (exists j :: 0 <= j < |rows| && rows[j].id in table)
    || (exists i, j :: 0 <= i < j < |rows| && rows[i].id == rows[j].id)
  }

  /** INSERT of all rows followed by COMMIT: all or nothing, refused on a duplicate primary key. */
  function InsertCall(table: map<nat, Row>, rows: seq<Row>, c: Call): (r: (map<nat, Row>, Call)) {
    if Conflict(table, rows) then (table, if c.Done? then Failed(false) else Failed(c.cancelled))
    else (if c.Effective() then InsertAll(table, rows) else table, c)
  }

  ghost function Flush(w: World, c: Call): (World, Call) {
    if w.buffer == [] then (w, Done)
    else
      var (table, out) := InsertCall(w.table, w.buffer, c);
      (w.(table := table, buffer := if out.Done? then [] else w.buffer), out)
  }

  ghost function FlushAndAck(w: World, commit: Call, ack: Call): (World, Call) {
    var (w1, c) := Flush(w, commit);
    if !c.Done? then (w1, c)
    else if w1.pending == [] then (w1, Done)
    else
      var w2 := Acknowledge(w1, Elements(w1.pending), ack);
      (if ack.Done? then w2.(pending := []) else w2, ack)
  }

  predicate FlushDue(cfg: Config, size: nat, now: real, lastFlush: real) {
    size >= cfg.batchSize || (size > 0 && now - lastFlush >= cfg.flushInterval)
  }

  function Fetched(cfg: Config, log: seq<Body>, delivered: nat, count: nat): (n: nat)
    requires delivered <= |log|
    ensures n <= cfg.batchSize && delivered + n <= |log|
  {
    var room := |log| - delivered;
    var n := if count <= cfg.batchSize then count else cfg.batchSize;
    if n <= room then n else room
  }

  /** How a pass ended: the flush decision was carried out, or an exception cut it short. */
  datatype Ending = Completed | Cut(stop: bool)

  /** The flush decision at the end of a pass, and the flush if it is due. */
  ghost function Decide(cfg: Config, w: World, p: Pass): (World, Ending) {
    if FlushDue(cfg, |w.buffer|, p.now, w.lastFlush) then
      var (w', c) := FlushAndAck(w, p.commit, p.ack);
      if c.Done? then (w'.(lastFlush := p.later), Completed) else (w', Cut(c.cancelled))
    else (w, Completed)
  }

  /** A pass whose read returned: the entries it fetched go through the per-message loop. */
  ghost function TakeBatch(cfg: Config, log: seq<Body>, w: World, p: Pass): (World, Call)
    requires w.delivered <= |log|
  {
    var hi := w.delivered + Fetched(cfg, log, w.delivered, p.count);
    Absorb(log, w.(delivered := hi), w.delivered, hi, p.badAcks)
  }

  ghost function Step(cfg: Config, log: seq<Body>, w: World, p: Pass): (World, Ending)
    requires w.delivered <= |log|
  {
    match p.read
    case Failed(cancelled) => (w, Cut(cancelled))
    case Lost(cancelled) => (w.(delivered := w.delivered + Fetched(cfg, log, w.delivered, p.count)), Cut(cancelled))
    case Done =>
      var (mid, c) := TakeBatch(cfg, log, w, p);
      if c.Done? then Decide(cfg, mid, p) else (mid, Cut(c.cancelled))
  }

  /** The main loop over a script of passes; shutdown is requested when the script ends. */
  ghost function Run(cfg: Config, log: seq<Body>, w: World, script: seq<Pass>): (r: World)
    requires w.delivered <= |log|
    ensures r.delivered <= |log|
    decreases |script|
  {
    if script == [] then w
    else
      var (w', end) := Step(cfg, log, w, script[0]);
      if end == Cut(true) then w' else Run(cfg, log, w', script[1..])
  }

  ghost function Shutdown(w: World, commit: Call, ack: Call): World {
    if w.buffer == [] then w else FlushAndAck(w, commit, ack).0
  }

  ghost function Fresh(start: real): World { World(0, {}, map[], [], [], start, []) }

  // ------------------------------------------------------ the imperative worker

  class ConsumerGroup {
    const log: seq<Body>
    var delivered: nat
    var acked: set<nat>

    constructor (log: seq<Body>)
      ensures this.log == log && delivered == 0 && acked == {}
    {
      this.log := log;
      delivered, acked := 0, {};
    }

    /** XREADGROUP with `>`: hands out never-delivered entries, in order. */
    method ReadGroup(cfg: Config, count: nat, c: Call) returns (out: Call, lo: nat, hi: nat)
      requires delivered <= |log|
      modifies this`delivered
      ensures out == c && lo == old(delivered)
      ensures hi == lo + Fetched(cfg, log, lo, count)
      ensures delivered == if c.Effective() then hi else lo
    {
      out, lo := c, delivered;
      hi := lo + Fetched(cfg, log, lo, count);
      if c.Effective() { delivered := hi; }
    }

    method Ack(ids: seq<nat>, c: Call) returns (out: Call)
      modifies this`acked
      ensures out == c
      ensures acked == if c.Effective() then old(acked) + Elements(ids) else old(acked)
    {
      out := c;
      if c.Effective() { acked := acked + set i | i in ids; }
    }
  }

  class Database {
    var table: map<nat, Row>

    constructor ()
      ensures table == map[]
    {
      table := map[];
    }

    method InsertAndCommit(values: seq<Row>, c: Call) returns (out: Call)
      modifies this
      ensures (table, out) == InsertCall(old(table), values, c)
    {
      var (t, o) := InsertCall(table, values, c);
      table, out := t, o;
    }
  }

  class BatchWriter {
    var buffer: seq<Row>

    constructor ()
      ensures buffer == []
    {
      buffer := [];
    }

    method Accumulate(record: Row)
      modifies this
      ensures buffer == old(buffer) + [record]
    {
      buffer := buffer + [record];
    }

    /** Bulk insert; the buffer is emptied only when the commit reported success. */
    method FlushTo(db: Database, c: Call) returns (out: Call, count: nat)
      modifies this, db
      ensures old(buffer) == [] ==> out == Done && count == 0 && buffer == [] && db.table == old(db.table)
      ensures old(buffer) != [] ==>
        && (db.table, out) == InsertCall(old(db.table), old(buffer), c)
        && buffer == (if out.Done? then [] else old(buffer))
        && (out.Done? ==> count == |old(buffer)|)
    {
      if buffer == [] { return Done, 0; }
      count := |buffer|;
      var values: seq<Row> := [];
      for i := 0 to |buffer|
        invariant values == buffer[..i]
      {
        var row := buffer[i];
        values := values + [Row(row.id, row.deviceId, row.deviceType, row.timestamp, row.payload, row.metadata)];
      }
      assert values == buffer;
      out := db.InsertAndCommit(values, c);
      if out.Done? { buffer := []; }
    }
  }

  class Worker {
    const cfg: Config
    const group: ConsumerGroup
    const db: Database
    const writer: BatchWriter
    var pendingIds: seq<nat>
    var lastFlush: real
    var nextId: nat            // stands for uuid4(): never hands out an id twice
    ghost var origin: seq<nat>

    ghost predicate Valid()
      reads this, group
    {
      nextId == |origin| && group.delivered <= |group.log|
    }

    ghost function State(): World
      reads this, group, db, writer
    {
      World(group.delivered, group.acked, db.table, writer.buffer, pendingIds, lastFlush, origin)
    }

    constructor (cfg: Config, log: seq<Body>, start: real)
      ensures Valid() && State() == Fresh(start)
      ensures this.cfg == cfg && group.log == log
      ensures fresh(group) && fresh(db) && fresh(writer)
    {
      this.cfg := cfg;
      group := new ConsumerGroup(log);
      db := new Database();
      writer := new BatchWriter();
      pendingIds, lastFlush, nextId, origin := [], start, 0, [];
    }

    method ProcessBatch(lo: nat, hi: nat, badAcks: seq<Call>) returns (out: Call)
      requires Valid() && lo <= hi <= |group.log|
      modifies this, group, writer
      ensures Valid()
      ensures (State(), out) == Absorb(group.log, old(State()), lo, hi, badAcks)
    {
      var i, acks := lo, badAcks;
      while i < hi
        invariant Valid() && lo <= i <= hi
        invariant Absorb(group.log, State(), i, hi, acks) == Absorb(group.log, old(State()), lo, hi, badAcks)
      {
        match group.log[i] {
          case Parsed(r) =>
            writer.Accumulate(ToRow(nextId, r));
            nextId, origin := nextId + 1, origin + [i];
            pendingIds := pendingIds + [i];
          case Malformed =>
            var c := group.Ack([i], First(acks));
            assert Elements([i]) == {i};
            if !c.Done? { return c; }
        }
        i, acks := i + 1, Rest(acks);
      }
      out := Done;
    }

    method FlushPending(commit: Call, ack: Call) returns (out: Call)
      requires Valid()
      modifies this, group, writer, db
      ensures Valid()
      ensures (State(), out) == FlushAndAck(old(State()), commit, ack)
    {
      var count: nat;
      out, count := writer.FlushTo(db, commit);
      if !out.Done? { return; }
      if pendingIds != [] {
        out := group.Ack(pendingIds, ack);
        if out.Done? { pendingIds := []; }
      }
    }

    /** One iteration of the main loop. */
    method OnePass(p: Pass) returns (end: Ending)
      requires Valid()
      modifies this, group, writer, db
      ensures Valid()
      ensures (State(), end) == Step(cfg, group.log, old(State()), p)
    {
      var c, lo, hi := group.ReadGroup(cfg, p.count, p.read);
      if !c.Done? { return Cut(c.cancelled); }
      c := ProcessBatch(lo, hi, p.badAcks);
      if !c.Done? { return Cut(c.cancelled); }
      if FlushDue(cfg, |writer.buffer|, p.now, lastFlush) {
        c := FlushPending(p.commit, p.ack);
        if !c.Done? { return Cut(c.cancelled); }
        lastFlush := p.later;
      }
      end := Completed;
    }

    /** `stream_to_postgres`: the loop, then the flush at shutdown. */
    method StreamToPostgres(script: seq<Pass>, commit: Call, ack: Call)
      requires Valid()
      modifies this, group, writer, db
      ensures Valid()
      ensures State() == Shutdown(Run(cfg, group.log, old(State()), script), commit, ack)
    {
      var k := 0;
      while k < |script|
        invariant Valid() && k <= |script|
        invariant Run(cfg, group.log, State(), script[k..]) == Run(cfg, group.log, old(State()), script)
      {
        assert script[k..][0] == script[k] && script[k..][1..] == script[k + 1..];
        var end := OnePass(script[k]);
        k := k + 1;
        if end == Cut(true) { break; }
      }
      assert State() == Run(cfg, group.log, old(State()), script);
      if writer.buffer != [] {
        var c := FlushPending(commit, ack);
      }
    }
  }
}

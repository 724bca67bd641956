/**
 * One batch of the anomaly detector: parse and extract, score in one call, publish alerts and
 * acknowledge in one pipeline. Reconstruction errors are arbitrary nonnegative reals, and Redis decides
 * the outcome of every command of the pipeline.
 */
module AnomalyDetection {
  import opened Common
  import opened FeatureExtraction

  /** A stream entry; `body` is None when it cannot be parsed. */
  datatype Entry = Entry(id: nat, body: Option<Reading>)

  datatype Severity = Warning | Critical

  datatype Alert = Alert(device: Device, score: real, severity: Severity, payload: seq<Field>)

  datatype Command = XAdd(alert: Alert) | XAck(ids: seq<nat>)

  /** A command of a pipeline runs, is refused, or is not reached because the connection broke before. */
  datatype Outcome = Ran | Refused | NotReached

  /** The alerts stream, and the entries acknowledged on the telemetry stream. */
  datatype Streams = Streams(published: seq<Alert>, acked: set<nat>)

  datatype Item = Item(reading: Reading, row: Row)

  /** `score`: error / (error + calibrated threshold). */
  function Score(error: real, calibrated: real): real
    requires error >= 0.0 && calibrated > 0.0
  {
    error / (error + calibrated)
  }

  function Scores(errors: seq<real>, calibrated: real): seq<real>
    requires calibrated > 0.0 && forall i :: 0 <= i < |errors| ==> errors[i] >= 0.0
  {
    seq(|errors|, i requires 0 <= i < |errors| => Score(errors[i], calibrated))
  }

  function MakeAlert(r: Reading, score: real): Alert {
    Alert(r.device, score, if score > 0.9 then Critical else Warning, r.payload)
  }

  // ------------------------------------------------------------- specification

  /** The entries that parse and extract, each with its own row, in order; and the windows left behind. */
  ghost function Items(stats: Stats, size: nat, ws: Windows, es: seq<Entry>): (Windows, seq<Item>) {
    if es == [] then (ws, [])
    else
      var (w1, items) := Items(stats, size, ws, es[..|es| - 1]);
      match es[|es| - 1].body
      case None => (w1, items)
      case Some(r) =>
        var (w2, row) := Extract(stats, size, w1, r);
        (w2, if row.Some? then items + [Item(r, row.value)] else items)
  }

  /** Alerts for the items scoring above the threshold, in order. */
  ghost function Alerts(items: seq<Item>, scores: seq<real>, threshold: real): seq<Alert>
    requires |items| == |scores|
  {
    if items == [] then []
    else
      var n := |items| - 1;
      var init := Alerts(items[..n], scores[..n], threshold);
      if scores[n] > threshold then init + [MakeAlert(items[n].reading, scores[n])] else init
  }

  ghost function Adds(alerts: seq<Alert>): seq<Command> {
    seq(|alerts|, i requires 0 <= i < |alerts| => XAdd(alerts[i]))
  }

  ghost function Pipeline(alerts: seq<Alert>, es: seq<Entry>): seq<Command> { Adds(alerts) + [XAck(Ids(es))] }

  function OutcomeOf(outs: seq<Outcome>, k: nat): Outcome { if k < |outs| then outs[k] else NotReached }

  /** A broken connection cuts off the rest of the pipeline. */
  ghost predicate Connected(outs: seq<Outcome>) {
    forall i, j :: 0 <= i < j < |outs| && outs[i].NotReached? ==> outs[j].NotReached?
  }

  function Effect(st: Streams, c: Command): Streams {
    match c
    case XAdd(a) => st.(published := st.published + [a])
    case XAck(ids) => st.(acked := st.acked + set i | i in ids)
  }

  /** A pipeline without a transaction: every command that is reached is tried, whatever became of the others. */
  ghost function Sent(st: Streams, pipe: seq<Command>, outs: seq<Outcome>): Streams {
    if pipe == [] then st
    else
      var n := |pipe| - 1;
      var before := Sent(st, pipe[..n], outs);
      if OutcomeOf(outs, n).Ran? then Effect(before, pipe[n]) else before
  }

  function Ids(es: seq<Entry>): seq<nat> { seq(|es|, i requires 0 <= i < |es| => es[i].id) }

  function Readings(items: seq<Item>): seq<Reading> { seq(|items|, i requires 0 <= i < |items| => items[i].reading) }

  function RowList(items: seq<Item>): seq<Row> { seq(|items|, i requires 0 <= i < |items| => items[i].row) }

  /** The model answers with one nonnegative error per row of the batch. */
  ghost predicate Fair(error: nat -> real) { forall j :: error(j) >= 0.0 }

  function Errors(error: nat -> real, n: nat): seq<real> { seq(n, j requires 0 <= j => error(j)) }

  // ------------------------------------------------------------ the imperative batch

  class RedisStreams {
    var published: seq<Alert>
    var acked: set<nat>

    constructor ()
      ensures View() == Streams([], {})
    {
      published, acked := [], {};
    }

    ghost function View(): Streams
      reads this
    {
      Streams(published, acked)
    }

    /** `pipe.execute()`: raises afterwards if any command was refused or not reached. */
    method ExecutePipeline(pipe: seq<Command>, outs: seq<Outcome>) returns (ok: bool)
      modifies this
      ensures View() == Sent(old(View()), pipe, outs)
      ensures ok <==> forall k :: 0 <= k < |pipe| ==> OutcomeOf(outs, k).Ran?
    {
      ok := true;
      for k := 0 to |pipe|
        invariant View() == Sent(old(View()), pipe[..k], outs)
        invariant ok <==> forall i :: 0 <= i < k ==> OutcomeOf(outs, i).Ran?
      {
        assert pipe[..k + 1][..k] == pipe[..k];
        if OutcomeOf(outs, k).Ran? {
          match pipe[k] {
            case XAdd(a) => published := published + [a];
            case XAck(ids) => acked := acked + set i | i in ids;
          }
        } else {
          ok := false;
        }
      }
      assert pipe[..|pipe|] == pipe;
    }
  }

  class AnomalyDetector {
    const redis: RedisStreams
    const extractor: FeatureExtractor
    const threshold: real
    const calibrated: real

    constructor (redis: RedisStreams, extractor: FeatureExtractor, threshold: real, calibrated: real)
      ensures this.redis == redis && this.extractor == extractor
      ensures this.threshold == threshold && this.calibrated == calibrated
    {
      this.redis, this.extractor, this.threshold, this.calibrated := redis, extractor, threshold, calibrated;
    }

    /** The parsing loop: a row is appended only together with its reading. */
    method Parse(es: seq<Entry>) returns (readings: seq<Reading>, rows: seq<Row>)
      modifies extractor
      ensures var (ws, items) := Items(extractor.stats, extractor.size, old(extractor.windows), es);
        extractor.windows == ws && readings == Readings(items) && rows == RowList(items)
    {
      readings, rows := [], [];
      for i := 0 to |es|
        invariant var (ws, items) := Items(extractor.stats, extractor.size, old(extractor.windows), es[..i]);
          extractor.windows == ws && readings == Readings(items) && rows == RowList(items)
      {
        assert es[..i + 1][..i] == es[..i];
        match es[i].body {
          case None =>
          case Some(r) =>
            var row := extractor.ExtractRow(r);
            if row.Some? {
              rows := rows + [row.value];
              readings := readings + [r];
            }
        }
      }
      assert es[..|es|] == es;
    }

    /** Queues the alerts of the batch. `zip` pairs the j-th reading with the j-th score. */
    method QueueAlerts(readings: seq<Reading>, scores: seq<real>, ghost items: seq<Item>) returns (pipe: seq<Command>)
      requires readings == Readings(items) && |scores| == |items|
      ensures pipe == Adds(Alerts(items, scores, threshold))
    {
      pipe := [];
      for j := 0 to |readings|
        invariant pipe == Adds(Alerts(items[..j], scores[..j], threshold))
      {
        ghost var before := Alerts(items[..j], scores[..j], threshold);
        assert items[..j + 1][..j] == items[..j] && scores[..j + 1][..j] == scores[..j];
        assert Adds(before + [MakeAlert(readings[j], scores[j])])
          == Adds(before) + [XAdd(MakeAlert(readings[j], scores[j]))];
        if scores[j] > threshold {
          pipe := pipe + [XAdd(MakeAlert(readings[j], scores[j]))];
        }
      }
      assert items[..|items|] == items && scores[..|scores|] == scores;
    }

    /**
     * `_process_batch`. If scoring raises, nothing is sent: no alert and no ack (the windows have moved on,
     * though).
     */
    method ProcessBatch(es: seq<Entry>, raises: bool, error: nat -> real, outs: seq<Outcome>) returns (ok: bool)
      requires calibrated > 0.0 && Fair(error)
      modifies extractor, redis
      ensures var (ws, items) := Items(extractor.stats, extractor.size, old(extractor.windows), es);
        && extractor.windows == ws
        && redis.View() == (if items != [] && raises then old(redis.View())
                            else Sent(old(redis.View()),
                                      Pipeline(Found(items, error, calibrated, threshold), es), outs))
      ensures ok ==> forall e :: e in es ==> e.id in redis.acked
    {
      ghost var items := Items(extractor.stats, extractor.size, extractor.windows, es).1;
      var readings, rows := Parse(es);
      var commands: seq<Command> := [];
      assert |readings| == |items| && Adds([]) == commands;
      if readings != [] {
        if raises { return false; }
        commands := QueueAlerts(readings, Scores(Errors(error, |readings|), calibrated), items);
      }
      assert commands == Adds(Found(items, error, calibrated, threshold));
      ok := redis.ExecutePipeline(commands + [XAck(Ids(es))], outs);
      SentExactly(old(redis.View()), Found(items, error, calibrated, threshold), es, outs);
      if ok { assert OutcomeOf(outs, |commands|).Ran?; }
    }
  }

  /** The alerts that the items of a batch call for. */
  ghost function Found(items: seq<Item>, error: nat -> real, calibrated: real, threshold: real): seq<Alert>
    requires calibrated > 0.0 && Fair(error)
  {
    Alerts(items, Scores(Errors(error, |items|), calibrated), threshold)
  }

  // ------------------------------------------------------------------- theorems

  /** A score lies in [0, 1), and exceeds a threshold T exactly when the error exceeds T/(1-T) calibrated thresholds. */
  lemma ScoreThreshold(error: real, calibrated: real, t: real)
    requires error >= 0.0 && calibrated > 0.0
    ensures 0.0 <= Score(error, calibrated) < 1.0
    ensures Score(error, calibrated) > t <==> error * (1.0 - t) > t * calibrated
  {
    var d := error + calibrated;
    var s := error / d;
    assert s * d == error;
    assert s > t <==> s * d > t * d;
    assert s < 1.0 by { assert s >= 1.0 ==> s * d >= d; }
    assert s >= 0.0 by { assert s < 0.0 ==> s * d < 0.0; }
  }

  /** At the default threshold 0.5 an alert matches the training-time decision; critical means nine times as much. */
  lemma ScoreMeaning(error: real, calibrated: real)
    requires error >= 0.0 && calibrated > 0.0
    ensures Score(error, calibrated) > 0.5 <==> error > calibrated
    ensures Score(error, calibrated) > 0.9 <==> error > 9.0 * calibrated
  {
    ScoreThreshold(error, calibrated, 0.5);
    ScoreThreshold(error, calibrated, 0.9);
  }

  /** The error exceeds T / (1 - T) calibrated thresholds, without dividing. */
  predicate Exceeds(error: real, calibrated: real, t: real) { error * (1.0 - t) > t * calibrated }

  /** Positions of the items that raise an alert, in order. */
  ghost function Raised(errors: seq<real>, calibrated: real, t: real): seq<nat> {
    if errors == [] then []
    else
      var n := |errors| - 1;
      var init := Raised(errors[..n], calibrated, t);
      if Exceeds(errors[n], calibrated, t) then init + [n] else init
  }

  lemma {:induction false} RaisedSpec(errors: seq<real>, calibrated: real, t: real)
    ensures var js := Raised(errors, calibrated, t);
      && (forall k :: 0 <= k < |js| ==> js[k] < |errors|)
      && (forall k, l :: 0 <= k < l < |js| ==> js[k] < js[l])
      && (forall j :: j in js <==> 0 <= j < |errors| && Exceeds(errors[j], calibrated, t))
  {
    if errors != [] { RaisedSpec(errors[..|errors| - 1], calibrated, t); }
  }

  /** The alert for item j: its own reading, and severity by the size of its own error. */
  ghost predicate AlertFor(a: Alert, item: Item, error: real, calibrated: real) {
    && a.device == item.reading.device && a.payload == item.reading.payload
    && error >= 0.0 && calibrated > 0.0 && a.score == Score(error, calibrated) < 1.0
    && (a.severity.Critical? <==> error > 9.0 * calibrated)
  }

  ghost predicate Matches(alerts: seq<Alert>, items: seq<Item>, errors: seq<real>, calibrated: real, t: real)
    requires |items| == |errors|
  {
    var js := Raised(errors, calibrated, t);
    && |alerts| == |js|
    && forall k :: 0 <= k < |js| ==> js[k] < |items| && AlertFor(alerts[k], items[js[k]], errors[js[k]], calibrated)
  }

  lemma MatchesGrow(items: seq<Item>, errors: seq<real>, calibrated: real, t: real, alerts: seq<Alert>, a: Alert)
    requires |items| == |errors| > 0
    requires var n := |items| - 1;
      Matches(alerts, items[..n], errors[..n], calibrated, t) && AlertFor(a, items[n], errors[n], calibrated)
    ensures Matches(if Exceeds(errors[|items| - 1], calibrated, t) then alerts + [a] else alerts,
                    items, errors, calibrated, t)
  {
    var n := |items| - 1;
    var js := Raised(errors[..n], calibrated, t);
    RaisedSpec(errors[..n], calibrated, t);
    forall k | 0 <= k < |js| ensures js[k] < n && AlertFor(alerts[k], items[js[k]], errors[js[k]], calibrated) {
      assert items[..n][js[k]] == items[js[k]];
    }
  }

  lemma OneAlert(item: Item, error: real, calibrated: real, t: real)
    requires error >= 0.0 && calibrated > 0.0
    ensures Score(error, calibrated) > t <==> Exceeds(error, calibrated, t)
    ensures AlertFor(MakeAlert(item.reading, Score(error, calibrated)), item, error, calibrated)
  {
    ScoreThreshold(error, calibrated, t);
    ScoreMeaning(error, calibrated);
  }

  /** For any threshold, alerts are exactly the items whose error exceeds it, in order, each with its own reading. */
  lemma {:induction false} AlertsExactly(items: seq<Item>, errors: seq<real>, calibrated: real, t: real)
    requires calibrated > 0.0 && |items| == |errors| && forall i :: 0 <= i < |errors| ==> errors[i] >= 0.0
    ensures Matches(Alerts(items, Scores(errors, calibrated), t), items, errors, calibrated, t)
  {
    if items != [] {
      var n := |items| - 1;
      AlertsExactly(items[..n], errors[..n], calibrated, t);
      assert Scores(errors, calibrated)[..n] == Scores(errors[..n], calibrated);
      OneAlert(items[n], errors[n], calibrated, t);
      MatchesGrow(items, errors, calibrated, t, Alerts(items[..n], Scores(errors[..n], calibrated), t),
                  MakeAlert(items[n].reading, Score(errors[n], calibrated)));
    }
  }

  /** At the default threshold an item raises an alert exactly if its error exceeds the calibrated one. */
  lemma DefaultAlerts(items: seq<Item>, errors: seq<real>, calibrated: real, j: nat)
    requires calibrated > 0.0 && |items| == |errors| && forall i :: 0 <= i < |errors| ==> errors[i] >= 0.0
    ensures Matches(Alerts(items, Scores(errors, calibrated), 0.5), items, errors, calibrated, 0.5)
    ensures j in Raised(errors, calibrated, 0.5) <==> j < |errors| && errors[j] > calibrated
  {
    AlertsExactly(items, errors, calibrated, 0.5);
    RaisedSpec(errors, calibrated, 0.5);
  }

  // ---------------------------------------------------------- which entries become items

  /** The readings of the entries that parse, in order. */
  ghost function Parsed(es: seq<Entry>): seq<Reading> {
    if es == [] then []
    else
      var init, last := Parsed(es[..|es| - 1]), es[|es| - 1];
      if last.body.Some? then init + [last.body.value] else init
  }

  /** The entry parses, and its reading has features. */
  ghost predicate Scorable(stats: Stats, e: Entry) { e.body.Some? && Features(stats, e.body.value, []).Some? }

  /** The positions of the scorable entries, in order. */
  ghost function Kept(stats: Stats, es: seq<Entry>): seq<nat> {
    if es == [] then []
    else
      var n := |es| - 1;
      Kept(stats, es[..n]) + if Scorable(stats, es[n]) then [n] else []
  }

  ghost predicate Increasing(js: seq<nat>, bound: nat) {
    (forall k :: 0 <= k < |js| ==> js[k] < bound) && (forall k, l :: 0 <= k < l < |js| ==> js[k] < js[l])
  }

  lemma {:induction false} KeptOrder(stats: Stats, es: seq<Entry>)
    ensures Increasing(Kept(stats, es), |es|)
  {
    if es != [] {
      var n := |es| - 1;
      KeptOrder(stats, es[..n]);
      assert Increasing(Kept(stats, es[..n]) + [n], |es|);
    }
  }

  lemma {:induction false} KeptIff(stats: Stats, es: seq<Entry>, i: nat)
    ensures i in Kept(stats, es) <==> i < |es| && Scorable(stats, es[i])
  {
    if es != [] { KeptIff(stats, es[..|es| - 1], i); }
  }

  /** What one more entry does to the windows and the items. */
  lemma ItemsStep(stats: Stats, size: nat, ws: Windows, es: seq<Entry>)
    requires es != []
    ensures var (w1, items), last := Items(stats, size, ws, es[..|es| - 1]), es[|es| - 1];
      if last.body.None? then Items(stats, size, ws, es) == (w1, items)
      else
        var (w2, row) := Extract(stats, size, w1, last.body.value);
        Items(stats, size, ws, es) == (w2, if row.Some? then items + [Item(last.body.value, row.value)] else items)
  {
  }

  /** A batch moves the windows on by all its readings. */
  lemma {:induction false} BatchWindows(stats: Stats, size: nat, rs: seq<Reading>, es: seq<Entry>)
    ensures Items(stats, size, WindowsAfter(stats, size, rs), es).0 == WindowsAfter(stats, size, rs + Parsed(es))
  {
    if es == [] {
      assert rs + Parsed(es) == rs;
    } else {
      var n := |es| - 1;
      var before := rs + Parsed(es[..n]);
      BatchWindows(stats, size, rs, es[..n]);
      ItemsStep(stats, size, WindowsAfter(stats, size, rs), es);
      if es[n].body.Some? {
        assert rs + Parsed(es) == before + [es[n].body.value];
        WindowsStep(stats, size, before, es[n].body.value);
      }
    }
  }

  /** The item of the entry at position j: its own reading, and its row on its device's window at that point. */
  ghost predicate ItemOf(stats: Stats, size: nat, rs: seq<Reading>, es: seq<Entry>, j: nat, item: Item) {
    && j < |es| && es[j].body == Some(item.reading)
    && var before := Only(rs + Parsed(es[..j]), item.reading.device);
       Features(stats, item.reading, LastOnes(Accepted(stats, before), size)) == Some(item.row)
  }

  lemma LastItem(stats: Stats, size: nat, rs: seq<Reading>, es: seq<Entry>)
    requires es != [] && es[|es| - 1].body.Some?
    ensures var n := |es| - 1;
      var r := es[n].body.value;
      var row := Extract(stats, size, Items(stats, size, WindowsAfter(stats, size, rs), es[..n]).0, r).1;
      && (row.Some? <==> Scorable(stats, es[n]))
      && (row.Some? ==> ItemOf(stats, size, rs, es, n, Item(r, row.value)))
  {
    var n := |es| - 1;
    BatchWindows(stats, size, rs, es[..n]);
    WindowIsRecent(stats, size, rs + Parsed(es[..n]), es[n].body.value.device);
  }

  /**
   * The items of a batch after the readings rs: exactly the entries that parse and have features, in order, each with
   * its own reading and with its row on the window of its device's earlier readings.
   */
  lemma ItemsExactly(stats: Stats, size: nat, rs: seq<Reading>, es: seq<Entry>)
    ensures var items, js := Items(stats, size, WindowsAfter(stats, size, rs), es).1, Kept(stats, es);
      && ItemsOf(stats, size, rs, es, js, items)
      && Increasing(js, |es|)
      && (forall i: nat :: i in js <==> i < |es| && Scorable(stats, es[i]))
  {
    KeptOrder(stats, es);
    forall i: nat ensures i in Kept(stats, es) <==> i < |es| && Scorable(stats, es[i]) { KeptIff(stats, es, i); }
    ItemsMatch(stats, size, rs, es);
  }

  ghost predicate ItemsOf(stats: Stats, size: nat, rs: seq<Reading>, es: seq<Entry>, js: seq<nat>, items: seq<Item>) {
    |items| == |js| && forall k :: 0 <= k < |js| ==> ItemOf(stats, size, rs, es, js[k], items[k])
  }

  lemma ItemsOfPrefix(stats: Stats, size: nat, rs: seq<Reading>, es: seq<Entry>, js: seq<nat>, items: seq<Item>)
    requires es != [] && ItemsOf(stats, size, rs, es[..|es| - 1], js, items)
    ensures ItemsOf(stats, size, rs, es, js, items)
  {
    var n := |es| - 1;
    forall k | 0 <= k < |js| ensures ItemOf(stats, size, rs, es, js[k], items[k]) {
      assert ItemOf(stats, size, rs, es[..n], js[k], items[k]) && es[..n][..js[k]] == es[..js[k]];
    }
  }

  lemma ItemsOfGrow(stats: Stats, size: nat, rs: seq<Reading>, es: seq<Entry>, js: seq<nat>, items: seq<Item>,
                    j: nat, item: Item)
    requires ItemsOf(stats, size, rs, es, js, items) && ItemOf(stats, size, rs, es, j, item)
    ensures ItemsOf(stats, size, rs, es, js + [j], items + [item])
  {
  }

  lemma {:induction false} ItemsMatch(stats: Stats, size: nat, rs: seq<Reading>, es: seq<Entry>)
    ensures ItemsOf(stats, size, rs, es, Kept(stats, es), Items(stats, size, WindowsAfter(stats, size, rs), es).1)
  {
    if es != [] {
      var n, ws := |es| - 1, WindowsAfter(stats, size, rs);
      var (w1, items) := Items(stats, size, ws, es[..n]);
      var js := Kept(stats, es[..n]);
      ItemsMatch(stats, size, rs, es[..n]);
      ItemsOfPrefix(stats, size, rs, es, js, items);
      ItemsStep(stats, size, ws, es);
      if es[n].body.Some? {
        LastItem(stats, size, rs, es);
        var row := Extract(stats, size, w1, es[n].body.value).1;
        if row.Some? { ItemsOfGrow(stats, size, rs, es, js, items, n, Item(es[n].body.value, row.value)); }
      }
    }
  }

  /** Malformed entries drop out without disturbing the others: the batch behaves like its parsed entries alone. */
  lemma {:induction false} MalformedInvisible(stats: Stats, size: nat, ws: Windows, es: seq<Entry>)
    ensures Items(stats, size, ws, es) == Items(stats, size, ws, ParsedOnly(es))
  {
    if es != [] {
      var init, last := es[..|es| - 1], es[|es| - 1];
      MalformedInvisible(stats, size, ws, init);
      if last.body.Some? {
        var p := ParsedOnly(es);
        assert p[..|p| - 1] == ParsedOnly(init) && p[|p| - 1] == last;
      }
    }
  }

  ghost function ParsedOnly(es: seq<Entry>): seq<Entry> {
    if es == [] then []
    else
      var init, last := ParsedOnly(es[..|es| - 1]), es[|es| - 1];
      if last.body.Some? then init + [last] else init
  }

  // ------------------------------------------------------ acknowledged, but published?

  /** The alerts whose XADD ran, in order. */
  ghost function Through(alerts: seq<Alert>, outs: seq<Outcome>): seq<Alert> {
    if alerts == [] then []
    else
      var n := |alerts| - 1;
      Through(alerts[..n], outs) + if OutcomeOf(outs, n).Ran? then [alerts[n]] else []
  }

  lemma {:induction false} ThroughAll(alerts: seq<Alert>, outs: seq<Outcome>)
    ensures |Through(alerts, outs)| <= |alerts|
    ensures Through(alerts, outs) == alerts <==> forall k :: 0 <= k < |alerts| ==> OutcomeOf(outs, k).Ran?
  {
    if alerts != [] {
      var n := |alerts| - 1;
      ThroughAll(alerts[..n], outs);
      assert alerts == alerts[..n] + [alerts[n]];
      if OutcomeOf(outs, n).Ran? && Through(alerts, outs) == alerts {
        assert Through(alerts[..n], outs) == Through(alerts, outs)[..n] == alerts[..n];
      }
    }
  }

  lemma {:induction false} AddsSent(st: Streams, alerts: seq<Alert>, outs: seq<Outcome>)
    ensures Sent(st, Adds(alerts), outs) == st.(published := st.published + Through(alerts, outs))
  {
    if alerts != [] {
      var n := |alerts| - 1;
      AddsSent(st, alerts[..n], outs);
      assert Adds(alerts)[..n] == Adds(alerts[..n]);
    }
  }

  /** What a batch leaves in Redis: the alerts that got through, and all entries acknowledged iff the XACK ran. */
  lemma SentExactly(st: Streams, alerts: seq<Alert>, es: seq<Entry>, outs: seq<Outcome>)
    ensures var st' := Sent(st, Pipeline(alerts, es), outs);
      && st'.published == st.published + Through(alerts, outs)
      && st'.acked == st.acked + if OutcomeOf(outs, |alerts|).Ran? then (set e | e in es :: e.id) else {}
  {
    var pipe := Pipeline(alerts, es);
    assert pipe[..|alerts|] == Adds(alerts) && pipe[|alerts|] == XAck(Ids(es));
    AddsSent(st, alerts, outs);
    assert (set i | i in Ids(es)) == set e | e in es :: e.id by {
      forall e | e in es ensures e.id in Ids(es) {
        var i :| 0 <= i < |es| && es[i] == e;
        assert Ids(es)[i] == e.id;
      }
      forall x | x in Ids(es) ensures exists e :: e in es && e.id == x {
        var i :| 0 <= i < |Ids(es)| && Ids(es)[i] == x;
        assert es[i] in es;
      }
    }
  }

  /** An entry of the batch is acknowledged although an alert of the batch was not published. */
  ghost predicate AlertLost(alerts: seq<Alert>, es: seq<Entry>, outs: seq<Outcome>) {
    var st := Sent(Streams([], {}), Pipeline(alerts, es), outs);
    (exists e :: e in es && e.id in st.acked) && st.published != alerts
  }

  /**
   * Acknowledged does not mean published: with one round trip and no transaction, an entry is acknowledged
   * although an alert of its batch was not published exactly if some XADD was refused and the XACK ran all the
   * same. A broken connection leaves the batch unacknowledged instead, and its unreached alerts unpublished.
   */
  lemma AlertLostExactly(alerts: seq<Alert>, es: seq<Entry>, outs: seq<Outcome>)
    requires es != [] && Connected(outs)
    ensures AlertLost(alerts, es, outs) <==>
      OutcomeOf(outs, |alerts|).Ran? && exists k :: 0 <= k < |alerts| && OutcomeOf(outs, k).Refused?
  {
    var n := |alerts|;
    SentExactly(Streams([], {}), alerts, es, outs);
    ThroughAll(alerts, outs);
    assert es[0] in es && [] + Through(alerts, outs) == Through(alerts, outs);
    if OutcomeOf(outs, n).Ran? {
      assert outs[n].Ran?;
      assert forall k :: 0 <= k < n ==> !OutcomeOf(outs, k).NotReached?;
    }
  }

  /** The smallest case: one anomalous entry, its XADD refused (for example for lack of memory), its XACK run. */
  lemma RefusedAlertAcked(e: Entry, a: Alert)
    ensures AlertLost([a], [e], [Refused, Ran])
    ensures Sent(Streams([], {}), Pipeline([a], [e]), [Refused, Ran]) == Streams([], {e.id})
  {
    var outs := [Refused, Ran];
    AlertLostExactly([a], [e], outs);
    assert OutcomeOf(outs, 0).Refused? && OutcomeOf(outs, 1).Ran?;
    SentExactly(Streams([], {}), [a], [e], outs);
    assert Through([a][..0], outs) == [] && Through([a], outs) == [];
  }
}

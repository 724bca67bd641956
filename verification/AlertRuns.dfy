/**
 * Runs of the anomaly detector over many batches: which alerts are ever published, which entries acknowledged.
 * Only new entries are read, so what a batch does not publish or acknowledge nobody does later.
 */
module AlertRuns {
  import opened Common
  import opened FeatureExtraction
  import opened AnomalyDetection

  /**
   * One iteration of the main loop that was handed entries: whether the reply to the read arrived, whether scoring
   * raises, the error of each row, and what becomes of each command. Only new entries are ever read.
   */
  datatype Batch = Batch(entries: seq<Entry>, arrived: bool, raises: bool, error: nat -> real, outs: seq<Outcome>)

  datatype Setup = Setup(stats: Stats, size: nat, calibrated: real, threshold: real)

  datatype State = State(windows: Windows, streams: Streams)

  /** The alerts a batch calls for. */
  ghost function Due(cfg: Setup, ws: Windows, b: Batch): seq<Alert>
    requires cfg.calibrated > 0.0 && Fair(b.error)
  {
    Found(Items(cfg.stats, cfg.size, ws, b.entries).1, b.error, cfg.calibrated, cfg.threshold)
  }

  /** The pipeline goes out. */
  ghost predicate Sends(cfg: Setup, ws: Windows, b: Batch) {
    b.arrived && (b.raises ==> Items(cfg.stats, cfg.size, ws, b.entries).1 == [])
  }

  ghost function Handled(cfg: Setup, st: State, b: Batch): State
    requires cfg.calibrated > 0.0 && Fair(b.error)
  {
    if !b.arrived then st
    else
      var ws := Items(cfg.stats, cfg.size, st.windows, b.entries).0;
      State(ws, if !Sends(cfg, st.windows, b) then st.streams
                else Sent(st.streams, Pipeline(Due(cfg, st.windows, b), b.entries), b.outs))
  }

  ghost predicate AllFair(bs: seq<Batch>) { forall i :: 0 <= i < |bs| ==> Fair(bs[i].error) }

  ghost function RunBatches(cfg: Setup, st: State, bs: seq<Batch>): State
    requires cfg.calibrated > 0.0 && AllFair(bs)
  {
    if bs == [] then st else Handled(cfg, RunBatches(cfg, st, bs[..|bs| - 1]), bs[|bs| - 1])
  }

  /** The readings a run has seen: those of all batches whose read reply arrived, scored or not. */
  ghost function Seen(bs: seq<Batch>): seq<Reading> {
    if bs == [] then []
    else Seen(bs[..|bs| - 1]) + if bs[|bs| - 1].arrived then Parsed(bs[|bs| - 1].entries) else []
  }

  /** Every batch is judged on the windows left by all readings seen before it. */
  lemma {:induction false} RunWindows(cfg: Setup, streams: Streams, bs: seq<Batch>)
    requires cfg.calibrated > 0.0 && AllFair(bs)
    ensures RunBatches(cfg, State(map[], streams), bs).windows == WindowsAfter(cfg.stats, cfg.size, Seen(bs))
  {
    if bs != [] {
      var n := |bs| - 1;
      RunWindows(cfg, streams, bs[..n]);
      BatchWindows(cfg.stats, cfg.size, Seen(bs[..n]), bs[n].entries);
      assert Seen(bs[..n]) + [] == Seen(bs[..n]);
    }
  }

  /** The alerts batch i of a run calls for. */
  ghost function DueAt(cfg: Setup, st: State, bs: seq<Batch>, i: nat): seq<Alert>
    requires cfg.calibrated > 0.0 && AllFair(bs) && i < |bs|
  {
    Due(cfg, RunBatches(cfg, st, bs[..i]).windows, bs[i])
  }

  /** An alert of a run: the k-th one that batch i calls for. */
  datatype Label = Label(batch: nat, position: nat)

  ghost predicate Earlier(a: Label, b: Label) { a.batch < b.batch || (a.batch == b.batch && a.position < b.position) }

  /** The XADDs of batch i that ran, among the first n. */
  ghost function RanOf(outs: seq<Outcome>, i: nat, n: nat): seq<Label> {
    if n == 0 then [] else RanOf(outs, i, n - 1) + if OutcomeOf(outs, n - 1).Ran? then [Label(i, n - 1)] else []
  }

  /** `ls` names the alerts `added` by batch i, in order. */
  ghost predicate NamesOf(due: seq<Alert>, i: nat, ls: seq<Label>, added: seq<Alert>) {
    && |ls| == |added|
    && (forall m :: 0 <= m < |ls| ==>
         ls[m].batch == i && ls[m].position < |due| && added[m] == due[ls[m].position])
    && (forall m, l :: 0 <= m < l < |ls| ==> ls[m].position < ls[l].position)
  }

  lemma {:induction false} RanOfNames(alerts: seq<Alert>, outs: seq<Outcome>, i: nat)
    ensures NamesOf(alerts, i, RanOf(outs, i, |alerts|), Through(alerts, outs))
  {
    if alerts != [] {
      var n := |alerts| - 1;
      RanOfNames(alerts[..n], outs, i);
      var init, ls := RanOf(outs, i, n), RanOf(outs, i, |alerts|);
      assert forall m :: 0 <= m < |init| ==> ls[m] == init[m];
    }
  }

  lemma {:induction false} RanOfIff(outs: seq<Outcome>, i: nat, n: nat, k: nat)
    ensures Label(i, k) in RanOf(outs, i, n) <==> k < n && OutcomeOf(outs, k).Ran?
  {
    if n > 0 { RanOfIff(outs, i, n - 1, k); }
  }

  ghost function PublishedBy(cfg: Setup, ws: Windows, b: Batch, i: nat): seq<Label>
    requires cfg.calibrated > 0.0 && Fair(b.error)
  {
    if Sends(cfg, ws, b) then RanOf(b.outs, i, |Due(cfg, ws, b)|) else []
  }

  /** The alerts of a run whose XADD was sent and ran, batch by batch. */
  ghost function Published(cfg: Setup, st: State, bs: seq<Batch>): seq<Label>
    requires cfg.calibrated > 0.0 && AllFair(bs)
  {
    if bs == [] then []
    else
      var n := |bs| - 1;
      var before := RunBatches(cfg, st, bs[..n]).windows;
      Published(cfg, st, bs[..n]) + PublishedBy(cfg, before, bs[n], n)
  }

  ghost predicate IsAlert(cfg: Setup, st: State, bs: seq<Batch>, l: Label, a: Alert)
    requires cfg.calibrated > 0.0 && AllFair(bs)
  {
    l.batch < |bs| && l.position < |DueAt(cfg, st, bs, l.batch)| && a == DueAt(cfg, st, bs, l.batch)[l.position]
  }

  lemma DueAtPrefix(cfg: Setup, st: State, bs: seq<Batch>, n: nat, i: nat)
    requires cfg.calibrated > 0.0 && AllFair(bs) && i < n <= |bs|
    ensures DueAt(cfg, st, bs[..n], i) == DueAt(cfg, st, bs, i)
  {
    assert bs[..n][..i] == bs[..i];
  }

  /** What one more batch publishes. */
  lemma BatchPublishes(cfg: Setup, st: State, b: Batch, i: nat)
    requires cfg.calibrated > 0.0 && Fair(b.error)
    ensures var ls, due := PublishedBy(cfg, st.windows, b, i), Due(cfg, st.windows, b);
      var before, after := st.streams.published, Handled(cfg, st, b).streams.published;
      && before <= after && NamesOf(due, i, ls, after[|before|..])
      && (forall k: nat :: Label(i, k) in ls <==> k < |due| && b.arrived && !b.raises && OutcomeOf(b.outs, k).Ran?)
  {
    var due := Due(cfg, st.windows, b);
    SentExactly(st.streams, due, b.entries, b.outs);
    RanOfNames(due, b.outs, i);
    forall k: nat ensures Label(i, k) in RanOf(b.outs, i, |due|) <==> k < |due| && OutcomeOf(b.outs, k).Ran? {
      RanOfIff(b.outs, i, |due|, k);
    }
  }

  /** The labels name, in order and without repetition, the alerts that the run has added to the stream. */
  ghost predicate Names(cfg: Setup, st: State, bs: seq<Batch>, ls: seq<Label>, added: seq<Alert>)
    requires cfg.calibrated > 0.0 && AllFair(bs)
  {
    && |ls| == |added|
    && (forall m :: 0 <= m < |ls| ==> IsAlert(cfg, st, bs, ls[m], added[m]))
    && (forall m, l :: 0 <= m < l < |ls| ==> Earlier(ls[m], ls[l]))
  }

  lemma NamesPrefix(cfg: Setup, st: State, bs: seq<Batch>, ls: seq<Label>, added: seq<Alert>)
    requires cfg.calibrated > 0.0 && AllFair(bs) && bs != []
    requires Names(cfg, st, bs[..|bs| - 1], ls, added)
    ensures Names(cfg, st, bs, ls, added) && forall m :: 0 <= m < |ls| ==> ls[m].batch < |bs| - 1
  {
    var n := |bs| - 1;
    forall m | 0 <= m < |ls| ensures ls[m].batch < n && IsAlert(cfg, st, bs, ls[m], added[m]) {
      assert IsAlert(cfg, st, bs[..n], ls[m], added[m]);
      DueAtPrefix(cfg, st, bs, n, ls[m].batch);
    }
  }

  lemma NamesGrow(cfg: Setup, st: State, bs: seq<Batch>, ls: seq<Label>, added: seq<Alert>,
                  more: seq<Label>, extra: seq<Alert>)
    requires cfg.calibrated > 0.0 && AllFair(bs) && bs != []
    requires Names(cfg, st, bs[..|bs| - 1], ls, added) && NamesOf(DueAt(cfg, st, bs, |bs| - 1), |bs| - 1, more, extra)
    ensures Names(cfg, st, bs, ls + more, added + extra)
  {
    NamesPrefix(cfg, st, bs, ls, added);
    var all, alerts := ls + more, added + extra;
    forall m | 0 <= m < |all| ensures IsAlert(cfg, st, bs, all[m], alerts[m]) {
      if m >= |ls| { assert all[m] == more[m - |ls|]; }
    }
  }

  lemma {:induction false} PublishedNames(cfg: Setup, st: State, bs: seq<Batch>)
    requires cfg.calibrated > 0.0 && AllFair(bs)
    ensures var before, after := st.streams.published, RunBatches(cfg, st, bs).streams.published;
      before <= after && Names(cfg, st, bs, Published(cfg, st, bs), after[|before|..])
  {
    if bs != [] {
      var n := |bs| - 1;
      var mid := RunBatches(cfg, st, bs[..n]);
      PublishedNames(cfg, st, bs[..n]);
      BatchPublishes(cfg, mid, bs[n], n);
      var before, was, now := |st.streams.published|, mid.streams.published, RunBatches(cfg, st, bs).streams.published;
      var more := PublishedBy(cfg, mid.windows, bs[n], n);
      NamesGrow(cfg, st, bs, Published(cfg, st, bs[..n]), was[before..], more, now[|was|..]);
      assert now[before..] == was[before..] + now[|was|..];
    }
  }

  /** The read reply of batch i arrived, its scoring did not raise, and its k-th XADD ran. */
  ghost predicate GetsOut(bs: seq<Batch>, i: nat, k: nat)
    requires i < |bs|
  {
    bs[i].arrived && !bs[i].raises && OutcomeOf(bs[i].outs, k).Ran?
  }

  lemma {:induction false} PublishedIff(cfg: Setup, st: State, bs: seq<Batch>, i: nat, k: nat)
    requires cfg.calibrated > 0.0 && AllFair(bs) && i < |bs|
    ensures Label(i, k) in Published(cfg, st, bs) <==> k < |DueAt(cfg, st, bs, i)| && GetsOut(bs, i, k)
  {
    var n := |bs| - 1;
    var mid := RunBatches(cfg, st, bs[..n]);
    BatchPublishes(cfg, mid, bs[n], n);
    PublishedNames(cfg, st, bs[..n]);
    if i < n {
      PublishedIff(cfg, st, bs[..n], i, k);
      DueAtPrefix(cfg, st, bs, n, i);
      assert GetsOut(bs[..n], i, k) == GetsOut(bs, i, k);
      assert Label(i, k) !in PublishedBy(cfg, mid.windows, bs[n], n);
    } else {
      var ls, added := Published(cfg, st, bs[..n]), mid.streams.published[|st.streams.published|..];
      assert forall m :: 0 <= m < |ls| ==> IsAlert(cfg, st, bs[..n], ls[m], added[m]);
      assert Label(i, k) !in ls;
    }
  }

  /**
   * Loss, exactly, over every run: the alerts added to the stream are, in order and once each, those called for by
   * a batch whose read reply arrived, whose scoring did not raise and whose XADD ran. Every other alert is lost for
   * good: however the run goes on, nothing else publishes it.
   */
  lemma AlertsPublishedExactly(cfg: Setup, st: State, bs: seq<Batch>, more: seq<Batch>, i: nat, k: nat)
    requires cfg.calibrated > 0.0 && AllFair(bs + more) && AllFair(bs) && i < |bs| && k < |DueAt(cfg, st, bs, i)|
    ensures var run := bs + more;
      var before, after := st.streams.published, RunBatches(cfg, st, run).streams.published;
      && before <= after && Names(cfg, st, run, Published(cfg, st, run), after[|before|..])
      && DueAt(cfg, st, run, i) == DueAt(cfg, st, bs, i)
      && (Label(i, k) in Published(cfg, st, run) <==> GetsOut(bs, i, k))
  {
    var run := bs + more;
    assert run[..|bs|] == bs;
    DueAtPrefix(cfg, st, run, |bs|, i);
    PublishedNames(cfg, st, run);
    PublishedIff(cfg, st, run, i, k);
  }

  /** A batch read entry `id`, was scored or had nothing to score, and its XACK ran. */
  ghost predicate AcksEntry(cfg: Setup, ws: Windows, b: Batch, id: nat)
    requires cfg.calibrated > 0.0 && Fair(b.error)
  {
    Sends(cfg, ws, b) && OutcomeOf(b.outs, |Due(cfg, ws, b)|).Ran? && exists e :: e in b.entries && e.id == id
  }

  lemma BatchAcks(cfg: Setup, st: State, b: Batch, id: nat)
    requires cfg.calibrated > 0.0 && Fair(b.error)
    ensures id in Handled(cfg, st, b).streams.acked <==> id in st.streams.acked || AcksEntry(cfg, st.windows, b, id)
  {
    SentExactly(st.streams, Due(cfg, st.windows, b), b.entries, b.outs);
  }

  ghost predicate AckedBy(cfg: Setup, st: State, bs: seq<Batch>, i: nat, id: nat)
    requires cfg.calibrated > 0.0 && AllFair(bs) && i < |bs|
  {
    AcksEntry(cfg, RunBatches(cfg, st, bs[..i]).windows, bs[i], id)
  }

  /** An entry is acknowledged exactly if a batch that read it was scored, or had nothing to score, and its XACK ran. */
  lemma {:induction false} EntriesAckedExactly(cfg: Setup, st: State, bs: seq<Batch>, id: nat)
    requires cfg.calibrated > 0.0 && AllFair(bs)
    ensures id in RunBatches(cfg, st, bs).streams.acked <==>
      id in st.streams.acked || exists i :: 0 <= i < |bs| && AckedBy(cfg, st, bs, i, id)
  {
    if bs != [] {
      var n := |bs| - 1;
      EntriesAckedExactly(cfg, st, bs[..n], id);
      BatchAcks(cfg, RunBatches(cfg, st, bs[..n]), bs[n], id);
      forall i | 0 <= i < n ensures AckedBy(cfg, st, bs, i, id) <==> AckedBy(cfg, st, bs[..n], i, id) {
        assert bs[..n][..i] == bs[..i];
      }
      if i :| 0 <= i < n && AckedBy(cfg, st, bs[..n], i, id) { assert AckedBy(cfg, st, bs, i, id); }
      assert AckedBy(cfg, st, bs, n, id) <==> AcksEntry(cfg, RunBatches(cfg, st, bs[..n]).windows, bs[n], id);
    }
  }

  // ------------------------------------------------------------------ the imperative loop

  /** The state of a detector object. */
  ghost function View(d: AnomalyDetector): State
    reads d, d.extractor, d.redis
  {
    State(d.extractor.windows, d.redis.View())
  }

  ghost function SetupOf(d: AnomalyDetector): Setup {
    Setup(d.extractor.stats, d.extractor.size, d.calibrated, d.threshold)
  }

  /** The loop of `run`: an iteration that raises is logged and the next one reads on. */
  method RunDetector(d: AnomalyDetector, bs: seq<Batch>)
    requires d.calibrated > 0.0 && AllFair(bs)
    modifies d.extractor, d.redis
    ensures View(d) == RunBatches(SetupOf(d), old(View(d)), bs)
  {
    for i := 0 to |bs|
      invariant View(d) == RunBatches(SetupOf(d), old(View(d)), bs[..i])
    {
      assert bs[..i + 1][..i] == bs[..i];
      var b := bs[i];
      assert Fair(b.error);
      if b.arrived { var ok := d.ProcessBatch(b.entries, b.raises, b.error, b.outs); }
    }
    assert bs[..|bs|] == bs;
  }
}

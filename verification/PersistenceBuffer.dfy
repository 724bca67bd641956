/** How many rows the worker can hold in memory. */
module PersistenceBuffer {
  import opened Common
  import opened Persistence
  import opened PersistenceSafety

  // ------------------------------------------------------------ every run

  /** Passes cut short since the last one that completed its flush decision. */
  ghost function CutsSince(cfg: Config, log: seq<Body>, w: World, script: seq<Pass>, cuts: nat): nat
    requires w.delivered <= |log|
    decreases |script|
  {
    if script == [] then cuts
    else
      var (w', end) := Step(cfg, log, w, script[0]);
      if end == Cut(true) then cuts + 1
      else CutsSince(cfg, log, w', script[1..], if end.Completed? then 0 else cuts + 1)
  }

  lemma BatchGrowth(cfg: Config, log: seq<Body>, w: World, p: Pass)
    requires w.delivered <= |log|
    ensures |w.buffer| <= |TakeBatch(cfg, log, w, p).0.buffer| <= |w.buffer| + cfg.batchSize
  {
    var hi := w.delivered + Fetched(cfg, log, w.delivered, p.count);
    AbsorbGrows(log, w.(delivered := hi), w.delivered, hi, p.badAcks);
  }

  lemma StepGrowth(cfg: Config, log: seq<Body>, w: World, p: Pass)
    requires w.delivered <= |log| && cfg.batchSize > 0
    ensures var (w', end) := Step(cfg, log, w, p);
      if end.Completed? then |w'.buffer| < cfg.batchSize else |w'.buffer| <= |w.buffer| + cfg.batchSize
  {
    BatchGrowth(cfg, log, w, p);
  }

  /** `first` rows, and `each` more per cut. */
  ghost function Capacity(first: int, each: int, cuts: nat): int {
    if cuts == 0 then first else Capacity(first, each, cuts - 1) + each
  }

  lemma {:induction false} CapacityClosed(first: int, each: int, cuts: nat)
    ensures Capacity(first, each, cuts) == first + cuts * each
  {
    if cuts > 0 { CapacityClosed(first, each, cuts - 1); }
  }

  lemma {:induction false} BufferWithin(cfg: Config, log: seq<Body>, w: World, script: seq<Pass>, cuts: nat)
    requires w.delivered <= |log| && cfg.batchSize > 0
    requires |w.buffer| <= Capacity(cfg.batchSize - 1, cfg.batchSize, cuts)
    ensures |Run(cfg, log, w, script).buffer|
      <= Capacity(cfg.batchSize - 1, cfg.batchSize, CutsSince(cfg, log, w, script, cuts))
    decreases |script|
  {
    if script != [] {
      StepGrowth(cfg, log, w, script[0]);
      var (w', end) := Step(cfg, log, w, script[0]);
      if end != Cut(true) { BufferWithin(cfg, log, w', script[1..], if end.Completed? then 0 else cuts + 1); }
    }
  }

  /** In every run, c cut passes in a row leave at most (c + 1) * batch_size - 1 rows buffered. */
  lemma BufferBound(cfg: Config, log: seq<Body>, start: real, script: seq<Pass>)
    requires cfg.batchSize > 0
    ensures |Run(cfg, log, Fresh(start), script).buffer|
      <= cfg.batchSize - 1 + CutsSince(cfg, log, Fresh(start), script, 0) * cfg.batchSize
  {
    BufferWithin(cfg, log, Fresh(start), script, 0);
    CapacityClosed(cfg.batchSize - 1, cfg.batchSize, CutsSince(cfg, log, Fresh(start), script, 0));
  }

  // ------------------------------------------------ runs without a failed flush

  /** The batch is taken whole and the flush it leads to fails. */
  ghost predicate FlushFails(cfg: Config, log: seq<Body>, w: World, p: Pass)
    requires w.delivered <= |log|
  {
    var (mid, c) := TakeBatch(cfg, log, w, p);
    p.read.Done? && c.Done? && !Decide(cfg, mid, p).1.Completed?
  }

  /** A bad-message ack that raises cuts the batch short. */
  ghost predicate BadAckCuts(cfg: Config, log: seq<Body>, w: World, p: Pass)
    requires w.delivered <= |log|
  {
    p.read.Done? && !TakeBatch(cfg, log, w, p).1.Done?
  }

  ghost predicate NoFailedFlush(cfg: Config, log: seq<Body>, w: World, script: seq<Pass>)
    requires w.delivered <= |log|
    decreases |script|
  {
    script == [] || (
      var (w', end) := Step(cfg, log, w, script[0]);
      !FlushFails(cfg, log, w, script[0]) && (end == Cut(true) || NoFailedFlush(cfg, log, w', script[1..])))
  }

  /** Batches cut short by a bad-message ack since the last pass that completed. */
  ghost function BadAcksSince(cfg: Config, log: seq<Body>, w: World, script: seq<Pass>, cuts: nat): nat
    requires w.delivered <= |log|
    decreases |script|
  {
    if script == [] then cuts
    else
      var (w', end) := Step(cfg, log, w, script[0]);
      var now := if end.Completed? then 0 else if BadAckCuts(cfg, log, w, script[0]) then cuts + 1 else cuts;
      if end == Cut(true) then now else BadAcksSince(cfg, log, w', script[1..], now)
  }

  /** A batch that is cut short has lost at least one place to a malformed entry. */
  lemma {:induction false} CutBatchGrowth(log: seq<Body>, w: World, i: nat, hi: nat, acks: seq<Call>)
    requires i <= hi <= |log| && !Absorb(log, w, i, hi, acks).1.Done?
    ensures |Absorb(log, w, i, hi, acks).0.buffer| < |w.buffer| + (hi - i)
    decreases hi - i
  {
    match log[i] {
      case Parsed(r) => CutBatchGrowth(log, Keep(w, i, r), i + 1, hi, Rest(acks));
      case Malformed =>
        if First(acks).Done? { CutBatchGrowth(log, Acknowledge(w, {i}, First(acks)), i + 1, hi, Rest(acks)); }
    }
  }

  lemma StepTightGrowth(cfg: Config, log: seq<Body>, w: World, p: Pass)
    requires w.delivered <= |log| && cfg.batchSize > 0 && !FlushFails(cfg, log, w, p)
    ensures var (w', end) := Step(cfg, log, w, p);
      if end.Completed? || BadAckCuts(cfg, log, w, p)
      then |w'.buffer| <= (if end.Completed? then 0 else |w.buffer|) + cfg.batchSize - 1
      else w'.buffer == w.buffer
  {
    var hi := w.delivered + Fetched(cfg, log, w.delivered, p.count);
    if BadAckCuts(cfg, log, w, p) {
      CutBatchGrowth(log, w.(delivered := hi), w.delivered, hi, p.badAcks);
    }
    StepGrowth(cfg, log, w, p);
  }

  lemma {:induction false} TightWithin(cfg: Config, log: seq<Body>, w: World, script: seq<Pass>, cuts: nat)
    requires w.delivered <= |log| && cfg.batchSize > 0 && NoFailedFlush(cfg, log, w, script)
    requires |w.buffer| <= Capacity(cfg.batchSize - 1, cfg.batchSize - 1, cuts)
    ensures |Run(cfg, log, w, script).buffer|
      <= Capacity(cfg.batchSize - 1, cfg.batchSize - 1, BadAcksSince(cfg, log, w, script, cuts))
    decreases |script|
  {
    if script != [] {
      StepTightGrowth(cfg, log, w, script[0]);
      var (w', end) := Step(cfg, log, w, script[0]);
      var now := if end.Completed? then 0 else if BadAckCuts(cfg, log, w, script[0]) then cuts + 1 else cuts;
      if end != Cut(true) { TightWithin(cfg, log, w', script[1..], now); }
    }
  }

  /** The rows held at a loop head after c batches cut short, and inside the next pass. */
  ghost function AtHead(batchSize: nat, cuts: nat): int { (cuts + 1) * (batchSize - 1) }

  ghost function Inside(batchSize: nat, cuts: nat): int { AtHead(batchSize, cuts) + batchSize }

  lemma AtHeadStep(batchSize: nat, cuts: nat)
    ensures AtHead(batchSize, 0) == batchSize - 1
    ensures AtHead(batchSize, cuts + 1) == AtHead(batchSize, cuts) + (batchSize - 1)
  {
    var n := batchSize - 1;
    assert (cuts + 1 + 1) * n == (cuts + 1) * n + n;
  }

  lemma {:induction false} CapacityAtHead(batchSize: nat, cuts: nat)
    ensures Capacity(batchSize - 1, batchSize - 1, cuts) == AtHead(batchSize, cuts)
  {
    AtHeadStep(batchSize, if cuts > 0 then cuts - 1 else 0);
    if cuts > 0 { CapacityAtHead(batchSize, cuts - 1); }
  }

  /** Without a failed flush c cut batches leave (c + 1) * (batch_size - 1) rows at most, a batch more inside a pass. */
  lemma TightBound(cfg: Config, log: seq<Body>, start: real, script: seq<Pass>, p: Pass)
    requires cfg.batchSize > 0 && NoFailedFlush(cfg, log, Fresh(start), script)
    ensures var w, c := Run(cfg, log, Fresh(start), script), BadAcksSince(cfg, log, Fresh(start), script, 0);
      && |w.buffer| <= AtHead(cfg.batchSize, c)
      && |TakeBatch(cfg, log, w, p).0.buffer| <= Inside(cfg.batchSize, c)
  {
    TightWithin(cfg, log, Fresh(start), script, 0);
    CapacityAtHead(cfg.batchSize, BadAcksSince(cfg, log, Fresh(start), script, 0));
    BatchGrowth(cfg, log, Run(cfg, log, Fresh(start), script), p);
  }

  // ------------------------------------------------------- the bound is attained

  /** c + 1 groups of batch_size - 1 readings and a malformed entry, then one batch of readings. */
  function Groups(b: nat, c: nat): seq<Body>
    requires b > 0
  {
    seq((c + 2) * b, i requires 0 <= i => if i < (c + 1) * b && EndsGroup(b, i) then Malformed else Parsed(BLANK))
  }

  /** Position i is the last of its group of b. */
  predicate EndsGroup(b: nat, i: nat)
    requires b > 0
  {
    if i < b then i == b - 1 else EndsGroup(b, i - b)
  }

  lemma {:induction false} EndsGroupAt(b: nat, k: nat, j: nat)
    requires j < b
    ensures EndsGroup(b, k * b + j) <==> j == b - 1
  {
    if k > 0 {
      EndsGroupAt(b, k - 1, j);
      assert k * b + j - b == (k - 1) * b + j && k * b >= b;
    } else {
      assert k * b + j == j;
    }
  }

  lemma {:induction false} Before(b: nat, k: nat, n: nat)
    requires k < n
    ensures k * b + b <= n * b
  {
    assert n * b == (n - 1) * b + b;
    if k < n - 1 { Before(b, k, n - 1); }
  }

  const BLANK := Reading("", "", "", "", "")

  /** Takes one batch; its last entry's ack ends as `last`; nothing else goes wrong and no flush is due by time. */
  function GroupPass(cfg: Config, start: real, last: Call): Pass
    requires cfg.batchSize > 0
  {
    Pass(Done, cfg.batchSize, seq(cfg.batchSize - 1, _ => Done) + [last],
         start + cfg.flushInterval - 1.0, Done, Done, start)
  }

  /** Readings only: all are buffered. */
  lemma {:induction false} AbsorbReadings(log: seq<Body>, w: World, i: nat, hi: nat, acks: seq<Call>)
    requires i <= hi <= |log| && forall j :: i <= j < hi ==> log[j].Parsed?
    ensures |Absorb(log, w, i, hi, acks).0.buffer| == |w.buffer| + (hi - i) && Absorb(log, w, i, hi, acks).1.Done?
    decreases hi - i
  {
    if i < hi { AbsorbReadings(log, Keep(w, i, log[i].reading), i + 1, hi, Rest(acks)); }
  }

  /** Readings and then one malformed entry, whose ack decides how the batch ends. */
  lemma {:induction false} AbsorbGroup(log: seq<Body>, w: World, i: nat, hi: nat, acks: seq<Call>)
    requires i < hi <= |log| && log[hi - 1].Malformed? && forall j :: i <= j < hi - 1 ==> log[j].Parsed?
    requires |acks| == hi - i
    ensures |Absorb(log, w, i, hi, acks).0.buffer| == |w.buffer| + (hi - i) - 1
    ensures Absorb(log, w, i, hi, acks).1 == acks[hi - 1 - i]
    decreases hi - i
  {
    if i < hi - 1 {
      AbsorbGroup(log, Keep(w, i, log[i].reading), i + 1, hi, Rest(acks));
    } else {
      var w' := Acknowledge(w, {i}, First(acks));
      assert Absorb(log, w', i + 1, hi, Rest(acks)) == (w', Done);
    }
  }

  lemma GroupsAt(b: nat, c: nat, k: nat, j: nat)
    requires b > 0 && j < b && k <= c + 1
    ensures k * b + j < |Groups(b, c)| && (Groups(b, c)[k * b + j].Malformed? <==> k <= c && j == b - 1)
  {
    EndsGroupAt(b, k, j);
    Before(b, k, c + 2);
    if k <= c { Before(b, k, c + 1); }
  }

  /** Taking group k. */
  lemma GroupBatch(cfg: Config, c: nat, k: nat, start: real, last: Call, w: World)
    requires cfg.batchSize > 0 && k <= c + 1 && w.delivered == k * cfg.batchSize <= |Groups(cfg.batchSize, c)|
    ensures var (mid, out) := TakeBatch(cfg, Groups(cfg.batchSize, c), w, GroupPass(cfg, start, last));
      && mid.delivered == w.delivered + cfg.batchSize
      && |mid.buffer| == |w.buffer| + cfg.batchSize - (if k <= c then 1 else 0)
      && out == if k <= c then last else Done
  {
    var b, log, p := cfg.batchSize, Groups(cfg.batchSize, c), GroupPass(cfg, start, last);
    var lo := w.delivered;
    GroupsAt(b, c, k, b - 1);
    forall j | lo <= j < lo + b ensures log[j].Malformed? <==> k <= c && j == lo + b - 1 { GroupsAt(b, c, k, j - lo); }
    if k <= c {
      AbsorbGroup(log, w.(delivered := lo + b), lo, lo + b, p.badAcks);
    } else {
      AbsorbReadings(log, w.(delivered := lo + b), lo, lo + b, p.badAcks);
    }
  }

  /** The first group is acknowledged, the later ones are each refused the ack of their malformed entry. */
  function GroupScript(cfg: Config, start: real, k: nat): seq<Pass>
    requires cfg.batchSize > 0
  {
    seq(k, i => GroupPass(cfg, start, if i == 0 then Done else Failed(false)))
  }

  /** From group k on, with `n` more groups refused. */
  lemma {:induction false} RefusedGroups(cfg: Config, c: nat, k: nat, start: real, script: seq<Pass>, w: World,
                                         cuts: nat)
    requires cfg.batchSize > 0 && k + |script| == c + 1
    requires w.delivered == k * cfg.batchSize <= |Groups(cfg.batchSize, c)|
    requires forall i :: 0 <= i < |script| ==> script[i] == GroupPass(cfg, start, Failed(false))
    requires |w.buffer| == AtHead(cfg.batchSize, cuts)
    ensures var log := Groups(cfg.batchSize, c);
      var w' := Run(cfg, log, w, script);
      && NoFailedFlush(cfg, log, w, script)
      && BadAcksSince(cfg, log, w, script, cuts) == cuts + |script|
      && |w'.buffer| == AtHead(cfg.batchSize, cuts + |script|)
      && w'.delivered == (c + 1) * cfg.batchSize
    decreases |script|
  {
    if script != [] {
      var log := Groups(cfg.batchSize, c);
      GroupBatch(cfg, c, k, start, Failed(false), w);
      var w' := Step(cfg, log, w, script[0]).0;
      assert Step(cfg, log, w, script[0]).1 == Cut(false);
      AtHeadStep(cfg.batchSize, cuts);
      assert w'.delivered == (k + 1) * cfg.batchSize;
      GroupsAt(cfg.batchSize, c, k, cfg.batchSize - 1);
      RefusedGroups(cfg, c, k + 1, start, script[1..], w', cuts + 1);
    }
  }

  /** For any batch size and any c: a run without a failed flush that attains both bounds. */
  lemma TightAttained(cfg: Config, start: real, c: nat) returns (log: seq<Body>, script: seq<Pass>, p: Pass)
    requires cfg.batchSize > 0
    ensures NoFailedFlush(cfg, log, Fresh(start), script) && BadAcksSince(cfg, log, Fresh(start), script, 0) == c
    ensures var w := Run(cfg, log, Fresh(start), script);
      && |w.buffer| == AtHead(cfg.batchSize, c)
      && |TakeBatch(cfg, log, w, p).0.buffer| == Inside(cfg.batchSize, c)
  {
    var b := cfg.batchSize;
    log, script, p := Groups(b, c), GroupScript(cfg, start, c + 1), GroupPass(cfg, start, Done);
    GroupBatch(cfg, c, 0, start, Done, Fresh(start));
    var (w1, end) := Step(cfg, log, Fresh(start), script[0]);
    assert end.Completed? && w1 == TakeBatch(cfg, log, Fresh(start), p).0;
    GroupsAt(b, c, 0, b - 1);
    RefusedGroups(cfg, c, 1, start, script[1..], w1, 0);
    GroupBatch(cfg, c, c + 1, start, Done, Run(cfg, log, Fresh(start), script));
  }

  /** Takes n readings; a flush by size is refused, and none is due by time. */
  function RefusedFlush(cfg: Config, start: real, n: nat): Pass {
    Pass(Done, n, [], start + cfg.flushInterval - 1.0, Failed(false), Done, start)
  }

  lemma {:induction false} RefusedFlushes(cfg: Config, log: seq<Body>, start: real, script: seq<Pass>, w: World,
                                          cuts: nat)
    requires cfg.batchSize > 0 && w.delivered + |script| * cfg.batchSize <= |log|
    requires forall i :: 0 <= i < |log| ==> log[i].Parsed?
    requires forall i :: 0 <= i < |script| ==> script[i] == RefusedFlush(cfg, start, cfg.batchSize)
    ensures |Run(cfg, log, w, script).buffer| == |w.buffer| + |script| * cfg.batchSize
    ensures CutsSince(cfg, log, w, script, cuts) == cuts + |script|
    decreases |script|
  {
    if script != [] {
      assert |script| * cfg.batchSize == |script[1..]| * cfg.batchSize + cfg.batchSize;
      AbsorbReadings(log, w.(delivered := w.delivered + cfg.batchSize), w.delivered, w.delivered + cfg.batchSize, []);
      assert Step(cfg, log, w, script[0]).1 == Cut(false);
      RefusedFlushes(cfg, log, start, script[1..], Step(cfg, log, w, script[0]).0, cuts + 1);
    }
  }

  /** The bound for all runs is attained too, by c refused flushes. */
  lemma BoundAttained(cfg: Config, start: real, c: nat) returns (log: seq<Body>, script: seq<Pass>)
    requires cfg.batchSize > 0
    ensures CutsSince(cfg, log, Fresh(start), script, 0) == c
    ensures |Run(cfg, log, Fresh(start), script).buffer| == cfg.batchSize - 1 + c * cfg.batchSize
  {
    var b := cfg.batchSize;
    log := seq(b - 1 + c * b, i => Parsed(BLANK));
    var first, rest := RefusedFlush(cfg, start, b - 1), seq(c, i => RefusedFlush(cfg, start, b));
    script := [first] + rest;
    AbsorbReadings(log, Fresh(start).(delivered := b - 1), 0, b - 1, []);
    var (w1, end) := Step(cfg, log, Fresh(start), first);
    assert end.Completed? && w1 == TakeBatch(cfg, log, Fresh(start), first).0;
    assert script[1..] == rest;
    RefusedFlushes(cfg, log, start, rest, w1, 0);
  }

  /** In every run without a failed flush and with c cut batches, the rows held stay within 2 * batch_size - 1. */
  ghost predicate TwoBatchBound(cfg: Config, c: nat) {
    forall log, start, script, p ::
      NoFailedFlush(cfg, log, Fresh(start), script) && BadAcksSince(cfg, log, Fresh(start), script, 0) == c ==>
        |TakeBatch(cfg, log, Run(cfg, log, Fresh(start), script), p).0.buffer| <= 2 * cfg.batchSize - 1
  }

  lemma {:induction false} InsideExceeds(b: nat, c: nat)
    requires b > 0
    ensures Inside(b, c) <= 2 * b - 1 <==> c == 0 || b == 1
    ensures Inside(b, c) >= 2 * b - 1
  {
    AtHeadStep(b, if c > 0 then c - 1 else 0);
    if c > 0 { InsideExceeds(b, c - 1); }
  }

  /** The two-batch bound holds exactly while no batch was cut short, or if batches are single entries. */
  lemma TwoBatchBoundIff(cfg: Config, c: nat)
    requires cfg.batchSize > 0
    ensures TwoBatchBound(cfg, c) <==> c == 0 || cfg.batchSize == 1
  {
    InsideExceeds(cfg.batchSize, c);
    if c == 0 || cfg.batchSize == 1 {
      forall log, start, script, p |
        NoFailedFlush(cfg, log, Fresh(start), script) && BadAcksSince(cfg, log, Fresh(start), script, 0) == c
        ensures |TakeBatch(cfg, log, Run(cfg, log, Fresh(start), script), p).0.buffer| <= 2 * cfg.batchSize - 1
      {
        TightBound(cfg, log, start, script, p);
      }
    } else {
      var log, script, p := TightAttained(cfg, 0.0, c);
    }
  }
}

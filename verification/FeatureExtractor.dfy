/**
 * Feature extraction: per-device sliding windows, standardised values and deviations from the
 * window's median. Floats are reals.
 */
module FeatureExtraction {
  import opened Common

  datatype Device = Device(id: string)

  /** The three device types with known fields, or any other type name. */
  datatype Kind = Temperature | Pressure | Vibration | Other(name: string)

  /** A payload value and what `float()` makes of it. */
  datatype Value = Num(x: real) | Flag(b: bool) | Str(parsed: Option<real>) | Junk

  /** Payload keys: the ones the extractor knows by name, or any other. */
  datatype Key = TemperatureCelsius | HumidityPercent | PressureHpa | FlowRateLpm | RmsVelocityMmS | PeakFrequencyHz
               | Anomaly | AnomalyType | Unit | OtherKey(name: string)

  datatype Field = Field(name: Key, value: Value)

  datatype Reading = Reading(device: Device, kind: Kind, payload: seq<Field>)

  datatype Scale = Scale(mean: real, std: real)

  type Stats = map<Kind, map<Key, Scale>>

  datatype Pair = Pair(a: real, b: real)

  type Window = seq<Pair>
  type Windows = map<Device, Window>
  type Row = seq<real>

  const MIN_HISTORY: nat := 5
  const CLIP := 1000.0

  function ToFloat(v: Value): Option<real> {
    match v
    case Num(x) => Some(x)
    case Flag(b) => Some(if b then 1.0 else 0.0)
    case Str(parsed) => parsed
    case Junk => None
  }

  function SensorFields(k: Kind): seq<Key> {
    match k
    case Temperature => [TemperatureCelsius, HumidityPercent]
    case Pressure => [PressureHpa, FlowRateLpm]
    case Vibration => [RmsVelocityMmS, PeakFrequencyHz]
    case Other(_) => []
  }

  function Lookup(payload: seq<Field>, name: Key): Option<Value> {
    if payload == [] then None
    else if payload[0].name == name then Some(payload[0].value)
    else Lookup(payload[1..], name)
  }

  predicate Skipped(name: Key) { name.Anomaly? || name.AnomalyType? || name.Unit? }

  /** The plain numbers of a payload, in order. */
  function Numbers(payload: seq<Field>): seq<real> {
    if payload == [] then []
    else
      var init, last := Numbers(payload[..|payload| - 1]), payload[|payload| - 1];
      if last.value.Num? && !Skipped(last.name) then init + [last.value.x] else init
  }

  /** `_values`: the two declared fields if both are present, else the first two numbers; None if `float()` raises. */
  function Values(r: Reading): Option<Pair> {
    var fs := SensorFields(r.kind);
    if |fs| == 2 && Lookup(r.payload, fs[0]).Some? && Lookup(r.payload, fs[1]).Some? then
      var a, b := ToFloat(Lookup(r.payload, fs[0]).value), ToFloat(Lookup(r.payload, fs[1]).value);
      if a.Some? && b.Some? then Some(Pair(a.value, b.value)) else None
    else
      var xs := Numbers(r.payload);
      Some(Pair(if |xs| > 0 then xs[0] else 0.0, if |xs| > 1 then xs[1] else 0.0))
  }

  /** `_scale`: the learned scale with a floor on the deviation, identity if none; None if the field is missing. */
  function ScaleFor(stats: Stats, k: Kind, i: nat): (s: Option<Scale>)
    requires i < 2
    ensures s.Some? ==> s.value.std > 0.0
  {
    var fs := SensorFields(k);
    if |fs| != 2 || k !in stats || stats[k] == map[] then Some(Scale(0.0, 1.0))
    else if fs[i] !in stats[k] then None
    else
      var s := stats[k][fs[i]];
      Some(Scale(s.mean, if s.std >= 0.000001 then s.std else 0.000001))
  }

  // -------------------------------------------------------------------- median

  function Insert(x: real, s: seq<real>): seq<real> {
    if s == [] || x <= s[0] then [x] + s else [s[0]] + Insert(x, s[1..])
  }

  function Sort(s: seq<real>): (r: seq<real>)
    ensures |r| == |s|
  {
    if s == [] then [] else InsertLength(s[0], Sort(s[1..])); Insert(s[0], Sort(s[1..]))
  }

  lemma {:induction false} InsertLength(x: real, s: seq<real>)
    ensures |Insert(x, s)| == |s| + 1
  {
    if s != [] && x > s[0] { InsertLength(x, s[1..]); }
  }

  function Median(s: seq<real>): real
    requires s != []
  {
    var r, n := Sort(s), |s|;
    if n % 2 == 1 then r[n / 2] else (r[n / 2 - 1] + r[n / 2]) / 2.0
  }

  function Firsts(w: Window): seq<real> { seq(|w|, i requires 0 <= i < |w| => w[i].a) }

  function Seconds(w: Window): seq<real> { seq(|w|, i requires 0 <= i < |w| => w[i].b) }

  // ------------------------------------------------------------------ extraction

  function Clip(x: real): real { if x > CLIP then CLIP else if x < -CLIP then -CLIP else x }

  function Deviation(x: real, history: seq<real>, std: real): real
    requires std > 0.0
  {
    if |history| >= MIN_HISTORY then (x - Median(history)) / std else 0.0
  }

  function Standardised(r: Reading, x: real, s: Scale): real
    requires s.std > 0.0
  {
    if r.kind.Other? then 0.0 else (x - s.mean) / s.std
  }

  function OneHot(k: Kind): seq<real> {
    [if k.Temperature? then 1.0 else 0.0, if k.Pressure? then 1.0 else 0.0, if k.Vibration? then 1.0 else 0.0]
  }

  function ClipAll(xs: seq<real>): seq<real> { seq(|xs|, i requires 0 <= i < |xs| => Clip(xs[i])) }

  /** The feature row of a reading given its device's window, or None if extraction raises. */
  function Features(stats: Stats, r: Reading, w: Window): Option<Row> {
    var v, sa, sb := Values(r), ScaleFor(stats, r.kind, 0), ScaleFor(stats, r.kind, 1);
    if v.None? || sa.None? || sb.None? then None
    else
      Some(ClipAll([Standardised(r, v.value.a, sa.value), Standardised(r, v.value.b, sb.value),
                    Deviation(v.value.a, Firsts(w), sa.value.std), Deviation(v.value.b, Seconds(w), sb.value.std)]
                   + OneHot(r.kind)))
  }

  function Pushed(w: Window, p: Pair, size: nat): Window {
    var w' := w + [p];
    if |w'| <= size then w' else w'[|w'| - size..]
  }

  function WindowOf(ws: Windows, d: Device): Window { if d in ws then ws[d] else [] }

  /** `extract_row`: a failing extraction leaves every window as it was. */
  function Extract(stats: Stats, size: nat, ws: Windows, r: Reading): (Windows, Option<Row>) {
    var row := Features(stats, r, WindowOf(ws, r.device));
    if row.None? then (ws, None)
    else (ws[r.device := Pushed(WindowOf(ws, r.device), Values(r).value, size)], row)
  }

  class FeatureExtractor {
    const size: nat
    const stats: Stats
    var windows: Windows

    constructor (size: nat, stats: Stats)
      ensures this.size == size && this.stats == stats && windows == map[]
    {
      this.size, this.stats, windows := size, stats, map[];
    }

    method ExtractRow(r: Reading) returns (row: Option<Row>)
      modifies this
      ensures (windows, row) == Extract(stats, size, old(windows), r)
    {
      var v := Values(r);
      if v.None? { return None; }
      var sa, sb := ScaleFor(stats, r.kind, 0), ScaleFor(stats, r.kind, 1);
      if sa.None? || sb.None? { return None; }
      var a, b := v.value.a, v.value.b;
      var window := if r.device in windows then windows[r.device] else [];
      var devA, devB := 0.0, 0.0;
      if |window| >= MIN_HISTORY {
        devA := (a - Median(Firsts(window))) / sa.value.std;
        devB := (b - Median(Seconds(window))) / sb.value.std;
      }
      assert devA == Deviation(a, Firsts(window), sa.value.std) && devB == Deviation(b, Seconds(window), sb.value.std);
      windows := windows[r.device := Pushed(window, Pair(a, b), size)];
      var zA, zB := 0.0, 0.0;
      if !r.kind.Other? {
        zA, zB := (a - sa.value.mean) / sa.value.std, (b - sb.value.mean) / sb.value.std;
      }
      assert zA == Standardised(r, a, sa.value) && zB == Standardised(r, b, sb.value);
      row := Some(ClipAll([zA, zB, devA, devB] + OneHot(r.kind)));
    }
  }

  lemma {:induction false} NumbersSplit(p: seq<Field>, q: seq<Field>)
    ensures Numbers(p + q) == Numbers(p) + Numbers(q)
  {
    if q == [] {
      assert p + q == p;
    } else {
      var n := |q| - 1;
      NumbersSplit(p, q[..n]);
      assert (p + q)[..|p + q| - 1] == p + q[..n];
    }
  }

  /** Both fields of a known type are present. */
  predicate Declared(r: Reading) {
    var fs := SensorFields(r.kind);
    |fs| == 2 && Lookup(r.payload, fs[0]).Some? && Lookup(r.payload, fs[1]).Some?
  }

  /** A number, and not under one of the keys `anomaly`, `anomaly_type` and `unit`. */
  predicate PlainNumber(f: Field) { f.value.Num? && f.name != Anomaly && f.name != AnomalyType && f.name != Unit }

  ghost predicate NoneIn(payload: seq<Field>, from: nat, to: nat)
    requires from <= to <= |payload|
  {
    forall k :: from <= k < to ==> !PlainNumber(payload[k])
  }

  /** Position i holds the first plain number from position `from` on. */
  ghost predicate FirstFrom(payload: seq<Field>, from: nat, i: nat)
    requires from <= |payload|
  {
    from <= i < |payload| && PlainNumber(payload[i]) && NoneIn(payload, from, i)
  }

  lemma {:induction false} NoNumbers(payload: seq<Field>)
    requires NoneIn(payload, 0, |payload|)
    ensures Numbers(payload) == []
  {
    if payload != [] {
      var n := |payload| - 1;
      assert !PlainNumber(payload[n]) && forall k :: 0 <= k < n ==> payload[..n][k] == payload[k];
      NoNumbers(payload[..n]);
    }
  }

  /** The numbers from a position on: none, or the first one and those after it. */
  lemma NumbersFrom(payload: seq<Field>, from: nat, i: nat)
    requires from <= |payload|
    ensures NoneIn(payload, from, |payload|) ==> Numbers(payload[from..]) == []
    ensures FirstFrom(payload, from, i) ==> Numbers(payload[from..]) == [payload[i].value.x] + Numbers(payload[i + 1..])
  {
    if NoneIn(payload, from, |payload|) {
      NoNumbers(payload[from..]);
    } else if FirstFrom(payload, from, i) {
      NoNumbers(payload[from..i]);
      assert payload[from..] == payload[from..i] + ([payload[i]] + payload[i + 1..]);
      NumbersSplit(payload[from..i], [payload[i]] + payload[i + 1..]);
      NumbersSplit([payload[i]], payload[i + 1..]);
      assert Numbers([payload[i]]) == [payload[i].value.x];
    }
  }

  /**
   * A reading of an unknown type, or one that lacks a field of its type, never fails: it gives its first plain
   * number and the next one after it, whatever stands before and between, and zero for a number it lacks.
   */
  lemma FallbackTakesFirstTwo(r: Reading, i: nat, j: nat)
    requires !Declared(r)
    ensures Values(r).Some?
    ensures NoneIn(r.payload, 0, |r.payload|) ==> Values(r).value == Pair(0.0, 0.0)
    ensures FirstFrom(r.payload, 0, i) && NoneIn(r.payload, i + 1, |r.payload|) ==>
      Values(r).value == Pair(r.payload[i].value.x, 0.0)
    ensures FirstFrom(r.payload, 0, i) && FirstFrom(r.payload, i + 1, j) ==>
      Values(r).value == Pair(r.payload[i].value.x, r.payload[j].value.x)
  {
    assert r.payload[0..] == r.payload;
    NumbersFrom(r.payload, 0, i);
    if i < |r.payload| { NumbersFrom(r.payload, i + 1, j); }
  }

  /** Position i holds the first field of that name. */
  ghost predicate FirstNamed(payload: seq<Field>, name: Key, i: nat) {
    i < |payload| && payload[i].name == name && forall j :: 0 <= j < i ==> payload[j].name != name
  }

  lemma {:induction false} LookupFirst(payload: seq<Field>, name: Key, i: nat)
    requires FirstNamed(payload, name, i)
    ensures Lookup(payload, name) == Some(payload[i].value)
  {
    if i > 0 {
      assert payload[0].name != name && FirstNamed(payload[1..], name, i - 1);
      LookupFirst(payload[1..], name, i - 1);
    }
  }

  /** `float(v)` is x. */
  predicate ReadsAs(v: Value, x: real) {
    match v
    case Num(y) => x == y
    case Flag(b) => x == if b then 1.0 else 0.0
    case Str(parsed) => parsed == Some(x)
    case Junk => false
  }

  /** The two fields that a reading of a known type is about. */
  ghost predicate FieldsOf(kind: Kind, first: Key, second: Key) {
    || (kind == Temperature && first == TemperatureCelsius && second == HumidityPercent)
    || (kind == Pressure && first == PressureHpa && second == FlowRateLpm)
    || (kind == Vibration && first == RmsVelocityMmS && second == PeakFrequencyHz)
  }

  /** The mean and deviation learned for a field of a type: 0 and 1 without any, else a deviation of at least 1e-6. */
  ghost predicate Learned(stats: Stats, kind: Kind, name: Key, mean: real, std: real) {
    if kind in stats && stats[kind] != map[] then
      && name in stats[kind] && mean == stats[kind][name].mean
      && std == if stats[kind][name].std < 0.000001 then 0.000001 else stats[kind][name].std
    else
      mean == 0.0 && std == 1.0
  }

  /** `f` is (x - centre) / std, cut off at -1000 and 1000. */
  ghost predicate Scaled(f: real, x: real, centre: real, std: real) {
    if x - centre > 1000.0 * std then f == 1000.0
    else if x - centre < -1000.0 * std then f == -1000.0
    else f * std == x - centre
  }

  lemma ClipScaled(x: real, centre: real, std: real)
    requires std > 0.0
    ensures Scaled(Clip((x - centre) / std), x, centre, std)
  {
    var d, q := x - centre, (x - centre) / std;
    assert q * std == d;
    assert q > 1000.0 <==> q * std > 1000.0 * std;
    assert q < -1000.0 <==> q * std < -1000.0 * std;
  }

  lemma DeclaredValues(r: Reading, first: Key, second: Key, i: nat, j: nat, x: real, y: real)
    requires FieldsOf(r.kind, first, second)
    requires FirstNamed(r.payload, first, i) && FirstNamed(r.payload, second, j)
    requires ReadsAs(r.payload[i].value, x) && ReadsAs(r.payload[j].value, y)
    ensures Values(r) == Some(Pair(x, y))
  {
    LookupFirst(r.payload, first, i);
    LookupFirst(r.payload, second, j);
  }

  lemma LearnedScale(stats: Stats, kind: Kind, first: Key, second: Key, ma: real, sa: real, mb: real, sb: real)
    requires FieldsOf(kind, first, second)
    requires Learned(stats, kind, first, ma, sa) && Learned(stats, kind, second, mb, sb)
    ensures ScaleFor(stats, kind, 0) == Some(Scale(ma, sa)) && ScaleFor(stats, kind, 1) == Some(Scale(mb, sb))
    ensures sa > 0.0 && sb > 0.0
  {
  }

  /** The row of a known type, from its two values and the statistics, whichever fields the values came from. */
  lemma KnownRow(stats: Stats, r: Reading, w: Window, first: Key, second: Key, ma: real, sa: real, mb: real, sb: real)
    requires FieldsOf(r.kind, first, second) && Values(r).Some?
    requires Learned(stats, r.kind, first, ma, sa) && Learned(stats, r.kind, second, mb, sb)
    ensures Features(stats, r, w).Some?
    ensures var row, v := Features(stats, r, w).value, Values(r).value;
      && |row| == 7 && Scaled(row[0], v.a, ma, sa) && Scaled(row[1], v.b, mb, sb)
      && (if |w| >= 5 then Scaled(row[2], v.a, Median(Firsts(w)), sa) && Scaled(row[3], v.b, Median(Seconds(w)), sb)
          else row[2] == 0.0 && row[3] == 0.0)
  {
    var v := Values(r).value;
    LearnedScale(stats, r.kind, first, second, ma, sa, mb, sb);
    ClipScaled(v.a, ma, sa);
    ClipScaled(v.b, mb, sb);
    if |w| >= 5 {
      ClipScaled(v.a, Median(Firsts(w)), sa);
      ClipScaled(v.b, Median(Seconds(w)), sb);
    }
  }

  /**
   * The row of a known type, from payload and statistics: each declared field, in its declared place, standardised with
   * its own mean and deviation, then its distance from the window's median in units of that deviation.
   */
  lemma RowExactly(stats: Stats, r: Reading, w: Window, first: Key, second: Key, i: nat, j: nat, x: real, y: real,
                   ma: real, sa: real, mb: real, sb: real)
    requires FieldsOf(r.kind, first, second)
    requires FirstNamed(r.payload, first, i) && FirstNamed(r.payload, second, j)
    requires ReadsAs(r.payload[i].value, x) && ReadsAs(r.payload[j].value, y)
    requires Learned(stats, r.kind, first, ma, sa) && Learned(stats, r.kind, second, mb, sb)
    ensures Features(stats, r, w).Some?
    ensures var row := Features(stats, r, w).value;
      && |row| == 7 && Scaled(row[0], x, ma, sa) && Scaled(row[1], y, mb, sb)
      && (if |w| >= 5 then Scaled(row[2], x, Median(Firsts(w)), sa) && Scaled(row[3], y, Median(Seconds(w)), sb)
          else row[2] == 0.0 && row[3] == 0.0)
  {
    DeclaredValues(r, first, second, i, j, x, y);
    KnownRow(stats, r, w, first, second, ma, sa, mb, sb);
  }

  /** The row of an unknown type: no standardised values, and plain distances from the medians. */
  lemma UnknownRow(stats: Stats, r: Reading, w: Window)
    requires r.kind.Other?
    ensures Features(stats, r, w).Some?
    ensures var row, v := Features(stats, r, w).value, Values(r).value;
      && |row| == 7 && row[0] == 0.0 && row[1] == 0.0
      && (if |w| >= 5 then Scaled(row[2], v.a, Median(Firsts(w)), 1.0) && Scaled(row[3], v.b, Median(Seconds(w)), 1.0)
          else row[2] == 0.0 && row[3] == 0.0)
  {
    var v := Values(r).value;
    if |w| >= 5 {
      ClipScaled(v.a, Median(Firsts(w)), 1.0);
      ClipScaled(v.b, Median(Seconds(w)), 1.0);
    }
  }

  ghost predicate NoNumber(v: Value) { forall x :: !ReadsAs(v, x) }

  /** Both declared fields are there, and one of them is no number. */
  ghost predicate Unreadable(r: Reading, first: Key, second: Key) {
    exists i: nat, j: nat :: FirstNamed(r.payload, first, i) && FirstNamed(r.payload, second, j)
      && (NoNumber(r.payload[i].value) || NoNumber(r.payload[j].value))
  }

  /** Statistics were learned for the type, but not for both of its fields. */
  ghost predicate Unlearned(stats: Stats, kind: Kind, first: Key, second: Key) {
    kind in stats && stats[kind] != map[] && (first !in stats[kind] || second !in stats[kind])
  }

  lemma {:induction false} FindFirst(payload: seq<Field>, name: Key) returns (i: nat)
    ensures if i < |payload| then FirstNamed(payload, name, i) else Lookup(payload, name).None?
  {
    i := 0;
    if payload != [] && payload[0].name != name {
      var k := FindFirst(payload[1..], name);
      i := k + 1;
    }
  }

  lemma NumberOrNot(v: Value)
    ensures ToFloat(v).None? <==> NoNumber(v)
  {
    if ToFloat(v).Some? { assert ReadsAs(v, ToFloat(v).value); }
  }

  /** A reading of a known type fails exactly if a declared field is no number, or a field of it was not learned. */
  lemma FailsExactly(stats: Stats, r: Reading, w: Window, first: Key, second: Key)
    requires FieldsOf(r.kind, first, second)
    ensures Features(stats, r, w).None? <==> Unreadable(r, first, second) || Unlearned(stats, r.kind, first, second)
  {
    ValuesFail(r, first, second);
  }

  lemma ValuesFailAt(r: Reading, first: Key, second: Key, i: nat, j: nat)
    requires FieldsOf(r.kind, first, second)
    requires FirstNamed(r.payload, first, i) && FirstNamed(r.payload, second, j)
    ensures Values(r).None? <==> NoNumber(r.payload[i].value) || NoNumber(r.payload[j].value)
  {
    LookupFirst(r.payload, first, i);
    LookupFirst(r.payload, second, j);
    NumberOrNot(r.payload[i].value);
    NumberOrNot(r.payload[j].value);
  }

  lemma ValuesFail(r: Reading, first: Key, second: Key)
    requires FieldsOf(r.kind, first, second)
    ensures Values(r).None? <==> Unreadable(r, first, second)
  {
    var i := FindFirst(r.payload, first);
    var j := FindFirst(r.payload, second);
    if i < |r.payload| && j < |r.payload| { ValuesFailAt(r, first, second, i, j); }
    if Unreadable(r, first, second) {
      var k: nat, l: nat :| FirstNamed(r.payload, first, k) && FirstNamed(r.payload, second, l)
        && (NoNumber(r.payload[k].value) || NoNumber(r.payload[l].value));
      ValuesFailAt(r, first, second, k, l);
    }
  }

  /** Every row has seven features in [-1000, 1000], marks its device type and can be de-standardised. */
  lemma RowMeaning(stats: Stats, r: Reading, w: Window)
    requires Features(stats, r, w).Some?
    ensures var row, v := Features(stats, r, w).value, Values(r).value;
      var sa, sb := ScaleFor(stats, r.kind, 0).value, ScaleFor(stats, r.kind, 1).value;
      && |row| == 7 && (forall i :: 0 <= i < 7 ==> -CLIP <= row[i] <= CLIP)
      && row[4] + row[5] + row[6] == (if r.kind.Other? then 0.0 else 1.0)
      && (row[4] == 1.0 <==> r.kind.Temperature?) && (row[5] == 1.0 <==> r.kind.Pressure?)
      && (row[6] == 1.0 <==> r.kind.Vibration?)
      && (!r.kind.Other? && -CLIP < row[0] < CLIP ==> row[0] * sa.std + sa.mean == v.a)
      && (!r.kind.Other? && -CLIP < row[1] < CLIP ==> row[1] * sb.std + sb.mean == v.b)
      && (|w| < MIN_HISTORY ==> row[2] == 0.0 && row[3] == 0.0)
  {
    var v := Values(r).value;
    var sa, sb := ScaleFor(stats, r.kind, 0).value, ScaleFor(stats, r.kind, 1).value;
    MultiplyBack(v.a - sa.mean, sa.std);
    MultiplyBack(v.b - sb.mean, sb.std);
  }

  lemma MultiplyBack(x: real, d: real)
    requires d > 0.0
    ensures x / d * d == x
  {
  }

  // ------------------------------------------------------------- window isolation

  ghost function WindowsAfter(stats: Stats, size: nat, rs: seq<Reading>): Windows {
    if rs == [] then map[] else Extract(stats, size, WindowsAfter(stats, size, rs[..|rs| - 1]), rs[|rs| - 1]).0
  }

  lemma WindowsStep(stats: Stats, size: nat, rs: seq<Reading>, r: Reading)
    ensures WindowsAfter(stats, size, rs + [r]) == Extract(stats, size, WindowsAfter(stats, size, rs), r).0
  {
    assert (rs + [r])[..|rs|] == rs;
  }

  /** What each reading of a stream yields. */
  ghost function RowsOf(stats: Stats, size: nat, rs: seq<Reading>): (rows: seq<Option<Row>>)
    ensures |rows| == |rs|
  {
    if rs == [] then []
    else
      var init := rs[..|rs| - 1];
      RowsOf(stats, size, init) + [Extract(stats, size, WindowsAfter(stats, size, init), rs[|rs| - 1]).1]
  }

  /** The readings of one device. */
  ghost function Only(rs: seq<Reading>, d: Device): seq<Reading> {
    if rs == [] then []
    else
      var init, last := Only(rs[..|rs| - 1], d), rs[|rs| - 1];
      if last.device == d then init + [last] else init
  }

  /** Of the results of a stream, those of one device. */
  ghost function OnlyRows(rows: seq<Option<Row>>, rs: seq<Reading>, d: Device): seq<Option<Row>>
    requires |rows| == |rs|
  {
    if rs == [] then []
    else
      var n := |rs| - 1;
      var init := OnlyRows(rows[..n], rs[..n], d);
      if rs[n].device == d then init + [rows[n]] else init
  }

  /** The values of the readings whose extraction succeeded. */
  ghost function Accepted(stats: Stats, rs: seq<Reading>): seq<Pair> {
    if rs == [] then []
    else
      var init, last := Accepted(stats, rs[..|rs| - 1]), rs[|rs| - 1];
      if Features(stats, last, []).Some? then init + [Values(last).value] else init
  }

  function LastOnes(ps: seq<Pair>, size: nat): seq<Pair> { if |ps| <= size then ps else ps[|ps| - size..] }

  /** One extraction reads and writes only the window of its own device. */
  lemma ExtractLocal(stats: Stats, size: nat, ws: Windows, vs: Windows, r: Reading, d: Device)
    requires WindowOf(ws, d) == WindowOf(vs, d)
    ensures r.device == d ==> Extract(stats, size, ws, r).1 == Extract(stats, size, vs, r).1
    ensures r.device == d ==> WindowOf(Extract(stats, size, ws, r).0, d) == WindowOf(Extract(stats, size, vs, r).0, d)
    ensures r.device != d ==> WindowOf(Extract(stats, size, ws, r).0, d) == WindowOf(ws, d)
  {
  }

  lemma {:induction false} WindowsIsolated(stats: Stats, size: nat, rs: seq<Reading>, d: Device)
    ensures WindowOf(WindowsAfter(stats, size, rs), d) == WindowOf(WindowsAfter(stats, size, Only(rs, d)), d)
  {
    if rs != [] {
      var init, last := rs[..|rs| - 1], rs[|rs| - 1];
      WindowsIsolated(stats, size, init, d);
      ExtractLocal(stats, size, WindowsAfter(stats, size, init), WindowsAfter(stats, size, Only(init, d)), last, d);
      if last.device == d {
        assert Only(rs, d)[..|Only(rs, d)| - 1] == Only(init, d);
      }
    }
  }

  /** On any interleaving, a device's results are those of a fresh extractor fed its own readings alone. */
  lemma {:induction false} RowsIsolated(stats: Stats, size: nat, rs: seq<Reading>, d: Device)
    ensures OnlyRows(RowsOf(stats, size, rs), rs, d) == RowsOf(stats, size, Only(rs, d))
  {
    if rs != [] {
      var n := |rs| - 1;
      var init := rs[..n];
      RowsIsolated(stats, size, init, d);
      assert RowsOf(stats, size, rs)[..n] == RowsOf(stats, size, init);
      if rs[n].device == d {
        WindowsIsolated(stats, size, init, d);
        ExtractLocal(stats, size, WindowsAfter(stats, size, init), WindowsAfter(stats, size, Only(init, d)), rs[n], d);
        assert Only(rs, d)[..|Only(rs, d)| - 1] == Only(init, d);
      }
    }
  }

  /** A device's window is its last `size` accepted readings. */
  lemma {:induction false} WindowIsRecent(stats: Stats, size: nat, rs: seq<Reading>, d: Device)
    ensures WindowOf(WindowsAfter(stats, size, rs), d) == LastOnes(Accepted(stats, Only(rs, d)), size)
  {
    if rs != [] {
      var init, last := rs[..|rs| - 1], rs[|rs| - 1];
      WindowIsRecent(stats, size, init, d);
      if last.device == d {
        assert Only(rs, d)[..|Only(rs, d)| - 1] == Only(init, d);
        var w := WindowOf(WindowsAfter(stats, size, init), d);
        assert Features(stats, last, w).Some? <==> Features(stats, last, []).Some?;
        if Features(stats, last, w).Some? {
          PushIsRecent(Accepted(stats, Only(init, d)), Values(last).value, size);
        }
      }
    }
  }

  lemma PushIsRecent(ps: seq<Pair>, p: Pair, size: nat)
    ensures Pushed(LastOnes(ps, size), p, size) == LastOnes(ps + [p], size)
  {
  }

  // ------------------------------------------------------------ median robustness

  function Outside(s: seq<real>, lo: real, hi: real): nat {
    if s == [] then 0 else (if lo <= s[0] <= hi then 0 else 1) + Outside(s[1..], lo, hi)
  }

  ghost predicate Ascending(s: seq<real>) { forall i, j :: 0 <= i < j < |s| ==> s[i] <= s[j] }

  lemma {:induction false} InsertElements(x: real, s: seq<real>)
    ensures multiset(Insert(x, s)) == multiset(s) + multiset{x}
  {
    if s != [] && x > s[0] {
      InsertElements(x, s[1..]);
      assert s == [s[0]] + s[1..];
    }
  }

  lemma {:induction false} InsertAbove(x: real, s: seq<real>, low: real)
    requires low <= x && forall i :: 0 <= i < |s| ==> low <= s[i]
    ensures forall i :: 0 <= i < |Insert(x, s)| ==> low <= Insert(x, s)[i]
  {
    if s != [] && x > s[0] { InsertAbove(x, s[1..], low); }
  }

  lemma {:induction false} InsertAscending(x: real, s: seq<real>)
    requires Ascending(s)
    ensures Ascending(Insert(x, s))
  {
    if s != [] && x > s[0] {
      InsertAscending(x, s[1..]);
      InsertAbove(x, s[1..], s[0]);
    }
  }

  lemma {:induction false} InsertOutside(x: real, s: seq<real>, lo: real, hi: real)
    ensures Outside(Insert(x, s), lo, hi) == Outside([x], lo, hi) + Outside(s, lo, hi)
  {
    var r := Insert(x, s);
    if s == [] || x <= s[0] {
      assert r[0] == x && r[1..] == s;
    } else {
      InsertOutside(x, s[1..], lo, hi);
      assert r[0] == s[0] && r[1..] == Insert(x, s[1..]);
    }
  }

  lemma {:induction false} SortFacts(s: seq<real>, lo: real, hi: real)
    ensures Ascending(Sort(s)) && multiset(Sort(s)) == multiset(s) && Outside(Sort(s), lo, hi) == Outside(s, lo, hi)
  {
    if s != [] {
      SortFacts(s[1..], lo, hi);
      InsertElements(s[0], Sort(s[1..]));
      InsertAscending(s[0], Sort(s[1..]));
      InsertOutside(s[0], Sort(s[1..]), lo, hi);
      assert s == [s[0]] + s[1..];
    }
  }

  lemma {:induction false} OutsideSplit(s: seq<real>, k: nat, lo: real, hi: real)
    requires k <= |s|
    ensures Outside(s, lo, hi) == Outside(s[..k], lo, hi) + Outside(s[k..], lo, hi)
  {
    if k > 0 {
      OutsideSplit(s[1..], k - 1, lo, hi);
      assert s[..k][1..] == s[1..][..k - 1] && s[k..] == s[1..][k - 1..];
    } else {
      assert s[..0] == [] && s[0..] == s;
    }
  }

  lemma {:induction false} AllOutside(s: seq<real>, lo: real, hi: real)
    requires forall i :: 0 <= i < |s| ==> !(lo <= s[i] <= hi)
    ensures Outside(s, lo, hi) == |s|
  {
    if s != [] { AllOutside(s[1..], lo, hi); }
  }

  /** In an ascending list with fewer than half its values outside [lo, hi], both middle positions lie inside. */
  lemma MiddleInside(r: seq<real>, k: nat, lo: real, hi: real)
    requires Ascending(r) && k < |r| && |r| / 2 - 1 <= k <= |r| / 2 && (|r| % 2 == 1 ==> k == |r| / 2)
    requires 2 * Outside(r, lo, hi) < |r|
    ensures lo <= r[k] <= hi
  {
    if r[k] > hi { UpperPart(r, k, lo, hi); }
    if r[k] < lo { LowerPart(r, k, lo, hi); }
  }

  lemma UpperPart(r: seq<real>, k: nat, lo: real, hi: real)
    requires Ascending(r) && k < |r| && r[k] > hi
    ensures Outside(r, lo, hi) >= |r| - k
  {
    OutsideSplit(r, k, lo, hi);
    AllOutside(r[k..], lo, hi);
  }

  lemma LowerPart(r: seq<real>, k: nat, lo: real, hi: real)
    requires Ascending(r) && k < |r| && r[k] < lo
    ensures Outside(r, lo, hi) >= k + 1
  {
    OutsideSplit(r, k + 1, lo, hi);
    AllOutside(r[..k + 1], lo, hi);
  }

  // ------------------------------------------------------------ the median is the middle

  /** How many values lie below x, or (not strictly) at most at x. */
  function Lower(s: seq<real>, x: real, strictly: bool): nat {
    if s == [] then 0 else (if s[0] < x || (!strictly && s[0] == x) then 1 else 0) + Lower(s[1..], x, strictly)
  }

  /** x is the k-th smallest value, counting from 0: at most k values are below it, more than k are not above it. */
  ghost predicate IsRank(s: seq<real>, x: real, k: int) { Lower(s, x, true) <= k < Lower(s, x, false) }

  /** There is only one k-th smallest value. */
  lemma RankUnique(s: seq<real>, x: real, y: real, k: int)
    requires IsRank(s, x, k) && IsRank(s, y, k)
    ensures x == y
  {
    if x < y { LowerApart(s, x, y); }
    if y < x { LowerApart(s, y, x); }
  }

  lemma {:induction false} LowerApart(s: seq<real>, x: real, y: real)
    requires x < y
    ensures Lower(s, x, false) <= Lower(s, y, true)
  {
    if s != [] { LowerApart(s[1..], x, y); }
  }

  lemma {:induction false} InsertLower(v: real, s: seq<real>, x: real, strictly: bool)
    ensures Lower(Insert(v, s), x, strictly) == Lower([v], x, strictly) + Lower(s, x, strictly)
  {
    var r := Insert(v, s);
    if s == [] || v <= s[0] {
      assert r[0] == v && r[1..] == s;
    } else {
      InsertLower(v, s[1..], x, strictly);
      assert r[0] == s[0] && r[1..] == Insert(v, s[1..]);
    }
  }

  lemma {:induction false} SortLower(s: seq<real>, x: real, strictly: bool)
    ensures Lower(Sort(s), x, strictly) == Lower(s, x, strictly)
  {
    if s != [] {
      SortLower(s[1..], x, strictly);
      InsertLower(s[0], Sort(s[1..]), x, strictly);
    }
  }

  lemma {:induction false} LowerSplit(s: seq<real>, k: nat, x: real, strictly: bool)
    requires k <= |s|
    ensures Lower(s, x, strictly) == Lower(s[..k], x, strictly) + Lower(s[k..], x, strictly)
  {
    if k > 0 {
      LowerSplit(s[1..], k - 1, x, strictly);
      assert s[..k][1..] == s[1..][..k - 1] && s[k..] == s[1..][k - 1..];
    } else {
      assert s[..0] == [] && s[0..] == s;
    }
  }

  lemma {:induction false} LowerBounds(s: seq<real>, x: real, strictly: bool)
    ensures Lower(s, x, strictly) <= |s|
    ensures (forall i :: 0 <= i < |s| ==> s[i] <= x) ==> Lower(s, x, false) == |s|
    ensures (forall i :: 0 <= i < |s| ==> s[i] >= x) ==> Lower(s, x, true) == 0
  {
    if s != [] {
      LowerBounds(s[1..], x, strictly);
      assert forall i :: 0 <= i < |s[1..]| ==> s[1..][i] == s[i + 1];
    }
  }

  lemma AscendingRank(r: seq<real>, k: nat)
    requires k < |r| && Ascending(r)
    ensures IsRank(r, r[k], k)
  {
    LowerSplit(r, k, r[k], true);
    LowerSplit(r, k + 1, r[k], false);
    LowerBounds(r[..k], r[k], true);
    LowerBounds(r[k..], r[k], true);
    LowerBounds(r[..k + 1], r[k], false);
  }

  lemma SortedRank(s: seq<real>, k: nat)
    requires k < |s|
    ensures IsRank(s, Sort(s)[k], k)
  {
    SortFacts(s, 0.0, 0.0);
    AscendingRank(Sort(s), k);
    SortLower(s, Sort(s)[k], true);
    SortLower(s, Sort(s)[k], false);
  }

  /** The median lies halfway between the two middle values, which are the same one if the number of values is odd. */
  lemma MedianExactly(s: seq<real>) returns (a: real, b: real)
    requires s != []
    ensures IsRank(s, a, (|s| - 1) / 2) && IsRank(s, b, |s| / 2) && Median(s) == (a + b) / 2.0
  {
    var lo := if |s| % 2 == 1 then |s| / 2 else |s| / 2 - 1;
    assert lo == (|s| - 1) / 2;
    a, b := Sort(s)[lo], Sort(s)[|s| / 2];
    SortedRank(s, |s| / 2);
    SortedRank(s, lo);
  }

  /** Robustness: fewer than half the values outside an interval cannot move the median out of it. */
  lemma MedianRobust(s: seq<real>, lo: real, hi: real)
    requires s != [] && 2 * Outside(s, lo, hi) < |s|
    ensures lo <= Median(s) <= hi
  {
    SortFacts(s, lo, hi);
    MiddleInside(Sort(s), |s| / 2, lo, hi);
    if |s| % 2 == 0 { MiddleInside(Sort(s), |s| / 2 - 1, lo, hi); }
  }

  lemma OneDeviationRobust(x: real, history: seq<real>, std: real, lo: real, hi: real)
    requires std > 0.0 && |history| >= MIN_HISTORY && 2 * Outside(history, lo, hi) < |history|
    ensures Clip((x - hi) / std) <= Clip(Deviation(x, history, std)) <= Clip((x - lo) / std)
  {
    MedianRobust(history, lo, hi);
    var m := Median(history);
    DivideMonotone(x - hi, x - m, std);
    DivideMonotone(x - m, x - lo, std);
  }

  /** Spikes in a minority of the history move neither deviation feature beyond the spread of the honest readings. */
  lemma DeviationRobust(stats: Stats, r: Reading, w: Window, lo: Pair, hi: Pair)
    requires Features(stats, r, w).Some? && |w| >= MIN_HISTORY
    ensures var v, sa, sb := Values(r).value, ScaleFor(stats, r.kind, 0).value, ScaleFor(stats, r.kind, 1).value;
      var row := Features(stats, r, w).value;
      && (2 * Outside(Firsts(w), lo.a, hi.a) < |w| ==>
           Clip((v.a - hi.a) / sa.std) <= row[2] <= Clip((v.a - lo.a) / sa.std))
      && (2 * Outside(Seconds(w), lo.b, hi.b) < |w| ==>
           Clip((v.b - hi.b) / sb.std) <= row[3] <= Clip((v.b - lo.b) / sb.std))
  {
    var v, sa, sb := Values(r).value, ScaleFor(stats, r.kind, 0).value, ScaleFor(stats, r.kind, 1).value;
    if 2 * Outside(Firsts(w), lo.a, hi.a) < |w| { OneDeviationRobust(v.a, Firsts(w), sa.std, lo.a, hi.a); }
    if 2 * Outside(Seconds(w), lo.b, hi.b) < |w| { OneDeviationRobust(v.b, Seconds(w), sb.std, lo.b, hi.b); }
  }

  lemma DivideMonotone(x: real, y: real, d: real)
    requires d > 0.0 && x <= y
    ensures x / d <= y / d
  {
    var p, q := x / d, y / d;
    assert p * d == x && q * d == y;
    assert p > q ==> (p - q) * d > 0.0;
  }
}

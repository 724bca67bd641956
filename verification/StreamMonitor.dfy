/**
 * The active-device gauge of data ingestion: a map of last reports that is pruned whenever the
 * gauge is refreshed must agree with the full history of reports.
 */
module StreamMonitoring {
  import opened Common

  datatype Device = Device(id: string)

  datatype Kind = Kind(name: string)

  datatype Seen = Seen(kind: Kind, at: real)

  type LastSeen = map<Device, Seen>

  const ACTIVE_WINDOW := 60.0

  // ------------------------------------------------------------- specification

  ghost function Pruned(ls: LastSeen, cutoff: real): LastSeen {
    map d | d in ls && ls[d].at >= cutoff :: ls[d]
  }

  ghost function OfKind(ls: LastSeen, ds: set<Device>, kind: Kind): set<Device> {
    set d | d in ds && d in ls && ls[d].kind == kind
  }

  function Lookup(counts: map<Kind, nat>, kind: Kind): nat { if kind in counts then counts[kind] else 0 }

  ghost function Kinds(ls: LastSeen): set<Kind> { set d | d in ls :: ls[d].kind }

  /** What the monitor holds: pruned reports, types ever counted, and the exported gauge. */
  datatype State = State(lastSeen: LastSeen, known: set<Kind>, gauge: map<Kind, nat>)

  ghost function Recorded(s: State, d: Device, kind: Kind, now: real): State {
    s.(lastSeen := s.lastSeen[d := Seen(kind, now)])
  }

  ghost function Refreshed(s: State, now: real): State {
    var ls := Pruned(s.lastSeen, now - ACTIVE_WINDOW);
    var known := s.known + Kinds(ls);
    State(ls, known, s.gauge + map kind | kind in known :: |OfKind(ls, ls.Keys, kind)|)
  }

  // ------------------------------------------------------- the imperative monitor

  class StreamMonitor {
    var lastSeen: LastSeen
    var knownTypes: set<Kind>
    var gauge: map<Kind, nat>

    ghost function View(): State
      reads this
    {
      State(lastSeen, knownTypes, gauge)
    }

    constructor ()
      ensures View() == State(map[], {}, map[])
    {
      lastSeen, knownTypes, gauge := map[], {}, map[];
    }

    method RecordDevice(d: Device, kind: Kind, now: real)
      modifies this
      ensures View() == Recorded(old(View()), d, kind, now)
    {
      lastSeen := lastSeen[d := Seen(kind, now)];
    }

    /** Deletes every report older than the cutoff, one key at a time. */
    method Prune(cutoff: real)
      modifies this`lastSeen
      ensures lastSeen == Pruned(old(lastSeen), cutoff)
    {
      var stale := set d | d in lastSeen && lastSeen[d].at < cutoff;
      ghost var all := stale;
      while stale != {}
        invariant stale <= all
        invariant lastSeen == old(lastSeen) - (all - stale)
        decreases |stale|
      {
        var d :| d in stale;
        lastSeen := lastSeen - {d};
        stale := stale - {d};
      }
      assert all - stale == all;
      PruneRemoves(old(lastSeen), all, cutoff);
    }

    /** `Counter` over the device types of the remaining reports. */
    method CountTypes() returns (counts: map<Kind, nat>)
      ensures counts.Keys == Kinds(lastSeen)
      ensures forall kind :: Lookup(counts, kind) == |OfKind(lastSeen, lastSeen.Keys, kind)|
    {
      counts := map[];
      var todo, done: set<Device> := lastSeen.Keys, {};
      while todo != {}
        invariant todo + done == lastSeen.Keys && todo !! done
        invariant counts.Keys == set d | d in done :: lastSeen[d].kind
        invariant forall kind :: Lookup(counts, kind) == |OfKind(lastSeen, done, kind)|
        decreases |todo|
      {
        var d :| d in todo;
        var kind := lastSeen[d].kind;
        OneMore(lastSeen, done, d);
        counts := counts[kind := Lookup(counts, kind) + 1];
        todo, done := todo - {d}, done + {d};
      }
      assert done == lastSeen.Keys;
    }

    /** Exports the count of every known type, 0 for one that is not counted. */
    method SetGauges(counts: map<Kind, nat>)
      modifies this`gauge
      ensures gauge == Exported(old(gauge), knownTypes, counts)
    {
      var todo := knownTypes;
      assert knownTypes - todo == {} && Exported(gauge, {}, counts) == gauge;
      while todo != {}
        invariant todo <= knownTypes
        invariant gauge == Exported(old(gauge), knownTypes - todo, counts)
        decreases |todo|
      {
        var kind :| kind in todo;
        ExportOne(old(gauge), knownTypes - todo, kind, counts);
        assert knownTypes - todo + {kind} == knownTypes - (todo - {kind});
        gauge := gauge[kind := Lookup(counts, kind)];
        todo := todo - {kind};
      }
      assert knownTypes - todo == knownTypes;
    }

    method UpdateActiveDevices(now: real)
      modifies this
      ensures View() == Refreshed(old(View()), now)
    {
      Prune(now - ACTIVE_WINDOW);
      var counts := CountTypes();
      knownTypes := knownTypes + counts.Keys;
      SetGauges(counts);
      SameGauge(counts, lastSeen, knownTypes);
    }
  }

  lemma PruneRemoves(ls: LastSeen, stale: set<Device>, cutoff: real)
    requires stale == set d | d in ls && ls[d].at < cutoff
    ensures ls - stale == Pruned(ls, cutoff)
  {
  }

  lemma SameGauge(counts: map<Kind, nat>, ls: LastSeen, known: set<Kind>)
    requires forall kind :: Lookup(counts, kind) == |OfKind(ls, ls.Keys, kind)|
    ensures (map kind | kind in known :: Lookup(counts, kind))
      == map kind | kind in known :: |OfKind(ls, ls.Keys, kind)|
  {
  }

  ghost function Exported(gauge: map<Kind, nat>, kinds: set<Kind>, counts: map<Kind, nat>): map<Kind, nat> {
    gauge + map kind | kind in kinds :: Lookup(counts, kind)
  }

  lemma ExportOne(gauge: map<Kind, nat>, kinds: set<Kind>, kind: Kind, counts: map<Kind, nat>)
    ensures Exported(gauge, kinds, counts)[kind := Lookup(counts, kind)] == Exported(gauge, kinds + {kind}, counts)
  {
  }

  lemma OneMore(ls: LastSeen, done: set<Device>, d: Device)
    requires d in ls && d !in done
    ensures forall kind ::
      |OfKind(ls, done + {d}, kind)| == |OfKind(ls, done, kind)| + if ls[d].kind == kind then 1 else 0
  {
    forall kind ensures |OfKind(ls, done + {d}, kind)|
      == |OfKind(ls, done, kind)| + if ls[d].kind == kind then 1 else 0 {
      if ls[d].kind == kind {
        assert OfKind(ls, done + {d}, kind) == OfKind(ls, done, kind) + {d};
      } else {
        assert OfKind(ls, done + {d}, kind) == OfKind(ls, done, kind);
      }
    }
  }

  // --------------------------------------------------------------- full history

  datatype Event = Report(at: real, device: Device, kind: Kind) | Refresh(at: real)

  ghost predicate Monotone(tr: seq<Event>) { forall i, j :: 0 <= i < j < |tr| ==> tr[i].at <= tr[j].at }

  ghost function Run(tr: seq<Event>): State {
    if tr == [] then State(map[], {}, map[])
    else
      var s := Run(tr[..|tr| - 1]);
      match tr[|tr| - 1]
      case Report(at, d, kind) => Recorded(s, d, kind, at)
      case Refresh(at) => Refreshed(s, at)
  }

  /** The latest report of a device in the whole history. */
  ghost function Latest(tr: seq<Event>, d: Device): Option<Seen> {
    if tr == [] then None
    else
      var e := tr[|tr| - 1];
      if e.Report? && e.device == d then Some(Seen(e.kind, e.at)) else Latest(tr[..|tr| - 1], d)
  }

  ghost function Devices(tr: seq<Event>): set<Device> {
    set i | 0 <= i < |tr| && tr[i].Report? :: tr[i].device
  }

  /** Devices whose latest report carries the type and is at most 60 seconds old. */
  ghost function Active(tr: seq<Event>, kind: Kind, now: real): set<Device> {
    set d | d in Devices(tr) && Latest(tr, d).Some? && Latest(tr, d).value.kind == kind
      && Latest(tr, d).value.at >= now - 60.0
  }

  lemma {:induction false} LatestIsReported(tr: seq<Event>, d: Device)
    ensures Latest(tr, d).Some? ==> d in Devices(tr)
  {
    if tr != [] {
      var init, n := tr[..|tr| - 1], |tr| - 1;
      if tr[n].Report? && tr[n].device == d {
        assert d in Devices(tr);
      } else {
        LatestIsReported(init, d);
        if d in Devices(init) {
          var i :| 0 <= i < |init| && init[i].Report? && init[i].device == d;
          assert tr[i] == init[i];
        }
      }
    }
  }

  /** The map forgets only reports that are already too old to count, now and ever after. */
  lemma {:induction false} MapAgrees(tr: seq<Event>, d: Device, now: real)
    requires Monotone(tr) && (tr != [] ==> tr[|tr| - 1].at <= now)
    ensures d in Run(tr).lastSeen ==> Latest(tr, d) == Some(Run(tr).lastSeen[d])
    ensures d !in Run(tr).lastSeen && Latest(tr, d).Some? ==> Latest(tr, d).value.at < now - 60.0
  {
    if tr != [] { MapAgrees(tr[..|tr| - 1], d, tr[|tr| - 1].at); }
  }

  /** Refreshing prunes the map to exactly the active devices. */
  lemma RefreshKeepsActive(tr: seq<Event>, kind: Kind, now: real)
    requires Monotone(tr) && (tr != [] ==> tr[|tr| - 1].at <= now)
    ensures var ls := Pruned(Run(tr).lastSeen, now - ACTIVE_WINDOW); OfKind(ls, ls.Keys, kind) == Active(tr, kind, now)
  {
    var ls := Pruned(Run(tr).lastSeen, now - ACTIVE_WINDOW);
    forall d ensures d in OfKind(ls, ls.Keys, kind) <==> d in Active(tr, kind, now) {
      MapAgrees(tr, d, now);
      LatestIsReported(tr, d);
    }
  }

  lemma {:induction false} GaugeKeys(tr: seq<Event>)
    ensures Run(tr).gauge.Keys == Run(tr).known
  {
    if tr != [] { GaugeKeys(tr[..|tr| - 1]); }
  }

  /** After every refresh, in every run: the known types are exported, each with its number of active devices. */
  lemma GaugeAgrees(tr: seq<Event>, now: real)
    requires Monotone(tr + [Refresh(now)])
    ensures var s := Run(tr + [Refresh(now)]);
      s.gauge.Keys == s.known && forall kind :: kind in s.known ==> s.gauge[kind] == |Active(tr, kind, now)|
  {
    GaugeKeys(tr + [Refresh(now)]);
    var tr', s := tr + [Refresh(now)], Run(tr + [Refresh(now)]);
    assert tr'[..|tr|] == tr;
    assert forall i :: 0 <= i < |tr| ==> tr'[i] == tr[i];
    assert Monotone(tr) && (tr != [] ==> tr[|tr| - 1].at <= now) by { assert tr'[|tr|] == Refresh(now); }
    forall kind | kind in s.known ensures kind in s.gauge && s.gauge[kind] == |Active(tr, kind, now)| {
      RefreshKeepsActive(tr, kind, now);
    }
  }

  /** A type is known once some refresh found it active, and stays known; a known type that goes quiet reads 0. */
  lemma {:induction false} KnownIffOnceActive(tr: seq<Event>, kind: Kind)
    requires Monotone(tr)
    ensures kind in Run(tr).known <==> exists i ::
      0 <= i < |tr| && tr[i].Refresh? && Active(tr[..i], kind, tr[i].at) != {}
  {
    if tr != [] {
      var init, n := tr[..|tr| - 1], |tr| - 1;
      KnownIffOnceActive(init, kind);
      assert forall i :: 0 <= i < n ==> init[..i] == tr[..i] && init[i] == tr[i];
      if tr[n].Refresh? {
        RefreshKeepsActive(init, kind, tr[n].at);
        var ls := Pruned(Run(init).lastSeen, tr[n].at - ACTIVE_WINDOW);
        KindsNonEmpty(ls, kind);
      }
    }
  }

  lemma KindsNonEmpty(ls: LastSeen, kind: Kind)
    ensures kind in Kinds(ls) <==> OfKind(ls, ls.Keys, kind) != {}
  {
    if kind in Kinds(ls) {
      var d :| d in ls && ls[d].kind == kind;
      assert d in OfKind(ls, ls.Keys, kind);
    }
    if OfKind(ls, ls.Keys, kind) != {} {
      var d :| d in OfKind(ls, ls.Keys, kind);
    }
  }
}

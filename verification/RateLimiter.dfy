/**
 * The fixed-window rate limiter: INCR on a key per client and window, EXPIRE by whoever saw 1.
 * Requests of many workers interleave at these commands; every command may land later than the
 * clock reading it belongs to.
 */
module RateLimiting {

  datatype Role = Admin | User | DeviceRole | OtherRole

  /** Who is counted; a client keeps its role. */
  datatype Client = Client(id: string, role: Role)

  function Multiplier(role: Role): real {
    match role
    case Admin => 5.0
    case User => 1.0
    case DeviceRole => 2.0
    case OtherRole => 1.0
  }

  /** Index of the window a clock reading falls into: int(time) // window. */
  function WindowOf(t: real, size: nat): int
    requires size > 0
  {
    t.Floor / size
  }

  function WindowEnd(w: int, size: nat): int { w * size + size }

  /** Seconds a rejected client is told to wait, at clock reading `now`. */
  function RetryAfter(w: int, size: nat, now: real): int {
    var left := WindowEnd(w, size) - now.Floor;
    if left >= 1 then left else 1
  }

  datatype Key = Key(client: Client, window: int)

  datatype Expiry = Never | At(when: real)

  datatype Counter = Counter(count: nat, expiry: Expiry)

  type Counters = map<Key, Counter>

  predicate Live(cs: Counters, k: Key, now: real) {
    k in cs && (cs[k].expiry.Never? || now < cs[k].expiry.when)
  }

  /** INCR: a missing or expired key starts at 1 without an expiry. */
  function Incremented(cs: Counters, k: Key, now: real): Counters {
    cs[k := if Live(cs, k, now) then Counter(cs[k].count + 1, cs[k].expiry) else Counter(1, Never)]
  }

  /** EXPIRE: sets a new deadline on a live key. */
  function Deadline(cs: Counters, k: Key, now: real, ttl: nat): Counters {
    if Live(cs, k, now) then cs[k := Counter(cs[k].count, At(now + ttl as real))] else cs
  }

  /** A command of a request that read the clock at `read`, landing at time `at`. */
  datatype Event = Incr(client: Client, read: real, at: real) | Expire(client: Client, read: real, at: real)

  datatype Config = Config(size: nat, base: nat)

  /** The effective limit of a client: `int(base * multiplier)`. */
  function Limit(cfg: Config, c: Client): (limit: nat)
    ensures limit >= cfg.base
  {
    (cfg.base as real * Multiplier(c.role)).Floor
  }

  function KeyOf(e: Event, size: nat): Key
    requires size > 0
  {
    Key(e.client, WindowOf(e.read, size))
  }

  function Apply(cfg: Config, cs: Counters, e: Event): Counters
    requires cfg.size > 0
  {
    match e
    case Incr(_, _, at) => Incremented(cs, KeyOf(e, cfg.size), at)
    case Expire(_, _, at) => Deadline(cs, KeyOf(e, cfg.size), at, cfg.size + 1)
  }

  datatype Decision = Admitted(remaining: int, reset: int) | Rejected(retryAfter: int, reset: int)

  class RateLimiter {
    const cfg: Config
    var counters: Counters

    /** INCR never stores less than 1. */
    ghost predicate Valid()
      reads this
    {
      forall k :: k in counters ==> counters[k].count > 0
    }

    constructor (cfg: Config)
      ensures Valid() && this.cfg == cfg && counters == map[]
    {
      this.cfg, counters := cfg, map[];
    }

    method Step(e: Event) returns (count: nat)
      requires Valid() && cfg.size > 0
      modifies this
      ensures Valid() && counters == Apply(cfg, old(counters), e)
      ensures e.Incr? ==> KeyOf(e, cfg.size) in counters && count == counters[KeyOf(e, cfg.size)].count
    {
      var k := KeyOf(e, cfg.size);
      count := 0;
      match e {
        case Incr(_, _, at) =>
          counters := Incremented(counters, k, at);
          count := counters[k].count;
        case Expire(_, _, at) =>
          counters := Deadline(counters, k, at, cfg.size + 1);
      }
    }

    /** `dispatch` for one request: clock at t0, INCR at t1, EXPIRE (if first) at t2, clock at t3 when rejecting. */
    method Dispatch(client: Client, t0: real, t1: real, t2: real, t3: real) returns (d: Decision)
      requires Valid() && cfg.size > 0
      modifies this
      ensures Valid()
      ensures var k := Key(client, WindowOf(t0, cfg.size));
        var n := if Live(old(counters), k, t1) then old(counters)[k].count + 1 else 1;
        && (d.Admitted? <==> n <= Limit(cfg, client))
        && (d.Admitted? ==> d.remaining == Limit(cfg, client) - n)
        && (d.Rejected? ==> d.retryAfter == RetryAfter(k.window, cfg.size, t3))
        && d.reset == WindowEnd(k.window, cfg.size)
        && k in counters && counters[k] ==
          Counter(n, if n == 1 then At(t2 + (cfg.size + 1) as real) else old(counters)[k].expiry)
    {
      var window, limit := WindowOf(t0, cfg.size), Limit(cfg, client);
      var count := Step(Incr(client, t0, t1));
      if count == 1 { var none := Step(Expire(client, t0, t2)); }
      if count > limit {
        var windowStart := window * cfg.size;
        var retry := windowStart + cfg.size - t3.Floor;
        return Rejected(if retry >= 1 then retry else 1, windowStart + cfg.size);
      }
      d := Admitted(if limit - count >= 0 then limit - count else 0, window * cfg.size + cfg.size);
    }
  }

  // ------------------------------------------------------------------------ runs

  ghost predicate WellTimed(cfg: Config, tr: seq<Event>) {
    && (forall i :: 0 <= i < |tr| ==> tr[i].read <= tr[i].at)
    && (forall i, j :: 0 <= i < j < |tr| ==> tr[i].at <= tr[j].at)
  }

  /** Every INCR lands within one second after the end of the window it counts for. */
  ghost predicate Prompt(cfg: Config, tr: seq<Event>)
    requires cfg.size > 0
  {
    forall i :: 0 <= i < |tr| && tr[i].Incr? ==>
      tr[i].at < (WindowEnd(KeyOf(tr[i], cfg.size).window, cfg.size) + 1) as real
  }

  ghost function Run(cfg: Config, tr: seq<Event>): Counters
    requires cfg.size > 0
  {
    if tr == [] then map[] else Apply(cfg, Run(cfg, tr[..|tr| - 1]), tr[|tr| - 1])
  }

  ghost predicate Counts(cfg: Config, tr: seq<Event>, i: nat, k: Key)
    requires cfg.size > 0 && i < |tr|
  {
    tr[i].Incr? && KeyOf(tr[i], cfg.size) == k
  }

  /** The i-th event is an INCR whose reply is within the limit. */
  ghost predicate Admits(cfg: Config, tr: seq<Event>, i: nat)
    requires cfg.size > 0 && i < |tr|
  {
    tr[i].Incr? && Run(cfg, tr[..i + 1])[KeyOf(tr[i], cfg.size)].count <= Limit(cfg, tr[i].client)
  }

  ghost function Requests(cfg: Config, tr: seq<Event>, k: Key): nat
    requires cfg.size > 0
  {
    if tr == [] then 0 else Requests(cfg, tr[..|tr| - 1], k) + if Counts(cfg, tr, |tr| - 1, k) then 1 else 0
  }

  ghost function AdmittedFor(cfg: Config, tr: seq<Event>, k: Key): nat
    requires cfg.size > 0
  {
    if tr == [] then 0
    else
      AdmittedFor(cfg, tr[..|tr| - 1], k)
      + if Counts(cfg, tr, |tr| - 1, k) && Admits(cfg, tr, |tr| - 1) then 1 else 0
  }

  /** A clock reading lies in the window computed from it. */
  lemma ReadInWindow(t: real, size: nat)
    requires size > 0
    ensures (WindowOf(t, size) * size) as real <= t < WindowEnd(WindowOf(t, size), size) as real
  {
    var f := t.Floor;
    assert f == f / size * size + f % size;
    assert f as real <= t < (f + 1) as real;
  }

  /** No deadline of a key comes before the end of its window plus one second. */
  ghost predicate LateDeadlines(cfg: Config, cs: Counters) {
    forall k :: k in cs && cs[k].expiry.At? ==> cs[k].expiry.when >= (WindowEnd(k.window, cfg.size) + 1) as real
  }

  lemma ApplyDeadlines(cfg: Config, cs: Counters, e: Event)
    requires cfg.size > 0 && LateDeadlines(cfg, cs) && e.read <= e.at
    ensures LateDeadlines(cfg, Apply(cfg, cs, e))
  {
    ReadInWindow(e.read, cfg.size);
  }

  /** A counter never expires inside its own window, whatever the interleaving. */
  lemma {:induction false} NeverExpiresInside(cfg: Config, tr: seq<Event>)
    requires cfg.size > 0 && WellTimed(cfg, tr)
    ensures LateDeadlines(cfg, Run(cfg, tr))
    ensures forall k, now: real ::
      k in Run(cfg, tr) && now < WindowEnd(k.window, cfg.size) as real ==> Live(Run(cfg, tr), k, now)
  {
    if tr != [] {
      NeverExpiresInside(cfg, tr[..|tr| - 1]);
      ApplyDeadlines(cfg, Run(cfg, tr[..|tr| - 1]), tr[|tr| - 1]);
    }
  }

  /** No INCR for key k finds that its counter has expired. */
  ghost predicate NoRestart(cfg: Config, tr: seq<Event>, k: Key)
    requires cfg.size > 0
  {
    forall i :: 0 <= i < |tr| && Counts(cfg, tr, i, k) ==> Unexpired(cfg, tr[..i], k, tr[i].at)
  }

  ghost predicate Unexpired(cfg: Config, tr: seq<Event>, k: Key, now: real)
    requires cfg.size > 0
  {
    k in Run(cfg, tr) ==> Live(Run(cfg, tr), k, now)
  }

  lemma PromptNeverRestarts(cfg: Config, tr: seq<Event>, k: Key)
    requires cfg.size > 0 && WellTimed(cfg, tr) && Prompt(cfg, tr)
    ensures NoRestart(cfg, tr, k)
  {
    forall i | 0 <= i < |tr| && Counts(cfg, tr, i, k) ensures Unexpired(cfg, tr[..i], k, tr[i].at) {
      NeverExpiresInside(cfg, tr[..i]);
    }
  }

  lemma NoRestartPrefix(cfg: Config, tr: seq<Event>, k: Key)
    requires cfg.size > 0 && tr != [] && NoRestart(cfg, tr, k)
    ensures NoRestart(cfg, tr[..|tr| - 1], k)
    ensures Counts(cfg, tr, |tr| - 1, k) ==> Unexpired(cfg, tr[..|tr| - 1], k, tr[|tr| - 1].at)
  {
    var init := tr[..|tr| - 1];
    forall i | 0 <= i < |init| && Counts(cfg, init, i, k) ensures Unexpired(cfg, init[..i], k, init[i].at) {
      assert init[..i] == tr[..i] && Counts(cfg, tr, i, k);
    }
  }

  /** Then a counter is exactly the number of requests of its client and window. */
  lemma {:induction false} CounterIsRequests(cfg: Config, tr: seq<Event>, k: Key)
    requires cfg.size > 0 && NoRestart(cfg, tr, k)
    ensures if k in Run(cfg, tr) then Run(cfg, tr)[k].count == Requests(cfg, tr, k) else Requests(cfg, tr, k) == 0
  {
    if tr != [] {
      NoRestartPrefix(cfg, tr, k);
      CounterIsRequests(cfg, tr[..|tr| - 1], k);
    }
  }

  /** And exactly the first `limit` requests of the client window are admitted. */
  lemma {:induction false} FirstOnesAdmitted(cfg: Config, tr: seq<Event>, k: Key)
    requires cfg.size > 0 && NoRestart(cfg, tr, k)
    ensures var n, limit := Requests(cfg, tr, k), Limit(cfg, k.client);
      AdmittedFor(cfg, tr, k) == if n <= limit then n else limit
  {
    if tr != [] {
      NoRestartPrefix(cfg, tr, k);
      FirstOnesAdmitted(cfg, tr[..|tr| - 1], k);
      CounterIsRequests(cfg, tr, k);
      assert tr[..|tr|] == tr;
    }
  }

  /** The limit by role: administrators get five times the base, devices twice, everyone else the base itself. */
  lemma AdmittedByRole(cfg: Config, tr: seq<Event>, k: Key)
    requires cfg.size > 0 && NoRestart(cfg, tr, k)
    ensures var n := Requests(cfg, tr, k);
      var limit := match k.client.role
        case Admin => 5 * cfg.base
        case DeviceRole => 2 * cfg.base
        case _ => cfg.base;
      AdmittedFor(cfg, tr, k) == if n <= limit then n else limit
  {
    FirstOnesAdmitted(cfg, tr, k);
    assert (cfg.base as real * 5.0) == (5 * cfg.base) as real && (cfg.base as real * 2.0) == (2 * cfg.base) as real;
  }

  lemma AdmittedPerWindow(cfg: Config, tr: seq<Event>, k: Key)
    requires cfg.size > 0 && WellTimed(cfg, tr) && Prompt(cfg, tr)
    ensures var n, limit := Requests(cfg, tr, k), Limit(cfg, k.client);
      AdmittedFor(cfg, tr, k) == if n <= limit then n else limit
  {
    PromptNeverRestarts(cfg, tr, k);
    FirstOnesAdmitted(cfg, tr, k);
  }

  // ------------------------------------------------------------------- over-admission

  lemma NoRestartStep(cfg: Config, tr: seq<Event>, k: Key)
    requires cfg.size > 0 && tr != []
    ensures NoRestart(cfg, tr, k) <==>
      NoRestart(cfg, tr[..|tr| - 1], k)
      && (Counts(cfg, tr, |tr| - 1, k) ==> Unexpired(cfg, tr[..|tr| - 1], k, tr[|tr| - 1].at))
  {
    var init, n := tr[..|tr| - 1], |tr| - 1;
    if NoRestart(cfg, tr, k) { NoRestartPrefix(cfg, tr, k); }
    if NoRestart(cfg, init, k) && (Counts(cfg, tr, n, k) ==> Unexpired(cfg, init, k, tr[n].at)) {
      forall i | 0 <= i < |tr| && Counts(cfg, tr, i, k) ensures Unexpired(cfg, tr[..i], k, tr[i].at) {
        if i < n { assert init[..i] == tr[..i] && Counts(cfg, init, i, k); }
      }
    }
  }

  /** What one event does to a counter and to the requests counted and admitted. */
  lemma OneEvent(cfg: Config, tr: seq<Event>, k: Key)
    requires cfg.size > 0 && tr != []
    ensures var init, last, cs := tr[..|tr| - 1], tr[|tr| - 1], Run(cfg, tr[..|tr| - 1]);
      if Counts(cfg, tr, |tr| - 1, k) then
        && k in Run(cfg, tr) && Run(cfg, tr)[k].count == (if Live(cs, k, last.at) then cs[k].count + 1 else 1)
        && Requests(cfg, tr, k) == Requests(cfg, init, k) + 1
        && AdmittedFor(cfg, tr, k) == AdmittedFor(cfg, init, k)
             + (if Run(cfg, tr)[k].count <= Limit(cfg, k.client) then 1 else 0)
      else
        && (k in cs ==> k in Run(cfg, tr) && Run(cfg, tr)[k].count == cs[k].count)
        && Requests(cfg, tr, k) == Requests(cfg, init, k) && AdmittedFor(cfg, tr, k) == AdmittedFor(cfg, init, k)
  {
    assert tr[..|tr|] == tr;
  }

  /** After a restart the counter lags behind the requests, and all are admitted until too many are. */
  ghost predicate Lagging(cfg: Config, tr: seq<Event>, k: Key)
    requires cfg.size > 0
  {
    var requests, admitted := Requests(cfg, tr, k), AdmittedFor(cfg, tr, k);
    && k in Run(cfg, tr) && 1 <= Run(cfg, tr)[k].count < requests
    && admitted <= requests && (admitted <= Limit(cfg, k.client) ==> admitted == requests)
  }

  lemma {:induction false} RestartLags(cfg: Config, tr: seq<Event>, k: Key)
    requires cfg.size > 0 && Limit(cfg, k.client) >= 1 && !NoRestart(cfg, tr, k)
    ensures Lagging(cfg, tr, k)
  {
    var init := tr[..|tr| - 1];
    NoRestartStep(cfg, tr, k);
    OneEvent(cfg, tr, k);
    if NoRestart(cfg, init, k) {
      CounterIsRequests(cfg, init, k);
      FirstOnesAdmitted(cfg, init, k);
      CountPositive(cfg, init, k);
    } else {
      RestartLags(cfg, init, k);
    }
  }

  lemma {:induction false} CountPositive(cfg: Config, tr: seq<Event>, k: Key)
    requires cfg.size > 0 && k in Run(cfg, tr)
    ensures Run(cfg, tr)[k].count >= 1
  {
    if k in Run(cfg, tr[..|tr| - 1]) { CountPositive(cfg, tr[..|tr| - 1], k); }
  }

  lemma {:induction false} NothingWithinZero(cfg: Config, tr: seq<Event>, k: Key)
    requires cfg.size > 0 && Limit(cfg, k.client) == 0
    ensures AdmittedFor(cfg, tr, k) == 0
  {
    if tr != [] {
      NothingWithinZero(cfg, tr[..|tr| - 1], k);
      OneEvent(cfg, tr, k);
      if Counts(cfg, tr, |tr| - 1, k) { CountPositive(cfg, tr, k); }
    }
  }

  /**
   * In every run: a client window is over-admitted exactly if one of its INCRs found the counter expired and the
   * window has more requests than a limit of at least one.
   */
  lemma OverAdmittedIff(cfg: Config, tr: seq<Event>, k: Key)
    requires cfg.size > 0
    ensures var limit := Limit(cfg, k.client);
      AdmittedFor(cfg, tr, k) > limit <==> limit >= 1 && !NoRestart(cfg, tr, k) && Requests(cfg, tr, k) > limit
  {
    if Limit(cfg, k.client) == 0 {
      NothingWithinZero(cfg, tr, k);
    } else if NoRestart(cfg, tr, k) {
      FirstOnesAdmitted(cfg, tr, k);
    } else {
      RestartLags(cfg, tr, k);
    }
  }

  /** When a window is full, one more request is admitted exactly if its INCR lands after the counter has expired. */
  lemma ExtraAdmittedIff(cfg: Config, tr: seq<Event>, e: Event)
    requires cfg.size > 0 && Limit(cfg, e.client) >= 1 && e.Incr?
    requires var k := KeyOf(e, cfg.size); NoRestart(cfg, tr, k) && Requests(cfg, tr, k) >= Limit(cfg, e.client)
    ensures var k := KeyOf(e, cfg.size);
      && (Admits(cfg, tr + [e], |tr|) <==> !Live(Run(cfg, tr), k, e.at))
      && (AdmittedFor(cfg, tr + [e], k) > Limit(cfg, e.client) <==> !Live(Run(cfg, tr), k, e.at))
  {
    var k, tr' := KeyOf(e, cfg.size), tr + [e];
    assert tr'[..|tr|] == tr && tr'[..|tr| + 1] == tr';
    CounterIsRequests(cfg, tr, k);
    FirstOnesAdmitted(cfg, tr, k);
  }

  /** Admitted requests of a client whose clock reading lies in [from, from + size). */
  ghost function AdmittedWithin(cfg: Config, tr: seq<Event>, c: Client, from: real): nat
    requires cfg.size > 0
  {
    if tr == [] then 0
    else
      var e := tr[|tr| - 1];
      AdmittedWithin(cfg, tr[..|tr| - 1], c, from)
        + if e.Incr? && e.client == c && from <= e.read < from + cfg.size as real && Admits(cfg, tr, |tr| - 1)
          then 1 else 0
  }

  lemma TwoWindows(from: real, t: real, size: nat)
    requires size > 0 && from <= t < from + size as real
    ensures var w := WindowOf(from, size); WindowOf(t, size) == w || WindowOf(t, size) == w + 1
  {
    var f, g := from.Floor, t.Floor;
    assert f <= g <= f + size;
    QuotientSteps(f, g, size);
  }

  lemma QuotientSteps(f: int, g: int, n: nat)
    requires n > 0 && f <= g <= f + n
    ensures f / n <= g / n <= f / n + 1
  {
    var p, q := f / n, g / n;
    assert f == p * n + f % n && g == q * n + g % n;
    assert (q - p) * n == g - f + f % n - g % n;
    FactorBound(q - p, n);
  }

  lemma FactorBound(d: int, n: nat)
    requires 0 - n < d * n < 2 * n
    ensures 0 <= d <= 1
  {
    assert (d + 1) * n > 0 && (2 - d) * n > 0;
    assert d + 1 > 0 by { Sign(d + 1, n); }
    assert 2 - d > 0 by { Sign(2 - d, n); }
  }

  lemma Sign(d: int, n: nat)
    requires d * n > 0
    ensures d > 0
  {
  }

  lemma {:induction false} WithinTwoWindows(cfg: Config, tr: seq<Event>, c: Client, from: real)
    requires cfg.size > 0
    ensures var w := WindowOf(from, cfg.size);
      AdmittedWithin(cfg, tr, c, from) <= AdmittedFor(cfg, tr, Key(c, w)) + AdmittedFor(cfg, tr, Key(c, w + 1))
  {
    if tr != [] {
      var e := tr[|tr| - 1];
      WithinTwoWindows(cfg, tr[..|tr| - 1], c, from);
      if from <= e.read < from + cfg.size as real { TwoWindows(from, e.read, cfg.size); }
    }
  }

  /** Any interval of one window length admits at most twice the limit, if neither window's counter restarts. */
  lemma AtMostTwice(cfg: Config, tr: seq<Event>, c: Client, from: real)
    requires cfg.size > 0
    requires var w := WindowOf(from, cfg.size); NoRestart(cfg, tr, Key(c, w)) && NoRestart(cfg, tr, Key(c, w + 1))
    ensures AdmittedWithin(cfg, tr, c, from) <= 2 * Limit(cfg, c)
  {
    var w := WindowOf(from, cfg.size);
    WithinTwoWindows(cfg, tr, c, from);
    FirstOnesAdmitted(cfg, tr, Key(c, w));
    FirstOnesAdmitted(cfg, tr, Key(c, w + 1));
  }

  lemma PromptAtMostTwice(cfg: Config, tr: seq<Event>, c: Client, from: real)
    requires cfg.size > 0 && WellTimed(cfg, tr) && Prompt(cfg, tr)
    ensures AdmittedWithin(cfg, tr, c, from) <= 2 * Limit(cfg, c)
  {
    var w := WindowOf(from, cfg.size);
    PromptNeverRestarts(cfg, tr, Key(c, w));
    PromptNeverRestarts(cfg, tr, Key(c, w + 1));
    AtMostTwice(cfg, tr, c, from);
  }

  /** n requests of one client at one instant. */
  function Burst(c: Client, t: real, n: nat): seq<Event> { seq(n, _ => Incr(c, t, t)) }

  lemma {:induction false} BurstRequests(cfg: Config, tr: seq<Event>, c: Client, t: real, n: nat, k: Key, from: real)
    requires cfg.size > 0 && NoRestart(cfg, tr, k)
    requires forall k :: k in Run(cfg, tr) ==> Run(cfg, tr)[k].expiry.Never?
    ensures var tr', e := tr + Burst(c, t, n), Incr(c, t, t);
      && (forall k :: k in Run(cfg, tr') ==> Run(cfg, tr')[k].expiry.Never?)
      && NoRestart(cfg, tr', k)
      && Requests(cfg, tr', k) == Requests(cfg, tr, k) + (if KeyOf(e, cfg.size) == k then n else 0)
      && (from <= t < from + cfg.size as real ==>
           AdmittedWithin(cfg, tr', c, from) - AdmittedWithin(cfg, tr, c, from)
             == AdmittedFor(cfg, tr', KeyOf(e, cfg.size)) - AdmittedFor(cfg, tr, KeyOf(e, cfg.size)))
      && forall j: Key :: j != KeyOf(e, cfg.size) ==> AdmittedFor(cfg, tr', j) == AdmittedFor(cfg, tr, j)
  {
    var tr' := tr + Burst(c, t, n);
    if n == 0 {
      assert tr' == tr;
    } else {
      BurstRequests(cfg, tr, c, t, n - 1, k, from);
      assert tr'[..|tr'| - 1] == tr + Burst(c, t, n - 1);
      NoRestartStep(cfg, tr', k);
    }
  }

  lemma Boundary(size: nat)
    requires size > 0
    ensures WindowOf(size as real - 0.5, size) == 0 && WindowOf(size as real, size) == 1
  {
    assert (size as real - 0.5).Floor == size - 1;
  }

  function TwoBursts(size: nat, c: Client, n: nat): seq<Event> {
    Burst(c, size as real - 0.5, n) + Burst(c, size as real, n)
  }

  lemma TwoBurstsTimely(cfg: Config, c: Client, n: nat)
    requires cfg.size > 0
    ensures WellTimed(cfg, TwoBursts(cfg.size, c, n)) && Prompt(cfg, TwoBursts(cfg.size, c, n))
  {
    Boundary(cfg.size);
    var tr := TwoBursts(cfg.size, c, n);
    forall i | 0 <= i < |tr| ensures tr[i].at < (WindowEnd(KeyOf(tr[i], cfg.size).window, cfg.size) + 1) as real {
      var early, late := cfg.size as real - 0.5, cfg.size as real;
      assert tr[i] == Incr(c, early, early) || tr[i] == Incr(c, late, late);
    }
  }

  /** Twice the limit is attained: a full burst just before a window boundary and another one at it. */
  lemma TwiceAttained(cfg: Config, c: Client)
    requires cfg.size > 0
    ensures var tr := TwoBursts(cfg.size, c, Limit(cfg, c));
      && WellTimed(cfg, tr) && Prompt(cfg, tr)
      && AdmittedWithin(cfg, tr, c, cfg.size as real - 0.5) == 2 * Limit(cfg, c)
  {
    var limit, from, t1 := Limit(cfg, c), cfg.size as real - 0.5, cfg.size as real;
    var first, tr := Burst(c, from, limit), TwoBursts(cfg.size, c, limit);
    TwoBurstsTimely(cfg, c, limit);
    Boundary(cfg.size);
    assert [] + first == first;
    FirstBurst(cfg, c, from, limit, Key(c, 0));
    FirstBurst(cfg, c, from, limit, Key(c, 1));
    BurstRequests(cfg, first, c, t1, limit, Key(c, 1), from);
    FirstOnesAdmitted(cfg, tr, Key(c, 1));
  }

  lemma FirstBurst(cfg: Config, c: Client, t: real, n: nat, k: Key)
    requires cfg.size > 0 && n == Limit(cfg, c) && k.client == c
    ensures var tr, mine := Burst(c, t, n), KeyOf(Incr(c, t, t), cfg.size) == k;
      && NoRestart(cfg, tr, k) && (forall k :: k in Run(cfg, tr) ==> Run(cfg, tr)[k].expiry.Never?)
      && Requests(cfg, tr, k) == AdmittedFor(cfg, tr, k) == (if mine then n else 0)
      && (mine ==> AdmittedWithin(cfg, tr, c, t) == n)
  {
    assert [] + Burst(c, t, n) == Burst(c, t, n);
    BurstRequests(cfg, [], c, t, n, k, t);
    FirstOnesAdmitted(cfg, Burst(c, t, n), k);
  }

  /** One prompt request and its EXPIRE, then one whose INCR lands as the counter expires. */
  function Delayed(c: Client): seq<Event> {
    [Incr(c, 0.0, 0.0), Expire(c, 0.0, 0.0), Incr(c, 59.0, 61.0)]
  }

  lemma DelayedPrefix(cfg: Config, c: Client)
    requires cfg.size == 60 && Limit(cfg, c) >= 1
    ensures var tr, k := Delayed(c)[..2], Key(c, 0);
      Run(cfg, tr) == map[k := Counter(1, At(61.0))] && AdmittedFor(cfg, tr, k) == 1
  {
    var k, a, b := Key(c, 0), Delayed(c)[0], Delayed(c)[1];
    assert Delayed(c)[..2] == [a, b] && [a, b][..1] == [a] && [a][..0] == [];
    OneEvent(cfg, [a], k);
    OneEvent(cfg, [a, b], k);
    assert Run(cfg, [a]) == map[k := Counter(1, Never)];
  }

  lemma DelayedRestarts(cfg: Config, c: Client)
    requires cfg.size == 60 && Limit(cfg, c) >= 1
    ensures WellTimed(cfg, Delayed(c)) && !Prompt(cfg, Delayed(c))
    ensures Key(c, 0) in Run(cfg, Delayed(c)) && Run(cfg, Delayed(c))[Key(c, 0)] == Counter(1, Never)
    ensures AdmittedFor(cfg, Delayed(c), Key(c, 0)) == 2
  {
    var d := Delayed(c)[2];
    DelayedPrefix(cfg, c);
    OneEvent(cfg, Delayed(c), Key(c, 0));
    assert KeyOf(d, 60) == Key(c, 0) && d.at >= (WindowEnd(0, 60) + 1) as real;
  }

  /** Promptness is needed: an INCR delayed past the counter's expiry is admitted although its window is full. */
  lemma LateIncrOverAdmits(c: Client)
    requires c.role.User?
    ensures var cfg := Config(60, 1);
      && WellTimed(cfg, Delayed(c)) && !Prompt(cfg, Delayed(c))
      && Limit(cfg, c) == 1 && AdmittedFor(cfg, Delayed(c), Key(c, 0)) == 2
  {
    DelayedRestarts(Config(60, 1), c);
  }

  /** And so is one that lands on a live counter, if the counter restarted before it. */
  lemma LiveCounterOverAdmits(c: Client)
    requires c.role.User?
    ensures var cfg, last := Config(60, 2), Incr(c, 59.5, 61.5);
      && WellTimed(cfg, Delayed(c) + [last]) && Limit(cfg, c) == 2
      && Live(Run(cfg, Delayed(c)), Key(c, 0), last.at) && Requests(cfg, Delayed(c), Key(c, 0)) == 2
      && AdmittedFor(cfg, Delayed(c) + [last], Key(c, 0)) == 3
  {
    var cfg, last := Config(60, 2), Incr(c, 59.5, 61.5);
    var tr := Delayed(c) + [last];
    DelayedRestarts(cfg, c);
    assert tr[..3] == Delayed(c) && KeyOf(last, 60) == Key(c, 0);
    OneEvent(cfg, tr, Key(c, 0));
    DelayedRequests(cfg, c);
  }

  lemma DelayedRequests(cfg: Config, c: Client)
    requires cfg.size == 60
    ensures Requests(cfg, Delayed(c), Key(c, 0)) == 2
  {
    var tr := Delayed(c);
    assert tr[..2][..1] == tr[..1] && tr[..1][..0] == [];
    OneEvent(cfg, tr, Key(c, 0));
    OneEvent(cfg, tr[..2], Key(c, 0));
    OneEvent(cfg, tr[..1], Key(c, 0));
  }

  /** Retry-After always reaches the end of the window, and overshoots by less than a second while the window lasts. */
  lemma RetryReachesEnd(w: int, size: nat, now: real)
    ensures now + RetryAfter(w, size, now) as real >= WindowEnd(w, size) as real
    ensures now >= WindowEnd(w, size) as real ==> RetryAfter(w, size, now) == 1
    ensures now < WindowEnd(w, size) as real ==>
      now + RetryAfter(w, size, now) as real < WindowEnd(w, size) as real + 1.0
  {
    var f, e := now.Floor, WindowEnd(w, size);
    assert f as real <= now < (f + 1) as real;
    if now < e as real { assert f < e; }
  }
}

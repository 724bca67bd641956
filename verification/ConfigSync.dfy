/**
 * Replication of configuration: the leader's write path, newest-version-wins updates over
 * Pub/Sub and the SyncConfig stream, and the full pull that scans Redis.
 */
module ConfigReplication {
  import opened Common

  /**
   * How config keys and their version counters are named in Redis: prefix `iot-gateway:config:` and tag
   * `version:` in the gateway. Everything below holds for any naming.
   */
  datatype Namespace = Namespace(prefix: string, tag: string)

  function ConfigKey(ns: Namespace, key: string): string { ns.prefix + key }

  function VersionKey(ns: Namespace, key: string): string { ns.prefix + ns.tag + key }

  /** Redis strings: plain text, or the decimal counters that INCR maintains. */
  datatype Value = Text(text: string) | Counter(n: nat)

  type Store = map<string, Value>

  datatype Entry = Entry(value: string, version: int)

  type Local = map<string, Entry>

  datatype Update = Update(key: string, value: string, version: int)

  function Get(l: Local, key: string): Entry { if key in l then l[key] else Entry("", 0) }

  /** Apply an incoming update if it is newer than what is cached. */
  function Apply(l: Local, u: Update): Local {
    if u.version > Get(l, u.key).version then l[u.key := Entry(u.value, u.version)] else l
  }

  function ApplyAll(l: Local, us: seq<Update>): Local {
    if us == [] then l else Apply(ApplyAll(l, us[..|us| - 1]), us[|us| - 1])
  }

  /** The server's side of one SyncConfig entry: ingest it, or answer with what is newer here. */
  function ServeOne(l: Local, e: Update): (Local, seq<Update>) {
    var mine := Get(l, e.key);
    if mine.version > e.version then (l, [Update(e.key, mine.value, mine.version)])
    else if e.version > mine.version then (l[e.key := Entry(e.value, e.version)], [])
    else (l, [])
  }

  function ServeAll(l: Local, es: seq<Update>): (Local, seq<Update>) {
    if es == [] then (l, [])
    else
      var (l1, r1) := ServeAll(l, es[..|es| - 1]);
      var (l2, r2) := ServeOne(l1, es[|es| - 1]);
      (l2, r1 + r2)
  }

  /** The values alone, as ClusterState keeps them. */
  ghost function Mirror(l: Local): map<string, string> { map k | k in l :: l[k].value }

  // ---------------------------------------------------------------- full pull

  predicate IsVersionKey(ns: Namespace, raw: string) { ns.prefix + ns.tag <= raw }

  /** What the scan does with one raw key: nothing for a version counter, else cache value and version. */
  ghost function Take(ns: Namespace, store: Store, l: Local, raw: string): Local
    requires PlainStore(ns, store) && (raw in store ==> ns.prefix <= raw)
  {
    if IsVersionKey(ns, raw) || raw !in store then l
    else l[raw[|ns.prefix|..] := Entry(store[raw].text, StoredVersion(ns, store, raw[|ns.prefix|..]))]
  }

  /** Version counters hold counters, other config keys hold text. */
  ghost predicate PlainStore(ns: Namespace, store: Store) {
    forall raw :: raw in store && ns.prefix <= raw ==>
      if IsVersionKey(ns, raw) then store[raw].Counter? else store[raw].Text?
  }

  ghost function StoredVersion(ns: Namespace, store: Store, key: string): nat
    requires PlainStore(ns, store)
  {
    if VersionKey(ns, key) in store then store[VersionKey(ns, key)].n else 1
  }

  /** The configuration a store holds, said without scanning. */
  ghost function Pulled(ns: Namespace, store: Store): Local
    requires PlainStore(ns, store)
  {
    map key | key in ShortKeys(ns, store) :: Entry(store[ConfigKey(ns, key)].text, StoredVersion(ns, store, key))
  }

  ghost function ShortKeys(ns: Namespace, store: Store): (keys: set<string>)
    ensures forall key :: key in keys <==> ConfigKey(ns, key) in store && !(ns.tag <= key)
  {
    KeySplit(ns);
    set raw | raw in store && ns.prefix <= raw && !IsVersionKey(ns, raw) :: raw[|ns.prefix|..]
  }

  lemma KeySplit(ns: Namespace)
    ensures forall key :: ns.prefix <= ConfigKey(ns, key) && ConfigKey(ns, key)[|ns.prefix|..] == key
    ensures forall key :: IsVersionKey(ns, ConfigKey(ns, key)) <==> ns.tag <= key
    ensures forall raw :: ns.prefix <= raw ==> ConfigKey(ns, raw[|ns.prefix|..]) == raw
  {
    forall key ensures IsVersionKey(ns, ConfigKey(ns, key)) <==> ns.tag <= key {
      var raw := ConfigKey(ns, key);
      if ns.tag <= key { assert raw == ns.prefix + ns.tag + key[|ns.tag|..]; }
      if IsVersionKey(ns, raw) {
        assert raw == ns.prefix + ns.tag + raw[|ns.prefix| + |ns.tag|..];
        assert key == raw[|ns.prefix|..];
        assert key[..|ns.tag|] == raw[|ns.prefix|..|ns.prefix| + |ns.tag|] == ns.tag;
      }
    }
  }

  /** What a pull makes of any store: the text under prefix and key, with its counter, or version 1 without one. */
  lemma PulledMeaning(ns: Namespace, store: Store, key: string)
    requires PlainStore(ns, store)
    ensures key in Pulled(ns, store) <==> ns.prefix + key in store && !(ns.tag <= key)
    ensures key in Pulled(ns, store) ==>
      && store[ns.prefix + key].Text?
      && Pulled(ns, store)[key].value == store[ns.prefix + key].text
      && var counter := ns.prefix + ns.tag + key;
         Pulled(ns, store)[key].version == if counter in store && store[counter].Counter? then store[counter].n else 1
  {
    KeySplit(ns);
    assert ns.prefix <= ns.prefix + ns.tag + key && IsVersionKey(ns, ns.prefix + ns.tag + key);
  }

  // ------------------------------------------------------ the imperative service

  class ClusterConfig {
    var config: map<string, string>

    constructor ()
      ensures config == map[]
    {
      config := map[];
    }

    method SetConfig(key: string, value: string)
      modifies this
      ensures config == old(config)[key := value]
    {
      config := config[key := value];
    }
  }

  class Redis {
    var store: Store
    var published: seq<Update>

    constructor ()
      ensures store == map[] && published == []
    {
      store, published := map[], [];
    }

    /** INCR; refused when the key holds something that is not a counter. */
    method Incr(raw: string) returns (ok: bool, n: nat)
      modifies this`store
      ensures ok <==> raw !in old(store) || old(store)[raw].Counter?
      ensures ok ==> n == Count(old(store), raw) + 1 && store == old(store)[raw := Counter(n)]
      ensures !ok ==> store == old(store)
    {
      ok, n := raw !in store || store[raw].Counter?, 0;
      if ok {
        n := Count(store, raw) + 1;
        store := store[raw := Counter(n)];
      }
    }
  }

  function Count(store: Store, raw: string): nat {
    if raw in store && store[raw].Counter? then store[raw].n else 0
  }

  class ConfigSync {
    const ns: Namespace
    const redis: Redis
    const clusterState: ClusterConfig
    var local: Local

    /** The cluster state's copy always shows the cached values. */
    ghost predicate Valid()
      reads this, clusterState
    {
      clusterState.config == Mirror(local)
    }

    constructor (redis: Redis, ns: Namespace)
      ensures Valid() && local == map[] && this.redis == redis && this.ns == ns && fresh(clusterState)
    {
      this.redis, this.ns := redis, ns;
      clusterState := new ClusterConfig();
      local := map[];
    }

    method SetLocal(key: string, value: string, version: int)
      requires Valid()
      modifies this, clusterState
      ensures Valid() && local == old(local)[key := Entry(value, version)]
    {
      local := local[key := Entry(value, version)];
      clusterState.SetConfig(key, value);
    }

    /** The leader's write: INCR the version, SET the value, update the caches, publish. */
    method SetConfig(key: string, value: string) returns (ok: bool, version: nat)
      requires Valid()
      modifies this, clusterState, redis
      ensures Valid()
      ensures Leader(redis.store, local, redis.published)
        == Write(ns, old(Leader(redis.store, local, redis.published)), key, value)
      ensures ok <==> VersionKey(ns, key) !in old(redis.store) || old(redis.store)[VersionKey(ns, key)].Counter?
      ensures ok ==> version > 0 && Get(local, key) == Entry(value, version)
    {
      ok, version := redis.Incr(VersionKey(ns, key));
      if !ok { return; }
      redis.store := redis.store[ConfigKey(ns, key) := Text(value)];
      SetLocal(key, value, version);
      redis.published := redis.published + [Update(key, value, version)];
    }

    /** One message of the `config_updates` channel. */
    method OnMessage(u: Update)
      requires Valid()
      modifies this, clusterState
      ensures Valid() && local == Apply(old(local), u)
    {
      if u.version > Get(local, u.key).version { SetLocal(u.key, u.value, u.version); }
    }

    /** The SyncConfig RPC over the stream of entries a caller sends. */
    method SyncConfig(entries: seq<Update>) returns (replies: seq<Update>)
      requires Valid()
      modifies this, clusterState
      ensures Valid() && (local, replies) == ServeAll(old(local), entries)
    {
      replies := [];
      for i := 0 to |entries|
        invariant Valid() && (local, replies) == ServeAll(old(local), entries[..i])
      {
        assert entries[..i + 1][..i] == entries[..i];
        assert entries[..i + 1][i] == entries[i] && replies + [] == replies;
        var e, mine := entries[i], Get(local, entries[i].key);
        if mine.version > e.version {
          replies := replies + [Update(e.key, mine.value, mine.version)];
        } else if e.version > mine.version {
          SetLocal(e.key, e.value, e.version);
        }
      }
      assert entries[..|entries|] == entries;
    }

    /** One raw key of a SCAN page: version counters are skipped. */
    method TakeKey(raw: string) returns (taken: bool)
      requires Valid() && PlainStore(ns, redis.store) && ns.prefix <= raw
      modifies this, clusterState
      ensures Valid() && local == Take(ns, redis.store, old(local), raw)
      ensures taken <==> raw in redis.store && !IsVersionKey(ns, raw)
    {
      taken := !(ns.prefix + ns.tag <= raw) && raw in redis.store;
      if taken {
        var short := raw[|ns.prefix|..];
        assert IsVersionKey(ns, VersionKey(ns, short));
        assert ns.prefix <= VersionKey(ns, short);
        var version := if VersionKey(ns, short) in redis.store then redis.store[VersionKey(ns, short)].n else 1;
        SetLocal(short, redis.store[raw].text, version);
      }
    }

    /** The same in a pull that began with the cache `start` and has scanned the raw keys `seen`. */
    method TakeNext(raw: string, ghost start: Local, ghost seen: set<string>) returns (taken: bool)
      requires Valid() && PlainStore(ns, redis.store) && ns.prefix <= raw
      requires local == start + PulledFrom(ns, redis.store, seen)
      modifies this, clusterState
      ensures Valid() && local == start + PulledFrom(ns, redis.store, seen + {raw})
      ensures taken <==> raw in redis.store && !IsVersionKey(ns, raw)
    {
      TakeOne(ns, redis.store, start, seen, raw);
      taken := TakeKey(raw);
    }

    /** One SCAN page of such a pull. */
    method TakePage(page: seq<string>, ghost start: Local, ghost seen: set<string>) returns (count: nat)
      requires Valid() && PlainStore(ns, redis.store) && forall i :: 0 <= i < |page| ==> ns.prefix <= page[i]
      requires local == start + PulledFrom(ns, redis.store, seen)
      modifies this, clusterState
      ensures Valid() && local == start + PulledFrom(ns, redis.store, seen + Elements(page))
      ensures Counts(ns, redis.store, seen, seen + Elements(page), count, |page|)
    {
      count := 0;
      ghost var now := seen;
      for i := 0 to |page|
        invariant Valid() && now == seen + Elements(page[..i]) && local == start + PulledFrom(ns, redis.store, now)
        invariant Counts(ns, redis.store, seen, now, count, i)
      {
        CountOne(ns, redis.store, seen, now, count, i, page[i]);
        var taken := TakeNext(page[i], start, now);
        if taken { count := count + 1; }
        ElementsGrow(page, i);
        assert now + {page[i]} == seen + Elements(page[..i + 1]);
        now := now + {page[i]};
      }
      assert page[..|page|] == page;
    }

    /**
     * The full pull: every page of a SCAN, in any order and with repeats. The number returned is the number
     * of keys in the pulled configuration, if the SCAN repeats none.
     */
    method SyncFromLeader(pages: seq<seq<string>>) returns (count: nat)
      requires Valid() && PlainStore(ns, redis.store) && Covers(ns, redis.store, pages)
      modifies this, clusterState
      ensures Valid() && local == old(local) + Pulled(ns, redis.store)
      ensures 0 <= count - |Pulled(ns, redis.store)| <= Length(pages) - |Seen(pages)|
    {
      count := 0;
      assert old(local) + PulledFrom(ns, redis.store, {}) == old(local);
      for p := 0 to |pages|
        invariant Valid() && local == old(local) + PulledFrom(ns, redis.store, Seen(pages[..p]))
        invariant Counts(ns, redis.store, {}, Seen(pages[..p]), count, Length(pages[..p]))
      {
        SeenGrows(pages, p);
        var n := TakePage(pages[p], old(local), Seen(pages[..p]));
        count := count + n;
      }
      assert pages[..|pages|] == pages;
      PulledAll(ns, redis.store, pages);
    }

    /** The sync loop: the pull, unless it raises, and then every message that can be read. */
    method RunSyncLoop(pulls: bool, pages: seq<seq<string>>, messages: seq<Option<Update>>)
      requires Valid() && (pulls ==> PlainStore(ns, redis.store) && Covers(ns, redis.store, pages))
      modifies this, clusterState
      ensures Valid()
      ensures var pulled := if pulls then old(local) + Pulled(ns, redis.store) else old(local);
        local == ApplyAll(pulled, Readable(messages))
    {
      if pulls { var count := SyncFromLeader(pages); }
      ghost var pulled := local;
      for i := 0 to |messages|
        invariant Valid() && local == ApplyAll(pulled, Readable(messages[..i]))
      {
        assert messages[..i + 1][..i] == messages[..i];
        ghost var before := Readable(messages[..i]);
        match messages[i] {
          case Some(u) =>
            assert (before + [u])[..|before|] == before;
            OnMessage(u);
          case None =>
        }
      }
      assert messages[..|messages|] == messages;
    }
  }

  /** The messages that are well-formed, in order. */
  function Readable(messages: seq<Option<Update>>): seq<Update> {
    if messages == [] then []
    else
      var init, last := Readable(messages[..|messages| - 1]), messages[|messages| - 1];
      if last.Some? then init + [last.value] else init
  }

  /** Scanning `n` raw keys went from `seen` to `now` and took `count`: one for each new key, besides repeats. */
  ghost predicate Counts(ns: Namespace, store: Store, seen: set<string>, now: set<string>, count: nat, n: nat)
    requires PlainStore(ns, store)
  {
    var grown := |PulledFrom(ns, store, now)| - |PulledFrom(ns, store, seen)|;
    0 <= count - grown <= n - (|now| - |seen|)
  }

  /** How many keys a SCAN returns, counting repeats. */
  ghost function Length(pages: seq<seq<string>>): nat {
    if pages == [] then 0 else Length(pages[..|pages| - 1]) + |pages[|pages| - 1]|
  }

  /** A raw key scanned for the first time adds one configuration key, unless it is a version counter. */
  lemma PulledSize(ns: Namespace, store: Store, seen: set<string>, raw: string)
    requires PlainStore(ns, store) && ns.prefix <= raw
    ensures |PulledFrom(ns, store, seen + {raw})|
      == |PulledFrom(ns, store, seen)| + if raw in store && !IsVersionKey(ns, raw) && raw !in seen then 1 else 0
  {
    var a, b, short := PulledFrom(ns, store, seen), PulledFrom(ns, store, seen + {raw}), raw[|ns.prefix|..];
    SplitOne(ns, raw, short);
    forall key ensures key in b <==> key in a || (key == short && raw in store && !IsVersionKey(ns, raw)) {
      PulledOne(ns, store, seen, raw, key);
    }
    if raw in store && !IsVersionKey(ns, raw) {
      SameMap(b, a[short := b[short]]);
      assert short in a <==> raw in seen;
    } else {
      SameMap(a, b);
    }
  }

  lemma CountOne(ns: Namespace, store: Store, seen: set<string>, now: set<string>, count: nat, n: nat, raw: string)
    requires PlainStore(ns, store) && ns.prefix <= raw && Counts(ns, store, seen, now, count, n)
    ensures Counts(ns, store, seen, now + {raw},
                   if raw in store && !IsVersionKey(ns, raw) then count + 1 else count, n + 1)
  {
    PulledSize(ns, store, now, raw);
  }

  lemma ElementsGrow(keys: seq<string>, i: nat)
    requires i < |keys|
    ensures Elements(keys[..i + 1]) == Elements(keys[..i]) + {keys[i]}
  {
    assert keys[..i + 1] == keys[..i] + [keys[i]];
  }

  ghost function Elements(keys: seq<string>): set<string> { set k | k in keys }

  ghost function Seen(pages: seq<seq<string>>): set<string> {
    if pages == [] then {} else Seen(pages[..|pages| - 1]) + Elements(pages[|pages| - 1])
  }

  lemma SeenGrows(pages: seq<seq<string>>, p: nat)
    requires p < |pages|
    ensures Seen(pages[..p + 1]) == Seen(pages[..p]) + Elements(pages[p])
    ensures Length(pages[..p + 1]) == Length(pages[..p]) + |pages[p]|
  {
    assert pages[..p + 1][..p] == pages[..p];
  }

  /** A complete scan: all matching keys turn up, and only keys that match the pattern. */
  ghost predicate Covers(ns: Namespace, store: Store, pages: seq<seq<string>>) {
    && (forall raw :: raw in store && ns.prefix <= raw ==> raw in Seen(pages))
    && (forall p, i :: 0 <= p < |pages| && 0 <= i < |pages[p]| ==> ns.prefix <= pages[p][i])
  }

  ghost function PulledFrom(ns: Namespace, store: Store, seen: set<string>): Local
    requires PlainStore(ns, store)
  {
    map key | key in ShortKeys(ns, store) && ConfigKey(ns, key) in seen ::
      Entry(store[ConfigKey(ns, key)].text, StoredVersion(ns, store, key))
  }

  lemma SplitOne(ns: Namespace, raw: string, key: string)
    requires ns.prefix <= raw
    ensures var short := raw[|ns.prefix|..];
      && ConfigKey(ns, short) == raw && (IsVersionKey(ns, raw) <==> ns.tag <= short)
      && (ConfigKey(ns, key) == raw <==> key == short)
  {
    KeySplit(ns);
    assert ConfigKey(ns, key)[|ns.prefix|..] == key;
  }

  /** Which keys one more scanned raw key adds. */
  lemma PulledOne(ns: Namespace, store: Store, seen: set<string>, raw: string, key: string)
    requires PlainStore(ns, store) && ns.prefix <= raw
    ensures key in PulledFrom(ns, store, seen + {raw}) <==>
      key in PulledFrom(ns, store, seen) || (key == raw[|ns.prefix|..] && raw in store && !IsVersionKey(ns, raw))
  {
    SplitOne(ns, raw, key);
  }

  lemma TakeOne(ns: Namespace, store: Store, l: Local, seen: set<string>, raw: string)
    requires PlainStore(ns, store) && ns.prefix <= raw
    ensures Take(ns, store, l + PulledFrom(ns, store, seen), raw) == l + PulledFrom(ns, store, seen + {raw})
  {
    var a, b := Take(ns, store, l + PulledFrom(ns, store, seen), raw), l + PulledFrom(ns, store, seen + {raw});
    SplitOne(ns, raw, "");
    forall key ensures key in a <==> key in b { PulledOne(ns, store, seen, raw, key); }
    forall key | key in a ensures key in b && a[key] == b[key] { PulledOne(ns, store, seen, raw, key); }
    SameMap(a, b);
  }

  lemma PulledAll(ns: Namespace, store: Store, pages: seq<seq<string>>)
    requires PlainStore(ns, store) && Covers(ns, store, pages)
    ensures PulledFrom(ns, store, Seen(pages)) == Pulled(ns, store)
  {
    KeySplit(ns);
  }

  // ------------------------------------------------------------ one sequential writer

  datatype LeaderState = Leader(store: Store, local: Local, published: seq<Update>)

  function Write(ns: Namespace, w: LeaderState, key: string, value: string): LeaderState {
    if VersionKey(ns, key) in w.store && w.store[VersionKey(ns, key)].Text? then w
    else
      var version := Count(w.store, VersionKey(ns, key)) + 1;
      Leader(w.store[VersionKey(ns, key) := Counter(version)][ConfigKey(ns, key) := Text(value)],
             w.local[key := Entry(value, version)],
             w.published + [Update(key, value, version)])
  }

  datatype Setting = Setting(key: string, value: string)

  function WriteAll(ns: Namespace, w: LeaderState, sets: seq<Setting>): LeaderState {
    if sets == [] then w
    else Write(ns, WriteAll(ns, w, sets[..|sets| - 1]), sets[|sets| - 1].key, sets[|sets| - 1].value)
  }

  const BLANK := Leader(map[], map[], [])

  /** A key that is not mistaken for a version counter. */
  predicate Plain(ns: Namespace, key: string) { !(ns.tag <= key) }

  /** Store and cache agree on a key. */
  ghost predicate KeyOk(ns: Namespace, w: LeaderState, key: string)
    requires key in w.local
  {
    && Plain(ns, key) && w.local[key].version > 0
    && ConfigKey(ns, key) in w.store && w.store[ConfigKey(ns, key)] == Text(w.local[key].value)
    && VersionKey(ns, key) in w.store && w.store[VersionKey(ns, key)] == Counter(w.local[key].version)
  }

  ghost predicate Accounted(ns: Namespace, w: LeaderState, raw: string) {
    exists key :: key in w.local && (raw == ConfigKey(ns, key) || raw == VersionKey(ns, key))
  }

  /** Store and cache agree key by key, and nothing else is stored. */
  ghost predicate StoreOk(ns: Namespace, w: LeaderState) {
    && PlainStore(ns, w.store)
    && (forall key :: key in w.local ==> KeyOk(ns, w, key))
    && (forall raw :: raw in w.store ==> Accounted(ns, w, raw))
  }

  /** Published updates never exceed the cache, name it at its version, and a version determines its value. */
  ghost predicate LogOk(w: LeaderState) {
    && (forall u :: u in w.published ==> u.key in w.local && 0 < u.version <= w.local[u.key].version)
    && (forall key :: key in w.local ==> Update(key, w.local[key].value, w.local[key].version) in w.published)
    && Consistent(w.published)
  }

  ghost predicate Consistent(us: seq<Update>) {
    forall u, v :: u in us && v in us && u.key == v.key && u.version == v.version ==> u == v
  }

  lemma DistinctKeys(ns: Namespace, key: string, other: string)
    requires Plain(ns, other)
    ensures VersionKey(ns, key) != ConfigKey(ns, other)
    ensures ConfigKey(ns, key) == ConfigKey(ns, other) ==> key == other
    ensures VersionKey(ns, key) == VersionKey(ns, other) ==> key == other
    ensures IsVersionKey(ns, VersionKey(ns, key))
  {
    var p, t := |ns.prefix|, |ns.prefix + ns.tag|;
    assert VersionKey(ns, key)[p..] == ns.tag + key && ConfigKey(ns, other)[p..] == other;
    assert ConfigKey(ns, key)[p..] == key;
    assert VersionKey(ns, key)[t..] == key && VersionKey(ns, other)[t..] == other;
  }

  /** The counter of a plain key is the version in the writer's cache. */
  lemma CounterIsVersion(ns: Namespace, w: LeaderState, key: string)
    requires StoreOk(ns, w) && Plain(ns, key)
    ensures VersionKey(ns, key) in w.store ==> w.store[VersionKey(ns, key)].Counter?
    ensures Count(w.store, VersionKey(ns, key)) == Get(w.local, key).version
  {
    if key in w.local { assert KeyOk(ns, w, key); }
    if VersionKey(ns, key) in w.store {
      assert Accounted(ns, w, VersionKey(ns, key));
      var k :| k in w.local && (VersionKey(ns, key) == ConfigKey(ns, k) || VersionKey(ns, key) == VersionKey(ns, k));
      assert KeyOk(ns, w, k);
      DistinctKeys(ns, key, k);
    }
  }

  lemma WriteEffect(ns: Namespace, w: LeaderState, key: string, value: string)
    requires StoreOk(ns, w) && Plain(ns, key)
    ensures var v := Get(w.local, key).version + 1;
      v > 0 && Write(ns, w, key, value) ==
        Leader(w.store[VersionKey(ns, key) := Counter(v)][ConfigKey(ns, key) := Text(value)],
        w.local[key := Entry(value, v)], w.published + [Update(key, value, v)])
  {
    CounterIsVersion(ns, w, key);
  }

  lemma OtherKeyKept(ns: Namespace, w: LeaderState, w': LeaderState, key: string, value: string, v: nat, k: string)
    requires Plain(ns, key) && k in w.local && KeyOk(ns, w, k) && k != key
    requires w'.store == w.store[VersionKey(ns, key) := Counter(v)][ConfigKey(ns, key) := Text(value)]
    requires k in w'.local && w'.local[k] == w.local[k]
    ensures KeyOk(ns, w', k)
  {
    DistinctKeys(ns, key, k);
    DistinctKeys(ns, k, key);
    Elsewhere(w.store, VersionKey(ns, key), Counter(v), ConfigKey(ns, key), Text(value), ConfigKey(ns, k));
    Elsewhere(w.store, VersionKey(ns, key), Counter(v), ConfigKey(ns, key), Text(value), VersionKey(ns, k));
  }

  lemma Elsewhere(store: Store, a: string, x: Value, b: string, y: Value, c: string)
    requires c != a && c != b && c in store
    ensures c in store[a := x][b := y] && store[a := x][b := y][c] == store[c]
  {
  }

  lemma WrittenKeyOk(ns: Namespace, w: LeaderState, key: string, value: string)
    requires StoreOk(ns, w) && Plain(ns, key)
    ensures key in Write(ns, w, key, value).local && KeyOk(ns, Write(ns, w, key, value), key)
  {
    WriteEffect(ns, w, key, value);
    DistinctKeys(ns, key, key);
  }

  lemma PlainStoreKept(ns: Namespace, store: Store, key: string, value: string, v: nat)
    requires PlainStore(ns, store) && Plain(ns, key)
    ensures PlainStore(ns, store[VersionKey(ns, key) := Counter(v)][ConfigKey(ns, key) := Text(value)])
  {
    DistinctKeys(ns, key, key);
    KeySplit(ns);
  }

  lemma WriteKeepsStore(ns: Namespace, w: LeaderState, key: string, value: string)
    requires StoreOk(ns, w) && Plain(ns, key)
    ensures StoreOk(ns, Write(ns, w, key, value))
  {
    var w' := Write(ns, w, key, value);
    WriteEffect(ns, w, key, value);
    var v: nat := Get(w.local, key).version + 1;
    PlainStoreKept(ns, w.store, key, value, v);
    forall k | k in w'.local ensures KeyOk(ns, w', k) {
      if k == key { WrittenKeyOk(ns, w, key, value); } else { OtherKeyKept(ns, w, w', key, value, v, k); }
    }
    forall raw | raw in w'.store ensures Accounted(ns, w', raw) {
      RawAccounted(ns, w, w', key, raw);
    }
  }

  lemma RawAccounted(ns: Namespace, w: LeaderState, w': LeaderState, key: string, raw: string)
    requires w.local.Keys <= w'.local.Keys && key in w'.local
    requires raw == VersionKey(ns, key) || raw == ConfigKey(ns, key) || Accounted(ns, w, raw)
    ensures Accounted(ns, w', raw)
  {
    if Accounted(ns, w, raw) {
      var k :| k in w.local && (raw == ConfigKey(ns, k) || raw == VersionKey(ns, k));
      assert k in w'.local;
    }
  }

  lemma WriteKeepsLog(ns: Namespace, w: LeaderState, key: string, value: string)
    requires StoreOk(ns, w) && LogOk(w) && Plain(ns, key)
    ensures LogOk(Write(ns, w, key, value))
  {
    WriteEffect(ns, w, key, value);
    LogGrows(w.local, w.published, Write(ns, w, key, value), key, value);
  }

  lemma LogGrows(local: Local, log: seq<Update>, w': LeaderState, key: string, value: string)
    requires LogOk(Leader(map[], local, log))
    requires var v := Get(local, key).version + 1;
      w'.local == local[key := Entry(value, v)] && w'.published == log + [Update(key, value, v)]
    requires key in local ==> local[key].version > 0
    ensures LogOk(w')
  {
    var v := Get(local, key).version + 1;
    var last := Update(key, value, v);
    assert last in w'.published by { assert w'.published[|log|] == last; }
    forall u | u in log ensures u in w'.published {
      var i :| 0 <= i < |log| && log[i] == u;
      assert w'.published[i] == u;
    }
  }

  lemma {:induction false} WriterInvariant(ns: Namespace, sets: seq<Setting>)
    requires forall s :: s in sets ==> Plain(ns, s.key)
    ensures StoreOk(ns, WriteAll(ns, BLANK, sets)) && LogOk(WriteAll(ns, BLANK, sets))
  {
    if sets != [] {
      var init, last := sets[..|sets| - 1], sets[|sets| - 1];
      WriterInvariant(ns, init);
      WriteKeepsStore(ns, WriteAll(ns, BLANK, init), last.key, last.value);
      WriteKeepsLog(ns, WriteAll(ns, BLANK, init), last.key, last.value);
    }
  }

  /** How often a key is written, and with which value last. */
  function Writes(sets: seq<Setting>, key: string): nat {
    if sets == [] then 0 else Writes(sets[..|sets| - 1], key) + if sets[|sets| - 1].key == key then 1 else 0
  }

  function LastValue(sets: seq<Setting>, key: string): string {
    if sets == [] then ""
    else if sets[|sets| - 1].key == key then sets[|sets| - 1].value
    else LastValue(sets[..|sets| - 1], key)
  }

  /** What writes amount to: a plain key holds its last value, and its version is the number of its writes. */
  lemma {:induction false} WritesCounted(ns: Namespace, sets: seq<Setting>, key: string)
    requires forall s :: s in sets ==> Plain(ns, s.key)
    ensures Get(WriteAll(ns, BLANK, sets).local, key) == Entry(LastValue(sets, key), Writes(sets, key))
    ensures key in WriteAll(ns, BLANK, sets).local <==> Writes(sets, key) > 0
  {
    if sets != [] {
      var init, last := sets[..|sets| - 1], sets[|sets| - 1];
      WritesCounted(ns, init, key);
      WriterInvariant(ns, init);
      WriteEffect(ns, WriteAll(ns, BLANK, init), last.key, last.value);
    }
  }

  /** What the last of some plain writes adds to the log. */
  lemma LastPublished(ns: Namespace, sets: seq<Setting>)
    requires sets != [] && forall s :: s in sets ==> Plain(ns, s.key)
    ensures var init, last := sets[..|sets| - 1], sets[|sets| - 1];
      WriteAll(ns, BLANK, sets).published
        == WriteAll(ns, BLANK, init).published + [Update(last.key, last.value, Writes(sets, last.key))]
  {
    var init, last := sets[..|sets| - 1], sets[|sets| - 1];
    WriterInvariant(ns, init);
    WritesCounted(ns, init, last.key);
    WriteEffect(ns, WriteAll(ns, BLANK, init), last.key, last.value);
  }

  /** Every write is published once, in order, with its own value and the number of writes of its key so far. */
  lemma {:induction false} WritesPublished(ns: Namespace, sets: seq<Setting>, i: nat)
    requires i < |sets| && forall s :: s in sets ==> Plain(ns, s.key)
    ensures var log := WriteAll(ns, BLANK, sets).published;
      |log| == |sets| && log[i] == Update(sets[i].key, sets[i].value, Writes(sets[..i + 1], sets[i].key))
  {
    var n := |sets| - 1;
    LastPublished(ns, sets);
    if n > 0 { WritesPublished(ns, sets[..n], if i < n then i else 0); } else { assert sets[..n] == []; }
    if i < n { assert sets[..n][..i + 1] == sets[..i + 1]; } else { assert sets[..i + 1] == sets; }
  }

  lemma StoredIsCached(ns: Namespace, w: LeaderState, key: string)
    requires StoreOk(ns, w)
    ensures key in ShortKeys(ns, w.store) <==> key in w.local
    ensures key in w.local ==> Pulled(ns, w.store)[key] == w.local[key]
  {
    if key in w.local { assert KeyOk(ns, w, key); }
    if key in ShortKeys(ns, w.store) {
      assert Accounted(ns, w, ConfigKey(ns, key));
      var k :| k in w.local && (ConfigKey(ns, key) == ConfigKey(ns, k) || ConfigKey(ns, key) == VersionKey(ns, k));
      DistinctKeys(ns, k, key);
    }
  }

  lemma StoreRoundTrip(ns: Namespace, w: LeaderState)
    requires StoreOk(ns, w)
    ensures Pulled(ns, w.store) == w.local
  {
    var p := Pulled(ns, w.store);
    forall key ensures key in p <==> key in w.local { StoredIsCached(ns, w, key); }
    forall key | key in p ensures key in w.local && p[key] == w.local[key] { StoredIsCached(ns, w, key); }
    SameMap(p, w.local);
  }

  lemma SameMap(a: Local, b: Local)
    requires (forall key :: key in a <==> key in b) && (forall key :: key in a ==> a[key] == b[key])
    ensures a == b
  {
  }

  lemma {:induction false} CachedForever(ns: Namespace, w: LeaderState, sets: seq<Setting>, key: string)
    requires key in w.local
    ensures key in WriteAll(ns, w, sets).local
  {
    if sets != [] { CachedForever(ns, w, sets[..|sets| - 1], key); }
  }

  lemma {:induction false} WriteAllSplit(ns: Namespace, w: LeaderState, a: seq<Setting>, b: seq<Setting>)
    ensures WriteAll(ns, w, a + b) == WriteAll(ns, WriteAll(ns, w, a), b)
  {
    if b == [] {
      assert a + b == a;
    } else {
      var n := |b| - 1;
      assert (a + b)[..|a + b| - 1] == a + b[..n];
      WriteAllSplit(ns, w, a, b[..n]);
    }
  }

  /** The first key that looks like a version counter is accepted and cached by the writer. */
  lemma OddKeyAccepted(ns: Namespace, w: LeaderState, key: string, value: string)
    requires StoreOk(ns, w) && !Plain(ns, key)
    ensures key in Write(ns, w, key, value).local
  {
    assert ns.prefix + ns.tag <= VersionKey(ns, key);
    assert ns.prefix <= VersionKey(ns, key);
  }

  /** Round trip: a full pull rebuilds exactly the writer's cache, for every sequence of writes to plain keys. */
  lemma PullRecoversWriter(ns: Namespace, sets: seq<Setting>)
    requires forall s :: s in sets ==> Plain(ns, s.key)
    ensures PlainStore(ns, WriteAll(ns, BLANK, sets).store)
    ensures Pulled(ns, WriteAll(ns, BLANK, sets).store) == WriteAll(ns, BLANK, sets).local
  {
    WriterInvariant(ns, sets);
    StoreRoundTrip(ns, WriteAll(ns, BLANK, sets));
  }

  lemma {:induction false} FirstOdd(ns: Namespace, sets: seq<Setting>, s: Setting) returns (i: nat)
    requires s in sets && !Plain(ns, s.key)
    ensures i < |sets| && !Plain(ns, sets[i].key) && forall t :: t in sets[..i] ==> Plain(ns, t.key)
  {
    i :| 0 <= i < |sets| && sets[i] == s;
    if j :| 0 <= j < i && !Plain(ns, sets[j].key) {
      assert sets[..i][j] == sets[j];
      var k := FirstOdd(ns, sets[..i], sets[j]);
      assert sets[..i][..k] == sets[..k];
      i := k;
    }
  }

  /** And only then: one key beginning with `version:` is cached by the writer but never pulled. */
  lemma OddKeysAreLost(ns: Namespace, sets: seq<Setting>, s: Setting) returns (key: string)
    requires s in sets && !Plain(ns, s.key)
    ensures key in WriteAll(ns, BLANK, sets).local && key !in ShortKeys(ns, WriteAll(ns, BLANK, sets).store)
  {
    var i := FirstOdd(ns, sets, s);
    key := sets[i].key;
    WriterInvariant(ns, sets[..i]);
    OddKeyAccepted(ns, WriteAll(ns, BLANK, sets[..i]), key, sets[i].value);
    WrittenStaysCached(ns, sets, i);
  }

  lemma WrittenStaysCached(ns: Namespace, sets: seq<Setting>, i: nat)
    requires i < |sets| && sets[i].key in Write(ns, WriteAll(ns, BLANK, sets[..i]), sets[i].key, sets[i].value).local
    ensures sets[i].key in WriteAll(ns, BLANK, sets).local
  {
    assert sets[..i + 1][..i] == sets[..i];
    CachedForever(ns, WriteAll(ns, BLANK, sets[..i + 1]), sets[i + 1..], sets[i].key);
    WriteAllSplit(ns, BLANK, sets[..i + 1], sets[i + 1..]);
    assert sets == sets[..i + 1] + sets[i + 1..];
  }

  // ---------------------------------------------------------------- convergence

  /** Versions in the cache never fall, and end at the newest update offered. */
  lemma {:induction false} NewestWins(l: Local, us: seq<Update>, key: string)
    ensures var r := Get(ApplyAll(l, us), key);
      && r.version >= Get(l, key).version
      && (forall u :: u in us && u.key == key ==> r.version >= u.version)
      && (r == Get(l, key) || (r.version > Get(l, key).version && Update(key, r.value, r.version) in us))
  {
    if us != [] { NewestWins(l, us[..|us| - 1], key); }
  }

  /** All that is cached came from the writer. */
  ghost predicate FromWriter(l: Local, log: seq<Update>) {
    forall key :: key in l ==> Update(key, l[key].value, l[key].version) in log
  }

  lemma {:induction false} AppliedKeys(l: Local, us: seq<Update>, key: string)
    requires key in ApplyAll(l, us)
    ensures key in l || exists u :: u in us && u.key == key
  {
    if us != [] {
      var init, last := us[..|us| - 1], us[|us| - 1];
      if key in ApplyAll(l, init) {
        AppliedKeys(l, init, key);
        assert forall u :: u in init ==> u in us;
      } else {
        assert last in us && last.key == key;
      }
    }
  }

  /** A cache fed from the writer's log holds the writer's entry exactly if it had it or its last update came. */
  lemma HoldsLast(w: LeaderState, l: Local, us: seq<Update>, key: string)
    requires LogOk(w) && FromWriter(l, w.published) && (forall u :: u in us ==> u in w.published)
    ensures key in w.local ==>
      (Get(ApplyAll(l, us), key) == w.local[key] <==>
        Update(key, w.local[key].value, w.local[key].version) in us || Get(l, key) == w.local[key])
    ensures key in ApplyAll(l, us) ==> key in w.local
  {
    if key in w.local {
      NewestWins(l, us, key);
      var r, best := Get(ApplyAll(l, us), key), w.local[key];
      assert Update(key, best.value, best.version) in w.published && best.version > 0;
      assert r.version > 0 ==> Update(key, r.value, r.version) in w.published;
    }
    if key in ApplyAll(l, us) { AppliedKeys(l, us, key); }
  }

  lemma {:induction false} PublishedGrows(ns: Namespace, w: LeaderState, sets: seq<Setting>)
    ensures w.published <= WriteAll(ns, w, sets).published
  {
    if sets != [] { PublishedGrows(ns, w, sets[..|sets| - 1]); }
  }

  lemma OneMoreWrite(ns: Namespace, w: LeaderState, s: Setting, key: string)
    requires StoreOk(ns, w) && Plain(ns, s.key)
    ensures var w' := Write(ns, w, s.key, s.value);
      StoreOk(ns, w') && Get(w'.local, key).version == Get(w.local, key).version + (if s.key == key then 1 else 0)
      && (s.key != key ==> Get(w'.local, key) == Get(w.local, key))
  {
    WriteEffect(ns, w, s.key, s.value);
    WriteKeepsStore(ns, w, s.key, s.value);
  }

  /** Later writes leave a key's entry alone exactly if none of them is to that key. */
  lemma {:induction false} EntryKept(ns: Namespace, w: LeaderState, sets: seq<Setting>, key: string)
    requires StoreOk(ns, w) && forall s :: s in sets ==> Plain(ns, s.key)
    ensures StoreOk(ns, WriteAll(ns, w, sets))
    ensures Get(WriteAll(ns, w, sets).local, key).version >= Get(w.local, key).version
    ensures Get(WriteAll(ns, w, sets).local, key) == Get(w.local, key) <==> forall s :: s in sets ==> s.key != key
  {
    if sets != [] {
      var init, last := sets[..|sets| - 1], sets[|sets| - 1];
      assert forall s :: s in sets <==> s in init || s == last by { assert sets == init + [last]; }
      EntryKept(ns, w, init, key);
      OneMoreWrite(ns, WriteAll(ns, w, init), last, key);
    }
  }

  /** What reaches a follower: a message of the `config_updates` channel, or a SyncConfig stream of some caller. */
  datatype Arrival = Message(update: Update) | Stream(entries: seq<Update>)

  ghost function Receive(l: Local, arrivals: seq<Arrival>): Local {
    if arrivals == [] then l
    else
      var before, last := Receive(l, arrivals[..|arrivals| - 1]), arrivals[|arrivals| - 1];
      match last
      case Message(u) => Apply(before, u)
      case Stream(es) => ServeAll(before, es).0
  }

  ghost function Updates(arrivals: seq<Arrival>): seq<Update> {
    if arrivals == [] then []
    else
      var last := arrivals[|arrivals| - 1];
      Updates(arrivals[..|arrivals| - 1]) + match last case Message(u) => [u] case Stream(es) => es
  }

  lemma {:induction false} ApplyAllSplit(l: Local, us: seq<Update>, vs: seq<Update>)
    ensures ApplyAll(l, us + vs) == ApplyAll(ApplyAll(l, us), vs)
  {
    if vs == [] {
      assert us + vs == us;
    } else {
      var n := |vs| - 1;
      assert (us + vs)[..|us + vs| - 1] == us + vs[..n];
      ApplyAllSplit(l, us, vs[..n]);
    }
  }

  /** Serving a SyncConfig stream ingests like the channel does. */
  lemma {:induction false} ServeApplies(l: Local, es: seq<Update>)
    ensures ServeAll(l, es).0 == ApplyAll(l, es)
  {
    if es != [] { ServeApplies(l, es[..|es| - 1]); }
  }

  lemma {:induction false} ReceiveApplies(l: Local, arrivals: seq<Arrival>)
    ensures Receive(l, arrivals) == ApplyAll(l, Updates(arrivals))
  {
    if arrivals != [] {
      var init, last := arrivals[..|arrivals| - 1], arrivals[|arrivals| - 1];
      ReceiveApplies(l, init);
      match last {
        case Message(u) =>
          ApplyAllSplit(l, Updates(init), [u]);
          assert ApplyAll(ApplyAll(l, Updates(init)), [u]) == Apply(ApplyAll(l, Updates(init)), u) by {
            assert [u][..0] == [];
          }
        case Stream(es) =>
          ApplyAllSplit(l, Updates(init), es);
          ServeApplies(Receive(l, init), es);
      }
    }
  }

  lemma PulledFromWriter(ns: Namespace, a: seq<Setting>, b: seq<Setting>)
    requires forall s :: s in a + b ==> Plain(ns, s.key)
    ensures LogOk(WriteAll(ns, BLANK, a + b))
    ensures FromWriter(WriteAll(ns, BLANK, a).local, WriteAll(ns, BLANK, a + b).published)
  {
    assert forall s :: s in a ==> s in a + b;
    WriterInvariant(ns, a + b);
    WriterInvariant(ns, a);
    WriteAllSplit(ns, BLANK, a, b);
    PublishedGrows(ns, WriteAll(ns, BLANK, a), b);
  }

  /**
   * Convergence, end to end: a follower pulls after the writes a, and while or after the writes b are made it
   * receives updates of the writer's log over either path, in any order, with repeats and gaps. It holds the
   * writer's own entry for a key exactly if the key was not written after the pull or its last update came.
   */
  lemma FollowerConverges(ns: Namespace, a: seq<Setting>, b: seq<Setting>, arrivals: seq<Arrival>, key: string)
    requires forall s :: s in a + b ==> Plain(ns, s.key)
    requires forall u :: u in Updates(arrivals) ==> u in WriteAll(ns, BLANK, a + b).published
    ensures PlainStore(ns, WriteAll(ns, BLANK, a).store)
    ensures var w := WriteAll(ns, BLANK, a + b);
      var f := Receive(Pulled(ns, WriteAll(ns, BLANK, a).store), arrivals);
      && (key in w.local ==>
           (Get(f, key) == w.local[key] <==>
             (forall s :: s in b ==> s.key != key)
             || Update(key, w.local[key].value, w.local[key].version) in Updates(arrivals)))
      && (key in f ==> key in w.local)
  {
    assert forall s :: s in a ==> s in a + b;
    assert forall s :: s in b ==> s in a + b;
    var w1, w := WriteAll(ns, BLANK, a), WriteAll(ns, BLANK, a + b);
    PullRecoversWriter(ns, a);
    ReceiveApplies(w1.local, arrivals);
    PulledFromWriter(ns, a, b);
    HoldsLast(w, w1.local, Updates(arrivals), key);
    WriterInvariant(ns, a);
    WriteAllSplit(ns, BLANK, a, b);
    EntryKept(ns, w1, b, key);
  }

  /** The loop pulls before it subscribes: an update made in between stays unknown to the follower. */
  lemma MissedUpdate(ns: Namespace, a: seq<Setting>, late: Setting)
    requires Plain(ns, late.key) && forall s :: s in a ==> Plain(ns, s.key)
    ensures var w := WriteAll(ns, BLANK, a + [late]);
      && PlainStore(ns, WriteAll(ns, BLANK, a).store) && late.key in w.local
      && Get(Receive(Pulled(ns, WriteAll(ns, BLANK, a).store), []), late.key) != w.local[late.key]
  {
    assert (a + [late])[..|a|] == a && late in [late];
    WriterInvariant(ns, a);
    WriteEffect(ns, WriteAll(ns, BLANK, a), late.key, late.value);
    FollowerConverges(ns, a, [late], [], late.key);
  }

  /** Order and repetition do not matter: the same set of updates gives the same cache. */
  lemma OrderIrrelevant(l: Local, us: seq<Update>, vs: seq<Update>, key: string)
    requires Consistent(us) && (forall u :: u in us <==> u in vs)
    ensures Get(ApplyAll(l, us), key) == Get(ApplyAll(l, vs), key)
  {
    NewestWins(l, us, key);
    NewestWins(l, vs, key);
  }

  // ------------------------------------------------------------ SyncConfig exchange

  /** What a caller sends for the given keys. */
  function Offer(l: Local, keys: seq<string>): seq<Update> {
    seq(|keys|, i requires 0 <= i < |keys| => Update(keys[i], Get(l, keys[i]).value, Get(l, keys[i]).version))
  }

  function Newer(mine: Entry, theirs: Entry): Entry { if theirs.version > mine.version then theirs else mine }

  lemma {:induction false} ServeState(c: Local, s: Local, keys: seq<string>, key: string)
    ensures Get(ServeAll(s, Offer(c, keys)).0, key) ==
      if key in keys then Newer(Get(s, key), Get(c, key)) else Get(s, key)
  {
    if keys != [] {
      var init := keys[..|keys| - 1];
      assert Offer(c, keys)[..|keys| - 1] == Offer(c, init);
      ServeState(c, s, init, key);
      ServeState(c, s, init, keys[|keys| - 1]);
    }
  }

  /** Replies are the server's newer entries, each exactly for a key that was offered older. */
  lemma {:induction false} ServeReplies(c: Local, s: Local, keys: seq<string>, u: Update)
    ensures u in ServeAll(s, Offer(c, keys)).1 <==>
      u.key in keys && Get(s, u.key).version > Get(c, u.key).version && Entry(u.value, u.version) == Get(s, u.key)
  {
    if keys != [] {
      var init, k := keys[..|keys| - 1], keys[|keys| - 1];
      assert Offer(c, keys)[..|keys| - 1] == Offer(c, init);
      ServeReplies(c, s, init, u);
      ServeState(c, s, init, k);
    }
  }

  /** The exchange settles every key sent, exactly unless one version carries two values; other keys are untouched. */
  lemma ExchangeAgrees(c: Local, s: Local, keys: seq<string>, key: string)
    ensures var (s', replies) := ServeAll(s, Offer(c, keys));
      var c' := ApplyAll(c, replies);
      && (key in keys ==>
           (Get(c', key) == Get(s', key) <==>
             (Get(c, key).version == Get(s, key).version ==> Get(c, key) == Get(s, key))))
      && (key in keys ==> Get(c', key) == Newer(Get(c, key), Get(s, key)))
      && (key in keys ==> Get(s', key) == Newer(Get(s, key), Get(c, key)))
      && (key !in keys ==> Get(c', key) == Get(c, key) && Get(s', key) == Get(s, key))
  {
    var (s', replies) := ServeAll(s, Offer(c, keys));
    var mine := Get(s, key);
    ServeState(c, s, keys, key);
    NewestWins(c, replies, key);
    var r := Get(ApplyAll(c, replies), key);
    ServeReplies(c, s, keys, Update(key, r.value, r.version));
    ServeReplies(c, s, keys, Update(key, mine.value, mine.version));
  }
}

/**
 * The sharded answer cache: lookups, insertion with lazy eviction, serve-stale window
 * and flush, proved to behave as one flat map that forgets entries only by eviction.
 */
module ShardedCache {
  import opened Bytes

  datatype Key = Key(owner: seq<Byte>, qtype: Word, qclass: Word, checkingDisabled: bool, route: nat)

  datatype Entry = Entry(
    rcode: nat, answer: seq<Byte>, inserted: int, expiresAt: int, staleUntil: int,
    secure: bool, ifindex: Option<int>, scope: nat, gen: nat)

  datatype Answer = Fresh(entry: Entry) | Stale(entry: Entry) | Miss

  predicate IsFresh(e: Entry, now: int) { now < e.expiresAt }

  predicate IsServableStale(e: Entry, now: int) { e.expiresAt <= now < e.staleUntil }

  predicate Servable(e: Entry, now: int) { IsFresh(e, now) || IsServableStale(e, now) }

  /** How long an answer may be kept at most: NXDOMAIN 1800 seconds, NOERROR 3600, the rest a day. */
  function LongestLife(rcode: nat): nat { if rcode == 3 then 1800 else if rcode == 0 then 3600 else 86400 }

  /** The lifetime asked for, but at least a second and at most the longest allowed. */
  function ClampTtl(ttl: nat, rcode: nat): (r: nat)
    ensures 1 <= r && (rcode == 3 ==> r <= 1800) && (rcode == 0 ==> r <= 3600) && r <= 86400 && r <= Max(ttl, 1)
    ensures r == ttl || ttl == 0 || r == 86400 || (rcode == 0 && r == 3600) || (rcode == 3 && r == 1800)
  {
    Min(Max(ttl, 1), LongestLife(rcode))
  }

  // ----- The flat reference model ----------------------------------------------

  type Table = map<Key, Entry>

  function FlatLookup(t: Table, key: Key, now: int): Answer {
    if key !in t then Miss
    else if IsFresh(t[key], now) then Fresh(t[key])
    else if IsServableStale(t[key], now) then Stale(t[key])
    else Miss
  }

  function NewEntry(rcode: nat, answer: seq<Byte>, ttl: nat, secure: bool, ifindex: Option<int>, scope: nat,
                    now: int, window: nat, gen: nat): Entry
  {
    var life := ClampTtl(ttl, rcode);
    Entry(rcode, answer, now, now + life, now + life + window, secure, ifindex, scope, gen)
  }

  function Restale(t: Table, window: nat): (r: Table)
    ensures r.Keys == t.Keys
  {
    map k | k in t :: t[k].(staleUntil := t[k].expiresAt + window)
  }

  // ----- Eviction ---------------------------------------------------------------

  predicate Submap(a: Table, b: Table) {
    a.Keys <= b.Keys && forall k | k in a :: a[k] == b[k]
  }

  predicate DistinctGens(t: Table) {
    forall j, k | j in t && k in t && j != k :: t[j].gen != t[k].gen
  }

  /** Servable entries go only when no unservable one is left, and then the oldest first. */
  predicate EvictsRightly(t: Table, kept: Table, now: int) {
    && Submap(kept, t)
    && forall gone, k | gone in t && gone !in kept && Servable(t[gone], now) && k in kept ::
         Servable(t[k], now) && t[gone].gen < t[k].gen
  }

  /** `evict_expired_or_oldest`, for every iteration order of the map. */
  method Evict(t: Table, now: int, budget: nat) returns (kept: Table)
    requires DistinctGens(t)
    ensures |kept| == |t| - Min(budget, |t|)
    ensures EvictsRightly(t, kept, now)
  {
    kept := DropUnservable(t, now, budget);
    var removed := |t| - |kept|;
    if removed >= budget || kept == map[] { return; }
    ghost var first := kept;
    while removed < budget && kept != map[]
      invariant Submap(kept, first) && removed <= budget && |kept| == |t| - removed
      invariant forall gone, k | gone in first && gone !in kept && k in kept :: t[gone].gen < t[k].gen
      decreases |kept|
    {
      var oldest := Oldest(kept);
      RemoveSize(kept, oldest);
      kept := kept - {oldest};
      removed := removed + 1;
    }
  }

  lemma RemoveSize(t: Table, k: Key)
    requires k in t
    ensures |t - {k}| == |t| - 1
  {
    assert (t - {k}).Keys == t.Keys - {k};
  }

  /** The first pass: unservable entries, up to the budget. */
  method DropUnservable(t: Table, now: int, budget: nat) returns (kept: Table)
    ensures Submap(kept, t) && |t| - budget <= |kept| <= |t|
    ensures forall k | k in t && k !in kept :: !Servable(t[k], now)
    ensures |t| - |kept| < budget ==> forall k | k in kept :: Servable(t[k], now)
  {
    kept := t;
    var removed, rest := 0, t.Keys;
    while rest != {}
      invariant Submap(kept, t) && rest <= kept.Keys
      invariant removed <= budget && |kept| == |t| - removed
      invariant forall k | k in t && k !in kept :: !Servable(t[k], now)
      invariant removed < budget ==> forall k | k in kept && k !in rest :: Servable(t[k], now)
      decreases |rest|
    {
      var k :| k in rest;
      rest := rest - {k};
      if removed < budget && !IsFresh(t[k], now) && !IsServableStale(t[k], now) {
        RemoveSize(kept, k);
        kept := kept - {k};
        removed := removed + 1;
      }
    }
  }

  method Oldest(t: Table) returns (oldest: Key)
    requires t != map[]
    ensures oldest in t && forall k | k in t :: t[oldest].gen <= t[k].gen
  {
    var rest := t.Keys;
    oldest :| oldest in t;
    while rest != {}
      invariant rest <= t.Keys && oldest in t
      invariant forall k | k in t && k !in rest :: t[oldest].gen <= t[k].gen
      decreases |rest|
    {
      var k :| k in rest;
      rest := rest - {k};
      if t[k].gen < t[oldest].gen { oldest := k; }
    }
  }

  // ----- The sharded form --------------------------------------------------------

  /** Every entry lives in the shard of its key, and the shards hold what the flat table holds. */
  ghost predicate Placed(home: Key -> nat, shards: seq<Table>, flat: Table) {
    && (forall i, k | 0 <= i < |shards| && k in shards[i] :: home(k) == i && k in flat && flat[k] == shards[i][k])
    && (forall k | k in flat :: home(k) < |shards| && k in shards[home(k)])
  }

  ghost predicate Windowed(t: Table, window: nat) {
    forall k | k in t :: t[k].staleUntil == t[k].expiresAt + window
  }

  ghost predicate Aged(t: Table, gen: nat) {
    DistinctGens(t) && forall k | k in t :: t[k].gen < gen
  }

  /** No shard exceeds the limit, and each live counter is off by exactly the evictions since the last flush. */
  ghost predicate Accounted(shards: seq<Table>, live: seq<nat>, evicted: seq<nat>, limit: nat) {
    && |shards| == |live| == |evicted|
    && forall i | 0 <= i < |shards| :: |shards[i]| <= limit && live[i] == |shards[i]| + evicted[i]
  }

  lemma PlacedInsert(home: Key -> nat, shards: seq<Table>, flat: Table, key: Key, e: Entry, kept: Table)
    requires Placed(home, shards, flat) && home(key) < |shards| && Submap(kept, shards[home(key)])
    ensures var removed := shards[home(key)].Keys - kept.Keys;
            Placed(home, shards[home(key) := kept[key := e]], (flat - removed)[key := e])
  {
    var h, removed := home(key), shards[home(key)].Keys - kept.Keys;
    var after, table := shards[h := kept[key := e]], (flat - removed)[key := e];
    forall i, k | 0 <= i < |after| && k in after[i] ensures home(k) == i && k in table && table[k] == after[i][k] {
      if k != key { assert k in shards[i]; }
    }
    forall k | k in table ensures home(k) < |after| && k in after[home(k)] {
      if k != key { assert k in flat && k in shards[home(k)]; }
    }
  }

  lemma AgedInsert(flat: Table, removed: set<Key>, key: Key, e: Entry, gen: nat)
    requires Aged(flat, gen) && e.gen == gen
    ensures Aged((flat - removed)[key := e], gen + 1)
  {
  }

  lemma WindowedInsert(flat: Table, removed: set<Key>, key: Key, e: Entry, window: nat)
    requires Windowed(flat, window) && e.staleUntil == e.expiresAt + window
    ensures Windowed((flat - removed)[key := e], window)
  {
  }

  lemma ShardDistinct(home: Key -> nat, shards: seq<Table>, flat: Table, i: nat)
    requires Placed(home, shards, flat) && DistinctGens(flat) && i < |shards|
    ensures DistinctGens(shards[i])
  {
    forall j, k | j in shards[i] && k in shards[i] && j != k ensures shards[i][j].gen != shards[i][k].gen {
      assert flat[j] == shards[i][j] && flat[k] == shards[i][k];
    }
  }

  lemma InsertSize(t: Table, key: Key, e: Entry)
    ensures |t[key := e]| == |t| + if key in t then 0 else 1
  {
    if key in t {
      assert t[key := e].Keys == t.Keys;
    } else {
      assert t[key := e].Keys == t.Keys + {key};
    }
  }

  /** How many entries an insertion evicts from a shard of the given size. */
  function Excess(size: nat, limit: nat): (n: nat)
    ensures n <= size && n <= limit / 16 + 1 && (size < limit ==> n == 0)
    ensures size >= limit ==> n == size || n == limit / 16 + 1
  {
    if size >= limit then Min(limit / 16 + 1, size) else 0
  }

  /** The entries of a table that live in one shard. */
  function PartOf(home: Key -> nat, t: Table, i: nat): Table { map k | k in t && home(k) == i :: t[k] }

  /**
   * An insertion evicts from the part of the table with the inserted key's home: unservable entries
   * first, then the oldest, and exactly as many as that part has in excess.
   */
  predicate RemovesRightly(home: Key -> nat, t: Table, key: Key, removed: set<Key>, now: int, limit: nat) {
    var part := PartOf(home, t, home(key));
    removed <= part.Keys && EvictsRightly(part, part - removed, now) && |removed| == Excess(|part|, limit)
  }

  /** What is not full loses nothing. */
  lemma RoomyLosesNothing(home: Key -> nat, t: Table, key: Key, removed: set<Key>, now: int, limit: nat)
    requires RemovesRightly(home, t, key, removed, now, limit) && |PartOf(home, t, home(key))| < limit
    ensures removed == {}
  {
  }

  lemma PartIsShard(home: Key -> nat, shards: seq<Table>, flat: Table, i: nat)
    requires Placed(home, shards, flat) && i < |shards|
    ensures PartOf(home, flat, i) == shards[i]
  {
    var part := PartOf(home, flat, i);
    forall k ensures k in part <==> k in shards[i] {
      if k in part { assert k in flat && k in shards[home(k)]; }
    }
    assert part.Keys == shards[i].Keys;
  }

  lemma ShardRemoval(home: Key -> nat, shards: seq<Table>, flat: Table, key: Key, removed: set<Key>, now: int, limit: nat)
    requires Placed(home, shards, flat) && home(key) < |shards| && removed <= shards[home(key)].Keys
    requires EvictsRightly(shards[home(key)], shards[home(key)] - removed, now)
    requires |removed| == Excess(|shards[home(key)]|, limit)
    ensures RemovesRightly(home, flat, key, removed, now, limit)
  {
    PartIsShard(home, shards, flat, home(key));
  }

  lemma RoomForOne(size: nat, limit: nat)
    requires size <= Max(1, limit)
    ensures Excess(size, limit) <= size && size - Excess(size, limit) + 1 <= Max(1, limit)
  {
  }

  /** Evicts from a full shard before an insertion, and tells whether the key is new to what remains. */
  method MakeRoom(shard: Table, key: Key, now: int, limit: nat) returns (kept: Table, isNew: bool)
    requires DistinctGens(shard)
    ensures EvictsRightly(shard, kept, now) && kept == shard - (shard.Keys - kept.Keys)
    ensures |shard.Keys - kept.Keys| == |shard| - |kept| == Excess(|shard|, limit)
    ensures isNew <==> key !in kept
  {
    kept := shard;
    if |shard| >= limit { kept := Evict(shard, now, limit / 16 + 1); }
    RemovedSize(shard, kept);
    assert kept == shard - (shard.Keys - kept.Keys);
    isNew := key !in kept;
  }

  lemma AccountedInsert(shards: seq<Table>, live: seq<nat>, evicted: seq<nat>, limit: nat, idx: nat, t: Table, isNew: bool, gone: nat)
    requires Accounted(shards, live, evicted, limit) && idx < |shards| && |t| <= limit
    requires |t| == |shards[idx]| - gone + if isNew then 1 else 0
    ensures Accounted(shards[idx := t], if isNew then live[idx := live[idx] + 1] else live,
                      evicted[idx := evicted[idx] + gone], limit)
  {
  }

  /** The insertion proper, on the shard maps and live counters as values. */
  method InsertShard(home: Key -> nat, shards: seq<Table>, live: seq<nat>, key: Key, entry: Entry, now: int, limit: nat,
                     ghost flat: Table, ghost evicted: seq<nat>, ghost window: nat, ghost gen: nat)
    returns (shards': seq<Table>, live': seq<nat>, ghost removed: set<Key>, ghost evicted': seq<nat>)
    requires home(key) < |shards| && Placed(home, shards, flat) && Windowed(flat, window) && Aged(flat, gen)
    requires Accounted(shards, live, evicted, Max(1, limit))
    requires entry.gen == gen && entry.staleUntil == entry.expiresAt + window
    ensures |shards'| == |shards| && Placed(home, shards', (flat - removed)[key := entry])
    ensures Windowed((flat - removed)[key := entry], window) && Aged((flat - removed)[key := entry], gen + 1)
    ensures Accounted(shards', live', evicted', Max(1, limit))
    ensures removed <= shards[home(key)].Keys && |removed| == Excess(|shards[home(key)]|, limit)
    ensures EvictsRightly(shards[home(key)], shards[home(key)] - removed, now)
  {
    var idx := home(key);
    ShardDistinct(home, shards, flat, idx);
    var kept, isNew := MakeRoom(shards[idx], key, now, limit);
    removed := shards[idx].Keys - kept.Keys;
    PlacedInsert(home, shards, flat, key, entry, kept);
    AgedInsert(flat, removed, key, entry, gen);
    WindowedInsert(flat, removed, key, entry, window);
    InsertSize(kept, key, entry);
    RoomForOne(|shards[idx]|, limit);
    AccountedInsert(shards, live, evicted, Max(1, limit), idx, kept[key := entry], isNew, |removed|);
    live' := if isNew then live[idx := live[idx] + 1] else live;
    evicted' := evicted[idx := evicted[idx] + |removed|];
    shards' := shards[idx := kept[key := entry]];
  }

  /** The shards one after the other, each entry with its new window. */
  method RestaleShards(home: Key -> nat, shards: seq<Table>, live: seq<nat>, ghost flat: Table, ghost evicted: seq<nat>,
                       window: nat, limit: nat) returns (shards': seq<Table>)
    requires Placed(home, shards, flat) && Accounted(shards, live, evicted, Max(1, limit))
    ensures |shards'| == |shards| && Placed(home, shards', Restale(flat, window))
    ensures Accounted(shards', live, evicted, Max(1, limit))
  {
    shards' := shards;
    for i := 0 to |shards|
      invariant |shards'| == |shards|
      invariant forall j | 0 <= j < |shards| :: shards'[j] == if j < i then Restale(shards[j], window) else shards[j]
    {
      shards' := shards'[i := Restale(shards'[i], window)];
    }
    RestalePlaced(home, shards, shards', flat, window);
  }

  class GlobalCache {
    const maxPerShard: nat
    const home: Key -> nat
    var shards: seq<Table>
    var live: seq<nat>
    var staleWindow: nat
    var gen: nat
    var hits: nat
    var staleHits: nat
    var misses: nat
    ghost var flat: Table
    ghost var evicted: seq<nat>

    ghost predicate Valid()
      reads this
    {
      && shards != [] && (forall k :: home(k) < |shards|)
      && Placed(home, shards, flat)
      && Windowed(flat, staleWindow)
      && Aged(flat, gen)
      && Accounted(shards, live, evicted, Max(1, maxPerShard))
    }

    constructor (shardCount: nat, maxPerShard: nat, staleWindow: nat, home: Key -> nat)
      requires shardCount > 0 && forall k :: home(k) < shardCount
      ensures Valid() && flat == map[] && |shards| == shardCount
      ensures this.maxPerShard == maxPerShard && this.staleWindow == staleWindow && this.home == home
    {
      this.maxPerShard, this.staleWindow, this.home := maxPerShard, staleWindow, home;
      shards, live := seq(shardCount, _ => map[]), seq(shardCount, _ => 0);
      evicted := seq(shardCount, _ => 0);
      gen, hits, staleHits, misses := 1, 0, 0, 0;
      flat := map[];
    }

    method Lookup(key: Key, now: int) returns (answer: Answer)
      requires Valid()
      modifies this`hits, this`staleHits, this`misses
      ensures Valid() && answer == FlatLookup(flat, key, now)
      ensures hits == old(hits) + (if answer.Fresh? then 1 else 0)
      ensures staleHits == old(staleHits) + (if answer.Stale? then 1 else 0)
      ensures misses == old(misses) + (if answer.Miss? then 1 else 0)
    {
      var shard := shards[home(key)];
      if key in shard && IsFresh(shard[key], now) {
        hits := hits + 1;
        return Fresh(shard[key]);
      }
      if key in shard && IsServableStale(shard[key], now) {
        staleHits := staleHits + 1;
        return Stale(shard[key]);
      }
      misses := misses + 1;
      return Miss;
    }

    /** `insert_with_scope`: only entries of the same shard are evicted, and only when it is full. */
    method InsertWithScope(key: Key, rcode: nat, answer: seq<Byte>, ttl: nat, secure: bool,
                           ifindex: Option<int>, scope: nat, now: int) returns (ghost removed: set<Key>)
      requires Valid()
      modifies this`shards, this`live, this`gen, this`flat, this`evicted
      ensures Valid() && |shards| == old(|shards|) && gen == old(gen) + 1
      ensures flat == (old(flat) - removed)[key := NewEntry(rcode, answer, ttl, secure, ifindex, scope, now, staleWindow, old(gen))]
      ensures RemovesRightly(home, old(flat), key, removed, now, maxPerShard)
    {
      var entry := NewEntry(rcode, answer, ttl, secure, ifindex, scope, now, staleWindow, gen);
      shards, live, removed, evicted := InsertShard(home, shards, live, key, entry, now, maxPerShard, flat, evicted, staleWindow, gen);
      ShardRemoval(home, old(shards), flat, key, removed, now, maxPerShard);
      flat := (flat - removed)[key := entry];
      gen := gen + 1;
    }

    method SetStaleWindow(window: nat)
      requires Valid()
      modifies this`shards, this`staleWindow, this`flat
      ensures Valid() && staleWindow == window && flat == Restale(old(flat), window)
      ensures |shards| == old(|shards|)
    {
      staleWindow := window;
      shards := RestaleShards(home, shards, live, flat, evicted, window, maxPerShard);
      RestaleAged(flat, window, gen);
      flat := Restale(flat, window);
    }

    method Flush()
      requires Valid()
      modifies this`shards, this`live, this`flat, this`evicted
      ensures Valid() && flat == map[] && |shards| == old(|shards|)
      ensures forall i | 0 <= i < |shards| :: live[i] == 0
    {
      for i := 0 to |shards|
        invariant |shards| == |live| == old(|shards|)
        invariant forall j | 0 <= j < i :: shards[j] == map[] && live[j] == 0
      {
        shards, live := shards[i := map[]], live[i := 0];
      }
      evicted := live;
      flat := map[];
    }

    /** `len`: the stored entries plus the evictions since the last flush. */
    method Len() returns (n: nat)
      requires Valid()
      ensures n == |flat| + Sum(evicted, |evicted|)
    {
      n := 0;
      for i := 0 to |live|
        invariant n == Sum(live, i)
      {
        n := n + live[i];
      }
      SumOfLive(shards, live, evicted, |shards|);
      FlatSize(home, shards, flat);
    }
  }

  lemma RemovedSize(t: Table, kept: Table)
    requires kept.Keys <= t.Keys
    ensures |t.Keys - kept.Keys| == |t| - |kept|
  {
  }

  lemma RestalePlaced(home: Key -> nat, before: seq<Table>, after: seq<Table>, flat: Table, window: nat)
    requires Placed(home, before, flat) && |after| == |before|
    requires forall j | 0 <= j < |after| :: after[j] == Restale(before[j], window)
    ensures Placed(home, after, Restale(flat, window))
    ensures forall j | 0 <= j < |after| :: |after[j]| == |before[j]|
  {
    forall j | 0 <= j < |after| ensures |after[j]| == |before[j]| {
      assert after[j].Keys == before[j].Keys;
    }
  }

  lemma RestaleAged(flat: Table, window: nat, gen: nat)
    requires Aged(flat, gen)
    ensures Aged(Restale(flat, window), gen) && Windowed(Restale(flat, window), window)
  {
  }

  ghost function Sum(s: seq<nat>, n: nat): nat
    requires n <= |s|
  {
    if n == 0 then 0 else Sum(s, n - 1) + s[n - 1]
  }

  ghost function SizeTo(shards: seq<Table>, n: nat): nat
    requires n <= |shards|
  {
    if n == 0 then 0 else SizeTo(shards, n - 1) + |shards[n - 1]|
  }

  ghost function KeysTo(shards: seq<Table>, n: nat): set<Key>
    requires n <= |shards|
  {
    if n == 0 then {} else KeysTo(shards, n - 1) + shards[n - 1].Keys
  }

  lemma {:induction false} SumOfLive(shards: seq<Table>, live: seq<nat>, evicted: seq<nat>, n: nat)
    requires n <= |shards| && |shards| == |live| == |evicted|
    requires forall i | 0 <= i < |shards| :: live[i] == |shards[i]| + evicted[i]
    ensures Sum(live, n) == SizeTo(shards, n) + Sum(evicted, n)
  {
    if n > 0 { SumOfLive(shards, live, evicted, n - 1); }
  }

  lemma {:induction false} KeyInShards(home: Key -> nat, shards: seq<Table>, n: nat, k: Key)
    requires n <= |shards| && forall i | 0 <= i < |shards| && k in shards[i] :: home(k) == i
    ensures k in KeysTo(shards, n) <==> home(k) < n && k in shards[home(k)]
  {
    if n > 0 { KeyInShards(home, shards, n - 1, k); }
  }

  lemma DisjointSize(a: set<Key>, b: set<Key>)
    requires forall k | k in b :: k !in a
    ensures |a + b| == |a| + |b|
  {
    assert a !! b;
  }

  lemma {:induction false} KeysToSize(home: Key -> nat, shards: seq<Table>, n: nat)
    requires n <= |shards| && forall i, k | 0 <= i < |shards| && k in shards[i] :: home(k) == i
    ensures |KeysTo(shards, n)| == SizeTo(shards, n)
  {
    if n > 0 {
      KeysToSize(home, shards, n - 1);
      var before, last := KeysTo(shards, n - 1), shards[n - 1].Keys;
      forall k | k in last ensures k !in before { KeyInShards(home, shards, n - 1, k); }
      DisjointSize(before, last);
    }
  }

  lemma FlatSize(home: Key -> nat, shards: seq<Table>, flat: Table)
    requires Placed(home, shards, flat)
    ensures |flat| == SizeTo(shards, |shards|)
  {
    KeysToSize(home, shards, |shards|);
    forall k ensures k in KeysTo(shards, |shards|) <==> k in flat.Keys {
      KeyInShards(home, shards, |shards|, k);
    }
    assert KeysTo(shards, |shards|) == flat.Keys;
  }

  lemma {:induction false} SizeBound(shards: seq<Table>, n: nat, limit: nat)
    requires n <= |shards| && forall i | 0 <= i < |shards| :: |shards[i]| <= limit
    ensures SizeTo(shards, n) <= n * limit
  {
    if n > 0 { SizeBound(shards, n - 1, limit); }
  }

  /** A valid cache never holds more than its shards' limits together. */
  lemma CacheSizeBound(c: GlobalCache)
    requires c.Valid()
    ensures |c.flat| <= |c.shards| * Max(1, c.maxPerShard)
  {
    FlatSize(c.home, c.shards, c.flat);
    SizeBound(c.shards, |c.shards|, Max(1, c.maxPerShard));
  }
}

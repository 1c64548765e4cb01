/**
 * Around the sharded cache: the case-insensitive name hash that picks a shard, whole
 * runs compared with the flat table, and the resolver-facing front with its capacity
 * split, admission rules and scope encoding.
 */
module CacheFront {
  import opened Bytes
  import opened ShardedCache

  // ----- The name hash ------------------------------------------------------------

  const OFFSET: bv64 := 0xcbf29ce484222325
  const PRIME: bv64 := 0x100000001b3
  const POISON: bv64 := 0xDEADBEEFCAFEBABE

  /** The octets the hash absorbs from a name, in order. */
  datatype Trace = Nothing | Then(before: Trace, octet: Byte)

  function Mix(h: bv64, b: Byte): bv64 { (h ^ (b as bv64)) * PRIME }

  function Digest(t: Trace): bv64 {
    if t.Nothing? then OFFSET else Mix(Digest(t.before), t.octet)
  }

  function Avalanche(h: bv64): bv64 {
    var x := (h ^ (h >> 32)) * 0xe7037ed1a0b428db;
    x ^ (x >> 32)
  }

  function AbsorbLabel(wire: seq<Byte>, i: nat, n: nat, t: Trace): Trace
    requires i + n <= |wire|
    decreases n
  {
    if n == 0 then t else AbsorbLabel(wire, i + 1, n - 1, Then(t, LowerByte(wire[i])))
  }

  /** What is absorbed from offset `i` on, and whether the labels were well formed. */
  function Absorb(wire: seq<Byte>, i: nat, t: Trace): (Trace, bool)
    requires i <= |wire|
    decreases |wire| - i
  {
    if i == |wire| then (t, true)
    else if wire[i] == 0 then (Then(t, 0xff), true)
    else if wire[i] > 63 || i + 1 + wire[i] > |wire| then (t, false)
    else Absorb(wire, i + 1 + wire[i], Then(AbsorbLabel(wire, i + 1, wire[i], t), 0x2e))
  }

  function DnsNameHash(wire: seq<Byte>): bv64 {
    var (t, wellFormed) := Absorb(wire, 0, Nothing);
    if wellFormed then Avalanche(Digest(t)) else Digest(t) ^ POISON
  }

  function ShardIndex(key: Key, shards: nat): (i: nat)
    requires shards > 0
    ensures i < shards
  {
    ((DnsNameHash(key.owner) ^ ((key.qtype as bv64) << 16) ^ (key.qclass as bv64)) as nat) % shards
  }

  lemma {:induction false} LabelFolds(a: seq<Byte>, b: seq<Byte>, i: nat, n: nat, t: Trace)
    requires SameButCase(a, b) && i + n <= |a|
    ensures AbsorbLabel(a, i, n, t) == AbsorbLabel(b, i, n, t)
    decreases n
  {
    if n > 0 {
      assert SameLetter(a[i], b[i]);
      LabelFolds(a, b, i + 1, n - 1, Then(t, LowerByte(a[i])));
    }
  }

  lemma {:induction false} NameFolds(a: seq<Byte>, b: seq<Byte>, i: nat, t: Trace)
    requires SameButCase(a, b) && i <= |a|
    ensures Absorb(a, i, t) == Absorb(b, i, t)
    decreases |a| - i
  {
    if i < |a| {
      assert SameLetter(a[i], b[i]);
      if 0 < a[i] <= 63 && i + 1 + a[i] <= |a| {
        LabelFolds(a, b, i + 1, a[i], t);
        NameFolds(a, b, i + 1 + a[i], Then(AbsorbLabel(a, i + 1, a[i], t), 0x2e));
      }
    }
  }

  /** Names that differ only in ASCII case hash alike, whatever their bytes. */
  lemma HashIsCaseInsensitive(a: seq<Byte>, b: seq<Byte>)
    requires SameButCase(a, b)
    ensures DnsNameHash(a) == DnsNameHash(b)
  {
    NameFolds(a, b, 0, Nothing);
  }

  // ----- Whole runs against the flat table ------------------------------------------

  datatype Op =
    | Insert(key: Key, rcode: nat, answer: seq<Byte>, ttl: nat, secure: bool, ifindex: Option<int>, scope: nat, now: int)
    | SetWindow(window: nat)
    | Flush
    | Lookup(key: Key, now: int)

  datatype FlatState = FlatState(table: Table, window: nat, gen: nat)

  /** One operation on the flat table, which forgets the `removed` keys when it inserts. */
  function FlatStep(f: FlatState, op: Op, removed: set<Key>): FlatState {
    match op
    case Insert(key, rcode, answer, ttl, secure, ifindex, scope, now) =>
      f.(table := (f.table - removed)[key := NewEntry(rcode, answer, ttl, secure, ifindex, scope, now, f.window, f.gen)],
         gen := f.gen + 1)
    case SetWindow(window) => f.(table := Restale(f.table, window), window := window)
    case Flush => f.(table := map[])
    case Lookup(_, _) => f
  }

  function FlatRun(f: FlatState, ops: seq<Op>, removals: seq<set<Key>>, n: nat): FlatState
    requires n <= |ops| && n <= |removals|
  {
    if n == 0 then f else FlatStep(FlatRun(f, ops, removals, n - 1), ops[n - 1], removals[n - 1])
  }

  /** What the flat table says to one operation. */
  function Reply(f: FlatState, op: Op): seq<Answer> {
    if op.Lookup? then [FlatLookup(f.table, op.key, op.now)] else []
  }

  /** The answers the flat table gives to the lookups among the first `n` operations. */
  function FlatAnswers(f: FlatState, ops: seq<Op>, removals: seq<set<Key>>, n: nat): seq<Answer>
    requires n <= |ops| && n <= |removals|
  {
    if n == 0 then []
    else FlatAnswers(f, ops, removals, n - 1) + Reply(FlatRun(f, ops, removals, n - 1), ops[n - 1])
  }

  lemma {:induction false} RunPrefix(f: FlatState, ops: seq<Op>, removals: seq<set<Key>>, r: set<Key>, n: nat)
    requires n <= |ops| && n <= |removals|
    ensures FlatRun(f, ops, removals + [r], n) == FlatRun(f, ops, removals, n)
    ensures FlatAnswers(f, ops, removals + [r], n) == FlatAnswers(f, ops, removals, n)
  {
    if n > 0 { RunPrefix(f, ops, removals, r, n - 1); }
  }

  /** Only insertions evict, and they do so as `RemovesRightly` says. */
  predicate LegalRemoval(home: Key -> nat, limit: nat, f: FlatState, op: Op, removed: set<Key>) {
    if op.Insert? then RemovesRightly(home, f.table, op.key, removed, op.now, limit) else removed == {}
  }

  predicate LegalAt(home: Key -> nat, limit: nat, f: FlatState, ops: seq<Op>, removals: seq<set<Key>>, i: nat)
    requires i < |ops| && i < |removals|
  {
    LegalRemoval(home, limit, FlatRun(f, ops, removals, i), ops[i], removals[i])
  }

  predicate LegalRemovals(home: Key -> nat, limit: nat, f: FlatState, ops: seq<Op>, removals: seq<set<Key>>) {
    |removals| <= |ops| && forall i | 0 <= i < |removals| :: LegalAt(home, limit, f, ops, removals, i)
  }

  lemma ExtendLegal(home: Key -> nat, limit: nat, f: FlatState, ops: seq<Op>, removals: seq<set<Key>>, r: set<Key>, i: nat)
    requires |removals| < |ops| && LegalRemovals(home, limit, f, ops, removals) && i <= |removals|
    requires LegalRemoval(home, limit, FlatRun(f, ops, removals, |removals|), ops[|removals|], r)
    ensures LegalAt(home, limit, f, ops, removals + [r], i)
  {
    RunPrefix(f, ops, removals, r, i);
    if i < |removals| { assert LegalAt(home, limit, f, ops, removals, i); }
  }

  lemma ExtendRemovals(home: Key -> nat, limit: nat, f: FlatState, ops: seq<Op>, removals: seq<set<Key>>, r: set<Key>)
    requires |removals| < |ops| && LegalRemovals(home, limit, f, ops, removals)
    requires LegalRemoval(home, limit, FlatRun(f, ops, removals, |removals|), ops[|removals|], r)
    ensures LegalRemovals(home, limit, f, ops, removals + [r])
  {
    var more := removals + [r];
    forall i | 0 <= i < |more| ensures LegalAt(home, limit, f, ops, more, i) {
      ExtendLegal(home, limit, f, ops, removals, r, i);
    }
  }

  lemma ExtendRun(f: FlatState, ops: seq<Op>, removals: seq<set<Key>>, r: set<Key>)
    requires |removals| < |ops|
    ensures var n := |removals|;
            FlatRun(f, ops, removals + [r], n + 1) == FlatStep(FlatRun(f, ops, removals, n), ops[n], r)
    ensures var n := |removals|;
            FlatAnswers(f, ops, removals + [r], n + 1) ==
            FlatAnswers(f, ops, removals, n) + Reply(FlatRun(f, ops, removals, n), ops[n])
  {
    RunPrefix(f, ops, removals, r, |removals|);
    assert (removals + [r])[|removals|] == r;
  }

  /** After as many operations as there are removals: the answers given, and the state reached. */
  ghost predicate Replayed(home: Key -> nat, limit: nat, f: FlatState, ops: seq<Op>, removals: seq<set<Key>>,
                           answers: seq<Answer>, g: FlatState)
  {
    && LegalRemovals(home, limit, f, ops, removals) && answers == FlatAnswers(f, ops, removals, |removals|)
    && g == FlatRun(f, ops, removals, |removals|)
  }

  lemma ReplayedMore(home: Key -> nat, limit: nat, f: FlatState, ops: seq<Op>, removals: seq<set<Key>>, answers: seq<Answer>,
                     g: FlatState, r: set<Key>)
    requires Replayed(home, limit, f, ops, removals, answers, g) && |removals| < |ops|
    requires LegalRemoval(home, limit, g, ops[|removals|], r)
    ensures var op := ops[|removals|];
            Replayed(home, limit, f, ops, removals + [r], answers + Reply(g, op), FlatStep(g, op, r))
  {
    ExtendRemovals(home, limit, f, ops, removals, r);
    ExtendRun(f, ops, removals, r);
  }

  /** Any run of operations answers every lookup as the flat table does, and evicts as the rule says. */
  method Replay(c: GlobalCache, ops: seq<Op>) returns (answers: seq<Answer>, ghost removals: seq<set<Key>>)
    requires c.Valid()
    modifies c
    ensures c.Valid() && |removals| == |ops|
    ensures LegalRemovals(c.home, c.maxPerShard, old(FlatState(c.flat, c.staleWindow, c.gen)), ops, removals)
    ensures answers == FlatAnswers(old(FlatState(c.flat, c.staleWindow, c.gen)), ops, removals, |ops|)
    ensures FlatState(c.flat, c.staleWindow, c.gen) ==
            FlatRun(old(FlatState(c.flat, c.staleWindow, c.gen)), ops, removals, |ops|)
  {
    ghost var f := FlatState(c.flat, c.staleWindow, c.gen);
    answers, removals := [], [];
    for n := 0 to |ops|
      invariant c.Valid() && |removals| == n
      invariant Replayed(c.home, c.maxPerShard, f, ops, removals, answers, FlatState(c.flat, c.staleWindow, c.gen))
    {
      ghost var g := FlatState(c.flat, c.staleWindow, c.gen);
      var reply, removed := Perform(c, ops[n]);
      ReplayedMore(c.home, c.maxPerShard, f, ops, removals, answers, g, removed);
      answers, removals := answers + reply, removals + [removed];
    }
  }

  method Perform(c: GlobalCache, op: Op) returns (reply: seq<Answer>, ghost removed: set<Key>)
    requires c.Valid()
    modifies c
    ensures c.Valid() && LegalRemoval(c.home, c.maxPerShard, old(FlatState(c.flat, c.staleWindow, c.gen)), op, removed)
    ensures FlatState(c.flat, c.staleWindow, c.gen) ==
            FlatStep(old(FlatState(c.flat, c.staleWindow, c.gen)), op, removed)
    ensures reply == Reply(old(FlatState(c.flat, c.staleWindow, c.gen)), op)
  {
    reply, removed := [], {};
    match op {
      case Insert(key, rcode, bytes, ttl, secure, ifindex, scope, now) =>
        removed := c.InsertWithScope(key, rcode, bytes, ttl, secure, ifindex, scope, now);
      case SetWindow(window) => c.SetStaleWindow(window);
      case Flush => c.Flush();
      case Lookup(key, now) =>
        var a := c.Lookup(key, now);
        reply := [a];
    }
  }

  // ----- The resolver-facing front -----------------------------------------------------

  /** What `cache_lifetime` finds in a response. */
  datatype Lifetime = Malformed | Uncacheable | Seconds(n: nat)

  /** The header fields the admission rules look at. */
  predicate HasHeader(packet: seq<Byte>) { |packet| >= 12 }

  predicate IsResponse(packet: seq<Byte>) requires HasHeader(packet) { packet[2] >= 128 }

  predicate Truncated(packet: seq<Byte>) requires HasHeader(packet) { packet[2] / 2 % 2 == 1 }

  function Rcode(packet: seq<Byte>): nat requires HasHeader(packet) { packet[3] % 16 }

  function AnswerCount(packet: seq<Byte>): nat requires HasHeader(packet) { WordAt(packet, 6) }

  function WithId(packet: seq<Byte>, id: Word): seq<Byte> requires HasHeader(packet) { WordBytes(id) + packet[2..] }

  datatype Outcome = Failed | Declined | Stored

  class Cache {
    const global: GlobalCache
    const capacity: nat
    const maximumTtl: nat
    const storeNegative: bool

    ghost predicate Valid()
      reads this, global
    {
      global.Valid() && global.maxPerShard == Max(capacity / 16, 1) && |global.shards| == 16
    }

    constructor (capacity: nat, maximumTtl: nat, staleRetention: nat, storeNegative: bool)
      ensures Valid() && fresh(global) && global.flat == map[] && global.staleWindow == staleRetention
      ensures this.capacity == capacity && this.maximumTtl == maximumTtl && this.storeNegative == storeNegative
    {
      this.capacity, this.maximumTtl, this.storeNegative := capacity, maximumTtl, storeNegative;
      global := new GlobalCache(16, Max(capacity / 16, 1), staleRetention, key => ShardIndex(key, 16));
    }

    /** NOERROR and NXDOMAIN answers with a positive lifetime, negative ones only if configured. */
    predicate Admits(response: seq<Byte>, life: Lifetime) {
      && HasHeader(response) && IsResponse(response) && !Truncated(response)
      && (Rcode(response) == 0 || Rcode(response) == 3)
      && (Rcode(response) != 0 || AnswerCount(response) == 0 ==> storeNegative)
      && life.Seconds? && Min(life.n, maximumTtl) > 0 && capacity > 0
    }

    /** `insert_scoped`, where `life` is what `cache_lifetime` finds in `response`. */
    method InsertScoped(key: Key, response: seq<Byte>, life: Lifetime, ifindex: Option<int>, scope: nat, now: int)
      returns (outcome: Outcome, ghost removed: set<Key>)
      requires Valid()
      modifies global
      ensures Valid() && global.staleWindow == old(global.staleWindow)
      ensures outcome.Stored? <==> Admits(response, life)
      ensures (|response| < 12 ==> outcome.Failed?) && (outcome.Failed? ==> |response| < 12 || life.Malformed?)
      ensures !outcome.Stored? ==> global.flat == old(global.flat)
      ensures outcome.Stored? ==> global.flat == (old(global.flat) - removed)[key :=
                NewEntry(Rcode(response), WithId(response, 0), Min(life.n, maximumTtl), false, ifindex, scope, now,
                         global.staleWindow, old(global.gen))]
      ensures outcome.Stored? ==> RemovesRightly(global.home, old(global.flat), key, removed, now, Max(capacity / 16, 1))
      ensures |global.flat| <= 16 * Max(1, capacity / 16)
    {
      removed := {};
      CacheSizeBound(global);
      if |response| < 12 { return Failed, removed; }
      if !IsResponse(response) || Truncated(response) { return Declined, removed; }
      var rcode := Rcode(response);
      var negative := rcode != 0 || AnswerCount(response) == 0;
      if negative && !storeNegative { return Declined, removed; }
      if rcode != 0 && rcode != 3 { return Declined, removed; }
      if life.Malformed? { return Failed, removed; }
      if life.Uncacheable? { return Declined, removed; }
      var ttl := Min(life.n, maximumTtl);
      if ttl == 0 || capacity == 0 { return Declined, removed; }
      removed := global.InsertWithScope(key, rcode, WithId(response, 0), ttl, false, ifindex, scope, now);
      CacheSizeBound(global);
      return Stored, removed;
    }

    /** `get_scoped` up to the TTL ageing: the packet, its interface, its age, and whether it is stale. */
    method GetScoped(key: Key, id: Word, allowStale: bool, now: int)
      returns (found: Option<(seq<Byte>, Option<int>, nat, bool)>)
      requires Valid()
      modifies global
      ensures Valid() && global.flat == old(global.flat)
      ensures found.Some? <==>
              key in global.flat && HasHeader(global.flat[key].answer) &&
              (IsFresh(global.flat[key], now) || (allowStale && IsServableStale(global.flat[key], now)))
      ensures found.Some? ==>
              var e := global.flat[key];
              found.value == (WithId(e.answer, id), e.ifindex, Min(Max(0, now - e.inserted), 0xffff_ffff), !IsFresh(e, now))
    {
      var answer := global.Lookup(key, now);
      if answer.Miss? || (answer.Stale? && !allowStale) { return None; }
      var entry := answer.entry;
      if |entry.answer| < 12 { return None; }
      return Some((WithId(entry.answer, id), entry.ifindex, Min(Max(0, now - entry.inserted), 0xffff_ffff), now >= entry.expiresAt));
    }
  }

  /**
   * Which responses are admitted, octet by octet: complete ones with code 0 or 3 and a positive
   * lifetime, of which those with code 3 or without answers only if negative answers are kept.
   */
  lemma AdmittedOctets(c: Cache, response: seq<Byte>, life: Lifetime)
    ensures c.Admits(response, life) <==>
            && |response| >= 12 && response[2] >= 128 && response[2] / 2 % 2 == 0
            && (response[3] % 16 == 0 || response[3] % 16 == 3)
            && (response[3] % 16 == 3 || (response[6] == 0 && response[7] == 0) ==> c.storeNegative)
            && life.Seconds? && life.n > 0 && c.maximumTtl > 0 && c.capacity > 0
  {
  }

  /**
   * A response that was stored comes back octet for octet to whoever asks with its own identifier:
   * fresh for its lifetime, then marked stale for the stale window if stale answers are allowed, and
   * not at all afterwards.
   */
  method StoreThenGet(c: Cache, key: Key, response: seq<Byte>, life: Lifetime, ifindex: Option<int>, scope: nat, now: int,
                      allowStale: bool, later: int)
    returns (outcome: Outcome, found: Option<(seq<Byte>, Option<int>, nat, bool)>)
    requires c.Valid()
    modifies c.global
    ensures c.Valid() && (outcome.Stored? <==> c.Admits(response, life))
    ensures outcome.Stored? ==>
              var lasts := Min(Min(life.n, c.maximumTtl), if response[3] % 16 == 3 then 1800 else 3600);
              var age := Min(Max(0, later - now), 0xffff_ffff);
              if later < now + lasts then found == Some((response, ifindex, age, false))
              else if later < now + lasts + c.global.staleWindow && allowStale then found == Some((response, ifindex, age, true))
              else found.None?
  {
    ghost var removed;
    outcome, removed := c.InsertScoped(key, response, life, ifindex, scope, now);
    if outcome.Stored? {
      IdRoundTrip(response);
      found := c.GetScoped(key, WordAt(response, 0), allowStale, later);
    } else {
      found := None;
    }
  }

  /** What was inserted is found, with every field, fresh and then stale for the times given. */
  method InsertThenLookup(c: GlobalCache, key: Key, rcode: nat, answer: seq<Byte>, ttl: nat, secure: bool, ifindex: Option<int>,
                          scope: nat, now: int, later: int) returns (found: Answer)
    requires c.Valid()
    modifies c
    ensures c.Valid()
    ensures var longest := if rcode == 3 then 1800 else if rcode == 0 then 3600 else 86400;
            var lasts := if ttl == 0 then 1 else Min(ttl, longest);
            && (found.Fresh? <==> later < now + lasts)
            && (found.Stale? <==> now + lasts <= later < now + lasts + c.staleWindow)
    ensures !found.Miss? ==>
              var e := found.entry;
              && e.rcode == rcode && e.answer == answer && e.secure == secure && e.ifindex == ifindex && e.scope == scope
              && e.inserted == now
  {
    ghost var removed := c.InsertWithScope(key, rcode, answer, ttl, secure, ifindex, scope, now);
    found := c.Lookup(key, later);
  }

  /** Zeroing the identifier on the way in and restoring it on the way out loses nothing. */
  lemma IdRoundTrip(packet: seq<Byte>)
    requires HasHeader(packet)
    ensures HasHeader(WithId(packet, 0)) && WithId(WithId(packet, 0), WordAt(packet, 0)) == packet
  {
    var zeroed := WithId(packet, 0);
    assert zeroed[2..] == packet[2..];
    assert packet == [packet[0], packet[1]] + packet[2..];
  }

  // ----- Scope encoding ------------------------------------------------------------------

  datatype Scope = Global | Fallback | Link(ifindex: int) | Delegate(index: nat)

  const LINK_TAG: nat := 0x8000_0000_0000_0000
  const DELEGATE_TAG: nat := 0x4000_0000_0000_0000
  const I32_MAX: int := 0x7fff_ffff

  predicate ValidScope(s: Scope) {
    && (s.Link? ==> -I32_MAX - 1 <= s.ifindex <= I32_MAX)
    && (s.Delegate? ==> s.index < 0x1_0000_0000_0000_0000)
  }

  function EncodeScope(s: Scope): (v: nat)
    requires ValidScope(s)
    ensures v < 0x1_0000_0000_0000_0000
  {
    match s
    case Global => 0
    case Fallback => 1
    case Link(ifindex) => LINK_TAG + if ifindex < 0 then -ifindex else ifindex
    case Delegate(index) => DELEGATE_TAG + Min(index, DELEGATE_TAG - 1)
  }

  function DecodeScope(v: nat): Scope {
    if v >= LINK_TAG then Link(Min(v - LINK_TAG, I32_MAX))
    else if v >= DELEGATE_TAG then Delegate(v - DELEGATE_TAG)
    else if v == 1 then Fallback
    else Global
  }

  /** A scope survives storage exactly when its interface index is not negative and its delegate index has 62 bits. */
  lemma ScopeRoundTripIff(s: Scope)
    requires ValidScope(s)
    ensures DecodeScope(EncodeScope(s)) == s <==>
            (s.Link? ==> s.ifindex >= 0) && (s.Delegate? ==> s.index < DELEGATE_TAG)
  {
  }
}

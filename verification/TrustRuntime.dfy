/**
 * The disk-backed runtime: every authenticated observation reloads the table, seeds
 * the validating keys that are not yet tracked, observes, and saves only when
 * something changed.  It behaves as if the table had stayed in memory all along.
 */
module TrustRuntime {
  import opened Bytes
  import opened AnchorIdentity
  import opened TrustAnchors
  import opened TrustRuns

  const TYPE_DNSKEY: nat := 48

  datatype Record = Record(rrType: nat, rrClass: nat, owner: seq<Octet>, key: Dnskey)

  /** One call: the observed RRset, the keys that validated it, the time and the walk's order. */
  datatype Request = Request(rrset: seq<Record>, validating: seq<Record>, now: int, order: seq<AnchorId>)

  predicate SameTrustPoint(records: seq<Record>, first: Record) {
    forall r | r in records :: r.rrType == TYPE_DNSKEY && r.rrClass == first.rrClass && r.owner == first.owner
  }

  /** The observation is one DNSKEY RRset validated by keys of its own trust point. */
  predicate Acceptable(r: Request) {
    && r.rrset != [] && r.validating != []
    && SameTrustPoint(r.rrset, r.rrset[0]) && SameTrustPoint(r.validating, r.rrset[0])
  }

  function KeysTo(records: seq<Record>, n: nat): (keys: seq<Dnskey>)
    requires n <= |records|
    ensures |keys| == n
  {
    if n == 0 then [] else KeysTo(records, n - 1) + [records[n - 1].key]
  }

  function KeysOf(records: seq<Record>): (keys: seq<Dnskey>)
    ensures |keys| == |records|
  {
    KeysTo(records, |records|)
  }

  /** Lexicographic comparison of octet strings from position `i` on. */
  predicate Less(a: AnchorId, b: AnchorId, i: nat)
    requires i <= |a| && i <= |b|
    decreases |a| - i
  {
    if i == |b| then false
    else if i == |a| then true
    else if a[i] != b[i] then a[i] < b[i]
    else Less(a, b, i + 1)
  }

  /** Inserts an id into a sorted list unless it is there. */
  function Insert(ids: seq<AnchorId>, n: nat, id: AnchorId): seq<AnchorId>
    requires n <= |ids|
  {
    if n == 0 then [id] + ids
    else if ids[n - 1] == id then ids
    else if Less(ids[n - 1], id, 0) then ids[..n] + [id] + ids[n..]
    else Insert(ids, n - 1, id)
  }

  /** The ids of the validating keys, sorted and without duplicates. */
  function ValidatorIds(keys: seq<Dnskey>, n: nat): seq<AnchorId>
    requires n <= |keys|
  {
    if n == 0 then []
    else
      var ids := ValidatorIds(keys, n - 1);
      Insert(ids, |ids|, keys[n - 1].id)
  }

  lemma {:induction false} LessIsTotal(a: AnchorId, b: AnchorId, i: nat)
    requires i <= |a| && i <= |b| && a[..i] == b[..i]
    ensures a == b || Less(a, b, i) || Less(b, a, i)
    decreases |a| - i
  {
    if i == |a| && i == |b| {
      assert a == a[..i] && b == b[..i];
    } else if i < |a| && i < |b| && a[i] == b[i] {
      assert a[..i + 1] == a[..i] + [a[i]] && b[..i + 1] == b[..i] + [b[i]];
      LessIsTotal(a, b, i + 1);
    }
  }

  lemma {:induction false} LessIsTransitive(a: AnchorId, b: AnchorId, c: AnchorId, i: nat)
    requires i <= |a| && i <= |b| && i <= |c| && Less(a, b, i) && Less(b, c, i)
    ensures Less(a, c, i)
    decreases |a| - i
  {
    if i < |a| && a[i] == b[i] && b[i] == c[i] { LessIsTransitive(a, b, c, i + 1); }
  }

  predicate Ascending(ids: seq<AnchorId>) { forall i, j | 0 <= i < j < |ids| :: Less(ids[i], ids[j], 0) }

  lemma InsertedHere(ids: seq<AnchorId>, n: nat, id: AnchorId)
    requires n <= |ids| && Ascending(ids) && (n > 0 ==> Less(ids[n - 1], id, 0))
    requires forall j | n <= j < |ids| :: Less(id, ids[j], 0)
    ensures Ascending(ids[..n] + [id] + ids[n..])
  {
    forall i | 0 <= i < n ensures Less(ids[i], id, 0) {
      if i < n - 1 { LessIsTransitive(ids[i], ids[n - 1], id, 0); }
    }
  }

  lemma {:induction false} InsertKeepsAscending(ids: seq<AnchorId>, n: nat, id: AnchorId)
    requires n <= |ids| && Ascending(ids) && forall j | n <= j < |ids| :: Less(id, ids[j], 0)
    ensures Ascending(Insert(ids, n, id))
    ensures forall x :: x in Insert(ids, n, id) <==> x in ids || x == id
  {
    if n == 0 {
      InsertedHere(ids, 0, id);
      assert ids[..0] + [id] + ids[0..] == [id] + ids;
    } else if ids[n - 1] != id {
      LessIsTotal(ids[n - 1], id, 0);
      if Less(ids[n - 1], id, 0) {
        InsertedHere(ids, n, id);
        assert ids == ids[..n] + ids[n..];
      } else {
        InsertKeepsAscending(ids, n - 1, id);
      }
    }
  }

  /** The validators' identities are exactly those of the keys, in strictly ascending order. */
  lemma {:induction false} ValidatorIdsExact(keys: seq<Dnskey>, n: nat)
    requires n <= |keys|
    ensures Ascending(ValidatorIds(keys, n))
    ensures forall x :: x in ValidatorIds(keys, n) <==> exists k | 0 <= k < n :: keys[k].id == x
  {
    if n > 0 {
      ValidatorIdsExact(keys, n - 1);
      var ids := ValidatorIds(keys, n - 1);
      InsertKeepsAscending(ids, |ids|, keys[n - 1].id);
    }
  }

  /** The table once the first `n` validating keys have been seeded where untracked. */
  function SeedMissing(p: Params, m: Anchors, keys: seq<Dnskey>, n: nat, now: int): Anchors
    requires n <= |keys|
  {
    if n == 0 then m
    else
      var before := SeedMissing(p, m, keys, n - 1, now);
      if keys[n - 1].id in before then before else before[keys[n - 1].id := Seeded(p, keys[n - 1], now)]
  }

  predicate AnySeeded(p: Params, m: Anchors, keys: seq<Dnskey>, n: nat, now: int)
    requires n <= |keys|
  {
    n > 0 && (AnySeeded(p, m, keys, n - 1, now) || keys[n - 1].id !in SeedMissing(p, m, keys, n - 1, now))
  }

  function AfterSeeding(p: Params, m: Anchors, r: Request): Anchors {
    SeedMissing(p, m, KeysOf(r.validating), |r.validating|, r.now)
  }

  function Validators(r: Request): seq<AnchorId> { ValidatorIds(KeysOf(r.validating), |r.validating|) }

  /** The table after a request, had it stayed in memory. */
  function MemoryStep(p: Params, m: Anchors, r: Request): Anchors {
    if Acceptable(r) then Observe(p, AfterSeeding(p, m, r), KeysOf(r.rrset), Validators(r), r.now, r.order) else m
  }

  predicate Dirty(p: Params, m: Anchors, r: Request) {
    || AnySeeded(p, m, KeysOf(r.validating), |r.validating|, r.now)
    || Changed(p, AfterSeeding(p, m, r), KeysOf(r.rrset), Validators(r), r.now, r.order)
  }

  /** The table on disk after a request: replaced only when something changed. */
  function DiskStep(p: Params, disk: Anchors, r: Request): Anchors {
    if Acceptable(r) && Dirty(p, disk, r) then MemoryStep(p, disk, r) else disk
  }

  function MemoryRun(p: Params, requests: seq<Request>, n: nat): Anchors
    requires n <= |requests|
  {
    if n == 0 then map[] else MemoryStep(p, MemoryRun(p, requests, n - 1), requests[n - 1])
  }

  function DiskRun(p: Params, requests: seq<Request>, n: nat): Anchors
    requires n <= |requests|
  {
    if n == 0 then map[] else DiskStep(p, DiskRun(p, requests, n - 1), requests[n - 1])
  }

  // ----- The imperative runtime --------------------------------------------------

  class AnchorRuntime {
    var disk: Anchors
    const params: Params

    constructor (params: Params)
      ensures disk == map[] && this.params == params
    {
      disk := map[];
      this.params := params;
    }

    /** `observe_authenticated_dnskey_rrset_at`; None is the error return. */
    method ObserveAuthenticated(r: Request) returns (dirty: Option<bool>)
      requires Acceptable(r) ==> Enumerates(r.order, AfterSeeding(params, disk, r).Keys)
      modifies this
      ensures disk == DiskStep(params, old(disk), r)
      ensures dirty == if Acceptable(r) then Some(Dirty(params, old(disk), r)) else None
    {
      if !Acceptable(r) { return None; }
      var manager := new TrustAnchorManager(params);
      manager.anchors := disk;
      var ids, seeded := SeedValidators(manager, KeysOf(r.validating), r.now);
      assert manager.anchors == AfterSeeding(params, disk, r);
      var changed := manager.ObserveValidatedRrset(KeysOf(r.rrset), ids, r.now, r.order);
      if seeded || changed { disk := manager.anchors; }
      return Some(seeded || changed);
    }
  }

  method SeedValidators(manager: TrustAnchorManager, keys: seq<Dnskey>, now: int)
    returns (ids: seq<AnchorId>, seeded: bool)
    modifies manager
    ensures manager.anchors == SeedMissing(manager.params, old(manager.anchors), keys, |keys|, now)
    ensures seeded == AnySeeded(manager.params, old(manager.anchors), keys, |keys|, now)
    ensures ids == ValidatorIds(keys, |keys|)
  {
    ids, seeded := [], false;
    for n := 0 to |keys|
      invariant manager.anchors == SeedMissing(manager.params, old(manager.anchors), keys, n, now)
      invariant seeded == AnySeeded(manager.params, old(manager.anchors), keys, n, now)
      invariant ids == ValidatorIds(keys, n)
    {
      if keys[n].id !in manager.anchors {
        var _ := manager.SeedValidAnchor(keys[n], now);
        seeded := true;
      }
      ids := Insert(ids, |ids|, keys[n].id);
    }
  }

  // ----- Saving only on change loses nothing but last_seen ------------------------

  /** Equal but for the time of the last sighting, which no transition reads. */
  predicate Alike(e: Entry, f: Entry) { e.(lastSeen := 0) == f.(lastSeen := 0) }

  predicate Similar(a: Anchors, b: Anchors) {
    a.Keys == b.Keys && forall id | id in a :: Alike(a[id], b[id])
  }

  lemma FateAlike(p: Params, e: Entry, f: Entry, present: Option<Dnskey>, reset: bool, now: int)
    requires Alike(e, f)
    ensures var (a, b) := (Fate(p, e, present, reset, now), Fate(p, f, present, reset, now));
            a.Some? == b.Some? && (a.Some? ==> Alike(a.value, b.value))
  {
  }

  /** A turn that does not change the state changes nothing but the last sighting. */
  lemma FateUnmoved(p: Params, e: Entry, present: Option<Dnskey>, reset: bool, now: int)
    requires Fate(p, e, present, reset, now).Some? && Fate(p, e, present, reset, now).value.state == e.state
    ensures Alike(Fate(p, e, present, reset, now).value, e)
  {
  }

  lemma ResetAlike(a: Anchors, b: Anchors, keys: seq<Dnskey>, before: set<AnchorId>, id: AnchorId)
    requires Similar(a, b) && id in a
    ensures Reset(a, keys, before, id) == Reset(b, keys, before, id)
  {
    assert Alike(a[id], b[id]);
    assert a[id].validators == b[id].validators;
    forall v ensures RevokedBy(a, keys, before, v) == RevokedBy(b, keys, before, v) {
      assert v in a ==> Alike(a[v], b[v]);
    }
  }

  lemma ObserveSimilar(p: Params, a: Anchors, b: Anchors, keys: seq<Dnskey>, validators: seq<AnchorId>, now: int, order: seq<AnchorId>)
    requires Similar(a, b)
    ensures Similar(Observe(p, a, keys, validators, now, order), Observe(p, b, keys, validators, now, order))
  {
    var (x, y) := (Observe(p, a, keys, validators, now, order), Observe(p, b, keys, validators, now, order));
    forall id ensures (id in x <==> id in y) && (id in x && id in y ==> Alike(x[id], y[id])) {
      ObserveAt(p, a, keys, validators, now, order, id);
      ObserveAt(p, b, keys, validators, now, order, id);
      if id in a {
        ResetAlike(a, b, keys, Before(order, id), id);
        FateAlike(p, a[id], b[id], Seen(keys, id), Reset(a, keys, Before(order, id), id), now);
      }
    }
    assert x.Keys == y.Keys;
  }

  lemma {:induction false} SeedSimilar(p: Params, a: Anchors, b: Anchors, keys: seq<Dnskey>, n: nat, now: int)
    requires Similar(a, b) && n <= |keys|
    ensures Similar(SeedMissing(p, a, keys, n, now), SeedMissing(p, b, keys, n, now))
    ensures AnySeeded(p, a, keys, n, now) == AnySeeded(p, b, keys, n, now)
    ensures !AnySeeded(p, a, keys, n, now) ==> SeedMissing(p, a, keys, n, now) == a
  {
    if n > 0 { SeedSimilar(p, a, b, keys, n - 1, now); }
  }

  lemma MemorySimilar(p: Params, a: Anchors, b: Anchors, r: Request)
    requires Similar(a, b)
    ensures Similar(MemoryStep(p, a, r), MemoryStep(p, b, r))
  {
    SeedSimilar(p, a, b, KeysOf(r.validating), |r.validating|, r.now);
    ObserveSimilar(p, AfterSeeding(p, a, r), AfterSeeding(p, b, r), KeysOf(r.rrset), Validators(r), r.now, r.order);
  }

  lemma UnchangedIsSimilar(p: Params, m: Anchors, keys: seq<Dnskey>, validators: seq<AnchorId>, now: int, order: seq<AnchorId>)
    requires !Changed(p, m, keys, validators, now, order)
    ensures Similar(Observe(p, m, keys, validators, now, order), m)
  {
    var o := Observe(p, m, keys, validators, now, order);
    forall id ensures (id in o <==> id in m) && (id in o && id in m ==> Alike(o[id], m[id])) {
      ObserveAt(p, m, keys, validators, now, order, id);
      if id in m {
        assert !Moved(p, m, keys, order, now, id);
        FateUnmoved(p, m[id], Seen(keys, id), Reset(m, keys, Before(order, id), id), now);
      } else {
        IntroducedAt(p, Survivors(p, m, keys, order, now), keys, |keys|, validators, now, id);
      }
    }
    assert o.Keys == m.Keys;
  }

  lemma SimilarTrans(a: Anchors, b: Anchors, c: Anchors)
    requires Similar(a, b) && Similar(b, c)
    ensures Similar(a, c) && Similar(b, a)
  {
    forall id | id in a ensures Alike(a[id], c[id]) && Alike(b[id], a[id]) {
      assert Alike(a[id], b[id]) && Alike(b[id], c[id]);
    }
  }

  /** Not saving a clean observation leaves the disk similar to what was in memory. */
  lemma DiskFollowsMemory(p: Params, m: Anchors, r: Request)
    ensures Similar(DiskStep(p, m, r), MemoryStep(p, m, r))
  {
    if Acceptable(r) && !Dirty(p, m, r) {
      SeedSimilar(p, m, m, KeysOf(r.validating), |r.validating|, r.now);
      UnchangedIsSimilar(p, m, KeysOf(r.rrset), Validators(r), r.now, r.order);
      SimilarTrans(MemoryStep(p, m, r), m, m);
    }
  }

  /** In every run the table on disk and the one that never left memory agree but for last sightings. */
  lemma {:induction false} DiskSimulatesMemory(p: Params, requests: seq<Request>, n: nat)
    requires n <= |requests|
    ensures Similar(DiskRun(p, requests, n), MemoryRun(p, requests, n))
  {
    if n > 0 {
      var (d, m, r) := (DiskRun(p, requests, n - 1), MemoryRun(p, requests, n - 1), requests[n - 1]);
      DiskSimulatesMemory(p, requests, n - 1);
      DiskFollowsMemory(p, d, r);
      MemorySimilar(p, d, m, r);
      SimilarTrans(DiskStep(p, d, r), MemoryStep(p, d, r), MemoryStep(p, m, r));
    }
  }

  // ----- The runtime's seeding never rehabilitates a tracked key -------------------

  lemma {:induction false} SeedingKeepsTracked(p: Params, m: Anchors, keys: seq<Dnskey>, n: nat, now: int, id: AnchorId)
    requires n <= |keys| && id in m
    ensures id in SeedMissing(p, m, keys, n, now) && SeedMissing(p, m, keys, n, now)[id] == m[id]
  {
    if n > 0 { SeedingKeepsTracked(p, m, keys, n - 1, now, id); }
  }

  /** Whatever keys validate it, a request ends trust only by self-revocation and never undoes a revocation. */
  lemma RequestRespectsTracked(p: Params, m: Anchors, r: Request, id: AnchorId)
    requires id in m && Acceptable(r)
    ensures Trusted(m[id]) ==> id in MemoryStep(p, m, r)
    ensures Trusted(m[id]) && !SelfRevoking(KeysOf(r.rrset), id) ==> Trusted(MemoryStep(p, m, r)[id])
    ensures Trusted(m[id]) && SelfRevoking(KeysOf(r.rrset), id) ==> MemoryStep(p, m, r)[id].state.Revoked?
    ensures Bad(m[id]) && id in MemoryStep(p, m, r) ==> Bad(MemoryStep(p, m, r)[id])
  {
    SeedingKeepsTracked(p, m, KeysOf(r.validating), |r.validating|, r.now, id);
    var seeded := AfterSeeding(p, m, r);
    var e := Observation(KeysOf(r.rrset), Validators(r), r.now, r.order);
    if Trusted(m[id]) { TrustEndsOnlyInRevocation(p, seeded, e, id); }
    if Bad(m[id]) { RevokedStaysUntilPurged(p, seeded, e, id); }
  }

  // ----- The service needs a hold-down as well -------------------------------------------------

  /** What a request shows of the keys; a refused one shows nothing. */
  function Shown(r: Request): Event {
    if Acceptable(r) then Observation(KeysOf(r.rrset), Validators(r), r.now, r.order) else Tick(r.now)
  }

  function AllShown(requests: seq<Request>): (es: seq<Event>)
    ensures |es| == |requests|
  {
    seq(|requests|, k requires 0 <= k < |requests| => Shown(requests[k]))
  }

  /** No accepted request was validated by the key. */
  predicate NeverValidated(requests: seq<Request>, id: AnchorId) {
    forall k | 0 <= k < |requests| && Acceptable(requests[k]) :: forall v | v in requests[k].validating :: v.key.id != id
  }

  lemma {:induction false} SeedsOthers(p: Params, m: Anchors, records: seq<Record>, n: nat, now: int, id: AnchorId)
    requires n <= |records| && forall v | v in records :: v.key.id != id
    ensures var keys := KeysTo(records, n);
            && (id in SeedMissing(p, m, keys, n, now) <==> id in m)
            && (id in m ==> SeedMissing(p, m, keys, n, now)[id] == m[id])
  {
    if n > 0 {
      SeedsOthers(p, m, records, n - 1, now, id);
      SeedPrefix(p, m, KeysTo(records, n - 1), records[n - 1].key, n - 1, now);
    }
  }

  lemma {:induction false} SeedPrefix(p: Params, m: Anchors, keys: seq<Dnskey>, k: Dnskey, n: nat, now: int)
    requires n <= |keys|
    ensures SeedMissing(p, m, keys + [k], n, now) == SeedMissing(p, m, keys, n, now)
  {
    if n > 0 { SeedPrefix(p, m, keys, k, n - 1, now); }
  }

  lemma RequestJustifies(p: Params, requests: seq<Request>, n: nat, id: AnchorId, m: Anchors)
    requires n < |requests| && NeverValidated(requests, id) && id in MemoryStep(p, m, requests[n])
    requires id in m ==> Justified(p, AllShown(requests), n, id, m[id])
    ensures Justified(p, AllShown(requests), n + 1, id, MemoryStep(p, m, requests[n])[id])
  {
    var r, es := requests[n], AllShown(requests);
    assert es[n] == Shown(r);
    if Acceptable(r) {
      SeedsOthers(p, m, r.validating, |r.validating|, r.now, id);
      var t := AfterSeeding(p, m, r);
      ObserveAt(p, t, es[n].keys, es[n].validators, r.now, r.order, id);
      if id in t && Track(p, t, es[n].keys, r.order, r.now, id).Some? {
        JustifiedByFate(p, es, n, id, t[id], Reset(t, es[n].keys, Before(r.order, id), id));
      } else {
        JustifiedByIntroduction(p, es, n, id);
      }
    } else {
      JustifiedByQuiet(p, es, n, id, m[id]);
    }
  }

  lemma {:induction false} MemoryIsJustified(p: Params, requests: seq<Request>, n: nat, id: AnchorId)
    requires n <= |requests| && NeverValidated(requests, id) && id in MemoryRun(p, requests, n)
    ensures Justified(p, AllShown(requests), n, id, MemoryRun(p, requests, n)[id])
    decreases n
  {
    var m := MemoryRun(p, requests, n - 1);
    assert id in m ==> Justified(p, AllShown(requests), n - 1, id, m[id]) by {
      if id in m { MemoryIsJustified(p, requests, n - 1, id); }
    }
    RequestJustifies(p, requests, n - 1, id, m);
  }

  /**
   * A key that validated no request is trusted on disk only after some request introduced it and
   * every one from then to a later one, at least the hold-down time on, showed it unrevoked.
   */
  lemma DiskTrustNeedsHoldDown(p: Params, requests: seq<Request>, id: AnchorId)
    requires NeverValidated(requests, id)
    requires id in DiskRun(p, requests, |requests|) && Trusted(DiskRun(p, requests, |requests|)[id])
    ensures exists i: nat, j: nat, ttl: nat :: Accepted(p, AllShown(requests), id, i, j, ttl)
  {
    DiskSimulatesMemory(p, requests, |requests|);
    assert Alike(DiskRun(p, requests, |requests|)[id], MemoryRun(p, requests, |requests|)[id]);
    MemoryIsJustified(p, requests, |requests|, id);
  }

  // ----- Requests that are not about one trust point ----------------------------------------------------------

  /** A record that is no DNSKEY, or has another class or owner than the first record of the RRset. */
  predicate Foreign(r: Request, x: Record)
    requires r.rrset != []
  {
    x.rrType != 48 || x.rrClass != r.rrset[0].rrClass || x.owner != r.rrset[0].owner
  }

  /** An empty request, or one with a foreign record among the observed or the validating ones, changes nothing. */
  lemma ForeignIsRejected(p: Params, m: Anchors, r: Request)
    requires r.rrset == [] || r.validating == [] || exists x | x in r.rrset + r.validating :: Foreign(r, x)
    ensures MemoryStep(p, m, r) == m && DiskStep(p, m, r) == m
  {
    if r.rrset != [] && r.validating != [] {
      var x :| x in r.rrset + r.validating && Foreign(r, x);
      assert x in r.rrset || x in r.validating;
    }
  }

  /** Whatever a request adds to the table is one of its own keys. */
  lemma OnlyOwnKeysEnter(p: Params, m: Anchors, r: Request, id: AnchorId)
    requires id !in m && id in MemoryStep(p, m, r)
    ensures exists x | x in r.rrset + r.validating :: x.key.id == id
  {
    var keys := KeysOf(r.rrset);
    ObserveAt(p, AfterSeeding(p, m, r), keys, Validators(r), r.now, r.order, id);
    if id in AfterSeeding(p, m, r) {
      var k := SeededFrom(p, m, KeysOf(r.validating), |r.validating|, r.now, id);
      KeyIsAmong(r.validating, |r.validating|, k);
      assert r.validating[k] in r.rrset + r.validating;
    } else {
      var x := FirstEligible(keys, |keys|, id).value;
      var k :| 0 <= k < |keys| && keys[k] == x;
      KeyIsAmong(r.rrset, |r.rrset|, k);
      assert r.rrset[k] in r.rrset + r.validating;
    }
  }

  lemma {:induction false} SeededFrom(p: Params, m: Anchors, keys: seq<Dnskey>, n: nat, now: int, id: AnchorId) returns (k: nat)
    requires n <= |keys| && id !in m && id in SeedMissing(p, m, keys, n, now)
    ensures k < n && keys[k].id == id
  {
    if keys[n - 1].id == id { k := n - 1; } else { k := SeededFrom(p, m, keys, n - 1, now, id); }
  }

  // ----- The keys that validate are trusted from the first request on -------------------------------------------

  lemma {:induction false} KeyIsAmong(records: seq<Record>, n: nat, k: nat)
    requires k < n <= |records|
    ensures KeysTo(records, n)[k] == records[k].key
  {
    if k < n - 1 { KeyIsAmong(records, n - 1, k); }
  }

  lemma {:induction false} SeedsTheUntracked(p: Params, m: Anchors, keys: seq<Dnskey>, n: nat, k: nat, now: int)
    requires k < n <= |keys| && keys[k].id !in m
    ensures keys[k].id in SeedMissing(p, m, keys, n, now) && SeedMissing(p, m, keys, n, now)[keys[k].id].state.Valid?
    decreases n
  {
    if k < n - 1 {
      SeedsTheUntracked(p, m, keys, n - 1, k, now);
    } else {
      SeededAreValid(p, m, keys, n - 1, now, keys[k].id);
    }
  }

  lemma {:induction false} SeededAreValid(p: Params, m: Anchors, keys: seq<Dnskey>, n: nat, now: int, id: AnchorId)
    requires n <= |keys| && id !in m
    ensures id in SeedMissing(p, m, keys, n, now) ==> SeedMissing(p, m, keys, n, now)[id].state.Valid?
  {
    if n > 0 { SeededAreValid(p, m, keys, n - 1, now, id); }
  }

  /** After an accepted request every key that validated it and was not tracked is trusted, unless it revokes itself in it. */
  lemma ValidatorIsTracked(p: Params, m: Anchors, r: Request, k: nat)
    requires Acceptable(r) && k < |r.validating| && r.validating[k].key.id !in m
    ensures var id := r.validating[k].key.id;
            && id in MemoryStep(p, m, r)
            && if SelfRevoking(KeysOf(r.rrset), id) then MemoryStep(p, m, r)[id].state.Revoked? else Trusted(MemoryStep(p, m, r)[id])
  {
    var id, keys := r.validating[k].key.id, KeysOf(r.validating);
    KeyIsAmong(r.validating, |r.validating|, k);
    SeedsTheUntracked(p, m, keys, |keys|, k, r.now);
    var e := Observation(KeysOf(r.rrset), Validators(r), r.now, r.order);
    TrustEndsOnlyInRevocation(p, AfterSeeding(p, m, r), e, id);
  }
}

/**
 * The RFC 5011 trust-anchor state machine: what one observation of a validated
 * DNSKEY RRset does to every tracked key, stated key by key, and the manager whose
 * loops over a hash map compute exactly that.
 */
module TrustAnchors {
  import opened Bytes
  import opened AnchorIdentity

  datatype State = AddHoldDown | Valid | Missing | Revoked | RemoveHoldDown

  /** A DNSKEY of a validated RRset, with its canonical owner and its anchor identity computed once. */
  datatype Dnskey = Dnskey(
    id: AnchorId, owner: seq<Octet>, flags: Flags, algorithm: Octet, keyTag: nat, publicKey: seq<Octet>,
    originalTtl: nat,
    selfRevoked: bool)  // the revoked form authenticated the RRset with its own key

  datatype Entry = Entry(
    state: State, owner: seq<Octet>, keyTag: nat, flags: Flags, algorithm: Octet, publicKey: seq<Octet>,
    firstSeen: int, lastSeen: int, lastChange: int, holdDown: nat,
    validators: seq<AnchorId>)

  type Anchors = map<AnchorId, Entry>

  datatype Params = Params(minimumAdd: nat, remove: nat)

  /** The key as read from a record whose owner may be spelled in any way. */
  function KeyFromRecord(owner: seq<Octet>, flags: Flags, algorithm: Octet, keyTag: nat, publicKey: seq<Octet>,
                         originalTtl: nat, selfRevoked: bool): Dnskey
  {
    Dnskey(AnchorIdOf(owner, flags, algorithm, publicKey), CanonicalOwner(owner), flags, algorithm, keyTag, publicKey,
           originalTtl, selfRevoked)
  }

  /** The identity is the one `anchor_id` gives; the transitions themselves never look inside it. */
  predicate Identified(k: Dnskey) { k.id == AnchorIdOf(k.owner, k.flags, k.algorithm, k.publicKey) }

  lemma RecordsAreIdentified(owner: seq<Octet>, flags: Flags, algorithm: Octet, keyTag: nat, publicKey: seq<Octet>,
                             originalTtl: nat, selfRevoked: bool)
    ensures Identified(KeyFromRecord(owner, flags, algorithm, keyTag, publicKey, originalTtl, selfRevoked))
  {
    CanonicalOwnerIdempotent(owner);
  }

  function EntryId(e: Entry): AnchorId { AnchorIdOf(e.owner, e.flags, e.algorithm, e.publicKey) }

  /** Usable for validation. */
  predicate Trusted(e: Entry) { e.state.Valid? || e.state.Missing? }

  /** Permanently revoked, whether or not still published. */
  predicate Bad(e: Entry) { e.state.Revoked? || e.state.RemoveHoldDown? }

  /** The key an observation holds for an identity; of duplicates the last one counts. */
  function Observed(keys: seq<Dnskey>, n: nat, id: AnchorId): (r: Option<Dnskey>)
    requires n <= |keys|
    ensures r.Some? ==> r.value.id == id && r.value in keys
  {
    if n == 0 then None
    else if keys[n - 1].id == id then Some(keys[n - 1])
    else Observed(keys, n - 1, id)
  }

  function Seen(keys: seq<Dnskey>, id: AnchorId): Option<Dnskey> { Observed(keys, |keys|, id) }

  predicate PresentUnrevoked(keys: seq<Dnskey>, id: AnchorId) {
    Seen(keys, id).Some? && !IsRevoked(Seen(keys, id).value.flags)
  }

  predicate SelfRevoking(keys: seq<Dnskey>, id: AnchorId) {
    Seen(keys, id).Some? && IsRevoked(Seen(keys, id).value.flags) && Seen(keys, id).value.selfRevoked
  }

  /** A key an observation may introduce as a candidate. */
  predicate Eligible(k: Dnskey) { IsSep(k.flags) && !IsRevoked(k.flags) }

  function FirstEligible(keys: seq<Dnskey>, n: nat, id: AnchorId): (r: Option<Dnskey>)
    requires n <= |keys|
    ensures r.Some? ==> r.value.id == id && Eligible(r.value) && r.value in keys
  {
    if n == 0 then None
    else if FirstEligible(keys, n - 1, id).Some? then FirstEligible(keys, n - 1, id)
    else if keys[n - 1].id == id && Eligible(keys[n - 1]) then Some(keys[n - 1])
    else None
  }

  /** What becomes of one tracked key; None means it is dropped from the table. */
  function Fate(p: Params, e: Entry, present: Option<Dnskey>, reset: bool, now: int): Option<Entry> {
    match e.state
    case AddHoldDown =>
      if present.None? || reset || IsRevoked(present.value.flags) then None
      else if now - e.firstSeen >= e.holdDown then
        Some(e.(state := Valid, lastSeen := now, lastChange := now, validators := []))
      else Some(e.(lastSeen := now))
    case Revoked =>
      if present.None? then Some(e.(state := RemoveHoldDown, lastChange := now)) else Some(e.(lastSeen := now))
    case RemoveHoldDown =>
      if present.Some? then Some(e.(state := Revoked, lastSeen := now, lastChange := now))
      else if now - e.lastChange >= p.remove then None
      else Some(e)
    case _ =>
      if present.None? then
        if e.state.Missing? then Some(e) else Some(e.(state := Missing, lastChange := now))
      else
        var k := present.value;
        if IsRevoked(k.flags) && k.selfRevoked then
          Some(e.(state := Revoked, flags := SetRevoke(e.flags), keyTag := k.keyTag, lastSeen := now, lastChange := now))
        else if IsRevoked(k.flags) then Some(e)
        else if e.state.Missing? then Some(e.(state := Valid, lastSeen := now, lastChange := now))
        else Some(e.(lastSeen := now))
  }

  /** `v` counts as revoked once the ids in `before` have been processed. */
  predicate RevokedBy(m: Anchors, keys: seq<Dnskey>, before: set<AnchorId>, v: AnchorId) {
    v in m && (Bad(m[v]) || (v in before && Trusted(m[v]) && SelfRevoking(keys, v)))
  }

  /** Every validator of the candidate counts as revoked once the ids in `before` have been processed. */
  predicate Reset(m: Anchors, keys: seq<Dnskey>, before: set<AnchorId>, id: AnchorId)
    requires id in m
  {
    m[id].validators != [] && forall v | v in m[id].validators :: RevokedBy(m, keys, before, v)
  }

  /** The first `k` ids of an order. */
  function Elems(order: seq<AnchorId>, k: nat): set<AnchorId>
    requires k <= |order|
  {
    if k == 0 then {} else Elems(order, k - 1) + {order[k - 1]}
  }

  function Position(order: seq<AnchorId>, i: nat, id: AnchorId): (r: nat)
    requires i <= |order|
    ensures i <= r <= |order|
    decreases |order| - i
  {
    if i == |order| || order[i] == id then i else Position(order, i + 1, id)
  }

  /** The ids processed before `id`. */
  function Before(order: seq<AnchorId>, id: AnchorId): set<AnchorId> { Elems(order, Position(order, 0, id)) }

  /** `order` lists each of `ids` exactly once. */
  ghost predicate Enumerates(order: seq<AnchorId>, ids: set<AnchorId>) {
    && (forall i | 0 <= i < |order| :: order[i] !in Elems(order, i))
    && Elems(order, |order|) == ids
  }

  lemma {:induction false} ElemsGrow(order: seq<AnchorId>, i: nat, k: nat)
    requires i <= k <= |order|
    ensures Elems(order, i) <= Elems(order, k)
  {
    if i < k { ElemsGrow(order, i, k - 1); }
  }

  lemma {:induction false} PositionIs(order: seq<AnchorId>, k: nat, i: nat)
    requires i <= k < |order| && order[k] !in Elems(order, k)
    ensures Position(order, i, order[k]) == k
    decreases k - i
  {
    if i < k {
      ElemsGrow(order, i + 1, k);
      PositionIs(order, k, i + 1);
    }
  }

  function Track(p: Params, m: Anchors, keys: seq<Dnskey>, order: seq<AnchorId>, now: int, id: AnchorId): Option<Entry>
    requires id in m
  {
    Fate(p, m[id], Seen(keys, id), Reset(m, keys, Before(order, id), id), now)
  }

  /** The tracked keys that stay in the table. */
  function Survivors(p: Params, m: Anchors, keys: seq<Dnskey>, order: seq<AnchorId>, now: int): Anchors {
    map id | id in m && Track(p, m, keys, order, now, id).Some? :: Track(p, m, keys, order, now, id).value
  }

  function Candidate(p: Params, k: Dnskey, validators: seq<AnchorId>, now: int): Entry {
    Entry(AddHoldDown, k.owner, k.keyTag, ClearRevoke(k.flags), k.algorithm, k.publicKey,
          now, now, now, Max(p.minimumAdd, k.originalTtl), validators)
  }

  /** The candidates that the first `n` keys of an observation add to a table. */
  function Introduced(p: Params, m: Anchors, keys: seq<Dnskey>, n: nat, validators: seq<AnchorId>, now: int): Anchors
    requires n <= |keys|
  {
    if n == 0 then map[]
    else
      var before := Introduced(p, m, keys, n - 1, validators, now);
      var k := keys[n - 1];
      if k.id in m || k.id in before || !Eligible(k) then before
      else before[k.id := Candidate(p, k, validators, now)]
  }

  /** Exactly the untracked ids with an eligible key enter, each with the first such key. */
  lemma {:induction false} IntroducedAt(p: Params, m: Anchors, keys: seq<Dnskey>, n: nat, validators: seq<AnchorId>, now: int, id: AnchorId)
    requires n <= |keys|
    ensures id in Introduced(p, m, keys, n, validators, now) <==> id !in m && FirstEligible(keys, n, id).Some?
    ensures id in Introduced(p, m, keys, n, validators, now) ==>
              Introduced(p, m, keys, n, validators, now)[id] == Candidate(p, FirstEligible(keys, n, id).value, validators, now)
  {
    if n > 0 { IntroducedAt(p, m, keys, n - 1, validators, now, id); }
  }

  /** `observe_validated_rrset`, as a function of the order in which the table happens to be walked. */
  function Observe(p: Params, m: Anchors, keys: seq<Dnskey>, validators: seq<AnchorId>, now: int, order: seq<AnchorId>): Anchors {
    var kept := Survivors(p, m, keys, order, now);
    if validators == [] then kept else kept + Introduced(p, kept, keys, |keys|, validators, now)
  }

  /** Some key changed state, left the table or entered it. */
  predicate Changed(p: Params, m: Anchors, keys: seq<Dnskey>, validators: seq<AnchorId>, now: int, order: seq<AnchorId>) {
    || (exists id | id in m :: Moved(p, m, keys, order, now, id))
    || (validators != [] && Introduced(p, Survivors(p, m, keys, order, now), keys, |keys|, validators, now) != map[])
  }

  predicate Moved(p: Params, m: Anchors, keys: seq<Dnskey>, order: seq<AnchorId>, now: int, id: AnchorId)
    requires id in m
  {
    var fate := Track(p, m, keys, order, now, id);
    fate.None? || fate.value.state != m[id].state
  }

  function Seeded(p: Params, k: Dnskey, now: int): Entry {
    Entry(Valid, k.owner, k.keyTag, ClearRevoke(k.flags), k.algorithm, k.publicKey,
          now, now, now, p.minimumAdd, [])
  }

  predicate Purgeable(p: Params, e: Entry, now: int) {
    e.state.RemoveHoldDown? && now - e.lastChange >= p.remove
  }

  function AfterTimers(p: Params, m: Anchors, now: int): Anchors {
    map id | id in m && !Purgeable(p, m[id], now) :: m[id]
  }

  // ----- The manager ----------------------------------------------------------

  /** The entry a turn leaves behind; dropped keys stay as they are until the walk is over. */
  ghost function AfterTurn(p: Params, m: Anchors, keys: seq<Dnskey>, order: seq<AnchorId>, now: int, id: AnchorId): Entry
    requires id in m
  {
    match Track(p, m, keys, order, now, id)
    case Some(e) => e
    case None => m[id]
  }

  /** The table, the ids to drop and whether anything moved, once the first `k` ids have had their turn. */
  ghost function Walk(p: Params, m: Anchors, keys: seq<Dnskey>, order: seq<AnchorId>, now: int, k: nat): Anchors
    requires k <= |order|
  {
    if k == 0 then m
    else
      var before, id := Walk(p, m, keys, order, now, k - 1), order[k - 1];
      if id in m then before[id := AfterTurn(p, m, keys, order, now, id)] else before
  }

  ghost function Drops(p: Params, m: Anchors, keys: seq<Dnskey>, order: seq<AnchorId>, now: int, k: nat): set<AnchorId>
    requires k <= |order|
  {
    if k == 0 then {}
    else
      var before, id := Drops(p, m, keys, order, now, k - 1), order[k - 1];
      if id in m && Track(p, m, keys, order, now, id).None? then before + {id} else before
  }

  ghost predicate AnyMoved(p: Params, m: Anchors, keys: seq<Dnskey>, order: seq<AnchorId>, now: int, k: nat)
    requires k <= |order|
  {
    k > 0 && (AnyMoved(p, m, keys, order, now, k - 1)
              || (order[k - 1] in m && Moved(p, m, keys, order, now, order[k - 1])))
  }

  lemma {:induction false} WalkAt(p: Params, m: Anchors, keys: seq<Dnskey>, order: seq<AnchorId>, now: int, k: nat, id: AnchorId)
    requires k <= |order|
    ensures id in Walk(p, m, keys, order, now, k) <==> id in m
    ensures id in m ==>
              var e := Walk(p, m, keys, order, now, k)[id];
              e == if id in Elems(order, k) then AfterTurn(p, m, keys, order, now, id) else m[id]
    ensures id in Drops(p, m, keys, order, now, k) <==>
              id in m && id in Elems(order, k) && Track(p, m, keys, order, now, id).None?
  {
    if k > 0 { WalkAt(p, m, keys, order, now, k - 1, id); }
  }

  lemma {:induction false} AnyMovedIs(p: Params, m: Anchors, keys: seq<Dnskey>, order: seq<AnchorId>, now: int, k: nat)
    requires k <= |order|
    ensures AnyMoved(p, m, keys, order, now, k) <==>
            exists id | id in m && id in Elems(order, k) :: Moved(p, m, keys, order, now, id)
  {
    if k > 0 { AnyMovedIs(p, m, keys, order, now, k - 1); }
  }

  /** A revocation seen earlier in the walk is the only way a validator turns bad during it. */
  lemma BadAfterTurn(p: Params, m: Anchors, keys: seq<Dnskey>, order: seq<AnchorId>, now: int, id: AnchorId)
    requires id in m
    ensures Bad(AfterTurn(p, m, keys, order, now, id)) <==> Bad(m[id]) || (Trusted(m[id]) && SelfRevoking(keys, id))
  {
  }

  predicate ResetNow(cur: Anchors, e: Entry) {
    e.validators != [] && forall v | v in e.validators :: v in cur && Bad(cur[v])
  }

  /** The half-updated table answers the validator question as the walk's order prescribes. */
  lemma ResetInTurn(p: Params, m: Anchors, keys: seq<Dnskey>, order: seq<AnchorId>, now: int, k: nat)
    requires Enumerates(order, m.Keys) && k < |order|
    ensures order[k] in m && order[k] in Walk(p, m, keys, order, now, k)
    ensures Walk(p, m, keys, order, now, k)[order[k]] == m[order[k]]
    ensures ResetNow(Walk(p, m, keys, order, now, k), m[order[k]]) ==
            Reset(m, keys, Before(order, order[k]), order[k])
  {
    ElemsGrow(order, k + 1, |order|);
    WalkAt(p, m, keys, order, now, k, order[k]);
    PositionIs(order, k, 0);
    var cur := Walk(p, m, keys, order, now, k);
    forall v ensures (v in cur && Bad(cur[v])) == RevokedBy(m, keys, Elems(order, k), v) {
      WalkAt(p, m, keys, order, now, k, v);
      if v in m { BadAfterTurn(p, m, keys, order, now, v); }
    }
  }

  lemma WalkDone(p: Params, m: Anchors, keys: seq<Dnskey>, order: seq<AnchorId>, now: int)
    requires Elems(order, |order|) == m.Keys
    ensures Walk(p, m, keys, order, now, |order|) - Drops(p, m, keys, order, now, |order|) == Survivors(p, m, keys, order, now)
    ensures AnyMoved(p, m, keys, order, now, |order|) <==> exists id | id in m :: Moved(p, m, keys, order, now, id)
  {
    forall id
      ensures id in Walk(p, m, keys, order, now, |order|) <==> id in m
      ensures id in m ==> Walk(p, m, keys, order, now, |order|)[id] == AfterTurn(p, m, keys, order, now, id)
      ensures id in Drops(p, m, keys, order, now, |order|) <==> id in m && Track(p, m, keys, order, now, id).None?
    {
      WalkAt(p, m, keys, order, now, |order|, id);
    }
    AnyMovedIs(p, m, keys, order, now, |order|);
  }

  class TrustAnchorManager {
    var anchors: Anchors
    const params: Params

    constructor (params: Params)
      ensures anchors == map[] && this.params == params
    {
      anchors := map[];
      this.params := params;
    }

    method SeedValidAnchor(key: Dnskey, now: int) returns (id: AnchorId)
      modifies this
      ensures id == key.id && anchors == old(anchors)[id := Seeded(params, key, now)]
    {
      id := key.id;
      anchors := anchors[id := Seeded(params, key, now)];
    }

    method ObserveValidatedRrset(keys: seq<Dnskey>, validators: seq<AnchorId>, now: int, order: seq<AnchorId>)
      returns (changed: bool)
      requires Enumerates(order, anchors.Keys)
      modifies this
      ensures anchors == Observe(params, old(anchors), keys, validators, now, order)
      ensures changed <==> Changed(params, old(anchors), keys, validators, now, order)
    {
      ghost var m := anchors;
      changed := WalkTracked(keys, now, order);
      if validators != [] {
        var added := AddCandidates(keys, validators, now);
        changed := changed || added;
      }
    }

    /** The first loop of an observation, and the removals it defers to its end. */
    method WalkTracked(keys: seq<Dnskey>, now: int, order: seq<AnchorId>) returns (changed: bool)
      requires Enumerates(order, anchors.Keys)
      modifies this
      ensures anchors == Survivors(params, old(anchors), keys, order, now)
      ensures changed <==> exists id | id in old(anchors) :: Moved(params, old(anchors), keys, order, now, id)
    {
      ghost var m := anchors;
      var dropped: set<AnchorId> := {};
      changed := false;
      for k := 0 to |order|
        invariant anchors == Walk(params, m, keys, order, now, k)
        invariant dropped == Drops(params, m, keys, order, now, k)
        invariant changed == AnyMoved(params, m, keys, order, now, k)
      {
        ResetInTurn(params, m, keys, order, now, k);
        var moved, drop := ProcessTracked(order[k], Seen(keys, order[k]), now);
        if drop { dropped := dropped + {order[k]}; }
        changed := changed || moved;
      }
      WalkDone(params, m, keys, order, now);
      anchors := anchors - dropped;
    }

    /** One turn of the walk: updates the entry in place, or asks for it to be dropped afterwards. */
    method ProcessTracked(id: AnchorId, present: Option<Dnskey>, now: int) returns (moved: bool, drop: bool)
      requires id in anchors
      modifies this
      ensures var e := old(anchors)[id];
              var fate := Fate(params, e, present, ResetNow(old(anchors), e), now);
              && anchors == (if fate.Some? then old(anchors)[id := fate.value] else old(anchors))
              && drop == fate.None? && moved == (fate.None? || fate.value.state != e.state)
    {
      var e := anchors[id];
      moved, drop := false, false;
      if e.state == AddHoldDown {
        if present.None? || ResetNow(anchors, e) || IsRevoked(present.value.flags) { return true, true; }
        anchors := anchors[id := anchors[id].(lastSeen := now)];
        if now - e.firstSeen >= e.holdDown {
          anchors := anchors[id := anchors[id].(state := Valid, lastChange := now, validators := [])];
          moved := true;
        }
      } else if e.state == Revoked {
        if present.None? {
          anchors := anchors[id := e.(state := RemoveHoldDown, lastChange := now)];
          moved := true;
        } else {
          anchors := anchors[id := e.(lastSeen := now)];
        }
      } else if e.state == RemoveHoldDown {
        if present.Some? {
          anchors := anchors[id := e.(state := Revoked, lastSeen := now, lastChange := now)];
          moved := true;
        } else if now - e.lastChange >= params.remove {
          return true, true;
        }
      } else if present.None? {
        if e.state != Missing {
          anchors := anchors[id := e.(state := Missing, lastChange := now)];
          moved := true;
        }
      } else if IsRevoked(present.value.flags) {
        if present.value.selfRevoked {
          anchors := anchors[id := e.(state := Revoked, flags := SetRevoke(e.flags), keyTag := present.value.keyTag,
                                      lastSeen := now, lastChange := now)];
          moved := true;
        }
      } else {
        anchors := anchors[id := anchors[id].(lastSeen := now)];
        if e.state == Missing {
          anchors := anchors[id := anchors[id].(state := Valid, lastChange := now)];
          moved := true;
        }
      }
    }

    /** The second loop of an observation: untracked, unrevoked secure entry points become candidates. */
    method AddCandidates(keys: seq<Dnskey>, validators: seq<AnchorId>, now: int) returns (added: bool)
      modifies this
      ensures var more := Introduced(params, old(anchors), keys, |keys|, validators, now);
              anchors == old(anchors) + more && (added <==> more != map[])
    {
      ghost var m := anchors;
      added := false;
      for n := 0 to |keys|
        invariant anchors == m + Introduced(params, m, keys, n, validators, now)
        invariant added <==> Introduced(params, m, keys, n, validators, now) != map[]
      {
        var id := keys[n].id;
        if id in anchors || !IsSep(keys[n].flags) || IsRevoked(keys[n].flags) { continue; }
        anchors := anchors[id := Candidate(params, keys[n], validators, now)];
        assert id in Introduced(params, m, keys, n + 1, validators, now);
        added := true;
      }
    }

    method ProcessTimers(now: int) returns (purged: bool)
      modifies this
      ensures anchors == AfterTimers(params, old(anchors), now)
      ensures purged <==> exists id | id in old(anchors) :: Purgeable(params, old(anchors)[id], now)
    {
      var before := |anchors|;
      ghost var m := anchors;
      anchors := AfterTimers(params, anchors, now);
      purged := before != |anchors|;
      SubmapSize(anchors, m);
    }
  }

  lemma SubmapSize(a: Anchors, b: Anchors)
    requires forall id | id in a :: id in b && a[id] == b[id]
    ensures |a| == |b| <==> a == b
  {
    assert a.Keys <= b.Keys;
    if a.Keys != b.Keys {
      assert |b.Keys - a.Keys| + |a.Keys| == |b.Keys|;
    }
  }
}

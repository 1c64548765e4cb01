/**
 * When the result of an observation depends on the order in which the hash map is
 * walked: exactly when a candidate's last trustworthy validators revoke themselves in
 * the same RRset and losing its place makes a difference to the candidate.
 */
module TrustOrder {
  import opened Bytes
  import opened AnchorIdentity
  import opened TrustAnchors
  import opened TrustRuns

  /** What an observation leaves of a tracked key, given the answer to the validator question. */
  function FinalOf(p: Params, m: Anchors, keys: seq<Dnskey>, validators: seq<AnchorId>, now: int, id: AnchorId, reset: bool): Option<Entry>
    requires id in m
  {
    var fate := Fate(p, m[id], Seen(keys, id), reset, now);
    if fate.Some? then fate
    else if validators != [] && FirstEligible(keys, |keys|, id).Some? then
      Some(Candidate(p, FirstEligible(keys, |keys|, id).value, validators, now))
    else None
  }

  /** Every validator of the candidate is revoked already or revokes itself now, and some only now. */
  predicate Contested(m: Anchors, keys: seq<Dnskey>, id: AnchorId)
    requires id in m
  {
    && m[id].state.AddHoldDown?
    && (forall v | v in m[id].validators :: RevokedBy(m, keys, m.Keys, v))
    && (exists v | v in m[id].validators :: v in m && !Bad(m[v]))
  }

  /**
   * Losing its place makes no difference to the candidate: its key is absent or revoked in the
   * observation, or it is not due yet and would be introduced again as the same entry.
   */
  predicate Unharmed(p: Params, m: Anchors, keys: seq<Dnskey>, validators: seq<AnchorId>, now: int, id: AnchorId)
    requires id in m
  {
    || !PresentUnrevoked(keys, id)
    || (&& now - m[id].firstSeen < m[id].holdDown
        && validators != [] && FirstEligible(keys, |keys|, id).Some?
        && Candidate(p, FirstEligible(keys, |keys|, id).value, validators, now) == m[id].(lastSeen := now))
  }

  lemma UnharmedIff(p: Params, m: Anchors, keys: seq<Dnskey>, validators: seq<AnchorId>, now: int, id: AnchorId)
    requires id in m && m[id].state.AddHoldDown?
    ensures Unharmed(p, m, keys, validators, now, id) <==>
            FinalOf(p, m, keys, validators, now, id, true) == FinalOf(p, m, keys, validators, now, id, false)
  {
  }

  /** The condition, checkable before the call, under which the walk's order is immaterial. */
  predicate NothingAtStake(p: Params, m: Anchors, keys: seq<Dnskey>, validators: seq<AnchorId>, now: int) {
    forall id | id in m && Contested(m, keys, id) :: Unharmed(p, m, keys, validators, now, id)
  }

  ghost predicate OrderFree(p: Params, m: Anchors, keys: seq<Dnskey>, validators: seq<AnchorId>, now: int) {
    forall o1, o2 | Enumerates(o1, m.Keys) && Enumerates(o2, m.Keys) ::
      Observe(p, m, keys, validators, now, o1) == Observe(p, m, keys, validators, now, o2)
  }

  lemma ResetOnlyIfContested(m: Anchors, keys: seq<Dnskey>, b1: set<AnchorId>, b2: set<AnchorId>, id: AnchorId)
    requires id in m && m[id].state.AddHoldDown? && !Contested(m, keys, id) && b1 <= m.Keys && b2 <= m.Keys
    ensures Reset(m, keys, b1, id) == Reset(m, keys, b2, id)
  {
    forall v, b: set<AnchorId> | b <= m.Keys && RevokedBy(m, keys, b, v) ensures RevokedBy(m, keys, m.Keys, v) {}
    if m[id].validators != [] && forall v | v in m[id].validators :: RevokedBy(m, keys, m.Keys, v) {
      assert forall v | v in m[id].validators :: v in m && Bad(m[v]);
    }
  }

  lemma {:induction false} BeforeIsTracked(order: seq<AnchorId>, ids: set<AnchorId>, id: AnchorId)
    requires Enumerates(order, ids)
    ensures Before(order, id) <= ids
  {
    ElemsGrow(order, Position(order, 0, id), |order|);
  }

  lemma SameFinal(p: Params, m: Anchors, keys: seq<Dnskey>, validators: seq<AnchorId>, now: int,
                  o1: seq<AnchorId>, o2: seq<AnchorId>, id: AnchorId)
    requires NothingAtStake(p, m, keys, validators, now) && id in m
    requires Enumerates(o1, m.Keys) && Enumerates(o2, m.Keys)
    ensures FinalOf(p, m, keys, validators, now, id, Reset(m, keys, Before(o1, id), id)) ==
            FinalOf(p, m, keys, validators, now, id, Reset(m, keys, Before(o2, id), id))
  {
    if m[id].state.AddHoldDown? {
      if Contested(m, keys, id) {
        UnharmedIff(p, m, keys, validators, now, id);
      } else {
        BeforeIsTracked(o1, m.Keys, id);
        BeforeIsTracked(o2, m.Keys, id);
        ResetOnlyIfContested(m, keys, Before(o1, id), Before(o2, id), id);
      }
    }
  }

  lemma StakelessIsOrderFree(p: Params, m: Anchors, keys: seq<Dnskey>, validators: seq<AnchorId>, now: int)
    requires NothingAtStake(p, m, keys, validators, now)
    ensures OrderFree(p, m, keys, validators, now)
  {
    forall o1, o2 | Enumerates(o1, m.Keys) && Enumerates(o2, m.Keys)
      ensures Observe(p, m, keys, validators, now, o1) == Observe(p, m, keys, validators, now, o2)
    {
      var (r1, r2) := (Observe(p, m, keys, validators, now, o1), Observe(p, m, keys, validators, now, o2));
      forall id ensures (id in r1 <==> id in r2) && (id in r1 && id in r2 ==> r1[id] == r2[id]) {
        ObserveAt(p, m, keys, validators, now, o1, id);
        ObserveAt(p, m, keys, validators, now, o2, id);
        if id in m { SameFinal(p, m, keys, validators, now, o1, o2, id); }
      }
      assert r1.Keys == r2.Keys;
    }
  }

  // ----- Conversely, two orders tell a contested candidate apart ---------------

  lemma {:induction false} ElemsOfPrefix(order: seq<AnchorId>, x: AnchorId, k: nat)
    requires k <= |order|
    ensures Elems(order + [x], k) == Elems(order, k)
  {
    if k > 0 { ElemsOfPrefix(order, x, k - 1); }
  }

  lemma EnumerateOneMore(order: seq<AnchorId>, ids: set<AnchorId>, x: AnchorId)
    requires Enumerates(order, ids) && x !in ids
    ensures Enumerates(order + [x], ids + {x})
  {
    var more := order + [x];
    forall k | 0 <= k <= |order| ensures Elems(more, k) == Elems(order, k) { ElemsOfPrefix(order, x, k); }
  }

  /** Any enumeration of a part extends to one of the whole. */
  lemma {:induction false} ExtendEnumeration(order: seq<AnchorId>, part: set<AnchorId>, all: set<AnchorId>) returns (r: seq<AnchorId>)
    requires Enumerates(order, part) && part <= all
    ensures Enumerates(r, all) && (order != [] ==> r != [] && r[0] == order[0])
    decreases all - part
  {
    var left := all - part;
    if left == {} {
      assert part == all;
      r := order;
    } else {
      var x :| x in left;
      EnumerateOneMore(order, part, x);
      r := ExtendEnumeration(order + [x], part + {x}, all);
    }
  }

  lemma FirstHasNoneBefore(order: seq<AnchorId>, id: AnchorId)
    requires order != [] && order[0] == id
    ensures Before(order, id) == {}
  {
  }

  lemma LastHasAllBefore(order: seq<AnchorId>, ids: set<AnchorId>, id: AnchorId)
    requires Enumerates(order, ids) && id !in ids
    ensures Before(order + [id], id) == ids
  {
    var k := |order|;
    ElemsOfPrefix(order, id, k);
    PositionIs(order + [id], k, 0);
  }

  lemma ContestedDependsOnOrder(p: Params, m: Anchors, keys: seq<Dnskey>, validators: seq<AnchorId>, now: int, id: AnchorId)
    requires id in m && Contested(m, keys, id) && OrderFree(p, m, keys, validators, now)
    ensures FinalOf(p, m, keys, validators, now, id, true) == FinalOf(p, m, keys, validators, now, id, false)
  {
    EnumerateOneMore([], {}, id);
    var early := ExtendEnumeration([] + [id], {} + {id}, m.Keys);
    FirstHasNoneBefore(early, id);
    var rest := ExtendEnumeration([], {}, m.Keys - {id});
    EnumerateOneMore(rest, m.Keys - {id}, id);
    var late := rest + [id];
    assert m.Keys - {id} + {id} == m.Keys;
    LastHasAllBefore(rest, m.Keys - {id}, id);
    ContestedResets(m, keys, id);
    ObserveAt(p, m, keys, validators, now, early, id);
    ObserveAt(p, m, keys, validators, now, late, id);
  }

  lemma ContestedResets(m: Anchors, keys: seq<Dnskey>, id: AnchorId)
    requires id in m && Contested(m, keys, id)
    ensures !Reset(m, keys, {}, id) && Reset(m, keys, m.Keys - {id}, id)
  {
    var v :| v in m[id].validators && v in m && !Bad(m[v]);
    assert !RevokedBy(m, keys, {}, v);
  }

  /** The order of the walk is immaterial exactly when nothing is at stake. */
  lemma OrderFreeIff(p: Params, m: Anchors, keys: seq<Dnskey>, validators: seq<AnchorId>, now: int)
    ensures OrderFree(p, m, keys, validators, now) <==> NothingAtStake(p, m, keys, validators, now)
  {
    if NothingAtStake(p, m, keys, validators, now) {
      StakelessIsOrderFree(p, m, keys, validators, now);
    }
    if OrderFree(p, m, keys, validators, now) {
      forall id | id in m && Contested(m, keys, id) ensures Unharmed(p, m, keys, validators, now, id) {
        ContestedDependsOnOrder(p, m, keys, validators, now, id);
        UnharmedIff(p, m, keys, validators, now, id);
      }
    }
  }

  /** In particular an observation without a self-revocation of a trusted key is order-free. */
  lemma OrderFreeWithoutRevocation(p: Params, m: Anchors, keys: seq<Dnskey>, validators: seq<AnchorId>, now: int)
    requires forall id | id in m && Trusted(m[id]) :: !SelfRevoking(keys, id)
    ensures OrderFree(p, m, keys, validators, now)
  {
    assert forall v | v in m && RevokedBy(m, keys, m.Keys, v) :: Bad(m[v]);
    StakelessIsOrderFree(p, m, keys, validators, now);
  }

  // ----- A run in which the order matters ------------------------------------------------------

  /** A root key, its revoked form, and another key. */
  lemma ExampleKeys() returns (a: Dnskey, r: Dnskey, b: Dnskey)
    ensures r.id == a.id != b.id && Identified(a) && Identified(r) && Identified(b)
    ensures !IsRevoked(a.flags) && Eligible(b) && IsRevoked(r.flags) && r.selfRevoked
  {
    a := KeyFromRecord([DOT], 0x0101, 8, 1, [7], 60, false);
    r := KeyFromRecord([DOT], 0x0181, 8, 3, [7], 60, true);
    b := KeyFromRecord([DOT], 0x0101, 8, 2, [9], 60, false);
    RootOwner();
    RecordsAreIdentified([DOT], 0x0101, 8, 1, [7], 60, false);
    RecordsAreIdentified([DOT], 0x0181, 8, 3, [7], 60, true);
    RecordsAreIdentified([DOT], 0x0101, 8, 2, [9], 60, false);
    IdentityIsExact([DOT], 0x0101, 8, [7], [DOT], 0x0101, 8, [9]);
  }

  /** The events: one key is seeded, and validates an observation that introduces another. */
  function ExampleEvents(a: Dnskey, b: Dnskey, now: int): seq<Event> {
    [Seed(a, now), Observation([a, b], [a.id], now, [a.id])]
  }

  /** The second key enters the table as a candidate. */
  lemma Introduces(p: Params, a: Dnskey, b: Dnskey, now: int)
    requires a.id != b.id && !IsRevoked(a.flags) && Eligible(b)
    ensures var m := Observe(p, map[a.id := Seeded(p, a, now)], [a, b], [a.id], now, [a.id]);
            && m.Keys == {a.id, b.id} && m[a.id].state.Valid? && m[b.id] == Candidate(p, b, [a.id], now)
  {
    var t, keys := map[a.id := Seeded(p, a, now)], [a, b];
    var m := Observe(p, t, keys, [a.id], now, [a.id]);
    assert Observed(keys, 1, a.id) == Some(a) && Seen(keys, a.id) == Some(a);
    assert FirstEligible(keys, 0, b.id) == None;
    assert FirstEligible(keys, 1, b.id) == None && FirstEligible(keys, 2, b.id) == Some(b);
    forall id ensures id in m <==> id == a.id || id == b.id {
      ObserveAt(p, t, keys, [a.id], now, [a.id], id);
      assert FirstEligible(keys, 2, id).Some? ==> id == a.id || id == b.id;
    }
    ObserveAt(p, t, keys, [a.id], now, [a.id], a.id);
    ObserveAt(p, t, keys, [a.id], now, [a.id], b.id);
  }

  lemma TwoOrders(a: AnchorId, b: AnchorId)
    requires a != b
    ensures Enumerates([a, b], {a, b}) && Before([a, b], b) == {a} && Before([b, a], b) == {} && Enumerates([b, a], {a, b})
  {
    assert Elems([a, b], 0) == {} && Elems([a, b], 1) == {a} && Elems([a, b], 2) == {a, b};
    assert Elems([b, a], 0) == {} && Elems([b, a], 1) == {b} && Elems([b, a], 2) == {a, b};
    assert Position([a, b], 0, b) == Position([a, b], 1, b) == 1 && Position([b, a], 0, b) == 0;
  }

  /** The candidate keeps its place exactly if it has its turn before its validator revokes itself. */
  lemma TurnMatters(p: Params, m: Anchors, r: Dnskey, b: Dnskey, now: int)
    requires r.id != b.id && m.Keys == {r.id, b.id} && m[r.id].state.Valid? && m[b.id] == Candidate(p, b, [r.id], now)
    requires IsRevoked(r.flags) && r.selfRevoked && !IsRevoked(b.flags)
    ensures b.id !in Observe(p, m, [r, b], [], now, [r.id, b.id])
    ensures b.id in Observe(p, m, [r, b], [], now, [b.id, r.id])
  {
    var keys := [r, b];
    assert Observed(keys, 1, r.id) == Some(r) && Seen(keys, r.id) == Some(r) && Seen(keys, b.id) == Some(b);
    TwoOrders(r.id, b.id);
    assert [r.id][0] == r.id;
    assert RevokedBy(m, keys, {r.id}, r.id) && !RevokedBy(m, keys, {}, r.id);
    assert Reset(m, keys, {r.id}, b.id) && !Reset(m, keys, {}, b.id);
    ObserveAt(p, m, keys, [], now, [r.id, b.id], b.id);
    ObserveAt(p, m, keys, [], now, [b.id, r.id], b.id);
  }

  lemma ExampleTable(p: Params, a: Dnskey, b: Dnskey, now: int)
    requires a.id != b.id && !IsRevoked(a.flags) && Eligible(b)
    ensures var m := Run(p, ExampleEvents(a, b, now), 2);
            && m.Keys == {a.id, b.id} && m[a.id].state.Valid? && m[b.id] == Candidate(p, b, [a.id], now)
  {
    var events := ExampleEvents(a, b, now);
    assert Run(p, events, 0) == map[];
    assert Run(p, events, 1) == map[a.id := Seeded(p, a, now)];
    Introduces(p, a, b, now);
  }

  /** After the events, the two orders of walking the table give different results. */
  ghost predicate OrdersTell(p: Params, events: seq<Event>, keys: seq<Dnskey>, now: int, o1: seq<AnchorId>, o2: seq<AnchorId>) {
    var m := Run(p, events, |events|);
    && Enumerates(o1, m.Keys) && Enumerates(o2, m.Keys)
    && Observe(p, m, keys, [], now, o1) != Observe(p, m, keys, [], now, o2)
  }

  lemma ExampleIdentified(a: Dnskey, b: Dnskey, now: int)
    requires Identified(a) && Identified(b)
    ensures forall k | 0 <= k < |ExampleEvents(a, b, now)| :: KeysIdentified(ExampleEvents(a, b, now)[k])
  {
  }

  lemma OrdersDiffer(p: Params, a: Dnskey, r: Dnskey, b: Dnskey, now: int)
    requires r.id == a.id != b.id && !IsRevoked(a.flags) && Eligible(b) && IsRevoked(r.flags) && r.selfRevoked
    ensures OrdersTell(p, ExampleEvents(a, b, now), [r, b], now, [r.id, b.id], [b.id, r.id])
  {
    ExampleTable(p, a, b, now);
    TwoOrders(r.id, b.id);
    TurnMatters(p, Run(p, ExampleEvents(a, b, now), 2), r, b, now);
  }

  /** The order can matter in a table that a run reaches: a candidate loses its place or keeps it. */
  lemma OrderCanMatter(p: Params, now: int)
    returns (events: seq<Event>, keys: seq<Dnskey>, o1: seq<AnchorId>, o2: seq<AnchorId>)
    ensures (forall k | 0 <= k < |events| :: KeysIdentified(events[k])) && forall key | key in keys :: Identified(key)
    ensures OrdersTell(p, events, keys, now, o1, o2)
  {
    var a, r, b := ExampleKeys();
    events, keys := ExampleEvents(a, b, now), [r, b];
    o1, o2 := [r.id, b.id], [b.id, r.id];
    ExampleIdentified(a, b, now);
    OrdersDiffer(p, a, r, b, now);
  }
}

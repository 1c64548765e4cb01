/**
 * What holds of every run of the trust-anchor table: sequences of seeding,
 * observations and timer ticks, with clocks that need not be monotonic and any
 * order of walking the table.
 */
module TrustRuns {
  import opened Bytes
  import opened AnchorIdentity
  import opened TrustAnchors

  datatype Event =
    | Seed(key: Dnskey, now: int)
    | Observation(keys: seq<Dnskey>, validators: seq<AnchorId>, now: int, order: seq<AnchorId>)
    | Tick(now: int)

  function Step(p: Params, m: Anchors, e: Event): Anchors {
    match e
    case Seed(key, now) => m[key.id := Seeded(p, key, now)]
    case Observation(keys, validators, now, order) => Observe(p, m, keys, validators, now, order)
    case Tick(now) => AfterTimers(p, m, now)
  }

  /** The table after the first `n` events, starting from an empty one. */
  function Run(p: Params, events: seq<Event>, n: nat): Anchors
    requires n <= |events|
  {
    if n == 0 then map[] else Step(p, Run(p, events, n - 1), events[n - 1])
  }

  /** What an observation does to one identity, tracked or not. */
  lemma ObserveAt(p: Params, m: Anchors, keys: seq<Dnskey>, validators: seq<AnchorId>, now: int, order: seq<AnchorId>, id: AnchorId)
    ensures var o := Observe(p, m, keys, validators, now, order);
            if id in m && Track(p, m, keys, order, now, id).Some? then
              id in o && o[id] == Track(p, m, keys, order, now, id).value
            else if validators != [] && FirstEligible(keys, |keys|, id).Some? then
              id in o && o[id] == Candidate(p, FirstEligible(keys, |keys|, id).value, validators, now)
            else id !in o
  {
    IntroducedAt(p, Survivors(p, m, keys, order, now), keys, |keys|, validators, now, id);
  }

  lemma {:induction false} AbsentNotEligible(keys: seq<Dnskey>, n: nat, id: AnchorId)
    requires n <= |keys| && FirstEligible(keys, n, id).Some?
    ensures Observed(keys, n, id).Some?
  {
    if FirstEligible(keys, n - 1, id).Some? { AbsentNotEligible(keys, n - 1, id); }
  }

  // ----- Acceptance needs an uninterrupted hold-down ---------------------------

  predicate NeverSeeded(events: seq<Event>, n: nat, id: AnchorId)
    requires n <= |events|
  {
    forall k | 0 <= k < n :: events[k].Seed? ==> events[k].key.id != id
  }

  /** Every observation strictly between `i` and `n` shows the key, unrevoked. */
  predicate SeenThroughout(events: seq<Event>, i: nat, n: nat, id: AnchorId)
    requires n <= |events|
  {
    forall k | i < k < n :: events[k].Observation? ==> PresentUnrevoked(events[k].keys, id)
  }

  /** Event `i` introduced the key: authenticated, unrevoked, a secure entry point, with the given TTL. */
  predicate Introduces(events: seq<Event>, i: nat, id: AnchorId, ttl: nat)
    requires i < |events|
  {
    && events[i].Observation? && events[i].validators != []
    && exists k | k in events[i].keys :: k.id == id && Eligible(k) && k.originalTtl == ttl
  }

  /** A candidate whose hold-down started at event `i` and was never interrupted. */
  predicate Waiting(p: Params, events: seq<Event>, n: nat, id: AnchorId, i: nat, ttl: nat, e: Entry)
    requires n <= |events|
  {
    && i < n && Introduces(events, i, id, ttl) && SeenThroughout(events, i, n, id)
    && e.firstSeen == events[i].now && e.holdDown == Max(p.minimumAdd, ttl)
  }

  /** The key was seen unrevoked in every observation from `i` to `j`, over at least the hold-down time. */
  predicate Accepted(p: Params, events: seq<Event>, id: AnchorId, i: nat, j: nat, ttl: nat) {
    && i < j < |events| && Introduces(events, i, id, ttl) && SeenThroughout(events, i, j + 1, id)
    && events[j].Observation? && events[j].now - events[i].now >= Max(p.minimumAdd, ttl)
  }

  ghost predicate Justified(p: Params, events: seq<Event>, n: nat, id: AnchorId, e: Entry)
    requires n <= |events|
  {
    if e.state.AddHoldDown? then exists i, ttl :: Waiting(p, events, n, id, i, ttl, e)
    else exists i: nat, j: nat, ttl: nat :: j < n && Accepted(p, events, id, i, j, ttl)
  }

  lemma JustifiedByIntroduction(p: Params, events: seq<Event>, n: nat, id: AnchorId)
    requires n < |events| && events[n].Observation? && events[n].validators != []
    requires FirstEligible(events[n].keys, |events[n].keys|, id).Some?
    ensures var k := FirstEligible(events[n].keys, |events[n].keys|, id).value;
            Justified(p, events, n + 1, id, Candidate(p, k, events[n].validators, events[n].now))
  {
    var k := FirstEligible(events[n].keys, |events[n].keys|, id).value;
    assert Waiting(p, events, n + 1, id, n, k.originalTtl, Candidate(p, k, events[n].validators, events[n].now));
  }

  /** Surviving an observation keeps an entry's justification, and turns waiting into acceptance. */
  lemma JustifiedByFate(p: Params, events: seq<Event>, n: nat, id: AnchorId, e: Entry, reset: bool)
    requires n < |events| && events[n].Observation? && Justified(p, events, n, id, e)
    requires Fate(p, e, Seen(events[n].keys, id), reset, events[n].now).Some?
    ensures Justified(p, events, n + 1, id, Fate(p, e, Seen(events[n].keys, id), reset, events[n].now).value)
  {
    var e' := Fate(p, e, Seen(events[n].keys, id), reset, events[n].now).value;
    if e.state.AddHoldDown? {
      var i, ttl :| Waiting(p, events, n, id, i, ttl, e);
      assert SeenThroughout(events, i, n + 1, id);
      if e'.state.AddHoldDown? {
        assert Waiting(p, events, n + 1, id, i, ttl, e');
      } else {
        assert Accepted(p, events, id, i, n, ttl);
      }
    } else {
      var i: nat, j: nat, ttl: nat :| j < n && Accepted(p, events, id, i, j, ttl);
      assert j < n + 1 && Accepted(p, events, id, i, j, ttl);
    }
  }

  /** Events that are not observations leave the key alone keep its justification. */
  lemma JustifiedByQuiet(p: Params, events: seq<Event>, n: nat, id: AnchorId, e: Entry)
    requires n < |events| && !events[n].Observation? && Justified(p, events, n, id, e)
    ensures Justified(p, events, n + 1, id, e)
  {
    if e.state.AddHoldDown? {
      var i, ttl :| Waiting(p, events, n, id, i, ttl, e);
      assert Waiting(p, events, n + 1, id, i, ttl, e);
    } else {
      var i: nat, j: nat, ttl: nat :| j < n && Accepted(p, events, id, i, j, ttl);
      assert j < n + 1 && Accepted(p, events, id, i, j, ttl);
    }
  }

  lemma {:induction false} RunIsJustified(p: Params, events: seq<Event>, n: nat, id: AnchorId)
    requires n <= |events| && NeverSeeded(events, n, id) && id in Run(p, events, n)
    ensures Justified(p, events, n, id, Run(p, events, n)[id])
  {
    var m := Run(p, events, n - 1);
    var last := events[n - 1];
    if id in m { RunIsJustified(p, events, n - 1, id); }
    if last.Observation? {
      ObserveAt(p, m, last.keys, last.validators, last.now, last.order, id);
      if id in m && Track(p, m, last.keys, last.order, last.now, id).Some? {
        JustifiedByFate(p, events, n - 1, id, m[id], Reset(m, last.keys, Before(last.order, id), id));
      } else {
        JustifiedByIntroduction(p, events, n - 1, id);
      }
    } else {
      JustifiedByQuiet(p, events, n - 1, id, m[id]);
    }
  }

  /**
   * A key that was never seeded is trusted only after some observation introduced it
   * and every observation from then to a later one, at least the hold-down time on,
   * showed it unrevoked.  In particular timers alone never promote a key.
   */
  lemma TrustNeedsHoldDown(p: Params, events: seq<Event>, id: AnchorId)
    requires NeverSeeded(events, |events|, id)
    requires id in Run(p, events, |events|) && Trusted(Run(p, events, |events|)[id])
    ensures exists i: nat, j: nat, ttl: nat :: Accepted(p, events, id, i, j, ttl)
  {
    RunIsJustified(p, events, |events|, id);
  }

  // ----- Trust is lost only by self-revocation ---------------------------------

  /** Seeding is confined to identities that are not tracked, as the runtime does. */
  predicate SeedsOnlyUntracked(m: Anchors, e: Event) { e.Seed? ==> e.key.id !in m }

  lemma TrustEndsOnlyInRevocation(p: Params, m: Anchors, e: Event, id: AnchorId)
    requires SeedsOnlyUntracked(m, e) && id in m && Trusted(m[id])
    ensures id in Step(p, m, e)
    ensures Trusted(Step(p, m, e)[id]) ||
            (Step(p, m, e)[id].state.Revoked? && e.Observation? && SelfRevoking(e.keys, id))
    ensures e.Observation? && SelfRevoking(e.keys, id) ==> Step(p, m, e)[id].state.Revoked?
  {
    if e.Observation? { ObserveAt(p, m, e.keys, e.validators, e.now, e.order, id); }
  }

  /** The event drops a revoked key: its removal hold-down has run out and it was not seen. */
  predicate Purges(p: Params, m: Anchors, e: Event, id: AnchorId)
    requires id in m
  {
    && !e.Seed? && m[id].state.RemoveHoldDown? && e.now - m[id].lastChange >= p.remove
    && (e.Observation? ==> Seen(e.keys, id).None?)
  }

  lemma RevokedStaysUntilPurged(p: Params, m: Anchors, e: Event, id: AnchorId)
    requires SeedsOnlyUntracked(m, e) && id in m && Bad(m[id])
    ensures id !in Step(p, m, e) <==> Purges(p, m, e, id)
    ensures id in Step(p, m, e) ==> Bad(Step(p, m, e)[id])
  {
    if e.Observation? {
      ObserveAt(p, m, e.keys, e.validators, e.now, e.order, id);
      if FirstEligible(e.keys, |e.keys|, id).Some? { AbsentNotEligible(e.keys, |e.keys|, id); }
    }
  }

  predicate PoliteAt(p: Params, events: seq<Event>, k: nat)
    requires k < |events|
  {
    SeedsOnlyUntracked(Run(p, events, k), events[k])
  }

  predicate BadAt(p: Params, events: seq<Event>, n: nat, id: AnchorId)
    requires n <= |events|
  {
    id in Run(p, events, n) && Bad(Run(p, events, n)[id])
  }

  predicate PurgedAt(p: Params, events: seq<Event>, c: nat, id: AnchorId) {
    c < |events| && BadAt(p, events, c, id) && Purges(p, Run(p, events, c), events[c], id)
  }

  lemma LastBadIsPurge(p: Params, events: seq<Event>, c: nat, id: AnchorId)
    requires c < |events| && PoliteAt(p, events, c) && BadAt(p, events, c, id) && !BadAt(p, events, c + 1, id)
    ensures PurgedAt(p, events, c, id)
  {
    RevokedStaysUntilPurged(p, Run(p, events, c), events[c], id);
  }

  lemma {:induction false} StopsBeingBad(p: Params, events: seq<Event>, a: nat, b: nat, id: AnchorId) returns (c: nat)
    requires a <= b <= |events| && BadAt(p, events, a, id) && !BadAt(p, events, b, id)
    ensures a <= c < b && BadAt(p, events, c, id) && !BadAt(p, events, c + 1, id)
    decreases b - a
  {
    if BadAt(p, events, a + 1, id) { c := StopsBeingBad(p, events, a + 1, b, id); } else { c := a; }
  }

  /** Between a revoked state and any later one that is not, the key was purged. */
  lemma RevokedUntilPurgedInRun(p: Params, events: seq<Event>, a: nat, b: nat, id: AnchorId) returns (c: nat)
    requires (forall k | 0 <= k < |events| :: PoliteAt(p, events, k)) && a <= b <= |events|
    requires BadAt(p, events, a, id) && !BadAt(p, events, b, id)
    ensures a <= c < b && PurgedAt(p, events, c, id)
  {
    c := StopsBeingBad(p, events, a, b, id);
    assert PoliteAt(p, events, c);
    LastBadIsPurge(p, events, c, id);
  }

  predicate Unseen(e: Event, id: AnchorId) { e.Observation? && Seen(e.keys, id).None? }

  /** No observation strictly after `i` and before `n` holds the key. */
  predicate UnseenThroughout(events: seq<Event>, i: nat, n: nat, id: AnchorId)
    requires n <= |events|
  {
    forall k | i < k < n :: events[k].Observation? ==> Unseen(events[k], id)
  }

  /** Observation `i`, at time `since`, did not hold the key and none has held it since. */
  predicate GoneSince(events: seq<Event>, i: nat, n: nat, id: AnchorId, since: int)
    requires n <= |events|
  {
    i < n && Unseen(events[i], id) && events[i].now == since && UnseenThroughout(events, i, n, id)
  }

  /** The removal clock starts at an observation without the key and keeps running only while it is unseen. */
  lemma RemovalStep(p: Params, m: Anchors, e: Event, id: AnchorId)
    requires id in Step(p, m, e) && Step(p, m, e)[id].state.RemoveHoldDown?
    ensures e.Observation? ==> Unseen(e, id)
    ensures || (e.Observation? && Step(p, m, e)[id].lastChange == e.now)
            || (id in m && m[id].state.RemoveHoldDown? && m[id].lastChange == Step(p, m, e)[id].lastChange)
  {
    if e.Observation? { ObserveAt(p, m, e.keys, e.validators, e.now, e.order, id); }
  }

  lemma {:induction false} RemovalClock(p: Params, events: seq<Event>, n: nat, id: AnchorId) returns (i: nat)
    requires n <= |events| && id in Run(p, events, n) && Run(p, events, n)[id].state.RemoveHoldDown?
    ensures GoneSince(events, i, n, id, Run(p, events, n)[id].lastChange)
  {
    var m, last := Run(p, events, n - 1), events[n - 1];
    RemovalStep(p, m, last, id);
    if last.Observation? && Run(p, events, n)[id].lastChange == last.now {
      i := n - 1;
    } else {
      i := RemovalClock(p, events, n - 1, id);
    }
  }

  /** A revoked key is purged only when no observation has held it for the whole removal hold-down. */
  lemma PurgeNeedsAbsence(p: Params, events: seq<Event>, c: nat, id: AnchorId) returns (i: nat)
    requires PurgedAt(p, events, c, id)
    ensures i < c && Unseen(events[i], id) && UnseenThroughout(events, i, c + 1, id)
    ensures events[c].now - events[i].now >= p.remove
  {
    i := RemovalClock(p, events, c, id);
  }

  // ----- Supporting invariants --------------------------------------------------

  predicate KeysIdentified(e: Event) {
    match e
    case Seed(key, _) => Identified(key)
    case Observation(keys, _, _, _) => forall key | key in keys :: Identified(key)
    case Tick(_) => true
  }

  predicate WellKept(m: Anchors, id: AnchorId) {
    id in m ==> EntryId(m[id]) == id && (IsRevoked(m[id].flags) <==> Bad(m[id]))
  }

  lemma EntryIdIgnoresRevoke(owner: seq<Octet>, flags: Flags, algorithm: Octet, key: seq<Octet>)
    ensures AnchorIdOf(owner, SetRevoke(flags), algorithm, key) == AnchorIdOf(owner, flags, algorithm, key)
    ensures AnchorIdOf(owner, ClearRevoke(flags), algorithm, key) == AnchorIdOf(owner, flags, algorithm, key)
  {
    RevokeBit(flags);
  }

  lemma SeededIsWellKept(p: Params, k: Dnskey, now: int)
    requires Identified(k)
    ensures EntryId(Seeded(p, k, now)) == k.id && !IsRevoked(Seeded(p, k, now).flags)
  {
    EntryIdIgnoresRevoke(k.owner, k.flags, k.algorithm, k.publicKey);
    RevokeBit(k.flags);
  }

  lemma CandidateIsWellKept(p: Params, k: Dnskey, validators: seq<AnchorId>, now: int)
    requires Identified(k)
    ensures EntryId(Candidate(p, k, validators, now)) == k.id && !IsRevoked(Candidate(p, k, validators, now).flags)
  {
    EntryIdIgnoresRevoke(k.owner, k.flags, k.algorithm, k.publicKey);
    RevokeBit(k.flags);
  }

  lemma FateKeepsKey(p: Params, e: Entry, present: Option<Dnskey>, reset: bool, now: int)
    requires Fate(p, e, present, reset, now).Some?
    ensures var e' := Fate(p, e, present, reset, now).value;
            e'.owner == e.owner && e'.algorithm == e.algorithm && e'.publicKey == e.publicKey
  {
  }

  lemma FateKeepsFlags(p: Params, e: Entry, present: Option<Dnskey>, reset: bool, now: int)
    requires Fate(p, e, present, reset, now).Some?
    ensures var e' := Fate(p, e, present, reset, now).value;
            e'.flags == (if Bad(e') && !Bad(e) then SetRevoke(e.flags) else e.flags) && (Bad(e) ==> Bad(e'))
  {
  }

  lemma FateIsWellKept(p: Params, e: Entry, present: Option<Dnskey>, reset: bool, now: int)
    requires Fate(p, e, present, reset, now).Some? && (IsRevoked(e.flags) <==> Bad(e))
    ensures var e' := Fate(p, e, present, reset, now).value;
            EntryId(e') == EntryId(e) && (IsRevoked(e'.flags) <==> Bad(e'))
  {
    FateKeepsKey(p, e, present, reset, now);
    FateKeepsFlags(p, e, present, reset, now);
    EntryIdIgnoresRevoke(e.owner, e.flags, e.algorithm, e.publicKey);
    RevokeBit(e.flags);
  }

  lemma StepIsWellKept(p: Params, m: Anchors, e: Event, id: AnchorId)
    requires KeysIdentified(e) && WellKept(m, id)
    ensures WellKept(Step(p, m, e), id)
  {
    match e {
      case Seed(key, now) => SeededIsWellKept(p, key, now);
      case Observation(keys, validators, now, order) =>
        ObserveAt(p, m, keys, validators, now, order, id);
        if id in m && Track(p, m, keys, order, now, id).Some? {
          FateIsWellKept(p, m[id], Seen(keys, id), Reset(m, keys, Before(order, id), id), now);
        } else if validators != [] && FirstEligible(keys, |keys|, id).Some? {
          CandidateIsWellKept(p, FirstEligible(keys, |keys|, id).value, validators, now);
        }
      case Tick(_) =>
    }
  }

  /** Table keys are the identities of their entries, and REVOKE is set exactly on revoked ones. */
  lemma {:induction false} RunIsWellKept(p: Params, events: seq<Event>, n: nat, id: AnchorId)
    requires n <= |events| && forall k | 0 <= k < n :: KeysIdentified(events[k])
    ensures WellKept(Run(p, events, n), id)
  {
    if n > 0 {
      RunIsWellKept(p, events, n - 1, id);
      StepIsWellKept(p, Run(p, events, n - 1), events[n - 1], id);
    }
  }
}

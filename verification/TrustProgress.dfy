/**
 * What the runs of a trust-anchor manager bring about: a candidate that is seen long enough is
 * trusted, a trusted key follows what is seen of it, and a revoked key that is not seen long
 * enough is purged.  All of it is said in terms of the events and of the table they lead to.
 */
module TrustProgress {
  import opened Bytes
  import opened AnchorIdentity
  import opened TrustAnchors
  import opened TrustRuns

  predicate InState(m: Anchors, id: AnchorId, state: State) { id in m && m[id].state == state }

  /** The entry describes the key, without its REVOKE bit. */
  predicate IsOf(e: Entry, k: Dnskey) {
    && e.owner == k.owner && e.keyTag == k.keyTag && e.algorithm == k.algorithm && e.publicKey == k.publicKey
    && e.flags & 0x0080 == 0 && e.flags | 0x0080 == k.flags | 0x0080
  }

  // ----- Trusted keys follow what is seen of them -----------------------------------------------------

  /** A trusted key is valid when seen, missing when not, revoked when it revokes itself, and else as before. */
  lemma TrustedFollowsSight(p: Params, events: seq<Event>, n: nat, id: AnchorId)
    requires n < |events| && events[n].Observation? && id in Run(p, events, n) && Trusted(Run(p, events, n)[id])
    ensures var keys, before, after := events[n].keys, Run(p, events, n), Run(p, events, n + 1);
            && (PresentUnrevoked(keys, id) ==> InState(after, id, Valid))
            && (Seen(keys, id).None? ==> InState(after, id, Missing))
            && (SelfRevoking(keys, id) ==> InState(after, id, Revoked))
            && (Seen(keys, id).Some? && !PresentUnrevoked(keys, id) && !SelfRevoking(keys, id) ==>
                InState(after, id, before[id].state))
  {
    var e := events[n];
    ObserveAt(p, Run(p, events, n), e.keys, e.validators, e.now, e.order, id);
  }

  /** A seeded key is valid from then on, and waits for nothing. */
  lemma SeededIsValid(p: Params, events: seq<Event>, n: nat)
    requires n < |events| && events[n].Seed?
    ensures InState(Run(p, events, n + 1), events[n].key.id, Valid)
    ensures var a, k, now := Run(p, events, n + 1)[events[n].key.id], events[n].key, events[n].now;
            && IsOf(a, k) && a.firstSeen == a.lastSeen == a.lastChange == now && a.validators == [] && a.holdDown == p.minimumAdd
    ensures forall id | id != events[n].key.id && id in Run(p, events, n) ::
              id in Run(p, events, n + 1) && Run(p, events, n + 1)[id] == Run(p, events, n)[id]
  {
    ClearedBits(events[n].key.flags);
  }

  // ----- A revoked key that stays away is purged ----------------------------------------------------------

  predicate SeedsKey(e: Event, id: AnchorId) { e.Seed? && e.key.id == id }

  /** The key is seen in every observation from `a` on and before `b`, and not seeded. */
  predicate StaysAround(events: seq<Event>, a: nat, b: nat, id: AnchorId)
    requires b <= |events|
  {
    forall k | a <= k < b :: !SeedsKey(events[k], id) && (events[k].Observation? ==> Seen(events[k].keys, id).Some?)
  }

  /** No observation from `a` on and before `b` holds the key, and it is not seeded. */
  predicate StaysAway(events: seq<Event>, a: nat, b: nat, id: AnchorId)
    requires b <= |events|
  {
    forall k | a <= k < b :: !SeedsKey(events[k], id) && (events[k].Observation? ==> Seen(events[k].keys, id).None?)
  }

  lemma RevokedStep(p: Params, m: Anchors, e: Event, id: AnchorId)
    requires InState(m, id, Revoked) && !SeedsKey(e, id) && (e.Observation? ==> Seen(e.keys, id).Some?)
    ensures InState(Step(p, m, e), id, Revoked)
  {
    if e.Observation? { ObserveAt(p, m, e.keys, e.validators, e.now, e.order, id); }
  }

  lemma {:induction false} RevokedWhileSeen(p: Params, events: seq<Event>, a: nat, b: nat, id: AnchorId)
    requires a <= b <= |events| && InState(Run(p, events, a), id, Revoked) && StaysAround(events, a, b, id)
    ensures InState(Run(p, events, b), id, Revoked)
    decreases b
  {
    if a < b {
      RevokedWhileSeen(p, events, a, b - 1, id);
      RevokedStep(p, Run(p, events, b - 1), events[b - 1], id);
    }
  }

  /** The removal clock shows `since`. */
  predicate ClockRuns(m: Anchors, id: AnchorId, since: int) { InState(m, id, RemoveHoldDown) && m[id].lastChange == since }

  /** The first observation without a revoked key starts its removal clock, and reports a change. */
  lemma ClockStarts(p: Params, m: Anchors, e: Event, id: AnchorId)
    requires InState(m, id, Revoked) && e.Observation? && Seen(e.keys, id).None?
    ensures ClockRuns(Step(p, m, e), id, e.now) && Changed(p, m, e.keys, e.validators, e.now, e.order)
  {
    ObserveAt(p, m, e.keys, e.validators, e.now, e.order, id);
    assert Moved(p, m, e.keys, e.order, e.now, id);
  }

  /** A key that is not tracked, not seeded and not seen stays untracked. */
  lemma StaysUntracked(p: Params, m: Anchors, e: Event, id: AnchorId)
    requires id !in m && !SeedsKey(e, id) && (e.Observation? ==> Seen(e.keys, id).None?)
    ensures id !in Step(p, m, e)
  {
    if e.Observation? {
      ObserveAt(p, m, e.keys, e.validators, e.now, e.order, id);
      if FirstEligible(e.keys, |e.keys|, id).Some? { AbsentNotEligible(e.keys, |e.keys|, id); }
    }
  }

  lemma AwayStep(p: Params, m: Anchors, e: Event, id: AnchorId, since: int)
    requires ClockRuns(m, id, since) && !SeedsKey(e, id) && (e.Observation? ==> Seen(e.keys, id).None?)
    ensures id !in Step(p, m, e) || ClockRuns(Step(p, m, e), id, since)
    ensures !e.Seed? && e.now - since >= p.remove ==> id !in Step(p, m, e)
  {
    if e.Observation? {
      ObserveAt(p, m, e.keys, e.validators, e.now, e.order, id);
      if FirstEligible(e.keys, |e.keys|, id).Some? { AbsentNotEligible(e.keys, |e.keys|, id); }
    }
  }

  lemma {:induction false} AwayRun(p: Params, events: seq<Event>, b: nat, c: nat, id: AnchorId, since: int)
    requires b <= c <= |events| && ClockRuns(Run(p, events, b), id, since) && StaysAway(events, b, c, id)
    ensures id !in Run(p, events, c) || ClockRuns(Run(p, events, c), id, since)
    decreases c
  {
    if b < c {
      AwayRun(p, events, b, c - 1, id, since);
      var m := Run(p, events, c - 1);
      if id in m { AwayStep(p, m, events[c - 1], id, since); } else { StaysUntracked(p, m, events[c - 1], id); }
    }
  }

  lemma PurgedInTime(p: Params, events: seq<Event>, b: nat, c: nat, id: AnchorId, since: int)
    requires b <= c < |events| && ClockRuns(Run(p, events, b), id, since) && StaysAway(events, b, c + 1, id)
    requires !events[c].Seed? && events[c].now - since >= p.remove
    ensures id !in Run(p, events, c + 1)
  {
    AwayRun(p, events, b, c, id, since);
    var m := Run(p, events, c);
    if id in m { AwayStep(p, m, events[c], id, since); } else { StaysUntracked(p, m, events[c], id); }
  }

  /**
   * A key that is revoked before event `a`, is first missing from the observation at `b`, and is seen
   * in no observation from there to `c`, is gone after `c` once the removal hold-down has passed.
   */
  lemma RevokedIsPurged(p: Params, events: seq<Event>, a: nat, b: nat, c: nat, id: AnchorId)
    requires a <= b < c < |events| && InState(Run(p, events, a), id, Revoked) && StaysAround(events, a, b, id)
    requires events[b].Observation? && StaysAway(events, b, c + 1, id) && !events[c].Seed?
    requires events[c].now - events[b].now >= p.remove
    ensures ClockRuns(Run(p, events, b + 1), id, events[b].now) && id !in Run(p, events, c + 1)
  {
    RevokedWhileSeen(p, events, a, b, id);
    ClockStarts(p, Run(p, events, b), events[b], id);
    PurgedInTime(p, events, b + 1, c, id, events[b].now);
  }

  /** A revoked key that is seen again is revoked as before, with no clock running. */
  lemma ClockStopsWhenSeen(p: Params, events: seq<Event>, n: nat, id: AnchorId)
    requires n < |events| && events[n].Observation? && InState(Run(p, events, n), id, RemoveHoldDown)
    requires Seen(events[n].keys, id).Some?
    ensures InState(Run(p, events, n + 1), id, Revoked)
  {
    var e := events[n];
    ObserveAt(p, Run(p, events, n), e.keys, e.validators, e.now, e.order, id);
  }

  // ----- A candidate that is seen long enough is trusted ---------------------------------------------------

  /** Validator `v` is neither revoked before the event nor revokes itself in it. */
  predicate Unrevoked(p: Params, events: seq<Event>, k: nat, v: AnchorId)
    requires k < |events|
  {
    events[k].Observation? ==>
      && (v in Run(p, events, k) ==> !Bad(Run(p, events, k)[v])) && !SelfRevoking(events[k].keys, v)
  }

  /** From `a` on and before `b` every observation shows the key unrevoked, and `v` stays unrevoked. */
  predicate SeenAndVouchedFor(p: Params, events: seq<Event>, a: nat, b: nat, id: AnchorId, v: AnchorId)
    requires b <= |events|
  {
    forall k | a <= k < b :: (events[k].Observation? ==> PresentUnrevoked(events[k].keys, id)) && Unrevoked(p, events, k, v)
  }

  /** The key is trusted, or waits since `since` for `hold` with these validators. */
  predicate OnItsWay(m: Anchors, id: AnchorId, since: int, hold: nat, validators: seq<AnchorId>) {
    || InState(m, id, Valid)
    || (InState(m, id, AddHoldDown) && m[id].firstSeen == since && m[id].holdDown == hold && m[id].validators == validators)
  }

  /** An authenticated observation introduces a key that is not tracked: SEP, not revoked, and waiting from now on. */
  lemma Introduced(p: Params, events: seq<Event>, i: nat, id: AnchorId) returns (k: Dnskey)
    requires i < |events| && events[i].Observation? && events[i].validators != [] && id !in Run(p, events, i)
    requires exists k | k in events[i].keys :: k.id == id && Eligible(k)
    ensures k in events[i].keys && k.id == id && Eligible(k)
    ensures InState(Run(p, events, i + 1), id, AddHoldDown)
    ensures OnItsWay(Run(p, events, i + 1), id, events[i].now, Max(p.minimumAdd, k.originalTtl), events[i].validators)
  {
    var e := events[i];
    var x :| x in e.keys && x.id == id && Eligible(x);
    SomeEligible(e.keys, |e.keys|, x);
    k := FirstEligible(e.keys, |e.keys|, id).value;
    ObserveAt(p, Run(p, events, i), e.keys, e.validators, e.now, e.order, id);
  }

  /**
   * Whatever an observation begins to track is a zone key and secure entry point that it shows
   * without the REVOKE bit, and that it authenticates; the entry is that key's, from this instant on.
   */
  lemma NewcomersAreEntryPoints(p: Params, events: seq<Event>, i: nat, id: AnchorId) returns (k: Dnskey)
    requires i < |events| && events[i].Observation? && id !in Run(p, events, i) && id in Run(p, events, i + 1)
    ensures events[i].validators != [] && k in events[i].keys && k.id == id && k.flags & 0x0181 == 0x0101
    ensures var a, now := Run(p, events, i + 1)[id], events[i].now;
            IsOf(a, k) && a.state.AddHoldDown? && a.firstSeen == a.lastSeen == a.lastChange == now
  {
    var e := events[i];
    ObserveAt(p, Run(p, events, i), e.keys, e.validators, e.now, e.order, id);
    k := FirstEligible(e.keys, |e.keys|, id).value;
    EntryPoint(k);
    CandidateIsOf(p, k, e.validators, e.now);
  }

  lemma EntryPoint(k: Dnskey)
    ensures Eligible(k) <==> k.flags & 0x0181 == 0x0101
  {
    assert ZONE | SEP == 0x0101;
    EntryPointBits(k.flags);
  }

  lemma EntryPointBits(f: Flags)
    ensures f & 0x0101 == 0x0101 && f & 0x0080 == 0 <==> f & 0x0181 == 0x0101
  {
  }

  lemma CandidateIsOf(p: Params, k: Dnskey, validators: seq<AnchorId>, now: int)
    ensures IsOf(Candidate(p, k, validators, now), k)
  {
    ClearedBits(k.flags);
  }

  lemma ClearedBits(f: Flags)
    ensures ClearRevoke(f) & 0x0080 == 0 && ClearRevoke(f) | 0x0080 == f | 0x0080
  {
  }

  lemma {:induction false} SomeEligible(keys: seq<Dnskey>, n: nat, x: Dnskey)
    requires n <= |keys| && x in keys[..n] && Eligible(x)
    ensures FirstEligible(keys, n, x.id).Some?
  {
    if keys[n - 1] != x {
      assert keys[..n] == keys[..n - 1] + [keys[n - 1]];
      SomeEligible(keys, n - 1, x);
    }
  }

  lemma WayStep(p: Params, m: Anchors, e: Event, id: AnchorId, since: int, hold: nat, validators: seq<AnchorId>, v: AnchorId)
    requires OnItsWay(m, id, since, hold, validators) && v in validators
    requires e.Observation? ==> PresentUnrevoked(e.keys, id) && (v in m ==> !Bad(m[v])) && !SelfRevoking(e.keys, v)
    ensures OnItsWay(Step(p, m, e), id, since, hold, validators)
    ensures e.Observation? && e.now - since >= hold ==> InState(Step(p, m, e), id, Valid)
  {
    if e.Observation? {
      assert !RevokedBy(m, e.keys, Before(e.order, id), v);
      ObserveAt(p, m, e.keys, e.validators, e.now, e.order, id);
    }
  }

  lemma {:induction false} WayRun(p: Params, events: seq<Event>, a: nat, b: nat, id: AnchorId, since: int, hold: nat,
                                  validators: seq<AnchorId>, v: AnchorId)
    requires a <= b <= |events| && OnItsWay(Run(p, events, a), id, since, hold, validators) && v in validators
    requires SeenAndVouchedFor(p, events, a, b, id, v)
    ensures OnItsWay(Run(p, events, b), id, since, hold, validators)
    decreases b
  {
    if a < b {
      WayRun(p, events, a, b - 1, id, since, hold, validators, v);
      assert Unrevoked(p, events, b - 1, v);
      WayStep(p, Run(p, events, b - 1), events[b - 1], id, since, hold, validators, v);
    }
  }

  /**
   * A key that an authenticated observation introduces, that every observation from then to `j` shows
   * unrevoked, and one of whose validators is not revoked meanwhile, is valid after `j` once the
   * hold-down has passed: the larger of the minimum and the key's TTL.
   */
  lemma CandidateIsTrusted(p: Params, events: seq<Event>, i: nat, j: nat, id: AnchorId, v: AnchorId) returns (k: Dnskey)
    requires i < j < |events| && events[i].Observation? && v in events[i].validators && id !in Run(p, events, i)
    requires exists k | k in events[i].keys :: k.id == id && Eligible(k)
    requires SeenAndVouchedFor(p, events, i + 1, j + 1, id, v) && events[j].Observation?
    ensures k in events[i].keys && k.id == id && Eligible(k)
    ensures events[j].now - events[i].now >= Max(p.minimumAdd, k.originalTtl) ==> InState(Run(p, events, j + 1), id, Valid)
  {
    k := Introduced(p, events, i, id);
    var hold := Max(p.minimumAdd, k.originalTtl);
    WayRun(p, events, i + 1, j, id, events[i].now, hold, events[i].validators, v);
    assert Unrevoked(p, events, j, v);
    WayStep(p, Run(p, events, j), events[j], id, events[i].now, hold, events[i].validators, v);
  }

  // ----- What is recorded of a key ----------------------------------------------------------------------------

  /** A key was seen, but for a REVOKE bit that its own key does not vouch for; on a revoked key any sight counts. */
  predicate Noticed(keys: seq<Dnskey>, id: AnchorId, e: Entry) {
    PresentUnrevoked(keys, id) || SelfRevoking(keys, id) || (Seen(keys, id).Some? && Bad(e))
  }

  /** The record of when the key was noticed and when its state changed; what identifies it is kept. */
  predicate TimesFollow(b: Entry, a: Entry, keys: seq<Dnskey>, id: AnchorId, now: int) {
    && a.lastSeen == (if Noticed(keys, id, b) then now else b.lastSeen)
    && a.lastChange == (if a.state == b.state then b.lastChange else now)
    && a.owner == b.owner && a.algorithm == b.algorithm && a.publicKey == b.publicKey
    && a.firstSeen == b.firstSeen && a.holdDown == b.holdDown && a.validators == b.validators
  }

  /** Revocation sets the REVOKE bit and takes the tag of the revoked form; nothing else does. */
  predicate FlagsFollow(b: Entry, a: Entry, keys: seq<Dnskey>, id: AnchorId) {
    if Trusted(b) && SelfRevoking(keys, id) then a.flags == SetRevoke(b.flags) && a.keyTag == Seen(keys, id).value.keyTag
    else a.flags == b.flags && a.keyTag == b.keyTag
  }

  lemma BadFateFollows(p: Params, b: Entry, keys: seq<Dnskey>, id: AnchorId, reset: bool, now: int)
    requires Bad(b)
    ensures var f := Fate(p, b, Seen(keys, id), reset, now);
            if f.Some? then TimesFollow(b, f.value, keys, id, now) && FlagsFollow(b, f.value, keys, id) else Seen(keys, id).None?
  {
  }

  lemma TrustedFateFollows(p: Params, b: Entry, keys: seq<Dnskey>, id: AnchorId, reset: bool, now: int)
    requires Trusted(b)
    ensures var f := Fate(p, b, Seen(keys, id), reset, now);
            f.Some? && TimesFollow(b, f.value, keys, id, now)
  {
  }

  lemma TrustedFateFlags(p: Params, b: Entry, keys: seq<Dnskey>, id: AnchorId, reset: bool, now: int)
    requires Trusted(b)
    ensures var f := Fate(p, b, Seen(keys, id), reset, now);
            f.Some? && FlagsFollow(b, f.value, keys, id)
  {
  }

  /** Of a key that is past its hold-down an observation records what was seen of it, and nothing else. */
  lemma RecordFollowsSight(p: Params, events: seq<Event>, n: nat, id: AnchorId)
    requires n < |events| && events[n].Observation? && id in Run(p, events, n) && !Run(p, events, n)[id].state.AddHoldDown?
    requires id in Run(p, events, n + 1)
    ensures TimesFollow(Run(p, events, n)[id], Run(p, events, n + 1)[id], events[n].keys, id, events[n].now)
    ensures FlagsFollow(Run(p, events, n)[id], Run(p, events, n + 1)[id], events[n].keys, id)
  {
    var e := events[n];
    var m := Run(p, events, n);
    ObserveAt(p, m, e.keys, e.validators, e.now, e.order, id);
    var reset := Reset(m, e.keys, Before(e.order, id), id);
    if Bad(m[id]) {
      BadFateFollows(p, m[id], e.keys, id, reset, e.now);
    } else {
      TrustedFateFollows(p, m[id], e.keys, id, reset, e.now);
      TrustedFateFlags(p, m[id], e.keys, id, reset, e.now);
    }
    if FirstEligible(e.keys, |e.keys|, id).Some? { AbsentNotEligible(e.keys, |e.keys|, id); }
  }

  /** A candidate that is seen unrevoked, with a validator not revoked, waits on or is trusted, and else keeps its record. */
  lemma CandidateRecord(p: Params, events: seq<Event>, n: nat, id: AnchorId, v: AnchorId)
    requires n < |events| && events[n].Observation? && InState(Run(p, events, n), id, AddHoldDown)
    requires PresentUnrevoked(events[n].keys, id) && v in Run(p, events, n)[id].validators && Unrevoked(p, events, n, v)
    ensures id in Run(p, events, n + 1)
    ensures var now, b, a := events[n].now, Run(p, events, n)[id], Run(p, events, n + 1)[id];
            if now - b.firstSeen >= b.holdDown then
              a == b.(state := Valid, lastSeen := now, lastChange := now, validators := [])
            else a == b.(lastSeen := now)
  {
    var e := events[n];
    var m := Run(p, events, n);
    assert !RevokedBy(m, e.keys, Before(e.order, id), v);
    ObserveAt(p, m, e.keys, e.validators, e.now, e.order, id);
  }

  // ----- Changes are reported ---------------------------------------------------------------------------------

  /** Whenever an observation makes a key tracked or untracked, or moves it to another state, it reports a change. */
  lemma ChangeIsReported(p: Params, m: Anchors, e: Event, id: AnchorId)
    requires e.Observation?
    requires (id in m) != (id in Step(p, m, e)) || (id in m && m[id].state != Step(p, m, e)[id].state)
    ensures Changed(p, m, e.keys, e.validators, e.now, e.order)
  {
    ObserveAt(p, m, e.keys, e.validators, e.now, e.order, id);
    if id in m {
      assert Moved(p, m, e.keys, e.order, e.now, id);
    } else {
      var kept := Survivors(p, m, e.keys, e.order, e.now);
      IntroducedAt(p, kept, e.keys, |e.keys|, e.validators, e.now, id);
      assert id in TrustAnchors.Introduced(p, kept, e.keys, |e.keys|, e.validators, e.now);
    }
  }
}

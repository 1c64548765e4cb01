/**
 * Which EDNS, DNSSEC and TLS features a server is asked with: a ladder descended on failures
 * and climbed again after a grace period that doubles with every new attempt.
 */
module FeatureLadder {
  import opened Bytes

  datatype Level = Udp | Edns0 | TlsPlain | DnssecOk | TlsDnssecOk

  function Rank(l: Level): nat {
    match l
    case Udp => 0
    case Edns0 => 1
    case TlsPlain => 2
    case DnssecOk => 3
    case TlsDnssecOk => 4
  }

  function Lesser(a: Level, b: Level): Level { if Rank(a) <= Rank(b) then a else b }

  predicate UsesEdns(l: Level) { l != Udp }

  function NextLower(l: Level): Level {
    match l
    case TlsDnssecOk => TlsPlain
    case DnssecOk => Edns0
    case TlsPlain => Edns0
    case Edns0 => Udp
    case Udp => Udp
  }

  const RETRY_ATTEMPTS: nat := 3
  const GRACE_MIN: nat := 300
  const GRACE_MAX: nat := 21600

  datatype Features = Features(
    possible: Level, verified: Level, verifiedOnce: bool, failed: nat,
    retryAfter: Option<int>, grace: nat, requiredBadOpt: bool, badOpt: bool)

  const DEFAULT: Features := Features(TlsDnssecOk, Udp, false, 0, None, GRACE_MIN, false, false)

  datatype Event =
    | Ask(best: Level, minimum: Level, now: int)
    | Success(level: Level)
    | Failure(level: Level, now: int)
    | TlsFailure(level: Level, now: int)
    | BadOpt(level: Level, now: int)
    | RequiredBadOpt
    | DoOff(level: Level, now: int)
    | DowngradeTo(level: Level, now: int)
    | Reset

  /** `horizon` is the last instant the clock can represent. */
  function Downgraded(f: Features, level: Level, now: int, horizon: int): Features {
    if Rank(level) >= Rank(f.possible) then f
    else f.(possible := level, verified := Lesser(f.verified, level), failed := 0,
            retryAfter := if now + f.grace <= horizon then Some(now + f.grace) else None)
  }

  /** The ladder brought between the caller's bounds. */
  function Bounded(f: Features, best: Level, minimum: Level): Features {
    var floor := if f.requiredBadOpt then Udp else minimum;
    var p := if f.requiredBadOpt then Udp else f.possible;
    var q := Lesser(p, best);
    if Rank(q) < Rank(floor) then f.(possible := Lesser(floor, best), failed := 0, retryAfter := None)
    else f.(possible := q)
  }

  predicate RetryDue(f: Features, best: Level, now: int) {
    Rank(f.possible) < Rank(best) && f.retryAfter.Some? && f.retryAfter.value <= now
  }

  /** `possible_level`. */
  function Asked(f: Features, best: Level, minimum: Level, now: int): Features {
    var g := Bounded(f, best, minimum);
    if RetryDue(g, best, now) then
      g.(possible := best, failed := 0, retryAfter := None, badOpt := false, grace := Doubled(g.grace))
    else g
  }

  function Failed(f: Features, level: Level, now: int, horizon: int): Features {
    if level != f.possible then f
    else
      var g := f.(failed := Min(f.failed + 1, 255));
      if g.failed < RETRY_ATTEMPTS then g else Downgraded(g, NextLower(level), now, horizon)
  }

  function Step(f: Features, e: Event, horizon: int): Features {
    match e
    case Ask(best, minimum, now) => Asked(f, best, minimum, now)
    case Success(level) =>
      f.(verifiedOnce := true,
         verified := if Rank(level) > Rank(f.verified) then level else f.verified,
         failed := if level == f.possible then 0 else f.failed)
    case Failure(level, now) => Failed(f, level, now, horizon)
    case TlsFailure(level, now) =>
      if level == TlsDnssecOk then Downgraded(f, DnssecOk, now, horizon)
      else if level == TlsPlain then Downgraded(f, Edns0, now, horizon)
      else f
    case BadOpt(level, now) =>
      if UsesEdns(level) then Downgraded(f.(badOpt := true), Udp, now, horizon) else f
    case RequiredBadOpt => f.(requiredBadOpt := true, badOpt := true, possible := Udp, verified := Udp)
    case DoOff(level, now) =>
      if level == DnssecOk then Downgraded(f, Edns0, now, horizon)
      else if level == TlsDnssecOk then Downgraded(f, TlsPlain, now, horizon)
      else f
    case DowngradeTo(level, now) => Downgraded(f, level, now, horizon)
    case Reset => DEFAULT
  }

  /** The level handed out is between the caller's bounds, unless EDNS was refused for good. */
  lemma AskedInRange(f: Features, best: Level, minimum: Level, now: int)
    ensures var g := Asked(f, best, minimum, now);
            && g.requiredBadOpt == f.requiredBadOpt && Rank(g.possible) <= Rank(best)
            && (!f.requiredBadOpt ==> Rank(Lesser(minimum, best)) <= Rank(g.possible))
  {
  }

  // ----- The mutable state -----------------------------------------------------------------------

  class ServerFeatureState {
    var possible: Level
    var verified: Level
    var verifiedOnce: bool
    var failedAttempts: nat
    var retryAfter: Option<int>
    var gracePeriod: nat
    var requiredBadOpt: bool
    var badOpt: bool
    const horizon: int

    function Value(): Features
      reads this
    {
      Features(possible, verified, verifiedOnce, failedAttempts, retryAfter, gracePeriod, requiredBadOpt, badOpt)
    }

    constructor (horizon: int)
      ensures Value() == DEFAULT && this.horizon == horizon
    {
      possible, verified, verifiedOnce, failedAttempts := TlsDnssecOk, Udp, false, 0;
      retryAfter, gracePeriod, requiredBadOpt, badOpt := None, GRACE_MIN, false, false;
      this.horizon := horizon;
    }

    method PossibleLevel(best: Level, minimum: Level, now: int) returns (level: Level)
      modifies this
      ensures Value() == Step(old(Value()), Ask(best, minimum, now), horizon) && level == possible
      ensures !requiredBadOpt ==> Rank(Lesser(minimum, best)) <= Rank(level)
      ensures Rank(level) <= Rank(best)
    {
      Bound(best, minimum);
      AskedInRange(old(Value()), best, minimum, now);
      var due := retryAfter.Some? && retryAfter.value <= now;
      if Rank(possible) < Rank(best) && due {
        possible, failedAttempts, retryAfter, badOpt := best, 0, None, false;
        gracePeriod := Doubled(gracePeriod);
      }
      return possible;
    }

    method Bound(best: Level, minimum: Level)
      modifies this
      ensures Value() == Bounded(old(Value()), best, minimum)
    {
      var floor := if requiredBadOpt then Lesser(minimum, Udp) else minimum;
      if requiredBadOpt && UsesEdns(possible) { possible := Lesser(possible, Udp); }
      if Rank(possible) > Rank(best) { possible := best; }
      if Rank(possible) < Rank(floor) {
        possible, failedAttempts, retryAfter := Lesser(floor, best), 0, None;
      }
    }

    method RecordSuccess(level: Level)
      modifies this
      ensures Value() == Step(old(Value()), Success(level), horizon)
    {
      verifiedOnce := true;
      if Rank(level) > Rank(verified) { verified := level; }
      if level == possible { failedAttempts := 0; }
    }

    method RecordFailure(level: Level, now: int) returns (lower: Option<Level>)
      modifies this
      ensures Value() == Step(old(Value()), Failure(level, now), horizon)
      ensures lower.Some? <==> possible != old(possible)
      ensures lower.Some? <==> level == old(possible) && level != Udp && old(failedAttempts) + 1 >= RETRY_ATTEMPTS
      ensures lower.Some? ==> possible == lower.value == NextLower(level)
    {
      if level != possible { return None; }
      failedAttempts := Min(failedAttempts + 1, 255);
      if failedAttempts < RETRY_ATTEMPTS { return None; }
      var next := NextLower(level);
      if next == level { return None; }
      Downgrade(next, now);
      return Some(next);
    }

    method RecordTlsFailure(level: Level, now: int) returns (lower: Option<Level>)
      modifies this
      ensures Value() == Step(old(Value()), TlsFailure(level, now), horizon)
      ensures lower.Some? <==> level == TlsDnssecOk || level == TlsPlain
      ensures lower.Some? ==> Rank(possible) <= Rank(lower.value) < Rank(level)
    {
      match level {
        case TlsDnssecOk => lower := Some(DnssecOk);
        case TlsPlain => lower := Some(Edns0);
        case _ => return None;
      }
      Downgrade(lower.value, now);
    }

    method RecordBadOpt(level: Level, now: int) returns (after: Level)
      modifies this
      ensures Value() == Step(old(Value()), BadOpt(level, now), horizon) && after == possible
      ensures UsesEdns(level) ==> after == Udp
    {
      if UsesEdns(level) {
        badOpt := true;
        Downgrade(Udp, now);
      }
      return possible;
    }

    method RecordRequiredBadOpt()
      modifies this
      ensures Value() == Step(old(Value()), RequiredBadOpt, horizon)
    {
      requiredBadOpt, badOpt, possible := true, true, Udp;
      verified := Lesser(verified, Udp);
    }

    method RecordDoOff(level: Level, now: int) returns (after: Level)
      modifies this
      ensures Value() == Step(old(Value()), DoOff(level, now), horizon) && after == possible
      ensures level == old(possible) ==> after != DnssecOk && after != TlsDnssecOk
    {
      if level == DnssecOk {
        Downgrade(Edns0, now);
      } else if level == TlsDnssecOk {
        Downgrade(TlsPlain, now);
      }
      return possible;
    }

    method Downgrade(level: Level, now: int)
      modifies this
      ensures Value() == Step(old(Value()), DowngradeTo(level, now), horizon)
      ensures Rank(possible) == Min(Rank(level), Rank(old(possible)))
    {
      if Rank(level) >= Rank(possible) { return; }
      possible := level;
      verified := Lesser(verified, level);
      failedAttempts := 0;
      retryAfter := if now + gracePeriod <= horizon then Some(now + gracePeriod) else None;
    }

    method ResetState()
      modifies this
      ensures Value() == Step(old(Value()), Reset, horizon)
    {
      possible, verified, verifiedOnce, failedAttempts := TlsDnssecOk, Udp, false, 0;
      retryAfter, gracePeriod, requiredBadOpt, badOpt := None, GRACE_MIN, false, false;
    }
  }

  // ----- Runs ---------------------------------------------------------------------------------------

  predicate Follows(run: seq<Features>, es: seq<Event>, i: nat, horizon: int)
    requires i < |es| < |run|
  {
    run[i + 1] == Step(run[i], es[i], horizon)
  }

  /** `run[i]` is the state after the first `i` events. */
  predicate IsRun(run: seq<Features>, es: seq<Event>, horizon: int) {
    |run| == |es| + 1 && forall i | 0 <= i < |es| :: Follows(run, es, i, horizon)
  }

  /** The event climbs back after a grace period. */
  predicate Retries(f: Features, e: Event) {
    e.Ask? && RetryDue(Bounded(f, e.best, e.minimum), e.best, e.now)
  }

  /** Retries since the last reset. */
  function RetryCount(run: seq<Features>, es: seq<Event>, n: nat): nat
    requires n <= |es| < |run|
  {
    if n == 0 || es[n - 1].Reset? then 0
    else RetryCount(run, es, n - 1) + if Retries(run[n - 1], es[n - 1]) then 1 else 0
  }

  function Doubled(grace: nat): nat { Min(grace * 2, GRACE_MAX) }

  /** Five minutes doubled `n` times, and six hours at most. */
  function Backoff(n: nat): nat { if n == 0 then GRACE_MIN else Doubled(Backoff(n - 1)) }

  function Pow2(n: nat): nat { if n == 0 then 1 else 2 * Pow2(n - 1) }

  lemma {:induction false} BackoffFormula(n: nat)
    ensures Backoff(n) == Min(GRACE_MIN * Pow2(n), GRACE_MAX)
  {
    if n > 0 { BackoffFormula(n - 1); }
  }

  lemma GraceStep(f: Features, e: Event, horizon: int)
    ensures Step(f, e, horizon).grace ==
            if e.Reset? then GRACE_MIN else if Retries(f, e) then Doubled(f.grace) else f.grace
  {
  }

  /** In every run the grace period is the exponential backoff of the retries so far. */
  lemma {:induction false} GraceIsBackoff(run: seq<Features>, es: seq<Event>, n: nat, horizon: int)
    requires IsRun(run, es, horizon) && run[0] == DEFAULT && n <= |es|
    ensures run[n].grace == Backoff(RetryCount(run, es, n))
  {
    if n > 0 {
      GraceIsBackoff(run, es, n - 1, horizon);
      assert Follows(run, es, n - 1, horizon);
      GraceStep(run[n - 1], es[n - 1], horizon);
    }
  }

  /** The level rises only by a reset, by a retry that is due, or because the caller insists on more. */
  lemma RiseNeedsCause(f: Features, e: Event, horizon: int)
    requires Rank(Step(f, e, horizon).possible) > Rank(f.possible)
    ensures e.Reset? || Retries(f, e) || (e.Ask? && !f.requiredBadOpt && Rank(e.minimum) > Rank(f.possible))
  {
  }

  /** Events that may lower the level, with the time they happen. */
  predicate Lowers(e: Event) { e.Failure? || e.TlsFailure? || e.BadOpt? || e.DoOff? || e.DowngradeTo? }

  /** Between two states the event lowered the level and set the retry time `at`. */
  predicate Schedules(f: Features, e: Event, g: Features, at: int) {
    Lowers(e) && Rank(g.possible) < Rank(f.possible) && at == e.now + f.grace
  }

  lemma RetryTimeStep(f: Features, e: Event, g: Features, horizon: int)
    requires g == Step(f, e, horizon) && g.retryAfter.Some?
    ensures Schedules(f, e, g, g.retryAfter.value) || (g.retryAfter == f.retryAfter && !e.Reset? && !Retries(f, e))
  {
  }

  lemma RetryTimeAt(run: seq<Features>, es: seq<Event>, n: nat, horizon: int)
    requires IsRun(run, es, horizon) && 0 < n <= |es| && run[n].retryAfter.Some?
    ensures Schedules(run[n - 1], es[n - 1], run[n], run[n].retryAfter.value) || run[n].retryAfter == run[n - 1].retryAfter
    ensures RetryCount(run, es, n) == RetryCount(run, es, n - 1)
  {
    assert Follows(run, es, n - 1, horizon);
    RetryTimeStep(run[n - 1], es[n - 1], run[n], horizon);
  }

  lemma {:induction false} RetryTimeComesFrom(run: seq<Features>, es: seq<Event>, n: nat, horizon: int)
    returns (d: nat)
    requires IsRun(run, es, horizon) && run[0] == DEFAULT && n <= |es| && run[n].retryAfter.Some?
    ensures d < n && Schedules(run[d], es[d], run[d + 1], run[n].retryAfter.value)
    ensures RetryCount(run, es, d) == RetryCount(run, es, n)
    decreases n
  {
    RetryTimeAt(run, es, n, horizon);
    if Schedules(run[n - 1], es[n - 1], run[n], run[n].retryAfter.value) {
      d := n - 1;
    } else {
      d := RetryTimeComesFrom(run, es, n - 1, horizon);
    }
  }

  /**
   * A retry in any run comes at least the backoff of the earlier retries after the downgrade
   * that it undoes.
   */
  lemma RetryWaits(run: seq<Features>, es: seq<Event>, n: nat, horizon: int) returns (d: nat)
    requires IsRun(run, es, horizon) && run[0] == DEFAULT && n < |es| && Retries(run[n], es[n])
    ensures d < n && Lowers(es[d]) && Rank(run[d + 1].possible) < Rank(run[d].possible)
    ensures es[n].now >= es[d].now + Backoff(RetryCount(run, es, n))
  {
    d := RetryTimeComesFrom(run, es, n, horizon);
    GraceIsBackoff(run, es, d, horizon);
  }

  // ----- Failures ------------------------------------------------------------------------------------

  /** The failure counter stays below the threshold except at the bottom of the ladder. */
  predicate FewFailures(f: Features) { f.failed <= 255 && (f.possible == Udp || f.failed < RETRY_ATTEMPTS) }

  lemma StepFewFailures(f: Features, e: Event, horizon: int)
    requires FewFailures(f)
    ensures FewFailures(Step(f, e, horizon))
  {
  }

  lemma {:induction false} RunFewFailures(run: seq<Features>, es: seq<Event>, n: nat, horizon: int)
    requires IsRun(run, es, horizon) && run[0] == DEFAULT && n <= |es|
    ensures FewFailures(run[n])
  {
    if n > 0 {
      RunFewFailures(run, es, n - 1, horizon);
      assert Follows(run, es, n - 1, horizon);
      StepFewFailures(run[n - 1], es[n - 1], horizon);
    }
  }

  /** A failure at the level in use. */
  predicate Counted(f: Features, e: Event) { e.Failure? && e.level == f.possible }

  lemma FailedStep(f: Features, e: Event, horizon: int)
    requires FewFailures(f) && Step(f, e, horizon).failed > 0
    ensures Step(f, e, horizon).failed == if Counted(f, e) then Min(f.failed + 1, 255) else f.failed
  {
  }

  /** The latest failure behind a positive counter. */
  lemma {:induction false} LastFailure(run: seq<Features>, es: seq<Event>, n: nat, horizon: int) returns (m: nat)
    requires IsRun(run, es, horizon) && run[0] == DEFAULT && n <= |es| && run[n].failed > 0
    ensures m < n && Counted(run[m], es[m]) && run[n].failed == Min(run[m].failed + 1, 255)
    ensures forall k | m < k <= n :: run[k].failed == run[n].failed
    decreases n
  {
    RunFewFailures(run, es, n - 1, horizon);
    assert Follows(run, es, n - 1, horizon);
    FailedStep(run[n - 1], es[n - 1], horizon);
    if Counted(run[n - 1], es[n - 1]) {
      m := n - 1;
    } else {
      m := LastFailure(run, es, n - 1, horizon);
    }
  }

  lemma FailureLowers(f: Features, e: Event, horizon: int)
    requires FewFailures(f) && e.Failure? && Step(f, e, horizon).possible != f.possible
    ensures Counted(f, e) && f.failed == 2
  {
  }

  /** Whether an event changes the level but keeps a count of failures made at another one. */
  predicate Carries(f: Features, e: Event, horizon: int) {
    Step(f, e, horizon).possible != f.possible && f.failed > 0 && Step(f, e, horizon).failed == f.failed
  }

  /**
   * The count outlives a change of level exactly when the caller's best level forces it down,
   * or a required OPT record was refused; then one failure at the new level may be the third.
   */
  lemma CarriesIff(f: Features, e: Event, horizon: int)
    requires FewFailures(f)
    ensures Carries(f, e, horizon) <==>
            && f.failed > 0 && f.possible != Udp
            && match e
               case RequiredBadOpt => true
               case Ask(best, minimum, now) =>
                 && !(Rank(best) > 0 && f.requiredBadOpt && f.retryAfter.Some? && f.retryAfter.value <= now)
                 && (f.requiredBadOpt || (Rank(best) < Rank(f.possible) && Rank(minimum) <= Rank(best)))
               case _ => false
  {
  }

  lemma LevelStep(f: Features, e: Event, horizon: int)
    requires FewFailures(f) && f.failed > 0 && Step(f, e, horizon).failed > 0
    ensures if Carries(f, e, horizon) then Rank(Step(f, e, horizon).possible) < Rank(f.possible)
            else Step(f, e, horizon).possible == f.possible
  {
  }

  lemma FallStep(run: seq<Features>, es: seq<Event>, k: nat, horizon: int)
    requires IsRun(run, es, horizon) && run[0] == DEFAULT && k < |es| && run[k].failed > 0 && run[k + 1].failed > 0
    ensures Rank(run[k + 1].possible) <= Rank(run[k].possible)
    ensures Rank(run[k + 1].possible) == Rank(run[k].possible) <==> !Carries(run[k], es[k], horizon)
  {
    RunFewFailures(run, es, k, horizon);
    assert Follows(run, es, k, horizon);
    LevelStep(run[k], es[k], horizon);
  }

  lemma RankTells(a: Level, b: Level)
    ensures Rank(a) == Rank(b) ==> a == b
  {
  }

  /** While failures are counted the level can only fall, at the events that carry the count. */
  lemma {:induction false} LevelFalls(run: seq<Features>, es: seq<Event>, i: nat, j: nat, horizon: int)
    requires IsRun(run, es, horizon) && run[0] == DEFAULT && i <= j <= |es| && forall k | i <= k <= j :: run[k].failed > 0
    ensures Rank(run[j].possible) <= Rank(run[i].possible)
    ensures run[j].possible == run[i].possible <==> forall k | i <= k < j :: !Carries(run[k], es[k], horizon)
    decreases j
  {
    if i < j {
      LevelFalls(run, es, i, j - 1, horizon);
      FallStep(run, es, j - 1, horizon);
      RankTells(run[j - 1].possible, run[i].possible);
      RankTells(run[j].possible, run[i].possible);
    }
  }

  /** The event is no success at the level in use. */
  predicate Unmending(run: seq<Features>, es: seq<Event>, k: nat)
    requires k < |es| < |run|
  {
    es[k].Success? ==> es[k].level != run[k].possible
  }

  /** Between two events there was no success at the level in use. */
  predicate Unmended(run: seq<Features>, es: seq<Event>, a: nat, n: nat)
    requires n <= |es| < |run|
  {
    forall k | a < k < n :: Unmending(run, es, k)
  }

  /**
   * A reported failure lowers the level only as the third one that was not made good; the three
   * were at one level exactly when no event between them carried the count to another.
   */
  lemma ThreeFailures(run: seq<Features>, es: seq<Event>, n: nat, horizon: int) returns (a: nat, b: nat)
    requires IsRun(run, es, horizon) && run[0] == DEFAULT && n < |es| && es[n].Failure?
    requires run[n + 1].possible != run[n].possible
    ensures a < b < n && Counted(run[a], es[a]) && Counted(run[b], es[b]) && Counted(run[n], es[n])
    ensures run[a].failed == 0 && run[b].failed == 1 && Unmended(run, es, a, n)
    ensures run[a].possible == run[n].possible <==> forall k | a < k < n :: !Carries(run[k], es[k], horizon)
  {
    RunFewFailures(run, es, n, horizon);
    assert Follows(run, es, n, horizon);
    FailureLowers(run[n], es[n], horizon);
    b := LastFailure(run, es, n, horizon);
    a := LastFailure(run, es, b, horizon);
    assert run[a + 1].possible == run[a].possible by { assert Follows(run, es, a, horizon); }
    LevelFalls(run, es, a + 1, n, horizon);
    forall k | a < k < n ensures Unmending(run, es, k) {
      assert Follows(run, es, k, horizon);
    }
  }

  /** One failure at a level may be the third: two were at the level above, which the caller ruled out. */
  lemma ThreeAtTwoLevels(now: int, horizon: int) returns (run: seq<Features>, es: seq<Event>)
    ensures IsRun(run, es, horizon) && run[0] == DEFAULT && |es| == 4
    ensures run[2].possible == TlsDnssecOk && run[3].possible == DnssecOk && run[4].possible == Edns0
    ensures forall k | 0 <= k < 4 :: es[k].Failure? && es[k].level == DnssecOk <==> k == 3
  {
    es := [Failure(TlsDnssecOk, now), Failure(TlsDnssecOk, now), Ask(DnssecOk, Udp, now), Failure(DnssecOk, now)];
    var f1 := Step(DEFAULT, es[0], horizon);
    var f2 := Step(f1, es[1], horizon);
    var f3 := Step(f2, es[2], horizon);
    run := [DEFAULT, f1, f2, f3, Step(f3, es[3], horizon)];
    forall i | 0 <= i < |es| ensures Follows(run, es, i, horizon) {}
  }

  // ----- What each report costs ---------------------------------------------------------------------------

  predicate UsesTls(l: Level) { l.TlsPlain? || l.TlsDnssecOk? }

  predicate UsesDnssec(l: Level) { l.DnssecOk? || l.TlsDnssecOk? }

  /** A TLS failure at the level in use gives up TLS, and keeps EDNS and, if it was asked for, DNSSEC. */
  lemma TlsFailureKeepsDnssec(f: Features, now: int, horizon: int)
    requires UsesTls(f.possible)
    ensures var g := Step(f, TlsFailure(f.possible, now), horizon);
            !UsesTls(g.possible) && g.possible != Udp && (UsesDnssec(g.possible) <==> UsesDnssec(f.possible))
  {
  }

  /** An answer without the DO bit gives up DNSSEC at the level in use, and keeps EDNS and, if it was in use, TLS. */
  lemma DoOffKeepsTls(f: Features, now: int, horizon: int)
    requires UsesDnssec(f.possible)
    ensures var g := Step(f, DoOff(f.possible, now), horizon);
            !UsesDnssec(g.possible) && g.possible != Udp && (UsesTls(g.possible) <==> UsesTls(f.possible))
  {
  }

  /** The third failure gives up DNSSEC if it is in use, else TLS if that is, else EDNS, and one of them only. */
  lemma ThirdFailureGivesUpOne(f: Features, now: int, horizon: int)
    requires f.failed == 2 && f.possible != Udp
    ensures var g := Step(f, Failure(f.possible, now), horizon);
            if UsesDnssec(f.possible) then
              !UsesDnssec(g.possible) && g.possible != Udp && (UsesTls(g.possible) <==> UsesTls(f.possible))
            else if UsesTls(f.possible) then g.possible == Edns0
            else g.possible == Udp
  {
  }

  /** An OPT record that was rejected gives up EDNS at once. */
  lemma BadOptGivesUpEdns(f: Features, level: Level, now: int, horizon: int)
    requires level != Udp
    ensures Step(f, BadOpt(level, now), horizon).possible == Udp
  {
  }

  // ----- What is remembered -----------------------------------------------------------------------------

  lemma LevelsAreOrdered()
    ensures Rank(Udp) < Rank(Edns0) < Rank(TlsPlain) < Rank(DnssecOk) < Rank(TlsDnssecOk)
  {
  }

  /**
   * The verified level is one that succeeded: it rises only to a level just reported, and at least
   * to it.  It falls with a lowered level, which it then does not exceed, or with a refused OPT record.
   */
  lemma VerifiedStep(f: Features, e: Event, horizon: int)
    ensures var g := Step(f, e, horizon);
            && (Rank(g.verified) > Rank(f.verified) ==> e.Success? && g.verified == e.level)
            && (e.Success? ==> Rank(g.verified) >= Rank(e.level) && Rank(g.verified) >= Rank(f.verified))
            && (g.verifiedOnce <==> e.Success? || (f.verifiedOnce && !e.Reset?))
  {
  }

  lemma VerifiedFalls(f: Features, e: Event, horizon: int)
    ensures var g := Step(f, e, horizon);
            && (Rank(g.verified) < Rank(f.verified) ==> e.Reset? || e.RequiredBadOpt? || Rank(g.possible) < Rank(f.possible))
            && (Lowers(e) && g.possible != f.possible ==> Rank(g.verified) <= Rank(g.possible))
            && (e.RequiredBadOpt? ==> g.verified == Udp)
  {
  }

  /** What raises the mark of a rejected OPT record. */
  predicate RejectsOpt(e: Event) { e.RequiredBadOpt? || (e.BadOpt? && e.level != Udp) }

  lemma BadOptStep(f: Features, e: Event, horizon: int)
    ensures Step(f, e, horizon).badOpt <==> RejectsOpt(e) || (f.badOpt && !e.Reset? && !Retries(f, e))
    ensures Step(f, e, horizon).requiredBadOpt <==> e.RequiredBadOpt? || (f.requiredBadOpt && !e.Reset?)
  {
  }

  /** An OPT record was rejected at event `k`, and nothing was retried or reset from then to `n`. */
  predicate RejectedAt(run: seq<Features>, es: seq<Event>, k: nat, n: nat)
    requires n <= |es| < |run|
  {
    k < n && RejectsOpt(es[k]) && forall i | k < i < n :: !es[i].Reset? && !Retries(run[i], es[i])
  }

  /** In every run the mark is up exactly when an OPT record was rejected since the last retry or reset. */
  lemma {:induction false} BadOptRemembers(run: seq<Features>, es: seq<Event>, n: nat, horizon: int)
    requires IsRun(run, es, horizon) && run[0] == DEFAULT && n <= |es|
    ensures run[n].badOpt <==> exists k: nat :: RejectedAt(run, es, k, n)
  {
    if n > 0 {
      BadOptRemembers(run, es, n - 1, horizon);
      assert Follows(run, es, n - 1, horizon);
      BadOptStep(run[n - 1], es[n - 1], horizon);
      if RejectsOpt(es[n - 1]) {
        assert RejectedAt(run, es, n - 1, n);
      } else if run[n].badOpt {
        var k: nat :| RejectedAt(run, es, k, n - 1);
        assert RejectedAt(run, es, k, n);
      }
      if k: nat :| RejectedAt(run, es, k, n) {
        if k < n - 1 { assert RejectedAt(run, es, k, n - 1); }
      }
    }
  }

  /** A level lowered by a report starts counting failures anew, and is left again after the grace period. */
  lemma LoweredStep(f: Features, e: Event, horizon: int)
    requires Lowers(e) && Step(f, e, horizon).possible != f.possible
    ensures var g := Step(f, e, horizon);
            && Rank(g.possible) < Rank(f.possible) && g.failed == 0 && g.grace == f.grace
            && g.retryAfter == if e.now + f.grace <= horizon then Some(e.now + f.grace) else None
  {
  }

  /** A level raised by the caller, or by a retry, starts counting failures anew, with no retry pending. */
  lemma RaisedStep(f: Features, e: Event, horizon: int)
    requires Rank(Step(f, e, horizon).possible) > Rank(f.possible)
    ensures var g := Step(f, e, horizon);
            g.failed == 0 && g.retryAfter == None && (Retries(f, e) ==> g.possible == e.best && !g.badOpt)
  {
  }

  // ----- A server that rejects EDNS where it is required -------------------------------------------------

  /** Stuck at plain UDP with nothing scheduled. */
  predicate Stuck(f: Features) { f.requiredBadOpt && f.possible == Udp && f.retryAfter == None }

  lemma StuckStep(f: Features, e: Event, horizon: int)
    requires Stuck(f) && !e.Reset?
    ensures Stuck(Step(f, e, horizon))
  {
  }

  lemma {:induction false} StaysStuck(run: seq<Features>, es: seq<Event>, n: nat, horizon: int)
    requires IsRun(run, es, horizon) && Stuck(run[0]) && n <= |es| && forall i | 0 <= i < |es| :: !es[i].Reset?
    ensures Stuck(run[n])
  {
    if n > 0 {
      StaysStuck(run, es, n - 1, horizon);
      assert Follows(run, es, n - 1, horizon);
      StuckStep(run[n - 1], es[n - 1], horizon);
    }
  }

  /** The level handed out by event `n`, if it asks for one, is plain UDP. */
  predicate AnswersUdp(run: seq<Features>, es: seq<Event>, n: nat)
    requires n < |es| && |run| == |es| + 1
  {
    es[n].Ask? ==> run[n + 1].possible == Udp
  }

  /** Every level handed out in any run from `f` without a reset is plain UDP. */
  ghost predicate OnlyUdp(f: Features, horizon: int) {
    forall run: seq<Features>, es: seq<Event>, n: nat |
      IsRun(run, es, horizon) && run[0] == f && n < |es| && (forall i | 0 <= i < |es| :: !es[i].Reset?) ::
      AnswersUdp(run, es, n)
  }

  /**
   * After a required OPT record was rejected, the server is asked over plain UDP for good,
   * until a reset, exactly when no retry was pending.
   */
  lemma UdpForGoodIff(f: Features, horizon: int)
    ensures OnlyUdp(Step(f, RequiredBadOpt, horizon), horizon) <==> f.retryAfter == None
  {
    var g := Step(f, RequiredBadOpt, horizon);
    if f.retryAfter == None {
      forall run: seq<Features>, es: seq<Event>, n: nat |
        IsRun(run, es, horizon) && run[0] == g && n < |es| && (forall i | 0 <= i < |es| :: !es[i].Reset?)
        ensures AnswersUdp(run, es, n)
      {
        StaysStuck(run, es, n + 1, horizon);
      }
    } else {
      var e := Ask(TlsDnssecOk, Udp, f.retryAfter.value);
      assert Step(g, e, horizon).possible == TlsDnssecOk;
      assert IsRun([g, Step(g, e, horizon)], [e], horizon);
      assert !AnswersUdp([g, Step(g, e, horizon)], [e], 0);
    }
  }
}

/**
 * `get_or_fetch`: concurrent misses for one key share a single upstream fetch.
 *
 * The protocol is a state machine whose steps are the critical sections of the
 * source: the cache lookup, the visit to the flight table, the end of the fetch with
 * the removal of the flight, the cache insertion, the broadcast, and the receipt.
 * Tasks interleave at these points in any order.
 */
module Singleflight {
  import opened Bytes
  import opened ShardedCache

  type Task = nat
  type Flight = nat

  /** What the upstream fetch gave. */
  datatype Outcome = Got(rcode: nat, answer: seq<Byte>, ttl: nat, secure: bool) | FetchFailed

  datatype Result =
    | Cached(entry: Entry)
    | Fetched(rcode: nat, answer: seq<Byte>, secure: bool)
    | FetchError
    | LeaderFailed
    | CoalesceDropped

  datatype Phase =
    | Missed(key: Key)
    | Waiting(key: Key, flight: Flight)
    | Leading(key: Key, flight: Flight)
    | Publishing(key: Key, publish: Option<Flight>, outcome: Outcome)
    | Sending(publish: Option<Flight>, outcome: Outcome)
    | Done(result: Result)

  /**
   * `flights` is the table of open flights; `subscribers` and `mail` are the broadcast
   * channels and their receivers; a flight in `closed` has no sender left. The maps
   * `leader`, `outcome`, `joined` and the set `inserted` record history and steer nothing.
   */
  datatype State = State(
    phase: map<Task, Phase>,
    flights: map<Key, Flight>,
    next: Flight,
    subscribers: map<Flight, set<Task>>,
    mail: map<Task, Outcome>,
    closed: set<Flight>,
    table: Table,
    leader: map<Flight, Task>,
    outcome: map<Flight, Outcome>,
    joined: map<Task, Flight>,
    inserted: set<Flight>)

  datatype Step =
    | Start(task: Task, key: Key, now: int)
    | Join(task: Task)
    | EndFetch(task: Task, outcome: Outcome)
    | Store(task: Task, now: int, window: nat, gen: nat, evicted: set<Key>)
    | Send(task: Task)
    | Receive(task: Task)
    | Disturb(table: Table)

  function Initial(table: Table): State {
    State(map[], map[], 0, map[], map[], {}, table, map[], map[], map[], {})
  }

  predicate Enabled(s: State, step: Step) {
    match step
    case Start(t, _, _) => t !in s.phase
    case Join(t) => t in s.phase && s.phase[t].Missed?
    case EndFetch(t, _) => t in s.phase && s.phase[t].Leading?
    case Store(t, _, _, _, _) => t in s.phase && s.phase[t].Publishing?
    case Send(t) => t in s.phase && s.phase[t].Sending?
    case Receive(t) =>
      t in s.phase && s.phase[t].Waiting? && (t in s.mail || s.phase[t].flight in s.closed)
    case Disturb(_) => true
  }

  function Apply(s: State, step: Step): State
    requires Enabled(s, step)
  {
    match step
    case Start(t, key, now) => DoStart(s, t, key, now)
    case Join(t) => DoJoin(s, t)
    case EndFetch(t, outcome) => DoEndFetch(s, t, outcome)
    case Store(t, now, window, gen, evicted) => DoStore(s, t, now, window, gen, evicted)
    case Send(t) => DoSend(s, t)
    case Receive(t) => DoReceive(s, t)
    case Disturb(table) => s.(table := table)
  }

  function DoStart(s: State, t: Task, key: Key, now: int): State {
    var answer := FlatLookup(s.table, key, now);
    s.(phase := s.phase[t := if answer.Miss? then Missed(key) else Done(Cached(answer.entry))])
  }

  function Subscribers(s: State, f: Flight): set<Task> {
    if f in s.subscribers then s.subscribers[f] else {}
  }

  function DoJoin(s: State, t: Task): State
    requires Enabled(s, Join(t))
  {
    if s.phase[t].key in s.flights then Follow(s, t, s.flights[s.phase[t].key]) else Lead(s, t)
  }

  function Follow(s: State, t: Task, f: Flight): State
    requires Enabled(s, Join(t))
  {
    s.(phase := s.phase[t := Waiting(s.phase[t].key, f)],
       subscribers := s.subscribers[f := Subscribers(s, f) + {t}],
       joined := s.joined[t := f])
  }

  function Lead(s: State, t: Task): State
    requires Enabled(s, Join(t))
  {
    s.(phase := s.phase[t := Leading(s.phase[t].key, s.next)],
       flights := s.flights[s.phase[t].key := s.next],
       next := s.next + 1,
       leader := s.leader[s.next := t],
       joined := s.joined[t := s.next])
  }

  function DoEndFetch(s: State, t: Task, outcome: Outcome): State
    requires Enabled(s, EndFetch(t, outcome))
  {
    var key := s.phase[t].key;
    var publish := if key in s.flights then Some(s.flights[key]) else None;
    s.(phase := s.phase[t := Publishing(key, publish, outcome)],
       flights := s.flights - {key},
       outcome := s.outcome[s.phase[t].flight := outcome])
  }

  /** The cache after the leader's insertion; a failed fetch inserts nothing. */
  function Stored(table: Table, key: Key, o: Outcome, now: int, window: nat, gen: nat, evicted: set<Key>): Table {
    if o.FetchFailed? then table
    else (table - evicted)[key := NewEntry(o.rcode, o.answer, o.ttl, o.secure, None, 0, now, window, gen)]
  }

  function Noted(inserted: set<Flight>, publish: Option<Flight>, o: Outcome): set<Flight> {
    if o.Got? && publish.Some? then inserted + {publish.value} else inserted
  }

  function DoStore(s: State, t: Task, now: int, window: nat, gen: nat, evicted: set<Key>): State
    requires Enabled(s, Store(t, now, window, gen, evicted))
  {
    var p := s.phase[t];
    Advance(s, t, p.publish, p.outcome, Stored(s.table, p.key, p.outcome, now, window, gen, evicted))
  }

  function Advance(s: State, t: Task, publish: Option<Flight>, o: Outcome, table: Table): State {
    s.(phase := s.phase[t := Sending(publish, o)], table := table, inserted := Noted(s.inserted, publish, o))
  }

  function LeaderResult(outcome: Outcome): Result {
    match outcome
    case Got(rcode, answer, _, secure) => Fetched(rcode, answer, secure)
    case FetchFailed => FetchError
  }

  function FollowerResult(outcome: Outcome): Result {
    match outcome
    case Got(rcode, answer, _, secure) => Fetched(rcode, answer, secure)
    case FetchFailed => LeaderFailed
  }

  function Deliver(mail: map<Task, Outcome>, to: set<Task>, outcome: Outcome): map<Task, Outcome> {
    map t | t in mail.Keys + to :: if t in to then outcome else mail[t]
  }

  function DoSend(s: State, t: Task): State
    requires Enabled(s, Send(t))
  {
    var p := s.phase[t];
    s.(phase := s.phase[t := Done(LeaderResult(p.outcome))],
       mail := if p.publish.None? then s.mail else Deliver(s.mail, Subscribers(s, p.publish.value), p.outcome),
       closed := if p.publish.None? then s.closed else s.closed + {p.publish.value})
  }

  function DoReceive(s: State, t: Task): State
    requires Enabled(s, Receive(t))
  {
    s.(phase := s.phase[t := Done(if t in s.mail then FollowerResult(s.mail[t]) else CoalesceDropped)])
  }

  // ----- The invariant -----------------------------------------------------------------

  /** The flight a leader is responsible for until it has broadcast. */
  predicate InCharge(s: State, t: Task, f: Flight) {
    t in s.phase &&
    match s.phase[t]
    case Leading(_, g) => f == g
    case Publishing(_, p, _) => p == Some(f)
    case Sending(p, _) => p == Some(f)
    case _ => false
  }

  /** What holds of one task, given the phase it is in. */
  predicate TaskOk(s: State, t: Task, p: Phase) {
    match p
    case Missed(_) => t !in s.joined && t !in s.mail
    case Waiting(_, f) =>
      && t in s.joined && s.joined[t] == f && f in s.leader && s.leader[f] != t
      && t in Subscribers(s, f) && (t in s.mail <==> f in s.closed)
    case Leading(k, f) =>
      && t in s.joined && s.joined[t] == f && f in s.leader && s.leader[f] == t
      && k in s.flights && s.flights[k] == f && f !in s.closed && f !in s.outcome
    case Publishing(_, publish, o) =>
      && publish.Some? && var f := publish.value;
      && t in s.joined && s.joined[t] == f && f in s.leader && s.leader[f] == t
      && f !in s.closed && f in s.outcome && s.outcome[f] == o
    case Sending(publish, o) =>
      && publish.Some? && var f := publish.value;
      && t in s.joined && s.joined[t] == f && f in s.leader && s.leader[f] == t
      && f !in s.closed && f in s.outcome && s.outcome[f] == o && (o.Got? ==> f in s.inserted)
    case Done(r) =>
      if r.Cached? then t !in s.joined
      else
        && t in s.joined && var f := s.joined[t];
        && f in s.leader && f in s.outcome && f in s.closed
        && r == (if s.leader[f] == t then LeaderResult(s.outcome[f]) else FollowerResult(s.outcome[f]))
  }

  predicate FlightOk(s: State, k: Key, f: Flight) {
    f in s.leader && s.leader[f] in s.phase && s.phase[s.leader[f]] == Leading(k, f)
  }

  /** A flight that was opened is still led, or has told everyone. */
  predicate Led(s: State, f: Flight, t: Task) {
    && f < s.next
    && if f in s.closed then f in s.outcome && (s.outcome[f].Got? ==> f in s.inserted) else InCharge(s, t, f)
  }

  predicate MailOk(s: State, t: Task, o: Outcome) {
    && t in s.joined && var f := s.joined[t];
    && f in s.closed && f in s.outcome && s.outcome[f] == o
  }

  predicate SubscribersOk(s: State, f: Flight, to: set<Task>) {
    f in s.leader && forall t | t in to :: t in s.joined && s.joined[t] == f
  }

  predicate TasksOk(s: State) { forall t | t in s.phase :: TaskOk(s, t, s.phase[t]) }

  predicate FlightsOk(s: State) { forall k | k in s.flights :: FlightOk(s, k, s.flights[k]) }

  predicate LeadersOk(s: State) { forall f | f in s.leader :: Led(s, f, s.leader[f]) }

  predicate ChannelsOk(s: State) {
    && s.joined.Keys <= s.phase.Keys && s.closed <= s.leader.Keys && s.outcome.Keys <= s.leader.Keys
    && (forall t | t in s.mail :: MailOk(s, t, s.mail[t]))
    && (forall f | f in s.subscribers :: SubscribersOk(s, f, s.subscribers[f]))
  }

  predicate Inv(s: State) { TasksOk(s) && FlightsOk(s) && LeadersOk(s) && ChannelsOk(s) }

  lemma InitialOk(table: Table)
    ensures Inv(Initial(table))
  {
  }

  lemma StartOk(s: State, t: Task, key: Key, now: int)
    requires Inv(s) && t !in s.phase
    ensures Inv(DoStart(s, t, key, now))
  {
    var n := DoStart(s, t, key, now);
    forall u | u in n.phase ensures TaskOk(n, u, n.phase[u]) { StartTask(s, t, key, now, u); }
    StartRest(s, t, key, now);
  }

  lemma StartTask(s: State, t: Task, key: Key, now: int, u: Task)
    requires Inv(s) && t !in s.phase && u in DoStart(s, t, key, now).phase
    ensures var n := DoStart(s, t, key, now); TaskOk(n, u, n.phase[u])
  {
    if u != t { assert TaskOk(s, u, s.phase[u]); }
  }

  lemma StartRest(s: State, t: Task, key: Key, now: int)
    requires Inv(s) && t !in s.phase
    ensures var n := DoStart(s, t, key, now); FlightsOk(n) && LeadersOk(n) && ChannelsOk(n)
  {
  }

  lemma FollowOk(s: State, t: Task, f: Flight)
    requires Inv(s) && Enabled(s, Join(t)) && s.phase[t].key in s.flights && f == s.flights[s.phase[t].key]
    ensures Inv(Follow(s, t, f))
  {
    var n := Follow(s, t, f);
    forall u | u in n.phase ensures TaskOk(n, u, n.phase[u]) { FollowTask(s, t, f, u); }
    FollowRest(s, t, f);
  }

  lemma FollowTask(s: State, t: Task, f: Flight, u: Task)
    requires Inv(s) && Enabled(s, Join(t)) && s.phase[t].key in s.flights && f == s.flights[s.phase[t].key] && u in Follow(s, t, f).phase
    ensures var n := Follow(s, t, f); TaskOk(n, u, n.phase[u])
  {
    if u != t { assert TaskOk(s, u, s.phase[u]); }
  }

  lemma FollowRest(s: State, t: Task, f: Flight)
    requires Inv(s) && Enabled(s, Join(t)) && s.phase[t].key in s.flights && f == s.flights[s.phase[t].key]
    ensures var n := Follow(s, t, f); FlightsOk(n) && LeadersOk(n) && ChannelsOk(n)
  {
    FollowFlights(s, t, f);
    FollowLeaders(s, t, f);
    FollowChannels(s, t, f);
  }

  lemma FollowFlights(s: State, t: Task, f: Flight)
    requires Inv(s) && Enabled(s, Join(t)) && s.phase[t].key in s.flights && f == s.flights[s.phase[t].key]
    ensures FlightsOk(Follow(s, t, f))
  {
    var n := Follow(s, t, f);
    forall k | k in n.flights ensures FlightOk(n, k, n.flights[k]) { assert FlightOk(s, k, s.flights[k]); }
  }

  lemma FollowLeaders(s: State, t: Task, f: Flight)
    requires Inv(s) && Enabled(s, Join(t)) && s.phase[t].key in s.flights && f == s.flights[s.phase[t].key]
    ensures LeadersOk(Follow(s, t, f))
  {
    var n := Follow(s, t, f);
    assert TaskOk(s, t, s.phase[t]);
    forall f | f in n.leader ensures Led(n, f, n.leader[f]) { assert Led(s, f, s.leader[f]); }
  }

  lemma FollowChannels(s: State, t: Task, f: Flight)
    requires Inv(s) && Enabled(s, Join(t)) && s.phase[t].key in s.flights && f == s.flights[s.phase[t].key]
    ensures ChannelsOk(Follow(s, t, f))
  {
    assert TaskOk(s, t, s.phase[t]);
  }

  lemma LeadOk(s: State, t: Task)
    requires Inv(s) && Enabled(s, Join(t)) && s.phase[t].key !in s.flights
    ensures Inv(Lead(s, t))
  {
    var n := Lead(s, t);
    forall u | u in n.phase ensures TaskOk(n, u, n.phase[u]) { LeadTask(s, t, u); }
    LeadRest(s, t);
  }

  lemma LeadTask(s: State, t: Task, u: Task)
    requires Inv(s) && Enabled(s, Join(t)) && s.phase[t].key !in s.flights && u in Lead(s, t).phase
    ensures var n := Lead(s, t); TaskOk(n, u, n.phase[u])
  {
    if u != t { assert TaskOk(s, u, s.phase[u]); }
  }

  lemma LeadRest(s: State, t: Task)
    requires Inv(s) && Enabled(s, Join(t)) && s.phase[t].key !in s.flights
    ensures var n := Lead(s, t); FlightsOk(n) && LeadersOk(n) && ChannelsOk(n)
  {
    var n := Lead(s, t);
    assert s.next !in s.leader;
    forall k | k in n.flights ensures FlightOk(n, k, n.flights[k]) {
      if k != s.phase[t].key { assert FlightOk(s, k, s.flights[k]); }
    }
    forall f | f in n.leader ensures Led(n, f, n.leader[f]) {
      if f != s.next { assert Led(s, f, s.leader[f]); }
    }
    LeadChannels(s, t);
  }

  lemma LeadChannels(s: State, t: Task)
    requires Inv(s) && Enabled(s, Join(t)) && s.next !in s.leader
    ensures ChannelsOk(Lead(s, t))
  {
    assert TaskOk(s, t, s.phase[t]);
    var n := Lead(s, t);
    forall f | f in n.subscribers ensures SubscribersOk(n, f, n.subscribers[f]) {
      assert SubscribersOk(s, f, s.subscribers[f]);
    }
  }

  lemma EndFetchOk(s: State, t: Task, outcome: Outcome)
    requires Inv(s) && Enabled(s, EndFetch(t, outcome))
    ensures Inv(DoEndFetch(s, t, outcome))
  {
    var n := DoEndFetch(s, t, outcome);
    forall u | u in n.phase ensures TaskOk(n, u, n.phase[u]) { EndFetchTask(s, t, outcome, u); }
    EndFetchRest(s, t, outcome);
  }

  lemma EndFetchTask(s: State, t: Task, outcome: Outcome, u: Task)
    requires Inv(s) && Enabled(s, EndFetch(t, outcome)) && u in DoEndFetch(s, t, outcome).phase
    ensures var n := DoEndFetch(s, t, outcome); TaskOk(n, u, n.phase[u])
  {
    if u != t { assert TaskOk(s, u, s.phase[u]); }
  }

  lemma EndFetchRest(s: State, t: Task, outcome: Outcome)
    requires Inv(s) && Enabled(s, EndFetch(t, outcome))
    ensures var n := DoEndFetch(s, t, outcome); FlightsOk(n) && LeadersOk(n) && ChannelsOk(n)
  {
    EndFetchFlights(s, t, outcome);
    EndFetchLeaders(s, t, outcome);
    EndFetchChannels(s, t, outcome);
  }

  lemma EndFetchFlights(s: State, t: Task, outcome: Outcome)
    requires Inv(s) && Enabled(s, EndFetch(t, outcome))
    ensures FlightsOk(DoEndFetch(s, t, outcome))
  {
    var n := DoEndFetch(s, t, outcome);
    forall k | k in n.flights ensures FlightOk(n, k, n.flights[k]) { assert FlightOk(s, k, s.flights[k]); }
  }

  lemma EndFetchLeaders(s: State, t: Task, outcome: Outcome)
    requires Inv(s) && Enabled(s, EndFetch(t, outcome))
    ensures LeadersOk(DoEndFetch(s, t, outcome))
  {
    var n := DoEndFetch(s, t, outcome);
    assert TaskOk(s, t, s.phase[t]);
    forall f | f in n.leader ensures Led(n, f, n.leader[f]) { assert Led(s, f, s.leader[f]); }
  }

  lemma EndFetchChannels(s: State, t: Task, outcome: Outcome)
    requires Inv(s) && Enabled(s, EndFetch(t, outcome))
    ensures ChannelsOk(DoEndFetch(s, t, outcome))
  {
    assert TaskOk(s, t, s.phase[t]);
  }

  lemma StoreOk(s: State, t: Task, table: Table)
    requires Inv(s) && t in s.phase && s.phase[t].Publishing?
    ensures Inv(Advance(s, t, s.phase[t].publish, s.phase[t].outcome, table))
  {
    var n := Advance(s, t, s.phase[t].publish, s.phase[t].outcome, table);
    forall u | u in n.phase ensures TaskOk(n, u, n.phase[u]) { StoreTask(s, t, table, u); }
    StoreRest(s, t, table);
  }

  lemma StoreTask(s: State, t: Task, table: Table, u: Task)
    requires Inv(s) && t in s.phase && s.phase[t].Publishing? && u in s.phase
    ensures var n := Advance(s, t, s.phase[t].publish, s.phase[t].outcome, table); TaskOk(n, u, n.phase[u])
  {
    assert TaskOk(s, u, s.phase[u]);
  }

  lemma StoreRest(s: State, t: Task, table: Table)
    requires Inv(s) && t in s.phase && s.phase[t].Publishing?
    ensures var n := Advance(s, t, s.phase[t].publish, s.phase[t].outcome, table);
            FlightsOk(n) && LeadersOk(n) && ChannelsOk(n)
  {
    assert TaskOk(s, t, s.phase[t]);
  }

  lemma SendOk(s: State, t: Task)
    requires Inv(s) && Enabled(s, Send(t))
    ensures Inv(DoSend(s, t))
  {
    var n := DoSend(s, t);
    forall u | u in n.phase ensures TaskOk(n, u, n.phase[u]) { SendTask(s, t, u); }
    SendRest(s, t);
  }

  lemma SendTask(s: State, t: Task, u: Task)
    requires Inv(s) && Enabled(s, Send(t)) && u in DoSend(s, t).phase
    ensures var n := DoSend(s, t); TaskOk(n, u, n.phase[u])
  {
    if u != t { assert TaskOk(s, u, s.phase[u]); }
  }

  lemma SendRest(s: State, t: Task)
    requires Inv(s) && Enabled(s, Send(t))
    ensures var n := DoSend(s, t); FlightsOk(n) && LeadersOk(n) && ChannelsOk(n)
  {
    SendFlights(s, t);
    SendLeaders(s, t);
    SendChannels(s, t);
  }

  lemma SendFlights(s: State, t: Task)
    requires Inv(s) && Enabled(s, Send(t))
    ensures FlightsOk(DoSend(s, t))
  {
    var n := DoSend(s, t);
    forall k | k in n.flights ensures FlightOk(n, k, n.flights[k]) { assert FlightOk(s, k, s.flights[k]); }
  }

  lemma SendLeaders(s: State, t: Task)
    requires Inv(s) && Enabled(s, Send(t))
    ensures LeadersOk(DoSend(s, t))
  {
    var n := DoSend(s, t);
    assert TaskOk(s, t, s.phase[t]);
    forall f | f in n.leader ensures Led(n, f, n.leader[f]) { assert Led(s, f, s.leader[f]); }
  }

  lemma SendChannels(s: State, t: Task)
    requires Inv(s) && Enabled(s, Send(t))
    ensures ChannelsOk(DoSend(s, t))
  {
    assert TaskOk(s, t, s.phase[t]);
  }

  lemma ReceiveOk(s: State, t: Task)
    requires Inv(s) && Enabled(s, Receive(t))
    ensures Inv(DoReceive(s, t))
  {
    var n := DoReceive(s, t);
    forall u | u in n.phase ensures TaskOk(n, u, n.phase[u]) { ReceiveTask(s, t, u); }
    ReceiveRest(s, t);
  }

  lemma ReceiveTask(s: State, t: Task, u: Task)
    requires Inv(s) && Enabled(s, Receive(t)) && u in DoReceive(s, t).phase
    ensures var n := DoReceive(s, t); TaskOk(n, u, n.phase[u])
  {
    if u != t { assert TaskOk(s, u, s.phase[u]); }
  }

  lemma ReceiveRest(s: State, t: Task)
    requires Inv(s) && Enabled(s, Receive(t))
    ensures var n := DoReceive(s, t); FlightsOk(n) && LeadersOk(n) && ChannelsOk(n)
  {
  }

  lemma StepOk(s: State, step: Step)
    requires Inv(s) && Enabled(s, step)
    ensures Inv(Apply(s, step))
  {
    match step
    case Start(t, key, now) => StartOk(s, t, key, now);
    case Join(t) => if s.phase[t].key in s.flights { FollowOk(s, t, s.flights[s.phase[t].key]); } else { LeadOk(s, t); }
    case EndFetch(t, outcome) => EndFetchOk(s, t, outcome);
    case Store(t, now, window, gen, evicted) =>
      StoreOk(s, t, Stored(s.table, s.phase[t].key, s.phase[t].outcome, now, window, gen, evicted));
    case Send(t) => SendOk(s, t);
    case Receive(t) => ReceiveOk(s, t);
    case Disturb(table) => DisturbOk(s, table);
  }

  lemma DisturbOk(s: State, table: Table)
    requires Inv(s)
    ensures Inv(s.(table := table))
  {
    var n := s.(table := table);
    forall u | u in n.phase ensures TaskOk(n, u, n.phase[u]) { assert TaskOk(s, u, s.phase[u]); }
  }

  // ----- Runs ------------------------------------------------------------------------------

  /** A run: every interleaving of the steps of any number of tasks. */
  predicate IsRun(run: seq<State>, steps: seq<Step>) {
    && |run| == |steps| + 1
    && run[0] == Initial(run[0].table)
    && forall i | 0 <= i < |steps| :: Enabled(run[i], steps[i]) && run[i + 1] == Apply(run[i], steps[i])
  }

  lemma {:induction false} RunOk(run: seq<State>, steps: seq<Step>, i: nat)
    requires IsRun(run, steps) && i < |run|
    ensures Inv(run[i])
    decreases i
  {
    if i == 0 {
      InitialOk(run[0].table);
    } else {
      RunOk(run, steps, i - 1);
      StepOk(run[i - 1], steps[i - 1]);
    }
  }

  /** At any moment of any run a key has at most one task fetching it. */
  lemma OneFetchPerKey(run: seq<State>, steps: seq<Step>, i: nat, t: Task, u: Task)
    requires IsRun(run, steps) && i < |run|
    requires t in run[i].phase && run[i].phase[t].Leading? && u in run[i].phase && run[i].phase[u].Leading?
    requires run[i].phase[t].key == run[i].phase[u].key
    ensures t == u
  {
    RunOk(run, steps, i);
    assert TaskOk(run[i], t, run[i].phase[t]) && TaskOk(run[i], u, run[i].phase[u]);
  }

  /** When a fetch ends, the flight its leader takes from the table is its own. */
  lemma LeaderTakesOwnFlight(run: seq<State>, steps: seq<Step>, i: nat)
    requires IsRun(run, steps) && i < |steps| && steps[i].EndFetch?
    ensures var t, p := steps[i].task, run[i].phase[steps[i].task];
            && p.key in run[i].flights && run[i].flights[p.key] == p.flight && p.key !in run[i + 1].flights
            && run[i + 1].phase[t] == Publishing(p.key, Some(p.flight), steps[i].outcome)
  {
    RunOk(run, steps, i);
    assert TaskOk(run[i], steps[i].task, run[i].phase[steps[i].task]);
  }

  /** No follower ever finds the channel closed without a message. */
  lemma NobodyIsDropped(run: seq<State>, steps: seq<Step>, i: nat, t: Task)
    requires IsRun(run, steps) && i < |run| && t in run[i].phase
    ensures run[i].phase[t] != Done(CoalesceDropped)
  {
    RunOk(run, steps, i);
    assert TaskOk(run[i], t, run[i].phase[t]);
  }

  /** Tasks of one flight end with the same answer, or all fail: the leader with its own error. */
  lemma FlightAgrees(run: seq<State>, steps: seq<Step>, i: nat, t: Task, u: Task)
    requires IsRun(run, steps) && i < |run|
    requires t in run[i].phase && run[i].phase[t].Done? && u in run[i].phase && run[i].phase[u].Done?
    requires t in run[i].joined && u in run[i].joined && run[i].joined[t] == run[i].joined[u]
    ensures var a, b := run[i].phase[t].result, run[i].phase[u].result;
            (a.Fetched? && b == a) || (a in {FetchError, LeaderFailed} && b in {FetchError, LeaderFailed})
    ensures run[i].phase[t].result.FetchError? && run[i].phase[u].result.FetchError? ==> t == u
  {
    RunOk(run, steps, i);
    assert TaskOk(run[i], t, run[i].phase[t]) && TaskOk(run[i], u, run[i].phase[u]);
  }

  lemma OutcomeStep(s: State, step: Step, f: Flight)
    requires Inv(s) && Enabled(s, step) && f in s.outcome
    ensures var n := Apply(s, step); f in n.outcome && n.outcome[f] == s.outcome[f]
  {
    if step.EndFetch? { assert TaskOk(s, step.task, s.phase[step.task]); }
  }

  lemma {:induction false} OutcomeKept(run: seq<State>, steps: seq<Step>, i: nat, j: nat, f: Flight)
    requires IsRun(run, steps) && i <= j < |run| && f in run[i].outcome
    ensures f in run[j].outcome && run[j].outcome[f] == run[i].outcome[f]
    decreases j
  {
    if i < j {
      OutcomeKept(run, steps, i, j - 1, f);
      RunOk(run, steps, j - 1);
      OutcomeStep(run[j - 1], steps[j - 1], f);
    }
  }

  /** However many tasks join a flight, its fetch ends once. */
  lemma FetchesOnce(run: seq<State>, steps: seq<Step>, i: nat, j: nat)
    requires IsRun(run, steps) && i <= j < |steps| && steps[i].EndFetch? && steps[j].EndFetch?
    requires run[i].phase[steps[i].task].flight == run[j].phase[steps[j].task].flight
    ensures i == j
  {
    RunOk(run, steps, j);
    assert TaskOk(run[j], steps[j].task, run[j].phase[steps[j].task]);
    if i < j { OutcomeKept(run, steps, i + 1, j, run[i].phase[steps[i].task].flight); }
  }

  /** The step at which a leader put its flight's answer into the cache. */
  predicate Stores(s: State, step: Step, f: Flight, o: Outcome) {
    && step.Store? && Enabled(s, step) && o.Got?
    && s.phase[step.task].publish == Some(f) && s.phase[step.task].outcome == o
  }

  lemma InsertedStep(s: State, step: Step, f: Flight)
    requires Inv(s) && Enabled(s, step) && f in Apply(s, step).inserted && f !in s.inserted
    ensures f in s.outcome && Stores(s, step, f, s.outcome[f])
  {
    if step.Store? { assert TaskOk(s, step.task, s.phase[step.task]); }
  }

  lemma {:induction false} InsertedByStore(run: seq<State>, steps: seq<Step>, i: nat, f: Flight) returns (j: nat)
    requires IsRun(run, steps) && i < |run| && f in run[i].inserted
    ensures j < i && f in run[j].outcome && Stores(run[j], steps[j], f, run[j].outcome[f])
    decreases i
  {
    RunOk(run, steps, i - 1);
    if f in run[i - 1].inserted {
      j := InsertedByStore(run, steps, i - 1, f);
    } else {
      j := i - 1;
      InsertedStep(run[j], steps[j], f);
    }
  }

  // ----- Everyone is answered for the key asked -----------------------------------------------------

  /** The keys the tasks were started for. */
  ghost function Asked(steps: seq<Step>, i: nat): map<Task, Key>
    requires i <= |steps|
  {
    if i == 0 then map[] else NowAsked(Asked(steps, i - 1), steps[i - 1])
  }

  ghost function NowAsked(asked: map<Task, Key>, step: Step): map<Task, Key> {
    if step.Start? then asked[step.task := step.key] else asked
  }

  /** The keys the flights were opened for. */
  ghost function Subjects(run: seq<State>, steps: seq<Step>, i: nat): map<Flight, Key>
    requires i <= |steps| && i <= |run|
  {
    if i == 0 then map[] else NowSubjects(Subjects(run, steps, i - 1), run[i - 1], steps[i - 1])
  }

  ghost function NowSubjects(subjects: map<Flight, Key>, s: State, step: Step): map<Flight, Key> {
    if step.Join? && Enabled(s, step) && s.phase[step.task].key !in s.flights then
      subjects[s.next := s.phase[step.task].key]
    else subjects
  }

  /** A phase that names a key names the one asked for. */
  predicate Names(p: Phase, key: Key) {
    match p
    case Missed(k) => k == key
    case Waiting(k, _) => k == key
    case Leading(k, _) => k == key
    case Publishing(k, _, _) => k == key
    case _ => true
  }

  ghost predicate AsksOwn(s: State, asked: map<Task, Key>, subjects: map<Flight, Key>, t: Task)
    requires t in s.phase
  {
    && t in asked && Names(s.phase[t], asked[t])
    && (t in s.joined ==> s.joined[t] in subjects && subjects[s.joined[t]] == asked[t])
  }

  ghost predicate KeysOk(s: State, asked: map<Task, Key>, subjects: map<Flight, Key>) {
    && (forall t | t in s.phase :: AsksOwn(s, asked, subjects, t))
    && (forall k | k in s.flights :: s.flights[k] in subjects && subjects[s.flights[k]] == k)
    && (forall f | f in subjects :: f < s.next) && s.joined.Keys <= s.phase.Keys
  }

  lemma StartKeys(s: State, asked: map<Task, Key>, subjects: map<Flight, Key>, t: Task, key: Key, now: int)
    requires KeysOk(s, asked, subjects) && t !in s.phase
    ensures KeysOk(DoStart(s, t, key, now), asked[t := key], subjects)
  {
    var n := DoStart(s, t, key, now);
    forall u | u in n.phase ensures AsksOwn(n, asked[t := key], subjects, u) {
      if u != t { assert AsksOwn(s, asked, subjects, u); }
    }
  }

  lemma FollowKeys(s: State, asked: map<Task, Key>, subjects: map<Flight, Key>, t: Task)
    requires KeysOk(s, asked, subjects) && Enabled(s, Join(t)) && s.phase[t].key in s.flights
    ensures KeysOk(Follow(s, t, s.flights[s.phase[t].key]), asked, subjects)
  {
    var n := Follow(s, t, s.flights[s.phase[t].key]);
    forall u | u in n.phase ensures AsksOwn(n, asked, subjects, u) { assert AsksOwn(s, asked, subjects, u); }
  }

  lemma LeadKeys(s: State, asked: map<Task, Key>, subjects: map<Flight, Key>, t: Task)
    requires KeysOk(s, asked, subjects) && Enabled(s, Join(t)) && s.phase[t].key !in s.flights
    ensures KeysOk(Lead(s, t), asked, subjects[s.next := s.phase[t].key])
  {
    var n := Lead(s, t);
    forall u | u in n.phase ensures AsksOwn(n, asked, subjects[s.next := s.phase[t].key], u) {
      assert AsksOwn(s, asked, subjects, u);
    }
  }

  /** A step that changes one task's phase, and opens no flight. */
  lemma PhaseKeys(s: State, asked: map<Task, Key>, subjects: map<Flight, Key>, t: Task, n: State)
    requires KeysOk(s, asked, subjects) && t in s.phase && n.phase.Keys == s.phase.Keys && n.joined == s.joined && n.next == s.next
    requires forall u | u in s.phase && u != t :: n.phase[u] == s.phase[u]
    requires Names(n.phase[t], asked[t]) && forall k | k in n.flights :: k in s.flights && n.flights[k] == s.flights[k]
    ensures KeysOk(n, asked, subjects)
  {
    forall u | u in n.phase ensures AsksOwn(n, asked, subjects, u) { assert AsksOwn(s, asked, subjects, u); }
  }

  lemma KeysStep(s: State, asked: map<Task, Key>, subjects: map<Flight, Key>, step: Step)
    requires KeysOk(s, asked, subjects) && Enabled(s, step)
    ensures KeysOk(Apply(s, step), NowAsked(asked, step), NowSubjects(subjects, s, step))
  {
    match step
    case Start(t, key, now) => StartKeys(s, asked, subjects, t, key, now);
    case Join(t) =>
      if s.phase[t].key in s.flights { FollowKeys(s, asked, subjects, t); } else { LeadKeys(s, asked, subjects, t); }
    case EndFetch(t, outcome) =>
      assert AsksOwn(s, asked, subjects, t);
      PhaseKeys(s, asked, subjects, t, DoEndFetch(s, t, outcome));
    case Store(t, now, window, gen, evicted) => StoreKeys(s, asked, subjects, t, now, window, gen, evicted);
    case Send(t) => SendKeys(s, asked, subjects, t);
    case Receive(t) =>
      assert AsksOwn(s, asked, subjects, t);
      PhaseKeys(s, asked, subjects, t, DoReceive(s, t));
    case Disturb(table) =>
      forall u | u in s.phase ensures AsksOwn(s.(table := table), asked, subjects, u) { assert AsksOwn(s, asked, subjects, u); }
  }

  lemma StoreKeys(s: State, asked: map<Task, Key>, subjects: map<Flight, Key>, t: Task, now: int, window: nat, gen: nat, evicted: set<Key>)
    requires KeysOk(s, asked, subjects) && Enabled(s, Store(t, now, window, gen, evicted))
    ensures KeysOk(DoStore(s, t, now, window, gen, evicted), asked, subjects)
  {
    assert AsksOwn(s, asked, subjects, t);
    PhaseKeys(s, asked, subjects, t, DoStore(s, t, now, window, gen, evicted));
  }

  lemma SendFrame(s: State, t: Task, n: State)
    requires Enabled(s, Send(t)) && n == DoSend(s, t)
    ensures n.phase == s.phase[t := Done(LeaderResult(s.phase[t].outcome))]
    ensures n.joined == s.joined && n.next == s.next && n.flights == s.flights
  {
  }

  lemma SendKeys(s: State, asked: map<Task, Key>, subjects: map<Flight, Key>, t: Task)
    requires KeysOk(s, asked, subjects) && Enabled(s, Send(t))
    ensures KeysOk(DoSend(s, t), asked, subjects)
  {
    var n := DoSend(s, t);
    SendFrame(s, t, n);
    assert AsksOwn(s, asked, subjects, t);
    PhaseKeys(s, asked, subjects, t, n);
  }

  lemma {:induction false} RunKeysOk(run: seq<State>, steps: seq<Step>, i: nat)
    requires IsRun(run, steps) && i < |run|
    ensures KeysOk(run[i], Asked(steps, i), Subjects(run, steps, i))
    decreases i
  {
    if i > 0 {
      RunKeysOk(run, steps, i - 1);
      KeysStep(run[i - 1], Asked(steps, i - 1), Subjects(run, steps, i - 1), steps[i - 1]);
    }
  }

  lemma SubjectStep(s: State, asked: map<Task, Key>, subjects: map<Flight, Key>, step: Step, f: Flight)
    requires KeysOk(s, asked, subjects) && f in subjects
    ensures f in NowSubjects(subjects, s, step) && NowSubjects(subjects, s, step)[f] == subjects[f]
  {
  }

  lemma SubjectNext(run: seq<State>, steps: seq<Step>, j: nat, f: Flight)
    requires IsRun(run, steps) && j < |steps| && f in Subjects(run, steps, j)
    ensures f in Subjects(run, steps, j + 1) && Subjects(run, steps, j + 1)[f] == Subjects(run, steps, j)[f]
  {
    RunKeysOk(run, steps, j);
    SubjectStep(run[j], Asked(steps, j), Subjects(run, steps, j), steps[j], f);
  }

  lemma {:induction false} SubjectKept(run: seq<State>, steps: seq<Step>, i: nat, j: nat, f: Flight)
    requires IsRun(run, steps) && i <= j < |run| && f in Subjects(run, steps, i)
    ensures f in Subjects(run, steps, j) && Subjects(run, steps, j)[f] == Subjects(run, steps, i)[f]
    decreases j
  {
    if i < j {
      SubjectKept(run, steps, i, j - 1, f);
      SubjectNext(run, steps, j - 1, f);
    }
  }

  /** A leader stores its answer under the key that every task of its flight asked for. */
  lemma StoredForAsked(run: seq<State>, steps: seq<Step>, i: nat, j: nat, t: Task)
    requires IsRun(run, steps) && j < i < |run| && t in run[i].phase && t in run[i].joined
    requires steps[j].Store? && steps[j].task in run[j].phase && run[j].phase[steps[j].task].Publishing?
    requires run[j].phase[steps[j].task].publish == Some(run[i].joined[t])
    ensures t in Asked(steps, i) && run[j].phase[steps[j].task].key == Asked(steps, i)[t]
  {
    var u := steps[j].task;
    RunOk(run, steps, j);
    assert TaskOk(run[j], u, run[j].phase[u]);
    RunKeysOk(run, steps, j);
    RunKeysOk(run, steps, i);
    assert AsksOwn(run[j], Asked(steps, j), Subjects(run, steps, j), u);
    assert AsksOwn(run[i], Asked(steps, i), Subjects(run, steps, i), t);
    SubjectKept(run, steps, j, i, run[j].joined[u]);
  }

  // ----- Answers are in the cache before anyone hears them --------------------------------------------

  /** The entry holds the answer of the outcome, from `now` on for its lifetime. */
  predicate HoldsAnswer(e: Entry, o: Outcome, now: int) {
    && o.Got? && e.rcode == o.rcode && e.answer == o.answer && e.secure == o.secure
    && e.inserted == now && e.expiresAt == now + ClampTtl(o.ttl, o.rcode)
  }

  lemma StoreLeaves(s: State, step: Step, f: Flight, o: Outcome)
    requires Stores(s, step, f, o)
    ensures var n, key := Apply(s, step), s.phase[step.task].key;
            key in n.table && HoldsAnswer(n.table[key], o, step.now)
  {
  }

  /** A task that starts for the key at that time is done at once, with the answer. */
  predicate FindsIt(s: State, u: Task, key: Key, now: int, o: Outcome) {
    && Enabled(s, Start(u, key, now))
    && var n := Apply(s, Start(u, key, now));
    && u in n.phase && n.phase[u].Done? && n.phase[u].result.Cached? && o.Got?
    && n.phase[u].result.entry.answer == o.answer && n.phase[u].result.entry.rcode == o.rcode
  }

  /** A task is answered from the cache exactly when the table holds an entry that may still be served. */
  lemma CachedIsServable(s: State, u: Task, key: Key, now: int)
    requires u !in s.phase
    ensures var n := Apply(s, Start(u, key, now));
            && u in n.phase && (n.phase[u].Done? <==> key in s.table && (now < s.table[key].expiresAt || now < s.table[key].staleUntil))
            && (n.phase[u].Done? ==> n.phase[u] == Done(Cached(s.table[key]))) && (!n.phase[u].Done? ==> n.phase[u] == Missed(key))
  {
  }

  lemma FoundInTime(s: State, key: Key, o: Outcome, since: int, u: Task, now: int)
    requires key in s.table && HoldsAnswer(s.table[key], o, since) && u !in s.phase && now < since + ClampTtl(o.ttl, o.rcode)
    ensures FindsIt(s, u, key, now, o)
  {
  }

  /**
   * An answer any task of a flight returns was put into the cache before, byte for byte, under the
   * key that the task asked for.
   */
  lemma HeardAfterStored(run: seq<State>, steps: seq<Step>, i: nat, t: Task) returns (j: nat, o: Outcome)
    requires IsRun(run, steps) && i < |run| && t in run[i].phase
    requires run[i].phase[t].Done? && run[i].phase[t].result.Fetched?
    ensures j < i && t in run[i].joined && Stores(run[j], steps[j], run[i].joined[t], o)
    ensures run[i].phase[t].result == Fetched(o.rcode, o.answer, o.secure)
    ensures t in Asked(steps, i) && Asked(steps, i)[t] in run[j + 1].table
    ensures HoldsAnswer(run[j + 1].table[Asked(steps, i)[t]], o, steps[j].now)
  {
    RunOk(run, steps, i);
    assert TaskOk(run[i], t, run[i].phase[t]);
    var f := run[i].joined[t];
    assert Led(run[i], f, run[i].leader[f]);
    j := InsertedByStore(run, steps, i, f);
    o := run[j].outcome[f];
    OutcomeKept(run, steps, j, i, f);
    StoreLeaves(run[j], steps[j], f, o);
    StoredForAsked(run, steps, i, j, t);
  }

  /** Whoever asks for the key right after the answer is stored, and in time, finds it without a fetch. */
  lemma StoredIsFound(run: seq<State>, steps: seq<Step>, j: nat, f: Flight, o: Outcome, u: Task, now: int)
    requires IsRun(run, steps) && j < |steps| && Stores(run[j], steps[j], f, o)
    requires u !in run[j + 1].phase && now < steps[j].now + ClampTtl(o.ttl, o.rcode)
    ensures FindsIt(run[j + 1], u, run[j].phase[steps[j].task].key, now, o)
  {
    StoreLeaves(run[j], steps[j], f, o);
    FoundInTime(run[j + 1], run[j].phase[steps[j].task].key, o, steps[j].now, u, now);
  }

  // ----- Progress ----------------------------------------------------------------------------

  /** Steps left to a task. */
  function Weight(p: Phase): nat {
    match p
    case Missed(_) => 4
    case Waiting(_, _) => 1
    case Leading(_, _) => 3
    case Publishing(_, _, _) => 2
    case Sending(_, _) => 1
    case Done(_) => 0
  }

  /** A step brings its own task closer to the end. */
  lemma StepAdvances(s: State, step: Step)
    requires Enabled(s, step) && !step.Start? && !step.Disturb?
    ensures var n := Apply(s, step);
            step.task in n.phase && Weight(n.phase[step.task]) < Weight(s.phase[step.task])
  {
    match step
    case Join(t) => assert DoJoin(s, t).phase[t].Waiting? || DoJoin(s, t).phase[t].Leading?;
    case EndFetch(t, outcome) => assert DoEndFetch(s, t, outcome).phase[t].Publishing?;
    case Store(t, now, window, gen, evicted) => assert DoStore(s, t, now, window, gen, evicted).phase[t].Sending?;
    case Send(t) => assert DoSend(s, t).phase[t].Done?;
    case Receive(t) => assert DoReceive(s, t).phase[t].Done?;
  }

  /** Every unfinished task can move, or waits for a leader that can. */
  lemma NoLostWakeup(run: seq<State>, steps: seq<Step>, i: nat, t: Task) returns (step: Step)
    requires IsRun(run, steps) && i < |run| && t in run[i].phase && !run[i].phase[t].Done?
    ensures Enabled(run[i], step) && !step.Disturb? && !step.Start?
    ensures step.task == t ||
            (run[i].phase[t].Waiting? && InCharge(run[i], step.task, run[i].phase[t].flight))
  {
    RunOk(run, steps, i);
    var s := run[i];
    assert TaskOk(s, t, s.phase[t]);
    if s.phase[t].Waiting? && t !in s.mail {
      var f := s.phase[t].flight;
      assert Led(s, f, s.leader[f]);
      step := NextStep(s, s.leader[f]);
    } else {
      step := NextStep(s, t);
    }
  }

  lemma NextStep(s: State, t: Task) returns (step: Step)
    requires t in s.phase && !s.phase[t].Done? && (s.phase[t].Waiting? ==> t in s.mail)
    ensures Enabled(s, step) && !step.Disturb? && !step.Start? && step.task == t
  {
    match s.phase[t]
    case Missed(_) => step := Join(t);
    case Waiting(_, _) => step := Receive(t);
    case Leading(_, _) => step := EndFetch(t, FetchFailed);
    case Publishing(_, _, _) => step := Store(t, 0, 0, 0, {});
    case Sending(_, _) => step := Send(t);
  }

  // ----- The gap between removal and insertion ------------------------------------------------------

  /**
   * Coalescing has a gap: after a flight is taken from the table and before its answer is in the
   * cache, a task that missed earlier leads a second flight for the same key.
   */
  lemma SecondFetchBeforeStore(key: Key, o: Outcome) returns (run: seq<State>, steps: seq<Step>)
    ensures IsRun(run, steps) && |run| == 6
    ensures run[5].phase == map[0 := Publishing(key, Some(0), o), 1 := Leading(key, 1)]
  {
    var s2 := TwoMisses(key);
    var s0, s1 := Initial(map[]), Apply(Initial(map[]), Start(0, key, 0));
    var s3 := Lead(s2, 0);
    assert s3 == Apply(s2, Join(0));
    assert s3.phase == map[0 := Leading(key, 0), 1 := Missed(key)] && s3.flights == map[key := 0] && s3.next == 1;
    var s4 := Apply(s3, EndFetch(0, o));
    assert s4.phase == map[0 := Publishing(key, Some(0), o), 1 := Missed(key)] && s4.flights == map[] && s4.next == 1;
    steps := [Start(0, key, 0), Start(1, key, 0), Join(0), EndFetch(0, o), Join(1)];
    run := [s0, s1, s2, s3, s4, Apply(s4, Join(1))];
  }

  /** Two tasks look up a key that is not stored. */
  lemma TwoMisses(key: Key) returns (s2: State)
    ensures var s0 := Initial(map[]);
            var s1 := Apply(s0, Start(0, key, 0));
            && Enabled(s0, Start(0, key, 0)) && Enabled(s1, Start(1, key, 0)) && s2 == Apply(s1, Start(1, key, 0))
            && s2 == s0.(phase := map[0 := Missed(key), 1 := Missed(key)])
  {
    var s0 := Initial(map[]);
    var s1 := Apply(s0, Start(0, key, 0));
    assert s1 == s0.(phase := map[0 := Missed(key)]);
    s2 := Apply(s1, Start(1, key, 0));
    assert s2.phase == map[0 := Missed(key), 1 := Missed(key)];
  }
}

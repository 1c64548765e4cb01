/**
 * The bounded executor: admission with per-peer quotas, round-robin dispatch to bounded
 * queues, and one worker thread per queue.
 *
 * Submitters and workers interleave at their shared accesses, so the executor is a state
 * machine with one step for each atomic counter update, each visit to the locked peer
 * table, each `try_send` and each `recv`.
 */
module Executor {
  import opened Bytes

  type Peer = nat
  type Worker = nat
  type JobId = nat

  // ----- The peer table -------------------------------------------------------------------

  type PeerCounts = map<Peer, nat>

  function CountOf(peers: PeerCounts, p: Peer): nat { if p in peers then peers[p] else 0 }

  /** `reserve_peer`: the entry is created before the quota is looked at. */
  function Reserve(peers: PeerCounts, p: Peer, limit: nat): (PeerCounts, bool) {
    if CountOf(peers, p) >= limit then (peers[p := CountOf(peers, p)], false)
    else (peers[p := CountOf(peers, p) + 1], true)
  }

  /** `release_peer`: a saturating decrement that drops the entry at zero. */
  function Release(peers: PeerCounts, p: Peer): PeerCounts {
    if p !in peers then peers
    else if peers[p] <= 1 then peers - {p}
    else peers[p := peers[p] - 1]
  }

  /** The locked map of in-flight counts. */
  class PeerTable {
    var counts: PeerCounts
    const limit: nat

    constructor (limit: nat)
      ensures counts == map[] && this.limit == limit
    {
      counts := map[];
      this.limit := limit;
    }

    method ReservePeer(p: Peer) returns (ok: bool)
      modifies this`counts
      ensures (counts, ok) == Reserve(old(counts), p, limit)
    {
      if p !in counts { counts := counts[p := 0]; }
      assert counts == counts[p := CountOf(old(counts), p)];
      if counts[p] >= limit { return false; }
      counts := counts[p := counts[p] + 1];
      assert counts == old(counts)[p := CountOf(old(counts), p) + 1];
      return true;
    }

    method ReleasePeer(p: Peer)
      modifies this`counts
      ensures counts == Release(old(counts), p)
    {
      if p in counts {
        counts := counts[p := if counts[p] == 0 then 0 else counts[p] - 1];
        if counts[p] == 0 { counts := counts - {p}; }
      }
    }
  }

  // ----- State ------------------------------------------------------------------------------

  /** How far `try_submit` has come with a job. */
  datatype Submission =
    | Reserved
    | Counted
    | Trying(start: nat, offset: nat)
    | Sent
    | Admitted
    | Failed
    | Discounted
    | Unreserved
    | RejectedFull
    | Refused
    | RejectedPeer

  /** Where the job is on the worker side. */
  datatype Work =
    | Nowhere
    | Queued(worker: Worker)
    | Running(worker: Worker)
    | Ran(worker: Worker)
    | Released(worker: Worker)
    | Uncounted(worker: Worker)
    | Completed

  datatype Job = Job(peer: Peer, sub: Submission, work: Work)

  datatype Config = Config(workers: nat, depth: nat, limit: nat)

  datatype State = State(
    jobs: map<JobId, Job>,
    peers: PeerCounts,
    queues: seq<seq<JobId>>,
    busy: map<Worker, JobId>,
    roundRobin: nat,
    active: int,
    admitted: nat,
    completed: nat,
    rejectedFull: nat,
    rejectedPeer: nat)

  function Idle(n: nat): seq<seq<JobId>> { if n == 0 then [] else Idle(n - 1) + [[]] }

  function Initial(c: Config): State {
    State(map[], map[], Idle(c.workers), map[], 0, 0, 0, 0, 0, 0)
  }

  datatype Step =
    | Submit(job: JobId, peer: Peer)
    | CountUp(job: JobId)
    | Pick(job: JobId)
    | Probe(job: JobId)
    | Admit(job: JobId)
    | Discount(job: JobId)
    | Unreserve(job: JobId)
    | CountFull(job: JobId)
    | CountPeer(job: JobId)
    | Receive(worker: Worker)
    | Finish(worker: Worker)
    | WorkerRelease(worker: Worker)
    | WorkerDiscount(worker: Worker)
    | Complete(worker: Worker)

  predicate ByWorker(step: Step) {
    step.Receive? || step.Finish? || step.WorkerRelease? || step.WorkerDiscount? || step.Complete?
  }

  predicate SubmitterReady(job: Job, step: Step) {
    match step
    case CountUp(_) => job.sub == Reserved
    case Pick(_) => job.sub == Counted
    case Probe(_) => job.sub.Trying?
    case Admit(_) => job.sub == Sent
    case Discount(_) => job.sub == Failed
    case Unreserve(_) => job.sub == Discounted
    case CountFull(_) => job.sub == Unreserved
    case CountPeer(_) => job.sub == Refused
    case _ => false
  }

  predicate WorkerReady(job: Job, step: Step) {
    match step
    case Finish(w) => job.work == Running(w)
    case WorkerRelease(w) => job.work == Ran(w)
    case WorkerDiscount(w) => job.work == Released(w)
    case Complete(w) => job.work == Uncounted(w)
    case _ => false
  }

  predicate Enabled(s: State, step: Step) {
    if step.Submit? then step.job !in s.jobs
    else if step.Receive? then step.worker < |s.queues| && step.worker !in s.busy && s.queues[step.worker] != []
    else if ByWorker(step) then
      step.worker in s.busy && s.busy[step.worker] in s.jobs && WorkerReady(s.jobs[s.busy[step.worker]], step)
    else step.job in s.jobs && SubmitterReady(s.jobs[step.job], step)
  }

  /** The job a step works on. */
  function Subject(s: State, step: Step): JobId
    requires Enabled(s, step)
  {
    if step.Receive? then s.queues[step.worker][0]
    else if ByWorker(step) then s.busy[step.worker]
    else step.job
  }

  /** The queue a submitter tries next. */
  function Target(s: State, sub: Submission): nat
    requires sub.Trying? && s.queues != []
  {
    (sub.start + sub.offset) % |s.queues|
  }

  predicate Fits(c: Config, s: State, sub: Submission)
    requires sub.Trying? && s.queues != []
  {
    |s.queues[Target(s, sub)]| < c.depth
  }

  /** The job after the step. */
  function Moved(c: Config, s: State, step: Step, job: Job): Job {
    match step
    case Submit(_, p) => Job(p, if Reserve(s.peers, p, c.limit).1 then Reserved else Refused, Nowhere)
    case CountUp(_) => job.(sub := Counted)
    case Pick(_) =>
      job.(sub := if s.queues == [] then Failed else Trying(s.roundRobin % |s.queues|, 0))
    case Probe(_) =>
      if !job.sub.Trying? || s.queues == [] then job
      else if Fits(c, s, job.sub) then job.(sub := Sent, work := Queued(Target(s, job.sub)))
      else if job.sub.offset + 1 < |s.queues| then job.(sub := Trying(job.sub.start, job.sub.offset + 1))
      else job.(sub := Failed)
    case Admit(_) => job.(sub := Admitted)
    case Discount(_) => job.(sub := Discounted)
    case Unreserve(_) => job.(sub := Unreserved)
    case CountFull(_) => job.(sub := RejectedFull)
    case CountPeer(_) => job.(sub := RejectedPeer)
    case Receive(w) => job.(work := Running(w))
    case Finish(w) => job.(work := Ran(w))
    case WorkerRelease(w) => job.(work := Released(w))
    case WorkerDiscount(w) => job.(work := Uncounted(w))
    case Complete(_) => job.(work := Completed)
  }

  function PeersAfter(c: Config, s: State, step: Step, job: Job): PeerCounts {
    match step
    case Submit(_, p) => Reserve(s.peers, p, c.limit).0
    case Unreserve(_) => Release(s.peers, job.peer)
    case WorkerRelease(_) => Release(s.peers, job.peer)
    case _ => s.peers
  }

  function QueuesAfter(c: Config, s: State, step: Step, job: Job): seq<seq<JobId>>
    requires Enabled(s, step)
  {
    if step.Receive? then s.queues[step.worker := s.queues[step.worker][1..]]
    else if step.Probe? && job.sub.Trying? && s.queues != [] && Fits(c, s, job.sub) then
      s.queues[Target(s, job.sub) := s.queues[Target(s, job.sub)] + [step.job]]
    else s.queues
  }

  function BusyAfter(s: State, step: Step): map<Worker, JobId>
    requires Enabled(s, step)
  {
    if step.Receive? then s.busy[step.worker := s.queues[step.worker][0]]
    else if step.Complete? then s.busy - {step.worker}
    else s.busy
  }

  function ActiveDelta(step: Step): int {
    match step
    case CountUp(_) => 1
    case Discount(_) => -1
    case WorkerDiscount(_) => -1
    case _ => 0
  }

  /** The job a step works on as it was before; a submission brings a moved one. */
  function Before(s: State, step: Step): Job
    requires Enabled(s, step)
  {
    if Subject(s, step) in s.jobs then s.jobs[Subject(s, step)] else Job(0, Refused, Nowhere)
  }

  function Apply(c: Config, s: State, step: Step): State
    requires Enabled(s, step)
  {
    var job := Before(s, step);
    State(
      s.jobs[Subject(s, step) := Moved(c, s, step, job)],
      PeersAfter(c, s, step, job),
      QueuesAfter(c, s, step, job),
      BusyAfter(s, step),
      if step.Pick? && s.queues != [] then (s.roundRobin + 1) % 0x1_0000_0000_0000_0000 else s.roundRobin,
      s.active + ActiveDelta(step),
      if step.Admit? then s.admitted + 1 else s.admitted,
      if step.Complete? then s.completed + 1 else s.completed,
      if step.CountFull? then s.rejectedFull + 1 else s.rejectedFull,
      if step.CountPeer? then s.rejectedPeer + 1 else s.rejectedPeer)
  }

  // ----- Counting jobs -----------------------------------------------------------------------

  datatype Kind =
    | IsCounted
    | IsHolding(peer: Peer)
    | IsAdmitted
    | IsSent
    | IsQueued
    | AtWorker
    | IsCompleted
    | IsRejectedFull
    | IsRejectedPeer

  /** Between the quota and its release. */
  predicate Holding(job: Job) {
    match job.sub
    case Sent => !job.work.Released? && !job.work.Uncounted? && !job.work.Completed?
    case Admitted => !job.work.Released? && !job.work.Uncounted? && !job.work.Completed?
    case Unreserved => false
    case RejectedFull => false
    case Refused => false
    case RejectedPeer => false
    case _ => true
  }

  /** Between the two updates of the `active` gauge. */
  predicate CountedActive(job: Job) {
    match job.sub
    case Sent => !job.work.Uncounted? && !job.work.Completed?
    case Admitted => !job.work.Uncounted? && !job.work.Completed?
    case Counted => true
    case Trying(_, _) => true
    case Failed => true
    case _ => false
  }

  predicate Is(kind: Kind, job: Job) {
    match kind
    case IsCounted => CountedActive(job)
    case IsHolding(p) => job.peer == p && Holding(job)
    case IsAdmitted => job.sub == Admitted
    case IsSent => job.sub == Sent
    case IsQueued => job.work.Queued?
    case AtWorker => job.work.Running? || job.work.Ran? || job.work.Released? || job.work.Uncounted?
    case IsCompleted => job.work == Completed
    case IsRejectedFull => job.sub == RejectedFull
    case IsRejectedPeer => job.sub == RejectedPeer
  }

  function Where(jobs: map<JobId, Job>, kind: Kind): set<JobId> {
    set j | j in jobs && Is(kind, jobs[j])
  }

  function One(b: bool): int { if b then 1 else 0 }

  lemma SizeUpdate(before: set<JobId>, after: set<JobId>, j: JobId)
    requires before - {j} == after - {j}
    ensures |after| == |before| + One(j in after) - One(j in before)
  {
    if j in before { assert before == (before - {j}) + {j}; }
    if j in after { assert after == (after - {j}) + {j}; }
  }

  lemma WhereUpdate(jobs: map<JobId, Job>, j: JobId, x: Job, kind: Kind)
    ensures |Where(jobs[j := x], kind)| ==
            |Where(jobs, kind)| + One(Is(kind, x)) - One(j in jobs && Is(kind, jobs[j]))
  {
    SizeUpdate(Where(jobs, kind), Where(jobs[j := x], kind), j);
  }

  // ----- The invariant -------------------------------------------------------------------------

  /** Submission and work agree: a job is on the worker side exactly when it was sent. */
  predicate JobOk(n: nat, job: Job) {
    && (job.work == Nowhere <==> job.sub != Sent && job.sub != Admitted)
    && (job.sub.Trying? ==> job.sub.start < n && job.sub.offset < n)
  }

  function Total(queues: seq<seq<JobId>>, n: nat): nat
    requires n <= |queues|
  {
    if n == 0 then 0 else Total(queues, n - 1) + |queues[n - 1]|
  }

  predicate CountersOk(s: State) {
    && s.active == |Where(s.jobs, IsCounted)|
    && s.admitted == |Where(s.jobs, IsAdmitted)|
    && s.completed == |Where(s.jobs, IsCompleted)|
    && s.rejectedFull == |Where(s.jobs, IsRejectedFull)|
    && s.rejectedPeer == |Where(s.jobs, IsRejectedPeer)|
  }

  predicate PlacesOk(s: State) {
    Total(s.queues, |s.queues|) == |Where(s.jobs, IsQueued)| && |s.busy| == |Where(s.jobs, AtWorker)|
  }

  ghost predicate PeersOk(c: Config, s: State) {
    && (forall p: Peer :: CountOf(s.peers, p) == |Where(s.jobs, IsHolding(p))|)
    && (forall p | p in s.peers :: s.peers[p] <= c.limit && (s.peers[p] == 0 ==> c.limit == 0))
  }

  predicate JobsOk(s: State) { forall j | j in s.jobs :: JobOk(|s.queues|, s.jobs[j]) }

  predicate QueueOk(jobs: map<JobId, Job>, q: seq<JobId>, w: Worker) {
    && (forall i | 0 <= i < |q| :: q[i] in jobs && jobs[q[i]].work == Queued(w))
    && (forall i, k | 0 <= i < k < |q| :: q[i] != q[k])
  }

  predicate QueuesOk(c: Config, s: State) {
    && |s.queues| == c.workers
    && forall w | 0 <= w < |s.queues| :: |s.queues[w]| <= c.depth && QueueOk(s.jobs, s.queues[w], w)
  }

  predicate BusyOk(s: State) {
    forall w | w in s.busy ::
      s.busy[w] in s.jobs && Is(AtWorker, s.jobs[s.busy[w]]) && s.jobs[s.busy[w]].work.worker == w
  }

  ghost predicate Inv(c: Config, s: State) {
    JobsOk(s) && QueuesOk(c, s) && BusyOk(s) && CountersOk(s) && PlacesOk(s) && PeersOk(c, s)
  }

  lemma {:induction false} IdleIsEmpty(n: nat)
    ensures |Idle(n)| == n && (forall w | 0 <= w < n :: Idle(n)[w] == [])
  {
    if n > 0 { IdleIsEmpty(n - 1); }
  }

  lemma {:induction false} TotalOfEmpty(queues: seq<seq<JobId>>, n: nat)
    requires n <= |queues| && forall w | 0 <= w < n :: queues[w] == []
    ensures Total(queues, n) == 0
  {
    if n > 0 { TotalOfEmpty(queues, n - 1); }
  }

  lemma InitialOk(c: Config)
    ensures Inv(c, Initial(c))
  {
    IdleIsEmpty(c.workers);
    TotalOfEmpty(Idle(c.workers), c.workers);
    var none: map<JobId, Job> := map[];
    forall kind: Kind ensures Where(none, kind) == {} {}
  }

  /** What is known of the job a step works on. */
  predicate Ready(s: State, step: Step, job: Job) {
    if step.Submit? then true
    else if step.Receive? then job.work == Queued(step.worker)
    else if ByWorker(step) then WorkerReady(job, step)
    else SubmitterReady(job, step)
  }

  lemma SubjectReady(c: Config, s: State, step: Step)
    requires JobsOk(s) && QueuesOk(c, s) && BusyOk(s) && Enabled(s, step)
    ensures !step.Submit? ==> Subject(s, step) in s.jobs
    ensures Ready(s, step, Before(s, step))
    ensures !step.Submit? ==> JobOk(|s.queues|, Before(s, step))
  {
  }

  lemma MovedOk(c: Config, s: State, step: Step, job: Job)
    requires Ready(s, step, job) && (step.Submit? || JobOk(|s.queues|, job))
    ensures JobOk(|s.queues|, Moved(c, s, step, job))
  {
  }

  /** The counters of `Apply` move exactly as the job's kinds do. */
  lemma MovedCounters(c: Config, s: State, step: Step, job: Job)
    requires !step.Submit? && Ready(s, step, job) && JobOk(|s.queues|, job)
    ensures var moved := Moved(c, s, step, job);
            && One(Is(IsCounted, moved)) - One(Is(IsCounted, job)) == ActiveDelta(step)
            && One(Is(IsAdmitted, moved)) - One(Is(IsAdmitted, job)) == One(step.Admit?)
            && One(Is(IsCompleted, moved)) - One(Is(IsCompleted, job)) == One(step.Complete?)
            && One(Is(IsRejectedFull, moved)) - One(Is(IsRejectedFull, job)) == One(step.CountFull?)
            && One(Is(IsRejectedPeer, moved)) - One(Is(IsRejectedPeer, job)) == One(step.CountPeer?)
  {
  }

  lemma CountersStep(c: Config, s: State, step: Step)
    requires JobsOk(s) && QueuesOk(c, s) && BusyOk(s) && CountersOk(s) && Enabled(s, step)
    ensures CountersOk(Apply(c, s, step))
  {
    SubjectReady(c, s, step);
    var j, job := Subject(s, step), Before(s, step);
    var moved := Moved(c, s, step, job);
    WhereUpdate(s.jobs, j, moved, IsCounted);
    WhereUpdate(s.jobs, j, moved, IsAdmitted);
    WhereUpdate(s.jobs, j, moved, IsCompleted);
    WhereUpdate(s.jobs, j, moved, IsRejectedFull);
    WhereUpdate(s.jobs, j, moved, IsRejectedPeer);
    if !step.Submit? { MovedCounters(c, s, step, job); }
  }

  lemma JobsStep(c: Config, s: State, step: Step)
    requires JobsOk(s) && QueuesOk(c, s) && BusyOk(s) && Enabled(s, step)
    ensures JobsOk(Apply(c, s, step))
  {
    SubjectReady(c, s, step);
    MovedOk(c, s, step, Before(s, step));
  }

  // ----- Queues and workers ------------------------------------------------------------------------

  /** Whether the step puts its job into a queue. */
  predicate Pushes(c: Config, s: State, step: Step, job: Job) {
    step.Probe? && job.sub.Trying? && s.queues != [] && Fits(c, s, job.sub)
  }

  lemma MovedWork(c: Config, s: State, step: Step, job: Job)
    requires Ready(s, step, job)
    ensures !ByWorker(step) && !step.Submit? && !Pushes(c, s, step, job) ==> Moved(c, s, step, job).work == job.work
    ensures ByWorker(step) && !step.Receive? ==> Is(AtWorker, job) && job.work.worker == step.worker
    ensures ByWorker(step) && !step.Complete? ==>
              Is(AtWorker, Moved(c, s, step, job)) && Moved(c, s, step, job).work.worker == step.worker
  {
  }

  lemma QueueStep(c: Config, s: State, step: Step, w: Worker)
    requires JobsOk(s) && QueuesOk(c, s) && BusyOk(s) && Enabled(s, step) && w < |s.queues|
    ensures var n := Apply(c, s, step);
            |n.queues| == |s.queues| && |n.queues[w]| <= c.depth && QueueOk(n.jobs, n.queues[w], w)
  {
    SubjectReady(c, s, step);
    var j, job := Subject(s, step), Before(s, step);
    MovedWork(c, s, step, job);
    var q := s.queues[w];
    assert QueueOk(s.jobs, q, w);
  }

  lemma BusyStep(c: Config, s: State, step: Step)
    requires JobsOk(s) && QueuesOk(c, s) && BusyOk(s) && Enabled(s, step)
    ensures BusyOk(Apply(c, s, step))
  {
    SubjectReady(c, s, step);
    MovedWork(c, s, step, Before(s, step));
  }

  lemma {:induction false} TotalUpdate(queues: seq<seq<JobId>>, w: Worker, q: seq<JobId>, n: nat)
    requires w < |queues| && n <= |queues|
    ensures Total(queues[w := q], n) == Total(queues, n) + if w < n then |q| - |queues[w]| else 0
  {
    if n > 0 { TotalUpdate(queues, w, q, n - 1); }
  }

  lemma MovedPlaces(c: Config, s: State, step: Step, job: Job)
    requires !step.Submit? && Ready(s, step, job) && JobOk(|s.queues|, job)
    ensures var moved := Moved(c, s, step, job);
            && One(Is(IsQueued, moved)) - One(Is(IsQueued, job)) == One(Pushes(c, s, step, job)) - One(step.Receive?)
            && One(Is(AtWorker, moved)) - One(Is(AtWorker, job)) == One(step.Receive?) - One(step.Complete?)
  {
  }

  lemma QueuedTotal(c: Config, s: State, step: Step)
    requires Enabled(s, step)
    ensures var n := Apply(c, s, step);
            |n.queues| == |s.queues| &&
            Total(n.queues, |n.queues|) ==
            Total(s.queues, |s.queues|) + One(Pushes(c, s, step, Before(s, step))) - One(step.Receive?)
  {
    var job := Before(s, step);
    if step.Receive? {
      TotalUpdate(s.queues, step.worker, s.queues[step.worker][1..], |s.queues|);
    } else if Pushes(c, s, step, job) {
      TotalUpdate(s.queues, Target(s, job.sub), s.queues[Target(s, job.sub)] + [step.job], |s.queues|);
    }
  }

  lemma PlacesStep(c: Config, s: State, step: Step)
    requires JobsOk(s) && QueuesOk(c, s) && BusyOk(s) && PlacesOk(s) && Enabled(s, step)
    ensures PlacesOk(Apply(c, s, step))
  {
    SubjectReady(c, s, step);
    var j, job := Subject(s, step), Before(s, step);
    var moved := Moved(c, s, step, job);
    WhereUpdate(s.jobs, j, moved, IsQueued);
    WhereUpdate(s.jobs, j, moved, AtWorker);
    QueuedTotal(c, s, step);
    if !step.Submit? { MovedPlaces(c, s, step, job); }
    BusySize(c, s, step);
  }

  lemma BusySize(c: Config, s: State, step: Step)
    requires Enabled(s, step)
    ensures |Apply(c, s, step).busy| == |s.busy| + One(step.Receive?) - One(step.Complete?)
  {
    if step.Receive? || step.Complete? { SizeUpdate(s.busy.Keys, BusyAfter(s, step).Keys, step.worker); }
  }

  // ----- The peer table ------------------------------------------------------------------------------

  /** The peer whose quota a step touches, and how. */
  function PeerDelta(c: Config, s: State, step: Step, job: Job, p: Peer): int {
    match step
    case Submit(_, peer) => One(p == peer && Reserve(s.peers, peer, c.limit).1)
    case Unreserve(_) => -One(p == job.peer)
    case WorkerRelease(_) => -One(p == job.peer)
    case _ => 0
  }

  lemma MovedHolding(c: Config, s: State, step: Step, job: Job, p: Peer)
    requires Ready(s, step, job) && (step.Submit? || JobOk(|s.queues|, job))
    ensures One(Is(IsHolding(p), Moved(c, s, step, job))) - One(!step.Submit? && Is(IsHolding(p), job)) ==
            PeerDelta(c, s, step, job, p)
  {
  }

  /** A release always finds a positive count, so it never saturates. */
  lemma ReleaseFindsCount(c: Config, s: State, step: Step)
    requires Inv(c, s) && Enabled(s, step) && (step.Unreserve? || step.WorkerRelease?)
    ensures var p := Before(s, step).peer; p in s.peers && s.peers[p] >= 1
  {
    SubjectReady(c, s, step);
    var p := Before(s, step).peer;
    assert CountOf(s.peers, p) == |Where(s.jobs, IsHolding(p))|;
    assert Subject(s, step) in Where(s.jobs, IsHolding(p));
  }

  lemma PeerCount(c: Config, s: State, step: Step, p: Peer)
    requires Inv(c, s) && Enabled(s, step)
    ensures var n := Apply(c, s, step); CountOf(n.peers, p) == |Where(n.jobs, IsHolding(p))|
  {
    SubjectReady(c, s, step);
    var j, job := Subject(s, step), Before(s, step);
    if step.Unreserve? || step.WorkerRelease? { ReleaseFindsCount(c, s, step); }
    assert CountOf(s.peers, p) == |Where(s.jobs, IsHolding(p))|;
    WhereUpdate(s.jobs, j, Moved(c, s, step, job), IsHolding(p));
    MovedHolding(c, s, step, job, p);
  }

  lemma PeersStep(c: Config, s: State, step: Step)
    requires Inv(c, s) && Enabled(s, step)
    ensures PeersOk(c, Apply(c, s, step))
  {
    var n := Apply(c, s, step);
    forall p: Peer ensures CountOf(n.peers, p) == |Where(n.jobs, IsHolding(p))| { PeerCount(c, s, step, p); }
  }

  // ----- Runs --------------------------------------------------------------------------------------------

  lemma StepOk(c: Config, s: State, step: Step)
    requires Inv(c, s) && Enabled(s, step)
    ensures Inv(c, Apply(c, s, step))
  {
    JobsStep(c, s, step);
    forall w | 0 <= w < |s.queues|
      ensures var n := Apply(c, s, step);
              |n.queues| == |s.queues| && |n.queues[w]| <= c.depth && QueueOk(n.jobs, n.queues[w], w)
    {
      QueueStep(c, s, step, w);
    }
    QueuedTotal(c, s, step);
    BusyStep(c, s, step);
    CountersStep(c, s, step);
    PlacesStep(c, s, step);
    PeersStep(c, s, step);
  }

  /** A run: any interleaving of submitters and workers. */
  predicate IsRun(c: Config, run: seq<State>, steps: seq<Step>) {
    && |run| == |steps| + 1
    && run[0] == Initial(c)
    && forall i | 0 <= i < |steps| :: Enabled(run[i], steps[i]) && run[i + 1] == Apply(c, run[i], steps[i])
  }

  lemma {:induction false} RunOk(c: Config, run: seq<State>, steps: seq<Step>, i: nat)
    requires IsRun(c, run, steps) && i < |run|
    ensures Inv(c, run[i])
    decreases i
  {
    if i == 0 {
      InitialOk(c);
    } else {
      RunOk(c, run, steps, i - 1);
      StepOk(c, run[i - 1], steps[i - 1]);
    }
  }

  lemma RunShape(c: Config, run: seq<State>, steps: seq<Step>, i: nat)
    requires IsRun(c, run, steps) && i < |run|
    ensures JobsOk(run[i]) && QueuesOk(c, run[i]) && BusyOk(run[i])
  {
    RunOk(c, run, steps, i);
  }

  /** The jobs of one peer that a worker is executing. */
  function RunningOf(jobs: map<JobId, Job>, p: Peer): set<JobId> {
    set j | j in jobs && jobs[j].peer == p && jobs[j].work.Running?
  }

  lemma SubsetSize(a: set<JobId>, b: set<JobId>)
    requires a <= b
    ensures |a| <= |b|
  {
    assert b == a + (b - a);
  }

  /** In every interleaving a peer holds at most `limit` jobs, waiting or running, and the table says how many. */
  lemma PeerQuota(c: Config, run: seq<State>, steps: seq<Step>, i: nat, p: Peer)
    requires IsRun(c, run, steps) && i < |run|
    ensures CountOf(run[i].peers, p) == |Where(run[i].jobs, IsHolding(p))| <= c.limit
    ensures |RunningOf(run[i].jobs, p)| <= c.limit
  {
    RunOk(c, run, steps, i);
    var s := run[i];
    assert CountOf(s.peers, p) == |Where(s.jobs, IsHolding(p))|;
    forall j | j in RunningOf(s.jobs, p) ensures j in Where(s.jobs, IsHolding(p)) {
      assert JobOk(|s.queues|, s.jobs[j]);
    }
    SubsetSize(RunningOf(s.jobs, p), Where(s.jobs, IsHolding(p)));
  }

  /** A submission is refused for quota exactly when its peer holds `limit` jobs at that moment. */
  lemma RefusedIffAtLimit(c: Config, run: seq<State>, steps: seq<Step>, i: nat)
    requires IsRun(c, run, steps) && i < |steps| && steps[i].Submit?
    ensures run[i + 1].jobs[steps[i].job].sub == Refused <==>
            |Where(run[i].jobs, IsHolding(steps[i].peer))| == c.limit
  {
    PeerQuota(c, run, steps, i, steps[i].peer);
  }

  /** The gauge is never decremented from zero, and is never negative. */
  lemma GaugeNeverUnderflows(c: Config, run: seq<State>, steps: seq<Step>, i: nat)
    requires IsRun(c, run, steps) && i < |run|
    ensures run[i].active >= 0
    ensures i < |steps| && ActiveDelta(steps[i]) < 0 ==> run[i].active >= 1
  {
    RunOk(c, run, steps, i);
    if i < |steps| && ActiveDelta(steps[i]) < 0 {
      SubjectReady(c, run[i], steps[i]);
      assert Subject(run[i], steps[i]) in Where(run[i].jobs, IsCounted);
    }
  }

  lemma SameSize(a: set<JobId>, b: set<JobId>, x: set<JobId>, y: set<JobId>, z: set<JobId>)
    requires a !! b && x !! y !! z && a + b == x + y + z
    ensures |a| + |b| == |x| + |y| + |z|
  {
    assert |a + b| == |x + y + z|;
  }

  lemma Exclusive(jobs: map<JobId, Job>)
    ensures Where(jobs, IsAdmitted) !! Where(jobs, IsSent)
    ensures Where(jobs, IsQueued) !! Where(jobs, AtWorker) !! Where(jobs, IsCompleted)
  {
  }

  lemma SentSomewhere(jobs: map<JobId, Job>, n: nat)
    requires forall j | j in jobs :: JobOk(n, jobs[j])
    ensures Where(jobs, IsAdmitted) + Where(jobs, IsSent) ==
            Where(jobs, IsQueued) + Where(jobs, AtWorker) + Where(jobs, IsCompleted)
  {
  }

  lemma HandedOver(jobs: map<JobId, Job>, n: nat)
    requires forall j | j in jobs :: JobOk(n, jobs[j])
    ensures |Where(jobs, IsAdmitted)| + |Where(jobs, IsSent)| ==
            |Where(jobs, IsQueued)| + |Where(jobs, AtWorker)| + |Where(jobs, IsCompleted)|
  {
    Exclusive(jobs);
    SentSomewhere(jobs, n);
    SameSize(Where(jobs, IsAdmitted), Where(jobs, IsSent),
             Where(jobs, IsQueued), Where(jobs, AtWorker), Where(jobs, IsCompleted));
  }

  /** Jobs handed over are counted, or being counted, and are queued, on a worker, or completed. */
  lemma Conservation(c: Config, run: seq<State>, steps: seq<Step>, i: nat)
    requires IsRun(c, run, steps) && i < |run|
    ensures var s := run[i];
            s.admitted + |Where(s.jobs, IsSent)| == Total(s.queues, |s.queues|) + |s.busy| + s.completed
  {
    RunOk(c, run, steps, i);
    HandedOver(run[i].jobs, |run[i].queues|);
  }

  /** Nothing is under way for the job any more. */
  predicate Settled(job: Job) {
    job.sub == RejectedFull || job.sub == RejectedPeer || (job.sub == Admitted && job.work == Completed)
  }

  /** When every submission is settled nothing is left over, and every submission is accounted for once. */
  lemma Quiescence(c: Config, run: seq<State>, steps: seq<Step>, i: nat)
    requires IsRun(c, run, steps) && i < |run| && forall j | j in run[i].jobs :: Settled(run[i].jobs[j])
    ensures var s := run[i];
            && s.active == 0 && s.busy == map[] && s.admitted == s.completed
            && (forall w | 0 <= w < |s.queues| :: s.queues[w] == [])
            && (forall p | p in s.peers :: s.peers[p] == 0) && (c.limit > 0 ==> s.peers == map[])
            && |s.jobs| == s.admitted + s.rejectedFull + s.rejectedPeer
  {
    RunOk(c, run, steps, i);
    Conservation(c, run, steps, i);
    NothingLeft(c, run[i]);
    SettledCount(run[i].jobs);
  }

  lemma {:induction false} EmptyOfTotal(queues: seq<seq<JobId>>, n: nat)
    requires n <= |queues| && Total(queues, n) == 0
    ensures forall w | 0 <= w < n :: queues[w] == []
  {
    if n > 0 { EmptyOfTotal(queues, n - 1); }
  }

  lemma NothingLeft(c: Config, s: State)
    requires Inv(c, s) && forall j | j in s.jobs :: Settled(s.jobs[j])
    ensures s.active == 0 && s.busy == map[] && |Where(s.jobs, IsSent)| == 0
    ensures Total(s.queues, |s.queues|) == 0 && (forall w | 0 <= w < |s.queues| :: s.queues[w] == [])
    ensures (forall p | p in s.peers :: s.peers[p] == 0) && (c.limit > 0 ==> s.peers == map[])
  {
    assert Where(s.jobs, IsCounted) == {} && Where(s.jobs, IsSent) == {};
    assert Where(s.jobs, IsQueued) == {} && Where(s.jobs, AtWorker) == {};
    forall p | p in s.peers ensures s.peers[p] == 0 {
      assert CountOf(s.peers, p) == |Where(s.jobs, IsHolding(p))|;
      assert Where(s.jobs, IsHolding(p)) == {};
    }
    EmptyOfTotal(s.queues, |s.queues|);
  }

  lemma SettledCount(jobs: map<JobId, Job>)
    requires forall j | j in jobs :: Settled(jobs[j])
    ensures |jobs| == |Where(jobs, IsAdmitted)| + |Where(jobs, IsRejectedFull)| + |Where(jobs, IsRejectedPeer)|
  {
    assert Where(jobs, IsAdmitted) !! Where(jobs, IsRejectedFull) !! Where(jobs, IsRejectedPeer);
    assert jobs.Keys == Where(jobs, IsAdmitted) + Where(jobs, IsRejectedFull) + Where(jobs, IsRejectedPeer);
  }

  // ----- Each accepted job runs once ------------------------------------------------------------------------

  predicate Taken(s: State, j: JobId) {
    j in s.jobs && s.jobs[j].work != Nowhere && !s.jobs[j].work.Queued?
  }

  lemma TakenStep(c: Config, run: seq<State>, steps: seq<Step>, i: nat, j: JobId)
    requires IsRun(c, run, steps) && i < |steps| && Taken(run[i], j)
    ensures Taken(run[i + 1], j)
  {
    RunOk(c, run, steps, i);
    SubjectReady(c, run[i], steps[i]);
    MovedWork(c, run[i], steps[i], Before(run[i], steps[i]));
    assert JobOk(|run[i].queues|, run[i].jobs[j]);
  }

  lemma {:induction false} TakenStays(c: Config, run: seq<State>, steps: seq<Step>, i: nat, k: nat, j: JobId)
    requires IsRun(c, run, steps) && i <= k < |run| && Taken(run[i], j)
    ensures Taken(run[k], j)
    decreases k
  {
    if i < k {
      TakenStays(c, run, steps, i, k - 1, j);
      TakenStep(c, run, steps, k - 1, j);
    }
  }

  /** No job is taken from a queue twice. */
  lemma RunsOnce(c: Config, run: seq<State>, steps: seq<Step>, i: nat, k: nat)
    requires IsRun(c, run, steps) && i <= k < |steps| && steps[i].Receive? && steps[k].Receive?
    requires Subject(run[i], steps[i]) == Subject(run[k], steps[k])
    ensures i == k
  {
    RunOk(c, run, steps, k);
    SubjectReady(c, run[k], steps[k]);
    if i < k { TakenStays(c, run, steps, i + 1, k, Subject(run[i], steps[i])); }
  }

  /** `try_submit` returned false. */
  predicate Rejected(s: State, j: JobId) {
    j in s.jobs && (s.jobs[j].sub == RejectedFull || s.jobs[j].sub == RejectedPeer)
  }

  lemma RejectedStep(c: Config, run: seq<State>, steps: seq<Step>, i: nat, j: JobId)
    requires IsRun(c, run, steps) && i < |steps| && Rejected(run[i], j)
    ensures Rejected(run[i + 1], j)
    ensures steps[i].Receive? ==> Subject(run[i], steps[i]) != j
  {
    RunOk(c, run, steps, i);
    SubjectReady(c, run[i], steps[i]);
    assert JobOk(|run[i].queues|, run[i].jobs[j]);
  }

  lemma {:induction false} RejectedStays(c: Config, run: seq<State>, steps: seq<Step>, i: nat, k: nat, j: JobId)
    requires IsRun(c, run, steps) && i <= k < |run| && Rejected(run[i], j)
    ensures Rejected(run[k], j)
    decreases k
  {
    if i < k {
      RejectedStays(c, run, steps, i, k - 1, j);
      RejectedStep(c, run, steps, k - 1, j);
    }
  }

  lemma RejectedNotTaken(c: Config, run: seq<State>, steps: seq<Step>, k: nat, j: JobId)
    requires IsRun(c, run, steps) && k < |run| && Rejected(run[k], j)
    ensures !Taken(run[k], j)
  {
    RunOk(c, run, steps, k);
    assert JobOk(|run[k].queues|, run[k].jobs[j]);
  }

  /** A submission that returns false never ran and never will. */
  lemma RejectedNeverRuns(c: Config, run: seq<State>, steps: seq<Step>, i: nat, k: nat, j: JobId)
    requires IsRun(c, run, steps) && i < |steps| && k < |run| && Rejected(run[k], j) && steps[i].Receive?
    ensures Subject(run[i], steps[i]) != j
  {
    if k <= i {
      RejectedStays(c, run, steps, k, i, j);
      RejectedStep(c, run, steps, i, j);
    } else {
      RejectedNotTaken(c, run, steps, k, j);
      if Subject(run[i], steps[i]) == j { TakenStays(c, run, steps, i + 1, k, j); }
    }
  }

  // ----- Rejection means every queue was full -------------------------------------------------------------------

  /** Step `k` is the try of job `j` at queue `w`, which was full. */
  predicate FoundFull(c: Config, s: State, step: Step, j: JobId, w: Worker) {
    && step == Probe(j) && Enabled(s, step) && s.jobs[j].sub.Trying? && s.queues != []
    && Target(s, s.jobs[j].sub) == w && |s.queues[w]| >= c.depth
  }

  predicate IsTrying(s: State, j: JobId) { j in s.jobs && s.jobs[j].sub.Trying? && s.queues != [] }

  lemma TryingStep(c: Config, run: seq<State>, steps: seq<Step>, i: nat, j: JobId)
    requires IsRun(c, run, steps) && 0 < i < |run| && IsTrying(run[i], j) && run[i].jobs[j].sub.offset > 0
    ensures IsTrying(run[i - 1], j) && |run[i - 1].queues| == |run[i].queues|
    ensures var was, now := run[i - 1].jobs[j].sub, run[i].jobs[j].sub;
            was.start == now.start &&
            if steps[i - 1] == Probe(j) then
              was.offset + 1 == now.offset && FoundFull(c, run[i - 1], steps[i - 1], j, Target(run[i - 1], was))
            else was == now
  {
    RunOk(c, run, steps, i - 1);
    SubjectReady(c, run[i - 1], steps[i - 1]);
    QueuedTotal(c, run[i - 1], steps[i - 1]);
  }

  lemma {:induction false} ProbedBefore(c: Config, run: seq<State>, steps: seq<Step>, i: nat, j: JobId, o: nat)
    returns (k: nat)
    requires IsRun(c, run, steps) && i < |run| && IsTrying(run[i], j) && o < run[i].jobs[j].sub.offset
    ensures k < i && FoundFull(c, run[k], steps[k], j, (run[i].jobs[j].sub.start + o) % |run[i].queues|)
    decreases i
  {
    TryingStep(c, run, steps, i, j);
    if steps[i - 1] == Probe(j) && o == run[i - 1].jobs[j].sub.offset {
      k := i - 1;
    } else {
      k := ProbedBefore(c, run, steps, i - 1, j, o);
    }
  }

  /** Dispatch gave up on the job. */
  predicate GivenUp(sub: Submission) {
    sub == Failed || sub == Discounted || sub == Unreserved || sub == RejectedFull
  }

  predicate GaveUp(s: State, j: JobId) { j in s.jobs && GivenUp(s.jobs[j].sub) }

  lemma MovedGivesUp(c: Config, s: State, step: Step, job: Job)
    requires Ready(s, step, job) && (step.Submit? || (JobOk(|s.queues|, job) && !GivenUp(job.sub)))
    requires GivenUp(Moved(c, s, step, job).sub) && s.queues != []
    ensures step.Probe? && job.sub.Trying? && !Fits(c, s, job.sub)
    ensures job.sub.start < |s.queues| && job.sub.offset + 1 == |s.queues|
  {
  }

  lemma GaveUpStep(c: Config, run: seq<State>, steps: seq<Step>, i: nat, j: JobId)
    requires IsRun(c, run, steps) && 0 < i < |run| && GaveUp(run[i], j) && !GaveUp(run[i - 1], j) && c.workers > 0
    ensures IsTrying(run[i - 1], j) && |run[i - 1].queues| == c.workers
    ensures var was := run[i - 1].jobs[j].sub;
            && was.start < c.workers && was.offset + 1 == c.workers
            && FoundFull(c, run[i - 1], steps[i - 1], j, Target(run[i - 1], was))
  {
    RunShape(c, run, steps, i - 1);
    GaveUpHere(c, run[i - 1], steps[i - 1], j);
  }

  lemma GaveUpHere(c: Config, s: State, step: Step, j: JobId)
    requires JobsOk(s) && QueuesOk(c, s) && BusyOk(s) && Enabled(s, step) && s.queues != []
    requires GaveUp(Apply(c, s, step), j) && !GaveUp(s, j)
    ensures IsTrying(s, j) && s.jobs[j].sub.start < |s.queues| && s.jobs[j].sub.offset + 1 == |s.queues|
    ensures FoundFull(c, s, step, j, Target(s, s.jobs[j].sub))
  {
    SubjectReady(c, s, step);
    assert j == Subject(s, step);
    MovedGivesUp(c, s, step, Before(s, step));
  }

  lemma Offset(start: nat, w: nat, n: nat) returns (o: nat)
    requires start < n && w < n
    ensures o < n && (start + o) % n == w
  {
    if start <= w {
      o := w - start;
    } else {
      o := w + n - start;
      assert (w + n) % n == w;
    }
  }

  lemma LastProbe(c: Config, run: seq<State>, steps: seq<Step>, i: nat, j: JobId, w: Worker) returns (k: nat)
    requires IsRun(c, run, steps) && 0 < i < |run| && GaveUp(run[i], j) && !GaveUp(run[i - 1], j) && w < c.workers
    ensures k < i && FoundFull(c, run[k], steps[k], j, w)
  {
    GaveUpStep(c, run, steps, i, j);
    var was := run[i - 1].jobs[j].sub;
    var o := Offset(was.start, w, c.workers);
    if o == was.offset {
      k := i - 1;
    } else {
      k := ProbedBefore(c, run, steps, i - 1, j, o);
    }
  }

  lemma NotAtFirst(c: Config, run: seq<State>, steps: seq<Step>, i: nat, j: JobId)
    requires IsRun(c, run, steps) && i < |run| && GaveUp(run[i], j)
    ensures i > 0
  {
  }

  /** A job is turned away for lack of room only after it found each queue full. */
  lemma {:induction false} EveryQueueWasFull(c: Config, run: seq<State>, steps: seq<Step>, i: nat, j: JobId, w: Worker)
    returns (k: nat)
    requires IsRun(c, run, steps) && i < |run| && GaveUp(run[i], j) && w < c.workers
    ensures k < i && FoundFull(c, run[k], steps[k], j, w)
    decreases i
  {
    NotAtFirst(c, run, steps, i, j);
    if GaveUp(run[i - 1], j) {
      k := EveryQueueWasFull(c, run, steps, i - 1, j, w);
    } else {
      k := LastProbe(c, run, steps, i, j, w);
    }
  }

  // ----- Queues are served in order ----------------------------------------------------------------------

  /** The step sends its job to the queue of `w`: the probed one, and it has room. */
  predicate SendsTo(c: Config, s: State, step: Step, w: Worker) {
    && step.Probe? && step.job in s.jobs && s.jobs[step.job].sub.Trying? && w < |s.queues|
    && w == (s.jobs[step.job].sub.start + s.jobs[step.job].sub.offset) % |s.queues| && |s.queues[w]| < c.depth
  }

  /** The jobs sent to the queue of `w` by the first `k` steps. */
  function SentTo(c: Config, run: seq<State>, steps: seq<Step>, w: Worker, k: nat): seq<JobId>
    requires k <= |steps| && k <= |run|
  {
    if k == 0 then []
    else SentTo(c, run, steps, w, k - 1) + if SendsTo(c, run[k - 1], steps[k - 1], w) then [steps[k - 1].job] else []
  }

  /** The jobs that `w` has begun to work on in the first `k` steps. */
  function TakenBy(run: seq<State>, steps: seq<Step>, w: Worker, k: nat): seq<JobId>
    requires k <= |steps| && k < |run|
  {
    if k == 0 then []
    else TakenBy(run, steps, w, k - 1) + if steps[k - 1] == Receive(w) && w in run[k].busy then [run[k].busy[w]] else []
  }

  lemma QueueStepOrder(c: Config, s: State, step: Step, w: Worker)
    requires Enabled(s, step) && w < |s.queues| && |s.queues| == c.workers
    ensures var n := Apply(c, s, step);
            && |n.queues| == |s.queues|
            && (if step == Receive(w) && w in n.busy then [n.busy[w]] else []) + n.queues[w]
               == s.queues[w] + if SendsTo(c, s, step, w) then [step.job] else []
  {
    if step == Receive(w) { assert s.queues[w] == [s.queues[w][0]] + s.queues[w][1..]; }
  }

  lemma Regroup(a: seq<JobId>, t: seq<JobId>, q: seq<JobId>, x: seq<JobId>, y: seq<JobId>, q': seq<JobId>)
    requires a == t + q && y + q' == q + x
    ensures a + x == t + y + q'
  {
    assert a + x == t + (q + x);
    assert t + (y + q') == t + y + q';
  }

  /** Each worker takes the jobs sent to its queue in the order in which they were sent, and the rest wait there. */
  lemma {:induction false} QueuesAreFifo(c: Config, run: seq<State>, steps: seq<Step>, w: Worker, k: nat)
    requires IsRun(c, run, steps) && k < |run| && w < c.workers
    ensures |run[k].queues| == c.workers && SentTo(c, run, steps, w, k) == TakenBy(run, steps, w, k) + run[k].queues[w]
    decreases k
  {
    RunShape(c, run, steps, k);
    if k > 0 {
      QueuesAreFifo(c, run, steps, w, k - 1);
      FifoStep(c, run, steps, w, k - 1);
    } else {
      IdleIsEmpty(c.workers);
    }
  }

  lemma FifoStep(c: Config, run: seq<State>, steps: seq<Step>, w: Worker, k: nat)
    requires IsRun(c, run, steps) && k < |steps| && w < c.workers == |run[k].queues|
    requires SentTo(c, run, steps, w, k) == TakenBy(run, steps, w, k) + run[k].queues[w]
    ensures |run[k + 1].queues| == c.workers
    ensures SentTo(c, run, steps, w, k + 1) == TakenBy(run, steps, w, k + 1) + run[k + 1].queues[w]
  {
    QueueStepOrder(c, run[k], steps[k], w);
    Regroup(SentTo(c, run, steps, w, k), TakenBy(run, steps, w, k), run[k].queues[w],
            if SendsTo(c, run[k], steps[k], w) then [steps[k].job] else [],
            if steps[k] == Receive(w) && w in run[k + 1].busy then [run[k + 1].busy[w]] else [], run[k + 1].queues[w]);
  }

  // ----- Round robin ---------------------------------------------------------------------------------------

  /** How many jobs have been given a queue to start at in the first `k` steps. */
  function Picks(steps: seq<Step>, k: nat): nat
    requires k <= |steps|
  {
    if k == 0 then 0 else Picks(steps, k - 1) + if steps[k - 1].Pick? then 1 else 0
  }

  lemma RoundRobinStep(c: Config, s: State, step: Step)
    requires Enabled(s, step) && s.queues != []
    ensures Apply(c, s, step).roundRobin == if step.Pick? then (s.roundRobin + 1) % 0x1_0000_0000_0000_0000 else s.roundRobin
    ensures step.Pick? ==> step.job in Apply(c, s, step).jobs &&
                           Apply(c, s, step).jobs[step.job].sub == Trying(s.roundRobin % |s.queues|, 0)
  {
  }

  lemma {:induction false} RoundRobinCounts(c: Config, run: seq<State>, steps: seq<Step>, k: nat)
    requires IsRun(c, run, steps) && k < |run| && c.workers > 0
    ensures run[k].queues != [] && run[k].roundRobin == Picks(steps, k) % 0x1_0000_0000_0000_0000
    decreases k
  {
    RunShape(c, run, steps, k);
    if k > 0 {
      RoundRobinCounts(c, run, steps, k - 1);
      RoundRobinNext(c, run, steps, k - 1);
    }
  }

  lemma Wraps(n: nat)
    ensures (n % 0x1_0000_0000_0000_0000 + 1) % 0x1_0000_0000_0000_0000 == (n + 1) % 0x1_0000_0000_0000_0000
  {
  }

  lemma RoundRobinNext(c: Config, run: seq<State>, steps: seq<Step>, k: nat)
    requires IsRun(c, run, steps) && k < |steps| && run[k].queues != []
    requires run[k].roundRobin == Picks(steps, k) % 0x1_0000_0000_0000_0000
    ensures run[k + 1].roundRobin == Picks(steps, k + 1) % 0x1_0000_0000_0000_0000
  {
    RoundRobinStep(c, run[k], steps[k]);
    Wraps(Picks(steps, k));
  }

  /** The n-th job to be dispatched tries the queues from the n-th on, counted modulo 2^64 and then modulo the workers. */
  lemma DispatchIsRoundRobin(c: Config, run: seq<State>, steps: seq<Step>, k: nat)
    requires IsRun(c, run, steps) && k < |steps| && steps[k].Pick? && c.workers > 0
    ensures steps[k].job in run[k + 1].jobs
    ensures run[k + 1].jobs[steps[k].job].sub == Trying(Picks(steps, k) % 0x1_0000_0000_0000_0000 % c.workers, 0)
  {
    RoundRobinCounts(c, run, steps, k);
    RunShape(c, run, steps, k);
    RoundRobinStep(c, run[k], steps[k]);
  }

  // ----- Every submission comes to its end -------------------------------------------------------------

  function StepsAhead(n: nat, sub: Submission): nat {
    match sub
    case Reserved => n + 8
    case Counted => n + 7
    case Trying(_, offset) => 6 + if offset < n then n - offset else 0
    case Failed => 3
    case Discounted => 2
    case Unreserved => 1
    case Sent => 1
    case Refused => 1
    case _ => 0
  }

  function WorkAhead(work: Work): nat {
    match work
    case Queued(_) => 5
    case Running(_) => 4
    case Ran(_) => 3
    case Released(_) => 2
    case Uncounted(_) => 1
    case _ => 0
  }

  function Ahead(n: nat, job: Job): nat { StepsAhead(n, job.sub) + WorkAhead(job.work) }

  lemma MovedAdvances(c: Config, s: State, step: Step, job: Job)
    requires !step.Submit? && Ready(s, step, job) && JobOk(|s.queues|, job)
    ensures Ahead(|s.queues|, Moved(c, s, step, job)) < Ahead(|s.queues|, job)
  {
  }

  /** What is still to be done for a job, the submission included if it is yet to come. */
  function Todo(s: State, j: JobId, n: nat): nat { if j in s.jobs then Ahead(n, s.jobs[j]) else n + 9 }

  lemma TodoStep(c: Config, s: State, step: Step, j: JobId)
    requires Inv(c, s) && Enabled(s, step)
    ensures var before, after := Todo(s, j, c.workers), Todo(Apply(c, s, step), j, c.workers);
            if Subject(s, step) == j then after < before else after == before
  {
    SubjectReady(c, s, step);
    if !step.Submit? { MovedAdvances(c, s, step, Before(s, step)); }
  }

  /** How many of the first `k` steps work on a job. */
  function StepsOf(c: Config, run: seq<State>, steps: seq<Step>, k: nat, j: JobId): nat
    requires IsRun(c, run, steps) && k <= |steps|
  {
    if k == 0 then 0 else StepsOf(c, run, steps, k - 1, j) + if Subject(run[k - 1], steps[k - 1]) == j then 1 else 0
  }

  lemma TodoFalls(c: Config, run: seq<State>, steps: seq<Step>, k: nat, j: JobId)
    requires IsRun(c, run, steps) && k < |steps|
    ensures var before, after := Todo(run[k], j, c.workers), Todo(run[k + 1], j, c.workers);
            if Subject(run[k], steps[k]) == j then after < before else after == before
  {
    RunOk(c, run, steps, k);
    TodoStep(c, run[k], steps[k], j);
  }

  /** However the run goes, a submission is over within so many steps of its own: one for each queue, and nine. */
  lemma {:induction false} FewStepsPerJob(c: Config, run: seq<State>, steps: seq<Step>, k: nat, j: JobId)
    requires IsRun(c, run, steps) && k <= |steps|
    ensures StepsOf(c, run, steps, k, j) + Todo(run[k], j, c.workers) <= c.workers + 9
    decreases k
  {
    if k > 0 {
      FewStepsPerJob(c, run, steps, k - 1, j);
      TodoFalls(c, run, steps, k - 1, j);
    }
  }

  lemma SubmitterCanMove(s: State, j: JobId) returns (step: Step)
    requires j in s.jobs && s.jobs[j].sub !in {Admitted, RejectedFull, RejectedPeer}
    ensures !step.Submit? && Enabled(s, step)
  {
    match s.jobs[j].sub
    case Reserved => step := CountUp(j);
    case Counted => step := Pick(j);
    case Trying(_, _) => step := Probe(j);
    case Sent => step := Admit(j);
    case Failed => step := Discount(j);
    case Discounted => step := Unreserve(j);
    case Unreserved => step := CountFull(j);
    case Refused => step := CountPeer(j);
  }

  lemma WorkerCanMove(s: State, w: Worker) returns (step: Step)
    requires BusyOk(s) && w in s.busy
    ensures !step.Submit? && Enabled(s, step)
  {
    match s.jobs[s.busy[w]].work
    case Running(_) => step := Finish(w);
    case Ran(_) => step := WorkerRelease(w);
    case Released(_) => step := WorkerDiscount(w);
    case Uncounted(_) => step := Complete(w);
  }

  lemma QueueCanMove(c: Config, s: State, j: JobId) returns (step: Step)
    requires Inv(c, s) && j in s.jobs && s.jobs[j].work.Queued?
    ensures !step.Submit? && Enabled(s, step)
  {
    assert j in Where(s.jobs, IsQueued);
    if forall w | 0 <= w < |s.queues| :: s.queues[w] == [] { TotalOfEmpty(s.queues, |s.queues|); }
    var w :| 0 <= w < |s.queues| && s.queues[w] != [];
    if w in s.busy { step := WorkerCanMove(s, w); } else { step := Receive(w); }
  }

  /** While a submission is not settled, somebody can take a step: the pool never blocks. */
  lemma SomebodyCanMove(c: Config, run: seq<State>, steps: seq<Step>, i: nat, j: JobId) returns (step: Step)
    requires IsRun(c, run, steps) && i < |run| && j in run[i].jobs && !Settled(run[i].jobs[j])
    ensures !step.Submit? && Enabled(run[i], step)
  {
    var s := run[i];
    RunOk(c, run, steps, i);
    assert JobOk(|s.queues|, s.jobs[j]);
    if s.jobs[j].sub != Admitted {
      step := SubmitterCanMove(s, j);
    } else if s.jobs[j].work.Queued? {
      step := QueueCanMove(c, s, j);
    } else {
      assert j in Where(s.jobs, AtWorker);
      var w :| w in s.busy;
      step := WorkerCanMove(s, w);
    }
  }

  // ----- The stages of a job ------------------------------------------------------------------------------

  /** Step `k` brings the job to this place on the worker side. */
  predicate Brings(run: seq<State>, steps: seq<Step>, k: nat, j: JobId, work: Work)
    requires k < |steps| < |run| && Enabled(run[k], steps[k])
  {
    && Subject(run[k], steps[k]) == j && j in run[k].jobs && j in run[k + 1].jobs
    && run[k].jobs[j].work != work && run[k + 1].jobs[j].work == work
  }

  lemma PlaceStep(c: Config, s: State, step: Step, j: JobId)
    requires Inv(c, s) && Enabled(s, step) && j in Apply(c, s, step).jobs && Apply(c, s, step).jobs[j].work != Nowhere
    ensures j in s.jobs && (Subject(s, step) != j ==> s.jobs[j] == Apply(c, s, step).jobs[j])
  {
    SubjectReady(c, s, step);
  }

  lemma BroughtOrThere(c: Config, run: seq<State>, steps: seq<Step>, k: nat, j: JobId)
    requires IsRun(c, run, steps) && k < |steps| && j in run[k + 1].jobs && run[k + 1].jobs[j].work != Nowhere
    ensures Brings(run, steps, k, j, run[k + 1].jobs[j].work) || (j in run[k].jobs && run[k].jobs[j].work == run[k + 1].jobs[j].work)
  {
    RunOk(c, run, steps, k);
    PlaceStep(c, run[k], steps[k], j);
  }

  /** Some step brought the job to where it is. */
  lemma {:induction false} CameHere(c: Config, run: seq<State>, steps: seq<Step>, i: nat, j: JobId) returns (k: nat)
    requires IsRun(c, run, steps) && i < |run| && j in run[i].jobs && run[i].jobs[j].work != Nowhere
    ensures k < i && Brings(run, steps, k, j, run[i].jobs[j].work)
    decreases i
  {
    k := i - 1;
    BroughtOrThere(c, run, steps, k, j);
    if !Brings(run, steps, k, j, run[i].jobs[j].work) { k := CameHere(c, run, steps, i - 1, j); }
  }

  /** The step that brings a job to a place, and the place before. */
  lemma Stage(c: Config, run: seq<State>, steps: seq<Step>, k: nat, j: JobId, work: Work)
    requires IsRun(c, run, steps) && k < |steps| && Brings(run, steps, k, j, work) && work != Nowhere
    ensures match work
            case Queued(w) => steps[k] == Probe(j)
            case Running(w) => steps[k] == Receive(w) && run[k].jobs[j].work == Queued(w)
            case Ran(w) => steps[k] == Finish(w) && run[k].jobs[j].work == Running(w)
            case Released(w) => steps[k] == WorkerRelease(w) && run[k].jobs[j].work == Ran(w)
            case Uncounted(w) => steps[k] == WorkerDiscount(w) && run[k].jobs[j].work == Released(w)
            case Completed => exists w :: steps[k] == Complete(w) && run[k].jobs[j].work == Uncounted(w)
  {
    RunOk(c, run, steps, k);
    SubjectReady(c, run[k], steps[k]);
  }

  /** A worker gives back a job's slot only after the job was sent to it, taken by it and done by it, in this order. */
  lemma ReleasedAfterRunning(c: Config, run: seq<State>, steps: seq<Step>, i: nat)
    returns (q: nat, r: nat, f: nat)
    requires IsRun(c, run, steps) && i < |steps| && steps[i].WorkerRelease?
    ensures q < r < f < i && steps[r] == Receive(steps[i].worker) && steps[f] == Finish(steps[i].worker)
    ensures var j := Subject(run[i], steps[i]);
            steps[q] == Probe(j) && Subject(run[r], steps[r]) == j && Subject(run[f], steps[f]) == j
  {
    var j := Subject(run[i], steps[i]);
    RunOk(c, run, steps, i);
    SubjectReady(c, run[i], steps[i]);
    f := CameHere(c, run, steps, i, j);
    Stage(c, run, steps, f, j, run[i].jobs[j].work);
    r := CameHere(c, run, steps, f, j);
    Stage(c, run, steps, r, j, run[f].jobs[j].work);
    q := CameHere(c, run, steps, r, j);
    Stage(c, run, steps, q, j, run[r].jobs[j].work);
  }

  /** A job is counted as completed only after its slot was given back and then the gauge lowered. */
  lemma CompletedAfterRelease(c: Config, run: seq<State>, steps: seq<Step>, i: nat) returns (l: nat, d: nat)
    requires IsRun(c, run, steps) && i < |steps| && steps[i].Complete?
    ensures l < d < i && steps[l] == WorkerRelease(steps[i].worker) && steps[d] == WorkerDiscount(steps[i].worker)
    ensures var j := Subject(run[i], steps[i]);
            Subject(run[l], steps[l]) == j && Subject(run[d], steps[d]) == j
  {
    var j := Subject(run[i], steps[i]);
    RunOk(c, run, steps, i);
    SubjectReady(c, run[i], steps[i]);
    d := CameHere(c, run, steps, i, j);
    Stage(c, run, steps, d, j, run[i].jobs[j].work);
    l := CameHere(c, run, steps, d, j);
    Stage(c, run, steps, l, j, run[d].jobs[j].work);
  }
}

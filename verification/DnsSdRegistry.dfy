/**
 * The DNS-SD registry: service registrations, browse subscriptions, and the queues of
 * updates that tell each subscriber what appeared and disappeared.
 */
module DnsSdRegistry {
  import opened Bytes
  import opened InstanceRename

  const ID_LIMIT: nat := 0x1_0000_0000_0000_0000

  type Id = nat

  datatype Error = EmptyInstance | InvalidTxt | InvalidSubtype | InvalidHost | DuplicateRegistration | UnknownRegistration

  datatype Result<+T> = Ok(value: T) | Err(error: Error)

  /** The part of a registration that names it. */
  datatype Key = Key(interface: nat, instance: seq<Byte>, serviceType: string, domain: string)

  /** `problem` is what the checks of TXT, subtypes and addresses find; `data` is the rest of the record. */
  datatype Registration = Registration(key: Key, problem: Option<Error>, data: seq<Byte>)

  datatype Filter = Filter(serviceType: string, domain: string, interface: Option<nat>)

  datatype Update = Added(id: Id, key: Key) | Removed(id: Id, key: Key)

  function Validate(r: Registration): Option<Error> {
    if r.key.instance == [] then Some(EmptyInstance) else r.problem
  }

  predicate Matches(f: Filter, k: Key) {
    f.serviceType == k.serviceType && f.domain == k.domain && (f.interface.None? || f.interface.value == k.interface)
  }

  /** The next identifier: one more, skipping zero when the counter wraps. */
  function NextId(n: Id): Id { if n + 1 >= ID_LIMIT then 1 else n + 1 }

  // ----- What a subscriber makes of its updates --------------------------------------------

  type View = map<Id, Key>

  /** A subscriber's reading of one update; None if the update contradicts what it knows. */
  function Act(v: View, u: Update): Option<View> {
    match u
    case Added(id, key) => if id in v then None else Some(v[id := key])
    case Removed(id, key) => if id in v && v[id] == key then Some(v - {id}) else None
  }

  function Replay(v: View, us: seq<Update>, n: nat): Option<View>
    requires n <= |us|
  {
    if n == 0 then Some(v)
    else
      var before := Replay(v, us, n - 1);
      if before.None? then None else Act(before.value, us[n - 1])
  }

  lemma {:induction false} ReplayPrefix(v: View, us: seq<Update>, u: Update, n: nat)
    requires n <= |us|
    ensures Replay(v, us + [u], n) == Replay(v, us, n)
  {
    if n > 0 { ReplayPrefix(v, us, u, n - 1); }
  }

  lemma ReplayAppend(v: View, us: seq<Update>, u: Update)
    requires Replay(v, us, |us|).Some?
    ensures Replay(v, us + [u], |us| + 1) == Act(Replay(v, us, |us|).value, u)
  {
    ReplayPrefix(v, us, u, |us|);
    assert (us + [u])[|us|] == u;
  }

  type Registrations = map<Id, Registration>

  /** The registrations a filter selects, by identifier. */
  function Selected(f: Filter, regs: Registrations): View {
    map id | id in regs && Matches(f, regs[id].key) :: regs[id].key
  }

  /** A filter selects the registrations of its service type and domain, on its interface if it names one. */
  lemma SelectedExactly(f: Filter, regs: Registrations, id: Id)
    ensures id in Selected(f, regs) <==>
            && id in regs && regs[id].key.serviceType == f.serviceType && regs[id].key.domain == f.domain
            && (f.interface == None || f.interface == Some(regs[id].key.interface))
    ensures id in Selected(f, regs) ==> Selected(f, regs)[id] == regs[id].key
  {
  }

  /** The queue brings the subscriber's view from `v` to the present, without a contradiction. */
  predicate Faithful(f: Filter, v: View, queue: seq<Update>, regs: Registrations) {
    Replay(v, queue, |queue|) == Some(Selected(f, regs))
  }

  /** A subscriber's queue after an event about `u`. */
  function Told(f: Filter, queue: seq<Update>, u: Update): seq<Update> {
    if Matches(f, u.key) then queue + [u] else queue
  }

  lemma ToldAdded(f: Filter, v: View, queue: seq<Update>, regs: Registrations, id: Id, r: Registration)
    requires Faithful(f, v, queue, regs) && id !in regs
    ensures Faithful(f, v, Told(f, queue, Added(id, r.key)), regs[id := r])
  {
    if Matches(f, r.key) {
      ReplayAppend(v, queue, Added(id, r.key));
      assert Selected(f, regs[id := r]) == Selected(f, regs)[id := r.key];
    } else {
      assert Selected(f, regs[id := r]) == Selected(f, regs);
    }
  }

  lemma ToldRemoved(f: Filter, v: View, queue: seq<Update>, regs: Registrations, id: Id)
    requires Faithful(f, v, queue, regs) && id in regs
    ensures Faithful(f, v, Told(f, queue, Removed(id, regs[id].key)), regs - {id})
  {
    if Matches(f, regs[id].key) {
      ReplayAppend(v, queue, Removed(id, regs[id].key));
      assert Selected(f, regs - {id}) == Selected(f, regs) - {id};
    } else {
      assert Selected(f, regs - {id}) == Selected(f, regs);
    }
  }

  // ----- Notification ------------------------------------------------------------------------

  type Subscriptions = map<Id, Filter>
  type Queues = map<Id, seq<Update>>

  function QueueOf(queues: Queues, s: Id): seq<Update> { if s in queues then queues[s] else [] }

  /** The queues after telling the subscribers below `n`, in ascending order. */
  function Notified(subs: Subscriptions, queues: Queues, u: Update, n: nat): Queues {
    if n == 0 then queues
    else
      var before := Notified(subs, queues, u, n - 1);
      if n - 1 in subs && Matches(subs[n - 1], u.key) then before[n - 1 := QueueOf(before, n - 1) + [u]] else before
  }

  /** Each subscriber is told once, and nobody else's queue changes. */
  lemma {:induction false} NotifiedAt(subs: Subscriptions, queues: Queues, u: Update, n: nat, s: Id)
    requires s in queues
    ensures var after := Notified(subs, queues, u, n);
            s in after && after[s] == if s < n && s in subs then Told(subs[s], queues[s], u) else queues[s]
  {
    if n > 0 { NotifiedAt(subs, queues, u, n - 1, s); }
  }

  lemma {:induction false} NotifiedKeys(subs: Subscriptions, queues: Queues, u: Update, n: nat)
    requires subs.Keys <= queues.Keys
    ensures Notified(subs, queues, u, n).Keys == queues.Keys
  {
    if n > 0 { NotifiedKeys(subs, queues, u, n - 1); }
  }

  // ----- The opening batch ---------------------------------------------------------------------

  /** Additions for the selected registrations below `n`, in ascending order. */
  function Opening(f: Filter, regs: Registrations, n: nat): seq<Update> {
    if n == 0 then []
    else
      var before := Opening(f, regs, n - 1);
      if n - 1 in regs && Matches(f, regs[n - 1].key) then before + [Added(n - 1, regs[n - 1].key)] else before
  }

  function SelectedBelow(f: Filter, regs: Registrations, n: nat): View {
    map id | id in regs && Matches(f, regs[id].key) && id < n :: regs[id].key
  }

  lemma {:induction false} OpeningReplays(f: Filter, regs: Registrations, n: nat)
    ensures var us := Opening(f, regs, n); Replay(map[], us, |us|) == Some(SelectedBelow(f, regs, n))
  {
    if n == 0 {
      assert SelectedBelow(f, regs, 0) == map[];
    } else {
      OpeningReplays(f, regs, n - 1);
      var us, id := Opening(f, regs, n - 1), n - 1;
      if id in regs && Matches(f, regs[id].key) {
        ReplayAppend(map[], us, Added(id, regs[id].key));
        assert SelectedBelow(f, regs, n) == SelectedBelow(f, regs, id)[id := regs[id].key];
      } else {
        assert SelectedBelow(f, regs, n) == SelectedBelow(f, regs, id);
      }
    }
  }

  lemma OpeningIsFaithful(f: Filter, regs: Registrations, n: nat)
    requires forall id | id in regs :: id < n
    ensures Faithful(f, map[], Opening(f, regs, n), regs)
  {
    OpeningReplays(f, regs, n);
    assert SelectedBelow(f, regs, n) == Selected(f, regs);
  }

  method CollectInitial(f: Filter, regs: Registrations, last: Id) returns (initial: seq<Update>)
    ensures initial == Opening(f, regs, last + 1)
  {
    initial := [];
    for n := 0 to last + 1
      invariant initial == Opening(f, regs, n)
    {
      if n in regs && Matches(f, regs[n].key) { initial := initial + [Added(n, regs[n].key)]; }
    }
  }

  // ----- The registry's invariant ------------------------------------------------------------------

  /** `keys` and `registrations` are inverse to each other. */
  predicate Indexed(regs: Registrations, keys: map<Key, Id>) {
    && (forall id | id in regs :: regs[id].key in keys && keys[regs[id].key] == id)
    && (forall k | k in keys :: keys[k] in regs && regs[keys[k]].key == k)
  }

  predicate Issued(ids: set<Id>, last: Id) { forall id | id in ids :: 1 <= id <= last }

  /** Every subscriber, having applied what it took and then its queue, knows exactly what its filter selects. */
  predicate AllFaithful(subs: Subscriptions, views: map<Id, View>, queues: Queues, regs: Registrations) {
    && subs.Keys == views.Keys == queues.Keys
    && forall s | s in subs :: Faithful(subs[s], views[s], queues[s], regs)
  }

  lemma AllToldAdded(subs: Subscriptions, views: map<Id, View>, queues: Queues, regs: Registrations,
                     id: Id, r: Registration, n: nat)
    requires AllFaithful(subs, views, queues, regs) && id !in regs && forall s | s in subs :: s < n
    ensures AllFaithful(subs, views, Notified(subs, queues, Added(id, r.key), n), regs[id := r])
  {
    NotifiedKeys(subs, queues, Added(id, r.key), n);
    forall s | s in subs
      ensures s in Notified(subs, queues, Added(id, r.key), n)
      ensures Faithful(subs[s], views[s], Notified(subs, queues, Added(id, r.key), n)[s], regs[id := r])
    {
      NotifiedAt(subs, queues, Added(id, r.key), n, s);
      ToldAdded(subs[s], views[s], queues[s], regs, id, r);
    }
  }

  lemma AllToldRemoved(subs: Subscriptions, views: map<Id, View>, queues: Queues, regs: Registrations, id: Id, n: nat)
    requires AllFaithful(subs, views, queues, regs) && id in regs && forall s | s in subs :: s < n
    ensures AllFaithful(subs, views, Notified(subs, queues, Removed(id, regs[id].key), n), regs - {id})
  {
    NotifiedKeys(subs, queues, Removed(id, regs[id].key), n);
    forall s | s in subs
      ensures s in Notified(subs, queues, Removed(id, regs[id].key), n)
      ensures Faithful(subs[s], views[s], Notified(subs, queues, Removed(id, regs[id].key), n)[s], regs - {id})
    {
      NotifiedAt(subs, queues, Removed(id, regs[id].key), n, s);
      ToldRemoved(subs[s], views[s], queues[s], regs, id);
    }
  }

  lemma AllToldOpening(subs: Subscriptions, views: map<Id, View>, queues: Queues, regs: Registrations,
                       id: Id, f: Filter, n: nat)
    requires AllFaithful(subs, views, queues, regs) && forall r | r in regs :: r < n
    ensures AllFaithful(subs[id := f], views[id := map[]], queues[id := Opening(f, regs, n)], regs)
  {
    OpeningIsFaithful(f, regs, n);
  }

  lemma IssuedNext(ids: Subscriptions, last: Id, id: Id, f: Filter)
    requires Issued(ids.Keys, last) && last + 1 < ID_LIMIT && id == NextId(last)
    ensures id !in ids && Issued(ids[id := f].Keys, id)
  {
  }

  lemma IndexedAdd(regs: Registrations, keys: map<Key, Id>, id: Id, r: Registration)
    requires Indexed(regs, keys) && id !in regs && r.key !in keys
    ensures Indexed(regs[id := r], keys[r.key := id])
  {
  }

  lemma IndexedChange(regs: Registrations, keys: map<Key, Id>, id: Id, r: Registration)
    requires Indexed(regs, keys) && id in regs && (r.key in keys ==> r.key == regs[id].key)
    ensures Indexed(regs[id := r], (keys - {regs[id].key})[r.key := id])
  {
  }

  /** A change of a registration is its removal followed by its addition. */
  function Changed(subs: Subscriptions, queues: Queues, id: Id, was: Key, now: Key, n: nat): Queues {
    Notified(subs, Notified(subs, queues, Removed(id, was), n), Added(id, now), n)
  }

  lemma AllToldChanged(subs: Subscriptions, views: map<Id, View>, queues: Queues, regs: Registrations,
                       id: Id, r: Registration, n: nat)
    requires AllFaithful(subs, views, queues, regs) && id in regs && forall s | s in subs :: s < n
    ensures AllFaithful(subs, views, Changed(subs, queues, id, regs[id].key, r.key, n), regs[id := r])
  {
    AllToldRemoved(subs, views, queues, regs, id, n);
    var between := Notified(subs, queues, Removed(id, regs[id].key), n);
    AllToldAdded(subs, views, between, regs - {id}, id, r, n);
    assert (regs - {id})[id := r] == regs[id := r];
  }

  lemma AddKeeps(subs: Subscriptions, views: map<Id, View>, queues: Queues, regs: Registrations, keys: map<Key, Id>,
                 id: Id, r: Registration, last: Id, n: nat)
    requires AllFaithful(subs, views, queues, regs) && Indexed(regs, keys) && Issued(regs.Keys, last) && last < id
    requires r.key !in keys && forall s | s in subs :: s < n
    ensures id !in regs && AllFaithful(subs, views, Notified(subs, queues, Added(id, r.key), n), regs[id := r])
    ensures Indexed(regs[id := r], keys[r.key := id]) && Issued(regs[id := r].Keys, id)
  {
    AllToldAdded(subs, views, queues, regs, id, r, n);
    IndexedAdd(regs, keys, id, r);
    assert regs[id := r].Keys == regs.Keys + {id};
  }

  /** A key of another registration is taken. */
  lemma KeyIsTaken(regs: Registrations, keys: map<Key, Id>, id: Id, key: Key)
    requires Indexed(regs, keys) && id in regs
    ensures regs[id].key != key && key in keys <==> key in keys && keys[key] != id
  {
  }

  lemma ChangeKeeps(subs: Subscriptions, views: map<Id, View>, queues: Queues, regs: Registrations, keys: map<Key, Id>,
                    id: Id, r: Registration, last: Id, n: nat)
    requires AllFaithful(subs, views, queues, regs) && Indexed(regs, keys) && Issued(regs.Keys, last) && id in regs
    requires (r.key in keys ==> r.key == regs[id].key) && forall s | s in subs :: s < n
    ensures AllFaithful(subs, views, Changed(subs, queues, id, regs[id].key, r.key, n), regs[id := r])
    ensures Indexed(regs[id := r], (keys - {regs[id].key})[r.key := id]) && Issued(regs[id := r].Keys, last)
  {
    AllToldChanged(subs, views, queues, regs, id, r, n);
    IndexedChange(regs, keys, id, r);
    assert regs[id := r].Keys == regs.Keys;
  }

  // ----- Automatic renaming --------------------------------------------------------------------------

  /** The registration under the name tried at an ordinal. */
  function Renamed(r: Registration, ordinal: nat, utf8: seq<Byte> -> bool): Registration
    requires IsInstance(r.key.instance) && 1 <= ordinal <= LAST_ORDINAL
  {
    r.(key := r.key.(instance := Candidate(r.key.instance, ordinal, utf8)))
  }

  /** Every ordinal below `n` is taken. */
  predicate TakenBelow(keys: map<Key, Id>, r: Registration, n: nat, utf8: seq<Byte> -> bool)
    requires IsInstance(r.key.instance) && n <= LAST_ORDINAL + 1
  {
    forall k | 1 <= k < n :: Renamed(r, k, utf8).key in keys
  }

  function NumberedKeys(r: Registration, n: nat, utf8: seq<Byte> -> bool): set<Key>
    requires IsInstance(r.key.instance) && 1 <= n <= LAST_ORDINAL
  {
    if n == 1 then {} else NumberedKeys(r, n - 1, utf8) + {Renamed(r, n, utf8).key}
  }

  lemma {:induction false} NumberedIsNumbered(r: Registration, n: nat, utf8: seq<Byte> -> bool, m: nat)
    requires IsInstance(r.key.instance) && 1 <= n < m <= LAST_ORDINAL
    ensures Renamed(r, m, utf8).key !in NumberedKeys(r, n, utf8)
  {
    if n > 1 {
      NumberedIsNumbered(r, n - 1, utf8, m);
      CandidatesDiffer(r.key.instance, n, m, utf8);
    }
  }

  lemma {:induction false} NumberedCount(keys: map<Key, Id>, r: Registration, n: nat, utf8: seq<Byte> -> bool)
    requires IsInstance(r.key.instance) && 1 <= n <= LAST_ORDINAL && TakenBelow(keys, r, n + 1, utf8)
    ensures NumberedKeys(r, n, utf8) <= keys.Keys && |NumberedKeys(r, n, utf8)| == n - 1
  {
    if n > 1 {
      NumberedCount(keys, r, n - 1, utf8);
      NumberedIsNumbered(r, n - 1, utf8, n);
      assert Renamed(r, n, utf8).key in keys;
    }
  }

  lemma EnoughKeys(keys: map<Key, Id>, r: Registration, utf8: seq<Byte> -> bool)
    requires IsInstance(r.key.instance) && TakenBelow(keys, r, LAST_ORDINAL + 1, utf8)
    ensures |keys| >= LAST_ORDINAL - 1
  {
    var numbered := NumberedKeys(r, LAST_ORDINAL, utf8);
    NumberedCount(keys, r, LAST_ORDINAL, utf8);
    assert keys.Keys == numbered + (keys.Keys - numbered);
  }

  /** Automatic renaming runs out of names only when the registry holds 9998 keys or more. */
  lemma SomeOrdinalIsFree(keys: map<Key, Id>, r: Registration, utf8: seq<Byte> -> bool)
    requires IsInstance(r.key.instance) && |keys| < LAST_ORDINAL - 1
    ensures !TakenBelow(keys, r, LAST_ORDINAL + 1, utf8)
  {
    if TakenBelow(keys, r, LAST_ORDINAL + 1, utf8) { EnoughKeys(keys, r, utf8); }
  }

  // ----- Removing an interface ---------------------------------------------------------------------------

  /** The registrations of an interface below identifier `n`, in ascending order. */
  function OnInterface(regs: Registrations, interface: nat, n: nat): seq<Registration> {
    if n == 0 then []
    else
      var before := OnInterface(regs, interface, n - 1);
      if n - 1 in regs && regs[n - 1].key.interface == interface then before + [regs[n - 1]] else before
  }

  function Without(regs: Registrations, interface: nat, n: nat): Registrations {
    map id | id in regs && !(regs[id].key.interface == interface && id < n) :: regs[id]
  }

  // ----- The registry ----------------------------------------------------------------------------------------

  class Registry {
    var nextRegistrationId: Id
    var nextSubscriptionId: Id
    var registrations: Registrations
    var keys: map<Key, Id>
    var subscriptions: Subscriptions
    var pending: Queues
    /** What each subscriber has made of the batches it took. */
    ghost var views: map<Id, View>

    ghost predicate Valid()
      reads this
    {
      && Indexed(registrations, keys)
      && Issued(registrations.Keys, nextRegistrationId) && nextRegistrationId < ID_LIMIT
      && Issued(subscriptions.Keys, nextSubscriptionId) && nextSubscriptionId < ID_LIMIT
      && AllFaithful(subscriptions, views, pending, registrations)
    }

    constructor ()
      ensures Valid() && registrations == map[] && subscriptions == map[]
    {
      nextRegistrationId, nextSubscriptionId := 0, 0;
      registrations, keys, subscriptions, pending, views := map[], map[], map[], map[], map[];
    }

    /** `notify`: a visit to every subscription in ascending order. */
    method Notify(u: Update)
      requires Issued(subscriptions.Keys, nextSubscriptionId)
      modifies this`pending
      ensures pending == Notified(subscriptions, old(pending), u, nextSubscriptionId + 1)
    {
      for s := 0 to nextSubscriptionId + 1
        invariant pending == Notified(subscriptions, old(pending), u, s)
      {
        if s in subscriptions && Matches(subscriptions[s], u.key) {
          if s !in pending { pending := pending[s := []]; }
          pending := pending[s := pending[s] + [u]];
        }
      }
    }

    method Register(r: Registration) returns (res: Result<Id>)
      requires Valid() && nextRegistrationId + 1 < ID_LIMIT
      modifies this`nextRegistrationId, this`registrations, this`keys, this`pending
      ensures Valid()
      ensures res == if r.key.instance == [] then Err(EmptyInstance)
                     else if r.problem.Some? then Err(r.problem.value)
                     else if r.key in old(keys) then Err(DuplicateRegistration)
                     else Ok(old(nextRegistrationId) + 1)
      ensures res.Err? ==> registrations == old(registrations) && keys == old(keys) && pending == old(pending)
      ensures res.Ok? ==>
                && res.value !in old(registrations) && registrations == old(registrations)[res.value := r]
                && pending == Notified(subscriptions, old(pending), Added(res.value, r.key), nextSubscriptionId + 1)
    {
      var problem := Validate(r);
      if problem.Some? { return Err(problem.value); }
      if r.key in keys { return Err(DuplicateRegistration); }
      var id := Enter(r);
      return Ok(id);
    }

    /** The registration under the next identifier; subscribers are told. */
    method Enter(r: Registration) returns (id: Id)
      requires Valid() && nextRegistrationId + 1 < ID_LIMIT && r.key !in keys
      modifies this`nextRegistrationId, this`registrations, this`keys, this`pending
      ensures Valid() && id == old(nextRegistrationId) + 1 && id !in old(registrations)
      ensures registrations == old(registrations)[id := r]
      ensures pending == Notified(subscriptions, old(pending), Added(id, r.key), nextSubscriptionId + 1)
    {
      id := NextId(nextRegistrationId);
      AddKeeps(subscriptions, views, pending, registrations, keys, id, r, nextRegistrationId, nextSubscriptionId + 1);
      nextRegistrationId := id;
      Notify(Added(id, r.key));
      keys := keys[r.key := id];
      registrations := registrations[id := r];
    }

    method Unregister(id: Id) returns (res: Result<Registration>)
      requires Valid()
      modifies this`registrations, this`keys, this`pending
      ensures Valid()
      ensures res == if id in old(registrations) then Ok(old(registrations)[id]) else Err(UnknownRegistration)
      ensures registrations == old(registrations) - {id}
      ensures res.Err? ==> keys == old(keys) && pending == old(pending)
      ensures res.Ok? ==>
                pending == Notified(subscriptions, old(pending), Removed(id, res.value.key), nextSubscriptionId + 1)
    {
      if id !in registrations { return Err(UnknownRegistration); }
      var r := registrations[id];
      registrations := registrations - {id};
      keys := keys - {r.key};
      Notify(Removed(id, r.key));
      AllToldRemoved(subscriptions, views, old(pending), old(registrations), id, nextSubscriptionId + 1);
      return Ok(r);
    }

    method Amend(id: Id, r: Registration) returns (res: Result<()>)
      requires Valid()
      modifies this`registrations, this`keys, this`pending
      ensures Valid()
      ensures res == if r.key.instance == [] then Err(EmptyInstance)
                     else if r.problem.Some? then Err(r.problem.value)
                     else if id !in old(registrations) then Err(UnknownRegistration)
                     else if r.key in old(keys) && old(keys)[r.key] != id then Err(DuplicateRegistration)
                     else Ok(())
      ensures res.Err? ==> registrations == old(registrations) && keys == old(keys) && pending == old(pending)
      ensures res.Ok? ==>
                && registrations == old(registrations)[id := r]
                && pending == Changed(subscriptions, old(pending), id, old(registrations)[id].key, r.key,
                                      nextSubscriptionId + 1)
    {
      var problem := Validate(r);
      if problem.Some? { return Err(problem.value); }
      if id !in registrations { return Err(UnknownRegistration); }
      var previous := registrations[id];
      KeyIsTaken(registrations, keys, id, r.key);
      if previous.key != r.key && r.key in keys { return Err(DuplicateRegistration); }
      Exchange(id, r);
      return Ok(());
    }

    /** The new registration in the place of the old one; subscribers are told of both. */
    method Exchange(id: Id, r: Registration)
      requires Valid() && id in registrations && (r.key in keys ==> r.key == registrations[id].key)
      modifies this`registrations, this`keys, this`pending
      ensures Valid() && registrations == old(registrations)[id := r]
      ensures pending == Changed(subscriptions, old(pending), id, old(registrations)[id].key, r.key, nextSubscriptionId + 1)
    {
      var previous := registrations[id];
      ChangeKeeps(subscriptions, views, pending, registrations, keys, id, r, nextRegistrationId, nextSubscriptionId + 1);
      Notify(Removed(id, previous.key));
      keys := keys - {previous.key};
      keys := keys[r.key := id];
      Notify(Added(id, r.key));
      registrations := registrations[id := r];
    }

    /** `register_with_automatic_rename`: the first free name among the base and its numbered forms. */
    method RegisterWithAutomaticRename(r: Registration, utf8: seq<Byte> -> bool)
      returns (res: Result<(Id, seq<Byte>)>, ghost ordinal: nat)
      requires Valid() && nextRegistrationId + 1 < ID_LIMIT && IsInstance(r.key.instance)
      modifies this`nextRegistrationId, this`registrations, this`keys, this`pending
      ensures Valid()
      ensures 1 <= ordinal <= LAST_ORDINAL + 1 && TakenBelow(old(keys), r, ordinal, utf8)
      ensures ordinal == LAST_ORDINAL + 1 ==> res == Err(DuplicateRegistration)
      ensures ordinal <= LAST_ORDINAL ==>
                && Renamed(r, ordinal, utf8).key !in old(keys)
                && (if r.problem.Some? then res == Err(r.problem.value)
                    else res.Ok? && res.value.1 == Candidate(r.key.instance, ordinal, utf8))
      ensures res.Ok? ==>
                && res.value.0 !in old(registrations) && ordinal <= LAST_ORDINAL
                && registrations == old(registrations)[res.value.0 := Renamed(r, ordinal, utf8)]
      ensures res.Err? ==> registrations == old(registrations) && pending == old(pending)
      ensures r.problem.None? && |old(keys)| < LAST_ORDINAL - 1 ==> res.Ok?
    {
      var base := r.key.instance;
      if |keys| < LAST_ORDINAL - 1 { SomeOrdinalIsFree(keys, r, utf8); }
      for n := 1 to LAST_ORDINAL + 1
        invariant TakenBelow(keys, r, n, utf8)
        invariant nextRegistrationId == old(nextRegistrationId) && registrations == old(registrations)
        invariant keys == old(keys) && pending == old(pending) && Valid()
      {
        var candidate := base;
        if n != 1 { candidate := RenamedInstance(base, n, utf8); }
        var attempt := r.(key := r.key.(instance := candidate));
        if attempt.key !in keys {
          ordinal := n;
          var made := Register(attempt);
          if made.Err? { return Err(made.error), ordinal; }
          return Ok((made.value, candidate)), ordinal;
        }
      }
      return Err(DuplicateRegistration), LAST_ORDINAL + 1;
    }

    method Subscribe(f: Filter) returns (id: Id)
      requires Valid() && nextSubscriptionId + 1 < ID_LIMIT
      modifies this`nextSubscriptionId, this`subscriptions, this`pending, this`views
      ensures Valid()
      ensures id == old(nextSubscriptionId) + 1 && id !in old(subscriptions)
      ensures subscriptions == old(subscriptions)[id := f] && views == old(views)[id := map[]]
      ensures pending == old(pending)[id := Opening(f, registrations, nextRegistrationId + 1)]
    {
      nextSubscriptionId := NextId(nextSubscriptionId);
      id := nextSubscriptionId;
      var initial := CollectInitial(f, registrations, nextRegistrationId);
      IssuedNext(subscriptions, old(nextSubscriptionId), id, f);
      AllToldOpening(subscriptions, views, pending, registrations, id, f, nextRegistrationId + 1);
      subscriptions := subscriptions[id := f];
      pending := pending[id := initial];
      views := views[id := map[]];
    }

    method Unsubscribe(id: Id)
      requires Valid()
      modifies this`subscriptions, this`pending, this`views
      ensures Valid()
      ensures subscriptions == old(subscriptions) - {id} && pending == old(pending) - {id}
    {
      subscriptions := subscriptions - {id};
      pending := pending - {id};
      views := views - {id};
    }

    /** `take_updates`: the batch brings the subscriber's view up to the present. */
    method TakeUpdates(id: Id) returns (us: seq<Update>)
      requires Valid()
      modifies this`pending, this`views
      ensures Valid()
      ensures id !in subscriptions ==> us == [] && pending == old(pending) && views == old(views)
      ensures id in subscriptions ==>
                && us == old(pending)[id] && pending == old(pending)[id := []]
                && Replay(old(views)[id], us, |us|) == Some(Selected(subscriptions[id], registrations))
                && views == old(views)[id := Selected(subscriptions[id], registrations)]
    {
      if id !in pending { return []; }
      us := pending[id];
      pending := pending[id := []];
      views := views[id := Selected(subscriptions[id], registrations)];
    }

    /** `remove_interface`: collect the identifiers, then unregister each. */
    method RemoveInterface(interface: nat) returns (gone: seq<Registration>)
      requires Valid()
      modifies this`registrations, this`keys, this`pending
      ensures Valid()
      ensures gone == OnInterface(old(registrations), interface, nextRegistrationId + 1)
      ensures registrations == Without(old(registrations), interface, nextRegistrationId + 1)
      ensures forall id | id in registrations :: registrations[id].key.interface != interface
    {
      gone := [];
      for n := 0 to nextRegistrationId + 1
        invariant Valid()
        invariant gone == OnInterface(old(registrations), interface, n)
        invariant registrations == Without(old(registrations), interface, n)
      {
        if n in registrations && registrations[n].key.interface == interface {
          var r := Unregister(n);
          gone := gone + [r.value];
        }
      }
    }
  }
}

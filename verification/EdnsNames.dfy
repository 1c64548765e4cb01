/**
 * What the names of a message say before and after its OPT record is rewritten: names are
 * compressed by pointing at octets, and the rewriting moves or changes some of these.
 */
module EdnsNames {
  import opened Bytes
  import opened DnsRecords
  import opened NameReading
  import opened OptRecord
  import opened WireSections
  import opened EdnsScan
  import opened Edns
  import FeatureLadder

  // ----- What a message says ----------------------------------------------------------------------

  /** A record, with the names in it as they are read in the message. */
  datatype Told = Told(octets: Record, names: seq<Option<seq<Byte>>>)

  function NamesIn(p: seq<Byte>, at: nat, names: seq<nat>): seq<Option<seq<Byte>>> {
    seq(|names|, i requires 0 <= i < |names| => NameAt(p, at + names[i]))
  }

  function Offset(start: nat, rs: seq<Record>, i: nat): nat
    requires i <= |rs|
  {
    start + |Between(rs, 0, i)|
  }

  function Tells(p: seq<Byte>, at: nat, r: Record): Told
    requires IsRecord(r)
  {
    Told(r, NamesIn(p, at, Names(r)))
  }

  /** What record `i` says, unless it is an OPT record. */
  function Entry(p: seq<Byte>, start: nat, rs: seq<Record>, i: nat): Option<Told>
    requires AreRecords(rs) && i < |rs|
  {
    if IsOpt(rs[i]) then None else Some(Tells(p, Offset(start, rs, i), rs[i]))
  }

  function Entries(p: seq<Byte>, start: nat, rs: seq<Record>): seq<Option<Told>>
    requires AreRecords(rs)
  {
    seq(|rs|, i requires 0 <= i < |rs| => Entry(p, start, rs, i))
  }

  function Somes<T>(xs: seq<Option<T>>, n: nat): seq<T>
    requires n <= |xs|
  {
    if n == 0 then [] else Somes(xs, n - 1) + if xs[n - 1].Some? then [xs[n - 1].value] else []
  }

  /** What the records other than OPT records say, in order. */
  function Lists(p: seq<Byte>, start: nat, rs: seq<Record>): seq<Told>
    requires AreRecords(rs)
  {
    Somes(Entries(p, start, rs), |rs|)
  }

  /** `z` is `x` without its element `k`. */
  ghost predicate Dropped<T>(x: seq<T>, z: seq<T>, k: nat) {
    && k < |x| && |z| == |x| - 1
    && (forall i {:trigger z[i]} | 0 <= i < k :: z[i] == x[i]) && (forall i {:trigger z[i]} | k <= i < |z| :: z[i] == x[i + 1])
  }

  /** An entry that is absent may go. */
  lemma {:induction false} SomesDropped<T>(x: seq<Option<T>>, z: seq<Option<T>>, k: nat, n: nat)
    requires Dropped(x, z, k) && x[k].None? && n <= |z|
    ensures n <= k ==> Somes(z, n) == Somes(x, n)
    ensures n >= k ==> Somes(z, n) == Somes(x, n + 1)
    decreases n
  {
    if n > 0 { SomesDropped(x, z, k, n - 1); }
  }

  // ----- Names that the rewriting does not reach --------------------------------------------------

  predicate NamesSettled(p: seq<Byte>, at: nat, names: seq<nat>, from: nat, limit: nat) {
    forall i | 0 <= i < |names| :: SettledAt(p, at + names[i], from, limit)
  }

  predicate RecordSettled(p: seq<Byte>, start: nat, rs: seq<Record>, i: nat, from: nat, limit: nat)
    requires AreRecords(rs) && i < |rs|
  {
    IsOpt(rs[i]) || NamesSettled(p, Offset(start, rs, i), Names(rs[i]), from, limit)
  }

  /** The names of the records other than OPT records are settled. */
  predicate RecordsSettled(p: seq<Byte>, start: nat, rs: seq<Record>, from: nat, limit: nat)
    requires AreRecords(rs)
  {
    forall i | 0 <= i < |rs| :: RecordSettled(p, start, rs, i, from, limit)
  }

  // ----- One record -------------------------------------------------------------------------------

  /** The names of a well-shaped record end inside it. */
  lemma NamesEnd(r: Record, local: LocalCheck)
    requires IsRecord(r) && WellShaped(r, local)
    ensures NamesFit(r, Names(r))
  {
  }

  lemma SharedFrom(p: seq<Byte>, a: nat, q: seq<Byte>, b: nat, r: seq<Byte>, n: nat)
    requires HasAt(p, a, r) && HasAt(q, b, r) && n <= |r|
    ensures Shared(p, a + n, q, b + n, |r| - n)
  {
    SameSlice(p, a, r, n, |r|);
    SameSlice(q, b, r, n, |r|);
  }

  lemma NameShared(p: seq<Byte>, a: nat, q: seq<Byte>, b: nat, r: seq<Byte>, n: nat)
    requires HasAt(p, a, r) && HasAt(q, b, r) && NameEnd(r, n).Some?
    ensures n <= |r| && Shared(p, a + n, q, b + n, |r| - n)
    ensures NameEnd(p, a + n).Some? && NameEnd(p, a + n).value <= a + |r|
  {
    NameEndBounds(r, n);
    NameInPlace(p, a, r, n);
    SharedFrom(p, a, q, b, r, n);
  }

  /** The name at `a` in `p` reads the same at `b` in `q`. */
  predicate SameName(p: seq<Byte>, a: nat, q: seq<Byte>, b: nat) { NameAt(q, b).Some? && NameAt(q, b) == NameAt(p, a) }

  predicate NamesFit(r: seq<Byte>, names: seq<nat>) {
    forall i | 0 <= i < |names| :: NameEnd(r, names[i]).Some?
  }

  lemma NamesTellAt(p: seq<Byte>, a: nat, q: seq<Byte>, b: nat, r: Record, names: seq<nat>, from: nat, limit: nat, i: nat)
    requires HasAt(p, a, r) && HasAt(q, b, r) && NamesFit(r, names) && i < |names|
    requires Agree(p, q, from, limit) && (a == b || limit <= b) && NamesSettled(p, a, names, from, limit)
    ensures SameName(p, a + names[i], q, b + names[i])
  {
    var n := names[i];
    var x, y := a + n, b + n;
    assert NameEnd(r, n).Some?;
    NameShared(p, a, q, b, r, n);
    NameKept(p, x, q, y, |r| - n, from, limit);
  }

  lemma SameNamesIn(p: seq<Byte>, a: nat, q: seq<Byte>, b: nat, names: seq<nat>)
    requires forall i | 0 <= i < |names| :: SameName(p, a + names[i], q, b + names[i])
    ensures NamesIn(q, b, names) == NamesIn(p, a, names) && NamesRead(q, b, names)
  {
    var x, y := NamesIn(q, b, names), NamesIn(p, a, names);
    forall i | 0 <= i < |names| ensures x[i] == y[i] { assert SameName(p, a + names[i], q, b + names[i]); }
  }

  lemma NamesTell(p: seq<Byte>, a: nat, q: seq<Byte>, b: nat, r: Record, names: seq<nat>, from: nat, limit: nat)
    requires HasAt(p, a, r) && HasAt(q, b, r) && NamesFit(r, names)
    requires Agree(p, q, from, limit) && (a == b || limit <= b) && NamesSettled(p, a, names, from, limit)
    ensures NamesIn(q, b, names) == NamesIn(p, a, names) && NamesRead(q, b, names)
  {
    forall i | 0 <= i < |names| ensures SameName(p, a + names[i], q, b + names[i]) {
      NamesTellAt(p, a, q, b, r, names, from, limit, i);
    }
    SameNamesIn(p, a, q, b, names);
  }

  /** A record whose names are settled says the same where its octets have gone. */
  lemma RecordTells(p: seq<Byte>, a: nat, q: seq<Byte>, b: nat, r: Record, from: nat, limit: nat, local: LocalCheck)
    requires HasAt(p, a, r) && HasAt(q, b, r) && IsRecord(r) && WellShaped(r, local)
    requires Agree(p, q, from, limit) && (a == b || limit <= b) && NamesSettled(p, a, Names(r), from, limit)
    ensures Tells(q, b, r) == Tells(p, a, r) && NamesRead(q, b, Names(r))
  {
    NamesEnd(r, local);
    NamesTell(p, a, q, b, r, Names(r), from, limit);
  }

  // ----- All records --------------------------------------------------------------------------------

  /**
   * `ts` is `rs` with `o` OPT records at `k` replaced by `m` OPT records; each of the two numbers
   * is 0 or 1.
   */
  predicate Edited(rs: seq<Record>, ts: seq<Record>, k: nat, o: nat, m: nat)
    requires AreRecords(rs) && AreRecords(ts)
  {
    && o <= 1 && m <= 1 && k + o <= |rs| && |ts| == |rs| - o + m
    && (forall i {:trigger rs[i]} | 0 <= i < k :: ts[i] == rs[i])
    && (forall i {:trigger rs[i]} | k + o <= i < |rs| :: ts[i - o + m] == rs[i])
    && (o == 1 ==> IsOpt(rs[k])) && (m == 1 ==> IsOpt(ts[k]))
  }

  lemma {:induction false} OffsetBefore(start: nat, rs: seq<Record>, ts: seq<Record>, k: nat, i: nat)
    requires i <= k <= |rs| && k <= |ts| && forall j | 0 <= j < k :: ts[j] == rs[j]
    ensures Offset(start, ts, i) == Offset(start, rs, i)
  {
    if i > 0 { OffsetBefore(start, rs, ts, k, i - 1); }
  }

  lemma {:induction false} OffsetGrows(start: nat, rs: seq<Record>, i: nat, j: nat)
    requires i <= j <= |rs|
    ensures Offset(start, rs, i) <= Offset(start, rs, j)
    decreases j
  {
    if i < j { OffsetGrows(start, rs, i, j - 1); }
  }

  predicate ShapedAt(rs: seq<Record>, i: nat, local: LocalCheck)
    requires AreRecords(rs) && i < |rs|
  {
    WellShaped(rs[i], local)
  }

  predicate Shaped(rs: seq<Record>, local: LocalCheck)
    requires AreRecords(rs)
  {
    forall i | 0 <= i < |rs| :: ShapedAt(rs, i, local)
  }

  /** Two messages with records that differ by an OPT record at `k`, and all that the names need. */
  ghost predicate Rewritten(p: seq<Byte>, q: seq<Byte>, start: nat, rs: seq<Record>, ts: seq<Record>, k: nat, o: nat, m: nat,
                            from: nat)
  {
    && Reads(p, start, rs) && Reads(q, start, ts) && Edited(rs, ts, k, o, m)
    && Agree(p, q, from, Offset(start, rs, k)) && RecordsSettled(p, start, rs, from, Offset(start, rs, k))
  }

  /** Record `i` of the one message is record `j` of the other, and says the same. */
  ghost predicate Paired(p: seq<Byte>, q: seq<Byte>, start: nat, rs: seq<Record>, ts: seq<Record>, i: nat, j: nat) {
    && i < |rs| && j < |ts| && ts[j] == rs[i] && IsRecord(rs[i])
    && Tells(q, Offset(start, ts, j), rs[i]) == Tells(p, Offset(start, rs, i), rs[i])
    && NamesRead(q, Offset(start, ts, j), Names(rs[i]))
  }

  lemma Stands(p: seq<Byte>, start: nat, rs: seq<Record>, i: nat)
    requires Reads(p, start, rs) && i < |rs|
    ensures HasAt(p, Offset(start, rs, i), rs[i]) && IsRecord(rs[i])
  {
    RecordStands(p, start, rs, i);
  }

  lemma PairedAt(p: seq<Byte>, q: seq<Byte>, start: nat, rs: seq<Record>, ts: seq<Record>, i: nat, j: nat, from: nat, limit: nat,
                 local: LocalCheck)
    requires i < |rs| && j < |ts| && ts[j] == rs[i] && IsRecord(rs[i]) && WellShaped(rs[i], local)
    requires HasAt(p, Offset(start, rs, i), rs[i]) && HasAt(q, Offset(start, ts, j), rs[i]) && Agree(p, q, from, limit)
    requires Offset(start, rs, i) == Offset(start, ts, j) || limit <= Offset(start, ts, j)
    requires NamesSettled(p, Offset(start, rs, i), Names(rs[i]), from, limit)
    ensures Paired(p, q, start, rs, ts, i, j)
  {
    RecordTells(p, Offset(start, rs, i), q, Offset(start, ts, j), rs[i], from, limit, local);
  }

  lemma PairedBefore(p: seq<Byte>, q: seq<Byte>, start: nat, rs: seq<Record>, ts: seq<Record>, k: nat, o: nat, m: nat, from: nat,
                     local: LocalCheck, i: nat)
    requires Rewritten(p, q, start, rs, ts, k, o, m, from) && Shaped(rs, local) && i < k && !IsOpt(rs[i])
    ensures Paired(p, q, start, rs, ts, i, i)
  {
    assert ts[i] == rs[i] && ShapedAt(rs, i, local);
    assert RecordSettled(p, start, rs, i, from, Offset(start, rs, k));
    Stands(p, start, rs, i);
    Stands(q, start, ts, i);
    OffsetBefore(start, rs, ts, k, i);
    PairedAt(p, q, start, rs, ts, i, i, from, Offset(start, rs, k), local);
  }

  lemma PairedAfter(p: seq<Byte>, q: seq<Byte>, start: nat, rs: seq<Record>, ts: seq<Record>, k: nat, o: nat, m: nat, from: nat,
                    local: LocalCheck, i: nat, j: nat)
    requires Rewritten(p, q, start, rs, ts, k, o, m, from) && Shaped(rs, local)
    requires k + o <= i < |rs| && !IsOpt(rs[i]) && j == i - o + m
    ensures Paired(p, q, start, rs, ts, i, j)
  {
    assert ts[i - o + m] == rs[i] && ShapedAt(rs, i, local);
    assert RecordSettled(p, start, rs, i, from, Offset(start, rs, k));
    Stands(p, start, rs, i);
    Stands(q, start, ts, j);
    OffsetBefore(start, rs, ts, k, k);
    OffsetGrows(start, ts, k, j);
    PairedAt(p, q, start, rs, ts, i, j, from, Offset(start, rs, k), local);
  }

  lemma EntryBefore(p: seq<Byte>, q: seq<Byte>, start: nat, rs: seq<Record>, ts: seq<Record>, k: nat, o: nat, m: nat, from: nat,
                    local: LocalCheck, i: nat)
    requires Rewritten(p, q, start, rs, ts, k, o, m, from) && Shaped(rs, local) && i < k
    ensures Entry(q, start, ts, i) == Entry(p, start, rs, i)
  {
    assert ts[i] == rs[i];
    if !IsOpt(rs[i]) { PairedBefore(p, q, start, rs, ts, k, o, m, from, local, i); }
  }

  lemma EntryAfter(p: seq<Byte>, q: seq<Byte>, start: nat, rs: seq<Record>, ts: seq<Record>, k: nat, o: nat, m: nat, from: nat,
                   local: LocalCheck, i: nat, j: nat)
    requires Rewritten(p, q, start, rs, ts, k, o, m, from) && Shaped(rs, local) && k + o <= i < |rs| && j == i - o + m
    ensures Entry(q, start, ts, j) == Entry(p, start, rs, i)
  {
    assert ts[i - o + m] == rs[i];
    if !IsOpt(rs[i]) { PairedAfter(p, q, start, rs, ts, k, o, m, from, local, i, j); }
  }

  lemma EntryGone(p: seq<Byte>, start: nat, rs: seq<Record>, k: nat)
    requires AreRecords(rs) && k < |rs| && IsOpt(rs[k])
    ensures Entries(p, start, rs)[k].None?
  {
  }

  lemma EntriesReplaced(p: seq<Byte>, q: seq<Byte>, start: nat, rs: seq<Record>, ts: seq<Record>, k: nat, from: nat,
                        local: LocalCheck)
    requires Rewritten(p, q, start, rs, ts, k, 1, 1, from) && Shaped(rs, local)
    ensures Entries(q, start, ts) == Entries(p, start, rs)
  {
    var x, y := Entries(p, start, rs), Entries(q, start, ts);
    forall i | 0 <= i < |rs| ensures y[i] == x[i] {
      if i < k {
        EntryBefore(p, q, start, rs, ts, k, 1, 1, from, local, i);
      } else if i > k {
        EntryAfter(p, q, start, rs, ts, k, 1, 1, from, local, i, i);
      } else {
        EntryGone(p, start, rs, k);
        EntryGone(q, start, ts, k);
      }
    }
  }

  lemma EntriesRemoved(p: seq<Byte>, q: seq<Byte>, start: nat, rs: seq<Record>, ts: seq<Record>, k: nat, from: nat,
                       local: LocalCheck)
    requires Rewritten(p, q, start, rs, ts, k, 1, 0, from) && Shaped(rs, local)
    ensures Dropped(Entries(p, start, rs), Entries(q, start, ts), k)
  {
    var x, y := Entries(p, start, rs), Entries(q, start, ts);
    forall i | 0 <= i < k ensures y[i] == x[i] { EntryBefore(p, q, start, rs, ts, k, 1, 0, from, local, i); }
    forall i | k <= i < |y| ensures y[i] == x[i + 1] { EntryAfter(p, q, start, rs, ts, k, 1, 0, from, local, i + 1, i); }
  }

  lemma EntriesAdded(p: seq<Byte>, q: seq<Byte>, start: nat, rs: seq<Record>, ts: seq<Record>, k: nat, from: nat,
                     local: LocalCheck)
    requires Rewritten(p, q, start, rs, ts, k, 0, 1, from) && Shaped(rs, local)
    ensures Dropped(Entries(q, start, ts), Entries(p, start, rs), k)
  {
    var x, y := Entries(p, start, rs), Entries(q, start, ts);
    forall i | 0 <= i < k ensures x[i] == y[i] { EntryBefore(p, q, start, rs, ts, k, 0, 1, from, local, i); }
    forall i | k <= i < |x| ensures x[i] == y[i + 1] { EntryAfter(p, q, start, rs, ts, k, 0, 1, from, local, i, i + 1); }
  }

  /** The records other than OPT records say the same. */
  lemma ListsKept(p: seq<Byte>, q: seq<Byte>, start: nat, rs: seq<Record>, ts: seq<Record>, k: nat, o: nat, m: nat, from: nat,
                  local: LocalCheck)
    requires Rewritten(p, q, start, rs, ts, k, o, m, from) && Shaped(rs, local) && o + m > 0
    ensures Lists(q, start, ts) == Lists(p, start, rs)
  {
    if o == 0 {
      EntriesAdded(p, q, start, rs, ts, k, from, local);
      EntryGone(q, start, ts, k);
      SomesDropped(Entries(q, start, ts), Entries(p, start, rs), k, |rs|);
    } else if m == 0 {
      EntriesRemoved(p, q, start, rs, ts, k, from, local);
      EntryGone(p, start, rs, k);
      SomesDropped(Entries(p, start, rs), Entries(q, start, ts), k, |ts|);
    } else {
      EntriesReplaced(p, q, start, rs, ts, k, from, local);
    }
  }

  // ----- The rewritten message parses -------------------------------------------------------------

  function ItemsTo(start: nat, rs: seq<Record>, k: nat): seq<Item>
    requires k <= |rs|
  {
    if k == 0 then [] else ItemsTo(start, rs, k - 1) + [Item(Offset(start, rs, k - 1), rs[k - 1])]
  }

  lemma {:induction false} ItemIs(start: nat, rs: seq<Record>, k: nat, i: nat)
    requires k <= |rs|
    ensures |ItemsTo(start, rs, k)| == k && (i < k ==> ItemsTo(start, rs, k)[i] == Item(Offset(start, rs, i), rs[i]))
  {
    if k > 0 { ItemIs(start, rs, k - 1, i); }
  }

  lemma ItemHere(p: seq<Byte>, start: nat, rs: seq<Record>, i: nat)
    requires Reads(p, start, rs) && i < |rs|
    ensures RecordAt(p, Offset(start, rs, i)) == Some(rs[i])
    ensures Offset(start, rs, i + 1) == Offset(start, rs, i) + |rs[i]|
  {
    Stands(p, start, rs, i);
    FoundThere(p, Offset(start, rs, i), rs[i]);
    RecordStands(p, start, rs, i);
  }

  lemma FoundThere(p: seq<Byte>, at: nat, r: Record)
    requires HasAt(p, at, r) && IsRecord(r)
    ensures RecordAt(p, at) == Some(r)
  {
    RecordInPlace(p, at, r);
  }

  lemma {:induction false} ItemsFound(p: seq<Byte>, start: nat, rs: seq<Record>, k: nat)
    requires Reads(p, start, rs) && k <= |rs|
    ensures RecordsTo(p, start, k) == Some(ItemsTo(start, rs, k))
    ensures NextAt(start, ItemsTo(start, rs, k)) == Offset(start, rs, k)
    decreases k
  {
    if k > 0 {
      ItemsFound(p, start, rs, k - 1);
      ItemHere(p, start, rs, k - 1);
    }
  }

  predicate SoundAt(p: seq<Byte>, start: nat, rs: seq<Record>, i: nat, local: LocalCheck)
    requires i < |rs|
  {
    Sound(p, Item(Offset(start, rs, i), rs[i]), local)
  }

  lemma ParsedSound(p: seq<Byte>, start: nat, rs: seq<Record>, local: LocalCheck, i: nat)
    requires Parses(p, local) && Reads(p, start, rs) && QuestionsEnd(p, Questions(p)) == Some(start) && |rs| == Total(p)
    requires i < |rs|
    ensures SoundAt(p, start, rs, i, local)
  {
    ItemsFound(p, start, rs, |rs|);
    ItemIs(start, rs, |rs|, i);
    assert Sound(p, ItemsTo(start, rs, |rs|)[i], local);
  }

  lemma SoundParses(q: seq<Byte>, start: nat, ts: seq<Record>, local: LocalCheck)
    requires |q| >= 12 && QuestionsRead(q, Questions(q)) && QuestionsEnd(q, Questions(q)) == Some(start)
    requires Reads(q, start, ts) && |ts| == Total(q) && forall i | 0 <= i < |ts| :: SoundAt(q, start, ts, i, local)
    ensures Parses(q, local)
  {
    ItemsFound(q, start, ts, |ts|);
    var items := ItemsTo(start, ts, |ts|);
    ItemIs(start, ts, |ts|, 0);
    forall i | 0 <= i < |items| ensures Sound(q, items[i], local) {
      ItemIs(start, ts, |ts|, i);
      assert SoundAt(q, start, ts, i, local);
    }
    assert |q| == start + |q[start..]|;
  }

  lemma OptShaped(r: Record, local: LocalCheck)
    requires IsRecord(r) && IsOpt(r)
    ensures WellShaped(r, local) && Names(r) == [0]
  {
  }

  lemma RootName(q: seq<Byte>, at: nat)
    requires at < |q| && q[at] == 0
    ensures NameAt(q, at) == Some([0])
  {
    CellIs(q, at);
  }

  lemma OptSound(q: seq<Byte>, at: nat, r: Record, local: LocalCheck)
    requires HasAt(q, at, r) && Insertable(r)
    ensures Sound(q, Item(at, r), local)
  {
    OptShaped(r, local);
    assert q[at] == r[0] by { assert q[at..at + |r|][0] == r[0]; }
    RootName(q, at);
  }

  predicate AllSoundAt(p: seq<Byte>, start: nat, rs: seq<Record>, local: LocalCheck) {
    forall i | 0 <= i < |rs| :: SoundAt(p, start, rs, i, local)
  }

  lemma SoundIsShaped(p: seq<Byte>, start: nat, rs: seq<Record>, local: LocalCheck)
    requires AreRecords(rs) && AllSoundAt(p, start, rs, local)
    ensures Shaped(rs, local)
  {
    forall i | 0 <= i < |rs| ensures ShapedAt(rs, i, local) { assert SoundAt(p, start, rs, i, local); }
  }

  lemma SoundMoved(p: seq<Byte>, q: seq<Byte>, start: nat, rs: seq<Record>, ts: seq<Record>, i: nat, j: nat, local: LocalCheck)
    requires i < |rs| && SoundAt(p, start, rs, i, local) && Paired(p, q, start, rs, ts, i, j)
    ensures SoundAt(q, start, ts, j, local)
  {
  }

  lemma SoundOpt(q: seq<Byte>, start: nat, ts: seq<Record>, k: nat, local: LocalCheck)
    requires Reads(q, start, ts) && k < |ts| && Insertable(ts[k])
    ensures SoundAt(q, start, ts, k, local)
  {
    Stands(q, start, ts, k);
    OptSound(q, Offset(start, ts, k), ts[k], local);
  }

  lemma SoundKept(p: seq<Byte>, q: seq<Byte>, start: nat, rs: seq<Record>, ts: seq<Record>, k: nat, o: nat, m: nat, from: nat,
                  local: LocalCheck, j: nat)
    requires Rewritten(p, q, start, rs, ts, k, o, m, from) && Shaped(rs, local) && AllSoundAt(p, start, rs, local)
    requires OptIs(rs, |rs|, if o == 1 then Some(k) else None) && (m == 1 ==> Insertable(ts[k])) && j < |ts|
    ensures SoundAt(q, start, ts, j, local)
  {
    if j < k {
      PairedBefore(p, q, start, rs, ts, k, o, m, from, local, j);
      SoundMoved(p, q, start, rs, ts, j, j, local);
    } else if m == 1 && j == k {
      SoundOpt(q, start, ts, k, local);
    } else {
      PairedAfter(p, q, start, rs, ts, k, o, m, from, local, j - m + o, j);
      SoundMoved(p, q, start, rs, ts, j - m + o, j, local);
    }
  }

  // ----- Questions ----------------------------------------------------------------------------------

  /** A question: its name as it is read in the message, and its type and class. */
  datatype Asked = Asked(name: Option<seq<Byte>>, rest: seq<Byte>)

  function AskedAt(p: seq<Byte>, at: nat): Asked
    requires QuestionEnd(p, at).Some?
  {
    Asked(NameAt(p, at), p[NameEnd(p, at).value..QuestionEnd(p, at).value])
  }

  function Asks(p: seq<Byte>, k: nat): seq<Asked>
    requires QuestionsEnd(p, k).Some?
  {
    if k == 0 then [] else Asks(p, k - 1) + [AskedAt(p, QuestionsEnd(p, k - 1).value)]
  }

  predicate QuestionsSettled(p: seq<Byte>, k: nat, from: nat, limit: nat)
    requires QuestionsEnd(p, k).Some?
  {
    k > 0 ==> QuestionsSettled(p, k - 1, from, limit) && SettledAt(p, QuestionsEnd(p, k - 1).value, from, limit)
  }

  /** `q` has the questions of `p`. */
  predicate SameQuestions(p: seq<Byte>, q: seq<Byte>, start: nat) {
    12 <= start <= |p| && start <= |q| && p[12..start] == q[12..start]
  }

  lemma FrontShared(p: seq<Byte>, q: seq<Byte>, a: nat, b: nat, start: nat)
    requires 12 <= a <= b <= start && SameQuestions(p, q, start)
    ensures p[a..b] == q[a..b]
  {
    var x, y := p[a..b], q[a..b];
    forall i | 0 <= i < b - a ensures x[i] == y[i] { assert p[12..start][a - 12 + i] == q[12..start][a - 12 + i]; }
  }

  lemma QuestionShared(p: seq<Byte>, q: seq<Byte>, at: nat, start: nat)
    requires QuestionEnd(p, at).Some? && 12 <= at && QuestionEnd(p, at).value <= start && SameQuestions(p, q, start)
    ensures at < NameEnd(p, at).value && NameEnd(p, at).value + 4 == QuestionEnd(p, at).value
    ensures NameEnd(q, at) == NameEnd(p, at) && QuestionEnd(q, at) == QuestionEnd(p, at)
  {
    NameEndBounds(p, at);
    FrontShared(p, q, at, start, start);
    SliceSame(p, q, at, start);
    NameIsLocal(p, at, q, at, start - at);
    SameWord(p, at, q, at, start - at, NameEnd(p, at).value - at);
  }

  lemma QuestionNamed(p: seq<Byte>, q: seq<Byte>, at: nat, e: nat, from: nat, limit: nat)
    requires NameEnd(p, at) == Some(e) && at <= e <= |p| && e <= |q| && p[at..e] == q[at..e]
    requires Agree(p, q, from, limit) && SettledAt(p, at, from, limit)
    ensures NameAt(q, at).Some? && NameAt(q, at) == NameAt(p, at)
  {
    NameKept(p, at, q, at, e - at, from, limit);
  }

  /** A question whose name is settled asks the same. */
  lemma QuestionTells(p: seq<Byte>, q: seq<Byte>, at: nat, start: nat, from: nat, limit: nat)
    requires QuestionEnd(p, at).Some? && 12 <= at && QuestionEnd(p, at).value <= start && SameQuestions(p, q, start)
    requires Agree(p, q, from, limit) && SettledAt(p, at, from, limit)
    ensures QuestionEnd(q, at) == QuestionEnd(p, at) && NameAt(q, at).Some? && AskedAt(q, at) == AskedAt(p, at)
  {
    QuestionShared(p, q, at, start);
    var e := NameEnd(p, at).value;
    FrontShared(p, q, at, e, start);
    FrontShared(p, q, e, e + 4, start);
    QuestionNamed(p, q, at, e, from, limit);
  }

  lemma QuestionBefore(p: seq<Byte>, k: nat)
    requires k > 0 && |p| >= 12 && QuestionsEnd(p, k).Some?
    ensures QuestionsEnd(p, k - 1).Some? && 12 <= QuestionsEnd(p, k - 1).value < QuestionsEnd(p, k).value
    ensures QuestionEnd(p, QuestionsEnd(p, k - 1).value) == QuestionsEnd(p, k)
  {
    QuestionsBounds(p, k - 1);
    NameEndBounds(p, QuestionsEnd(p, k - 1).value);
  }

  /** The questions ask the same. */
  lemma {:induction false} QuestionsTell(p: seq<Byte>, q: seq<Byte>, k: nat, start: nat, from: nat, limit: nat)
    requires |p| >= 12 && QuestionsEnd(p, k).Some? && QuestionsEnd(p, k).value <= start && SameQuestions(p, q, start)
    requires Agree(p, q, from, limit) && QuestionsSettled(p, k, from, limit)
    ensures QuestionsRead(q, k) && QuestionsEnd(q, k) == QuestionsEnd(p, k) && Asks(q, k) == Asks(p, k)
    decreases k
  {
    if k > 0 {
      QuestionBefore(p, k);
      QuestionsTell(p, q, k - 1, start, from, limit);
      QuestionTells(p, q, QuestionsEnd(p, k - 1).value, start, from, limit);
    }
  }

  // ----- Whole messages -----------------------------------------------------------------------------

  /** The records of an accepted message. */
  function RecordsOf(p: seq<Byte>): (rs: seq<Record>)
    requires Scanned(p).Some?
    ensures AreRecords(rs) && Reads(p, Scanned(p).value.0, rs) && |rs| == Total(p)
  {
    QuestionsBounds(p, Questions(p));
    var start := Scanned(p).value.0;
    CutReads(p, start, First(p), Total(p));
    assert p[start..|p|] == p[start..];
    Cut(p, start, First(p), Total(p))
  }

  /** The names of the questions, and of the records other than OPT records, are settled. */
  predicate MessageSettled(p: seq<Byte>, from: nat, limit: nat)
    requires Scanned(p).Some?
  {
    QuestionsSettled(p, Questions(p), from, limit) && RecordsSettled(p, Scanned(p).value.0, RecordsOf(p), from, limit)
  }

  /** The two messages ask the same and, but for OPT records, say the same. */
  predicate SaysSame(p: seq<Byte>, q: seq<Byte>)
    requires Scanned(p).Some? && Scanned(q).Some?
  {
    && Asks(q, Questions(q)) == Asks(p, Questions(p))
    && Lists(q, Scanned(q).value.0, RecordsOf(q)) == Lists(p, Scanned(p).value.0, RecordsOf(p))
  }

  lemma RecordsAre(p: seq<Byte>, rs: seq<Record>)
    requires Scanned(p).Some? && Reads(p, Scanned(p).value.0, rs) && |rs| == Total(p)
    ensures RecordsOf(p) == rs
  {
    ReadingIsUnique(p, Scanned(p).value.0, rs, RecordsOf(p), |rs|);
  }

  /** The first octet of the header that differs when one additional count replaces another. */
  function Touched(before: int, after: int): nat {
    if before == after then 12 else if before / 256 == after / 256 then 11 else 10
  }

  lemma CountAgrees(p: seq<Byte>, q: seq<Byte>, limit: nat)
    requires 12 <= limit <= |p| && limit <= |q| && p[..10] == q[..10] && p[12..limit] == q[12..limit]
    ensures Agree(p, q, Touched(Additional(p), Additional(q)), limit)
  {
    var from := Touched(Additional(p), Additional(q));
    var x, y := p[..from], q[..from];
    forall i | 0 <= i < from ensures x[i] == y[i] {
      if i < 10 { assert p[..10][i] == q[..10][i]; }
    }
  }

  /** What is known of a message and its rewriting. */
  ghost predicate Rewriting(p: seq<Byte>, q: seq<Byte>, rs: seq<Record>, ts: seq<Record>, k: nat, o: nat, m: nat, from: nat,
                            local: LocalCheck)
  {
    && Scanned(p).Some? && Parses(p, local) && Scanned(q).Some? && Scanned(q).value.0 == Scanned(p).value.0
    && |p| >= 12 && |q| >= 12 && Questions(q) == Questions(p)
    && SameQuestions(p, q, Scanned(p).value.0) && rs == RecordsOf(p) && |ts| == Total(q)
    && Rewritten(p, q, Scanned(p).value.0, rs, ts, k, o, m, from) && o + m > 0
    && OptIs(rs, |rs|, if o == 1 then Some(k) else None) && (m == 1 ==> Insertable(ts[k]))
    && QuestionsSettled(p, Questions(p), from, Offset(Scanned(p).value.0, rs, k))
  }

  lemma RewritingRecords(p: seq<Byte>, q: seq<Byte>, rs: seq<Record>, ts: seq<Record>, k: nat, o: nat, m: nat, from: nat,
                         local: LocalCheck)
    requires Rewriting(p, q, rs, ts, k, o, m, from, local)
    ensures var start := Scanned(p).value.0;
            AllSoundAt(q, start, ts, local) && Lists(q, start, ts) == Lists(p, start, rs)
  {
    var start := Scanned(p).value.0;
    forall i | 0 <= i < |rs| ensures SoundAt(p, start, rs, i, local) { ParsedSound(p, start, rs, local, i); }
    SoundIsShaped(p, start, rs, local);
    forall j | 0 <= j < |ts| ensures SoundAt(q, start, ts, j, local) {
      SoundKept(p, q, start, rs, ts, k, o, m, from, local, j);
    }
    ListsKept(p, q, start, rs, ts, k, o, m, from, local);
  }

  /** A rewritten message parses and, where its names are settled, says the same. */
  lemma RewritingSays(p: seq<Byte>, q: seq<Byte>, rs: seq<Record>, ts: seq<Record>, k: nat, o: nat, m: nat, from: nat,
                      local: LocalCheck)
    requires Rewriting(p, q, rs, ts, k, o, m, from, local)
    ensures Parses(q, local) && SaysSame(p, q)
  {
    var start := Scanned(p).value.0;
    RewritingRecords(p, q, rs, ts, k, o, m, from, local);
    RecordsAre(q, ts);
    QuestionsTell(p, q, Questions(p), start, from, Offset(start, rs, k));
    SoundParses(q, start, ts, local);
  }

  // ----- The three ways of rewriting --------------------------------------------------------------------

  lemma EditedReplaced(rs: seq<Record>, k: nat, r: Record, ts: seq<Record>)
    requires AreRecords(rs) && AreRecords(ts) && k < |rs| && IsOpt(rs[k]) && IsRecord(r) && IsOpt(r) && ts == Spliced(rs, k, [r])
    ensures Edited(rs, ts, k, 1, 1)
  {
  }

  lemma EditedRemoved(rs: seq<Record>, k: nat, ts: seq<Record>)
    requires AreRecords(rs) && AreRecords(ts) && k < |rs| && IsOpt(rs[k]) && ts == Spliced(rs, k, [])
    ensures Edited(rs, ts, k, 1, 0)
  {
  }

  lemma EditedAppended(rs: seq<Record>, r: Record, ts: seq<Record>)
    requires AreRecords(rs) && AreRecords(ts) && IsRecord(r) && IsOpt(r) && ts == rs + [r]
    ensures Edited(rs, ts, |rs|, 0, 1)
  {
  }

  lemma KeptFacts(p: seq<Byte>, rs: seq<Record>, q: seq<Byte>, ts: seq<Record>, opt: Option<nat>)
    requires Scanned(p).Some? && |p| >= 12 && Keeps(p, rs, q, ts, Scanned(p).value.0, opt)
    ensures |q| >= 12 && Scanned(q).Some? && Scanned(q).value.0 == Scanned(p).value.0 && Questions(q) == Questions(p)
    ensures SameFront(p, q, Scanned(p).value.0) && Reads(q, Scanned(p).value.0, ts) && |ts| == Total(q)
  {
    FrontSame(p, q, Scanned(p).value.0);
  }

  lemma HeldFacts(p: seq<Byte>) returns (rs: seq<Record>)
    requires Scanned(p).Some?
    ensures var (start, s) := Scanned(p).value;
            && |p| >= 12 && rs == RecordsOf(p) && Holds(p, rs, start, IndexOf(s.opt)) && OptIs(rs, |rs|, IndexOf(s.opt))
            && Reads(p, start, rs) && (s.opt.Some? ==> Places(start, rs, s.opt.value))
            && Offset(start, rs, if s.opt.Some? then s.opt.value.index else |rs|) == Room(p, s.opt)
  {
    rs := ScanHolds(p);
    RecordsAre(p, rs);
    assert |p[Scanned(p).value.0..]| == |Between(rs, 0, |rs|)|;
  }

  /** Replacing the OPT record keeps what the names say that do not read past its start. */
  lemma ReplacedSays(p: seq<Byte>, r: Record, q: seq<Byte>, local: LocalCheck)
    requires Scanned(p).Some? && Parses(p, local) && Scanned(p).value.1.opt.Some? && Insertable(r)
    requires PutOpt(p, Scanned(p).value.1.opt, r) == Some(q)
    requires MessageSettled(p, 12, Room(p, Scanned(p).value.1.opt))
    ensures Scanned(q).Some? && Parses(q, local) && SaysSame(p, q)
  {
    var (start, s) := Scanned(p).value;
    var span := s.opt.value;
    var rs := HeldFacts(p);
    ReplaceParts(p, span, r, q);
    var ts := ReplaceKeeps(p, rs, start, span, r);
    KeptFacts(p, rs, q, ts, Some(span.index));
    EditedReplaced(rs, span.index, r, ts);
    ReplacedAgrees(p, span.start, span.end, r, q);
    RewritingSays(p, q, rs, ts, span.index, 1, 1, 12, local);
  }

  lemma ReplacedAgrees(p: seq<Byte>, a: nat, b: nat, r: seq<Byte>, q: seq<Byte>)
    requires 12 <= a <= b <= |p| && q == p[..a] + r + p[b..]
    ensures Agree(p, q, 12, a)
  {
    assert q[..a] == p[..a];
    assert q[..12] == q[..a][..12] && p[..12] == p[..a][..12];
    assert q[12..a] == q[..a][12..] && p[12..a] == p[..a][12..];
  }

  lemma CountedAgrees(p: seq<Byte>, a: nat, out: seq<Byte>, n: Word, q: seq<Byte>)
    requires 12 <= a <= |p| && a <= |out| && out[..a] == p[..a] && q == WithAdditional(out, n)
    ensures Agree(p, q, Touched(Additional(p), n), a)
  {
    assert out[..10] == out[..a][..10] && p[..10] == p[..a][..10];
    assert q[..10] == out[..10];
    assert q[12..a] == out[12..a] == out[..a][12..] && p[12..a] == p[..a][12..];
    assert q[10..12] == WordBytes(n);
    WordIn(q, 10, n);
    CountAgrees(p, q, a);
  }

  lemma RemovedAgrees(p: seq<Byte>, span: Span, q: seq<Byte>)
    requires |p| >= 12 && 12 <= span.start && RemoveOpt(p, span) == Some(q)
    ensures Agree(p, q, Touched(Additional(p), Additional(p) - 1), span.start)
  {
    var out, n := RemoveParts(p, span, q);
    assert out[..span.start] == p[..span.start];
    CountedAgrees(p, span.start, out, n, q);
  }

  lemma AppendedAgrees(p: seq<Byte>, r: seq<Byte>, q: seq<Byte>)
    requires |p| >= 12 && AppendOpt(p, r) == Some(q)
    ensures Agree(p, q, Touched(Additional(p), Additional(p) + 1), |p|)
  {
    assert (p + r)[..|p|] == p[..|p|];
    CountedAgrees(p, |p|, p + r, Additional(p) + 1, q);
  }

  /** Taking the OPT record out keeps what the names say that read neither the count nor past its start. */
  lemma RemovedSays(p: seq<Byte>, q: seq<Byte>, local: LocalCheck)
    requires Scanned(p).Some? && Parses(p, local) && Scanned(p).value.1.opt.Some?
    requires RemoveOpt(p, Scanned(p).value.1.opt.value) == Some(q)
    requires MessageSettled(p, Touched(Additional(p), Additional(p) - 1), Room(p, Scanned(p).value.1.opt))
    ensures Scanned(q).Some? && Parses(q, local) && SaysSame(p, q)
  {
    var (start, s) := Scanned(p).value;
    var span := s.opt.value;
    var rs := HeldFacts(p);
    var ts := RemoveKeeps(p, rs, start, span, q);
    KeptFacts(p, rs, q, ts, None);
    EditedRemoved(rs, span.index, ts);
    RemovedAgrees(p, span, q);
    RewritingSays(p, q, rs, ts, span.index, 1, 0, Touched(Additional(p), Additional(p) - 1), local);
  }

  /** Adding an OPT record keeps what the names say that do not read the count. */
  lemma AppendedSays(p: seq<Byte>, r: Record, q: seq<Byte>, local: LocalCheck)
    requires Scanned(p).Some? && Parses(p, local) && Scanned(p).value.1.opt.None? && Insertable(r)
    requires AppendOpt(p, r) == Some(q) && MessageSettled(p, Touched(Additional(p), Additional(p) + 1), |p|)
    ensures Scanned(q).Some? && Parses(q, local) && SaysSame(p, q)
  {
    var (start, s) := Scanned(p).value;
    var rs := HeldFacts(p);
    var ts := AppendKeeps(p, rs, start, r, q);
    KeptFacts(p, rs, q, ts, Some(|rs|));
    EditedAppended(rs, r, ts);
    AppendedAgrees(p, r, q);
    RewritingSays(p, q, rs, ts, |rs|, 0, 1, Touched(Additional(p), Additional(p) + 1), local);
  }

  // ----- Preparing a query --------------------------------------------------------------------------------

  /** The additional count of the prepared query. */
  function CountAfter(p: seq<Byte>, opt: Option<Span>, level: Level): int
    requires |p| >= 12
  {
    Additional(p) + (if level.Udp? then 0 else 1) - (if opt.Some? then 1 else 0)
  }

  /**
   * No name reads, through a pointer, an octet that preparing changes or moves: the additional
   * count, if it changes, or anything from the place of the OPT record on.
   */
  predicate Guarded(p: seq<Byte>, level: Level)
    requires Scanned(p).Some?
  {
    var opt := Scanned(p).value.1.opt;
    || (level.Udp? && opt.None?)
    || MessageSettled(p, Touched(Additional(p), CountAfter(p, opt, level)), Room(p, opt))
  }

  /** A prepared query parses, asks the same and, but for the OPT record, says the same. */
  lemma PreparedSays(p: seq<Byte>, level: Level, size: Word, local: LocalCheck)
    requires Prepare(p, level, size, local).Some? && !Scanned(p).value.1.tsig && Guarded(p, level)
    ensures var q := Prepare(p, level, size, local).value.packet;
            Scanned(q).Some? && Parses(q, local) && SaysSame(p, q)
  {
    var opt := Scanned(p).value.1.opt;
    var q := Prepare(p, level, size, local).value.packet;
    if level.Udp? {
      if opt.Some? { RemovedSays(p, q, local); }
    } else {
      OurOpt(level, size);
      if opt.Some? {
        ReplacedSays(p, OptBytes(QueryOpt(level, size)), q, local);
      } else {
        AppendedSays(p, OptBytes(QueryOpt(level, size)), q, local);
      }
    }
  }

  /**
   * Preparing for an EDNS level and then for any level is preparing for the last one. With the
   * same level twice it says that preparation is idempotent, and with plain UDP last that it
   * restores a query that came without an OPT record.
   */
  lemma LastLevelWins(p: seq<Byte>, a: Level, m: Word, b: Level, n: Word, local: LocalCheck)
    requires Prepare(p, a, m, local).Some? && !Scanned(p).value.1.tsig && !a.Udp? && Guarded(p, a)
    ensures Prepare(Prepare(p, a, m, local).value.packet, b, n, local) == Prepare(p, b, n, local)
  {
    PreparedSays(p, a, m, local);
    LastLevelIff(p, a, m, b, n, local);
  }

  /** A query without an OPT record comes back unchanged from EDNS and plain UDP. */
  lemma UdpRestores(p: seq<Byte>, a: Level, m: Word, n: Word, local: LocalCheck)
    requires Prepare(p, a, m, local).Some? && !Scanned(p).value.1.tsig && Scanned(p).value.1.opt.None? && Guarded(p, a)
    ensures Prepare(Prepare(p, a, m, local).value.packet, FeatureLadder.Udp, n, local) == Some(Prepared(p, false, true))
  {
    if !a.Udp? { LastLevelWins(p, a, m, FeatureLadder.Udp, n, local); }
  }

  /** Preparing a query again for the same level changes nothing. */
  lemma PrepareIdempotent(p: seq<Byte>, level: Level, size: Word, local: LocalCheck)
    requires Prepare(p, level, size, local).Some? && (!Scanned(p).value.1.tsig ==> Guarded(p, level))
    ensures Prepare(Prepare(p, level, size, local).value.packet, level, size, local) == Prepare(p, level, size, local)
  {
    if !Scanned(p).value.1.tsig {
      PreparedSays(p, level, size, local);
      if level.Udp? { UdpTwice(p, size, local); } else { LastLevelIff(p, level, size, level, size, local); }
    }
  }

  // ----- Responses ----------------------------------------------------------------------------------------

  lemma ServfailOctets(b: seq<Byte>, start: nat)
    requires |b| >= 12 && 12 <= start <= |b|
    ensures var q := AsServfail(b);
            && |q| == |b| && q[..3] == b[..3] && q[12..] == b[12..] && q[start..] == b[start..] && q[12..start] == b[12..start]
            && Questions(q) == Questions(b) && First(q) == First(b) && Total(q) == Total(b)
  {
  }

  lemma ServfailScanned(b: seq<Byte>, start: nat, ts: seq<Record>)
    requires Scanned(b).Some? && |b| >= 12 && Scanned(b).value.0 == start && 12 <= start <= |b|
    requires Reads(b, start, ts) && |ts| == Total(b) && Fine(ts, First(b), None)
    ensures var q := AsServfail(b);
            && Scanned(q).Some? && Scanned(q).value.0 == start && Scanned(q).value.1.opt.None? && Reads(q, start, ts)
  {
    var q := AsServfail(b);
    ServfailOctets(b, start);
    SliceSame(b, q, 12, start);
    QuestionsSame(b, q, Questions(b), start - 12);
    ScanFinds(q, start, ts, First(q), None);
  }

  lemma ServfailAgrees(p: seq<Byte>, b: seq<Byte>, from: nat, limit: nat)
    requires Agree(p, b, from, limit) && from >= 3 && 12 <= limit && |b| >= 12
    ensures Agree(p, AsServfail(b), 3, limit)
  {
    ServfailOctets(b, limit);
    var n := Min(from, limit);
    assert p[..3] == p[..n][..3] && b[..3] == b[..n][..3];
  }

  lemma KnownFine(start: nat, ts: seq<Record>, first: nat, s: Scan)
    requires AreRecords(ts) && Knows(start, ts, |ts|, first, s) && s.opt.None?
    ensures Fine(ts, first, None)
  {
  }

  lemma ServfailFacts(p: seq<Byte>, b: seq<Byte>, q: seq<Byte>) returns (ts: seq<Record>)
    requires Scanned(p).Some? && |p| >= 12 && Scanned(p).value.1.opt.Some?
    requires RemoveOpt(p, Scanned(p).value.1.opt.value) == Some(b) && |b| >= 12 && q == AsServfail(b)
    ensures var (start, s) := Scanned(p).value;
            && |q| >= 12 && Scanned(q).Some? && Scanned(q).value.0 == start && Scanned(q).value.1.opt.None?
            && Questions(q) == Questions(p) && SameQuestions(p, q, start) && |ts| == Total(q) && Reads(q, start, ts)
            && Edited(RecordsOf(p), ts, s.opt.value.index, 1, 0) && 12 <= s.opt.value.start
  {
    var (start, s) := Scanned(p).value;
    var rs := HeldFacts(p);
    ts := RemoveKeeps(p, rs, start, s.opt.value, b);
    KeptFacts(p, rs, b, ts, None);
    KnownFine(start, ts, First(p), Scanned(b).value.1);
    ServfailOctets(b, start);
    ServfailScanned(b, start, ts);
    EditedRemoved(rs, s.opt.value.index, ts);
  }

  lemma ServfailSays(p: seq<Byte>, b: seq<Byte>, q: seq<Byte>, local: LocalCheck)
    requires Scanned(p).Some? && Parses(p, local) && Scanned(p).value.1.opt.Some?
    requires RemoveOpt(p, Scanned(p).value.1.opt.value) == Some(b) && |b| >= 12 && q == AsServfail(b)
    requires MessageSettled(p, 3, Room(p, Scanned(p).value.1.opt))
    ensures Scanned(q).Some? && Scanned(q).value.1.opt.None? && Parses(q, local) && SaysSame(p, q)
  {
    var span := Scanned(p).value.1.opt.value;
    var rs := HeldFacts(p);
    var ts := ServfailFacts(p, b, q);
    RemovedAgrees(p, span, b);
    ServfailAgrees(p, b, Touched(Additional(p), Additional(p) - 1), span.start);
    RewritingSays(p, q, rs, ts, span.index, 1, 0, 3, local);
  }

  /**
   * No name of the response reads, through a pointer, what taking out its OPT record changes or
   * moves: with an extended response code the header's own code changes as well.
   */
  predicate ResponseGuarded(p: seq<Byte>)
    requires Scanned(p).Some?
  {
    var opt := Scanned(p).value.1.opt;
    || opt.None?
    || (&& RecordEnd(p, opt.value.start).Some?
        && MessageSettled(p, if FullRcode(p, opt.value.start) > 15 then 3 else Touched(Additional(p), Additional(p) - 1),
                          Room(p, opt)))
  }

  /** The response a client without EDNS gets has no OPT record, asks the same and says the same. */
  lemma ClientResponseSays(query: seq<Byte>, response: seq<Byte>, local: LocalCheck)
    requires ClientResponse(query, response, local).Some?
    requires !Scanned(query).value.1.tsig && Scanned(query).value.1.opt.None? && ResponseGuarded(response)
    ensures var out := ClientResponse(query, response, local).value;
            && Scanned(out).Some? && Scanned(out).value.1.opt.None? && Parses(out, local) && SaysSame(response, out)
  {
    var opt := Scanned(response).value.1.opt;
    if opt.Some? {
      var bare := RemoveOpt(response, opt.value).value;
      if FullRcode(response, opt.value.start) > 15 {
        ServfailSays(response, bare, AsServfail(bare), local);
      } else {
        RemovedSays(response, bare, local);
        var rs := HeldFacts(response);
        var ts := RemoveKeeps(response, rs, Scanned(response).value.0, opt.value, bare);
      }
    }
  }
}

/**
 * How far the laws of preparing a query reach: the guard on its names is exact where an OPT
 * record is added, holds of every query written without pointers, and is needed.
 */
module EdnsLimits {
  import opened Bytes
  import opened NameChain
  import opened DnsRecords
  import opened NameReading
  import opened OptRecord
  import opened WireSections
  import opened EdnsScan
  import opened Edns
  import opened EdnsNames
  import FeatureLadder

  // ----- Adding an OPT record: the guard is exact -------------------------------------------------------

  lemma {:induction false} RecordsTakeRoom(rs: seq<Record>, k: nat)
    requires AreRecords(rs) && k <= |rs|
    ensures |Between(rs, 0, k)| >= 11 * k
  {
    if k > 0 {
      RecordsTakeRoom(rs, k - 1);
      RecordEndBounds(rs[k - 1], 0);
    }
  }

  /** A message has too few octets for its count to look like a pointer. */
  lemma FewRecords(p: seq<Byte>)
    requires Scanned(p).Some? && |p| <= 65535
    ensures |p| >= 12 && Additional(p) < 192 * 256
  {
    var rs := HeldFacts(p);
    RecordsTakeRoom(rs, |rs|);
    assert |p[Scanned(p).value.0..]| == |Between(rs, 0, |rs|)|;
  }

  lemma CountGoesUp(p: seq<Byte>, r: seq<Byte>, q: seq<Byte>)
    requires |p| >= 12 && Additional(p) < 192 * 256 && Additional(p) % 256 != 255
    requires q == WithAdditional(p + r, Additional(p) + 1)
    ensures CountedUp(p, q)
  {
    var n := Additional(p);
    assert q[10] as int == (n + 1) / 256 && q[11] as int == (n + 1) % 256;
    forall i | 0 <= i < |p| && i != 11 ensures p[i] == q[i] {
      if i < 10 { assert q[i] == (p + r)[..10][i]; } else if i > 11 { assert q[i] == (p + r)[12..][i - 12]; }
    }
  }

  lemma AppendCounts(p: seq<Byte>, r: seq<Byte>, q: seq<Byte>)
    requires Scanned(p).Some? && |p| >= 12 && AppendOpt(p, r) == Some(q) && Additional(p) % 256 != 255
    ensures CountedUp(p, q)
  {
    FewRecords(p);
    CountGoesUp(p, r, q);
  }

  lemma {:induction false} SomesAll<T>(xs: seq<Option<T>>, n: nat, i: nat)
    requires n <= |xs| && forall j | 0 <= j < n :: xs[j].Some?
    ensures |Somes(xs, n)| == n && (i < n ==> Somes(xs, n)[i] == xs[i].value)
  {
    if n > 0 { SomesAll(xs, n - 1, i); }
  }

  lemma EntryListed(p: seq<Byte>, start: nat, rs: seq<Record>, n: nat, i: nat)
    requires AreRecords(rs) && n <= |rs| && OptIs(rs, n, None) && i < n
    ensures |Somes(Entries(p, start, rs), n)| == n
    ensures Somes(Entries(p, start, rs), n)[i] == Tells(p, Offset(start, rs, i), rs[i])
  {
    var x := Entries(p, start, rs);
    forall j | 0 <= j < n ensures x[j].Some? { assert !IsOpt(rs[j]); }
    SomesAll(x, n, i);
  }

  lemma LastGone<T>(xs: seq<Option<T>>, n: nat, m: nat)
    requires |xs| == n + 1 == m && xs[n].None?
    ensures Somes(xs, m) == Somes(xs, n)
  {
  }

  lemma ListsAre(q: seq<Byte>, start: nat, ts: seq<Record>, n: nat)
    requires AreRecords(ts) && |ts| == n + 1 && IsOpt(ts[n])
    ensures |Entries(q, start, ts)| == n + 1 && Lists(q, start, ts) == Somes(Entries(q, start, ts), n)
  {
    EntryGone(q, start, ts, n);
    LastGone(Entries(q, start, ts), n, |ts|);
  }

  lemma OptAtEnd(rs: seq<Record>, ts: seq<Record>)
    requires AreRecords(rs) && AreRecords(ts) && Edited(rs, ts, |rs|, 0, 1) && OptIs(rs, |rs|, None)
    ensures |ts| == |rs| + 1 && OptIs(ts, |rs|, None) && IsOpt(ts[|rs|])
  {
    forall i | 0 <= i < |rs| ensures !IsOpt(ts[i]) { assert ts[i] == rs[i]; }
  }

  lemma ListedBefore(q: seq<Byte>, start: nat, ts: seq<Record>, n: nat, i: nat)
    requires AreRecords(ts) && |ts| == n + 1 && OptIs(ts, n, None) && IsOpt(ts[n]) && i < n
    ensures |Lists(q, start, ts)| == n && Lists(q, start, ts)[i] == Tells(q, Offset(start, ts, i), ts[i])
  {
    ListsAre(q, start, ts, n);
    EntryListed(q, start, ts, n, i);
  }

  lemma SameTells(p: seq<Byte>, start: nat, rs: seq<Record>, ts: seq<Record>, i: nat)
    requires AreRecords(rs) && AreRecords(ts) && Edited(rs, ts, |rs|, 0, 1) && i < |rs|
    ensures |ts| == |rs| + 1 && Tells(p, Offset(start, ts, i), ts[i]) == Tells(p, Offset(start, rs, i), rs[i])
  {
    assert ts[i] == rs[i];
    OffsetBefore(start, rs, ts, |rs|, i);
  }

  /** Messages whose records, but for an OPT record at the end, are the same and say the same. */
  lemma ListedAlike(p: seq<Byte>, q: seq<Byte>, start: nat, rs: seq<Record>, ts: seq<Record>, i: nat)
    requires AreRecords(rs) && AreRecords(ts) && Edited(rs, ts, |rs|, 0, 1) && OptIs(rs, |rs|, None) && i < |rs|
    requires Lists(q, start, ts) == Lists(p, start, rs)
    ensures Tells(q, Offset(start, rs, i), rs[i]) == Tells(p, Offset(start, rs, i), rs[i])
  {
    OptAtEnd(rs, ts);
    ListedBefore(q, start, ts, |rs|, i);
    EntryListed(p, start, rs, |rs|, i);
    SameTells(q, start, rs, ts, i);
  }

  lemma NamesAlike(p: seq<Byte>, q: seq<Byte>, at: nat, names: seq<nat>, j: nat)
    requires NamesIn(q, at, names) == NamesIn(p, at, names) && j < |names|
    ensures NameAt(q, at + names[j]) == NameAt(p, at + names[j])
  {
    assert NamesIn(q, at, names)[j] == NamesIn(p, at, names)[j];
  }

  lemma NameMustSettle(p: seq<Byte>, q: seq<Byte>, at: nat, names: seq<nat>, j: nat)
    requires CountedUp(p, q) && at >= 12 && j < |names|
    requires NamesRead(p, at, names) && NamesIn(q, at, names) == NamesIn(p, at, names)
    ensures SettledAt(p, at + names[j], 11, |p|)
  {
    NamesAlike(p, q, at, names, j);
    assert NameAt(p, at + names[j]).Some?;
    CountedNameIff(p, q, at + names[j]);
  }

  lemma RecordMustSettle(p: seq<Byte>, q: seq<Byte>, start: nat, rs: seq<Record>, i: nat, local: LocalCheck)
    requires CountedUp(p, q) && start >= 12 && AreRecords(rs) && i < |rs| && SoundAt(p, start, rs, i, local)
    requires Tells(q, Offset(start, rs, i), rs[i]) == Tells(p, Offset(start, rs, i), rs[i])
    ensures RecordSettled(p, start, rs, i, 11, |p|)
  {
    var at, names := Offset(start, rs, i), Names(rs[i]);
    forall j | 0 <= j < |names| ensures SettledAt(p, at + names[j], 11, |p|) { NameMustSettle(p, q, at, names, j); }
  }

  lemma {:induction false} QuestionsMustSettle(p: seq<Byte>, q: seq<Byte>, k: nat, start: nat)
    requires CountedUp(p, q) && QuestionsRead(p, k) && QuestionsEnd(p, k).value <= start && SameQuestions(p, q, start)
    requires QuestionsEnd(q, k) == QuestionsEnd(p, k) && Asks(q, k) == Asks(p, k)
    ensures QuestionsSettled(p, k, 11, |p|)
    decreases k
  {
    if k > 0 {
      QuestionBefore(p, k);
      var at := QuestionsEnd(p, k - 1).value;
      SameBefore(p, q, k, start);
      LastOf(Asks(p, k - 1), AskedAt(p, at), Asks(q, k - 1), AskedAt(q, at));
      QuestionsMustSettle(p, q, k - 1, start);
      CountedNameIff(p, q, at);
    }
  }

  lemma SameBefore(p: seq<Byte>, q: seq<Byte>, k: nat, start: nat)
    requires |p| >= 12 && k > 0 && QuestionsEnd(p, k).Some? && QuestionsEnd(p, k).value <= start && SameQuestions(p, q, start)
    ensures QuestionsEnd(p, k - 1).Some? && QuestionsEnd(q, k - 1) == QuestionsEnd(p, k - 1)
  {
    QuestionBefore(p, k);
    SliceSame(p, q, 12, start);
    QuestionsSame(p, q, k - 1, start - 12);
  }

  lemma LastOf<T>(x: seq<T>, a: T, y: seq<T>, b: T)
    requires x + [a] == y + [b]
    ensures x == y && a == b
  {
    assert (x + [a])[..|x|] == x && (y + [b])[..|y|] == y;
    assert (x + [a])[|x|] == a && (y + [b])[|y|] == b;
    assert |x + [a]| == |y + [b]|;
  }

  lemma RecordsMustSettle(p: seq<Byte>, q: seq<Byte>, start: nat, rs: seq<Record>, ts: seq<Record>, local: LocalCheck)
    requires CountedUp(p, q) && start >= 12 && AreRecords(rs) && AreRecords(ts) && AllSoundAt(p, start, rs, local)
    requires Edited(rs, ts, |rs|, 0, 1) && OptIs(rs, |rs|, None) && Lists(q, start, ts) == Lists(p, start, rs)
    ensures RecordsSettled(p, start, rs, 11, |p|)
  {
    forall i | 0 <= i < |rs| ensures RecordSettled(p, start, rs, i, 11, |p|) {
      ListedAlike(p, q, start, rs, ts, i);
      assert SoundAt(p, start, rs, i, local);
      RecordMustSettle(p, q, start, rs, i, local);
    }
  }

  lemma AppendMustSettle(p: seq<Byte>, r: Record, q: seq<Byte>, local: LocalCheck)
    requires Scanned(p).Some? && Parses(p, local) && Scanned(p).value.1.opt.None? && Insertable(r)
    requires AppendOpt(p, r) == Some(q) && Additional(p) % 256 != 255 && Scanned(q).Some? && SaysSame(p, q)
    ensures MessageSettled(p, 11, |p|)
  {
    var start := Scanned(p).value.0;
    var rs := HeldFacts(p);
    var ts := AppendKeeps(p, rs, start, r, q);
    KeptFacts(p, rs, q, ts, Some(|rs|));
    RecordsAre(q, ts);
    EditedAppended(rs, r, ts);
    AppendCounts(p, r, q);
    forall i | 0 <= i < |rs| ensures SoundAt(p, start, rs, i, local) { ParsedSound(p, start, rs, local, i); }
    RecordsMustSettle(p, q, start, rs, ts, local);
    QuestionsMustSettle(p, q, Questions(p), start);
  }

  lemma AppendScanned(p: seq<Byte>, r: Record, q: seq<Byte>)
    requires Scanned(p).Some? && |p| >= 12 && Scanned(p).value.1.opt.None? && Insertable(r) && AppendOpt(p, r) == Some(q)
    ensures Scanned(q).Some?
  {
    var rs := HeldFacts(p);
    var ts := AppendKeeps(p, rs, Scanned(p).value.0, r, q);
  }

  lemma AppendSaysIff(p: seq<Byte>, r: Record, q: seq<Byte>, local: LocalCheck)
    requires Scanned(p).Some? && Parses(p, local) && Scanned(p).value.1.opt.None? && Insertable(r)
    requires AppendOpt(p, r) == Some(q) && Additional(p) % 256 != 255
    ensures Scanned(q).Some? && (Parses(q, local) && SaysSame(p, q) <==> MessageSettled(p, 11, |p|))
  {
    AppendScanned(p, r, q);
    assert Touched(Additional(p), Additional(p) + 1) == 11;
    if MessageSettled(p, 11, |p|) {
      AppendedSays(p, r, q, local);
    } else if SaysSame(p, q) {
      AppendMustSettle(p, r, q, local);
    }
  }

  /**
   * A query that had no OPT record parses and says the same with one exactly when none of its
   * names reads the low octet of the additional count.
   */
  lemma AddedSaysIff(p: seq<Byte>, level: Level, size: Word, local: LocalCheck)
    requires Prepare(p, level, size, local).Some? && !Scanned(p).value.1.tsig
    requires Scanned(p).value.1.opt.None? && !level.Udp? && Additional(p) % 256 != 255
    ensures var q := Prepare(p, level, size, local).value.packet;
            Scanned(q).Some? && (Parses(q, local) && SaysSame(p, q) <==> MessageSettled(p, 11, |p|))
  {
    OurOpt(level, size);
    AppendSaysIff(p, OptBytes(QueryOpt(level, size)), Prepare(p, level, size, local).value.packet, local);
  }

  // ----- Queries without pointers ------------------------------------------------------------------------

  predicate OnlyLabels(c: seq<Cell>, t: Trail) { t.Goes? ==> CellOf(c, t.at).Label? && OnlyLabels(c, t.rest) }

  /** The name at `at` is written out, without a pointer. */
  predicate WrittenOut(p: seq<Byte>, at: nat) { TrailAt(p, at).Some? && OnlyLabels(Cells(p), TrailAt(p, at).value) }

  lemma {:induction false} LabelsSettle(c: seq<Cell>, t: Trail, from: nat, limit: nat)
    requires OnlyLabels(c, t)
    ensures Settled(c, t, from, limit)
  {
    if t.Goes? { LabelsSettle(c, t.rest, from, limit); }
  }

  lemma OneQuestion(p: seq<Byte>)
    requires QueryHeader(p) && Scanned(p).Some?
    ensures Questions(p) == 1 && QuestionsEnd(p, 0) == Some(12) && QuestionsEnd(p, 1).Some?
  {
  }

  /**
   * An ordinary query, whose question is written out and whose records are OPT records at most,
   * may be prepared for any level.
   */
  lemma OrdinaryIsGuarded(p: seq<Byte>, level: Level)
    requires QueryHeader(p) && Scanned(p).Some? && WrittenOut(p, 12) && forall i | 0 <= i < |RecordsOf(p)| :: IsOpt(RecordsOf(p)[i])
    ensures Guarded(p, level)
  {
    var opt := Scanned(p).value.1.opt;
    var from, limit := Touched(Additional(p), CountAfter(p, opt, level)), Room(p, opt);
    OneQuestion(p);
    LabelsSettle(Cells(p), TrailAt(p, 12).value, from, limit);
    assert QuestionsSettled(p, 0, from, limit);
    var rs, start := RecordsOf(p), Scanned(p).value.0;
    forall i | 0 <= i < |rs| ensures RecordSettled(p, start, rs, i, from, limit) {
      assert IsOpt(RecordsOf(p)[i]);
    }
  }
}

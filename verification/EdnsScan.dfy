/** `scan_packet`: finding the OPT record of a message, and whether the message is signed. */
module EdnsScan {
  import opened Bytes
  import opened DnsRecords
  import opened NameReading
  import opened OptRecord
  import opened WireSections

  datatype Span = Span(index: nat, start: nat, end: nat)

  datatype Scan = Scan(offset: nat, opt: Option<Span>, tsig: bool)

  function RdataAt(p: seq<Byte>, at: nat): seq<Byte>
    requires RecordEnd(p, at).Some?
  {
    p[NameEnd(p, at).value + 10..RecordEnd(p, at).value]
  }

  /** The scan past one more record; None where the source reports an error. */
  function ScanOne(p: seq<Byte>, first: nat, index: nat, s: Scan): Option<Scan> {
    var end := RecordEnd(p, s.offset);
    if end.None? || !LegalAt(p, s.offset) then None
    else if TypeAt(p, s.offset) == TYPE_OPT then
      if index < first || !RootAt(p, s.offset) || s.opt.Some? || OptionsOf(RdataAt(p, s.offset)).None? then None
      else Some(Scan(end.value, Some(Span(index, s.offset, end.value)), s.tsig))
    else Some(Scan(end.value, s.opt, s.tsig || TypeAt(p, s.offset) == TYPE_TSIG))
  }

  function ScanTo(p: seq<Byte>, start: nat, first: nat, k: nat): Option<Scan> {
    if k == 0 then Some(Scan(start, None, false))
    else
      var before := ScanTo(p, start, first, k - 1);
      if before.None? then None else ScanOne(p, first, k - 1, before.value)
  }

  lemma {:induction false} ScanFailsOn(p: seq<Byte>, start: nat, first: nat, k: nat, n: nat)
    requires k <= n && ScanTo(p, start, first, k).None?
    ensures ScanTo(p, start, first, n).None?
  {
    if k < n { ScanFailsOn(p, start, first, k, n - 1); }
  }

  /** What the scan of a whole message finds, with the offset of the first record. */
  function Scanned(p: seq<Byte>): Option<(nat, Scan)> {
    if |p| < 12 || QuestionsEnd(p, Questions(p)).None? then None
    else
      var start := QuestionsEnd(p, Questions(p)).value;
      var s := ScanTo(p, start, First(p), Total(p));
      if s.None? || s.value.offset != |p| then None else Some((start, s.value))
  }

  /** `scan_packet`, which parses every question and record on its way. */
  method ScanPacket(p: seq<Byte>, local: LocalCheck) returns (r: Option<(nat, Scan)>)
    ensures r == if Parses(p, local) then Scanned(p) else None
  {
    if |p| < 12 { return None; }
    var questions := ParseQuestions(p);
    if questions.None? { return None; }
    var start := questions.value;
    var scan := Scan(start, None, false);
    ghost var items: seq<Item> := [];
    for k := 0 to Total(p)
      invariant Upto(p, start, First(p), k, scan, items, local)
    {
      var next := ParseAndScan(p, First(p), k, scan, local);
      if next.None? {
        if ScanOne(p, First(p), k, scan).None? {
          StoppedScan(p, start, First(p), k, Total(p), scan);
        } else {
          UptoUnsound(p, start, First(p), k, Total(p), scan, items, local);
        }
        return None;
      }
      UptoMore(p, start, First(p), k, scan, items, next.value.1, next.value.0, local);
      items, scan := items + [next.value.0], next.value.1;
    }
    if scan.offset != |p| { return None; }
    return Some((start, scan));
  }

  /** What the loop has found after `k` records. */
  ghost predicate Upto(p: seq<Byte>, start: nat, first: nat, k: nat, s: Scan, items: seq<Item>, local: LocalCheck) {
    && ScanTo(p, start, first, k) == Some(s) && RecordsTo(p, start, k) == Some(items)
    && s.offset == NextAt(start, items) && AllSound(p, items, local)
  }

  lemma UptoMore(p: seq<Byte>, start: nat, first: nat, k: nat, s: Scan, items: seq<Item>, t: Scan, f: Item, local: LocalCheck)
    requires Upto(p, start, first, k, s, items, local) && ScanOne(p, first, k, s) == Some(t)
    requires f.at == s.offset && RecordAt(p, f.at) == Some(f.r) && Sound(p, f, local) && t.offset == f.at + |f.r|
    ensures Upto(p, start, first, k + 1, t, items + [f], local)
  {
    SoundToo(p, items, f, local);
  }

  lemma StoppedScan(p: seq<Byte>, start: nat, first: nat, k: nat, n: nat, s: Scan)
    requires k < n && ScanTo(p, start, first, k) == Some(s) && ScanOne(p, first, k, s).None?
    ensures ScanTo(p, start, first, n).None?
  {
    assert ScanTo(p, start, first, k + 1).None?;
    ScanFailsOn(p, start, first, k + 1, n);
  }

  lemma UptoUnsound(p: seq<Byte>, start: nat, first: nat, k: nat, n: nat, s: Scan, items: seq<Item>, local: LocalCheck)
    requires k < n && Upto(p, start, first, k, s, items, local)
    requires RecordAt(p, s.offset).None? || !Sound(p, Item(s.offset, RecordAt(p, s.offset).value), local)
    ensures RecordsTo(p, start, n).None? || !AllSound(p, RecordsTo(p, start, n).value, local)
  {
    Rejected(p, start, items, k, n, local);
  }

  /** One turn of the scan's loop. */
  method ParseAndScan(p: seq<Byte>, first: nat, index: nat, s: Scan, local: LocalCheck) returns (r: Option<(Item, Scan)>)
    ensures r.Some? ==> r.value.0.at == s.offset && RecordAt(p, s.offset) == Some(r.value.0.r) && Sound(p, r.value.0, local)
    ensures r.Some? ==> ScanOne(p, first, index, s) == Some(r.value.1) && r.value.1.offset == s.offset + |r.value.0.r|
    ensures r.None? ==> ScanOne(p, first, index, s).None? || RecordAt(p, s.offset).None? ||
                        !Sound(p, Item(s.offset, RecordAt(p, s.offset).value), local)
  {
    var item := ParseRecord(p, s.offset, local);
    if item.None? { return None; }
    OwnerReads(p, item.value, local);
    var next := ScanRecord(p, first, index, s);
    if next.None? { return None; }
    ScanMoves(p, first, index, s);
    return Some((item.value, next.value));
  }

  lemma OwnerReads(p: seq<Byte>, f: Item, local: LocalCheck)
    requires Sound(p, f, local)
    ensures NameAt(p, f.at).Some?
  {
    assert NameAt(p, f.at + Names(f.r)[0]).Some?;
  }

  lemma ScanMoves(p: seq<Byte>, first: nat, index: nat, s: Scan)
    requires ScanOne(p, first, index, s).Some? && RecordAt(p, s.offset).Some?
    ensures ScanOne(p, first, index, s).value.offset == s.offset + |RecordAt(p, s.offset).value|
  {
    RecordEndBounds(p, s.offset);
  }

  /** What the scan makes of a record that parses. */
  method ScanRecord(p: seq<Byte>, first: nat, index: nat, s: Scan) returns (r: Option<Scan>)
    requires NameAt(p, s.offset).Some?
    ensures r == ScanOne(p, first, index, s)
  {
    var end := RecordEnd(p, s.offset);
    if end.None? || !LegalAt(p, s.offset) { return None; }
    if TypeAt(p, s.offset) == TYPE_OPT {
      if index < first { return None; }
      var owner := ReadName(p, s.offset);
      RootReads(p, s.offset);
      if owner.value.0 != [0] || s.opt.Some? { return None; }
      RecordEndBounds(p, s.offset);
      var options := ParseOptions(RdataAt(p, s.offset));
      if options.None? { return None; }
      return Some(s.(offset := end.value, opt := Some(Span(index, s.offset, end.value))));
    }
    return Some(s.(offset := end.value, tsig := s.tsig || TypeAt(p, s.offset) == TYPE_TSIG));
  }

  // ----- What the scan says about the records ------------------------------------------------------

  predicate IsOpt(r: Record) requires IsRecord(r) { TypeOf(r) == TYPE_OPT }

  function Rdata(r: Record): seq<Byte> requires IsRecord(r) { RdataAt(r, 0) }

  /** Among the first `k` records exactly the one at `opt`, if any, is an OPT record. */
  predicate OptIs(rs: seq<Record>, k: nat, opt: Option<nat>)
    requires AreRecords(rs) && k <= |rs|
  {
    forall i | 0 <= i < k :: IsOpt(rs[i]) <==> opt == Some(i)
  }

  predicate HasTsig(rs: seq<Record>, k: nat)
    requires AreRecords(rs) && k <= |rs|
  {
    k > 0 && (HasTsig(rs, k - 1) || TypeOf(rs[k - 1]) == TYPE_TSIG)
  }

  function IndexOf(opt: Option<Span>): Option<nat> { if opt.Some? then Some(opt.value.index) else None }

  /** The span is the place of its record. */
  predicate Places(start: nat, rs: seq<Record>, span: Span) {
    && span.index < |rs| && span.start == start + |Between(rs, 0, span.index)|
    && span.end == span.start + |rs[span.index]|
  }

  lemma SameSlice(p: seq<Byte>, at: nat, r: seq<Byte>, a: nat, b: nat)
    requires HasAt(p, at, r) && a <= b <= |r|
    ensures p[at + a..at + b] == r[a..b]
  {
    forall i | 0 <= i < b - a ensures p[at + a..at + b][i] == r[a..b][i] { assert p[at..at + |r|][a + i] == r[a + i]; }
  }

  /** A record looks in the message as it does alone. */
  lemma LooksAlike(p: seq<Byte>, at: nat, r: Record)
    requires HasAt(p, at, r) && IsRecord(r)
    ensures RecordEnd(p, at) == Some(at + |r|) && TypeAt(p, at) == TypeOf(r)
    ensures LegalAt(p, at) == Legal(r) && RdataAt(p, at) == Rdata(r)
    ensures p[at] == r[0]
  {
    RecordInPlace(p, at, r);
    RecordEndBounds(r, 0);
    SameHasAt(p, at, r);
    SameWord(r, 0, p, at, |r|, NameEnd(r, 0).value + 2);
    SameSlice(p, at, r, NameEnd(r, 0).value + 10, |r|);
  }

  /** The effect on a scan of passing record `k`. */
  predicate Passes(start: nat, rs: seq<Record>, k: nat, first: nat, s: Scan, t: Scan)
    requires AreRecords(rs) && k < |rs|
  {
    && Legal(rs[k]) && t.offset == start + |Between(rs, 0, k + 1)|
    && if IsOpt(rs[k]) then
         k >= first && s.opt.None? && t.tsig == s.tsig && t.opt == Some(Span(k, s.offset, s.offset + |rs[k]|))
       else t.opt == s.opt && t.tsig == (s.tsig || TypeOf(rs[k]) == TYPE_TSIG)
  }

  /** Why the scan stops at record `k`, at least. */
  predicate Stops(rs: seq<Record>, k: nat, first: nat, s: Scan)
    requires AreRecords(rs) && k < |rs|
  {
    || !Legal(rs[k])
    || (IsOpt(rs[k]) && (k < first || rs[k][0] != 0 || s.opt.Some? || OptionsOf(Rdata(rs[k])).None?))
  }

  lemma ScanOneOf(p: seq<Byte>, start: nat, rs: seq<Record>, k: nat, first: nat, s: Scan)
    requires Reads(p, start, rs) && k < |rs| && s.offset == start + |Between(rs, 0, k)|
    ensures var t := ScanOne(p, first, k, s);
            if t.Some? then Passes(start, rs, k, first, s, t.value) else Stops(rs, k, first, s)
  {
    RecordStands(p, start, rs, k);
    LooksAlike(p, s.offset, rs[k]);
  }

  /** What a scan of `k` records knows. */
  predicate Knows(start: nat, rs: seq<Record>, k: nat, first: nat, s: Scan)
    requires AreRecords(rs) && k <= |rs|
  {
    && s.offset == start + |Between(rs, 0, k)| && s.tsig == HasTsig(rs, k)
    && OptIs(rs, k, IndexOf(s.opt)) && (forall i | 0 <= i < k :: Legal(rs[i]))
    && (s.opt.Some? ==> first <= s.opt.value.index < k && Places(start, rs, s.opt.value))
  }

  lemma KnowsMore(start: nat, rs: seq<Record>, k: nat, first: nat, s: Scan, t: Scan)
    requires AreRecords(rs) && k < |rs| && Knows(start, rs, k, first, s) && Passes(start, rs, k, first, s, t)
    ensures Knows(start, rs, k + 1, first, t)
  {
  }

  lemma {:induction false} ScanKnows(p: seq<Byte>, start: nat, rs: seq<Record>, k: nat, first: nat)
    requires Reads(p, start, rs) && k <= |rs| && ScanTo(p, start, first, k).Some?
    ensures Knows(start, rs, k, first, ScanTo(p, start, first, k).value)
  {
    if k > 0 {
      ScanKnows(p, start, rs, k - 1, first);
      var before := ScanTo(p, start, first, k - 1).value;
      ScanOneOf(p, start, rs, k - 1, first, before);
      KnowsMore(start, rs, k - 1, first, before, ScanTo(p, start, first, k).value);
    }
  }

  /** An OPT record the scan accepts: the root name written out, and options that parse. */
  predicate GoodOpt(r: Record) requires IsRecord(r) { r[0] == 0 && OptionsOf(Rdata(r)).Some? }

  /** Whether the scan finds nothing wrong with these records. */
  predicate Fine(rs: seq<Record>, first: nat, opt: Option<nat>)
    requires AreRecords(rs)
  {
    && (forall i | 0 <= i < |rs| :: Legal(rs[i])) && OptIs(rs, |rs|, opt)
    && (opt.Some? ==> first <= opt.value < |rs| && GoodOpt(rs[opt.value]))
  }

  lemma NothingStops(start: nat, rs: seq<Record>, k: nat, first: nat, opt: Option<nat>, s: Scan)
    requires AreRecords(rs) && k < |rs| && Fine(rs, first, opt) && Knows(start, rs, k, first, s)
    ensures !Stops(rs, k, first, s)
  {
    if IsOpt(rs[k]) {
      assert opt == Some(k);
    }
  }

  lemma OneMore(p: seq<Byte>, start: nat, rs: seq<Record>, k: nat, first: nat, opt: Option<nat>)
    requires Reads(p, start, rs) && k < |rs| && Fine(rs, first, opt) && ScanTo(p, start, first, k).Some?
    ensures ScanOne(p, first, k, ScanTo(p, start, first, k).value).Some?
  {
    var s := ScanTo(p, start, first, k).value;
    ScanKnows(p, start, rs, k, first);
    NothingStops(start, rs, k, first, opt, s);
    ScanOneOf(p, start, rs, k, first, s);
  }

  lemma ScanNext(p: seq<Byte>, start: nat, first: nat, k: nat)
    requires ScanTo(p, start, first, k).Some? && ScanOne(p, first, k, ScanTo(p, start, first, k).value).Some?
    ensures ScanTo(p, start, first, k + 1).Some?
  {
  }

  /** The scan accepts records that are legal, with at most one OPT record, in the additional section. */
  lemma {:induction false} ScanAccepts(p: seq<Byte>, start: nat, rs: seq<Record>, k: nat, first: nat, opt: Option<nat>)
    requires Reads(p, start, rs) && k <= |rs| && Fine(rs, first, opt)
    ensures ScanTo(p, start, first, k).Some?
    decreases k
  {
    if k > 0 {
      ScanAccepts(p, start, rs, k - 1, first, opt);
      OneMore(p, start, rs, k - 1, first, opt);
      ScanNext(p, start, first, k - 1);
    }
  }

  // ----- The records of a scanned message --------------------------------------------------------------

  function Cut(p: seq<Byte>, start: nat, first: nat, k: nat): seq<Record>
    requires start <= |p| && ScanTo(p, start, first, k).Some?
  {
    if k == 0 then []
    else
      var at := ScanTo(p, start, first, k - 1).value.offset;
      RecordEndBounds(p, at);
      Cut(p, start, first, k - 1) + [p[at..RecordEnd(p, at).value]]
  }

  lemma CutNext(p: seq<Byte>, start: nat, at: nat, rs: seq<Record>)
    requires start <= at <= |p| && AreRecords(rs) && Between(rs, 0, |rs|) == p[start..at] && RecordEnd(p, at).Some?
    ensures at <= RecordEnd(p, at).value <= |p|
    ensures var ts := rs + [p[at..RecordEnd(p, at).value]];
            AreRecords(ts) && Between(ts, 0, |ts|) == p[start..RecordEnd(p, at).value]
  {
    RecordCutOut(p, at);
    var end := RecordEnd(p, at).value;
    var ts := rs + [p[at..end]];
    BetweenPrefix(rs, p[at..end], |rs|);
    assert p[start..end] == p[start..at] + p[at..end];
  }

  lemma {:induction false} BetweenPrefix(rs: seq<Record>, r: Record, k: nat)
    requires k <= |rs|
    ensures Between(rs + [r], 0, k) == Between(rs, 0, k)
  {
    if k > 0 { BetweenPrefix(rs, r, k - 1); }
  }

  lemma {:induction false} CutReads(p: seq<Byte>, start: nat, first: nat, k: nat)
    requires start <= |p| && ScanTo(p, start, first, k).Some?
    ensures var rs, at := Cut(p, start, first, k), ScanTo(p, start, first, k).value.offset;
            |rs| == k && AreRecords(rs) && start <= at <= |p| && Between(rs, 0, |rs|) == p[start..at]
  {
    if k > 0 {
      CutReads(p, start, first, k - 1);
      CutNext(p, start, ScanTo(p, start, first, k - 1).value.offset, Cut(p, start, first, k - 1));
    }
  }

  lemma {:induction false} QuestionsBounds(p: seq<Byte>, k: nat)
    requires |p| >= 12 && QuestionsEnd(p, k).Some?
    ensures 12 <= QuestionsEnd(p, k).value <= |p|
  {
    if k > 0 {
      QuestionsBounds(p, k - 1);
      NameEndBounds(p, QuestionsEnd(p, k - 1).value);
    }
  }

  /** An accepted message is a header, its questions, and the records the scan describes. */
  lemma ScannedReads(p: seq<Byte>) returns (rs: seq<Record>)
    requires Scanned(p).Some?
    ensures |p| >= 12 && 12 <= Scanned(p).value.0 <= |p| && |rs| == Total(p)
    ensures rs == Cut(p, Scanned(p).value.0, First(p), Total(p))
    ensures Reads(p, Scanned(p).value.0, rs) && Knows(Scanned(p).value.0, rs, |rs|, First(p), Scanned(p).value.1)
  {
    var start := Scanned(p).value.0;
    QuestionsBounds(p, Questions(p));
    CutReads(p, start, First(p), Total(p));
    rs := Cut(p, start, First(p), Total(p));
    assert p[start..|p|] == p[start..];
    ScanKnows(p, start, rs, |rs|, First(p));
  }
}

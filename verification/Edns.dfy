/**
 * Rewriting the OPT record of queries and responses: one EDNS record of our own, or none,
 * and every other octet of the message as it was.
 */
module Edns {
  import opened Bytes
  import opened DnsRecords
  import opened NameReading
  import opened OptRecord
  import opened WireSections
  import opened EdnsScan
  import FeatureLadder

  type Level = FeatureLadder.Level

  predicate DnssecLevel(l: Level) { l.DnssecOk? || l.TlsDnssecOk? }

  /** The algorithms of RFC 6975 the resolver understands. */
  function Rfc6975Options(): (os: seq<EdnsOption>)
    ensures AllFit(os)
  {
    [EdnsOption(5, [5, 7, 8, 10, 13, 14]), EdnsOption(6, [1, 2, 4]), EdnsOption(7, [1])]
  }

  function QueryOpt(level: Level, size: Word): (o: Opt)
    ensures Encodable(o)
  {
    var os := if DnssecLevel(level) then Rfc6975Options() else [];
    OptionsSize(os);
    Opt(Max(size, 512), 0, 0, if DnssecLevel(level) then DNSSEC_OK else 0, os)
  }

  lemma OptionsSize(os: seq<EdnsOption>)
    requires os == [] || os == Rfc6975Options()
    ensures AllFit(os) && |OptionsBytes(os, |os|)| <= 22
  {
    if os != [] {
      assert |OptionsBytes(os, 1)| == 10;
      assert |OptionsBytes(os, 2)| == 17;
      assert |OptionsBytes(os, 3)| == 22;
    }
  }

  /** The octets with the span replaced; None beyond the size of a message. */
  function ReplaceSpan(p: seq<Byte>, a: nat, b: nat, x: seq<Byte>): Option<seq<Byte>> {
    if a > b || b > |p| || |p| - (b - a) + |x| > 65535 then None else Some(p[..a] + x + p[b..])
  }

  function WithAdditional(p: seq<Byte>, n: Word): seq<Byte>
    requires |p| >= 12
  {
    p[..10] + WordBytes(n) + p[12..]
  }

  function AppendOpt(p: seq<Byte>, opt: seq<Byte>): Option<seq<Byte>>
    requires |p| >= 12
  {
    if Additional(p) == 65535 || |p| + |opt| > 65535 then None
    else Some(WithAdditional(p + opt, Additional(p) + 1))
  }

  /** The octets without the span: its replacement by nothing. */
  function Excise(p: seq<Byte>, a: nat, b: nat): Option<seq<Byte>> {
    if a > b || b > |p| || |p| - (b - a) > 65535 then None else Some(p[..a] + p[b..])
  }

  lemma ExciseReplaces(p: seq<Byte>, a: nat, b: nat)
    ensures Excise(p, a, b) == ReplaceSpan(p, a, b, [])
  {
    if a <= b <= |p| { assert p[..a] + p[b..] == p[..a] + [] + p[b..]; }
  }

  function RemoveOpt(p: seq<Byte>, span: Span): Option<seq<Byte>>
    requires |p| >= 12
  {
    var out := Excise(p, span.start, span.end);
    if Additional(p) == 0 || out.None? || |out.value| < 12 then None
    else Some(WithAdditional(out.value, Additional(p) - 1))
  }

  /** Our record in the place of the one there is, or at the end. */
  function PutOpt(p: seq<Byte>, opt: Option<Span>, r: seq<Byte>): Option<seq<Byte>>
    requires |p| >= 12
  {
    if opt.Some? then ReplaceSpan(p, opt.value.start, opt.value.end, r) else AppendOpt(p, r)
  }

  datatype Prepared = Prepared(packet: seq<Byte>, sentEdns: bool, managedOpt: bool)

  /** The header of a plain query: not a response, opcode 0, not truncated, one question, no answers. */
  predicate QueryHeader(p: seq<Byte>) {
    |p| >= 12 && p[2] / 8 == 0 && p[2] / 2 % 2 == 0 && WordAt(p, 4) == 1 && WordAt(p, 6) == 0
  }

  predicate ResponseHeader(p: seq<Byte>) {
    |p| >= 12 && p[2] >= 128 && p[2] / 8 % 16 == 0 && WordAt(p, 4) >= 1
  }

  /** The query with its OPT record taken out, or as it is when it has none. */
  function Bare(p: seq<Byte>, opt: Option<Span>): Option<seq<Byte>>
    requires |p| >= 12
  {
    if opt.Some? then RemoveOpt(p, opt.value) else Some(p)
  }

  /** What becomes of a query that is not signed. */
  function Unsigned(p: seq<Byte>, opt: Option<Span>, level: Level, size: Word): Option<Prepared>
    requires |p| >= 12
  {
    var out := if level.Udp? then Bare(p, opt) else PutOpt(p, opt, OptBytes(QueryOpt(level, size)));
    if out.None? then None else Some(Prepared(out.value, !level.Udp?, true))
  }

  /**
   * `prepare_query`: `wire::validate` is the header test and `Parses`.
   */
  function Prepare(p: seq<Byte>, level: Level, size: Word, local: LocalCheck): Option<Prepared> {
    if !QueryHeader(p) || !Parses(p, local) || Scanned(p).None? then None
    else
      var s := Scanned(p).value.1;
      if s.tsig then Some(Prepared(p, s.opt.Some?, false)) else Unsigned(p, s.opt, level, size)
  }

  method PrepareQuery(p: seq<Byte>, level: Level, size: Word, local: LocalCheck) returns (r: Option<Prepared>)
    ensures r == Prepare(p, level, size, local)
  {
    var sections := ParseSections(p, local);
    if sections.None? || !QueryHeader(p) { return None; }
    var layout := ScanPacket(p, local);
    if layout.None? { return None; }
    var s := layout.value.1;
    if s.tsig { return Some(Prepared(p, s.opt.Some?, false)); }
    if level.Udp? {
      if s.opt.None? { return Some(Prepared(p, false, true)); }
      var out := RemoveOpt(p, s.opt.value);
      if out.None? { return None; }
      return Some(Prepared(out.value, false, true));
    }
    var record := EncodeOpt(QueryOpt(level, size));
    var out := PutOpt(p, s.opt, record.value);
    if out.None? { return None; }
    return Some(Prepared(out.value, true, true));
  }

  // ----- Records in and out -----------------------------------------------------------------------

  /** The records that are not OPT records, in order. */
  function Plain(rs: seq<Record>, k: nat): seq<Record>
    requires AreRecords(rs) && k <= |rs|
  {
    if k == 0 then [] else if IsOpt(rs[k - 1]) then Plain(rs, k - 1) else Plain(rs, k - 1) + [rs[k - 1]]
  }

  /** Our record is one record, of type OPT, that the scan accepts. */
  lemma OurOpt(level: Level, size: Word)
    ensures var r := OptBytes(QueryOpt(level, size));
            IsRecord(r) && IsOpt(r) && Legal(r) && GoodOpt(r)
  {
    var o := QueryOpt(level, size);
    var r, rdata := OptBytes(o), OptionsBytes(o.options, |o.options|);
    assert r[0] == 0 && r[1] == 0 && r[2] == 41;
    assert r[3..5] == WordBytes(o.udpPayloadSize) && r[9..11] == WordBytes(|rdata|) && r[11..] == rdata;
    assert NameEnd(r, 0) == Some(1);
    assert WordAt(r, 9) == |rdata| by { assert HasAt(r, 9, WordBytes(|rdata|)); HasWordAt(r, 9, |rdata|); }
    assert WordAt(r, 3) == o.udpPayloadSize by {
      assert HasAt(r, 3, WordBytes(o.udpPayloadSize));
      HasWordAt(r, 3, o.udpPayloadSize);
    }
    assert RecordEnd(r, 0) == Some(|r|);
    assert Rdata(r) == rdata;
    ParseOfEncode(o.options);
  }

  // ----- Splicing ------------------------------------------------------------------------------------

  function Flat(rs: seq<Record>): seq<Byte> { Between(rs, 0, |rs|) }

  lemma {:induction false} BetweenTake(rs: seq<Record>, ts: seq<Record>, k: nat)
    requires k <= |rs|
    ensures Between(rs + ts, 0, k) == Between(rs, 0, k)
  {
    if k > 0 { BetweenTake(rs, ts, k - 1); }
  }

  lemma {:induction false} BetweenDrop(rs: seq<Record>, ts: seq<Record>, k: nat)
    requires k <= |ts|
    ensures Between(rs + ts, |rs|, |rs| + k) == Between(ts, 0, k)
  {
    if k > 0 {
      BetweenDrop(rs, ts, k - 1);
      assert (rs + ts)[|rs| + k - 1] == ts[k - 1];
    }
  }

  lemma FlatAppend(rs: seq<Record>, ts: seq<Record>)
    ensures Flat(rs + ts) == Flat(rs) + Flat(ts)
  {
    BetweenSplit(rs + ts, 0, |rs|, |rs| + |ts|);
    BetweenTake(rs, ts, |rs|);
    BetweenDrop(rs, ts, |ts|);
  }

  /** The records with the one at `k` replaced by `mid`. */
  function Spliced(rs: seq<Record>, k: nat, mid: seq<Record>): seq<Record>
    requires k < |rs|
  {
    rs[..k] + mid + rs[k + 1..]
  }

  lemma FlatSpliced(rs: seq<Record>, k: nat, mid: seq<Record>)
    requires k < |rs|
    ensures Flat(Spliced(rs, k, mid)) == Between(rs, 0, k) + Flat(mid) + Between(rs, k + 1, |rs|)
  {
    FlatAppend(rs[..k] + mid, rs[k + 1..]);
    FlatAppend(rs[..k], mid);
    assert rs == rs[..k] + rs[k..] && rs == rs[..k + 1] + rs[k + 1..];
    BetweenTake(rs[..k], rs[k..], k);
    BetweenDrop(rs[..k + 1], rs[k + 1..], |rs| - (k + 1));
  }

  lemma SplicedRecords(rs: seq<Record>, k: nat, mid: seq<Record>)
    requires AreRecords(rs) && AreRecords(mid) && k < |rs|
    ensures AreRecords(Spliced(rs, k, mid))
  {
  }

  lemma SpliceBytes(p: seq<Byte>, start: nat, x: seq<Byte>, y: seq<Byte>, z: seq<Byte>, m: seq<Byte>)
    requires start <= |p| && p[start..] == x + y + z
    ensures start + |x| + |y| <= |p|
    ensures (p[..start + |x|] + m + p[start + |x| + |y|..])[start..] == x + m + z
  {
    var w := p[start..];
    assert w[..|x|] == x && w[|x| + |y|..] == z;
    assert p[..start + |x|][start..] == x && p[start + |x| + |y|..] == z;
  }

  /** Replacing a record's octets replaces the record. */
  lemma SpliceReads(p: seq<Byte>, start: nat, rs: seq<Record>, k: nat, mid: seq<Record>, a: nat, b: nat)
    requires Reads(p, start, rs) && k < |rs| && AreRecords(mid)
    requires a == start + |Between(rs, 0, k)| && b == a + |rs[k]|
    ensures b <= |p| && Reads(p[..a] + Flat(mid) + p[b..], start, Spliced(rs, k, mid))
  {
    SplicedRecords(rs, k, mid);
    FlatSpliced(rs, k, mid);
    SplicedInto(p, start, rs, k, mid, Spliced(rs, k, mid), a, b);
  }

  lemma SplicedInto(p: seq<Byte>, start: nat, rs: seq<Record>, k: nat, mid: seq<Record>, ts: seq<Record>, a: nat, b: nat)
    requires Reads(p, start, rs) && k < |rs| && AreRecords(ts)
    requires a == start + |Between(rs, 0, k)| && b == a + |rs[k]|
    requires Flat(ts) == Between(rs, 0, k) + Flat(mid) + Between(rs, k + 1, |rs|)
    ensures b <= |p| && Reads(p[..a] + Flat(mid) + p[b..], start, ts)
  {
    BetweenSplit(rs, 0, k + 1, |rs|);
    SpliceBytes(p, start, Between(rs, 0, k), rs[k], Between(rs, k + 1, |rs|), Flat(mid));
  }

  lemma AppendReads(p: seq<Byte>, start: nat, rs: seq<Record>, r: Record)
    requires Reads(p, start, rs) && IsRecord(r)
    ensures Reads(p + r, start, rs + [r])
  {
    FlatAppend(rs, [r]);
    FlatOne(r);
    assert (p + r)[start..] == p[start..] + r;
  }

  lemma CountReads(p: seq<Byte>, start: nat, rs: seq<Record>, n: Word)
    requires |p| >= 12 && start >= 12 && Reads(p, start, rs)
    ensures Reads(WithAdditional(p, n), start, rs)
  {
    assert WithAdditional(p, n)[start..] == p[start..];
  }

  lemma FlatOne(r: Record)
    ensures Flat([r]) == r
  {
    assert Between([r], 0, 0) == [];
    assert [] + r == r;
  }

  // ----- Plain records ----------------------------------------------------------------------------------

  /** `w` is `x` followed by `y`. */
  predicate Joined(x: seq<Record>, y: seq<Record>, w: seq<Record>) {
    && |w| == |x| + |y| && (forall i | 0 <= i < |x| :: w[i] == x[i])
    && (forall i | |x| <= i < |w| :: w[i] == y[i - |x|])
  }

  lemma {:induction false} PlainTake(x: seq<Record>, w: seq<Record>, k: nat)
    requires AreRecords(x) && AreRecords(w) && k <= |x| <= |w| && forall i | 0 <= i < |x| :: w[i] == x[i]
    ensures Plain(w, k) == Plain(x, k)
  {
    if k > 0 { PlainTake(x, w, k - 1); }
  }

  lemma {:induction false} PlainJoined(x: seq<Record>, y: seq<Record>, w: seq<Record>, k: nat)
    requires AreRecords(x) && AreRecords(y) && AreRecords(w) && Joined(x, y, w) && k <= |y|
    ensures Plain(w, |x| + k) == Plain(x, |x|) + Plain(y, k)
  {
    if k == 0 {
      PlainTake(x, w, |x|);
    } else {
      PlainJoined(x, y, w, k - 1);
      Reassociate(Plain(x, |x|), Plain(y, k - 1), [y[k - 1]]);
    }
  }

  lemma Reassociate(a: seq<Record>, b: seq<Record>, c: seq<Record>)
    ensures a + b + c == a + (b + c)
  {
  }

  lemma PlainBoth(x: seq<Record>, y: seq<Record>, w: seq<Record>)
    requires AreRecords(x) && AreRecords(y) && Joined(x, y, w)
    ensures AreRecords(w) && Plain(w, |w|) == Plain(x, |x|) + Plain(y, |y|)
  {
    JoinedRecords(x, y, w);
    PlainJoined(x, y, w, |y|);
  }

  lemma JoinedRecords(x: seq<Record>, y: seq<Record>, w: seq<Record>)
    requires AreRecords(x) && AreRecords(y) && Joined(x, y, w)
    ensures AreRecords(w)
  {
    forall i | 0 <= i < |w| ensures IsRecord(w[i]) {
      if i < |x| { assert w[i] == x[i]; } else { assert w[i] == y[i - |x|]; }
    }
  }

  /** Replacing an OPT record by OPT records, or by nothing, keeps the plain records. */
  lemma PlainSpliced(rs: seq<Record>, k: nat, mid: seq<Record>)
    requires AreRecords(rs) && AreRecords(mid) && k < |rs| && IsOpt(rs[k])
    requires Plain(mid, |mid|) == []
    ensures var ts := Spliced(rs, k, mid); AreRecords(ts) && Plain(ts, |ts|) == Plain(rs, |rs|)
  {
    var x, z := rs[..k], rs[k + 1..];
    PlainMiddle(x, mid, z);
    PlainMiddle(x, [rs[k]], z);
    assert rs == x + [rs[k]] + z;
    PlainNone(rs[k]);
  }

  lemma PlainNone(r: Record)
    requires IsRecord(r) && IsOpt(r)
    ensures Plain([r], 1) == []
  {
    assert Plain([r], 0) == [];
  }

  lemma PlainMiddle(x: seq<Record>, y: seq<Record>, z: seq<Record>)
    requires AreRecords(x) && AreRecords(y) && AreRecords(z)
    ensures AreRecords(x + y + z)
    ensures Plain(x + y + z, |x + y + z|) == Plain(x, |x|) + Plain(y, |y|) + Plain(z, |z|)
  {
    PlainBoth(x, y, x + y);
    PlainBoth(x + y, z, x + y + z);
  }

  /** A signature is a plain record. */
  lemma {:induction false} TsigIsPlain(rs: seq<Record>, k: nat)
    requires AreRecords(rs) && k <= |rs|
    ensures AreRecords(Plain(rs, k)) && HasTsig(rs, k) == HasTsig(Plain(rs, k), |Plain(rs, k)|)
  {
    if k > 0 {
      TsigIsPlain(rs, k - 1);
      var before := Plain(rs, k - 1);
      if !IsOpt(rs[k - 1]) { TsigTake(before, rs[k - 1], |before|); }
    }
  }

  lemma {:induction false} TsigTake(rs: seq<Record>, r: Record, k: nat)
    requires AreRecords(rs) && IsRecord(r) && k <= |rs|
    ensures AreRecords(rs + [r]) && HasTsig(rs + [r], k) == HasTsig(rs, k)
  {
    if k > 0 { TsigTake(rs, r, k - 1); }
  }

  // ----- The rewritten message is read as expected ---------------------------------------------------------

  lemma {:induction false} QuestionsSame(p: seq<Byte>, q: seq<Byte>, k: nat, n: nat)
    requires |p| >= 12 && QuestionsEnd(p, k).Some? && QuestionsEnd(p, k).value <= 12 + n && Same(p, 12, q, 12, n)
    ensures QuestionsEnd(q, k) == QuestionsEnd(p, k)
  {
    if k > 0 {
      var at := QuestionsEnd(p, k - 1).value;
      QuestionsBounds(p, k - 1);
      NameEndBounds(p, at);
      QuestionsSame(p, q, k - 1, n);
      SameRest(p, 12, q, 12, n, at - 12);
      NameIsLocal(p, at, q, at, n - (at - 12));
      SameWord(p, 12, q, 12, n, NameEnd(p, at).value - 12);
    }
  }

  /** `q` has the header of `p`, but for the additional count, and its questions. */
  predicate SameFront(p: seq<Byte>, q: seq<Byte>, start: nat) {
    12 <= start <= |p| && start <= |q| && p[..10] == q[..10] && p[12..start] == q[12..start]
  }

  lemma SliceSame(p: seq<Byte>, q: seq<Byte>, a: nat, b: nat)
    requires a <= b <= |p| && b <= |q| && p[a..b] == q[a..b]
    ensures Same(p, a, q, a, b - a)
  {
    forall i | a <= i < b ensures p[i] == q[i - a + a] { assert p[a..b][i - a] == q[a..b][i - a]; }
  }

  lemma FrontSame(p: seq<Byte>, q: seq<Byte>, start: nat)
    requires |p| >= 12 && QuestionsEnd(p, Questions(p)) == Some(start) && SameFront(p, q, start)
    ensures Questions(q) == Questions(p) && First(q) == First(p) && QuestionsEnd(q, Questions(q)) == Some(start)
  {
    SliceSame(p, q, 0, 10);
    SliceSame(p, q, 12, start);
    SameWord(p, 0, q, 0, 10, 4);
    SameWord(p, 0, q, 0, 10, 6);
    SameWord(p, 0, q, 0, 10, 8);
    QuestionsSame(p, q, Questions(p), start - 12);
  }

  lemma ScanFinds(q: seq<Byte>, start: nat, rs: seq<Record>, first: nat, opt: Option<nat>)
    requires Reads(q, start, rs) && Fine(rs, first, opt)
    ensures var s := ScanTo(q, start, first, |rs|);
            s.Some? && Knows(start, rs, |rs|, first, s.value) && IndexOf(s.value.opt) == opt && s.value.offset == |q|
  {
    ScanAccepts(q, start, rs, |rs|, first, opt);
    ScanKnows(q, start, rs, |rs|, first);
    SameOpt(rs, opt, IndexOf(ScanTo(q, start, first, |rs|).value.opt));
  }

  /** A message with the front of an accepted one and fine records is accepted, and read as those records. */
  lemma Rescans(p: seq<Byte>, q: seq<Byte>, start: nat, rs: seq<Record>, opt: Option<nat>)
    requires |p| >= 12 && QuestionsEnd(p, Questions(p)) == Some(start) && SameFront(p, q, start)
    requires Reads(q, start, rs) && |rs| == Total(q) && Fine(rs, First(p), opt)
    ensures Questions(q) == Questions(p) && First(q) == First(p)
    ensures Scanned(q).Some? && Scanned(q).value.0 == start
    ensures Knows(start, rs, |rs|, First(p), Scanned(q).value.1) && IndexOf(Scanned(q).value.1.opt) == opt
  {
    FrontSame(p, q, start);
    ScanFinds(q, start, rs, First(p), opt);
  }

  lemma SameOpt(rs: seq<Record>, a: Option<nat>, b: Option<nat>)
    requires AreRecords(rs) && OptIs(rs, |rs|, a) && OptIs(rs, |rs|, b)
    requires a.Some? ==> a.value < |rs|
    requires b.Some? ==> b.value < |rs|
    ensures a == b
  {
    if a.Some? { assert IsOpt(rs[a.value]); }
    if b.Some? { assert IsOpt(rs[b.value]); }
  }

  /** What `Knows` says, for a message scanned to the end. */
  predicate Found(rs: seq<Record>, first: nat, opt: Option<nat>)
    requires AreRecords(rs)
  {
    (forall i | 0 <= i < |rs| :: Legal(rs[i])) && OptIs(rs, |rs|, opt) && (opt.Some? ==> first <= opt.value < |rs|)
  }

  lemma FineSubstituted(rs: seq<Record>, ts: seq<Record>, first: nat, k: nat)
    requires AreRecords(rs) && Found(rs, first, Some(k)) && |ts| == |rs|
    requires forall i | 0 <= i < |rs| && i != k :: ts[i] == rs[i]
    requires IsRecord(ts[k]) && IsOpt(ts[k]) && Legal(ts[k]) && GoodOpt(ts[k])
    ensures AreRecords(ts) && Fine(ts, first, Some(k))
  {
  }

  lemma FineDeleted(rs: seq<Record>, ts: seq<Record>, first: nat, k: nat)
    requires AreRecords(rs) && Found(rs, first, Some(k)) && |ts| == |rs| - 1
    requires (forall i | 0 <= i < k :: ts[i] == rs[i]) && (forall i | k <= i < |ts| :: ts[i] == rs[i + 1])
    ensures AreRecords(ts) && Fine(ts, first, None)
  {
  }

  lemma FineExtended(rs: seq<Record>, ts: seq<Record>, first: nat, k: nat)
    requires AreRecords(rs) && Found(rs, first, None) && first <= k == |rs| && |ts| == k + 1
    requires forall i | 0 <= i < k :: ts[i] == rs[i]
    requires IsRecord(ts[k]) && IsOpt(ts[k]) && Legal(ts[k]) && GoodOpt(ts[k])
    ensures AreRecords(ts) && Fine(ts, first, Some(k))
  {
    forall i | 0 <= i < |ts| ensures IsRecord(ts[i]) && Legal(ts[i]) && (IsOpt(ts[i]) <==> i == k) {
      if i != k { assert ts[i] == rs[i]; }
    }
  }

  lemma SplicedOne(rs: seq<Record>, k: nat, r: Record)
    requires k < |rs|
    ensures var ts := Spliced(rs, k, [r]);
            |ts| == |rs| && ts[k] == r && forall i | 0 <= i < |rs| && i != k :: ts[i] == rs[i]
  {
  }

  lemma FineReplaced(rs: seq<Record>, first: nat, k: nat, r: Record) returns (ts: seq<Record>)
    requires AreRecords(rs) && Found(rs, first, Some(k)) && IsRecord(r) && IsOpt(r) && Legal(r) && GoodOpt(r)
    ensures ts == Spliced(rs, k, [r]) && |ts| == |rs| && ts[k] == r
    ensures AreRecords(ts) && Fine(ts, first, Some(k)) && Plain(ts, |ts|) == Plain(rs, |rs|)
  {
    ts := Spliced(rs, k, [r]);
    SplicedOne(rs, k, r);
    FineSubstituted(rs, ts, first, k);
    PlainNone(r);
    PlainSpliced(rs, k, [r]);
  }

  lemma FineRemoved(rs: seq<Record>, first: nat, k: nat) returns (ts: seq<Record>)
    requires AreRecords(rs) && Found(rs, first, Some(k))
    ensures ts == Spliced(rs, k, []) && |ts| == |rs| - 1
    ensures AreRecords(ts) && Fine(ts, first, None) && Plain(ts, |ts|) == Plain(rs, |rs|)
  {
    ts := Spliced(rs, k, []);
    FineDeleted(rs, ts, first, k);
    PlainSpliced(rs, k, []);
  }

  lemma FineAppended(rs: seq<Record>, first: nat, r: Record) returns (ts: seq<Record>)
    requires AreRecords(rs) && Found(rs, first, None) && first <= |rs|
    requires IsRecord(r) && IsOpt(r) && Legal(r) && GoodOpt(r)
    ensures ts == rs + [r]
    ensures AreRecords(ts) && Fine(ts, first, Some(|rs|)) && Plain(ts, |ts|) == Plain(rs, |rs|)
  {
    ts := rs + [r];
    FineExtended(rs, ts, first, |rs|);
    PlainNone(r);
    PlainBoth(rs, [r], ts);
  }

  /** The accepted message `q` has the front and the plain records of `p`; its records are `ts`. */
  ghost predicate Keeps(p: seq<Byte>, rs: seq<Record>, q: seq<Byte>, ts: seq<Record>, start: nat, opt: Option<nat>) {
    && |p| >= 12 && |q| >= 12 && SameFront(p, q, start) && Reads(p, start, rs) && Reads(q, start, ts)
    && |ts| == Total(q) && Plain(ts, |ts|) == Plain(rs, |rs|)
    && First(q) == First(p) && Scanned(q).Some? && Scanned(q).value.0 == start
    && Knows(start, ts, |ts|, First(p), Scanned(q).value.1) && IndexOf(Scanned(q).value.1.opt) == opt
  }

  lemma FrontOfSplice(p: seq<Byte>, start: nat, a: nat, b: nat, x: seq<Byte>)
    requires 12 <= start <= a <= b <= |p|
    ensures var q := p[..a] + x + p[b..];
            |q| >= 12 && SameFront(p, q, start) && Additional(q) == Additional(p)
  {
    var q := p[..a] + x + p[b..];
    assert p[12..start] == q[12..start];
  }

  lemma FrontOfAppend(p: seq<Byte>, start: nat, x: seq<Byte>)
    requires 12 <= start <= |p|
    ensures |p + x| >= 12 && SameFront(p, p + x, start) && Additional(p + x) == Additional(p)
  {
    assert p[12..start] == (p + x)[12..start];
  }

  lemma FrontOfCount(p: seq<Byte>, q: seq<Byte>, start: nat, n: Word)
    requires |q| >= 12 && SameFront(p, q, start)
    ensures var r := WithAdditional(q, n); |r| == |q| && SameFront(p, r, start) && Additional(r) == n
  {
    var r := WithAdditional(q, n);
    assert r[..10] == q[..10];
    assert r[12..start] == q[12..start];
    assert HasAt(r, 10, WordBytes(n));
    HasWordAt(r, 10, n);
  }

  lemma CountKeeps(p: seq<Byte>, rs: seq<Record>, out: seq<Byte>, ts: seq<Record>, start: nat, n: Word, opt: Option<nat>,
                   q: seq<Byte>)
    requires |p| >= 12 && QuestionsEnd(p, Questions(p)) == Some(start) && Reads(p, start, rs)
    requires |out| >= 12 && SameFront(p, out, start) && Reads(out, start, ts) && |ts| == First(p) + n
    requires Fine(ts, First(p), opt) && Plain(ts, |ts|) == Plain(rs, |rs|)
    requires q == WithAdditional(out, n)
    ensures Keeps(p, rs, q, ts, start, opt)
  {
    CountReads(out, start, ts, n);
    FrontOfCount(p, out, start, n);
    FrontSame(p, q, start);
    Rescans(p, q, start, ts, opt);
  }

  /** The message `p` has the records `rs`, with the OPT record at `opt`. */
  ghost predicate Holds(p: seq<Byte>, rs: seq<Record>, start: nat, opt: Option<nat>) {
    && |p| >= 12 && 12 <= start <= |p| && QuestionsEnd(p, Questions(p)) == Some(start) && |rs| == Total(p)
    && Reads(p, start, rs) && Found(rs, First(p), opt)
  }

  /** What the scan finds is what the message holds. */
  lemma ScanHolds(p: seq<Byte>) returns (rs: seq<Record>)
    requires Scanned(p).Some?
    ensures var (start, s) := Scanned(p).value;
            && Holds(p, rs, start, IndexOf(s.opt)) && s.tsig == HasTsig(rs, |rs|)
            && (s.opt.Some? ==> Places(start, rs, s.opt.value))
  {
    rs := ScannedReads(p);
  }

  /** An OPT record that can be put into a message. */
  predicate Insertable(r: Record) { IsRecord(r) && IsOpt(r) && Legal(r) && GoodOpt(r) }

  /** Putting another OPT record in the place of the one there is. */
  lemma ReplaceKeeps(p: seq<Byte>, rs: seq<Record>, start: nat, span: Span, r: Record) returns (ts: seq<Record>)
    requires Holds(p, rs, start, Some(span.index)) && Places(start, rs, span) && Insertable(r)
    ensures start <= span.start <= span.end <= |p| && ts == Spliced(rs, span.index, [r])
    ensures span.index < |ts| && ts[span.index] == r
    ensures Between(ts, 0, span.index) == Between(rs, 0, span.index)
    ensures Keeps(p, rs, p[..span.start] + r + p[span.end..], ts, start, Some(span.index))
  {
    SplicedPrefix(rs, span.index, [r]);
    ts := FineReplaced(rs, First(p), span.index, r);
    FlatOne(r);
    SpliceReads(p, start, rs, span.index, [r], span.start, span.end);
    FrontOfSplice(p, start, span.start, span.end, r);
    var q := p[..span.start] + r + p[span.end..];
    FrontSame(p, q, start);
    Rescans(p, q, start, ts, Some(span.index));
  }

  lemma SplicedPrefix(rs: seq<Record>, k: nat, mid: seq<Record>)
    requires k < |rs|
    ensures |Spliced(rs, k, mid)| >= k && Between(Spliced(rs, k, mid), 0, k) == Between(rs, 0, k)
  {
    assert Spliced(rs, k, mid) == rs[..k] + (mid + rs[k + 1..]) && rs == rs[..k] + rs[k..];
    BetweenTake(rs[..k], mid + rs[k + 1..], k);
    BetweenTake(rs[..k], rs[k..], k);
  }

  lemma NothingBetween(p: seq<Byte>, a: nat, b: nat)
    requires a <= |p| && b <= |p|
    ensures p[..a] + Flat([]) + p[b..] == p[..a] + p[b..] == p[..a] + [] + p[b..]
  {
  }

  lemma RemoveReads(p: seq<Byte>, rs: seq<Record>, start: nat, span: Span, ts: seq<Record>, out: seq<Byte>)
    requires 12 <= start && Reads(p, start, rs) && Places(start, rs, span) && ts == Spliced(rs, span.index, [])
    requires Excise(p, span.start, span.end) == Some(out)
    ensures |out| >= 12 && SameFront(p, out, start) && Reads(out, start, ts)
  {
    SpliceReads(p, start, rs, span.index, [], span.start, span.end);
    FrontOfSplice(p, start, span.start, span.end, []);
    NothingBetween(p, span.start, span.end);
  }

  lemma RemoveFacts(p: seq<Byte>, rs: seq<Record>, start: nat, span: Span, out: seq<Byte>, first: nat)
    returns (ts: seq<Record>)
    requires 12 <= start && Reads(p, start, rs) && Places(start, rs, span) && Found(rs, first, Some(span.index))
    requires Excise(p, span.start, span.end) == Some(out)
    ensures ts == Spliced(rs, span.index, []) && |ts| == |rs| - 1
    ensures AreRecords(ts) && Fine(ts, first, None) && Plain(ts, |ts|) == Plain(rs, |rs|)
    ensures |out| >= 12 && SameFront(p, out, start) && Reads(out, start, ts)
  {
    ts := FineRemoved(rs, first, span.index);
    RemoveReads(p, rs, start, span, ts, out);
  }

  lemma RemoveParts(p: seq<Byte>, span: Span, q: seq<Byte>) returns (out: seq<Byte>, n: Word)
    requires |p| >= 12 && RemoveOpt(p, span) == Some(q)
    ensures Additional(p) == n + 1 && Excise(p, span.start, span.end) == Some(out)
    ensures |out| >= 12 && q == WithAdditional(out, n)
  {
    out, n := Excise(p, span.start, span.end).value, Additional(p) - 1;
  }

  /** Taking the OPT record out. */
  lemma RemoveKeeps(p: seq<Byte>, rs: seq<Record>, start: nat, span: Span, q: seq<Byte>) returns (ts: seq<Record>)
    requires Holds(p, rs, start, Some(span.index)) && Places(start, rs, span) && RemoveOpt(p, span) == Some(q)
    ensures ts == Spliced(rs, span.index, []) && Keeps(p, rs, q, ts, start, None)
  {
    var out, n := RemoveParts(p, span, q);
    ts := RemovedKeeps(p, rs, start, span, out, n, q);
  }

  lemma RemovedKeeps(p: seq<Byte>, rs: seq<Record>, start: nat, span: Span, out: seq<Byte>, n: Word, q: seq<Byte>)
    returns (ts: seq<Record>)
    requires Holds(p, rs, start, Some(span.index)) && Places(start, rs, span) && Additional(p) == n + 1
    requires Excise(p, span.start, span.end) == Some(out) && |out| >= 12 && q == WithAdditional(out, n)
    ensures ts == Spliced(rs, span.index, []) && Keeps(p, rs, q, ts, start, None)
  {
    ts := RemoveFacts(p, rs, start, span, out, First(p));
    CountKeeps(p, rs, out, ts, start, n, None, q);
  }

  /** Adding an OPT record at the end. */
  lemma AppendKeeps(p: seq<Byte>, rs: seq<Record>, start: nat, r: Record, q: seq<Byte>) returns (ts: seq<Record>)
    requires Holds(p, rs, start, None) && Insertable(r) && AppendOpt(p, r) == Some(q)
    ensures ts == rs + [r] && Keeps(p, rs, q, ts, start, Some(|rs|))
  {
    ts := FineAppended(rs, First(p), r);
    AppendReads(p, start, rs, r);
    FrontOfAppend(p, start, r);
    CountKeeps(p, rs, p + r, ts, start, Additional(p) + 1, Some(|rs|), q);
  }

  lemma SelfKeeps(p: seq<Byte>, rs: seq<Record>, start: nat, s: Scan)
    requires Scanned(p) == Some((start, s)) && |p| >= 12 && 12 <= start <= |p| && Reads(p, start, rs)
    requires |rs| == Total(p) && Knows(start, rs, |rs|, First(p), s)
    ensures Keeps(p, rs, p, rs, start, IndexOf(s.opt))
  {
  }

  // ----- What preparing a query does ------------------------------------------------------------------------

  /** The prepared query carries our OPT record, alone, or none over plain UDP. */
  predicate Carries(ts: seq<Record>, opt: Option<nat>, level: Level, size: Word) {
    if level.Udp? then opt.None?
    else opt.Some? && opt.value < |ts| && ts[opt.value] == OptBytes(QueryOpt(level, size))
  }

  lemma ReplaceParts(p: seq<Byte>, span: Span, r: seq<Byte>, q: seq<Byte>)
    requires ReplaceSpan(p, span.start, span.end, r) == Some(q)
    ensures span.start <= span.end <= |p| && q == p[..span.start] + r + p[span.end..] && |q| <= 65535
  {
  }

  /** Where the OPT record goes: the place of the old one, or the end. */
  function Room(p: seq<Byte>, opt: Option<Span>): nat { if opt.Some? then opt.value.start else |p| }

  lemma PutKeeps(p: seq<Byte>, rs: seq<Record>, start: nat, opt: Option<Span>, r: Record, q: seq<Byte>)
    returns (ts: seq<Record>, at: nat)
    requires Holds(p, rs, start, IndexOf(opt)) && (opt.Some? ==> Places(start, rs, opt.value))
    requires Insertable(r) && PutOpt(p, opt, r) == Some(q)
    ensures Keeps(p, rs, q, ts, start, Some(at)) && at < |ts| && ts[at] == r
    ensures start + |Between(ts, 0, at)| == Room(p, opt)
  {
    if opt.Some? {
      ReplaceParts(p, opt.value, r, q);
      ts := ReplaceKeeps(p, rs, start, opt.value, r);
      at := opt.value.index;
    } else {
      ts := AppendKeeps(p, rs, start, r, q);
      at := |rs|;
      BetweenTake(rs, [r], |rs|);
    }
  }

  /**
   * An unsigned query is prepared by putting in our OPT record, or taking out the one there is;
   * the result is accepted, with a correct count, and has the same questions and other records.
   */
  lemma PrepareKeeps(p: seq<Byte>, level: Level, size: Word, local: LocalCheck)
    returns (rs: seq<Record>, ts: seq<Record>, opt: Option<nat>)
    requires Prepare(p, level, size, local).Some? && !Scanned(p).value.1.tsig
    ensures Keeps(p, rs, Prepare(p, level, size, local).value.packet, ts, Scanned(p).value.0, opt)
    ensures Carries(ts, opt, level, size)
  {
    var (start, s) := Scanned(p).value;
    var q := Prepare(p, level, size, local).value.packet;
    rs := ScannedReads(p);
    if level.Udp? && s.opt.None? {
      SelfKeeps(p, rs, start, s);
      ts, opt := rs, None;
    } else {
      rs := ScanHolds(p);
      if level.Udp? {
        ts := RemoveKeeps(p, rs, start, s.opt.value, q);
        opt := None;
      } else {
        OurOpt(level, size);
        var at;
        ts, at := PutKeeps(p, rs, start, s.opt, OptBytes(QueryOpt(level, size)), q);
        opt := Some(at);
      }
    }
  }

  // ----- Preparing twice ----------------------------------------------------------------------------------------

  lemma PutOverReplaced(p: seq<Byte>, a: nat, b: nat, r: seq<Byte>, q: seq<Byte>, x: seq<Byte>)
    requires ReplaceSpan(p, a, b, r) == Some(q)
    ensures ReplaceSpan(q, a, a + |r|, x) == ReplaceSpan(p, a, b, x)
  {
    assert q[..a] == p[..a] && q[a + |r|..] == p[b..];
  }

  lemma BareOfReplaced(p: seq<Byte>, a: nat, b: nat, r: seq<Byte>, q: seq<Byte>, i: nat, k: nat)
    requires 12 <= a && ReplaceSpan(p, a, b, r) == Some(q)
    ensures |q| >= 12 && RemoveOpt(q, Span(i, a, a + |r|)) == RemoveOpt(p, Span(k, a, b))
  {
    assert q[..a] == p[..a] && q[a + |r|..] == p[b..];
  }

  lemma CountOfAppend(p: seq<Byte>, x: seq<Byte>, n: Word)
    requires |p| >= 12
    ensures WithAdditional(p + x, n) == WithAdditional(p, n) + x
  {
    assert (p + x)[..10] == p[..10];
    assert (p + x)[12..] == p[12..] + x;
    Assoc(p[..10] + WordBytes(n), p[12..], x);
  }

  lemma TakeBack(a: seq<Byte>, x: seq<Byte>)
    ensures (a + x)[..|a|] == a && (a + x)[|a| + |x|..] == [] && a + [] == a
  {
  }

  lemma PutOverAppended(p: seq<Byte>, r: seq<Byte>, q: seq<Byte>, x: seq<Byte>)
    requires |p| >= 12 && AppendOpt(p, r) == Some(q)
    ensures ReplaceSpan(q, |p|, |p| + |r|, x) == AppendOpt(p, x)
  {
    var counted := WithAdditional(p, Additional(p) + 1);
    CountOfAppend(p, r, Additional(p) + 1);
    CountOfAppend(p, x, Additional(p) + 1);
    TakeBack(counted, r);
    assert counted + x + [] == counted + x;
  }

  lemma BareOfAppended(p: seq<Byte>, r: seq<Byte>, q: seq<Byte>, i: nat)
    requires |p| >= 12 && AppendOpt(p, r) == Some(q)
    ensures |q| >= 12 && RemoveOpt(q, Span(i, |p|, |p| + |r|)) == Some(p)
  {
    var n := Additional(p);
    var counted := WithAdditional(p, n + 1);
    CountOfAppend(p, r, n + 1);
    TakeBack(counted, r);
    assert q[10..12] == WordBytes(n + 1);
    WordIn(q, 10, n + 1);
    CountBack(p, counted);
  }

  lemma CountBack(p: seq<Byte>, counted: seq<Byte>)
    requires |p| >= 12 && Additional(p) < 65535 && counted == WithAdditional(p, Additional(p) + 1)
    ensures WithAdditional(counted, Additional(p)) == p
  {
    assert counted[..10] == p[..10] && counted[12..] == p[12..];
    assert p[10..12] == WordBytes(Additional(p));
    assert p == p[..10] + p[10..12] + p[12..];
  }

  /** The OPT record that was put in can be replaced, or taken out, as if the query were the original. */
  lemma PutOverPut(p: seq<Byte>, opt: Option<Span>, r: seq<Byte>, q: seq<Byte>, i: nat, x: seq<Byte>)
    requires |p| >= 12 && (opt.Some? ==> 12 <= opt.value.start) && PutOpt(p, opt, r) == Some(q)
    ensures var put := Some(Span(i, Room(p, opt), Room(p, opt) + |r|));
            |q| >= 12 && PutOpt(q, put, x) == PutOpt(p, opt, x) && Bare(q, put) == Bare(p, opt)
  {
    if opt.Some? {
      PutOverReplaced(p, opt.value.start, opt.value.end, r, q, x);
      BareOfReplaced(p, opt.value.start, opt.value.end, r, q, i, opt.value.index);
    } else {
      PutOverAppended(p, r, q, x);
      BareOfAppended(p, r, q, i);
    }
  }

  lemma HeaderKept(p: seq<Byte>, q: seq<Byte>, start: nat)
    requires QueryHeader(p) && |q| >= 12 && SameFront(p, q, start)
    ensures QueryHeader(q)
  {
    assert p[..10][2] == q[..10][2] && p[..10][4] == q[..10][4] && p[..10][5] == q[..10][5];
    assert p[..10][6] == q[..10][6] && p[..10][7] == q[..10][7];
  }

  lemma SameTsig(rs: seq<Record>, ts: seq<Record>)
    requires AreRecords(rs) && AreRecords(ts) && Plain(ts, |ts|) == Plain(rs, |rs|)
    ensures HasTsig(ts, |ts|) == HasTsig(rs, |rs|)
  {
    TsigIsPlain(rs, |rs|);
    TsigIsPlain(ts, |ts|);
  }

  lemma ScanEnds(q: seq<Byte>)
    requires Scanned(q).Some?
    ensures Scanned(q).value.1.offset == |q|
  {
  }

  lemma KnownSpan(start: nat, ts: seq<Record>, first: nat, s: Scan, at: nat)
    requires AreRecords(ts) && Knows(start, ts, |ts|, first, s) && IndexOf(s.opt) == Some(at)
    ensures s.opt.Some? && s.opt.value.index == at && Places(start, ts, s.opt.value)
  {
  }

  lemma KnownTsig(start: nat, ts: seq<Record>, first: nat, s: Scan)
    requires AreRecords(ts) && Knows(start, ts, |ts|, first, s)
    ensures s.tsig == HasTsig(ts, |ts|)
  {
  }

  lemma PlacedSpan(start: nat, ts: seq<Record>, span: Span, at: nat, room: nat, size: nat)
    requires Places(start, ts, span) && span.index == at
    requires at < |ts| && |ts[at]| == size && start + |Between(ts, 0, at)| == room
    ensures span == Span(at, room, room + size)
  {
  }

  lemma KeptParts(p: seq<Byte>, rs: seq<Record>, q: seq<Byte>, ts: seq<Record>, start: nat, opt: Option<nat>)
    requires Keeps(p, rs, q, ts, start, opt)
    ensures AreRecords(rs) && AreRecords(ts) && Plain(ts, |ts|) == Plain(rs, |rs|) && |p| >= 12 && |q| >= 12
    ensures Scanned(q).Some? && Scanned(q).value.0 == start && SameFront(p, q, start) && Reads(q, start, ts)
    ensures Knows(start, ts, |ts|, First(p), Scanned(q).value.1) && IndexOf(Scanned(q).value.1.opt) == opt
  {
  }

  /** The scan that finds the record `at`, of `size` octets from `room` on, and no signature. */
  function FoundAt(q: seq<Byte>, at: nat, room: nat, size: nat): Scan {
    Scan(|q|, Some(Span(at, room, room + size)), false)
  }

  lemma KeptScan(p: seq<Byte>, rs: seq<Record>, q: seq<Byte>, ts: seq<Record>, start: nat, at: nat, room: nat, size: nat)
    requires AreRecords(rs) && AreRecords(ts) && Plain(ts, |ts|) == Plain(rs, |rs|) && !HasTsig(rs, |rs|)
    requires |p| >= 12 && Scanned(q).Some? && Scanned(q).value.0 == start
    requires Knows(start, ts, |ts|, First(p), Scanned(q).value.1) && IndexOf(Scanned(q).value.1.opt) == Some(at)
    requires at < |ts| && |ts[at]| == size && start + |Between(ts, 0, at)| == room
    ensures Scanned(q) == Some((start, FoundAt(q, at, room, size)))
  {
    var s := Scanned(q).value.1;
    SameTsig(rs, ts);
    ScanEnds(q);
    KnownTsig(start, ts, First(p), s);
    KnownSpan(start, ts, First(p), s, at);
    PlacedSpan(start, ts, s.opt.value, at, room, size);
  }

  lemma PutScan(p: seq<Byte>, rs: seq<Record>, start: nat, opt: Option<Span>, r: Record, q: seq<Byte>) returns (at: nat)
    requires Holds(p, rs, start, IndexOf(opt)) && (opt.Some? ==> Places(start, rs, opt.value)) && !HasTsig(rs, |rs|)
    requires Insertable(r) && PutOpt(p, opt, r) == Some(q)
    ensures Scanned(q) == Some((start, FoundAt(q, at, Room(p, opt), |r|))) && |q| >= 12 && SameFront(p, q, start)
  {
    var ts;
    ts, at := PutKeeps(p, rs, start, opt, r, q);
    KeptParts(p, rs, q, ts, start, Some(at));
    KeptScan(p, rs, q, ts, start, at, Room(p, opt), |r|);
  }

  /** The scan of a prepared query: not signed, and our record where it was put. */
  lemma ScanOfPut(p: seq<Byte>, start: nat, s: Scan, r: Record, q: seq<Byte>) returns (at: nat)
    requires Scanned(p) == Some((start, s)) && |p| >= 12 && !s.tsig && Insertable(r) && PutOpt(p, s.opt, r) == Some(q)
    ensures Scanned(q) == Some((start, FoundAt(q, at, Room(p, s.opt), |r|))) && |q| >= 12 && SameFront(p, q, start)
    ensures s.opt.Some? ==> 12 <= s.opt.value.start
  {
    var rs := ScanHolds(p);
    at := PutScan(p, rs, start, s.opt, r, q);
  }

  lemma PrepareUnsigned(p: seq<Byte>, start: nat, s: Scan, level: Level, size: Word, local: LocalCheck)
    requires QueryHeader(p) && Parses(p, local) && Scanned(p) == Some((start, s)) && !s.tsig
    ensures Prepare(p, level, size, local) == Unsigned(p, s.opt, level, size)
  {
  }

  lemma UnsignedAgain(p: seq<Byte>, opt: Option<Span>, a: Level, m: Word, q: seq<Byte>, i: nat, b: Level, n: Word)
    requires |p| >= 12 && (opt.Some? ==> 12 <= opt.value.start) && !a.Udp?
    requires PutOpt(p, opt, OptBytes(QueryOpt(a, m))) == Some(q)
    ensures var r := OptBytes(QueryOpt(a, m));
            |q| >= 12 && Unsigned(q, Some(Span(i, Room(p, opt), Room(p, opt) + |r|)), b, n) == Unsigned(p, opt, b, n)
  {
    PutOverPut(p, opt, OptBytes(QueryOpt(a, m)), q, i, OptBytes(QueryOpt(b, n)));
  }

  /**
   * Preparing for an EDNS level and then for any level is preparing for the last one exactly
   * when the query prepared first parses, or the last level cannot be prepared for.
   */
  lemma LastLevelIff(p: seq<Byte>, a: Level, m: Word, b: Level, n: Word, local: LocalCheck)
    requires Prepare(p, a, m, local).Some? && !Scanned(p).value.1.tsig && !a.Udp?
    ensures var q := Prepare(p, a, m, local).value.packet;
            Prepare(q, b, n, local) == Prepare(p, b, n, local) <==> Parses(q, local) || Prepare(p, b, n, local).None?
  {
    var (start, s) := Scanned(p).value;
    var q := Prepare(p, a, m, local).value.packet;
    PreparePut(p, a, m, local);
    if Parses(q, local) { PreparedAgain(p, start, s, a, m, q, b, n, local); }
  }

  lemma PreparePut(p: seq<Byte>, a: Level, m: Word, local: LocalCheck)
    requires Prepare(p, a, m, local).Some? && !Scanned(p).value.1.tsig && !a.Udp?
    ensures QueryHeader(p) && Parses(p, local)
    ensures PutOpt(p, Scanned(p).value.1.opt, OptBytes(QueryOpt(a, m))) == Some(Prepare(p, a, m, local).value.packet)
  {
  }

  lemma PreparedAgain(p: seq<Byte>, start: nat, s: Scan, a: Level, m: Word, q: seq<Byte>, b: Level, n: Word,
                      local: LocalCheck)
    requires QueryHeader(p) && Parses(p, local) && Scanned(p) == Some((start, s)) && !s.tsig && !a.Udp? && Parses(q, local)
    requires PutOpt(p, s.opt, OptBytes(QueryOpt(a, m))) == Some(q)
    ensures Prepare(q, b, n, local) == Prepare(p, b, n, local)
  {
    var at := QueryOfPut(p, start, s, a, m, q);
    UnsignedTwice(p, s, a, m, q, b, n, at);
    SamePreparation(p, s, q, FoundAt(q, at, Room(p, s.opt), |OptBytes(QueryOpt(a, m))|), start, b, n, local);
  }

  lemma UnsignedTwice(p: seq<Byte>, s: Scan, a: Level, m: Word, q: seq<Byte>, b: Level, n: Word, at: nat)
    requires |p| >= 12 && (s.opt.Some? ==> 12 <= s.opt.value.start) && !a.Udp?
    requires PutOpt(p, s.opt, OptBytes(QueryOpt(a, m))) == Some(q)
    ensures |q| >= 12 && Unsigned(q, FoundAt(q, at, Room(p, s.opt), |OptBytes(QueryOpt(a, m))|).opt, b, n) == Unsigned(p, s.opt, b, n)
  {
    UnsignedAgain(p, s.opt, a, m, q, at, b, n);
  }

  lemma SamePreparation(p: seq<Byte>, s: Scan, q: seq<Byte>, t: Scan, start: nat, b: Level, n: Word,
                        local: LocalCheck)
    requires QueryHeader(p) && Parses(p, local) && Scanned(p) == Some((start, s)) && !s.tsig
    requires QueryHeader(q) && Parses(q, local) && Scanned(q) == Some((start, t)) && !t.tsig
    requires Unsigned(q, t.opt, b, n) == Unsigned(p, s.opt, b, n)
    ensures Prepare(q, b, n, local) == Prepare(p, b, n, local)
  {
    PrepareUnsigned(p, start, s, b, n, local);
    PrepareUnsigned(q, start, t, b, n, local);
  }

  lemma QueryOfPut(p: seq<Byte>, start: nat, s: Scan, a: Level, m: Word, q: seq<Byte>) returns (at: nat)
    requires QueryHeader(p) && Scanned(p) == Some((start, s)) && !s.tsig
    requires PutOpt(p, s.opt, OptBytes(QueryOpt(a, m))) == Some(q)
    ensures Scanned(q) == Some((start, FoundAt(q, at, Room(p, s.opt), |OptBytes(QueryOpt(a, m))|))) && QueryHeader(q)
    ensures s.opt.Some? ==> 12 <= s.opt.value.start
  {
    OurOpt(a, m);
    at := ScanOfPut(p, start, s, OptBytes(QueryOpt(a, m)), q);
    HeaderKept(p, q, start);
  }

  lemma BareScan(p: seq<Byte>, rs: seq<Record>, q: seq<Byte>, ts: seq<Record>, start: nat)
    requires Keeps(p, rs, q, ts, start, None) && !HasTsig(rs, |rs|)
    ensures |q| >= 12 && SameFront(p, q, start) && Scanned(q).Some?
    ensures Scanned(q).value.1.opt.None? && !Scanned(q).value.1.tsig
  {
    KeptParts(p, rs, q, ts, start, None);
    SameTsig(rs, ts);
    KnownTsig(start, ts, First(p), Scanned(q).value.1);
  }

  /** Preparing twice for plain UDP, when the result of the first time parses. */
  lemma UdpTwice(p: seq<Byte>, n: Word, local: LocalCheck)
    requires Prepare(p, FeatureLadder.Udp, n, local).Some? && !Scanned(p).value.1.tsig
    requires Parses(Prepare(p, FeatureLadder.Udp, n, local).value.packet, local)
    ensures var once := Prepare(p, FeatureLadder.Udp, n, local);
            Prepare(once.value.packet, FeatureLadder.Udp, n, local) == once
  {
    var (start, s) := Scanned(p).value;
    if s.opt.Some? {
      var q := Prepare(p, FeatureLadder.Udp, n, local).value.packet;
      var rs := ScanHolds(p);
      var ts := RemoveKeeps(p, rs, start, s.opt.value, q);
      BareScan(p, rs, q, ts, start);
      HeaderKept(p, q, start);
    }
  }

  // ----- Reading the record back ------------------------------------------------------------------------------------

  /** `inspect_opt`, given where the scan found the record. */
  function OptAt(p: seq<Byte>, at: nat): Option<Opt>
    requires RecordEnd(p, at).Some?
  {
    var e, os := NameEnd(p, at).value, OptionsOf(RdataAt(p, at));
    if os.None? then None else Some(Opt(WordAt(p, e + 2), p[e + 4], p[e + 5], WordAt(p, e + 6), os.value))
  }

  lemma OptReadsBack(o: Opt)
    requires Encodable(o)
    ensures var r := OptBytes(o); IsRecord(r) && OptAt(r, 0) == Some(o)
  {
    var r, rdata := OptBytes(o), OptionsBytes(o.options, |o.options|);
    assert r[0] == 0 && NameEnd(r, 0) == Some(1) && r[5] == o.extendedRcode && r[6] == o.version;
    assert r[3..5] == WordBytes(o.udpPayloadSize) && r[7..9] == WordBytes(o.flags);
    assert r[9..11] == WordBytes(|rdata|) && r[11..] == rdata;
    WordIn(r, 3, o.udpPayloadSize);
    WordIn(r, 7, o.flags);
    WordIn(r, 9, |rdata|);
    assert RdataAt(r, 0) == rdata;
    ParseOfEncode(o.options);
  }

  lemma WordIn(r: seq<Byte>, at: nat, w: Word)
    requires at + 2 <= |r| && r[at..at + 2] == WordBytes(w)
    ensures WordAt(r, at) == w
  {
    assert HasAt(r, at, WordBytes(w));
    HasWordAt(r, at, w);
  }

  lemma OptInPlace(p: seq<Byte>, at: nat, r: Record)
    requires HasAt(p, at, r) && IsRecord(r)
    ensures RecordEnd(p, at).Some? && OptAt(p, at) == OptAt(r, 0)
  {
    LooksAlike(p, at, r);
    RecordInPlace(p, at, r);
    RecordEndBounds(r, 0);
    SameHasAt(p, at, r);
    SameWord(r, 0, p, at, |r|, NameEnd(r, 0).value + 2);
    SameWord(r, 0, p, at, |r|, NameEnd(r, 0).value + 6);
  }

  /** The options 5, 6 and 7 of RFC 6975, with the algorithms the resolver understands, as octets. */
  function AlgorithmOctets(): seq<Byte> { [0, 5, 0, 6, 5, 7, 8, 10, 13, 14, 0, 6, 0, 3, 1, 2, 4, 0, 7, 0, 1, 1] }

  lemma OneOption(code: Word, data: seq<Byte>, x: seq<Byte>)
    requires |data| < 256 && code < 256 && x == [0, code, 0, |data|] + data
    ensures Fits(EdnsOption(code, data)) && OptionBytes(EdnsOption(code, data)) == x
  {
  }

  lemma ThreeOptions(os: seq<EdnsOption>, a: seq<Byte>, b: seq<Byte>, c: seq<Byte>)
    requires |os| == 3 && AllFit(os) && OptionBytes(os[0]) == a && OptionBytes(os[1]) == b && OptionBytes(os[2]) == c
    ensures OptionsBytes(os, 3) == a + b + c
  {
    assert OptionsBytes(os, 0) == [] && [] + a == a;
    assert OptionsBytes(os, 1) == a && OptionsBytes(os, 2) == a + b;
  }

  lemma AlgorithmsJoined(a: seq<Byte>, b: seq<Byte>, c: seq<Byte>)
    requires a == [0, 5, 0, 6] + [5, 7, 8, 10, 13, 14] && b == [0, 6, 0, 3] + [1, 2, 4] && c == [0, 7, 0, 1] + [1]
    ensures a + b + c == AlgorithmOctets()
  {
    assert a == [0, 5, 0, 6, 5, 7, 8, 10, 13, 14];
    assert b == [0, 6, 0, 3, 1, 2, 4];
  }

  lemma OptionOctets(os: seq<EdnsOption>)
    requires os == Rfc6975Options()
    ensures AllFit(os) && OptionsBytes(os, |os|) == AlgorithmOctets()
  {
    var x, y, z: seq<Byte> := [5, 7, 8, 10, 13, 14], [1, 2, 4], [1];
    var a, b, c := [0, 5, 0, 6] + x, [0, 6, 0, 3] + y, [0, 7, 0, 1] + z;
    OneOption(5, x, a);
    OneOption(6, y, b);
    OneOption(7, z, c);
    ThreeOptions(os, a, b, c);
    AlgorithmsJoined(a, b, c);
  }

  lemma RecordOctets(o: Opt, rdata: seq<Byte>)
    requires Encodable(o) && OptionsBytes(o.options, |o.options|) == rdata
    ensures OptBytes(o) ==
            [0, 0, 41, o.udpPayloadSize / 256, o.udpPayloadSize % 256, o.extendedRcode, o.version,
             o.flags / 256, o.flags % 256, |rdata| / 256, |rdata| % 256] + rdata
  {
  }

  /** Root name, type 41, payload size, no extended code, version 0, the DO bit alone or no flag, and the options. */
  lemma OurOctets(level: Level, size: Word)
    ensures var dnssec, payload := level.DnssecOk? || level.TlsDnssecOk?, if size < 512 then 512 else size;
            OptBytes(QueryOpt(level, size)) ==
            [0, 0, 41, payload / 256, payload % 256, 0, 0, if dnssec then 128 else 0, 0, 0, if dnssec then 22 else 0]
            + if dnssec then AlgorithmOctets() else []
  {
    var o := QueryOpt(level, size);
    if level.DnssecOk? || level.TlsDnssecOk? {
      OptionOctets(o.options);
      RecordOctets(o, AlgorithmOctets());
    } else {
      RecordOctets(o, []);
    }
  }

  lemma PutOctets(p: seq<Byte>, start: nat, s: Scan, level: Level, size: Word, q: seq<Byte>)
    requires Scanned(p) == Some((start, s)) && |p| >= 12 && !s.tsig
    requires PutOpt(p, s.opt, OptBytes(QueryOpt(level, size))) == Some(q)
    ensures Scanned(q).Some? && Scanned(q).value.1.opt.Some?
    ensures var span := Scanned(q).value.1.opt.value;
            span.start <= span.end <= |q| && q[span.start..span.end] == OptBytes(QueryOpt(level, size))
  {
    var r := OptBytes(QueryOpt(level, size));
    OurOpt(level, size);
    var at := ScanOfPut(p, start, s, r, q);
    PutStands(p, s.opt, r, q);
  }

  /**
   * The octets of the OPT record in a prepared query: the payload size but at least 512, the DO bit
   * exactly at the two DNSSEC levels and no other flag, and the options of RFC 6975 exactly with it.
   */
  lemma PreparedOctets(p: seq<Byte>, level: Level, size: Word, local: LocalCheck)
    requires Prepare(p, level, size, local).Some? && !Scanned(p).value.1.tsig && !level.Udp?
    ensures var q := Prepare(p, level, size, local).value.packet;
            var dnssec, payload := level.DnssecOk? || level.TlsDnssecOk?, if size < 512 then 512 else size;
            && Scanned(q).Some? && Scanned(q).value.1.opt.Some? && var span := Scanned(q).value.1.opt.value;
            && span.start <= span.end <= |q| && q[span.start..span.end] ==
               [0, 0, 41, payload / 256, payload % 256, 0, 0, if dnssec then 128 else 0, 0, 0, if dnssec then 22 else 0]
               + if dnssec then [0, 5, 0, 6, 5, 7, 8, 10, 13, 14, 0, 6, 0, 3, 1, 2, 4, 0, 7, 0, 1, 1] else []
  {
    PreparePut(p, level, size, local);
    PutOctets(p, Scanned(p).value.0, Scanned(p).value.1, level, size, Prepare(p, level, size, local).value.packet);
    OurOctets(level, size);
  }

  /** A server that reads the prepared query's OPT record finds these fields in it. */
  lemma PreparedSaysOpt(p: seq<Byte>, level: Level, size: Word, local: LocalCheck) returns (o: Opt)
    requires Prepare(p, level, size, local).Some? && !Scanned(p).value.1.tsig && !level.Udp?
    ensures var q := Prepare(p, level, size, local).value.packet;
            && Scanned(q).Some? && Scanned(q).value.1.opt.Some?
            && RecordEnd(q, Scanned(q).value.1.opt.value.start).Some?
            && OptAt(q, Scanned(q).value.1.opt.value.start) == Some(o)
    ensures o.flags == (if level.DnssecOk? || level.TlsDnssecOk? then 0x8000 else 0) && o.version == 0 && o.extendedRcode == 0
    ensures o.udpPayloadSize >= 512 && (size >= 512 ==> o.udpPayloadSize == size)
    ensures o.options == if level.DnssecOk? || level.TlsDnssecOk?
                         then [EdnsOption(5, [5, 7, 8, 10, 13, 14]), EdnsOption(6, [1, 2, 4]), EdnsOption(7, [1])] else []
  {
    var (start, s) := Scanned(p).value;
    var q := Prepare(p, level, size, local).value.packet;
    PreparePut(p, level, size, local);
    PutSaysOpt(p, start, s, level, size, q);
    o := QueryOpt(level, size);
  }

  /** What is reported with a prepared query: whether it carries an OPT record, and whether it was ours to manage. */
  lemma PreparedReports(p: seq<Byte>, level: Level, size: Word, local: LocalCheck)
    requires Prepare(p, level, size, local).Some?
    ensures var r := Prepare(p, level, size, local).value;
            && Scanned(r.packet).Some? && (r.sentEdns <==> Scanned(r.packet).value.1.opt.Some?)
            && (r.managedOpt <==> !Scanned(p).value.1.tsig) && (!r.managedOpt ==> r.packet == p)
  {
    if !Scanned(p).value.1.tsig {
      var rs, ts, opt := PrepareKeeps(p, level, size, local);
    }
  }

  lemma PutStands(p: seq<Byte>, opt: Option<Span>, r: seq<Byte>, q: seq<Byte>)
    requires |p| >= 12 && PutOpt(p, opt, r) == Some(q)
    ensures HasAt(q, Room(p, opt), r)
  {
    if opt.Some? {
      MiddleOf(p[..opt.value.start], r, p[opt.value.end..]);
    } else {
      CountOfAppend(p, r, Additional(p) + 1);
      MiddleOf(WithAdditional(p, Additional(p) + 1), r, []);
      assert q == WithAdditional(p, Additional(p) + 1) + r + [];
    }
  }

  lemma MiddleOf(a: seq<Byte>, x: seq<Byte>, c: seq<Byte>)
    ensures (a + x + c)[|a|..|a| + |x|] == x
  {
  }

  lemma PutSaysOpt(p: seq<Byte>, start: nat, s: Scan, level: Level, size: Word, q: seq<Byte>)
    requires Scanned(p) == Some((start, s)) && |p| >= 12 && !s.tsig
    requires PutOpt(p, s.opt, OptBytes(QueryOpt(level, size))) == Some(q)
    ensures Scanned(q).Some? && Scanned(q).value.1.opt.Some?
    ensures RecordEnd(q, Scanned(q).value.1.opt.value.start).Some?
    ensures OptAt(q, Scanned(q).value.1.opt.value.start) == Some(QueryOpt(level, size))
  {
    var r := OptBytes(QueryOpt(level, size));
    OurOpt(level, size);
    var at := ScanOfPut(p, start, s, r, q);
    PutStands(p, s.opt, r, q);
    SaysOpt(q, Room(p, s.opt), level, size);
  }

  lemma SaysOpt(q: seq<Byte>, at: nat, level: Level, size: Word)
    requires HasAt(q, at, OptBytes(QueryOpt(level, size)))
    ensures RecordEnd(q, at).Some? && OptAt(q, at) == Some(QueryOpt(level, size))
  {
    OptReadsBack(QueryOpt(level, size));
    OptInPlace(q, at, OptBytes(QueryOpt(level, size)));
  }

  // ----- Responses ------------------------------------------------------------------------------------------------

  function Rcode(p: seq<Byte>): nat requires |p| >= 12 { p[3] % 16 }

  /** The response code with the upper bits that the OPT record carries. */
  function FullRcode(p: seq<Byte>, at: nat): nat
    requires |p| >= 12 && RecordEnd(p, at).Some?
  {
    p[NameEnd(p, at).value + 4] as int * 16 + Rcode(p)
  }

  function AsServfail(p: seq<Byte>): seq<Byte> requires |p| >= 12 { p[3 := p[3] - p[3] % 16 + 2] }

  /** The response code becomes 2, server failure, and no other bit of the message changes. */
  lemma ServfailCode(p: seq<Byte>)
    requires |p| >= 12
    ensures var q := AsServfail(p);
            && |q| == |p| && q[3] % 16 == 2 && q[3] / 16 == p[3] / 16 && forall i | 0 <= i < |p| && i != 3 :: q[i] == p[i]
  {
  }

  /** `response_for_client`. */
  function ClientResponse(query: seq<Byte>, response: seq<Byte>, local: LocalCheck): Option<seq<Byte>> {
    if !QueryHeader(query) || !Parses(query, local) || !ResponseHeader(response) || !Parses(response, local) then None
    else if Scanned(query).None? then None
    else if Scanned(query).value.1.tsig || Scanned(query).value.1.opt.Some? then Some(response)
    else if Scanned(response).None? then None
    else if Scanned(response).value.1.opt.None? then Some(response)
    else
      var span := Scanned(response).value.1.opt.value;
      var out := RemoveOpt(response, span);
      if out.None? || RecordEnd(response, span.start).None? then None
      else if FullRcode(response, span.start) > 15 then Some(AsServfail(out.value))
      else out
  }

  method ResponseForClient(query: seq<Byte>, response: seq<Byte>, local: LocalCheck) returns (r: Option<seq<Byte>>)
    ensures r == ClientResponse(query, response, local)
  {
    var asked := ParseSections(query, local);
    var answered := ParseSections(response, local);
    if asked.None? || !QueryHeader(query) || answered.None? || !ResponseHeader(response) { return None; }
    var layout := ScanPacket(query, local);
    if layout.None? { return None; }
    if layout.value.1.tsig || layout.value.1.opt.Some? { return Some(response); }
    layout := ScanPacket(response, local);
    if layout.None? { return None; }
    if layout.value.1.opt.None? { return Some(response); }
    var span := layout.value.1.opt.value;
    if RecordEnd(response, span.start).None? { return None; }
    var output := RemoveOpt(response, span);
    if output.Some? && FullRcode(response, span.start) > 15 { output := Some(AsServfail(output.value)); }
    return output;
  }

  /**
   * A client that sent no OPT record gets none: the response is the same but for the record and
   * its count, with an extended response code shown as a server failure.
   */
  lemma ClientSeesNoOpt(query: seq<Byte>, response: seq<Byte>, local: LocalCheck)
    returns (bare: seq<Byte>, rs: seq<Record>, ts: seq<Record>)
    requires ClientResponse(query, response, local).Some?
    requires !Scanned(query).value.1.tsig && Scanned(query).value.1.opt.None?
    ensures Scanned(response).Some? && Keeps(response, rs, bare, ts, Scanned(response).value.0, None)
    ensures var (start, s) := Scanned(response).value;
            ClientResponse(query, response, local) ==
            if s.opt.Some? && FullRcode(response, s.opt.value.start) > 15 then Some(AsServfail(bare)) else Some(bare)
  {
    var (start, s) := Scanned(response).value;
    if s.opt.None? {
      rs := ScannedReads(response);
      SelfKeeps(response, rs, start, s);
      bare, ts := response, rs;
    } else {
      rs := ScanHolds(response);
      bare := RemoveOpt(response, s.opt.value).value;
      ts := RemoveKeeps(response, rs, start, s.opt.value, bare);
    }
  }

  lemma BareHead(p: seq<Byte>, span: Span, q: seq<Byte>)
    requires |p| >= 12 && 12 <= span.start && RemoveOpt(p, span) == Some(q)
    ensures |q| >= 12 && q[2] == p[2] && q[3] == p[3]
  {
    var out, n := RemoveParts(p, span, q);
    assert q[2] == out[..10][2] && q[3] == out[..10][3];
  }

  /** The code is extended exactly when the fifth octet after the name of the OPT record is not zero. */
  lemma ExtendedIff(p: seq<Byte>, at: nat)
    requires |p| >= 12 && RecordEnd(p, at).Some?
    ensures NameEnd(p, at).Some? && NameEnd(p, at).value + 4 < |p|
    ensures FullRcode(p, at) > 15 <==> p[NameEnd(p, at).value + 4] != 0
  {
    RecordEndBounds(p, at);
  }

  lemma ScannedSpan(p: seq<Byte>)
    requires Scanned(p).Some? && Scanned(p).value.1.opt.Some?
    ensures |p| >= 12 && 12 <= Scanned(p).value.1.opt.value.start
  {
    var rs := ScanHolds(p);
  }

  /**
   * The response code a client without EDNS sees: 2, server failure, if the OPT record that was taken
   * out carried upper bits of the code, and else the code of the response.
   */
  lemma ClientCode(query: seq<Byte>, response: seq<Byte>, local: LocalCheck)
    requires ClientResponse(query, response, local).Some?
    requires !Scanned(query).value.1.tsig && Scanned(query).value.1.opt.None? && Scanned(response).value.1.opt.Some?
    ensures var out, at := ClientResponse(query, response, local).value, Scanned(response).value.1.opt.value.start;
            && NameEnd(response, at).Some? && NameEnd(response, at).value + 4 < |response|
            && |out| >= 12 && |response| >= 12
            && out[3] % 16 == (if response[NameEnd(response, at).value + 4] == 0 then response[3] % 16 else 2)
            && out[3] / 16 == response[3] / 16 && out[2] == response[2]
  {
    var span := Scanned(response).value.1.opt.value;
    var bare := RemoveOpt(response, span).value;
    ScannedSpan(response);
    BareHead(response, span, bare);
    ExtendedIff(response, span.start);
    ServfailCode(bare);
  }
}

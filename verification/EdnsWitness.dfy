/**
 * Queries whose names read octets that preparing changes or moves.
 */
module EdnsWitness {
  import opened Bytes
  import NameChain
  import opened NameText
  import opened DnsRecords
  import opened NameReading
  import opened OptRecord
  import opened WireSections
  import opened EdnsScan
  import opened Edns
  import opened EdnsNames
  import FeatureLadder

  // ----- Reading names in an example --------------------------------------------------------------------

  lemma RootHere(p: seq<Byte>, at: nat, left: nat, room: nat)
    requires at < |p| && p[at] == 0
    ensures Follow(Cells(p), at, left, room) == Some(Ends(at))
  {
    CellIs(p, at);
  }

  lemma LabelHere(p: seq<Byte>, at: nat, n: nat, left: nat, room: nat)
    requires at + 1 + n <= |p| && p[at] as nat == n && 0 < n <= 63 && n + 1 <= room
    ensures Follow(Cells(p), at, left, room) == Onto(at, Follow(Cells(p), at + 1 + n, left, room - (n + 1)))
  {
    CellIs(p, at);
  }

  lemma PointerHere(p: seq<Byte>, at: nat, target: nat, left: nat, room: nat)
    requires at + 2 <= |p| && p[at] == 192 && p[at + 1] as nat == target && target < at && left > 0
    ensures Follow(Cells(p), at, left, room) == Onto(at, Follow(Cells(p), target, left - 1, room))
  {
    CellIs(p, at);
  }

  lemma ReservedHere(p: seq<Byte>, at: nat, left: nat, room: nat)
    requires at < |p| && 64 <= p[at] < 192
    ensures Follow(Cells(p), at, left, room) == None
  {
    CellIs(p, at);
  }

  // ----- An OPT record that is added -----------------------------------------------------------------------

  /** The header of a query with one question and `n` additional records, and no other. */
  predicate Heads(p: seq<Byte>, n: Byte) {
    && |p| >= 12 && p[2] == 1 && p[4] == 0 && p[5] == 1 && p[6] == 0 && p[7] == 0 && p[8] == 0 && p[9] == 0
    && p[10] == 0 && p[11] == n
  }

  lemma HeadSays(p: seq<Byte>, n: Byte)
    requires Heads(p, n)
    ensures QueryHeader(p) && Questions(p) == 1 && First(p) == 0 && Additional(p) == n && Total(p) == n as nat
  {
  }

  /** The question asks for the A record of the name that the low octet of the additional count starts. */
  predicate AsksCount(p: seq<Byte>) {
    |p| >= 18 && p[12] == 192 && p[13] == 11 && p[14] == 0 && p[15] == 1 && p[16] == 0 && p[17] == 1
  }

  lemma AsksCountEnds(p: seq<Byte>)
    requires AsksCount(p)
    ensures QuestionsEnd(p, 1) == Some(18)
  {
    assert NameEnd(p, 12) == Some(14) && WordAt(p, 14) == 1;
    assert QuestionsEnd(p, 0) == Some(12) && QuestionEnd(p, 12) == Some(18);
  }

  lemma CountNames(p: seq<Byte>)
    requires AsksCount(p) && p[11] == 0
    ensures NameAt(p, 12) == Some([0])
  {
    PointerHere(p, 12, 11, MAX_JUMPS, MAX_LABELS);
    RootHere(p, 11, MAX_JUMPS - 1, MAX_LABELS);
    SpellPointer(p, 12, Ends(11));
    assert Spelling(p, Ends(11)) == [0];
  }

  lemma SpellPointer(p: seq<Byte>, at: nat, rest: Trail)
    requires at < |p| && p[at] >= 192
    ensures Spelling(p, Goes(at, rest)) == Spelling(p, rest)
  {
    assert NameChain.Emit(p, at) == [];
    assert [] + Spelling(p, rest) == Spelling(p, rest);
  }

  lemma CountBreaks(q: seq<Byte>)
    requires AsksCount(q) && |q| >= 26 && q[11] == 1 && q[25] == 128
    ensures NameAt(q, 12).None?
  {
    PointerHere(q, 12, 11, MAX_JUMPS, MAX_LABELS);
    LabelHere(q, 11, 1, MAX_JUMPS - 1, MAX_LABELS);
    LabelHere(q, 13, 11, MAX_JUMPS - 1, MAX_LABELS - 2);
    ReservedHere(q, 25, MAX_JUMPS - 1, MAX_LABELS - 14);
  }

  lemma Unreadable(q: seq<Byte>, local: LocalCheck)
    requires |q| >= 12 && Questions(q) == 1 && NameAt(q, 12).None?
    ensures !Parses(q, local)
  {
    assert QuestionsEnd(q, 0) == Some(12);
  }

  lemma CountQueryParses(p: seq<Byte>, local: LocalCheck)
    requires |p| == 18 && Heads(p, 0) && AsksCount(p)
    ensures QueryHeader(p) && Parses(p, local) && Scanned(p) == Some((18, Scan(18, None, false))) && Additional(p) == 0
  {
    HeadSays(p, 0);
    AsksCountEnds(p);
    CountNames(p);
    assert QuestionsEnd(p, 0) == Some(12) && QuestionsRead(p, 0) && QuestionsRead(p, 1);
    assert RecordsTo(p, 18, 0) == Some([]);
    assert ScanTo(p, 18, 0, 0) == Some(Scan(18, None, false));
  }

  lemma AddedOctets(p: seq<Byte>, r: seq<Byte>, q: seq<Byte>)
    requires |p| == 18 && Heads(p, 0) && AsksCount(p) && |r| >= 8 && AppendOpt(p, r) == Some(q)
    ensures |q| >= 26 && Heads(q, 1) && AsksCount(q) && q[25] == r[7]
  {
    HeadSays(p, 0);
    var x := p + r;
    assert q == x[..10] + WordBytes(1) + x[12..];
    assert forall i | 0 <= i < |q| && i != 10 && i != 11 :: q[i] == x[i];
    assert q[10..12] == WordBytes(1);
  }

  /** Our OPT record starts so. */
  lemma OurFlags(size: Word)
    ensures var r := OptBytes(QueryOpt(FeatureLadder.DnssecOk, size)); 8 <= |r| <= 33 && r[7] == 128
  {
    OptionsSize(Rfc6975Options());
  }

  /** A query that is not restored: with our OPT record, its question cannot be read any more. */
  lemma RestoreFails(size: Word, n: Word, local: LocalCheck) returns (p: seq<Byte>)
    ensures Prepare(p, FeatureLadder.DnssecOk, size, local).Some?
    ensures !Scanned(p).value.1.tsig && Scanned(p).value.1.opt.None?
    ensures Prepare(Prepare(p, FeatureLadder.DnssecOk, size, local).value.packet, FeatureLadder.Udp, n, local).None?
  {
    p := [0, 0, 1, 0, 0, 1, 0, 0, 0, 0, 0, 0, 192, 11, 0, 1, 0, 1];
    NotRestored(p, size, n, local);
  }

  lemma NotRestored(p: seq<Byte>, size: Word, n: Word, local: LocalCheck)
    requires |p| == 18 && Heads(p, 0) && AsksCount(p)
    ensures Prepare(p, FeatureLadder.DnssecOk, size, local).Some?
    ensures !Scanned(p).value.1.tsig && Scanned(p).value.1.opt.None?
    ensures Prepare(Prepare(p, FeatureLadder.DnssecOk, size, local).value.packet, FeatureLadder.Udp, n, local).None?
  {
    CountQueryParses(p, local);
    var r := OptBytes(QueryOpt(FeatureLadder.DnssecOk, size));
    OurFlags(size);
    assert AppendOpt(p, r).Some?;
    var q := AppendOpt(p, r).value;
    AddedOctets(p, r, q);
    HeadSays(q, 1);
    CountBreaks(q);
    Unreadable(q, local);
    PrepareUnsigned(p, 18, Scan(18, None, false), FeatureLadder.DnssecOk, size, local);
  }

  // ----- An OPT record that is taken out ----------------------------------------------------------------

  /** An OPT record without options, for messages of 512 octets. */
  function SmallOpt(): Record { [0, 0, 41, 2, 0, 0, 0, 0, 0, 0, 0] }

  lemma SmallOptFits()
    ensures Insertable(SmallOpt())
  {
    var r := SmallOpt();
    assert NameEnd(r, 0) == Some(1) && WordAt(r, 9) == 0 && RecordEnd(r, 0) == Some(11);
    assert TypeAt(r, 0) == 41 && WordAt(r, 3) == 512;
    assert RdataAt(r, 0) == [];
    assert OptionsOf([]) == Some([]);
  }

  /** What the scan finds, given the records. */
  lemma StandsScanned(p: seq<Byte>, start: nat, rs: seq<Record>, opt: Option<nat>)
    requires |p| >= 12 && QuestionsEnd(p, Questions(p)) == Some(start) && Reads(p, start, rs) && |rs| == Total(p)
    requires Fine(rs, First(p), opt) && !HasTsig(rs, |rs|)
    ensures Scanned(p).Some? && Scanned(p).value.0 == start && !Scanned(p).value.1.tsig
    ensures IndexOf(Scanned(p).value.1.opt) == opt
    ensures opt.Some? ==> Places(start, rs, Scanned(p).value.1.opt.value)
  {
    ScanFinds(p, start, rs, First(p), opt);
  }

  /** The query with one question `AsksCount`, and an OPT record last. */
  predicate CountWithOpt(p: seq<Byte>) { |p| == 29 && Heads(p, 1) && AsksCount(p) && p[18..] == SmallOpt() }

  lemma OneRecord(p: seq<Byte>, r: Record)
    requires |p| >= 18 && p[18..] == r && Insertable(r)
    ensures Reads(p, 18, [r]) && Fine([r], 0, Some(0)) && !HasTsig([r], 1) && |Between([r], 0, 0)| == 0
  {
    FlatOne(r);
    assert !HasTsig([r], 0);
  }

  lemma OneOptScanned(p: seq<Byte>, r: Record)
    requires |p| >= 18 && p[18..] == r && Insertable(r) && Questions(p) == 1 && First(p) == 0 && Total(p) == 1
    requires QuestionsEnd(p, 1) == Some(18)
    ensures Scanned(p).Some? && Scanned(p).value.0 == 18
    ensures !Scanned(p).value.1.tsig && Scanned(p).value.1.opt == Some(Span(0, 18, 18 + |r|))
  {
    OneRecord(p, r);
    StandsScanned(p, 18, [r], Some(0));
  }

  lemma OneOptParses(p: seq<Byte>, r: Record, local: LocalCheck)
    requires |p| >= 18 && p[18..] == r && Insertable(r) && Questions(p) == 1 && Total(p) == 1
    requires QuestionsEnd(p, 1) == Some(18) && NameAt(p, 12).Some?
    ensures Parses(p, local)
  {
    OneRecord(p, r);
    SoundOpt(p, 18, [r], 0, local);
    assert QuestionsEnd(p, 0) == Some(12) && QuestionsRead(p, 0) && QuestionsRead(p, 1);
    SoundParses(p, 18, [r], local);
  }

  lemma CountReadsOpt(p: seq<Byte>)
    requires CountWithOpt(p)
    ensures NameAt(p, 12).Some? && NameAt(p, 12) != Some([0])
  {
    assert p[25] == p[18..][7] == 0;
    PointerHere(p, 12, 11, MAX_JUMPS, MAX_LABELS);
    LabelHere(p, 11, 1, MAX_JUMPS - 1, MAX_LABELS);
    LabelHere(p, 13, 11, MAX_JUMPS - 1, MAX_LABELS - 2);
    RootHere(p, 25, MAX_JUMPS - 1, MAX_LABELS - 14);
    var rest := Goes(13, Ends(25));
    SpellPointer(p, 12, Goes(11, rest));
    assert NameChain.Emit(p, 11)[0] == 1;
    assert Spelling(p, Goes(11, rest)) == NameChain.Emit(p, 11) + Spelling(p, rest);
    assert Spelling(p, Goes(11, rest))[0] == 1;
  }

  lemma CountWithOptParses(p: seq<Byte>, local: LocalCheck)
    requires CountWithOpt(p)
    ensures QueryHeader(p) && Parses(p, local) && Scanned(p).Some? && Scanned(p).value.0 == 18
    ensures !Scanned(p).value.1.tsig && Scanned(p).value.1.opt == Some(Span(0, 18, 29))
  {
    HeadSays(p, 1);
    AsksCountEnds(p);
    CountReadsOpt(p);
    SmallOptFits();
    OneOptScanned(p, SmallOpt());
    OneOptParses(p, SmallOpt(), local);
  }

  lemma OptCutOff(p: seq<Byte>)
    requires CountWithOpt(p)
    ensures var out := RemoveOpt(p, Span(0, 18, 29)); out.Some? && |out.value| == 18 && Heads(out.value, 0) && AsksCount(out.value)
  {
    HeadSays(p, 1);
    var x := p[..18] + p[29..];
    var q := WithAdditional(x, 0);
    assert |x| == 18 && forall i | 0 <= i < 18 :: x[i] == p[i];
    assert forall i | 0 <= i < 18 && i != 10 && i != 11 :: q[i] == x[i];
    assert q[10..12] == WordBytes(0);
  }

  /** A query whose OPT record is the last, and whose question asks for another name without it. */
  lemma LastOptMatters(n: Word, local: LocalCheck) returns (p: seq<Byte>)
    ensures Prepare(p, FeatureLadder.Udp, n, local).Some? && !Scanned(p).value.1.tsig
    ensures Scanned(p).value.1.opt.Some? && Scanned(p).value.1.opt.value.end == |p|
    ensures var q := Prepare(p, FeatureLadder.Udp, n, local).value.packet;
            Parses(q, local) && NameAt(p, 12).Some? && NameAt(q, 12).Some? && NameAt(q, 12) != NameAt(p, 12)
  {
    p := [0, 0, 1, 0, 0, 1, 0, 0, 0, 0, 0, 1, 192, 11, 0, 1, 0, 1] + SmallOpt();
    assert p[18..] == SmallOpt();
    LastOptRead(p, n, local);
  }

  lemma LastOptRead(p: seq<Byte>, n: Word, local: LocalCheck)
    requires CountWithOpt(p)
    ensures Prepare(p, FeatureLadder.Udp, n, local).Some? && !Scanned(p).value.1.tsig
    ensures Scanned(p).value.1.opt.Some? && Scanned(p).value.1.opt.value.end == |p|
    ensures var q := Prepare(p, FeatureLadder.Udp, n, local).value.packet;
            Parses(q, local) && NameAt(p, 12).Some? && NameAt(q, 12).Some? && NameAt(q, 12) != NameAt(p, 12)
  {
    CountWithOptParses(p, local);
    OptCutOff(p);
    var q := RemoveOpt(p, Span(0, 18, 29)).value;
    CountQueryParses(q, local);
    CountNames(q);
    CountReadsOpt(p);
    PrepareUnsigned(p, 18, Scanned(p).value.1, FeatureLadder.Udp, n, local);
  }

  // ----- A record behind the OPT record --------------------------------------------------------------------

  /** A NULL record of no data whose owner is `a`, written out. */
  function OwnerA(): Record { [1, 97, 0, 0, 10, 0, 1, 0, 0, 0, 0, 0, 0] }

  /** A NULL record of no data whose owner is the name at offset 28. */
  function OwnerAt28(): Record { [192, 28, 0, 10, 0, 1, 0, 0, 0, 0, 0, 0] }

  /** A NULL record of two octets of data whose owner is the root. */
  function OwnerRoot(): Record { [0, 0, 10, 0, 1, 0, 0, 0, 0, 0, 2, 0, 0] }

  predicate Null(r: Record) { IsRecord(r) && TypeOf(r) == 10 && Legal(r) }

  lemma NullRecords()
    ensures Null(OwnerA()) && Null(OwnerAt28()) && Null(OwnerRoot())
  {
    var a, b, c := OwnerA(), OwnerAt28(), OwnerRoot();
    assert NameEnd(c, 0) == Some(1) && WordAt(c, 9) == 2 && WordAt(c, 1) == 10 && WordAt(c, 3) == 1;
    assert RecordEnd(c, 0) == Some(13);
    assert NameEnd(a, 2) == Some(3) && NameEnd(a, 0) == Some(3) && WordAt(a, 11) == 0 && WordAt(a, 3) == 10 && WordAt(a, 5) == 1;
    assert NameEnd(b, 0) == Some(2) && WordAt(b, 10) == 0 && WordAt(b, 2) == 10 && WordAt(b, 4) == 1;
    assert RecordEnd(a, 0) == Some(13) && RecordEnd(b, 0) == Some(12);
  }

  lemma NullSound(p: seq<Byte>, at: nat, r: Record, local: LocalCheck)
    requires Null(r) && NameAt(p, at).Some?
    ensures Sound(p, Item(at, r), local)
  {
    assert Names(r) == [0];
  }

  lemma TwoStand(q: seq<Byte>, b: Record, c: Record)
    requires |q| >= 17 && q[17..] == b + c && Null(b) && Null(c)
    ensures Reads(q, 17, [b, c]) && Fine([b, c], 0, None) && !HasTsig([b, c], 2)
    ensures Offset(17, [b, c], 0) == 17 && Offset(17, [b, c], 1) == 17 + |b|
  {
    var rs := [b, c];
    assert Between(rs, 0, 0) == [] && [] + b == b;
    assert Between(rs, 0, 1) == b && Between(rs, 0, 2) == b + c;
    assert !HasTsig(rs, 0) && !HasTsig(rs, 1);
  }

  lemma ThreeStand(p: seq<Byte>, a: Record, b: Record, c: Record)
    requires |p| >= 17 && p[17..] == a + b + c && Insertable(a) && Null(b) && Null(c)
    ensures Reads(p, 17, [a, b, c]) && Fine([a, b, c], 0, Some(0)) && !HasTsig([a, b, c], 3)
    ensures Offset(17, [a, b, c], 0) == 17 && Offset(17, [a, b, c], 1) == 17 + |a|
    ensures Offset(17, [a, b, c], 2) == 17 + |a| + |b|
  {
    var rs := [a, b, c];
    assert Between(rs, 0, 0) == [] && [] + a == a;
    assert Between(rs, 0, 1) == a && Between(rs, 0, 2) == a + b && Between(rs, 0, 3) == a + b + c;
    assert !HasTsig(rs, 0) && !HasTsig(rs, 1) && !HasTsig(rs, 2);
  }

  /** The question asks for the A record of the root. */
  predicate AsksRoot(p: seq<Byte>) { |p| >= 17 && p[12] == 0 && p[13] == 0 && p[14] == 1 && p[15] == 0 && p[16] == 1 }

  lemma AsksRootReads(p: seq<Byte>)
    requires AsksRoot(p)
    ensures QuestionsEnd(p, 1) == Some(17) && QuestionsRead(p, 1)
  {
    RootName(p, 12);
    assert NameEnd(p, 12) == Some(13) && WordAt(p, 13) == 1;
    assert QuestionsEnd(p, 0) == Some(12) && QuestionEnd(p, 12) == Some(17) && QuestionsRead(p, 0);
  }

  lemma TwoParse(q: seq<Byte>, b: Record, c: Record, local: LocalCheck)
    requires Heads(q, 2) && AsksRoot(q) && q[17..] == b + c && Null(b) && Null(c)
    requires NameAt(q, 17).Some? && NameAt(q, 17 + |b|).Some?
    ensures Parses(q, local)
  {
    HeadSays(q, 2);
    AsksRootReads(q);
    TwoStand(q, b, c);
    NullSound(q, 17, b, local);
    NullSound(q, 17 + |b|, c, local);
    var rs := [b, c];
    forall i | 0 <= i < |rs| ensures SoundAt(q, 17, rs, i, local) {
      if i == 0 { assert SoundAt(q, 17, rs, 0, local); } else { assert SoundAt(q, 17, rs, 1, local); }
    }
    SoundParses(q, 17, rs, local);
  }

  lemma ThreeParse(p: seq<Byte>, a: Record, b: Record, c: Record, local: LocalCheck)
    requires Heads(p, 3) && AsksRoot(p) && p[17..] == a + b + c && Insertable(a) && Null(b) && Null(c)
    requires NameAt(p, 17 + |a|).Some? && NameAt(p, 17 + |a| + |b|).Some?
    ensures Parses(p, local)
  {
    HeadSays(p, 3);
    AsksRootReads(p);
    ThreeStand(p, a, b, c);
    var rs := [a, b, c];
    SoundOpt(p, 17, rs, 0, local);
    NullSound(p, 17 + |a|, b, local);
    NullSound(p, 17 + |a| + |b|, c, local);
    forall i | 0 <= i < |rs| ensures SoundAt(p, 17, rs, i, local) {
      if i == 1 { assert SoundAt(p, 17, rs, 1, local); } else if i == 2 { assert SoundAt(p, 17, rs, 2, local); }
    }
    SoundParses(p, 17, rs, local);
  }

  lemma ThreeScanned(p: seq<Byte>, a: Record, b: Record, c: Record)
    requires Heads(p, 3) && AsksRoot(p) && p[17..] == a + b + c && Insertable(a) && Null(b) && Null(c)
    ensures Scanned(p).Some? && Scanned(p).value.0 == 17
    ensures !Scanned(p).value.1.tsig && Scanned(p).value.1.opt == Some(Span(0, 17, 17 + |a|))
  {
    HeadSays(p, 3);
    AsksRootReads(p);
    ThreeStand(p, a, b, c);
    StandsScanned(p, 17, [a, b, c], Some(0));
  }

  predicate WritesA(p: seq<Byte>, at: nat) { at + 3 <= |p| && p[at] == 1 && p[at + 1] == 97 && p[at + 2] == 0 }

  lemma FollowsA(p: seq<Byte>, at: nat, left: nat)
    requires WritesA(p, at)
    ensures Follow(Cells(p), at, left, MAX_LABELS) == Some(Goes(at, Ends(at + 2)))
  {
    LabelHere(p, at, 1, left, MAX_LABELS);
    RootHere(p, at + 2, left, MAX_LABELS - 2);
  }

  lemma SpellsA(p: seq<Byte>, at: nat)
    requires WritesA(p, at)
    ensures Spelling(p, Goes(at, Ends(at + 2))) == [1, 97, 0]
  {
    var x, y := NameChain.Emit(p, at), Spelling(p, Ends(at + 2));
    assert x == [1, 97];
    assert y == [0];
    assert Spelling(p, Goes(at, Ends(at + 2))) == x + y;
    assert x + y == [1, 97, 0];
  }

  lemma NameIsA(p: seq<Byte>, at: nat)
    requires WritesA(p, at)
    ensures NameAt(p, at) == Some([1, 97, 0])
  {
    FollowsA(p, at, MAX_JUMPS);
    SpellsA(p, at);
  }

  lemma PointsToA(p: seq<Byte>, at: nat)
    requires 28 < at && at + 2 <= |p| && p[at] == 192 && p[at + 1] == 28 && WritesA(p, 28)
    ensures NameAt(p, at) == Some([1, 97, 0])
  {
    FollowsA(p, 28, MAX_JUMPS - 1);
    SpellsA(p, 28);
    PointerHere(p, at, 28, MAX_JUMPS, MAX_LABELS);
    SpellPointer(p, at, Goes(28, Ends(30)));
  }

  lemma PointsToRoot(p: seq<Byte>, at: nat)
    requires 28 < at && at + 2 <= |p| && p[at] == 192 && p[at + 1] == 28 && p[28] == 0
    ensures NameAt(p, at) == Some([0])
  {
    PointerHere(p, at, 28, MAX_JUMPS, MAX_LABELS);
    RootHere(p, 28, MAX_JUMPS - 1, MAX_LABELS);
    SpellPointer(p, at, Ends(28));
    assert Spelling(p, Ends(28)) == [0];
  }

  /** A query with an OPT record, the record `b`, and behind it `OwnerAt28`. */
  predicate OptFirst(p: seq<Byte>, b: Record) {
    && Heads(p, 3) && AsksRoot(p) && |b| == 13 && b[11] == 0 && Null(b)
    && p[17..] == SmallOpt() + b + OwnerAt28()
  }

  lemma OptFirstOctets(p: seq<Byte>, b: Record)
    requires OptFirst(p, b)
    ensures |p| == 53 && p[28..] == b + OwnerAt28()
    ensures p[28] == b[0] && p[29] == b[1] && p[30] == b[2] && p[39] == 0 && p[41] == 192 && p[42] == 28
  {
    var x := p[17..];
    assert x[11] == b[0] && x[12] == b[1] && x[13] == b[2] && x[22] == b[11] && x[24] == 192 && x[25] == 28;
    assert x[11..] == b + OwnerAt28();
    assert p[28..] == x[11..];
  }

  lemma OptFirstParses(p: seq<Byte>, b: Record, local: LocalCheck)
    requires OptFirst(p, b) && NameAt(p, 28).Some? && NameAt(p, 41).Some?
    ensures QueryHeader(p) && Parses(p, local)
    ensures Scanned(p).Some? && Scanned(p).value.0 == 17
    ensures !Scanned(p).value.1.tsig && Scanned(p).value.1.opt == Some(Span(0, 17, 28))
  {
    NullRecords();
    SmallOptFits();
    HeadSays(p, 3);
    ThreeScanned(p, SmallOpt(), b, OwnerAt28());
    ThreeParse(p, SmallOpt(), b, OwnerAt28(), local);
  }

  lemma OptFirstRemoved(p: seq<Byte>, b: Record, q: seq<Byte>)
    requires OptFirst(p, b) && RemoveOpt(p, Span(0, 17, 28)) == Some(q)
    ensures |q| == 42 && Heads(q, 2) && AsksRoot(q) && q[17..] == b + OwnerAt28() && |p| == 53 && q[30..] == p[41..]
    ensures q[17] == b[0] && q[18] == b[1] && q[19] == b[2] && q[30] == 192 && q[31] == 28 && q[28] == 0
  {
    OptFirstOctets(p, b);
    HeadSays(p, 3);
    var x := p[..17] + p[28..];
    assert q == WithAdditional(x, 2);
    assert forall i | 0 <= i < 17 :: x[i] == p[i];
    assert forall i | 17 <= i < 42 :: x[i] == p[i + 11];
    assert forall i | 0 <= i < 42 && i != 10 && i != 11 :: q[i] == x[i];
    assert q[10..12] == WordBytes(2);
    assert q[17..] == p[28..];
    assert q[30..] == p[41..];
  }

  lemma OptGone(p: seq<Byte>, b: Record, q: seq<Byte>, local: LocalCheck)
    requires OptFirst(p, b) && RemoveOpt(p, Span(0, 17, 28)) == Some(q) && NameAt(q, 17).Some?
    ensures |p| == 53 && |q| == 42 && q[30..] == p[41..] && Parses(q, local) && NameAt(q, 30) == Some([0])
  {
    OptFirstOctets(p, b);
    OptFirstRemoved(p, b, q);
    NullRecords();
    PointsToRoot(q, 30);
    TwoParse(q, b, OwnerAt28(), local);
  }

  lemma OptFirstRemovable(p: seq<Byte>, b: Record)
    requires OptFirst(p, b)
    ensures RemoveOpt(p, Span(0, 17, 28)).Some?
  {
    OptFirstOctets(p, b);
    HeadSays(p, 3);
  }

  lemma OptFirstPrepared(p: seq<Byte>, b: Record, n: Word, local: LocalCheck)
    requires OptFirst(p, b) && NameAt(p, 28).Some? && NameAt(p, 41).Some?
    ensures RemoveOpt(p, Span(0, 17, 28)).Some?
    ensures Prepare(p, FeatureLadder.Udp, n, local) == Some(Prepared(RemoveOpt(p, Span(0, 17, 28)).value, false, true))
    ensures Scanned(p).Some? && Scanned(p).value.0 == 17 && !Scanned(p).value.1.tsig
    ensures Scanned(p).value.1.opt == Some(Span(0, 17, 28))
  {
    OptFirstParses(p, b, local);
    OptFirstRemovable(p, b);
    PrepareUnsigned(p, 17, Scanned(p).value.1, FeatureLadder.Udp, n, local);
  }

  /** A query that parses with and without its OPT record, whose last record then has another owner. */
  lemma OwnerChanges(n: Word, local: LocalCheck) returns (p: seq<Byte>)
    ensures Prepare(p, FeatureLadder.Udp, n, local).Some? && !Scanned(p).value.1.tsig
    ensures var q := Prepare(p, FeatureLadder.Udp, n, local).value.packet;
            && |p| == 53 && |q| == 42 && q[30..] == p[41..] && Parses(q, local)
            && NameAt(p, 41) == Some([1, 97, 0]) && NameAt(q, 30) == Some([0])
  {
    p := [0, 0, 1, 0, 0, 1, 0, 0, 0, 0, 0, 3, 0, 0, 1, 0, 1] + (SmallOpt() + OwnerA() + OwnerAt28());
    assert p[17..] == SmallOpt() + OwnerA() + OwnerAt28();
    NullRecords();
    OwnerChanged(p, n, local);
  }

  lemma OwnerChanged(p: seq<Byte>, n: Word, local: LocalCheck)
    requires OptFirst(p, OwnerA())
    ensures Prepare(p, FeatureLadder.Udp, n, local).Some? && !Scanned(p).value.1.tsig
    ensures var q := Prepare(p, FeatureLadder.Udp, n, local).value.packet;
            && |p| == 53 && |q| == 42 && q[30..] == p[41..] && Parses(q, local)
            && NameAt(p, 41) == Some([1, 97, 0]) && NameAt(q, 30) == Some([0])
  {
    OptFirstOctets(p, OwnerA());
    NameIsA(p, 28);
    PointsToA(p, 41);
    OptFirstPrepared(p, OwnerA(), n, local);
    var q := RemoveOpt(p, Span(0, 17, 28)).value;
    OptFirstRemoved(p, OwnerA(), q);
    NameIsA(q, 17);
    OptGone(p, OwnerA(), q, local);
  }

  // ----- Chance -----------------------------------------------------------------------------------------------

  lemma ReadsMoved(p: seq<Byte>, from: nat)
    requires |p| == 53 && p[28] == 0 && p[41] == 192 && p[42] == 28
    ensures !SettledAt(p, 41, from, 17)
  {
    PointerHere(p, 41, 28, MAX_JUMPS, MAX_LABELS);
    RootHere(p, 28, MAX_JUMPS - 1, MAX_LABELS);
    CellIs(p, 41);
    CellIs(p, 28);
  }

  lemma NotGuarded(p: seq<Byte>)
    requires OptFirst(p, OwnerRoot()) && Scanned(p).Some? && Scanned(p).value.0 == 17
    requires Scanned(p).value.1.opt == Some(Span(0, 17, 28))
    ensures !Guarded(p, FeatureLadder.Udp)
  {
    var a, b, c := SmallOpt(), OwnerRoot(), OwnerAt28();
    OptFirstOctets(p, b);
    NullRecords();
    SmallOptFits();
    HeadSays(p, 3);
    ThreeStand(p, a, b, c);
    RecordsAre(p, [a, b, c]);
    NotSettled(p, Touched(Additional(p), CountAfter(p, Scanned(p).value.1.opt, FeatureLadder.Udp)), [a, b, c]);
  }

  lemma NotSettled(p: seq<Byte>, from: nat, rs: seq<Record>)
    requires |p| == 53 && p[28] == 0 && p[41] == 192 && p[42] == 28
    requires AreRecords(rs) && |rs| == 3 && Null(rs[2]) && Offset(17, rs, 2) == 41
    ensures !RecordsSettled(p, 17, rs, from, 17)
  {
    ReadsMoved(p, from);
    assert Names(rs[2]) == [0];
    assert !SettledAt(p, 41 + Names(rs[2])[0], from, 17);
    assert !RecordSettled(p, 17, rs, 2, from, 17);
  }

  /** A query that is not guarded, and reads the same all the same: the octets that come to stand there are equal. */
  lemma ChanceReadsSame(n: Word, local: LocalCheck) returns (p: seq<Byte>)
    ensures Prepare(p, FeatureLadder.Udp, n, local).Some? && !Scanned(p).value.1.tsig && !Guarded(p, FeatureLadder.Udp)
    ensures var q := Prepare(p, FeatureLadder.Udp, n, local).value.packet;
            && |p| == 53 && |q| == 42 && Parses(q, local) && NameAt(q, 12) == NameAt(p, 12) == Some([0])
            && NameAt(q, 17) == NameAt(p, 28) == Some([0]) && NameAt(q, 30) == NameAt(p, 41) == Some([0])
  {
    p := [0, 0, 1, 0, 0, 1, 0, 0, 0, 0, 0, 3, 0, 0, 1, 0, 1] + (SmallOpt() + OwnerRoot() + OwnerAt28());
    assert p[17..] == SmallOpt() + OwnerRoot() + OwnerAt28();
    NullRecords();
    ChanceRead(p, n, local);
  }

  lemma ChanceRead(p: seq<Byte>, n: Word, local: LocalCheck)
    requires OptFirst(p, OwnerRoot())
    ensures Prepare(p, FeatureLadder.Udp, n, local).Some? && !Scanned(p).value.1.tsig && !Guarded(p, FeatureLadder.Udp)
    ensures var q := Prepare(p, FeatureLadder.Udp, n, local).value.packet;
            && |p| == 53 && |q| == 42 && Parses(q, local) && NameAt(q, 12) == NameAt(p, 12) == Some([0])
            && NameAt(q, 17) == NameAt(p, 28) == Some([0]) && NameAt(q, 30) == NameAt(p, 41) == Some([0])
  {
    var b := OwnerRoot();
    OptFirstOctets(p, b);
    RootName(p, 12);
    RootName(p, 28);
    PointsToRoot(p, 41);
    OptFirstPrepared(p, b, n, local);
    NotGuarded(p);
    var q := RemoveOpt(p, Span(0, 17, 28)).value;
    OptFirstRemoved(p, b, q);
    RootName(q, 12);
    RootName(q, 17);
    OptGone(p, b, q, local);
  }
}

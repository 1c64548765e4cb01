/**
 * How a DNS message is cut into questions and resource records (section 4.1 of RFC 1035):
 * each is delimited by its own octets, wherever it stands in the message.
 */
module DnsRecords {
  import opened Bytes

  type Record = seq<Byte>

  /** The offset after the name at `at`; a pointer ends it. */
  function NameEnd(p: seq<Byte>, at: nat): Option<nat>
    decreases |p| - at
  {
    if at >= |p| then None
    else if p[at] == 0 then Some(at + 1)
    else if p[at] >= 192 then if at + 2 <= |p| then Some(at + 2) else None
    else if p[at] > 63 || at + 1 + p[at] > |p| then None
    else NameEnd(p, at + 1 + p[at])
  }

  /** The offset after the record at `at`: a name, ten fixed octets, and the data. */
  function RecordEnd(p: seq<Byte>, at: nat): Option<nat> {
    var e := NameEnd(p, at);
    if e.None? || e.value + 10 > |p| || e.value + 10 + WordAt(p, e.value + 8) > |p| then None
    else Some(e.value + 10 + WordAt(p, e.value + 8))
  }

  lemma {:induction false} NameEndBounds(p: seq<Byte>, at: nat)
    requires NameEnd(p, at).Some?
    ensures at < NameEnd(p, at).value <= |p|
    decreases |p| - at
  {
    if p[at] != 0 && p[at] <= 63 { NameEndBounds(p, at + 1 + p[at]); }
  }

  lemma RecordEndBounds(p: seq<Byte>, at: nat)
    requires RecordEnd(p, at).Some?
    ensures at < NameEnd(p, at).value && NameEnd(p, at).value + 10 <= RecordEnd(p, at).value <= |p|
  {
    NameEndBounds(p, at);
  }

  /** `n` octets at `a` in `p` equal those at `b` in `q`. */
  predicate Same(p: seq<Byte>, a: nat, q: seq<Byte>, b: nat, n: nat) {
    a + n <= |p| && b + n <= |q| && forall i | a <= i < a + n :: p[i] == q[i - a + b]
  }

  lemma SameRest(p: seq<Byte>, a: nat, q: seq<Byte>, b: nat, n: nat, k: nat)
    requires Same(p, a, q, b, n) && k <= n
    ensures Same(p, a + k, q, b + k, n - k)
  {
  }

  /** Where a name ends depends on its own octets only. */
  lemma {:induction false} NameIsLocal(p: seq<Byte>, a: nat, q: seq<Byte>, b: nat, n: nat)
    requires Same(p, a, q, b, n) && NameEnd(p, a).Some? && NameEnd(p, a).value <= a + n
    ensures NameEnd(q, b) == Some(b + (NameEnd(p, a).value - a))
    decreases |p| - a
  {
    NameEndBounds(p, a);
    assert p[a] == q[b];
    if p[a] != 0 && p[a] <= 63 {
      var k := 1 + p[a];
      NameEndBounds(p, a + k);
      SameRest(p, a, q, b, n, k);
      NameIsLocal(p, a + k, q, b + k, n - k);
    }
  }

  lemma SameWord(p: seq<Byte>, a: nat, q: seq<Byte>, b: nat, n: nat, k: nat)
    requires Same(p, a, q, b, n) && k + 2 <= n
    ensures WordAt(p, a + k) == WordAt(q, b + k)
  {
    assert p[a + k] == q[b + k] && p[a + k + 1] == q[b + k + 1];
  }

  /** Where a record ends depends on its own octets only. */
  lemma RecordIsLocal(p: seq<Byte>, a: nat, q: seq<Byte>, b: nat, n: nat)
    requires Same(p, a, q, b, n) && RecordEnd(p, a).Some? && RecordEnd(p, a).value <= a + n
    ensures RecordEnd(q, b) == Some(b + (RecordEnd(p, a).value - a))
    ensures NameEnd(q, b) == Some(b + (NameEnd(p, a).value - a))
  {
    RecordEndBounds(p, a);
    NameIsLocal(p, a, q, b, n);
    SameWord(p, a, q, b, n, NameEnd(p, a).value - a + 8);
  }

  /** A sequence of octets that is one record. */
  predicate IsRecord(r: Record) { RecordEnd(r, 0) == Some(|r|) }

  /** The type of the record at `at`. */
  function TypeAt(p: seq<Byte>, at: nat): Word
    requires RecordEnd(p, at).Some?
  {
    WordAt(p, NameEnd(p, at).value)
  }

  function TypeOf(r: Record): Word
    requires IsRecord(r)
  {
    TypeAt(r, 0)
  }

  lemma SameHasAt(p: seq<Byte>, at: nat, r: seq<Byte>)
    requires HasAt(p, at, r)
    ensures Same(r, 0, p, at, |r|) && Same(p, at, r, 0, |r|)
  {
    forall i | 0 <= i < |r| ensures r[i] == p[i - 0 + at] { assert p[at..at + |r|][i] == r[i]; }
    forall i | at <= i < at + |r| ensures p[i] == r[i - at + 0] { assert p[at..at + |r|][i - at] == p[i]; }
  }

  /** A name ends in the message as it does in the record it belongs to. */
  lemma {:induction false} NameInPlace(p: seq<Byte>, at: nat, r: seq<Byte>, n: nat)
    requires HasAt(p, at, r) && NameEnd(r, n).Some?
    ensures NameEnd(p, at + n) == Some(at + NameEnd(r, n).value)
    decreases |r| - n
  {
    assert p[at + n] == r[n] by { assert p[at..at + |r|][n] == r[n]; }
    if 0 < r[n] <= 63 { NameInPlace(p, at, r, n + 1 + r[n]); }
  }

  lemma WordInPlace(p: seq<Byte>, at: nat, r: seq<Byte>, k: nat)
    requires HasAt(p, at, r) && k + 2 <= |r|
    ensures WordAt(p, at + k) == WordAt(r, k)
  {
    var x := p[at..at + |r|];
    assert x[k] == r[k] && x[k + 1] == r[k + 1];
  }

  lemma EndsAlike(p: seq<Byte>, at: nat, r: Record, e: nat)
    requires IsRecord(r) && NameEnd(r, 0) == Some(e) && NameEnd(p, at) == Some(at + e) && at + |r| <= |p| && e + 10 <= |r|
    requires WordAt(p, at + e) == WordAt(r, e) && WordAt(p, at + (e + 8)) == WordAt(r, e + 8)
    ensures RecordEnd(p, at) == Some(at + |r|) && TypeAt(p, at) == TypeOf(r)
  {
  }

  /** A record in a message ends where its octets end, and has the same type there. */
  lemma RecordInPlace(p: seq<Byte>, at: nat, r: Record)
    requires HasAt(p, at, r) && IsRecord(r)
    ensures RecordEnd(p, at) == Some(at + |r|) && TypeAt(p, at) == TypeOf(r)
    ensures NameEnd(p, at) == Some(at + NameEnd(r, 0).value)
  {
    var e := NameEnd(r, 0).value;
    RecordEndBounds(r, 0);
    NameInPlace(p, at, r, 0);
    WordInPlace(p, at, r, e);
    WordInPlace(p, at, r, e + 8);
    EndsAlike(p, at, r, e);
  }

  /** What is cut out of a message is a record. */
  lemma RecordCutOut(p: seq<Byte>, at: nat)
    requires RecordEnd(p, at).Some?
    ensures at < RecordEnd(p, at).value <= |p| && IsRecord(p[at..RecordEnd(p, at).value])
  {
    RecordEndBounds(p, at);
    var r := p[at..RecordEnd(p, at).value];
    assert HasAt(p, at, r);
    SameHasAt(p, at, r);
    RecordIsLocal(p, at, r, 0, |r|);
  }

  // ----- Sequences of records --------------------------------------------------------------------

  /** The octets of records `a` to `b`. */
  function Between(rs: seq<Record>, a: nat, b: nat): seq<Byte>
    requires b <= |rs|
    decreases b
  {
    if b <= a then [] else Between(rs, a, b - 1) + rs[b - 1]
  }

  predicate AreRecords(rs: seq<Record>) { forall i | 0 <= i < |rs| :: IsRecord(rs[i]) }

  /** The octets of `p` from `start` to the end are these records. */
  ghost predicate Reads(p: seq<Byte>, start: nat, rs: seq<Record>) {
    start <= |p| && AreRecords(rs) && p[start..] == Between(rs, 0, |rs|)
  }

  lemma {:induction false} BetweenSplit(rs: seq<Record>, a: nat, b: nat, c: nat)
    requires a <= b <= c <= |rs|
    ensures Between(rs, a, c) == Between(rs, a, b) + Between(rs, b, c)
    decreases c
  {
    if b < c {
      BetweenSplit(rs, a, b, c - 1);
      Assoc(Between(rs, a, b), Between(rs, b, c - 1), rs[c - 1]);
    }
  }

  /** Record `k` stands in the message after the first `k` records. */
  lemma RecordStands(p: seq<Byte>, start: nat, rs: seq<Record>, k: nat)
    requires Reads(p, start, rs) && k < |rs|
    ensures HasAt(p, start + |Between(rs, 0, k)|, rs[k])
    ensures |Between(rs, 0, k + 1)| == |Between(rs, 0, k)| + |rs[k]|
  {
    var all := Between(rs, 0, |rs|);
    BetweenSplit(rs, 0, k + 1, |rs|);
    assert HasAt(p, start, all);
    HasAtSplit(p, start, Between(rs, 0, k + 1), Between(rs, k + 1, |rs|));
    HasAtSplit(p, start, Between(rs, 0, k), rs[k]);
  }

  lemma OneRecordHere(p: seq<Byte>, at: nat, r: Record, t: Record)
    requires HasAt(p, at, r) && HasAt(p, at, t) && IsRecord(r) && IsRecord(t)
    ensures r == t
  {
    RecordInPlace(p, at, r);
    RecordInPlace(p, at, t);
  }

  lemma ReadsHere(p: seq<Byte>, start: nat, rs: seq<Record>, k: nat)
    requires Reads(p, start, rs) && k < |rs|
    ensures HasAt(p, start + |Between(rs, 0, k)|, rs[k]) && IsRecord(rs[k])
    ensures Between(rs, 0, k + 1) == Between(rs, 0, k) + rs[k]
  {
    RecordStands(p, start, rs, k);
  }

  lemma SameNext(p: seq<Byte>, start: nat, rs: seq<Record>, ts: seq<Record>, k: nat)
    requires Reads(p, start, rs) && Reads(p, start, ts) && k < |rs| && k < |ts| && Between(rs, 0, k) == Between(ts, 0, k)
    ensures rs[k] == ts[k] && Between(rs, 0, k + 1) == Between(ts, 0, k + 1)
  {
    ReadsHere(p, start, rs, k);
    ReadsHere(p, start, ts, k);
    OneRecordHere(p, start + |Between(rs, 0, k)|, rs[k], ts[k]);
  }

  /** Two readings of the same octets agree. */
  lemma {:induction false} ReadingIsUnique(p: seq<Byte>, start: nat, rs: seq<Record>, ts: seq<Record>, k: nat)
    requires Reads(p, start, rs) && Reads(p, start, ts) && k <= |rs| && k <= |ts|
    ensures Between(rs, 0, k) == Between(ts, 0, k) && forall i | 0 <= i < k :: rs[i] == ts[i]
    decreases k
  {
    if k > 0 {
      ReadingIsUnique(p, start, rs, ts, k - 1);
      SameNext(p, start, rs, ts, k - 1);
    }
  }
}

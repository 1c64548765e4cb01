/**
 * `parse_sections`: every question and record of a message, with the names in them read and
 * the record data checked.
 *
 * The parameter `local` stands for the checks of those record types whose data holds no name
 * that may be compressed; it is given the type and the data octets and nothing else.
 */
module WireSections {
  import opened Bytes
  import opened DnsRecords
  import opened NameReading
  import opened OptRecord

  const TYPE_TSIG: Word := 250

  type LocalCheck = (Word, seq<Byte>) -> bool

  // ----- Questions ------------------------------------------------------------------------------

  /** The offset after one question: a name, a type that may be asked for, and a class. */
  function QuestionEnd(p: seq<Byte>, at: nat): Option<nat> {
    var e := NameEnd(p, at);
    if e.None? || e.value + 4 > |p| then None
    else
      var t := WordAt(p, e.value);
      if t == 0 || t == TYPE_OPT || t == 46 || t == 249 || t == TYPE_TSIG then None else Some(e.value + 4)
  }

  function QuestionsEnd(p: seq<Byte>, k: nat): Option<nat> {
    if k == 0 then Some(12)
    else
      var before := QuestionsEnd(p, k - 1);
      if before.None? then None else QuestionEnd(p, before.value)
  }

  /** The names of the first `k` questions read. */
  predicate QuestionsRead(p: seq<Byte>, k: nat) {
    && QuestionsEnd(p, k).Some?
    && (k > 0 ==> QuestionsRead(p, k - 1) && NameAt(p, QuestionsEnd(p, k - 1).value).Some?)
  }

  lemma {:induction false} QuestionsFailOn(p: seq<Byte>, k: nat, n: nat)
    requires k <= n && !QuestionsRead(p, k)
    ensures !QuestionsRead(p, n)
  {
    if k < n { QuestionsFailOn(p, k, n - 1); }
  }

  function Questions(p: seq<Byte>): Word requires |p| >= 12 { WordAt(p, 4) }

  /** Records before the additional section. */
  function First(p: seq<Byte>): nat requires |p| >= 12 { WordAt(p, 6) + WordAt(p, 8) }

  function Additional(p: seq<Byte>): Word requires |p| >= 12 { WordAt(p, 10) }

  function Total(p: seq<Byte>): nat requires |p| >= 12 { First(p) + Additional(p) }

  // ----- Records --------------------------------------------------------------------------------

  /** Classes and types no record may have. */
  predicate LegalAt(p: seq<Byte>, at: nat)
    requires RecordEnd(p, at).Some?
  {
    && TypeAt(p, at) != 251 && TypeAt(p, at) != 252 && TypeAt(p, at) != 255
    && WordAt(p, NameEnd(p, at).value + 2) != 255
  }

  predicate Legal(r: Record) requires IsRecord(r) { LegalAt(r, 0) }

  /** Where the data of a record starts. */
  function DataAt(r: Record): (d: nat)
    requires IsRecord(r)
    ensures d <= |r|
  {
    NameEnd(r, 0).value + 10
  }

  /** NS, CNAME, PTR and DNAME: the data is one name. */
  predicate IsNameType(t: Word) { t == 2 || t == 5 || t == 12 || t == 39 }

  /** Types whose data has other structure, without a name that may be compressed. */
  predicate IsLocalType(t: Word) {
    t == 13 || t == 16 || t == 29 || t == 35 || t == 46 || t == 47 || t == 50 || t == 51 || t == 64 || t == 65 || t == 99 || t == 257
  }

  /** Where the first compressible name of the data starts, if the type has one. */
  function FirstName(r: Record): Option<nat>
    requires IsRecord(r)
  {
    var t, d := TypeOf(r), DataAt(r);
    if IsNameType(t) || t == 6 then Some(d) else if t == 15 then Some(d + 2) else if t == 33 then Some(d + 6) else None
  }

  /** The offsets in a record at which its names start: the owner's, and those in the data. */
  function Names(r: Record): seq<nat>
    requires IsRecord(r)
  {
    var n := FirstName(r);
    if n.None? then [0]
    else if TypeOf(r) == 6 && NameEnd(r, n.value).Some? then [0, n.value, NameEnd(r, n.value).value]
    else [0, n.value]
  }

  /** The record's own octets are in order: lengths, and names that end where they must. */
  predicate WellShaped(r: Record, local: LocalCheck)
    requires IsRecord(r)
  {
    var t, d, n := TypeOf(r), DataAt(r), FirstName(r);
    if t == 1 then |r| == d + 4
    else if t == 28 then |r| == d + 16
    else if t == 6 then
      var m := NameEnd(r, d);
      m.Some? && NameEnd(r, m.value).Some? && NameEnd(r, m.value).value + 20 == |r|
    else if n.Some? then NameEnd(r, n.value) == Some(|r|)
    else if t == 43 || t == 48 then |r| >= d + 5
    else if t == 44 then |r| >= d + 3
    else if t == 52 then |r| >= d + 4
    else IsLocalType(t) ==> local(t, r[d..])
  }

  /** The names of a record at `at` read in the message. */
  predicate NamesRead(p: seq<Byte>, at: nat, names: seq<nat>) {
    forall i | 0 <= i < |names| :: NameAt(p, at + names[i]).Some?
  }

  /** A record and the offset it was found at. */
  datatype Item = Item(at: nat, r: Record)

  /** The record at an offset, cut out of the message. */
  function RecordAt(p: seq<Byte>, at: nat): Option<Record> {
    var e := RecordEnd(p, at);
    if e.None? || e.value < at then None else Some(p[at..e.value])
  }

  /** What `parse_record` accepts of a record found in `p`. */
  predicate Sound(p: seq<Byte>, f: Item, local: LocalCheck) {
    IsRecord(f.r) && Legal(f.r) && WellShaped(f.r, local) && NamesRead(p, f.at, Names(f.r))
  }

  /** The next offset, given the records so far. */
  function NextAt(start: nat, found: seq<Item>): nat {
    if found == [] then start else found[|found| - 1].at + |found[|found| - 1].r|
  }

  /** The first `k` records, as their lengths cut them. */
  function RecordsTo(p: seq<Byte>, start: nat, k: nat): Option<seq<Item>> {
    if k == 0 then Some([])
    else
      var before := RecordsTo(p, start, k - 1);
      if before.None? then None
      else
        var at := NextAt(start, before.value);
        var r := RecordAt(p, at);
        if r.None? then None else Some(before.value + [Item(at, r.value)])
  }

  predicate AllSound(p: seq<Byte>, found: seq<Item>, local: LocalCheck) {
    forall i | 0 <= i < |found| :: Sound(p, found[i], local)
  }

  /** What `parse_sections` accepts, up to the end of the message. */
  predicate Parses(p: seq<Byte>, local: LocalCheck) {
    && |p| >= 12 && QuestionsRead(p, Questions(p))
    && var start, found := QuestionsEnd(p, Questions(p)).value, RecordsTo(p, QuestionsEnd(p, Questions(p)).value, Total(p));
    && found.Some? && NextAt(start, found.value) == |p| && AllSound(p, found.value, local)
  }

  // ----- The loops --------------------------------------------------------------------------------

  method ParseQuestion(p: seq<Byte>, at: nat) returns (end: Option<nat>)
    ensures end == if NameAt(p, at).Some? then QuestionEnd(p, at) else None
  {
    var name := ReadName(p, at);
    if name.None? { return None; }
    var e := name.value.1;
    if e + 4 > |p| { return None; }
    var t := WordAt(p, e);
    if t == 0 || t == TYPE_OPT || t == 46 || t == 249 || t == TYPE_TSIG { return None; }
    return Some(e + 4);
  }

  method ParseQuestions(p: seq<Byte>) returns (end: Option<nat>)
    requires |p| >= 12
    ensures end == if QuestionsRead(p, Questions(p)) then QuestionsEnd(p, Questions(p)) else None
  {
    var offset := 12;
    for k := 0 to Questions(p)
      invariant QuestionsRead(p, k) && QuestionsEnd(p, k) == Some(offset)
    {
      var next := ParseQuestion(p, offset);
      if next.None? {
        QuestionsFailOn(p, k + 1, Questions(p));
        return None;
      }
      offset := next.value;
    }
    return Some(offset);
  }

  /** The readings of the names a record holds. */
  method ReadNames(p: seq<Byte>, at: nat, names: seq<nat>) returns (ok: bool)
    ensures ok <==> NamesRead(p, at, names)
  {
    for i := 0 to |names|
      invariant forall j | 0 <= j < i :: NameAt(p, at + names[j]).Some?
    {
      var name := ReadName(p, at + names[i]);
      if name.None? { return false; }
    }
    return true;
  }

  /** `parse_record`. */
  method ParseRecord(p: seq<Byte>, at: nat, local: LocalCheck) returns (f: Option<Item>)
    ensures f.Some? ==> RecordAt(p, at) == Some(f.value.r) && f.value.at == at && Sound(p, f.value, local)
    ensures f.None? ==> RecordAt(p, at).None? || !Sound(p, Item(at, RecordAt(p, at).value), local)
  {
    var r := RecordAt(p, at);
    if r.None? { return None; }
    RecordCutOut(p, at);
    if !Legal(r.value) || !WellShaped(r.value, local) { return None; }
    var ok := ReadNames(p, at, Names(r.value));
    return if ok then Some(Item(at, r.value)) else None;
  }

  lemma {:induction false} RecordsToSize(p: seq<Byte>, start: nat, k: nat)
    requires RecordsTo(p, start, k).Some?
    ensures |RecordsTo(p, start, k).value| == k
  {
    if k > 0 { RecordsToSize(p, start, k - 1); }
  }

  lemma {:induction false} RecordsToBefore(p: seq<Byte>, start: nat, k: nat, n: nat)
    requires k < n && RecordsTo(p, start, n).Some?
    ensures RecordsTo(p, start, k + 1).Some? && |RecordsTo(p, start, k + 1).value| == k + 1
    ensures |RecordsTo(p, start, n).value| == n && RecordsTo(p, start, n).value[k] == RecordsTo(p, start, k + 1).value[k]
    decreases n
  {
    RecordsToSize(p, start, n);
    RecordsToSize(p, start, n - 1);
    if k + 1 < n { RecordsToBefore(p, start, k, n - 1); }
  }

  lemma Rejected(p: seq<Byte>, start: nat, found: seq<Item>, k: nat, n: nat, local: LocalCheck)
    requires k < n && RecordsTo(p, start, k) == Some(found)
    requires var at := NextAt(start, found);
             RecordAt(p, at).None? || !Sound(p, Item(at, RecordAt(p, at).value), local)
    ensures RecordsTo(p, start, n).None? || !AllSound(p, RecordsTo(p, start, n).value, local)
  {
    if RecordsTo(p, start, n).Some? {
      RecordsToBefore(p, start, k, n);
      RecordsToSize(p, start, k);
      var all := RecordsTo(p, start, n).value;
      assert all[k] == Item(NextAt(start, found), RecordAt(p, NextAt(start, found)).value);
    }
  }

  lemma SoundToo(p: seq<Byte>, found: seq<Item>, f: Item, local: LocalCheck)
    requires AllSound(p, found, local) && Sound(p, f, local)
    ensures AllSound(p, found + [f], local)
  {
  }

  /** `parse_sections` with the test for trailing octets. */
  method ParseSections(p: seq<Byte>, local: LocalCheck) returns (r: Option<seq<Item>>)
    ensures r.Some? <==> Parses(p, local)
    ensures r.Some? ==> RecordsTo(p, QuestionsEnd(p, Questions(p)).value, Total(p)) == r
  {
    if |p| < 12 { return None; }
    var questions := ParseQuestions(p);
    if questions.None? { return None; }
    var start := questions.value;
    var found: seq<Item> := [];
    for k := 0 to Total(p)
      invariant RecordsTo(p, start, k) == Some(found) && AllSound(p, found, local)
    {
      var next := ParseRecord(p, NextAt(start, found), local);
      if next.None? {
        Rejected(p, start, found, k, Total(p), local);
        return None;
      }
      SoundToo(p, found, next.value, local);
      found := found + [next.value];
    }
    return if NextAt(start, found) == |p| then Some(found) else None;
  }
}

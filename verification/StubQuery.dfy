/** The NSS stub's query builder and its check that a response answers the query. */
module StubQuery {
  import opened Bytes
  import opened NameChain
  import opened NameWalk
  import opened NameText

  const HEADER_SIZE: nat := 12
  const CLASS_IN: Word := 1

  /** A C string as long as its first NUL. */
  function CStringLength(s: seq<Byte>, i: nat): (n: nat)
    requires i <= |s|
    ensures i <= n <= |s|
    decreases |s| - i
  {
    if i == |s| || s[i] == 0 then i else CStringLength(s, i + 1)
  }

  function CString(s: seq<Byte>): seq<Byte> { s[..CStringLength(s, 0)] }

  lemma {:induction false} NoNulLength(s: seq<Byte>, i: nat)
    requires i <= |s| && 0 !in s
    ensures CStringLength(s, i) == |s|
    decreases |s| - i
  {
    if i < |s| { NoNulLength(s, i + 1); }
  }

  ghost function Question(name: seq<Byte>, qtype: Word): seq<Byte>
    requires LabelsOk(name, Start(name))
  {
    Wire(name) + (WordBytes(qtype) + WordBytes(CLASS_IN))
  }

  /** A header with one question; `flags` is its third octet. */
  function Header(id: Word, flags: Byte): (h: seq<Byte>)
    ensures |h| == HEADER_SIZE
  {
    [id / 256, id % 256, flags, 0, 0, 1, 0, 0, 0, 0, 0, 0]
  }

  /** A query with recursion desired and one question. */
  ghost function QueryBytes(name: seq<Byte>, qtype: Word, id: Word): seq<Byte>
    requires LabelsOk(name, Start(name))
  {
    Header(id, 1) + Question(name, qtype)
  }

  method BuildQuery(name: seq<Byte>, qtype: Word, id: Word, packet: array<Byte>) returns (ok: bool, length: nat)
    modifies packet
    ensures ok <==> packet.Length >= HEADER_SIZE && Encodable(name, packet.Length - HEADER_SIZE)
                    && HEADER_SIZE + |Wire(name)| + 4 <= packet.Length
    ensures ok ==> length <= packet.Length && packet[..length] == QueryBytes(name, qtype, id)
  {
    if packet.Length < HEADER_SIZE { return false, 0; }
    var wire := new Byte[packet.Length - HEADER_SIZE];
    var n;
    ok, n := SrEncodeName(name, wire);
    if !ok { return false, 0; }
    length := HEADER_SIZE + n;
    if length + 4 > packet.Length { return false, 0; }
    WriteThree(Header(id, 1), wire[..n], WordBytes(qtype) + WordBytes(CLASS_IN), packet);
    length := length + 4;
  }

  /** Writes three byte strings one after the other. */
  method WriteThree(a: seq<Byte>, b: seq<Byte>, c: seq<Byte>, packet: array<Byte>)
    requires |a| + |b| + |c| <= packet.Length
    modifies packet
    ensures packet[..|a| + |b| + |c|] == a + (b + c)
  {
    CopyInto(a, packet, 0);
    CopyInto(b, packet, |a|);
    CopyInto(c, packet, |a| + |b|);
    var ab, abc := |a| + |b|, |a| + |b| + |c|;
    assert packet[..ab] == packet[..|a|] + packet[|a|..ab];
    assert packet[..abc] == packet[..ab] + packet[ab..abc];
    Assoc(a, b, c);
  }

  method CopyInto(src: seq<Byte>, out: array<Byte>, at: nat)
    requires at + |src| <= out.Length
    modifies out
    ensures out[..at] == old(out[..at]) && out[at..at + |src|] == src
  {
    for i := 0 to |src|
      invariant forall k | 0 <= k < at :: out[k] == old(out[k])
      invariant forall k | at <= k < at + i :: out[k] == src[k - at]
    {
      out[at + i] := src[i];
    }
  }

  /** The first question of `response` is the one asked, up to ASCII case of the name. */
  ghost predicate Answers(response: seq<Byte>, id: Word, name: seq<Byte>, qtype: Word) {
    && HEADER_SIZE <= |response|
    && WordAt(response, 0) == id && response[2] >= 128 && WordAt(response, 4) == 1
    && exists p :: AsksFor(response, name, qtype, p)
  }

  ghost predicate AsksFor(response: seq<Byte>, name: seq<Byte>, qtype: Word, p: Path) {
    && Expands(response, HEADER_SIZE, NAME_WIRE_MAX + 1, p)
    && Resume(response, p) + 4 <= |response|
    && Lower(CString(Present(Text(response, p)))) == Lower(name)
    && WordAt(response, Resume(response, p)) == qtype
    && WordAt(response, Resume(response, p) + 2) == CLASS_IN
  }

  method ValidateResponse(response: seq<Byte>, id: Word, name: seq<Byte>, qtype: Word) returns (ok: bool)
    ensures ok <==> Answers(response, id, name, qtype)
  {
    if |response| < HEADER_SIZE || WordAt(response, 0) != id || response[2] < 128 || WordAt(response, 4) != 1 {
      return false;
    }
    var buffer := new Byte[NAME_WIRE_MAX + 1];
    var expanded, next, length, p := ExpandName(response, HEADER_SIZE, buffer);
    if !expanded { return false; }
    forall q | AsksFor(response, name, qtype, q) ensures p == q { NamePathUnique(response, HEADER_SIZE, p, q); }
    ok := next + 4 <= |response| && Lower(CString(buffer[..length])) == Lower(name)
          && WordAt(response, next) == qtype && WordAt(response, next + 2) == CLASS_IN;
    assert ok ==> AsksFor(response, name, qtype, p);
  }

  /**
   * A server that echoes the question back with the QR bit set is believed exactly
   * when the name was given without a final dot (or is the root itself): the check
   * compares the expanded name, which never ends in a dot, with the caller's text.
   */
  lemma EchoAnswersIffNoFinalDot(name: seq<Byte>, qtype: Word, id: Word)
    requires Encodable(name, NAME_WIRE_MAX) && 0 !in name
    ensures Answers(QueryBytes(name, qtype, id)[2 := 129], id, name, qtype) <==> name == [DOT] || !EndsWithDot(name)
  {
    var echo := QueryBytes(name, qtype, id)[2 := 129];
    var p := EchoedQuestion(name, qtype, id, echo);
    var text := Present(Text(echo, p));
    NoNulText(name, text);
    assert CString(text) == text;
    forall q | AsksFor(echo, name, qtype, q) ensures p == q { NamePathUnique(echo, HEADER_SIZE, p, q); }
    LowerIdempotent(Undotted(name));
    assert AsksFor(echo, name, qtype, p) <==> Lower(text) == Lower(name);
  }

  lemma EchoedQuestion(name: seq<Byte>, qtype: Word, id: Word, echo: seq<Byte>) returns (p: Path)
    requires Encodable(name, NAME_WIRE_MAX) && echo == QueryBytes(name, qtype, id)[2 := 129]
    ensures Expands(echo, HEADER_SIZE, NAME_WIRE_MAX + 1, p)
    ensures Present(Text(echo, p)) == if name == [DOT] then name else Lower(Undotted(name))
    ensures WordAt(echo, 0) == id && echo[2] == 129 && WordAt(echo, 4) == 1
    ensures Resume(echo, p) + 4 == |echo|
    ensures WordAt(echo, Resume(echo, p)) == qtype && WordAt(echo, Resume(echo, p) + 2) == CLASS_IN
  {
    var question, tail := Question(name, qtype), WordBytes(qtype) + WordBytes(CLASS_IN);
    EchoLayout(id, question);
    HasAtSplit(echo, HEADER_SIZE, Wire(name), tail);
    p := EncodedNameExpands(name, echo, HEADER_SIZE, NAME_WIRE_MAX + 1);
    TailWords(echo, Resume(echo, p), qtype);
  }

  lemma EchoLayout(id: Word, question: seq<Byte>)
    ensures var echo := (Header(id, 1) + question)[2 := 129];
            && |echo| == HEADER_SIZE + |question| && HasAt(echo, HEADER_SIZE, question)
            && WordAt(echo, 0) == id && echo[2] == 129 && WordAt(echo, 4) == 1
  {
    var echo := (Header(id, 1) + question)[2 := 129];
    assert echo[HEADER_SIZE..] == question;
  }

  lemma TailWords(msg: seq<Byte>, at: nat, qtype: Word)
    requires HasAt(msg, at, WordBytes(qtype) + WordBytes(CLASS_IN))
    ensures WordAt(msg, at) == qtype && WordAt(msg, at + 2) == CLASS_IN
  {
    HasAtSplit(msg, at, WordBytes(qtype), WordBytes(CLASS_IN));
    HasWordAt(msg, at, qtype);
    HasWordAt(msg, at + 2, CLASS_IN);
  }

  lemma NoNulText(name: seq<Byte>, text: seq<Byte>)
    requires 0 !in name && text == if name == [DOT] then name else Lower(Undotted(name))
    ensures CString(text) == text
  {
    forall i | 0 <= i < |text| ensures text[i] != 0 {
      if name != [DOT] { LowerAt(Undotted(name), i); }
    }
    NoNulLength(text, 0);
  }

  // ----- Letter case ---------------------------------------------------------------------------------

  lemma {:induction false} LengthFoldsCase(a: seq<Byte>, b: seq<Byte>, i: nat)
    requires SameButCase(a, b) && i <= |a|
    ensures CStringLength(a, i) == CStringLength(b, i)
    decreases |a| - i
  {
    if i < |a| {
      assert SameLetter(a[i], b[i]);
      if a[i] != 0 { LengthFoldsCase(a, b, i + 1); }
    }
  }

  lemma CStringFoldsCase(a: seq<Byte>, b: seq<Byte>)
    requires SameButCase(a, b)
    ensures Lower(CString(a)) == Lower(CString(b))
  {
    LengthFoldsCase(a, b, 0);
    LowerFolds(CString(a), CString(b));
  }

  /** Outside the labels of its question name, all that the check looks at is the same. */
  ghost predicate SameRest(p: seq<Byte>, q: seq<Byte>, t: Path) {
    && |p| == |q| && (HEADER_SIZE <= |p| ==> p[..HEADER_SIZE] == q[..HEADER_SIZE])
    && (Resume(p, t) + 4 <= |p| ==> p[Resume(p, t)..Resume(p, t) + 4] == q[Resume(p, t)..Resume(p, t) + 4])
  }

  lemma SameWordsIn(p: seq<Byte>, q: seq<Byte>, a: nat, n: nat, k: nat)
    requires a + n <= |p| && |p| == |q| && p[a..a + n] == q[a..a + n] && k + 2 <= n
    ensures WordAt(p, a + k) == WordAt(q, a + k)
  {
    assert p[a..a + n][k] == q[a..a + n][k] && p[a..a + n][k + 1] == q[a..a + n][k + 1];
  }

  lemma TailSame(p: seq<Byte>, q: seq<Byte>, e: nat)
    requires e + 4 <= |p| == |q| && p[e..e + 4] == q[e..e + 4]
    ensures WordAt(p, e) == WordAt(q, e) && WordAt(p, e + 2) == WordAt(q, e + 2)
  {
    SameWordsIn(p, q, e, 4, 0);
    SameWordsIn(p, q, e, 4, 2);
  }

  lemma TextMatchesInAnyCase(p: seq<Byte>, q: seq<Byte>, t: Path)
    requires SamePathButCase(p, q, t)
    ensures Lower(CString(Present(Text(q, t)))) == Lower(CString(Present(Text(p, t))))
    ensures Expands(q, HEADER_SIZE, NAME_WIRE_MAX + 1, t) <==> Expands(p, HEADER_SIZE, NAME_WIRE_MAX + 1, t)
    ensures Resume(q, t) == Resume(p, t)
  {
    PathFoldsCase(p, q, HEADER_SIZE, t);
    ExpansionFoldsCase(p, q, HEADER_SIZE, NAME_WIRE_MAX + 1, t);
    CStringFoldsCase(Present(Text(p, t)), Present(Text(q, t)));
  }

  lemma QuestionFoldsCase(p: seq<Byte>, q: seq<Byte>, name: seq<Byte>, qtype: Word, t: Path)
    requires SamePathButCase(p, q, t) && SameRest(p, q, t)
    ensures AsksFor(q, name, qtype, t) <==> AsksFor(p, name, qtype, t)
  {
    TextMatchesInAnyCase(p, q, t);
    if Resume(p, t) + 4 <= |p| { TailSame(p, q, Resume(p, t)); }
  }

  lemma AnswersBy(p: seq<Byte>, id: Word, name: seq<Byte>, qtype: Word, t: Path)
    requires NamePath(p, HEADER_SIZE, t)
    ensures Answers(p, id, name, qtype) <==>
            && HEADER_SIZE <= |p| && WordAt(p, 0) == id && p[2] >= 128 && WordAt(p, 4) == 1 && AsksFor(p, name, qtype, t)
  {
    forall u | AsksFor(p, name, qtype, u) ensures u == t { NamePathUnique(p, HEADER_SIZE, u, t); }
  }

  lemma HeaderSame(p: seq<Byte>, q: seq<Byte>)
    requires HEADER_SIZE <= |p| == |q| && p[..HEADER_SIZE] == q[..HEADER_SIZE]
    ensures WordAt(p, 0) == WordAt(q, 0) && p[2] == q[2] && WordAt(p, 4) == WordAt(q, 4)
  {
    SameWordsIn(p, q, 0, HEADER_SIZE, 0);
    SameWordsIn(p, q, 0, HEADER_SIZE, 4);
    assert p[..HEADER_SIZE][2] == q[..HEADER_SIZE][2];
  }

  /** A response is accepted or not whatever the case of the letters in its question name. */
  lemma AnswersFoldsCase(p: seq<Byte>, q: seq<Byte>, id: Word, name: seq<Byte>, qtype: Word, t: Path)
    requires NamePath(p, HEADER_SIZE, t) && SamePathButCase(p, q, t) && SameRest(p, q, t)
    ensures Answers(q, id, name, qtype) <==> Answers(p, id, name, qtype)
  {
    NameFoldsCase(p, q, HEADER_SIZE, t);
    AnswersBy(p, id, name, qtype, t);
    AnswersBy(q, id, name, qtype, t);
    QuestionFoldsCase(p, q, name, qtype, t);
    if HEADER_SIZE <= |p| { HeaderSame(p, q); }
  }

  /**
   * In particular any one letter of the question name may change its case: the header, the
   * pointers on the way and the type and class after the name are what it may not belong to.
   */
  lemma AnswersWithOtherCase(p: seq<Byte>, i: nat, id: Word, name: seq<Byte>, qtype: Word, t: Path)
    requires NamePath(p, HEADER_SIZE, t) && HEADER_SIZE <= i < |p| && IsLetter(p[i])
    requires !InPointer(p, t, i) && !(Resume(p, t) <= i < Resume(p, t) + 4)
    ensures Answers(p[i := OtherCase(p[i])], id, name, qtype) <==> Answers(p, id, name, qtype)
  {
    PathWithOtherCase(p, HEADER_SIZE, t, i);
    AnswersFoldsCase(p, p[i := OtherCase(p[i])], id, name, qtype, t);
  }

  /** The name asked for may be given in any case as well. */
  lemma AskedInAnyCase(p: seq<Byte>, id: Word, a: seq<Byte>, b: seq<Byte>, qtype: Word)
    requires SameButCase(a, b)
    ensures Answers(p, id, a, qtype) <==> Answers(p, id, b, qtype)
  {
    LowerFolds(a, b);
    if Answers(p, id, a, qtype) {
      var t :| AsksFor(p, a, qtype, t);
      assert AsksFor(p, b, qtype, t);
    }
    if Answers(p, id, b, qtype) {
      var t :| AsksFor(p, b, qtype, t);
      assert AsksFor(p, a, qtype, t);
    }
  }

  // ----- The query the stub builds -----------------------------------------------------------------------

  lemma QueryLayout(name: seq<Byte>, qtype: Word, id: Word, q: seq<Byte>)
    requires LabelsOk(name, Start(name)) && q == QueryBytes(name, qtype, id)
    ensures |q| == HEADER_SIZE + |Wire(name)| + 4 && HasAt(q, HEADER_SIZE, Wire(name))
    ensures HasAt(q, HEADER_SIZE + |Wire(name)|, WordBytes(qtype) + WordBytes(CLASS_IN))
    ensures q[0] == id / 256 && q[1] == id % 256 && q[2] == 1 && q[3] == 0 && q[4] == 0 && q[5] == 1
    ensures q[6] == 0 && q[7] == 0 && q[8] == 0 && q[9] == 0 && q[10] == 0 && q[11] == 0
  {
    assert q[HEADER_SIZE..] == Question(name, qtype);
    assert HasAt(q, HEADER_SIZE, Question(name, qtype));
    HasAtSplit(q, HEADER_SIZE, Wire(name), WordBytes(qtype) + WordBytes(CLASS_IN));
  }

  lemma QueryPasses(q: seq<Byte>, p: Path)
    requires HEADER_SIZE <= |q| <= MESSAGE_MAX && q[2] == 1 && WordAt(q, 4) == 1
    requires WordAt(q, 6) == 0 && WordAt(q, 8) == 0 && WordAt(q, 10) == 0
    requires NamePath(q, 12, p) && Size(p) <= MAX_HOPS && |Spell(q, p)| <= NAME_WIRE_MAX && Resume(q, p) + 4 <= |q|
    ensures Prechecked(q, false)
  {
  }

  lemma QueryWords(name: seq<Byte>, qtype: Word, id: Word, q: seq<Byte>)
    requires LabelsOk(name, Start(name)) && q == QueryBytes(name, qtype, id)
    ensures |q| >= HEADER_SIZE && WordAt(q, 0) == id && q[2] == 1 && q[3] == 0
    ensures WordAt(q, 4) == 1 && WordAt(q, 6) == 0 && WordAt(q, 8) == 0 && WordAt(q, 10) == 0
  {
    QueryLayout(name, qtype, id, q);
  }

  /**
   * The query the stub builds asks one question with recursion desired and nothing else set, passes
   * the resolver's own precheck, and its question reads back: the name in lower case, type and class IN.
   */
  lemma QueryReadsBack(name: seq<Byte>, qtype: Word, id: Word, q: seq<Byte>) returns (p: Path)
    requires Encodable(name, NAME_WIRE_MAX) && q == QueryBytes(name, qtype, id)
    ensures |q| >= HEADER_SIZE && Prechecked(q, false) && WordAt(q, 0) == id && q[2] == 1 && q[3] == 0
    ensures WordAt(q, 4) == 1 && WordAt(q, 6) == 0 && WordAt(q, 8) == 0 && WordAt(q, 10) == 0
    ensures NamePath(q, HEADER_SIZE, p) && Spell(q, p) == Wire(name) && Resume(q, p) + 4 == |q|
    ensures WordAt(q, Resume(q, p)) == qtype && WordAt(q, Resume(q, p) + 2) == 1
  {
    QueryWords(name, qtype, id, q);
    assert HasAt(q, HEADER_SIZE, Wire(name)) && |q| == HEADER_SIZE + |Wire(name)| + 4
           && HasAt(q, HEADER_SIZE + |Wire(name)|, WordBytes(qtype) + WordBytes(CLASS_IN)) by { QueryLayout(name, qtype, id, q); }
    p := EncodedNameWalksBack(name, q, HEADER_SIZE);
    TailWords(q, Resume(q, p), qtype);
    QueryPasses(q, p);
  }
}

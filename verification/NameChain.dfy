/**
 * Reference semantics of compressed domain names (section 4.1.4 of RFC 1035).
 *
 * A name is read by following a chain of offsets through the message: a label
 * leads to the octet after it, a pointer to its target, and the root label ends
 * the chain.  Nothing here mentions loops, hop counters or output buffers.
 */
module NameChain {
  import opened Bytes

  datatype Cell =
    | Root
    | Pointer(target: nat)
    | Label(length: nat)
    | Reserved   // the top bits are 01 or 10
    | Truncated  // the cell does not fit in the message

  function CellAt(msg: seq<Byte>, o: nat): (c: Cell)
    ensures c.Label? ==> 1 <= c.length <= 63 && o + 1 + c.length <= |msg| && msg[o] == c.length
    ensures c.Root? || c.Pointer? || c.Label? ==> o < |msg|
    ensures c.Pointer? ==> o + 2 <= |msg|
  {
    if o >= |msg| then Truncated
    else if msg[o] == 0 then Root
    else if msg[o] >= 192 then
      if o + 1 < |msg| then Pointer((msg[o] as int - 192) * 256 + msg[o + 1]) else Truncated
    else if msg[o] >= 64 then Reserved
    else if o + 1 + msg[o] <= |msg| then Label(msg[o])
    else Truncated
  }

  /** The cell at `o` leads on to another one. */
  predicate Continues(msg: seq<Byte>, o: nat) {
    CellAt(msg, o).Label? || CellAt(msg, o).Pointer?
  }

  function Successor(msg: seq<Byte>, o: nat): nat
    requires Continues(msg, o)
  {
    match CellAt(msg, o)
    case Label(length) => o + 1 + length
    case Pointer(target) => target
  }

  /** The offsets visited by a reader, the latest one outermost. */
  datatype Path = First(at: nat) | Then(before: Path, at: nat)

  ghost function Size(p: Path): nat {
    match p
    case First(_) => 1
    case Then(before, _) => Size(before) + 1
  }

  ghost function Offsets(p: Path): set<nat> {
    match p
    case First(o) => {o}
    case Then(before, o) => Offsets(before) + {o}
  }

  /** No offset is visited twice. */
  ghost predicate Distinct(p: Path) {
    p.Then? ==> Distinct(p.before) && p.at !in Offsets(p.before)
  }

  /** `p` starts at `off` and every visited cell leads to the next one. */
  ghost predicate Chain(msg: seq<Byte>, off: nat, p: Path) {
    match p
    case First(o) => o == off
    case Then(before, o) =>
      && Chain(msg, off, before)
      && Continues(msg, before.at)
      && o == Successor(msg, before.at)
  }

  /** A chain that reaches the root label: the message holds a name at `off`. */
  ghost predicate NamePath(msg: seq<Byte>, off: nat, p: Path) {
    Chain(msg, off, p) && CellAt(msg, p.at).Root?
  }

  /** The octets one cell contributes to the uncompressed lower-case wire form. */
  function Emit(msg: seq<Byte>, o: nat): seq<Byte> {
    match CellAt(msg, o)
    case Root => [0]
    case Label(length) => [length] + Lower(msg[o + 1..o + 1 + length])
    case _ => []
  }

  /** The uncompressed lower-case wire form spelled by a path. */
  ghost function Spell(msg: seq<Byte>, p: Path): seq<Byte> {
    match p
    case First(o) => Emit(msg, o)
    case Then(before, o) => Spell(msg, before) + Emit(msg, o)
  }

  /** Some visited cell is a pointer. */
  ghost predicate Jumped(msg: seq<Byte>, p: Path) {
    CellAt(msg, p.at).Pointer? || (p.Then? && Jumped(msg, p.before))
  }

  /** Where parsing of the message resumes: after the first pointer or, without one, after the last cell. */
  ghost function Resume(msg: seq<Byte>, p: Path): nat {
    if p.Then? && Jumped(msg, p.before) then Resume(msg, p.before)
    else if CellAt(msg, p.at).Pointer? then p.at + 2
    else p.at + 1
  }

  ghost predicate IsPrefix(p: Path, q: Path) {
    p == q || (q.Then? && IsPrefix(p, q.before))
  }

  lemma {:induction false} PrefixSize(p: Path, q: Path)
    requires IsPrefix(p, q)
    ensures Size(p) <= Size(q)
    ensures p != q ==> Size(p) < Size(q)
  {
    if p != q { PrefixSize(p, q.before); }
  }

  /** Chains are deterministic: of two chains from one offset, the shorter is a prefix of the longer. */
  lemma {:induction false} ChainPrefix(msg: seq<Byte>, off: nat, p: Path, q: Path)
    requires Chain(msg, off, p) && Chain(msg, off, q) && Size(p) <= Size(q)
    ensures IsPrefix(p, q)
  {
    if Size(p) < Size(q) {
      ChainPrefix(msg, off, p, q.before);
    } else if q.Then? {
      ChainPrefix(msg, off, p.before, q.before);
      PrefixSize(p.before, q.before);
    }
  }

  /** Inner cells of a chain lead on, so nothing follows a root or a malformed cell. */
  lemma {:induction false} InnerContinues(msg: seq<Byte>, off: nat, p: Path, q: Path)
    requires Chain(msg, off, q) && IsPrefix(p, q) && p != q
    ensures Continues(msg, p.at)
  {
    if p != q.before { InnerContinues(msg, off, p, q.before); }
  }

  /** A name's path extends every chain from the same offset. */
  lemma NamePathAhead(msg: seq<Byte>, off: nat, p: Path, q: Path)
    requires Chain(msg, off, p) && NamePath(msg, off, q)
    ensures IsPrefix(p, q) && Size(p) <= Size(q)
    ensures if CellAt(msg, p.at).Root? then p == q else Continues(msg, p.at) && Size(p) < Size(q)
  {
    if Size(p) <= Size(q) {
      ChainPrefix(msg, off, p, q);
      PrefixSize(p, q);
      if p != q { InnerContinues(msg, off, p, q); }
    } else {
      ChainPrefix(msg, off, q, p);
      InnerContinues(msg, off, q, p);
      assert false;
    }
  }

  /** At most one name starts at an offset. */
  lemma NamePathUnique(msg: seq<Byte>, off: nat, p: Path, q: Path)
    requires NamePath(msg, off, p) && NamePath(msg, off, q)
    ensures p == q
  {
    NamePathAhead(msg, off, p, q);
  }

  /** Following exactly `k` links from `o` reaches a root label. */
  ghost predicate EndsIn(msg: seq<Byte>, o: nat, k: nat)
    decreases k
  {
    if k == 0 then CellAt(msg, o).Root?
    else Continues(msg, o) && EndsIn(msg, Successor(msg, o), k - 1)
  }

  lemma {:induction false} EndsInUnique(msg: seq<Byte>, o: nat, k: nat, l: nat)
    requires EndsIn(msg, o, k) && EndsIn(msg, o, l)
    ensures k == l
    decreases k
  {
    if k > 0 && l > 0 { EndsInUnique(msg, Successor(msg, o), k - 1, l - 1); }
  }

  lemma {:induction false} PrefixEndsIn(msg: seq<Byte>, off: nat, p: Path, q: Path, k: nat)
    requires Chain(msg, off, q) && EndsIn(msg, q.at, k) && IsPrefix(p, q)
    ensures Size(p) <= Size(q) && EndsIn(msg, p.at, Size(q) - Size(p) + k)
  {
    if p != q { PrefixEndsIn(msg, off, p, q.before, k + 1); }
  }

  lemma {:induction false} VisitedBefore(p: Path, o: nat) returns (b: Path)
    requires o in Offsets(p)
    ensures IsPrefix(b, p) && b.at == o
  {
    if p.at == o { b := p; } else { b := VisitedBefore(p.before, o); }
  }

  lemma {:induction false} PrefixTransitive(p: Path, q: Path, r: Path)
    requires IsPrefix(p, q) && IsPrefix(q, r)
    ensures IsPrefix(p, r)
  {
    if q != r { PrefixTransitive(p, q, r.before); }
  }

  /** Every name visits pairwise distinct offsets, all inside the message. */
  lemma {:induction false} PrefixDistinct(msg: seq<Byte>, off: nat, p: Path, q: Path)
    requires NamePath(msg, off, q) && IsPrefix(p, q)
    ensures Distinct(p)
    ensures forall o | o in Offsets(p) :: o < |msg|
  {
    PrefixEndsIn(msg, off, p, q, 0);
    if p.Then? {
      PrefixTransitive(p.before, p, q);
      PrefixDistinct(msg, off, p.before, q);
      if p.at in Offsets(p.before) {
        var b := VisitedBefore(p.before, p.at);
        PrefixTransitive(b, p.before, q);
        PrefixEndsIn(msg, off, b, q, 0);
        EndsInUnique(msg, p.at, Size(q) - Size(p), Size(q) - Size(b));
        PrefixSize(b, p.before);
        assert false;
      }
    }
  }

  lemma NamePathDistinct(msg: seq<Byte>, off: nat, p: Path)
    requires NamePath(msg, off, p)
    ensures Distinct(p)
    ensures forall o | o in Offsets(p) :: o < |msg|
  {
    PrefixDistinct(msg, off, p, p);
  }

  lemma {:induction false} ResumeInRange(msg: seq<Byte>, off: nat, p: Path)
    requires Chain(msg, off, p) && (Jumped(msg, p) || CellAt(msg, p.at).Root?)
    ensures Resume(msg, p) <= |msg|
  {
    if p.Then? && Jumped(msg, p.before) { ResumeInRange(msg, off, p.before); }
  }

  /** A chain short of the root spells strictly less than the whole name. */
  lemma {:induction false} SpellAhead(msg: seq<Byte>, off: nat, p: Path, q: Path)
    requires Chain(msg, off, q) && IsPrefix(p, q)
    ensures |Spell(msg, p)| <= |Spell(msg, q)|
    ensures p != q && CellAt(msg, q.at).Root? ==> |Spell(msg, p)| + 1 <= |Spell(msg, q)|
  {
    if p != q { SpellAhead(msg, off, p, q.before); }
  }

  // ----- Letter case ---------------------------------------------------------------------------------

  lemma NoUpperBoth(a: seq<Byte>, b: seq<Byte>)
    requires NoUpper(a) && NoUpper(b)
    ensures NoUpper(a + b)
  {
  }

  lemma EmitHasNoUpper(msg: seq<Byte>, o: nat)
    ensures NoUpper(Emit(msg, o))
  {
    if CellAt(msg, o).Label? {
      var n := CellAt(msg, o).length;
      LowerHasNoUpper(msg[o + 1..o + 1 + n]);
      NoUpperBoth([n], Lower(msg[o + 1..o + 1 + n]));
    }
  }

  /** What a path spells is in lower case. */
  lemma {:induction false} SpellHasNoUpper(msg: seq<Byte>, p: Path)
    ensures NoUpper(Spell(msg, p))
  {
    EmitHasNoUpper(msg, p.at);
    if p.Then? {
      SpellHasNoUpper(msg, p.before);
      NoUpperBoth(Spell(msg, p.before), Emit(msg, p.at));
    }
  }

  /** The cells at `o` are the same, but for the case of letters in a label. */
  predicate SameCellButCase(p: seq<Byte>, q: seq<Byte>, o: nat) {
    && |p| == |q| && CellAt(p, o) == CellAt(q, o)
    && (CellAt(p, o).Label? ==> SameButCase(p[o + 1..o + 1 + CellAt(p, o).length], q[o + 1..o + 1 + CellAt(p, o).length]))
  }

  /** The cells on a path are the same, but for the case of letters in labels. */
  ghost predicate SamePathButCase(p: seq<Byte>, q: seq<Byte>, t: Path) {
    SameCellButCase(p, q, t.at) && (t.Then? ==> SamePathButCase(p, q, t.before))
  }

  lemma EmitFoldsCase(p: seq<Byte>, q: seq<Byte>, o: nat)
    requires SameCellButCase(p, q, o)
    ensures Emit(q, o) == Emit(p, o)
  {
    var c := CellAt(p, o);
    if c.Label? { LowerFolds(p[o + 1..o + 1 + c.length], q[o + 1..o + 1 + c.length]); }
  }

  /** Letter case changes neither where a name leads nor what it spells. */
  lemma {:induction false} PathFoldsCase(p: seq<Byte>, q: seq<Byte>, off: nat, t: Path)
    requires SamePathButCase(p, q, t)
    ensures Chain(q, off, t) <==> Chain(p, off, t)
    ensures Spell(q, t) == Spell(p, t) && Jumped(q, t) == Jumped(p, t) && Resume(q, t) == Resume(p, t)
  {
    EmitFoldsCase(p, q, t.at);
    if t.Then? { PathFoldsCase(p, q, off, t.before); }
  }

  /** Messages that differ only in the case of letters in the labels of a name hold the same name. */
  lemma NameFoldsCase(p: seq<Byte>, q: seq<Byte>, off: nat, t: Path)
    requires NamePath(p, off, t) && SamePathButCase(p, q, t)
    ensures NamePath(q, off, t) && Spell(q, t) == Spell(p, t) && Resume(q, t) == Resume(p, t)
  {
    PathFoldsCase(p, q, off, t);
  }

  // ----- One letter in the other case ------------------------------------------------------------------

  predicate IsLetter(b: Byte) { 65 <= b <= 90 || 97 <= b <= 122 }

  function OtherCase(b: Byte): Byte
    requires IsLetter(b)
  {
    if b <= 90 then b + 32 else b - 32
  }

  /** Octet `i` belongs to a pointer of the path. */
  ghost predicate InPointer(msg: seq<Byte>, t: Path, i: nat) {
    || (CellAt(msg, t.at).Pointer? && (i == t.at || i == t.at + 1))
    || (t.Then? && InPointer(msg, t.before, i))
  }

  lemma CellWithOtherCase(p: seq<Byte>, o: nat, i: nat)
    requires i < |p| && IsLetter(p[i]) && (CellAt(p, o).Root? || Continues(p, o))
    requires CellAt(p, o).Pointer? ==> i != o + 1
    ensures SameCellButCase(p, p[i := OtherCase(p[i])], o)
  {
    var q := p[i := OtherCase(p[i])];
    assert i != o;
    if CellAt(p, o).Label? {
      var n := CellAt(p, o).length;
      var x, y := p[o + 1..o + 1 + n], q[o + 1..o + 1 + n];
      forall k | 0 <= k < n ensures SameLetter(x[k], y[k]) {}
    }
  }

  /** Whatever letter of the message changes its case, a path whose pointers it does not touch stays the same but for case. */
  lemma {:induction false} PathWithOtherCase(p: seq<Byte>, off: nat, t: Path, i: nat)
    requires Chain(p, off, t) && (CellAt(p, t.at).Root? || Continues(p, t.at))
    requires i < |p| && IsLetter(p[i]) && !InPointer(p, t, i)
    ensures SamePathButCase(p, p[i := OtherCase(p[i])], t)
  {
    CellWithOtherCase(p, t.at, i);
    if t.Then? { PathWithOtherCase(p, off, t.before, i); }
  }
}

/** Octets, ASCII case folding and big-endian integers, shared by every component. */
module Bytes {
  type Byte = b: int | 0 <= b < 256
  type Word = w: int | 0 <= w < 0x1_0000

  datatype Option<+T> = None | Some(value: T)

  /** ASCII lower-casing of one octet. */
  function LowerByte(b: Byte): Byte {
    if 65 <= b <= 90 then b + 32 else b
  }

  function Lower(s: seq<Byte>): (r: seq<Byte>)
    ensures |r| == |s|
  {
    LowerPrefix(s, |s|)
  }

  function LowerPrefix(s: seq<Byte>, n: nat): (r: seq<Byte>)
    requires n <= |s|
    ensures |r| == n
  {
    if n == 0 then [] else LowerPrefix(s, n - 1) + [LowerByte(s[n - 1])]
  }

  lemma {:induction false} LowerPrefixAt(s: seq<Byte>, n: nat, i: nat)
    requires i < n <= |s|
    ensures LowerPrefix(s, n)[i] == LowerByte(s[i])
  {
    if i < n - 1 { LowerPrefixAt(s, n - 1, i); }
  }

  lemma LowerAt(s: seq<Byte>, i: nat)
    requires i < |s|
    ensures Lower(s)[i] == LowerByte(s[i])
  {
    LowerPrefixAt(s, |s|, i);
  }

  // ----- What lower-casing means -------------------------------------------------------------------

  predicate IsUpper(b: Byte) { 65 <= b <= 90 }

  /** The same octet, but for the case of an ASCII letter. */
  predicate SameLetter(a: Byte, b: Byte) {
    a == b || (65 <= a <= 90 && b == a + 32) || (97 <= a <= 122 && b == a - 32)
  }

  predicate SameButCase(a: seq<Byte>, b: seq<Byte>) {
    |a| == |b| && forall i | 0 <= i < |a| :: SameLetter(a[i], b[i])
  }

  predicate NoUpper(s: seq<Byte>) { forall i | 0 <= i < |s| :: !IsUpper(s[i]) }

  /** The letters of 65 to 90 become those of 97 to 122, and nothing else changes. */
  lemma LowerByteExact(b: Byte)
    ensures IsUpper(b) ==> LowerByte(b) == LowerByte(b + 32) == b + 32
    ensures !IsUpper(b) ==> LowerByte(b) == b
  {
  }

  lemma LowerHasNoUpper(s: seq<Byte>)
    ensures NoUpper(Lower(s))
  {
    forall i | 0 <= i < |s| ensures !IsUpper(Lower(s)[i]) { LowerAt(s, i); }
  }

  /** Texts have the same lower-case form exactly when they differ in the case of letters at most. */
  lemma LowerFolds(a: seq<Byte>, b: seq<Byte>)
    ensures Lower(a) == Lower(b) <==> SameButCase(a, b)
  {
    if |a| == |b| {
      forall i | 0 <= i < |a| ensures Lower(a)[i] == Lower(b)[i] <==> SameLetter(a[i], b[i]) {
        LowerAt(a, i);
        LowerAt(b, i);
      }
    }
  }

  lemma LowerIdempotent(s: seq<Byte>)
    ensures Lower(Lower(s)) == Lower(s)
  {
    forall i | 0 <= i < |s| ensures Lower(Lower(s))[i] == Lower(s)[i] {
      LowerAt(s, i);
      LowerAt(Lower(s), i);
    }
  }

  lemma LowerAppend(a: seq<Byte>, b: seq<Byte>)
    ensures Lower(a + b) == Lower(a) + Lower(b)
  {
    forall i | 0 <= i < |a + b| ensures Lower(a + b)[i] == (Lower(a) + Lower(b))[i] {
      LowerAt(a + b, i);
      if i < |a| { LowerAt(a, i); } else { LowerAt(b, i - |a|); }
    }
  }

  lemma Assoc(a: seq<Byte>, b: seq<Byte>, c: seq<Byte>)
    ensures a + (b + c) == a + b + c
  {
  }

  /** `msg` holds the octets `w` from position `at` on. */
  ghost predicate HasAt(msg: seq<Byte>, at: nat, w: seq<Byte>) {
    at + |w| <= |msg| && msg[at..at + |w|] == w
  }

  lemma HasAtSplit(msg: seq<Byte>, at: nat, a: seq<Byte>, b: seq<Byte>)
    requires HasAt(msg, at, a + b)
    ensures HasAt(msg, at, a) && HasAt(msg, at + |a|, b)
  {
    var w := msg[at..at + |a + b|];
    assert msg[at..at + |a|] == w[..|a|];
    assert msg[at + |a|..at + |a| + |b|] == w[|a|..];
  }

  /** The two octets of a 16-bit integer in network order. */
  function WordBytes(w: Word): (r: seq<Byte>)
    ensures |r| == 2
  {
    [w / 256, w % 256]
  }

  function WordAt(s: seq<Byte>, o: nat): Word
    requires o + 2 <= |s|
  {
    (s[o] as int) * 256 + s[o + 1]
  }

  lemma HasWordAt(msg: seq<Byte>, at: nat, w: Word)
    requires HasAt(msg, at, WordBytes(w))
    ensures WordAt(msg, at) == w
  {
    var two := msg[at..at + 2];
    assert msg[at] == two[0] && msg[at + 1] == two[1];
  }

  function Min(a: int, b: int): int { if a <= b then a else b }

  function Max(a: int, b: int): int { if a >= b then a else b }
}

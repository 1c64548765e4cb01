/**
 * Conflict renaming of DNS-SD instances: a numbered suffix on a base shortened so that the
 * label still fits in 63 octets.
 */
module InstanceRename {
  import opened Bytes

  const MAX_LABEL: nat := 63
  const LAST_ORDINAL: nat := 9999

  /** What `DnsSdInstance::new` accepts. */
  predicate IsInstance(name: seq<Byte>) { 0 < |name| <= MAX_LABEL && 0 !in name }

  function Digits(n: nat): (d: seq<Byte>)
    ensures |d| >= 1 && forall i | 0 <= i < |d| :: 48 <= d[i] <= 57
  {
    if n < 10 then [48 + n] else Digits(n / 10) + [48 + n % 10]
  }

  /** A space, and the ordinal in parentheses. */
  function Suffix(ordinal: nat): seq<Byte> { [32, 40] + Digits(ordinal) + [41] }

  /** The longest prefix of at most `n` octets that is empty or passes `utf8`. */
  function Shortened(base: seq<Byte>, n: nat, utf8: seq<Byte> -> bool): (p: nat)
    requires n <= |base|
    ensures p <= n
  {
    if n == 0 || utf8(base[..n]) then n else Shortened(base, n - 1, utf8)
  }

  lemma {:induction false} DigitsShort(n: nat)
    requires n <= LAST_ORDINAL
    ensures |Digits(n)| <= 4
  {
    assert n >= 10 ==> |Digits(n)| == |Digits(n / 10)| + 1;
    assert n >= 100 ==> |Digits(n / 10)| == |Digits(n / 10 / 10)| + 1;
    assert n >= 1000 ==> |Digits(n / 10 / 10)| == |Digits(n / 10 / 10 / 10)| + 1;
  }

  function PrefixLength(base: seq<Byte>, ordinal: nat, utf8: seq<Byte> -> bool): (p: nat)
    requires |Suffix(ordinal)| <= MAX_LABEL
    ensures p <= |base| && p + |Suffix(ordinal)| <= MAX_LABEL
  {
    var maximum := MAX_LABEL - |Suffix(ordinal)|;
    if |base| > maximum then Shortened(base, maximum, utf8) else |base|
  }

  /** The name tried at an ordinal: the base itself first, then numbered ones. */
  function Candidate(base: seq<Byte>, ordinal: nat, utf8: seq<Byte> -> bool): (name: seq<Byte>)
    requires IsInstance(base) && 1 <= ordinal <= LAST_ORDINAL
    ensures IsInstance(name)
  {
    if ordinal == 1 then base
    else
      DigitsShort(ordinal);
      base[..PrefixLength(base, ordinal, utf8)] + Suffix(ordinal)
  }

  /** `renamed_instance`, whose validity test is `str::from_utf8`. */
  method RenamedInstance(base: seq<Byte>, ordinal: nat, utf8: seq<Byte> -> bool) returns (name: seq<Byte>)
    requires IsInstance(base) && 2 <= ordinal <= LAST_ORDINAL
    ensures name == Candidate(base, ordinal, utf8)
  {
    DigitsShort(ordinal);
    var suffix := Suffix(ordinal);
    var maximum := MAX_LABEL - |suffix|;
    var n := |base|;
    if n > maximum {
      n := maximum;
      while n != 0 && !utf8(base[..n])
        invariant 0 <= n <= maximum && Shortened(base, maximum, utf8) == Shortened(base, n, utf8)
      {
        n := n - 1;
      }
    }
    name := base[..n] + suffix;
  }

  lemma {:induction false} DigitsInjective(a: nat, b: nat)
    requires Digits(a) == Digits(b)
    ensures a == b
  {
    var da, db := Digits(a), Digits(b);
    if a >= 10 && b >= 10 {
      assert da[..|da| - 1] == Digits(a / 10) && db[..|db| - 1] == Digits(b / 10);
      DigitsInjective(a / 10, b / 10);
      assert da[|da| - 1] == 48 + a % 10 && db[|db| - 1] == 48 + b % 10;
    }
  }

  /** Reading a name backwards, its suffix determines the ordinal. */
  lemma SuffixDetermines(p: seq<Byte>, a: nat, q: seq<Byte>, b: nat)
    requires p + Suffix(a) == q + Suffix(b) && |Digits(a)| <= |Digits(b)|
    ensures a == b
  {
    var name, da, db := p + Suffix(a), Digits(a), Digits(b);
    var end := |name| - 1;
    assert name[end - |da| - 1] == 40;
    assert |da| == |db|;
    assert da == name[end - |da|..end] == db;
    DigitsInjective(a, b);
  }

  /** Numbered candidates are pairwise different, however the base was shortened. */
  lemma CandidatesDiffer(base: seq<Byte>, a: nat, b: nat, utf8: seq<Byte> -> bool)
    requires IsInstance(base) && 2 <= a <= LAST_ORDINAL && 2 <= b <= LAST_ORDINAL && a != b
    ensures Candidate(base, a, utf8) != Candidate(base, b, utf8)
  {
    DigitsShort(a);
    DigitsShort(b);
    var p, q := base[..PrefixLength(base, a, utf8)], base[..PrefixLength(base, b, utf8)];
    if p + Suffix(a) == q + Suffix(b) {
      if |Digits(a)| <= |Digits(b)| { SuffixDetermines(p, a, q, b); } else { SuffixDetermines(q, b, p, a); }
    }
  }

  // ----- What a candidate looks like -------------------------------------------------------------------

  /** The number that decimal digits stand for. */
  function ValueOf(d: seq<Byte>): int { if d == [] then 0 else ValueOf(d[..|d| - 1]) * 10 + (d[|d| - 1] as int - 48) }

  /** The digits are the usual decimal notation: they read back, and do not start with a zero. */
  lemma {:induction false} DigitsRead(n: nat)
    ensures ValueOf(Digits(n)) == n && (n > 0 ==> Digits(n)[0] != 48)
  {
    if n >= 10 {
      DigitsRead(n / 10);
      var d := Digits(n);
      assert d[..|d| - 1] == Digits(n / 10) && d[0] == Digits(n / 10)[0];
    } else {
      assert Digits(n)[..0] == [];
    }
  }

  lemma {:induction false} ShortenedIsLongest(base: seq<Byte>, n: nat, utf8: seq<Byte> -> bool)
    requires n <= |base|
    ensures var p := Shortened(base, n, utf8);
            (p == 0 || utf8(base[..p])) && forall m | p < m <= n :: !utf8(base[..m])
  {
    if n > 0 && !utf8(base[..n]) { ShortenedIsLongest(base, n - 1, utf8); }
  }

  /**
   * A numbered candidate is a prefix of the base, a space, and the ordinal in decimal and in
   * parentheses. The prefix is the whole base if that fits in 63 octets, and else the longest that
   * fits and is valid UTF-8, or empty.
   */
  lemma CandidateShape(base: seq<Byte>, ordinal: nat, utf8: seq<Byte> -> bool) returns (n: nat, digits: seq<Byte>)
    requires IsInstance(base) && 2 <= ordinal <= LAST_ORDINAL
    ensures n <= |base| && Candidate(base, ordinal, utf8) == base[..n] + ([32, 40] + digits + [41])
    ensures ValueOf(digits) == ordinal && 0 < |digits| && digits[0] != 48 && forall i | 0 <= i < |digits| :: 48 <= digits[i] <= 57
    ensures |base| + |digits| + 3 <= 63 ==> n == |base|
    ensures |base| + |digits| + 3 > 63 ==>
              && n + |digits| + 3 <= 63 && (n == 0 || utf8(base[..n]))
              && forall m | n < m <= 63 - (|digits| + 3) :: !utf8(base[..m])
  {
    DigitsShort(ordinal);
    DigitsRead(ordinal);
    n, digits := PrefixLength(base, ordinal, utf8), Digits(ordinal);
    var maximum := MAX_LABEL - |Suffix(ordinal)|;
    if |base| > maximum { ShortenedIsLongest(base, maximum, utf8); }
  }
}

/** DNSKEY flags and the identity under which a trust anchor is tracked across revocation. */
module AnchorIdentity {
  type Octet = bv8
  type Flags = bv16
  type AnchorId = seq<Octet>

  const REVOKE: Flags := 0x0080
  const SEP: Flags := 0x0001
  const ZONE: Flags := 0x0100
  const DOT: Octet := 46

  predicate IsRevoked(flags: Flags) { flags & REVOKE != 0 }

  predicate IsSep(flags: Flags) { flags & (ZONE | SEP) == ZONE | SEP }

  function ClearRevoke(flags: Flags): Flags { flags & !REVOKE }

  function SetRevoke(flags: Flags): Flags { flags | REVOKE }

  lemma RevokeBit(flags: Flags)
    ensures !IsRevoked(ClearRevoke(flags)) && IsRevoked(SetRevoke(flags))
    ensures ClearRevoke(SetRevoke(flags)) == ClearRevoke(flags) == ClearRevoke(ClearRevoke(flags))
  {
  }

  predicate Blank(c: Octet) { c == 32 || 9 <= c <= 13 }

  function LowerOctet(c: Octet): Octet { if 65 <= c <= 90 then c + 32 else c }

  /** The first position at or after `i` that is not blank. */
  function TrimStart(s: seq<Octet>, i: nat): (r: nat)
    requires i <= |s|
    ensures i <= r <= |s|
    ensures r < |s| ==> !Blank(s[r])
    decreases |s| - i
  {
    if i < |s| && Blank(s[i]) then TrimStart(s, i + 1) else i
  }

  /** The end of `s[lo..hi]` once trailing blanks are dropped. */
  function TrimEnd(s: seq<Octet>, lo: nat, hi: nat): (r: nat)
    requires lo <= hi <= |s|
    ensures lo <= r <= hi
    ensures lo < r ==> !Blank(s[r - 1])
  {
    if lo < hi && Blank(s[hi - 1]) then TrimEnd(s, lo, hi - 1) else hi
  }

  /** The end of `s[lo..hi]` once trailing dots are dropped. */
  function TrimDots(s: seq<Octet>, lo: nat, hi: nat): (r: nat)
    requires lo <= hi <= |s|
    ensures lo <= r <= hi
    ensures lo < r ==> s[r - 1] != DOT
  {
    if lo < hi && s[hi - 1] == DOT then TrimDots(s, lo, hi - 1) else hi
  }

  function LowerCase(s: seq<Octet>): seq<Octet> { seq(|s|, i requires 0 <= i < |s| => LowerOctet(s[i])) }

  /** An owner name without its final dots and surrounding blanks, in lower case. */
  function Stem(owner: seq<Octet>): seq<Octet> {
    var lo := TrimStart(owner, 0);
    var hi := TrimDots(owner, lo, TrimEnd(owner, lo, |owner|));
    LowerCase(owner[lo..hi])
  }

  /** `canonical_owner`: lower case, exactly one final dot. */
  function CanonicalOwner(owner: seq<Octet>): seq<Octet> { Stem(owner) + [DOT] }

  /** What canonicalisation leaves: no blank in front, no dot behind, nothing in upper case. */
  predicate IsStem(s: seq<Octet>) {
    && (s != [] ==> !Blank(s[0]) && s[|s| - 1] != DOT)
    && forall i | 0 <= i < |s| :: LowerOctet(s[i]) == s[i]
  }

  lemma StemIsStem(owner: seq<Octet>)
    ensures IsStem(Stem(owner))
  {
    var lo := TrimStart(owner, 0);
    var hi := TrimDots(owner, lo, TrimEnd(owner, lo, |owner|));
    var s, stem := owner[lo..hi], Stem(owner);
    if s != [] {
      assert stem[0] == LowerOctet(owner[lo]) && stem[|s| - 1] == LowerOctet(owner[hi - 1]);
    }
  }

  lemma StemOfCanonical(s: seq<Octet>)
    requires IsStem(s)
    ensures Stem(s + [DOT]) == s
  {
    var t := s + [DOT];
    var lo := TrimStart(t, 0);
    assert t[|s|] == DOT;
    assert lo == 0 by { if s != [] { assert t[0] == s[0]; } }
    assert TrimEnd(t, 0, |t|) == |t|;
    assert TrimDots(t, 0, |t|) == TrimDots(t, 0, |s|) == |s| by { if s != [] { assert t[|s| - 1] == s[|s| - 1]; } }
    assert t[0..|s|] == s;
    assert LowerCase(s) == s;
  }

  lemma CanonicalOwnerIdempotent(owner: seq<Octet>)
    ensures CanonicalOwner(CanonicalOwner(owner)) == CanonicalOwner(owner)
  {
    StemIsStem(owner);
    StemOfCanonical(Stem(owner));
  }

  function FlagOctets(flags: Flags): (r: seq<Octet>)
    ensures |r| == 2
  {
    [(flags >> 8) as bv8, (flags & 0xff) as bv8]
  }

  /** `anchor_id`: owner, NUL, flags without REVOKE, algorithm and key. */
  function AnchorIdOf(owner: seq<Octet>, flags: Flags, algorithm: Octet, key: seq<Octet>): AnchorId {
    CanonicalOwner(owner) + [0] + (FlagOctets(ClearRevoke(flags)) + [algorithm] + key)
  }

  lemma FlagOctetsInjective(f: Flags, g: Flags)
    requires FlagOctets(f) == FlagOctets(g)
    ensures f == g
  {
    assert FlagOctets(f)[0] == FlagOctets(g)[0] && FlagOctets(f)[1] == FlagOctets(g)[1];
  }

  lemma SplitAtNul(a: seq<Octet>, x: seq<Octet>, b: seq<Octet>, y: seq<Octet>)
    requires 0 !in a && 0 !in b && a + [0] + x == b + [0] + y
    ensures a == b && x == y
  {
    var s, t := a + [0] + x, b + [0] + y;
    assert s[|a|] == 0 && t[|b|] == 0;
    assert a == s[..|a|] && b == t[..|b|];
    assert x == s[|a| + 1..] && y == t[|b| + 1..];
  }

  /** An identity determines the key up to its REVOKE bit and the spelling of its owner, and conversely. */
  lemma IdentityIsExact(o1: seq<Octet>, f1: Flags, a1: Octet, k1: seq<Octet>,
                        o2: seq<Octet>, f2: Flags, a2: Octet, k2: seq<Octet>)
    requires 0 !in CanonicalOwner(o1) && 0 !in CanonicalOwner(o2)
    ensures AnchorIdOf(o1, f1, a1, k1) == AnchorIdOf(o2, f2, a2, k2) <==>
            && CanonicalOwner(o1) == CanonicalOwner(o2)
            && ClearRevoke(f1) == ClearRevoke(f2) && a1 == a2 && k1 == k2
  {
    if AnchorIdOf(o1, f1, a1, k1) == AnchorIdOf(o2, f2, a2, k2) {
      var x := FlagOctets(ClearRevoke(f1)) + [a1] + k1;
      var y := FlagOctets(ClearRevoke(f2)) + [a2] + k2;
      SplitAtNul(CanonicalOwner(o1), x, CanonicalOwner(o2), y);
      assert FlagOctets(ClearRevoke(f1)) == x[..2] == y[..2] == FlagOctets(ClearRevoke(f2));
      FlagOctetsInjective(ClearRevoke(f1), ClearRevoke(f2));
      assert a1 == x[2] == y[2] == a2 && k1 == x[3..] == y[3..] == k2;
    }
  }

  lemma RootOwner()
    ensures CanonicalOwner([DOT]) == [DOT]
  {
    assert TrimStart([DOT], 0) == 0;
    assert TrimEnd([DOT], 0, 1) == 1;
    assert TrimDots([DOT], 0, 1) == TrimDots([DOT], 0, 0) == 0;
  }

  lemma NulOwner(stem: seq<Octet>)
    requires stem == [DOT, 0, 1, 1, 8]
    ensures CanonicalOwner(stem + [DOT]) == stem + [DOT]
  {
    StemOfCanonical(stem);
  }

  lemma RootFlags()
    ensures FlagOctets(ClearRevoke(0x0101)) == [1, 1]
  {
  }

  /** Only owners without a NUL octet are told apart: every key of some other owner has the identity of a root key. */
  lemma NulOwnersCollide(flags: Flags, algorithm: Octet, key: seq<Octet>) returns (owner: seq<Octet>, rootKey: seq<Octet>)
    ensures CanonicalOwner(owner) != CanonicalOwner([DOT])
    ensures AnchorIdOf(owner, flags, algorithm, key) == AnchorIdOf([DOT], 0x0101, 8, rootKey)
  {
    var stem: seq<Octet> := [DOT, 0, 1, 1, 8];
    owner := stem + [DOT];
    NulOwner(stem);
    RootOwner();
    RootFlags();
    var rest := FlagOctets(ClearRevoke(flags)) + [algorithm] + key;
    rootKey := [DOT, 0] + rest;
    assert [DOT, 0, 1, 1, 8, DOT] + [0] + rest == [DOT] + [0] + ([1, 1] + [8] + rootKey);
  }

  // ----- What canonicalisation does ---------------------------------------------------------------------

  /** The same octet, but for the case of an ASCII letter. */
  predicate SameLetter(a: Octet, b: Octet) {
    a == b || (65 <= a <= 90 && b == a + 32) || (97 <= a <= 122 && a == b + 32)
  }

  predicate SameButCase(a: seq<Octet>, b: seq<Octet>) {
    |a| == |b| && forall i | 0 <= i < |a| :: SameLetter(a[i], b[i])
  }

  lemma LowerOctetExact(c: Octet)
    ensures 65 <= c <= 90 ==> LowerOctet(c) == LowerOctet(c + 32) == c + 32
    ensures !(65 <= c <= 90) ==> LowerOctet(c) == c
  {
  }

  lemma LowerCaseFolds(a: seq<Octet>, b: seq<Octet>)
    requires SameButCase(a, b)
    ensures LowerCase(a) == LowerCase(b)
  {
    forall i | 0 <= i < |a| ensures LowerOctet(a[i]) == LowerOctet(b[i]) { assert SameLetter(a[i], b[i]); }
  }

  predicate AllBlank(s: seq<Octet>) { forall i | 0 <= i < |s| :: Blank(s[i]) }

  predicate AllDots(s: seq<Octet>) { forall i | 0 <= i < |s| :: s[i] == DOT }

  lemma {:induction false} TrimStartStops(s: seq<Octet>, i: nat, n: nat)
    requires i <= n <= |s| && (forall k | i <= k < n :: Blank(s[k])) && (n < |s| ==> !Blank(s[n]))
    ensures TrimStart(s, i) == n
    decreases n - i
  {
    if i < n { TrimStartStops(s, i + 1, n); }
  }

  lemma {:induction false} TrimEndStops(s: seq<Octet>, lo: nat, hi: nat, n: nat)
    requires lo <= n <= hi <= |s| && (forall k | n <= k < hi :: Blank(s[k])) && (lo < n ==> !Blank(s[n - 1]))
    ensures TrimEnd(s, lo, hi) == n
    decreases hi
  {
    if n < hi { TrimEndStops(s, lo, hi - 1, n); }
  }

  lemma {:induction false} TrimDotsStops(s: seq<Octet>, lo: nat, hi: nat, n: nat)
    requires lo <= n <= hi <= |s| && (forall k | n <= k < hi :: s[k] == DOT) && (lo < n ==> s[n - 1] != DOT)
    ensures TrimDots(s, lo, hi) == n
    decreases hi
  {
    if n < hi { TrimDotsStops(s, lo, hi - 1, n); }
  }

  /** An owner between blanks, with any number of final dots, is its lower-case name with one final dot. */
  lemma CanonicalOwnerOf(a: seq<Octet>, name: seq<Octet>, dots: seq<Octet>, b: seq<Octet>)
    requires AllBlank(a) && AllDots(dots) && AllBlank(b)
    requires name != [] && !Blank(name[0]) && name[|name| - 1] != DOT && (dots == [] ==> !Blank(name[|name| - 1]))
    ensures CanonicalOwner(a + name + dots + b) == LowerCase(name) + [DOT]
  {
    var s := a + name + dots + b;
    var lo, end, hi := |a|, |a| + |name|, |a| + |name| + |dots|;
    assert s[lo] == name[0] && s[end - 1] == name[|name| - 1];
    forall k | end <= k < hi ensures s[k] == DOT { assert s[k] == dots[k - end]; }
    forall k | hi <= k < |s| ensures Blank(s[k]) { assert s[k] == b[k - hi]; }
    TrimStartStops(s, 0, lo);
    assert !Blank(s[hi - 1]) by { if dots != [] { assert s[hi - 1] == DOT; } }
    TrimEndStops(s, lo, |s|, hi);
    TrimDotsStops(s, lo, hi, end);
    assert s[lo..end] == name;
  }

  /** Owners that differ only in letter case, blanks around them and final dots are one owner. */
  lemma OwnersFold(a: seq<Octet>, name: seq<Octet>, dots: seq<Octet>, b: seq<Octet>,
                   a': seq<Octet>, name': seq<Octet>, dots': seq<Octet>, b': seq<Octet>)
    requires AllBlank(a) && AllDots(dots) && AllBlank(b) && AllBlank(a') && AllDots(dots') && AllBlank(b')
    requires name != [] && !Blank(name[0]) && name[|name| - 1] != DOT && (dots == [] || dots' == [] ==> !Blank(name[|name| - 1]))
    requires SameButCase(name, name')
    ensures CanonicalOwner(a + name + dots + b) == CanonicalOwner(a' + name' + dots' + b')
  {
    assert SameLetter(name[0], name'[0]) && SameLetter(name[|name| - 1], name'[|name| - 1]);
    CanonicalOwnerOf(a, name, dots, b);
    CanonicalOwnerOf(a', name', dots', b');
    LowerCaseFolds(name, name');
  }
}

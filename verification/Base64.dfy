/**
 * Base64 (section 4 of RFC 4648): the encoder that publishes trust anchors, the
 * strict decoder of the hook protocol and the lenient decoder of DNS-SD files.
 * Octets are bit vectors here, as the shifts and masks of the source are the point.
 */
module Base64 {
  import opened Bytes

  type Octet = bv8

  const PAD: Octet := 61

  /** The alphabet: A-Z, a-z, 0-9, '+' and '/'. */
  function Digit(v: Octet): Octet {
    if v < 26 then 65 + v
    else if v < 52 then 71 + v
    else if v < 62 then v - 4
    else if v == 62 then 43 else 47
  }

  /** `base64_value`: the index of a character in the alphabet. */
  function Value(c: Octet): (v: Option<Octet>)
    ensures v.Some? ==> v.value < 64 && Digit(v.value) == c
  {
    if 65 <= c <= 90 then Some(c - 65)
    else if 97 <= c <= 122 then Some(c - 71)
    else if 48 <= c <= 57 then Some(c + 4)
    else if c == 43 then Some(62)
    else if c == 47 then Some(63)
    else None
  }

  lemma DigitValue(v: Octet)
    requires v < 64
    ensures Value(Digit(v)) == Some(v) && Digit(v) != PAD
  {
  }

  // ----- The encoder --------------------------------------------------------

  function Pack(a: Octet, b: Octet, c: Octet): bv24 {
    ((a as bv24) << 16) | ((b as bv24) << 8) | (c as bv24)
  }

  /** The four groups of six bits, the first one highest. */
  function Sextet0(v: bv24): Octet { ((v >> 18) & 0x3f) as bv8 }
  function Sextet1(v: bv24): Octet { ((v >> 12) & 0x3f) as bv8 }
  function Sextet2(v: bv24): Octet { ((v >> 6) & 0x3f) as bv8 }
  function Sextet3(v: bv24): Octet { (v & 0x3f) as bv8 }

  datatype Quad = Quad(c0: Octet, c1: Octet, c2: Octet, c3: Octet) {
    function Text(): (t: seq<Octet>)
      ensures |t| == 4
    {
      [c0, c1, c2, c3]
    }
  }

  /** The four characters for `n` octets, the missing ones being given as zero. */
  function EncodeThree(a: Octet, b: Octet, c: Octet, n: nat): Quad {
    var v := Pack(a, b, c);
    Quad(Digit(Sextet0(v)), Digit(Sextet1(v)),
         if n > 1 then Digit(Sextet2(v)) else PAD,
         if n > 2 then Digit(Sextet3(v)) else PAD)
  }

  function High(a: Octet, b: Octet): Octet { (a << 2) | (b >> 4) }

  function Middle(b: Octet, c: Octet): Octet { (b << 4) | (c >> 2) }

  function Low(c: Octet, d: Octet): Octet { (c << 6) | d }

  lemma Repack(a: Octet, b: Octet, c: Octet)
    ensures var v := Pack(a, b, c);
            && High(Sextet0(v), Sextet1(v)) == a
            && Middle(Sextet1(v), Sextet2(v)) == b
            && Low(Sextet2(v), Sextet3(v)) == c
            && Sextet0(v) < 64 && Sextet1(v) < 64 && Sextet2(v) < 64 && Sextet3(v) < 64
  {
  }

  lemma Resplit(w: Octet, x: Octet, y: Octet, z: Octet)
    requires w < 64 && x < 64 && y < 64 && z < 64
    ensures var v := Pack(High(w, x), Middle(x, y), Low(y, z));
            Sextet0(v) == w && Sextet1(v) == x && Sextet2(v) == y && Sextet3(v) == z
  {
  }

  function OctetOr0(s: seq<Octet>, i: nat): Octet { if i < |s| then s[i] else 0 }

  /** The four characters for the octets from `i` on. */
  function EncodeChunk(s: seq<Octet>, i: nat): Quad
    requires i < |s|
  {
    EncodeThree(s[i], OctetOr0(s, i + 1), OctetOr0(s, i + 2), |s| - i)
  }

  function EncodeFrom(s: seq<Octet>, i: nat): seq<Octet>
    decreases |s| - i
  {
    if i >= |s| then [] else EncodeChunk(s, i).Text() + EncodeFrom(s, i + 3)
  }

  /** `base64_encode`. */
  method EncodeBase64(input: seq<Octet>) returns (output: seq<Octet>)
    ensures output == EncodeFrom(input, 0)
  {
    output := [];
    var i := 0;
    while i < |input|
      invariant output + EncodeFrom(input, i) == EncodeFrom(input, 0)
      decreases |input| - i
    {
      var v := Pack(input[i], OctetOr0(input, i + 1), OctetOr0(input, i + 2));
      var third := if |input| - i > 1 then Digit(Sextet2(v)) else PAD;
      var fourth := if |input| - i > 2 then Digit(Sextet3(v)) else PAD;
      var quad := Quad(Digit(Sextet0(v)), Digit(Sextet1(v)), third, fourth);
      assert quad == EncodeChunk(input, i);
      var text := quad.Text();
      assert output + (text + EncodeFrom(input, i + 3)) == output + text + EncodeFrom(input, i + 3);
      output := output + text;
      i := i + 3;
    }
  }

  // ----- The strict decoder -------------------------------------------------

  /** The octets of four characters, or None when they are not canonical. */
  function DecodeFour(c0: Octet, c1: Octet, c2: Octet, c3: Octet, last: bool): (r: Option<seq<Octet>>)
    ensures r.Some? ==> 1 <= |r.value| <= 3 && (!last ==> |r.value| == 3)
  {
    var (a, b, c, d) := (Value(c0), Value(c1), Value(c2), Value(c3));
    if a.None? || b.None? then None
    else if c2 == PAD then
      if c3 == PAD && last && b.value & 0x0f == 0 then Some([High(a.value, b.value)]) else None
    else if c.None? then None
    else if c3 == PAD then
      if last && c.value & 0x03 == 0 then Some([High(a.value, b.value), Middle(b.value, c.value)]) else None
    else if d.None? then None
    else Some([High(a.value, b.value), Middle(b.value, c.value), Low(c.value, d.value)])
  }

  function DecodeAt(t: seq<Octet>, i: nat): (r: Option<seq<Octet>>)
    requires i + 4 <= |t|
    ensures r.Some? ==> 1 <= |r.value| <= 3 && (i + 4 < |t| ==> |r.value| == 3)
  {
    DecodeFour(t[i], t[i + 1], t[i + 2], t[i + 3], i + 4 == |t|)
  }

  function Prepend(octets: seq<Octet>, rest: Option<seq<Octet>>): Option<seq<Octet>> {
    if rest.None? then None else Some(octets + rest.value)
  }

  lemma PrependNothing(r: Option<seq<Octet>>)
    ensures Prepend([], r) == r
  {
    if r.Some? { assert [] + r.value == r.value; }
  }

  lemma PrependTwice(a: seq<Octet>, b: seq<Octet>, r: Option<seq<Octet>>)
    ensures Prepend(a, Prepend(b, r)) == Prepend(a + b, r)
  {
    if r.Some? { assert a + (b + r.value) == a + b + r.value; }
  }

  /** Strict decoding of the characters from `i` on. */
  function DecodeFrom(t: seq<Octet>, i: nat): Option<seq<Octet>>
    requires i <= |t|
    decreases |t| - i
  {
    if i == |t| then Some([])
    else if i + 4 > |t| || DecodeAt(t, i).None? then None
    else Prepend(DecodeAt(t, i).value, DecodeFrom(t, i + 4))
  }

  lemma {:induction false} DecodedLength(t: seq<Octet>, i: nat)
    requires i <= |t| && DecodeFrom(t, i).Some?
    ensures (|t| - i) % 4 == 0
    decreases |t| - i
  {
    if i < |t| { DecodedLength(t, i + 4); }
  }

  /** The hook protocol's `decode_base64`. */
  method DecodeStrict(input: seq<Octet>) returns (r: Option<seq<Octet>>)
    ensures r == DecodeFrom(input, 0)
  {
    if |input| % 4 != 0 {
      if DecodeFrom(input, 0).Some? { DecodedLength(input, 0); }
      return None;
    }
    var output: seq<Octet> := [];
    var i := 0;
    PrependNothing(DecodeFrom(input, 0));
    while i < |input|
      invariant i <= |input| && (|input| - i) % 4 == 0
      invariant Prepend(output, DecodeFrom(input, i)) == DecodeFrom(input, 0)
    {
      var octets := DecodeQuartet(input, i);
      if octets.None? { return None; }
      PrependTwice(output, octets.value, DecodeFrom(input, i + 4));
      output := output + octets.value;
      i := i + 4;
    }
    assert output + [] == output;
    return Some(output);
  }

  /** The body of the strict decoder's loop. */
  method DecodeQuartet(input: seq<Octet>, i: nat) returns (octets: Option<seq<Octet>>)
    requires i + 4 <= |input|
    ensures octets == DecodeAt(input, i)
  {
    var last := i + 4 == |input|;
    var first, second := Value(input[i]), Value(input[i + 1]);
    if first.None? || second.None? { return None; }
    var third: Option<Octet> := None;
    if input[i + 2] == PAD {
      if input[i + 3] != PAD || !last || second.value & 0x0f != 0 { return None; }
    } else {
      third := Value(input[i + 2]);
      if third.None? { return None; }
    }
    var fourth: Option<Octet> := None;
    if input[i + 3] == PAD {
      if !last || (third.Some? && third.value & 0x03 != 0) { return None; }
    } else {
      fourth := Value(input[i + 3]);
      if fourth.None? { return None; }
    }
    if third.None? { return Some([High(first.value, second.value)]); }
    if fourth.None? { return Some([High(first.value, second.value), Middle(second.value, third.value)]); }
    return Some([High(first.value, second.value), Middle(second.value, third.value), Low(third.value, fourth.value)]);
  }

  // ----- Strict decoding and encoding are mutually inverse --------------------

  lemma DecodeEncodedThree(a: Octet, b: Octet, c: Octet, n: nat, last: bool)
    requires 1 <= n && (n < 3 ==> last && c == 0) && (n < 2 ==> b == 0)
    ensures var e := EncodeThree(a, b, c, n);
            DecodeFour(e.c0, e.c1, e.c2, e.c3, last) ==
            Some(if n == 1 then [a] else if n == 2 then [a, b] else [a, b, c])
  {
    Repack(a, b, c);
    DigitValue(Sextet0(Pack(a, b, c)));
    DigitValue(Sextet1(Pack(a, b, c)));
    DigitValue(Sextet2(Pack(a, b, c)));
    DigitValue(Sextet3(Pack(a, b, c)));
  }

  /** Octets `i` to `i` + 3, as far as there are any. */
  function ChunkAt(s: seq<Octet>, i: nat): seq<Octet>
    requires i < |s|
  {
    if i + 1 == |s| then [s[i]]
    else if i + 2 == |s| then [s[i], s[i + 1]]
    else [s[i], s[i + 1], s[i + 2]]
  }

  lemma DecodeOwnChunk(s: seq<Octet>, i: nat, last: bool)
    requires i < |s| && (|s| - i < 3 ==> last)
    ensures var e := EncodeChunk(s, i); DecodeFour(e.c0, e.c1, e.c2, e.c3, last) == Some(ChunkAt(s, i))
  {
    DecodeEncodedThree(s[i], OctetOr0(s, i + 1), OctetOr0(s, i + 2), |s| - i, last);
  }

  lemma SuffixHead(t: seq<Octet>, j: nat, e: Quad, rest: seq<Octet>)
    requires j <= |t| && t[j..] == e.Text() + rest
    ensures |t| == j + 4 + |rest| && t[j + 4..] == rest
    ensures t[j] == e.c0 && t[j + 1] == e.c1 && t[j + 2] == e.c2 && t[j + 3] == e.c3
  {
    var w := t[j..];
    assert w[0] == e.c0 && w[1] == e.c1 && w[2] == e.c2 && w[3] == e.c3;
    assert w[4..] == rest;
  }

  /** At a chunk of our own the decoder finds its octets. */
  lemma DecodeAtChunk(t: seq<Octet>, j: nat, s: seq<Octet>, i: nat)
    requires i < |s| && j <= |t| && t[j..] == EncodeFrom(s, i)
    ensures j + 4 <= |t| && t[j + 4..] == EncodeFrom(s, i + 3) && (j + 4 == |t| <==> |s| - i <= 3)
    ensures DecodeAt(t, j) == Some(ChunkAt(s, i))
  {
    SuffixHead(t, j, EncodeChunk(s, i), EncodeFrom(s, i + 3));
    DecodeOwnChunk(s, i, j + 4 == |t|);
  }

  lemma ChunkThenRest(s: seq<Octet>, i: nat)
    requires i < |s|
    ensures s[i..] == ChunkAt(s, i) + if |s| - i <= 3 then [] else s[i + 3..]
  {
  }

  lemma {:induction false} DecodeEncodedFrom(t: seq<Octet>, j: nat, s: seq<Octet>, i: nat)
    requires i <= |s| && j <= |t| && t[j..] == EncodeFrom(s, i)
    ensures DecodeFrom(t, j) == Some(s[i..])
    decreases |s| - i
  {
    if i == |s| {
      assert s[i..] == [];
    } else {
      DecodeAtChunk(t, j, s, i);
      ChunkThenRest(s, i);
      if |s| - i > 3 { DecodeEncodedFrom(t, j + 4, s, i + 3); }
    }
  }

  lemma DecodeOfEncode(s: seq<Octet>)
    ensures DecodeFrom(EncodeFrom(s, 0), 0) == Some(s)
  {
    var t := EncodeFrom(s, 0);
    assert t[0..] == t && s[0..] == s;
    DecodeEncodedFrom(t, 0, s, 0);
  }

  lemma EncodeDecodedFour(c0: Octet, c1: Octet, c2: Octet, c3: Octet, last: bool)
    requires DecodeFour(c0, c1, c2, c3, last).Some?
    ensures var q := DecodeFour(c0, c1, c2, c3, last).value;
            EncodeThree(q[0], OctetOr0(q, 1), OctetOr0(q, 2), |q|) == Quad(c0, c1, c2, c3)
  {
    var q := DecodeFour(c0, c1, c2, c3, last).value;
    var (a, b) := (Value(c0).value, Value(c1).value);
    if |q| == 1 {
      Resplit(a, b, 0, 0);
      LowBits(b, 0);
    } else if |q| == 2 {
      Resplit(a, b, Value(c2).value, 0);
      LowBits(b, Value(c2).value);
    } else {
      Resplit(a, b, Value(c2).value, Value(c3).value);
    }
  }

  lemma LowBits(b: Octet, c: Octet)
    ensures b & 0x0f == 0 ==> Middle(b, 0) == 0
    ensures c & 0x03 == 0 ==> Low(c, 0) == 0
    ensures Low(0, 0) == 0
  {
  }

  lemma DecodedNonEmpty(t: seq<Octet>, i: nat)
    requires i < |t| && DecodeFrom(t, i).Some?
    ensures |DecodeFrom(t, i).value| >= 1
  {
  }

  lemma SameParts(q: seq<Octet>, r: seq<Octet>, q': seq<Octet>, r': seq<Octet>)
    requires q + r == q' + r' && |q| == |q'|
    ensures q == q' && r == r'
  {
    assert q == (q + r)[..|q|] && q' == (q' + r')[..|q|];
    assert r == (q + r)[|q|..] && r' == (q' + r')[|q|..];
  }

  /** Two texts with the same strict decoding are the same text. */
  lemma {:induction false} DecodeInjective(t: seq<Octet>, i: nat, u: seq<Octet>, j: nat)
    requires i <= |t| && j <= |u| && DecodeFrom(t, i).Some? && DecodeFrom(t, i) == DecodeFrom(u, j)
    ensures t[i..] == u[j..]
    decreases |t| - i
  {
    if i < |t| { DecodedNonEmpty(t, i); }
    if j < |u| { DecodedNonEmpty(u, j); }
    if i < |t| && j < |u| {
      var q, r := DecodeAt(t, i).value, DecodeFrom(t, i + 4).value;
      var q', r' := DecodeAt(u, j).value, DecodeFrom(u, j + 4).value;
      if i + 4 < |t| { DecodedNonEmpty(t, i + 4); }
      if j + 4 < |u| { DecodedNonEmpty(u, j + 4); }
      SameParts(q, r, q', r');
      DecodeInjective(t, i + 4, u, j + 4);
      EncodeDecodedFour(t[i], t[i + 1], t[i + 2], t[i + 3], i + 4 == |t|);
      EncodeDecodedFour(u[j], u[j + 1], u[j + 2], u[j + 3], j + 4 == |u|);
      assert t[i..] == [t[i], t[i + 1], t[i + 2], t[i + 3]] + t[i + 4..];
      assert u[j..] == [u[j], u[j + 1], u[j + 2], u[j + 3]] + u[j + 4..];
    }
  }

  lemma EncodeOfDecode(t: seq<Octet>)
    requires DecodeFrom(t, 0).Some?
    ensures EncodeFrom(DecodeFrom(t, 0).value, 0) == t
  {
    var u := EncodeFrom(DecodeFrom(t, 0).value, 0);
    DecodeOfEncode(DecodeFrom(t, 0).value);
    DecodeInjective(t, 0, u, 0);
    assert t[0..] == t && u[0..] == u;
  }

  // ----- The lenient decoder --------------------------------------------------

  predicate Whitespace(c: Octet) { c == 32 || c == 9 || c == 10 || c == 12 || c == 13 }

  function EmitQuartet(q: seq<Octet>, padding: nat): seq<Octet>
    requires |q| == 4
  {
    [High(q[0], q[1])] + (if padding < 2 then [Middle(q[1], q[2])] else [])
                       + (if padding == 0 then [Low(q[2], q[3])] else [])
  }

  /** Decoding from `i` on with the sextets `q` of an unfinished quartet, `padding` of them padding. */
  function LenientFrom(t: seq<Octet>, i: nat, q: seq<Octet>, padding: nat): Option<seq<Octet>>
    requires i <= |t| && |q| < 4
    decreases |t| - i
  {
    if i == |t| then if q == [] then Some([]) else None
    else if Whitespace(t[i]) then LenientFrom(t, i + 1, q, padding)
    else if t[i] == PAD then LenientNext(t, i, q + [0], padding + 1)
    else if padding != 0 || Value(t[i]).None? then None
    else LenientNext(t, i, q + [Value(t[i]).value], padding)
  }

  function LenientNext(t: seq<Octet>, i: nat, q: seq<Octet>, padding: nat): Option<seq<Octet>>
    requires i < |t| && 1 <= |q| <= 4
    decreases |t| - i, 0
  {
    if |q| == 4 then Prepend(EmitQuartet(q, padding), LenientFrom(t, i + 1, [], 0))
    else LenientFrom(t, i + 1, q, padding)
  }

  /** The DNS-SD file parser's `decode_base64`. */
  method DecodeLenient(value: seq<Octet>) returns (r: Option<seq<Octet>>)
    ensures r == LenientFrom(value, 0, [], 0)
  {
    var output: seq<Octet> := [];
    var quartet := new Octet[4];
    var count: nat, padding: nat := 0, 0;
    PrependNothing(LenientFrom(value, 0, [], 0));
    assert quartet[..0] == [];
    for i := 0 to |value|
      invariant count < 4
      invariant Prepend(output, LenientFrom(value, i, quartet[..count], padding)) == LenientFrom(value, 0, [], 0)
    {
      var byte := value[i];
      if Whitespace(byte) { continue; }
      ghost var q := quartet[..count];
      if byte == PAD {
        quartet[count] := 0;
        padding := padding + 1;
      } else {
        if padding != 0 { return None; }
        var v := Value(byte);
        if v.None? { return None; }
        quartet[count] := v.value;
      }
      count := count + 1;
      assert quartet[..count] == q + [quartet[count - 1]];
      if count == 4 {
        assert quartet[..] == q + [quartet[3]];
        PrependTwice(output, EmitQuartet(quartet[..], padding), LenientFrom(value, i + 1, [], 0));
        assert quartet[..0] == [];
        output := output + EmitQuartet(quartet[..], padding);
        count, padding := 0, 0;
      }
    }
    assert count == 0 ==> quartet[..count] == [] && output + [] == output;
    return if count != 0 then None else Some(output);
  }

  lemma {:induction false} LenientAgreesFrom(t: seq<Octet>, i: nat)
    requires i <= |t| && DecodeFrom(t, i).Some?
    ensures LenientFrom(t, i, [], 0) == DecodeFrom(t, i)
    decreases |t| - i
  {
    if i < |t| {
      LenientAgreesFrom(t, i + 4);
      LenientQuartet(t, i);
    }
  }

  /** Four characters the strict decoder accepts give the lenient one the same octets. */
  lemma LenientQuartet(t: seq<Octet>, i: nat)
    requires i + 4 <= |t| && DecodeAt(t, i).Some?
    ensures LenientFrom(t, i, [], 0) == Prepend(DecodeAt(t, i).value, LenientFrom(t, i + 4, [], 0))
  {
    var (a, b) := (Value(t[i]).value, Value(t[i + 1]).value);
    var c: Octet := if t[i + 2] == PAD then 0 else Value(t[i + 2]).value;
    var d: Octet := if t[i + 3] == PAD then 0 else Value(t[i + 3]).value;
    var p2, p3 := if t[i + 2] == PAD then 1 else 0, if t[i + 3] == PAD then 1 else 0;
    LenientStep(t, i, [], 0, a);
    LenientStep(t, i + 1, [a], 0, b);
    LenientStep(t, i + 2, [a, b], 0, c);
    LenientStep(t, i + 3, [a, b, c], p2, d);
    assert [] + [a] == [a] && [a] + [b] == [a, b] && [a, b] + [c] == [a, b, c];
    assert EmitQuartet([a, b, c] + [d], p2 + p3) == DecodeAt(t, i).value;
  }

  lemma LenientStep(t: seq<Octet>, i: nat, q: seq<Octet>, padding: nat, v: Octet)
    requires i < |t| && |q| < 4
    requires if t[i] == PAD then v == 0 else padding == 0 && Value(t[i]) == Some(v)
    ensures LenientFrom(t, i, q, padding) == LenientNext(t, i, q + [v], padding + if t[i] == PAD then 1 else 0)
  {
  }

  /** Wherever the strict decoder accepts, the lenient one returns the same octets. */
  lemma LenientExtendsStrict(t: seq<Octet>)
    requires DecodeFrom(t, 0).Some?
    ensures LenientFrom(t, 0, [], 0) == DecodeFrom(t, 0)
  {
    LenientAgreesFrom(t, 0);
  }

  // ----- Against the published alphabet --------------------------------------------------------------------

  /** Octets that count through all sextets give the alphabet of table 1 of RFC 4648 in order. */
  lemma WholeAlphabet()
    ensures EncodeThree(0x00, 0x10, 0x83, 3).Text() == [65, 66, 67, 68] && EncodeThree(0x10, 0x51, 0x87, 3).Text() == [69, 70, 71, 72]
    ensures EncodeThree(0x20, 0x92, 0x8b, 3).Text() == [73, 74, 75, 76] && EncodeThree(0x30, 0xd3, 0x8f, 3).Text() == [77, 78, 79, 80]
    ensures EncodeThree(0x41, 0x14, 0x93, 3).Text() == [81, 82, 83, 84] && EncodeThree(0x51, 0x55, 0x97, 3).Text() == [85, 86, 87, 88]
    ensures EncodeThree(0x61, 0x96, 0x9b, 3).Text() == [89, 90, 97, 98] && EncodeThree(0x71, 0xd7, 0x9f, 3).Text() == [99, 100, 101, 102]
    ensures EncodeThree(0x82, 0x18, 0xa3, 3).Text() == [103, 104, 105, 106]
    ensures EncodeThree(0x92, 0x59, 0xa7, 3).Text() == [107, 108, 109, 110]
    ensures EncodeThree(0xa2, 0x9a, 0xab, 3).Text() == [111, 112, 113, 114]
    ensures EncodeThree(0xb2, 0xdb, 0xaf, 3).Text() == [115, 116, 117, 118]
    ensures EncodeThree(0xc3, 0x1c, 0xb3, 3).Text() == [119, 120, 121, 122] && EncodeThree(0xd3, 0x5d, 0xb7, 3).Text() == [48, 49, 50, 51]
    ensures EncodeThree(0xe3, 0x9e, 0xbb, 3).Text() == [52, 53, 54, 55] && EncodeThree(0xf3, 0xdf, 0xbf, 3).Text() == [56, 57, 43, 47]
  {
  }

  /** The test vectors of section 10 of RFC 4648 for `f`, `fo`, `foo` and `foob`. */
  lemma PublishedVectors()
    ensures EncodeFrom([0x66], 0) == [90, 103, 61, 61] && EncodeFrom([0x66, 0x6f], 0) == [90, 109, 56, 61]
    ensures EncodeFrom([0x66, 0x6f, 0x6f], 0) == [90, 109, 57, 118]
    ensures EncodeFrom([0x66, 0x6f, 0x6f, 0x62], 0) == [90, 109, 57, 118, 89, 103, 61, 61]
  {
    assert EncodeFrom([0x66], 3) == [] && EncodeFrom([0x66, 0x6f], 3) == [] && EncodeFrom([0x66, 0x6f, 0x6f], 3) == [];
    assert EncodeFrom([0x66, 0x6f, 0x6f, 0x62], 6) == [];
    assert EncodeFrom([0x66, 0x6f, 0x6f, 0x62], 3) == [89, 103, 61, 61];
  }

  /** A space, tab, line feed, form feed or carriage return. */
  predicate IsBlank(b: Octet) { b in {32, 9, 10, 12, 13} }

  lemma {:induction false} BehindBlank(t: seq<Octet>, u: seq<Octet>, k: nat, b: Octet, i: nat, q: seq<Octet>, padding: nat)
    requires k <= i <= |t| && |q| < 4 && u == t[..k] + [b] + t[k..]
    ensures LenientFrom(u, i + 1, q, padding) == LenientFrom(t, i, q, padding)
    decreases |t| - i
  {
    if i < |t| {
      assert u[i + 1] == t[i];
      BehindBlank(t, u, k, b, i + 1, q, padding);
      BehindBlank(t, u, k, b, i + 1, [], 0);
      if |q| < 3 {
        BehindBlank(t, u, k, b, i + 1, q + [0], padding + 1);
        if Value(t[i]).Some? { BehindBlank(t, u, k, b, i + 1, q + [Value(t[i]).value], padding); }
      }
    }
  }

  lemma {:induction false} BeforeBlank(t: seq<Octet>, u: seq<Octet>, k: nat, b: Octet, i: nat, q: seq<Octet>, padding: nat)
    requires i <= k <= |t| && |q| < 4 && u == t[..k] + [b] + t[k..] && IsBlank(b)
    ensures LenientFrom(u, i, q, padding) == LenientFrom(t, i, q, padding)
    decreases k - i
  {
    if i < k {
      assert u[i] == t[i];
      BeforeBlank(t, u, k, b, i + 1, q, padding);
      BeforeBlank(t, u, k, b, i + 1, [], 0);
      if |q| < 3 {
        BeforeBlank(t, u, k, b, i + 1, q + [0], padding + 1);
        if Value(t[i]).Some? { BeforeBlank(t, u, k, b, i + 1, q + [Value(t[i]).value], padding); }
      }
    } else {
      BehindBlank(t, u, k, b, k, q, padding);
    }
  }

  /** A blank anywhere in the text makes no difference to the lenient decoder. */
  lemma BlanksAreSkipped(t: seq<Octet>, k: nat, b: Octet)
    requires k <= |t| && IsBlank(b)
    ensures LenientFrom(t[..k] + [b] + t[k..], 0, [], 0) == LenientFrom(t, 0, [], 0)
  {
    BeforeBlank(t, t[..k] + [b] + t[k..], k, b, 0, [], 0);
  }

  lemma {:induction false} OthersReject(t: seq<Octet>, k: nat, i: nat, q: seq<Octet>, padding: nat)
    requires i <= k < |t| && |q| < 4 && !IsBlank(t[k]) && t[k] != PAD && Value(t[k]).None?
    ensures LenientFrom(t, i, q, padding) == None
    decreases k - i
  {
    if i < k {
      OthersReject(t, k, i + 1, q, padding);
      OthersReject(t, k, i + 1, [], 0);
      if |q| < 3 {
        OthersReject(t, k, i + 1, q + [0], padding + 1);
        if Value(t[i]).Some? { OthersReject(t, k, i + 1, q + [Value(t[i]).value], padding); }
      }
    }
  }

  /** An octet that is neither blank, nor padding, nor in the alphabet makes the lenient decoder reject the text. */
  lemma OtherOctetsAreRejected(t: seq<Octet>, k: nat)
    requires k < |t| && !IsBlank(t[k]) && t[k] != PAD && Value(t[k]).None?
    ensures LenientFrom(t, 0, [], 0) == None
  {
    OthersReject(t, k, 0, [], 0);
  }
}

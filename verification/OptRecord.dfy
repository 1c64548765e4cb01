/** The OPT pseudo-record of RFC 6891 and the options in its data. */
module OptRecord {
  import opened Bytes

  const TYPE_OPT: Word := 41
  const DNSSEC_OK: Word := 0x8000

  datatype EdnsOption = EdnsOption(code: Word, data: seq<Byte>)

  predicate Fits(o: EdnsOption) { |o.data| <= 65535 }

  function OptionBytes(o: EdnsOption): seq<Byte>
    requires Fits(o)
  {
    WordBytes(o.code) + WordBytes(|o.data|) + o.data
  }

  predicate AllFit(os: seq<EdnsOption>) { forall i | 0 <= i < |os| :: Fits(os[i]) }

  /** The first `n` options one after another. */
  function OptionsBytes(os: seq<EdnsOption>, n: nat): seq<Byte>
    requires AllFit(os) && n <= |os|
  {
    if n == 0 then [] else OptionsBytes(os, n - 1) + OptionBytes(os[n - 1])
  }

  /** The options from `at` on, after those already read. */
  function Parsed(rdata: seq<Byte>, at: nat, before: seq<EdnsOption>): Option<seq<EdnsOption>>
    requires at <= |rdata|
    decreases |rdata| - at
  {
    if at == |rdata| then Some(before)
    else if at + 4 > |rdata| || at + 4 + WordAt(rdata, at + 2) > |rdata| then None
    else
      var end := at + 4 + WordAt(rdata, at + 2);
      Parsed(rdata, end, before + [EdnsOption(WordAt(rdata, at), rdata[at + 4..end])])
  }

  function OptionsOf(rdata: seq<Byte>): Option<seq<EdnsOption>> { Parsed(rdata, 0, []) }

  /** `parse_options`. */
  method ParseOptions(rdata: seq<Byte>) returns (options: Option<seq<EdnsOption>>)
    ensures options == OptionsOf(rdata)
  {
    var read: seq<EdnsOption> := [];
    var offset := 0;
    while offset < |rdata|
      invariant 0 <= offset <= |rdata| && OptionsOf(rdata) == Parsed(rdata, offset, read)
    {
      if offset + 4 > |rdata| { return None; }
      var code, length := WordAt(rdata, offset), WordAt(rdata, offset + 2);
      var end := offset + 4 + length;
      if end > |rdata| { return None; }
      read := read + [EdnsOption(code, rdata[offset + 4..end])];
      offset := end;
    }
    return Some(read);
  }

  lemma {:induction false} PrefixBytes(os: seq<EdnsOption>, k: nat, n: nat)
    requires AllFit(os) && k <= n <= |os|
    ensures HasAt(OptionsBytes(os, n), 0, OptionsBytes(os, k))
  {
    if k < n { PrefixBytes(os, k, n - 1); }
  }

  lemma ReadOne(rdata: seq<Byte>, at: nat, before: seq<EdnsOption>, o: EdnsOption)
    requires Fits(o) && HasAt(rdata, at, OptionBytes(o))
    ensures Parsed(rdata, at, before) == Parsed(rdata, at + |OptionBytes(o)|, before + [o])
  {
    var bytes := OptionBytes(o);
    assert rdata[at] == bytes[0] && rdata[at + 1] == bytes[1] && rdata[at + 2] == bytes[2] && rdata[at + 3] == bytes[3];
    assert WordAt(rdata, at) == o.code && WordAt(rdata, at + 2) == |o.data|;
    assert rdata[at + 4..at + |bytes|] == bytes[4..] == o.data;
  }

  lemma OneAt(os: seq<EdnsOption>, k: nat)
    requires AllFit(os) && k < |os|
    ensures HasAt(OptionsBytes(os, |os|), |OptionsBytes(os, k)|, OptionBytes(os[k]))
    ensures |OptionsBytes(os, k)| + |OptionBytes(os[k])| == |OptionsBytes(os, k + 1)|
  {
    PrefixBytes(os, k + 1, |os|);
    HasAtSplit(OptionsBytes(os, |os|), 0, OptionsBytes(os, k), OptionBytes(os[k]));
  }

  /** Having read the first `k` options, the parser finds the others. */
  ghost predicate ParsesAfter(os: seq<EdnsOption>, k: nat)
    requires AllFit(os) && k <= |os|
  {
    var all, at := OptionsBytes(os, |os|), |OptionsBytes(os, k)|;
    at <= |all| && Parsed(all, at, os[..k]) == Some(os)
  }

  lemma ParsesBefore(os: seq<EdnsOption>, k: nat)
    requires AllFit(os) && k < |os| && ParsesAfter(os, k + 1)
    ensures ParsesAfter(os, k)
  {
    OneAt(os, k);
    TakeNext(os, k);
    ReadInto(OptionsBytes(os, |os|), |OptionsBytes(os, k)|, os[..k], os[k], |OptionsBytes(os, k + 1)|, os[..k + 1], os);
  }

  lemma ReadInto(rdata: seq<Byte>, at: nat, before: seq<EdnsOption>, o: EdnsOption,
                 end: nat, after: seq<EdnsOption>, os: seq<EdnsOption>)
    requires Fits(o) && HasAt(rdata, at, OptionBytes(o)) && end == at + |OptionBytes(o)| && after == before + [o]
    requires Parsed(rdata, end, after) == Some(os)
    ensures Parsed(rdata, at, before) == Some(os)
  {
    ReadOne(rdata, at, before, o);
  }

  lemma TakeNext(os: seq<EdnsOption>, k: nat)
    requires k < |os|
    ensures os[..k] + [os[k]] == os[..k + 1]
  {
  }

  lemma {:induction false} ParsesFrom(os: seq<EdnsOption>, k: nat)
    requires AllFit(os) && k <= |os|
    ensures ParsesAfter(os, k)
    decreases |os| - k
  {
    if k == |os| {
      assert os[..k] == os;
    } else {
      ParsesFrom(os, k + 1);
      ParsesBefore(os, k);
    }
  }

  /** Parsing inverts the option encoding. */
  lemma ParseOfEncode(os: seq<EdnsOption>)
    requires AllFit(os)
    ensures OptionsOf(OptionsBytes(os, |os|)) == Some(os)
  {
    ParsesFrom(os, 0);
    assert os[..0] == [];
  }

  lemma ReadBack(rdata: seq<Byte>, at: nat)
    requires at + 4 <= |rdata| && at + 4 + WordAt(rdata, at + 2) <= |rdata|
    ensures var end := at + 4 + WordAt(rdata, at + 2);
            OptionBytes(EdnsOption(WordAt(rdata, at), rdata[at + 4..end])) == rdata[at..end]
  {
    var end := at + 4 + WordAt(rdata, at + 2);
    var o := EdnsOption(WordAt(rdata, at), rdata[at + 4..end]);
    assert OptionBytes(o)[..4] == rdata[at..at + 4];
    assert OptionBytes(o)[4..] == rdata[at + 4..end];
    assert rdata[at..end] == rdata[at..at + 4] + rdata[at + 4..end];
    assert OptionBytes(o) == OptionBytes(o)[..4] + OptionBytes(o)[4..];
  }

  lemma AppendBytes(os: seq<EdnsOption>, o: EdnsOption)
    requires AllFit(os) && Fits(o)
    ensures OptionsBytes(os + [o], |os| + 1) == OptionsBytes(os, |os|) + OptionBytes(o)
  {
    SamePrefix(os, o, |os|);
  }

  lemma {:induction false} SamePrefix(os: seq<EdnsOption>, o: EdnsOption, n: nat)
    requires AllFit(os) && Fits(o) && n <= |os|
    ensures OptionsBytes(os + [o], n) == OptionsBytes(os, n)
  {
    if n > 0 { SamePrefix(os, o, n - 1); }
  }

  lemma EncodesOne(rdata: seq<Byte>, at: nat, before: seq<EdnsOption>, o: EdnsOption, end: nat)
    requires AllFit(before) && Fits(o) && at <= end <= |rdata|
    requires OptionsBytes(before, |before|) == rdata[..at] && OptionBytes(o) == rdata[at..end]
    ensures AllFit(before + [o]) && OptionsBytes(before + [o], |before| + 1) == rdata[..end]
  {
    AppendBytes(before, o);
    JoinSlices(rdata, at, end);
  }

  lemma JoinSlices(s: seq<Byte>, a: nat, b: nat)
    requires a <= b <= |s|
    ensures s[..a] + s[a..b] == s[..b]
  {
  }

  lemma EncodesStep(rdata: seq<Byte>, at: nat, before: seq<EdnsOption>, end: nat, after: seq<EdnsOption>)
    requires at + 4 <= |rdata| && end == at + 4 + WordAt(rdata, at + 2) <= |rdata|
    requires AllFit(before) && OptionsBytes(before, |before|) == rdata[..at]
    requires after == before + [EdnsOption(WordAt(rdata, at), rdata[at + 4..end])]
    ensures AllFit(after) && OptionsBytes(after, |after|) == rdata[..end]
  {
    ReadBack(rdata, at);
    EncodesOne(rdata, at, before, EdnsOption(WordAt(rdata, at), rdata[at + 4..end]), end);
  }

  lemma EncodesNext(rdata: seq<Byte>, at: nat, before: seq<EdnsOption>) returns (end: nat, after: seq<EdnsOption>)
    requires at < |rdata| && AllFit(before) && OptionsBytes(before, |before|) == rdata[..at]
    requires Parsed(rdata, at, before).Some?
    ensures at < end <= |rdata| && Parsed(rdata, at, before) == Parsed(rdata, end, after)
    ensures AllFit(after) && OptionsBytes(after, |after|) == rdata[..end]
  {
    end := at + 4 + WordAt(rdata, at + 2);
    after := before + [EdnsOption(WordAt(rdata, at), rdata[at + 4..end])];
    EncodesStep(rdata, at, before, end, after);
  }

  lemma {:induction false} EncodesFrom(rdata: seq<Byte>, at: nat, before: seq<EdnsOption>)
    requires at <= |rdata| && AllFit(before) && OptionsBytes(before, |before|) == rdata[..at]
    requires Parsed(rdata, at, before).Some?
    ensures var os := Parsed(rdata, at, before).value; AllFit(os) && OptionsBytes(os, |os|) == rdata
    decreases |rdata| - at
  {
    if at == |rdata| {
      assert rdata[..at] == rdata;
    } else {
      var end, after := EncodesNext(rdata, at, before);
      EncodesFrom(rdata, end, after);
    }
  }

  /** The parser accepts only encodings, and the encoding inverts it. */
  lemma EncodeOfParse(rdata: seq<Byte>)
    requires OptionsOf(rdata).Some?
    ensures var os := OptionsOf(rdata).value; AllFit(os) && OptionsBytes(os, |os|) == rdata
  {
    EncodesFrom(rdata, 0, []);
  }

  // ----- The record ------------------------------------------------------------------------------

  datatype Opt = Opt(udpPayloadSize: Word, extendedRcode: Byte, version: Byte, flags: Word, options: seq<EdnsOption>)

  /** Whether the lengths fit their fields. */
  predicate Encodable(o: Opt) { AllFit(o.options) && |OptionsBytes(o.options, |o.options|)| <= 65535 }

  function OptBytes(o: Opt): (r: seq<Byte>)
    requires Encodable(o)
    ensures |r| == 11 + |OptionsBytes(o.options, |o.options|)|
  {
    var rdata := OptionsBytes(o.options, |o.options|);
    [0] + WordBytes(TYPE_OPT) + WordBytes(o.udpPayloadSize) + [o.extendedRcode, o.version] + WordBytes(o.flags) + WordBytes(|rdata|) + rdata
  }

  /** The octets options take: four and its data for each. */
  function OptionsTake(os: seq<EdnsOption>, n: nat): nat
    requires n <= |os|
  {
    if n == 0 then 0 else OptionsTake(os, n - 1) + 4 + |os[n - 1].data|
  }

  lemma {:induction false} OptionsSizeIs(os: seq<EdnsOption>, n: nat)
    requires n <= |os| && AllFit(os)
    ensures |OptionsBytes(os, n)| == OptionsTake(os, n)
  {
    if n > 0 { OptionsSizeIs(os, n - 1); }
  }

  lemma {:induction false} EachTakesItsShare(os: seq<EdnsOption>, n: nat, i: nat)
    requires i < n <= |os|
    ensures |os[i].data| + 4 <= OptionsTake(os, n)
  {
    if i < n - 1 { EachTakesItsShare(os, n - 1, i); }
  }

  /** A record can be written exactly when its options take no more than 65535 octets together. */
  lemma EncodableIff(o: Opt)
    ensures Encodable(o) <==> OptionsTake(o.options, |o.options|) <= 65535
  {
    if AllFit(o.options) {
      OptionsSizeIs(o.options, |o.options|);
    } else {
      var i :| 0 <= i < |o.options| && !Fits(o.options[i]);
      EachTakesItsShare(o.options, |o.options|, i);
    }
  }

  /** `encode_opt`. */
  method EncodeOpt(o: Opt) returns (r: Option<seq<Byte>>)
    ensures r == if Encodable(o) then Some(OptBytes(o)) else None
  {
    var rdata: seq<Byte> := [];
    for i := 0 to |o.options|
      invariant forall j | 0 <= j < i :: Fits(o.options[j])
      invariant AllFit(o.options) ==> rdata == OptionsBytes(o.options, i)
    {
      if |o.options[i].data| > 65535 { return None; }
      rdata := rdata + OptionBytes(o.options[i]);
    }
    if |rdata| > 65535 { return None; }
    return Some([0] + WordBytes(TYPE_OPT) + WordBytes(o.udpPayloadSize) + [o.extendedRcode, o.version] +
                WordBytes(o.flags) + WordBytes(|rdata|) + rdata);
  }
}

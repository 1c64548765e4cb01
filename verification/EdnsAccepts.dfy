/**
 * Which queries can be prepared and which responses handed on: by the octets of the header, the
 * parser and the scan, and the room a message has.
 */
module EdnsAccepts {
  import opened Bytes
  import opened DnsRecords
  import opened OptRecord
  import opened WireSections
  import opened EdnsScan
  import opened Edns

  /** No response, opcode 0, not truncated; one question and no answers. */
  predicate PlainQuery(p: seq<Byte>) {
    |p| >= 12 && p[2] in {0, 1, 4, 5} && p[4] == 0 && p[5] == 1 && p[6] == 0 && p[7] == 0
  }

  /** A response with opcode 0 and at least one question. */
  predicate PlainResponse(p: seq<Byte>) {
    |p| >= 12 && 128 <= p[2] < 136 && (p[4] != 0 || p[5] != 0)
  }

  lemma QueryHeaderIff(p: seq<Byte>)
    ensures QueryHeader(p) <==> PlainQuery(p)
  {
  }

  lemma ResponseHeaderIff(p: seq<Byte>)
    ensures ResponseHeader(p) <==> PlainResponse(p)
  {
  }

  /** The octets of our OPT record: eleven, and 22 of options with the DO bit. */
  function RecordSize(level: Level): nat {
    if level.Udp? then 0 else if level.DnssecOk? || level.TlsDnssecOk? then 33 else 11
  }

  function SpanSize(opt: Option<Span>): nat {
    if opt.Some? && opt.value.start <= opt.value.end then opt.value.end - opt.value.start else 0
  }

  /** The message stays within 65535 octets, and a record that is added can be counted. */
  predicate HasRoom(p: seq<Byte>, opt: Option<Span>, level: Level)
    requires |p| >= 12
  {
    && (opt.Some? || !level.Udp? ==> |p| - SpanSize(opt) + RecordSize(level) <= 65535)
    && (opt.None? && !level.Udp? ==> p[10] != 255 || p[11] != 255)
  }

  lemma SpanStands(p: seq<Byte>, start: nat, rs: seq<Record>, span: Span)
    requires Reads(p, start, rs) && Places(start, rs, span)
    ensures start <= span.start <= span.end <= |p| && RecordEnd(p, span.start).Some?
  {
    RecordStands(p, start, rs, span.index);
    RecordInPlace(p, span.start, rs[span.index]);
  }

  lemma SpanPlaced(p: seq<Byte>) returns (start: nat, rs: seq<Record>)
    requires Scanned(p).Some? && Scanned(p).value.1.opt.Some?
    ensures |p| >= 12 && 12 <= start && Reads(p, start, rs) && Places(start, rs, Scanned(p).value.1.opt.value)
    ensures Additional(p) > 0
  {
    start := Scanned(p).value.0;
    rs := ScannedReads(p);
  }

  lemma SpanInside(p: seq<Byte>)
    requires Scanned(p).Some? && Scanned(p).value.1.opt.Some?
    ensures |p| >= 12 && Additional(p) > 0
    ensures var span := Scanned(p).value.1.opt.value;
            12 <= span.start <= span.end <= |p| && RecordEnd(p, span.start).Some?
  {
    var start, rs := SpanPlaced(p);
    SpanStands(p, start, rs, Scanned(p).value.1.opt.value);
  }

  lemma PutsIff(p: seq<Byte>, opt: Option<Span>, level: Level, size: Word)
    requires |p| >= 12 && !level.Udp? && (opt.Some? ==> opt.value.start <= opt.value.end <= |p|)
    ensures PutOpt(p, opt, OptBytes(QueryOpt(level, size))).Some? <==> HasRoom(p, opt, level)
  {
    OurOctets(level, size);
    assert |OptBytes(QueryOpt(level, size))| == RecordSize(level);
  }

  lemma RemovesIff(p: seq<Byte>, span: Span)
    requires |p| >= 12 && 12 <= span.start <= span.end <= |p| && Additional(p) > 0
    ensures RemoveOpt(p, span).Some? <==> |p| - (span.end - span.start) <= 65535
  {
  }

  /**
   * A query is prepared exactly when its header is that of a plain query, it parses and passes the
   * scan, and, unless it is signed, the result has room.
   */
  lemma PreparesIff(p: seq<Byte>, level: Level, size: Word, local: LocalCheck)
    ensures Prepare(p, level, size, local).Some? <==>
            && PlainQuery(p) && Parses(p, local) && Scanned(p).Some?
            && var s := Scanned(p).value.1; s.tsig || HasRoom(p, s.opt, level)
  {
    QueryHeaderIff(p);
    if PlainQuery(p) && Scanned(p).Some? {
      var opt := Scanned(p).value.1.opt;
      if opt.Some? {
        SpanInside(p);
        RemovesIff(p, opt.value);
      }
      if !level.Udp? { PutsIff(p, opt, level, size); }
    }
  }

  /**
   * A response is handed to a client exactly when both messages have plain headers and parse, the query
   * passes the scan, and, for a query without EDNS and signature, the response passes it too and is
   * not too long without its OPT record.
   */
  lemma RespondsIff(query: seq<Byte>, response: seq<Byte>, local: LocalCheck)
    ensures ClientResponse(query, response, local).Some? <==>
            && PlainQuery(query) && Parses(query, local) && PlainResponse(response) && Parses(response, local)
            && Scanned(query).Some? && var s := Scanned(query).value.1;
            s.tsig || s.opt.Some? ||
            (Scanned(response).Some? && var t := Scanned(response).value.1;
             t.opt.None? || |response| - SpanSize(t.opt) <= 65535)
  {
    QueryHeaderIff(query);
    ResponseHeaderIff(response);
    if Scanned(response).Some? && Scanned(response).value.1.opt.Some? {
      SpanInside(response);
      RemovesIff(response, Scanned(response).value.1.opt.value);
    }
  }
}

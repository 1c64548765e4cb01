/**
 * The two hardened name walkers written in C: `sr_dns_name_walk` of the io_uring
 * path and `bw_name_walk` of the packet auditor, proved sound and complete for
 * the offset chains of NameChain, and the query precheck built on the first.
 */
module NameWalk {
  import opened Bytes
  import opened NameChain

  const MAX_HOPS: nat := 128
  const NAME_WIRE_MAX: nat := 255
  const MESSAGE_MAX: nat := 65535

  datatype Status = Ok | OutOfBounds | BadLabel | Cycle | HopLimit | TooLong

  /** Room for the wire form: the protocol limit or, when smaller, the caller's buffer. */
  function Limit(capacity: Option<nat>): (r: nat)
    ensures r <= NAME_WIRE_MAX
  {
    match capacity
    case None => NAME_WIRE_MAX
    case Some(c) => Min(NAME_WIRE_MAX, c)
  }

  function CapacityOf(out: array?<Byte>): Option<nat> {
    if out == null then None else Some(out.Length)
  }

  /** A name starts at `off`, is reached within `hops` cells and spells at most `limit` octets. */
  ghost predicate Decodable(msg: seq<Byte>, off: nat, hops: nat, limit: nat) {
    exists p :: NamePath(msg, off, p) && Size(p) <= hops && |Spell(msg, p)| <= limit
  }

  /** What a status claims about the chain that the walk followed. */
  ghost predicate Evidence(status: Status, msg: seq<Byte>, off: nat, hops: nat, limit: nat, p: Path) {
    && Chain(msg, off, p)
    && match status
       case Ok => CellAt(msg, p.at).Root? && Size(p) <= hops && |Spell(msg, p)| <= limit
       case OutOfBounds => CellAt(msg, p.at).Truncated?
       case BadLabel => CellAt(msg, p.at).Reserved?
       case Cycle => !Distinct(p)
       case HopLimit => Size(p) == hops + 1
       case TooLong => |Spell(msg, p)| + (if CellAt(msg, p.at).Root? then 0 else 1) > limit
  }

  /** The evidence for a status settles whether a name could have been decoded. */
  lemma EvidenceDecides(status: Status, msg: seq<Byte>, off: nat, hops: nat, limit: nat, p: Path)
    requires Evidence(status, msg, off, hops, limit, p)
    ensures status.Ok? <==> Decodable(msg, off, hops, limit)
  {
    if !status.Ok? && Decodable(msg, off, hops, limit) {
      var q :| NamePath(msg, off, q) && Size(q) <= hops && |Spell(msg, q)| <= limit;
      NamePathAhead(msg, off, p, q);
      PrefixDistinct(msg, off, p, q);
      SpellAhead(msg, off, p, q);
      assert false;
    }
  }

  /** `sr_dns_name_walk`; a null `out` asks only for the offset after the name. */
  method SrNameWalk(msg: seq<Byte>, off: nat, out: array?<Byte>)
    returns (status: Status, next: nat, length: nat, ghost path: Path)
    modifies out
    ensures status.Ok? <==>
            |msg| <= MESSAGE_MAX && Decodable(msg, off, MAX_HOPS, Limit(CapacityOf(out)))
    ensures (status == TooLong && |msg| > MESSAGE_MAX) ||
            Evidence(status, msg, off, MAX_HOPS, Limit(CapacityOf(out)), path)
    ensures status.Ok? ==> next == Resume(msg, path) && Holds(out, length, Spell(msg, path))
    ensures status.Ok? && out != null ==> length <= out.Length && NoUpper(out[..length])
    ensures !status.Ok? ==> next == off && length == 0
  {
    next, length, path := off, 0, First(off);
    if |msg| == 0 {
      status := OutOfBounds;
    } else if |msg| > MESSAGE_MAX {
      return TooLong, next, length, path;
    } else if off >= |msg| {
      status := OutOfBounds;
    } else if out != null && out.Length == 0 {
      status := TooLong;
    } else {
      status, next, length, path := SrFollow(msg, off, out);
    }
    EvidenceDecides(status, msg, off, MAX_HOPS, Limit(CapacityOf(out)), path);
    SpellHasNoUpper(msg, path);
  }

  /** The loop of `sr_dns_name_walk`, entered once the arguments have been checked. */
  method SrFollow(msg: seq<Byte>, off: nat, out: array?<Byte>)
    returns (status: Status, next: nat, length: nat, ghost path: Path)
    modifies out
    ensures Evidence(status, msg, off, MAX_HOPS, Limit(CapacityOf(out)), path)
    ensures status.Ok? ==> next == Resume(msg, path) && Holds(out, length, Spell(msg, path))
    ensures !status.Ok? ==> next == off && length == 0
  {
    path := First(off);
    var o: nat, hops: nat, nlen: nat := off, 0, 0;
    var jumped, returnOff: nat := false, 0;
    var seen: set<nat> := {};
    ghost var spelt: seq<Byte> := [];
    while true
      invariant hops <= MAX_HOPS
      invariant path.at == o && Chain(msg, off, path) && Size(path) == hops + 1
      invariant seen == if path.Then? then Offsets(path.before) else {}
      invariant spelt == if path.Then? then Spell(msg, path.before) else []
      invariant Holds(out, nlen, spelt)
      invariant jumped <==> path.Then? && Jumped(msg, path.before)
      invariant jumped ==> returnOff == Resume(msg, path.before)
      decreases MAX_HOPS - hops
    {
      var verdict, successor, isPointer, more := SrVisit(msg, o, hops, seen, out, nlen, spelt);
      if verdict.Some? {
        if verdict.value.Ok? {
          return Ok, if jumped then returnOff else o + 1, more, path;
        }
        if verdict.value == OutOfBounds && Continues(msg, o) { path := Then(path, successor); }
        return verdict.value, off, 0, path;
      }
      if isPointer && !jumped { returnOff, jumped := o + 2, true; }
      hops, seen := hops + 1, seen + {o};
      spelt := spelt + Emit(msg, o);
      o, nlen, path := successor, more, Then(path, successor);
    }
  }

  /** One iteration: checks the cell at `o`, writes what it contributes and finds its successor. */
  method SrVisit(msg: seq<Byte>, o: nat, hops: nat, seen: set<nat>, out: array?<Byte>, nlen: nat, ghost spelt: seq<Byte>)
    returns (verdict: Option<Status>, successor: nat, isPointer: bool, more: nat)
    requires Holds(out, nlen, spelt)
    modifies out
    ensures verdict == None ==>
              && hops < MAX_HOPS && o !in seen
              && Continues(msg, o) && Holds(out, more, spelt + Emit(msg, o))
    ensures verdict == None || (verdict == Some(OutOfBounds) && Continues(msg, o)) ==>
              && Continues(msg, o) && successor == Successor(msg, o)
              && isPointer == CellAt(msg, o).Pointer?
    ensures verdict.Some? ==> Reason(verdict.value, msg, o, hops, MAX_HOPS, seen, Limit(CapacityOf(out)), spelt)
    ensures verdict == Some(Ok) ==> Holds(out, more, spelt + Emit(msg, o))
  {
    successor, isPointer, more := o, false, nlen;
    if o >= |msg| { return Some(OutOfBounds), successor, isPointer, more; }
    if hops >= MAX_HOPS { return Some(HopLimit), successor, isPointer, more; }
    if o in seen { return Some(Cycle), successor, isPointer, more; }
    var lab := msg[o];
    if lab == 0 {
      var fits := PutRoot(out, nlen, spelt);
      if !fits || nlen + 1 > NAME_WIRE_MAX { return Some(TooLong), successor, isPointer, more; }
      return Some(Ok), successor, isPointer, nlen + 1;
    }
    if lab >= 192 {
      if o + 1 >= |msg| { return Some(OutOfBounds), successor, isPointer, more; }
      successor, isPointer := (lab as int - 192) * 256 + msg[o + 1], true;
      return if successor >= |msg| then Some(OutOfBounds) else None, successor, isPointer, more;
    }
    if lab >= 64 { return Some(BadLabel), successor, isPointer, more; }
    successor := o + 1 + lab;
    if successor >= |msg| { return Some(OutOfBounds), successor, isPointer, more; }
    if nlen + 1 + lab + 1 > NAME_WIRE_MAX { return Some(TooLong), successor, isPointer, more; }
    var fits := PutLabelAt(out, nlen, msg, o, spelt);
    if !fits { return Some(TooLong), successor, isPointer, more; }
    return None, successor, isPointer, nlen + 1 + lab;
  }

  /** Why the walk stops at `o` with `status`, having spelt `spelt` before it. */
  ghost predicate Reason(status: Status, msg: seq<Byte>, o: nat, hops: nat, maxHops: nat, seen: set<nat>, limit: nat, spelt: seq<Byte>) {
    match status
    case Ok => CellAt(msg, o).Root? && hops < maxHops && |spelt| + 1 <= limit
    case OutOfBounds => CellAt(msg, o).Truncated? || (Continues(msg, o) && Successor(msg, o) >= |msg|)
    case BadLabel => CellAt(msg, o).Reserved?
    case Cycle => o in seen
    case HopLimit => hops >= maxHops
    case TooLong => |spelt| + |Emit(msg, o)| + (if CellAt(msg, o).Root? then 0 else 1) > limit
  }

  /** Appends `src`, lower-cased, at position `at` of the output buffer. */
  method CopyLower(src: seq<Byte>, out: array<Byte>, at: nat)
    requires at + |src| <= out.Length
    modifies out
    ensures out[..at] == old(out[..at]) && out[at..at + |src|] == Lower(src)
  {
    for i := 0 to |src|
      invariant forall k | 0 <= k < at :: out[k] == old(out[k])
      invariant forall k | at <= k < at + i :: out[k] == LowerByte(src[k - at])
    {
      out[at + i] := LowerByte(src[i]);
    }
    forall i | 0 <= i < |src| ensures out[at..at + |src|][i] == Lower(src)[i] { LowerAt(src, i); }
  }

  /** The buffer, when there is one, starts with `text`, whose length is `n`. */
  ghost predicate Holds(out: array?<Byte>, n: nat, text: seq<Byte>)
    reads out
  {
    n == |text| && (out != null ==> n <= out.Length && out[..n] == text)
  }

  /** Writes a length octet and the lower-cased label unless the root would no longer fit. */
  method PutLabel(out: array?<Byte>, at: nat, content: seq<Byte>, ghost text: seq<Byte>) returns (fits: bool)
    requires 1 <= |content| <= 63 && Holds(out, at, text)
    modifies out
    ensures fits <==> out == null || at + 1 + |content| < out.Length
    ensures fits ==> Holds(out, at + 1 + |content|, text + ([|content|] + Lower(content)))
  {
    if out == null { return true; }
    fits := at + 1 + |content| < out.Length;
    if fits {
      out[at] := |content|;
      CopyLower(content, out, at + 1);
      assert out[..at + 1 + |content|] == out[..at + 1] + out[at + 1..at + 1 + |content|];
    }
  }

  method PutLabelAt(out: array?<Byte>, at: nat, msg: seq<Byte>, o: nat, ghost text: seq<Byte>) returns (fits: bool)
    requires CellAt(msg, o).Label? && Holds(out, at, text)
    modifies out
    ensures fits <==> out == null || at + 1 + msg[o] < out.Length
    ensures fits ==> Holds(out, at + 1 + msg[o], text + Emit(msg, o))
  {
    var content := msg[o + 1..o + 1 + msg[o]];
    assert Emit(msg, o) == [|content|] + Lower(content);
    fits := PutLabel(out, at, content, text);
  }

  method PutRoot(out: array?<Byte>, at: nat, ghost text: seq<Byte>) returns (fits: bool)
    requires Holds(out, at, text)
    modifies out
    ensures fits <==> out == null || at < out.Length
    ensures fits ==> Holds(out, at + 1, text + [0])
  {
    if out == null { return true; }
    fits := at < out.Length;
    if fits { out[at] := 0; }
  }

  const BW_MAX_HOPS: nat := 129
  const BITSET_SIZE: nat := 65536

  /** The stable error codes of the packet auditor. */
  function BwCode(status: Status): int {
    match status
    case Ok => 0
    case OutOfBounds => -4
    case BadLabel => -4
    case TooLong => -4
    case Cycle => -5
    case HopLimit => -6
  }

  datatype BwName = BwName(uncompressed: seq<Byte>, nextOff: nat, labelCount: nat, hadCompression: bool)

  ghost function LabelCount(msg: seq<Byte>, p: Path): nat {
    (if CellAt(msg, p.at).Label? then 1 else 0) + (if p.Then? then LabelCount(msg, p.before) else 0)
  }

  ghost function BwNameOf(msg: seq<Byte>, p: Path): BwName {
    BwName(Spell(msg, p), Resume(msg, p) % 0x1_0000, LabelCount(msg, p), Jumped(msg, p))
  }

  /** `bw_name_walk`: tolerates one more cell than `sr_dns_name_walk` and messages of any length. */
  method BwNameWalk(msg: seq<Byte>, off: nat) returns (code: int, name: BwName, ghost cause: Status, ghost path: Path)
    ensures code == BwCode(cause)
    ensures code == 0 <==> Decodable(msg, off, BW_MAX_HOPS, NAME_WIRE_MAX)
    ensures Evidence(cause, msg, off, BW_MAX_HOPS, NAME_WIRE_MAX, path)
    ensures code == 0 ==> name == BwNameOf(msg, path) && NoUpper(name.uncompressed)
  {
    code, name, cause, path := -4, BwName([], 0, 0, false), OutOfBounds, First(off);
    if off < |msg| {
      var status, spelt, next, labels, jumped;
      status, spelt, next, labels, jumped, path := BwFollow(msg, off);
      name := BwName(spelt, next % 0x1_0000, labels, jumped);
      code, cause := BwCode(status), status;
    }
    EvidenceDecides(cause, msg, off, BW_MAX_HOPS, NAME_WIRE_MAX, path);
    SpellHasNoUpper(msg, path);
  }

  method BwFollow(msg: seq<Byte>, off: nat)
    returns (status: Status, spelt: seq<Byte>, next: nat, labels: nat, jumped: bool, ghost path: Path)
    ensures Evidence(status, msg, off, BW_MAX_HOPS, NAME_WIRE_MAX, path)
    ensures status.Ok? ==> spelt == Spell(msg, path) && next == Resume(msg, path)
    ensures status.Ok? ==> labels == LabelCount(msg, path) && jumped == Jumped(msg, path)
  {
    path := First(off);
    var o: nat, hops: nat, seen: set<nat> := off, 0, {};
    spelt, next, labels, jumped := [], 0, 0, false;
    while true
      invariant hops <= BW_MAX_HOPS
      invariant path.at == o && Chain(msg, off, path) && Size(path) == hops + 1
      invariant seen <= if path.Then? then Offsets(path.before) else {}
      invariant spelt == if path.Then? then Spell(msg, path.before) else []
      invariant labels == if path.Then? then LabelCount(msg, path.before) else 0
      invariant jumped <==> path.Then? && Jumped(msg, path.before)
      invariant jumped ==> next == Resume(msg, path.before)
      decreases BW_MAX_HOPS - hops
    {
      var verdict, successor, isPointer, more := BwVisit(msg, o, hops, seen, spelt);
      if verdict.Some? {
        if verdict.value == OutOfBounds && Continues(msg, o) { path := Then(path, successor); }
        return verdict.value, more, if jumped then next else o + 1, labels, jumped, path;
      }
      if isPointer {
        if !jumped { next, jumped := o + 2, true; }
      } else {
        labels := labels + 1;
      }
      hops := hops + 1;
      if o < BITSET_SIZE { seen := seen + {o}; }
      o, spelt, path := successor, more, Then(path, successor);
    }
  }

  method BwVisit(msg: seq<Byte>, o: nat, hops: nat, seen: set<nat>, spelt: seq<Byte>)
    returns (verdict: Option<Status>, successor: nat, isPointer: bool, more: seq<Byte>)
    ensures verdict == None ==>
              hops < BW_MAX_HOPS && Continues(msg, o) && more == spelt + Emit(msg, o)
    ensures verdict == None || (verdict == Some(OutOfBounds) && Continues(msg, o)) ==>
              && Continues(msg, o) && successor == Successor(msg, o)
              && isPointer == CellAt(msg, o).Pointer?
    ensures verdict.Some? ==> Reason(verdict.value, msg, o, hops, BW_MAX_HOPS, seen, NAME_WIRE_MAX, spelt)
    ensures verdict == Some(Ok) ==> more == spelt + Emit(msg, o)
  {
    successor, isPointer, more := o, false, spelt;
    if o >= |msg| { return Some(OutOfBounds), successor, isPointer, more; }
    if hops >= BW_MAX_HOPS { return Some(HopLimit), successor, isPointer, more; }
    if o < BITSET_SIZE && o in seen { return Some(Cycle), successor, isPointer, more; }
    var lab := msg[o];
    if lab == 0 {
      if |spelt| + 1 > NAME_WIRE_MAX { return Some(TooLong), successor, isPointer, more; }
      return Some(Ok), successor, isPointer, spelt + [0];
    }
    if lab >= 192 {
      if o + 1 >= |msg| { return Some(OutOfBounds), successor, isPointer, more; }
      successor, isPointer := (lab as int - 192) * 256 + msg[o + 1], true;
      return if successor >= |msg| then Some(OutOfBounds) else None, successor, isPointer, more;
    }
    if lab >= 64 { return Some(BadLabel), successor, isPointer, more; }
    successor := o + 1 + lab;
    if successor >= |msg| { return Some(OutOfBounds), successor, isPointer, more; }
    if |spelt| + 1 + lab + 1 > NAME_WIRE_MAX { return Some(TooLong), successor, isPointer, more; }
    return None, successor, isPointer, spelt + ([lab] + Lower(msg[o + 1..successor]));
  }

  /** Whenever the first walker accepts, the second returns the same name and the same next offset. */
  method WalkersAgree(msg: seq<Byte>, off: nat, out: array<Byte>)
    returns (status: Status, next: nat, length: nat, code: int, name: BwName)
    modifies out
    ensures status.Ok? ==>
              && code == 0 && length <= out.Length
              && name.uncompressed == out[..length] && name.nextOff == next
  {
    ghost var p, cause, q;
    status, next, length, p := SrNameWalk(msg, off, out);
    code, name, cause, q := BwNameWalk(msg, off);
    if status.Ok? {
      NamePathUnique(msg, off, p, q);
      ResumeInRange(msg, off, p);
    }
  }

  /** The conditions `sr_dns_header_precheck` puts on a packet of the given direction. */
  ghost predicate Prechecked(pkt: seq<Byte>, response: bool) {
    && 12 <= |pkt| <= MESSAGE_MAX
    && (pkt[2] / 8) % 16 == 0                // opcode QUERY
    && (pkt[2] >= 128 <==> response)         // direction
    && WordAt(pkt, 4) + WordAt(pkt, 6) + WordAt(pkt, 8) + WordAt(pkt, 10) <= 4096
    && (WordAt(pkt, 4) == 0 ==> response)
    && (WordAt(pkt, 4) != 0 ==> exists p ::
          && NamePath(pkt, 12, p) && Size(p) <= MAX_HOPS && |Spell(pkt, p)| <= NAME_WIRE_MAX
          && Resume(pkt, p) + 4 <= |pkt|)
  }

  datatype Errno = None0 | EINVAL | EMSGSIZE | EPROTONOSUPPORT | E2BIG | EBADMSG

  /** The first fault of a header, in the order in which they are reported. */
  function HeaderError(pkt: seq<Byte>, response: bool): Errno {
    if |pkt| < 12 then EINVAL
    else if |pkt| > MESSAGE_MAX then EMSGSIZE
    else if (pkt[2] / 8) % 16 != 0 then EPROTONOSUPPORT
    else if response != (pkt[2] >= 128) then EINVAL
    else if (WordAt(pkt, 4) as int) + WordAt(pkt, 6) + WordAt(pkt, 8) + WordAt(pkt, 10) > 4096 then E2BIG
    else if WordAt(pkt, 4) == 0 && !response then EINVAL
    else None0
  }

  method HeaderPrecheck(pkt: seq<Byte>, response: bool) returns (errno: Errno)
    ensures errno == None0 <==> Prechecked(pkt, response)
    ensures errno != None0 ==> errno == if HeaderError(pkt, response) == None0 then EBADMSG else HeaderError(pkt, response)
  {
    if |pkt| < 12 { return EINVAL; }
    if |pkt| > MESSAGE_MAX { return EMSGSIZE; }
    if (pkt[2] / 8) % 16 != 0 { return EPROTONOSUPPORT; }
    if response != (pkt[2] >= 128) { return EINVAL; }
    var questions := WordAt(pkt, 4);
    if (questions as int) + WordAt(pkt, 6) + WordAt(pkt, 8) + WordAt(pkt, 10) > 4096 { return E2BIG; }
    if questions == 0 && !response { return EINVAL; }
    if questions != 0 {
      var status, next, _, p := SrNameWalk(pkt, 12, null);
      forall q | NamePath(pkt, 12, q) && status.Ok? ensures p == q { NamePathUnique(pkt, 12, p, q); }
      if !status.Ok? { return EBADMSG; }
      if next + 4 > |pkt| { return EBADMSG; }
    }
    return None0;
  }

  /** `sr_extract_question_owner`: after a passed precheck a 255-octet buffer always suffices. */
  method ExtractQuestionOwner(pkt: seq<Byte>, owner: array<Byte>)
    returns (errno: Errno, length: nat, qtype: Word, qclass: Word, ghost path: Path)
    modifies owner
    ensures Prechecked(pkt, false) && owner.Length >= NAME_WIRE_MAX ==> errno == None0
    ensures errno == None0 ==> Prechecked(pkt, false)
    ensures errno == None0 ==>
              && NamePath(pkt, 12, path) && length <= owner.Length
              && owner[..length] == Spell(pkt, path) && NoUpper(owner[..length]) && Resume(pkt, path) + 4 <= |pkt|
              && qtype == WordAt(pkt, Resume(pkt, path)) && qclass == WordAt(pkt, Resume(pkt, path) + 2)
  {
    length, qtype, qclass, path := 0, 0, 0, First(12);
    if |pkt| < 12 { errno := EINVAL; return; }
    errno := HeaderPrecheck(pkt, false);
    if errno != None0 { return; }
    var status, next;
    status, next, length, path := SrNameWalk(pkt, 12, owner);
    if !status.Ok? { return EBADMSG, 0, 0, 0, path; }
    // The precheck followed the same chain, so four octets are known to remain.
    ghost var p :| NamePath(pkt, 12, p) && Resume(pkt, p) + 4 <= |pkt|;
    NamePathUnique(pkt, 12, p, path);
    qtype, qclass := WordAt(pkt, next), WordAt(pkt, next + 2);
  }
}

/**
 * `read_name`, the resolver's own name reader: strictly backward pointers, at most 128 of
 * them, and at most 255 octets.  It is proved against the chains of section 4.1.4 of RFC
 * 1035, and what it reads is related between messages that share only some octets.
 */
module NameReading {
  import opened Bytes
  import opened NameChain
  import opened NameText
  import opened DnsRecords

  /** Octets that the labels of a name may take, its root excluded. */
  const MAX_LABELS: nat := 254

  /** The cells that start at each of the first `n` offsets. */
  function CellsTo(p: seq<Byte>, n: nat): seq<Cell> {
    if n == 0 then [] else CellsTo(p, n - 1) + [CellAt(p, n - 1)]
  }

  function Cells(p: seq<Byte>): seq<Cell> { CellsTo(p, |p|) }

  function CellOf(c: seq<Cell>, at: nat): Cell { if at < |c| then c[at] else Truncated }

  lemma {:induction false} CellsAt(p: seq<Byte>, n: nat, at: nat)
    ensures |CellsTo(p, n)| == n && (at < n ==> CellsTo(p, n)[at] == CellAt(p, at))
  {
    if n > 0 { CellsAt(p, n - 1, at); }
  }

  lemma CellIs(p: seq<Byte>, at: nat)
    ensures CellOf(Cells(p), at) == CellAt(p, at)
  {
    CellsAt(p, |p|, at);
  }

  /** The offsets a reader visits, in order. */
  datatype Trail = Ends(at: nat) | Goes(at: nat, rest: Trail)

  function Onto(at: nat, r: Option<Trail>): Option<Trail> { if r.None? then None else Some(Goes(at, r.value)) }

  /** The way from `at` to the root, with `left` jumps and `room` label octets to spend. */
  function Follow(c: seq<Cell>, at: nat, left: nat, room: nat): Option<Trail>
    decreases left, |c| - at
  {
    match CellOf(c, at)
    case Root => Some(Ends(at))
    case Label(n) => if n + 1 > room then None else Onto(at, Follow(c, at + 1 + n, left, room - (n + 1)))
    case Pointer(t) => if t >= at || left == 0 then None else Onto(at, Follow(c, t, left - 1, room))
    case _ => None
  }

  /** The lower-case wire form along a trail. */
  function Spelling(p: seq<Byte>, t: Trail): seq<Byte> {
    match t
    case Ends(at) => Emit(p, at)
    case Goes(at, rest) => Emit(p, at) + Spelling(p, rest)
  }

  function TrailAt(p: seq<Byte>, at: nat): Option<Trail> { Follow(Cells(p), at, MAX_JUMPS, MAX_LABELS) }

  /** The name `read_name` finds at an offset. */
  function NameAt(p: seq<Byte>, at: nat): Option<seq<Byte>> {
    var t := TrailAt(p, at);
    if t.None? then None else Some(Spelling(p, t.value))
  }

  // ----- The loop ---------------------------------------------------------------------------------

  /** The loop state of `read_name`. */
  datatype Reader = Reader(cursor: nat, next: nat, jumped: bool, left: nat, room: nat, wire: seq<Byte>)

  /** The reader stops here, one way or the other. */
  predicate Halts(cell: Cell, r: Reader) {
    match cell
    case Label(n) => n + 1 > r.room
    case Pointer(t) => t >= r.cursor || r.left == 0
    case _ => true
  }

  function Ahead(c: seq<Cell>, r: Reader): Option<Trail> { Follow(c, r.cursor, r.left, r.room) }

  /** What the reader will return, given where it stands. */
  function Outlook(p: seq<Byte>, c: seq<Cell>, r: Reader): Option<seq<Byte>> {
    var t := Ahead(c, r);
    if t.None? then None else Some(r.wire + Spelling(p, t.value))
  }

  function EndOutlook(p: seq<Byte>, r: Reader): Option<nat> {
    if r.jumped then Some(r.next) else NameEnd(p, r.cursor)
  }

  function Moved(r: Reader, cell: Cell, emitted: seq<Byte>): Reader
    requires !Halts(cell, r)
  {
    if cell.Label? then
      r.(cursor := r.cursor + 1 + cell.length, room := r.room - (cell.length + 1), wire := r.wire + emitted)
    else
      r.(cursor := cell.target, left := r.left - 1, jumped := true,
         next := if r.jumped then r.next else r.cursor + 2, wire := r.wire + emitted)
  }

  lemma MovedAhead(c: seq<Cell>, r: Reader, emitted: seq<Byte>)
    requires !Halts(CellOf(c, r.cursor), r)
    ensures Ahead(c, r) == Onto(r.cursor, Ahead(c, Moved(r, CellOf(c, r.cursor), emitted)))
  {
  }

  lemma MovedOutlook(p: seq<Byte>, c: seq<Cell>, r: Reader)
    requires !Halts(CellOf(c, r.cursor), r)
    ensures Outlook(p, c, Moved(r, CellOf(c, r.cursor), Emit(p, r.cursor))) == Outlook(p, c, r)
  {
    var m := Moved(r, CellOf(c, r.cursor), Emit(p, r.cursor));
    MovedAhead(c, r, Emit(p, r.cursor));
    if Ahead(c, m).Some? { Assoc(r.wire, Emit(p, r.cursor), Spelling(p, Ahead(c, m).value)); }
  }

  lemma MovedEnd(p: seq<Byte>, r: Reader, emitted: seq<Byte>)
    requires !Halts(CellAt(p, r.cursor), r)
    ensures EndOutlook(p, Moved(r, CellAt(p, r.cursor), emitted)) == EndOutlook(p, r)
  {
  }

  lemma StoppedOutlook(p: seq<Byte>, c: seq<Cell>, r: Reader)
    requires Halts(CellOf(c, r.cursor), r)
    ensures Outlook(p, c, r) == if CellOf(c, r.cursor).Root? then Some(r.wire + Emit(p, r.cursor)) else None
  {
  }

  /** `read_name`: the name and the offset after it. */
  method ReadName(p: seq<Byte>, offset: nat) returns (r: Option<(seq<Byte>, nat)>)
    ensures r.Some? <==> NameAt(p, offset).Some?
    ensures r.Some? ==> Some(r.value.0) == NameAt(p, offset) && Some(r.value.1) == NameEnd(p, offset)
    ensures r.Some? ==> NoUpper(r.value.0)
  {
    ghost var c := Cells(p);
    var s := Reader(offset, offset, false, MAX_JUMPS, MAX_LABELS, []);
    Unwritten(p, offset);
    CellIs(p, s.cursor);
    while !Halts(CellAt(p, s.cursor), s)
      invariant Outlook(p, c, s) == NameAt(p, offset) && EndOutlook(p, s) == NameEnd(p, offset)
      invariant CellOf(c, s.cursor) == CellAt(p, s.cursor)
      decreases s.left, |p| - s.cursor
    {
      MovedOutlook(p, c, s);
      MovedEnd(p, s, Emit(p, s.cursor));
      s := Moved(s, CellAt(p, s.cursor), Emit(p, s.cursor));
      CellIs(p, s.cursor);
    }
    StoppedOutlook(p, c, s);
    if !CellAt(p, s.cursor).Root? { return None; }
    NameHasNoUpper(p, offset);
    return Some((s.wire + [0], if s.jumped then s.next else s.cursor + 1));
  }

  lemma Unwritten(p: seq<Byte>, offset: nat)
    ensures Outlook(p, Cells(p), Reader(offset, offset, false, MAX_JUMPS, MAX_LABELS, [])) == NameAt(p, offset)
  {
    var t := TrailAt(p, offset);
    if t.Some? { assert [] + Spelling(p, t.value) == Spelling(p, t.value); }
  }

  lemma {:induction false} SpellingHasNoUpper(p: seq<Byte>, t: Trail)
    ensures NoUpper(Spelling(p, t))
  {
    EmitHasNoUpper(p, t.at);
    if t.Goes? {
      SpellingHasNoUpper(p, t.rest);
      NoUpperBoth(Emit(p, t.at), Spelling(p, t.rest));
    }
  }

  lemma NameHasNoUpper(p: seq<Byte>, at: nat)
    ensures NameAt(p, at).Some? ==> NoUpper(NameAt(p, at).value)
  {
    if TrailAt(p, at).Some? { SpellingHasNoUpper(p, TrailAt(p, at).value); }
  }

  // ----- Against the chains of RFC 1035 --------------------------------------------------------

  /** What `read_name` is meant to accept. */
  ghost predicate Allowed(p: seq<Byte>, at: nat, q: Path) {
    NamePath(p, at, q) && Backward(p, q) && Jumps(p, q) <= MAX_JUMPS && |Spell(p, q)| <= MAX_LABELS + 1
  }

  ghost function SpellBefore(p: seq<Byte>, b: Path): seq<Byte> { if b.Then? then Spell(p, b.before) else [] }

  ghost function JumpsBefore(p: seq<Byte>, b: Path): nat { if b.Then? then Jumps(p, b.before) else 0 }

  ghost predicate BackwardBefore(p: seq<Byte>, b: Path) { b.Then? ==> Backward(p, b.before) }

  /** The chain that goes on from `b` along a trail. */
  ghost function Along(b: Path, t: Trail): Path
    decreases t
  {
    match t
    case Ends(_) => b
    case Goes(_, rest) => Along(Then(b, rest.at), rest)
  }

  lemma NextSpells(p: seq<Byte>, b: Path, o: nat)
    requires Continues(p, b.at) && o == Successor(p, b.at)
    ensures SpellBefore(p, Then(b, o)) == SpellBefore(p, b) + Emit(p, b.at)
    ensures JumpsBefore(p, Then(b, o)) == JumpsBefore(p, b) + if CellAt(p, b.at).Pointer? then 1 else 0
    ensures CellAt(p, b.at).Label? ==> |Emit(p, b.at)| == CellAt(p, b.at).length + 1
    ensures CellAt(p, b.at).Pointer? ==> Emit(p, b.at) == []
  {
  }

  /** Octets spelt, and jumps made, before the last cell of a chain. */
  ghost function Spent(p: seq<Byte>, b: Path): nat { |SpellBefore(p, b)| }

  lemma SpentLabel(p: seq<Byte>, b: Path, n: nat)
    requires CellAt(p, b.at) == Label(n)
    ensures Spent(p, Then(b, b.at + 1 + n)) == Spent(p, b) + n + 1
    ensures JumpsBefore(p, Then(b, b.at + 1 + n)) == JumpsBefore(p, b)
  {
    NextSpells(p, b, b.at + 1 + n);
  }

  lemma SpentPointer(p: seq<Byte>, b: Path, t: nat)
    requires CellAt(p, b.at) == Pointer(t)
    ensures Spent(p, Then(b, t)) == Spent(p, b) && JumpsBefore(p, Then(b, t)) == JumpsBefore(p, b) + 1
  {
    NextSpells(p, b, t);
  }

  /** Extending a chain by the link its last cell gives. */
  lemma StepPath(p: seq<Byte>, off: nat, b: Path, o: nat)
    requires Chain(p, off, b) && BackwardBefore(p, b) && Continues(p, b.at) && o == Successor(p, b.at)
    requires CellAt(p, b.at).Pointer? ==> o < b.at
    ensures Chain(p, off, Then(b, o)) && BackwardBefore(p, Then(b, o))
  {
  }

  /** A name's chain within given limits. */
  ghost predicate Within(p: seq<Byte>, off: nat, q: Path, jumps: nat, length: nat) {
    NamePath(p, off, q) && Backward(p, q) && Jumps(p, q) <= jumps && |Spell(p, q)| <= length
  }

  lemma EndPath(p: seq<Byte>, off: nat, b: Path, jumps: nat, length: nat)
    requires Chain(p, off, b) && BackwardBefore(p, b) && CellAt(p, b.at).Root?
    requires JumpsBefore(p, b) <= jumps && Spent(p, b) + 1 <= length
    ensures Within(p, off, b, jumps, length)
  {
  }

  /** A trail every link of which the cells give, within the limits. */
  predicate Linked(c: seq<Cell>, t: Trail, left: nat, room: nat)
    decreases t
  {
    match t
    case Ends(at) => CellOf(c, at).Root?
    case Goes(at, rest) =>
      match CellOf(c, at)
      case Label(n) => rest.at == at + 1 + n && n + 1 <= room && Linked(c, rest, left, room - (n + 1))
      case Pointer(o) => rest.at == o < at && left > 0 && Linked(c, rest, left - 1, room)
      case _ => false
  }

  lemma {:induction false} FollowIsLinked(c: seq<Cell>, at: nat, left: nat, room: nat)
    requires Follow(c, at, left, room).Some?
    ensures var t := Follow(c, at, left, room).value; t.at == at && Linked(c, t, left, room)
    decreases left, |c| - at
  {
    var cell := CellOf(c, at);
    if cell.Label? {
      FollowIsLinked(c, at + 1 + cell.length, left, room - (cell.length + 1));
    } else if cell.Pointer? {
      FollowIsLinked(c, cell.target, left - 1, room);
    }
  }

  /** A linked trail goes along a backward chain within the limits. */
  lemma {:induction false} TrailIsPath(p: seq<Byte>, off: nat, b: Path, t: Trail, left: nat, room: nat, jumps: nat, length: nat)
    requires Chain(p, off, b) && BackwardBefore(p, b) && b.at == t.at && Linked(Cells(p), t, left, room)
    requires JumpsBefore(p, b) + left <= jumps && Spent(p, b) + room + 1 <= length
    ensures Within(p, off, Along(b, t), jumps, length)
    decreases t
  {
    CellIs(p, t.at);
    var cell := CellAt(p, t.at);
    if t.Ends? {
      EndPath(p, off, b, jumps, length);
    } else if cell.Label? {
      SpentLabel(p, b, cell.length);
      StepPath(p, off, b, t.rest.at);
      TrailIsPath(p, off, Then(b, t.rest.at), t.rest, left, room - (cell.length + 1), jumps, length);
    } else {
      SpentPointer(p, b, cell.target);
      StepPath(p, off, b, t.rest.at);
      TrailIsPath(p, off, Then(b, t.rest.at), t.rest, left - 1, room, jumps, length);
    }
  }

  lemma {:induction false} LinkedIsFollowed(c: seq<Cell>, t: Trail, left: nat, room: nat)
    requires Linked(c, t, left, room)
    ensures Follow(c, t.at, left, room) == Some(t)
    decreases t
  {
    if t.Goes? {
      var cell := CellOf(c, t.at);
      if cell.Label? {
        LinkedIsFollowed(c, t.rest, left, room - (cell.length + 1));
      } else {
        LinkedIsFollowed(c, t.rest, left - 1, room);
      }
    }
  }

  /** The trail along a chain, followed by `t`. */
  ghost function Unrolled(q: Path, t: Trail): Trail
    decreases q
  {
    if q.First? then t else Unrolled(q.before, Goes(q.before.at, t))
  }

  lemma LinkLabel(p: seq<Byte>, at: nat, t: Trail, left: nat, room: nat, n: nat)
    requires CellAt(p, at) == Label(n) && t.at == at + 1 + n && Linked(Cells(p), t, left, room)
    ensures Linked(Cells(p), Goes(at, t), left, room + n + 1)
  {
    CellIs(p, at);
  }

  lemma LinkPointer(p: seq<Byte>, at: nat, t: Trail, left: nat, room: nat)
    requires CellAt(p, at) == Pointer(t.at) && t.at < at && Linked(Cells(p), t, left, room)
    ensures Linked(Cells(p), Goes(at, t), left + 1, room)
  {
    CellIs(p, at);
  }

  lemma {:induction false} ChainIsLinked(p: seq<Byte>, off: nat, q: Path, t: Trail, left: nat, room: nat, jumps: nat, length: nat)
    requires Chain(p, off, q) && BackwardBefore(p, q) && t.at == q.at && Linked(Cells(p), t, left, room)
    requires jumps == left + JumpsBefore(p, q) && length == room + Spent(p, q)
    ensures Unrolled(q, t).at == off && Linked(Cells(p), Unrolled(q, t), jumps, length)
    decreases q
  {
    if q.Then? {
      var b := q.before;
      var more, wider := LinkBefore(p, off, q, t, left, room);
      ChainIsLinked(p, off, b, Goes(b.at, t), more, wider, jumps, length);
    }
  }

  lemma LinkBefore(p: seq<Byte>, off: nat, q: Path, t: Trail, left: nat, room: nat) returns (more: nat, wider: nat)
    requires q.Then? && Chain(p, off, q) && BackwardBefore(p, q) && t.at == q.at && Linked(Cells(p), t, left, room)
    ensures Chain(p, off, q.before) && BackwardBefore(p, q.before)
    ensures Linked(Cells(p), Goes(q.before.at, t), more, wider)
    ensures more + JumpsBefore(p, q.before) == left + JumpsBefore(p, q)
    ensures wider + Spent(p, q.before) == room + Spent(p, q)
  {
    var b := q.before;
    var cell := CellAt(p, b.at);
    if cell.Label? {
      assert Spent(p, q) == Spent(p, b) + cell.length + 1 && JumpsBefore(p, q) == JumpsBefore(p, b) by {
        SpentLabel(p, b, cell.length);
      }
      LinkLabel(p, b.at, t, left, room, cell.length);
      more, wider := left, room + cell.length + 1;
    } else {
      assert Spent(p, q) == Spent(p, b) && JumpsBefore(p, q) == JumpsBefore(p, b) + 1 by { SpentPointer(p, b, cell.target); }
      LinkPointer(p, b.at, t, left, room);
      more, wider := left + 1, room;
    }
  }

  lemma {:induction false} LinkedMore(c: seq<Cell>, t: Trail, left: nat, room: nat, more: nat, wider: nat)
    requires Linked(c, t, left, room) && left <= more && room <= wider
    ensures Linked(c, t, more, wider)
    decreases t
  {
    if t.Goes? {
      var cell := CellOf(c, t.at);
      if cell.Label? {
        LinkedMore(c, t.rest, left, room - (cell.length + 1), more, wider - (cell.length + 1));
      } else {
        LinkedMore(c, t.rest, left - 1, room, more - 1, wider);
      }
    }
  }

  /** A chain within the limits is followed. */
  lemma PathIsFollowed(p: seq<Byte>, at: nat, q: Path)
    requires Allowed(p, at, q)
    ensures TrailAt(p, at).Some?
  {
    var t := Ends(q.at);
    CellIs(p, q.at);
    ChainIsLinked(p, at, q, t, 0, 0, JumpsBefore(p, q), Spent(p, q));
    LinkedMore(Cells(p), Unrolled(q, t), JumpsBefore(p, q), Spent(p, q), MAX_JUMPS, MAX_LABELS);
    LinkedIsFollowed(Cells(p), Unrolled(q, t), MAX_JUMPS, MAX_LABELS);
  }

  /** A trail spells what its chain does. */
  lemma {:induction false} AlongSpells(p: seq<Byte>, b: Path, t: Trail)
    requires b.at == t.at
    ensures Spell(p, Along(b, t)) == SpellBefore(p, b) + Spelling(p, t)
    decreases t
  {
    if t.Goes? {
      var next := Then(b, t.rest.at);
      AlongSpells(p, next, t.rest);
      Assoc(SpellBefore(p, b), Emit(p, b.at), Spelling(p, t.rest));
    }
  }

  /** Where the reader finds a name there is a chain within its limits, and the name is what the chain spells. */
  lemma NameHasPath(p: seq<Byte>, at: nat) returns (q: Path)
    requires NameAt(p, at).Some?
    ensures Allowed(p, at, q) && NameAt(p, at).value == Spell(p, q)
  {
    var t := TrailAt(p, at).value;
    q := Along(First(at), t);
    FollowIsLinked(Cells(p), at, MAX_JUMPS, MAX_LABELS);
    TrailIsPath(p, at, First(at), t, MAX_JUMPS, MAX_LABELS, MAX_JUMPS, MAX_LABELS + 1);
    AlongSpells(p, First(at), t);
    assert [] + Spelling(p, t) == Spelling(p, t);
  }

  /** The reader accepts a name of RFC 1035 exactly within its limits, and returns its spelling. */
  lemma ReadsExactly(p: seq<Byte>, at: nat, q: Path)
    requires NamePath(p, at, q)
    ensures NameAt(p, at) == if Allowed(p, at, q) then Some(Spell(p, q)) else None
  {
    if Allowed(p, at, q) { PathIsFollowed(p, at, q); }
    if NameAt(p, at).Some? {
      var r := NameHasPath(p, at);
      NamePathUnique(p, at, q, r);
    }
  }

  // ----- Names in messages that share octets -----------------------------------------------------

  /** Octets a cell takes. */
  function Extent(cell: Cell): nat {
    match cell
    case Label(n) => n + 1
    case Pointer(_) => 2
    case _ => 1
  }

  /** `p` and `q` agree below `limit`, but for the header octets from `from` on. */
  predicate Agree(p: seq<Byte>, q: seq<Byte>, from: nat, limit: nat) {
    && limit <= |p| && limit <= |q| && p[..Min(from, limit)] == q[..Min(from, limit)]
    && (limit > 12 ==> p[12..limit] == q[12..limit])
  }

  /** `p` and `q` hold the same `n` octets, at `a` and at `b`. */
  predicate Shared(p: seq<Byte>, a: nat, q: seq<Byte>, b: nat, n: nat) {
    a + n <= |p| && b + n <= |q| && p[a..a + n] == q[b..b + n]
  }

  /** The `n` octets from `o` on are among those that agree. */
  predicate Clear(o: nat, n: nat, from: nat, limit: nat) {
    o + n <= limit && (o + n <= from || o >= 12 || from >= 12)
  }

  /** Every cell of the trail is clear. */
  predicate Sheltered(c: seq<Cell>, t: Trail, from: nat, limit: nat) {
    Clear(t.at, Extent(CellOf(c, t.at)), from, limit) && (t.Goes? ==> Sheltered(c, t.rest, from, limit))
  }

  /** Every cell behind the trail's first pointer is clear. */
  predicate Settled(c: seq<Cell>, t: Trail, from: nat, limit: nat) {
    t.Goes? ==> if CellOf(c, t.at).Label? then Settled(c, t.rest, from, limit) else Sheltered(c, t.rest, from, limit)
  }

  predicate SameCell(p: seq<Byte>, o: nat, q: seq<Byte>, o': nat) {
    CellAt(p, o) == CellAt(q, o') && Emit(p, o) == Emit(q, o')
  }

  lemma SliceIsSame(p: seq<Byte>, o: nat, q: seq<Byte>, o': nat, n: nat)
    requires Same(p, o, q, o', n + 1)
    ensures p[o + 1..o + 1 + n] == q[o' + 1..o' + 1 + n]
  {
    var x, y := p[o + 1..o + 1 + n], q[o' + 1..o' + 1 + n];
    forall i | 0 <= i < n ensures x[i] == y[i] { assert p[o + 1 + i] == q[o + 1 + i - o + o']; }
  }

  lemma CellIsSame(p: seq<Byte>, o: nat, q: seq<Byte>, o': nat)
    requires Same(p, o, q, o', Extent(CellAt(p, o)))
    requires CellAt(p, o).Root? || Continues(p, o)
    ensures SameCell(p, o, q, o')
  {
    var cell := CellAt(p, o);
    assert p[o] == q[o'];
    if cell.Pointer? {
      assert p[o + 1] == q[o' + 1];
    } else if cell.Label? {
      SliceIsSame(p, o, q, o', cell.length);
    }
  }

  lemma AgreeIsSame(p: seq<Byte>, q: seq<Byte>, o: nat, n: nat, from: nat, limit: nat)
    requires Agree(p, q, from, limit) && Clear(o, n, from, limit)
    ensures Same(p, o, q, o, n)
  {
    forall i | o <= i < o + n ensures p[i] == q[i - o + o] {
      if i < from {
        assert p[..Min(from, limit)][i] == q[..Min(from, limit)][i];
      } else {
        assert p[12..limit][i - 12] == q[12..limit][i - 12];
      }
    }
  }

  lemma ClearCell(p: seq<Byte>, q: seq<Byte>, t: Trail, left: nat, room: nat, from: nat, limit: nat)
    requires Linked(Cells(p), t, left, room) && Clear(t.at, Extent(CellOf(Cells(p), t.at)), from, limit)
    requires Agree(p, q, from, limit)
    ensures CellOf(Cells(q), t.at) == CellOf(Cells(p), t.at) && Emit(q, t.at) == Emit(p, t.at)
  {
    CellIs(p, t.at);
    CellIs(q, t.at);
    AgreeIsSame(p, q, t.at, Extent(CellAt(p, t.at)), from, limit);
    CellIsSame(p, t.at, q, t.at);
  }

  /** A sheltered trail is linked, and spells, as before. */
  lemma {:induction false} ShelteredSame(p: seq<Byte>, q: seq<Byte>, t: Trail, left: nat, room: nat, from: nat, limit: nat)
    requires Linked(Cells(p), t, left, room) && Sheltered(Cells(p), t, from, limit) && Agree(p, q, from, limit)
    ensures Linked(Cells(q), t, left, room) && Spelling(q, t) == Spelling(p, t)
    decreases t
  {
    ClearCell(p, q, t, left, room, from, limit);
    if t.Goes? {
      var cell := CellOf(Cells(p), t.at);
      if cell.Label? {
        ShelteredSame(p, q, t.rest, left, room - (cell.length + 1), from, limit);
      } else {
        ShelteredSame(p, q, t.rest, left - 1, room, from, limit);
      }
    }
  }

  /** Where the part of a trail before its first jump ends. */
  function LocalEnd(c: seq<Cell>, t: Trail): nat {
    match t
    case Ends(at) => at + 1
    case Goes(at, rest) => if CellOf(c, at).Label? then LocalEnd(c, rest) else at + 2
  }

  lemma {:induction false} LocalEndIs(p: seq<Byte>, t: Trail, left: nat, room: nat)
    requires Linked(Cells(p), t, left, room)
    ensures NameEnd(p, t.at) == Some(LocalEnd(Cells(p), t))
    decreases t
  {
    CellIs(p, t.at);
    if t.Goes? && CellAt(p, t.at).Label? { LocalEndIs(p, t.rest, left, room - (CellAt(p, t.at).length + 1)); }
  }

  lemma {:induction false} LocalEndAhead(c: seq<Cell>, t: Trail, left: nat, room: nat)
    requires Linked(c, t, left, room)
    ensures t.at + Extent(CellOf(c, t.at)) <= LocalEnd(c, t)
    decreases t
  {
    if t.Goes? && CellOf(c, t.at).Label? { LocalEndAhead(c, t.rest, left, room - (CellOf(c, t.at).length + 1)); }
  }

  lemma SharedPart(p: seq<Byte>, a: nat, q: seq<Byte>, b: nat, n: nat, o: nat, m: nat)
    requires Shared(p, a, q, b, n) && a <= o && o + m <= a + n
    ensures Same(p, o, q, o - a + b, m)
  {
    forall i | o <= i < o + m ensures p[i] == q[i - o + (o - a + b)] {
      assert p[a..a + n][i - a] == q[b..b + n][i - a];
    }
  }

  lemma CellMoves(p: seq<Byte>, a: nat, q: seq<Byte>, b: nat, n: nat, t: Trail, left: nat, room: nat)
    requires Linked(Cells(p), t, left, room)
    requires Shared(p, a, q, b, n) && a <= t.at && LocalEnd(Cells(p), t) <= a + n
    ensures CellOf(Cells(q), t.at - a + b) == CellOf(Cells(p), t.at) && Emit(q, t.at - a + b) == Emit(p, t.at)
  {
    CellIs(p, t.at);
    CellIs(q, t.at - a + b);
    LocalEndAhead(Cells(p), t, left, room);
    SharedPart(p, a, q, b, n, t.at, Extent(CellAt(p, t.at)));
    CellIsSame(p, t.at, q, t.at - a + b);
  }

  /** A settled trail moves along with its octets. */
  lemma {:induction false} SettledMoves(p: seq<Byte>, a: nat, q: seq<Byte>, b: nat, n: nat, t: Trail, left: nat, room: nat,
                                        from: nat, limit: nat, c: seq<Cell>, d: seq<Cell>) returns (u: Trail)
    requires c == Cells(p) && d == Cells(q) && Linked(c, t, left, room) && Settled(c, t, from, limit)
    requires Agree(p, q, from, limit) && Shared(p, a, q, b, n)
    requires a <= t.at && LocalEnd(c, t) <= a + n && (a == b || limit <= b)
    ensures Linked(d, u, left, room) && u.at == t.at - a + b && Spelling(q, u) == Spelling(p, t)
    decreases t
  {
    var o, cell := t.at - a + b, CellOf(c, t.at);
    CellMoves(p, a, q, b, n, t, left, room);
    if t.Ends? {
      u := Ends(o);
    } else if cell.Label? {
      var rest := SettledMoves(p, a, q, b, n, t.rest, left, room - (cell.length + 1), from, limit, c, d);
      u := Goes(o, rest);
    } else {
      ShelteredSame(p, q, t.rest, left - 1, room, from, limit);
      u := Goes(o, t.rest);
    }
  }

  lemma NameOfTrail(p: seq<Byte>, t: Trail)
    requires Linked(Cells(p), t, MAX_JUMPS, MAX_LABELS)
    ensures NameAt(p, t.at) == Some(Spelling(p, t))
  {
    LinkedIsFollowed(Cells(p), t, MAX_JUMPS, MAX_LABELS);
  }

  /** The name at `at` reads, and reads clear octets only behind its first pointer. */
  predicate SettledAt(p: seq<Byte>, at: nat, from: nat, limit: nat) {
    TrailAt(p, at).Some? && Settled(Cells(p), TrailAt(p, at).value, from, limit)
  }

  /** A settled name reads the same where its octets have gone. */
  lemma NameKept(p: seq<Byte>, a: nat, q: seq<Byte>, b: nat, n: nat, from: nat, limit: nat)
    requires SettledAt(p, a, from, limit) && Agree(p, q, from, limit)
    requires Shared(p, a, q, b, n) && NameEnd(p, a).Some? && NameEnd(p, a).value <= a + n && (a == b || limit <= b)
    ensures NameAt(q, b).Some? && NameAt(q, b) == NameAt(p, a)
  {
    var t := TrailAt(p, a).value;
    FollowIsLinked(Cells(p), a, MAX_JUMPS, MAX_LABELS);
    LocalEndIs(p, t, MAX_JUMPS, MAX_LABELS);
    var u := SettledMoves(p, a, q, b, n, t, MAX_JUMPS, MAX_LABELS, from, limit, Cells(p), Cells(q));
    NameOfTrail(q, u);
  }

  // ----- One header octet counted up: exactly the names that do not read it survive ------------------

  /** `q` is `p` with octet 11 one higher, and perhaps more octets at the end. */
  predicate CountedUp(p: seq<Byte>, q: seq<Byte>) {
    && 12 <= |p| <= |q| && p[10] < 192 && p[11] < 255 && q[11] == p[11] + 1
    && forall i | 0 <= i < |p| && i != 11 :: p[i] == q[i]
  }

  function ReadFrom(p: seq<Byte>, at: nat, left: nat, room: nat): Option<seq<Byte>> {
    var t := Follow(Cells(p), at, left, room);
    if t.None? then None else Some(Spelling(p, t.value))
  }

  lemma CountedUpAgrees(p: seq<Byte>, q: seq<Byte>)
    requires CountedUp(p, q)
    ensures Agree(p, q, 11, |p|)
  {
  }

  lemma LowerDiffers(x: seq<Byte>, y: seq<Byte>, i: nat)
    requires i < |x| == |y| && x[i] < 255 && y[i] == x[i] + 1
    ensures Lower(x) != Lower(y)
  {
    LowerAt(x, i);
    LowerAt(y, i);
  }

  lemma ReadHead(q: seq<Byte>, at: nat, left: nat, room: nat)
    requires ReadFrom(q, at, left, room).Some? && !CellAt(q, at).Pointer?
    ensures var w := ReadFrom(q, at, left, room).value;
            1 <= |Emit(q, at)| <= |w| && w[..|Emit(q, at)|] == Emit(q, at) && Emit(q, at)[0] == q[at]
  {
    CellIs(q, at);
    var t := Follow(Cells(q), at, left, room).value;
    FollowIsLinked(Cells(q), at, left, room);
    assert Spelling(q, t)[..|Emit(q, at)|] == Emit(q, at);
  }

  lemma LabelStays(p: seq<Byte>, q: seq<Byte>, at: nat, n: nat)
    requires CountedUp(p, q) && at < 11 && CellAt(p, at) == Label(n)
    ensures at + 1 + n <= |p| && CellAt(q, at) == Label(n)
  {
    assert q[at] == p[at];
  }

  lemma LabelEmits(p: seq<Byte>, at: nat, n: nat)
    requires at + 1 + n <= |p| && CellAt(p, at) == Label(n)
    ensures |Emit(p, at)| == n + 1 && Emit(p, at)[1..] == Lower(p[at + 1..at + 1 + n])
  {
  }

  lemma LabelTouched(p: seq<Byte>, q: seq<Byte>, at: nat, n: nat)
    requires CountedUp(p, q) && at < 11 <= at + n && CellAt(p, at) == Label(n)
    ensures CellAt(q, at) == Label(n) && Emit(q, at) != Emit(p, at) && |Emit(q, at)| == |Emit(p, at)|
  {
    LabelStays(p, q, at, n);
    LabelEmits(p, at, n);
    LabelEmits(q, at, n);
    LowerDiffers(p[at + 1..at + 1 + n], q[at + 1..at + 1 + n], 10 - at);
  }

  /** The cell at octet 11 itself: a root becomes a label, a label another one, a pointer unreadable. */
  lemma CellAtCount(p: seq<Byte>, q: seq<Byte>)
    requires CountedUp(p, q) && (CellAt(p, 11).Root? || Continues(p, 11))
    requires CellAt(p, 11).Pointer? ==> CellAt(p, 11).target < 11
    ensures !CellAt(q, 11).Root? && (CellAt(q, 11).Pointer? ==> CellAt(q, 11).target >= 11)
    ensures !CellAt(p, 11).Pointer? ==> |Emit(p, 11)| >= 1 && Emit(p, 11)[0] == p[11]
    ensures CellAt(p, 11).Pointer? ==> CellAt(q, 11).Pointer?
  {
  }

  lemma TouchedHere(p: seq<Byte>, q: seq<Byte>, left: nat, room: nat, rest: seq<Byte>)
    requires CountedUp(p, q) && (CellAt(p, 11).Root? || Continues(p, 11))
    requires CellAt(p, 11).Pointer? ==> CellAt(p, 11).target < 11
    ensures ReadFrom(q, 11, left, room) != Some(Emit(p, 11) + rest)
  {
    CellIs(q, 11);
    CellAtCount(p, q);
    if !CellAt(q, 11).Pointer? && ReadFrom(q, 11, left, room).Some? { ReadHead(q, 11, left, room); }
  }

  lemma TouchedLabel(p: seq<Byte>, q: seq<Byte>, at: nat, n: nat, left: nat, room: nat, rest: seq<Byte>)
    requires CountedUp(p, q) && at < 11 <= at + n && CellAt(p, at) == Label(n)
    ensures ReadFrom(q, at, left, room) != Some(Emit(p, at) + rest)
  {
    LabelTouched(p, q, at, n);
    if ReadFrom(q, at, left, room).Some? {
      ReadHead(q, at, left, room);
      assert (Emit(p, at) + rest)[..|Emit(p, at)|] == Emit(p, at);
    }
  }

  /** A cell that takes octet 11 reads differently, whatever follows. */
  lemma TouchedCell(p: seq<Byte>, q: seq<Byte>, at: nat, left: nat, room: nat, rest: seq<Byte>)
    requires CountedUp(p, q) && at <= 11 < at + Extent(CellAt(p, at)) && (CellAt(p, at).Root? || Continues(p, at))
    requires CellAt(p, at).Pointer? ==> CellAt(p, at).target < at
    ensures ReadFrom(q, at, left, room) != Some(Emit(p, at) + rest)
  {
    if at == 11 {
      TouchedHere(p, q, left, room, rest);
    } else if CellAt(p, at).Label? {
      TouchedLabel(p, q, at, CellAt(p, at).length, left, room, rest);
    }
  }

  lemma FollowPast(c: seq<Cell>, at: nat, o: nat, left: nat, room: nat, left': nat, room': nat)
    requires match CellOf(c, at)
             case Label(n) => o == at + 1 + n && left' == left && room == room' + n + 1
             case Pointer(t) => o == t < at && left == left' + 1 && room' == room
             case _ => false
    ensures Follow(c, at, left, room) == Onto(at, Follow(c, o, left', room'))
  {
  }

  lemma ReadPast(q: seq<Byte>, at: nat, o: nat, left: nat, room: nat, left': nat, room': nat)
    requires Continues(q, at) && o == Successor(q, at)
    requires if CellAt(q, at).Label? then left' == left && room == room' + Extent(CellAt(q, at))
             else o < at && left == left' + 1 && room' == room
    ensures ReadFrom(q, at, left, room) ==
            if ReadFrom(q, o, left', room').None? then None
            else Some(Emit(q, at) + ReadFrom(q, o, left', room').value)
  {
    CellIs(q, at);
    FollowPast(Cells(q), at, o, left, room, left', room');
  }

  lemma SameTail(e: seq<Byte>, x: seq<Byte>, y: seq<Byte>)
    requires e + x == e + y
    ensures x == y
  {
    assert x == (e + x)[|e|..] && y == (e + y)[|e|..];
  }

  /** A trail that takes octet 11 is not read as before. */
  lemma {:induction false} TouchedTrail(p: seq<Byte>, q: seq<Byte>, t: Trail, left: nat, room: nat)
    requires CountedUp(p, q) && Linked(Cells(p), t, left, room) && !Sheltered(Cells(p), t, 11, |p|)
    ensures ReadFrom(q, t.at, left, room) != Some(Spelling(p, t))
    decreases t
  {
    var cell := CellAt(p, t.at);
    CellIs(p, t.at);
    if Clear(t.at, Extent(cell), 11, |p|) {
      CountedUpAgrees(p, q);
      AgreeIsSame(p, q, t.at, Extent(cell), 11, |p|);
      CellIsSame(p, t.at, q, t.at);
      var left', room' := if cell.Label? then left else left - 1, if cell.Label? then room - (cell.length + 1) else room;
      TouchedTrail(p, q, t.rest, left', room');
      ReadPast(q, t.at, t.rest.at, left, room, left', room');
      var r := ReadFrom(q, t.rest.at, left', room');
      if r.Some? && Emit(p, t.at) + r.value == Emit(p, t.at) + Spelling(p, t.rest) {
        SameTail(Emit(p, t.at), r.value, Spelling(p, t.rest));
      }
    } else {
      var rest := if t.Ends? then [] else Spelling(p, t.rest);
      assert Spelling(p, t) == Emit(p, t.at) + rest;
      TouchedCell(p, q, t.at, left, room, rest);
    }
  }

  /** A name behind the header that takes octet 11 after a jump is not read as before. */
  lemma {:induction false} TouchedName(p: seq<Byte>, q: seq<Byte>, t: Trail, left: nat, room: nat)
    requires CountedUp(p, q) && t.at >= 12 && Linked(Cells(p), t, left, room) && !Settled(Cells(p), t, 11, |p|)
    ensures ReadFrom(q, t.at, left, room) != Some(Spelling(p, t))
    decreases t
  {
    var cell := CellAt(p, t.at);
    CellIs(p, t.at);
    CountedUpAgrees(p, q);
    AgreeIsSame(p, q, t.at, Extent(cell), 11, |p|);
    CellIsSame(p, t.at, q, t.at);
    var left', room' := if cell.Label? then left else left - 1, if cell.Label? then room - (cell.length + 1) else room;
    if cell.Label? { TouchedName(p, q, t.rest, left', room'); } else { TouchedTrail(p, q, t.rest, left', room'); }
    ReadPast(q, t.at, t.rest.at, left, room, left', room');
    var r := ReadFrom(q, t.rest.at, left', room');
    if r.Some? && Emit(p, t.at) + r.value == Emit(p, t.at) + Spelling(p, t.rest) {
      SameTail(Emit(p, t.at), r.value, Spelling(p, t.rest));
    }
  }

  /**
   * When the additional count goes up by one without a carry, a name reads as before if and only
   * if it does not read the count after its first pointer.
   */
  lemma CountedNameIff(p: seq<Byte>, q: seq<Byte>, at: nat)
    requires CountedUp(p, q) && at >= 12 && NameAt(p, at).Some?
    ensures NameAt(q, at) == NameAt(p, at) <==> SettledAt(p, at, 11, |p|)
  {
    var t := TrailAt(p, at).value;
    FollowIsLinked(Cells(p), at, MAX_JUMPS, MAX_LABELS);
    if Settled(Cells(p), t, 11, |p|) {
      LocalEndIs(p, t, MAX_JUMPS, MAX_LABELS);
      NameEndBounds(p, at);
      CountedUpAgrees(p, q);
      assert p[at..NameEnd(p, at).value] == q[at..NameEnd(p, at).value];
      NameKept(p, at, q, at, NameEnd(p, at).value - at, 11, |p|);
    } else {
      TouchedName(p, q, t, MAX_JUMPS, MAX_LABELS);
    }
  }

  // ----- The root ------------------------------------------------------------------------------

  /** The name at `at` is the root, written out or reached by pointers to earlier octets. */
  predicate RootAt(p: seq<Byte>, at: nat)
    decreases at
  {
    at < |p| &&
    (p[at] == 0 ||
     (p[at] >= 192 && at + 1 < |p| && (p[at] as int - 192) * 256 + p[at + 1] < at &&
      RootAt(p, (p[at] as int - 192) * 256 + p[at + 1])))
  }

  lemma RootCell(p: seq<Byte>, at: nat)
    ensures RootAt(p, at) <==>
            (CellAt(p, at).Root? || (CellAt(p, at).Pointer? && CellAt(p, at).target < at && RootAt(p, CellAt(p, at).target)))
  {
  }

  lemma EmitShape(p: seq<Byte>, at: nat)
    ensures CellAt(p, at).Root? ==> Emit(p, at) == [0]
    ensures CellAt(p, at).Pointer? ==> Emit(p, at) == []
    ensures CellAt(p, at).Label? ==> |Emit(p, at)| > 0 && Emit(p, at)[0] != 0
  {
  }

  lemma {:induction false} RootFollows(p: seq<Byte>, c: seq<Cell>, at: nat, left: nat, room: nat)
    requires c == Cells(p) && Follow(c, at, left, room).Some?
    ensures RootAt(p, at) <==> Spelling(p, Follow(c, at, left, room).value) == [0]
    decreases left
  {
    CellIs(p, at);
    RootCell(p, at);
    EmitShape(p, at);
    var cell := CellAt(p, at);
    if cell.Pointer? {
      RootFollows(p, c, cell.target, left - 1, room);
      var rest := Spelling(p, Follow(c, cell.target, left - 1, room).value);
      assert [] + rest == rest;
    }
  }

  /** The root, as the name reader finds it. */
  lemma RootReads(p: seq<Byte>, at: nat)
    requires NameAt(p, at).Some?
    ensures RootAt(p, at) <==> NameAt(p, at) == Some([0])
  {
    RootFollows(p, Cells(p), at, MAX_JUMPS, MAX_LABELS);
  }

  // ----- Letter case ---------------------------------------------------------------------------------

  lemma {:induction false} BudgetFoldsCase(p: seq<Byte>, q: seq<Byte>, t: Path)
    requires SamePathButCase(p, q, t)
    ensures Jumps(q, t) == Jumps(p, t) && (Backward(q, t) <==> Backward(p, t))
  {
    if t.Then? { BudgetFoldsCase(p, q, t.before); }
  }

  /** Messages that differ only in the case of letters in the labels of a name are read alike there. */
  lemma ReadFoldsCase(p: seq<Byte>, q: seq<Byte>, at: nat, t: Path)
    requires NamePath(p, at, t) && SamePathButCase(p, q, t)
    ensures NameAt(q, at) == NameAt(p, at)
  {
    NameFoldsCase(p, q, at, t);
    BudgetFoldsCase(p, q, t);
    ReadsExactly(p, at, t);
    ReadsExactly(q, at, t);
  }
}

/**
 * Presentation-form names: the encoder `sr_encode_name` and the decompressing reader
 * `dns_expand_name`.
 */
module NameText {
  import opened Bytes
  import opened NameChain
  import opened NameWalk

  const DOT: Byte := 46

  /** The position of the first dot at or after `i`, or the end of the name. */
  function DotFrom(name: seq<Byte>, i: nat): (d: nat)
    requires i <= |name|
    ensures i <= d <= |name|
    ensures d < |name| ==> name[d] == DOT
    decreases |name| - i
  {
    if i == |name| || name[i] == DOT then i else DotFrom(name, i + 1)
  }

  /** Where the label after the one at `i` starts. */
  function NextLabel(name: seq<Byte>, i: nat): (n: nat)
    requires i < |name|
    ensures i < n <= |name|
  {
    var d := DotFrom(name, i);
    if d == |name| then d else d + 1
  }

  /** Every label from `i` on has one to 63 octets; a final dot adds no label. */
  predicate LabelsOk(name: seq<Byte>, i: nat)
    requires i <= |name|
    decreases |name| - i
  {
    i == |name| || (1 <= DotFrom(name, i) - i <= 63 && LabelsOk(name, NextLabel(name, i)))
  }

  ghost function LabelsFrom(name: seq<Byte>, i: nat): nat
    requires i <= |name|
    decreases |name| - i
  {
    if i == |name| then 0 else 1 + LabelsFrom(name, NextLabel(name, i))
  }

  ghost function BodyLength(name: seq<Byte>, i: nat): nat
    requires i <= |name|
    decreases |name| - i
  {
    if i == |name| then 0 else 1 + (DotFrom(name, i) - i) + BodyLength(name, NextLabel(name, i))
  }

  function LabelWire(content: seq<Byte>): seq<Byte>
    requires |content| <= 63
  {
    [|content|] + Lower(content)
  }

  /** Length-prefixed lower-case labels from `i` on, without the root. */
  ghost function Body(name: seq<Byte>, i: nat): (w: seq<Byte>)
    requires i <= |name| && LabelsOk(name, i)
    ensures |w| == BodyLength(name, i)
    decreases |name| - i
  {
    if i == |name| then [] else LabelWire(name[i..DotFrom(name, i)]) + Body(name, NextLabel(name, i))
  }

  /** Where the labels of a name start: at its end for the root. */
  function Start(name: seq<Byte>): (i: nat)
    ensures i <= |name|
  {
    if name == [DOT] then 1 else 0
  }

  ghost predicate Encodable(name: seq<Byte>, capacity: nat) {
    && name != []
    && LabelsOk(name, Start(name))
    && BodyLength(name, Start(name)) + 1 <= Min(NAME_WIRE_MAX, capacity)
  }

  ghost function Wire(name: seq<Byte>): seq<Byte>
    requires LabelsOk(name, Start(name))
  {
    Body(name, Start(name)) + [0]
  }

  /** `sr_encode_name` writing into `out`. */
  method SrEncodeName(name: seq<Byte>, out: array<Byte>) returns (ok: bool, length: nat)
    modifies out
    ensures ok <==> Encodable(name, out.Length)
    ensures ok ==> length <= out.Length && out[..length] == Wire(name) && NoUpper(out[..length])
  {
    if name == [] || out.Length == 0 { return false, 0; }
    if name == [DOT] {
      out[0] := 0;
      return true, 1;
    }
    ok, length := EncodeLabels(name, out);
    if ok {
      out[length] := 0;
      length := length + 1;
      WireHasNoUpper(name);
    }
  }

  lemma {:induction false} BodyHasNoUpper(name: seq<Byte>, i: nat)
    requires i <= |name| && LabelsOk(name, i)
    ensures NoUpper(Body(name, i))
    decreases |name| - i
  {
    if i < |name| {
      var content := name[i..DotFrom(name, i)];
      LowerHasNoUpper(content);
      NoUpperBoth([|content|], Lower(content));
      BodyHasNoUpper(name, NextLabel(name, i));
      NoUpperBoth(LabelWire(content), Body(name, NextLabel(name, i)));
    }
  }

  lemma WireHasNoUpper(name: seq<Byte>)
    requires LabelsOk(name, Start(name))
    ensures NoUpper(Wire(name))
  {
    BodyHasNoUpper(name, Start(name));
    NoUpperBoth(Body(name, Start(name)), [0]);
  }

  lemma {:induction false} DotsFoldCase(a: seq<Byte>, b: seq<Byte>, i: nat)
    requires SameButCase(a, b) && i <= |a|
    ensures DotFrom(a, i) == DotFrom(b, i)
    decreases |a| - i
  {
    if i < |a| {
      assert SameLetter(a[i], b[i]);
      if a[i] != DOT { DotsFoldCase(a, b, i + 1); }
    }
  }

  lemma {:induction false} BodyFoldsCase(a: seq<Byte>, b: seq<Byte>, i: nat)
    requires SameButCase(a, b) && i <= |a|
    ensures (LabelsOk(a, i) <==> LabelsOk(b, i)) && BodyLength(a, i) == BodyLength(b, i)
    ensures LabelsOk(a, i) && LabelsOk(b, i) ==> Body(a, i) == Body(b, i)
    decreases |a| - i
  {
    if i < |a| {
      DotsFoldCase(a, b, i);
      BodyFoldsCase(a, b, NextLabel(a, i));
      LowerFolds(a[i..DotFrom(a, i)], b[i..DotFrom(a, i)]);
    }
  }

  /** Names that differ only in the case of letters are encoded alike, or both refused. */
  lemma EncodingFoldsCase(a: seq<Byte>, b: seq<Byte>, capacity: nat)
    requires SameButCase(a, b)
    ensures Encodable(a, capacity) <==> Encodable(b, capacity)
    ensures Encodable(a, capacity) ==> Wire(a) == Wire(b)
  {
    if a != [] { assert SameLetter(a[0], b[0]); }
    assert a == [DOT] <==> b == [DOT];
    BodyFoldsCase(a, b, Start(a));
  }

  /** The encoder's loop over the labels of a name other than the root. */
  method EncodeLabels(name: seq<Byte>, out: array<Byte>) returns (ok: bool, length: nat)
    requires out.Length > 0
    modifies out
    ensures ok <==> LabelsOk(name, 0) && BodyLength(name, 0) + 1 <= Min(NAME_WIRE_MAX, out.Length)
    ensures ok ==> Holds(out, length, Body(name, 0))
  {
    length := 0;
    var cursor: nat := 0;
    ghost var text: seq<Byte> := [];
    while cursor < |name|
      invariant cursor <= |name|
      invariant LabelsOk(name, 0) <==> LabelsOk(name, cursor)
      invariant BodyLength(name, 0) == length + BodyLength(name, cursor)
      invariant LabelsOk(name, 0) ==> Body(name, 0) == text + Body(name, cursor)
      invariant Holds(out, length, text)
      invariant length + 1 <= Min(NAME_WIRE_MAX, out.Length)
    {
      var dot := DotFrom(name, cursor);
      var size := dot - cursor;
      if size == 0 || size > 63 || length + 1 + size + 1 > NAME_WIRE_MAX { return false, 0; }
      var content := name[cursor..dot];
      ok := PutLabel(out, length, content, text);
      if !ok { return false, 0; }
      if LabelsOk(name, 0) { Assoc(text, LabelWire(content), Body(name, NextLabel(name, cursor))); }
      length, text := length + 1 + size, text + LabelWire(content);
      cursor := NextLabel(name, cursor);
    }
    return true, length;
  }

  // ----- Every encoded name is walked back ---------------------------------

  ghost function SpeltBefore(msg: seq<Byte>, p: Path): seq<Byte> {
    if p.Then? then Spell(msg, p.before) else []
  }

  /** A message holding encoded labels at the end of a pointer-free chain continues that chain to the root. */
  lemma {:induction false} FollowLabels(msg: seq<Byte>, off: nat, p: Path, name: seq<Byte>, i: nat) returns (q: Path)
    requires i <= |name| && LabelsOk(name, i)
    requires Chain(msg, off, p) && (p.Then? ==> !Jumped(msg, p.before))
    requires HasAt(msg, p.at, Body(name, i) + [0])
    ensures NamePath(msg, off, q) && !Jumped(msg, q)
    ensures q.at == p.at + BodyLength(name, i) && Size(q) == Size(p) + LabelsFrom(name, i)
    ensures Spell(msg, q) == SpeltBefore(msg, p) + Body(name, i) + [0]
    ensures Text(msg, q) == JoinFrom(TextBefore(msg, p), name, i)
    decreases |name| - i
  {
    if i == |name| {
      assert msg[p.at] == msg[p.at..p.at + 1][0];
      q := p;
    } else {
      var content := name[i..DotFrom(name, i)];
      var n := NextLabel(name, i);
      Assoc(LabelWire(content), Body(name, n), [0]);
      StepOverLabel(msg, off, p, content, Body(name, n) + [0]);
      q := FollowLabels(msg, off, Then(p, p.at + 1 + |content|), name, n);
      Assoc(SpeltBefore(msg, p), LabelWire(content), Body(name, n));
    }
  }

  lemma StepOverLabel(msg: seq<Byte>, off: nat, p: Path, content: seq<Byte>, rest: seq<Byte>)
    requires 1 <= |content| <= 63 && HasAt(msg, p.at, LabelWire(content) + rest)
    requires Chain(msg, off, p) && (p.Then? ==> !Jumped(msg, p.before))
    ensures var q := Then(p, p.at + 1 + |content|);
            && Chain(msg, off, q) && !Jumped(msg, p) && HasAt(msg, q.at, rest)
            && SpeltBefore(msg, q) == SpeltBefore(msg, p) + LabelWire(content)
            && TextBefore(msg, q) == Join(TextBefore(msg, p), Lower(content))
  {
    HasAtSplit(msg, p.at, LabelWire(content), rest);
    LabelCell(msg, p.at, content);
  }

  /** What a reader finds where an encoded label was written. */
  lemma LabelCell(msg: seq<Byte>, at: nat, content: seq<Byte>)
    requires 1 <= |content| <= 63 && HasAt(msg, at, LabelWire(content))
    ensures CellAt(msg, at) == Label(|content|)
    ensures msg[at + 1..at + 1 + |content|] == Lower(content)
    ensures Emit(msg, at) == LabelWire(content)
  {
    assert msg[at + 0] == LabelWire(content)[0];
    HasAtSplit(msg, at, [|content|], Lower(content));
    LowerIdempotent(content);
  }

  lemma {:induction false} TwoOctetsPerLabel(name: seq<Byte>, i: nat)
    requires i <= |name| && LabelsOk(name, i)
    ensures 2 * LabelsFrom(name, i) <= BodyLength(name, i)
    decreases |name| - i
  {
    if i < |name| { TwoOctetsPerLabel(name, NextLabel(name, i)); }
  }

  /** Encoding then walking is the identity, anywhere in a message and within the hop limit. */
  lemma EncodedNameWalksBack(name: seq<Byte>, msg: seq<Byte>, off: nat) returns (p: Path)
    requires Encodable(name, NAME_WIRE_MAX) && HasAt(msg, off, Wire(name))
    ensures NamePath(msg, off, p) && Size(p) <= MAX_HOPS && !Jumped(msg, p)
    ensures Spell(msg, p) == Wire(name) && Resume(msg, p) == off + |Wire(name)|
    ensures Decodable(msg, off, MAX_HOPS, NAME_WIRE_MAX)
    ensures Text(msg, p) == JoinFrom([], name, Start(name))
  {
    TwoOctetsPerLabel(name, Start(name));
    p := FollowLabels(msg, off, First(off), name, Start(name));
    NotJumpedResume(msg, p);
  }

  lemma NotJumpedResume(msg: seq<Byte>, p: Path)
    requires !Jumped(msg, p)
    ensures Resume(msg, p) == p.at + 1
  {
  }

  lemma {:induction false} OneLetterLabels(name: seq<Byte>, i: nat)
    requires i <= |name| && i % 2 == 0 && |name| % 2 == 0
    requires forall k | 0 <= k < |name| :: name[k] == if k % 2 == 0 then 97 else DOT
    ensures LabelsOk(name, i) && LabelsFrom(name, i) == (|name| - i) / 2 && BodyLength(name, i) == |name| - i
    decreases |name| - i
  {
    if i < |name| {
      assert DotFrom(name, i) == i + 1;
      OneLetterLabels(name, i + 2);
    }
  }

  /** The hop limit is tight: some accepted name has 127 labels, hence 128 cells. */
  lemma HopLimitIsTight() returns (name: seq<Byte>, p: Path)
    ensures Encodable(name, NAME_WIRE_MAX) && NamePath(Wire(name), 0, p) && Size(p) == MAX_HOPS
  {
    name := [];
    while |name| < 254
      invariant |name| <= 254 && |name| % 2 == 0
      invariant forall k | 0 <= k < |name| :: name[k] == if k % 2 == 0 then 97 else DOT
    {
      name := name + [97, DOT];
    }
    OneLetterLabels(name, 0);
    p := FollowLabels(Wire(name), 0, First(0), name, 0);
  }

  // ----- Expansion to presentation form ------------------------------------

  /** Appends a label to a dotted name. */
  function Join(text: seq<Byte>, content: seq<Byte>): seq<Byte> {
    if text == [] then content else text + [DOT] + content
  }

  function TextStep(text: seq<Byte>, msg: seq<Byte>, o: nat): seq<Byte> {
    match CellAt(msg, o)
    case Label(length) => Join(text, msg[o + 1..o + 1 + length])
    case _ => text
  }

  /** The labels of a path, as they stand in the message, separated by dots. */
  ghost function Text(msg: seq<Byte>, p: Path): seq<Byte> {
    TextStep(if p.Then? then Text(msg, p.before) else [], msg, p.at)
  }

  ghost function TextBefore(msg: seq<Byte>, p: Path): seq<Byte> {
    if p.Then? then Text(msg, p.before) else []
  }

  ghost function JoinFrom(text: seq<Byte>, name: seq<Byte>, i: nat): seq<Byte>
    requires i <= |name|
    decreases |name| - i
  {
    if i == |name| then text
    else JoinFrom(Join(text, Lower(name[i..DotFrom(name, i)])), name, NextLabel(name, i))
  }

  ghost function Jumps(msg: seq<Byte>, p: Path): nat {
    (if CellAt(msg, p.at).Pointer? then 1 else 0) + (if p.Then? then Jumps(msg, p.before) else 0)
  }

  /** Every pointer on the path leads to an earlier offset. */
  ghost predicate Backward(msg: seq<Byte>, p: Path) {
    && (CellAt(msg, p.at).Pointer? ==> CellAt(msg, p.at).target < p.at)
    && (p.Then? ==> Backward(msg, p.before))
  }

  const MAX_JUMPS: nat := 128

  /** What `dns_expand_name` accepts: backward pointers only, and text that fits with its terminator. */
  ghost predicate Expands(msg: seq<Byte>, off: nat, capacity: nat, p: Path) {
    && NamePath(msg, off, p)
    && Tame(msg, capacity, p)
  }

  ghost predicate Tame(msg: seq<Byte>, capacity: nat, p: Path) {
    && Backward(msg, p) && Jumps(msg, p) <= MAX_JUMPS
    && |Text(msg, p)| <= NAME_WIRE_MAX && |Text(msg, p)| < capacity
  }

  /** The root is presented as a single dot. */
  function Present(text: seq<Byte>): seq<Byte> {
    if text == [] then [DOT] else text
  }

  lemma {:induction false} TamePrefix(msg: seq<Byte>, capacity: nat, p: Path, q: Path)
    requires IsPrefix(p, q) && Tame(msg, capacity, q)
    ensures Tame(msg, capacity, p)
  {
    if p != q { TamePrefix(msg, capacity, p, q.before); }
  }

  /** A chain that ends badly or is no longer tame rules out every expansion from its start. */
  lemma NoExpansion(msg: seq<Byte>, off: nat, capacity: nat, p: Path)
    requires Chain(msg, off, p)
    requires CellAt(msg, p.at).Truncated? || CellAt(msg, p.at).Reserved? || !Tame(msg, capacity, p)
    ensures forall q :: !Expands(msg, off, capacity, q)
  {
    forall q ensures !Expands(msg, off, capacity, q) {
      if Expands(msg, off, capacity, q) {
        NamePathAhead(msg, off, p, q);
        TamePrefix(msg, capacity, p, q);
        assert false;
      }
    }
  }

  datatype Outcome = Failed | Finished | Onward

  /** `dns_expand_name`: terminates because each turn spends a jump or moves forward. */
  method ExpandName(msg: seq<Byte>, off: nat, out: array<Byte>) returns (ok: bool, next: nat, length: nat, ghost path: Path)
    modifies out
    ensures ok <==> out.Length >= 2 && exists q :: Expands(msg, off, out.Length, q)
    ensures ok ==> Expands(msg, off, out.Length, path) && next == Resume(msg, path)
    ensures ok ==> Holds(out, length, Present(Text(msg, path))) && length < out.Length && out[length] == 0
    ensures !ok ==> next == off
  {
    path := First(off);
    if out.Length < 2 || off >= |msg| {
      if off >= |msg| { NoExpansion(msg, off, out.Length, path); }
      return false, off, 0, path;
    }
    var position: nat, jumps: nat := off, 0;
    var jumped := false;
    ghost var text: seq<Byte> := [];
    next, length := off, 0;
    while true
      invariant path.at == position <= |msg| && Chain(msg, off, path)
      invariant path.Then? ==> Tame(msg, out.Length, path.before)
      invariant jumps == if path.Then? then Jumps(msg, path.before) else 0
      invariant text == TextBefore(msg, path) && Holds(out, length, text) && length < out.Length
      invariant jumped <==> path.Then? && Jumped(msg, path.before)
      invariant jumped ==> next == Resume(msg, path.before)
      decreases MAX_JUMPS - jumps, |msg| - position
    {
      var outcome, successor, more := ExpandVisit(msg, position, jumps, out, length, text);
      if outcome.Failed? {
        NoExpansion(msg, off, out.Length, path);
        return false, off, 0, path;
      }
      if outcome.Finished? {
        assert Expands(msg, off, out.Length, path);
        return true, if jumped then next else position + 1, more, path;
      }
      if msg[position] >= 192 {
        jumps := jumps + 1;
        if !jumped { next, jumped := position + 2, true; }
      }
      text := TextStep(text, msg, position);
      position, length, path := successor, more, Then(path, successor);
    }
  }

  method ExpandVisit(msg: seq<Byte>, o: nat, jumps: nat, out: array<Byte>, n: nat, ghost text: seq<Byte>)
    returns (outcome: Outcome, successor: nat, more: nat)
    requires Holds(out, n, text) && n < out.Length && out.Length >= 2
    modifies out
    ensures outcome.Failed? ==>
              || CellAt(msg, o).Truncated? || CellAt(msg, o).Reserved?
              || (CellAt(msg, o).Pointer? && (CellAt(msg, o).target >= o || jumps >= MAX_JUMPS))
              || |TextStep(text, msg, o)| > NAME_WIRE_MAX || |TextStep(text, msg, o)| >= out.Length
    ensures outcome.Onward? ==>
              && Continues(msg, o) && successor == Successor(msg, o)
              && (CellAt(msg, o).Pointer? ==> successor < o && jumps < MAX_JUMPS)
              && Holds(out, more, TextStep(text, msg, o)) && more < out.Length
              && (CellAt(msg, o).Label? ==> more <= NAME_WIRE_MAX)
    ensures outcome.Finished? ==>
              && CellAt(msg, o).Root? && Holds(out, more, Present(text))
              && more < out.Length && out[more] == 0
  {
    successor, more := o, n;
    if o >= |msg| { return Failed, successor, more; }
    var size := msg[o];
    if size >= 192 {
      if o + 1 >= |msg| { return Failed, successor, more; }
      successor := (size as int - 192) * 256 + msg[o + 1];
      return if successor >= o || successor >= |msg| || jumps + 1 > MAX_JUMPS then Failed else Onward, successor, more;
    }
    if size >= 64 { return Failed, successor, more; }
    if size == 0 {
      if n == 0 {
        out[0] := DOT;
        more := 1;
      }
      out[more] := 0;
      return Finished, successor, more;
    }
    successor := o + 1 + size;
    if successor > |msg| { return Failed, successor, more; }
    more := n + size + (if n > 0 then 1 else 0);
    if more >= out.Length || more > NAME_WIRE_MAX { return Failed, successor, more; }
    AppendLabel(out, n, msg[o + 1..successor], text);
    return Onward, successor, more;
  }

  /** Writes the separating dot, if one is needed, and the label as it stands. */
  method AppendLabel(out: array<Byte>, n: nat, content: seq<Byte>, ghost text: seq<Byte>)
    requires Holds(out, n, text) && n + 1 + |content| <= out.Length + (if n == 0 then 1 else 0)
    modifies out
    ensures Holds(out, |Join(text, content)|, Join(text, content))
  {
    var at := n;
    if n > 0 {
      out[n] := DOT;
      at := n + 1;
    }
    for i := 0 to |content|
      invariant out[..at] == if n > 0 then text + [DOT] else []
      invariant forall k | at <= k < at + i :: out[k] == content[k - at]
    {
      out[at + i] := content[i];
    }
    assert out[at..at + |content|] == content;
    assert out[..at + |content|] == out[..at] + out[at..at + |content|];
  }

  // ----- Expansion inverts encoding up to ASCII case -----------------------

  predicate EndsWithDot(name: seq<Byte>) {
    name != [] && name[|name| - 1] == DOT
  }

  function Undotted(name: seq<Byte>): seq<Byte> {
    if EndsWithDot(name) then name[..|name| - 1] else name
  }

  lemma {:induction false} DotFromIsFirst(name: seq<Byte>, i: nat)
    requires i <= |name|
    ensures DOT !in name[i..DotFrom(name, i)]
    decreases |name| - i
  {
    var d := DotFrom(name, i);
    if i < d {
      DotFromIsFirst(name, i + 1);
      assert name[i..d] == [name[i]] + name[i + 1..d];
    }
  }

  /** The text of all labels before position `i` of a name. */
  ghost function TextUpTo(name: seq<Byte>, i: nat): seq<Byte>
    requires i <= |name|
  {
    if i == 0 then [] else Lower(name[..i - 1])
  }

  lemma JoinNext(name: seq<Byte>, i: nat)
    requires i < |name| && LabelsOk(name, i) && (i == 0 || (i >= 2 && name[i - 1] == DOT))
    ensures Join(TextUpTo(name, i), Lower(name[i..DotFrom(name, i)])) == Lower(name[..DotFrom(name, i)])
  {
    var d := DotFrom(name, i);
    if i == 0 {
      assert name[i..d] == name[..d];
    } else {
      LowerAppend(name[..i - 1], name[i - 1..d]);
      LowerAppend([DOT], name[i..d]);
      assert name[i - 1..d] == [DOT] + name[i..d];
      assert name[..d] == name[..i - 1] + name[i - 1..d];
      LowerAt([DOT], 0);
      assert Lower([DOT]) == [DOT];
      Assoc(Lower(name[..i - 1]), [DOT], Lower(name[i..d]));
    }
  }

  lemma LastLabelEnds(name: seq<Byte>, i: nat)
    requires i < |name| && i < DotFrom(name, i) && NextLabel(name, i) == |name|
    ensures Undotted(name) == name[..DotFrom(name, i)]
  {
    var d := DotFrom(name, i);
    DotFromIsFirst(name, i);
    if d == |name| { assert name[i..d][d - 1 - i] == name[d - 1]; }
  }

  lemma JoinNextOrEnd(name: seq<Byte>, i: nat)
    requires i < |name| && LabelsOk(name, i) && (i == 0 || (i >= 2 && name[i - 1] == DOT))
    ensures Join(TextUpTo(name, i), Lower(name[i..DotFrom(name, i)])) ==
            var n := NextLabel(name, i);
            if n < |name| then TextUpTo(name, n) else Lower(Undotted(name))
  {
    JoinNext(name, i);
    if NextLabel(name, i) == |name| {
      LastLabelEnds(name, i);
    } else {
      assert NextLabel(name, i) - 1 == DotFrom(name, i);
    }
  }

  lemma {:induction false} JoinFromIsName(name: seq<Byte>, i: nat)
    requires i < |name| && LabelsOk(name, i) && (i == 0 || (i >= 2 && name[i - 1] == DOT))
    ensures JoinFrom(TextUpTo(name, i), name, i) == Lower(Undotted(name))
    decreases |name| - i
  {
    JoinNextOrEnd(name, i);
    if NextLabel(name, i) < |name| { JoinFromIsName(name, NextLabel(name, i)); }
  }

  /** An encoded name expands to its own lower-case text, less a final dot. */
  lemma EncodedNameExpands(name: seq<Byte>, msg: seq<Byte>, off: nat, capacity: nat) returns (p: Path)
    requires Encodable(name, NAME_WIRE_MAX) && HasAt(msg, off, Wire(name)) && capacity > NAME_WIRE_MAX
    ensures Expands(msg, off, capacity, p) && Resume(msg, p) == off + |Wire(name)|
    ensures Present(Text(msg, p)) == if name == [DOT] then name else Lower(Undotted(name))
  {
    p := EncodedNameWalksBack(name, msg, off);
    TextNoLongerThanSpelling(msg, p);
    NoPointers(msg, p);
    if name != [DOT] {
      JoinFromIsName(name, 0);
      OnlyDots(name);
    }
  }

  /** What an encoded name expands to has no upper-case letter, and is the name given but for case and a final dot. */
  lemma ExpansionIsLower(name: seq<Byte>, msg: seq<Byte>, off: nat, capacity: nat) returns (p: Path)
    requires Encodable(name, NAME_WIRE_MAX) && HasAt(msg, off, Wire(name)) && capacity > NAME_WIRE_MAX
    ensures Expands(msg, off, capacity, p) && NoUpper(Present(Text(msg, p)))
    ensures SameButCase(Present(Text(msg, p)), if name == [DOT] then name else Undotted(name))
  {
    p := EncodedNameExpands(name, msg, off, capacity);
    LowerHasNoUpper(Undotted(name));
    LowerIdempotent(Undotted(name));
    LowerFolds(Lower(Undotted(name)), Undotted(name));
  }

  lemma OnlyDots(name: seq<Byte>)
    requires name != [] && name != [DOT] && LabelsOk(name, 0)
    ensures Undotted(name) != []
  {
    if |name| == 1 { DotFromIsFirst(name, 0); }
  }

  lemma {:induction false} TextNoLongerThanSpelling(msg: seq<Byte>, p: Path)
    ensures |Text(msg, p)| <= |Spell(msg, p)|
  {
    if p.Then? { TextNoLongerThanSpelling(msg, p.before); }
  }

  lemma {:induction false} NoPointers(msg: seq<Byte>, p: Path)
    requires !Jumped(msg, p)
    ensures Jumps(msg, p) == 0 && Backward(msg, p)
  {
    if p.Then? { NoPointers(msg, p.before); }
  }

  // ----- Letter case ---------------------------------------------------------------------------------

  lemma SameButCaseBoth(a: seq<Byte>, b: seq<Byte>, c: seq<Byte>, d: seq<Byte>)
    requires SameButCase(a, b) && SameButCase(c, d)
    ensures SameButCase(a + c, b + d)
  {
  }

  lemma JoinFoldsCase(a: seq<Byte>, b: seq<Byte>, c: seq<Byte>, d: seq<Byte>)
    requires SameButCase(a, b) && SameButCase(c, d)
    ensures SameButCase(Join(a, c), Join(b, d))
  {
    if a != [] {
      SameButCaseBoth(a, b, [DOT], [DOT]);
      SameButCaseBoth(a + [DOT], b + [DOT], c, d);
    }
  }

  lemma StepFoldsCase(a: seq<Byte>, b: seq<Byte>, p: seq<Byte>, q: seq<Byte>, o: nat)
    requires SameCellButCase(p, q, o) && SameButCase(a, b)
    ensures SameButCase(TextStep(a, p, o), TextStep(b, q, o))
  {
    if CellAt(p, o).Label? {
      var n := CellAt(p, o).length;
      JoinFoldsCase(a, b, p[o + 1..o + 1 + n], q[o + 1..o + 1 + n]);
    }
  }

  /** The text of a name keeps its letters' case, and nothing else of it changes with that. */
  lemma {:induction false} TextFoldsCase(p: seq<Byte>, q: seq<Byte>, t: Path)
    requires SamePathButCase(p, q, t)
    ensures SameButCase(Text(p, t), Text(q, t))
    ensures Jumps(q, t) == Jumps(p, t) && (Backward(q, t) <==> Backward(p, t))
  {
    if t.Then? { TextFoldsCase(p, q, t.before); }
    StepFoldsCase(TextBefore(p, t), TextBefore(q, t), p, q, t.at);
  }

  lemma ExpansionFoldsCase(p: seq<Byte>, q: seq<Byte>, off: nat, capacity: nat, t: Path)
    requires SamePathButCase(p, q, t)
    ensures Expands(q, off, capacity, t) <==> Expands(p, off, capacity, t)
    ensures SameButCase(Present(Text(p, t)), Present(Text(q, t)))
  {
    PathFoldsCase(p, q, off, t);
    TextFoldsCase(p, q, t);
  }
}

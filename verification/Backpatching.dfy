/** Queued addresses and what they stand for: the invariant that ties a half-finished assembly to the
    two-pass reference. */
module Backpatching {
  import opened Words
  import opened Isa
  import opened Machine
  import opened Assembly
  import opened Builder

  datatype AddressType =
    | DirectAddressAbsolute
    | DirectAddressOffset
    | IndirectAddressOffset
    | DirectAddressAbsoluteWord
    | DirectAddressAbsoluteByte
    | DirectAddressAbsoluteLoad

  /** An address operand in the instruction (or datum) under construction at a position. */
  datatype AddressData = AddressData(
    kind: AddressType,
    position: Word,
    instructionData: Word,
    target: string,
    offset: int,
    reg: Reg)

  /** The address with its field filled in, if its label is known. */
  function Fill(a: AddressData, env: Environment): Option<AddressData> {
    match a.kind
    case DirectAddressAbsolute =>
      if a.target in env then
        Some(a.(instructionData := PatchJump(a.instructionData, env[a.target])))
      else None
    case DirectAddressOffset =>
      if a.target in env then
        Some(a.(instructionData := PatchBranch(a.instructionData, env[a.target] - a.position)))
      else None
    case IndirectAddressOffset =>
      if a.target == "" then
        Some(a.(instructionData := PatchIndirect(a.instructionData, a.reg, a.offset - a.position)))
      else if a.target in env then
        Some(a.(instructionData := PatchIndirect(a.instructionData, a.reg, env[a.target] + a.offset - a.position)))
      else None
    case DirectAddressAbsoluteWord | DirectAddressAbsoluteByte | DirectAddressAbsoluteLoad =>
      if a.target in env then Some(a.(instructionData := Wrap(env[a.target]))) else None
  }

  /** The opcodes that come with each emission form. */
  predicate Formed(e: Emission) {
    match e
    case PutRRR(op, _, _, _) => FormOf(op) == FormRRR
    case PutRRL(op, _, _, _) => FormOf(op) == FormRRL || FormOf(op) == FormRRR
    case PutRR(op, _, _) => FormOf(op) == FormRR
    case PutRL(op, _, _) => FormOf(op) == FormRL
    case PutR(op, _) => FormOf(op) == FormR
    case PutO(op) => FormOf(op) == FormO
    case PutBranch2(op, _, _, _) => FormOf(op) == FormRRA
    case PutBranch1(op, _, _) => FormOf(op) == FormRA
    case PutAccess(op, _, _) => FormOf(op) == FormRRA
    case PutJump(op, _) => FormOf(op) == FormA
    case _ => true
  }

  /** A queued address belongs to a slot. */
  predicate Serves(a: AddressData, s: Slot) {
    var i := a.instructionData;
    && a.position == s.location
    && Formed(s.emission)
    && match s.emission
       case PutBranch2(op, r0, r1, target) =>
         && a.kind == DirectAddressOffset && a.target == target
         && OpcodeField(i) == Number(op) && Register0(i) == r0 && Register1(i) == r1
       case PutBranch1(op, r0, target) =>
         && a.kind == DirectAddressOffset && a.target == target
         && OpcodeField(i) == Number(op) && Register0(i) == r0
       case PutAccess(op, r0, address) =>
         && a.kind == IndirectAddressOffset && a.target == address.target
         && a.offset == address.offset && a.reg == address.reg
         && OpcodeField(i) == Number(op) && Register0(i) == r0
       case PutJump(op, target) =>
         && a.kind == DirectAddressAbsolute && a.target == target && OpcodeField(i) == Number(op)
       case PutLoadAddress(r0, target) =>
         a.kind == DirectAddressAbsoluteLoad && a.target == target && a.reg == r0
       case PutWordOf(target) => a.kind == DirectAddressAbsoluteWord && a.target == target
       case PutByteOf(target) => a.kind == DirectAddressAbsoluteByte && a.target == target
       case _ => false
  }

  /** The emission cannot do without the name, and the name is no label. */
  predicate Missing(e: Emission, name: string, env: Environment) {
    Needs(e) == Some(name) && name !in env
  }

  /** The bytes of a filled address are in place. */
  predicate Written(g: Segments, a: AddressData) {
    match a.kind
    case DirectAddressAbsoluteByte => ByteIn(g, a.position) == Some(a.instructionData % 0x100)
    case DirectAddressAbsoluteLoad =>
      && Decodes(g, a.position, InsRL(LUI, a.reg, Upper(a.instructionData)))
      && Decodes(g, a.position + 4, InsRRL(ORI, a.reg, a.reg, Lower(a.instructionData)))
    case _ => WordIn(g, a.position) == Some(a.instructionData)
  }

  /** Filling in makes the word decode to the reference instruction. */
  lemma FilledDecodes(a: AddressData, env: Environment, s: Slot)
    requires Serves(a, s) && Fill(a, env).Some?
    requires IsCode(s.emission) && !s.emission.PutLoadAddress?
    ensures [Instructions(s.emission, s.location, env)[0]] == Instructions(s.emission, s.location, env)
    ensures Decode(Fill(a, env).value.instructionData) == Some(Instructions(s.emission, s.location, env)[0])
  {
    hide Decode, Number, FormOf, OpcodeField, Register0, Register1, Upper, Lower, LowHalf, SignExtend, SetImmediate,
      SetRegister1, SetDirectAddressAbsolute, PatchBranch, PatchIndirect, PatchJump;
  }

  /** A filled address, written, is what the second pass wants there. */
  lemma FilledHolds(a: AddressData, env: Environment, s: Slot, g: Segments)
    requires Serves(a, s) && Fill(a, env).Some? && Written(g, Fill(a, env).value)
    ensures Holds(g, s, env)
  {
    hide WordIn, ByteIn, Decode, Number, FormOf, OpcodeField, Register0, Register1, Upper, Lower, PatchBranch,
      PatchIndirect, PatchJump;
    if s.emission.PutLoadAddress? {
      var code := Instructions(s.emission, s.location, env);
      assert Decodes(g, s.location + 4 * 0, code[0]) && Decodes(g, s.location + 4 * 1, code[1]);
    } else if IsCode(s.emission) {
      FilledDecodes(a, env, s);
      assert Decodes(g, s.location + 4 * 0, Instructions(s.emission, s.location, env)[0]);
    }
  }

  /** An address is filled exactly when the label its slot needs is known. */
  lemma FillsWhenResolvable(a: AddressData, env: Environment, s: Slot)
    requires Serves(a, s)
    ensures Fill(a, env).Some? <==> Resolvable(s.emission, env)
    ensures Fill(a, env).None? ==> Missing(s.emission, a.target, env)
  {
  }

  // ----- the invariant -----

  predicate Extends(env: Environment, env': Environment) {
    forall l | l in env :: l in env' && env'[l] == env[l]
  }

  /** The bytes of a slot lie in one segment, among those written so far; single bytes only in the data
      segment. */
  predicate Within(s: Slot, c: Cursor) {
    if s.location < DATA_SEGMENT_OFFSET then Size(s.emission) >= 4 && s.location + Size(s.emission) <= c.text
    else s.location - DATA_SEGMENT_OFFSET + Size(s.emission) <= c.data
  }

  predicate Disjoint(s: Slot, t: Slot) {
    s.location + Size(s.emission) <= t.location || t.location + Size(t.emission) <= s.location
  }

  predicate Tracked(slots: seq<Slot>, c: Cursor) {
    && (forall i | 0 <= i < |slots| :: Within(slots[i], c))
    && (forall i, j | 0 <= i < j < |slots| :: Disjoint(slots[i], slots[j]))
  }

  /** Every slot is final already or waits in the queue from position `from` on. */
  predicate Settled(g: Segments, slots: seq<Slot>, env: Environment, queue: seq<AddressData>, from: nat) {
    forall i | 0 <= i < |slots| ::
      Holds(g, slots[i], env) || exists k | from <= k < |queue| :: Serves(queue[k], slots[i])
  }

  predicate Queued(slots: seq<Slot>, queue: seq<AddressData>) {
    forall k | 0 <= k < |queue| :: exists i | 0 <= i < |slots| :: Serves(queue[k], slots[i])
  }

  /** A half-finished assembly: sizes as the first pass counts them, slots disjoint and inside, each
      one final or queued. */
  predicate Partial(g: Segments, slots: seq<Slot>, env: Environment, queue: seq<AddressData>, c: Cursor) {
    && |g.text| == c.text && |g.data| == c.data && Fits(c)
    && Tracked(slots, c) && Settled(g, slots, env, queue, 0) && Queued(slots, queue)
  }

  /** The bytes of a slot read the same. */
  predicate Agree(g: Segments, g': Segments, s: Slot) {
    && (Size(s.emission) == 1 ==> ByteIn(g', s.location) == ByteIn(g, s.location))
    && (Size(s.emission) >= 4 ==> WordIn(g', s.location) == WordIn(g, s.location))
    && (Size(s.emission) == 8 ==> WordIn(g', s.location + 4) == WordIn(g, s.location + 4))
  }

  lemma HoldsAgain(g: Segments, g': Segments, s: Slot, env: Environment)
    requires Holds(g, s, env) && Agree(g, g', s)
    ensures Holds(g', s, env)
  {
    hide Decode, WordIn, ByteIn, Instructions, Resolvable;
    if IsCode(s.emission) {
      var code := Instructions(s.emission, s.location, env);
      CodeSize(s.emission, s.location, env);
      forall j | 0 <= j < |code| ensures Decodes(g', s.location + 4 * j, code[j]) {
        assert Decodes(g, s.location + 4 * j, code[j]);
        assert j == 0 || j == 1;
      }
    }
  }

  /** Bytes already written stay readable when a segment grows. */
  lemma GrowthAgrees(g: Segments, segment: Segment, chunk: seq<Byte>, s: Slot, c: Cursor)
    requires |g.text| == c.text && |g.data| == c.data && Fits(c) && Within(s, c)
    ensures Agree(g, Append(g, segment, chunk), s)
  {
    hide WordOf;
    if Size(s.emission) >= 4 {
      WordStays(g, segment, chunk, s.location);
    }
    if Size(s.emission) == 8 {
      WordStays(g, segment, chunk, s.location + 4);
    }
  }

  /** A patch inside one slot does not show in another. */
  lemma PatchAgrees(g: Segments, location: nat, chunk: seq<Byte>, s: Slot, t: Slot, c: Cursor)
    requires |g.text| == c.text && |g.data| == c.data && Fits(c) && Within(s, c) && Within(t, c) && Disjoint(s, t)
    requires s.location <= location && location + |chunk| <= s.location + Size(s.emission)
    requires InPlace(g, location, |chunk|)
    ensures Agree(g, Patched(g, location, chunk), t)
  {
    hide WordOf;
    if Size(t.emission) >= 4 {
      PatchedElsewhere(g, location, chunk, t.location);
    }
    if Size(t.emission) == 8 {
      PatchedElsewhere(g, location, chunk, t.location + 4);
    }
  }

  lemma PatchedElsewhere(g: Segments, location: nat, chunk: seq<Byte>, other: nat)
    requires InPlace(g, location, |chunk|)
    requires location + |chunk| <= other || other + 4 <= location
    requires (location < DATA_SEGMENT_OFFSET && |g.text| < DATA_SEGMENT_OFFSET) || location >= DATA_SEGMENT_OFFSET
    ensures WordIn(Patched(g, location, chunk), other) == WordIn(g, other)
  {
    hide WordOf;
    var g' := Patched(g, location, chunk);
    if other < DATA_SEGMENT_OFFSET {
      if other + 4 <= |g.text| {
        assert g'.text[other..other + 4] == g.text[other..other + 4];
      }
    } else {
      var i := other - DATA_SEGMENT_OFFSET;
      if i + 4 <= |g.data| {
        assert g'.data[i..i + 4] == g.data[i..i + 4];
      }
    }
  }

  /** A patched word reads back. */
  lemma PatchedHere(g: Segments, location: nat, w: Word)
    requires InPlace(g, location, 4) && |g.text| < DATA_SEGMENT_OFFSET
    ensures WordIn(Patched(g, location, BytesOf(w)), location) == Some(w)
  {
  }

  lemma CodeSize(e: Emission, location: nat, env: Environment)
    requires IsCode(e)
    ensures 4 * |Instructions(e, location, env)| == Size(e)
  {
  }

  lemma WordStays(g: Segments, segment: Segment, chunk: seq<Byte>, location: int)
    ensures WordIn(g, location).Some? ==> WordIn(Append(g, segment, chunk), location) == WordIn(g, location)
  {
  }

  /** A known label keeps its value, so what holds under a label table holds under a larger one. */
  lemma HoldsExtends(g: Segments, s: Slot, env: Environment, env': Environment)
    requires Holds(g, s, env) && Extends(env, env')
    ensures Holds(g, s, env')
  {
    hide Decode, WordIn, ByteIn;
    assert Instructions(s.emission, s.location, env') == Instructions(s.emission, s.location, env);
  }

  lemma PartialDefine(g: Segments, slots: seq<Slot>, env: Environment, queue: seq<AddressData>, c: Cursor,
                      env': Environment)
    requires Partial(g, slots, env, queue, c) && Extends(env, env')
    ensures Partial(g, slots, env', queue, c)
  {
    hide Holds, Serves, Extends;
    forall i | 0 <= i < |slots|
      ensures Holds(g, slots[i], env') || exists k | 0 <= k < |queue| :: Serves(queue[k], slots[i])
    {
      if Holds(g, slots[i], env) {
        HoldsExtends(g, slots[i], env, env');
      }
    }
  }

  lemma TrackedWithin(slots: seq<Slot>, c: Cursor, i: nat)
    requires Tracked(slots, c) && i < |slots|
    ensures Within(slots[i], c)
  {
  }

  lemma TrackedAppend(slots: seq<Slot>, c: Cursor, e: Emission)
    requires Tracked(slots, c) && Fits(c) && Fits(Grow(c, Size(e))) && (Size(e) == 1 ==> c.segment.DataSegment?)
    ensures Tracked(slots + [Slot(Location(c), e)], Grow(c, Size(e)))
  {
    var s := Slot(Location(c), e);
    var slots', c' := slots + [s], Grow(c, Size(e));
    forall i | 0 <= i < |slots'| ensures Within(slots'[i], c') {
      if i < |slots| {
        assert Within(slots[i], c);
      }
    }
    forall i, j | 0 <= i < j < |slots'| ensures Disjoint(slots'[i], slots'[j]) {
      assert Within(slots[i], c);
      if j < |slots| {
        assert Disjoint(slots[i], slots[j]);
      }
    }
  }

  lemma {:induction false} QueuedAt(slots: seq<Slot>, queue: seq<AddressData>, k: nat) returns (i: nat)
    requires Queued(slots, queue) && k < |queue|
    ensures i < |slots| && Serves(queue[k], slots[i])
  {
    hide Serves;
    var a := queue[k];
    i :| 0 <= i < |slots| && Serves(a, slots[i]);
  }

  lemma {:induction false} StillQueued(g: Segments, slots: seq<Slot>, env: Environment, queue: seq<AddressData>,
                                       i: nat) returns (k: nat)
    requires Settled(g, slots, env, queue, 0) && i < |slots| && !Holds(g, slots[i], env)
    ensures k < |queue| && Serves(queue[k], slots[i])
  {
    hide Serves, Holds;
    var s := slots[i];
    k :| 0 <= k < |queue| && Serves(queue[k], s);
  }

  /** One more emission at the end, final or queued. */
  lemma PartialAppend(g: Segments, slots: seq<Slot>, env: Environment, queue: seq<AddressData>, c: Cursor,
                      e: Emission, chunk: seq<Byte>, more: seq<AddressData>)
    requires Partial(g, slots, env, queue, c) && |chunk| == Size(e) && Fits(Grow(c, Size(e)))
    requires Size(e) == 1 ==> c.segment.DataSegment?
    requires var s := Slot(Location(c), e);
      || (more == [] && Holds(Append(g, c.segment, chunk), s, env))
      || (|more| == 1 && Serves(more[0], s))
    ensures Partial(Append(g, c.segment, chunk), slots + [Slot(Location(c), e)], env, queue + more, Grow(c, Size(e)))
  {
    hide Holds, Serves, Tracked;
    TrackedAppend(slots, c, e);
    var s := Slot(Location(c), e);
    var g', slots', queue', c' := Append(g, c.segment, chunk), slots + [s], queue + more, Grow(c, Size(e));
    forall i | 0 <= i < |slots'|
      ensures Holds(g', slots'[i], env) || exists k | 0 <= k < |queue'| :: Serves(queue'[k], slots'[i])
    {
      if i < |slots| {
        assert Within(slots[i], c) by { TrackedWithin(slots, c, i); }
        if Holds(g, slots[i], env) {
          GrowthAgrees(g, c.segment, chunk, slots[i], c);
          HoldsAgain(g, g', slots[i], env);
        } else {
          var k := StillQueued(g, slots, env, queue, i);
          assert Serves(queue'[k], slots'[i]);
        }
      } else if |more| == 1 {
        assert Serves(queue'[|queue|], s);
      }
    }
    forall k | 0 <= k < |queue'| ensures exists i | 0 <= i < |slots'| :: Serves(queue'[k], slots'[i]) {
      if k < |queue| {
        var i := QueuedAt(slots, queue, k);
        assert Serves(queue'[k], slots'[i]);
      } else {
        assert Serves(queue'[k], slots'[|slots|]);
      }
    }
  }

  /** Filling the front queue entry in place settles its slot and disturbs no other. */
  lemma PatchSettles(g: Segments, g': Segments, slots: seq<Slot>, env: Environment, queue: seq<AddressData>,
                     c: Cursor, from: nat, s: Slot)
    requires Settled(g, slots, env, queue, from) && from < |queue|
    requires Tracked(slots, c) && s in slots && Serves(queue[from], s) && Holds(g', s, env)
    requires forall t | t in slots && Disjoint(s, t) :: Agree(g, g', t)
    ensures Settled(g', slots, env, queue, from + 1)
  {
    hide Holds, Agree;
    var j :| 0 <= j < |slots| && slots[j] == s;
    forall i | 0 <= i < |slots|
      ensures Holds(g', slots[i], env) || exists k | from + 1 <= k < |queue| :: Serves(queue[k], slots[i])
    {
      if i != j {
        assert Disjoint(slots[i], slots[j]);
        assert slots[i].location != s.location;
        if Holds(g, slots[i], env) {
          HoldsAgain(g, g', slots[i], env);
        }
      }
    }
  }
}

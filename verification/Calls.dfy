/** The call protocol by itself: `call`, `enter` and `ret` around arbitrary bodies, nested to any depth the
    stack has room for. */
module Calls {
  import opened Words
  import opened Isa
  import opened Machine
  import opened Assembly
  import opened Execution
  import opened Frames

  /** How a run is made up of activations. */
  datatype Shape =
    | Quiet
    | Then(first: Shape, second: Shape)
    | Activation(target: string, at: Cursor, enter: Cursor, body: Shape, leave: Cursor)

  /** The call stack from an address up is as it was. */
  predicate KeptAbove(m: Memory, m': Memory, a: Word) {
    && |m.stack| == STACK_SIZE == |m'.stack|
    && STACK_OFFSET <= a <= STACK_OFFSET + STACK_SIZE
    && m'.stack[a - STACK_OFFSET..] == m.stack[a - STACK_OFFSET..]
  }

  /** The return address and below it the frame pointer, saved under a stack pointer. */
  function Saved(m: Memory, sp: Word, back: Word, fp: Word): Option<Memory> {
    if sp < 8 then None else
    match WriteWord(m, sp - 4, back)
    case None => None
    case Some(m1) => WriteWord(m1, sp - 8, fp)
  }

  /** After `call` and `enter`: return address and frame pointer saved, a new frame started. */
  function Entering(s: State, back: Word, inside: Word): Option<State> {
    var sp := s.regs[SP];
    match Saved(s.mem, sp, back, s.regs[FP])
    case None => None
    case Some(m) => Some(s.(pc := inside, mem := m, regs := s.regs[RA := back][SP := sp - 8][FP := sp - 8]))
  }

  /** After `ret`: the two words at the frame pointer are back in the registers, the frame is gone. */
  function Leaving(s: State): Option<State> {
    var fp := s.regs[FP];
    if fp > STACK_OFFSET + STACK_SIZE then None else
    match (ReadWord(s.mem, fp), ReadWord(s.mem, fp + 4))
    case (Some(saved), Some(back)) =>
      Some(s.(pc := back, regs := s.regs[SP := fp + 8][FP := saved][RA := back]))
    case _ => None
  }

  /** What code in a frame has to respect: the frame pointer, and the stack from an address up. */
  ghost predicate Respects(w: World, s: State, t: State, a: Word) {
    Arrives(s, t) && Sane(w, t) && t.regs[FP] == s.regs[FP] && KeptAbove(s.mem, t.mem, a)
  }

  /** The call, its callee's `enter`, and the `ret`, where the program has them. */
  predicate Linkage(w: World, r: Shape)
    requires r.Activation?
  {
    && Linked(w, [Call(r.target)], r.at) && r.at.segment.TextSegment?
    && r.target in w.env && w.env[r.target] == r.enter.text && r.enter.text < BRANCH_RANGE
    && Linked(w, [Enter], r.enter) && r.enter.segment.TextSegment?
    && Linked(w, [Ret], r.leave) && r.leave.segment.TextSegment?
  }

  /** Code between calls keeps the frame pointer and what is stacked from there up; it may push and pop
      below, and leave `$sp` anywhere. A call needs room for its frame, below the caller's. */
  ghost predicate Runs(w: World, r: Shape, s: State, t: State)
    decreases r
  {
    match r
    case Quiet => Respects(w, s, t, s.regs[FP])
    case Then(first, second) => exists m :: Runs(w, first, s, m) && Runs(w, second, m, t)
    case Activation(_, at, enter, body, leave) =>
      && Linkage(w, r) && s.pc == at.text && HasRoom(s)
      && exists e, m ::
           && Entering(s, Wrap(at.text + 4), Wrap(enter.text + 20)) == Some(e)
           && Runs(w, body, e, m) && m.pc == leave.text
           && Leaving(m) == Some(t)
  }

  predicate HasRoom(s: State) {
    STACK_OFFSET + 8 <= s.regs[SP] <= s.regs[FP] <= STACK_OFFSET + STACK_SIZE
  }

  lemma {:induction false} KeptAboveTrans(a: Memory, b: Memory, c: Memory, x: Word)
    requires KeptAbove(a, b, x) && KeptAbove(b, c, x)
    ensures KeptAbove(a, c, x)
  {
  }

  lemma {:induction false} KeptHigher(m: Memory, m': Memory, a: Word, b: Word)
    requires KeptAbove(m, m', a) && a <= b <= STACK_OFFSET + STACK_SIZE
    ensures KeptAbove(m, m', b)
  {
    var i, j := a - STACK_OFFSET, b - STACK_OFFSET;
    assert m.stack[j..] == m.stack[i..][j - i..] && m'.stack[j..] == m'.stack[i..][j - i..];
  }

  lemma {:induction false} KeptWord(m: Memory, m': Memory, a: Word, b: Word)
    requires KeptAbove(m, m', a) && a <= b && b + 4 <= STACK_OFFSET + STACK_SIZE
    ensures ReadWord(m', b) == ReadWord(m, b)
  {
    hide WordOf;
    KeptHigher(m, m', a, b);
    var j := b - STACK_OFFSET;
    assert ReadWord(m, b) == Some(WordOf(m.stack[j..j + 4]));
    assert ReadWord(m', b) == Some(WordOf(m'.stack[j..j + 4]));
    assert m.stack[j..j + 4] == m.stack[j..][..4] && m'.stack[j..j + 4] == m'.stack[j..][..4];
  }

  /** The frame's two words go below the caller's stack. */
  lemma {:induction false} FrameKept(code: seq<Instr>, m: Memory, sp: Word, back: Word, fp: Word)
    requires Loaded(code, m) && |m.stack| == STACK_SIZE && |m.global| == GLOBAL_SIZE
    requires STACK_OFFSET + 8 <= sp <= STACK_OFFSET + STACK_SIZE
    ensures Saved(m, sp, back, fp).Some?
    ensures var m2 := Saved(m, sp, back, fp).value;
      && KeptAbove(m, m2, sp) && ReadWord(m2, sp - 8) == Some(fp) && ReadWord(m2, sp - 4) == Some(back)
  {
    hide Loaded, ReadWord, WriteWord;
    StoreScratch(code, m, map[], sp - 4, back);
    var m1 := WriteWord(m, sp - 4, back).value;
    StoreScratch(code, m1, map[], sp - 8, fp);
    var m2 := WriteWord(m1, sp - 8, fp).value;
    WriteThenRead(m1, sp - 8, fp, sp - 4);
    var i := sp - STACK_OFFSET;
    assert m2.stack[i..] == m2.stack[i - 4..][4..] == m1.stack[i - 4..][4..] == m1.stack[i..];
  }

  /** `call` and `enter` get to the state named `Entering`. */
  lemma {:induction false} RunEntering(w: World, r: Shape, s: State) returns (e: State)
    requires r.Activation? && Linkage(w, r) && Sane(w, s) && s.pc == r.at.text
    requires STACK_OFFSET + 8 <= s.regs[SP] <= STACK_OFFSET + STACK_SIZE
    ensures r.at.text + 4 < BRANCH_RANGE && r.enter.text + 20 < BRANCH_RANGE
    ensures Entering(s, Wrap(r.at.text + 4), Wrap(r.enter.text + 20)) == Some(e)
    ensures Arrives(s, e) && Sane(w, e) && KeptAbove(s.mem, e.mem, s.regs[SP])
    ensures e.regs[SP] == e.regs[FP] == s.regs[SP] - 8
    ensures ReadWord(e.mem, s.regs[SP] - 8) == Some(s.regs[FP]) && ReadWord(e.mem, s.regs[SP] - 4) == Some(r.at.text + 4)
  {
    hide Linked, Loaded, Arrives, Reaches, ReadWord, WriteWord, KeptAbove, Saved, LineCode, Emissions, Next;
    var called := RunCall(w, [Call(r.target)], r.at, s, r.target);
    FrameKept(w.code, s.mem, s.regs[SP], r.at.text + 4, s.regs[FP]);
    e := RunEnterState(w, r.enter, called);
    ReachesArrives(w, s, called);
    ArrivesTrans(s, called, e);
  }

  lemma {:induction false} RunEnterState(w: World, c: Cursor, s: State) returns (t: State)
    requires Linked(w, [Enter], c) && AtCursor(w, s, c)
    requires STACK_OFFSET + 8 <= s.regs[SP] <= STACK_OFFSET + STACK_SIZE
    ensures c.text + 20 < BRANCH_RANGE && Arrives(s, t) && Sane(w, t)
    ensures Saved(s.mem, s.regs[SP], s.regs[RA], s.regs[FP]) == Some(t.mem)
    ensures t == s.(regs := s.regs[SP := s.regs[SP] - 8][FP := s.regs[SP] - 8], pc := c.text + 20, mem := t.mem)
  {
    hide Linked, Loaded, Arrives, Reaches, ReadWord, WriteWord;
    t := RunEnter(w, [Enter], c, s);
    ReachesArrives(w, s, t);
  }

  /** `ret` gets to the state named `Leaving`. */
  lemma {:induction false} RunLeaving(w: World, r: Shape, l: State, t: State)
    requires r.Activation? && Linkage(w, r) && Sane(w, l) && l.pc == r.leave.text && Leaving(l) == Some(t)
    ensures Arrives(l, t) && Sane(w, t)
  {
    hide Linked, Loaded, Arrives, Reaches, ReadWord, WriteWord;
    var t' := RunRet(w, [Ret], r.leave, l);
    ReachesArrives(w, l, t');
  }

  /** However calls are nested, and whatever is pushed in front of them, as long as each has room for its
      frame and the code in between keeps its own frame: the machine gets from start to end, `$fp` and
      everything stacked from there up are as they were, and every activation lands behind its call, with
      the caller's `$sp` and all the caller had stacked, and its return address in `$ra`. */
  lemma {:induction false} CallsBalance(w: World, r: Shape, s: State, t: State)
    requires Runs(w, r, s, t) && Sane(w, s) && STACK_OFFSET <= s.regs[FP] <= STACK_OFFSET + STACK_SIZE
    ensures Respects(w, s, t, s.regs[FP])
    ensures r.Activation? ==>
      t.regs[SP] == s.regs[SP] && Respects(w, s, t, s.regs[SP]) && t.pc == t.regs[RA] == r.at.text + 4
    decreases r
  {
    hide Arrives, Sane, KeptAbove, Linkage, Entering, Leaving, Runs;
    match r
    case Quiet =>
      QuietParts(w, s, t);
    case Then(first, second) =>
      var m := ThenParts(w, r, s, t);
      CallsBalance(w, first, s, m);
      CallsBalance(w, second, m, t);
      ArrivesTrans(s, m, t);
      KeptAboveTrans(s.mem, m.mem, t.mem, s.regs[FP]);
    case Activation(_, at, enter, body, leave) =>
      var e, m := ActivationParts(w, r, s, t);
      CallsBalance(w, body, e, m);
      ActivationReturns(w, r, s, e, m, t);
      KeptHigher(s.mem, t.mem, s.regs[SP], s.regs[FP]);
  }

  lemma {:induction false} QuietParts(w: World, s: State, t: State)
    requires Runs(w, Quiet, s, t)
    ensures Respects(w, s, t, s.regs[FP])
  {
    hide Respects;
  }

  lemma {:induction false} ThenParts(w: World, r: Shape, s: State, t: State) returns (m: State)
    requires r.Then? && Runs(w, r, s, t)
    ensures Runs(w, r.first, s, m) && Runs(w, r.second, m, t)
  {
    m :| Runs(w, r.first, s, m) && Runs(w, r.second, m, t);
  }

  /** The states of an activation: entered, and in front of `ret`. */
  lemma {:induction false} ActivationParts(w: World, r: Shape, s: State, t: State) returns (e: State, m: State)
    requires r.Activation? && Runs(w, r, s, t) && Sane(w, s)
    ensures Linkage(w, r) && r.at.text + 4 < BRANCH_RANGE && HasRoom(s)
    ensures Arrives(s, e) && Sane(w, e) && KeptAbove(s.mem, e.mem, s.regs[SP])
    ensures e.regs[SP] == e.regs[FP] == s.regs[SP] - 8
    ensures ReadWord(e.mem, s.regs[SP] - 8) == Some(s.regs[FP]) && ReadWord(e.mem, s.regs[SP] - 4) == Some(r.at.text + 4)
    ensures Runs(w, r.body, e, m) && m.pc == r.leave.text && Leaving(m) == Some(t)
  {
    hide Arrives, Sane, KeptAbove, Respects, Linkage, Entering, Leaving, ReadWord, Wrap;
    Linkages(w, r, s, t);
    hide Runs;
    e := RunEntering(w, r, s);
    m := BodyParts(w, r, s, e, t);
  }

  lemma {:induction false} BodyParts(w: World, r: Shape, s: State, e: State, t: State) returns (m: State)
    requires r.Activation? && Runs(w, r, s, t)
    requires Entering(s, Wrap(r.at.text + 4), Wrap(r.enter.text + 20)) == Some(e)
    ensures Runs(w, r.body, e, m) && m.pc == r.leave.text && Leaving(m) == Some(t)
  {
    hide Respects, Linkage, Entering, Leaving;
    var e';
    e', m :| Entering(s, Wrap(r.at.text + 4), Wrap(r.enter.text + 20)) == Some(e') && Runs(w, r.body, e', m)
      && m.pc == r.leave.text && Leaving(m) == Some(t);
  }

  lemma {:induction false} Linkages(w: World, r: Shape, s: State, t: State)
    requires r.Activation? && Runs(w, r, s, t)
    ensures Linkage(w, r) && s.pc == r.at.text && HasRoom(s)
  {
    hide Respects, Linkage, Entering, Leaving;
  }

  lemma {:induction false} ActivationReturns(w: World, r: Shape, s: State, e: State, m: State, t: State)
    requires r.Activation? && Linkage(w, r) && Sane(w, m) && m.pc == r.leave.text && Leaving(m) == Some(t)
    requires HasRoom(s)
    requires Arrives(s, e) && KeptAbove(s.mem, e.mem, s.regs[SP]) && e.regs[FP] == s.regs[SP] - 8
    requires r.at.text + 4 < BRANCH_RANGE
    requires ReadWord(e.mem, s.regs[SP] - 8) == Some(s.regs[FP]) && ReadWord(e.mem, s.regs[SP] - 4) == Some(r.at.text + 4)
    requires Arrives(e, m) && m.regs[FP] == e.regs[FP] && KeptAbove(e.mem, m.mem, e.regs[FP])
    ensures Respects(w, s, t, s.regs[SP]) && t.regs[SP] == s.regs[SP] && t.pc == t.regs[RA] == r.at.text + 4
  {
    hide Arrives, Sane, KeptAbove, ReadWord, Linked, Linkage;
    var fp := e.regs[FP];
    KeptWord(e.mem, m.mem, fp, fp);
    KeptWord(e.mem, m.mem, fp, fp + 4);
    RunLeaving(w, r, m, t);
    ArrivesTrans(s, e, m);
    ArrivesTrans(s, m, t);
    KeptHigher(e.mem, m.mem, fp, s.regs[SP]);
    KeptAboveTrans(s.mem, e.mem, m.mem, s.regs[SP]);
  }
}

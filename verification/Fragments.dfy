/** Generated lines as fragments of a text segment: they start and end in the text segment, keep
    data directives in the data segment, and can be cut and followed piece by piece. */
module Fragments {
  import opened Words
  import opened Isa
  import opened Names
  import opened Machine
  import opened Assembly
  import opened Execution
  import opened Frames
  import opened CodeGeneration
  import Source

  lemma {:induction false} ProperAppend(a: seq<Line>, b: seq<Line>, c: Cursor)
    ensures Proper(a + b, c) <==> Proper(a, c) && Proper(b, End(a, c))
  {
    hide Next;
    if a == [] {
      assert a + b == b;
    } else {
      assert (a + b)[1..] == a[1..] + b;
      ProperAppend(a[1..], b, Next(a[0], c));
    }
  }

  /** Emissions whose instructions never write `$zero`. */
  predicate PutSpares(e: Emission) {
    match e
    case PutRRR(_, r0, _, _) => r0 != ZERO
    case PutRRL(_, r0, _, _) => r0 != ZERO
    case PutRL(_, r0, _) => r0 != ZERO
    case PutR(op, r0) => op == JR || r0 != ZERO
    case PutRR(op, _, r1) => op != JALR || r1 != ZERO
    case PutAccess(op, r0, _) => op == SW || op == SB || r0 != ZERO
    case PutLoadAddress(r0, _) => r0 != ZERO
    case PutBranch2(op, _, _, _) => op == BEQ || op == BNE
    case _ => true
  }

  predicate Spares(line: Line) {
    forall i | 0 <= i < |Expand(line)| :: PutSpares(Expand(line)[i])
  }

  /** Lines the assembler takes, none of which aligns or writes `$zero`. */
  predicate Acceptable(lines: seq<Line>) {
    forall i | 0 <= i < |lines| ::
      WellFormed(lines[i]) && !lines[i].WordDirective? && !lines[i].AlignDirective? && Spares(lines[i])
  }

  /** Acceptable lines that stay within the text segment wherever they are put. */
  ghost predicate Fragment(lines: seq<Line>) {
    Acceptable(lines)
    && forall c: Cursor | c.segment.TextSegment? :: Proper(lines, c) && End(lines, c).segment.TextSegment?
  }

  lemma FragmentAppend(a: seq<Line>, b: seq<Line>)
    requires Fragment(a) && Fragment(b)
    ensures Fragment(a + b)
  {
    hide WellFormed, Spares;
    forall c: Cursor | c.segment.TextSegment?
      ensures Proper(a + b, c) && End(a + b, c).segment.TextSegment?
    {
      ProperAppend(a, b, c);
      EndAppend(a, b, c);
    }
  }

  predicate Plain(line: Line) {
    !IsDatum(line) && !line.TextDirective? && !line.DataDirective? && WellFormed(line) && Spares(line)
  }

  lemma OperatorForms()
    ensures FormOf(ADD) == FormOf(SNE) == FormOf(AND) == FormOf(SEQ) == FormOf(SLT) == FormOf(OR) == FormRRR
    ensures FormOf(ADDI) == FormRRL
  {
  }

  lemma {:induction false} FragmentPlain(lines: seq<Line>)
    requires forall i | 0 <= i < |lines| :: Plain(lines[i])
    ensures Fragment(lines)
  {
    hide WellFormed, Spares;
    if lines != [] {
      FragmentPlain(lines[1..]);
      forall c: Cursor | c.segment.TextSegment?
        ensures Proper(lines, c) && End(lines, c).segment.TextSegment?
      {
        assert Next(lines[0], c).segment.TextSegment?;
      }
    }
  }

  lemma FragmentDeclare(name: string, kind: Source.Type)
    ensures Fragment(Declare(name, kind))
  {
    forall c: Cursor | c.segment.TextSegment?
      ensures Proper(Declare(name, kind), c) && End(Declare(name, kind), c).segment.TextSegment?
    {
      EndOfDeclare(name, kind, c);
    }
  }

  /** A declaration reserves its bytes in the data segment and nothing else. */
  lemma EndOfDeclare(name: string, kind: Source.Type, c: Cursor)
    requires c.segment.TextSegment?
    ensures Proper(Declare(name, kind), c)
    ensures End(Declare(name, kind), c) == c.(data := c.data + Source.SizeOfType(kind))
  {
    var n := Source.SizeOfType(kind);
    var lines := Declare(name, kind);
    var inData := c.(segment := DataSegment);
    var reserved := inData.(data := c.data + n);
    SpaceReserves(n, inData);
    LabelIsEmpty(name, inData);
    hide Emissions;
    var l1, l2, l3 := lines[1..], lines[2..], lines[3..];
    assert l1[1..] == l2 && l2[1..] == l3 && l3[1..] == [];
    assert Proper(l3, reserved) && End(l3, reserved) == reserved.(segment := TextSegment);
    assert Proper(l2, inData) && End(l2, inData) == End(l3, reserved);
    assert Proper(l1, inData) && End(l1, inData) == End(l2, inData);
  }

  lemma SpaceReserves(n: nat, c: Cursor)
    requires n < 0x8000_0000 && c.segment.DataSegment?
    ensures Next(SpaceDirective(n), c) == c.(data := c.data + n)
  {
    ZerosSize(n);
  }

  lemma {:induction false} FragmentExpr(e: Source.Expr, lval: bool)
    ensures Fragment(GenExpr(e, lval).lines)
  {
    hide Fragment, Declare, Plain, Operate;
    match e
    case Indirection(r) =>
      FragmentExpr(r, lval);
      PlainLeaf(e, lval);
      FragmentPlain(LOAD);
      FragmentAppend(GenExpr(r, lval).lines, LOAD);
    case Comma(first, second) =>
      var c1 := GenExpr(first, lval);
      FragmentExpr(first, lval);
      FragmentExpr(second, c1.lval);
      FragmentAppend(c1.lines, GenExpr(second, c1.lval).lines);
    case Binary(op, lhs, rhs) =>
      var c1 := GenExpr(lhs, lval);
      FragmentExpr(lhs, lval);
      FragmentExpr(rhs, c1.lval);
      PlainOperator(op);
      FragmentOperator(c1.lines, GenExpr(rhs, c1.lval).lines, Operate(op));
    case Assignment(lhs, rhs) =>
      FragmentExpr(lhs, true);
      FragmentExpr(rhs, false);
      PlainLeaf(e, lval);
      FragmentOperator(GenExpr(lhs, true).lines, GenExpr(rhs, false).lines, STORE);
    case Declaration(x, kind) =>
      FragmentDeclare(x, kind);
      PlainLeaf(e, lval);
      FragmentPlain(if lval then [La(T0, x)] else []);
      FragmentAppend(Declare(x, kind), if lval then [La(T0, x)] else []);
    case _ =>
      PlainLeaf(e, lval);
      FragmentPlain(GenExpr(e, lval).lines);
  }

  lemma PlainOperator(op: Source.BinaryOperator)
    ensures forall i | 0 <= i < |Operate(op)| :: Plain(Operate(op)[i])
  {
    hide FormOf;
    OperatorForms();
  }

  lemma PlainAccess()
    ensures Plain(LOAD[0]) && Plain(STORE[0])
  {
    hide FormOf;
  }

  lemma PlainLoads(r: Reg, l: int, x: string)
    requires r != ZERO
    ensures Plain(Li(r, l)) && Plain(La(r, x))
  {
  }

  lemma {:induction false} PlainLeaf(e: Source.Expr, lval: bool)
    ensures forall i | 0 <= i < |LOAD| :: Plain(LOAD[i])
    ensures forall i | 0 <= i < |STORE| :: Plain(STORE[i])
    ensures e.Declaration? ==> Plain(La(T0, e.name))
    ensures e.Literal? || e.Identifier? || e.AddressOf? || e.FunctionCall? ==>
      forall i | 0 <= i < |GenExpr(e, lval).lines| :: Plain(GenExpr(e, lval).lines[i])
  {
    hide Plain;
    PlainAccess();
    match e
    case Literal(v) => PlainLoads(T0, v, "");
    case Identifier(x) => PlainLoads(T0, 0, x);
    case AddressOf(x) => PlainLoads(T0, 0, x);
    case Declaration(x, _) => PlainLoads(T0, 0, x);
    case FunctionCall(f) => PlainJumps(f);
    case _ =>
  }

  lemma FragmentOperator(a: seq<Line>, b: seq<Line>, last: seq<Line>)
    requires Fragment(a) && Fragment(b) && forall i | 0 <= i < |last| :: Plain(last[i])
    ensures Fragment(a + (PUSH + (b + (POP + last))))
  {
    hide Fragment, Plain;
    PlainStack();
    FragmentPlain(POP + last);
    FragmentPlain(PUSH);
    FragmentAppend(b, POP + last);
    FragmentAppend(PUSH, b + (POP + last));
    FragmentAppend(a, PUSH + (b + (POP + last)));
  }

  lemma PlainStack()
    ensures Plain(PUSH[0]) && Plain(PUSH[1]) && Plain(POP[0]) && Plain(POP[1])
  {
    hide FormOf;
    OperatorForms();
  }

  lemma PlainLabel(x: string)
    ensures Plain(Label(x)) && Plain(Call(x))
  {
  }

  lemma PlainBranches(x: string)
    ensures Plain(Beqz(T0, x)) && Plain(B(x)) && Plain(Branch2(BNE, T0, ZERO, x))
  {
    hide FormOf;
  }

  lemma PlainJumps(x: string)
    ensures Plain(Beqz(T0, x)) && Plain(B(x)) && Plain(Branch2(BNE, T0, ZERO, x)) && Plain(Call(x)) && Plain(Label(x))
  {
    hide Plain;
    PlainLabel(x);
    PlainBranches(x);
  }

  lemma PlainMoves(d: Reg, a: Reg)
    requires d != ZERO
    ensures Plain(Copy(d, a)) && Plain(Li(d, 0)) && Plain(Sys)
  {
  }

  /** The lines statements and functions are made of. */
  lemma PlainLines(x: string)
    ensures Plain(Label(x)) && Plain(Beqz(T0, x)) && Plain(B(x)) && Plain(Branch2(BNE, T0, ZERO, x))
    ensures Plain(Call(x)) && Plain(Copy(FP, SP)) && Plain(Copy(A0, T0)) && Plain(Li(V0, 0)) && Plain(Sys)
  {
    hide Plain;
    PlainJumps(x);
    PlainMoves(FP, SP);
    PlainMoves(A0, T0);
    PlainMoves(V0, T0);
  }

  lemma PlainFrame()
    ensures Plain(Enter) && Plain(Ret)
  {
  }

  lemma FragmentOptional(e: Option<Source.Expr>)
    ensures Fragment(RvalueOptional(e))
  {
    hide Fragment;
    match e
    case Some(x) => FragmentExpr(x, false);
    case None => FragmentPlain([]);
  }

  lemma FragmentTail(top: nat, bottom: nat, body: seq<Line>, increment: seq<Line>, test: seq<Line>)
    requires Fragment(body) && Fragment(increment) && Fragment(test)
    ensures Fragment(LoopTail(top, bottom, body, increment, test))
  {
    hide Fragment, UidLabel, Plain;
    PlainLines(UidLabel(top));
    PlainLines(UidLabel(bottom));
    var jump := [Branch2(BNE, T0, ZERO, UidLabel(top))];
    FragmentPlain(jump);
    FragmentAppend(test, jump);
    FragmentAppend(increment, test + jump);
    FragmentPlain([Label(UidLabel(bottom))]);
    FragmentAppend([Label(UidLabel(bottom))], increment + (test + jump));
    FragmentAppend(body, [Label(UidLabel(bottom))] + (increment + (test + jump)));
    FragmentPlain([Label(UidLabel(top))]);
    FragmentAppend([Label(UidLabel(top))], body + ([Label(UidLabel(bottom))] + (increment + (test + jump))));
  }

  lemma {:induction false} FragmentStmt(s: Source.Stmt, uid: nat, entry: bool)
    ensures Fragment(GenStmt(s, uid, entry).lines)
  {
    hide Fragment, UidLabel, GenExpr, LoopTail, Plain;
    PlainLines(UidLabel(uid));
    PlainLines(UidLabel(uid + 1));
    PlainLines(UidLabel(uid + 2));
    PlainFrame();
    match s
    case Empty => FragmentPlain([]);
    case Expression(e) => FragmentExpr(e, false);
    case Return(e) =>
      FragmentExpr(e, false);
      FragmentPlain(Leave(entry));
      FragmentAppend(Rvalue(e), Leave(entry));
    case Compound(first, second) =>
      var c1 := GenStmt(first, uid, entry);
      FragmentStmt(first, uid, entry);
      FragmentStmt(second, c1.uid, entry);
      FragmentAppend(c1.lines, GenStmt(second, c1.uid, entry).lines);
    case IfThen(condition, trueBody) =>
      FragmentStmt(trueBody, uid + 1, entry);
      FragmentIf(condition, uid, GenStmt(trueBody, uid + 1, entry).lines, [Label(UidLabel(uid))]);
    case IfThenElse(condition, trueBody, falseBody) =>
      var g1 := GenStmt(trueBody, uid + 2, entry);
      var c2 := GenStmt(falseBody, g1.uid, entry).lines;
      var mid, last := [B(UidLabel(uid)), Label(UidLabel(uid + 1))], [Label(UidLabel(uid))];
      FragmentStmt(trueBody, uid + 2, entry);
      FragmentStmt(falseBody, g1.uid, entry);
      FragmentPlain(mid);
      FragmentPlain(last);
      FragmentAppend(c2, last);
      FragmentAppend(mid, c2 + last);
      FragmentIf(condition, uid + 1, g1.lines, mid + (c2 + last));
    case While(condition, body) =>
      var c1 := GenStmt(body, uid + 2, entry).lines;
      FragmentExpr(condition, false);
      FragmentStmt(body, uid + 2, entry);
      FragmentPlain([]);
      FragmentTail(uid, uid + 1, c1, [], Rvalue(condition));
      FragmentPlain([B(UidLabel(uid + 1))]);
      FragmentAppend([B(UidLabel(uid + 1))], LoopTail(uid, uid + 1, c1, [], Rvalue(condition)));
    case For(initialize, condition, increment, body) =>
      var c1 := GenStmt(body, uid + 3, entry).lines;
      var tail := LoopTail(uid, uid + 1, c1, RvalueOptional(increment), Rvalue(condition));
      var last := [Label(UidLabel(uid + 2))];
      FragmentOptional(initialize);
      FragmentOptional(increment);
      FragmentExpr(condition, false);
      FragmentStmt(body, uid + 3, entry);
      FragmentTail(uid, uid + 1, c1, RvalueOptional(increment), Rvalue(condition));
      FragmentIf(condition, uid + 2, tail, last);
      FragmentAppend(RvalueOptional(initialize), Rvalue(condition) + ([Beqz(T0, UidLabel(uid + 2))] + (tail + last)));
  }

  /** A test that skips `body`, and what follows it. */
  lemma {:induction false} FragmentIf(condition: Source.Expr, target: nat, body: seq<Line>, rest: seq<Line>)
    requires Fragment(body) && (Fragment(rest) || rest == [Label(UidLabel(target))])
    ensures Fragment(Rvalue(condition) + ([Beqz(T0, UidLabel(target))] + (body + rest)))
  {
    hide Fragment, UidLabel, GenExpr, Plain;
    PlainLines(UidLabel(target));
    var jump := [Beqz(T0, UidLabel(target))];
    FragmentExpr(condition, false);
    FragmentPlain(jump);
    FragmentPlain([Label(UidLabel(target))]);
    FragmentAppend(body, rest);
    FragmentAppend(jump, body + rest);
    FragmentAppend(Rvalue(condition), jump + (body + rest));
  }

  lemma {:induction false} FragmentFunction(name: string, body: Source.Stmt, uid: nat)
    ensures Fragment(GenFunction(name, body, uid).lines)
  {
    hide Fragment, Plain;
    PlainLines(name);
    PlainFrame();
    var entry := name == Source.ENTRY;
    var c := GenStmt(body, uid, entry).lines;
    var first := [if entry then Copy(FP, SP) else Enter];
    FragmentStmt(body, uid, entry);
    FragmentPlain([Ret]);
    FragmentAppend(c, [Ret]);
    FragmentPlain(first);
    FragmentAppend(first, c + [Ret]);
    FragmentPlain([Label(name)]);
    FragmentAppend([Label(name)], first + (c + [Ret]));
  }

  lemma {:induction false} FragmentProgram(ts: seq<TopLevel>, uid: nat)
    ensures Fragment(GenProgram(ts, uid).lines)
  {
    hide Fragment, Declare, GenFunction;
    if ts == [] {
      FragmentPlain([]);
    } else {
      var c := GenTopLevel(ts[0], uid);
      match ts[0] {
        case Global(x, kind) => FragmentDeclare(x, kind);
        case Function(f, body) => FragmentFunction(f, body, uid);
      }
      FragmentProgram(ts[1..], c.uid);
      FragmentAppend(c.lines, GenProgram(ts[1..], c.uid).lines);
    }
  }

  // ----- linked fragments -----

  lemma {:induction false} SizeOfCode(es: seq<Emission>, location: nat, env: Environment)
    requires forall i | 0 <= i < |es| :: IsCode(es[i])
    ensures TotalSize(es) == 4 * |Listing(es, location, env)|
  {
    if es != [] {
      SizeOfCode(es[1..], location + Size(es[0]), env);
    }
  }

  /** Linked lines end inside the code. */
  lemma {:induction false} LinkedInside(w: World, lines: seq<Line>, c: Cursor)
    requires Linked(w, lines, c) && Proper(lines, c)
    requires c.text <= 4 * |w.code|
    ensures End(lines, c).text <= 4 * |w.code|
  {
    if lines != [] {
      var line := lines[0];
      LineInside(w, line, c);
      LinkedInside(w, lines[1..], Next(line, c));
    }
  }

  lemma LabelIsEmpty(name: string, c: Cursor)
    ensures Next(Label(name), c) == c
  {
    assert Emissions(Label(name), c) == [];
  }

  lemma LineInside(w: World, line: Line, c: Cursor)
    requires LineLinked(w, line, c) && (IsDatum(line) ==> c.segment.DataSegment?)
    requires c.text <= 4 * |w.code|
    ensures Next(line, c).text <= 4 * |w.code|
  {
    hide Expand, Instructions;
    if line.Label? {
      LabelIsEmpty(line.name, c);
    } else if c.segment.TextSegment? && Emits(line) {
      SizeOfCode(Expand(line), c.text, w.env);
    }
  }

  /** A cursor in the text of a linked program. */
  predicate Inside(w: World, c: Cursor) {
    c.segment.TextSegment? && c.text <= 4 * |w.code|
  }

  /** Cutting a linked fragment in two. */
  lemma {:induction false} Cut(w: World, a: seq<Line>, b: seq<Line>, c: Cursor) returns (c': Cursor)
    requires Linked(w, a + b, c) && Fragment(a) && Inside(w, c)
    ensures c' == End(a, c) && Inside(w, c')
    ensures Linked(w, a, c) && Linked(w, b, c') && End(a + b, c) == End(b, c')
  {
    hide Next, LineLinked, Linked;
    LinkedAppend(w, a, b, c);
    EndAppend(a, b, c);
    LinkedInside(w, a, c);
    c' := End(a, c);
  }

  lemma LabelHere(w: World, name: string, rest: seq<Line>, c: Cursor)
    requires Linked(w, [Label(name)] + rest, c) && Inside(w, c)
    ensures name in w.env && w.env[name] == c.text
    ensures Linked(w, rest, c) && End([Label(name)] + rest, c) == End(rest, c)
  {
    assert ([Label(name)] + rest)[1..] == rest;
    LabelIsEmpty(name, c);
  }
}

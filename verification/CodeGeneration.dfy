/** The code generator: what `codeGeneration` appends to the assembly file for each kind of node. */
module CodeGeneration {
  import opened Words
  import opened Isa
  import opened Names
  import opened Assembly
  import Source

  /** Lines emitted for an expression, and the `lval` flag left behind. */
  datatype ExprCode = ExprCode(lines: seq<Line>, lval: bool)

  /** Lines emitted for a statement, and the next unused label number. */
  datatype StmtCode = StmtCode(lines: seq<Line>, uid: nat)

  /** `0($r)` and `($r)` are the same operand. */
  function At(r: Reg): Address {
    Address("", 0, r)
  }

  /** Spill `$t0` to the operand stack. */
  const PUSH: seq<Line> := [Access(SW, T0, At(GP)), OpLit(ADDI, GP, GP, 4)]

  /** Take the latest spilled word into `$t1`. */
  const POP: seq<Line> := [OpLit(ADDI, GP, GP, -4), Access(LW, T1, At(GP))]

  function Operate(op: Source.BinaryOperator): seq<Line> {
    match op
    case Add => [Op3(ADD, T0, T1, T0)]
    case Modulus => [Rem(T0, T1, T0)]
    case LogicalAnd => [Op3(SNE, T0, T0, ZERO), Op3(SNE, T1, T1, ZERO), Op3(AND, T0, T1, T0)]
    case Equal => [Op3(SEQ, T0, T1, T0)]
    case LessThanOrEqual => [Op3(SLT, T2, T1, T0), Op3(SEQ, T0, T0, T1), Op3(OR, T0, T0, T2)]
  }

  function Declare(name: string, kind: Source.Type): seq<Line> {
    [DataDirective, Label(name), SpaceDirective(Source.SizeOfType(kind)), TextDirective]
  }

  const LOAD: seq<Line> := [Access(LW, T0, At(T0))]

  const STORE: seq<Line> := [Access(SW, T0, At(T1))]

  /** `lval` is the generator's static flag: while it is set, names yield addresses. Every assignment
      clears it, also one nested in the left-hand side of another. */
  function GenExpr(e: Source.Expr, lval: bool): ExprCode {
    match e
    case Literal(v) => ExprCode([Li(T0, v)], lval)
    case Identifier(x) => ExprCode(if lval then [La(T0, x)] else [La(T0, x)] + LOAD, lval)
    case AddressOf(x) => ExprCode([La(T0, x)], lval)
    case Indirection(r) =>
      var c := GenExpr(r, lval);
      ExprCode(c.lines + LOAD, c.lval)
    case Declaration(x, kind) => ExprCode(Declare(x, kind) + if lval then [La(T0, x)] else [], lval)
    case Comma(first, second) =>
      var c1 := GenExpr(first, lval);
      var c2 := GenExpr(second, c1.lval);
      ExprCode(c1.lines + c2.lines, c2.lval)
    case Binary(op, lhs, rhs) =>
      var c1 := GenExpr(lhs, lval);
      var c2 := GenExpr(rhs, c1.lval);
      ExprCode(c1.lines + (PUSH + (c2.lines + (POP + Operate(op)))), c2.lval)
    case Assignment(lhs, rhs) =>
      var c1 := GenExpr(lhs, true);
      var c2 := GenExpr(rhs, false);
      ExprCode(c1.lines + (PUSH + (c2.lines + (POP + STORE))), c2.lval)
    case FunctionCall(f) => ExprCode([Call(f)], lval)
  }

  /** The flag survives exactly the expressions that assign nothing; in particular it is clear after
      every expression generated with it clear. */
  predicate Assigns(e: Source.Expr) {
    match e
    case Literal(_) | Identifier(_) | AddressOf(_) | Declaration(_, _) | FunctionCall(_) => false
    case Indirection(r) => Assigns(r)
    case Comma(first, second) => Assigns(first) || Assigns(second)
    case Binary(_, lhs, rhs) => Assigns(lhs) || Assigns(rhs)
    case Assignment(_, _) => true
  }

  lemma {:induction false} LvalAfter(e: Source.Expr, lval: bool)
    ensures GenExpr(e, lval).lval <==> lval && !Assigns(e)
  {
    match e
    case Indirection(r) => LvalAfter(r, lval);
    case Comma(first, second) => LvalAfter(first, lval); LvalAfter(second, GenExpr(first, lval).lval);
    case Binary(_, lhs, rhs) => LvalAfter(lhs, lval); LvalAfter(rhs, GenExpr(lhs, lval).lval);
    case Assignment(lhs, rhs) => LvalAfter(rhs, false);
    case _ =>
  }

  function Rvalue(e: Source.Expr): seq<Line> {
    GenExpr(e, false).lines
  }

  function RvalueOptional(e: Option<Source.Expr>): seq<Line> {
    match e
    case Some(x) => Rvalue(x)
    case None => []
  }

  /** `return` from the entry function exits with the value; elsewhere it returns to the caller. */
  function Leave(entry: bool): seq<Line> {
    if entry then [Copy(A0, T0), Li(V0, 0), Sys] else [Ret]
  }

  /** The rest of a loop from the label in front of its body: body, increment, test, jump back. */
  function LoopTail(top: nat, bottom: nat, body: seq<Line>, increment: seq<Line>, test: seq<Line>): seq<Line> {
    [Label(UidLabel(top))] + (body + ([Label(UidLabel(bottom))] + (increment + (test
    + [Branch2(BNE, T0, ZERO, UidLabel(top))]))))
  }

  function GenStmt(s: Source.Stmt, uid: nat, entry: bool): StmtCode {
    match s
    case Empty => StmtCode([], uid)
    case Expression(e) => StmtCode(Rvalue(e), uid)
    case Return(e) => StmtCode(Rvalue(e) + Leave(entry), uid)
    case Compound(first, second) =>
      var c1 := GenStmt(first, uid, entry);
      var c2 := GenStmt(second, c1.uid, entry);
      StmtCode(c1.lines + c2.lines, c2.uid)
    case IfThenElse(condition, trueBody, falseBody) =>
      var endLabel, elseLabel := UidLabel(uid), UidLabel(uid + 1);
      var c1 := GenStmt(trueBody, uid + 2, entry);
      var c2 := GenStmt(falseBody, c1.uid, entry);
      StmtCode(Rvalue(condition) + ([Beqz(T0, elseLabel)] + (c1.lines + ([B(endLabel), Label(elseLabel)]
        + (c2.lines + [Label(endLabel)])))), c2.uid)
    case IfThen(condition, trueBody) =>
      var endLabel := UidLabel(uid);
      var c1 := GenStmt(trueBody, uid + 1, entry);
      StmtCode(Rvalue(condition) + ([Beqz(T0, endLabel)] + (c1.lines + [Label(endLabel)])), c1.uid)
    case While(condition, body) =>
      var c1 := GenStmt(body, uid + 2, entry);
      StmtCode([B(UidLabel(uid + 1))] + LoopTail(uid, uid + 1, c1.lines, [], Rvalue(condition)), c1.uid)
    case For(initialize, condition, increment, body) =>
      var endLabel := UidLabel(uid + 2);
      var c1 := GenStmt(body, uid + 3, entry);
      StmtCode(RvalueOptional(initialize) + (Rvalue(condition) + ([Beqz(T0, endLabel)]
        + (LoopTail(uid, uid + 1, c1.lines, RvalueOptional(increment), Rvalue(condition))
        + [Label(endLabel)]))), c1.uid)
  }

  /** A function without parameters. */
  function GenFunction(name: string, body: Source.Stmt, uid: nat): StmtCode {
    var entry := name == Source.ENTRY;
    var c := GenStmt(body, uid, entry);
    StmtCode([Label(name)] + ([if entry then Copy(FP, SP) else Enter] + (c.lines + [Ret])), c.uid)
  }

  datatype TopLevel =
    | Global(name: string, kind: Source.Type)
    | Function(name: string, body: Source.Stmt)

  function GenTopLevel(t: TopLevel, uid: nat): StmtCode {
    match t
    case Global(x, kind) => StmtCode(Declare(x, kind), uid)
    case Function(f, body) => GenFunction(f, body, uid)
  }

  function GenProgram(ts: seq<TopLevel>, uid: nat): StmtCode {
    if ts == [] then StmtCode([], uid)
    else
      var c := GenTopLevel(ts[0], uid);
      var rest := GenProgram(ts[1..], c.uid);
      StmtCode(c.lines + rest.lines, rest.uid)
  }
}

/** The code generator as it runs: one pass over the tree that appends lines to the assembly file and
    keeps a label counter and the `lval` flag. */
module Compiling {
  import opened Words
  import opened Isa
  import opened Names
  import opened Assembly
  import opened CodeGeneration
  import Source

  class Compiler {
    var asmFile: seq<Line>
    var uid: nat
    var lval: bool

    constructor ()
      ensures asmFile == [] && uid == 0 && !lval
    {
      asmFile, uid, lval := [], 0, false;
    }

    method WriteLine(line: Line)
      modifies this`asmFile
      ensures asmFile == old(asmFile) + [line]
    {
      asmFile := asmFile + [line];
    }

    /** A fresh label number. */
    method NextUid() returns (n: nat)
      modifies this`uid
      ensures n == old(uid) && uid == n + 1
    {
      n := uid;
      uid := uid + 1;
    }

    method PushOperand()
      modifies this`asmFile
      ensures asmFile == old(asmFile) + PUSH
    {
      WriteLine(Access(SW, T0, At(GP)));
      WriteLine(OpLit(ADDI, GP, GP, 4));
    }

    method PopOperand()
      modifies this`asmFile
      ensures asmFile == old(asmFile) + POP
    {
      WriteLine(OpLit(ADDI, GP, GP, -4));
      WriteLine(Access(LW, T1, At(GP)));
    }

    /** The last instructions of a binary operator, from `$t1` and `$t0`. */
    method WriteOperator(op: Source.BinaryOperator)
      modifies this`asmFile
      ensures asmFile == old(asmFile) + Operate(op)
    {
      match op {
        case Add => WriteLine(Op3(ADD, T0, T1, T0));
        case Modulus => WriteLine(Rem(T0, T1, T0));
        case LogicalAnd =>
          WriteLine(Op3(SNE, T0, T0, ZERO));
          WriteLine(Op3(SNE, T1, T1, ZERO));
          WriteLine(Op3(AND, T0, T1, T0));
        case Equal => WriteLine(Op3(SEQ, T0, T1, T0));
        case LessThanOrEqual =>
          WriteLine(Op3(SLT, T2, T1, T0));
          WriteLine(Op3(SEQ, T0, T0, T1));
          WriteLine(Op3(OR, T0, T0, T2));
      }
    }

    method GenerateExpression(e: Source.Expr)
      modifies this`asmFile, this`lval
      ensures asmFile == old(asmFile) + GenExpr(e, old(lval)).lines && lval == GenExpr(e, old(lval)).lval
      decreases e, 1
    {
      hide Operate, Declare;
      match e {
        case Indirection(r) =>
          ghost var c := GenExpr(r, lval);
          GenerateExpression(r);
          WriteLine(Access(LW, T0, At(T0)));
          Group(old(asmFile), c.lines, LOAD);
        case Comma(first, second) =>
          ghost var c1 := GenExpr(first, lval);
          GenerateExpression(first);
          GenerateExpression(second);
          Group(old(asmFile), c1.lines, GenExpr(second, c1.lval).lines);
        case Binary(_, _, _) =>
          GenerateBinary(e);
        case Assignment(_, _) =>
          GenerateAssignment(e);
        case _ =>
          GenerateLeaf(e);
      }
    }

    method GenerateLeaf(e: Source.Expr)
      requires e.Literal? || e.Identifier? || e.AddressOf? || e.Declaration? || e.FunctionCall?
      modifies this`asmFile
      ensures asmFile == old(asmFile) + GenExpr(e, lval).lines && GenExpr(e, lval).lval == lval
    {
      match e {
        case Literal(v) =>
          WriteLine(Li(T0, v));
        case Identifier(x) =>
          WriteLine(La(T0, x));
          if !lval {
            WriteLine(Access(LW, T0, At(T0)));
          }
        case AddressOf(x) =>
          WriteLine(La(T0, x));
        case Declaration(x, kind) =>
          GenerateDeclaration(x, kind);
        case FunctionCall(f) =>
          WriteLine(Call(f));
      }
    }

    method GenerateDeclaration(x: string, kind: Source.Type)
      modifies this`asmFile
      ensures asmFile == old(asmFile) + GenExpr(Source.Declaration(x, kind), lval).lines
    {
      WriteLine(DataDirective);
      WriteLine(Label(x));
      WriteLine(SpaceDirective(Source.SizeOfType(kind)));
      WriteLine(TextDirective);
      if lval {
        WriteLine(La(T0, x));
      }
    }

    method GenerateBinary(e: Source.Expr)
      requires e.Binary?
      modifies this`asmFile, this`lval
      ensures asmFile == old(asmFile) + GenExpr(e, old(lval)).lines && lval == GenExpr(e, old(lval)).lval
      decreases e, 0
    {
      hide Operate;
      ghost var c1 := GenExpr(e.lhs, lval);
      ghost var c2 := GenExpr(e.rhs, c1.lval);
      GenerateExpression(e.lhs);
      PushOperand();
      GenerateExpression(e.rhs);
      PopOperand();
      WriteOperator(e.op);
      Regroup(old(asmFile), c1.lines, PUSH, c2.lines, POP + Operate(e.op));
      Group(old(asmFile) + c1.lines + PUSH + c2.lines, POP, Operate(e.op));
    }

    method GenerateAssignment(e: Source.Expr)
      requires e.Assignment?
      modifies this`asmFile, this`lval
      ensures asmFile == old(asmFile) + GenExpr(e, old(lval)).lines && lval == GenExpr(e, old(lval)).lval
      decreases e, 0
    {
      ghost var c1, c2 := GenExpr(e.lhs, true).lines, GenExpr(e.rhs, false).lines;
      lval := true;
      GenerateExpression(e.lhs);
      lval := false;
      PushOperand();
      GenerateExpression(e.rhs);
      PopOperand();
      WriteLine(Access(SW, T0, At(T1)));
      Regroup(old(asmFile), c1, PUSH, c2, POP + STORE);
      Group(old(asmFile) + c1 + PUSH + c2, POP, STORE);
    }

    method GenerateOptional(e: Option<Source.Expr>)
      requires !lval
      modifies this`asmFile, this`lval
      ensures asmFile == old(asmFile) + RvalueOptional(e) && !lval
    {
      if e.Some? {
        LvalAfter(e.value, false);
        GenerateExpression(e.value);
      }
    }

    method GenerateRvalue(e: Source.Expr)
      requires !lval
      modifies this`asmFile, this`lval
      ensures asmFile == old(asmFile) + Rvalue(e) && !lval
    {
      LvalAfter(e, false);
      GenerateExpression(e);
    }

    method GenerateStatement(s: Source.Stmt, entry: bool)
      requires !lval
      modifies this
      ensures asmFile == old(asmFile) + GenStmt(s, old(uid), entry).lines
      ensures uid == GenStmt(s, old(uid), entry).uid && !lval
      decreases s, 1
    {
      hide GenExpr, UidLabel, LoopTail;
      match s {
        case Empty =>
        case Expression(e) =>
          GenerateRvalue(e);
        case Return(e) =>
          GenerateRvalue(e);
          WriteLeave(entry);
        case Compound(first, second) =>
          GenerateStatement(first, entry);
          GenerateStatement(second, entry);
        case IfThenElse(_, _, _) =>
          GenerateIfThenElse(s, entry);
        case IfThen(_, _) =>
          GenerateIfThen(s, entry);
        case While(_, _) =>
          GenerateWhile(s, entry);
        case For(_, _, _, _) =>
          GenerateFor(s, entry);
      }
    }

    method WriteLeave(entry: bool)
      modifies this`asmFile
      ensures asmFile == old(asmFile) + Leave(entry)
    {
      if entry {
        WriteLine(Copy(A0, T0));
        WriteLine(Li(V0, 0));
        WriteLine(Sys);
      } else {
        WriteLine(Ret);
      }
    }

    method GenerateIfThenElse(s: Source.Stmt, entry: bool)
      requires s.IfThenElse? && !lval
      modifies this
      ensures asmFile == old(asmFile) + GenStmt(s, old(uid), entry).lines
      ensures uid == GenStmt(s, old(uid), entry).uid && !lval
      decreases s, 0
    {
      hide GenExpr, UidLabel;
      ghost var c1 := GenStmt(s.trueBody, uid + 2, entry);
      ghost var c2 := GenStmt(s.falseBody, c1.uid, entry);
      var endLabel := NextUid();
      var elseLabel := NextUid();
      GenerateRvalue(s.condition);
      WriteLine(Beqz(T0, UidLabel(elseLabel)));
      GenerateStatement(s.trueBody, entry);
      WriteLine(B(UidLabel(endLabel)));
      WriteLine(Label(UidLabel(elseLabel)));
      ghost var before := old(asmFile) + Rvalue(s.condition) + [Beqz(T0, UidLabel(elseLabel))] + c1.lines;
      ghost var middle := [B(UidLabel(endLabel)), Label(UidLabel(elseLabel))];
      assert asmFile == before + middle;
      GenerateStatement(s.falseBody, entry);
      WriteLine(Label(UidLabel(endLabel)));
      Group(before + middle, c2.lines, [Label(UidLabel(endLabel))]);
      Group(before, middle, c2.lines + [Label(UidLabel(endLabel))]);
      Regroup(old(asmFile), Rvalue(s.condition), [Beqz(T0, UidLabel(elseLabel))], c1.lines,
              middle + (c2.lines + [Label(UidLabel(endLabel))]));
    }

    method GenerateIfThen(s: Source.Stmt, entry: bool)
      requires s.IfThen? && !lval
      modifies this
      ensures asmFile == old(asmFile) + GenStmt(s, old(uid), entry).lines
      ensures uid == GenStmt(s, old(uid), entry).uid && !lval
      decreases s, 0
    {
      hide GenExpr, UidLabel;
      ghost var c1 := GenStmt(s.trueBody, uid + 1, entry);
      var endLabel := NextUid();
      GenerateRvalue(s.condition);
      WriteLine(Beqz(T0, UidLabel(endLabel)));
      GenerateStatement(s.trueBody, entry);
      WriteLine(Label(UidLabel(endLabel)));
      Regroup(old(asmFile), Rvalue(s.condition), [Beqz(T0, UidLabel(endLabel))], c1.lines, [Label(UidLabel(endLabel))]);
    }

    method GenerateWhile(s: Source.Stmt, entry: bool)
      requires s.While? && !lval
      modifies this
      ensures asmFile == old(asmFile) + GenStmt(s, old(uid), entry).lines
      ensures uid == GenStmt(s, old(uid), entry).uid && !lval
      decreases s, 0
    {
      hide GenExpr, UidLabel, LoopTail;
      ghost var c1 := GenStmt(s.body, uid + 2, entry).lines;
      var topLabel := NextUid();
      var bottomLabel := NextUid();
      WriteLine(B(UidLabel(bottomLabel)));
      ghost var before := asmFile;
      WriteLine(Label(UidLabel(topLabel)));
      GenerateStatement(s.body, entry);
      WriteLine(Label(UidLabel(bottomLabel)));
      GenerateRvalue(s.condition);
      WriteLine(Branch2(BNE, T0, ZERO, UidLabel(topLabel)));
      GroupTail(before, topLabel, bottomLabel, c1, [], Rvalue(s.condition));
      Group(old(asmFile), [B(UidLabel(bottomLabel))], LoopTail(topLabel, bottomLabel, c1, [], Rvalue(s.condition)));
    }

    /** The condition is generated twice. */
    method GenerateFor(s: Source.Stmt, entry: bool)
      requires s.For? && !lval
      modifies this
      ensures asmFile == old(asmFile) + GenStmt(s, old(uid), entry).lines
      ensures uid == GenStmt(s, old(uid), entry).uid && !lval
      decreases s, 0
    {
      hide GenExpr, UidLabel, LoopTail;
      ghost var c1 := GenStmt(s.body, uid + 3, entry).lines;
      var topLabel := NextUid();
      var bottomLabel := NextUid();
      var endLabel := NextUid();
      GenerateOptional(s.initialize);
      GenerateRvalue(s.condition);
      WriteLine(Beqz(T0, UidLabel(endLabel)));
      ghost var before := asmFile;
      WriteLine(Label(UidLabel(topLabel)));
      GenerateStatement(s.body, entry);
      WriteLine(Label(UidLabel(bottomLabel)));
      GenerateOptional(s.increment);
      GenerateRvalue(s.condition);
      WriteLine(Branch2(BNE, T0, ZERO, UidLabel(topLabel)));
      ghost var tail := LoopTail(topLabel, bottomLabel, c1, RvalueOptional(s.increment), Rvalue(s.condition));
      GroupTail(before, topLabel, bottomLabel, c1, RvalueOptional(s.increment), Rvalue(s.condition));
      WriteLine(Label(UidLabel(endLabel)));
      Regroup(old(asmFile) + RvalueOptional(s.initialize), Rvalue(s.condition), [Beqz(T0, UidLabel(endLabel))], tail,
              [Label(UidLabel(endLabel))]);
      Group(old(asmFile), RvalueOptional(s.initialize),
            Rvalue(s.condition) + ([Beqz(T0, UidLabel(endLabel))] + (tail + [Label(UidLabel(endLabel))])));
    }

    method GenerateTopLevel(t: TopLevel)
      requires !lval
      modifies this
      ensures asmFile == old(asmFile) + GenTopLevel(t, old(uid)).lines
      ensures uid == GenTopLevel(t, old(uid)).uid && !lval
    {
      hide GenStmt;
      ghost var start := asmFile;
      match t {
        case Global(x, kind) =>
          GenerateExpression(Source.Declaration(x, kind));
        case Function(f, body) =>
          var entry := f == Source.ENTRY;
          WriteLine(Label(f));
          if entry {
            WriteLine(Copy(FP, SP));
          } else {
            WriteLine(Enter);
          }
          GenerateStatement(body, entry);
          WriteLine(Ret);
      }
    }

    /** The whole tree, in order. */
    method CodeGeneration(ts: seq<TopLevel>)
      requires !lval
      modifies this
      ensures asmFile == old(asmFile) + GenProgram(ts, old(uid)).lines
      ensures uid == GenProgram(ts, old(uid)).uid && !lval
    {
      hide GenTopLevel;
      if ts != [] {
        GenerateTopLevel(ts[0]);
        CodeGeneration(ts[1..]);
      }
    }
  }

  lemma Group(s: seq<Line>, a: seq<Line>, b: seq<Line>)
    ensures s + a + b == s + (a + b)
  {
  }

  lemma Regroup(s: seq<Line>, a: seq<Line>, b: seq<Line>, c: seq<Line>, d: seq<Line>)
    ensures s + a + b + c + d == s + (a + (b + (c + d)))
  {
    Group(s + a + b, c, d);
    Group(s + a, b, c + d);
    Group(s, a, b + (c + d));
  }

  lemma GroupTail(s: seq<Line>, top: nat, bottom: nat, body: seq<Line>, increment: seq<Line>, test: seq<Line>)
    ensures s + [Label(UidLabel(top))] + body + [Label(UidLabel(bottom))] + increment + test
        + [Branch2(BNE, T0, ZERO, UidLabel(top))]
      == s + LoopTail(top, bottom, body, increment, test)
  {
    var jump := [Branch2(BNE, T0, ZERO, UidLabel(top))];
    hide UidLabel;
    var first := [Label(UidLabel(top))];
    var second := [Label(UidLabel(bottom))];
    Regroup(s + first + body, second, increment, test, jump);
    Regroup(s, first, body, second, increment + (test + jump));
    Group(s + first + body, second, increment + (test + jump));
  }
}

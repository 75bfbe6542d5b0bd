/** Where declared variables live: each four-byte declaration owns a word of the data segment, zero at
    the start, that no other variable touches. */
module Declarations {
  import opened Words
  import Isa
  import Names
  import opened Machine
  import opened Assembly
  import opened Execution
  import opened Fragments
  import opened Linking
  import opened CodeGeneration
  import Source

  // ----- the names a program declares -----

  function DeclaredInExpr(e: Source.Expr): set<string> {
    match e
    case Declaration(x, kind) => if Source.SizeOfType(kind) == 4 then {x} else {}
    case Indirection(r) => DeclaredInExpr(r)
    case Comma(first, second) => DeclaredInExpr(first) + DeclaredInExpr(second)
    case Binary(_, lhs, rhs) => DeclaredInExpr(lhs) + DeclaredInExpr(rhs)
    case Assignment(lhs, rhs) => DeclaredInExpr(lhs) + DeclaredInExpr(rhs)
    case _ => {}
  }

  function DeclaredInOptional(e: Option<Source.Expr>): set<string> {
    match e
    case Some(x) => DeclaredInExpr(x)
    case None => {}
  }

  function DeclaredInStmt(s: Source.Stmt): set<string> {
    match s
    case Empty => {}
    case Expression(e) => DeclaredInExpr(e)
    case Return(e) => DeclaredInExpr(e)
    case Compound(first, second) => DeclaredInStmt(first) + DeclaredInStmt(second)
    case IfThen(condition, trueBody) => DeclaredInExpr(condition) + DeclaredInStmt(trueBody)
    case IfThenElse(condition, trueBody, falseBody) =>
      DeclaredInExpr(condition) + DeclaredInStmt(trueBody) + DeclaredInStmt(falseBody)
    case While(condition, body) => DeclaredInExpr(condition) + DeclaredInStmt(body)
    case For(initialize, condition, increment, body) =>
      DeclaredInOptional(initialize) + DeclaredInExpr(condition) + DeclaredInOptional(increment) + DeclaredInStmt(body)
  }

  function DeclaredInProgram(ts: seq<TopLevel>): set<string> {
    if ts == [] then {}
    else
      (match ts[0]
       case Global(x, kind) => if Source.SizeOfType(kind) == 4 then {x} else {}
       case Function(_, body) => DeclaredInStmt(body))
      + DeclaredInProgram(ts[1..])
  }

  // ----- the generated lines declare them -----

  predicate DeclaresAt(lines: seq<Line>, x: string, i: nat) {
    && i + 4 <= |lines|
    && lines[i] == DataDirective && lines[i + 1] == Label(x)
    && lines[i + 2] == SpaceDirective(4) && lines[i + 3] == TextDirective
  }

  ghost predicate Declares(lines: seq<Line>, x: string) {
    exists i: nat :: DeclaresAt(lines, x, i)
  }

  lemma DeclaresLeft(a: seq<Line>, b: seq<Line>, x: string)
    requires Declares(a, x)
    ensures Declares(a + b, x)
  {
    var i: nat :| DeclaresAt(a, x, i);
    assert DeclaresAt(a + b, x, i);
  }

  lemma DeclaresRight(a: seq<Line>, b: seq<Line>, x: string)
    requires Declares(b, x)
    ensures Declares(a + b, x)
  {
    var i: nat :| DeclaresAt(b, x, i);
    assert DeclaresAt(a + b, x, |a| + i);
  }

  lemma DeclaresEither(a: seq<Line>, b: seq<Line>, x: string)
    requires Declares(a, x) || Declares(b, x)
    ensures Declares(a + b, x)
  {
    hide Declares;
    if Declares(a, x) {
      DeclaresLeft(a, b, x);
    } else {
      DeclaresRight(a, b, x);
    }
  }

  lemma DeclareDeclares(x: string, kind: Source.Type)
    requires Source.SizeOfType(kind) == 4
    ensures Declares(Declare(x, kind), x)
  {
    assert DeclaresAt(Declare(x, kind), x, 0);
  }

  lemma DeclaresAround(a: seq<Line>, b: seq<Line>, last: seq<Line>, x: string)
    requires Declares(a, x) || Declares(b, x)
    ensures Declares(a + (PUSH + (b + (POP + last))), x)
  {
    hide Declares;
    if Declares(a, x) {
      DeclaresLeft(a, PUSH + (b + (POP + last)), x);
    } else {
      DeclaresLeft(b, POP + last, x);
      DeclaresRight(PUSH, b + (POP + last), x);
      DeclaresRight(a, PUSH + (b + (POP + last)), x);
    }
  }

  lemma {:induction false} ExprDeclares(e: Source.Expr, lval: bool, x: string)
    requires x in DeclaredInExpr(e)
    ensures Declares(GenExpr(e, lval).lines, x)
  {
    hide Declares, Declare;
    match e
    case Declaration(name, kind) =>
      DeclareDeclares(name, kind);
      DeclaresLeft(Declare(name, kind), if lval then [La(Isa.T0, name)] else [], x);
    case Indirection(r) =>
      ExprDeclares(r, lval, x);
      DeclaresLeft(GenExpr(r, lval).lines, LOAD, x);
    case Comma(first, second) =>
      var c1 := GenExpr(first, lval);
      if x in DeclaredInExpr(first) {
        ExprDeclares(first, lval, x);
      } else {
        ExprDeclares(second, c1.lval, x);
      }
      DeclaresEither(c1.lines, GenExpr(second, c1.lval).lines, x);
    case Binary(op, lhs, rhs) =>
      var c1 := GenExpr(lhs, lval);
      if x in DeclaredInExpr(lhs) {
        ExprDeclares(lhs, lval, x);
      } else {
        ExprDeclares(rhs, c1.lval, x);
      }
      DeclaresAround(c1.lines, GenExpr(rhs, c1.lval).lines, Operate(op), x);
    case Assignment(lhs, rhs) =>
      if x in DeclaredInExpr(lhs) {
        ExprDeclares(lhs, true, x);
      } else {
        ExprDeclares(rhs, false, x);
      }
      DeclaresAround(GenExpr(lhs, true).lines, GenExpr(rhs, false).lines, STORE, x);
  }

  lemma OptionalDeclares(e: Option<Source.Expr>, x: string)
    requires x in DeclaredInOptional(e)
    ensures Declares(RvalueOptional(e), x)
  {
    ExprDeclares(e.value, false, x);
  }

  lemma TailDeclares(top: nat, bottom: nat, body: seq<Line>, increment: seq<Line>, test: seq<Line>, x: string)
    requires Declares(body, x) || Declares(increment, x) || Declares(test, x)
    ensures Declares(LoopTail(top, bottom, body, increment, test), x)
  {
    hide Declares;
    var jump := [Branch2(Isa.BNE, Isa.T0, Isa.ZERO, Names.UidLabel(top))];
    var l1, l2 := [Label(Names.UidLabel(top))], [Label(Names.UidLabel(bottom))];
    if Declares(body, x) {
    } else {
      if !Declares(increment, x) {
        DeclaresLeft(test, jump, x);
      }
      DeclaresEither(increment, test + jump, x);
      DeclaresRight(l2, increment + (test + jump), x);
    }
    DeclaresEither(body, l2 + (increment + (test + jump)), x);
    DeclaresRight(l1, body + (l2 + (increment + (test + jump))), x);
  }

  lemma {:induction false} StmtDeclares(s: Source.Stmt, uid: nat, entry: bool, x: string)
    requires x in DeclaredInStmt(s)
    ensures Declares(GenStmt(s, uid, entry).lines, x)
  {
    hide Declares, LoopTail, GenExpr, DeclaredInExpr;
    match s
    case Expression(e) => ExprDeclares(e, false, x);
    case Return(e) =>
      ExprDeclares(e, false, x);
      DeclaresLeft(Rvalue(e), Leave(entry), x);
    case Compound(first, second) =>
      var g1 := GenStmt(first, uid, entry);
      if x in DeclaredInStmt(first) {
        StmtDeclares(first, uid, entry, x);
      } else {
        StmtDeclares(second, g1.uid, entry, x);
      }
      DeclaresEither(g1.lines, GenStmt(second, g1.uid, entry).lines, x);
    case IfThen(condition, trueBody) =>
      var c1 := GenStmt(trueBody, uid + 1, entry).lines;
      var jump, last := [Beqz(Isa.T0, Names.UidLabel(uid))], [Label(Names.UidLabel(uid))];
      if x in DeclaredInExpr(condition) {
        ExprDeclares(condition, false, x);
      } else {
        StmtDeclares(trueBody, uid + 1, entry, x);
        DeclaresLeft(c1, last, x);
        DeclaresRight(jump, c1 + last, x);
      }
      DeclaresEither(Rvalue(condition), jump + (c1 + last), x);
    case IfThenElse(condition, trueBody, falseBody) =>
      var g1 := GenStmt(trueBody, uid + 2, entry);
      var c1, c2 := g1.lines, GenStmt(falseBody, g1.uid, entry).lines;
      var jump, last := [Beqz(Isa.T0, Names.UidLabel(uid + 1))], [Label(Names.UidLabel(uid))];
      var mid := [B(Names.UidLabel(uid)), Label(Names.UidLabel(uid + 1))];
      if x in DeclaredInExpr(condition) {
        ExprDeclares(condition, false, x);
      } else {
        if x in DeclaredInStmt(trueBody) {
          StmtDeclares(trueBody, uid + 2, entry, x);
        } else {
          StmtDeclares(falseBody, g1.uid, entry, x);
          DeclaresLeft(c2, last, x);
          DeclaresRight(mid, c2 + last, x);
        }
        DeclaresEither(c1, mid + (c2 + last), x);
        DeclaresRight(jump, c1 + (mid + (c2 + last)), x);
      }
      DeclaresEither(Rvalue(condition), jump + (c1 + (mid + (c2 + last))), x);
    case While(condition, body) =>
      var c1 := GenStmt(body, uid + 2, entry).lines;
      if x in DeclaredInExpr(condition) {
        ExprDeclares(condition, false, x);
      } else {
        StmtDeclares(body, uid + 2, entry, x);
      }
      TailDeclares(uid, uid + 1, c1, [], Rvalue(condition), x);
      DeclaresRight([B(Names.UidLabel(uid + 1))], LoopTail(uid, uid + 1, c1, [], Rvalue(condition)), x);
    case For(initialize, condition, increment, body) =>
      var c1 := GenStmt(body, uid + 3, entry).lines;
      var tail := LoopTail(uid, uid + 1, c1, RvalueOptional(increment), Rvalue(condition));
      var jump, last := [Beqz(Isa.T0, Names.UidLabel(uid + 2))], [Label(Names.UidLabel(uid + 2))];
      if x in DeclaredInOptional(initialize) {
        OptionalDeclares(initialize, x);
      } else {
        if x in DeclaredInExpr(condition) {
          ExprDeclares(condition, false, x);
        } else {
          if x in DeclaredInOptional(increment) {
            OptionalDeclares(increment, x);
          } else {
            StmtDeclares(body, uid + 3, entry, x);
          }
          TailDeclares(uid, uid + 1, c1, RvalueOptional(increment), Rvalue(condition), x);
          DeclaresLeft(tail, last, x);
          DeclaresRight(jump, tail + last, x);
        }
        DeclaresEither(Rvalue(condition), jump + (tail + last), x);
      }
      DeclaresEither(RvalueOptional(initialize), Rvalue(condition) + (jump + (tail + last)), x);
  }

  lemma {:induction false} ProgramDeclares(ts: seq<TopLevel>, uid: nat, x: string)
    requires x in DeclaredInProgram(ts)
    ensures Declares(GenProgram(ts, uid).lines, x)
  {
    hide Declares, Declare, GenStmt;
    var c := GenTopLevel(ts[0], uid);
    match ts[0] {
      case Global(name, kind) =>
        if x == name && Source.SizeOfType(kind) == 4 {
          DeclareDeclares(name, kind);
        } else {
          ProgramDeclares(ts[1..], c.uid, x);
        }
      case Function(f, body) =>
        if x in DeclaredInStmt(body) {
          var entry := f == Source.ENTRY;
          var code := GenStmt(body, uid, entry).lines;
          var first := [if entry then Copy(Isa.FP, Isa.SP) else Enter];
          StmtDeclares(body, uid, entry, x);
          DeclaresLeft(code, [Ret], x);
          DeclaresRight(first, code + [Ret], x);
          DeclaresRight([Label(f)], first + (code + [Ret]), x);
        } else {
          ProgramDeclares(ts[1..], c.uid, x);
        }
    }
    DeclaresEither(c.lines, GenProgram(ts[1..], c.uid).lines, x);
  }

  // ----- their places -----

  lemma {:induction false} SlotsAppend(a: seq<Line>, b: seq<Line>, c: Cursor)
    ensures Slots(a + b, c) == Slots(a, c) + Slots(b, End(a, c))
  {
    hide Next, Emissions;
    if a == [] {
      assert a + b == b;
    } else {
      assert (a + b)[1..] == a[1..] + b;
      SlotsAppend(a[1..], b, Next(a[0], c));
    }
  }

  /** The data cursor in front of a declaration. */
  function DataBefore(lines: seq<Line>, i: nat): nat
    requires i <= |lines|
  {
    End(lines[..i], ORIGIN).data
  }

  /** A declaration moves the data cursor by its four bytes, its label is there, and they are zero. */
  lemma Place(w: World, g: Segments, lines: seq<Line>, x: string, i: nat)
    requires DeclaresAt(lines, x, i) && Linked(w, lines, ORIGIN)
    requires forall s | s in Slots(lines, ORIGIN) :: Holds(g, s, w.env)
    ensures x in w.env && w.env[x] == DATA_SEGMENT_OFFSET + DataBefore(lines, i)
    ensures WordIn(g, w.env[x]) == Some(0)
    ensures DataBefore(lines, i + 4) == DataBefore(lines, i) + 4 <= End(lines, ORIGIN).data
  {
    hide Emissions, Next, Linked, Slots, End, Holds, WordIn, LineLinked;
    var c := End(lines[..i], ORIGIN);
    var decl, rest := lines[i..i + 4], lines[i + 4..];
    assert lines == lines[..i] + (decl + rest) && lines[..i + 4] == lines[..i] + decl;
    LinkedAppend(w, lines[..i], decl + rest, ORIGIN);
    LinkedAppend(w, decl, rest, c);
    SlotsAppend(lines[..i], decl + rest, ORIGIN);
    SlotsAppend(decl, rest, c);
    EndAppend(lines[..i], decl, ORIGIN);
    EndAppend(lines[..i], decl + rest, ORIGIN);
    EndAppend(decl, rest, c);
    EndGrows(rest, End(decl, c));
    DeclarationHere(w, g, x, decl, c);
  }

  lemma {:induction false} DeclarationHere(w: World, g: Segments, x: string, decl: seq<Line>, c: Cursor)
    requires decl == [DataDirective, Label(x), SpaceDirective(4), TextDirective] && Linked(w, decl, c)
    requires forall s | s in Slots(decl, c) :: Holds(g, s, w.env)
    ensures x in w.env && w.env[x] == DATA_SEGMENT_OFFSET + c.data && WordIn(g, w.env[x]) == Some(0)
    ensures End(decl, c).data == c.data + 4
  {
    hide WordIn;
    var inData := c.(segment := DataSegment);
    var l1, l2, l3 := decl[1..], decl[2..], decl[3..];
    assert l1[1..] == l2 && l2[1..] == l3 && l3[1..] == [];
    LabelIsEmpty(x, inData);
    ZerosSize(4);
    assert Next(decl[0], c) == inData;
    assert Next(l2[0], inData) == inData.(data := c.data + 4);
    assert End(l2, inData) == End(l3, inData.(data := c.data + 4));
    assert End(l3, inData.(data := c.data + 4)).data == c.data + 4;
    assert Emissions(decl[0], c) == [] == Emissions(l1[0], inData);
    assert Slots(decl, c) == Slots(l1, inData) && Slots(l1, inData) == Slots(l2, inData);
    ZeroWord(g, DATA_SEGMENT_OFFSET + c.data, w.env, l2, inData);
  }

  lemma {:induction false} ZeroWord(g: Segments, location: nat, env: Environment, lines: seq<Line>, c: Cursor)
    requires lines != [] && lines[0] == SpaceDirective(4) && c.segment.DataSegment? && location == Location(c)
    requires forall s | s in Slots(lines, c) :: Holds(g, s, env)
    ensures WordIn(g, location) == Some(0)
  {
    ZeroByte(g, lines, c, env, 0);
    ZeroByte(g, lines, c, env, 1);
    ZeroByte(g, lines, c, env, 2);
    ZeroByte(g, lines, c, env, 3);
    var i := location - DATA_SEGMENT_OFFSET;
    assert g.data[i..i + 4] == [0, 0, 0, 0];
  }

  lemma {:induction false} ZeroByte(g: Segments, lines: seq<Line>, c: Cursor, env: Environment, k: nat)
    requires lines != [] && lines[0] == SpaceDirective(4) && c.segment.DataSegment? && k < 4
    requires forall s | s in Slots(lines, c) :: Holds(g, s, env)
    ensures ByteIn(g, Location(c) + k) == Some(0)
  {
    var s := ZeroSlot(lines, c, k);
    assert Holds(g, s, env);
  }

  lemma {:induction false} ZeroSlot(lines: seq<Line>, c: Cursor, k: nat) returns (s: Slot)
    requires lines != [] && lines[0] == SpaceDirective(4) && c.segment.DataSegment? && k < 4
    ensures s == Slot(Location(c) + k, PutByte(0)) && s in Slots(lines, c)
  {
    var es := Zeros(4);
    s := Arranged(es, Location(c), k);
    assert es[..k] == Zeros(k);
    ZerosSize(k);
    hide Arrange, TotalSize, Next;
    assert Emissions(lines[0], c) == es;
  }

  /** Different variables own different words. */
  lemma Apart(lines: seq<Line>, x: string, i: nat, y: string, j: nat)
    requires DeclaresAt(lines, x, i) && DeclaresAt(lines, y, j) && x != y && i < j
    ensures i + 4 <= j && DataBefore(lines, i + 4) <= DataBefore(lines, j)
  {
    assert lines[j] == DataDirective;
    assert lines[..j] == lines[..i + 4] + lines[i + 4..j];
    EndAppend(lines[..i + 4], lines[i + 4..j], ORIGIN);
    EndGrows(lines[i + 4..j], End(lines[..i + 4], ORIGIN));
  }

  /** A declaration reserves four bytes or one, by its type, and leaves the text segment current. */
  lemma {:induction false} DeclarationReserves(x: string, kind: Source.Type, c: Cursor)
    requires c.segment.TextSegment?
    ensures End(Declare(x, kind), c) == c.(data := c.data + match kind
        case U32 | S32 => 4
        case U8 | S8 => 1
        case VOID | TYPE => 0)
  {
    hide Emissions;
    var lines, n := Declare(x, kind), Source.SizeOfType(kind);
    var inData := c.(segment := DataSegment);
    LabelIsEmpty(x, inData);
    SpaceMoves(n, inData);
    var after := inData.(data := inData.data + n);
    var l1, l2, l3 := lines[1..], lines[2..], lines[3..];
    assert l1[1..] == l2 && l2[1..] == l3 && l3[1..] == [];
    assert End(lines, c) == End(l1, inData) && End(l1, inData) == End(l2, inData);
    assert End(l2, inData) == End(l3, after);
    assert End(l3, after) == End([], after.(segment := TextSegment));
  }

  lemma SpaceMoves(n: nat, c: Cursor)
    requires n <= 4 && c.segment.DataSegment?
    ensures Next(SpaceDirective(n), c) == c.(data := c.data + n)
  {
    ZerosSize(n);
  }
}

/** What the source language's reference meaning is like: operators by what characterises them, loops by their
    unrolling, and the two loops by each other. */
module SourceLaws {
  import opened Words
  import opened Source

  // ----- operators -----

  /** `<=` is a total order with zero least, `+` wraps around, `&&` and `==` give truth values. */
  lemma OperatorLaws(x: Word, y: Word)
    ensures Apply(LessThanOrEqual, 0, x) == Some(1)
    ensures Apply(LessThanOrEqual, x, y) == Some(1) || Apply(LessThanOrEqual, y, x) == Some(1)
    ensures Apply(LessThanOrEqual, x, y) == Some(1) && Apply(LessThanOrEqual, y, x) == Some(1) ==> x == y
    ensures Apply(Equal, x, y) == if x == y then Some(1) else Some(0)
    ensures Apply(LogicalAnd, x, y) == if x == 0 || y == 0 then Some(0) else Some(1)
    ensures (Apply(Add, x, y).value as int - x as int - y as int) % 0x1_0000_0000 == 0 && Apply(Add, 0, x) == Some(x)
  {
  }

  /** `%` leaves less than the divisor, and a multiple of it is gone; by zero it is undefined. */
  lemma RemainderLaws(x: Word, y: Word)
    ensures Apply(Modulus, x, y).Some? <==> y != 0
    ensures y != 0 ==>
      Apply(Modulus, x, y).value < y && x / y * y + Apply(Modulus, x, y).value == x
  {
  }

  // ----- statements -----

  /** A branch is taken exactly when its condition is not zero. */
  lemma {:induction false} Branches(p: Program, v: Word, s: Stmt, t: Stmt, st: Store, fuel: nat, room: Room)
    ensures Exec(p, IfThen(Literal(v), s), st, fuel, room) == if v == 0 then Normal(st) else Exec(p, s, st, fuel, room)
    ensures Exec(p, IfThenElse(Literal(v), s, t), st, fuel, room) == Exec(p, if v == 0 then t else s, st, fuel, room)
  {
  }

  /** An assignment is the value assigned, and the variable holds it afterwards. */
  lemma {:induction false} Assigns(p: Program, x: string, v: Word, st: Store, fuel: nat, room: Room)
    requires x in p.variables && p.variables[x] in st && room.spills > 0
    ensures var d := Eval(p, Assignment(Identifier(x), Literal(v)), st, fuel, room);
      && d == Some(Done(Some(v), st[p.variables[x] := v]))
      && Eval(p, Identifier(x), d.value.store, fuel, room) == Some(Done(Some(v), d.value.store))
      && Eval(p, Indirection(AddressOf(x)), d.value.store, fuel, room) == Some(Done(Some(v), d.value.store))
  {
  }

  /** Of a sequence of expressions the last counts, and a sequence of statements stops at a `return`. */
  lemma {:induction false} Sequences(p: Program, v: Word, w: Word, s: Stmt, st: Store, fuel: nat, room: Room)
    ensures Eval(p, Comma(Literal(v), Literal(w)), st, fuel, room) == Some(Done(Some(w), st))
    ensures Exec(p, Compound(Return(Literal(v)), s), st, fuel, room) == Returned(v, st)
    ensures Exec(p, Compound(Empty, s), st, fuel, room) == Exec(p, s, st, fuel, room)
  {
  }

  // ----- loops -----

  /** `while (c) s` is `if (c) { s while (c) s }`, for one turn's fuel more. */
  lemma {:induction false} WhileUnrolls(p: Program, c: Expr, s: Stmt, st: Store, fuel: nat, room: Room)
    requires !StarvesIn(p, While(c, s), st, fuel, room)
    ensures Exec(p, While(c, s), st, fuel + 1, room)
      == Exec(p, IfThen(c, Compound(s, While(c, s))), st, fuel + 1, room)
  {
    var loop := While(c, s);
    assert !StarvesFromTest(p, loop, st, fuel, room);
    MoreFuel(p, c, st, fuel, room);
    var d := Eval(p, c, st, fuel, room);
    if d.Some? && d.value.value.Some? && d.value.value.value != 0 {
      OneTurn(p, c, s, d.value.store, fuel, room);
      assert Loop(p, loop, st, fuel + 1, room) == Turn(p, loop, d.value.store, fuel + 1, room);
    }
  }

  lemma {:induction false} OneTurn(p: Program, c: Expr, s: Stmt, st: Store, fuel: nat, room: Room)
    requires !StarvesFromBody(p, While(c, s), st, fuel, room)
    ensures Turn(p, While(c, s), st, fuel + 1, room) == Exec(p, Compound(s, While(c, s)), st, fuel + 1, room)
  {
    var loop := While(c, s);
    MoreFuelIn(p, s, st, fuel, room);
    var o := Exec(p, s, st, fuel, room);
    if o.Normal? {
      MoreFuelLoop(p, loop, o.store, fuel - 1, room);
      MoreFuelLoop(p, loop, o.store, fuel, room);
      assert Exec(p, loop, o.store, fuel + 1, room) == Loop(p, loop, o.store, fuel + 1, room);
      assert Turn(p, loop, st, fuel + 1, room) == Loop(p, loop, o.store, fuel, room);
    }
  }

  function Increment(e: Option<Expr>): Stmt {
    match e
    case Some(x) => Expression(x)
    case None => Empty
  }

  lemma {:induction false} IncrementIs(p: Program, e: Option<Expr>, st: Store, fuel: nat, room: Room)
    ensures Exec(p, Increment(e), st, fuel, room)
      == match EvalOptional(p, e, st, fuel, room) case Some(st1) => Normal(st1) case None => Undefined
  {
  }

  /** `for (i; c; n) s` is `i; while (c) { s n; }`. */
  lemma {:induction false} ForIsWhile(p: Program, i: Option<Expr>, c: Expr, n: Option<Expr>, s: Stmt, st: Store,
                                      fuel: nat, room: Room)
    ensures Exec(p, For(i, c, n, s), st, fuel, room)
      == Exec(p, Compound(Increment(i), While(c, Compound(s, Increment(n)))), st, fuel, room)
  {
    IncrementIs(p, i, st, fuel, room);
    var loop, first := While(c, Compound(s, Increment(n))), Exec(p, Increment(i), st, fuel, room);
    assert Exec(p, Compound(Increment(i), loop), st, fuel, room)
      == if first.Normal? then Loop(p, loop, first.store, fuel, room) else first by {
      if first.Normal? {
        assert Exec(p, loop, first.store, fuel, room) == Loop(p, loop, first.store, fuel, room);
      }
    }
    if EvalOptional(p, i, st, fuel, room).Some? {
      SameLoops(p, i, c, n, s, EvalOptional(p, i, st, fuel, room).value, fuel, room);
    }
  }

  lemma {:induction false} SameLoops(p: Program, i: Option<Expr>, c: Expr, n: Option<Expr>, s: Stmt, st: Store,
                                     fuel: nat, room: Room)
    ensures Loop(p, For(i, c, n, s), st, fuel, room)
      == Loop(p, While(c, Compound(s, Increment(n))), st, fuel, room)
    decreases fuel, 1
  {
    var f, w := For(i, c, n, s), While(c, Compound(s, Increment(n)));
    var d := Eval(p, c, st, fuel, room);
    if d.Some? && d.value.value.Some? && d.value.value.value != 0 {
      SameTurns(p, i, c, n, s, d.value.store, fuel, room);
      assert Loop(p, f, st, fuel, room) == Turn(p, f, d.value.store, fuel, room);
      assert Loop(p, w, st, fuel, room) == Turn(p, w, d.value.store, fuel, room);
    }
  }

  lemma {:induction false} SameTurns(p: Program, i: Option<Expr>, c: Expr, n: Option<Expr>, s: Stmt, st: Store,
                                     fuel: nat, room: Room)
    ensures Turn(p, For(i, c, n, s), st, fuel, room)
      == Turn(p, While(c, Compound(s, Increment(n))), st, fuel, room)
    decreases fuel, 0
  {
    var f, w := For(i, c, n, s), While(c, Compound(s, Increment(n)));
    var o := Exec(p, s, st, fuel, room);
    var body := Exec(p, Compound(s, Increment(n)), st, fuel, room);
    assert body == if o.Normal? then Exec(p, Increment(n), o.store, fuel, room) else o;
    if o.Normal? {
      IncrementIs(p, n, o.store, fuel, room);
      var e := EvalOptional(p, n, o.store, fuel, room);
      if e.Some? && fuel > 0 {
        SameLoops(p, i, c, n, s, e.value, fuel - 1, room);
        assert Turn(p, f, st, fuel, room) == Loop(p, f, e.value, fuel - 1, room);
        assert Turn(p, w, st, fuel, room) == Loop(p, w, e.value, fuel - 1, room);
      }
    }
  }
}

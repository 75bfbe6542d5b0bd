/** The source language: its syntax as the grammar builds it, and its meaning. */
module Source {
  import opened Words

  datatype Type = VOID | TYPE | U8 | U32 | S8 | S32

  function SizeOfType(t: Type): nat {
    match t
    case U8 | S8 => 1
    case U32 | S32 => 4
    case VOID | TYPE => 0
  }

  datatype BinaryOperator = Add | Modulus | LogicalAnd | Equal | LessThanOrEqual

  datatype Expr =
    | Literal(value: Word)
    | Identifier(name: string)
    | Binary(op: BinaryOperator, lhs: Expr, rhs: Expr)
    | Assignment(lhs: Expr, rhs: Expr)
    | AddressOf(name: string)
    | Indirection(rhs: Expr)
    | Declaration(name: string, kind: Type)
    | Comma(first: Expr, second: Expr)
    | FunctionCall(name: string)

  datatype Stmt =
    | Empty
    | Expression(e: Expr)
    | Return(e: Expr)
    | Compound(first: Stmt, second: Stmt)
    | IfThen(condition: Expr, trueBody: Stmt)
    | IfThenElse(condition: Expr, trueBody: Stmt, falseBody: Stmt)
    | While(condition: Expr, body: Stmt)
    | For(initialize: Option<Expr>, condition: Expr, increment: Option<Expr>, body: Stmt)

  const ENTRY := "entry"

  // ----- meaning -----

  /** What a run refers to: the bodies of the callable functions, and where each variable lives. */
  datatype Program = Program(functions: map<string, Stmt>, variables: map<string, Word>)

  /** The value of every variable, by address, so that pointers are ordinary values. */
  type Store = map<Word, Word>

  /** What a run may still use: words of operand stack and frames of call stack. */
  datatype Room = Room(spills: nat, frames: nat)

  /** A finished evaluation; a declaration, or a call that falls off its end, has no value. */
  datatype Done = Done(value: Option<Word>, store: Store)

  datatype Outcome = Normal(store: Store) | Returned(value: Word, store: Store) | Undefined

  function Truth(b: bool): Word {
    if b then 1 else 0
  }

  /** `&&` has both operands evaluated; `<=` compares unsigned. */
  function Apply(op: BinaryOperator, x: Word, y: Word): Option<Word> {
    match op
    case Add => Some(Wrap(x + y))
    case Modulus => if y == 0 then None else Some(x % y)
    case LogicalAnd => Some(Truth(x != 0 && y != 0))
    case Equal => Some(Truth(x == y))
    case LessThanOrEqual => Some(Truth(x <= y))
  }

  /** The address an assignable expression denotes: a variable, a declaration, or a chain of
      indirections from one. */
  function Locate(p: Program, e: Expr, st: Store): Option<Word> {
    match e
    case Identifier(x) => if x in p.variables then Some(p.variables[x]) else None
    case Declaration(x, _) => if x in p.variables then Some(p.variables[x]) else None
    case Indirection(r) =>
      (match Locate(p, r, st)
       case Some(a) => if a in st then Some(st[a]) else None
       case None => None)
    case _ => None
  }

  /** `None` when the run is not defined, needs more than `room`, or does not end within `fuel`
      calls and loop turns. */
  function Eval(p: Program, e: Expr, st: Store, fuel: nat, room: Room): Option<Done>
    decreases fuel, e
  {
    match e
    case Literal(v) => Some(Done(Some(v), st))
    case Identifier(x) =>
      if x in p.variables && p.variables[x] in st then Some(Done(Some(st[p.variables[x]]), st)) else None
    case AddressOf(x) => if x in p.variables then Some(Done(Some(p.variables[x]), st)) else None
    case Declaration(_, _) => Some(Done(None, st))
    case Indirection(r) =>
      (match Eval(p, r, st, fuel, room)
       case Some(Done(Some(a), st1)) => if a in st1 then Some(Done(Some(st1[a]), st1)) else None
       case _ => None)
    case Comma(first, second) =>
      (match Eval(p, first, st, fuel, room)
       case Some(Done(_, st1)) => Eval(p, second, st1, fuel, room)
       case None => None)
    case Binary(op, lhs, rhs) =>
      (match Eval(p, lhs, st, fuel, room)
       case Some(Done(Some(x), st1)) =>
         if room.spills == 0 then None else
         (match Eval(p, rhs, st1, fuel, room.(spills := room.spills - 1))
          case Some(Done(Some(y), st2)) =>
            (match Apply(op, x, y)
             case Some(v) => Some(Done(Some(v), st2))
             case None => None)
          case _ => None)
       case _ => None)
    case Assignment(lhs, rhs) =>
      (match Locate(p, lhs, st)
       case Some(a) =>
         if room.spills == 0 then None else
         (match Eval(p, rhs, st, fuel, room.(spills := room.spills - 1))
          case Some(Done(Some(v), st1)) => if a in st1 then Some(Done(Some(v), st1[a := v])) else None
          case _ => None)
       case None => None)
    case FunctionCall(f) =>
      if f !in p.functions || fuel == 0 || room.frames == 0 then None else
      (match Exec(p, p.functions[f], st, fuel - 1, room.(frames := room.frames - 1))
       case Returned(v, st1) => Some(Done(Some(v), st1))
       case Normal(st1) => Some(Done(None, st1))
       case Undefined => None)
  }

  function EvalOptional(p: Program, e: Option<Expr>, st: Store, fuel: nat, room: Room): Option<Store>
    decreases fuel, e, 1
  {
    match e
    case None => Some(st)
    case Some(x) =>
      (match Eval(p, x, st, fuel, room)
       case Some(Done(_, st1)) => Some(st1)
       case None => None)
  }

  function Exec(p: Program, s: Stmt, st: Store, fuel: nat, room: Room): Outcome
    decreases fuel, s, 2
  {
    match s
    case Empty => Normal(st)
    case Expression(e) =>
      (match Eval(p, e, st, fuel, room)
       case Some(Done(_, st1)) => Normal(st1)
       case None => Undefined)
    case Return(e) =>
      (match Eval(p, e, st, fuel, room)
       case Some(Done(Some(v), st1)) => Returned(v, st1)
       case _ => Undefined)
    case Compound(first, second) =>
      (match Exec(p, first, st, fuel, room)
       case Normal(st1) => Exec(p, second, st1, fuel, room)
       case other => other)
    case IfThen(condition, trueBody) =>
      (match Eval(p, condition, st, fuel, room)
       case Some(Done(Some(v), st1)) => if v != 0 then Exec(p, trueBody, st1, fuel, room) else Normal(st1)
       case _ => Undefined)
    case IfThenElse(condition, trueBody, falseBody) =>
      (match Eval(p, condition, st, fuel, room)
       case Some(Done(Some(v), st1)) => Exec(p, if v != 0 then trueBody else falseBody, st1, fuel, room)
       case _ => Undefined)
    case While(_, _) => Loop(p, s, st, fuel, room)
    case For(initialize, _, _, _) =>
      (match EvalOptional(p, initialize, st, fuel, room)
       case Some(st1) => Loop(p, s, st1, fuel, room)
       case None => Undefined)
  }

  /** A loop from its test on. */
  function Loop(p: Program, s: Stmt, st: Store, fuel: nat, room: Room): Outcome
    requires s.While? || s.For?
    decreases fuel, s, 1
  {
    match Eval(p, s.condition, st, fuel, room)
    case Some(Done(Some(v), st1)) => if v != 0 then Turn(p, s, st1, fuel, room) else Normal(st1)
    case _ => Undefined
  }

  /** A loop from the start of its body, the test having succeeded. */
  function Turn(p: Program, s: Stmt, st: Store, fuel: nat, room: Room): Outcome
    requires s.While? || s.For?
    decreases fuel, s, 0
  {
    match Exec(p, s.body, st, fuel, room)
    case Normal(st1) =>
      (match if s.For? then EvalOptional(p, s.increment, st1, fuel, room) else Some(st1)
       case Some(st2) => if fuel == 0 then Undefined else Loop(p, s, st2, fuel - 1, room)
       case None => Undefined)
    case other => other
  }

  // ----- runs that do not end -----

  /** The evaluation runs out of calls and loop turns before anything undefined happens. */
  predicate Starves(p: Program, e: Expr, st: Store, fuel: nat, room: Room)
    decreases fuel, e
  {
    match e
    case Indirection(r) => Starves(p, r, st, fuel, room)
    case Comma(first, second) =>
      Starves(p, first, st, fuel, room)
      || (match Eval(p, first, st, fuel, room)
          case Some(Done(_, st1)) => Starves(p, second, st1, fuel, room)
          case None => false)
    case Binary(_, lhs, rhs) =>
      Starves(p, lhs, st, fuel, room)
      || (match Eval(p, lhs, st, fuel, room)
          case Some(Done(Some(_), st1)) =>
            room.spills > 0 && Starves(p, rhs, st1, fuel, room.(spills := room.spills - 1))
          case _ => false)
    case Assignment(lhs, rhs) =>
      Locate(p, lhs, st).Some? && room.spills > 0 && Starves(p, rhs, st, fuel, room.(spills := room.spills - 1))
    case FunctionCall(f) =>
      f in p.functions && room.frames > 0
      && (fuel == 0 || StarvesIn(p, p.functions[f], st, fuel - 1, room.(frames := room.frames - 1)))
    case _ => false
  }

  predicate StarvesOptional(p: Program, e: Option<Expr>, st: Store, fuel: nat, room: Room)
    decreases fuel, e, 1
  {
    e.Some? && Starves(p, e.value, st, fuel, room)
  }

  predicate StarvesIn(p: Program, s: Stmt, st: Store, fuel: nat, room: Room)
    decreases fuel, s, 2
  {
    match s
    case Empty => false
    case Expression(e) => Starves(p, e, st, fuel, room)
    case Return(e) => Starves(p, e, st, fuel, room)
    case Compound(first, second) =>
      StarvesIn(p, first, st, fuel, room)
      || (match Exec(p, first, st, fuel, room)
          case Normal(st1) => StarvesIn(p, second, st1, fuel, room)
          case _ => false)
    case IfThen(condition, trueBody) =>
      Starves(p, condition, st, fuel, room)
      || (match Eval(p, condition, st, fuel, room)
          case Some(Done(Some(v), st1)) => v != 0 && StarvesIn(p, trueBody, st1, fuel, room)
          case _ => false)
    case IfThenElse(condition, trueBody, falseBody) =>
      Starves(p, condition, st, fuel, room)
      || (match Eval(p, condition, st, fuel, room)
          case Some(Done(Some(v), st1)) => StarvesIn(p, if v != 0 then trueBody else falseBody, st1, fuel, room)
          case _ => false)
    case While(_, _) => StarvesFromTest(p, s, st, fuel, room)
    case For(initialize, _, _, _) =>
      StarvesOptional(p, initialize, st, fuel, room)
      || (match EvalOptional(p, initialize, st, fuel, room)
          case Some(st1) => StarvesFromTest(p, s, st1, fuel, room)
          case None => false)
  }

  predicate StarvesFromTest(p: Program, s: Stmt, st: Store, fuel: nat, room: Room)
    requires s.While? || s.For?
    decreases fuel, s, 1
  {
    || Starves(p, s.condition, st, fuel, room)
    || (match Eval(p, s.condition, st, fuel, room)
        case Some(Done(Some(v), st1)) => v != 0 && StarvesFromBody(p, s, st1, fuel, room)
        case _ => false)
  }

  predicate StarvesFromBody(p: Program, s: Stmt, st: Store, fuel: nat, room: Room)
    requires s.While? || s.For?
    decreases fuel, s, 0
  {
    || StarvesIn(p, s.body, st, fuel, room)
    || (match Exec(p, s.body, st, fuel, room)
        case Normal(st1) =>
          (s.For? && StarvesOptional(p, s.increment, st1, fuel, room))
          || (match if s.For? then EvalOptional(p, s.increment, st1, fuel, room) else Some(st1)
              case Some(st2) => fuel == 0 || StarvesFromTest(p, s, st2, fuel - 1, room)
              case None => false)
        case _ => false)
  }

  /** Running out of fuel is no outcome. */
  lemma {:induction false} StarvedHasNoValue(p: Program, e: Expr, st: Store, fuel: nat, room: Room)
    requires Starves(p, e, st, fuel, room)
    ensures Eval(p, e, st, fuel, room) == None
    decreases fuel, e
  {
    match e
    case Indirection(r) => StarvedHasNoValue(p, r, st, fuel, room);
    case Comma(first, second) =>
      if Starves(p, first, st, fuel, room) {
        StarvedHasNoValue(p, first, st, fuel, room);
      } else {
        StarvedHasNoValue(p, second, Eval(p, first, st, fuel, room).value.store, fuel, room);
      }
    case Binary(_, lhs, rhs) =>
      if Starves(p, lhs, st, fuel, room) {
        StarvedHasNoValue(p, lhs, st, fuel, room);
      } else {
        var st1 := Eval(p, lhs, st, fuel, room).value.store;
        StarvedHasNoValue(p, rhs, st1, fuel, room.(spills := room.spills - 1));
      }
    case Assignment(_, rhs) => StarvedHasNoValue(p, rhs, st, fuel, room.(spills := room.spills - 1));
    case FunctionCall(f) =>
      if fuel > 0 {
        StarvedHasNoOutcome(p, p.functions[f], st, fuel - 1, room.(frames := room.frames - 1));
      }
  }

  lemma {:induction false} StarvedHasNoOutcome(p: Program, s: Stmt, st: Store, fuel: nat, room: Room)
    requires StarvesIn(p, s, st, fuel, room)
    ensures Exec(p, s, st, fuel, room) == Undefined
    decreases fuel, s, 2
  {
    match s
    case Expression(e) => StarvedHasNoValue(p, e, st, fuel, room);
    case Return(e) => StarvedHasNoValue(p, e, st, fuel, room);
    case Compound(first, second) =>
      if StarvesIn(p, first, st, fuel, room) {
        StarvedHasNoOutcome(p, first, st, fuel, room);
      } else {
        StarvedHasNoOutcome(p, second, Exec(p, first, st, fuel, room).store, fuel, room);
      }
    case IfThen(condition, trueBody) =>
      if Starves(p, condition, st, fuel, room) {
        StarvedHasNoValue(p, condition, st, fuel, room);
      } else {
        StarvedHasNoOutcome(p, trueBody, Eval(p, condition, st, fuel, room).value.store, fuel, room);
      }
    case IfThenElse(condition, trueBody, falseBody) =>
      if Starves(p, condition, st, fuel, room) {
        StarvedHasNoValue(p, condition, st, fuel, room);
      } else {
        var d := Eval(p, condition, st, fuel, room).value;
        StarvedHasNoOutcome(p, if d.value.value != 0 then trueBody else falseBody, d.store, fuel, room);
      }
    case While(_, _) => StarvedLoop(p, s, st, fuel, room);
    case For(initialize, _, _, _) =>
      if StarvesOptional(p, initialize, st, fuel, room) {
        StarvedHasNoValue(p, initialize.value, st, fuel, room);
      } else {
        StarvedLoop(p, s, EvalOptional(p, initialize, st, fuel, room).value, fuel, room);
      }
  }

  lemma {:induction false} StarvedLoop(p: Program, s: Stmt, st: Store, fuel: nat, room: Room)
    requires (s.While? || s.For?) && StarvesFromTest(p, s, st, fuel, room)
    ensures Loop(p, s, st, fuel, room) == Undefined
    decreases fuel, s, 1
  {
    if Starves(p, s.condition, st, fuel, room) {
      StarvedHasNoValue(p, s.condition, st, fuel, room);
    } else {
      StarvedTurn(p, s, Eval(p, s.condition, st, fuel, room).value.store, fuel, room);
    }
  }

  lemma {:induction false} StarvedTurn(p: Program, s: Stmt, st: Store, fuel: nat, room: Room)
    requires (s.While? || s.For?) && StarvesFromBody(p, s, st, fuel, room)
    ensures Turn(p, s, st, fuel, room) == Undefined
    decreases fuel, s, 0
  {
    if StarvesIn(p, s.body, st, fuel, room) {
      StarvedHasNoOutcome(p, s.body, st, fuel, room);
    } else {
      var st1 := Exec(p, s.body, st, fuel, room).store;
      if s.For? && StarvesOptional(p, s.increment, st1, fuel, room) {
        StarvedHasNoValue(p, s.increment.value, st1, fuel, room);
      } else if fuel > 0 {
        var st2 := if s.For? then EvalOptional(p, s.increment, st1, fuel, room).value else st1;
        StarvedLoop(p, s, st2, fuel - 1, room);
      }
    }
  }

  /** What does not run out of fuel has its outcome, or is undefined, with more of it just the same. */
  lemma {:induction false} MoreFuel(p: Program, e: Expr, st: Store, fuel: nat, room: Room)
    requires !Starves(p, e, st, fuel, room)
    ensures Eval(p, e, st, fuel + 1, room) == Eval(p, e, st, fuel, room) && !Starves(p, e, st, fuel + 1, room)
    decreases fuel, e
  {
    match e
    case Indirection(r) => MoreFuel(p, r, st, fuel, room);
    case Comma(first, second) =>
      MoreFuel(p, first, st, fuel, room);
      var d := Eval(p, first, st, fuel, room);
      if d.Some? {
        MoreFuel(p, second, d.value.store, fuel, room);
      }
    case Binary(_, lhs, rhs) =>
      MoreFuel(p, lhs, st, fuel, room);
      var d := Eval(p, lhs, st, fuel, room);
      if d.Some? && d.value.value.Some? && room.spills > 0 {
        MoreFuel(p, rhs, d.value.store, fuel, room.(spills := room.spills - 1));
      }
    case Assignment(lhs, rhs) =>
      if Locate(p, lhs, st).Some? && room.spills > 0 {
        MoreFuel(p, rhs, st, fuel, room.(spills := room.spills - 1));
      }
    case FunctionCall(f) =>
      if f in p.functions && room.frames > 0 {
        MoreFuelIn(p, p.functions[f], st, fuel - 1, room.(frames := room.frames - 1));
      }
    case _ =>
  }

  lemma {:induction false} MoreFuelOptional(p: Program, e: Option<Expr>, st: Store, fuel: nat, room: Room)
    requires !StarvesOptional(p, e, st, fuel, room)
    ensures EvalOptional(p, e, st, fuel + 1, room) == EvalOptional(p, e, st, fuel, room)
    ensures !StarvesOptional(p, e, st, fuel + 1, room)
    decreases fuel, e, 1
  {
    if e.Some? {
      MoreFuel(p, e.value, st, fuel, room);
    }
  }

  lemma {:induction false} MoreFuelIn(p: Program, s: Stmt, st: Store, fuel: nat, room: Room)
    requires !StarvesIn(p, s, st, fuel, room)
    ensures Exec(p, s, st, fuel + 1, room) == Exec(p, s, st, fuel, room) && !StarvesIn(p, s, st, fuel + 1, room)
    decreases fuel, s, 2
  {
    match s
    case Empty =>
    case Expression(e) => MoreFuel(p, e, st, fuel, room);
    case Return(e) => MoreFuel(p, e, st, fuel, room);
    case Compound(first, second) =>
      MoreFuelIn(p, first, st, fuel, room);
      var o := Exec(p, first, st, fuel, room);
      if o.Normal? {
        MoreFuelIn(p, second, o.store, fuel, room);
      }
    case IfThen(condition, trueBody) =>
      MoreFuel(p, condition, st, fuel, room);
      var d := Eval(p, condition, st, fuel, room);
      if d.Some? && d.value.value.Some? && d.value.value.value != 0 {
        MoreFuelIn(p, trueBody, d.value.store, fuel, room);
      }
    case IfThenElse(condition, trueBody, falseBody) =>
      MoreFuel(p, condition, st, fuel, room);
      var d := Eval(p, condition, st, fuel, room);
      if d.Some? && d.value.value.Some? {
        MoreFuelIn(p, if d.value.value.value != 0 then trueBody else falseBody, d.value.store, fuel, room);
      }
    case While(_, _) => MoreFuelLoop(p, s, st, fuel, room);
    case For(initialize, _, _, _) =>
      MoreFuelOptional(p, initialize, st, fuel, room);
      var o := EvalOptional(p, initialize, st, fuel, room);
      if o.Some? {
        MoreFuelLoop(p, s, o.value, fuel, room);
      }
  }

  lemma {:induction false} MoreFuelLoop(p: Program, s: Stmt, st: Store, fuel: nat, room: Room)
    requires (s.While? || s.For?) && !StarvesFromTest(p, s, st, fuel, room)
    ensures Loop(p, s, st, fuel + 1, room) == Loop(p, s, st, fuel, room) && !StarvesFromTest(p, s, st, fuel + 1, room)
    decreases fuel, s, 1
  {
    MoreFuel(p, s.condition, st, fuel, room);
    var d := Eval(p, s.condition, st, fuel, room);
    if d.Some? && d.value.value.Some? && d.value.value.value != 0 {
      MoreFuelTurn(p, s, d.value.store, fuel, room);
    }
  }

  lemma {:induction false} MoreFuelTurn(p: Program, s: Stmt, st: Store, fuel: nat, room: Room)
    requires (s.While? || s.For?) && !StarvesFromBody(p, s, st, fuel, room)
    ensures Turn(p, s, st, fuel + 1, room) == Turn(p, s, st, fuel, room) && !StarvesFromBody(p, s, st, fuel + 1, room)
    decreases fuel, s, 0
  {
    MoreFuelIn(p, s.body, st, fuel, room);
    var o := Exec(p, s.body, st, fuel, room);
    if o.Normal? {
      if s.For? {
        MoreFuelOptional(p, s.increment, o.store, fuel, room);
      }
      var st2 := if s.For? then EvalOptional(p, s.increment, o.store, fuel, room) else Some(o.store);
      if st2.Some? {
        MoreFuelLoop(p, s, st2.value, fuel - 1, room);
      }
    }
  }

  /** However much more. */
  lemma {:induction false} Settles(p: Program, s: Stmt, st: Store, fuel: nat, more: nat, room: Room)
    requires !StarvesIn(p, s, st, fuel, room)
    ensures Exec(p, s, st, fuel + more, room) == Exec(p, s, st, fuel, room) && !StarvesIn(p, s, st, fuel + more, room)
    decreases more
  {
    hide StarvesIn, Exec;
    if more > 0 {
      Settles(p, s, st, fuel, more - 1, room);
      MoreFuelIn(p, s, st, fuel + (more - 1), room);
    }
  }
}

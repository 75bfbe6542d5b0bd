/** Which names and literals a program may use so that its generated assembly is accepted. */
module Naming {
  import opened Words
  import opened Isa
  import Names
  import opened Assembly
  import opened Fragments
  import opened Linking
  import opened CodeGeneration
  import Assembler
  import Declarations
  import Source

  /** How often each name is defined, which names are used, and whether every literal can be read. */
  datatype Summary = Summary(defined: multiset<string>, used: set<string>, lexes: bool)

  const NOTHING := Summary(multiset{}, {}, true)

  function Both(a: Summary, b: Summary): Summary {
    Summary(a.defined + b.defined, a.used + b.used, a.lexes && b.lexes)
  }

  // ----- assembly lines -----

  function NeedsOf(es: seq<Emission>): set<string> {
    set i | 0 <= i < |es| && Needs(es[i]).Some? :: Needs(es[i]).value
  }

  function LineNames(line: Line): Summary {
    Summary(if line.Label? then multiset{line.name} else multiset{}, NeedsOf(Emissions(line, ORIGIN)), LiteralsLex(line))
  }

  function LinesNames(lines: seq<Line>): Summary {
    if lines == [] then NOTHING else Both(LineNames(lines[0]), LinesNames(lines[1..]))
  }

  lemma {:induction false} NamesAppend(a: seq<Line>, b: seq<Line>)
    ensures LinesNames(a + b) == Both(LinesNames(a), LinesNames(b))
  {
    hide LineNames;
    if a == [] {
      assert a + b == b;
    } else {
      assert (a + b)[1..] == a[1..] + b;
      NamesAppend(a[1..], b);
    }
  }

  /** What a line needs does not depend on where it stands. */
  lemma NeedsAnywhere(line: Line, c: Cursor)
    ensures NeedsOf(Emissions(line, c)) == NeedsOf(Emissions(line, ORIGIN))
  {
    hide Expand;
    if line.WordDirective? {
      NeedsBehindZeros(Lead(line, c), WordItems(line.items));
      NeedsBehindZeros(Lead(line, ORIGIN), WordItems(line.items));
    } else if line.AlignDirective? {
      NeedsOfZeros(Gap(Location(c), Pow2(Wrap(line.x))));
      NeedsOfZeros(Gap(Location(ORIGIN), Pow2(Wrap(line.x))));
    } else {
      SameAnywhere(line, c);
    }
  }

  lemma SameAnywhere(line: Line, c: Cursor)
    requires !line.WordDirective? && !line.AlignDirective?
    ensures Emissions(line, c) == Emissions(line, ORIGIN)
  {
    hide Expand;
  }

  lemma NeedsOfZeros(n: nat)
    ensures NeedsOf(Zeros(n)) == {}
  {
  }

  lemma NeedsBehindZeros(n: nat, es: seq<Emission>)
    ensures NeedsOf(Zeros(n) + es) == NeedsOf(es)
  {
    var all := Zeros(n) + es;
    forall x ensures x in NeedsOf(all) <==> x in NeedsOf(es) {
      if x in NeedsOf(all) {
        var i :| 0 <= i < |all| && Needs(all[i]).Some? && Needs(all[i]).value == x;
        assert i >= n && all[i] == es[i - n];
      }
      if x in NeedsOf(es) {
        var i :| 0 <= i < |es| && Needs(es[i]).Some? && Needs(es[i]).value == x;
        assert all[n + i] == es[i];
      }
    }
  }

  // ----- when lines assemble -----

  /** The assembler's three conditions. */
  predicate Assembles(lines: seq<Line>) {
    && (forall i | 0 <= i < |lines| :: Lexes(lines[i]))
    && Distinct(Definitions(lines, ORIGIN, []))
    && forall s | s in Slots(lines, ORIGIN) :: Resolvable(s.emission, Labels(lines))
  }

  predicate Sound(n: Summary) {
    && n.lexes
    && (forall x | x in n.defined :: n.defined[x] == 1 && Names.IsName(x))
    && forall x | x in n.used :: x in n.defined
  }

  function NamesIn(ds: seq<Definition>): seq<string> {
    seq(|ds|, i requires 0 <= i < |ds| => ds[i].name)
  }

  /** The definitions are the label lines, in another order. */
  lemma {:induction false} DefinitionsNames(lines: seq<Line>, c: Cursor, waiting: seq<string>)
    ensures multiset(NamesIn(Definitions(lines, c, waiting))) == multiset(waiting) + LinesNames(lines).defined
  {
    hide Next, Emissions, Start, NeedsOf, LiteralsLex;
    if lines == [] {
      assert NamesIn(Bind(waiting, Location(c))) == waiting;
    } else if lines[0].Label? {
      DefinitionsNames(lines[1..], c, [lines[0].name] + waiting);
      assert Next(lines[0], c) == c by { LabelIsEmpty(lines[0].name, c); }
      OneMoreWaiting(lines[0].name, waiting, LinesNames(lines[1..]).defined);
    } else {
      var bound, rest := Bind(waiting, Start(lines[0], c)), Definitions(lines[1..], Next(lines[0], c), []);
      DefinitionsNames(lines[1..], Next(lines[0], c), []);
      assert NamesIn(bound + rest) == waiting + NamesIn(rest);
      NoLabels(LinesNames(lines[1..]).defined);
    }
  }

  lemma OneMoreWaiting(name: string, waiting: seq<string>, rest: multiset<string>)
    ensures multiset([name] + waiting) + rest == multiset(waiting) + (multiset{name} + rest)
  {
  }

  lemma {:induction false} NoRepeats(s: seq<string>)
    ensures (forall i, j | 0 <= i < j < |s| :: s[i] != s[j]) <==> (forall x | x in multiset(s) :: multiset(s)[x] == 1)
  {
    if s != [] {
      var k := |s| - 1;
      var init := s[..k];
      assert s == init + [s[k]];
      assert multiset(s) == multiset(init) + multiset{s[k]};
      NoRepeats(init);
      if forall i, j | 0 <= i < j < |s| :: s[i] != s[j] {
        assert s[k] !in init;
        assert forall i, j | 0 <= i < j < |init| :: init[i] != init[j];
      }
      if forall x | x in multiset(s) :: multiset(s)[x] == 1 {
        assert multiset(s)[s[k]] == 1;
        assert s[k] !in multiset(init);
        forall x | x in multiset(init) ensures multiset(init)[x] == 1 {
          assert x in multiset(s) && multiset(s)[x] == 1;
        }
        forall i, j | 0 <= i < j < |s| ensures s[i] != s[j] {
          if j == k {
            assert s[i] == init[i] && init[i] in multiset(init);
          } else {
            assert init[i] != init[j];
          }
        }
      }
    }
  }

  lemma DistinctNames(ds: seq<Definition>)
    ensures Distinct(ds) <==> forall x | x in multiset(NamesIn(ds)) :: multiset(NamesIn(ds))[x] == 1
    ensures forall x :: x in EnvironmentOf(ds) <==> x in multiset(NamesIn(ds))
  {
    NoRepeats(NamesIn(ds));
    Assembler.DefinedNames(ds);
    forall x ensures x in EnvironmentOf(ds) <==> x in multiset(NamesIn(ds)) {
      if x in EnvironmentOf(ds) {
        var i :| 0 <= i < |ds| && ds[i].name == x;
        assert NamesIn(ds)[i] == x;
      }
      if x in multiset(NamesIn(ds)) {
        var i :| 0 <= i < |ds| && NamesIn(ds)[i] == x;
      }
    }
    if Distinct(ds) {
      forall i, j | 0 <= i < j < |NamesIn(ds)| ensures NamesIn(ds)[i] != NamesIn(ds)[j] {
      }
    } else {
      var i, j :| 0 <= i < j < |ds| && ds[i].name == ds[j].name;
      assert NamesIn(ds)[i] == NamesIn(ds)[j];
    }
  }

  lemma {:induction false} ArrangedEmission(es: seq<Emission>, location: nat, s: Slot)
    requires s in Arrange(es, location)
    ensures s.emission in es
  {
    hide Size;
    if s != Slot(location, es[0]) {
      ArrangedEmission(es[1..], location + Size(es[0]), s);
    }
  }

  /** Everything is resolvable exactly when everything used is defined. */
  lemma {:induction false} SlotsResolve(lines: seq<Line>, c: Cursor, env: Environment)
    ensures (forall s | s in Slots(lines, c) :: Resolvable(s.emission, env)) <==>
      forall x | x in LinesNames(lines).used :: x in env
  {
    hide Next, Emissions, Resolvable, NeedsOf;
    if lines != [] {
      var es := Emissions(lines[0], c);
      var tail := Slots(lines[1..], Next(lines[0], c));
      SlotsResolve(lines[1..], Next(lines[0], c), env);
      NeedsAnywhere(lines[0], c);
      LineResolves(es, Location(c), env);
      assert forall s :: s in Slots(lines, c) <==> s in Arrange(es, Location(c)) || s in tail;
      assert LinesNames(lines).used == NeedsOf(es) + LinesNames(lines[1..]).used;
    }
  }

  lemma LineResolves(es: seq<Emission>, location: nat, env: Environment)
    ensures (forall s | s in Arrange(es, location) :: Resolvable(s.emission, env)) <==>
      forall x | x in NeedsOf(es) :: x in env
  {
    hide Needs;
    if forall x | x in NeedsOf(es) :: x in env {
      forall s | s in Arrange(es, location) ensures Resolvable(s.emission, env) {
        ArrangedEmission(es, location, s);
        var i :| 0 <= i < |es| && es[i] == s.emission;
        if Needs(es[i]).Some? {
          assert Needs(es[i]).value in NeedsOf(es);
        }
      }
    }
    if forall s | s in Arrange(es, location) :: Resolvable(s.emission, env) {
      forall x | x in NeedsOf(es) ensures x in env {
        var i :| 0 <= i < |es| && Needs(es[i]).Some? && Needs(es[i]).value == x;
        var s := Arranged(es, location, i);
        assert Resolvable(s.emission, env);
      }
    }
  }

  lemma {:induction false} LexesEach(lines: seq<Line>)
    ensures LinesNames(lines).lexes <==> forall i | 0 <= i < |lines| :: LiteralsLex(lines[i])
  {
    hide LiteralsLex, Emissions;
    if lines != [] {
      LexesEach(lines[1..]);
      if forall i | 0 <= i < |lines| :: LiteralsLex(lines[i]) {
        assert LiteralsLex(lines[0]);
        forall i | 0 <= i < |lines[1..]| ensures LiteralsLex(lines[1..][i]) {
          assert lines[1..][i] == lines[i + 1];
        }
      }
      if LinesNames(lines).lexes {
        forall i | 0 <= i < |lines| ensures LiteralsLex(lines[i]) {
          if i > 0 {
            assert lines[1..][i - 1] == lines[i];
          }
        }
      }
    }
  }

  /** A name in a line that is not a label line is needed by one of its emissions. */
  lemma MentionNeeded(line: Line, x: string)
    requires !line.Label? && x in Mentions(line)
    ensures x in NeedsOf(Emissions(line, ORIGIN))
  {
    if line.WordDirective? {
      var i :| 0 <= i < |line.items| && line.items[i] == Reference(x);
      assert Needs(WordItems(line.items)[i]) == Some(x);
      NeedsBehindZeros(Lead(line, ORIGIN), WordItems(line.items));
    } else if line.ByteDirective? {
      var i :| 0 <= i < |line.items| && line.items[i] == Reference(x);
      assert Needs(ByteItems(line.items)[i]) == Some(x);
    } else {
      var es := Emissions(line, ORIGIN);
      assert es != [] && Needs(es[|es| - 1]) == Some(x);
    }
  }

  /** And what its emissions need it mentions. */
  lemma NeededMentioned(line: Line, x: string)
    requires x in NeedsOf(Emissions(line, ORIGIN)) && x != ""
    ensures x in Mentions(line)
  {
    hide Expand, Mentions;
    var es := Emissions(line, ORIGIN);
    var i :| 0 <= i < |es| && Needs(es[i]) == Some(x);
    if line.WordDirective? {
      var j := i - Lead(line, ORIGIN);
      assert es[i] == WordItem(line.items[j]);
      ItemMentioned(line, j, x);
    } else if line.ByteDirective? {
      ItemMentioned(line, i, x);
    } else if !IsDatum(line) {
      InstructionMentions(line, i, x);
    }
  }

  lemma ItemMentioned(line: Line, j: nat, x: string)
    requires (line.WordDirective? || line.ByteDirective?) && j < |line.items| && line.items[j] == Reference(x)
    ensures x in Mentions(line)
  {
  }

  lemma InstructionMentions(line: Line, i: nat, x: string)
    requires !IsDatum(line) && i < |Expand(line)| && Needs(Expand(line)[i]) == Some(x) && x != ""
    ensures x in Mentions(line)
  {
    hide Upper, Lower, Wrap;
  }

  lemma LineReadable(line: Line)
    ensures (forall x | x in LineNames(line).defined || x in LineNames(line).used :: Names.IsName(x)) ==>
      forall x | x in Mentions(line) :: Names.IsName(x)
    ensures (forall x | x in Mentions(line) :: Names.IsName(x)) ==>
      forall x | x in LineNames(line).defined :: Names.IsName(x)
  {
    hide Names.IsName, Emissions, LiteralsLex;
    forall x | x in Mentions(line) ensures x in LineNames(line).defined || x in LineNames(line).used {
      if !line.Label? {
        MentionNeeded(line, x);
      }
    }
  }

  /** If all that is defined and used can be read as names, so can every line; the other way round for what
      is defined. */
  lemma {:induction false} NamesEach(lines: seq<Line>)
    ensures (forall x | x in LinesNames(lines).defined || x in LinesNames(lines).used :: Names.IsName(x)) ==>
      forall i | 0 <= i < |lines| :: forall x | x in Mentions(lines[i]) :: Names.IsName(x)
    ensures (forall i | 0 <= i < |lines| :: forall x | x in Mentions(lines[i]) :: Names.IsName(x)) ==>
      forall x | x in LinesNames(lines).defined :: Names.IsName(x)
  {
    hide Names.IsName, LineNames, Mentions;
    if lines != [] {
      NamesEach(lines[1..]);
      LineReadable(lines[0]);
      var n, first, rest := LinesNames(lines), LineNames(lines[0]), LinesNames(lines[1..]);
      assert n == Both(first, rest);
      if forall x | x in n.defined || x in n.used :: Names.IsName(x) {
        forall i | 0 <= i < |lines| ensures forall x | x in Mentions(lines[i]) :: Names.IsName(x) {
          assert i > 0 ==> lines[1..][i - 1] == lines[i];
        }
      }
      if forall i | 0 <= i < |lines| :: forall x | x in Mentions(lines[i]) :: Names.IsName(x) {
        forall i | 0 <= i < |lines[1..]| ensures forall x | x in Mentions(lines[1..][i]) :: Names.IsName(x) {
          assert lines[1..][i] == lines[i + 1];
        }
        assert forall x | x in Mentions(lines[0]) :: Names.IsName(x);
      }
    }
  }

  /** Lines assemble exactly when their literals can be read, no name is defined twice or spelled like one
      of the assembler's words, and every used name is defined. */
  lemma LinesAssemble(lines: seq<Line>)
    ensures Assembles(lines) <==> Sound(LinesNames(lines))
  {
    hide LiteralsLex, Mentions, Distinct, Definitions, Slots, Resolvable, LinesNames, Names.IsName;
    var ds := Definitions(lines, ORIGIN, []);
    LexesEach(lines);
    NamesEach(lines);
    LinesLex(lines);
    DefinitionsNames(lines, ORIGIN, []);
    DistinctNames(ds);
    SlotsResolve(lines, ORIGIN, Labels(lines));
    assert multiset(NamesIn(ds)) == LinesNames(lines).defined;
  }

  lemma LinesLex(lines: seq<Line>)
    ensures (forall i | 0 <= i < |lines| :: Lexes(lines[i])) <==>
      && (forall i | 0 <= i < |lines| :: LiteralsLex(lines[i]))
      && forall i | 0 <= i < |lines| :: forall x | x in Mentions(lines[i]) :: Names.IsName(x)
  {
    hide LiteralsLex, Mentions, Names.IsName;
  }

  // ----- source programs -----

  function ExprNames(e: Source.Expr): Summary {
    match e
    case Literal(v) => Summary(multiset{}, {}, v < 0x8000_0000)
    case Identifier(x) => Summary(multiset{}, {x}, true)
    case AddressOf(x) => Summary(multiset{}, {x}, true)
    case FunctionCall(f) => Summary(multiset{}, {f}, true)
    case Declaration(x, _) => Summary(multiset{x}, {}, true)
    case Indirection(r) => ExprNames(r)
    case Comma(first, second) => Both(ExprNames(first), ExprNames(second))
    case Binary(_, lhs, rhs) => Both(ExprNames(lhs), ExprNames(rhs))
    case Assignment(lhs, rhs) => Both(ExprNames(lhs), ExprNames(rhs))
  }

  function OptionalNames(e: Option<Source.Expr>): Summary {
    match e
    case Some(x) => ExprNames(x)
    case None => NOTHING
  }

  /** The condition of a `for` counts twice. */
  function StmtNames(s: Source.Stmt): Summary {
    match s
    case Empty => NOTHING
    case Expression(e) => ExprNames(e)
    case Return(e) => ExprNames(e)
    case Compound(first, second) => Both(StmtNames(first), StmtNames(second))
    case IfThen(condition, trueBody) => Both(ExprNames(condition), StmtNames(trueBody))
    case IfThenElse(condition, trueBody, falseBody) =>
      Both(ExprNames(condition), Both(StmtNames(trueBody), StmtNames(falseBody)))
    case While(condition, body) => Both(StmtNames(body), ExprNames(condition))
    case For(initialize, condition, increment, body) =>
      Both(OptionalNames(initialize), Both(ExprNames(condition),
        Both(StmtNames(body), Both(OptionalNames(increment), ExprNames(condition)))))
  }

  /** How many label numbers a statement takes. */
  function StmtLabels(s: Source.Stmt): nat {
    match s
    case Compound(first, second) => StmtLabels(first) + StmtLabels(second)
    case IfThen(_, trueBody) => 1 + StmtLabels(trueBody)
    case IfThenElse(_, trueBody, falseBody) => 2 + StmtLabels(trueBody) + StmtLabels(falseBody)
    case While(_, body) => 2 + StmtLabels(body)
    case For(_, _, _, body) => 3 + StmtLabels(body)
    case _ => 0
  }

  function TopLevelNames(t: TopLevel): Summary {
    match t
    case Global(x, _) => Summary(multiset{x}, {}, true)
    case Function(f, body) => Both(Summary(multiset{f}, {}, true), StmtNames(body))
  }

  function ProgramNames(ts: seq<TopLevel>): Summary {
    if ts == [] then NOTHING else Both(TopLevelNames(ts[0]), ProgramNames(ts[1..]))
  }

  function ProgramLabels(ts: seq<TopLevel>): nat {
    if ts == [] then 0 else (if ts[0].Function? then StmtLabels(ts[0].body) else 0) + ProgramLabels(ts[1..])
  }

  /** Generated labels are numbered from `uid` on. */
  predicate IsLabelOf(x: string, uid: nat, n: nat) {
    exists k | uid <= k < uid + n :: x == Names.UidLabel(k)
  }

  /** Literals stay below 2^31; every name is declared once, is not spelled like a word of the assembler's and
      is not a generated label; every used name is declared. */
  predicate WellNamed(ts: seq<TopLevel>, uid: nat) {
    var n := ProgramNames(ts);
    && n.lexes
    && (forall x | x in n.defined ::
          n.defined[x] == 1 && Names.IsName(x) && !IsLabelOf(x, uid, ProgramLabels(ts)))
    && forall x | x in n.used :: x in n.defined || IsLabelOf(x, uid, ProgramLabels(ts))
  }

  // ----- generated labels -----

  function LabelNames(uid: nat, n: nat): multiset<string>
    decreases n
  {
    if n == 0 then multiset{} else multiset{Names.UidLabel(uid)} + LabelNames(uid + 1, n - 1)
  }

  lemma {:induction false} LabelNamesSum(uid: nat, m: nat, n: nat)
    ensures LabelNames(uid, m + n) == LabelNames(uid, m) + LabelNames(uid + m, n)
    decreases m
  {
    if m == 0 {
      ZeroLabels(uid);
      NoLabels(LabelNames(uid, n));
    } else {
      LabelNamesSum(uid + 1, m - 1, n);
      assert (uid + 1) + (m - 1) == uid + m;
      OneLabelOnTop(uid, m);
      OneLabelOnTop(uid, m + n);
      hide LabelNames, Names.UidLabel;
      Swap(multiset{Names.UidLabel(uid)}, LabelNames(uid + 1, m - 1), LabelNames(uid + m, n));
    }
  }

  lemma OneLabelOnTop(uid: nat, n: nat)
    requires n > 0
    ensures LabelNames(uid, n) == multiset{Names.UidLabel(uid)} + LabelNames(uid + 1, n - 1)
  {
    hide Names.UidLabel;
  }

  /** Each label number gives one name, different from all others. */
  lemma {:induction false} LabelsOnce(uid: nat, n: nat, x: string)
    ensures LabelNames(uid, n)[x] == if IsLabelOf(x, uid, n) then 1 else 0
    decreases n
  {
    hide Names.UidLabel;
    if n > 0 {
      LabelsOnce(uid + 1, n - 1, x);
      if x == Names.UidLabel(uid) {
        if IsLabelOf(x, uid + 1, n - 1) {
          var k :| uid + 1 <= k < uid + n && x == Names.UidLabel(k);
          Names.UidLabelInjective(uid, k);
        }
      } else if IsLabelOf(x, uid, n) {
        var k :| uid <= k < uid + n && x == Names.UidLabel(k);
        assert k >= uid + 1;
      }
    }
  }

  // ----- generated lines -----

  /** Lines that define what the source names and the given labels, use what the source uses and
      possibly labels in `range`, and read the source's literals. */
  ghost predicate Matches(lines: seq<Line>, n: Summary, labels: multiset<string>, range: set<string>) {
    var l := LinesNames(lines);
    && l.defined == n.defined + labels
    && l.lexes == n.lexes
    && n.used <= l.used
    && forall x | x in l.used :: x in n.used || x in n.defined || x in range
  }

  lemma MatchesAppend(a: seq<Line>, b: seq<Line>, m: Summary, n: Summary, la: multiset<string>, lb: multiset<string>,
                      range: set<string>)
    requires Matches(a, m, la, range) && Matches(b, n, lb, range)
    ensures Matches(a + b, Both(m, n), la + lb, range)
  {
    hide LinesNames;
    NamesAppend(a, b);
  }

  lemma UnlabelledAppend(a: seq<Line>, b: seq<Line>, m: Summary, n: Summary, range: set<string>)
    requires Matches(a, m, multiset{}, range) && Matches(b, n, multiset{}, range)
    ensures Matches(a + b, Both(m, n), multiset{}, range)
    ensures n == NOTHING ==> Both(m, n) == m
    ensures m == NOTHING ==> Both(m, n) == n
  {
    hide Matches;
    MatchesAppend(a, b, m, n, multiset{}, multiset{}, range);
    NothingBeside(m, n);
  }

  lemma NothingBeside(m: Summary, n: Summary)
    ensures LabelNames(0, 0) + LabelNames(0, 0) == LabelNames(0, 0) == multiset{}
    ensures n == NOTHING ==> Both(m, n) == m
    ensures m == NOTHING ==> Both(m, n) == n
  {
    assert m.defined + multiset{} == m.defined && multiset{} + n.defined == n.defined;
  }

  lemma MatchesWiden(lines: seq<Line>, n: Summary, labels: multiset<string>, range: set<string>, wider: set<string>)
    requires Matches(lines, n, labels, range) && range <= wider
    ensures Matches(lines, n, labels, wider)
  {
    hide LinesNames;
  }

  lemma NamesOfOne(line: Line)
    ensures LinesNames([line]) == LineNames(line)
  {
    hide LineNames;
    assert [line][1..] == [];
  }

  /** Lines that name nothing. */
  predicate Anonymous(line: Line) {
    || line.Op3? || line.Rem? || line.Copy? || line.Sys? || line.Enter? || line.Ret? || line.TextDirective?
    || line.DataDirective?
    || (line.OpLit? && InRange(line.l))
    || (line.SpaceDirective? && InRange(line.x))
    || (line.Access? && line.address.target == "" && InRange(line.address.offset))
    || (line.Li? && InRange(line.l))
  }

  lemma AnonymousLine(line: Line)
    requires Anonymous(line)
    ensures LineNames(line) == NOTHING
  {
    var es := Emissions(line, ORIGIN);
    if line.SpaceDirective? {
      assert forall i | 0 <= i < |es| :: Needs(es[i]) == None;
    } else {
      AnonymousNeeds(line);
    }
    assert NeedsOf(es) == {};
  }

  lemma AnonymousNeeds(line: Line)
    requires Anonymous(line) && !line.SpaceDirective?
    ensures forall i | 0 <= i < |Emissions(line, ORIGIN)| :: Needs(Emissions(line, ORIGIN)[i]) == None
  {
    hide Upper, Lower;
  }

  lemma {:induction false} AnonymousLines(lines: seq<Line>)
    requires forall i | 0 <= i < |lines| :: Anonymous(lines[i])
    ensures LinesNames(lines) == NOTHING
    ensures forall range :: Matches(lines, NOTHING, multiset{}, range)
  {
    hide LineNames, Anonymous;
    if lines != [] {
      AnonymousLine(lines[0]);
      AnonymousLines(lines[1..]);
    }
  }

  predicate Refers(line: Line, x: string) {
    || line == Beqz(T0, x) || line == B(x) || line == Branch2(BNE, T0, ZERO, x) || line == La(T0, x) || line == Call(x)
  }

  lemma ReferringLine(line: Line, x: string)
    requires Refers(line, x)
    ensures LinesNames([line]) == Summary(multiset{}, {x}, true)
  {
    NamesOfOne(line);
    var es := Emissions(line, ORIGIN);
    assert |es| == 1 && Needs(es[0]) == Some(x);
    assert NeedsOf(es) == {x};
  }

  lemma LabelNamesIt(x: string)
    ensures LinesNames([Label(x)]) == Summary(multiset{x}, {}, true)
  {
    NamesOfOne(Label(x));
    assert Emissions(Label(x), ORIGIN) == [];
  }

  /** A jump to a label of the statement. */
  lemma JumpMatches(line: Line, x: string, range: set<string>)
    requires Refers(line, x) && x in range
    ensures Matches([line], NOTHING, multiset{}, range)
  {
    ReferringLine(line, x);
  }

  lemma LabelMatches(x: string, range: set<string>)
    ensures Matches([Label(x)], NOTHING, multiset{x}, range)
  {
    LabelNamesIt(x);
  }

  lemma DeclareNames(x: string, kind: Source.Type)
    ensures LinesNames(Declare(x, kind)) == Summary(multiset{x}, {}, true)
  {
    hide LineNames, LinesNames;
    var last := [SpaceDirective(Source.SizeOfType(kind)), TextDirective];
    assert Declare(x, kind) == [DataDirective] + ([Label(x)] + last);
    NamesAppend([DataDirective], [Label(x)] + last);
    NamesAppend([Label(x)], last);
    LabelNamesIt(x);
    AnonymousLines([DataDirective]);
    AnonymousLines(last);
  }

  // ----- generated code -----

  lemma {:induction false} ExprMatches(e: Source.Expr, lval: bool, range: set<string>)
    ensures Matches(GenExpr(e, lval).lines, ExprNames(e), multiset{}, range)
  {
    hide LinesNames, Matches, Declare;
    match e
    case Literal(v) => LiteralMatches(v, range);
    case Identifier(x) => NameMatches(x, if lval then [] else LOAD, range);
    case AddressOf(x) => NameMatches(x, [], range);
    case FunctionCall(f) => CallMatches(f, range);
    case Declaration(x, kind) => DeclarationMatches(x, kind, lval, range);
    case Indirection(r) =>
      ExprMatches(r, lval, range);
      AnonymousLines(LOAD);
      UnlabelledAppend(GenExpr(r, lval).lines, LOAD, ExprNames(r), NOTHING, range);
    case Comma(first, second) =>
      var c1 := GenExpr(first, lval);
      ExprMatches(first, lval, range);
      ExprMatches(second, c1.lval, range);
      UnlabelledAppend(c1.lines, GenExpr(second, c1.lval).lines, ExprNames(first), ExprNames(second), range);
    case Binary(op, lhs, rhs) =>
      var c1 := GenExpr(lhs, lval);
      ExprMatches(lhs, lval, range);
      ExprMatches(rhs, c1.lval, range);
      OperatorMatches(c1.lines, GenExpr(rhs, c1.lval).lines, Operate(op), ExprNames(lhs), ExprNames(rhs), range);
    case Assignment(lhs, rhs) =>
      ExprMatches(lhs, true, range);
      ExprMatches(rhs, false, range);
      OperatorMatches(GenExpr(lhs, true).lines, GenExpr(rhs, false).lines, STORE, ExprNames(lhs), ExprNames(rhs), range);
  }

  lemma LiteralMatches(v: Word, range: set<string>)
    ensures Matches([Li(T0, v)], ExprNames(Source.Literal(v)), multiset{}, range)
  {
    NamesOfOne(Li(T0, v));
    var es := Emissions(Li(T0, v), ORIGIN);
    assert forall i | 0 <= i < |es| :: Needs(es[i]) == None;
    assert NeedsOf(es) == {};
  }

  lemma NameMatches(x: string, rest: seq<Line>, range: set<string>)
    requires rest == [] || rest == LOAD
    ensures Matches([La(T0, x)] + rest, Summary(multiset{}, {x}, true), multiset{}, range)
    ensures Matches([La(T0, x)], Summary(multiset{}, {x}, true), multiset{}, range)
  {
    ReferringLine(La(T0, x), x);
    AnonymousLines(rest);
    NamesAppend([La(T0, x)], rest);
  }

  lemma CallMatches(f: string, range: set<string>)
    ensures Matches([Call(f)], Summary(multiset{}, {f}, true), multiset{}, range)
  {
    ReferringLine(Call(f), f);
  }

  lemma DeclarationMatches(x: string, kind: Source.Type, lval: bool, range: set<string>)
    ensures Matches(GenExpr(Source.Declaration(x, kind), lval).lines, Summary(multiset{x}, {}, true), multiset{}, range)
    ensures Matches(Declare(x, kind), Summary(multiset{x}, {}, true), multiset{}, range)
  {
    hide Declare, LinesNames;
    var address := if lval then [La(T0, x)] else [];
    DeclareNames(x, kind);
    NamesAppend(Declare(x, kind), address);
    ReferringLine(La(T0, x), x);
    AnonymousLines([]);
  }

  lemma OperatorMatches(a: seq<Line>, b: seq<Line>, last: seq<Line>, m: Summary, n: Summary, range: set<string>)
    requires Matches(a, m, multiset{}, range) && Matches(b, n, multiset{}, range)
    requires last == STORE || exists op :: last == Operate(op)
    ensures Matches(a + (PUSH + (b + (POP + last))), Both(m, n), multiset{}, range)
  {
    hide LinesNames, Matches;
    AnonymousLines(POP + last);
    AnonymousLines(PUSH);
    UnlabelledAppend(b, POP + last, n, NOTHING, range);
    UnlabelledAppend(PUSH, b + (POP + last), NOTHING, n, range);
    UnlabelledAppend(a, PUSH + (b + (POP + last)), m, n, range);
  }

  lemma OptionalMatches(e: Option<Source.Expr>, range: set<string>)
    ensures Matches(RvalueOptional(e), OptionalNames(e), multiset{}, range)
  {
    match e
    case Some(x) => ExprMatches(x, false, range);
    case None =>
  }

  lemma {:induction false} LabelCount(s: Source.Stmt, uid: nat, entry: bool)
    ensures GenStmt(s, uid, entry).uid == uid + StmtLabels(s)
  {
    hide GenExpr, LoopTail, Names.UidLabel;
    match s
    case Compound(first, second) =>
      LabelCount(first, uid, entry);
      LabelCount(second, uid + StmtLabels(first), entry);
    case IfThen(_, trueBody) => LabelCount(trueBody, uid + 1, entry);
    case IfThenElse(_, trueBody, falseBody) =>
      LabelCount(trueBody, uid + 2, entry);
      LabelCount(falseBody, uid + 2 + StmtLabels(trueBody), entry);
    case While(_, body) => LabelCount(body, uid + 2, entry);
    case For(_, _, _, body) => LabelCount(body, uid + 3, entry);
    case _ =>
  }

  function RangeOf(uid: nat, n: nat): set<string> {
    set k | uid <= k < uid + n :: Names.UidLabel(k)
  }

  lemma RangeInside(uid: nat, n: nat, uid': nat, n': nat)
    requires uid <= uid' && uid' + n' <= uid + n
    ensures RangeOf(uid', n') <= RangeOf(uid, n)
  {
  }

  lemma InRangeOf(k: nat, uid: nat, n: nat)
    requires uid <= k < uid + n
    ensures Names.UidLabel(k) in RangeOf(uid, n)
  {
  }

  /** A statement inside another one. */
  lemma {:induction false} InnerMatches(s: Source.Stmt, uid: nat, entry: bool, outer: nat, n: nat)
    requires Matches(GenStmt(s, uid, entry).lines, StmtNames(s), LabelNames(uid, StmtLabels(s)), RangeOf(uid, StmtLabels(s)))
    requires outer <= uid && uid + StmtLabels(s) <= outer + n
    ensures Matches(GenStmt(s, uid, entry).lines, StmtNames(s), LabelNames(uid, StmtLabels(s)), RangeOf(outer, n))
  {
    hide Matches, RangeOf;
    RangeInside(outer, n, uid, StmtLabels(s));
    MatchesWiden(GenStmt(s, uid, entry).lines, StmtNames(s), LabelNames(uid, StmtLabels(s)), RangeOf(uid, StmtLabels(s)),
                 RangeOf(outer, n));
  }

  /** Generated statements define what the source declares and one name for each label number. */
  lemma {:induction false} StmtMatches(s: Source.Stmt, uid: nat, entry: bool)
    ensures Matches(GenStmt(s, uid, entry).lines, StmtNames(s), LabelNames(uid, StmtLabels(s)), RangeOf(uid, StmtLabels(s)))
    decreases s, 1
  {
    hide Matches, RangeOf, GenExpr, ExprNames, LinesNames, LabelNames, LoopTail, Names.UidLabel, Anonymous;
    ZeroLabels(uid);
    var range := RangeOf(uid, StmtLabels(s));
    match s
    case Empty =>
      AnonymousLines([]);
    case Expression(e) =>
      ExprMatches(e, false, range);
    case Return(e) =>
      ExprMatches(e, false, range);
      AnonymousLeave(entry);
      UnlabelledAppend(Rvalue(e), Leave(entry), ExprNames(e), NOTHING, range);
    case Compound(_, _) => CompoundMatches(s, uid, entry);
    case IfThen(_, _) => IfThenMatches(s, uid, entry);
    case IfThenElse(_, _, _) => IfThenElseMatches(s, uid, entry);
    case While(_, _) => WhileMatches(s, uid, entry);
    case For(_, _, _, _) => ForMatches(s, uid, entry);
  }

  lemma {:induction false} CompoundMatches(s: Source.Stmt, uid: nat, entry: bool)
    requires s.Compound?
    ensures Matches(GenStmt(s, uid, entry).lines, StmtNames(s), LabelNames(uid, StmtLabels(s)), RangeOf(uid, StmtLabels(s)))
    decreases s, 0
  {
    hide Matches, RangeOf, LinesNames, LabelNames, Both, GenStmt, StmtNames, StmtLabels;
    var k1, k2 := StmtLabels(s.first), StmtLabels(s.second);
    var uid' := uid + k1;
    LabelCount(s.first, uid, entry);
    CompoundParts(s, uid, entry);
    StmtMatches(s.first, uid, entry);
    StmtMatches(s.second, uid', entry);
    InnerMatches(s.first, uid, entry, uid, k1 + k2);
    InnerMatches(s.second, uid', entry, uid, k1 + k2);
    MatchesAppend(GenStmt(s.first, uid, entry).lines, GenStmt(s.second, uid', entry).lines, StmtNames(s.first),
                  StmtNames(s.second), LabelNames(uid, k1), LabelNames(uid', k2), RangeOf(uid, k1 + k2));
    LabelNamesSum(uid, k1, k2);
  }

  lemma {:induction false} CompoundParts(s: Source.Stmt, uid: nat, entry: bool)
    requires s.Compound?
    ensures var g1 := GenStmt(s.first, uid, entry);
      GenStmt(s, uid, entry).lines == g1.lines + GenStmt(s.second, g1.uid, entry).lines
    ensures StmtNames(s) == Both(StmtNames(s.first), StmtNames(s.second))
    ensures StmtLabels(s) == StmtLabels(s.first) + StmtLabels(s.second)
  {
    hide GenExpr, ExprNames, Names.UidLabel;
  }

  lemma AnonymousLeave(entry: bool)
    ensures forall range :: Matches(Leave(entry), NOTHING, multiset{}, range)
  {
    hide Matches;
    AnonymousLines(Leave(entry));
  }

  lemma {:induction false} IfThenMatches(s: Source.Stmt, uid: nat, entry: bool)
    requires s.IfThen?
    ensures Matches(GenStmt(s, uid, entry).lines, StmtNames(s), LabelNames(uid, StmtLabels(s)), RangeOf(uid, StmtLabels(s)))
    decreases s, 0
  {
    hide Matches, RangeOf, GenExpr, ExprNames, LinesNames, LabelNames, Names.UidLabel;
    var n, range, target := StmtLabels(s), RangeOf(uid, StmtLabels(s)), Names.UidLabel(uid);
    var body, last := GenStmt(s.trueBody, uid + 1, entry).lines, [Label(target)];
    StmtMatches(s.trueBody, uid + 1, entry);
    InnerMatches(s.trueBody, uid + 1, entry, uid, n);
    InRangeOf(uid, uid, n);
    LabelMatches(target, range);
    IfMatches(s.condition, target, body, last, StmtNames(s.trueBody), NOTHING,
              LabelNames(uid + 1, StmtLabels(s.trueBody)), multiset{target}, range);
    NothingBeside(StmtNames(s.trueBody), NOTHING);
    LabelOnTop(uid, StmtLabels(s.trueBody));
  }

  lemma {:induction false} WhileMatches(s: Source.Stmt, uid: nat, entry: bool)
    requires s.While?
    ensures Matches(GenStmt(s, uid, entry).lines, StmtNames(s), LabelNames(uid, StmtLabels(s)), RangeOf(uid, StmtLabels(s)))
    decreases s, 0
  {
    hide Matches, RangeOf, GenExpr, ExprNames, LinesNames, LabelNames, Names.UidLabel, LoopTail, TwoLabels;
    var n, range, bottom := StmtLabels(s), RangeOf(uid, StmtLabels(s)), Names.UidLabel(uid + 1);
    var code, labels := GenStmt(s.body, uid + 2, entry).lines, LabelNames(uid + 2, StmtLabels(s.body));
    var names, test := StmtNames(s.body), ExprNames(s.condition);
    StmtMatches(s.body, uid + 2, entry);
    InnerMatches(s.body, uid + 2, entry, uid, n);
    InRangeOf(uid, uid, n);
    InRangeOf(uid + 1, uid, n);
    ExprMatches(s.condition, false, range);
    AnonymousLines([]);
    TailMatches(uid, code, [], Rvalue(s.condition), names, NOTHING, test, labels, range);
    NothingBeside(NOTHING, test);
    JumpMatches(B(bottom), bottom, range);
    MatchesAppend([B(bottom)], LoopTail(uid, uid + 1, code, [], Rvalue(s.condition)), NOTHING, Both(names, test),
                  multiset{}, TwoLabels(uid) + labels, range);
    NothingBeside(NOTHING, Both(names, test));
    TwoLabelsOnTop(uid, StmtLabels(s.body));
    NoLabels(TwoLabels(uid) + labels);
  }

  lemma ZeroLabels(uid: nat)
    ensures LabelNames(uid, 0) == multiset{}
  {
  }

  lemma NoLabels(labels: multiset<string>)
    ensures multiset{} + labels == labels && labels + multiset{} == labels
  {
  }

  lemma Swap(a: multiset<string>, b: multiset<string>, c: multiset<string>)
    ensures a + (b + c) == b + (a + c) && a + (b + c) == (a + b) + c
  {
  }

  function TwoLabels(uid: nat): multiset<string> {
    multiset{Names.UidLabel(uid)} + multiset{Names.UidLabel(uid + 1)}
  }

  lemma LabelOnTop(uid: nat, n: nat)
    ensures LabelNames(uid + 1, n) + multiset{Names.UidLabel(uid)} == LabelNames(uid, n + 1)
  {
  }

  lemma TwoLabelsOnTop(uid: nat, n: nat)
    ensures TwoLabels(uid) + LabelNames(uid + 2, n) == LabelNames(uid, n + 2)
  {
    assert LabelNames(uid, n + 2) == multiset{Names.UidLabel(uid)} + LabelNames(uid + 1, n + 1);
    assert LabelNames(uid + 1, n + 1) == multiset{Names.UidLabel(uid + 1)} + LabelNames(uid + 2, n);
  }

  lemma {:induction false} IfMatches(condition: Source.Expr, target: string, body: seq<Line>, rest: seq<Line>,
                                     m: Summary, n: Summary, lm: multiset<string>, ln: multiset<string>,
                                     range: set<string>)
    requires Matches(body, m, lm, range) && Matches(rest, n, ln, range) && target in range
    ensures Matches(Rvalue(condition) + ([Beqz(T0, target)] + (body + rest)), Both(ExprNames(condition), Both(m, n)),
                    lm + ln, range)
  {
    hide Matches, GenExpr, ExprNames, LinesNames;
    var jump := [Beqz(T0, target)];
    ExprMatches(condition, false, range);
    JumpMatches(Beqz(T0, target), target, range);
    MatchesAppend(body, rest, m, n, lm, ln, range);
    MatchesAppend(jump, body + rest, NOTHING, Both(m, n), multiset{}, lm + ln, range);
    NothingBeside(NOTHING, Both(m, n));
    assert multiset{} + (lm + ln) == lm + ln;
    MatchesAppend(Rvalue(condition), jump + (body + rest), ExprNames(condition), Both(m, n), multiset{}, lm + ln, range);
  }

  lemma TailMatches(top: nat, body: seq<Line>, increment: seq<Line>, test: seq<Line>, nb: Summary, ni: Summary,
                    nt: Summary, labels: multiset<string>, range: set<string>)
    requires Matches(body, nb, labels, range) && Matches(increment, ni, multiset{}, range)
    requires Matches(test, nt, multiset{}, range)
    requires Names.UidLabel(top) in range && Names.UidLabel(top + 1) in range
    ensures Matches(LoopTail(top, top + 1, body, increment, test), Both(nb, Both(ni, nt)), TwoLabels(top) + labels, range)
  {
    hide Matches, LinesNames, Names.UidLabel, LabelNames;
    var t, b := Names.UidLabel(top), Names.UidLabel(top + 1);
    var jump := [Branch2(BNE, T0, ZERO, t)];
    JumpMatches(jump[0], t, range);
    UnlabelledAppend(test, jump, nt, NOTHING, range);
    UnlabelledAppend(increment, test + jump, ni, nt, range);
    LabelMatches(b, range);
    LabelMatches(t, range);
    var tail := increment + (test + jump);
    MatchesAppend([Label(b)], tail, NOTHING, Both(ni, nt), multiset{b}, multiset{}, range);
    NothingBeside(NOTHING, Both(ni, nt));
    MatchesAppend(body, [Label(b)] + tail, nb, Both(ni, nt), labels, multiset{b} + multiset{}, range);
    MatchesAppend([Label(t)], body + ([Label(b)] + tail), NOTHING, Both(nb, Both(ni, nt)), multiset{t},
                  labels + (multiset{b} + multiset{}), range);
    NothingBeside(NOTHING, Both(nb, Both(ni, nt)));
    assert multiset{t} + (labels + (multiset{b} + multiset{})) == TwoLabels(top) + labels;
  }

  lemma {:induction false} IfThenElseMatches(s: Source.Stmt, uid: nat, entry: bool)
    requires s.IfThenElse?
    ensures Matches(GenStmt(s, uid, entry).lines, StmtNames(s), LabelNames(uid, StmtLabels(s)), RangeOf(uid, StmtLabels(s)))
    decreases s, 0
  {
    hide Matches, RangeOf, GenExpr, ExprNames, LinesNames, Names.UidLabel, LabelNames, GenStmt, StmtNames, StmtLabels,
      TwoLabels, Both;
    IfThenElseParts(s, uid, entry);
    var n := StmtLabels(s);
    var range := RangeOf(uid, n);
    var uid' := uid + 2 + StmtLabels(s.trueBody);
    var endLabel, elseLabel := Names.UidLabel(uid), Names.UidLabel(uid + 1);
    var code1, code2 := GenStmt(s.trueBody, uid + 2, entry).lines, GenStmt(s.falseBody, uid', entry).lines;
    var l1, l2 := LabelNames(uid + 2, StmtLabels(s.trueBody)), LabelNames(uid', StmtLabels(s.falseBody));
    var n1, n2 := StmtNames(s.trueBody), StmtNames(s.falseBody);
    LabelCount(s.trueBody, uid + 2, entry);
    StmtMatches(s.trueBody, uid + 2, entry);
    StmtMatches(s.falseBody, uid', entry);
    InnerMatches(s.trueBody, uid + 2, entry, uid, n);
    InnerMatches(s.falseBody, uid', entry, uid, n);
    InRangeOf(uid, uid, n);
    InRangeOf(uid + 1, uid, n);
    var rest := MiddleMatches(code2, endLabel, elseLabel, n2, l2, range);
    TwoLabelsAre(uid);
    IfMatches(s.condition, elseLabel, code1, rest, n1, n2, l1, TwoLabels(uid) + l2, range);
    TwoAround(uid, StmtLabels(s.trueBody), StmtLabels(s.falseBody));
  }

  lemma TwoLabelsAre(uid: nat)
    ensures TwoLabels(uid) == multiset{Names.UidLabel(uid)} + multiset{Names.UidLabel(uid + 1)}
  {
  }

  lemma {:induction false} IfThenElseParts(s: Source.Stmt, uid: nat, entry: bool)
    requires s.IfThenElse?
    ensures var g1 := GenStmt(s.trueBody, uid + 2, entry);
      var g2 := GenStmt(s.falseBody, g1.uid, entry);
      GenStmt(s, uid, entry).lines
      == Rvalue(s.condition) + ([Beqz(T0, Names.UidLabel(uid + 1))] + (g1.lines
         + ([B(Names.UidLabel(uid)), Label(Names.UidLabel(uid + 1))] + (g2.lines + [Label(Names.UidLabel(uid))]))))
    ensures StmtNames(s) == Both(ExprNames(s.condition), Both(StmtNames(s.trueBody), StmtNames(s.falseBody)))
    ensures StmtLabels(s) == 2 + StmtLabels(s.trueBody) + StmtLabels(s.falseBody)
  {
    hide GenExpr, ExprNames, Names.UidLabel;
  }

  lemma TwoAround(uid: nat, k1: nat, k2: nat)
    ensures LabelNames(uid + 2, k1) + (TwoLabels(uid) + LabelNames(uid + 2 + k1, k2)) == LabelNames(uid, 2 + k1 + k2)
  {
    hide LabelNames, TwoLabels;
    LabelNamesSum(uid + 2, k1, k2);
    TwoLabelsOnTop(uid, k1 + k2);
    Swap(LabelNames(uid + 2, k1), TwoLabels(uid), LabelNames(uid + 2 + k1, k2));
  }

  /** From the jump over the second branch on. */
  lemma {:induction false} MiddleMatches(code: seq<Line>, endLabel: string, elseLabel: string, n: Summary,
                                         labels: multiset<string>, range: set<string>) returns (rest: seq<Line>)
    requires Matches(code, n, labels, range) && endLabel in range
    ensures rest == [B(endLabel), Label(elseLabel)] + (code + [Label(endLabel)])
    ensures Matches(rest, n, (multiset{endLabel} + multiset{elseLabel}) + labels, range)
  {
    hide Matches, LinesNames;
    var skip, here, last := [B(endLabel)], [Label(elseLabel)], [Label(endLabel)];
    JumpMatches(B(endLabel), endLabel, range);
    LabelMatches(elseLabel, range);
    LabelMatches(endLabel, range);
    rest := [B(endLabel), Label(elseLabel)] + (code + last);
    assert rest == skip + (here + (code + last));
    MatchesAppend(code, last, n, NOTHING, labels, multiset{endLabel}, range);
    NothingBeside(n, NOTHING);
    MatchesAppend(here, code + last, NOTHING, n, multiset{elseLabel}, labels + multiset{endLabel}, range);
    NothingBeside(NOTHING, n);
    MatchesAppend(skip, here + (code + last), NOTHING, n, multiset{}, multiset{elseLabel} + (labels + multiset{endLabel}),
                  range);
    assert multiset{} + (multiset{elseLabel} + (labels + multiset{endLabel}))
      == (multiset{endLabel} + multiset{elseLabel}) + labels;
  }

  lemma {:induction false} ForMatches(s: Source.Stmt, uid: nat, entry: bool)
    requires s.For?
    ensures Matches(GenStmt(s, uid, entry).lines, StmtNames(s), LabelNames(uid, StmtLabels(s)), RangeOf(uid, StmtLabels(s)))
    decreases s, 0
  {
    hide Matches, RangeOf, GenExpr, ExprNames, LinesNames, Names.UidLabel, LoopTail, LabelNames, TwoLabels;
    var n := StmtLabels(s);
    var range := RangeOf(uid, n);
    var endLabel := Names.UidLabel(uid + 2);
    var code := GenStmt(s.body, uid + 3, entry).lines;
    var labels := LabelNames(uid + 3, StmtLabels(s.body));
    var tail := LoopTail(uid, uid + 1, code, RvalueOptional(s.increment), Rvalue(s.condition));
    var names := Both(StmtNames(s.body), Both(OptionalNames(s.increment), ExprNames(s.condition)));
    StmtMatches(s.body, uid + 3, entry);
    InnerMatches(s.body, uid + 3, entry, uid, n);
    InRangeOf(uid, uid, n);
    InRangeOf(uid + 1, uid, n);
    InRangeOf(uid + 2, uid, n);
    ExprMatches(s.condition, false, range);
    OptionalMatches(s.initialize, range);
    OptionalMatches(s.increment, range);
    TailMatches(uid, code, RvalueOptional(s.increment), Rvalue(s.condition), StmtNames(s.body), OptionalNames(s.increment),
                ExprNames(s.condition), labels, range);
    LabelMatches(endLabel, range);
    IfMatches(s.condition, endLabel, tail, [Label(endLabel)], names, NOTHING, TwoLabels(uid) + labels, multiset{endLabel},
              range);
    NothingBeside(names, NOTHING);
    var all := TwoLabels(uid) + labels + multiset{endLabel};
    MatchesAppend(RvalueOptional(s.initialize), Rvalue(s.condition) + ([Beqz(T0, endLabel)] + (tail + [Label(endLabel)])),
                  OptionalNames(s.initialize), Both(ExprNames(s.condition), names), multiset{}, all, range);
    LabelOnTop(uid + 2, StmtLabels(s.body));
    TwoLabelsOnTop(uid, StmtLabels(s.body) + 1);
    NoLabels(all);
    Swap(TwoLabels(uid), labels, multiset{endLabel});
  }

  lemma {:induction false} FunctionMatches(f: string, body: Source.Stmt, uid: nat)
    ensures Matches(GenFunction(f, body, uid).lines, TopLevelNames(Function(f, body)), LabelNames(uid, StmtLabels(body)),
                    RangeOf(uid, StmtLabels(body)))
  {
    hide Matches, RangeOf, LinesNames, GenStmt;
    var range, labels := RangeOf(uid, StmtLabels(body)), LabelNames(uid, StmtLabels(body));
    var entry := f == Source.ENTRY;
    var code := GenStmt(body, uid, entry).lines;
    var first := [if entry then Copy(FP, SP) else Enter];
    var head := Summary(multiset{f}, {}, true);
    StmtMatches(body, uid, entry);
    AnonymousLines([Ret]);
    AnonymousLines(first);
    FunctionLabel(f, range);
    MatchesAppend(code, [Ret], StmtNames(body), NOTHING, labels, multiset{}, range);
    NothingBeside(StmtNames(body), NOTHING);
    MatchesAppend(first, code + [Ret], NOTHING, StmtNames(body), multiset{}, labels + multiset{}, range);
    NothingBeside(NOTHING, StmtNames(body));
    MatchesAppend([Label(f)], first + (code + [Ret]), head, StmtNames(body), multiset{}, multiset{} + (labels + multiset{}),
                  range);
    assert multiset{} + (multiset{} + (labels + multiset{})) == labels;
  }

  lemma FunctionLabel(f: string, range: set<string>)
    ensures Matches([Label(f)], Summary(multiset{f}, {}, true), multiset{}, range)
  {
    LabelNamesIt(f);
  }

  lemma {:induction false} ProgramMatches(ts: seq<TopLevel>, uid: nat)
    ensures Matches(GenProgram(ts, uid).lines, ProgramNames(ts), LabelNames(uid, ProgramLabels(ts)),
                    RangeOf(uid, ProgramLabels(ts)))
  {
    hide Matches, RangeOf, LinesNames, GenTopLevel, StmtNames, StmtLabels, TopLevelNames, LabelNames;
    if ts == [] {
      AnonymousLines([]);
      ZeroLabels(uid);
    } else {
      var t, rest := ts[0], ts[1..];
      var n, k := ProgramLabels(ts), if t.Function? then StmtLabels(t.body) else 0;
      var g := GenTopLevel(t, uid);
      TopLevelMatches(t, uid);
      ProgramMatches(rest, uid + k);
      RangeInside(uid, n, uid, k);
      RangeInside(uid, n, uid + k, ProgramLabels(rest));
      MatchesWiden(g.lines, TopLevelNames(t), LabelNames(uid, k), RangeOf(uid, k), RangeOf(uid, n));
      MatchesWiden(GenProgram(rest, uid + k).lines, ProgramNames(rest), LabelNames(uid + k, ProgramLabels(rest)),
                   RangeOf(uid + k, ProgramLabels(rest)), RangeOf(uid, n));
      MatchesAppend(g.lines, GenProgram(rest, uid + k).lines, TopLevelNames(t), ProgramNames(rest), LabelNames(uid, k),
                    LabelNames(uid + k, ProgramLabels(rest)), RangeOf(uid, n));
      LabelNamesSum(uid, k, ProgramLabels(rest));
    }
  }

  lemma TopLevelMatches(t: TopLevel, uid: nat)
    ensures var k := if t.Function? then StmtLabels(t.body) else 0;
      && GenTopLevel(t, uid).uid == uid + k
      && Matches(GenTopLevel(t, uid).lines, TopLevelNames(t), LabelNames(uid, k), RangeOf(uid, k))
  {
    hide Matches, RangeOf, LinesNames, GenStmt, Declare, StmtNames, StmtLabels;
    match t
    case Global(x, kind) =>
      DeclarationMatches(x, kind, false, RangeOf(uid, 0));
    case Function(f, body) =>
      LabelCount(body, uid, f == Source.ENTRY);
      FunctionMatches(f, body, uid);
  }

  /** A generated program assembles exactly when the source names things well. */
  lemma ProgramAssembles(ts: seq<TopLevel>, uid: nat)
    ensures Assembles(GenProgram(ts, uid).lines) <==> WellNamed(ts, uid)
  {
    hide Assembles, GenProgram, LinesNames, IsLabelOf, Names.UidLabel, Names.IsName, LabelNames;
    var lines, k := GenProgram(ts, uid).lines, ProgramLabels(ts);
    var l, n := LinesNames(lines), ProgramNames(ts);
    LinesAssemble(lines);
    ProgramMatches(ts, uid);
    forall x ensures LabelNames(uid, k)[x] == if IsLabelOf(x, uid, k) then 1 else 0 {
      LabelsOnce(uid, k, x);
    }
    forall x ensures x in RangeOf(uid, k) <==> IsLabelOf(x, uid, k) {
      RangeIsLabels(x, uid, k);
    }
    if Sound(l) {
      forall x | x in n.defined ensures n.defined[x] == 1 && Names.IsName(x) && !IsLabelOf(x, uid, k) {
        assert l.defined[x] == 1;
      }
      forall x | x in n.used ensures x in n.defined || IsLabelOf(x, uid, k) {
        assert x in l.defined;
      }
    }
    if WellNamed(ts, uid) {
      forall x | x in l.defined ensures l.defined[x] == 1 && Names.IsName(x) {
        if x !in n.defined {
          GeneratedIsName(x, uid, k);
        }
      }
      forall x | x in l.used ensures x in l.defined {
      }
    }
  }

  lemma GeneratedIsName(x: string, uid: nat, n: nat)
    requires IsLabelOf(x, uid, n)
    ensures Names.IsName(x)
  {
    var k :| uid <= k < uid + n && x == Names.UidLabel(k);
    Names.UidLabelIsName(k);
  }

  lemma RangeIsLabels(x: string, uid: nat, n: nat)
    ensures x in RangeOf(uid, n) <==> IsLabelOf(x, uid, n)
  {
  }

  /** A variable or function spelled like an instruction, in either case, is refused wherever it is declared. */
  lemma WordRefused(ts: seq<TopLevel>, uid: nat, x: string)
    requires Names.IsMnemonic(x) && x in ProgramNames(ts).defined
    ensures !Assembles(GenProgram(ts, uid).lines)
  {
    hide Names.IsMnemonic, Assembles, GenProgram, ProgramNames;
    ProgramAssembles(ts, uid);
  }

  /** Such as `b`, or `J`. */
  lemma WordsOfInstructions()
    ensures Names.IsMnemonic("b") && Names.IsMnemonic("J") && Names.IsIdentifier("b") && Names.IsIdentifier("J")
  {
    assert Names.LowerCase("b") == "b" && Names.LowerCase("J") == "j";
  }

  // ----- declared variables -----

  /** Every declaration in it is of four bytes. */
  predicate WordsOnly(e: Source.Expr) {
    match e
    case Declaration(_, kind) => kind == Source.U32 || kind == Source.S32
    case Indirection(r) => WordsOnly(r)
    case Comma(first, second) => WordsOnly(first) && WordsOnly(second)
    case Binary(_, lhs, rhs) => WordsOnly(lhs) && WordsOnly(rhs)
    case Assignment(lhs, rhs) => WordsOnly(lhs) && WordsOnly(rhs)
    case _ => true
  }

  predicate WordsOnlyIn(s: Source.Stmt) {
    match s
    case Empty => true
    case Expression(e) => WordsOnly(e)
    case Return(e) => WordsOnly(e)
    case Compound(first, second) => WordsOnlyIn(first) && WordsOnlyIn(second)
    case IfThen(condition, trueBody) => WordsOnly(condition) && WordsOnlyIn(trueBody)
    case IfThenElse(condition, trueBody, falseBody) =>
      WordsOnly(condition) && WordsOnlyIn(trueBody) && WordsOnlyIn(falseBody)
    case While(condition, body) => WordsOnly(condition) && WordsOnlyIn(body)
    case For(initialize, condition, increment, body) =>
      && (initialize.Some? ==> WordsOnly(initialize.value)) && WordsOnly(condition)
      && (increment.Some? ==> WordsOnly(increment.value)) && WordsOnlyIn(body)
  }

  lemma {:induction false} ExprVariables(e: Source.Expr, x: string)
    requires WordsOnly(e)
    ensures x in Declarations.DeclaredInExpr(e) <==> x in ExprNames(e).defined
  {
    match e
    case Indirection(r) => ExprVariables(r, x);
    case Comma(first, second) =>
      ExprVariables(first, x);
      ExprVariables(second, x);
    case Binary(_, lhs, rhs) =>
      ExprVariables(lhs, x);
      ExprVariables(rhs, x);
    case Assignment(lhs, rhs) =>
      ExprVariables(lhs, x);
      ExprVariables(rhs, x);
    case _ =>
  }

  lemma OptionalVariables(e: Option<Source.Expr>, x: string)
    requires e.Some? ==> WordsOnly(e.value)
    ensures x in Declarations.DeclaredInOptional(e) <==> x in OptionalNames(e).defined
  {
    if e.Some? {
      ExprVariables(e.value, x);
    }
  }

  lemma {:induction false} StmtVariables(s: Source.Stmt, x: string)
    requires WordsOnlyIn(s)
    ensures x in Declarations.DeclaredInStmt(s) <==> x in StmtNames(s).defined
  {
    hide ExprNames, WordsOnly, Declarations.DeclaredInExpr;
    match s
    case Empty =>
    case Expression(e) => ExprVariables(e, x);
    case Return(e) => ExprVariables(e, x);
    case Compound(first, second) =>
      StmtVariables(first, x);
      StmtVariables(second, x);
    case IfThen(condition, trueBody) =>
      ExprVariables(condition, x);
      StmtVariables(trueBody, x);
    case IfThenElse(condition, trueBody, falseBody) =>
      ExprVariables(condition, x);
      StmtVariables(trueBody, x);
      StmtVariables(falseBody, x);
    case While(condition, body) =>
      ExprVariables(condition, x);
      StmtVariables(body, x);
    case For(initialize, condition, increment, body) =>
      OptionalVariables(initialize, x);
      ExprVariables(condition, x);
      OptionalVariables(increment, x);
      StmtVariables(body, x);
  }

  predicate WordsOnlyAt(t: TopLevel) {
    match t
    case Global(_, kind) => kind == Source.U32 || kind == Source.S32
    case Function(_, body) => WordsOnlyIn(body)
  }

  /** Every name a program of four-byte declarations defines is a variable's or a function's. */
  lemma {:induction false} ProgramVariables(ts: seq<TopLevel>, x: string)
    requires forall t | t in ts :: WordsOnlyAt(t)
    ensures x in ProgramNames(ts).defined <==>
      x in Declarations.DeclaredInProgram(ts) || exists i | 0 <= i < |ts| :: ts[i].Function? && ts[i].name == x
  {
    hide StmtNames, Declarations.DeclaredInStmt, WordsOnlyIn;
    if ts != [] {
      var t, rest := ts[0], ts[1..];
      assert t in ts && forall u | u in rest :: u in ts;
      ProgramVariables(rest, x);
      assert WordsOnlyAt(t);
      if t.Function? {
        StmtVariables(t.body, x);
      }
      forall i | 0 <= i < |rest| ensures rest[i] == ts[i + 1] {
      }
      assert x in TopLevelNames(t).defined <==>
        (t.Global? && t.name == x) || (t.Function? && (t.name == x || x in StmtNames(t.body).defined));
    }
  }
}

/** Macro calls that begin and end, and labels defined between: what the names mean after any run. */
module MacroRuns {
  import opened Names
  import opened Assembly
  import opened Assembler
  import opened MacroLabels

  // ----- runs of macro calls and labels -----

  datatype Step =
    | Begin(call: MacroCall)
    | End
    | Colon
    | Label(name: string, location: nat)

  /** A label reduced: whether it was in a macro, its name as written, its location. */
  datatype Labelled = Labelled(inMacro: bool, name: string, location: nat)

  /** A call as it began, and the labels defined in it since, each by its number among all labels. */
  datatype Frame = Frame(call: MacroCall, labels: seq<nat>)

  /** What a run has done so far. */
  datatype Progress = Progress(frames: seq<Frame>, colons: seq<bool>, labels: seq<Labelled>)

  /** An end ends a call, a label had its colon; the callback and the grammar see to it. */
  predicate Possible(step: Step, p: Progress) {
    match step
    case Begin(_) | Colon => true
    case End => p.frames != []
    case Label(_, _) => p.colons != []
  }

  function After(step: Step, p: Progress): Progress
    requires Possible(step, p)
  {
    match step
    case Begin(call) => p.(frames := p.frames + [Frame(call, [])])
    case End => p.(frames := p.frames[..|p.frames| - 1])
    case Colon => p.(colons := p.colons + [p.frames != []])
    case Label(name, location) =>
      var n, inMacro := |p.frames|, p.colons[|p.colons| - 1];
      Progress(
        if inMacro && n > 0 then p.frames[n - 1 := NextLabel(p.frames[n - 1], |p.labels|)] else p.frames,
        p.colons[..|p.colons| - 1],
        p.labels + [Labelled(inMacro, name, location)])
  }

  function NextLabel(f: Frame, k: nat): Frame {
    f.(labels := f.labels + [k])
  }

  /** What every run keeps: a call's labels are among all labels, each one there once. */
  predicate Ordered(p: Progress) {
    forall f | f in p.frames :: OrderedFrame(f, |p.labels|)
  }

  predicate OrderedFrame(f: Frame, n: nat) {
    && (forall i | 0 <= i < |f.labels| :: f.labels[i] < n)
    && forall i, j | 0 <= i < j < |f.labels| :: f.labels[i] < f.labels[j]
  }

  lemma {:induction false} StaysOrdered(step: Step, p: Progress)
    requires Ordered(p) && Possible(step, p)
    ensures Ordered(After(step, p))
  {
    var q := After(step, p);
    forall f | f in q.frames ensures OrderedFrame(f, |q.labels|) {
      if step.Begin? && f == Frame(step.call, []) {
      } else if f !in p.frames {
        var n := |p.frames|;
        assert f == NextLabel(p.frames[n - 1], |p.labels|);
        assert p.frames[n - 1] in p.frames;
      }
    }
  }

  predicate AllPossible(steps: seq<Step>, p: Progress) {
    steps == [] || (Possible(steps[0], p) && AllPossible(steps[1..], After(steps[0], p)))
  }

  function AfterAll(steps: seq<Step>, p: Progress): Progress
    requires AllPossible(steps, p)
  {
    if steps == [] then p else AfterAll(steps[1..], After(steps[0], p))
  }

  // ----- runs told by their steps -----

  const START := Progress([], [], [])

  /** Calls begun and not ended. */
  function Depth(steps: seq<Step>): int {
    if steps == [] then 0
    else
      var last := steps[|steps| - 1];
      Depth(steps[..|steps| - 1]) + if last.Begin? then 1 else if last.End? then -1 else 0
  }

  /** Colons whose labelled statement has not been reduced. */
  function Unreduced(steps: seq<Step>): int {
    if steps == [] then 0
    else
      var last := steps[|steps| - 1];
      Unreduced(steps[..|steps| - 1]) + if last.Colon? then 1 else if last.Label? then -1 else 0
  }

  function LabelsIn(steps: seq<Step>): nat {
    if steps == [] then 0 else LabelsIn(steps[..|steps| - 1]) + if steps[|steps| - 1].Label? then 1 else 0
  }

  /** The label at `k` is that of the colon at `c`: what stands between them is nested. */
  predicate Closes(steps: seq<Step>, c: nat, k: nat) {
    c < k < |steps| && steps[c].Colon? && steps[k].Label? && Nested(steps, c + 1, k) && Unreduced(steps[c + 1..k]) == 0
  }

  /** No label before its colon. */
  predicate Nested(steps: seq<Step>, i: nat, k: nat)
    requires i <= k <= |steps|
  {
    forall m | i <= m <= k :: Unreduced(steps[i..m]) >= 0
  }

  lemma {:induction false} UnreducedAppend(a: seq<Step>, b: seq<Step>)
    ensures Unreduced(a + b) == Unreduced(a) + Unreduced(b)
  {
    if b == [] {
      assert a + b == a;
    } else {
      assert (a + b)[..|a + b| - 1] == a + b[..|b| - 1];
      UnreducedAppend(a, b[..|b| - 1]);
    }
  }

  /** Every part of a run that is possible is. */
  lemma {:induction false} PossiblePrefix(steps: seq<Step>, m: nat, p: Progress)
    requires AllPossible(steps, p) && m < |steps|
    ensures AllPossible(steps[..m], p) && AllPossible(steps[..m + 1], p) && Possible(steps[m], AfterAll(steps[..m], p))
    ensures AfterAll(steps[..m + 1], p) == After(steps[m], AfterAll(steps[..m], p))
  {
    hide Possible, After;
    if m == 0 {
      assert steps[..1][1..] == [];
    } else {
      PossiblePrefix(steps[1..], m - 1, After(steps[0], p));
      assert steps[..m][1..] == steps[1..][..m - 1] && steps[..m + 1][1..] == steps[1..][..m];
    }
  }

  /** How many calls and colons are open, and how many labels there are. */
  lemma {:induction false} CountsOf(steps: seq<Step>)
    requires AllPossible(steps, START)
    ensures var p := AfterAll(steps, START);
      |p.frames| == Depth(steps) && |p.colons| == Unreduced(steps) && |p.labels| == LabelsIn(steps)
  {
    if steps != [] {
      var m := |steps| - 1;
      PossiblePrefix(steps, m, START);
      assert steps[..m + 1] == steps;
      CountsOf(steps[..m]);
    }
  }

  /** What was noted at a colon stays where it was until its label is reduced. */
  lemma {:induction false} FlagStays(steps: seq<Step>, c: nat, m: nat)
    requires AllPossible(steps, START) && c < m <= |steps| && steps[c].Colon? && Nested(steps, c + 1, m)
    ensures AllPossible(steps[..m], START) && Unreduced(steps[..c]) >= 0
    ensures var colons, i := AfterAll(steps[..m], START).colons, Unreduced(steps[..c]);
      |colons| == i + 1 + Unreduced(steps[c + 1..m]) && colons[i] == (Depth(steps[..c]) > 0)
    decreases m
  {
    hide AllPossible, AfterAll, Depth;
    PossiblePrefix(steps, m - 1, START);
    PossiblePrefix(steps, c, START);
    CountsOf(steps[..c]);
    if m == c + 1 {
      assert steps[c + 1..m] == [];
    } else {
      FlagStays(steps, c, m - 1);
      assert steps[c + 1..m][..m - c - 2] == steps[c + 1..m - 1] && steps[c + 1..m][m - c - 2] == steps[m - 1];
    }
  }

  /** So a label is in a macro exactly when its own colon was. */
  lemma {:induction false} FlagOfLabel(steps: seq<Step>, c: nat, k: nat)
    requires AllPossible(steps, START) && Closes(steps, c, k)
    ensures AllPossible(steps[..k], START)
    ensures var colons := AfterAll(steps[..k], START).colons;
      colons != [] && colons[|colons| - 1] == (Depth(steps[..c]) > 0)
  {
    hide AllPossible, AfterAll, Depth, Unreduced;
    FlagStays(steps, c, k);
  }

  /** Every label closes a colon. */
  lemma {:induction false} FindColon(steps: seq<Step>, i: nat, pending: int, k: nat) returns (c: nat)
    requires 0 <= pending && i <= k < |steps| && steps[k].Label? && Unreduced(steps[..i]) > pending
    requires Unreduced(steps[i..k]) == -pending && forall m | i <= m <= k :: Unreduced(steps[i..m]) >= -pending
    ensures Closes(steps, c, k)
    decreases i
  {
    var s := steps[i - 1];
    var w := if s.Colon? then 1 else if s.Label? then -1 else 0;
    assert steps[..i][..i - 1] == steps[..i - 1];
    if s.Colon? && pending == 0 {
      c := i - 1;
    } else {
      var j := i - 1;
      forall m | j <= m <= k ensures Unreduced(steps[j..m]) == if m < i then 0 else w + Unreduced(steps[i..m]) {
        if m < i {
          assert steps[j..m] == [];
        } else {
          assert steps[j..m] == [s] + steps[i..m];
          UnreducedAppend([s], steps[i..m]);
          assert [s][..0] == [];
        }
      }
      c := FindColon(steps, j, pending - w, k);
    }
  }

  lemma {:induction false} EveryLabelCloses(steps: seq<Step>, k: nat) returns (c: nat)
    requires AllPossible(steps, START) && k < |steps| && steps[k].Label?
    ensures Closes(steps, c, k)
  {
    hide AllPossible, AfterAll;
    PossiblePrefix(steps, k, START);
    CountsOf(steps[..k]);
    assert steps[k..k] == [];
    c := FindColon(steps, k, 0, k);
  }

  /** The labels of a run in order, each with what was noted at its colon. */
  lemma {:induction false} LabelAt(steps: seq<Step>, k: nat, n: nat)
    requires AllPossible(steps, START) && k < n <= |steps| && steps[k].Label?
    ensures AllPossible(steps[..k], START) && AllPossible(steps[..n], START)
    ensures var colons, labels, i := AfterAll(steps[..k], START).colons, AfterAll(steps[..n], START).labels,
                                     LabelsIn(steps[..k]);
      && colons != [] && i < |labels|
      && labels[i] == Labelled(colons[|colons| - 1], steps[k].name, steps[k].location)
    decreases n
  {
    hide AllPossible, AfterAll;
    PossiblePrefix(steps, n - 1, START);
    PossiblePrefix(steps, k, START);
    CountsOf(steps[..k]);
    if n > k + 1 {
      LabelAt(steps, k, n - 1);
    }
  }

  /** From `k` on up to `n`, the call that was innermost then has not ended. */
  predicate StaysDeep(steps: seq<Step>, k: nat, n: nat)
    requires k <= n <= |steps|
  {
    forall m | k <= m <= n :: Depth(steps[..m]) >= Depth(steps[..k])
  }

  lemma {:induction false} FrameHas(steps: seq<Step>, k: nat, n: nat)
    requires AllPossible(steps, START) && k < n <= |steps| && steps[k].Label? && StaysDeep(steps, k, n)
    requires AllPossible(steps[..k], START)
    requires var p := AfterAll(steps[..k], START); p.colons != [] && p.colons[|p.colons| - 1] && p.frames != []
    ensures AllPossible(steps[..n], START)
    ensures var frames, d := AfterAll(steps[..n], START).frames, Depth(steps[..k]) - 1;
      0 <= d < |frames| && LabelsIn(steps[..k]) in frames[d].labels
    decreases n
  {
    hide AllPossible, AfterAll, Depth;
    PossiblePrefix(steps, n - 1, START);
    CountsOf(steps[..k]);
    CountsOf(steps[..n]);
    CountsOf(steps[..n - 1]);
    if n == k + 1 {
      var f, i := AfterAll(steps[..k], START).frames[Depth(steps[..k]) - 1], LabelsIn(steps[..k]);
      assert NextLabel(f, i).labels[|f.labels|] == i;
    } else {
      assert StaysDeep(steps, k, n - 1);
      FrameHas(steps, k, n - 1);
      FrameKeeps(steps[n - 1], AfterAll(steps[..n - 1], START), Depth(steps[..k]) - 1, LabelsIn(steps[..k]));
    }
  }

  /** A step that leaves the call on the stack leaves it its labels. */
  lemma FrameKeeps(step: Step, p: Progress, d: nat, i: nat)
    requires Possible(step, p) && d < |p.frames| && d < |After(step, p).frames| && i in p.frames[d].labels
    ensures i in After(step, p).frames[d].labels
  {
    var j :| 0 <= j < |p.frames[d].labels| && p.frames[d].labels[j] == i;
    assert After(step, p).frames[d].labels[j] == i;
  }

  lemma ClosesBefore(steps: seq<Step>, c: nat, k: nat)
    requires Closes(steps, c, k)
    ensures c < k < |steps| && steps[k].Label?
  {
  }

  /** From step `n` on, every label's colon is inside a call, and so is the label when it is reduced. */
  ghost predicate InsideOnly(steps: seq<Step>, n: nat) {
    forall c: nat, k: nat | Closes(steps, c, k) && n <= k :: Depth(steps[..c]) > 0 && Depth(steps[..k]) > 0
  }

  lemma Outside(steps: seq<Step>, n: nat, history: seq<Step>, step: Step, c: nat)
    requires n <= |history| < |steps| && steps[..|history|] == history && steps[|history|] == step
    requires Closes(history + [step], c, |history|)
    requires Depth(history[..c]) <= 0 || Depth(history) == 0
    ensures !InsideOnly(steps, n)
  {
    hide Unreduced, Depth;
    var some, k := history + [step], |history|;
    var i := c + 1;
    forall m | i <= m <= k ensures some[i..m] == steps[i..m] {
      assert steps[..k][i..m] == steps[i..m];
    }
    assert Nested(steps, i, k) by {
      forall m | i <= m <= k ensures Unreduced(steps[i..m]) >= 0 {
        assert Unreduced(some[i..m]) >= 0;
      }
    }
    assert Closes(steps, c, k);
    assert steps[..c] == history[..c];
  }

  // ----- the calls and the definitions after a run -----

  function Written(labels: seq<nat>, all: seq<Labelled>): seq<string>
    requires forall i | 0 <= i < |labels| :: labels[i] < |all|
  {
    seq(|labels|, i requires 0 <= i < |labels| => all[labels[i]].name)
  }

  function Generated(labels: seq<nat>, ds: seq<Definition>): seq<string>
    requires forall i | 0 <= i < |labels| :: labels[i] < |ds|
  {
    seq(|labels|, i requires 0 <= i < |labels| => ds[labels[i]].name)
  }

  /** The call with its labels behind its parameters, and their definitions' names behind its arguments. */
  function Extended(f: Frame, all: seq<Labelled>, ds: seq<Definition>): MacroCall
    requires OrderedFrame(f, |all|) && |ds| == |all|
  {
    f.call.(parameters := f.call.parameters + Written(f.labels, all),
            arguments := f.call.arguments + Generated(f.labels, ds))
  }

  /** The name with the first number that makes it free. */
  ghost predicate FirstFree(name: string, unique: string, taken: set<string>) {
    exists x :: unique == name + Decimal(x) && unique !in taken && Candidates(name, x) <= taken
  }

  /** A definition is at its label's location; in a macro its name has a number behind it. */
  ghost predicate Defines(d: Definition, l: Labelled) {
    d.location == l.location && if l.inMacro then exists x :: d.name == l.name + Decimal(x) else d.name == l.name
  }

  ghost predicate AllDefine(ds: seq<Definition>, labels: seq<Labelled>) {
    |ds| == |labels| && forall i | 0 <= i < |ds| :: Defines(ds[i], labels[i])
  }

  /** The stack of calls is what the run says. */
  predicate Reflects(stack: seq<MacroCall>, p: Progress, ds: seq<Definition>)
    requires Ordered(p) && |ds| == |p.labels|
  {
    |stack| == |p.frames| && forall i | 0 <= i < |stack| :: stack[i] == Extended(p.frames[i], p.labels, ds)
  }

  lemma {:induction false} OneMoreLabel(f: Frame, all: seq<Labelled>, ds: seq<Definition>, l: Labelled, d: Definition)
    requires OrderedFrame(f, |all|) && |ds| == |all|
    ensures Extended(f, all + [l], ds + [d]) == Extended(f, all, ds)
    ensures OrderedFrame(NextLabel(f, |all|), |all| + 1)
    ensures Extended(NextLabel(f, |all|), all + [l], ds + [d]) == WithLabel(Extended(f, all, ds), l.name, d.name)
  {
    var a, g := f.call.parameters, f.call.arguments;
    assert Written(f.labels, all + [l]) == Written(f.labels, all);
    assert Generated(f.labels, ds + [d]) == Generated(f.labels, ds);
    assert a + Written(f.labels + [|all|], all + [l]) == (a + Written(f.labels, all)) + [l.name];
    assert g + Generated(f.labels + [|all|], ds + [d]) == (g + Generated(f.labels, ds)) + [d.name];
  }

  /** The innermost call gets the label if it is in a macro, every other call stays as it is. */
  lemma {:induction false} LabelReflected(stack: seq<MacroCall>, p: Progress, ds: seq<Definition>, step: Step,
                                          d: Definition)
    requires step.Label? && Possible(step, p) && Ordered(p) && |ds| == |p.labels| && Reflects(stack, p, ds)
    requires p.colons[|p.colons| - 1] ==> stack != []
    ensures var q, n := After(step, p), |stack|;
      Ordered(q) && |ds| + 1 == |q.labels|
      && Reflects(
           if p.colons[|p.colons| - 1] then stack[n - 1 := WithLabel(stack[n - 1], step.name, d.name)] else stack,
           q, ds + [d])
  {
    hide Extended, OrderedFrame;
    StaysOrdered(step, p);
    var q, n, l := After(step, p), |stack|, Labelled(p.colons[|p.colons| - 1], step.name, step.location);
    forall i | 0 <= i < n ensures
      Extended(q.frames[i], q.labels, ds + [d])
        == if l.inMacro && i == n - 1 then WithLabel(stack[i], l.name, d.name) else stack[i]
    {
      assert p.frames[i] in p.frames && q.frames[i] in q.frames;
      OneMoreLabel(p.frames[i], p.labels, ds, l, d);
    }
  }

  /** No parameter, and no label of the call before the one at `j`, has its name. */
  predicate FirstOfName(f: Frame, all: seq<Labelled>, j: nat)
    requires OrderedFrame(f, |all|) && j < |f.labels|
  {
    var name := all[f.labels[j]].name;
    name !in f.call.parameters && forall i | 0 <= i < j :: all[f.labels[i]].name != name
  }

  /** As many arguments as parameters, or the one too many in the place of the call's label `j` is `own`. */
  predicate Matched(call: MacroCall, j: nat, own: string) {
    var k, n := |call.parameters| + j, |call.arguments|;
    n == |call.parameters| || (k < n && call.arguments[k] == own)
  }

  lemma ExtendedHas(f: Frame, all: seq<Labelled>, ds: seq<Definition>, i: nat)
    requires OrderedFrame(f, |all|) && |ds| == |all| && i in f.labels
    ensures i < |all|
    ensures all[i].name in Extended(f, all, ds).parameters && ds[i].name in Extended(f, all, ds).arguments
  {
    var j :| 0 <= j < |f.labels| && f.labels[j] == i;
    assert Written(f.labels, all)[j] == all[i].name && Generated(f.labels, ds)[j] == ds[i].name;
  }

  /** In a call of a run, a label that is the first of its name means its own definition if and only if the
      call began with as many arguments as parameters, or the one too many in its place happens to be the
      generated name. */
  lemma {:induction false} LabelOfRun(f: Frame, all: seq<Labelled>, ds: seq<Definition>, j: nat)
    requires OrderedFrame(f, |all|) && |ds| == |all| && Distinct(ds)
    requires j < |f.labels| && FirstOfName(f, all, j)
    ensures var own := ds[f.labels[j]].name;
      MeaningOf(Extended(f, all, ds), all[f.labels[j]].name) == Argument(own) <==> Matched(f.call, j, own)
  {
    var c, name := Extended(f, all, ds), all[f.labels[j]].name;
    var k, n := |f.call.parameters| + j, |f.call.arguments|;
    assert c.parameters[k] == name;
    forall i | 0 <= i < k ensures c.parameters[i] != name {
      if i < |f.call.parameters| {
        assert c.parameters[i] == f.call.parameters[i];
      }
    }
    FirstIs(c.parameters, name, k);
    if n <= k < |c.arguments| {
      var m := k - n;
      assert c.arguments[k] == ds[f.labels[m]].name;
      assert m < j ==> f.labels[m] < f.labels[j];
      assert m > j ==> f.labels[j] < f.labels[m];
    }
  }

  /** A parameter keeps its argument over all labels of the call. */
  lemma {:induction false} ParameterOfRun(f: Frame, all: seq<Labelled>, ds: seq<Definition>, name: string)
    requires OrderedFrame(f, |all|) && |ds| == |all| && name in f.call.parameters
    requires |f.call.parameters| <= |f.call.arguments|
    ensures MeaningOf(Extended(f, all, ds), name) == MeaningOf(f.call, name)
  {
    FirstInLonger(f.call.parameters, Written(f.labels, all), name);
  }

  lemma NewLabel(d: Definition, inMacro: bool, name: string)
    requires if inMacro then exists x :: d.name == name + Decimal(x) else d.name == name
    ensures Defines(d, Labelled(inMacro, name, d.location))
  {
  }

  lemma AfterLabel(step: Step, p: Progress)
    requires step.Label? && Possible(step, p)
    ensures var q := After(step, p);
      && q.colons == p.colons[..|p.colons| - 1]
      && q.labels == p.labels + [Labelled(p.colons[|p.colons| - 1], step.name, step.location)]
  {
  }

  // ----- the parser's state -----

  datatype Outcome = Done | Redefinition | NoCall

  /** The steps have led here. */
  ghost predicate Told(history: seq<Step>, p: Progress) {
    AllPossible(history, START) && p == AfterAll(history, START)
  }

  lemma ToldMore(history: seq<Step>, p: Progress, step: Step)
    requires Told(history, p) && Possible(step, p)
    ensures Told(history + [step], After(step, p))
  {
    OneMoreStep(history, step, START);
  }

  class ParserContext {
    const assembler: Assembler
    var macroCallStack: seq<MacroCall>
    /** For each open labelled statement, whether a macro was being expanded at its colon. */
    var labelInMacro: seq<bool>
    /** The definitions made before the run. */
    ghost var base: seq<Definition>
    ghost var progress: Progress
    /** Every step since the parser started. */
    ghost var history: seq<Step>

    ghost function Made(): seq<Definition>
      requires |base| <= |assembler.definitions|
      reads this`base, assembler`definitions
    {
      assembler.definitions[|base|..]
    }

    /** The definitions are the old ones and one for each label in order, all distinct, and each call on the
        stack has got just its own labels. */
    ghost predicate Valid()
      reads this, assembler, assembler.binary
    {
      && assembler.Parsing() && Ordered(progress) && labelInMacro == progress.colons
      && |base| <= |assembler.definitions| && assembler.definitions[..|base|] == base
      && AllDefine(Made(), progress.labels)
      && Reflects(macroCallStack, progress, Made())
      && Told(history, progress)
    }

    constructor (assembler: Assembler)
      requires assembler.Parsing()
      ensures Valid() && this.assembler == assembler && base == assembler.definitions
      ensures progress == START && history == [] && macroCallStack == []
    {
      this.assembler := assembler;
      macroCallStack, labelInMacro := [], [];
      base, progress, history := assembler.definitions, START, [];
    }

    method BeginCall(call: MacroCall)
      requires Valid()
      modifies this`macroCallStack, this`progress, this`history
      ensures Valid() && progress == After(Begin(call), old(progress)) && history == old(history) + [Begin(call)]
      ensures macroCallStack == old(macroCallStack) + [call]
    {
      hide Told;
      StaysOrdered(Begin(call), progress);
      ToldMore(history, progress, Begin(call));
      macroCallStack := macroCallStack + [call];
      progress, history := After(Begin(call), progress), history + [Begin(call)];
    }

    /** The callback at the end of the innermost call's text. */
    method EndCall()
      requires Valid() && macroCallStack != []
      modifies this`macroCallStack, this`progress, this`history
      ensures Valid() && progress == After(End, old(progress)) && history == old(history) + [End]
      ensures macroCallStack == old(macroCallStack)[..|old(macroCallStack)| - 1]
    {
      hide Told;
      StaysOrdered(End, progress);
      ToldMore(history, progress, End);
      macroCallStack := macroCallStack[..|macroCallStack| - 1];
      progress, history := After(End, progress), history + [End];
    }

    /** Whether a label is in a macro is noted at its colon. */
    method ReadColon()
      requires Valid()
      modifies this`labelInMacro, this`progress, this`history
      ensures Valid() && progress == After(Colon, old(progress)) && history == old(history) + [Colon]
      ensures labelInMacro == old(labelInMacro) + [old(macroCallStack) != []] && macroCallStack == old(macroCallStack)
    {
      hide Told;
      StaysOrdered(Colon, progress);
      ToldMore(history, progress, Colon);
      labelInMacro := labelInMacro + [macroCallStack != []];
      progress, history := After(Colon, progress), history + [Colon];
    }

    method DefineMacroLabel(name: string, location: nat) returns (unique: string)
      requires Valid() && macroCallStack != []
      modifies this`macroCallStack, assembler`labelLocations, assembler`definitions
      ensures assembler.Parsing()
      ensures assembler.definitions == old(assembler.definitions) + [Definition(unique, location)]
      ensures !old(assembler.IsIdentifierDefined(unique))
      ensures FirstFree(name, unique, old(Taken(assembler, macroCallStack[|macroCallStack| - 1].parameters)))
      ensures var n := |old(macroCallStack)|;
        && macroCallStack == old(macroCallStack)[n - 1 := WithLabel(old(macroCallStack)[n - 1], name, unique)]
        && unique !in old(macroCallStack)[n - 1].parameters
    {
      hide Assembler.Parsing, AllDefine, Reflects, Ordered;
      var n, call := |macroCallStack|, macroCallStack[|macroCallStack| - 1];
      var x := FreshName(assembler, call.parameters, name);
      unique := name + Decimal(x);
      macroCallStack := macroCallStack[n - 1 := WithLabel(call, name, unique)];
      var ok := assembler.DefineLabel(unique, location);
      assert unique == name + Decimal(x);
    }

    /** The action behind a labelled statement: the label goes to whichever call is innermost by now, and
        there may be none. */
    method ReduceLabel(name: string, location: nat) returns (r: Outcome)
      requires Valid() && labelInMacro != []
      modifies this`macroCallStack, this`labelInMacro, this`progress, this`history,
        assembler`labelLocations, assembler`definitions
      ensures var inMacro := old(labelInMacro)[|old(labelInMacro)| - 1];
        && (r == NoCall <==> inMacro && old(macroCallStack) == [])
        && (r == Redefinition <==> !inMacro && old(assembler.IsIdentifierDefined(name)))
      ensures Valid()
      ensures progress == if r == Done then After(Step.Label(name, location), old(progress)) else old(progress)
      ensures history == if r == Done then old(history) + [Step.Label(name, location)] else old(history)
      ensures r == Done ==>
        var inMacro, n, stack := old(labelInMacro)[|old(labelInMacro)| - 1], |old(macroCallStack)|, old(macroCallStack);
        && |assembler.definitions| == |old(assembler.definitions)| + 1
        && var d := assembler.definitions[|old(assembler.definitions)|];
        && assembler.definitions == old(assembler.definitions) + [d] && d.location == location
        && (inMacro ==> FirstFree(name, d.name, old(Taken(assembler, macroCallStack[|macroCallStack| - 1].parameters))))
        && (!inMacro ==> d.name == name)
        && macroCallStack == (if inMacro then stack[n - 1 := WithLabel(stack[n - 1], name, d.name)] else stack)
      ensures r != Done ==>
        && assembler.labelLocations == old(assembler.labelLocations)
        && macroCallStack == old(macroCallStack) && labelInMacro == old(labelInMacro)
    {
      hide Assembler.Parsing, Reflects, Ordered, Defines, After, WithLabel, Told;
      ghost var p, ds, step := progress, Made(), Step.Label(name, location);
      var unique, inMacro := name, labelInMacro[|labelInMacro| - 1];
      if inMacro {
        if macroCallStack == [] {
          return NoCall;
        }
        unique := DefineMacroLabel(name, location);
      } else {
        var ok := assembler.DefineLabel(name, location);
        if !ok {
          return Redefinition;
        }
      }
      labelInMacro := labelInMacro[..|labelInMacro| - 1];
      ToldMore(history, progress, step);
      progress, history := After(step, progress), history + [step];
      ghost var d := Definition(unique, location);
      NewLabel(d, inMacro, name);
      assert Made() == ds + [d];
      LabelReflected(old(macroCallStack), p, ds, step, d);
      AfterLabel(step, p);
      return Done;
    }

    /** A label in a macro has no call left, or one outside is a label or a macro already. */
    predicate Refused(step: Step)
      reads this, assembler
    {
      && step.Label? && labelInMacro != []
      && if labelInMacro[|labelInMacro| - 1] then macroCallStack == [] else assembler.IsIdentifierDefined(step.name)
    }

    method Perform(step: Step) returns (ok: bool)
      requires Valid() && Possible(step, progress)
      modifies this`macroCallStack, this`labelInMacro, this`progress, this`history,
        assembler`labelLocations, assembler`definitions
      ensures Valid() && ok == !old(Refused(step)) && (!ok ==> Refused(step))
      ensures progress == (if ok then After(step, old(progress)) else old(progress))
      ensures history == if ok then old(history) + [step] else old(history)
    {
      hide Reflects, AllDefine, Ordered, After, Told;
      SameDepth();
      match step
      case Begin(call) => BeginCall(call); ok := true;
      case End => EndCall(); ok := true;
      case Colon => ReadColon(); ok := true;
      case Label(name, location) =>
        var r := ReduceLabel(name, location);
        ok := r == Done;
    }

    lemma SameDepth()
      requires Valid()
      ensures |macroCallStack| == |progress.frames| && labelInMacro == progress.colons
    {
    }

    /** For every list of steps, up to the first label that is refused: the definitions are the old ones and
        one for each label, all distinct, and every call still on the stack has got just the labels that
        were reduced while it was innermost. A label whose colon came inside a call is refused only if no call
        is left, any other only if it is defined already. */
    method Run(steps: seq<Step>) returns (done: nat)
      requires Valid() && AllPossible(steps, progress)
      modifies this`macroCallStack, this`labelInMacro, this`progress, this`history,
        assembler`labelLocations, assembler`definitions
      ensures Valid() && done <= |steps| && history == old(history) + steps[..done]
      ensures AllPossible(steps[..done], old(progress)) && progress == AfterAll(steps[..done], old(progress))
      ensures done < |steps| ==> steps[done].Label? && exists c: nat ::
        && Closes(history + [steps[done]], c, |history|)
        && if Depth(history[..c]) > 0 then Depth(history) == 0 else assembler.IsIdentifierDefined(steps[done].name)
      ensures InsideOnly(old(history) + steps, |old(history)|) ==> done == |steps|
    {
      hide Reflects, AllDefine, Ordered, After, Possible, Told;
      ghost var start := progress;
      done := 0;
      while done < |steps|
        invariant Valid() && done <= |steps| && AllPossible(steps[done..], progress)
        invariant AllPossible(steps[..done], start) && progress == AfterAll(steps[..done], start)
        invariant history == old(history) + steps[..done]
      {
        ghost var step, p := steps[done], progress;
        assert steps[done..][1..] == steps[done + 1..];
        var ok := Perform(steps[done]);
        if !ok {
          ghost var c := RefusedBySteps(step);
          Outside(old(history) + steps, |old(history)|, history, step, c);
          return;
        }
        assert steps[..done + 1] == steps[..done] + [step];
        OneMoreStep(steps[..done], step, start);
        done := done + 1;
      }
    }

    /** When a label is refused, by the steps that led to it. */
    lemma {:induction false} RefusedBySteps(step: Step) returns (c: nat)
      requires Valid() && Possible(step, progress) && step.Label?
      ensures Closes(history + [step], c, |history|)
      ensures Refused(step) <==>
        if Depth(history[..c]) > 0 then Depth(history) == 0 else assembler.IsIdentifierDefined(step.name)
    {
      hide Reflects, AllDefine, Ordered, Possible, After, AllPossible, AfterAll, Closes, Depth;
      var all := history + [step];
      ToldMore(history, progress, step);
      assert all[|history|] == step;
      c := EveryLabelCloses(all, |history|);
      FlagOfLabel(all, c, |history|);
      assert all[..|history|] == history;
      CountsOf(history);
      ClosesBefore(all, c, |history|);
      assert all[..c] == history[..c];
      SameDepth();
    }

    /** A label of a macro is in the call that was innermost when it was reduced, as long as that call has not
        ended: its name among the parameters, its definition's name among the arguments. */
    lemma KeptByItsCall(c: nat, k: nat)
      requires Valid() && Closes(history, c, k) && Depth(history[..c]) > 0 && Depth(history[..k]) > 0
      requires StaysDeep(history, k, |history|)
      ensures |base| + LabelsIn(history[..k]) < |assembler.definitions| && Depth(history[..k]) <= |macroCallStack|
      ensures var call := macroCallStack[Depth(history[..k]) - 1];
        history[k].name in call.parameters
        && assembler.definitions[|base| + LabelsIn(history[..k])].name in call.arguments
    {
      hide AllPossible, AfterAll, Closes, Depth, Extended, StaysDeep;
      ClosesBefore(history, c, k);
      FlagOfLabel(history, c, k);
      LabelAt(history, k, |history|);
      assert history[..|history|] == history;
      CountsOf(history);
      CountsOf(history[..k]);
      FrameHas(history, k, |history|);
      var i, d := LabelsIn(history[..k]), Depth(history[..k]) - 1;
      assert progress.frames[d] in progress.frames;
      ExtendedHas(progress.frames[d], progress.labels, Made(), i);
    }

    /** How each label of the run has been defined, by its steps alone. */
    lemma DefinedBySteps(c: nat, k: nat)
      requires Valid() && Closes(history, c, k)
      ensures |base| + LabelsIn(history[..k]) < |assembler.definitions|
      ensures var d := assembler.definitions[|base| + LabelsIn(history[..k])];
        && d.location == history[k].location
        && (Depth(history[..c]) > 0 ==> exists x :: d.name == history[k].name + Decimal(x))
        && (Depth(history[..c]) <= 0 ==> d.name == history[k].name)
    {
      hide Reflects, Ordered, AllPossible, AfterAll, Closes, Depth;
      ClosesBefore(history, c, k);
      FlagOfLabel(history, c, k);
      LabelAt(history, k, |history|);
      assert history[..|history|] == history;
      var i := LabelsIn(history[..k]);
      assert Defines(Made()[i], progress.labels[i]);
    }

    /** In every state of a run: what a label that is the first of its name means in a call still on the
        stack. All labels of the run have different definitions. */
    lemma LabelsMean(i: nat, j: nat)
      requires Valid() && i < |macroCallStack| && j < |progress.frames[i].labels|
      requires FirstOfName(progress.frames[i], progress.labels, j)
      ensures var f, name := progress.frames[i], progress.labels[progress.frames[i].labels[j]].name;
        var own := Made()[f.labels[j]].name;
        && own in assembler.labelLocations && assembler.labelLocations[own] == progress.labels[f.labels[j]].location
        && (MeaningOf(macroCallStack[i], name) == Argument(own) <==> Matched(f.call, j, own))
      ensures Distinct(assembler.definitions)
    {
      hide Extended, Backpatching.Partial, Builder.AtEnd;
      var f := progress.frames[i];
      assert f in progress.frames;
      LabelOfRun(f, progress.labels, Made(), j);
      DefinedAt(assembler.definitions, |base| + f.labels[j]);
    }
  }

  lemma {:induction false} DefinedAt(ds: seq<Definition>, i: nat)
    requires Distinct(ds) && i < |ds|
    ensures ds[i].name in EnvironmentOf(ds) && EnvironmentOf(ds)[ds[i].name] == ds[i].location
  {
    var n := |ds| - 1;
    if i < n {
      assert ds[..n][i] == ds[i];
      DefinedAt(ds[..n], i);
    }
  }

  lemma {:induction false} OneMoreStep(steps: seq<Step>, step: Step, p: Progress)
    requires AllPossible(steps, p) && Possible(step, AfterAll(steps, p))
    ensures AllPossible(steps + [step], p) && AfterAll(steps + [step], p) == After(step, AfterAll(steps, p))
  {
    hide Possible, After;
    if steps == [] {
      assert [step][1..] == [] && steps + [step] == [step];
    } else {
      assert (steps + [step])[1..] == steps[1..] + [step];
      OneMoreStep(steps[1..], step, After(steps[0], p));
    }
  }
}

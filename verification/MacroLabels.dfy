/** Labels inside macro bodies: each expansion gives its labels names of their own. */
module MacroLabels {
  import opened Words
  import opened Names
  import opened Assembly
  import opened CompoundStream
  import opened Assembler

  // ----- what names stand for in a body -----

  /** One macro being expanded: what its parameters, and the labels seen in its body, stand for. */
  datatype MacroCall = MacroCall(uid: nat, parameters: seq<string>, arguments: seq<string>)

  /** What an identifier in a body stands for; with too few arguments it may be read past their end. */
  datatype Meaning = Itself | Argument(text: string) | PastTheEnd

  /** The argument at the place of the first parameter of that name. */
  function MeaningOf(call: MacroCall, name: string): Meaning {
    if name !in call.parameters then Itself
    else
      var i := First(call.parameters, name);
      if i < |call.arguments| then Argument(call.arguments[i]) else PastTheEnd
  }

  /** How the lexer looks an identifier up. */
  method Replacement(call: MacroCall, name: string) returns (m: Meaning)
    ensures m == MeaningOf(call, name)
  {
    for i := 0 to |call.parameters|
      invariant forall j | 0 <= j < i :: call.parameters[j] != name
    {
      if call.parameters[i] == name {
        FirstIs(call.parameters, name, i);
        return if i < |call.arguments| then Argument(call.arguments[i]) else PastTheEnd;
      }
    }
    return Itself;
  }

  function WithLabel(call: MacroCall, name: string, unique: string): MacroCall {
    call.(parameters := call.parameters + [name], arguments := call.arguments + [unique])
  }

  /** A label's later uses mean its own definition if and only if the call has as many arguments as
      parameters, or the first argument too many happens to be the generated name. */
  lemma {:induction false} LabelMeansItself(call: MacroCall, name: string, unique: string)
    requires name !in call.parameters
    ensures var p, n := |call.parameters|, |call.arguments|;
      MeaningOf(WithLabel(call, name, unique), name) == Argument(unique)
      <==> n == p || (n > p && call.arguments[p] == unique)
  {
    var c := WithLabel(call, name, unique);
    FirstIs(c.parameters, name, |call.parameters|);
  }

  /** Every other name keeps its meaning, except that what was past the end may now be the new name. */
  lemma {:induction false} OthersKeepMeaning(call: MacroCall, name: string, unique: string, p: string)
    requires p != name || p in call.parameters
    ensures var before, after := MeaningOf(call, p), MeaningOf(WithLabel(call, name, unique), p);
      if before.PastTheEnd? then after == before || after == Argument(unique) else after == before
  {
    if p in call.parameters {
      FirstInLonger(call.parameters, [name], p);
    }
  }

  /** An argument too many, or too few: the label `x` then means something else. */
  lemma WrongArguments()
    ensures MeaningOf(WithLabel(MacroCall(1, [], ["7"]), "x", "x0"), "x") == Argument("7")
    ensures MeaningOf(WithLabel(MacroCall(1, ["a"], []), "x", "x0"), "x") == PastTheEnd
    ensures MeaningOf(WithLabel(MacroCall(1, ["a"], []), "x", "x0"), "a") == Argument("x0")
  {
    FirstIs(["x"], "x", 0);
    FirstIs(["a", "x"], "x", 1);
    FirstIs(["a", "x"], "a", 0);
  }

  function First(names: seq<string>, name: string): (i: nat)
    requires name in names
    ensures i < |names| && names[i] == name
  {
    if names[0] == name then 0 else 1 + First(names[1..], name)
  }

  lemma {:induction false} FirstIs(names: seq<string>, name: string, i: nat)
    requires i < |names| && names[i] == name && forall j | 0 <= j < i :: names[j] != name
    ensures First(names, name) == i
  {
    if i > 0 {
      FirstIs(names[1..], name, i - 1);
    }
  }

  /** The names a generated label has to keep clear of. */
  function Taken(assembler: Assembler, parameters: seq<string>): set<string>
    reads assembler
  {
    assembler.labelLocations.Keys + assembler.macros + assembler.macroFunctions
    + set i | 0 <= i < |parameters| :: parameters[i]
  }

  function Candidates(name: string, n: nat): set<string> {
    set k | 0 <= k < n :: name + Decimal(k)
  }

  lemma SuffixInjective(name: string, m: nat, n: nat)
    requires name + Decimal(m) == name + Decimal(n)
    ensures m == n
  {
    assert Decimal(m) == (name + Decimal(m))[|name|..] == (name + Decimal(n))[|name|..] == Decimal(n);
    DecimalInjective(m, n);
  }

  lemma {:induction false} CandidateCount(name: string, n: nat)
    ensures |Candidates(name, n)| == n
  {
    if n > 0 {
      CandidateCount(name, n - 1);
      if name + Decimal(n - 1) in Candidates(name, n - 1) {
        var k :| 0 <= k < n - 1 && name + Decimal(k) == name + Decimal(n - 1);
        SuffixInjective(name, k, n - 1);
      }
      assert Candidates(name, n) == Candidates(name, n - 1) + {name + Decimal(n - 1)};
    }
  }

  /** So many different names cannot all be taken. */
  lemma NotAllTaken(name: string, n: nat, taken: set<string>)
    requires Candidates(name, n) <= taken
    ensures n <= |taken|
  {
    CandidateCount(name, n);
    SubsetSmaller(Candidates(name, n), taken);
  }

  lemma {:induction false} SubsetSmaller(a: set<string>, b: set<string>)
    requires a <= b
    ensures |a| <= |b|
  {
    if a != {} {
      var x :| x in a;
      SubsetSmaller(a - {x}, b - {x});
    }
  }

  /** The search for a suffix ends, after no more tries than there are names taken, with the first name
      that is free. */
  method FreshName(assembler: Assembler, parameters: seq<string>, name: string) returns (x: nat)
    ensures name + Decimal(x) !in Taken(assembler, parameters)
    ensures Candidates(name, x) <= Taken(assembler, parameters)
    ensures x <= |Taken(assembler, parameters)|
  {
    x := 0;
    ghost var taken := Taken(assembler, parameters);
    while assembler.IsIdentifierDefined(name + Decimal(x)) || name + Decimal(x) in parameters
      invariant Candidates(name, x) <= taken
      decreases |taken| - x
    {
      assert Candidates(name, x + 1) == Candidates(name, x) + {name + Decimal(x)};
      NotAllTaken(name, x + 1, taken);
      x := x + 1;
    }
    NotAllTaken(name, x, taken);
  }

  lemma {:induction false} FirstInLonger(names: seq<string>, more: seq<string>, name: string)
    requires name in names
    ensures name in names + more && First(names + more, name) == First(names, name)
  {
    if names[0] != name {
      FirstInLonger(names[1..], more, name);
      assert (names + more)[1..] == names[1..] + more;
    }
  }

  // ----- which call a label belongs to -----

  predicate PairwiseDistinct(s: seq<nat>) {
    forall i, j | 0 <= i < j < |s| :: s[i] != s[j]
  }

  /** What happens to the stack above the label's own call, until that call ends. */
  lemma {:induction false} Follow(base: seq<nat>, extra: seq<nat>, events: seq<Event>, after: seq<nat>)
    requires base != [] && Replay(events, base + extra) == Some(after)
    requires PairwiseDistinct(base + extra + OpenedIn(events))
    ensures var own := base[|base| - 1];
      if own in FinishedIn(events) then own !in after
      else
        && |after| == |base| + |extra| + |OpenedIn(events)| - |FinishedIn(events)| >= |base|
        && after[..|base|] == base && own !in after[|base|..]
    decreases |events|
  {
    hide Replay, PairwiseDistinct;
    var own := base[|base| - 1];
    OwnApart(base, extra, OpenedIn(events));
    if events == [] {
      ReplayNothing(base + extra);
      assert (base + extra)[..|base|] == base && (base + extra)[|base|..] == extra;
    } else {
      var rest := events[1..];
      ReplayFirst(events, base + extra);
      if events[0].Opened? {
        var u := events[0].uid;
        assert (base + extra) + [u] == base + (extra + [u]);
        assert base + (extra + [u]) + OpenedIn(rest) == base + extra + OpenedIn(events);
        Follow(base, extra + [u], rest, after);
      } else if extra != [] {
        var u, fewer := events[0].uid, extra[..|extra| - 1];
        assert extra == fewer + [u] && u != own;
        assert (base + extra)[..|base + extra| - 1] == base + fewer;
        assert OpenedIn(events) == OpenedIn(rest);
        DistinctWithout(base, fewer, u, OpenedIn(rest));
        Follow(base, fewer, rest, after);
      } else {
        assert base + extra == base && events[0].uid == own;
        Gone(base[..|base| - 1], rest, after, own);
      }
    }
  }

  lemma ReplayNothing(stack: seq<nat>)
    ensures Replay([], stack) == Some(stack)
  {
  }

  lemma ReplayFirst(events: seq<Event>, stack: seq<nat>)
    requires events != [] && Replay(events, stack).Some?
    ensures var u := events[0].uid;
      if events[0].Opened? then Replay(events, stack) == Replay(events[1..], stack + [u])
      else
        && stack != [] && stack[|stack| - 1] == u
        && Replay(events, stack) == Replay(events[1..], stack[..|stack| - 1])
  {
  }

  lemma OwnApart(base: seq<nat>, extra: seq<nat>, more: seq<nat>)
    requires base != [] && PairwiseDistinct(base + extra + more)
    ensures var own := base[|base| - 1];
      own !in base[..|base| - 1] && own !in extra && own !in more
  {
    var all, k := base + extra + more, |base| - 1;
    assert all[k] == base[k];
    forall i | 0 <= i < k ensures base[i] != base[k] {
      assert all[i] == base[i];
    }
    forall i | 0 <= i < |extra| ensures extra[i] != base[k] {
      assert all[|base| + i] == extra[i];
    }
    forall i | 0 <= i < |more| ensures more[i] != base[k] {
      assert all[|base| + |extra| + i] == more[i];
    }
  }

  lemma DistinctWithout(base: seq<nat>, fewer: seq<nat>, u: nat, more: seq<nat>)
    requires PairwiseDistinct(base + (fewer + [u]) + more)
    ensures PairwiseDistinct(base + fewer + more)
  {
    var all, less, k := base + (fewer + [u]) + more, base + fewer + more, |base| + |fewer|;
    forall i, j | 0 <= i < j < |less| ensures less[i] != less[j] {
      assert less[i] == all[if i < k then i else i + 1] && less[j] == all[if j < k then j else j + 1];
    }
  }

  lemma {:induction false} Gone(stack: seq<nat>, events: seq<Event>, after: seq<nat>, x: nat)
    requires Replay(events, stack) == Some(after) && x !in stack && x !in OpenedIn(events)
    ensures x !in after
    decreases |events|
  {
    if events != [] {
      match events[0]
      case Opened(u) => Gone(stack + [u], events[1..], after, x);
      case Finished(u) => Gone(stack[..|stack| - 1], events[1..], after, x);
    }
  }

  /** The call a label gets is the one it stands in if and only if, from the colon to the end of the labelled
      statement and the ends directly behind it, that call has not ended and every call begun has. */
  lemma {:induction false} OwnCall(stack: seq<nat>, events: seq<Event>, after: seq<nat>)
    requires stack != [] && Replay(events, stack) == Some(after) && PairwiseDistinct(stack + OpenedIn(events))
    ensures after != [] && after[|after| - 1] == stack[|stack| - 1] <==>
      stack[|stack| - 1] !in FinishedIn(events) && |OpenedIn(events)| == |FinishedIn(events)|
  {
    hide Replay;
    var own, n := stack[|stack| - 1], |after|;
    assert stack + [] == stack;
    Follow(stack, [], events, after);
    if own !in FinishedIn(events) {
      if n == |stack| {
        assert after == after[..n] && after[n - 1] == own;
      } else {
        assert after[n - 1] == after[|stack|..][n - 1 - |stack|];
      }
    }
  }

  /** With no macro called in the statement: exactly when no end is announced. */
  lemma {:induction false} OwnCallPlain(stack: seq<nat>, events: seq<Event>, after: seq<nat>)
    requires stack != [] && Replay(events, stack) == Some(after) && PairwiseDistinct(stack) && OpenedIn(events) == []
    ensures after != [] && after[|after| - 1] == stack[|stack| - 1] <==> events == []
  {
    hide Replay;
    assert stack + [] == stack;
    OwnCall(stack, events, after);
    NoEvents(events);
  }

  lemma {:induction false} NoEvents(events: seq<Event>)
    ensures |OpenedIn(events)| + |FinishedIn(events)| == |events|
  {
    if events != [] {
      NoEvents(events[1..]);
    }
  }

  const BODY := "x: nop\n"

  /** A labelled statement on the last line of a body: at the colon the label is in its macro, at the end of
      the statement there is no call left to define it in. */
  method LabelOnLastLine() returns (atColon: seq<nat>, atEnd: seq<nat>)
    ensures atColon == [1] && atEnd == []
  {
    hide Inserted, Stretch, Skipped, Pending, Reverse, Replay, Characters, FinishedIn, CompoundInputFileStream.Tape,
      CompoundInputFileStream.Sound, CompoundInputFileStream.Contents;
    LastLineTapes();
    var calls := new MacroCalls();
    var stream := new CompoundInputFileStream(calls);
    var first := stream.Include("main", "m", false);
    StartsNumbered(stream);
    stream.ExpandMacro(BODY);
    stream.SkipMany(2);
    OnStack(calls.stack, 1);
    atColon := calls.stack;
    stream.SkipMany(5);
    NoneOnStack(calls.stack);
    atEnd := calls.stack;
  }

  lemma StartsNumbered(stream: CompoundInputFileStream)
    requires stream.Valid() && FinishedIn(stream.calls.events) == [] && Pending(stream.Tape()) == []
    ensures stream.Numbered()
  {
  }

  lemma OnStack(stack: seq<nat>, u: nat)
    requires Reverse(stack) == [u]
    ensures stack == [u]
  {
    NothingReversed();
    Popped(stack, u, []);
    NoneOnStack(stack[..|stack| - 1]);
  }

  lemma {:induction false} NoneOnStack(stack: seq<nat>)
    requires Reverse(stack) == []
    ensures stack == []
  {
  }

  /** The tape at the colon, and at the end of the statement. */
  lemma LastLineTapes()
    ensures var x := Inserted(Input(map[], [], 0, true), "main", "m", false);
      var y := Inserted(x, BODY, BODY, true);
      && x.tape == [Char('m')] && Pending(x.tape) == [] && x.uid == 0
      && y.uid == 1
      && Pending(Skipped(y.tape, 2)) == [1]
      && Pending(Skipped(Skipped(y.tape, 2), 5)) == []
  {
    hide Characters;
    var rest := [Char('m')];
    var x := Inserted(Input(map[], [], 0, true), "main", "m", false);
    PlainStretch("m");
    assert x.tape == rest;
    assert Pending(rest) == [] by { assert rest[1..] == []; }
    var y := Inserted(x, BODY, BODY, true);
    assert y.tape == (Characters(BODY) + [End(1)]) + rest;
    assert y.tape == Characters(BODY) + ([End(1)] + rest);
    EndGoesWithLast(BODY, 1, rest, 2);
    EndGoesWithLast(BODY[2..], 1, rest, 5);
    PendingAtEnd(BODY[2..], 1, rest);
    PastText(rest);
  }

  lemma PendingAtEnd(s: string, u: nat, rest: seq<CompoundStream.Item>)
    requires Pending(rest) == []
    ensures Pending(Characters(s) + ([End(u)] + rest)) == [u]
  {
    CharactersOnly(s);
    PendingAppend(Characters(s), [End(u)] + rest);
    assert ([End(u)] + rest)[1..] == rest;
  }

  lemma PastText(tape: seq<CompoundStream.Item>)
    requires tape != [] && tape[0].Char?
    ensures PastEnds(tape) == tape
  {
  }
}

/** The assembler's input: slices of files and strings, split in place when a macro body or a string is
    pushed at the cursor, with a callback at the end of each macro body. */
module CompoundStream {
  import opened Words

  // ----- what is left to read -----

  /** A character to read, or the end of the macro expansion with a number. */
  datatype Item = Char(c: char) | End(uid: nat)

  function Characters(s: string): (t: seq<Item>)
    ensures |t| == |s| && forall i | 0 <= i < |s| :: t[i] == Char(s[i])
  {
    seq(|s|, i requires 0 <= i < |s| => Char(s[i]))
  }

  /** An entry's text, then the end it announces; number 0 announces none. */
  function Stretch(s: string, uid: nat): seq<Item> {
    Characters(s) + if uid == 0 then [] else [End(uid)]
  }

  function Text(tape: seq<Item>): string {
    if tape == [] then "" else (if tape[0].Char? then [tape[0].c] else "") + Text(tape[1..])
  }

  /** The ends still to be announced, in order. */
  function Pending(tape: seq<Item>): seq<nat> {
    if tape == [] then [] else (if tape[0].End? then [tape[0].uid] else []) + Pending(tape[1..])
  }

  lemma {:induction false} TextAppend(a: seq<Item>, b: seq<Item>)
    ensures Text(a + b) == Text(a) + Text(b)
  {
    if a == [] {
      assert a + b == b;
    } else {
      assert (a + b)[1..] == a[1..] + b;
      TextAppend(a[1..], b);
      var first := if a[0].Char? then [a[0].c] else "";
      assert first + (Text(a[1..]) + Text(b)) == (first + Text(a[1..])) + Text(b);
    }
  }

  lemma {:induction false} PendingAppend(a: seq<Item>, b: seq<Item>)
    ensures Pending(a + b) == Pending(a) + Pending(b)
  {
    if a == [] {
      assert a + b == b;
    } else {
      assert (a + b)[1..] == a[1..] + b;
      PendingAppend(a[1..], b);
      var first := if a[0].End? then [a[0].uid] else [];
      assert first + (Pending(a[1..]) + Pending(b)) == (first + Pending(a[1..])) + Pending(b);
    }
  }

  lemma {:induction false} CharactersOnly(s: string)
    ensures Text(Characters(s)) == s && Pending(Characters(s)) == []
  {
    if s != [] {
      assert Characters(s)[1..] == Characters(s[1..]);
      CharactersOnly(s[1..]);
    }
  }

  lemma StretchParts(s: string, uid: nat)
    ensures Text(Stretch(s, uid)) == s && Pending(Stretch(s, uid)) == if uid == 0 then [] else [uid]
  {
    CharactersOnly(s);
    var last := if uid == 0 then [] else [End(uid)];
    TextAppend(Characters(s), last);
    PendingAppend(Characters(s), last);
    if uid != 0 {
      assert last[1..] == [];
    }
  }

  /** Ends in front of the next character. */
  function Ends(tape: seq<Item>): (n: nat)
    ensures n <= |tape| && forall i | 0 <= i < n :: tape[i].End?
    ensures n < |tape| ==> tape[n].Char?
  {
    if tape == [] || tape[0].Char? then 0 else 1 + Ends(tape[1..])
  }

  function PastEnds(tape: seq<Item>): (t: seq<Item>)
    ensures t != [] ==> t[0].Char?
  {
    tape[Ends(tape)..]
  }

  /** A character, and behind it another one or nothing more. */
  predicate Unannounced(tape: seq<Item>) {
    |tape| > 0 && AtText(tape) && AtText(tape[1..])
  }

  /** A character comes before the next end, or nothing was ever pushed. */
  predicate AtText(tape: seq<Item>) {
    tape == [] || tape[0].Char?
  }

  function SkippedOne(tape: seq<Item>): seq<Item> {
    if PastEnds(tape) == [] then [] else PastEnds(PastEnds(tape)[1..])
  }

  function Skipped(tape: seq<Item>, n: nat): seq<Item> {
    if n == 0 then tape else Skipped(SkippedOne(tape), n - 1)
  }

  /** The characters read by looking and skipping. */
  function Ahead(tape: seq<Item>, n: nat): string {
    if n == 0 then ""
    else [NextOf(tape)] + Ahead(SkippedOne(tape), n - 1)
  }

  function NextOf(tape: seq<Item>): char {
    if PastEnds(tape) == [] then '\0' else PastEnds(tape)[0].c
  }

  lemma AheadStep(tape: seq<Item>, n: nat)
    ensures n == 0 ==> Ahead(tape, n) == "" && Skipped(tape, n) == tape
    ensures n > 0 ==>
      && Ahead(tape, n) == [NextOf(tape)] + Ahead(SkippedOne(tape), n - 1)
      && Skipped(tape, n) == Skipped(SkippedOne(tape), n - 1)
  {
  }

  /** No end stands in front of, or directly behind, the next `n` characters. */
  predicate AllCharacters(tape: seq<Item>, n: nat) {
    forall i | 0 <= i <= n && i < |tape| :: tape[i].Char?
  }

  /** Skipping announces no end exactly when there is none among the next characters. */
  lemma {:induction false} PassedEnds(tape: seq<Item>, n: nat)
    requires AtText(tape)
    ensures Pending(Skipped(tape, n)) == Pending(tape) <==> AllCharacters(tape, n)
    ensures |Pending(Skipped(tape, n))| <= |Pending(tape)|
    decreases n
  {
    hide Pending, Skipped, SkippedOne, PastEnds, Ends, AllCharacters, AtText;
    AheadStep(tape, n);
    if n == 0 || tape == [] {
      NothingAhead(tape, n);
      if n > 0 {
        PassedEnds([], n - 1);
      }
    } else {
      var rest := tape[1..];
      PastFirst(tape, n);
      FewerPending(rest);
      PassedEnds(PastEnds(rest), n - 1);
    }
  }

  lemma NothingAhead(tape: seq<Item>, n: nat)
    requires AtText(tape) && (n == 0 || tape == [])
    ensures AllCharacters(tape, n) && (tape == [] ==> AtText([]) && SkippedOne(tape) == [])
    ensures n > 0 ==> AllCharacters([], n - 1)
  {
  }

  lemma PastFirst(tape: seq<Item>, n: nat)
    requires AtText(tape) && tape != [] && n > 0
    ensures var rest := tape[1..];
      && SkippedOne(tape) == PastEnds(rest) && AtText(PastEnds(rest)) && Pending(tape) == Pending(rest)
      && (AtText(rest) ==> PastEnds(rest) == rest)
      && (AllCharacters(tape, n) <==> AtText(rest) && AllCharacters(rest, n - 1))
  {
    hide Pending;
    var rest := tape[1..];
    NoEndsHere(tape);
    NothingPending(tape);
    if AtText(rest) && rest != [] {
      NoEndsHere(rest);
    }
    if AllCharacters(tape, n) {
      assert rest != [] ==> rest[0] == tape[1];
      forall i | 0 <= i <= n - 1 && i < |rest| ensures rest[i].Char? {
        assert rest[i] == tape[i + 1];
      }
    }
    if AtText(rest) && AllCharacters(rest, n - 1) {
      forall i | 0 <= i <= n && i < |tape| ensures tape[i].Char? {
        assert i > 0 ==> tape[i] == rest[i - 1];
      }
    }
  }

  lemma NothingPending(tape: seq<Item>)
    requires tape != [] && tape[0].Char?
    ensures Pending(tape) == Pending(tape[1..])
  {
  }

  lemma {:induction false} FewerPending(tape: seq<Item>)
    ensures |Pending(PastEnds(tape))| <= |Pending(tape)|
    ensures !AtText(tape) ==> |Pending(PastEnds(tape))| < |Pending(tape)|
  {
    if !AtText(tape) {
      FewerPending(tape[1..]);
      assert tape[1..][Ends(tape[1..])..] == tape[Ends(tape)..];
    } else if tape != [] {
      NoEndsHere(tape);
    }
  }

  lemma PastTwice(tape: seq<Item>)
    ensures PastEnds(PastEnds(tape)) == PastEnds(tape) && SkippedOne(PastEnds(tape)) == SkippedOne(tape)
  {
    var t := PastEnds(tape);
    assert Ends(t) == 0 && t[0..] == t;
  }

  /** The end of a text is announced with its last character, not before and not after. */
  lemma {:induction false} EndGoesWithLast(s: string, uid: nat, rest: seq<Item>, n: nat)
    requires s != "" && n <= |s|
    ensures Skipped(Characters(s) + ([End(uid)] + rest), n)
      == if n < |s| then Characters(s[n..]) + ([End(uid)] + rest) else PastEnds(rest)
    decreases n
  {
    var tape := Characters(s) + ([End(uid)] + rest);
    if n > 0 {
      assert tape == [Char(s[0])] + (Characters(s[1..]) + ([End(uid)] + rest));
      assert PastEnds(tape) == tape && tape[1..] == Characters(s[1..]) + ([End(uid)] + rest);
      if |s| == 1 {
        assert Characters(s[1..]) + ([End(uid)] + rest) == [End(uid)] + rest;
        OneEnd(uid, rest);
      } else {
        assert PastEnds(tape[1..]) == tape[1..];
        EndGoesWithLast(s[1..], uid, rest, n - 1);
        assert s[1..][n - 1..] == s[n..];
      }
    } else {
      assert s[0..] == s;
    }
  }

  lemma OneEnd(uid: nat, rest: seq<Item>)
    ensures PastEnds([End(uid)] + rest) == PastEnds(rest)
  {
    assert ([End(uid)] + rest)[1..] == rest;
    assert ([End(uid)] + rest)[1 + Ends(rest)..] == rest[Ends(rest)..];
  }

  function Reverse(s: seq<nat>): seq<nat> {
    if s == [] then [] else Reverse(s[1..]) + [s[0]]
  }

  lemma {:induction false} ReversePush(s: seq<nat>, x: nat)
    ensures Reverse(s + [x]) == [x] + Reverse(s)
  {
    if s == [] {
      assert [x][1..] == [];
    } else {
      assert (s + [x])[1..] == s[1..] + [x];
      ReversePush(s[1..], x);
    }
  }

  // ----- files and entries -----

  /** An opened file or string and its read position. */
  class FileData {
    const contents: string
    var position: nat

    constructor (contents: string)
      ensures this.contents == contents && position == 0
    {
      this.contents := contents;
      position := 0;
    }
  }

  /** The part of a file from `offset` on, at the positions from `start` up to `end`; a stub has no file. */
  datatype FileEntry = FileEntry(file: FileData?, start: int, end: int, offset: int, uid: nat)

  predicate AllWhole(es: seq<FileEntry>) {
    forall i | 0 <= i < |es| :: WholeRest(es[i])
  }

  function Rest(es: seq<FileEntry>): seq<Item>
    requires AllWhole(es)
  {
    if es == [] then [] else Stretch(EntryText(es[0]), es[0].uid) + Rest(es[1..])
  }

  function EntryText(e: FileEntry): string
    requires WholeRest(e)
  {
    if e.file == null then "" else e.file.contents[e.offset..]
  }

  /** The entry runs to the end of its file; a stub announces an end. */
  predicate WholeRest(e: FileEntry) {
    if e.file == null then e.uid != 0
    else 0 <= e.offset <= |e.file.contents| && e.end - e.start + e.offset == |e.file.contents|
  }

  /** Entries stand one behind the other and none is a stub. */
  predicate Contiguous(es: seq<FileEntry>) {
    && (forall i | 0 <= i < |es| :: es[i].file != null && es[i].start <= es[i].end)
    && forall i | 0 <= i < |es| - 1 :: es[i].end == es[i + 1].start
  }

  predicate Readable(es: seq<FileEntry>, position: int) {
    es != [] && AllWhole(es) && es[0].file != null && 0 <= position <= |es[0].file.contents|
  }

  function TapeFrom(es: seq<FileEntry>, position: int): seq<Item>
    requires Readable(es, position)
  {
    Stretch(es[0].file.contents[position..], es[0].uid) + Rest(es[1..])
  }

  // ----- the macro calls -----

  /** What happens to macro calls, in order. */
  datatype Event = Opened(uid: nat) | Finished(uid: nat)

  function FinishedIn(events: seq<Event>): seq<nat> {
    if events == [] then []
    else (if events[0].Finished? then [events[0].uid] else []) + FinishedIn(events[1..])
  }

  function OpenedIn(events: seq<Event>): seq<nat> {
    if events == [] then []
    else (if events[0].Opened? then [events[0].uid] else []) + OpenedIn(events[1..])
  }

  /** The stack after the events, if every end is that of the call on top. */
  function Replay(events: seq<Event>, stack: seq<nat>): Option<seq<nat>> {
    if events == [] then Some(stack)
    else
      match events[0]
      case Opened(u) => Replay(events[1..], stack + [u])
      case Finished(u) =>
        if stack != [] && stack[|stack| - 1] == u then Replay(events[1..], stack[..|stack| - 1]) else None
  }

  lemma {:induction false} ReplayAppend(a: seq<Event>, b: seq<Event>, stack: seq<nat>)
    requires Replay(a, stack).Some?
    ensures Replay(a + b, stack) == Replay(b, Replay(a, stack).value)
  {
    if a == [] {
      assert a + b == b;
    } else {
      assert (a + b)[1..] == a[1..] + b;
      match a[0]
      case Opened(u) => ReplayAppend(a[1..], b, stack + [u]);
      case Finished(u) => ReplayAppend(a[1..], b, stack[..|stack| - 1]);
    }
  }

  lemma {:induction false} FinishedAppend(a: seq<Event>, b: seq<Event>)
    ensures FinishedIn(a + b) == FinishedIn(a) + FinishedIn(b)
  {
    if a == [] {
      assert a + b == b;
    } else {
      assert (a + b)[1..] == a[1..] + b;
      FinishedAppend(a[1..], b);
      var first := if a[0].Finished? then [a[0].uid] else [];
      assert first + (FinishedIn(a[1..]) + FinishedIn(b)) == (first + FinishedIn(a[1..])) + FinishedIn(b);
    }
  }

  lemma OneEvent(e: Event)
    ensures FinishedIn([e]) == if e.Finished? then [e.uid] else []
    ensures OpenedIn([e]) == if e.Opened? then [e.uid] else []
  {
    assert [e][1..] == [];
  }

  /** The numbers of the macro calls being expanded, the innermost last. */
  class MacroCalls {
    var stack: seq<nat>
    ghost var events: seq<Event>

    /** The stack is what the calls opened and ended so far leave, each ended when it was on top. */
    ghost predicate Replayed()
      reads this
    {
      Replay(events, []) == Some(stack)
    }

    constructor ()
      ensures stack == [] && events == [] && Replayed() && FinishedIn(events) == []
    {
      stack, events := [], [];
    }

    method Push(uid: nat)
      requires Replayed()
      modifies this
      ensures Replayed() && stack == old(stack) + [uid] && events == old(events) + [Opened(uid)]
      ensures FinishedIn(events) == FinishedIn(old(events))
    {
      ReplayAppend(events, [Opened(uid)], []);
      FinishedAppend(events, [Opened(uid)]);
      OneEvent(Opened(uid));
      assert [Opened(uid)][1..] == [];
      stack := stack + [uid];
      events := events + [Opened(uid)];
    }

    /** Both assertions of the callback are its preconditions. */
    method EofCallback(uid: nat)
      requires Replayed() && stack != [] && uid == stack[|stack| - 1]
      modifies this
      ensures Replayed() && stack == old(stack)[..|old(stack)| - 1] && events == old(events) + [Finished(uid)]
      ensures FinishedIn(events) == FinishedIn(old(events)) + [uid]
    {
      ReplayAppend(events, [Finished(uid)], []);
      FinishedAppend(events, [Finished(uid)]);
      OneEvent(Finished(uid));
      assert [Finished(uid)][1..] == [];
      stack := stack[..|stack| - 1];
      events := events + [Finished(uid)];
    }
  }

  // ----- the stream -----

  class CompoundInputFileStream {
    const calls: MacroCalls
    var input: FileData?
    var fileEntries: seq<FileEntry>
    /** Index of the current entry. */
    var it: nat
    var uid: nat
    var files: map<string, FileData>
    /** The names that were opened as files, not as strings. */
    ghost var included: set<string>

    /** The current entry is a stub, which is only so inside a push. */
    predicate AtStub()
      reads this`it, this`fileEntries
    {
      it < |fileEntries| && fileEntries[it].file == null
    }

    /** What was not opened as a file is a string under its own name. */
    ghost predicate Named()
      reads this`files, this`included
    {
      forall k | k in files && k !in included :: files[k].contents == k
    }

    /** Every entry from the current one on runs to the end of its file, and the current file is read
        somewhere inside its entry. */
    ghost predicate Sound()
      reads this`it, this`fileEntries, this`input, this`files, this`included, files.Values
    {
      && it <= |fileEntries|
      && Named()
      && (input == null <==> it == |fileEntries|)
      && (input != null ==> input in files.Values)
      && (forall i | it <= i < |fileEntries| :: WholeRest(fileEntries[i]))
      && (forall i | it <= i < |fileEntries| :: fileEntries[i].file != null ==> fileEntries[i].file in files.Values)
      && (it < |fileEntries| && fileEntries[it].file != null ==>
            && input == fileEntries[it].file
            && fileEntries[it].offset <= input.position <= |input.contents|)
    }

    ghost predicate Valid()
      reads this`it, this`fileEntries, this`input, this`files, this`included, files.Values
    {
      Sound() && !AtStub()
    }

    ghost function CurrentText(): string
      requires Sound() && it < |fileEntries|
      reads this`it, this`fileEntries, this`input, this`files, this`included, files.Values
    {
      if fileEntries[it].file == null then "" else input.contents[input.position..]
    }

    /** What is left to read. */
    ghost function Tape(): seq<Item>
      requires Sound()
      reads this`it, this`fileEntries, this`input, this`files, this`included, files.Values
    {
      if it == |fileEntries| then []
      else Stretch(CurrentText(), fileEntries[it].uid) + Rest(fileEntries[it + 1..])
    }

    /** What stands under each name that was opened. */
    ghost function Contents(): map<string, string>
      reads this`files
    {
      map k | k in files :: files[k].contents
    }

    ghost function View(): Input
      requires Sound()
      reads this, files.Values
    {
      Input(Contents(), Tape(), uid, Contiguous(fileEntries))
    }

    /** The macro calls on the stack are just those whose ends are still to come, innermost first. */
    ghost predicate InOrder()
      requires Sound()
      reads this`it, this`fileEntries, this`input, this`files, this`included, files.Values, calls
    {
      Pending(Tape()) == Reverse(calls.stack) && calls.Replayed()
    }

    constructor (calls: MacroCalls)
      ensures Valid() && Tape() == [] && this.calls == calls && fileEntries == [] && files == map[] && uid == 0
      ensures included == {} && View() == Input(map[], [], 0, true)
      ensures calls.stack == [] && calls.Replayed() ==> InOrder()
    {
      this.calls := calls;
      input, fileEntries, it, uid, files := null, [], 0, 0, map[];
      included := {};
    }

    function TellgInternal(): int
      requires it < |fileEntries| && input != null
      reads this, input
    {
      fileEntries[it].start + input.position - fileEntries[it].offset
    }

    /** Leaves the current entry for the next one, from its beginning. */
    method Advance()
      requires Sound() && it < |fileEntries| && CurrentText() == ""
      modifies this`input, this`it, files.Values
      ensures Sound() && it == old(it) + 1 && Tape() == old(Rest(fileEntries[it + 1..]))
    {
      hide Stretch, Named;
      ghost var rest := fileEntries[it + 1..];
      it := it + 1;
      if it == |fileEntries| {
        input := null;
      } else {
        assert fileEntries[it] == rest[0] && fileEntries[it + 1..] == rest[1..];
        if fileEntries[it].file != null {
          input := fileEntries[it].file;
          input.position := fileEntries[it].offset;
        }
      }
    }

    /** Moves the end of the current entry into a stub behind it, and goes there. */
    method InsertStub()
      requires Valid() && it < |fileEntries| && CurrentText() == "" && fileEntries[it].uid != 0
      modifies this`fileEntries, this`it
      ensures Sound() && AtStub() && Tape() == old(Tape())
    {
      var e := fileEntries[it];
      ghost var rest := fileEntries[it + 1..];
      fileEntries := fileEntries[..it] + [e.(uid := 0), FileEntry(null, 0, 0, 0, e.uid)] + fileEntries[it + 1..];
      it := it + 1;
      assert fileEntries[it + 1..] == rest;
    }

    /** A used-up file, the end of the entry's positions and a stub are the same: no text is left there. */
    lemma UsedUp()
      requires Sound() && it < |fileEntries|
      requires AtStub() || input.position >= |input.contents| || TellgInternal() >= fileEntries[it].end
      ensures CurrentText() == ""
    {
    }

    lemma AtTheEnd()
      requires Sound()
      ensures it <= |fileEntries| && (input == null <==> it == |fileEntries|)
      ensures it == |fileEntries| ==> Tape() == []
      ensures input != null ==> input in files.Values
    {
    }

    lemma StubFirst()
      requires Sound() && AtStub()
      ensures Tape() != [] && Tape()[0].End?
    {
    }

    lemma TextFirst()
      requires Sound() && it < |fileEntries| && !AtStub() && input.position < |input.contents|
      ensures CurrentText() != "" && Tape() != [] && Tape()[0] == Char(input.contents[input.position])
    {
    }

    /** Announces the end of a used-up entry, which is the innermost call's, and leaves the entry. */
    method FinishEntry()
      requires Sound() && InOrder() && it < |fileEntries| && CurrentText() == ""
      modifies this`input, this`it, files.Values, calls
      ensures Sound() && InOrder() && it == old(it) + 1
      ensures old(Tape()) == (if old(fileEntries[it].uid) == 0 then [] else [End(old(fileEntries[it].uid))]) + Tape()
      ensures old(fileEntries[it].uid) == 0 ==>
        calls.stack == old(calls.stack) && calls.events == old(calls.events) && Tape() == old(Tape())
      ensures FinishedIn(calls.events) + Pending(Tape()) == FinishedIn(old(calls.events)) + Pending(old(Tape()))
    {
      hide Tape, CurrentText, Pending, Reverse, Rest, Sound, FinishedIn, Replay, Ends;
      ghost var tape := Tape();
      EmptyStretch();
      ghost var rest := Rest(fileEntries[it + 1..]);
      var uid := fileEntries[it].uid;
      if uid != 0 {
        assert tape == tape[0..] && Ends(tape) >= 0;
        NextEnd(tape, 0, uid, rest);
        Popped(calls.stack, uid, Pending(rest));
        Regroup(FinishedIn(calls.events), uid, Pending(rest));
        calls.EofCallback(uid);
      } else {
        assert [] + rest == rest;
      }
      assert Pending(rest) == Reverse(calls.stack);
      Advance();
    }

    lemma EmptyStretch()
      requires Sound() && it < |fileEntries| && CurrentText() == ""
      ensures AllWhole(fileEntries[it + 1..])
      ensures var uid := fileEntries[it].uid;
        Tape() == (if uid == 0 then [] else [End(uid)]) + Rest(fileEntries[it + 1..])
    {
      hide Rest;
      var uid := fileEntries[it].uid;
      var last := if uid == 0 then [] else [End(uid)];
      assert Characters("") + last == last;
    }

    /** Whether all is read. Entries that are used up are left behind, and their ends announced; with
        `giveStub` the announcement is put off, by a stub that carries it. */
    method Eof(giveStub: bool) returns (done: bool)
      requires Valid() && InOrder()
      modifies this`input, this`fileEntries, this`it, files.Values, calls
      ensures Sound() && InOrder() && done == (it == |fileEntries|)
      ensures FinishedIn(calls.events) + Pending(Tape()) == FinishedIn(old(calls.events)) + Pending(old(Tape()))
      ensures !giveStub ==> Valid() && Tape() == old(Tape())[Ends(old(Tape()))..]
      ensures giveStub ==> Tape() == old(Tape())
      ensures giveStub || Ends(old(Tape())) == 0 ==> calls.stack == old(calls.stack) && calls.events == old(calls.events)
      ensures !AtStub() ==> fileEntries == old(fileEntries) && (done || CurrentText() != "")
      ensures AtStub() ==> Tape() != [] && Tape()[0].End?
      ensures old(it < |fileEntries| && CurrentText() != "") ==>
        && it == old(it) && input == old(input) && input.position == old(input.position)
        && calls.stack == old(calls.stack) && calls.events == old(calls.events)
    {
      hide Tape, CurrentText, Pending, Reverse, Ends, Rest, Sound, TellgInternal;
      ghost var tape, k: nat := Tape(), 0;
      AtTheEnd();
      if input == null {
        return true;
      }
      ghost var text := CurrentText();
      var isStub := fileEntries[it].file == null;
      while input.position >= |input.contents| || TellgInternal() >= fileEntries[it].end || isStub
        invariant Sound() && InOrder() && it < |fileEntries| && input != null && fileEntries == old(fileEntries)
        invariant isStub == AtStub() && (giveStub ==> !isStub)
        invariant k <= Ends(tape) && Tape() == tape[k..]
        invariant giveStub ==> k == 0
        invariant k == 0 ==> calls.stack == old(calls.stack) && calls.events == old(calls.events)
        invariant FinishedIn(calls.events) + Pending(Tape()) == FinishedIn(old(calls.events)) + Pending(tape)
        invariant it >= old(it) && (it > old(it) ==> text == "")
        invariant it == old(it) ==>
          && input == old(input) && input.position == old(input.position) && CurrentText() == text
          && calls.stack == old(calls.stack) && calls.events == old(calls.events)
        decreases |fileEntries| - it
      {
        assert CurrentText() == "" by { UsedUp(); }
        if !isStub && fileEntries[it].uid != 0 && giveStub {
          InsertStub();
          StubFirst();
          return false;
        }
        ghost var uid := fileEntries[it].uid;
        FinishEntry();
        if uid != 0 {
          NextEnd(tape, k, uid, Tape());
          k := k + 1;
        }
        AtTheEnd();
        if it == |fileEntries| {
          return true;
        }
        isStub := fileEntries[it].file == null;
        if giveStub && isStub {
          StubFirst();
          return false;
        }
      }
      TextFirst();
      return false;
    }

    // ----- reading -----

    method Get() returns (c: Option<char>)
      requires Valid() && InOrder()
      modifies this`input, this`fileEntries, this`it, files.Values, calls
      ensures Valid() && InOrder() && fileEntries == old(fileEntries) && Contents() == old(Contents())
      ensures var tape := old(Tape())[Ends(old(Tape()))..];
        && Tape() == (if tape == [] then [] else tape[1..])
        && c == if tape == [] then None else Some(tape[0].c)
      ensures FinishedIn(calls.events) + Pending(Tape()) == FinishedIn(old(calls.events)) + Pending(old(Tape()))
      ensures Ends(old(Tape())) == 0 ==> calls.stack == old(calls.stack) && calls.events == old(calls.events)
    {
      hide Tape, Pending, Reverse, Ends, Sound, CurrentText;
      var done := Eof(false);
      AtTheEnd();
      if done {
        return None;
      }
      c := TakeOne();
    }

    /** Reads one character of the current text. */
    method TakeOne() returns (c: Option<char>)
      requires Valid() && it < |fileEntries| && CurrentText() != ""
      modifies input
      ensures Valid() && c.Some? && old(Tape()) == [Char(c.value)] + Tape() && Pending(Tape()) == Pending(old(Tape()))
    {
      hide Stretch, Rest;
      ghost var text := CurrentText();
      StretchFirst(text, fileEntries[it].uid);
      c := Some(input.contents[input.position]);
      input.position := input.position + 1;
      assert CurrentText() == text[1..];
      ghost var rest := Rest(fileEntries[it + 1..]);
      ghost var t := Stretch(text[1..], fileEntries[it].uid);
      assert ([Char(c.value)] + t) + rest == [Char(c.value)] + (t + rest);
      PendingAfterOne(c.value, t + rest);
    }

    method Peek() returns (c: char)
      requires Valid() && InOrder()
      modifies this`input, this`fileEntries, this`it, files.Values, calls
      ensures Valid() && InOrder() && fileEntries == old(fileEntries) && Contents() == old(Contents())
      ensures Tape() == old(Tape())[Ends(old(Tape()))..] && c == if Tape() == [] then '\0' else Tape()[0].c
      ensures FinishedIn(calls.events) + Pending(Tape()) == FinishedIn(old(calls.events)) + Pending(old(Tape()))
      ensures Ends(old(Tape())) == 0 ==> calls.stack == old(calls.stack) && calls.events == old(calls.events)
    {
      hide Tape, Pending, Reverse, Ends, Sound, CurrentText;
      var done := Eof(false);
      AtTheEnd();
      if done {
        return '\0';
      }
      CurrentIsNext();
      return input.contents[input.position];
    }

    method Ignore()
      requires Valid() && InOrder()
      modifies this`input, this`fileEntries, this`it, files.Values, calls
      ensures Valid() && InOrder() && fileEntries == old(fileEntries) && Contents() == old(Contents())
      ensures var tape := old(Tape())[Ends(old(Tape()))..];
        Tape() == if tape == [] then [] else tape[1..]
      ensures FinishedIn(calls.events) + Pending(Tape()) == FinishedIn(old(calls.events)) + Pending(old(Tape()))
      ensures Ends(old(Tape())) == 0 ==> calls.stack == old(calls.stack) && calls.events == old(calls.events)
    {
      var c := Get();
    }

    /** How the lexers take a character: past it, and past every end directly behind it. */
    method SkipOne() returns (done: bool)
      requires Valid() && InOrder()
      modifies this`input, this`fileEntries, this`it, files.Values, calls
      ensures Valid() && InOrder() && fileEntries == old(fileEntries) && Contents() == old(Contents())
      ensures Tape() == SkippedOne(old(Tape())) && done == (Tape() == [])
      ensures FinishedIn(calls.events) + Pending(Tape()) == FinishedIn(old(calls.events)) + Pending(old(Tape()))
      ensures Unannounced(old(Tape())) ==> calls.stack == old(calls.stack) && calls.events == old(calls.events)
    {
      hide Tape, Pending, Reverse, Ends, Sound, CurrentText, FinishedIn;
      Ignore();
      done := Eof(false);
      AtTheEnd();
      if !done {
        CurrentIsNext();
      } else {
        assert Tape() == [];
      }
    }

    method SkipMany(n: nat)
      requires Valid() && InOrder()
      modifies this`input, this`fileEntries, this`it, files.Values, calls
      ensures Valid() && InOrder() && Tape() == Skipped(old(Tape()), n)
      ensures fileEntries == old(fileEntries) && Contents() == old(Contents())
      ensures FinishedIn(calls.events) + Pending(Tape()) == FinishedIn(old(calls.events)) + Pending(old(Tape()))
      decreases n
    {
      hide Tape, Pending, Reverse, Ends, Sound, SkippedOne, FinishedIn;
      if n > 0 {
        var done := SkipOne();
        SkipMany(n - 1);
      }
    }

    lemma CurrentIsNext()
      requires Valid() && it < |fileEntries| && CurrentText() != ""
      ensures input.position < |input.contents|
      ensures Tape() != [] && Tape()[0] == Char(input.contents[input.position])
    {
    }

    /** The position of the next character; the greatest position at the end. */
    method Tellg() returns (position: Option<int>)
      requires Valid() && InOrder()
      modifies this`input, this`fileEntries, this`it, files.Values, calls
      ensures Valid() && InOrder() && fileEntries == old(fileEntries)
      ensures Tape() == old(Tape())[Ends(old(Tape()))..] && (position == None <==> Tape() == [])
      ensures position.Some? ==>
        && it < |fileEntries| && input != null && position.value == TellgInternal() < fileEntries[it].end
        && fileEntries[it].start <= position.value
      ensures Ends(old(Tape())) == 0 ==> calls.stack == old(calls.stack) && calls.events == old(calls.events)
    {
      hide Tape, Pending, Reverse, Ends, Named;
      var done := Eof(false);
      AtTheEnd();
      if done {
        return None;
      }
      CurrentIsNext();
      return Some(TellgInternal());
    }

    /** The entries from `k` on run to the ends of their files. */
    ghost predicate WholeFrom(k: nat)
      reads this`fileEntries, this`files
    {
      k < |fileEntries| && forall i | k <= i < |fileEntries| ::
        WholeRest(fileEntries[i]) && (fileEntries[i].file != null ==> fileEntries[i].file in files.Values)
    }

    method GoTo(i: nat, position: int)
      requires Valid() && WholeFrom(i) && fileEntries[i].start <= position < fileEntries[i].end
      requires fileEntries[i].file != null
      modifies this`input, this`it, files.Values
      ensures Valid() && it == i && input != null && TellgInternal() == position
    {
      it := i;
      input := fileEntries[it].file;
      input.position := position - fileEntries[it].start + fileEntries[it].offset;
    }

    /** Back or forward to a position from which on no entry was cut short. */
    method Seekg(position: int, ghost k: nat) returns (ok: bool)
      requires Valid() && Contiguous(fileEntries)
      requires fileEntries != [] && position < fileEntries[|fileEntries| - 1].end ==>
        WholeFrom(k) && fileEntries[k].start <= position
      modifies this`input, this`it, files.Values
      ensures Valid() && (ok <==> fileEntries != [] && position < fileEntries[|fileEntries| - 1].end)
      ensures !ok ==> it == old(it) && Tape() == old(Tape())
      ensures ok ==>
        && it < |fileEntries| && input != null && fileEntries[it].start <= position < fileEntries[it].end
        && TellgInternal() == position
    {
      hide Tape;
      if fileEntries == [] || position >= fileEntries[|fileEntries| - 1].end {
        return false;
      }
      ghost var here := it;
      for i := 0 to |fileEntries|
        invariant it == here && Valid() && input == old(input)
        invariant i <= k || fileEntries[i - 1].end <= position
      {
        if fileEntries[i].start <= position < fileEntries[i].end && fileEntries[i].file != null {
          OnlyEntry(fileEntries, i, k, position);
          GoTo(i, position);
          return true;
        }
      }
      assert false;
    }

    /** The lexers' reading: look at the next character, then skip it. */
    method ReadOne() returns (c: char)
      requires Valid() && InOrder()
      modifies this`input, this`fileEntries, this`it, files.Values, calls
      ensures Valid() && InOrder() && fileEntries == old(fileEntries) && Contents() == old(Contents())
      ensures Tape() == SkippedOne(old(Tape())) && c == NextOf(old(Tape()))
      ensures FinishedIn(calls.events) + Pending(Tape()) == FinishedIn(old(calls.events)) + Pending(old(Tape()))
    {
      hide Tape, Pending, Reverse, Sound, FinishedIn, Replay, Ends, SkippedOne, CurrentText;
      PastTwice(Tape());
      c := Peek();
      var done := SkipOne();
    }

    method ReadAhead(n: nat) returns (s: string)
      requires Valid() && InOrder()
      modifies this`input, this`fileEntries, this`it, files.Values, calls
      ensures Valid() && InOrder() && fileEntries == old(fileEntries) && Contents() == old(Contents())
      ensures Tape() == Skipped(old(Tape()), n) && s == Ahead(old(Tape()), n)
      ensures FinishedIn(calls.events) + Pending(Tape()) == FinishedIn(old(calls.events)) + Pending(old(Tape()))
      decreases n
    {
      hide Tape, Pending, Reverse, Sound, FinishedIn, Replay, Skipped, SkippedOne, Ahead, NextOf;
      s := "";
      AheadStep(Tape(), n);
      if n > 0 {
        var c := ReadOne();
        s := ReadAhead(n - 1);
        s := [c] + s;
      }
    }

    /** How the lexers look ahead: mark, read on, go back. The input is as before, whatever entries the
        reading passed; the macro calls are, if and only if no end was announced meanwhile. */
    method LookAhead(n: nat) returns (s: string)
      requires Valid() && InOrder() && Contiguous(fileEntries) && Tape() != [] && Tape()[0].Char?
      modifies this`input, this`fileEntries, this`it, files.Values, calls
      ensures Valid() && View() == old(View()) && fileEntries == old(fileEntries) && s == Ahead(old(Tape()), n)
      ensures InOrder() <==> AllCharacters(Tape(), n)
      ensures calls.stack == old(calls.stack) <==> AllCharacters(Tape(), n)
      ensures FinishedIn(calls.events) + Pending(Skipped(Tape(), n))
        == FinishedIn(old(calls.events)) + Pending(old(Tape()))
    {
      hide Tape, Contiguous, Pending, Reverse, Ends, Sound, CurrentText, TapeFrom, Readable, Replay, FinishedIn, Skipped,
        Ahead, AllCharacters;
      ghost var tape, stack := Tape(), calls.stack;
      NoEndsHere(tape);
      var mark := Tellg();
      ghost var k := it;
      TapeHere();
      WholeHere();
      LastIsFurthest(k);
      InOrderMeans();
      s := ReadAhead(n);
      InOrderMeans();
      var ok := Seekg(mark.value, k);
      OnlyEntry(fileEntries, it, k, mark.value);
      TapeHere();
      OrderMeans();
      PassedEnds(tape, n);
      ReverseInjective(calls.stack, stack);
    }

    lemma OrderMeans()
      requires Sound() && Replay(calls.events, []) == Some(calls.stack)
      ensures InOrder() <==> Pending(Tape()) == Reverse(calls.stack)
    {
    }

    lemma WholeHere()
      requires Valid() && it < |fileEntries|
      ensures WholeFrom(it)
    {
    }

    lemma LastIsFurthest(k: nat)
      requires k < |fileEntries| && Contiguous(fileEntries)
      ensures fileEntries[k].end <= fileEntries[|fileEntries| - 1].end
    {
      if k < |fileEntries| - 1 {
        EndsInOrder(fileEntries, k, |fileEntries| - 1);
      }
    }

    /** The tape is a matter of the current entry and the read position in it. */
    lemma TapeHere()
      requires Valid() && it < |fileEntries|
      ensures Readable(fileEntries[it..], input.position) && Tape() == TapeFrom(fileEntries[it..], input.position)
      ensures input == fileEntries[it].file && 0 <= input.position <= |input.contents|
      ensures CurrentText() == input.contents[input.position..]
    {
    }

    // ----- pushing -----

    /** The entries from the current one on, read from the current one's beginning. */
    ghost predicate Arranged(tape: seq<Item>)
      reads this`it, this`fileEntries, this`files, files.Values
    {
      && it < |fileEntries| && fileEntries[it].file != null && fileEntries[it].offset == 0
      && AllWhole(fileEntries[it..])
      && (forall i | it <= i < |fileEntries| :: fileEntries[i].file != null ==> fileEntries[i].file in files.Values)
      && Rest(fileEntries[it..]) == tape
    }

    /** In front of a stub: the stub's positions are zero, and the new entry takes them over. */
    method InsertBefore(file: FileData, newUid: nat)
      requires Sound() && AtStub() && file in files.Values
      modifies this`fileEntries
      ensures Arranged(Stretch(file.contents, newUid) + old(Tape())) && !Contiguous(fileEntries)
    {
      hide Stretch;
      ghost var old_ := fileEntries;
      var e := fileEntries[it];
      var entry := FileEntry(file, e.end, e.end + |file.contents|, 0, newUid);
      fileEntries := fileEntries[..it] + [entry] + fileEntries[it..];
      assert fileEntries[it..] == [entry] + old_[it..];
      assert fileEntries[it + 1] == e;
      RestAfter(entry, old_[it..]);
      RestAfter(e, old_[it + 1..]);
      assert old_[it..] == [e] + old_[it + 1..];
    }

    /** The entries from `k` on move `n` positions on. */
    method MoveFrom(k: nat, n: nat)
      requires k <= |fileEntries|
      modifies this`fileEntries
      ensures fileEntries == old(fileEntries)[..k] + MovedAll(old(fileEntries)[k..], n)
    {
      ghost var before := fileEntries;
      for i := k to |fileEntries|
        invariant |fileEntries| == |before|
        invariant forall j | 0 <= j < |before| :: fileEntries[j] == if k <= j < i then Moved(before[j], n) else before[j]
      {
        fileEntries := fileEntries[i := Moved(fileEntries[i], n)];
      }
    }

    /** Three entries for the current one; what is behind moves on. */
    method Replace(head: FileEntry, entry: FileEntry, tail: FileEntry, n: nat)
      requires it < |fileEntries|
      modifies this`fileEntries
      ensures fileEntries == Replaced(old(fileEntries), it, [head, entry, tail], n)
    {
      ghost var before := fileEntries;
      fileEntries := fileEntries[..it] + [head, entry, tail] + fileEntries[it + 1..];
      assert fileEntries[it + 3..] == before[it + 1..];
      MoveFrom(it + 3, n);
    }

    /** Splits the current entry at the cursor, with the new entry in between; what is behind moves on. */
    method Split(file: FileData, newUid: nat)
      requires Sound() && it < |fileEntries| && !AtStub() && file in files.Values
      modifies this`fileEntries, this`it
      ensures Arranged(Stretch(file.contents, newUid) + old(Tape()))
      ensures Contiguous(old(fileEntries)) <==> Contiguous(fileEntries)
    {
      hide Contiguous, Rest, Stretch, Replaced, Named, Tape, Arranged;
      ghost var before, tape := fileEntries, Tape();
      var e, n := fileEntries[it], |file.contents|;
      var start := TellgInternal();
      var from := start - e.start + e.offset;
      var head := e.(end := start, uid := 0);
      var entry := FileEntry(file, start, start + n, 0, newUid);
      var tail := FileEntry(e.file, start + n, start + n + |e.file.contents| - from, from, e.uid);
      TapeBehind();
      SplitContiguous(before, it, start, entry, tail);
      SplitRest(before, it, [head, entry, tail], n);
      Replace(head, entry, tail, n);
      it := it + 1;
      assert file.contents[0..] == file.contents;
      Arranges(Stretch(file.contents, newUid) + tape);
    }

    lemma TapeBehind()
      requires Sound() && it < |fileEntries| && !AtStub()
      ensures AllWhole(fileEntries[it + 1..])
      ensures Tape() == Stretch(input.contents[input.position..], fileEntries[it].uid) + Rest(fileEntries[it + 1..])
    {
    }

    lemma Arranges(tape: seq<Item>)
      requires it < |fileEntries| && fileEntries[it].file != null && fileEntries[it].offset == 0
      requires AllWhole(fileEntries[it..]) && Rest(fileEntries[it..]) == tape
      requires forall i | it <= i < |fileEntries| :: fileEntries[i].file != null ==> fileEntries[i].file in files.Values
      ensures Arranged(tape)
    {
    }

    /** Puts an entry at the cursor, in front of all text and all ends still to come. */
    method InsertEntry(file: FileData, newUid: nat)
      requires Valid() && InOrder() && file in files.Values && Tape() != []
      modifies this`input, this`fileEntries, this`it, files.Values, calls
      ensures Arranged(Stretch(file.contents, newUid) + old(Tape()))
      ensures calls.stack == old(calls.stack) && calls.events == old(calls.events)
      ensures Contiguous(fileEntries) <==> Contiguous(old(fileEntries)) && AtText(old(Tape()))
    {
      hide Stretch, Rest, Contiguous, Arranged, Tape, Pending, Reverse, CurrentText, Sound;
      ghost var tape := Tape();
      var done := Eof(true);
      AtTheEnd();
      if fileEntries[it].file == null {
        InsertBefore(file, newUid);
      } else {
        CurrentIsText();
        Split(file, newUid);
      }
    }

    method PushEntry(name: string, setUid: bool) returns (newUid: nat)
      requires Valid() && InOrder() && name in files && (fileEntries == [] || Tape() != [])
      modifies this`input, this`fileEntries, this`it, this`uid, files.Values, calls
      ensures Valid() && Tape() == Stretch(files[name].contents, newUid) + old(Tape())
      ensures newUid == (if setUid then old(uid) + 1 else 0) && uid == if setUid then newUid else old(uid)
      ensures fileEntries != [] && Contents() == old(Contents())
      ensures calls.stack == old(calls.stack) && calls.events == old(calls.events)
      ensures Contiguous(fileEntries) <==> Contiguous(old(fileEntries)) && AtText(old(Tape()))
    {
      hide Stretch, Rest, Contiguous, Named, Contents, Arranged, Pending, Reverse, Tape, AtText;
      var file := files[name];
      newUid := 0;
      if setUid {
        uid := uid + 1;
        newUid := uid;
      }
      if fileEntries == [] {
        InsertFirst(file, newUid);
      } else {
        InsertEntry(file, newUid);
      }
      StartEntry(Stretch(file.contents, newUid) + old(Tape()));
    }

    method InsertFirst(file: FileData, newUid: nat)
      requires Valid() && fileEntries == [] && file in files.Values
      modifies this`fileEntries, this`it
      ensures Arranged(Stretch(file.contents, newUid) + old(Tape())) && AtText(old(Tape()))
      ensures Contiguous(fileEntries) && Contiguous(old(fileEntries))
    {
      fileEntries := [FileEntry(file, 0, |file.contents|, 0, newUid)];
      it := 0;
      FirstEntry(fileEntries[0]);
    }

    /** Begins with the current entry. */
    method StartEntry(ghost tape: seq<Item>)
      requires Arranged(tape) && Named()
      modifies this`input, files.Values
      ensures Valid() && fileEntries != [] && Tape() == tape
    {
      hide Stretch, Rest, Named;
      input := fileEntries[it].file;
      input.position := fileEntries[it].offset;
      Arrived();
    }

    lemma CurrentIsText()
      requires Sound() && it < |fileEntries| && !AtStub() && CurrentText() != ""
      ensures Tape() != [] && Tape()[0].Char?
    {
    }

    lemma FirstEntry(e: FileEntry)
      requires fileEntries == [e] && it == 0 && e.file != null && e.offset == 0 == e.start && e.end == |e.file.contents|
      requires e.file in files.Values
      ensures Arranged(Stretch(e.file.contents, e.uid) + []) && Contiguous(fileEntries)
    {
      RestAfter(e, []);
      assert e.file.contents[0..] == e.file.contents;
    }

    lemma Arrived()
      requires Sound() && it < |fileEntries| && !AtStub() && input.position == fileEntries[it].offset
      ensures Tape() == Rest(fileEntries[it..])
    {
    }

    /** An included file of the name has other contents. */
    ghost predicate Clashes(str: string)
      reads this`files, this`included
    {
      str in included && str in files && files[str].contents != str
    }

    /** A name is opened only once, whatever it is opened as. */
    method Open(name: string, contents: string, ghost isFile: bool)
      requires Valid() && InOrder() && (isFile || contents == name)
      modifies this`files, this`included
      ensures Valid() && InOrder() && Tape() == old(Tape()) && name in files
      ensures Contents() == Opening(old(Contents()), name, contents)
      ensures included == old(included) + if isFile && name !in old(files) then {name} else {}
      ensures fresh(files.Values - old(files.Values))
    {
      hide Stretch, Rest, Pending, Reverse, Replay;
      ghost var tape := Tape();
      if name !in files {
        var file := new FileData(contents);
        ValuesGrow(files, name, file);
        files := files[name := file];
        included := included + if isFile then {name} else {};
      }
      assert Tape() == tape;
    }

    /** The same string, or a file whose name is that string, is opened only once. So the string itself is
        inserted just when no included file of that name has other contents. */
    method PushString(str: string, setUid: bool) returns (newUid: nat)
      requires Valid() && InOrder() && (fileEntries == [] || Tape() != [])
      modifies this`input, this`fileEntries, this`it, this`uid, this`files, this`included, files.Values, calls
      ensures Valid() && fileEntries != [] && View() == Inserted(old(View()), str, str, setUid)
      ensures Contiguous(fileEntries) <==> Contiguous(old(fileEntries)) && AtText(old(Tape()))
      ensures (Opening(old(Contents()), str, str)[str] == str) <==> !old(Clashes(str))
      ensures newUid == (if setUid then uid else 0) && included == old(included)
      ensures !setUid ==> InOrder() && Pending(Tape()) == old(Pending(Tape()))
      ensures calls.stack == old(calls.stack) && calls.events == old(calls.events)
      ensures fresh(files.Values - old(files.Values))
    {
      hide Stretch, Rest, Contiguous, Pending, Reverse, Tape, Sound, Contents, Clashes, Opening, AtText;
      OpenAsItself(str);
      newUid := OpenAndPush(str, str, false, setUid);
    }

    method OpenAndPush(name: string, contents: string, ghost isFile: bool, setUid: bool) returns (newUid: nat)
      requires Valid() && InOrder() && (fileEntries == [] || Tape() != []) && (isFile || contents == name)
      modifies this`input, this`fileEntries, this`it, this`uid, this`files, this`included, files.Values, calls
      ensures Valid() && fileEntries != [] && Contents() == Opening(old(Contents()), name, contents)
      ensures Tape() == Stretch(Contents()[name], newUid) + old(Tape())
      ensures newUid == (if setUid then old(uid) + 1 else 0) && uid == if setUid then newUid else old(uid)
      ensures included == old(included) + if isFile && name !in old(files) then {name} else {}
      ensures !setUid ==> InOrder() && Pending(Tape()) == old(Pending(Tape()))
      ensures calls.stack == old(calls.stack) && calls.events == old(calls.events)
      ensures Contiguous(fileEntries) <==> Contiguous(old(fileEntries)) && AtText(old(Tape()))
      ensures fresh(files.Values - old(files.Values))
    {
      hide Stretch, Rest, Contiguous, Pending, Reverse, Tape, Sound, Contents, Opening, InOrder, Replay;
      InOrderMeans();
      Open(name, contents, isFile);
      ContentsAt(name);
      ghost var tape, text := Tape(), files[name].contents;
      newUid := PushEntry(name, setUid);
      PendingAfterPush(text, newUid, tape);
      if !setUid {
        StillInOrder();
      }
    }

    lemma StillInOrder()
      requires Sound() && Pending(Tape()) == Reverse(calls.stack) && Replay(calls.events, []) == Some(calls.stack)
      ensures InOrder()
    {
    }

    lemma InOrderMeans()
      requires Sound() && InOrder()
      ensures Pending(Tape()) == Reverse(calls.stack) && Replay(calls.events, []) == Some(calls.stack)
    {
    }

    lemma ContentsAt(name: string)
      requires name in files
      ensures name in Contents() && Contents()[name] == files[name].contents
    {
    }

    /** What was not opened as a file stands for itself. */
    lemma OpenAsItself(str: string)
      requires Valid()
      ensures (Opening(Contents(), str, str)[str] == str) <==> !Clashes(str)
    {
    }

    method Include(name: string, contents: string, setUid: bool) returns (newUid: nat)
      requires Valid() && InOrder() && (fileEntries == [] || Tape() != [])
      modifies this`input, this`fileEntries, this`it, this`uid, this`files, this`included, files.Values, calls
      ensures Valid() && fileEntries != [] && View() == Inserted(old(View()), name, contents, setUid)
      ensures Contiguous(fileEntries) <==> Contiguous(old(fileEntries)) && AtText(old(Tape()))
      ensures newUid == if setUid then uid else 0
      ensures included == old(included) + if name in old(files) then {} else {name}
      ensures !setUid ==> InOrder() && Pending(Tape()) == old(Pending(Tape()))
      ensures calls.stack == old(calls.stack) && calls.events == old(calls.events)
      ensures fresh(files.Values - old(files.Values))
    {
      hide Stretch, Rest, Contiguous, Pending, Reverse, Tape, Sound, Contents, Opening;
      newUid := OpenAndPush(name, contents, true, setUid);
    }

    method Put(c: char) returns (newUid: nat)
      requires Valid() && InOrder() && (fileEntries == [] || Tape() != [])
      modifies this`input, this`fileEntries, this`it, this`uid, this`files, this`included, files.Values, calls
      ensures Valid() && InOrder() && fileEntries != [] && View() == Inserted(old(View()), [c], [c], false)
      ensures Contiguous(fileEntries) <==> Contiguous(old(fileEntries)) && AtText(old(Tape()))
      ensures Tape() == [Char(c)] + old(Tape()) || old(Clashes([c]))
      ensures included == old(included)
      ensures calls.stack == old(calls.stack) && calls.events == old(calls.events)
      ensures fresh(files.Values - old(files.Values))
    {
      hide Stretch, Rest, Contiguous, Pending, Reverse;
      ghost var tape := Tape();
      newUid := PushString([c], false);
      PendingAfterPush(Opening(old(Contents()), [c], [c])[[c]], 0, tape);
      PlainStretch([c]);
    }

    // ----- macro calls -----

    /** Numbers announced and still to be announced: all different, none newer than the counter. */
    ghost predicate Numbered()
      requires Sound()
      reads this, files.Values, calls
    {
      AllDifferent(FinishedIn(calls.events) + Pending(Tape()), uid)
    }

    /** A macro call: the body goes in front of everything still to be read, its end is the next to be
        announced, and no other call's end has been announced meanwhile. */
    method ExpandMacro(body: string)
      requires Valid() && InOrder() && Numbered() && (fileEntries == [] || Tape() != [])
      modifies this`input, this`fileEntries, this`it, this`uid, this`files, this`included, files.Values, calls
      ensures Valid() && InOrder() && Numbered()
      ensures fileEntries != [] && View() == Inserted(old(View()), body, body, true)
      ensures Contiguous(fileEntries) <==> Contiguous(old(fileEntries)) && AtText(old(Tape()))
      ensures (Opening(old(Contents()), body, body)[body] == body) <==> !old(Clashes(body))
      ensures calls.stack == old(calls.stack) + [uid] && calls.events == old(calls.events) + [Opened(uid)]
      ensures included == old(included)
      ensures fresh(files.Values - old(files.Values))
    {
      hide Stretch, Rest, Contiguous, Pending, Reverse, AllDifferent, Tape, Sound, Contents, Opening, FinishedIn, AtText, Clashes;
      ghost var tape, pending := Tape(), Pending(Tape());
      var newUid := PushString(body, true);
      PendingAfterPush(Opening(old(Contents()), body, body)[body], newUid, tape);
      ReversePush(calls.stack, newUid);
      OneMore(FinishedIn(calls.events), pending, newUid);
      calls.Push(newUid);
    }

    // ----- runs -----

    method PerformPush(text: string, numbered: bool)
      requires Valid() && InOrder() && Numbered() && (fileEntries == [] || Tape() != [])
      modifies this`input, this`fileEntries, this`it, this`uid, this`files, this`included, files.Values, calls
      ensures Valid() && InOrder() && Numbered()
      ensures fileEntries != [] && View() == Inserted(old(View()), text, text, numbered)
      ensures fresh(files.Values - old(files.Values))
    {
      hide Stretch, Pending, Reverse, AllDifferent, Tape, Sound, Opening, Contents;
      ghost var before := View();
      if numbered {
        ExpandMacro(text);
      } else {
        var newUid := PushString(text, false);
        PendingAfterPush(Opening(before.known, text, text)[text], 0, before.tape);
      }
    }

    method PerformInclude(name: string, contents: string)
      requires Valid() && InOrder() && Numbered() && (fileEntries == [] || Tape() != [])
      modifies this`input, this`fileEntries, this`it, this`uid, this`files, this`included, files.Values, calls
      ensures Valid() && InOrder() && Numbered()
      ensures fileEntries != [] && View() == Inserted(old(View()), name, contents, false)
      ensures fresh(files.Values - old(files.Values))
    {
      hide Stretch, Pending, Reverse, AllDifferent, Tape, Sound, Opening, Contents;
      ghost var before := View();
      var newUid := Include(name, contents, false);
      PendingAfterPush(Opening(before.known, name, contents)[name], 0, before.tape);
    }

    /** One operation of a run. */
    method Perform(op: Operation) returns (read: string)
      requires Valid() && InOrder() && Numbered() && Possible(op, View(), fileEntries != [])
      modifies this`input, this`fileEntries, this`it, this`uid, this`files, this`included, files.Values, calls
      ensures Valid() && InOrder() && Numbered()
      ensures View() == After(op, old(View())) && read == ReadBy(op, old(View()))
      ensures (fileEntries != []) == (old(fileEntries != []) || Pushes(op))
      ensures fresh(files.Values - old(files.Values))
    {
      hide Stretch, Pending, Reverse, AllDifferent, Tape, Sound, Contents, Inserted;
      read := "";
      match op {
        case Push(text, numbered) => PerformPush(text, numbered);
        case Insert(name, contents) => PerformInclude(name, contents);
        case Read =>
          var c := Get();
          if c.Some? {
            read := [c.value];
          }
        case Look =>
          var c := Peek();
        case Skip =>
          Ignore();
      }
    }

    /** Any run: what is read and what is left are what the operations do to the tape, every macro call that
        ended was on top of the stack when it did, and no number ended twice. */
    method Run(ops: seq<Operation>) returns (read: string)
      requires Valid() && InOrder() && Numbered() && AllPossible(ops, View(), fileEntries != [])
      modifies this`input, this`fileEntries, this`it, this`uid, this`files, this`included, files.Values, calls
      ensures Valid() && InOrder() && Numbered()
      ensures View() == AfterAll(ops, old(View())) && read == ReadByAll(ops, old(View()))
      ensures Contiguous(fileEntries) <==> Contiguous(old(fileEntries)) && PushesAtText(ops, old(View()))
      ensures Replay(calls.events, []) == Some(calls.stack) && AllDifferent(FinishedIn(calls.events), uid)
      ensures fresh(files.Values - old(files.Values))
      decreases |ops|
    {
      hide Tape, Sound, Pending, Reverse, After, ReadBy, Possible, Contents, Contiguous, AtText;
      RunContiguous(ops, View());
      if ops == [] {
        read := "";
      } else {
        read := Perform(ops[0]);
        var rest := Run(ops[1..]);
        read := read + rest;
      }
      FirstDifferent(FinishedIn(calls.events), Pending(Tape()), uid);
    }
  }

  // ----- runs as functions -----

  datatype Operation =
    | Push(text: string, numbered: bool)
    | Insert(name: string, contents: string)
    | Read
    | Look
    | Skip

  /** What a run depends on: what was opened under each name, what is left to read, the last number, whether
      the positions of the entries follow on each other. */
  datatype Input = Input(known: map<string, string>, tape: seq<Item>, uid: nat, contiguous: bool)

  /** A name keeps what was opened under it first. */
  function Opening(known: map<string, string>, name: string, contents: string): (o: map<string, string>)
    ensures name in o
  {
    if name in known then known else known[name := contents]
  }

  function Inserted(x: Input, name: string, contents: string, numbered: bool): Input {
    var known := Opening(x.known, name, contents);
    var uid := if numbered then x.uid + 1 else 0;
    Input(known, Stretch(known[name], uid) + x.tape, if numbered then uid else x.uid, x.contiguous && AtText(x.tape))
  }

  predicate Pushes(op: Operation) {
    op.Push? || op.Insert?
  }

  /** Nothing can be pushed once all input has been read. */
  predicate Possible(op: Operation, x: Input, begun: bool) {
    Pushes(op) ==> !begun || x.tape != []
  }

  function After(op: Operation, x: Input): Input {
    match op
    case Push(text, numbered) => Inserted(x, text, text, numbered)
    case Insert(name, contents) => Inserted(x, name, contents, false)
    case Read | Skip => x.(tape := if PastEnds(x.tape) == [] then [] else PastEnds(x.tape)[1..])
    case Look => x.(tape := PastEnds(x.tape))
  }

  function ReadBy(op: Operation, x: Input): string {
    if op.Read? && PastEnds(x.tape) != [] then [PastEnds(x.tape)[0].c] else ""
  }

  predicate AllPossible(ops: seq<Operation>, x: Input, begun: bool) {
    ops == []
    || (Possible(ops[0], x, begun) && AllPossible(ops[1..], After(ops[0], x), begun || Pushes(ops[0])))
  }

  function AfterAll(ops: seq<Operation>, x: Input): Input {
    if ops == [] then x else AfterAll(ops[1..], After(ops[0], x))
  }

  function ReadByAll(ops: seq<Operation>, x: Input): string {
    if ops == [] then "" else ReadBy(ops[0], x) + ReadByAll(ops[1..], After(ops[0], x))
  }

  /** Every push of the run comes at a character (or is the first of all). */
  predicate PushesAtText(ops: seq<Operation>, x: Input) {
    ops == [] || ((Pushes(ops[0]) ==> AtText(x.tape)) && PushesAtText(ops[1..], After(ops[0], x)))
  }

  /** Over any run the positions stay contiguous exactly when every push comes at a character: a stub or a
      gap never goes away. */
  lemma {:induction false} RunContiguous(ops: seq<Operation>, x: Input)
    ensures AfterAll(ops, x).contiguous <==> x.contiguous && PushesAtText(ops, x)
  {
    hide Opening, Stretch, AtText, PastEnds;
    if ops != [] {
      RunContiguous(ops[1..], After(ops[0], x));
    }
  }

  lemma FirstDifferent(a: seq<nat>, b: seq<nat>, newest: nat)
    requires AllDifferent(a + b, newest)
    ensures AllDifferent(a, newest)
  {
    forall i | 0 <= i < |a| ensures 0 < a[i] <= newest {
      assert a[i] == (a + b)[i];
    }
    forall i, j | 0 <= i < j < |a| ensures a[i] != a[j] {
      assert a[i] == (a + b)[i] && a[j] == (a + b)[j];
    }
  }

  // ----- runs as editing -----

  /** A text with a cursor. */
  datatype Document = Document(known: map<string, string>, text: string, cursor: nat)

  predicate WithinText(d: Document) {
    d.cursor <= |d.text|
  }

  function InsertAt(d: Document, name: string, contents: string): Document
    requires WithinText(d)
  {
    var known := Opening(d.known, name, contents);
    Document(known, d.text[..d.cursor] + known[name] + d.text[d.cursor..], d.cursor)
  }

  function Edit(op: Operation, d: Document): (r: Document)
    requires WithinText(d)
    ensures WithinText(r)
  {
    match op
    case Push(text, _) => InsertAt(d, text, text)
    case Insert(name, contents) => InsertAt(d, name, contents)
    case Read | Skip => if d.cursor < |d.text| then d.(cursor := d.cursor + 1) else d
    case Look => d
  }

  function Seen(op: Operation, d: Document): string
    requires WithinText(d)
  {
    if op.Read? && d.cursor < |d.text| then [d.text[d.cursor]] else ""
  }

  function EditAll(ops: seq<Operation>, d: Document): (r: Document)
    requires WithinText(d)
    ensures WithinText(r)
  {
    if ops == [] then d else EditAll(ops[1..], Edit(ops[0], d))
  }

  function SeenAll(ops: seq<Operation>, d: Document): string
    requires WithinText(d)
  {
    if ops == [] then "" else Seen(ops[0], d) + SeenAll(ops[1..], Edit(ops[0], d))
  }

  predicate Shows(x: Input, d: Document) {
    WithinText(d) && x.known == d.known && Text(x.tape) == d.text[d.cursor..]
  }

  lemma {:induction false} OperationEdits(op: Operation, x: Input, d: Document)
    requires Shows(x, d)
    ensures Shows(After(op, x), Edit(op, d)) && ReadBy(op, x) == Seen(op, d)
  {
    hide Shows, Inserted, InsertAt, PastEnds, Opening, Text;
    ShownWithin(x, d);
    match op
    case Push(text, numbered) => InsertionEdits(x, d, text, text, numbered);
    case Insert(name, contents) => InsertionEdits(x, d, name, contents, false);
    case _ => ReadingEdits(x, d);
  }

  /** Ends do not show, and the next character is the one at the cursor. */
  lemma {:induction false} ReadingEdits(x: Input, d: Document)
    requires Shows(x, d)
    ensures var t := PastEnds(x.tape);
      && Shows(x.(tape := t), d) && (t == [] <==> d.cursor == |d.text|)
      && (t == [] ==> Shows(x.(tape := []), d))
      && (t != [] ==> t[0].c == d.text[d.cursor] && Shows(x.(tape := t[1..]), d.(cursor := d.cursor + 1)))
  {
    EndsAreNoText(x.tape);
    var t := PastEnds(x.tape);
    var rest := d.text[d.cursor..];
    assert Text(t) == rest;
    if t != [] {
      hide Ends;
      assert Text(t) == [t[0].c] + Text(t[1..]);
      assert rest[0] == d.text[d.cursor] && rest[1..] == d.text[d.cursor + 1..];
    }
  }

  lemma InsertionEdits(x: Input, d: Document, name: string, contents: string, numbered: bool)
    requires Shows(x, d)
    ensures Shows(Inserted(x, name, contents, numbered), InsertAt(d, name, contents))
  {
    hide Stretch, Text, Opening, AtText;
    var text := Opening(x.known, name, contents)[name];
    PushInserts(text, if numbered then x.uid + 1 else 0, x.tape);
    var d' := InsertAt(d, name, contents);
    assert d'.text[d.cursor..] == text + d.text[d.cursor..];
  }

  /** For every list of operations: what is read, and what is left, are those of a text into which every
      push is inserted at the cursor. */
  lemma {:induction false} RunEdits(ops: seq<Operation>, x: Input, d: Document)
    requires Shows(x, d)
    ensures Shows(AfterAll(ops, x), EditAll(ops, d)) && ReadByAll(ops, x) == SeenAll(ops, d)
  {
    hide Shows, After, Edit, ReadBy, Seen;
    assert WithinText(d) by { ShownWithin(x, d); }
    if ops != [] {
      OperationEdits(ops[0], x, d);
      RunEdits(ops[1..], After(ops[0], x), Edit(ops[0], d));
    }
  }

  lemma ShownWithin(x: Input, d: Document)
    requires Shows(x, d)
    ensures WithinText(d)
  {
  }

  /** A string that is the name of an included file: the file's contents are inserted instead. */
  method NameClash() returns (c: Option<char>)
    ensures c == Some('b')
  {
    hide Inserted, Ends, Stretch, Pending, Reverse, Replay, FinishedIn, Opening, CompoundInputFileStream.Tape,
      CompoundInputFileStream.Sound, CompoundInputFileStream.Contents;
    ClashTape();
    var calls := new MacroCalls();
    var stream := new CompoundInputFileStream(calls);
    var first := stream.Include("a", "b", false);
    var second := stream.PushString("a", false);
    c := stream.Get();
  }

  lemma ClashTape()
    ensures var x := Inserted(Inserted(Input(map[], [], 0, true), "a", "b", false), "a", "a", false);
      x.tape == [Char('b'), Char('b')] && Ends(x.tape) == 0 && x.tape[0..] == x.tape
    ensures Inserted(Input(map[], [], 0, true), "a", "b", false).tape == [Char('b')]
  {
    PlainStretch("b");
    var x := Inserted(Input(map[], [], 0, true), "a", "b", false);
    assert x.tape == [Char('b')];
    assert [Char('b')] + [Char('b')] == [Char('b'), Char('b')];
  }

  lemma ValuesGrow(m: map<string, FileData>, name: string, file: FileData)
    requires name !in m
    ensures file in m[name := file].Values && forall f | f in m.Values :: f in m[name := file].Values
  {
    var m' := m[name := file];
    assert m'[name] == file;
    forall f | f in m.Values ensures f in m'.Values {
      var k :| k in m && m[k] == f;
      assert m'[k] == f;
    }
  }

  lemma NoEndsHere(tape: seq<Item>)
    requires tape != [] && tape[0].Char?
    ensures Ends(tape) == 0 && tape[0..] == tape
  {
  }

  lemma {:induction false} EndsInOrder(es: seq<FileEntry>, i: nat, j: nat)
    requires Contiguous(es) && i < j < |es|
    ensures es[i].end <= es[j].start
  {
    if i + 1 < j {
      EndsInOrder(es, i, j - 1);
    }
  }

  /** A position belongs to one entry; an earlier or a later one has others. */
  lemma OnlyEntry(es: seq<FileEntry>, i: nat, k: nat, position: int)
    requires Contiguous(es) && i < |es| && k < |es|
    requires es[i].start <= position < es[i].end && es[k].start <= position
    ensures i >= k && (position < es[k].end ==> i == k)
  {
    if i < k {
      EndsInOrder(es, i, k);
    } else if k < i {
      EndsInOrder(es, k, i);
    }
  }

  predicate AllDifferent(s: seq<nat>, newest: nat) {
    && (forall i | 0 <= i < |s| :: 0 < s[i] <= newest)
    && forall i, j | 0 <= i < j < |s| :: s[i] != s[j]
  }

  lemma PlainStretch(s: string)
    ensures Stretch(s, 0) == Characters(s)
    ensures |s| == 1 ==> Characters(s) == [Char(s[0])]
  {
  }

  /** Pushing inserts text at the cursor; announcing ends takes none away. */
  lemma PushInserts(text: string, uid: nat, tape: seq<Item>)
    ensures Text(Stretch(text, uid) + tape) == text + Text(tape)
  {
    StretchParts(text, uid);
    TextAppend(Stretch(text, uid), tape);
  }

  lemma {:induction false} EndsAreNoText(tape: seq<Item>)
    ensures Text(tape[Ends(tape)..]) == Text(tape)
  {
    if tape != [] && tape[0].End? {
      EndsAreNoText(tape[1..]);
      assert tape[1..][Ends(tape[1..])..] == tape[Ends(tape)..];
    }
  }

  lemma PendingAfterPush(text: string, uid: nat, tape: seq<Item>)
    ensures Pending(Stretch(text, uid) + tape) == (if uid == 0 then [] else [uid]) + Pending(tape)
  {
    StretchParts(text, uid);
    PendingAppend(Stretch(text, uid), tape);
  }

  lemma OneMore(a: seq<nat>, b: seq<nat>, x: nat)
    requires x > 0 && AllDifferent(a + b, x - 1)
    ensures AllDifferent(a + ([x] + b), x)
  {
    var s, t := a + b, a + ([x] + b);
    forall i | 0 <= i < |t| ensures 0 < t[i] <= x && (i != |a| ==> t[i] < x) {
      assert i != |a| ==> t[i] == s[if i < |a| then i else i - 1];
    }
    forall i, j | 0 <= i < j < |t| ensures t[i] != t[j] {
      if i != |a| && j != |a| {
        assert t[i] == s[if i < |a| then i else i - 1] && t[j] == s[if j < |a| then j else j - 1];
      }
    }
  }

  lemma RestAfter(e: FileEntry, es: seq<FileEntry>)
    requires WholeRest(e) && AllWhole(es)
    ensures AllWhole([e] + es) && Rest([e] + es) == Stretch(EntryText(e), e.uid) + Rest(es)
  {
    assert ([e] + es)[1..] == es;
  }

  /** The parts of the entry at `it` in its place, and what is behind moved on. */
  function Replaced(es: seq<FileEntry>, it: nat, parts: seq<FileEntry>, n: int): seq<FileEntry>
    requires it < |es|
  {
    es[..it] + parts + MovedAll(es[it + 1..], n)
  }

  lemma SplitRest(es: seq<FileEntry>, it: nat, parts: seq<FileEntry>, n: int)
    requires it < |es| && |parts| == 3 && WholeRest(parts[1]) && WholeRest(parts[2]) && AllWhole(es[it + 1..])
    ensures var after := Replaced(es, it, parts, n);
      && |after| == |es| + 2 && after[it + 1] == parts[1] && after[it + 2] == parts[2]
      && (forall i | it + 3 <= i < |after| :: after[i].file == es[i - 2].file)
      && AllWhole(after[it + 1..])
      && Rest(after[it + 1..])
        == Stretch(EntryText(parts[1]), parts[1].uid) + (Stretch(EntryText(parts[2]), parts[2].uid) + Rest(es[it + 1..]))
  {
    hide Stretch, Rest;
    var rest := MovedAll(es[it + 1..], n);
    MovedRest(es[it + 1..], n);
    RestAfter(parts[2], rest);
    RestAfter(parts[1], [parts[2]] + rest);
    assert Replaced(es, it, parts, n)[it + 1..] == [parts[1]] + ([parts[2]] + rest);
  }

  function Moved(e: FileEntry, n: int): FileEntry {
    e.(start := e.start + n, end := e.end + n)
  }

  function MovedAll(es: seq<FileEntry>, n: int): seq<FileEntry> {
    seq(|es|, i requires 0 <= i < |es| => Moved(es[i], n))
  }

  /** Positions do not matter for the text. */
  lemma {:induction false} MovedRest(es: seq<FileEntry>, n: int)
    requires AllWhole(es)
    ensures AllWhole(MovedAll(es, n)) && Rest(MovedAll(es, n)) == Rest(es)
  {
    hide Stretch;
    if es != [] {
      assert MovedAll(es, n)[1..] == MovedAll(es[1..], n);
      MovedRest(es[1..], n);
    }
  }

  lemma SplitContiguous(before: seq<FileEntry>, it: nat, start: int, entry: FileEntry, tail: FileEntry)
    requires it < |before| && before[it].file != null && before[it].start <= start <= before[it].end
    requires entry.file != null && entry.start == start && entry.end == start + |entry.file.contents|
    requires tail.file != null && tail.start == entry.end && tail.end == before[it].end + |entry.file.contents|
    ensures var parts := [before[it].(end := start, uid := 0), entry, tail];
      Contiguous(before) <==> Contiguous(Replaced(before, it, parts, |entry.file.contents|))
  {
    var front := before[..it] + [before[it].(end := start, uid := 0), entry, tail];
    var after := Replaced(before, it, [before[it].(end := start, uid := 0), entry, tail], |entry.file.contents|);
    forall i | 0 <= i < it + 3 ensures after[i] == front[i] {
    }
    if Contiguous(before) {
      StillContiguous(before, it, front, after);
    }
    if Contiguous(after) {
      WasContiguous(before, it, front, after);
    }
  }

  lemma {:induction false} StillContiguous(before: seq<FileEntry>, it: nat, front: seq<FileEntry>,
                                           after: seq<FileEntry>)
    requires it < |before| && |after| == |before| + 2 && |front| == it + 3
    requires Contiguous(before) && front[..it] == before[..it]
    requires front[it].start == before[it].start && (forall i | it <= i < it + 3 :: front[i].file != null)
    requires forall i | it <= i < it + 3 :: front[i].start <= front[i].end
    requires front[it].end == front[it + 1].start && front[it + 1].end == front[it + 2].start
    requires forall i | 0 <= i < it + 3 :: after[i] == front[i]
    requires forall j | it + 3 <= j < |after| ::
      after[j] == Moved(before[j - 2], front[it + 2].end - before[it].end)
    ensures Contiguous(after)
  {
    forall i | 0 <= i < |after| ensures after[i].file != null && after[i].start <= after[i].end {
      if i < it {
        assert after[i] == front[..it][i] == before[i];
      }
    }
    forall i | 0 <= i < |after| - 1 ensures after[i].end == after[i + 1].start {
      if i < it {
        assert after[i] == front[..it][i] == before[i] && before[i].end == before[i + 1].start;
        if i + 1 < it {
          assert after[i + 1] == front[..it][i + 1] == before[i + 1];
        }
      }
      assert i >= it + 2 ==> before[i - 2].end == before[i - 1].start;
    }
  }

  lemma {:induction false} WasContiguous(before: seq<FileEntry>, it: nat, front: seq<FileEntry>, after: seq<FileEntry>)
    requires it < |before| && |after| == |before| + 2 && |front| == it + 3
    requires Contiguous(after) && front[..it] == before[..it] && before[it].file != null
    requires front[it].start == before[it].start <= before[it].end
    requires forall i | 0 <= i < it + 3 :: after[i] == front[i]
    requires forall j | it + 3 <= j < |after| ::
      after[j] == Moved(before[j - 2], front[it + 2].end - before[it].end)
    ensures Contiguous(before)
  {
    forall i | 0 <= i < |before| ensures before[i].file != null && before[i].start <= before[i].end {
      if i < it {
        assert after[i] == front[..it][i] == before[i];
      } else if i > it {
        assert after[i + 2] == Moved(before[i + 2 - 2], front[it + 2].end - before[it].end);
      }
    }
    forall i | 0 <= i < |before| - 1 ensures before[i].end == before[i + 1].start {
      if i < it {
        assert after[i] == front[..it][i] == before[i] && after[i].end == after[i + 1].start;
        if i + 1 < it {
          assert after[i + 1] == front[..it][i + 1] == before[i + 1];
        }
      } else {
        assert after[i + 2].end == after[i + 3].start;
        assert after[i + 3] == Moved(before[i + 3 - 2], front[it + 2].end - before[it].end);
        if i > it {
          assert after[i + 2] == Moved(before[i + 2 - 2], front[it + 2].end - before[it].end);
        }
      }
    }
  }

  lemma StretchFirst(s: string, uid: nat)
    requires s != ""
    ensures Stretch(s, uid) == [Char(s[0])] + Stretch(s[1..], uid)
  {
    assert Characters(s) == [Char(s[0])] + Characters(s[1..]);
  }

  lemma PendingAfterOne(c: char, tape: seq<Item>)
    ensures Pending([Char(c)] + tape) == Pending(tape)
  {
    assert ([Char(c)] + tape)[1..] == tape;
  }

  /** The item at the cursor is an end, and it is the next to be announced. */
  lemma NextEnd(tape: seq<Item>, k: nat, uid: nat, rest: seq<Item>)
    requires k <= Ends(tape) && tape[k..] == [End(uid)] + rest
    ensures k < Ends(tape) && tape[k + 1..] == rest && Pending(tape[k..]) == [uid] + Pending(rest)
  {
    assert tape[k] == tape[k..][0];
    assert tape[k..][1..] == rest;
  }

  /** The number whose end comes first is on top of the stack. */
  lemma {:induction false} Popped(s: seq<nat>, x: nat, rest: seq<nat>)
    requires Reverse(s) == [x] + rest
    ensures s != [] && s[|s| - 1] == x && Reverse(s[..|s| - 1]) == rest
  {
    hide Reverse;
    NothingReversed();
    var init, top := s[..|s| - 1], s[|s| - 1];
    assert s == init + [top];
    ReversePush(init, top);
    SameHeads(x, rest, top, Reverse(init));
  }

  lemma {:induction false} ReverseInjective(s: seq<nat>, t: seq<nat>)
    ensures Reverse(s) == Reverse(t) <==> s == t
  {
    if Reverse(s) == Reverse(t) && s != [] && t != [] {
      var a, b := Reverse(s), Reverse(t);
      assert a[|a| - 1] == s[0] && b[|b| - 1] == t[0];
      assert a[..|a| - 1] == Reverse(s[1..]) && b[..|b| - 1] == Reverse(t[1..]);
      ReverseInjective(s[1..], t[1..]);
    }
  }

  lemma NothingReversed()
    ensures Reverse([]) == []
  {
  }

  lemma {:induction false} SameHeads(x: nat, a: seq<nat>, y: nat, b: seq<nat>)
    requires [x] + a == [y] + b
    ensures x == y && a == b
  {
    assert ([x] + a)[0] == ([y] + b)[0];
    assert ([x] + a)[1..] == a && ([y] + b)[1..] == b;
  }

  lemma {:induction false} Regroup(a: seq<nat>, x: nat, b: seq<nat>)
    ensures (a + [x]) + b == a + ([x] + b)
  {
  }
}

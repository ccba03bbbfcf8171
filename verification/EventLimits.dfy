/** Where the migration stops being faithful, and the plain shape that is always safe. */
module EventLimits {
  import opened Text
  import opened Numbers
  import opened EventLines
  import opened EventPrograms
  import opened EventMigration
  import opened EventAgreement
  import opened EventSessions
  import opened EventInputs

  // ---- every line that is not agreed on changes the meaning of some script ------

  /** Conditions hold as `yes` says, an undescribed line has the effect `e`; the other lines
      only show in the trace. The world is whether something has changed. */
  function Probe(yes: Condition -> bool, e: Effect<bool>): Engine<bool> {
    Engine((w, c) => yes(c), (w, a) => w, (w, t) => e)
  }

  const NOTHING: Effect<bool> := Effect(false, false, false)

  /** A line guarding a block with one output. */
  function Guarding(l: Line): seq<Line> {
    [l, Open, Do(Output("x")), Close]
  }

  function FlatRun(yes: Condition -> bool, e: Effect<bool>, l: Line): Outcome<bool> {
    Run(Probe(yes, e), Guarding(l), 4, 0, false, false)
  }

  function StepRun(yes: Condition -> bool, e: Effect<bool>, l: Line): Outcome<bool> {
    Call(Probe(yes, e), Steps(Guarding(l), 0), 0, false)
  }

  /** What the flat machine shows for `l` before the guarded output. */
  function FlatShown(yes: Condition -> bool, e: Effect<bool>, l: Line): Outcome<bool> {
    var out := Output("x");
    match l
    case Blank => Outcome([Output(""), out], false, Finished)
    case Stop => Outcome([], false, Finished)
    case Pause(prompt) => Outcome([], false, Waiting(1, prompt))
    case Do(a) => Outcome([a, out], false, Finished)
    case When(c, wanted) => Outcome(if yes(c) == wanted then [out] else [], false, Finished)
    case Foreign(_) => Outcome(if e.skip || e.quit then [] else [out], e.world, Finished)
    case _ => Outcome([out], false, Finished)
  }

  lemma RestOfGuarding(yes: Condition -> bool, e: Effect<bool>, w: bool)
    ensures Run(Probe(yes, e), [Open, Do(Output("x")), Close], 4, 0, false, w) == Outcome([Output("x")], w, Finished)
    ensures Run(Probe(yes, e), [Open, Do(Output("x")), Close], 4, 0, true, w) == Outcome([], w, Finished)
  {
    var eng := Probe(yes, e);
    assert [Open, Do(Output("x")), Close][1..] == [Do(Output("x")), Close];
    assert [Do(Output("x")), Close][1..] == [Close];
    assert [Close][1..] == [];
    assert Run(eng, [Close], 4, 0, false, w) == Outcome([], w, Finished);
    assert Run(eng, [Do(Output("x")), Close], 4, 0, false, w) == Outcome([Output("x")], w, Finished);
    assert Run(eng, [Close], 4, 1, true, w) == Outcome([], w, Finished);
    assert Run(eng, [Do(Output("x")), Close], 4, 1, true, w) == Outcome([], w, Finished);
  }

  lemma FlatRunShows(yes: Condition -> bool, e: Effect<bool>, l: Line)
    ensures FlatRun(yes, e, l) == FlatShown(yes, e, l)
  {
    RestOfGuarding(yes, e, false);
    RestOfGuarding(yes, e, e.world);
    assert Guarding(l)[1..] == [Open, Do(Output("x")), Close];
  }

  /** The generated function shows the same, except that a move ends it. */
  function StepShown(yes: Condition -> bool, e: Effect<bool>, l: Line): Outcome<bool> {
    if l.Leave? then Outcome([Move(l.place)], false, Finished)
    else FlatShown(yes, e, l)
  }

  lemma GuardingIsSound(l: Line)
    requires Plain(l) || l.Pause?
    ensures SoundSteps(Guarding(l))
    ensures FindPause(Guarding(l)) == if l.Pause? then 0 else 4
  {
    var ls := Guarding(l);
    var rest := [Open, Do(Output("x")), Close];
    assert ls[1..] == rest;
    SoundRest();
    assert FindPause(rest) == 3;
    if l.Pause? {
      assert ls[..0] == [];
    } else if l.When? {
      assert rest[1..] == [Do(Output("x")), Close];
      assert [Do(Output("x")), Close][1..] == [Close];
      assert FindClose([Close], 1) == 0;
      assert FindClose([Do(Output("x")), Close], 1) == 1;
      assert Split(rest) == Parts([], [Do(Output("x"))], true, []);
    }
  }

  lemma SoundRest()
    ensures Sound([Open, Do(Output("x")), Close], false) && FindPause([Open, Do(Output("x")), Close]) == 3
  {
    assert [Open, Do(Output("x")), Close][1..] == [Do(Output("x")), Close];
    assert [Do(Output("x")), Close][1..] == [Close];
    assert [Close][1..] == [];
    assert Sound([Close], false) && FindPause([Close]) == 1;
    assert Sound([Do(Output("x")), Close], false) && FindPause([Do(Output("x")), Close]) == 2;
  }

  lemma StepRunShows(yes: Condition -> bool, e: Effect<bool>, l: Line)
    requires !l.Foreign?
    ensures StepRun(yes, e, l) == StepShown(yes, e, l)
  {
    if l.Leave? {
      LeaveShows(yes, e, l);
    } else {
      GuardingIsSound(l);
      var ls := Guarding(l);
      CountPausesAt(ls);
      assert ls[0..] == ls;
      LinesMeanSegment(Probe(yes, e), ls, 0, false);
      FlatRunShows(yes, e, l);
      if l.Pause? { FirstStep(Probe(yes, e), ls, 0, false); }
    }
  }

  lemma LeaveShows(yes: Condition -> bool, e: Effect<bool>, l: Line)
    requires l.Leave?
    ensures StepRun(yes, e, l) == StepShown(yes, e, l)
  {
    var ls := Guarding(l);
    assert ls[1..] == [Open, Do(Output("x")), Close];
    SoundRest();
    var prog := [Act(Move(l.place)), Halt];
    assert Convert(ls) == prog;
    WithEndIsSame(Probe(yes, e), prog, false);
    assert prog[1..] == [Halt];
    ExecSplit(Probe(yes, e), Act(Move(l.place)), [Halt], false);
    assert prog == [Act(Move(l.place))] + [Halt];
  }

  /** How the two readings of one line can be related at all. */
  lemma PossibleReadings(line: string)
    ensures var a := ReadByInterpreter(line); var b := ReadByMigration(line);
      && (a.Blank? <==> b.Blank?) && (a.Stop? <==> b.Stop?)
      && (a.Open? || a.Close? ==> b == a || b.Do?)
      && (b.Open? || b.Close? ==> b == a)
      && !a.Leave? && !b.Foreign?
  {
    hide Words;
    hide Argument;
    hide ReadAs;
    hide ConvertAs;
    var s := Strip(PYTHON, line);
    InterpreterNeverLeaves(line);
    if s != "" && s[0] == '$' {
      Marks(s);
      ReadAsKinds(InterpreterKey(Lead(PYTHON, s)), s);
      ConvertAsKinds(MigrationKey(s), s);
    }
  }

  lemma ReadAsKinds(key: Keyword, s: string)
    ensures var l := ReadAs(key, s); !l.Blank? && !l.Stop? && !l.Open? && !l.Close?
  {
    hide Words;
    hide Argument;
    hide ParseInt;
  }

  lemma ConvertAsKinds(key: Keyword, s: string)
    ensures var l := ConvertAs(key, s);
      !l.Blank? && (l.Stop? <==> key.StopKey?) && !l.Open? && !l.Close? && !l.Foreign?
  {
    hide Words;
    hide Argument;
    hide ParseInt;
  }

  /** A choice of true conditions on which two readings part. */
  function Telling(a: Line, b: Line, e: Effect<bool>): Condition -> bool {
    if a.When? && b.When? then c => if c == a.condition then a.wanted else !b.wanted
    else if a.When? then c => !a.wanted
    else if b.When? && a.Foreign? && (e.skip || e.quit) then c => b.wanted
    else if b.When? then c => !b.wanted
    else c => true
  }

  lemma ReadingsTold(a: Line, b: Line, e: Effect<bool>)
    requires a != b && (a.Foreign? && b.Inert? ==> e != NOTHING)
    requires (a.Blank? <==> b.Blank?) && (a.Stop? <==> b.Stop?)
    requires a.Open? || a.Close? ==> b.Do?
    requires !b.Open? && !b.Close? && !a.Leave? && !b.Foreign?
    ensures FlatShown(Telling(a, b, e), e, a) != StepShown(Telling(a, b, e), e, b)
  {
    var fa := FlatShown(Telling(a, b, e), e, a);
    var fb := StepShown(Telling(a, b, e), e, b);
    assert |fa.trace| != |fb.trace| || fa.stop != fb.stop || fa.world != fb.world
      || (|fa.trace| > 0 && fa.trace[0] != fb.trace[0]);
  }

  /** The script in which the line stands before a block with one output. */
  function ProbeScript(line: string): seq<string> {
    [line, "{", "x", "}"]
  }

  lemma ProbeLines(line: string)
    ensures InterpreterLines(ProbeScript(line)) == Guarding(ReadByInterpreter(line))
    ensures MigrationLines(ProbeScript(line)) == Guarding(ReadByMigration(line))
  {
    hide ReadByInterpreter;
    hide ReadByMigration;
    BlockLines();
  }

  lemma BlockLines()
    ensures ReadByInterpreter("{") == Open && ReadByMigration("{") == Open
    ensures ReadByInterpreter("}") == Close && ReadByMigration("}") == Close
    ensures ReadByInterpreter("x") == Do(Output("x")) && ReadByMigration("x") == Do(Output("x"))
  {
    NotSeparators();
    SingleChar('{');
    SingleChar('x');
    SingleChar('}');
    assert "{" == ['{'] && "x" == ['x'] && "}" == ['}'];
    assert !HasPlaceholder("x");
  }

  lemma SingleChar(c: char)
    requires c !in PYTHON
    ensures Strip(PYTHON, [c]) == [c]
  {
  }

  /** Does anything follow from the difference between the two readings of a line? Only an
      undescribed line without any effect that the migration passes over may be left out. */
  predicate Matters(line: string, e: Effect<bool>) {
    ReadByInterpreter(line).Foreign? && ReadByMigration(line).Inert? ==> e != NOTHING
  }

  /** The agreed lines are exactly the faithful ones: before a guarded output, a line that
      is not agreed makes the interpreter and the generated functions differ, whatever an
      undescribed line does. */
  lemma OnlyAgreedLinesAreFaithful(line: string, e: Effect<bool>) returns (yes: Condition -> bool)
    requires !AgreedLine(line) && Matters(line, e)
    ensures Play(Probe(yes, e), ProbeScript(line), 0, false) != Call(Probe(yes, e), Migrate(ProbeScript(line)), 0, false)
  {
    hide ReadByInterpreter;
    hide ReadByMigration;
    hide AgreedLine;
    LinesAgree(line);
    PossibleReadings(line);
    var a := ReadByInterpreter(line);
    var b := ReadByMigration(line);
    yes := Telling(a, b, e);
    ReadingsTold(a, b, e);
    ProbeShows(line, yes, e);
  }

  lemma ProbeShows(line: string, yes: Condition -> bool, e: Effect<bool>)
    ensures Play(Probe(yes, e), ProbeScript(line), 0, false) == FlatShown(yes, e, ReadByInterpreter(line))
    ensures !ReadByMigration(line).Foreign? ==>
      Call(Probe(yes, e), Migrate(ProbeScript(line)), 0, false) == StepShown(yes, e, ReadByMigration(line))
  {
    hide ReadByInterpreter;
    hide ReadByMigration;
    hide FlatShown;
    ProbeLines(line);
    var a, b := ReadByInterpreter(line), ReadByMigration(line);
    FlatRunShows(yes, e, a);
    if !b.Foreign? { StepRunShows(yes, e, b); }
    assert Guarding(a)[0..] == Guarding(a);
  }

  /** Exactly the agreed lines are faithful before a guarded output, whatever holds and
      whatever an undescribed line does. */
  lemma AgreedIffFaithful(line: string)
    ensures AgreedLine(line) <==>
      forall yes: Condition -> bool, e: Effect<bool> ::
        Play(Probe(yes, e), ProbeScript(line), 0, false) == Call(Probe(yes, e), Migrate(ProbeScript(line)), 0, false)
  {
    hide ReadByInterpreter;
    hide ReadByMigration;
    hide AgreedLine;
    if AgreedLine(line) {
      forall yes: Condition -> bool, e: Effect<bool>
        ensures Play(Probe(yes, e), ProbeScript(line), 0, false) == Call(Probe(yes, e), Migrate(ProbeScript(line)), 0, false)
      {
        AgreedIsPlain(line);
        ProbeShows(line, yes, e);
      }
    } else {
      var yes := OnlyAgreedLinesAreFaithful(line, Effect(true, false, false));
    }
  }

  // ---- the typed word ---------------------------------------------------------------

  /** What the two tests of a typed word say of the words typed. The generated program asks
      for a word that need not be there; the interpreter wants it between the first and the
      last. */
  predicate Typed(words: seq<string>, c: Condition) {
    match c
    case TypedArgument(i, word) => |words| >= 3 && 0 <= i <= |words| - 2 && words[i] == word
    case TypedWord(i, word) => (if 0 <= i < |words| then words[i] else "") == word
    case _ => false
  }

  /** The migration adds one to the number of the word that is tested. */
  lemma TypedReadings(line: string)
    requires var s := Strip(PYTHON, line);
      && s != "" && s[0] == '$' && Lead(PYTHON, s) == "$변수확인" && !NamesSession(s)
      && |Words(PYTHON, s)| >= 3 && ParseInt(Words(PYTHON, s)[1]).Some?
    ensures var toks := Words(PYTHON, Strip(PYTHON, line));
      var n := ParseInt(toks[1]).value;
      && ReadByInterpreter(line) == When(TypedArgument(n, toks[2]), true)
      && ReadByMigration(line) == When(TypedWord(n + 1, toks[2]), true)
  {
    var s := Strip(PYTHON, line);
    Marks(s);
    hide PYTHON;
    hide Words;
    KeyFound(s);
    assert MigrationKey(s) == InterpreterKey("$변수확인") == TypedWordKey;
    assert s[1] == '변' by { var rest := LeadSplits(PYTHON, s); }
    TypedAs(s);
  }

  lemma TypedAs(s: string)
    requires |Words(PYTHON, s)| >= 3 && ParseInt(Words(PYTHON, s)[1]).Some? && !NamesSession(s)
    ensures var toks := Words(PYTHON, s); var n := ParseInt(toks[1]).value;
      && ReadAs(TypedWordKey, s) == When(TypedArgument(n, toks[2]), true)
      && ConvertAs(TypedWordKey, s) == When(TypedWord(n + 1, toks[2]), true)
  {
    hide Words;
    hide Argument;
    hide ParseInt;
    hide NamesSession;
  }

  /** For every word but a negative one there is a typed line on which the migration guards
      an output that the interpreter shows not, and unless it is the first also one on which
      it withholds an output that the interpreter shows. */
  lemma ShiftedWordMatters(line: string, i: nat, word: string, e: Effect<bool>) returns (kept: seq<string>, lost: seq<string>)
    requires word != ""
    requires ReadByInterpreter(line) == When(TypedArgument(i, word), true)
    requires ReadByMigration(line) == When(TypedWord(i + 1, word), true)
    ensures var script := ProbeScript(line);
      && Play(Probe(c => Typed(kept, c), e), script, 0, false).trace == []
      && Call(Probe(c => Typed(kept, c), e), Migrate(script), 0, false).trace == [Output("x")]
      && (i > 0 ==>
            && Play(Probe(c => Typed(lost, c), e), script, 0, false).trace == [Output("x")]
            && Call(Probe(c => Typed(lost, c), e), Migrate(script), 0, false).trace == [])
  {
    hide ReadByInterpreter;
    hide ReadByMigration;
    var other := if word == "x" then "y" else "x";
    kept := seq(i + 2, k => if k == i + 1 then word else other);
    lost := seq(i + 2, k => if k == i then word else other);
    ProbeShows(line, c => Typed(kept, c), e);
    ProbeShows(line, c => Typed(lost, c), e);
  }

  // ---- lines lost between a condition and its block -----------------------------

  /** Does a line between a taken condition and its block show? */
  predicate Shows(c: Condition, wanted: bool, l: Line, e: Effect<bool>) {
    || l.Do? || l.Blank? || l.Stop? || (l.Foreign? && e != NOTHING)
    || (l.When? && (l.condition != c || l.wanted != wanted))
  }

  /** The migration drops a line that stands between a condition and its block, the second
      of two chained conditions for instance: the two meanings then differ. */
  lemma LostLineMatters(c: Condition, wanted: bool, l: Line, e: Effect<bool>) returns (yes: Condition -> bool)
    requires Shows(c, wanted, l, e)
    ensures var ls := [When(c, wanted)] + Guarding(l);
      && !Sound(ls, false)
      && Run(Probe(yes, e), ls, 5, 0, false, false) != Call(Probe(yes, e), Steps(ls, 0), 0, false)
  {
    yes := if l.When? && l.condition != c then
             (d => if d == c then wanted else if d == l.condition then !l.wanted else true)
           else (d => wanted);
    LostDiffer(yes, c, wanted, l, e);
  }

  lemma LostDiffer(yes: Condition -> bool, c: Condition, wanted: bool, l: Line, e: Effect<bool>)
    requires Shows(c, wanted, l, e) && yes(c) == wanted
    requires l.When? ==> yes(l.condition) != l.wanted
    ensures var ls := [When(c, wanted)] + Guarding(l);
      && !Sound(ls, false)
      && Run(Probe(yes, e), ls, 5, 0, false, false) != Call(Probe(yes, e), Steps(ls, 0), 0, false)
  {
    hide Sound;
    hide Steps;
    hide Call;
    hide Run;
    hide Guarding;
    LostUnsound(c, wanted, l, e);
    LostStep(yes, c, wanted, l, e);
    LostFlat(yes, l, e);
    LostGoesOn(yes, c, wanted, l, e);
    assert FlatShown(yes, e, l).trace == [Output("x")] ==> FlatShown(yes, e, l).world;
  }

  lemma LostUnsound(c: Condition, wanted: bool, l: Line, e: Effect<bool>)
    requires Shows(c, wanted, l, e)
    ensures !Sound([When(c, wanted)] + Guarding(l), false)
  {
    hide Split;
    var ls := [When(c, wanted)] + Guarding(l);
    assert ls[1..] == Guarding(l);
    LostSplit(l);
    assert !Silent(Split(ls[1..]).lost[0]);
  }

  lemma LostGoesOn(yes: Condition -> bool, c: Condition, wanted: bool, l: Line, e: Effect<bool>)
    requires yes(c) == wanted
    ensures var ls := [When(c, wanted)] + Guarding(l);
      Run(Probe(yes, e), ls, 5, 0, false, false) == Run(Probe(yes, e), Guarding(l), 5, 0, false, false)
  {
    hide Guarding;
    assert ([When(c, wanted)] + Guarding(l))[1..] == Guarding(l);
  }

  lemma LostStep(yes: Condition -> bool, c: Condition, wanted: bool, l: Line, e: Effect<bool>)
    requires !l.Open? && !l.Close? && !l.Pause? && yes(c) == wanted
    ensures Call(Probe(yes, e), Steps([When(c, wanted)] + Guarding(l), 0), 0, false) == Outcome([Output("x")], false, Finished)
  {
    hide Convert;
    hide Exec;
    var ls := [When(c, wanted)] + Guarding(l);
    LostNoPause(c, wanted, l);
    LastStep(ls, 0);
    ConvertLost(c, wanted, l);
    WithEndIsSame(Probe(yes, e), Convert(ls), false);
    ExecGuarded(yes, c, wanted, e);
  }

  lemma LostSplit(l: Line)
    requires !l.Open? && !l.Close?
    ensures Split(Guarding(l)) == Parts([l], [Do(Output("x"))], true, [])
  {
    var ls := Guarding(l);
    assert ls[1..] == [Open, Do(Output("x")), Close];
    assert FindOpen([Open, Do(Output("x")), Close], 0) == 0;
    assert FindOpen(ls, 0) == 1;
    assert ls[2..] == [Do(Output("x")), Close];
    assert [Do(Output("x")), Close][1..] == [Close];
    assert FindClose([Close], 1) == 0;
    assert FindClose([Do(Output("x")), Close], 1) == 1;
    assert [Do(Output("x")), Close][..1] == [Do(Output("x"))];
    assert [Do(Output("x")), Close][2..] == [];
    assert ls[..1] == [l];
  }

  lemma LostNoPause(c: Condition, wanted: bool, l: Line)
    requires !l.Pause?
    ensures FindPause([When(c, wanted)] + Guarding(l)) == 5
  {
    var ls := [When(c, wanted)] + Guarding(l);
    assert ls[1..] == Guarding(l);
    assert Guarding(l)[1..] == [Open, Do(Output("x")), Close];
    SoundRest();
  }

  lemma ConvertLost(c: Condition, wanted: bool, l: Line)
    requires !l.Open? && !l.Close?
    ensures Convert([When(c, wanted)] + Guarding(l)) == [If(c, wanted, [Act(Output("x"))])]
  {
    var ls := [When(c, wanted)] + Guarding(l);
    assert ls[1..] == Guarding(l);
    LostSplit(l);
    ConvertWhen(ls);
    assert Convert([Do(Output("x"))]) == [Act(Output("x"))] by {
      assert [Do(Output("x"))][1..] == [];
    }
    assert Convert([]) == [];
  }

  lemma ExecGuarded(yes: Condition -> bool, c: Condition, wanted: bool, e: Effect<bool>)
    requires yes(c) == wanted
    ensures Exec(Probe(yes, e), [If(c, wanted, [Act(Output("x"))])], false) == Result([Output("x")], false, false)
  {
    var body := [Act(Output("x"))];
    assert body[1..] == [];
    assert Exec(Probe(yes, e), body, false) == Result([Output("x")], false, false);
    assert [If(c, wanted, body)][1..] == [];
  }

  lemma LostFlat(yes: Condition -> bool, l: Line, e: Effect<bool>)
    ensures var o := Run(Probe(yes, e), Guarding(l), 5, 0, false, false);
      o.trace == FlatShown(yes, e, l).trace && o.world == FlatShown(yes, e, l).world
  {
    SameButNumbers(Probe(yes, e), Guarding(l), 4, 5, 0, false, false);
    FlatRunShows(yes, e, l);
  }

  /** The script's length only numbers the pauses. */
  lemma {:induction false} SameButNumbers<W>(eng: Engine<W>, ls: seq<Line>, m: int, n: int, tab: int, skip: bool, w: W)
    ensures var a, b := Run(eng, ls, m, tab, skip, w), Run(eng, ls, n, tab, skip, w);
      a.trace == b.trace && a.world == b.world
    decreases |ls|
  {
    if ls != [] {
      match Take(eng, ls[0], tab, skip, w)
      case On(events, tab', skip', w') => SameButNumbers(eng, ls[1..], m, n, tab', skip', w');
      case _ =>
    }
  }

  // ---- blocks that a pause cuts ----------------------------------------------------

  /** A skip that finds no block goes on behind the lines. */
  lemma {:induction false} SkipsOnBefore<W>(eng: Engine<W>, ls: seq<Line>, tail: seq<Line>, total: int, depth: int, w: W)
      returns (tab: int)
    requires depth <= 0 && FindOpen(ls, depth) == |ls|
    ensures Run(eng, ls + tail, total, depth, true, w) == Run(eng, tail, total, tab, true, w) && tab <= 0
    decreases |ls|
  {
    hide Run;
    if ls == [] {
      tab := depth;
      assert ls + tail == tail;
    } else {
      assert (ls + tail)[1..] == ls[1..] + tail;
      SkipOne(eng, ls + tail, total, depth, w);
      tab := SkipsOnBefore(eng, ls[1..], tail, total, NextDepth(ls[0], depth), w);
    }
  }

  /** And so does one that finds no end of its block. */
  lemma {:induction false} SkipsOnInside<W>(eng: Engine<W>, ls: seq<Line>, tail: seq<Line>, total: int, depth: nat, w: W)
      returns (tab: int)
    requires depth >= 1 && FindClose(ls, depth) == |ls|
    ensures Run(eng, ls + tail, total, depth, true, w) == Run(eng, tail, total, tab, true, w) && tab >= 1
    decreases |ls|
  {
    hide Run;
    if ls == [] {
      tab := depth;
      assert ls + tail == tail;
    } else {
      assert (ls + tail)[1..] == ls[1..] + tail;
      SkipOne(eng, ls + tail, total, depth, w);
      tab := SkipsOnInside(eng, ls[1..], tail, total, NextDepth(ls[0], depth), w);
    }
  }

  lemma SkipsOn<W>(eng: Engine<W>, ls: seq<Line>, tail: seq<Line>, total: int, w: W) returns (tab: int)
    requires !Split(ls).closed
    ensures Run(eng, ls + tail, total, 0, true, w) == Run(eng, tail, total, tab, true, w)
  {
    hide Run;
    var k := FindOpen(ls, 0);
    if k == |ls| {
      tab := SkipsOnBefore(eng, ls, tail, total, 0, w);
    } else {
      SkipBefore(eng, ls, tail, total, 0, w);
      tab := SkipsOnInside(eng, ls[k + 1..], tail, total, 1, w);
    }
  }

  lemma {:induction false} FindPauseAt(ls: seq<Line>, k: nat)
    requires k < |ls| && ls[k].Pause? && forall i :: 0 <= i < k ==> !ls[i].Pause?
    ensures FindPause(ls) == k
    decreases k
  {
    if k > 0 { FindPauseAt(ls[1..], k - 1); }
  }

  /** A block that is still open at a pause, or not opened yet, is not faithful: where the
      condition fails, the generated function waits and the interpreter skips the pause. */
  lemma CutBlockMatters<W>(eng: Engine<W>, c: Condition, wanted: bool, pre: seq<Line>, prompt: string, rest: seq<Line>, w: W)
    requires eng.test(w, c) != wanted
    requires !Split(pre).closed && forall i :: 0 <= i < |pre| ==> !pre[i].Pause?
    ensures var ls := [When(c, wanted)] + (pre + ([Pause(prompt)] + rest));
      && !SoundSteps(ls)
      && Call(eng, Steps(ls, 0), 0, w) == Outcome([], w, Waiting(1, prompt))
      && !Corresponds(ls, Run(eng, ls, |ls|, 0, false, w), Call(eng, Steps(ls, 0), 0, w))
  {
    var ls := [When(c, wanted)] + (pre + ([Pause(prompt)] + rest));
    var p := |pre| + 1;
    assert ls[p] == Pause(prompt) && forall i :: 0 < i < p ==> ls[i] == pre[i - 1];
    FindPauseAt(ls, p);
    assert ls[..p] == [When(c, wanted)] + pre && ls[..p][1..] == pre;
    CutStep(eng, c, wanted, pre, w);
    FirstStep(eng, ls, 0, w);
    FirstStart(ls);
    CutFlat(eng, c, wanted, pre, prompt, rest, w);
  }

  lemma CutStep<W>(eng: Engine<W>, c: Condition, wanted: bool, pre: seq<Line>, w: W)
    requires eng.test(w, c) != wanted && !Split(pre).closed
    ensures Exec(eng, Convert([When(c, wanted)] + pre), w) == Result([], w, false)
    ensures !Sound([When(c, wanted)] + pre, true)
  {
    hide Split;
    var ls := [When(c, wanted)] + pre;
    assert ls[1..] == pre;
    UnclosedCovers(pre);
    ExecWhen(eng, ls, w);
    assert Exec(eng, Convert([]), w) == Result([], w, false);
  }

  lemma CutFlat<W>(eng: Engine<W>, c: Condition, wanted: bool, pre: seq<Line>, prompt: string, rest: seq<Line>, w: W)
    requires eng.test(w, c) != wanted && !Split(pre).closed
    ensures var ls := [When(c, wanted)] + (pre + ([Pause(prompt)] + rest));
      var o := Run(eng, ls, |ls|, 0, false, w);
      o.stop.Waiting? ==> o.stop.line > |pre| + 2
  {
    hide Split;
    var tail := [Pause(prompt)] + rest;
    var ls := [When(c, wanted)] + (pre + tail);
    RunWhen(eng, ls, [], |ls|, w);
    assert ls + [] == ls && ls[1..] + [] == pre + tail;
    var tab := SkipsOn(eng, pre, tail, |ls|, w);
    SkipOne(eng, tail, |ls|, tab, w);
    assert tail[1..] == rest;
    WaitsAhead(eng, rest, |ls|, tab, true, w);
  }

  // ---- the plain shape -----------------------------------------------------------

  /** Every condition is directly followed by its brace. */
  predicate Braced(ls: seq<Line>) {
    forall i :: 0 <= i < |ls| && ls[i].When? ==> i + 1 < |ls| && ls[i + 1].Open?
  }

  lemma CloseOne(ls: seq<Line>, depth: nat)
    requires ls != [] && depth >= 1
    ensures FindClose(ls, depth) ==
      if ls[0].Close? && depth == 1 then 0 else 1 + FindClose(ls[1..], NextDepth(ls[0], depth))
  {
  }

  /** Closing `a + b` levels is closing `a` and then `b`. */
  lemma {:induction false} CloseInTwo(pre: seq<Line>, post: seq<Line>, a: nat, b: nat)
    requires a >= 1 && b >= 1 && Inside(pre, a)
    ensures FindClose(pre + ([Close] + post), a + b) == |pre| + 1 + FindClose(post, b)
    decreases |pre|
  {
    hide FindClose;
    var ls := pre + ([Close] + post);
    CloseOne(ls, a + b);
    CloseOne(pre + [Close], a);
    if pre == [] {
      assert ls[0] == Close && ls[1..] == post && (pre + [Close])[1..] == [];
      CloseNothing(a);
    } else {
      assert ls[1..] == pre[1..] + ([Close] + post);
      assert (pre + [Close])[1..] == pre[1..] + [Close];
      CloseInTwo(pre[1..], post, NextDepth(pre[0], a), b);
    }
  }

  lemma CloseNothing(a: nat)
    requires a >= 1
    ensures Inside([], a) ==> a == 1
  {
    assert [] + [Close] == [Close] && [Close][1..] == [];
  }

  /** Deeper levels close later. */
  lemma {:induction false} DeeperIsLater(ls: seq<Line>, a: nat, b: nat)
    requires a >= 1 && b >= 1
    ensures FindClose(ls, a) < |ls| ==> FindClose(ls, a) < FindClose(ls, a + b)
    ensures FindClose(ls, a) == |ls| ==> FindClose(ls, a + b) == |ls|
    decreases |ls|
  {
    if ls != [] {
      hide FindClose;
      CloseOne(ls, a);
      CloseOne(ls, a + b);
      if !(ls[0].Close? && a == 1) {
        DeeperIsLater(ls[1..], NextDepth(ls[0], a), b);
      }
    }
  }

  lemma {:induction false} CloseFound(ls: seq<Line>, tail: seq<Line>, depth: nat)
    requires depth >= 1
    ensures FindClose(ls, depth) < |ls| ==> FindClose(ls + tail, depth) == FindClose(ls, depth)
    ensures FindClose(ls, depth) == |ls| ==> FindClose(ls + tail, depth) >= |ls|
    decreases |ls|
  {
    if ls != [] {
      assert (ls + tail)[1..] == ls[1..] + tail;
      if ls[0].Open? {
        CloseFound(ls[1..], tail, depth + 1);
      } else if ls[0].Close? {
        if depth > 1 { CloseFound(ls[1..], tail, depth - 1); }
      } else {
        CloseFound(ls[1..], tail, depth);
      }
    }
  }

  /** A piece inside `depth` open blocks whose end is where they all close. */
  predicate Inside(ls: seq<Line>, depth: nat)
    requires depth >= 1
  {
    FindClose(ls + [Close], depth) == |ls|
  }

  lemma SoundWhen(ls: seq<Line>, must: bool)
    requires ls != [] && ls[0].When?
    ensures var p := Split(ls[1..]);
      p.lost == [] ==>
        (Sound(ls, must) <==> (p.closed || !must) && Sound(p.block, must || p.closed) && Sound(p.rest, must))
  {
    hide Split;
  }

  lemma SoundOther(ls: seq<Line>, must: bool)
    requires ls != [] && !ls[0].When? && !ls[0].Stop?
    ensures Sound(ls, must) == Sound(ls[1..], must)
  {
  }

  lemma BracedWhen(ls: seq<Line>)
    requires ls != [] && ls[0].When? && Braced(ls)
    ensures |ls| >= 2 && ls[1].Open? && Braced(ls[2..])
    ensures forall q :: 0 <= q < |ls| - 2 && ls[2..][q].Close? ==> Braced(ls[2..][..q]) && Braced(ls[2..][q + 1..])
  {
  }

  lemma BracedOther(ls: seq<Line>)
    requires ls != [] && Braced(ls)
    ensures Braced(ls[1..])
  {
  }

  /** In the plain shape, what closes outside closes inside: the piece is sound. */
  lemma {:induction false} InsideIsSound(ls: seq<Line>, depth: nat)
    requires depth >= 1 && Braced(ls) && Inside(ls, depth)
    ensures Sound(ls, true)
    decreases |ls|
  {
    hide FindClose;
    hide Split;
    hide Braced;
    if ls == [] || ls[0].Stop? {
    } else if ls[0].When? {
      hide Sound;
      hide Inside;
      BracedWhen(ls);
      var inner := ls[2..];
      InnerCloses(ls, depth);
      SplitBraced(ls);
      SoundWhen(ls, true);
      InsideBlock(inner);
      InsideRest(inner, depth);
      var q := FindClose(inner, 1);
      assert Braced(inner[..q]) && Braced(inner[q + 1..]);
      InsideIsSound(inner[..q], 1);
      InsideIsSound(inner[q + 1..], depth);
    } else {
      hide Sound;
      hide Inside;
      BracedOther(ls);
      SoundOther(ls, true);
      InsideStep(ls, depth);
      InsideIsSound(ls[1..], NextDepth(ls[0], depth));
    }
  }

  lemma InsideStep(ls: seq<Line>, depth: nat)
    requires ls != [] && depth >= 1 && Inside(ls, depth)
    ensures NextDepth(ls[0], depth) >= 1 && Inside(ls[1..], NextDepth(ls[0], depth))
  {
    assert (ls + [Close])[1..] == ls[1..] + [Close];
    CloseOne(ls + [Close], depth);
  }

  lemma SplitBraced(ls: seq<Line>)
    requires |ls| >= 2 && ls[0].When? && ls[1].Open?
    requires FindClose(ls[2..], 1) < |ls| - 2
    ensures var inner := ls[2..]; var q := FindClose(inner, 1);
      Split(ls[1..]) == Parts([], inner[..q], true, inner[q + 1..])
  {
    assert ls[1..][1..] == ls[2..];
    assert ls[1..][..0] == [];
  }

  lemma InnerCloses(ls: seq<Line>, depth: nat)
    requires depth >= 1 && |ls| >= 2 && ls[0].When? && ls[1].Open? && Inside(ls, depth)
    ensures FindClose(ls[2..] + [Close], depth + 1) == |ls| - 2
    ensures FindClose(ls[2..], 1) < |ls| - 2
  {
    var inner := ls[2..];
    assert (ls + [Close])[1..] == ls[1..] + [Close];
    assert FindClose(ls[1..] + [Close], depth) == |ls| - 1;
    assert ls[1..][1..] == inner;
    assert (ls[1..] + [Close])[1..] == inner + [Close];
    DeeperIsLater(inner + [Close], 1, depth);
    CloseFound(inner, [Close], 1);
  }

  lemma InsideBlock(inner: seq<Line>)
    requires FindClose(inner, 1) < |inner|
    ensures Inside(inner[..FindClose(inner, 1)], 1)
  {
    PrefixCloses(inner, 1);
  }

  lemma {:induction false} PrefixCloses(ls: seq<Line>, depth: nat)
    requires depth >= 1 && FindClose(ls, depth) < |ls|
    ensures FindClose(ls[..FindClose(ls, depth)] + [Close], depth) == FindClose(ls, depth)
    decreases |ls|
  {
    var q := FindClose(ls, depth);
    if q > 0 {
      PrefixCloses(ls[1..], NextDepth(ls[0], depth));
      assert (ls[..q] + [Close])[1..] == ls[1..][..q - 1] + [Close];
    } else {
      assert ls[..0] + [Close] == [Close];
    }
  }

  lemma InsideRest(inner: seq<Line>, depth: nat)
    requires depth >= 1
    requires FindClose(inner, 1) < |inner|
    requires FindClose(inner + [Close], depth + 1) == |inner|
    ensures Inside(inner[FindClose(inner, 1) + 1..], depth)
  {
    hide FindClose;
    var q := FindClose(inner, 1);
    var pre, post := inner[..q], inner[q + 1..];
    PrefixCloses(inner, 1);
    CloseInTwo(pre, post + [Close], 1, depth);
    assert inner + [Close] == pre + ([Close] + (post + [Close]));
  }

  /** The plain shape is sound whatever braces are stray or missing. */
  lemma {:induction false} BracedIsSound(ls: seq<Line>)
    requires Braced(ls)
    ensures Sound(ls, false)
    decreases |ls|
  {
    hide FindClose;
    hide Split;
    hide Braced;
    hide Inside;
    if ls == [] || ls[0].Stop? {
    } else if ls[0].When? {
      hide Sound;
      BracedWhen(ls);
      SoundWhen(ls, false);
      var inner := ls[2..];
      var q := FindClose(inner, 1);
      if q < |inner| {
        SplitBraced(ls);
        InsideBlock(inner);
        assert Braced(inner[..q]) && Braced(inner[q + 1..]);
        InsideIsSound(inner[..q], 1);
        BracedIsSound(inner[q + 1..]);
      } else {
        SplitUnclosed(ls);
        BracedIsSound(inner);
        EmptyIsSound(false);
      }
    } else {
      hide Sound;
      BracedOther(ls);
      SoundOther(ls, false);
      BracedIsSound(ls[1..]);
    }
  }

  lemma EmptyIsSound(must: bool)
    ensures Sound([], must)
  {
  }

  lemma SplitUnclosed(ls: seq<Line>)
    requires |ls| >= 2 && ls[0].When? && ls[1].Open?
    requires FindClose(ls[2..], 1) == |ls| - 2
    ensures Split(ls[1..]) == Parts([], ls[2..], false, [])
  {
    assert ls[1..][1..] == ls[2..];
    assert ls[1..][..0] == [];
  }

  /** Every condition has its brace, and the braces before a pause match. */
  predicate PlainShape(ls: seq<Line>)
    decreases |ls|
  {
    var p := FindPause(ls);
    && Braced(ls[..p])
    && (p < |ls| ==> Inside(ls[..p], 1) && PlainShape(ls[p + 1..]))
  }

  /** What a maintainer can check line by line is enough for the migration theorem. */
  lemma {:induction false} PlainShapeIsSound(ls: seq<Line>)
    requires PlainShape(ls)
    ensures SoundSteps(ls)
    decreases |ls|
  {
    var p := FindPause(ls);
    assert ls[..|ls|] == ls;
    if p == |ls| {
      BracedIsSound(ls);
    } else {
      InsideIsSound(ls[..p], 1);
      PlainShapeIsSound(ls[p + 1..]);
    }
  }

  // ---- a script in the fragment -----------------------------------------------------

  lemma {:induction false} NoChar(s: string, part: string, c: char)
    requires c in part && c !in s
    ensures !Contains(s, part)
    decreases |s|
  {
    if s != [] { NoChar(s[1..], part, c); }
  }

  lemma NoSession(s: string)
    requires '[' !in s && ':' !in s
    ensures !NamesSession(s) && !HasPlaceholder(s)
  {
    NoChar(s, "[사용자이름]", '[');
    NoChar(s, "$변수:", ':');
    NoChar(s, "[배울무공이름갯수]", '[');
    NoChar(s, "[아이템사용횟수]", '[');
    NoChar(s, "[변수]", '[');
  }

  const ASKS := "$이벤트확인 x"
  const WAITS := "$엔터$"

  lemma AskIsAgreed()
    ensures AgreedLine(ASKS) && ReadByInterpreter(ASKS) == When(EventSet("x"), true)
  {
    var word, rest := "$이벤트확인", " x";
    assert ASKS == word + rest && "x"[0] == 'x';
    LettersOfAsks();
    LeadIs(PYTHON, word, rest);
    assert ASKS[|word|..] == rest;
    TrimStartIs(PYTHON, " ", "x");
    assert " " + "x" == rest;
    SingleChar('x');
    assert ['x'] == "x";
    assert Argument(ASKS) == "x";
    NoSession(ASKS);
    KeyFound(ASKS);
  }

  lemma LettersOfAsks()
    ensures forall i :: 0 <= i < |"$이벤트확인"| ==> "$이벤트확인"[i] !in PYTHON
    ensures 'x' !in PYTHON && ' ' in PYTHON && Text.Blank(PYTHON, " ")
    ensures TrimStart(PYTHON, ASKS) == ASKS && Strip(PYTHON, ASKS) == ASKS
    ensures '[' !in ASKS && ':' !in ASKS
  {
    NotSeparators();
    assert ASKS[0] == '$' && ASKS[|ASKS| - 1] == 'x';
  }

  lemma WaitIsAgreed()
    ensures AgreedLine(WAITS) && ReadByInterpreter(WAITS) == Pause("")
  {
    LettersOfWaits();
    hide PYTHON;
    NoSession(WAITS);
    KeyFound(WAITS);
  }

  lemma LettersOfWaits()
    ensures Strip(PYTHON, WAITS) == WAITS && Lead(PYTHON, WAITS) == WAITS && Argument(WAITS) == ""
    ensures '[' !in WAITS && ':' !in WAITS
  {
    NotSeparators();
    assert WAITS + "" == WAITS && WAITS[0] == '$' && WAITS[|WAITS| - 1] == '$';
    LeadIs(PYTHON, WAITS, "");
    assert WAITS[|WAITS|..] == "";
  }

  lemma BraceIsAgreed()
    ensures AgreedLine("{") && AgreedLine("}") && AgreedLine("x")
  {
    NotSeparators();
    SingleChar('{');
    SingleChar('x');
    SingleChar('}');
    assert "{" == ['{'] && "x" == ['x'] && "}" == ['}'];
    NoSession("x");
  }

  const MARKS := "$입력대기출력끝$"

  lemma MarkIsRelease()
    ensures ReleaseLine(MARKS) && ReadByInterpreter(MARKS) == Do(Release) && ReadByMigration(MARKS) == Inert
  {
    LettersOfMarks();
    hide PYTHON;
    assert ReleaseLine(MARKS);
    hide ReleaseLine;
    hide ReadByInterpreter;
    hide ReadByMigration;
    ReleaseLineIs(MARKS);
  }

  lemma LettersOfMarks()
    ensures Strip(PYTHON, MARKS) == MARKS && Lead(PYTHON, MARKS) == MARKS
  {
    NotSeparators();
    assert MARKS + "" == MARKS && MARKS[0] == '$' && MARKS[|MARKS| - 1] == '$';
    LeadIs(PYTHON, MARKS, "");
  }

  /** A condition with its block, a pause, text, and what else is given: the fragment is not
      empty, and the player gets the input back exactly with a marker. */
  lemma SampleIsMigratable()
    ensures var script := [ASKS, "{", "x", "}", WAITS, "x"];
      Migratable(script) && KeepsInput(InterpreterLines(script))
    ensures var script := [ASKS, "{", "x", "}", WAITS, "x", MARKS];
      Migratable(script) && GivesInputBack(InterpreterLines(script))
  {
    AskIsAgreed();
    WaitIsAgreed();
    BraceIsAgreed();
    BlockLines();
    MarkIsRelease();
    hide *;
    var bare := [ASKS, "{", "x", "}", WAITS, "x"];
    var marked := [ASKS, "{", "x", "}", WAITS, "x", MARKS];
    var head := [When(EventSet("x"), true), Open, Do(Output("x")), Close, Pause("")];
    var x := Do(Output("x"));
    assert InterpreterLines(bare) == head + [x];
    assert InterpreterLines(marked) == head + [x, Do(Release)];
    AllUnreleasedIs(head, x);
    SampleIsSound([x]);
    SampleIsSound([x, Inert]);
    AllKnown(bare);
    AllKnown(marked);
    SampleInput(head, x);
  }

  lemma AllUnreleasedIs(head: seq<Line>, x: Line)
    requires Do(Release) !in head && x != Do(Release)
    ensures AllUnreleased(head + [x]) == head + [x]
    ensures AllUnreleased(head + [x, Do(Release)]) == head + [x, Inert]
  {
  }

  lemma SampleInput(head: seq<Line>, x: Line)
    requires |head| == 5 && head[4].Pause? && forall i :: 0 <= i < 4 ==> !head[i].Pause?
    requires x == Do(Output("x"))
    ensures KeepsInput(head + [x]) && GivesInputBack(head + [x, Do(Release)])
  {
    FindPauseAt(head + [x], 4);
    var ls, tail := head + [x, Do(Release)], [x, Do(Release)];
    FindPauseAt(ls, 4);
    assert ls[5..] == tail && tail[1..] == [Do(Release)] && [Do(Release)][1..] == [];
    assert FindPause([Do(Release)]) == 1;
    assert FindPause(tail) == 2 && tail[..2] == tail;
    assert tail[..1] == [x] && [x][1..] == [];
    assert Sound([x], true) && Plain(x) && tail[0] == x;
    assert forall j :: 0 <= j < 1 ==> Plain(tail[j]) && !tail[j].Stop?;
    assert tail[1] == Do(Release) && Reached(tail, 1);
  }

  lemma AllKnown(script: seq<string>)
    requires forall i :: 0 <= i < |script| ==> AgreedLine(script[i]) || ReleaseLine(script[i])
    requires SoundSteps(AllUnreleased(InterpreterLines(script)))
    ensures Migratable(script)
  {
    hide SoundSteps;
    SameReading(script);
  }

  lemma SampleIsSound(tail: seq<Line>)
    requires tail == [Do(Output("x"))] || tail == [Do(Output("x")), Inert]
    ensures SoundSteps([When(EventSet("x"), true), Open, Do(Output("x")), Close, Pause("")] + tail)
  {
    var ls := [When(EventSet("x"), true), Open, Do(Output("x")), Close, Pause("")] + tail;
    FindPauseAt(ls, 4);
    var block := ls[..4];
    assert Braced(block);
    assert (block + [Close]) == [When(EventSet("x"), true), Open, Do(Output("x")), Close, Close];
    FindCloseAt();
    assert ls[5..] == tail && tail[..|tail|] == tail;
    assert tail[1..] == [] || tail[1..] == [Inert];
    assert FindPause([Inert]) == 1 by { assert [Inert][1..] == []; }
    assert FindPause(tail) == |tail|;
    assert Braced(tail);
    PlainShapeIsSound(ls);
  }

  lemma FindCloseAt()
    ensures FindClose([When(EventSet("x"), true), Open, Do(Output("x")), Close, Close], 1) == 4
  {
    var ls := [When(EventSet("x"), true), Open, Do(Output("x")), Close, Close];
    assert ls[1..] == [Open, Do(Output("x")), Close, Close];
    assert ls[1..][1..] == [Do(Output("x")), Close, Close];
    assert ls[1..][1..][1..] == [Close, Close];
    assert ls[1..][1..][1..][1..] == [Close];
    assert FindClose([Close], 1) == 0;
    assert FindClose([Close, Close], 2) == 1;
    assert FindClose([Do(Output("x")), Close, Close], 2) == 2;
    assert FindClose(ls[1..], 1) == 3;
  }

  // ---- a condition inside a block, without a block of its own ------------------------

  /** Lines inside a block that hold no whole block hold none at all. */
  lemma {:induction false} InsideUnopened(ls: seq<Line>)
    requires Inside(ls, 1) && !Split(ls).closed
    ensures FindOpen(ls, 0) == |ls|
    decreases |ls|
  {
    if ls != [] {
      InsideStep(ls, 1);
      if ls[0].Open? {
        OpenedCloses(ls);
      } else {
        NextUnopened(ls);
        InsideUnopened(ls[1..]);
      }
    }
  }

  lemma OpenedCloses(ls: seq<Line>)
    requires ls != [] && ls[0].Open? && Inside(ls, 1)
    ensures Split(ls).closed
  {
    var inner := ls[1..];
    assert (ls + [Close])[1..] == inner + [Close];
    DeeperIsLater(inner + [Close], 1, 1);
    CloseFound(inner, [Close], 1);
  }

  lemma NextUnopened(ls: seq<Line>)
    requires ls != [] && !ls[0].Open? && Inside(ls, 1) && !Split(ls).closed
    ensures Inside(ls[1..], 1) && !Split(ls[1..]).closed
    ensures FindOpen(ls, 0) == 1 + FindOpen(ls[1..], 0)
  {
    InsideStep(ls, 1);
    hide FindClose;
    assert ls[0] != Close;
    var k := FindOpen(ls[1..], 0);
    if k < |ls| - 1 { assert ls[1..][k + 1..] == ls[k + 2..]; }
  }

  /** A condition inside a block that has no block of its own is not faithful: where it fails,
      the interpreter skips the end of the outer block and the act behind it. */
  lemma BareConditionMatters<W>(eng: Engine<W>, c: Condition, wanted: bool, inner: seq<Line>, a: Action, w: W)
    requires inner != [] && inner[0].When? && Inside(inner, 1) && !Split(inner[1..]).closed
    requires forall i :: 0 <= i < |inner| ==> !inner[i].Pause?
    requires eng.test(w, c) == wanted && eng.test(w, inner[0].condition) != inner[0].wanted
    ensures var ls := [When(c, wanted), Open] + (inner + [Close, Do(a)]);
      && !Sound(ls, false)
      && Run(eng, ls, |ls|, 0, false, w) == Outcome([], w, Finished)
      && Call(eng, Steps(ls, 0), 0, w) == Outcome([a], Acted(eng, w, a), Finished)
  {
    var ls := [When(c, wanted), Open] + (inner + [Close, Do(a)]);
    var body := inner[1..];
    assert inner == [inner[0]] + body && inner[0] == When(inner[0].condition, inner[0].wanted);
    InsideStep(inner, 1);
    InsideUnopened(body);
    hide *;
    BareFlat(eng, c, wanted, inner, a, |ls|, w);
    BareSplit(inner, a);
    assert ls[1..] == [Open] + (inner + [Close, Do(a)]);
    BareStep(eng, ls, inner, a, w);
    NoPauseInside(c, wanted, inner, a);
    LastCall(eng, ls, w);
  }

  lemma NoPauseInside(c: Condition, wanted: bool, inner: seq<Line>, a: Action)
    requires forall i :: 0 <= i < |inner| ==> !inner[i].Pause?
    ensures var ls := [When(c, wanted), Open] + (inner + [Close, Do(a)]); FindPause(ls) == |ls|
  {
    var ls := [When(c, wanted), Open] + (inner + [Close, Do(a)]);
    assert forall i :: 2 <= i < |inner| + 2 ==> ls[i] == inner[i - 2];
  }

  lemma LastCall<W>(eng: Engine<W>, ls: seq<Line>, w: W)
    requires FindPause(ls) == |ls|
    ensures var r := Exec(eng, Convert(ls), w); Call(eng, Steps(ls, 0), 0, w) == Outcome(r.trace, r.world, Finished)
  {
    hide Exec;
    hide Convert;
    LastStep(ls, 0);
    WithEndIsSame(eng, Convert(ls), w);
  }

  lemma BareFlat<W>(eng: Engine<W>, c: Condition, wanted: bool, inner: seq<Line>, a: Action, total: int, w: W)
    requires inner != [] && inner[0].When? && FindOpen(inner[1..], 0) == |inner| - 1
    requires eng.test(w, c) == wanted && eng.test(w, inner[0].condition) != inner[0].wanted
    ensures Run(eng, [When(c, wanted), Open] + (inner + [Close, Do(a)]), total, 0, false, w) == Outcome([], w, Finished)
  {
    var ls := [When(c, wanted), Open] + (inner + [Close, Do(a)]);
    var ahead, tail := inner + [Close, Do(a)], [Close, Do(a)];
    RunWhen(eng, ls, [], total, w);
    assert ls + [] == ls && ls[1..] + [] == [Open] + ahead && ([Open] + ahead)[1..] == ahead;
    assert Run(eng, [Open] + ahead, total, 0, false, w) == Run(eng, ahead, total, 0, false, w);
    RunWhen(eng, inner, tail, total, w);
    hide Run;
    var tab := SkipsOnBefore(eng, inner[1..], tail, total, 0, w);
    SkipOne(eng, tail, total, tab, w);
    assert tail[1..] == [Do(a)] && [Do(a)][1..] == [];
    SkipOne(eng, [Do(a)], total, tab - 1, w);
    NoLines(eng, total, tab - 1, true, w);
  }

  lemma BareSplit(inner: seq<Line>, a: Action)
    requires Inside(inner, 1)
    ensures Split([Open] + (inner + [Close, Do(a)])) == Parts([], inner, true, [Do(a)])
  {
    var ls := [Open] + (inner + [Close, Do(a)]);
    var ahead := inner + [Close, Do(a)];
    assert ls[1..] == ahead && ahead == (inner + [Close]) + [Do(a)];
    CloseFound(inner + [Close], [Do(a)], 1);
    assert ahead[..|inner|] == inner && ahead[|inner| + 1..] == [Do(a)];
  }

  lemma BareStep<W>(eng: Engine<W>, ls: seq<Line>, inner: seq<Line>, a: Action, w: W)
    requires ls != [] && ls[0].When? && eng.test(w, ls[0].condition) == ls[0].wanted
    requires Split(ls[1..]) == Parts([], inner, true, [Do(a)])
    requires inner != [] && inner[0].When? && !Split(inner[1..]).closed
    requires eng.test(w, inner[0].condition) != inner[0].wanted
    ensures Exec(eng, Convert(ls), w) == Result([a], Acted(eng, w, a), false)
    ensures !Sound(ls, false)
  {
    hide Split;
    ExecWhen(eng, ls, w);
    assert inner == [When(inner[0].condition, inner[0].wanted)] + inner[1..];
    CutStep(eng, inner[0].condition, inner[0].wanted, inner[1..], w);
    assert [Do(a)][1..] == [];
    assert Convert([Do(a)]) == [Act(a)] + Convert([]);
    assert [Act(a)][1..] == [];
  }
}

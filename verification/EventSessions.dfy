/** Whole runs of an event script: pauses, resumption, and the theorem that the generated
    step functions replay the flat interpreter segment by segment. */
module EventSessions {
  import opened Text
  import opened EventLines
  import opened EventPrograms
  import opened EventMigration
  import opened EventAgreement

  /** Every piece between two pauses is sound, and closed if a pause follows it. */
  predicate SoundSteps(ls: seq<Line>)
    decreases |ls|
  {
    var p := FindPause(ls);
    if p == |ls| then Sound(ls, false)
    else Sound(ls[..p], true) && SoundSteps(ls[p + 1..])
  }

  /** The scripts on which the migration is claimed to be faithful. */
  predicate Migratable(script: seq<string>) {
    && (forall i :: 0 <= i < |script| ==> AgreedLine(script[i]) || ReleaseLine(script[i]))
    && SoundSteps(MigrationLines(script))
  }

  /** Every line is a pause or one that both sides describe. */
  predicate Described(ls: seq<Line>) {
    forall i :: 0 <= i < |ls| ==> ls[i].Pause? || Plain(ls[i])
  }

  /** The line at which piece `k` starts. */
  function StepStart(ls: seq<Line>, k: nat): (n: nat)
    requires k <= CountPauses(ls)
    ensures n <= |ls|
    decreases |ls|
  {
    if k == 0 then 0
    else
      CountPausesAt(ls);
      var p := FindPause(ls);
      p + 1 + StepStart(ls[p + 1..], k - 1)
  }

  /** Same events, same world, and the same way on: the line to resume behind is the start
      of the function to call. */
  predicate Corresponds<W(==)>(ls: seq<Line>, flat: Outcome<W>, step: Outcome<W>) {
    && flat.trace == step.trace
    && flat.world == step.world
    && match (flat.stop, step.stop)
       case (Finished, Finished) => true
       case (Waiting(line, prompt), Waiting(next, prompt')) =>
         && prompt == prompt'
         && 0 < next <= CountPauses(ls)
         && line == StepStart(ls, next)
       case _ => false
  }

  lemma WithEndIsSame<W>(eng: Engine<W>, prog: seq<Statement>, w: W)
    ensures Exec(eng, WithEnd(prog), w).trace == Exec(eng, prog, w).trace
    ensures Exec(eng, WithEnd(prog), w).world == Exec(eng, prog, w).world
  {
    ExecAppendHalt(eng, prog, w);
  }

  lemma {:induction false} ExecAppendHalt<W>(eng: Engine<W>, prog: seq<Statement>, w: W)
    ensures Exec(eng, prog + [Halt], w) == Exec(eng, prog, w).(halted := true)
    decreases |prog|
  {
    if prog == [] {
      assert prog + [Halt] == [Halt];
    } else {
      assert (prog + [Halt])[1..] == prog[1..] + [Halt];
      var first := ExecOne(eng, prog[0], w);
      ExecAppendHalt(eng, prog[1..], first.world);
    }
  }

  /** Agreement of piece `k` of the script from some pause on, functions being numbered
      from `base`. */
  ghost predicate PieceAgrees<W>(eng: Engine<W>, ls: seq<Line>, k: nat, base: nat, total: int, w: W)
    requires k <= CountPauses(ls)
  {
    var flat := Run(eng, ls[StepStart(ls, k)..], total, 0, false, w);
    var step := Call(eng, Steps(ls, base), k, w);
    && flat.trace == step.trace && flat.world == step.world
    && (flat.stop.Finished? <==> step.stop.Finished?)
    && (flat.stop.Waiting? ==>
          && flat.stop.prompt == step.stop.prompt
          && k < CountPauses(ls)
          && step.stop.line == base + k + 1
          && flat.stop.line == total - |ls| + StepStart(ls, k + 1))
  }

  lemma {:induction false} PieceCorresponds<W>(eng: Engine<W>, ls: seq<Line>, k: nat, base: nat, total: int, w: W)
    requires Described(ls)
    requires SoundSteps(ls)
    requires k <= CountPauses(ls)
    ensures PieceAgrees(eng, ls, k, base, total, w)
    decreases |ls|, 1
  {
    CountPausesAt(ls);
    if k > 0 {
      LaterPiece(eng, ls, k, base, total, w);
    } else if FindPause(ls) == |ls| {
      LastPiece(eng, ls, base, total, w);
    } else {
      FirstPiece(eng, ls, base, total, w);
    }
  }

  lemma {:induction false} LaterPiece<W>(eng: Engine<W>, ls: seq<Line>, k: nat, base: nat, total: int, w: W)
    requires Described(ls)
    requires SoundSteps(ls)
    requires 0 < k <= CountPauses(ls)
    ensures PieceAgrees(eng, ls, k, base, total, w)
    decreases |ls|, 0
  {
    hide Run;
    hide Call;
    hide Steps;
    hide StepStart;
    hide FindPause;
    hide CountPauses;
    hide SoundSteps;
    LaterIsSound(ls);
    var rest := ls[FindPause(ls) + 1..];
    PieceCorresponds(eng, rest, k - 1, base + 1, total, w);
    LaterStep(eng, ls, k, base, w);
    LaterStart(ls, k);
    if k < CountPauses(ls) { LaterStart(ls, k + 1); }
  }

  lemma LaterIsSound(ls: seq<Line>)
    requires Described(ls)
    requires SoundSteps(ls) && CountPauses(ls) > 0
    ensures FindPause(ls) < |ls|
    ensures var rest := ls[FindPause(ls) + 1..];
      && SoundSteps(rest) && CountPauses(ls) == 1 + CountPauses(rest)
      && Described(rest)
  {
    hide Sound;
    hide Plain;
    CountPausesAt(ls);
  }

  lemma LaterStart(ls: seq<Line>, k: nat)
    requires 0 < k <= CountPauses(ls)
    ensures var p := FindPause(ls);
      && p < |ls| && k - 1 <= CountPauses(ls[p + 1..])
      && StepStart(ls, k) == p + 1 + StepStart(ls[p + 1..], k - 1)
      && ls[p + 1..][StepStart(ls[p + 1..], k - 1)..] == ls[StepStart(ls, k)..]
  {
    CountPausesAt(ls);
  }

  lemma LaterStep<W>(eng: Engine<W>, ls: seq<Line>, k: nat, base: nat, w: W)
    requires 0 < k <= CountPauses(ls)
    ensures FindPause(ls) < |ls|
    ensures k - 1 <= CountPauses(ls[FindPause(ls) + 1..])
    ensures Call(eng, Steps(ls, base), k, w) == Call(eng, Steps(ls[FindPause(ls) + 1..], base + 1), k - 1, w)
  {
    hide Exec;
    hide Convert;
    CountPausesAt(ls);
  }

  lemma LastPiece<W>(eng: Engine<W>, ls: seq<Line>, base: nat, total: int, w: W)
    requires Described(ls)
    requires FindPause(ls) == |ls| && Sound(ls, false)
    ensures PieceAgrees(eng, ls, 0, base, total, w)
  {
    hide Convert;
    hide Exec;
    hide WithEnd;
    hide Sound;
    assert ls[0..] == ls;
    RunIsExec(eng, ls, [], total, w, false);
    assert ls + [] == ls;
    var r := Exec(eng, Convert(ls), w);
    assert r.trace + [] == r.trace;
    WithEndIsSame(eng, Convert(ls), w);
    LastStep(ls, base);
  }

  lemma LastStep(ls: seq<Line>, base: nat)
    requires FindPause(ls) == |ls|
    ensures CountPauses(ls) == 0 && Steps(ls, base) == [Step(WithEnd(Convert(ls)), base, "", false)]
  {
    hide Convert;
    CountPausesAt(ls);
  }

  lemma FirstPiece<W>(eng: Engine<W>, ls: seq<Line>, base: nat, total: int, w: W)
    requires Described(ls)
    requires FindPause(ls) < |ls| && Sound(ls[..FindPause(ls)], true)
    ensures PieceAgrees(eng, ls, 0, base, total, w)
  {
    hide Run;
    hide Call;
    hide Steps;
    hide UpToPause;
    hide FindPause;
    hide CountPauses;
    hide StepStart;
    FirstFlat(eng, ls, total, w);
    FirstStep(eng, ls, base, w);
    FirstStart(ls);
    assert ls[0..] == ls;
  }

  /** What the first piece does before its pause. */
  function UpToPause<W>(eng: Engine<W>, ls: seq<Line>, w: W): Result<W> {
    Exec(eng, Convert(ls[..FindPause(ls)]), w)
  }

  lemma FirstFlat<W>(eng: Engine<W>, ls: seq<Line>, total: int, w: W)
    requires Described(ls)
    requires FindPause(ls) < |ls| && Sound(ls[..FindPause(ls)], true)
    ensures var p := FindPause(ls);
      var r := UpToPause(eng, ls, w);
      Run(eng, ls, total, 0, false, w) == Outcome(r.trace, r.world,
        if r.halted then Finished else Waiting(total - |ls| + p + 1, ls[p].prompt))
  {
    var p := FindPause(ls);
    var tail := ls[p..];
    assert ls == ls[..p] + tail;
    RunIsExec(eng, ls[..p], tail, total, w, true);
    var r := UpToPause(eng, ls, w);
    PauseWaits(eng, tail, total, r.world);
    assert r.trace + [] == r.trace;
  }

  lemma FirstStep<W>(eng: Engine<W>, ls: seq<Line>, base: nat, w: W)
    requires FindPause(ls) < |ls|
    ensures var p := FindPause(ls);
      var r := UpToPause(eng, ls, w);
      Call(eng, Steps(ls, base), 0, w) == Outcome(r.trace, r.world,
        if r.halted then Finished else Waiting(base + 1, ls[p].prompt))
  {
    CountPausesAt(ls);
  }

  lemma PauseWaits<W>(eng: Engine<W>, ls: seq<Line>, total: int, w: W)
    requires ls != [] && ls[0].Pause?
    ensures Run(eng, ls, total, 0, false, w) == Outcome([], w, Waiting(total - |ls| + 1, ls[0].prompt))
  {
  }

  lemma FirstStart(ls: seq<Line>)
    requires FindPause(ls) < |ls|
    ensures CountPauses(ls) > 0 && StepStart(ls, 0) == 0 && StepStart(ls, 1) == FindPause(ls) + 1
  {
    CountPausesAt(ls);
  }

  /** An agreed line is never one of the readings that only one side has. */
  lemma AgreedIsPlain(line: string)
    requires AgreedLine(line)
    ensures ReadByMigration(line) == ReadByInterpreter(line)
    ensures ReadByInterpreter(line).Pause? || Plain(ReadByInterpreter(line))
  {
    LinesAgree(line);
    var s := Strip(PYTHON, line);
    if s != "" && s[0] == '$' {
      NeverForeign(MigrationKey(s), s);
      InterpreterNeverLeaves(line);
    }
  }

  lemma InterpreterNeverLeaves(line: string)
    ensures !ReadByInterpreter(line).Leave?
  {
    var s := Strip(PYTHON, line);
    if s != "" { ReadAsNeverLeaves(InterpreterKey(Lead(PYTHON, s)), s); }
  }

  lemma ReadAsNeverLeaves(key: Keyword, s: string)
    ensures !ReadAs(key, s).Leave?
  {
  }

  lemma SameReading(script: seq<string>)
    requires forall i :: 0 <= i < |script| ==> AgreedLine(script[i]) || ReleaseLine(script[i])
    ensures MigrationLines(script) == AllUnreleased(InterpreterLines(script))
    ensures Described(MigrationLines(script))
  {
    hide ReadByInterpreter;
    hide ReadByMigration;
    hide AgreedLine;
    hide ReleaseLine;
    forall i | 0 <= i < |script|
      ensures MigrationLines(script)[i] == Unreleased(ReadByInterpreter(script[i]))
      ensures MigrationLines(script)[i].Pause? || Plain(MigrationLines(script)[i])
    {
      LinesAgreeButRelease(script[i]);
      ReleaseLineIs(script[i]);
      if AgreedLine(script[i]) { AgreedIsPlain(script[i]); }
    }
  }

  /** The line behind which the interpreter resumes for generated function `k`. */
  function ResumeLine(script: seq<string>, k: nat): (n: nat)
    requires k <= CountPauses(MigrationLines(script))
    ensures n <= |script|
  {
    StepStart(MigrationLines(script), k)
  }

  lemma LinesMeanSegment<W>(eng: Engine<W>, ls: seq<Line>, k: nat, w: W)
    requires Described(ls)
    requires SoundSteps(ls)
    requires k <= CountPauses(ls)
    ensures Corresponds(ls, Run(eng, ls[StepStart(ls, k)..], |ls|, 0, false, w), Call(eng, Steps(ls, 0), k, w))
  {
    PieceCorresponds(eng, ls, k, 0, |ls|, w);
  }

  // ---- without the markers -------------------------------------------------------------

  /** What a run shows: that the input is handed back does not show. */
  function Shown(trace: seq<Action>): seq<Action> {
    if trace == [] then []
    else (if trace[0].Release? then [] else [trace[0]]) + Shown(trace[1..])
  }

  lemma {:induction false} ShownJoin(a: seq<Action>, b: seq<Action>)
    ensures Shown(a + b) == Shown(a) + Shown(b)
    decreases |a|
  {
    if a == [] {
      assert a + b == b;
    } else {
      assert (a + b)[1..] == a[1..] + b;
      ShownJoin(a[1..], b);
    }
  }

  lemma {:induction false} ShownIsAll(trace: seq<Action>)
    requires Release !in trace
    ensures Shown(trace) == trace
    decreases |trace|
  {
    if trace != [] { ShownIsAll(trace[1..]); }
  }

  function Quiet<W>(o: Outcome<W>): Outcome<W> { o.(trace := Shown(o.trace)) }

  lemma PrependQuiet<W>(events: seq<Action>, o: Outcome<W>)
    ensures Prepend(Shown(events), Quiet(o)) == Quiet(Prepend(events, o))
  {
    ShownJoin(events, o.trace);
    assert [] + Shown(o.trace) == Shown(o.trace);
  }

  lemma TakeUnreleased<W>(eng: Engine<W>, l: Line, tab: int, skip: bool, w: W)
    ensures Take(eng, Unreleased(l), tab, skip, w) ==
      match Take(eng, l, tab, skip, w)
      case On(events, tab', skip', w') => On(Shown(events), tab', skip', w')
      case Off(events, w') => Off(Shown(events), w')
      case Wait(prompt) => Wait(prompt)
  {
  }

  /** Passing over the markers changes nothing that shows. */
  lemma {:induction false} RunUnreleased<W>(eng: Engine<W>, ls: seq<Line>, total: int, tab: int, skip: bool, w: W)
    ensures Run(eng, AllUnreleased(ls), total, tab, skip, w) == Quiet(Run(eng, ls, total, tab, skip, w))
    decreases |ls|
  {
    if ls != [] {
      assert AllUnreleased(ls)[1..] == AllUnreleased(ls[1..]);
      TakeUnreleased(eng, ls[0], tab, skip, w);
      match Take(eng, ls[0], tab, skip, w)
      case On(events, tab', skip', w') =>
        RunUnreleased(eng, ls[1..], total, tab', skip', w');
        PrependQuiet(events, Run(eng, ls[1..], total, tab', skip', w'));
      case _ =>
    }
  }

  /** What `LinesMeanSegment` says of the lines without markers, for the lines with them. */
  lemma SegmentMeans<W>(eng: Engine<W>, ls: seq<Line>, k: nat, w: W)
    requires var us := AllUnreleased(ls); Described(us) && SoundSteps(us) && k <= CountPauses(us)
    ensures var us := AllUnreleased(ls);
      Corresponds(us, Quiet(Run(eng, ls[StepStart(us, k)..], |ls|, 0, false, w)), Call(eng, Steps(us, 0), k, w))
  {
    var us := AllUnreleased(ls);
    var from := StepStart(us, k);
    LinesMeanSegment(eng, us, k, w);
    RunUnreleased(eng, ls[from..], |ls|, 0, false, w);
    assert AllUnreleased(ls[from..]) == us[from..];
  }

  /** Every generated function does, in every world, what `doEvent` does from the matching
      line: same acts but handing the input back, same world, same pause or end. */
  lemma StepMeansSegment<W>(eng: Engine<W>, script: seq<string>, k: nat, w: W)
    requires Migratable(script)
    requires k <= CountPauses(MigrationLines(script))
    ensures |Migrate(script)| == 1 + CountPauses(MigrationLines(script))
    ensures Corresponds(MigrationLines(script), Quiet(Play(eng, script, ResumeLine(script, k), w)),
      Call(eng, Migrate(script), k, w))
  {
    SameReading(script);
    SegmentMeans(eng, InterpreterLines(script), k, w);
  }

  // ---- sessions ----------------------------------------------------------------

  /** What one run shows and leaves: the world, and who takes the player's next line. */
  datatype Segment<W> = Segment(trace: seq<Action>, world: W, input: Input)

  /** A player's session: run, and while the script waits let the world change as in
      `between` before the next key press, which takes the input away (`pressEnter2`). */
  function FlatSession<W>(eng: Engine<W>, ls: seq<Line>, from: nat, input: Input, w: W, between: seq<W -> W>):
      (session: seq<Segment<W>>)
    requires from <= |ls|
    ensures session != []
    decreases |between|
  {
    var o := Run(eng, ls[from..], |ls|, 0, false, w);
    [Segment(o.trace, o.world, InputAfter(o, input))] +
    (if o.stop.Waiting? && 0 <= o.stop.line <= |ls| && between != [] then
       FlatSession(eng, ls, o.stop.line, Nobody, between[0](o.world), between[1..])
     else [])
  }

  /** The same for the generated functions: a wait takes the next key, and the end of the
      script gives the input back. */
  function StepSession<W>(eng: Engine<W>, steps: seq<Step>, k: nat, w: W, between: seq<W -> W>):
      (session: seq<Segment<W>>)
    requires k < |steps|
    ensures session != []
    decreases |between|
  {
    var o := Call(eng, steps, k, w);
    [Segment(o.trace, o.world, if o.stop.Waiting? then EnterKey else Commands)] +
    (if o.stop.Waiting? && 0 <= o.stop.line < |steps| && between != [] then
       StepSession(eng, steps, o.stop.line, between[0](o.world), between[1..])
     else [])
  }

  /** Same acts, same worlds. */
  predicate SameShow<W(==)>(flat: seq<Segment<W>>, step: seq<Segment<W>>) {
    && |flat| == |step|
    && forall i :: 0 <= i < |flat| ==> Shown(flat[i].trace) == step[i].trace && flat[i].world == step[i].world
  }

  /** Both leave the input to the same taker exactly where the script waits, or the run
      passed a marker, or it was the first and the player could type commands before. */
  predicate SameInputIff<W>(flat: seq<Segment<W>>, step: seq<Segment<W>>, input: Input) {
    && |flat| == |step|
    && forall i :: 0 <= i < |flat| ==>
         (flat[i].input == step[i].input <==>
            step[i].input == EnterKey || Release in flat[i].trace || (i == 0 && input == Commands))
  }

  lemma OneMore<W>(a: Segment<W>, b: Segment<W>, flat: seq<Segment<W>>, step: seq<Segment<W>>, input: Input)
    requires Shown(a.trace) == b.trace && a.world == b.world
    requires a.input == b.input <==> b.input == EnterKey || Release in a.trace || input == Commands
    requires SameShow(flat, step) && SameInputIff(flat, step, Nobody)
    ensures SameShow([a] + flat, [b] + step) && SameInputIff([a] + flat, [b] + step, input)
  {
    hide Shown;
    forall i | 0 <= i < |[a] + flat|
      ensures Shown(([a] + flat)[i].trace) == ([b] + step)[i].trace && ([a] + flat)[i].world == ([b] + step)[i].world
      ensures ([a] + flat)[i].input == ([b] + step)[i].input <==>
        ([b] + step)[i].input == EnterKey || Release in ([a] + flat)[i].trace || (i == 0 && input == Commands)
    {
      if i > 0 {
        assert ([a] + flat)[i] == flat[i - 1] && ([b] + step)[i] == step[i - 1];
      }
    }
  }

  /** Whole sessions agree from any function on, however the world changes while the script
      waits. */
  lemma {:induction false} SessionsAgree<W>(eng: Engine<W>, ls: seq<Line>, k: nat, input: Input, w: W, between: seq<W -> W>)
    requires var us := AllUnreleased(ls); Described(us) && SoundSteps(us) && k <= CountPauses(us)
    ensures var us := AllUnreleased(ls);
      && k < |Steps(us, 0)|
      && SameShow(FlatSession(eng, ls, StepStart(us, k), input, w, between), StepSession(eng, Steps(us, 0), k, w, between))
      && SameInputIff(FlatSession(eng, ls, StepStart(us, k), input, w, between),
           StepSession(eng, Steps(us, 0), k, w, between), input)
    decreases |between|
  {
    hide Run;
    hide Call;
    hide Steps;
    hide SoundSteps;
    hide StepStart;
    hide Described;
    hide Shown;
    hide SameShow;
    hide SameInputIff;
    var us := AllUnreleased(ls);
    SegmentMeans(eng, ls, k, w);
    var flat := Run(eng, ls[StepStart(us, k)..], |ls|, 0, false, w);
    var step := Call(eng, Steps(us, 0), k, w);
    var a := Segment(flat.trace, flat.world, InputAfter(flat, input));
    var b := Segment(step.trace, step.world, if step.stop.Waiting? then EnterKey else Commands);
    if flat.stop.Waiting? && between != [] {
      var next, world, later := step.stop.line, between[0](flat.world), between[1..];
      SessionsAgree(eng, ls, next, Nobody, world, later);
      OneMore(a, b, FlatSession(eng, ls, StepStart(us, next), Nobody, world, later),
        StepSession(eng, Steps(us, 0), next, world, later), input);
    } else {
      NoMore<W>();
      OneMore(a, b, [], [], input);
    }
  }

  lemma NoMore<W>()
    ensures SameShow<W>([], []) && SameInputIff<W>([], [], Nobody)
  {
  }

  /** From the start: the whole session of `doEvent` is the session of `event()`, and a run
      after a key press leaves the input to the same taker exactly where it waits again or
      passes the marker. */
  lemma MigrationPreservesMeaning<W>(eng: Engine<W>, script: seq<string>, w: W, between: seq<W -> W>)
    requires Migratable(script)
    ensures |Migrate(script)| > 0
    ensures var flat := FlatSession(eng, InterpreterLines(script), 0, Commands, w, between);
      var step := StepSession(eng, Migrate(script), 0, w, between);
      SameShow(flat, step) && SameInputIff(flat, step, Commands)
  {
    SameReading(script);
    SessionsAgree(eng, InterpreterLines(script), 0, Commands, w, between);
  }

  // ---- what the acts do ---------------------------------------------------------------

  /** The world after these acts, one after the other. */
  function Folded<W>(eng: Engine<W>, w: W, acts: seq<Action>): W
    decreases |acts|
  {
    if acts == [] then w else Folded(eng, eng.act(w, acts[0]), acts[1..])
  }

  lemma {:induction false} FoldedJoin<W>(eng: Engine<W>, w: W, a: seq<Action>, b: seq<Action>)
    ensures Folded(eng, w, a + b) == Folded(eng, Folded(eng, w, a), b)
    decreases |a|
  {
    if a == [] {
      assert a + b == b;
    } else {
      assert (a + b)[1..] == a[1..] + b;
      FoldedJoin(eng, eng.act(w, a[0]), a[1..], b);
    }
  }

  lemma FoldedOne<W>(eng: Engine<W>, w: W, a: Action)
    ensures Folded(eng, w, Shown([a])) == if a == Release then w else eng.act(w, a)
    ensures Folded(eng, w, Shown([])) == w
  {
    assert [a][1..] == [] && [a] + [] == [a] && [] + Shown([]) == Shown([]);
  }

  /** Where every line is described, a run leaves the world to which the acts it shows lead,
      each done once and in their order. */
  lemma {:induction false} RunFolds<W>(eng: Engine<W>, ls: seq<Line>, total: int, tab: int, skip: bool, w: W)
    requires forall i :: 0 <= i < |ls| ==> !ls[i].Foreign?
    ensures var o := Run(eng, ls, total, tab, skip, w); o.world == Folded(eng, w, Shown(o.trace))
    decreases |ls|
  {
    if ls != [] {
      FoldedOne(eng, w, if !skip && ls[0].Do? then ls[0].action else Output(""));
      match Take(eng, ls[0], tab, skip, w)
      case On(acts, tab', skip', w') =>
        RunFolds(eng, ls[1..], total, tab', skip', w');
        var later := Run(eng, ls[1..], total, tab', skip', w').trace;
        ShownJoin(acts, later);
        FoldedJoin(eng, w, Shown(acts), Shown(later));
      case _ =>
    }
  }

  /** And so does a structured program. */
  lemma {:induction false} ExecFolds<W>(eng: Engine<W>, prog: seq<Statement>, w: W)
    ensures var r := Exec(eng, prog, w); r.world == Folded(eng, w, Shown(r.trace))
    decreases prog
  {
    FoldedOne(eng, w, Output(""));
    if prog != [] {
      if prog[0].Act? { FoldedOne(eng, w, prog[0].action); }
      if prog[0].If? { ExecFolds(eng, prog[0].body, w); }
      var first := ExecOne(eng, prog[0], w);
      if !first.halted {
        ExecFolds(eng, prog[1..], first.world);
        var later := Exec(eng, prog[1..], first.world).trace;
        ShownJoin(first.trace, later);
        FoldedJoin(eng, w, Shown(first.trace), Shown(later));
      }
    }
  }

  /** The world in which a segment starts: what the segment before left, changed in between. */
  function StartOf<W>(session: seq<Segment<W>>, i: nat, w: W, between: seq<W -> W>): W
    requires i <= |session| && i <= |between|
  {
    if i == 0 then w else between[i - 1](session[i - 1].world)
  }

  /** Every segment of a session leads by the acts it shows from the world it starts in to the
      world it leaves. */
  lemma {:induction false} SessionFolds<W>(eng: Engine<W>, ls: seq<Line>, from: nat, input: Input, w: W, between: seq<W -> W>)
    requires from <= |ls| && forall i :: 0 <= i < |ls| ==> !ls[i].Foreign?
    ensures var session := FlatSession(eng, ls, from, input, w, between);
      && |session| <= |between| + 1
      && forall i :: 0 <= i < |session| ==>
           session[i].world == Folded(eng, StartOf(session, i, w, between), Shown(session[i].trace))
    decreases |between|
  {
    hide Run;
    hide Shown;
    hide Folded;
    RunFolds(eng, ls[from..], |ls|, 0, false, w);
    var o := Run(eng, ls[from..], |ls|, 0, false, w);
    if o.stop.Waiting? && 0 <= o.stop.line <= |ls| && between != [] {
      SessionFolds(eng, ls, o.stop.line, Nobody, between[0](o.world), between[1..]);
    }
  }

  /** The same for the generated functions. */
  lemma {:induction false} StepSessionFolds<W>(eng: Engine<W>, steps: seq<Step>, k: nat, w: W, between: seq<W -> W>)
    requires k < |steps|
    ensures var session := StepSession(eng, steps, k, w, between);
      && |session| <= |between| + 1
      && forall i :: 0 <= i < |session| ==>
           session[i].world == Folded(eng, StartOf(session, i, w, between), Shown(session[i].trace))
    decreases |between|
  {
    hide Shown;
    hide Folded;
    hide Exec;
    ExecFolds(eng, steps[k].body, w);
    var o := Call(eng, steps, k, w);
    if o.stop.Waiting? && 0 <= o.stop.line < |steps| && between != [] {
      StepSessionFolds(eng, steps, o.stop.line, between[0](o.world), between[1..]);
    }
  }

  // ---- announcements ---------------------------------------------------------------

  /** The scripts that keep their meaning for the player: announcements are allowed. */
  predicate MigratableForPlayer(script: seq<string>) {
    && (forall i :: 0 <= i < |script| ==> SeenLine(script[i]))
    && SoundSteps(MigrationLines(script))
  }

  /** The same engine in an empty room: an announcement is an output. */
  function Alone<W>(eng: Engine<W>): Engine<W> {
    Engine(eng.test, (w, a) => eng.act(w, ToPlayer(a)), eng.foreign)
  }

  function Seen(trace: seq<Action>): (r: seq<Action>)
    ensures |r| == |trace|
    ensures forall i :: 0 <= i < |trace| ==> r[i] == ToPlayer(trace[i])
  {
    seq(|trace|, i requires 0 <= i < |trace| => ToPlayer(trace[i]))
  }

  lemma {:induction false} RunSeen<W>(eng: Engine<W>, ls: seq<Line>, total: int, tab: int, skip: bool, w: W)
    ensures var o := Run(Alone(eng), ls, total, tab, skip, w);
      Run(eng, AllOverheard(ls), total, tab, skip, w) == o.(trace := Seen(o.trace))
    decreases |ls|
  {
    if ls != [] {
      assert AllOverheard(ls)[1..] == AllOverheard(ls[1..]);
      match Take(Alone(eng), ls[0], tab, skip, w)
      case On(events, tab', skip', w') =>
        TakeSeen(eng, ls[0], tab, skip, w);
        RunSeen(eng, ls[1..], total, tab', skip', w');
        PrependSeen(events, Run(Alone(eng), ls[1..], total, tab', skip', w'));
      case _ => TakeSeen(eng, ls[0], tab, skip, w);
    }
  }

  lemma TakeSeen<W>(eng: Engine<W>, l: Line, tab: int, skip: bool, w: W)
    ensures Take(eng, Overheard(l), tab, skip, w) ==
      match Take(Alone(eng), l, tab, skip, w)
      case On(events, tab', skip', w') => On(Seen(events), tab', skip', w')
      case Off(events, w') => Off(Seen(events), w')
      case Wait(prompt) => Wait(prompt)
  {
    assert Seen([]) == [];
    if !skip {
      match l
      case Do(a) =>
        assert Seen([a]) == [ToPlayer(a)];
        assert Alone(eng).act(w, a) == eng.act(w, ToPlayer(a));
      case Blank =>
        assert Seen([Output("")]) == [Output("")];
        assert Alone(eng).act(w, Output("")) == eng.act(w, ToPlayer(Output("")));
      case _ =>
    }
  }

  lemma PrependSeen<W>(events: seq<Action>, o: Outcome<W>)
    ensures Prepend(Seen(events), o.(trace := Seen(o.trace))) ==
      var p := Prepend(events, o); p.(trace := Seen(p.trace))
  {
    assert Seen(events + o.trace) == Seen(events) + Seen(o.trace);
  }

  function AllSeen<W>(session: seq<Segment<W>>): (r: seq<Segment<W>>)
    ensures |r| == |session|
    ensures forall i :: 0 <= i < |session| ==> r[i] == session[i].(trace := Seen(session[i].trace))
  {
    seq(|session|, i requires 0 <= i < |session| => session[i].(trace := Seen(session[i].trace)))
  }

  lemma SeenReleases<W>(o: Outcome<W>, input: Input)
    ensures Release in Seen(o.trace) <==> Release in o.trace
    ensures InputAfter(o.(trace := Seen(o.trace)), input) == InputAfter(o, input)
  {
    if Release in o.trace {
      var i :| 0 <= i < |o.trace| && o.trace[i] == Release;
      assert Seen(o.trace)[i] == Release;
    }
  }

  lemma {:induction false} SessionSeen<W>(eng: Engine<W>, ls: seq<Line>, from: nat, input: Input, w: W, between: seq<W -> W>)
    requires from <= |ls|
    ensures FlatSession(eng, AllOverheard(ls), from, input, w, between)
         == AllSeen(FlatSession(Alone(eng), ls, from, input, w, between))
    decreases |between|
  {
    hide Run;
    hide Alone;
    hide InputAfter;
    RunSeen(eng, ls[from..], |ls|, 0, false, w);
    assert AllOverheard(ls)[from..] == AllOverheard(ls[from..]);
    var o := Run(Alone(eng), ls[from..], |ls|, 0, false, w);
    SeenReleases(o, input);
    if o.stop.Waiting? && 0 <= o.stop.line <= |ls| && between != [] {
      SessionSeen(eng, ls, o.stop.line, Nobody, between[0](o.world), between[1..]);
    }
  }

  /** All that the migration changes about announcements is who hears them: with the room
      empty, the two sessions show the player the same and leave the same worlds. */
  lemma OnlyTheAudienceIsLost<W>(eng: Engine<W>, script: seq<string>, w: W, between: seq<W -> W>)
    requires MigratableForPlayer(script)
    ensures |Migrate(script)| > 0
    ensures var flat := AllSeen(FlatSession(Alone(eng), InterpreterLines(script), 0, Commands, w, between));
      var step := StepSession(eng, Migrate(script), 0, w, between);
      SameShow(flat, step) && SameInputIff(flat, step, Commands)
  {
    var ls := InterpreterLines(script);
    SameForPlayer(script);
    SessionSeen(eng, ls, 0, Commands, w, between);
    SessionsAgree(eng, AllOverheard(ls), 0, Commands, w, between);
  }

  lemma SameForPlayer(script: seq<string>)
    requires forall i :: 0 <= i < |script| ==> SeenLine(script[i])
    ensures MigrationLines(script) == AllUnreleased(AllOverheard(InterpreterLines(script)))
    ensures Described(MigrationLines(script))
  {
    hide ReadByInterpreter;
    hide ReadByMigration;
    hide SeenLine;
    forall i | 0 <= i < |script|
      ensures MigrationLines(script)[i] == Unreleased(Overheard(ReadByInterpreter(script[i])))
      ensures MigrationLines(script)[i].Pause? || Plain(MigrationLines(script)[i])
    {
      LinesAgreeForPlayer(script[i]);
      SeenIsPlain(script[i]);
    }
  }

  lemma SeenIsPlain(line: string)
    requires SeenLine(line)
    ensures ReadByMigration(line).Pause? || Plain(ReadByMigration(line))
  {
    LinesAgreeForPlayer(line);
    InterpreterNeverLeaves(line);
    hide Words;
    hide Argument;
    var s := Strip(PYTHON, line);
    if s != "" && s[0] == '$' {
      NeverForeign(MigrationKey(s), s);
    }
  }
}

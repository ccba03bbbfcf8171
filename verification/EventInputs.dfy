/** Who takes the player's next line behind a script: which scripts give the input back
    after a key press, as the generated functions always do. */
module EventInputs {
  import opened Text
  import opened EventLines
  import opened EventPrograms
  import opened EventMigration
  import opened EventAgreement
  import opened EventSessions

  // ---- pauses, with and without the markers ----------------------------------------

  lemma {:induction false} SamePause(ls: seq<Line>)
    ensures FindPause(AllUnreleased(ls)) == FindPause(ls)
    decreases |ls|
  {
    if ls != [] {
      assert AllUnreleased(ls)[1..] == AllUnreleased(ls[1..]);
      SamePause(ls[1..]);
    }
  }

  /** The lines from piece `k` on. */
  function From(ls: seq<Line>, k: nat): seq<Line>
    requires k <= CountPauses(ls)
  {
    if k == 0 then ls
    else
      CountPausesAt(ls);
      From(ls[FindPause(ls) + 1..], k - 1)
  }

  lemma NextFrom(ls: seq<Line>, k: nat)
    requires 0 < k <= CountPauses(ls)
    ensures FindPause(ls) < |ls|
    ensures var rest := ls[FindPause(ls) + 1..];
      && CountPauses(ls) == 1 + CountPauses(rest)
      && From(ls, k) == From(rest, k - 1)
      && StepStart(ls, k) == FindPause(ls) + 1 + StepStart(rest, k - 1)
  {
    CountPausesAt(ls);
  }

  lemma {:induction false} FromStart(ls: seq<Line>, k: nat)
    requires k <= CountPauses(ls)
    ensures From(ls, k) == ls[StepStart(ls, k)..]
    decreases k
  {
    hide *;
    if k > 0 {
      NextFrom(ls, k);
      var p := FindPause(ls);
      FromStart(ls[p + 1..], k - 1);
      CutTwice(ls, p + 1, StepStart(ls[p + 1..], k - 1));
    } else {
      FromFirst(ls);
      CutTwice(ls, 0, 0);
    }
  }

  lemma FromFirst(ls: seq<Line>)
    ensures From(ls, 0) == ls && StepStart(ls, 0) == 0
  {
  }

  lemma CutTwice(ls: seq<Line>, a: nat, b: nat)
    requires a + b <= |ls|
    ensures ls[a..][b..] == ls[a + b..] && ls[0..] == ls
    ensures forall l :: l in ls[a..] ==> exists i :: a <= i < |ls| && ls[i] == l
  {
    forall l | l in ls[a..] ensures exists i :: a <= i < |ls| && ls[i] == l {
      var j :| 0 <= j < |ls[a..]| && ls[a..][j] == l;
      assert ls[a + j] == l;
    }
  }

  lemma {:induction false} SamePauses(ls: seq<Line>)
    ensures CountPauses(AllUnreleased(ls)) == CountPauses(ls)
    decreases |ls|
  {
    if ls != [] {
      assert AllUnreleased(ls)[1..] == AllUnreleased(ls[1..]);
      SamePauses(ls[1..]);
    }
  }

  lemma {:induction false} FromUnreleased(ls: seq<Line>, k: nat)
    ensures CountPauses(AllUnreleased(ls)) == CountPauses(ls)
    ensures k <= CountPauses(ls) ==> From(AllUnreleased(ls), k) == AllUnreleased(From(ls, k))
    decreases k
  {
    hide *;
    var us, p := AllUnreleased(ls), FindPause(ls);
    SamePause(ls);
    SamePauses(ls);
    FromFirst(ls);
    FromFirst(us);
    if 0 < k <= CountPauses(ls) {
      NextFrom(ls, k);
      NextFrom(us, k);
      assert us[p + 1..] == AllUnreleased(ls[p + 1..]);
      FromUnreleased(ls[p + 1..], k - 1);
    }
  }

  /** The interpreter resumes with the lines from the piece on. */
  lemma ResumedFrom(ls: seq<Line>, k: nat)
    requires k <= CountPauses(AllUnreleased(ls))
    ensures k <= CountPauses(ls) && ls[StepStart(AllUnreleased(ls), k)..] == From(ls, k)
  {
    var us := AllUnreleased(ls);
    FromUnreleased(ls, k);
    FromStart(us, k);
    FromStart(ls, k);
    hide From;
    hide StepStart;
    hide CountPauses;
    assert |us[StepStart(us, k)..]| == |ls[StepStart(ls, k)..]|;
  }

  /** The lines from a later piece on stand behind the first pause. */
  lemma {:induction false} FromIsPart(ls: seq<Line>, k: nat, l: Line)
    requires k <= CountPauses(ls) && l in From(ls, k)
    ensures k == 0 ==> l in ls
    ensures k > 0 ==> FindPause(ls) < |ls| && l in ls[FindPause(ls) + 1..]
    decreases k
  {
    hide *;
    FromFirst(ls);
    if k > 0 {
      NextFrom(ls, k);
      var rest := ls[FindPause(ls) + 1..];
      FromIsPart(rest, k - 1, l);
      if k > 1 { CutTwice(rest, FindPause(rest) + 1, 0); }
    }
  }

  // ---- scripts that never give the input back -----------------------------------------

  lemma {:induction false} NoneReleased<W>(eng: Engine<W>, ls: seq<Line>, total: int, tab: int, skip: bool, w: W)
    requires Do(Release) !in ls
    ensures Release !in Run(eng, ls, total, tab, skip, w).trace
    decreases |ls|
  {
    if ls != [] {
      assert ls[0] in ls && forall l :: l in ls[1..] ==> l in ls;
      match Take(eng, ls[0], tab, skip, w)
      case On(events, tab', skip', w') => NoneReleased(eng, ls[1..], total, tab', skip', w');
      case _ =>
    }
  }

  /** Behind its first pause the script has no marker. */
  predicate KeepsInput(ls: seq<Line>) {
    forall i :: FindPause(ls) < i < |ls| ==> ls[i] != Do(Release)
  }

  /** A script without a marker behind its first pause: wherever a key was pressed and the
      script has ended, the generated program reads commands and the interpreter nothing. */
  lemma {:induction false} InputIsLost<W>(eng: Engine<W>, ls: seq<Line>, k: nat, w: W, between: seq<W -> W>)
    requires var us := AllUnreleased(ls); Described(us) && SoundSteps(us) && k <= CountPauses(us)
    requires KeepsInput(ls) && k > 0
    ensures var us := AllUnreleased(ls);
      var flat := FlatSession(eng, ls, StepStart(us, k), Nobody, w, between);
      var step := StepSession(eng, Steps(us, 0), k, w, between);
      && |flat| == |step|
      && forall i :: 0 <= i < |flat| ==>
           flat[i].input == if step[i].input == Commands then Nobody else EnterKey
    decreases |between|
  {
    hide Run;
    hide Call;
    hide Steps;
    hide SoundSteps;
    hide StepStart;
    hide Described;
    hide Shown;
    hide KeepsInput;
    var us := AllUnreleased(ls);
    SegmentMeans(eng, ls, k, w);
    LaterKeeps(eng, ls, k, w);
    var flat := Run(eng, ls[StepStart(us, k)..], |ls|, 0, false, w);
    var step := Call(eng, Steps(us, 0), k, w);
    if flat.stop.Waiting? && between != [] {
      InputIsLost(eng, ls, step.stop.line, between[0](flat.world), between[1..]);
    }
  }

  lemma KeptBehind(ls: seq<Line>)
    requires KeepsInput(ls) && FindPause(ls) < |ls|
    ensures Do(Release) !in ls[FindPause(ls) + 1..]
  {
  }

  lemma LaterKeeps<W>(eng: Engine<W>, ls: seq<Line>, k: nat, w: W)
    requires KeepsInput(ls) && 0 < k <= CountPauses(AllUnreleased(ls))
    ensures Release !in Run(eng, ls[StepStart(AllUnreleased(ls), k)..], |ls|, 0, false, w).trace
  {
    hide *;
    ResumedFrom(ls, k);
    NextFrom(ls, k);
    KeptBehind(ls);
    if Do(Release) in From(ls, k) {
      FromIsPart(ls, k, Do(Release));
      assert false;
    }
    NoneReleased(eng, From(ls, k), |ls|, 0, false, w);
  }

  // ---- scripts that always do -----------------------------------------------------------

  /** A marker stands outside all blocks, before anything can stop. */
  predicate Releases(piece: seq<Line>) {
    exists i :: 0 <= i < |piece| && piece[i] == Do(Release) && Reached(piece, i)
  }

  predicate Reached(piece: seq<Line>, i: nat)
    requires i <= |piece|
  {
    Sound(piece[..i], true) && forall j :: 0 <= j < i ==> Plain(piece[j]) && !piece[j].Stop?
  }

  /** Every piece passes a marker, or waits and cannot stop before. */
  predicate HandsBack(ls: seq<Line>)
    decreases |ls|
  {
    var p := FindPause(ls);
    && (Releases(ls[..p]) || (p < |ls| && forall i :: 0 <= i < p ==> !ls[i].Stop?))
    && (p < |ls| ==> HandsBack(ls[p + 1..]))
  }

  /** The same for the pieces behind the first pause. */
  predicate GivesInputBack(ls: seq<Line>) {
    var p := FindPause(ls);
    p < |ls| ==> HandsBack(ls[p + 1..])
  }

  lemma {:induction false} HandsBackFrom(ls: seq<Line>, k: nat)
    requires HandsBack(ls) && k <= CountPauses(ls)
    ensures HandsBack(From(ls, k))
    decreases k
  {
    hide *;
    FromFirst(ls);
    if k > 0 {
      HandsBackOn(ls);
      NextFrom(ls, k);
      HandsBackFrom(ls[FindPause(ls) + 1..], k - 1);
    }
  }

  lemma HandsBackOn(ls: seq<Line>)
    requires HandsBack(ls)
    ensures FindPause(ls) < |ls| ==> HandsBack(ls[FindPause(ls) + 1..])
    ensures var p := FindPause(ls);
      Releases(ls[..p]) || (p < |ls| && forall i :: 0 <= i < p ==> !ls[i].Stop?)
  {
    hide Releases;
    hide FindPause;
  }

  lemma LaterHandsBack(ls: seq<Line>, k: nat)
    requires GivesInputBack(ls) && 0 < k <= CountPauses(ls)
    ensures HandsBack(From(ls, k))
  {
    assert FindPause(ls) < |ls| ==> HandsBack(ls[FindPause(ls) + 1..]);
    hide *;
    NextFrom(ls, k);
    HandsBackFrom(ls[FindPause(ls) + 1..], k - 1);
  }

  /** Statements without `end_event()` run to their end. */
  predicate GoesThrough(prog: seq<Statement>) {
    forall i :: 0 <= i < |prog| ==> NeverHalts(prog[i])
  }

  predicate NeverHalts(s: Statement) {
    match s
    case Halt => false
    case If(_, _, body) => forall i :: 0 <= i < |body| ==> NeverHalts(body[i])
    case Act(_) => true
  }

  lemma {:induction false} ConvertGoesThrough(ls: seq<Line>)
    requires forall i :: 0 <= i < |ls| ==> Plain(ls[i]) && !ls[i].Stop?
    ensures GoesThrough(Convert(ls))
    decreases |ls|
  {
    if ls != [] {
      if ls[0].When? {
        ConvertWhen(ls);
        PartsArePlain(ls);
        NoStopInParts(ls[1..]);
        ConvertGoesThrough(Split(ls[1..]).block);
        ConvertGoesThrough(Split(ls[1..]).rest);
      } else {
        ConvertGoesThrough(ls[1..]);
      }
    }
  }

  lemma NoStopInParts(ls: seq<Line>)
    requires forall i :: 0 <= i < |ls| ==> !ls[i].Stop?
    ensures forall i :: 0 <= i < |Split(ls).block| ==> !Split(ls).block[i].Stop?
    ensures forall i :: 0 <= i < |Split(ls).rest| ==> !Split(ls).rest[i].Stop?
  {
  }

  lemma {:induction false} GoingThroughEnds<W>(eng: Engine<W>, prog: seq<Statement>, w: W)
    requires GoesThrough(prog)
    ensures !Exec(eng, prog, w).halted
    decreases prog
  {
    if prog != [] {
      var first := prog[0];
      if first.If? && eng.test(w, first.condition) == first.wanted {
        GoingThroughEnds(eng, first.body, w);
      }
      assert GoesThrough(prog[1..]);
      GoingThroughEnds(eng, prog[1..], ExecOne(eng, first, w).world);
    }
  }

  /** Where a marker is reached in any case, the run passes it. */
  lemma MarkerIsPassed<W>(eng: Engine<W>, ls: seq<Line>, i: nat, total: int, w: W)
    requires i < |ls| && ls[i] == Do(Release) && Reached(ls, i)
    ensures Release in Run(eng, ls, total, 0, false, w).trace
  {
    var pre, tail := ls[..i], ls[i..];
    assert ls == pre + tail;
    RunIsExec(eng, pre, tail, total, w, true);
    ConvertGoesThrough(pre);
    GoingThroughEnds(eng, Convert(pre), w);
    var r := Exec(eng, Convert(pre), w);
    var o := Run(eng, tail, total, 0, false, r.world);
    assert o.trace[0] == Release;
    assert Run(eng, ls, total, 0, false, w).trace == r.trace + o.trace;
  }

  lemma ReachedInPiece(ls: seq<Line>, p: nat, i: nat)
    requires i < p <= |ls| && Reached(ls[..p], i)
    ensures Reached(ls, i)
  {
    assert ls[..p][..i] == ls[..i];
    forall j | 0 <= j < i ensures Plain(ls[j]) && !ls[j].Stop? {
      assert ls[..p][j] == ls[j];
    }
  }

  /** A piece that hands the input back waits, or passes a marker. */
  lemma HandedBack<W>(eng: Engine<W>, ls: seq<Line>, k: nat, w: W)
    requires var us := AllUnreleased(ls); Described(us) && SoundSteps(us)
    requires GivesInputBack(ls) && 0 < k <= CountPauses(AllUnreleased(ls))
    ensures var o := Run(eng, ls[StepStart(AllUnreleased(ls), k)..], |ls|, 0, false, w);
      o.stop.Waiting? || Release in o.trace
  {
    ResumedFrom(ls, k);
    LaterHandsBack(ls, k);
    SegmentMeans(eng, ls, k, w);
    hide *;
    var rest := From(ls, k);
    HandsBackOn(rest);
    var p := FindPause(rest);
    if Releases(rest[..p]) {
      var i := MarkerIn(rest[..p]);
      ReachedInPiece(rest, p, i);
      MarkerIsPassed(eng, rest, i, |ls|, w);
    } else {
      CannotStop(eng, ls, k, w);
      SameStop(AllUnreleased(ls), Run(eng, rest, |ls|, 0, false, w), Call(eng, Steps(AllUnreleased(ls), 0), k, w));
    }
  }

  lemma SameStop<W>(ls: seq<Line>, flat: Outcome<W>, step: Outcome<W>)
    requires Corresponds(ls, Quiet(flat), step) && step.stop.Waiting?
    ensures flat.stop.Waiting?
  {
  }

  lemma MarkerIn(piece: seq<Line>) returns (i: nat)
    requires Releases(piece)
    ensures i < |piece| && piece[i] == Do(Release) && Reached(piece, i)
  {
    hide Reached;
    i :| 0 <= i < |piece| && piece[i] == Do(Release) && Reached(piece, i);
  }

  /** A piece that waits and has no stop in it cannot end otherwise. */
  lemma CannotStop<W>(eng: Engine<W>, ls: seq<Line>, k: nat, w: W)
    requires Described(AllUnreleased(ls)) && k <= CountPauses(AllUnreleased(ls)) && k <= CountPauses(ls)
    requires var rest := From(ls, k);
      FindPause(rest) < |rest| && forall i :: 0 <= i < FindPause(rest) ==> !rest[i].Stop?
    ensures Call(eng, Steps(AllUnreleased(ls), 0), k, w).stop.Waiting?
  {
    hide *;
    var us := AllUnreleased(ls);
    FromUnreleased(ls, k);
    var rest := From(us, k);
    SamePause(From(ls, k));
    CallFrom(eng, us, k, 0, w);
    var p := FindPause(rest);
    var piece := rest[..p];
    forall i | 0 <= i < |piece| ensures Plain(piece[i]) && !piece[i].Stop? {
      assert rest[i] == Unreleased(From(ls, k)[i]);
      PlainPiece(us, k, i);
      SameKindOfLine(From(ls, k)[i]);
    }
    ConvertGoesThrough(piece);
    GoingThroughEnds(eng, Convert(piece), w);
    FirstStep(eng, rest, k, w);
    UpToPauseIs(eng, rest, w);
  }

  lemma UpToPauseIs<W>(eng: Engine<W>, ls: seq<Line>, w: W)
    ensures UpToPause(eng, ls, w) == Exec(eng, Convert(ls[..FindPause(ls)]), w)
  {
  }

  lemma PlainPiece(ls: seq<Line>, k: nat, i: nat)
    requires Described(ls) && k <= CountPauses(ls) && i < FindPause(From(ls, k))
    ensures Plain(From(ls, k)[i])
  {
    hide From;
    var l := From(ls, k)[i];
    FromIsPart(ls, k, l);
    if k > 0 { CutTwice(ls, FindPause(ls) + 1, 0); }
  }

  lemma SameKindOfLine(l: Line)
    ensures Unreleased(l).Stop? <==> l.Stop?
  {
  }

  /** A generated function is the first of the lines from its piece on. */
  lemma {:induction false} CallFrom<W>(eng: Engine<W>, ls: seq<Line>, k: nat, base: nat, w: W)
    requires k <= CountPauses(ls)
    ensures Call(eng, Steps(ls, base), k, w) == Call(eng, Steps(From(ls, k), base + k), 0, w)
    decreases k
  {
    hide *;
    FromFirst(ls);
    if k > 0 {
      LaterStep(eng, ls, k, base, w);
      NextFrom(ls, k);
      CallFrom(eng, ls[FindPause(ls) + 1..], k - 1, base + 1, w);
    }
  }

  lemma {:induction false} InputIsGivenBack<W>(eng: Engine<W>, ls: seq<Line>, k: nat, input: Input, w: W, between: seq<W -> W>)
    requires var us := AllUnreleased(ls); Described(us) && SoundSteps(us) && k <= CountPauses(us)
    requires GivesInputBack(ls) && (k == 0 ==> input == Commands)
    ensures var us := AllUnreleased(ls);
      var flat := FlatSession(eng, ls, StepStart(us, k), input, w, between);
      var step := StepSession(eng, Steps(us, 0), k, w, between);
      |flat| == |step| && forall i :: 0 <= i < |flat| ==> flat[i].input == step[i].input
    decreases |between|
  {
    hide Run;
    hide Call;
    hide Steps;
    hide SoundSteps;
    hide StepStart;
    hide Described;
    hide Shown;
    hide GivesInputBack;
    var us := AllUnreleased(ls);
    SegmentMeans(eng, ls, k, w);
    if k > 0 { HandedBack(eng, ls, k, w); }
    var flat := Run(eng, ls[StepStart(us, k)..], |ls|, 0, false, w);
    var step := Call(eng, Steps(us, 0), k, w);
    if flat.stop.Waiting? && between != [] {
      InputIsGivenBack(eng, ls, step.stop.line, Nobody, between[0](flat.world), between[1..]);
    }
  }

  // ---- whole scripts ----------------------------------------------------------------------

  /** Where the pieces behind the first pause give the input back in any case, the two
      sessions leave it to the same taker throughout. */
  lemma InputComesBack<W>(eng: Engine<W>, script: seq<string>, w: W, between: seq<W -> W>)
    requires Migratable(script) && GivesInputBack(InterpreterLines(script))
    ensures |Migrate(script)| > 0
    ensures var flat := FlatSession(eng, InterpreterLines(script), 0, Commands, w, between);
      var step := StepSession(eng, Migrate(script), 0, w, between);
      |flat| == |step| && forall i :: 0 <= i < |flat| ==> flat[i].input == step[i].input
  {
    SameReading(script);
    InputIsGivenBack(eng, InterpreterLines(script), 0, Commands, w, between);
  }

  /** Without a marker behind the first pause, every session that a key press takes to the
      end of the script leaves the player without commands, and the generated one does not. */
  lemma InputGetsLost<W>(eng: Engine<W>, script: seq<string>, w: W, between: seq<W -> W>)
    requires Migratable(script) && KeepsInput(InterpreterLines(script))
    ensures |Migrate(script)| > 0
    ensures var flat := FlatSession(eng, InterpreterLines(script), 0, Commands, w, between);
      var step := StepSession(eng, Migrate(script), 0, w, between);
      && |flat| == |step|
      && forall i :: 0 < i < |flat| ==>
           flat[i].input == if step[i].input == Commands then Nobody else EnterKey
  {
    SameReading(script);
    hide *;
    LostLater(eng, InterpreterLines(script), w, between);
    MigratedLines(script);
    FromFirst(MigrationLines(script));
  }

  lemma MigratedLines(script: seq<string>)
    ensures Migrate(script) == Steps(MigrationLines(script), 0) && |Migrate(script)| > 0
    ensures Migratable(script) ==> SoundSteps(MigrationLines(script))
  {
  }

  lemma LostLater<W>(eng: Engine<W>, ls: seq<Line>, w: W, between: seq<W -> W>)
    requires var us := AllUnreleased(ls); Described(us) && SoundSteps(us)
    requires KeepsInput(ls)
    ensures var flat := FlatSession(eng, ls, 0, Commands, w, between);
      var step := StepSession(eng, Steps(AllUnreleased(ls), 0), 0, w, between);
      && |flat| == |step|
      && forall i :: 0 < i < |flat| ==>
           flat[i].input == if step[i].input == Commands then Nobody else EnterKey
  {
    hide Run;
    hide Call;
    hide Steps;
    hide SoundSteps;
    hide StepStart;
    hide Described;
    hide Shown;
    hide KeepsInput;
    var us := AllUnreleased(ls);
    FromFirst(us);
    SegmentMeans(eng, ls, 0, w);
    var flat := Run(eng, ls[0..], |ls|, 0, false, w);
    var step := Call(eng, Steps(us, 0), 0, w);
    if flat.stop.Waiting? && between != [] {
      InputIsLost(eng, ls, step.stop.line, between[0](flat.world), between[1..]);
    }
  }
}

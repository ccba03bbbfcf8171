/** The two programs in the form the repository gives them: the loop of `doEvent`, and the
    loops of the migration script. Each is proved against its meaning in EventPrograms. */
module EventMachines {
  import opened Text
  import opened EventLines
  import opened EventPrograms
  import S = EventSessions

  lemma RunOn<W>(eng: Engine<W>, ls: seq<Line>, i: nat, total: int, tab: int, skip: bool, w: W)
    requires i < |ls|
    ensures Run(eng, ls[i..], total, tab, skip, w) ==
      match Take(eng, ls[i], tab, skip, w)
      case On(events, tab', skip', w') => Prepend(events, Run(eng, ls[i + 1..], total, tab', skip', w'))
      case Off(events, w') => Outcome(events, w', Finished)
      case Wait(prompt) => Outcome([], w, Waiting(total - |ls| + i + 1, prompt))
  {
    assert ls[i..][0] == ls[i];
    assert ls[i..][1..] == ls[i + 1..];
  }

  lemma PrependTwice<W>(a: seq<Action>, b: seq<Action>, o: Outcome<W>)
    ensures Prepend(a, Prepend(b, o)) == Prepend(a + b, o)
    ensures Prepend(a, o) == o.(trace := a + o.trace)
  {
    Assoc(a, b, o.trace);
    assert a + [] == a && [] + o.trace == o.trace && [] + b == b;
  }

  /** The loop of `doEvent`: one pass over the lines, with the line number, the brace
      counter `tab`, the flag `searchEnd` and the player's input updated in place. */
  method DoLines<W>(eng: Engine<W>, ls: seq<Line>, lineNumber: nat, was: Input, w: W)
      returns (out: Outcome<W>, input: Input)
    requires lineNumber <= |ls|
    ensures out == Run(eng, ls[lineNumber..], |ls|, 0, false, w)
    ensures input == InputAfter(out, was)
  {
    hide Run;
    hide InputBehind;
    hide Acted;
    ghost var goal := Run(eng, ls[lineNumber..], |ls|, 0, false, w);
    OneMoreAct([], Release, was);
    input := was;
    var lineNum := 0;
    var tab := 0;
    var searchEnd := false;
    var trace: seq<Action> := [];
    var world := w;
    while lineNum < |ls|
      invariant 0 <= lineNum <= |ls|
      invariant lineNum <= lineNumber ==> tab == 0 && !searchEnd && trace == [] && world == w
      invariant input == InputBehind(trace, was)
      invariant lineNum >= lineNumber ==>
        goal == Prepend(trace, Run(eng, ls[lineNum..], |ls|, tab, searchEnd, world))
    {
      var line := ls[lineNum];
      lineNum := lineNum + 1;
      if lineNum <= lineNumber {
        continue;
      }
      RunOn(eng, ls, lineNum - 1, |ls|, tab, searchEnd, world);
      if searchEnd {
        if line.Open? {
          tab := tab + 1;
          continue;
        } else if !line.Close? {
          continue;
        }
        tab := tab - 1;
        if tab != 0 {
          continue;
        }
        searchEnd := false;
        tab := 0;
        continue;
      }
      ghost var before := trace;
      match line {
        case Stop =>
          PrependTwice(before, [], Outcome([], world, Finished));
          return Outcome(trace, world, Finished), input;
        case Pause(prompt) =>
          PrependTwice(before, [], Outcome([], world, Waiting(lineNum, prompt)));
          return Outcome(trace, world, Waiting(lineNum, prompt)), EnterKey;
        case Blank =>
          OneMoreAct(trace, Output(""), was);
          trace := trace + [Output("")];
          world := eng.act(world, Output(""));
        case Do(a) =>
          OneMoreAct(trace, a, was);
          trace := trace + [a];
          world := Acted(eng, world, a);
          if a.Release? {
            input := Commands;
          }
        case When(c, wanted) =>
          if eng.test(world, c) != wanted {
            searchEnd := true;
          }
        case Foreign(text) =>
          var e := eng.foreign(world, text);
          world := e.world;
          if e.quit {
            PrependTwice(before, [], Outcome([], world, Finished));
            return Outcome(trace, world, Finished), input;
          }
          searchEnd := e.skip;
        case _ =>
      }
      assert trace == before || trace == before + trace[|before|..];
      PrependTwice(before, trace[|before|..], Run(eng, ls[lineNum..], |ls|, tab, searchEnd, world));
    }
    NothingAhead(eng, ls, tab, searchEnd, world);
    PrependTwice(trace, [], Outcome([], world, Finished));
    return Outcome(trace, world, Finished), input;
  }

  lemma NothingAhead<W>(eng: Engine<W>, ls: seq<Line>, tab: int, skip: bool, w: W)
    ensures Run(eng, ls[|ls|..], |ls|, tab, skip, w) == Outcome([], w, Finished)
  {
  }

  class Player {
    /** Who takes the next line (`process_input`). */
    var input: Input
    /** The line behind which a waiting script goes on (`_eventTemp`). */
    var eventLine: nat

    /** `doEvent(mob, key, words, lineNumber)`. */
    method DoEvent<W>(eng: Engine<W>, script: seq<string>, lineNumber: nat, w: W) returns (out: Outcome<W>)
      requires lineNumber <= |script|
      modifies this
      ensures out == Play(eng, script, lineNumber, w)
      ensures input == InputAfter(out, old(input))
      ensures out.stop.Waiting? ==> lineNumber < eventLine == out.stop.line <= |script|
      ensures out.stop.Finished? ==> eventLine == old(eventLine)
    {
      var after;
      out, after := DoLines(eng, InterpreterLines(script), lineNumber, input, w);
      input := after;
      WaitsAhead(eng, InterpreterLines(script)[lineNumber..], |script|, 0, false, w);
      if out.stop.Waiting? {
        eventLine := out.stop.line;
      }
    }

    /** `pressEnter2`: the key takes the input away before the script goes on. */
    method PressEnter<W>(eng: Engine<W>, script: seq<string>, w: W) returns (out: Outcome<W>)
      requires eventLine <= |script|
      modifies this
      ensures out == Play(eng, script, old(eventLine), w)
      ensures input == InputAfter(out, Nobody)
      ensures out.stop.Waiting? ==> old(eventLine) < eventLine == out.stop.line <= |script|
    {
      input := Nobody;
      out := DoEvent(eng, script, eventLine, w);
    }

    /** A script from its start, with a key press whenever it waits; the world changes in
        between. */
    method Session<W>(eng: Engine<W>, script: seq<string>, w: W, between: seq<W -> W>)
        returns (session: seq<S.Segment<W>>)
      modifies this
      ensures session == S.FlatSession(eng, InterpreterLines(script), 0, old(input), w, between)
      ensures input == session[|session| - 1].input
    {
      hide S.FlatSession;
      hide Play;
      hide InputAfter;
      hide Later;
      ghost var goal := S.FlatSession(eng, InterpreterLines(script), 0, input, w, between);
      OneSegment(eng, script, 0, input, w, between);
      var out := DoEvent(eng, script, 0, w);
      session := [S.Segment(out.trace, out.world, input)];
      var rest := between;
      while out.stop.Waiting? && rest != []
        invariant session != [] && input == session[|session| - 1].input
        invariant out.stop.Waiting? ==> eventLine <= |script| && out.stop.line == eventLine
        invariant goal == session + Later(eng, script, out, rest)
        decreases |rest|
      {
        var world := rest[0](out.world);
        LaterOn(eng, script, out, rest);
        OneSegment(eng, script, eventLine, Nobody, world, rest[1..]);
        ghost var before := session;
        out := PressEnter(eng, script, world);
        session := session + [S.Segment(out.trace, out.world, input)];
        rest := rest[1..];
        Assoc(before, [S.Segment(out.trace, out.world, input)], Later(eng, script, out, rest));
      }
      NoneLater(eng, script, out, rest);
    }
  }

  /** What follows a run in its session. */
  function Later<W>(eng: Engine<W>, script: seq<string>, o: Outcome<W>, between: seq<W -> W>): seq<S.Segment<W>> {
    if o.stop.Waiting? && between != [] && 0 <= o.stop.line <= |script| then
      S.FlatSession(eng, InterpreterLines(script), o.stop.line, Nobody, between[0](o.world), between[1..])
    else []
  }

  lemma LaterOn<W>(eng: Engine<W>, script: seq<string>, o: Outcome<W>, between: seq<W -> W>)
    requires o.stop.Waiting? && between != [] && 0 <= o.stop.line <= |script|
    ensures Later(eng, script, o, between) ==
      S.FlatSession(eng, InterpreterLines(script), o.stop.line, Nobody, between[0](o.world), between[1..])
  {
  }

  lemma NoneLater<W>(eng: Engine<W>, script: seq<string>, o: Outcome<W>, between: seq<W -> W>)
    requires !o.stop.Waiting? || between == []
    ensures Later(eng, script, o, between) == []
  {
  }

  lemma OneSegment<W>(eng: Engine<W>, script: seq<string>, from: nat, input: Input, w: W, between: seq<W -> W>)
    requires from <= |script|
    ensures var o := Play(eng, script, from, w);
      S.FlatSession(eng, InterpreterLines(script), from, input, w, between) ==
        [S.Segment(o.trace, o.world, InputAfter(o, input))] + Later(eng, script, o, between)
  {
  }

  // ---- the migration script -----------------------------------------------------

  /** The brace that opens the block is not kept, nor is anything before it. */
  function Kept(l: Line, depth: int): seq<Line> {
    if NextDepth(l, depth) > 0 && !(l.Open? && depth == 0) then [l] else []
  }

  /** The block loop of `convert_lines` on the lines ahead: the block, and what is left. */
  function Collected(ls: seq<Line>, depth: int, block: seq<Line>): (seq<Line>, seq<Line>) {
    if ls == [] then (block, [])
    else if ls[0].Close? && depth == 1 then (block, ls[1..])
    else Collected(ls[1..], NextDepth(ls[0], depth), block + Kept(ls[0], depth))
  }

  lemma {:induction false} CollectedBefore(ls: seq<Line>, depth: int)
    requires depth <= 0
    ensures var k := FindOpen(ls, depth);
      Collected(ls, depth, []) == if k == |ls| then ([], []) else Collected(ls[k + 1..], 1, [])
    decreases |ls|
  {
    assert Kept(Open, 0) + [] == [];
    if ls != [] && !(ls[0].Open? && depth == 0) {
      var depth' := NextDepth(ls[0], depth);
      CollectedBefore(ls[1..], depth');
      var k := FindOpen(ls[1..], depth');
      if k < |ls| - 1 { assert ls[1..][k + 1..] == ls[k + 2..]; }
    }
  }

  lemma {:induction false} CollectedInside(ls: seq<Line>, depth: int, block: seq<Line>)
    requires depth >= 1
    ensures var q := FindClose(ls, depth);
      Collected(ls, depth, block) ==
        if q == |ls| then (block + ls, []) else (block + ls[..q], ls[q + 1..])
    decreases |ls|
  {
    if ls != [] && !(ls[0].Close? && depth == 1) {
      CollectedInside(ls[1..], NextDepth(ls[0], depth), block + [ls[0]]);
      var q := FindClose(ls[1..], NextDepth(ls[0], depth));
      assert ls == [ls[0]] + ls[1..];
      Assoc(block, [ls[0]], ls[1..]);
      Assoc(block, [ls[0]], ls[1..][..q]);
      assert ls[..q + 1] == [ls[0]] + ls[1..][..q];
      if q < |ls| - 1 { assert ls[1..][q + 1..] == ls[q + 2..]; }
    } else {
      assert block + [] == block;
    }
  }

  lemma CollectedIsSplit(ls: seq<Line>)
    ensures Collected(ls, 0, []) == (Split(ls).block, Split(ls).rest)
  {
    hide Collected;
    hide FindOpen;
    hide FindClose;
    hide NextDepth;
    hide Kept;
    var k := FindOpen(ls, 0);
    CollectedBefore(ls, 0);
    if k < |ls| {
      var inside := ls[k + 1..];
      CollectedInside(inside, 1, []);
      var q := FindClose(inside, 1);
      assert [] + inside == inside;
      if q < |inside| { assert [] + inside[..q] == inside[..q]; }
    }
  }

  lemma CollectedOn(ls: seq<Line>, i: nat, depth: int, block: seq<Line>)
    requires i < |ls|
    ensures Collected(ls[i..], depth, block) ==
      if ls[i].Close? && depth == 1 then (block, ls[i + 1..])
      else Collected(ls[i + 1..], NextDepth(ls[i], depth), block + Kept(ls[i], depth))
  {
    assert ls[i..][1..] == ls[i + 1..];
  }

  /** The block loop that `convert_lines` runs after every condition: one brace counter
      decides what is dropped, what is kept and where the block ends. */
  method CollectBlock(lines: seq<Line>, start: nat) returns (block: seq<Line>, i: nat)
    requires start <= |lines|
    ensures start <= i <= |lines|
    ensures block == Split(lines[start..]).block
    ensures lines[i..] == Split(lines[start..]).rest
    ensures |block| <= i - start
  {
    hide *;
    CollectedIsSplit(lines[start..]);
    block := [];
    i := start;
    var depth := 0;
    while i < |lines|
      invariant start <= i <= |lines| && |block| <= i - start
      invariant Collected(lines[i..], depth, block) == Collected(lines[start..], 0, [])
    {
      CollectedOn(lines, i, depth, block);
      KeptIs(lines[i], depth, block);
      var line := lines[i];
      i := i + 1;
      if line.Open? {
        depth := depth + 1;
        if depth == 1 {
          continue;
        }
      } else if line.Close? {
        depth := depth - 1;
        if depth == 0 {
          return;
        }
      }
      if depth > 0 {
        block := block + [line];
      }
    }
    CollectedNone(depth, block);
    assert lines[i..] == [];
  }

  lemma KeptIs(l: Line, depth: int, block: seq<Line>)
    ensures NextDepth(l, depth) == if l.Open? then depth + 1 else if l.Close? then depth - 1 else depth
    ensures block + Kept(l, depth) ==
      if NextDepth(l, depth) > 0 && !(l.Open? && depth == 0) then block + [l] else block
  {
    assert block + [] == block;
  }

  lemma CollectedNone(depth: int, block: seq<Line>)
    ensures Collected([], depth, block) == (block, [])
  {
  }

  lemma ConvertOn(ls: seq<Line>, i: nat)
    requires i < |ls|
    ensures Convert(ls[i..]) ==
      match ls[i]
      case Blank => [Act(Output(""))] + Convert(ls[i + 1..])
      case Stop => [Halt]
      case Leave(place) => [Act(Move(place)), Halt]
      case Do(a) => [Act(a)] + Convert(ls[i + 1..])
      case When(c, wanted) =>
        var p := Split(ls[i + 1..]);
        [If(c, wanted, Convert(p.block))] + Convert(p.rest)
      case _ => Convert(ls[i + 1..])
  {
    assert ls[i..][1..] == ls[i + 1..];
  }

  lemma NoneConverted()
    ensures Convert([]) == []
  {
  }

  /** `convert_lines`: one pass with the index `i`, recursion on every block. */
  method ConvertLines(lines: seq<Line>) returns (out: seq<Statement>)
    ensures out == Convert(lines)
    decreases |lines|
  {
    hide Convert;
    hide Split;
    NoneConverted();
    out := [];
    var i := 0;
    assert lines[0..] == lines && lines[|lines|..] == [];
    while i < |lines|
      invariant 0 <= i <= |lines|
      invariant Convert(lines) == out + Convert(lines[i..])
    {
      var line := lines[i];
      i := i + 1;
      ConvertOn(lines, i - 1);
      ghost var was := out;
      match line {
        case Blank => out := out + [Act(Output(""))];
        case Stop =>
          return out + [Halt];
        case Leave(place) =>
          return out + [Act(Move(place)), Halt];
        case Do(a) => out := out + [Act(a)];
        case When(c, wanted) =>
          var block;
          block, i := CollectBlock(lines, i);
          var conv := ConvertLines(block);
          out := out + [If(c, wanted, conv)];
        case _ =>
      }
      Assoc(was, out[|was|..], Convert(lines[i..]));
      assert out == was + out[|was|..];
      assert [] + Convert(lines[i..]) == Convert(lines[i..]);
    }
  }

  /** The pieces of `split_by_enter`, each with the prompt of the pause after it. */
  function Segments(ls: seq<Line>): (segments: seq<(seq<Line>, Option<string>)>)
    ensures segments != []
    decreases |ls|
  {
    var p := FindPause(ls);
    if p == |ls| then [(ls, None)] else [(ls[..p], Some(ls[p].prompt))] + Segments(ls[p + 1..])
  }

  lemma {:induction false} FindPauseIs(a: seq<Line>, b: seq<Line>)
    requires forall j :: 0 <= j < |a| ==> !a[j].Pause?
    requires b == [] || b[0].Pause?
    ensures FindPause(a + b) == |a|
    decreases |a|
  {
    if a == [] {
      assert a + b == b;
    } else {
      assert (a + b)[1..] == a[1..] + b;
      FindPauseIs(a[1..], b);
    }
  }

  lemma SegmentsOf(a: seq<Line>, pause: Line, b: seq<Line>)
    requires forall j :: 0 <= j < |a| ==> !a[j].Pause?
    requires pause.Pause?
    ensures Segments(a + ([pause] + b)) == [(a, Some(pause.prompt))] + Segments(b)
  {
    FindPauseIs(a, [pause] + b);
    assert (a + ([pause] + b))[..|a|] == a;
    assert (a + ([pause] + b))[|a| + 1..] == b;
  }

  /** `split_by_enter` on the lines ahead, with the piece gathered so far. */
  function Pieces(ls: seq<Line>, current: seq<Line>): seq<(seq<Line>, Option<string>)> {
    if ls == [] then [(current, None)]
    else if ls[0].Pause? then [(current, Some(ls[0].prompt))] + Pieces(ls[1..], [])
    else Pieces(ls[1..], current + [ls[0]])
  }

  lemma {:induction false} PiecesAreSegments(ls: seq<Line>, current: seq<Line>)
    requires forall j :: 0 <= j < |current| ==> !current[j].Pause?
    ensures Pieces(ls, current) == Segments(current + ls)
    decreases |ls|
  {
    if ls == [] {
      FindPauseIs(current, []);
      assert current + [] == current;
    } else if ls[0].Pause? {
      PiecesAreSegments(ls[1..], []);
      assert [] + ls[1..] == ls[1..];
      SegmentsOf(current, ls[0], ls[1..]);
      assert [ls[0]] + ls[1..] == ls;
    } else {
      PiecesAreSegments(ls[1..], current + [ls[0]]);
      assert (current + [ls[0]]) + ls[1..] == current + ls;
    }
  }

  lemma PiecesOn(ls: seq<Line>, i: nat, current: seq<Line>)
    requires i < |ls|
    ensures Pieces(ls[i..], current) ==
      if ls[i].Pause? then [(current, Some(ls[i].prompt))] + Pieces(ls[i + 1..], [])
      else Pieces(ls[i + 1..], current + [ls[i]])
  {
    assert ls[i..][1..] == ls[i + 1..];
  }

  /** `split_by_enter`: the current piece grows until a pause line ends it. */
  method SplitByEnter(ls: seq<Line>) returns (segments: seq<(seq<Line>, Option<string>)>)
    ensures segments == Segments(ls)
  {
    segments := [];
    var current: seq<Line> := [];
    var i := 0;
    ghost var goal := Pieces(ls, []);
    assert goal == Segments(ls) by {
      PiecesAreSegments(ls, []);
      assert [] + ls == ls;
    }
    assert ls[0..] == ls;
    while i < |ls|
      invariant 0 <= i <= |ls|
      invariant goal == segments + Pieces(ls[i..], current)
    {
      PiecesOn(ls, i, current);
      var line := ls[i];
      i := i + 1;
      if line.Pause? {
        var piece := (current, Some(line.prompt));
        Assoc(segments, [piece], Pieces(ls[i..], []));
        segments := segments + [piece];
        current := [];
      } else {
        current := current + [line];
      }
    }
    assert ls[i..] == [];
    segments := segments + [(current, None)];
  }

  /** The generated functions, numbered from `k`, for pieces and prompts. */
  function Assembled(segments: seq<(seq<Line>, Option<string>)>, k: nat): seq<Step> {
    if segments == [] then []
    else
      var first := match segments[0].1
        case Some(prompt) => Step(Convert(segments[0].0), k + 1, prompt, true)
        case None => Step(WithEnd(Convert(segments[0].0)), k, "", false);
      [first] + Assembled(segments[1..], k + 1)
  }

  lemma {:induction false} StepsAreAssembled(ls: seq<Line>, k: nat)
    ensures Assembled(Segments(ls), k) == Steps(ls, k)
    decreases |ls|
  {
    var p := FindPause(ls);
    if p < |ls| {
      StepsAreAssembled(ls[p + 1..], k + 1);
      AssembledOn((ls[..p], Some(ls[p].prompt)), Segments(ls[p + 1..]), k);
    } else {
      AssembledOn((ls, None), [], k);
    }
  }

  lemma AssembledOn(first: (seq<Line>, Option<string>), later: seq<(seq<Line>, Option<string>)>, k: nat)
    ensures Assembled([first] + later, k) ==
      [match first.1
       case Some(prompt) => Step(Convert(first.0), k + 1, prompt, true)
       case None => Step(WithEnd(Convert(first.0)), k, "", false)] + Assembled(later, k + 1)
  {
    assert ([first] + later)[1..] == later;
  }

  lemma NoneAssembled(k: nat)
    ensures Assembled([], k) == []
  {
  }

  /** The part of `migrate_file` that turns one script into functions. */
  method MigrateScript(script: seq<string>) returns (steps: seq<Step>)
    ensures steps == Migrate(script)
  {
    var ls := MigrationLines(script);
    var segments := SplitByEnter(ls);
    StepsAreAssembled(ls, 0);
    steps := [];
    hide Assembled;
    hide Convert;
    hide WithEnd;
    NoneAssembled(|segments|);
    assert segments[0..] == segments && segments[|segments|..] == [];
    for i := 0 to |segments|
      invariant Assembled(segments, 0) == steps + Assembled(segments[i..], i)
    {
      var block := ConvertLines(segments[i].0);
      var step;
      match segments[i].1 {
        case Some(prompt) => step := Step(block, i + 1, prompt, true);
        case None => step := Step(WithEnd(block), i, "", false);
      }
      AssembledOn(segments[i], segments[i + 1..], i);
      assert segments[i..] == [segments[i]] + segments[i + 1..];
      Assoc(steps, [step], Assembled(segments[i + 1..], i + 1));
      steps := steps + [step];
    }
  }
}

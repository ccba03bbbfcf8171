/** The migration keeps the meaning of an event script. */
module EventMigration {
  import opened Text
  import opened EventLines
  import opened EventPrograms

  /** Lines the interpreter does nothing for. */
  predicate Silent(l: Line) { l.Open? || l.Close? || l.Inert? }

  /** Lines both readers describe inside one generated function. */
  predicate Plain(l: Line) { !l.Foreign? && !l.Pause? && !l.Leave? }

  /** The shape a maintainer checks: nothing but silent lines is lost between a condition
      and its block, and a block opened inside a closed region closes there. `must` asks
      every block to be closed. */
  predicate Sound(ls: seq<Line>, must: bool)
    decreases |ls|
  {
    if ls == [] || ls[0].Stop? then true
    else if ls[0].When? then
      var p := Split(ls[1..]);
      && (forall i :: 0 <= i < |p.lost| ==> Silent(p.lost[i]))
      && (p.closed || !must)
      && Sound(p.block, must || p.closed)
      && Sound(p.rest, must)
    else Sound(ls[1..], must)
  }

  // ---- skipping and collecting consume the same lines ----------------------

  /** One line of a skip. */
  lemma SkipOne<W>(eng: Engine<W>, ls: seq<Line>, total: int, tab: int, w: W)
    requires ls != []
    ensures Run(eng, ls, total, tab, true, w) ==
      if ls[0].Close? && tab == 1 then Run(eng, ls[1..], total, 0, false, w)
      else Run(eng, ls[1..], total, if ls[0].Open? then tab + 1 else if ls[0].Close? then tab - 1 else tab, true, w)
  {
  }

  lemma NoLines<W>(eng: Engine<W>, total: int, tab: int, skip: bool, w: W)
    ensures Run(eng, [], total, tab, skip, w) == Outcome([], w, Finished)
  {
  }

  /** The state in which a skip leaves the machine: normal reading behind the block's
      closing brace, or the end of the script. */
  lemma {:induction false} SkipInside<W>(eng: Engine<W>, ls: seq<Line>, tail: seq<Line>, total: int, depth: nat, w: W)
    requires depth >= 1
    ensures var q := FindClose(ls, depth);
      q < |ls| ==>
        Run(eng, ls + tail, total, depth, true, w) == Run(eng, ls[q + 1..] + tail, total, 0, false, w)
    ensures FindClose(ls, depth) == |ls| ==> Run(eng, ls, total, depth, true, w) == Outcome([], w, Finished)
    decreases |ls|
  {
    hide Run;
    NoLines(eng, total, depth, true, w);
    if ls != [] {
      assert (ls + tail)[1..] == ls[1..] + tail;
      SkipOne(eng, ls + tail, total, depth, w);
      SkipOne(eng, ls, total, depth, w);
      if ls[0].Open? {
        SkipInside(eng, ls[1..], tail, total, depth + 1, w);
      } else if ls[0].Close? {
        if depth > 1 { SkipInside(eng, ls[1..], tail, total, depth - 1, w); }
      } else {
        SkipInside(eng, ls[1..], tail, total, depth, w);
      }
    }
  }

  lemma {:induction false} SkipBefore<W>(eng: Engine<W>, ls: seq<Line>, tail: seq<Line>, total: int, depth: int, w: W)
    requires depth <= 0
    ensures var k := FindOpen(ls, depth);
      k < |ls| ==>
        Run(eng, ls + tail, total, depth, true, w) == Run(eng, ls[k + 1..] + tail, total, 1, true, w)
    ensures FindOpen(ls, depth) == |ls| ==> Run(eng, ls, total, depth, true, w) == Outcome([], w, Finished)
    decreases |ls|
  {
    hide Run;
    NoLines(eng, total, depth, true, w);
    if ls != [] {
      assert (ls + tail)[1..] == ls[1..] + tail;
      SkipOne(eng, ls + tail, total, depth, w);
      SkipOne(eng, ls, total, depth, w);
      if ls[0].Open? {
        if depth < 0 { SkipBefore(eng, ls[1..], tail, total, depth + 1, w); }
      } else if ls[0].Close? {
        SkipBefore(eng, ls[1..], tail, total, depth - 1, w);
      } else {
        SkipBefore(eng, ls[1..], tail, total, depth, w);
      }
    }
  }

  /** How many lines a condition owns: the lost ones, the braces and the block. */
  function Owned(ls: seq<Line>): nat {
    |ls| - |Split(ls).rest|
  }

  lemma SplitCovers(ls: seq<Line>)
    ensures var p := Split(ls);
      && ls == ls[..Owned(ls)] + p.rest
      && (p.closed ==> ls == p.lost + ([Open] + (p.block + ([Close] + p.rest))))
      && (!p.closed ==> p.rest == [] && (ls == p.lost || ls == p.lost + ([Open] + p.block)))
      && |p.block| + |p.rest| <= |ls|
      && (!p.closed && ls == p.lost ==> p.block == [])
  {
    hide Split;
    if Split(ls).closed {
      ClosedCovers(ls);
    } else {
      UnclosedCovers(ls);
    }
  }

  lemma ClosedCovers(ls: seq<Line>)
    requires Split(ls).closed
    ensures var p := Split(ls);
      && ls == p.lost + ([Open] + (p.block + ([Close] + p.rest)))
      && |p.lost| + |p.block| + |p.rest| + 2 == |ls|
  {
    hide FindOpen;
    hide FindClose;
    var k := FindOpen(ls, 0);
    var inside := ls[k + 1..];
    var q := FindClose(inside, 1);
    assert inside == inside[..q] + ([Close] + inside[q + 1..]);
    assert ls == ls[..k] + ([Open] + inside);
  }

  lemma UnclosedCovers(ls: seq<Line>)
    requires !Split(ls).closed
    ensures var p := Split(ls);
      && p.rest == []
      && ((ls == p.lost && p.block == []) || ls == p.lost + ([Open] + p.block))
      && |p.block| <= |ls|
  {
    hide FindOpen;
    hide FindClose;
    var k := FindOpen(ls, 0);
    if k < |ls| {
      assert ls == ls[..k] + ([Open] + ls[k + 1..]);
    }
  }

  /** After a condition that fails, the interpreter skips exactly the lines that the
      migration takes into the condition's block, wherever braces stand. */
  lemma SkipTakesTheBlock<W>(eng: Engine<W>, ls: seq<Line>, tail: seq<Line>, total: int, w: W)
    ensures var p := Split(ls);
      p.closed ==> Run(eng, ls + tail, total, 0, true, w) == Run(eng, p.rest + tail, total, 0, false, w)
    ensures !Split(ls).closed ==> Run(eng, ls, total, 0, true, w) == Outcome([], w, Finished)
  {
    if Split(ls).closed {
      SkipClosed(eng, ls, tail, total, w);
    } else {
      SkipUnclosed(eng, ls, total, w);
    }
  }

  lemma SkipClosed<W>(eng: Engine<W>, ls: seq<Line>, tail: seq<Line>, total: int, w: W)
    requires Split(ls).closed
    ensures Run(eng, ls + tail, total, 0, true, w) == Run(eng, Split(ls).rest + tail, total, 0, false, w)
  {
    var k := FindOpen(ls, 0);
    var inside := ls[k + 1..];
    var q := FindClose(inside, 1);
    SkipBefore(eng, ls, tail, total, 0, w);
    SkipInside(eng, inside, tail, total, 1, w);
    assert Split(ls).rest == inside[q + 1..];
  }

  lemma SkipUnclosed<W>(eng: Engine<W>, ls: seq<Line>, total: int, w: W)
    requires !Split(ls).closed
    ensures Run(eng, ls, total, 0, true, w) == Outcome([], w, Finished)
  {
    var k := FindOpen(ls, 0);
    SkipBefore(eng, ls, [], total, 0, w);
    if k < |ls| {
      assert ls + [] == ls;
      var inside := ls[k + 1..];
      assert inside + [] == inside;
      SkipInside(eng, inside, [], total, 1, w);
    }
  }

  // ---- one generated function ------------------------------------------------

  lemma {:induction false} RunSilent<W>(eng: Engine<W>, ls: seq<Line>, tail: seq<Line>, total: int, w: W)
    requires forall i :: 0 <= i < |ls| ==> Silent(ls[i])
    ensures Run(eng, ls + tail, total, 0, false, w) == Run(eng, tail, total, 0, false, w)
    decreases |ls|
  {
    if ls == [] {
      assert ls + tail == tail;
    } else {
      assert (ls + tail)[1..] == ls[1..] + tail;
      RunSilent(eng, ls[1..], tail, total, w);
    }
  }

  /** A block that is taken runs in place: lost lines and braces are passed silently. */
  lemma RunTaken<W>(eng: Engine<W>, ls: seq<Line>, tail: seq<Line>, total: int, w: W)
    requires forall i :: 0 <= i < |Split(ls).lost| ==> Silent(Split(ls).lost[i])
    ensures var p := Split(ls);
      p.closed ==>
        Run(eng, ls + tail, total, 0, false, w)
        == Run(eng, p.block + ([Close] + (p.rest + tail)), total, 0, false, w)
    ensures !Split(ls).closed ==>
      Run(eng, ls, total, 0, false, w) == Run(eng, Split(ls).block, total, 0, false, w)
  {
    hide Split;
    hide Run;
    var p := Split(ls);
    SplitCovers(ls);
    if p.closed {
      assert ls + tail == p.lost + ([Open] + (p.block + ([Close] + (p.rest + tail))));
      BlockInPlace(eng, ls + tail, p.lost, p.block + ([Close] + (p.rest + tail)), total, w);
    } else if ls == p.lost {
      assert ls + [] == ls;
      RunSilent(eng, ls, [], total, w);
    } else {
      BlockInPlace(eng, ls, p.lost, p.block, total, w);
    }
  }

  lemma BlockInPlace<W>(eng: Engine<W>, ls: seq<Line>, lost: seq<Line>, after: seq<Line>, total: int, w: W)
    requires forall i :: 0 <= i < |lost| ==> Silent(lost[i])
    requires ls == lost + ([Open] + after)
    ensures Run(eng, ls, total, 0, false, w) == Run(eng, after, total, 0, false, w)
  {
    RunSilent(eng, lost, [Open] + after, total, w);
    assert ([Open] + after)[1..] == after;
  }

  function Then<W>(a: Result<W>, b: Result<W>): Result<W> {
    if a.halted then a else Result(a.trace + b.trace, b.world, b.halted)
  }

  /** A program's result followed by what the flat machine does next. */
  function Into<W>(r: Result<W>, o: Outcome<W>): Outcome<W> {
    if r.halted then Outcome(r.trace, r.world, Finished) else Prepend(r.trace, o)
  }

  lemma IntoThen<W>(a: Result<W>, b: Result<W>, o: Outcome<W>)
    ensures Into(a, Into(b, o)) == Into(Then(a, b), o)
  {
    Assoc(a.trace, b.trace, o.trace);
    assert a.trace + [] == a.trace && [] + b.trace == b.trace;
  }

  lemma ExecSplit<W>(eng: Engine<W>, s: Statement, prog: seq<Statement>, w: W)
    ensures var first := ExecOne(eng, s, w);
      Exec(eng, [s] + prog, w) == Then(first, Exec(eng, prog, first.world))
  {
    assert ([s] + prog)[1..] == prog;
  }

  /** What the flat machine owes the structured program on `ls` before `tail`. */
  ghost predicate Agrees<W>(eng: Engine<W>, ls: seq<Line>, tail: seq<Line>, total: int, w: W) {
    var r := Exec(eng, Convert(ls), w);
    Run(eng, ls + tail, total, 0, false, w) == Into(r, Run(eng, tail, total, 0, false, r.world))
  }

  /** The flat machine on a sound piece of script is its structured program, followed by
      the flat machine on what comes after. */
  lemma {:induction false} RunIsExec<W>(eng: Engine<W>, ls: seq<Line>, tail: seq<Line>, total: int, w: W, must: bool)
    requires forall i :: 0 <= i < |ls| ==> Plain(ls[i])
    requires Sound(ls, must)
    requires must || tail == []
    ensures Agrees(eng, ls, tail, total, w)
    decreases |ls|, 1
  {
    if ls == [] {
      assert ls + tail == tail;
    } else if ls[0].When? {
      PartsArePlain(ls);
      if eng.test(w, ls[0].condition) == ls[0].wanted {
        TakenIsExec(eng, ls, tail, total, w, must);
      } else {
        if Split(ls[1..]).closed {
          RunIsExec(eng, Split(ls[1..]).rest, tail, total, w, must);
        }
        SkippedBlock(eng, ls, tail, total, w);
      }
    } else if !ls[0].Stop? {
      var w' := if ls[0].Do? then Acted(eng, w, ls[0].action)
                else if ls[0].Blank? then eng.act(w, Output("")) else w;
      RunIsExec(eng, ls[1..], tail, total, w', must);
      OneLineThenRest(eng, ls, tail, total, w);
    } else {
      assert (ls + tail)[0] == ls[0];
    }
  }

  lemma {:induction false} TakenIsExec<W>(eng: Engine<W>, ls: seq<Line>, tail: seq<Line>, total: int, w: W, must: bool)
    requires ls != [] && ls[0].When? && eng.test(w, ls[0].condition) == ls[0].wanted
    requires forall i :: 0 <= i < |ls| ==> Plain(ls[i])
    requires Sound(ls, must)
    requires must || tail == []
    ensures Agrees(eng, ls, tail, total, w)
    decreases |ls|, 0
  {
    var p := Split(ls[1..]);
    PartsArePlain(ls);
    if p.closed {
      RunIsExec(eng, p.block, [Close] + (p.rest + tail), total, w, true);
      RunIsExec(eng, p.rest, tail, total, Exec(eng, Convert(p.block), w).world, must);
      TakenClosed(eng, ls, tail, total, w);
    } else {
      RunIsExec(eng, p.block, [], total, w, must);
      TakenUnclosed(eng, ls, total, w);
    }
  }

  lemma OneLineThenRest<W>(eng: Engine<W>, ls: seq<Line>, tail: seq<Line>, total: int, w: W)
    requires ls != [] && Plain(ls[0]) && !ls[0].When? && !ls[0].Stop?
    requires ls[0].Do? ==> Agrees(eng, ls[1..], tail, total, Acted(eng, w, ls[0].action))
    requires ls[0].Blank? ==> Agrees(eng, ls[1..], tail, total, eng.act(w, Output("")))
    requires Silent(ls[0]) ==> Agrees(eng, ls[1..], tail, total, w)
    ensures Agrees(eng, ls, tail, total, w)
  {
    assert (ls + tail)[1..] == ls[1..] + tail;
    if !Silent(ls[0]) {
      var a := if ls[0].Do? then ls[0].action else Output("");
      var first := Result([a], Acted(eng, w, a), false);
      var later := Exec(eng, Convert(ls[1..]), first.world);
      ExecSplit(eng, Act(a), Convert(ls[1..]), w);
      IntoThen(first, later, Run(eng, tail, total, 0, false, later.world));
    }
  }

  lemma RunWhen<W>(eng: Engine<W>, ls: seq<Line>, tail: seq<Line>, total: int, w: W)
    requires ls != [] && ls[0].When?
    ensures Run(eng, ls + tail, total, 0, false, w)
         == Run(eng, ls[1..] + tail, total, 0, eng.test(w, ls[0].condition) != ls[0].wanted, w)
  {
    assert (ls + tail)[1..] == ls[1..] + tail;
  }

  lemma ConvertWhen(ls: seq<Line>)
    requires ls != [] && ls[0].When?
    ensures var p := Split(ls[1..]);
      Convert(ls) == [If(ls[0].condition, ls[0].wanted, Convert(p.block))] + Convert(p.rest)
  {
    hide Split;
  }

  lemma ExecWhen<W>(eng: Engine<W>, ls: seq<Line>, w: W)
    requires ls != [] && ls[0].When?
    ensures var p := Split(ls[1..]);
      var first := if eng.test(w, ls[0].condition) == ls[0].wanted
                   then Exec(eng, Convert(p.block), w) else Result([], w, false);
      Exec(eng, Convert(ls), w) == Then(first, Exec(eng, Convert(p.rest), first.world))
  {
    var p := Split(ls[1..]);
    ConvertWhen(ls);
    ExecSplit(eng, If(ls[0].condition, ls[0].wanted, Convert(p.block)), Convert(p.rest), w);
  }

  lemma ThenNothing<W>(w: W, r: Result<W>)
    ensures Then(Result([], w, false), r) == r
  {
    assert [] + r.trace == r.trace;
  }

  lemma SkippedBlock<W>(eng: Engine<W>, ls: seq<Line>, tail: seq<Line>, total: int, w: W)
    requires ls != [] && ls[0].When? && eng.test(w, ls[0].condition) != ls[0].wanted
    requires var p := Split(ls[1..]);
      if p.closed then Agrees(eng, p.rest, tail, total, w) else tail == []
    ensures Agrees(eng, ls, tail, total, w)
  {
    var rest := Split(ls[1..]).rest;
    ExecWhen(eng, ls, w);
    ThenNothing(w, Exec(eng, Convert(rest), w));
    RunWhen(eng, ls, tail, total, w);
    SkipTakesTheBlock(eng, ls[1..], tail, total, w);
    if !Split(ls[1..]).closed {
      SplitCovers(ls[1..]);
      assert ls[1..] + tail == ls[1..];
    }
  }

  lemma TakenClosed<W>(eng: Engine<W>, ls: seq<Line>, tail: seq<Line>, total: int, w: W)
    requires ls != [] && ls[0].When? && eng.test(w, ls[0].condition) == ls[0].wanted
    requires Split(ls[1..]).closed
    requires forall i :: 0 <= i < |Split(ls[1..]).lost| ==> Silent(Split(ls[1..]).lost[i])
    requires var p := Split(ls[1..]);
      && Agrees(eng, p.block, [Close] + (p.rest + tail), total, w)
      && Agrees(eng, p.rest, tail, total, Exec(eng, Convert(p.block), w).world)
    ensures Agrees(eng, ls, tail, total, w)
  {
    var p := Split(ls[1..]);
    var body := Exec(eng, Convert(p.block), w);
    var later := Exec(eng, Convert(p.rest), body.world);
    ExecWhen(eng, ls, w);
    RunWhen(eng, ls, tail, total, w);
    RunTaken(eng, ls[1..], tail, total, w);
    CloseIsSilent(eng, p.rest + tail, total, body.world);
    IntoThen(body, later, Run(eng, tail, total, 0, false, later.world));
  }

  lemma CloseIsSilent<W>(eng: Engine<W>, ls: seq<Line>, total: int, w: W)
    ensures Run(eng, [Close] + ls, total, 0, false, w) == Run(eng, ls, total, 0, false, w)
  {
    assert ([Close] + ls)[1..] == ls;
  }

  lemma TakenUnclosed<W>(eng: Engine<W>, ls: seq<Line>, total: int, w: W)
    requires ls != [] && ls[0].When? && eng.test(w, ls[0].condition) == ls[0].wanted
    requires !Split(ls[1..]).closed
    requires forall i :: 0 <= i < |Split(ls[1..]).lost| ==> Silent(Split(ls[1..]).lost[i])
    requires Agrees(eng, Split(ls[1..]).block, [], total, w)
    ensures Agrees(eng, ls, [], total, w)
  {
    var p := Split(ls[1..]);
    var body := Exec(eng, Convert(p.block), w);
    SplitCovers(ls[1..]);
    RunWhen(eng, ls, [], total, w);
    assert ls[1..] + [] == ls[1..];
    RunTaken(eng, ls[1..], [], total, w);
    ExecWhen(eng, ls, w);
    assert p.block + [] == p.block;
    assert body.trace + [] == body.trace;
  }

  lemma PartsArePlain(ls: seq<Line>)
    requires ls != []
    requires forall i :: 0 <= i < |ls| ==> Plain(ls[i])
    ensures var p := Split(ls[1..]);
      && (forall i :: 0 <= i < |p.block| ==> Plain(p.block[i]))
      && (forall i :: 0 <= i < |p.rest| ==> Plain(p.rest[i]))
  {
  }
}

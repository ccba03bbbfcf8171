/** The two meanings of an event script: the flat machine of `doEvent`, which skips
    lines by counting braces, and the structured programs of the migration. The world
    and the efuns are arbitrary. */
module EventPrograms {
  import opened EventLines

  datatype Effect<W> = Effect(world: W, skip: bool, quit: bool)

  /** How conditions, actions and undescribed lines act on a world `W`. */
  datatype Engine<!W> = Engine(
    test: (W, Condition) -> bool,
    act: (W, Action) -> W,
    foreign: (W, string) -> Effect<W>)

  /** Giving the input back changes the player's input and nothing of the world. */
  function Acted<W>(eng: Engine<W>, w: W, a: Action): W {
    if a.Release? then w else eng.act(w, a)
  }

  /** Who takes the next line the player types: the command parser, the pause that waits for
      a key, or nobody. */
  datatype Input = Commands | EnterKey | Nobody

  /** The rest of the script is done, or it waits and goes on behind line `line`. */
  datatype Stop = Finished | Waiting(line: int, prompt: string)

  datatype Outcome<W> = Outcome(trace: seq<Action>, world: W, stop: Stop)

  /** The input that a run leaves, if it found `input`. */
  function InputAfter<W>(o: Outcome<W>, input: Input): Input {
    if o.stop.Waiting? then EnterKey else InputBehind(o.trace, input)
  }

  function InputBehind(trace: seq<Action>, input: Input): Input {
    if Release in trace then Commands else input
  }

  lemma OneMoreAct(trace: seq<Action>, a: Action, input: Input)
    ensures InputBehind(trace + [a], input) == if a.Release? then Commands else InputBehind(trace, input)
    ensures InputBehind([], input) == input
  {
  }

  function Prepend<W>(trace: seq<Action>, o: Outcome<W>): Outcome<W> {
    if trace == [] then o else o.(trace := trace + o.trace)
  }

  // ---- the flat interpreter ----------------------------------------------

  /** Where one line leaves the machine. */
  datatype Turn<W> =
    | On(events: seq<Action>, tab: int, skip: bool, world: W)
    | Off(events: seq<Action>, world: W)
    | Wait(prompt: string)

  /** One round of the loop of `doEvent`. */
  function Take<W>(eng: Engine<W>, l: Line, tab: int, skip: bool, w: W): Turn<W> {
    if skip then
      if l.Open? then On([], tab + 1, true, w)
      else if !l.Close? then On([], tab, true, w)
      else if tab - 1 != 0 then On([], tab - 1, true, w)
      else On([], 0, false, w)
    else
      match l
      case Blank => On([Output("")], tab, false, eng.act(w, Output("")))
      case Stop => Off([], w)
      case Pause(prompt) => Wait(prompt)
      case Do(a) => On([a], tab, false, Acted(eng, w, a))
      case When(c, wanted) => On([], tab, eng.test(w, c) != wanted, w)
      case Foreign(text) =>
        var e := eng.foreign(w, text);
        if e.quit then Off([], e.world) else On([], tab, e.skip, e.world)
      case _ => On([], tab, false, w)
  }

  /** `doEvent` from its loop head, in a script of `total` lines of which `ls` are ahead. */
  function Run<W>(eng: Engine<W>, ls: seq<Line>, total: int, tab: int, skip: bool, w: W): Outcome<W>
    decreases |ls|
  {
    if ls == [] then Outcome([], w, Finished)
    else
      match Take(eng, ls[0], tab, skip, w)
      case On(events, tab', skip', w') => Prepend(events, Run(eng, ls[1..], total, tab', skip', w'))
      case Off(events, w') => Outcome(events, w', Finished)
      case Wait(prompt) => Outcome([], w, Waiting(total - |ls| + 1, prompt))
  }

  /** A machine that stops to wait does so behind a line that was ahead. */
  lemma {:induction false} WaitsAhead<W>(eng: Engine<W>, ls: seq<Line>, total: int, tab: int, skip: bool, w: W)
    ensures var o := Run(eng, ls, total, tab, skip, w);
      o.stop.Waiting? ==> total - |ls| < o.stop.line <= total
    decreases |ls|
  {
    if ls != [] {
      match Take(eng, ls[0], tab, skip, w)
      case On(events, tab', skip', w') => WaitsAhead(eng, ls[1..], total, tab', skip', w');
      case _ =>
    }
  }

  /** `doEvent(mob, key, words, from)`: the first `from` lines are passed over. */
  function Play<W>(eng: Engine<W>, script: seq<string>, from: nat, w: W): Outcome<W>
    requires from <= |script|
  {
    Run(eng, InterpreterLines(script)[from..], |script|, 0, false, w)
  }

  // ---- blocks --------------------------------------------------------------

  /** The brace counter behind a line. */
  function NextDepth(l: Line, depth: int): int {
    if l.Open? then depth + 1 else if l.Close? then depth - 1 else depth
  }

  /** How many lines precede the brace that opens a block, all of them if none does. */
  function FindOpen(ls: seq<Line>, depth: int): (k: nat)
    requires depth <= 0
    ensures k <= |ls|
    ensures k < |ls| ==> ls[k].Open?
  {
    if ls == [] then 0
    else if ls[0].Open? then
      if depth == 0 then 0 else 1 + FindOpen(ls[1..], depth + 1)
    else 1 + FindOpen(ls[1..], if ls[0].Close? then depth - 1 else depth)
  }

  /** How many lines precede the brace that brings `depth` to 0, all of them if none does. */
  function FindClose(ls: seq<Line>, depth: nat): (k: nat)
    requires depth >= 1
    ensures k <= |ls|
    ensures k < |ls| ==> ls[k].Close?
  {
    if ls == [] then 0
    else if ls[0].Open? then 1 + FindClose(ls[1..], depth + 1)
    else if ls[0].Close? then
      if depth == 1 then 0 else 1 + FindClose(ls[1..], depth - 1)
    else 1 + FindClose(ls[1..], depth)
  }

  /** What follows a condition: lines lost before the block, the block, the rest. */
  datatype Parts = Parts(lost: seq<Line>, block: seq<Line>, closed: bool, rest: seq<Line>)

  function Split(ls: seq<Line>): (p: Parts)
    ensures |p.block| <= |ls| && |p.rest| <= |ls|
  {
    var k := FindOpen(ls, 0);
    if k == |ls| then Parts(ls, [], false, [])
    else
      var inside := ls[k + 1..];
      var q := FindClose(inside, 1);
      if q == |inside| then Parts(ls[..k], inside, false, [])
      else Parts(ls[..k], inside[..q], true, inside[q + 1..])
  }

  // ---- structured programs ----------------------------------------------

  datatype Statement = Act(action: Action) | If(condition: Condition, wanted: bool, body: seq<Statement>) | Halt

  /** `convert_lines`. */
  function Convert(ls: seq<Line>): seq<Statement>
    decreases |ls|
  {
    if ls == [] then []
    else
      match ls[0]
      case Blank => [Act(Output(""))] + Convert(ls[1..])
      case Stop => [Halt]
      case Leave(place) => [Act(Move(place)), Halt]
      case Do(a) => [Act(a)] + Convert(ls[1..])
      case When(c, wanted) =>
        var p := Split(ls[1..]);
        [If(c, wanted, Convert(p.block))] + Convert(p.rest)
      case _ => Convert(ls[1..])
  }

  datatype Result<W> = Result(trace: seq<Action>, world: W, halted: bool)

  function Exec<W>(eng: Engine<W>, prog: seq<Statement>, w: W): Result<W> {
    if prog == [] then Result([], w, false)
    else
      var first := ExecOne(eng, prog[0], w);
      if first.halted then first
      else
        var later := Exec(eng, prog[1..], first.world);
        Result(first.trace + later.trace, later.world, later.halted)
  }

  function ExecOne<W>(eng: Engine<W>, s: Statement, w: W): Result<W> {
    match s
    case Act(a) => Result([a], Acted(eng, w, a), false)
    case If(c, wanted, body) =>
      if eng.test(w, c) == wanted then Exec(eng, body, w) else Result([], w, false)
    case Halt => Result([], w, true)
  }

  // ---- step functions --------------------------------------------------------

  /** One generated function: its body and the `wait_enter` after it, if any. */
  datatype Step = Step(body: seq<Statement>, next: nat, prompt: string, waits: bool)

  function CountPauses(ls: seq<Line>): nat {
    if ls == [] then 0 else (if ls[0].Pause? then 1 else 0) + CountPauses(ls[1..])
  }

  /** How many lines precede the first pause, all of them if there is none. */
  function FindPause(ls: seq<Line>): (k: nat)
    ensures k <= |ls|
    ensures k < |ls| ==> ls[k].Pause?
    ensures forall i :: 0 <= i < k ==> !ls[i].Pause?
  {
    if ls == [] || ls[0].Pause? then 0 else 1 + FindPause(ls[1..])
  }

  predicate Ends(prog: seq<Statement>) {
    exists i :: 0 <= i < |prog| && EndsOne(prog[i])
  }

  /** Does the generated text of a statement contain `end_event()`? */
  predicate EndsOne(s: Statement) {
    match s
    case Halt => true
    case If(c, _, body) => ConditionSays(c) || exists i :: 0 <= i < |body| && EndsOne(body[i])
    case Act(a) => ActionSays(a)
  }

  const END_CALL := "end_event()"

  predicate ConditionSays(c: Condition) {
    match c
    case EventSet(name) => Contains(name, END_CALL)
    case Tendency(name) => Contains(name, END_CALL)
    case HasItem(request) => Contains(request, END_CALL)
    case TypedArgument(_, word) => Contains(word, END_CALL)
    case TypedWord(_, word) => Contains(word, END_CALL)
  }

  predicate ActionSays(a: Action) {
    match a
    case Output(text) => Contains(text, END_CALL)
    case Announce(text) => Contains(text, END_CALL)
    case SetEvent(name, value) => Contains(name, END_CALL) || Contains(value, END_CALL)
    case DelEvent(name) => Contains(name, END_CALL)
    case DeleteItem(index, _) => Contains(index, END_CALL)
    case GiveItem(index, _) => Contains(index, END_CALL)
    case Move(place) => Contains(place, END_CALL)
    case SwitchTendency => false
    case Release => false
    case MakeHermit => false
  }

  /** The last function, a single one too, gets a closing `end_event()` unless its text
      already has one. */
  function WithEnd(prog: seq<Statement>): seq<Statement> {
    if Ends(prog) then prog else prog + [Halt]
  }

  /** The texts that are part of a generated program, and whether it has a halt anywhere. */
  function TextsOf(a: Action): seq<string> {
    match a
    case Output(text) => [text]
    case Announce(text) => [text]
    case SetEvent(name, value) => [name, value]
    case DelEvent(name) => [name]
    case DeleteItem(index, _) => [index]
    case GiveItem(index, _) => [index]
    case Move(place) => [place]
    case SwitchTendency => []
    case MakeHermit => []
    case Release => []
  }

  function TextsIn(c: Condition): seq<string> {
    match c
    case EventSet(name) => [name]
    case Tendency(name) => [name]
    case HasItem(request) => [request]
    case TypedArgument(_, word) => [word]
    case TypedWord(_, word) => [word]
  }

  function Texts(prog: seq<Statement>): seq<string> {
    if prog == [] then []
    else
      (match prog[0]
       case Act(a) => TextsOf(a)
       case If(c, _, body) => TextsIn(c) + Texts(body)
       case Halt => []) + Texts(prog[1..])
  }

  predicate Halts(prog: seq<Statement>) {
    prog != [] && (prog[0] == Halt || (prog[0].If? && Halts(prog[0].body)) || Halts(prog[1..]))
  }

  lemma {:induction false} EndsMeans(prog: seq<Statement>)
    ensures Ends(prog) <==> Halts(prog) || exists t :: t in Texts(prog) && Occurs("end_event()", t)
    decreases prog
  {
    hide Contains;
    hide Occurs;
    if prog == [] {
    } else {
      var first, rest := prog[0], prog[1..];
      EndsMeans(rest);
      if first.If? { EndsMeans(first.body); }
      EndsFirst(prog);
      EndsOneMeans(first);
      var here := match first case Act(a) => TextsOf(a) case If(c, _, body) => TextsIn(c) + Texts(body) case Halt => [];
      assert Texts(prog) == here + Texts(rest);
      assert forall t :: t in Texts(prog) <==> t in here || t in Texts(rest);
    }
  }

  lemma EndsFirst(prog: seq<Statement>)
    requires prog != []
    ensures Ends(prog) <==> EndsOne(prog[0]) || Ends(prog[1..])
  {
    hide EndsOne;
    if Ends(prog[1..]) {
      var i :| 0 <= i < |prog[1..]| && EndsOne(prog[1..][i]);
      assert prog[i + 1] == prog[1..][i];
    }
    if Ends(prog) {
      var i :| 0 <= i < |prog| && EndsOne(prog[i]);
      assert i > 0 ==> prog[1..][i - 1] == prog[i];
    }
  }

  lemma EndsOneMeans(s: Statement)
    ensures EndsOne(s) <==>
      match s
      case Halt => true
      case Act(a) => exists t :: t in TextsOf(a) && Occurs("end_event()", t)
      case If(c, _, body) => (exists t :: t in TextsIn(c) && Occurs("end_event()", t)) || Ends(body)
  {
    hide Contains;
    hide Occurs;
    match s
    case Act(a) => SaysMeans(TextsOf(a));
    case If(c, _, body) => SaysMeans(TextsIn(c));
    case Halt =>
  }

  lemma SaysMeans(texts: seq<string>)
    requires |texts| <= 2
    ensures (exists t :: t in texts && Occurs("end_event()", t)) <==>
      (|texts| > 0 && Contains(texts[0], "end_event()")) || (|texts| > 1 && Contains(texts[1], "end_event()"))
  {
    forall t | t in texts ensures Contains(t, "end_event()") <==> Occurs("end_event()", t) {
      ContainsIsOccurs(t, "end_event()");
    }
    hide Contains;
    hide Occurs;
    assert |texts| > 0 ==> texts[0] in texts;
    assert |texts| > 1 ==> texts[1] in texts;
    assert forall t :: t in texts ==> (|texts| > 0 && t == texts[0]) || (|texts| > 1 && t == texts[1]);
  }

  /** A function gets a closing `end_event()` exactly if its text has none: no halt anywhere,
      and no text that happens to hold one. */
  lemma WithEndIff(prog: seq<Statement>)
    ensures WithEnd(prog) ==
      if Halts(prog) || exists t :: t in Texts(prog) && Occurs("end_event()", t) then prog else prog + [Halt]
  {
    EndsMeans(prog);
  }

  /** `split_by_enter` and the assembly of `event`, `step1`, `step2`, ...; `k` is the
      number of the first function. */
  function Steps(ls: seq<Line>, k: nat): (steps: seq<Step>)
    ensures |steps| == 1 + CountPauses(ls)
    decreases |ls|
  {
    var p := FindPause(ls);
    CountPausesAt(ls);
    if p == |ls| then [Step(WithEnd(Convert(ls)), k, "", false)]
    else [Step(Convert(ls[..p]), k + 1, ls[p].prompt, true)] + Steps(ls[p + 1..], k + 1)
  }

  /** The generated functions of a script. */
  function Migrate(script: seq<string>): seq<Step> {
    Steps(MigrationLines(script), 0)
  }

  lemma {:induction false} CountPausesAt(ls: seq<Line>)
    ensures var p := FindPause(ls);
      if p == |ls| then CountPauses(ls) == 0
      else CountPauses(ls) == 1 + CountPauses(ls[p + 1..])
    decreases |ls|
  {
    if ls != [] && !ls[0].Pause? {
      CountPausesAt(ls[1..]);
      var p := FindPause(ls[1..]);
      if p < |ls| - 1 { assert ls[1..][p + 1..] == ls[p + 2..]; }
    }
  }

  /** Calls generated function number `k`. A wait names the function to go on with. */
  function Call<W>(eng: Engine<W>, steps: seq<Step>, k: nat, w: W): Outcome<W>
    requires k < |steps|
  {
    var r := Exec(eng, steps[k].body, w);
    if r.halted || !steps[k].waits then Outcome(r.trace, r.world, Finished)
    else Outcome(r.trace, r.world, Waiting(steps[k].next, steps[k].prompt))
  }
}

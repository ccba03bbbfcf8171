/** How the two readers of an event script understand one line: the flat
    interpreter (`doEvent`) and the migration to structured programs
    (`split_by_enter` and `convert_lines`). */
module EventLines {
  import opened Text
  import opened Numbers

  /** `TypedArgument` is the interpreter's test of a typed word, which must be neither the
      first nor the last one; `TypedWord` is the one the migration writes. */
  datatype Condition =
    | EventSet(name: string)
    | Tendency(name: string)
    | HasItem(request: string)
    | TypedArgument(position: int, word: string)
    | TypedWord(position: int, word: string)

  /** `Output` is for the player only, `Announce` for everyone in the room. `Release` lets
      the player type commands again. */
  datatype Action =
    | Output(text: string)
    | Announce(text: string)
    | SetEvent(name: string, value: string)
    | DelEvent(name: string)
    | DeleteItem(index: string, count: int)
    | GiveItem(index: string, count: int)
    | Move(place: string)
    | SwitchTendency
    | MakeHermit
    | Release

  /** What a line asks for. `When` guards the block after it, which runs iff the
      condition's truth value is `wanted`. `Foreign` is a line whose effect is not
      described here; `Leave` is the migration's reading of a move. */
  datatype Line =
    | Blank
    | Open
    | Close
    | Stop
    | Pause(prompt: string)
    | Do(action: Action)
    | When(condition: Condition, wanted: bool)
    | Inert
    | Foreign(text: string)
    | Leave(place: string)

  /** What is left of an action and of a line when nobody but the player listens. */
  function ToPlayer(a: Action): Action {
    match a case Announce(text) => Output(text) case _ => a
  }

  function Overheard(l: Line): Line {
    if l.Do? then Do(ToPlayer(l.action)) else l
  }

  /** What the migration makes of a line it reads as the interpreter does, or that hands the
      input back: it knows no such line. */
  function Unreleased(l: Line): Line {
    if l == Do(Release) then Inert else l
  }

  function AllUnreleased(ls: seq<Line>): (r: seq<Line>)
    ensures |r| == |ls|
    ensures forall i :: 0 <= i < |ls| ==> r[i] == Unreleased(ls[i])
  {
    seq(|ls|, i requires 0 <= i < |ls| => Unreleased(ls[i]))
  }

  function AllOverheard(ls: seq<Line>): (r: seq<Line>)
    ensures |r| == |ls|
    ensures forall i :: 0 <= i < |ls| ==> r[i] == Overheard(ls[i])
  {
    seq(|ls|, i requires 0 <= i < |ls| => Overheard(ls[i]))
  }

  predicate Contains(s: string, part: string) {
    part <= s || (s != [] && Contains(s[1..], part))
  }

  /** Is the part somewhere in the text? */
  ghost predicate Occurs(part: string, s: string) {
    exists i :: 0 <= i <= |s| && part <= s[i..]
  }

  lemma {:induction false} ContainsIsOccurs(s: string, part: string)
    ensures Contains(s, part) <==> Occurs(part, s)
    decreases |s|
  {
    assert s[0..] == s;
    if s != [] {
      ContainsIsOccurs(s[1..], part);
      if Occurs(part, s[1..]) {
        var i :| 0 <= i <= |s[1..]| && part <= s[1..][i..];
        assert s[1..][i..] == s[i + 1..];
      }
      if Occurs(part, s) {
        var i :| 0 <= i <= |s| && part <= s[i..];
        if i > 0 { assert s[1..][i - 1..] == s[i..]; }
      }
    }
  }

  function Argument(s: string): string {
    Strip(PYTHON, AfterFirst(PYTHON, s))
  }

  // ---- the interpreter's reading ----------------------------------------

  /** Names that `doEvent` replaces with values of the running session. */
  predicate NamesSession(s: string) {
    Contains(s, "[사용자이름]") || Contains(s, "$변수:")
  }

  /** Placeholders that make `doEvent` compute a substitution for a text line. */
  predicate HasPlaceholder(s: string) {
    Contains(s, "[배울무공이름갯수]") || Contains(s, "[아이템사용횟수]") || Contains(s, "[변수]")
  }

  /** The commands described by this model, and how a command word may fail to be one. */
  datatype Keyword =
    | PauseKey | StopKey | EventUnsetKey | EventSetKey | TendencyKey | HasItemKey | LacksItemKey
    | SetEventKey | DelEventKey | DeleteItemKey | GiveItemKey | MoveKey | OutputKey
    | SwitchKey | HermitKey | TypedWordKey | ReleaseKey | OtherKey | NoKey

  /** The other commands `doEvent` reacts to. */
  const OTHER_COMMANDS: set<string> := {
    "$강화확인2000!", "$강화확인4000!", "$기연존재확인", "$기연확인!", "$기연확인",
    "$난이도재진입확인!", "$난이도재진입확인", "$난이도진입기록", "$남자설정", "$내공감소",
    "$레벨상위확인!", "$레벨상위확인", "$몹상태설정", "$몹상태확인!", "$몹상태확인",
    "$무공개수확인", "$무공리스트삭제", "$무공리스트확인!", "$무공리스트확인", "$무공시전",
    "$무공시전2", "$무공전수", "$무공확인!", "$무공확인", "$무공회수", "$별호변경",
    "$비전설정", "$비전수련가능확인!", "$비전수련삭제", "$비전수련설정", "$비전수련설정확인",
    "$비전수련확인", "$비전종류확인!", "$비전종류확인", "$성별확인", "$속성설정", "$속성템주기",
    "$순위갱신", "$순위기록", "$순위확인!", "$순위확인", "$스크립트호출", "$아이템속성확인!",
    "$아이템옵션삭제", "$아이템종류확인", "$아이템착용확인!", "$아이템착용확인",
    "$아이템확장설정", "$아이템확장설정지움", "$아이템확장확인!", "$아이템확장확인",
    "$여자설정", "$올숙자격확인", "$올숙확인!", "$올숙확인", "$우화등선설정", "$은둔칩거설정",
    "$전투강제시작", "$전투시작", "$중급수련", "$착용확인!", "$체력감소",
    "$체력소모", "$특성치변경", "$특성치복사", "$특성치복사고", "$특성치복사저",
    "$특성치설정", "$특성치확인" }

  /** `getStrCnt`: one or two words after the command; more words make it a random pick, and
      a count may raise an exception. */
  function CountedItem(s: string): Option<(string, int)> {
    var toks := Words(PYTHON, s);
    if |toks| == 2 then Some((toks[1], 1))
    else if |toks| == 3 && GetInt(toks[2]).Some? then Some((toks[1], GetInt(toks[2]).value))
    else None
  }

  /** `doEvent` compares the first word as a whole. */
  function InterpreterKey(f: string): (key: Keyword)
    ensures !key.StopKey?
    ensures key.PauseKey? <==> f == "$엔터$"
  {
    if f == "$엔터$" then PauseKey
    else if f == "$이벤트확인!" then EventUnsetKey
    else if f == "$이벤트확인" then EventSetKey
    else if f == "$무림별호조건" then TendencyKey
    else if f == "$아이템확인" then HasItemKey
    else if f == "$아이템확인!" then LacksItemKey
    else if f == "$이벤트설정" then SetEventKey
    else if f == "$이벤트삭제" then DelEventKey
    else if f == "$아이템삭제" then DeleteItemKey
    else if f == "$아이템주기" then GiveItemKey
    else if f == "$위치이동" then MoveKey
    else if f == "$출력" then OutputKey
    else if f == "$정사전환" then SwitchKey
    else if f == "$소오강호설정" then HermitKey
    else if f == "$변수확인" then TypedWordKey
    else if f == "$입력대기출력끝$" then ReleaseKey
    else if f in OTHER_COMMANDS then OtherKey
    else NoKey
  }

  function ReadCommand(s: string): Line {
    ReadAs(InterpreterKey(Lead(PYTHON, s)), s)
  }

  /** The branch of `doEvent` for one command. */
  function ReadAs(key: Keyword, s: string): Line {
    var arg := Argument(s);
    var toks := |Words(PYTHON, s)|;
    if key.NoKey? then Inert
    else if key.ReleaseKey? then Do(Release)
    else if NamesSession(s) then Foreign(s)
    else
      match key
      case PauseKey => Pause(arg)
      case EventUnsetKey => if arg == "" then Inert else When(EventSet(arg), false)
      case EventSetKey => When(EventSet(arg), true)
      case TendencyKey => When(Tendency(arg), true)
      case HasItemKey => if 2 <= toks <= 3 then When(HasItem(arg), true) else Foreign(s)
      case LacksItemKey => if 2 <= toks <= 3 then When(HasItem(arg), false) else Foreign(s)
      case SetEventKey => if arg == "" then Inert else Do(SetEvent(arg, "1"))
      case DelEventKey => if arg == "" then Inert else Do(DelEvent(arg))
      case DeleteItemKey =>
        (match CountedItem(s)
         case Some((index, count)) => Do(DeleteItem(index, count))
         case None => Foreign(s))
      case GiveItemKey =>
        (match CountedItem(s)
         case Some((index, count)) => Do(GiveItem(index, count))
         case None => Foreign(s))
      case MoveKey => if arg == "" then Inert else Do(Move(arg))
      case OutputKey => Do(Announce(arg))
      case SwitchKey => Do(SwitchTendency)
      case HermitKey => Do(MakeHermit)
      case TypedWordKey =>
        if toks >= 3 && GetInt(Words(PYTHON, s)[1]).Some? then
          When(TypedArgument(GetInt(Words(PYTHON, s)[1]).value, Words(PYTHON, s)[2]), true)
        else Foreign(s)
      case _ => Foreign(s)
  }

  /** One line as `doEvent` takes it. */
  function ReadByInterpreter(line: string): Line {
    var s := Strip(PYTHON, line);
    if s == "" then Blank
    else if "$종료" <= s then Stop
    else if s[0] == '$' then ReadCommand(s)
    else if s[0] == '{' then Open
    else if s[0] == '}' then Close
    else if HasPlaceholder(line) then Foreign(line)
    else Do(Output(line))
  }

  /** A command into which a name of the session is put is not described, but for the marker;
      neither is a text with a placeholder. */
  lemma FilledIn(line: string)
    ensures var s := Strip(PYTHON, line);
      s != "" && !("$종료" <= s) ==>
        && (s[0] == '$' && (Occurs("[사용자이름]", s) || Occurs("$변수:", s)) ==>
              var l := ReadByInterpreter(line); l == Foreign(s) || l == Inert || l == Do(Release))
        && (s[0] !in {'$', '{', '}'} ==>
              if Occurs("[배울무공이름갯수]", line) || Occurs("[아이템사용횟수]", line) || Occurs("[변수]", line)
              then ReadByInterpreter(line) == Foreign(line) else ReadByInterpreter(line) == Do(Output(line)))
  {
    var s := Strip(PYTHON, line);
    ContainsIsOccurs(s, "[사용자이름]");
    ContainsIsOccurs(s, "$변수:");
    ContainsIsOccurs(line, "[배울무공이름갯수]");
    ContainsIsOccurs(line, "[아이템사용횟수]");
    ContainsIsOccurs(line, "[변수]");
    hide Contains;
    hide Occurs;
    hide Strip;
    hide Words;
    hide Argument;
    hide InterpreterKey;
  }

  /** The other commands, and they alone, are known and not described. */
  lemma OtherCommands(f: string, s: string)
    ensures f in OTHER_COMMANDS ==> !InterpreterKey(f).NoKey?
    ensures InterpreterKey(f).OtherKey? ==> f in OTHER_COMMANDS && ReadAs(InterpreterKey(f), s) == Foreign(s)
  {
    hide OTHER_COMMANDS;
    hide Contains;
    hide Words;
    hide Argument;
  }

  // ---- the migration's reading -------------------------------------------

  /** `esc` keeps every character but line breaks, which become blanks. */
  function OneLine(s: string): (r: string)
    ensures |r| == |s|
    ensures forall i :: 0 <= i < |s| ==> r[i] == if s[i] == '\n' then ' ' else s[i]
    ensures r == s <==> '\n' !in s
  {
    if s == [] then []
    else [if s[0] == '\n' then ' ' else s[0]] + OneLine(s[1..])
  }

  /** `get_str_cnt`. */
  function CountedItemInt(s: string): (string, int) {
    var toks := Words(PYTHON, s);
    if |toks| < 2 then ("", 1)
    else if |toks| == 2 then (toks[1], 1)
    else match ParseInt(toks[|toks| - 1])
      case Some(n) => (toks[1], n)
      case None => (toks[1], 1)
  }

  /** The migration tests prefixes of the line, in this order. */
  function MigrationKey(s: string): (key: Keyword)
    ensures !key.LacksItemKey? && !key.ReleaseKey? && !key.OtherKey?
    ensures key.PauseKey? <==> "$엔터$" <= s
  {
    if "$엔터$" <= s then PauseKey
    else if "$종료" <= s then StopKey
    else if "$출력" <= s then OutputKey
    else if "$이벤트설정" <= s then SetEventKey
    else if "$이벤트삭제" <= s then DelEventKey
    else if "$아이템삭제" <= s then DeleteItemKey
    else if "$아이템주기" <= s then GiveItemKey
    else if "$위치이동" <= s then MoveKey
    else if "$정사전환" <= s then SwitchKey
    else if "$소오강호설정" <= s then HermitKey
    else if "$이벤트확인!" <= s then EventUnsetKey
    else if "$이벤트확인" <= s then EventSetKey
    else if "$무림별호조건" <= s then TendencyKey
    else if "$아이템확인" <= s then HasItemKey
    else if "$변수확인" <= s then TypedWordKey
    else NoKey
  }

  function ConvertCommand(s: string): Line {
    ConvertAs(MigrationKey(s), s)
  }

  /** The branch of `convert_lines` for one command. */
  function ConvertAs(key: Keyword, s: string): Line {
    var arg := Argument(s);
    var toks := Words(PYTHON, s);
    match key
    case PauseKey => Pause(OneLine(PausePrompt(s)))
    case StopKey => Stop
    case OutputKey => Do(Output(OneLine(arg)))
    case SetEventKey =>
      var v := Words(PYTHON, arg);
      if |v| >= 2 then Do(SetEvent(v[0], v[1]))
      else if |v| == 1 then Do(SetEvent(v[0], "1"))
      else Inert
    case DelEventKey => if arg != "" then Do(DelEvent(OneLine(arg))) else Inert
    case DeleteItemKey =>
      var (index, count) := CountedItemInt(s);
      if index != "" then Do(DeleteItem(index, count)) else Inert
    case GiveItemKey =>
      var (index, count) := CountedItemInt(s);
      if index != "" then Do(GiveItem(index, count)) else Inert
    case MoveKey => if ':' in arg then Leave(OneLine(arg)) else Inert
    case SwitchKey => Do(SwitchTendency)
    case HermitKey => Do(MakeHermit)
    case EventUnsetKey => if arg != "" then When(EventSet(OneLine(arg)), false) else Inert
    case EventSetKey => if arg != "" then When(EventSet(OneLine(arg)), true) else Inert
    case TendencyKey => if arg != "" then When(Tendency(OneLine(arg)), true) else Inert
    case HasItemKey => if arg != "" then When(HasItem(OneLine(arg)), true) else Inert
    case TypedWordKey =>
      if |toks| >= 3 && ParseInt(toks[1]).Some? then
        When(TypedWord(ParseInt(toks[1]).value + 1, toks[2]), true)
      else Inert
    case _ => Inert
  }

  /** What follows the four characters of the pause command. */
  function PausePrompt(s: string): string {
    var rest := if |s| < 4 then "" else Strip(PYTHON, s[4..]);
    if rest != "" then rest else Argument(s)
  }

  /** One line as `split_by_enter` and then `convert_lines` take it. */
  function ReadByMigration(line: string): Line {
    var s := Strip(PYTHON, line);
    if s == "" then Blank
    else if s == "{" then Open
    else if s == "}" then Close
    else if s[0] == '$' then ConvertCommand(s)
    else Do(Output(OneLine(s)))
  }

  function InterpreterLines(script: seq<string>): (ls: seq<Line>)
    ensures |ls| == |script|
    ensures forall i :: 0 <= i < |script| ==> ls[i] == ReadByInterpreter(script[i])
  {
    seq(|script|, i requires 0 <= i < |script| => ReadByInterpreter(script[i]))
  }

  function MigrationLines(script: seq<string>): (ls: seq<Line>)
    ensures |ls| == |script|
    ensures forall i :: 0 <= i < |script| ==> ls[i] == ReadByMigration(script[i])
  {
    seq(|script|, i requires 0 <= i < |script| => ReadByMigration(script[i]))
  }
}

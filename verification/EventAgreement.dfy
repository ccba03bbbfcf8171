/** Which lines the interpreter and the migration read alike. */
module EventAgreement {
  import opened Text
  import opened Numbers
  import opened EventLines

  /** A counted item names no count, or one on which `getInt` and `int` agree. */
  predicate PlainCount(s: string) {
    var toks := Words(PYTHON, s);
    || |toks| == 2
    || (|toks| == 3 && (ParseInt(toks[2]).Some? || GetInt(toks[2]) == Some(1)))
  }

  /** The migration emits nothing for a line whose first word `doEvent` does not know. */
  predicate Overlooked(key: Keyword, s: string) {
    var arg := Argument(s);
    var toks := Words(PYTHON, s);
    match key
    case PauseKey => false
    case StopKey => false
    case OutputKey => false
    case SwitchKey => false
    case HermitKey => false
    case DeleteItemKey => |toks| < 2
    case GiveItemKey => |toks| < 2
    case MoveKey => ':' !in arg
    case TypedWordKey => |toks| < 3 || ParseInt(toks[1]).None?
    case NoKey => true
    case _ => arg == ""
  }

  /** A command line both sides understand: the exact word, the arguments it needs, and
      nothing the session would have to fill in. */
  predicate AgreedCommand(s: string) {
    AgreedAs(InterpreterKey(Lead(PYTHON, s)), MigrationKey(s), s)
  }

  /** `key` is the interpreter's keyword, `migrated` the migration's. */
  predicate AgreedAs(key: Keyword, migrated: Keyword, s: string) {
    var arg := Argument(s);
    var toks := Words(PYTHON, s);
    var oneLine := '\n' !in arg;
    if key.NoKey? then Overlooked(migrated, s)
    else
      && !NamesSession(s)
      && match key
         case PauseKey => oneLine
         case DelEventKey => oneLine
         case EventUnsetKey => oneLine
         case EventSetKey => arg != "" && oneLine
         case TendencyKey => arg != "" && oneLine
         case HasItemKey => 2 <= |toks| <= 3 && oneLine
         case SetEventKey => |toks| <= 2
         case DeleteItemKey => PlainCount(s)
         case GiveItemKey => PlainCount(s)
         case MoveKey => arg == ""
         case SwitchKey => true
         case HermitKey => true
         case _ => false
  }

  predicate AgreedLine(line: string) {
    var s := Strip(PYTHON, line);
    if s == "" || "$종료" <= s then true
    else if s[0] == '$' then AgreedCommand(s)
    else if s[0] == '{' || s[0] == '}' then |s| == 1
    else line == s && '\n' !in s && !HasPlaceholder(line)
  }

  /** A command line is its first word and its argument. */
  lemma CommandShape(s: string)
    requires s != "" && s[0] !in PYTHON
    ensures Words(PYTHON, s) == [Lead(PYTHON, s)] + Words(PYTHON, Argument(s))
    ensures Argument(s) == "" <==> Words(PYTHON, Argument(s)) == []
    ensures |Words(PYTHON, Argument(s))| == 1 ==> Argument(s) == Words(PYTHON, Argument(s))[0]
  {
    var f := Lead(PYTHON, s);
    var rest := LeadSplits(PYTHON, s);
    WordsLead(PYTHON, f, rest);
    WordsOfStrip(PYTHON, TrimStart(PYTHON, rest));
    var blanks := TrimStartSplits(PYTHON, rest);
    WordsSkipBlank(PYTHON, blanks, TrimStart(PYTHON, rest));
    StrippedWord(PYTHON, AfterFirst(PYTHON, s));
  }

  lemma StrippedWord(d: Separators, t: string)
    ensures Strip(d, t) == "" <==> Words(d, Strip(d, t)) == []
    ensures |Words(d, Strip(d, t))| == 1 ==> Strip(d, t) == Words(d, Strip(d, t))[0]
  {
    var s := Strip(d, t);
    StripEnds(d, t);
    if s != "" {
      var f := Lead(d, s);
      var rest := LeadSplits(d, s);
      WordsLead(d, f, rest);
      if rest != [] {
        assert s[|s| - 1] == rest[|rest| - 1];
        if Words(d, rest) == [] { NoWordsIsBlank(d, rest); }
      }
    }
  }

  lemma StripEnds(d: Separators, t: string)
    ensures var s := Strip(d, t); s != "" ==> s[0] !in d && s[|s| - 1] !in d
  {
    var u := TrimStart(d, t);
    var blanks := TrimEndSplits(d, u);
    assert TrimEnd(d, u) != [] ==> TrimEnd(d, u)[0] == u[0];
  }

  /** The characters that tell the migration's keywords apart. */
  lemma Marks(s: string)
    ensures "$엔터$" <= s ==> s[1] == '엔'
    ensures "$출력" <= s ==> s[1] == '출'
    ensures "$위치이동" <= s ==> s[1] == '위'
    ensures "$정사전환" <= s ==> s[1] == '정'
    ensures "$소오강호설정" <= s ==> s[1] == '소'
    ensures "$무림별호조건" <= s ==> s[1] == '무'
    ensures "$변수확인" <= s ==> s[1] == '변'
    ensures "$이벤트설정" <= s ==> s[1] == '이' && s[4] == '설'
    ensures "$이벤트삭제" <= s ==> s[1] == '이' && s[4] == '삭'
    ensures "$이벤트확인" <= s ==> s[1] == '이' && s[4] == '확'
    ensures "$이벤트확인!" <= s ==> s[1] == '이' && s[4] == '확' && s[6] == '!'
    ensures "$아이템삭제" <= s ==> s[1] == '아' && s[4] == '삭'
    ensures "$아이템주기" <= s ==> s[1] == '아' && s[4] == '주'
    ensures "$아이템확인" <= s ==> s[1] == '아' && s[4] == '확'
  {
  }

  /** On a word `doEvent` knows, the prefix tests find the same keyword, except that the
      negated item test is taken for the plain one. */
  ghost predicate SameKey(s: string) {
    MigrationKey(s) == if InterpreterKey(Lead(PYTHON, s)).LacksItemKey? then HasItemKey
                       else InterpreterKey(Lead(PYTHON, s))
  }

  lemma NotSeparators()
    ensures '!' !in PYTHON && '$' !in PYTHON && '{' !in PYTHON && '}' !in PYTHON
  {
  }

  /** Each keyword comes from one word. */
  lemma KeyWords(f: string)
    ensures var key := InterpreterKey(f);
      && (key.PauseKey? ==> f == "$엔터$") && (key.TendencyKey? ==> f == "$무림별호조건")
      && (key.MoveKey? ==> f == "$위치이동") && (key.OutputKey? ==> f == "$출력")
      && (key.SwitchKey? ==> f == "$정사전환") && (key.HermitKey? ==> f == "$소오강호설정")
      && (key.TypedWordKey? ==> f == "$변수확인") && (key.ReleaseKey? ==> f == "$입력대기출력끝$")
      && (key.EventUnsetKey? ==> f == "$이벤트확인!") && (key.EventSetKey? ==> f == "$이벤트확인")
      && (key.SetEventKey? ==> f == "$이벤트설정") && (key.DelEventKey? ==> f == "$이벤트삭제")
      && (key.HasItemKey? ==> f == "$아이템확인") && (key.LacksItemKey? ==> f == "$아이템확인!")
      && (key.DeleteItemKey? ==> f == "$아이템삭제") && (key.GiveItemKey? ==> f == "$아이템주기")
  {
  }

  /** The words whose second character alone tells them apart. */
  lemma ShortKeyFound(s: string)
    requires var key := InterpreterKey(Lead(PYTHON, s));
      key.PauseKey? || key.TendencyKey? || key.MoveKey? || key.OutputKey? || key.SwitchKey? || key.HermitKey?
      || key.TypedWordKey?
    ensures SameKey(s)
  {
    hide PYTHON;
    hide Lead;
    hide InterpreterKey;
    KeyWords(Lead(PYTHON, s));
    var rest := LeadSplits(PYTHON, s);
    Marks(s);
  }

  lemma EventKeyFound(s: string)
    requires var key := InterpreterKey(Lead(PYTHON, s));
      key.EventUnsetKey? || key.EventSetKey? || key.SetEventKey? || key.DelEventKey?
    ensures SameKey(s)
  {
    NotSeparators();
    hide PYTHON;
    hide Lead;
    hide InterpreterKey;
    KeyWords(Lead(PYTHON, s));
    var rest := LeadSplits(PYTHON, s);
    Marks(s);
    assert s[|Lead(PYTHON, s)|..] == rest;
  }

  lemma ItemKeyFound(s: string)
    requires var key := InterpreterKey(Lead(PYTHON, s));
      key.HasItemKey? || key.LacksItemKey? || key.DeleteItemKey? || key.GiveItemKey?
    ensures SameKey(s)
  {
    hide PYTHON;
    hide Lead;
    hide InterpreterKey;
    KeyWords(Lead(PYTHON, s));
    var rest := LeadSplits(PYTHON, s);
    Marks(s);
  }

  lemma KeyFound(s: string)
    requires var key := InterpreterKey(Lead(PYTHON, s)); !key.NoKey? && !key.ReleaseKey? && !key.OtherKey?
    ensures SameKey(s)
  {
    hide SameKey;
    match InterpreterKey(Lead(PYTHON, s))
    case EventUnsetKey => EventKeyFound(s);
    case EventSetKey => EventKeyFound(s);
    case SetEventKey => EventKeyFound(s);
    case DelEventKey => EventKeyFound(s);
    case HasItemKey => ItemKeyFound(s);
    case LacksItemKey => ItemKeyFound(s);
    case DeleteItemKey => ItemKeyFound(s);
    case GiveItemKey => ItemKeyFound(s);
    case _ => ShortKeyFound(s);
  }

  /** The migration has no keyword for the line that hands the input back. */
  lemma ReleaseIsDropped(s: string)
    requires InterpreterKey(Lead(PYTHON, s)).ReleaseKey?
    ensures MigrationKey(s) == NoKey && ConvertCommand(s) == Inert && ReadCommand(s) == Do(Release)
    ensures s[0] == '$' && !("$종료" <= s)
  {
    hide PYTHON;
    hide Lead;
    hide InterpreterKey;
    hide Words;
    hide Argument;
    hide Contains;
    KeyWords(Lead(PYTHON, s));
    var rest := LeadSplits(PYTHON, s);
    assert s[0] == '$' && s[1] == '입';
    ReleaseIsUnknown(s);
    hide MigrationKey;
    hide InterpreterKey;
  }

  lemma ReleaseIsUnknown(s: string)
    requires |s| > 1 && s[1] == '입'
    ensures MigrationKey(s) == NoKey && !("$종료" <= s)
  {
    Marks(s);
    assert "$종료"[1] == '종';
  }

  /** The negated item test is read as it stands by the interpreter, and as the plain one by
      the migration. */
  lemma NegationIsLost(s: string)
    requires Lead(PYTHON, s) == "$아이템확인!" && !NamesSession(s)
    ensures ReadCommand(s) == if |Words(PYTHON, s)| == 2 || |Words(PYTHON, s)| == 3 then When(HasItem(Argument(s)), false) else Foreign(s)
    ensures ConvertCommand(s) == if Argument(s) == "" then Inert else When(HasItem(OneLine(Argument(s))), true)
  {
    hide *;
    LacksItemIs();
    ItemKeyFound(s);
    SameKeyIs(s);
    LacksItemRead(s);
    HasItemRead(s);
    CommandsBy(s);
  }

  lemma SameKeyIs(s: string)
    requires SameKey(s) && InterpreterKey(Lead(PYTHON, s)).LacksItemKey?
    ensures MigrationKey(s) == HasItemKey
  {
    hide InterpreterKey;
    hide MigrationKey;
  }

  lemma CommandsBy(s: string)
    ensures ReadCommand(s) == ReadAs(InterpreterKey(Lead(PYTHON, s)), s) && ConvertCommand(s) == ConvertAs(MigrationKey(s), s)
  {
    hide ReadAs;
    hide ConvertAs;
  }

  lemma LacksItemRead(s: string)
    requires !NamesSession(s)
    ensures ReadAs(LacksItemKey, s) ==
      if |Words(PYTHON, s)| == 2 || |Words(PYTHON, s)| == 3 then When(HasItem(Argument(s)), false) else Foreign(s)
  {
    hide Words;
    hide Argument;
    hide NamesSession;
  }

  lemma HasItemRead(s: string)
    ensures ConvertAs(HasItemKey, s) == if Argument(s) == "" then Inert else When(HasItem(OneLine(Argument(s))), true)
  {
    hide Words;
    hide Argument;
    hide OneLine;
  }

  lemma LacksItemIs()
    ensures InterpreterKey("$아이템확인!") == LacksItemKey
  {
  }

  lemma PromptFound(s: string)
    requires Lead(PYTHON, s) == "$엔터$" && "$엔터$" <= s
    ensures PausePrompt(s) == Argument(s)
  {
    var rest := LeadSplits(PYTHON, s);
    assert TrimStart(PYTHON, s) == s;
    TrimStartTwice(PYTHON, rest);
  }

  /** The prompt of a pause is what stands behind the word, with blanks in between or not. */
  lemma PromptBehind(line: string, prompt: string)
    requires Strip(PYTHON, line) == "$엔터$" + prompt && prompt != "" && Strip(PYTHON, prompt) != ""
    ensures ReadByMigration(line) == Pause(OneLine(Strip(PYTHON, prompt)))
  {
    hide *;
    var s := "$엔터$" + prompt;
    PauseIs(line, s);
    PromptIs(prompt);
  }

  lemma PauseIs(line: string, s: string)
    requires Strip(PYTHON, line) == s && "$엔터$" <= s
    ensures ReadByMigration(line) == Pause(OneLine(PausePrompt(s)))
  {
    hide Strip;
    hide Words;
    hide Argument;
    hide OneLine;
    hide PausePrompt;
    hide MigrationKey;
    assert s[0] == '$' && |s| >= 4;
  }

  lemma PromptIs(prompt: string)
    requires prompt != "" && Strip(PYTHON, prompt) != ""
    ensures PausePrompt("$엔터$" + prompt) == Strip(PYTHON, prompt) && "$엔터$" <= "$엔터$" + prompt
  {
    var s := "$엔터$" + prompt;
    assert s[4..] == prompt;
    hide Strip;
    hide Argument;
  }

  lemma TrimStartTwice(d: Separators, s: string)
    ensures TrimStart(d, TrimStart(d, s)) == TrimStart(d, s)
  {
  }

  lemma OverlookedIsInert(key: Keyword, s: string)
    requires |Words(PYTHON, s)| == 1 + |Words(PYTHON, Argument(s))|
    requires Argument(s) == "" <==> Words(PYTHON, Argument(s)) == []
    requires !key.LacksItemKey? && !key.ReleaseKey? && !key.OtherKey?
    ensures ConvertAs(key, s) == Inert <==> Overlooked(key, s)
  {
    hide Words;
    hide Argument;
    hide OneLine;
    hide ParseInt;
    hide PausePrompt;
  }

  lemma KeyAgrees(key: Keyword, s: string)
    requires !key.NoKey? && !key.ReleaseKey? && !key.OtherKey? && !key.StopKey?
    requires |Words(PYTHON, s)| == 1 + |Words(PYTHON, Argument(s))|
    requires Argument(s) == "" <==> Words(PYTHON, Argument(s)) == []
    requires |Words(PYTHON, Argument(s))| == 1 ==> Argument(s) == Words(PYTHON, Argument(s))[0]
    requires key.PauseKey? ==> PausePrompt(s) == Argument(s)
    requires !NamesSession(s)
    ensures var migrated := if key.LacksItemKey? then HasItemKey else key;
      ReadAs(key, s) == ConvertAs(migrated, s) <==> AgreedAs(key, migrated, s)
  {
    hide Words;
    hide Argument;
    hide OneLine;
    hide ParseInt;
    hide PausePrompt;
    hide CountedItemInt;
    hide GetInt;
    hide NamesSession;
    match key
    case SetEventKey => SetEventAgrees(s);
    case DeleteItemKey => CountAgrees(s);
    case GiveItemKey => CountAgrees(s);
    case _ =>
  }

  lemma SetEventAgrees(s: string)
    requires |Words(PYTHON, Argument(s))| == 1 ==> Argument(s) == Words(PYTHON, Argument(s))[0]
    requires Argument(s) == "" <==> Words(PYTHON, Argument(s)) == []
    ensures var arg := Argument(s); var v := Words(PYTHON, arg);
      |v| >= 2 ==> arg != v[0]
  {
    var v := Words(PYTHON, Argument(s));
    if |v| >= 2 {
      assert v[0] + [] == v[0];
      WordsLead(PYTHON, v[0], []);
    }
  }

  lemma CountAgrees(s: string)
    requires |Words(PYTHON, s)| >= 1
    ensures CountedItem(s).Some? && CountedItem(s).value == CountedItemInt(s) <==> PlainCount(s)
    ensures CountedItemInt(s).0 == "" <==> |Words(PYTHON, s)| == 1
  {
  }

  /** Both readings of a command line are alike iff it is an agreed one. */
  lemma CommandsAgree(s: string)
    requires s != "" && s[0] == '$' && !("$종료" <= s)
    ensures ReadCommand(s) == ConvertCommand(s) <==> AgreedCommand(s)
  {
    hide ConvertAs;
    hide MigrationKey;
    hide InterpreterKey;
    hide Words;
    hide Argument;
    NotSeparators();
    CommandShape(s);
    var key := InterpreterKey(Lead(PYTHON, s));
    var migrated := MigrationKey(s);
    if key.NoKey? {
      OverlookedIsInert(migrated, s);
    } else if key.ReleaseKey? {
      ReleaseIsDropped(s);
    } else if key.OtherKey? || NamesSession(s) {
      NeverForeign(migrated, s);
    } else {
      KeyFound(s);
      if key.PauseKey? { PromptFound(s); }
      KeyAgrees(key, s);
    }
  }

  lemma NeverForeign(key: Keyword, s: string)
    ensures !ConvertAs(key, s).Foreign?
  {
  }

  /** The exact lines on which the flat interpreter and the migration agree. */
  lemma LinesAgree(line: string)
    ensures ReadByInterpreter(line) == ReadByMigration(line) <==> AgreedLine(line)
  {
    var s := Strip(PYTHON, line);
    if s != "" && s[0] == '$' {
      if "$종료" <= s {
        StopIsRead(line);
      } else {
        CommandIsRead(line);
        CommandsAgree(s);
        hide ReadByInterpreter;
        hide ReadByMigration;
        hide AgreedCommand;
      }
    } else {
      OthersAgree(line);
    }
  }

  lemma StopIsRead(line: string)
    requires "$종료" <= Strip(PYTHON, line)
    ensures ReadByInterpreter(line) == Stop && ReadByMigration(line) == Stop && AgreedLine(line)
  {
    hide Words;
    hide Argument;
    hide Contains;
    hide InterpreterKey;
    hide AgreedAs;
    hide Strip;
    var s := Strip(PYTHON, line);
    assert s[0] == '$' && s[1] == '종';
    Marks(s);
  }

  lemma CommandIsRead(line: string)
    requires var s := Strip(PYTHON, line); s != "" && s[0] == '$' && !("$종료" <= s)
    ensures var s := Strip(PYTHON, line);
      && ReadByInterpreter(line) == ReadCommand(s) && ReadByMigration(line) == ConvertCommand(s)
      && (AgreedLine(line) <==> AgreedCommand(s))
  {
    hide ReadCommand;
    hide ConvertCommand;
    hide AgreedCommand;
    hide Strip;
  }

  lemma OthersAgree(line: string)
    requires var s := Strip(PYTHON, line); s == "" || s[0] != '$'
    ensures ReadByInterpreter(line) == ReadByMigration(line) <==> AgreedLine(line)
  {
    hide ReadCommand;
    hide ConvertCommand;
    hide AgreedCommand;
    hide HasPlaceholder;
    hide OneLine;
    hide Strip;
    var s := Strip(PYTHON, line);
    if s != "" {
      assert "$종료"[0] == '$';
      OneChar(s);
      StripKeepsAll(line);
      assert OneLine(s) == s <==> '\n' !in s;
      assert line == OneLine(s) ==> line == s;
    }
  }

  lemma StripKeepsAll(line: string)
    ensures |Strip(PYTHON, line)| == |line| ==> Strip(PYTHON, line) == line
  {
    hide PYTHON;
    var blanks := TrimStartSplits(PYTHON, line);
    var back := TrimEndSplits(PYTHON, TrimStart(PYTHON, line));
  }

  lemma OneChar(s: string)
    ensures s == "{" <==> |s| == 1 && s[0] == '{'
    ensures s == "}" <==> |s| == 1 && s[0] == '}'
  {
  }

  // ---- the line that hands the input back ----------------------------------------------

  /** The marker behind the last key press: the interpreter lets the player type commands
      again, and the migration passes over it. */
  predicate ReleaseLine(line: string) {
    var s := Strip(PYTHON, line);
    s != "" && InterpreterKey(Lead(PYTHON, s)).ReleaseKey?
  }

  lemma ReleaseLineIs(line: string)
    ensures ReadByInterpreter(line) == Do(Release) <==> ReleaseLine(line)
    ensures ReleaseLine(line) ==> ReadByMigration(line) == Inert
  {
    var s := Strip(PYTHON, line);
    hide PYTHON;
    hide Strip;
    hide Lead;
    hide InterpreterKey;
    hide MigrationKey;
    hide ReadAs;
    hide Contains;
    if s != "" {
      ReleasedAs(InterpreterKey(Lead(PYTHON, s)), s);
      if ReleaseLine(line) { ReleaseIsDropped(s); }
    }
  }

  lemma ReleasedAs(key: Keyword, s: string)
    ensures ReadAs(key, s) == Do(Release) <==> key.ReleaseKey?
  {
    hide Words;
    hide Argument;
  }

  /** Apart from that marker, the exact lines on which the two sides agree. */
  lemma LinesAgreeButRelease(line: string)
    ensures Unreleased(ReadByInterpreter(line)) == ReadByMigration(line) <==> AgreedLine(line) || ReleaseLine(line)
  {
    hide ReadByInterpreter;
    hide ReadByMigration;
    hide AgreedLine;
    hide ReleaseLine;
    ReleaseLineIs(line);
    LinesAgree(line);
  }

  // ---- for the player alone ---------------------------------------------------------

  /** An agreed line, the marker, or a plain announcement: the migration shows it to the
      player only. */
  predicate SeenLine(line: string) {
    var s := Strip(PYTHON, line);
    if s != "" && s[0] == '$' && !("$종료" <= s) && InterpreterKey(Lead(PYTHON, s)).OutputKey?
    then !NamesSession(s) && '\n' !in Argument(s)
    else AgreedLine(line) || ReleaseLine(line)
  }

  lemma NeverAnnounced(line: string)
    ensures var s := Strip(PYTHON, line); var l := ReadByInterpreter(line);
      l.Do? && l.action.Announce? ==>
        s != "" && s[0] == '$' && !("$종료" <= s) && InterpreterKey(Lead(PYTHON, s)).OutputKey?
  {
    hide PYTHON;
    hide Strip;
    hide Lead;
    hide InterpreterKey;
    hide ReadAs;
    hide Contains;
    var s := Strip(PYTHON, line);
    if s != "" { AnnouncedAs(InterpreterKey(Lead(PYTHON, s)), s); }
  }

  lemma AnnouncedAs(key: Keyword, s: string)
    ensures var l := ReadAs(key, s); l.Do? && l.action.Announce? ==> key.OutputKey?
    ensures key.OutputKey? ==> ReadAs(key, s) == if NamesSession(s) then Foreign(s) else Do(Announce(Argument(s)))
  {
    hide Words;
    hide Argument;
  }

  /** Where only the player counts, the exact lines on which the two sides agree. */
  lemma LinesAgreeForPlayer(line: string)
    ensures Unreleased(Overheard(ReadByInterpreter(line))) == ReadByMigration(line) <==> SeenLine(line)
  {
    var s := Strip(PYTHON, line);
    hide Words;
    hide Argument;
    hide NamesSession;
    hide AgreedLine;
    hide ReleaseLine;
    NeverAnnounced(line);
    if s != "" && s[0] == '$' && !("$종료" <= s) && InterpreterKey(Lead(PYTHON, s)).OutputKey? {
      Marks(s);
      KeyFound(s);
      AnnouncedAs(OutputKey, s);
      NotOtherwiseRead(line, s);
    } else {
      LinesAgreeButRelease(line);
    }
  }

  lemma NotOtherwiseRead(line: string, s: string)
    requires s == Strip(PYTHON, line) && s != "" && s[0] == '$' && !("$종료" <= s)
    requires InterpreterKey(Lead(PYTHON, s)).OutputKey? && MigrationKey(s).OutputKey?
    ensures ReadByInterpreter(line) == ReadAs(OutputKey, s)
    ensures ReadByMigration(line) == Do(Output(OneLine(Argument(s))))
  {
    hide Words;
    hide Argument;
    hide Strip;
    hide Lead;
    hide InterpreterKey;
    hide MigrationKey;
    hide ReadAs;
    hide Contains;
    assert s[0] != '{' && s != "{" && s != "}";
    OutputReadings(s);
  }

  lemma OutputReadings(s: string)
    ensures ConvertAs(OutputKey, s) == Do(Output(OneLine(Argument(s))))
  {
    hide Argument;
    hide OneLine;
  }
}

# The engine's hard parts, modelled and proved

The repository is a text-based game server written in Python that is being moved to Rust with
scripts in Rhai. This project models the parts of it that carry real obligations and proves
them in Dafny 4.11. `dafny verify dfyconfig.toml` checks everything.

| file | what it models |
|---|---|
| EventLines, EventPrograms | one line of an event script as the flat interpreter and as the migration read it; the two meanings of a script |
| EventMigration, EventAgreement, EventSessions | the migration keeps the meaning of every script in the supported fragment, over whole sessions with pauses |
| EventInputs | which scripts give the player's input back after a key press |
| EventLimits | which lines and blocks outside the fragment change meaning, and a plain shape that lies inside |
| EventMachines | the loops of the interpreter and of the migration, proved against these meanings |
| CombatPoints | action points, multi-turn skills and the blows that take what is left |
| AreaMap | the flood fill that draws the neighbourhood of a room |
| Targets | who fights whom, on values and on bodies updated in place |
| Equipment | three ways of wearing, four of losing, and the sums all of them keep |
| BoxDeposits | boxes that grow with the silver put in |
| Ranking | rank tables |
| Dictionary, OneItems | the registry of unique items, a hash map with an order vector |
| Training | the transfer of training to a finished weapon |
| Schedules | the two round robins of the main loop |
| Crafting | medicine from ingredients, all or nothing |
| Records, Aliases | dictionaries kept as lines of text, and the shorthand command |
| Expansions | what a shorthand does when it is typed, and when that comes to an end |
| Commands | input lines: escape sequences, the last word as command, speech |
| Text, Numbers | Python's and Rust's ways of cutting strings, Python's way of printing and reading numbers |

Code that updates state in place is a class or a method with loops, proved against a function;
the theorems are lemmas about those functions. Conditions, actions and undescribed commands of
event scripts act on an arbitrary world, so that the migration theorem holds for every meaning
they could have. Files are the values written and read. Random choices, clocks and messages are
parameters or left out.

Where the code differs from what its comments and guards suggest, the model follows the code:

* The migration's comment asks for a brace after a condition. Lines in between are run by the
  interpreter and dropped by the migration (EventLimits.LostLineMatters). A pause inside a block,
  or before its brace, makes the generated function wait where the interpreter skips
  (EventLimits.CutBlockMatters). A condition in a block without a block of its own makes the
  interpreter skip what the generated function does (EventLimits.BareConditionMatters).
* These are the three clauses of the structural condition SoundSteps. It is only sufficient where
  its fault lies in a piece that a `$종료` before it keeps from being reached, where the second of
  two chained conditions repeats the first, where an undescribed line between a condition and its
  brace has no effect, and where nothing is left to do behind the skipped end of a block.
* The migration adds one to the number of the word in the typed-word test
  (EventLimits.TypedReadings, EventLimits.ShiftedWordMatters), takes the negated item test for
  the plain one, drops unknown conditions but keeps their block, ends the script at a move, and
  trims text lines. These and the other lines outside the fragment are not agreed lines
  (EventAgreement.LinesAgree, EventLimits.AgreedIffFaithful).
* A key press on a pause leaves the player with an input that nobody reads (`pressEnter2`), until
  the script passes `$입력대기출력끝$`. The migration drops this marker, and the generated program
  gives the input back when it ends. The sessions are the same where each piece behind the first
  pause passes the marker (EventInputs.InputComesBack), and differ where none stands behind the
  first pause (EventInputs.InputGetsLost); the exact condition on a session is part of
  EventSessions.MigrationPreservesMeaning.
* `$출력` is heard by the whole room; the migration turns it into an output to the player. It is
  not an agreed line, and nothing but its audience is lost (EventSessions.OnlyTheAudienceIsLost).
* A skill whose turns are not numbered 1 to n loses lines, since the number of turns is the
  number of different ones (CombatPoints.CastIsCompleteIffContiguous, CombatPoints.GapLosesLine).
* A fight that is started again without the mode puts an opponent on the list twice
  (Targets.SetFightIsFairIff).
* Putting on one item does not ask for a thousand points of mastery, putting on all does; the
  sums are right either way.
* Writing -1 into a rank table puts the name first, as a value of zero, in front of better ones
  (Ranking.PushKeepsOrderIff). After a reload the entries are lists, which Python does not order
  against the tuples a write adds: the write fails, and the limit of 200 can then be passed
  (Ranking.WritableIff, Ranking.ReloadBlocks, Ranking.LeftIsDistinct).
* A dropped item of an owner with a name of several words is not forgotten at the next start
  (OneItems.DroppedIsForgottenIff).
* Four untrained weapon kinds still count for 140 points of credit (Training.NothingStillCounts).
* Item options and skills with names of several words, and shorthands with blank texts, do not
  survive a save (Records.OptionsSurviveIff, Records.SkillsSurviveIff, Aliases.AliasesSurviveIff).
* The guard against nested shorthands compares whole pieces, while typing looks up the last word
  of a piece. Chains of whole pieces end (Aliases.ChainsEnd), but `a x;말 a` passes the guard and
  then reads itself again and again (Expansions.GuardedLineLoops): without end from rank 2000 on,
  up to the warning about too many lines below (Expansions.LimitEnds, Expansions.WarnedIff).
  Without the limit expansion ends exactly where no path of calls comes back
  (Expansions.ExpansionEndsIff); bare calls never do (Expansions.BareCallsNeverLoop).
* The Rust parser does not take a space at the end of a line for speech, as the Python one does,
  and takes `!` for speech where Python repeats the last line (Commands.ReadAlikeIff).

## Model

| member | source | states |
|---|---|---|
| EventSessions.MigrationPreservesMeaning | scripts/migrate_mob_events_rhai.py:42-330 | for every migratable script, every world, every meaning of conditions, actions and undescribed lines, and every change of the world while the script waits, the whole session of the flat interpreter and that of the generated functions show the same acts and leave the same worlds, segment by segment; and a segment leaves the input to the same taker on both sides if and only if it is the first, or waits, or passed the marker that hands the input back |
| EventSessions.SessionsAgree | objs/player.py:1728-1731 | the same from any generated function on and with any input before: a key press takes the input away and resumes the interpreter behind its saved line, and the generated program in the function named by its wait, and the two stay in step |
| EventSessions.StepMeansSegment | objs/event.py:38-84 | each generated function does what the interpreter does from the matching line: same acts apart from handing the input back, same world, same end, or a pause with the same prompt whose saved line is the start of the function to call next |
| EventSessions.RunFolds | objs/event.py:63-94 | where every line is described, a run leaves exactly the world to which the acts it shows lead, each done once and in their order, from any line, brace count and skipping |
| EventSessions.ExecFolds | scripts/migrate_mob_events_rhai.py:73-260 | and so does every structured program |
| EventSessions.SessionFolds | objs/event.py:30-94 | every segment of an interpreter session leads by the acts it shows from the world it starts in, which is the one before changed while the script waited, to the world it leaves |
| EventSessions.StepSessionFolds | scripts/migrate_mob_events_rhai.py:291-338 | the same for every segment of a generated session |
| EventInputs.InputComesBack | objs/event.py:82-84 | if every piece behind the first pause has a marker outside all blocks with no stop before it, or waits and has no stop before its pause, the two sessions leave the input to the same taker throughout, in every world |
| EventInputs.InputGetsLost | objs/player.py:1728-1731 | if no marker stands behind the first pause, every session that goes on after a key press to the end of the script leaves the player with an input that nobody reads, where the generated session reads commands again |
| EventInputs.MarkerIsPassed | objs/event.py:82-84 | a marker behind lines that are sound, closed and without a stop is passed in every world, however the conditions before it come out |
| EventSessions.OnlyTheAudienceIsLost | objs/event.py:249-250 | with announcements to the room allowed as well, which the migration turns into outputs to the player: the whole generated session is what the interpreter gives a player who is alone in the room, for every world and every change while the script waits |
| EventMigration.RunIsExec | scripts/migrate_mob_events_rhai.py:73-260 | on a sound piece of script followed by anything, the flat machine does what the structured program of the piece does and then goes on, or stops if the program halted; nesting is arbitrary and stops may stand in taken and untaken blocks |
| EventMigration.SkipTakesTheBlock | objs/event.py:50-61 | after a failed condition the interpreter skips exactly the lines that the migration takes into the block, for every line list, with stray or missing braces: it goes on behind the closing brace, or nothing is left |
| EventMigration.SplitCovers | scripts/migrate_mob_events_rhai.py:131-152 | the lines after a condition are the lost ones, the brace, the block, the closing brace and the rest, in this order; without a closing brace nothing is left; block and rest together are no longer than the lines |
| EventMigration.RunTaken | objs/event.py:85-90 | a block whose condition holds runs in place: the lines before it and its braces are passed without effect |
| EventAgreement.LinesAgree | scripts/migrate_mob_events_rhai.py:37-126 | the interpreter and the migration read a line alike if and only if the line is an agreed one: the supported fragment, line by line |
| EventAgreement.CommandsAgree | scripts/migrate_mob_events_rhai.py:87-256 | the same for command lines: exact first word, the arguments the command needs, nothing the session would fill in |
| EventLines.FilledIn | objs/event.py:66-72 | a command into which the name of the player or a typed word is put is none of the described ones, and neither is a text with one of the three placeholders; every other text is an output as it stands |
| EventLines.OtherCommands | objs/event.py:82-94 | the other commands the interpreter knows, and they alone, are known and not described |
| EventAgreement.PromptBehind | scripts/migrate_mob_events_rhai.py:48-51 | the prompt of a pause is what stands behind its word, with a blank in between or not |
| EventAgreement.NegationIsLost | scripts/migrate_mob_events_rhai.py:203-219 | the negated item test is read as it stands by the interpreter, with one or two words behind it, and as the plain test by the migration |
| Numbers.GetIntIs | lib/func.py:61-74 | the number a text counts for: itself if Python can read it, else the number in front of its first character that is no digit, nothing if there is none in front or nothing else |
| EventAgreement.LinesAgreeButRelease | objs/event.py:82-84 | the two read a line alike, but for handing the input back, if and only if it is an agreed line or the marker, which the migration passes over |
| EventAgreement.LinesAgreeForPlayer | scripts/migrate_mob_events_rhai.py:92-94 | apart from who hears an announcement and from the marker, the two read a line alike if and only if it is an agreed line, the marker, or an announcement with a text and nothing the session would fill in |
| EventLimits.AgreedIffFaithful | scripts/migrate_mob_events_rhai.py:77-88 | the agreed lines are exactly those that keep their meaning in front of a guarded output, whatever conditions hold and whatever a line outside the description does to the world, to the skipping and to the script |
| EventLimits.OnlyAgreedLinesAreFaithful | objs/event.py:63-94 | for every line that is not agreed there are truth values under which the acts shown, the world left or the way of ending differ on a four-line script: for the negated item test, the shifted number of the typed word, announcements, moves, empty arguments and blanks around text always; for a line outside the description whatever effect it has, except that where the migration passes over it the effect must not be nothing |
| EventLimits.TypedReadings | scripts/migrate_mob_events_rhai.py:223-239 | every complete line with the typed-word test is read with the number n by the interpreter and with n + 1 by the migration |
| EventLimits.ShiftedWordMatters | objs/event.py:353-359 | for every such line with a number that is not negative there are typed words for which only the generated program shows the guarded output, and unless the number is 0 also words for which only the interpreter does |
| EventLimits.LostLineMatters | scripts/migrate_mob_events_rhai.py:134-147 | a line that stands between a condition and its brace is dropped by the migration: if it acts, stops, has any undescribed effect, or is a condition with another test or another sign, there are truth values for which the two sides differ |
| EventLimits.CutBlockMatters | scripts/migrate_mob_events_rhai.py:42-56 | a block that a pause cuts, opened and not closed or not even opened, whatever lines and braces stand in it and behind the pause: in every world where the condition fails the generated function waits at that pause and the interpreter does not, for any engine |
| EventLimits.BareConditionMatters | scripts/migrate_mob_events_rhai.py:134-147 | a condition inside a block that has no block of its own: in every world where it fails and the outer condition holds the interpreter skips the end of the outer block and the act behind it, which the generated function shows, for any engine |
| EventLimits.BracedIsSound | scripts/migrate_mob_events_rhai.py:130-152 | if every condition is directly followed by its brace, the script is sound, whatever braces are stray or missing |
| EventLimits.InsideIsSound | scripts/migrate_mob_events_rhai.py:134-147 | a piece that is braced in this way and whose end closes some enclosing level has all its blocks closed |
| EventLimits.PlainShapeIsSound | scripts/migrate_mob_events_rhai.py:42-56 | a shape a maintainer can check line by line, braced conditions and matching braces before every pause, is enough for the migration theorem |
| EventLimits.SampleIsMigratable | scripts/migrate_mob_events_rhai.py:42-56 | a script with a condition, its block, a pause and text lies in the fragment and does not give the input back; with the marker at its end it does: the theorems are about something |
| EventMachines.DoLines | objs/event.py:30-84 | the loop with line number, brace counter, skip flag and input computes the flat meaning of the lines from any start line, and leaves the input to the pause if it waits, to the commands if it passed the marker, else as it was |
| EventMachines.Player.DoEvent | objs/event.py:14-84 | interpreting a script from a saved line number is the flat meaning of the lines behind it; a pause saves a line further on |
| EventMachines.Player.PressEnter | objs/player.py:1728-1731 | a key press resumes the script behind the saved line with the input taken away |
| EventMachines.Player.Session | objs/player.py:1728-1731 | starting a script and pressing a key whenever it waits, on the player object, is the session the theorems speak of, and leaves the input of its last segment |
| EventMachines.CollectBlock | scripts/migrate_mob_events_rhai.py:131-147 | the block loop with its one counter finds the block and the rest of Split, and moves forward by at least the block |
| EventMachines.ConvertLines | scripts/migrate_mob_events_rhai.py:73-260 | one pass with recursion on blocks builds the structured program |
| EventMachines.SplitByEnter | scripts/migrate_mob_events_rhai.py:42-56 | the loop cuts the script at its pause lines, each piece with the prompt behind it |
| EventMachines.MigrateScript | scripts/migrate_mob_events_rhai.py:291-338 | the assembled functions event, step1, step2, ..., each with its closing end_event where the source puts one, are the ones the theorems speak of |
| EventPrograms.WithEndIff | scripts/migrate_mob_events_rhai.py:317-338 | a function gets a closing end_event exactly if its text has none: no halt at any depth and no text that happens to hold the call |
| CombatPoints.PointsAreConserved | objs/player.py:2051-2054 | over any run of kill-free ticks without advance, whatever skills start, span ticks, end or are broken off: skill turns plus blows are the quotient of starting points plus gains by 700, and the points left are the remainder; for mobs with gains of at least 700 too, so that their reset never takes points |
| CombatPoints.PaymentBalances | objs/player.py:2075-2132 | one tick loses no point, leaves fewer than 700 and keeps the skill playable, also when the skill goes on |
| CombatPoints.Fighter.Tick | objs/player.py:2074-2133 | the tick shows the moves of the turns paid and then the blows, pays 700 for each, leaves less than 700, and gives no blow while the skill goes on, even after a waiting turn |
| CombatPoints.Fighter.MobTick | objs/player.py:1970-2016 | the same for a mob with its reset; with less than 700 points before and a gain of at least 700 the reset does nothing |
| CombatPoints.Fighter.Rounds | objs/player.py:2039-2133 | over any run of ticks on the objects, whatever skills are begun or broken off in between, turns plus blows are the quotient of old points plus gains by 700, the points left are the remainder, and the skill is the one begun last or none |
| CombatPoints.Skill.Parse | objs/skill.py:52-71 | every turn holds the moves of its lines in the order written, with their kinds and texts, and the number of turns is the number of different ones |
| CombatPoints.PatternAt | objs/skill.py:59-70 | the dictionary has a turn exactly if some line has it, with that turn's moves in order |
| CombatPoints.PatternShows | objs/skill.py:61-70 | the dictionary has a turn exactly if some line has it; its moves are as many as that turn has lines, each with the kind of its line and its text, which is empty for a waiting line |
| CombatPoints.Skill.Init | objs/skill.py:46-50 | a skill that is begun stands before its first turn and keeps its pattern |
| CombatPoints.Skill.GetScript | objs/skill.py:115-142 | a call plays as many turns as the points pay for and are left, charges 700 for each, and says whether turns remain; at the end the counter is back at 0 |
| CombatPoints.PlayOut | objs/skill.py:115-142 | a skill that is begun and called on the object until it has no more turns shows exactly the cast the theorems below speak of, and says at the end whether it is complete |
| CombatPoints.FullPointsComplete | objs/skill.py:119-121 | with 700 points a call, as many calls as turns bring a cast to its end |
| CombatPoints.CastPlaysAll | objs/skill.py:126-141 | however the points come in, a completed cast over gapless turns plays every turn once, in order |
| CombatPoints.ByTurnIsStableSort | objs/skill.py:59-70 | the order by turn ascends and keeps each turn's lines in the order written: it is the stable sort |
| CombatPoints.ContiguousCast | objs/skill.py:115-142 | with turns 1 to n and no gap, a completed cast gives every parsed line exactly once, stably ordered by turn, with its kind and its text |
| CombatPoints.GapLosesLine | objs/skill.py:71 | with turns 1 and 3 a completed cast plays the line of turn 1 and never that of turn 3 |
| CombatPoints.CastIsCompleteIffContiguous | objs/skill.py:71 | maxturn counts the turns written, so a completed cast gives all lines if and only if the turns are 1 to n |
| AreaMap.MapCommand.ExitMark | cmds/지도.py:56-75 | the recursive fill ends (the free room cells decrease), keeps buffer and survey consistent, gives up nothing drawn before, draws every exit of every room it found once and none of the rooms found before, and leaves every room it found fully followed |
| AreaMap.MapCommand.FollowExit | cmds/지도.py:78-143 | a planar exit draws inside the buffer and never on a room cell, and the room behind it is marked if it lies on the lattice |
| AreaMap.MapCommand.DrawArrow | cmds/지도.py:79-84 | the cell beside the room becomes the arrow, or the stroke if something was there already |
| AreaMap.MapCommand.EnterRoom | cmds/지도.py:68-72 | a blank room cell becomes the room's cell; no other cell changes |
| AreaMap.MapCommand.SetMark | cmds/지도.py:144-165 | exits up and down change only the room's own mark |
| AreaMap.MapCommand.DrawMap | cmds/지도.py:42 | the finished buffer is a map: every room drawn was followed to the end, the arrow cells show the arrows of their exits, and the centre is drawn if the player's room has exits |
| AreaMap.RoomNumIsSpaced | cmds/지도.py:6-12 | the bounds tests before the arrows never fire: an arrow of a room cell is always inside the 132 cells and never on a room cell |
| AreaMap.DrawnIsReached | cmds/지도.py:86-143 | every room drawn is reached from the middle by open exits, stands on the lattice, and is as many rows and columns from the middle as the steps of the walk say: north up, east to the right, and so on |
| AreaMap.ExitsAreFollowed | cmds/지도.py:78-143 | an open exit of a drawn room leads to a drawn room two rows and columns on in its direction, or off the lattice |
| AreaMap.StepIs | cmds/지도.py:78-143 | from a room of the lattice each direction leads two rows and columns on as a compass says, and to a room cell exactly if that is on the lattice |
| AreaMap.LatticeOnly | cmds/지도.py:6-12 | the room cells are those in odd rows and columns from 1 to 9 |
| AreaMap.MarkShows | cmds/지도.py:144-165 | a room without exits up or down has no mark, one with one such exit the mark of that, one with more the mark for both |
| AreaMap.WalkAddsUp | cmds/지도.py:86-143 | a walk ends two rows and columns a step from the middle, and on the lattice exactly if row and column are odd ones from 1 to 9 |
| AreaMap.ArrowsAreExits | cmds/지도.py:78-143 | by row and column: a cell between the rooms is blank exactly where no exit of a drawn room, open or closed, points to it over the picture, shows an arrow exactly where one alone does and in its direction, and a stroke exactly where several do, which runs along the way of one of them |
| AreaMap.WalkedIsDrawn | cmds/지도.py:56-62 | the marked set is closed: where walks to one place agree on the room, every room some walk through the lattice reaches is drawn |
| AreaMap.DrawnIffWalked | cmds/지도.py:56-143 | on such an area a room is drawn at a place if and only if a walk leads there to a room with an exit list |
| Targets.RunsStayFair | objs/body.py:194-218 | after every step of any run in which each step only meets its own guard, fights, joining, clearings and deaths: target lists have no repeats, a has b as target exactly if b has a, and a body fights exactly if it has a target |
| Targets.SetFightIsFairIff | objs/player.py:1754-1805 | starting a fight keeps that invariant if and only if the attacker is dead, or the mode is set, or the two are not fighting yet; otherwise a list gets a repeat |
| Targets.JoinIsFair | objs/player.py:1796-1801 | mobs of the room that join in keep the invariant |
| Targets.JoinIsForStanding | objs/player.py:1796-1801 | of the mobs that may join in, exactly those join that stand and are no targets yet: they fight, each is a target of the other, and all others stay as they are |
| Targets.SetFightMeans | objs/player.py:1754-1805 | a dead attacker changes nothing; otherwise the two fight and are targets of each other, the standing mobs of the room join in, and everyone else stays as before |
| Targets.AttackIsAllowedIff | objs/player.py:1754-1756 | the guard that runs ask of an attack is exactly what keeps the world fair |
| Targets.ClearIsFair | objs/body.py:202-215 | clearing one opponent keeps the invariant and takes exactly that one off the list |
| Targets.ClearEachIsFair | objs/body.py:216-218 | clearing along a copy of the list keeps the invariant and takes off exactly the bodies of the copy |
| Targets.DieIsFair | objs/mob.py:787-788 | after a death the invariant holds, the dead has no targets and is nobody's target |
| Targets.PeaceIsFair | objs/body.py:194-198 | a world without fights satisfies the invariant |
| Bodies.Body.SetTarget | objs/body.py:194-198 | both fight, and the list has the opponent once |
| Bodies.Body.ClearTarget | objs/body.py:202-215 | both lists lose the other in place, and who has no target left stands |
| Bodies.Body.ClearTargets | objs/body.py:216-218 | clearing everyone is clearing one after the other along the old list |
| Bodies.Body.Meet | objs/player.py:1757-1790 | the two opponents' lists after the early appends and the two target calls |
| Bodies.Body.SetFight | objs/player.py:1754-1805 | the whole of starting a fight on bodies updated in place is the step the invariant is proved for |
| Bodies.Body.Die | objs/mob.py:787-788 | a body is dead before its targets are cleared |
| Equipment.Play | cmds/입어.py:13-135 | after any sequence of wear, wear-all, set-wear, unwear, unwear-all, removal, stripping and receiving new items, armour, attack power and the eleven option sums equal the sums over what is worn, no slot is worn twice, and the inventory is the one the commands say |
| Equipment.WearFromFills | cmds/입어.py:16-57 | wear-all keeps slots apart, takes nothing off, changes no item, and leaves no wanted item bare whose slot is free |
| Equipment.FirstComeFirstWorn | cmds/입어.py:16-30 | wear-all and set-wear put on only wanted items, only into slots that were free, and of several for one slot the first in the inventory |
| Equipment.WornMeans | cmds/세트착용.py:17-33 | wear-all and set-wear put on nothing but armour and weapons, of the named set if one is named, with a thousand points of every mastery where the tag asks for them and two thousand where the other does; and what they leave bare of these has its slot taken |
| Equipment.WearOneMeans | cmds/입어.py:84-103 | putting on one item needs armour or a weapon, two thousand points where the tag asks for them, and a free slot, and changes nothing else |
| Equipment.WornSumMeans | cmds/입어.py:31-57 | armour and attack power are the sums over what is worn, and each of the eleven others the sum of the worn options of its own name |
| Equipment.Wearer.WearAll | cmds/세트착용.py:17-75 | one pass over the inventory in place keeps the sums right, for wear-all and for the remembered set, and counts what it puts on |
| Equipment.Wearer.Wear | cmds/입어.py:79-125 | one item is put on exactly if it is not worn, wearable, allowed and its slot free |
| Equipment.Wearer.CheckArmed | objs/player.py:910-914 | the slot test is true exactly if a worn item has the slot |
| Equipment.Wearer.Unwear | cmds/벗어.py:58-96 | one item is taken off and its weights leave the sums |
| Equipment.Wearer.UnwearAllOneByOne | cmds/벗어.py:15-50 | everything is taken off and counted, and the sums follow item by item |
| Equipment.Wearer.UnwearAll | objs/body.py:824-844 | setting the sums to zero and taking everything off agree |
| Equipment.Wearer.DelItem | objs/player.py:1030-1065 | the first so many items of an index leave the inventory, worn or not, and the sums stay right |
| Equipment.DiscardRemoves | objs/player.py:1030-1065 | the removal takes as many of the index as asked if there are so many, otherwise all; the other items stay as they are, in order |
| Equipment.DiscardKeeps | objs/player.py:1062 | a removal adds nothing and keeps slots apart |
| Equipment.WornSumAt | cmds/입어.py:31-57 | when one item changes sides each sum changes by its weight |
| Equipment.Wearer.Receive | objs/object.py:87-90 | a new item comes to the front, not worn, and changes no sum |
| BoxDeposits.Box.AddMoney | objs/box.py:184-202 | a box takes the smaller of the offer and the silver it has room for, says how much, and its room shrinks by exactly that; capacity stays within the limit, a growable box holds less than one price, a full one nothing |
| BoxDeposits.Box.IsExpandable | objs/box.py:179-182 | a box can grow exactly if it has room for silver |
| BoxDeposits.RoomDecides | objs/box.py:184-202 | the room left decides capacity and silver |
| BoxDeposits.EmptyIsSound | objs/box.py:179-182 | a box without silver is sound at any price from 1 on and at any size up to its limit |
| BoxDeposits.Deposit | cmds/넣어.py:17-35 | a guarded deposit is refused for a full box or a purse with less than the amount named, at least one coin; otherwise the smaller of that amount and the room moves from purse to box |
| BoxDeposits.DepositAll | cmds/넣어.py:17-35 | over any list of deposits purse plus box silver plus price times capacity stays the same, the purse never goes below zero and the box stays sound |
| BoxDeposits.NeverTooMuch | cmds/넣어.py:25-31 | what is accepted is at most the room, the purse and the offers; a payable offer to a box with room is accepted for at least one coin |
| BoxDeposits.OnlyTheSumCounts | objs/box.py:184-202 | for a player who could pay everything the total accepted is the smaller of the sum offered and the room |
| BoxDeposits.SameSumSameBox | objs/box.py:184-202 | two ways of offering the same sum leave the same box |
| Ranking.WriteRanks | objs/rank.py:54-60 | after a write the table falls, names are unique and at most 200, and the rank is one more than the number of entries that beat the new one, or 0 if it found no place |
| Ranking.WrittenMeans | objs/rank.py:54-60 | after a write greater values stand in front of lesser ones, and with the same value the name that is greater by its first differing character, or longer; the table holds at most 200, and the rank is one more than the number of others who are better, 0 from 200 of them on |
| Ranking.WriteMovesNobodyElse | objs/rank.py:42-60 | in a falling table everyone else stays in order, and only the last may be lost, exactly when the table was full and the new entry found a place |
| Ranking.PushIsProper | objs/rank.py:48-53 | a write with -1 puts the name first as a value of zero, keeps the others in order except that a full table loses its last, and keeps names unique and the limit |
| Ranking.PushKeepsOrderIff | objs/rank.py:48-53 | a write with -1 keeps a falling table falling if and only if nobody else is there or zero beats the first of the others |
| Ranking.RanksAndNames | objs/rank.py:62-79 | the name at the rank of a present name is that name, the rank of the name at a valid rank is that rank, and a rank has no name exactly outside the table and its negative indices |
| Ranking.SortDownSorts | objs/rank.py:56 | a table with unique names is put in strictly falling order of value and name |
| Ranking.FallingMeans | objs/rank.py:56 | falling means that everyone beats everyone later |
| Ranking.WritableIff | objs/rank.py:55-56 | Python can order the table exactly if every other entry was written by this process |
| Ranking.ReloadBlocks | objs/rank.py:7-20 | after a reload no ordering write goes through unless nobody else is in the table |
| Ranking.LeftIsDistinct | objs/rank.py:36-60 | every call keeps names unique, and keeps the limit exactly if it goes through or there was room |
| Ranking.RunsStayProper | objs/rank.py:36-60 | over any run of calls names stay unique; from tables written by the process the limit holds and all entries stay comparable |
| Ranking.Rank.WriteRank | objs/rank.py:36-60 | the method on the stored tables does what the theorems say, for both branches and for the failing sort, and touches no other table |
| Ranking.Rank.RemoveName | objs/rank.py:42-46 | the loop over a copy takes out exactly the entries with the name |
| Ranking.Rank.ReadRank | objs/rank.py:62-71 | the loop finds the first place of the name, 0 if it has none |
| Ranking.Rank.GetRankNum | objs/rank.py:73-79 | the name at a rank with Python's negative indices, or none |
| OneItems.OneitemState.Load | src/oneitem.rs:45-93 | a load leaves, in the order of the file, exactly the records whose second word is not the mark of dropped items, and the index names |
| OneItems.OneitemState.Save | src/oneitem.rs:96-111 | a save writes every owner, in order |
| OneItems.OneitemState.Restart | src/oneitem.rs:45-111 | stopping after a save and starting again forgets exactly the dropped records |
| OneItems.LoadAfterSave | src/oneitem.rs:53-67 | reading back what was written returns, in order, exactly the records not dropped |
| OneItems.ReadBackIs | src/oneitem.rs:56-66 | of each record of a file is read back its owner text, none if the second word is the mark of dropped items, and an empty text for a value that is no text |
| OneItems.RememberedOnce | src/oneitem.rs:60-62 | a second reload changes nothing, and a reload changes no owner of a record it keeps |
| OneItems.EntriesLoseNothing | src/oneitem.rs:97-105 | with order vector and map in agreement, the two together are a dictionary with the vector's keys in order and the map's values |
| OneItems.EntriesPut | src/oneitem.rs:128-134 | insert plus push is setting a key of an insertion-ordered dictionary: an old key keeps its place |
| OneItems.EntriesDelete | src/oneitem.rs:167-171 | remove plus retain is deleting the key |
| Dictionary.MovesToTheEnd | src/oneitem.rs:128-171 | destroying and acquiring again moves a record behind all others, which stay in order |
| Dictionary.PutWorks | src/oneitem.rs:128-134 | setting a key changes that key only, keeps the order of the keys and adds a new one at the end |
| Dictionary.DeleteWorks | src/oneitem.rs:167-171 | deleting a key removes that key only |
| OneItems.OneitemState.Have | src/oneitem.rs:128-134 | the owner is recorded and written |
| OneItems.OneitemState.DoDrop | src/oneitem.rs:137-144 | the owner is recorded with the mark of dropped items and written |
| OneItems.OneitemState.Drop2 | src/oneitem.rs:147-154 | the owner is recorded with the mark of items on the ground and written |
| OneItems.OneitemState.Keep | src/oneitem.rs:157-164 | the owner is recorded with the mark of stored items and written |
| OneItems.OneitemState.Destroy | src/oneitem.rs:167-171 | the record is gone from map and order, and the rest is written |
| OneItems.OneitemState.Clear | src/oneitem.rs:211-215 | no record is left, and the empty list is written |
| OneItems.OneitemState.Fetch | src/oneitem.rs:123-125 | the owner text of the record, empty if there is none |
| OneItems.OneitemState.GetName | src/oneitem.rs:114-120 | the first name in order that stands for the index |
| OneItems.OneitemState.CheckIndex | src/oneitem.rs:189-195 | found exactly if the record is there, with the first word of its owner text |
| OneItems.OneitemState.CheckName | src/oneitem.rs:174-186 | the same by name, through the index names |
| OneItems.OneitemState.List | src/oneitem.rs:198-208 | one row for every record, in order, with its name, index and owner |
| OneItems.RowsShow | src/oneitem.rs:198-208 | the row at each place shows the name, the index and the owner of the record at that place |
| OneItems.NameOfIs | src/oneitem.rs:114-120 | the name of an index is the first in order that stands for it, empty if none does |
| OneItems.DroppedIsForgottenIff | src/oneitem.rs:59-62 | a dropped item is forgotten at the next start if and only if its owner's name is one word or has the mark for its second word |
| OneItems.OthersAreForgottenIff | src/oneitem.rs:146-164 | stored items and items on the ground survive unless the owner's second word is the mark of dropped ones |
| OneItems.HolderIsFirstWord | src/oneitem.rs:179-184 | whatever mark stands behind the owner, the owner reported is the first word |
| Training.Player.Transfer | objs/autoscript.py:162-187 | the main kind gains as many levels as the credit of the other four pays for one after another and not one more; the other four end at level and experience 0, and the main experience stays |
| Training.Player.Sum | objs/autoscript.py:171-172 | the inner loop adds up the worth of a level |
| Training.GreedyIsUnique | objs/autoscript.py:175-180 | there is only one number of levels that the credit pays for and exceeds by no level |
| Training.SameRate | objs/autoscript.py:171-177 | levels are bought at the rate at which they are given in payment |
| Training.OnlyChangeIsLost | objs/autoscript.py:173-180 | worth before plus credit is worth after plus less than the price of the next level |
| Training.WorthInFull | objs/autoscript.py:171-172 | the worth of a level in closed form |
| Training.CreditIs | objs/autoscript.py:166-172 | the credit is, for each of the other four kinds, its experience and the worth of its level in closed form |
| Training.NothingStillCounts | objs/autoscript.py:166-172 | four empty kinds still give a credit of 140, so that another transfer gives levels exactly to those at level 14 or below, and never more than two |
| Schedules.EveryMobOnce | objs/mob.py:443-459 | any round of calls, as many as thirty mobs a call need, from any place the counter can be at, looks at every mob exactly once |
| Schedules.RoundIs | objs/mob.py:443-459 | the mobs of a round in order: from the counter to the end, then from the start |
| Schedules.Movers.UpdateMoving | objs/mob.py:443-459 | one call moves the mobs present among the next thirty and sets the counter |
| Schedules.Movers.UpdateRound | objs/mob.py:443-459 | a round of calls moves every mob that is present exactly once |
| Schedules.EveryZoneOnce | loop.py:70-74 | any as many calls as zones, from any list the loop can be at, serve every zone exactly once |
| Schedules.EveryZoneInTime | loop.py:26-34 | in any sixty runs per zone of the loop every zone is served exactly once, whatever the counter stands at |
| Schedules.TicksArePops | loop.py:26-34 | the runs of the loop serve one zone every sixtieth time |
| Schedules.Loop.UpdateZones | loop.py:70-74 | the last zone of the list, filled up if empty, is taken off and served; a world without zones fails |
| Schedules.Loop.Run | loop.py:26-34 | one run counts and serves a zone when the count is full |
| Crafting.Body.Craft | cmds/조제.py:28-74 | every early return leaves the inventory as it was; which answer is given is decided by the recipe, the sum of what it takes, its product and the catalogue; a made recipe leaves the products in front of what is left |
| Crafting.ReadTakes | cmds/조제.py:28-45 | a recipe needs, in order, the first word and the number of every line of two words or more without a plus in front, and fails exactly if such a line or one with a plus has no number |
| Crafting.ReadGives | cmds/조제.py:28-45 | the last line with a plus says what is given and how many; without one nothing is given |
| Crafting.MadeBalances | cmds/조제.py:69-74 | a made recipe changes the unworn items by exactly what it takes and gives, and the worn ones not at all; where the check succeeded, all that is taken was there, so that what is left and what was taken add up to what was there and what is given |
| Crafting.Body.Check | cmds/조제.py:46-56 | the check on the copied list succeeds exactly if no count is negative and the sum of the needs is there |
| Crafting.Body.CrossOff | cmds/조제.py:46-53 | one need is crossed off exactly if its count is not negative and so many are left |
| Crafting.Body.DelItem | cmds/조제.py:76-82 | the first unworn item of the kind is removed |
| Crafting.TakeOneIsFirst | cmds/조제.py:76-82 | it is the first unworn one of the kind that goes, and everything else stays in order |
| Crafting.TakeOneWorks | cmds/조제.py:76-82 | removing one item changes no worn item and takes one of the kind if there is one |
| Crafting.TakeAllWorks | cmds/조제.py:69-72 | the commit removes exactly what the recipe needs from the unworn items |
| Crafting.Body.TakeFrom | cmds/조제.py:69-72 | the commit loops remove the needs one by one |
| Crafting.Body.Hand | cmds/조제.py:73-74 | the products come to the front |
| Records.OptionsSurviveIff | objs/item.py:152-170 | options read after being set are the options if and only if every name is one word, for all integers |
| Records.GameItem.SetOption | objs/item.py:166-170 | one line for every option, in order |
| Records.GameItem.GetOption | objs/item.py:152-164 | none for an item without options, an exception for a value that is no number, otherwise the dictionary of the two-word lines |
| Records.SkillsSurviveIff | objs/body.py:402-415 | a skill map loaded after being built is the map if and only if every name is one word |
| Records.Body.BuildSkillUp | objs/body.py:411-415 | one line for every skill, in order |
| Records.Body.LoadSkillUp | objs/body.py:402-409 | the dictionary of the lines, or an exception for a line without a name and two numbers |
| Records.SurvivesIff | objs/body.py:402-415 | a dictionary written line by line and read back is the same if and only if each entry survives on its own line |
| Aliases.AliasesSurviveIff | objs/player.py:2447-2455 | shorthands survive if and only if every key is one word and every text starts with a visible character |
| Aliases.Player.LoadAlias | objs/player.py:2447-2452 | the dictionary of the lines, or an exception for a line without key and text |
| Aliases.Player.BuildAlias | objs/player.py:2454-2455 | one line for every shorthand, in order |
| Aliases.Player.SetAlias | objs/player.py:2457-2463 | a new shorthand is added and saved, an old one is left as it was |
| Aliases.Player.DelAlias | objs/player.py:2465-2471 | a known shorthand is removed and the list saved |
| Aliases.Player.Command | cmds/줄임말.py:22-46 | the command answers and changes the shorthands as its guards say, and the saved list follows |
| Aliases.StoredIff | cmds/줄임말.py:22-44 | a shorthand is stored if and only if there is a key and a text, there are less than a hundred, the key is new, and no piece of the text is the key or one that is there |
| Aliases.PiecesAreBetween | cmds/줄임말.py:31 | the pieces of a text stand between its semicolons and hold none |
| Aliases.CommandsKeep | cmds/줄임말.py:22-46 | after any commands there are at most a hundred shorthands with unique keys, none of their pieces names its own or an older key, and a reload gives all of them back |
| Aliases.ChainsEnd | cmds/줄임말.py:32-39 | what the guard, which compares whole pieces, achieves: a chain of shorthands, each a whole piece of the one before, only goes to younger ones and is no longer than the list; what is typed follows last words instead, see Expansions |
| Expansions.Player.ParseCommand | objs/player.py:1499-1559 | one line is counted below rank 2000 and not read beyond the limit; otherwise it changes the remembered line and the waiting lines as the reading says: the last word is looked up unless the line is spoken or the room forbids the word, the stars are replaced, and the pieces behind the first go in front of what waits |
| Expansions.Player.Serve | client.py:35-50 | taking waiting lines one after another empties the buffer within n lines exactly if Done says so for the rank, the count and the limit |
| Expansions.LimitEnds | objs/player.py:1499-1503 | below rank 2000 any waiting lines over any table of shorthands are used up, looping or not, after at most as many lines as wait and, for each line still within the limit, as many as the widest shorthand has |
| Expansions.WarnedIff | objs/player.py:1499-1503 | a player with so many lines left is warned if and only if the waiting lines would not be used up within that many lines without the limit, and then at the first line beyond it |
| Expansions.ExpansionEndsIff | objs/player.py:1499-1559 | for every table whose lines to be read again are steady, every line but the repetition and whatever was typed before: reading it comes to an end if and only if the player is below rank 2000, or it is no shorthand, or no path of calls from its shorthand comes back to one it has been at; a call is a shorthand as last word of a line to be read again, whatever arguments are put in |
| Expansions.BareCallsNeverLoop | cmds/줄임말.py:32-39 | where the guard has kept the table, and shorthands are called by the bare name only, no path of calls comes back |
| Expansions.GuardedLineLoops | cmds/줄임말.py:31-44 | the command stores the shorthand a with the pieces x and 말 a; typed alone from rank 2000 on it is not done after any number of lines, and below that rank it always ends in the warning, however many lines are left |
| Expansions.RepeatedLineLoops | objs/player.py:1517-1520 | the command stores a with the pieces x and !; from rank 2000 on neither a nor the repetition of a is ever done with, and below that rank a always ends in the warning |
| Commands.StripPythonAnsi | src/command/parser.rs:63-87 | the Rust loop computes the cleaned line |
| Commands.StripAnsi | lib/func.py:37-59 | the Python loop computes the same cleaned line |
| Commands.CleanOnce | src/command/parser.rs:57-87 | a cleaned line has none of the characters 8, 27 and 155, cleaning it again changes nothing, and cleaning changes nothing exactly if there was none |
| Commands.EscapesVanish | src/command/parser.rs:57-87 | an escape takes everything with it up to the first m, or to the end of the line, and a backspace takes back the character before it |
| Commands.NothingIsLost | src/command/parser.rs:137-177 | a line neither blank nor spoken is its argument, blanks and the command word; the words of the argument and the word are the words of the line, however the word before ends; the six letters stand for their directions and every other word for itself; before a direction the four words for picking up are left out of the tokens |
| Commands.ArgumentIs | src/command/parser.rs:146-155 | trimming by the command's characters stops at the blank before the command |
| Commands.SayIsSpoken | src/command/parser.rs:247-254 | is_say_command holds exactly for the lines that parse makes into speech, with the whole line as message, and these are the ones whose text ends in a full stop, an exclamation or a question mark |
| Commands.ParsedAgain | src/command/parser.rs:107-177 | parsing the line that was parsed gives the same result |
| Commands.RustHearsIsParse | src/command/parser.rs:107-177 | what the comparison below calls the Rust reading is what parse returns before aliases |
| Commands.ReadAlikeIff | objs/player.py:1504-1526 | the two engines understand a cleaned line alike if and only if: it is not the repetition !, blank lines do not end in a space, other lines do not end in a blank, and sentences do not start with one |

## Left out

- EventAgreement.LinesAgree: the branches of the interpreter outside the fragment are one kind of undescribed line, whose effect on world, skipping and stopping is arbitrary; a line into which names of the player or typed words are put is such a line; numbers of more than 4300 digits, which newer Pythons refuse, are read as numbers
- EventSessions.MigrationPreservesMeaning: `end_event()` is taken to halt the generated program, as the migration intends, and reaching the end of a function without a wait counts as the same end; the efuns behind the generated calls are uninterpreted; how `[공]` and particles in a text are rendered for each listener is presentation and not part of an output
- EventMachines.DoLines: that `$스크립트호출` hands the input to another script; the migration leaves scripts with this line alone
- EventMachines.MigrateScript: the generated text is modelled as a syntax tree; quoting, indentation and comments are not part of it, and neither is the choice of files and of scripts that the migration does not touch
- CombatPoints.PointsAreConserved: ticks in which somebody falls and the instant `advance` path spend points in other ways and are outside; hit chances and damage are not modelled
- CombatPoints.Skill.Parse: the cutting of a line into turn, kind and text, and its exceptions, come before the model
- AreaMap.MapCommand.DrawMap: the test for a room without visible exits, the colours and the row breaks
- Targets.RunsStayFair: the instant-advance path and the defence setting; the values of `dex` and `skill` that the same calls reset
- Bodies.Body.ClearTarget: of the two `dex = 0` assignments in the source both reset the caller's own points, the second probably by mistake; points are not part of this state
- Equipment.Play: the field that names the wielded weapon, skill buffs, magic that changes an item while it is worn, and items whose options raise an exception
- Equipment.Wearer.DelItem: the branches for silver and gold, which are numbers and not items
- BoxDeposits.Box.AddMoney: an unset amount counts as zero, as the method makes it; a price of zero or less, which no box has, would divide by zero
- Ranking.Rank.WriteRank: an interrupted sort leaves the entries in some order; the model keeps the order of appending, and its contract states the entries only
- OneItems.OneitemState.Load: JSON text, missing files and malformed files; the padding of the listed lines; the separate listing that scans the item directory
- Training.Player.Transfer: a main kind other than 1 to 5, which is no kind of weapon and has no level to add to, is outside its precondition
- Schedules.Movers.UpdateMoving: mobs that come and go between calls; a fixed list and a fixed set of zones are what the fairness theorems need
- Crafting.Body.Craft: finding the doctor and the recipe in the room
- Expansions.ExpansionEndsIff: tables with a line to be read again that is `!`, that has a star in its last word, or that holds escape sequences; texts hold no line ends, since they were typed on a line
- Expansions.Player.ParseCommand: the command of the first piece itself, which might change the shorthands, the room or the rank, or take over the input of the next lines; a player outside every room; a repetition before anything was typed, which raises an exception, reads nothing here
- Expansions.LimitEnds: the count starts again with every round of the main loop, which no line can wait for; the connection closed at a second limit
- Commands.ReadAlikeIff: lines with the four information separators, which only Python takes for blanks, are outside its precondition
- Commands.NothingIsLost: the choice of the n-th thing by a leading number, and what the commands then do
- Item movement into boxes, buying, selling, banking, lending books and raising abilities: bookkeeping that would add only easy members
- Parties and followers: copied lists and commands that stop in the middle leave no invariant worth stating
- Sockets, logins, logging, Telegram and Twitter, the redirector and the old loaders
- Wording, colours, Hangul particles and broadcasts: presentation
- The rest of the Rust engine, whose script functions are not needed by the properties above

# Map rotation engine of the AA-QVM Tremulous game module

This Dafny project models the map rotation engine of the game module,
`src/game/g_maprotation.c`. It covers five parts:

- **Parser.** The rotation file parser: rotations, map entries, command
  sections, `goto`/`if` conditions, and `*VOTE*` and `*RANDOM*`
  placeholders. Then the validation pass over the loaded table.
- **Persistence.** The `g_currentMap` cvar holds each rotation's current map
  as a line of decimal indices. It is read back into a static array.
- **Advance.** Advancing the active rotation by evaluating the current map's
  conditions, plus starting and stopping rotations.
- **Vote.** The intermission map vote: opening it, the tally, the ordering
  `qsort` imposes, whether the vote is decisive, the voted map, and moving a
  client's cursor.
- **Random.** The choice of a map for a `*RANDOM*` slot.

Pure code becomes functions on datatypes:

- destination resolution (`Rotations.ResolveDestination`);
- condition evaluation (`Rotations.EvaluateCondition`);
- the vote comparator (`Vote.Compare`);
- the decisiveness test (`Vote.Decisive`).

Most loops of the source that work through tokens or tables are written
twice: once as a tail-recursive function that is their specification, and
once as a method with a `while` loop proved to compute that function. The
exceptions are the two name searches of `G_ResolveConditionDestination`,
which exist only as the functions `Rotations.FindEntry` and
`Rotations.FindRotation`; the engine's own searches (`HasRotationNamed`,
`Start`) are loops proved against `FindRotation`.

The engine's global state is the class `Engine.RotationEngine`. Its fields
stand for the following globals of the source:

- the rotation table;
- `g_currentMapRotation`;
- `g_currentMap`;
- the static current-map array;
- the vote list;
- the per-client cursor and selection arrays.

The methods of that class update these fields in place.

The constants come from `g_local.h`, which is not part of this model. They
are taken to be:

| constant | value |
|---|---|
| `MAX_MAP_ROTATIONS` | 16 |
| `MAX_MAP_ROTATION_MAPS` | 64 |
| `MAX_MAP_ROTATION_CONDS` | 8 |
| `MAX_MAP_COMMANDS` | 16 |
| `MAX_CLIENTS` | 64 |
| `NOT_ROTATING` | -1 |

The text is handed to the parser already split into tokens. Each token
records whether it starts a new line, and the rest of the tokenizer is not
modelled. `COM_Parse` yields `""` at the end of the text and never `NULL`. So
the source's `if( !token ) break;` tests never fire, and an empty token is
what ends each loop.

Where the code and its documentation differ, the model follows the code:

- **A failed load keeps earlier rotations.** A rotation file that fails to
  load keeps the rotations read before the error in the table. The source
  does not roll back (`RotationFile.FileFrom`).
- **Candidates are validated.** Validation checks the destinations of
  `*VOTE*` and `*RANDOM*` candidates like every other condition.
- **Destination checks are case-sensitive.** Validation compares a
  destination with rotation names exactly (`G_RotationExists`, `Q_strncmp`).
  Starting a rotation and resolving a destination ignore case (`Q_stricmp`).
- **A condition before any map is rejected.** A `goto` or `if` before the
  first map of a rotation dereferences a `NULL` entry in the source. The model
  rejects it as `ConditionWithoutMap`.
- **Ceiling checks come after the write.** The source checks the ceilings on
  conditions, commands and rotations only after it has written into the slot
  past the end (a map line checks its ceiling before it names the slot). The model keeps the same order of checks and errors but has no slot
  past the end.
- **A `*VOTE*`/`*RANDOM*` section with no candidates is a scratch slot.** It
  is not counted as a map, but a following `goto`/`if` is attached to it, and
  those conditions carry over to the next map line. The model reproduces this.
- **The decisiveness test has one effective clause.** Its second clause never
  decides anything: `Vote.DecisiveIsMajority` shows the test is exactly "more
  than half of the connected clients voted for the winner".

## Model

| member | source | states |
|---|---|---|
| Text.AtoiItoa | src/game/g_maprotation.c:626 | `atoi` reads back exactly the number `"%d"` wrote, negative numbers included |
| Text.WordsSpaced | src/game/g_maprotation.c:616-627 | splitting words that were each written followed by one blank gives the same words back, then the words of what follows |
| Text.WordsCount | src/game/g_maprotation.c:609-627 | a text of n characters holds at most (n + 1) / 2 words |
| Text.IEqSymmetric | src/game/g_maprotation.c:476 | case-insensitive name equality is symmetric |
| Text.IEqTransitive | src/game/g_maprotation.c:476 | case-insensitive name equality is transitive |
| Text.IEqEmpty | src/game/g_maprotation.c:84 | only the empty token compares equal to `""` |
| Text.Words | src/game/g_maprotation.c:614-627 | `COM_Parse` splits the text into non-empty words without blanks; `WordsSpaced` and `WordsCount` state what it returns |
| Text.Atoi | src/game/g_maprotation.c:626 | `atoi`: optional sign, then the leading digits; `AtoiItoa` states that it reads back every `"%d"` text |
| Text.Itoa | src/game/g_maprotation.c:648 | `"%d"` writes a non-empty word without blanks; `AtoiItoa` states its inverse |
| Rotations.FindEntry | src/game/g_maprotation.c:752-759 | the first map of a rotation whose name matches ignoring case; None exactly when none matches |
| Rotations.FindRotation | src/game/g_maprotation.c:899-910 | the first rotation whose name matches ignoring case; None exactly when none matches |
| Rotations.ResolveDestination | src/game/g_maprotation.c:747-772 | a map of the active rotation, searched first, wins over a rotation of the same name; a rotation is found only when no map matches; Unresolved exactly when neither matches |
| Rotations.EvaluateCondition | src/game/g_maprotation.c:781-824 | `G_EvaluateMapCondition` on the supplied client count, last winner and coin; `CandidatesNeverFire`, `NumClientsTrichotomy` and `OnlyCoinFlipIsRandom` state its properties |
| Rotations.CandidatesNeverFire | src/game/g_maprotation.c:810-823 | vote candidates, random candidates and malformed conditions never fire |
| Rotations.NumClientsTrichotomy | src/game/g_maprotation.c:789-803 | of the `<`, `>` and `=` client-count tests on the same threshold exactly one holds |
| Rotations.OnlyCoinFlipIsRandom | src/game/g_maprotation.c:781-824 | only a `random` condition depends on the `rand()` bit |
| RotationParser.LineRest | src/game/g_maprotation.c:92-99 | the rest of a line: non-empty words, ending no later than the text |
| RotationParser.ReadLineRest | src/game/g_maprotation.c:106-113 | the `COM_ParseExt` loop reads exactly the rest of the line |
| RotationParser.CommandSection | src/game/g_maprotation.c:72-126 | a command section ends after its `}`, leaves the name and conditions alone, only appends commands and keeps them within `MAX_MAP_COMMANDS` |
| RotationParser.ParseCommandSection | src/game/g_maprotation.c:72-126 | the loop of `G_ParseMapCommandSection` computes the command-section outcome |
| RotationParser.CandidateTokens | src/game/g_maprotation.c:290-300 | the tokens of a candidate section stop before the first `}` (none of them is one) and at the end of the text |
| RotationParser.CandidateConds | src/game/g_maprotation.c:303-311 | one candidate condition per token |
| RotationParser.Candidates | src/game/g_maprotation.c:288-318 | a candidate section changes only the conditions of its entry and keeps them within `MAX_MAP_ROTATION_CONDS` |
| RotationParser.ParseCandidates | src/game/g_maprotation.c:290-318 | the candidate loop computes the candidate-section outcome |
| RotationParser.NewBuilder | src/game/g_maprotation.c:138-139 | a rotation starts with no maps, no current entry and no pending name |
| RotationParser.PutSlot | src/game/g_maprotation.c:283-284 | writing entry slot i changes slot i only, extending the table by one when i is the next free slot |
| RotationParser.IfCondition | src/game/g_maprotation.c:199-262 | `numClients` takes the operator (`<`, `>`, `=`, else an error naming it), the threshold and the destination from the next three tokens; `lastWin` takes the team (`aliens` or `humans`, else an error naming it) and the destination; `random` takes the destination; any other left-hand side is an error naming it; a success is always a client-count, last-winner or coin-flip test |
| RotationParser.AddCondition | src/game/g_maprotation.c:177-188 | appends the condition to the current entry; fails exactly when that entry already has `MAX_MAP_ROTATION_CONDS` conditions |
| RotationParser.GotoLine | src/game/g_maprotation.c:170-191 | a `goto` line appends an unconditional condition to the next token to the current entry and changes no other slot; it fails before any map, and exactly at the condition ceiling otherwise |
| RotationParser.IfLine | src/game/g_maprotation.c:192-274 | an `if` line appends the condition `IfCondition` reads to the current entry and changes no other slot; it fails before any map, with the error `IfCondition` reports, and otherwise exactly when the entry already holds `MAX_MAP_ROTATION_CONDS` conditions |
| RotationParser.PlaceholderLine | src/game/g_maprotation.c:275-398 | a `*VOTE*` or `*RANDOM*` line fails exactly at the map ceiling or when no `{` follows, with those errors; otherwise the slot after the counted maps is renamed to the token and filled from its candidate section, made current, counted and allowed a command section only when it holds a condition, and the earlier maps are left alone |
| RotationParser.MapLine | src/game/g_maprotation.c:402-414 | a map line fails exactly at the map ceiling; otherwise it counts slot `numMaps`, names it (keeping any conditions a scratch slot left there), makes it current, allows a command section and leaves the earlier maps alone |
| RotationParser.RotationStep | src/game/g_maprotation.c:143-415 | each token of a rotation body advances the parser; a `}` ends the rotation with exactly the counted maps |
| RotationParser.RotationFrom | src/game/g_maprotation.c:143-417 | a parsed rotation ends after its `}` and respects every ceiling |
| RotationParser.ParseRotationSpec | src/game/g_maprotation.c:135-418 | a parsed rotation carries the name read before its `{` and respects every ceiling |
| RotationParser.ParseRotationLine | src/game/g_maprotation.c:145-414 | one iteration of the loop of `G_ParseMapRotation` computes one rotation step |
| RotationParser.ParseRotation | src/game/g_maprotation.c:135-418 | the loop of `G_ParseMapRotation` computes the rotation outcome |
| RotationFile.FileFrom | src/game/g_maprotation.c:459-522 | the file loop only appends rotations to the table and preserves its ceilings and distinct names |
| RotationFile.LoadOutcome | src/game/g_maprotation.c:439-449 | a missing, empty or too-long file leaves the table unchanged and reports an error |
| RotationFile.Validate | src/game/g_maprotation.c:524-552 | no error exactly when every map exists or is a placeholder and every destination is a map or, compared exactly, a rotation; an error names a real defect |
| RotationFile.RotationExistsExact | src/game/g_maprotation.c:52-63 | true exactly when some rotation has this name, compared exactly |
| RotationFile.EmptyRotationLoads | src/game/g_maprotation.c:143-418 | the file `r { }` loads and validates as a rotation with no maps |
| ParserProperties.UnnamedRotationRejected | src/game/g_maprotation.c:505-509 | a `{` without a preceding name fails the load |
| ParserProperties.SecondNameRejected | src/game/g_maprotation.c:517-521 | a second name before the `{` fails the load |
| ParserProperties.DuplicateRotationRejected | src/game/g_maprotation.c:474-481 | a rotation named like a loaded one, ignoring case, fails the load |
| ParserProperties.RotationErrorRejectsFile | src/game/g_maprotation.c:485-489 | an error inside a rotation fails the load, keeping the rotations read so far |
| ParserProperties.RotationCeilingRejected | src/game/g_maprotation.c:494-499 | a rotation parsed when `MAX_MAP_ROTATIONS` are loaded fails the load |
| ParserProperties.MapSectionWithoutNameRejected | src/game/g_maprotation.c:153-159 | a command section with no map before it fails |
| ParserProperties.ConditionBeforeMapRejected | src/game/g_maprotation.c:170-199 | a `goto` or `if` before the first map fails |
| ParserProperties.BadOperatorRejected | src/game/g_maprotation.c:210-220 | an operator other than `<`, `>`, `=` fails, naming the operator |
| ParserProperties.BadLastWinRejected | src/game/g_maprotation.c:238-246 | a team other than `aliens` or `humans` fails, naming the token |
| ParserProperties.BadLhsRejected | src/game/g_maprotation.c:250-254 | a left-hand side other than `numClients`, `lastWin` or `random` fails, naming the token |
| ParserProperties.PlaceholderWithoutSectionRejected | src/game/g_maprotation.c:329-333 | a `*VOTE*` or `*RANDOM*` not followed by `{` fails |
| ParserProperties.MapCeilingRejected | src/game/g_maprotation.c:404-409 | a map line when `MAX_MAP_ROTATION_MAPS` maps are counted fails |
| ParserProperties.ConditionCeilingRejected | src/game/g_maprotation.c:181-186 | a `goto` when the entry holds `MAX_MAP_ROTATION_CONDS` conditions fails |
| ParserProperties.CommandCeilingRejected | src/game/g_maprotation.c:115-120 | a command when `MAX_MAP_COMMANDS` are stored fails |
| ParserProperties.CandidatesKeepFirst | src/game/g_maprotation.c:303-316 | a candidate section keeps the first candidates up to `MAX_MAP_ROTATION_CONDS` and drops the rest |
| ParserProperties.PlaceholderCountedIffCandidates | src/game/g_maprotation.c:319-327 | a candidate section becomes a map exactly when its slot then holds at least one condition |
| ParserProperties.EmptySectionNotCounted | src/game/g_maprotation.c:319-322 | an empty candidate section adds no map |
| ParserProperties.UnterminatedSectionNeverEnds | src/game/g_maprotation.c:290-300 | the candidate loop as written never finishes on a section with no `}`, however many iterations it is given |
| ParserProperties.CandidateLoopAsWritten | src/game/g_maprotation.c:290-316 | the candidate loop as written, run for a given number of iterations, with only `}` ending it; `UnterminatedSectionNeverEnds` and `CandidateLoopAgrees` state what it does |
| ParserProperties.CandidateLoopAgrees | src/game/g_maprotation.c:290-318 | whenever the loop as written finishes, it agrees with the corrected candidate section |
| CurrentMap.SerialiseSnoc | src/game/g_maprotation.c:647-648 | each rotation appends its index and one blank to the text |
| CurrentMap.Serialise | src/game/g_maprotation.c:645-648 | the text of the write loop without the buffer limit, `"%d "` per index; `WordsOfSerialise` and `GetAfterSet` state its meaning |
| CurrentMap.Parsed | src/game/g_maprotation.c:605-630 | the array after reading a text: one slot per word, later slots unchanged, as long as the cache; `GetAfterSet` states the round trip |
| CurrentMap.WordsOfSerialise | src/game/g_maprotation.c:616-627 | the words of the written text are the decimal forms of the indices |
| CurrentMap.GetAfterSet | src/game/g_maprotation.c:605-666 | reading back the text written for the first n slots restores the whole array |
| CurrentMap.Truncate | src/game/g_maprotation.c:612 | `Q_strncpyz` keeps a prefix no longer than the buffer |
| CurrentMap.StrCat | src/game/g_maprotation.c:648 | `Q_strcat` never fills the buffer past its terminator |
| CurrentMap.StrCatTruncates | src/game/g_maprotation.c:648 | appending to a truncated text truncates the concatenation |
| CurrentMap.SerialiseAsWrittenFrom | src/game/g_maprotation.c:645-648 | the `Q_strcat` loop from a given text never fills the 32-character buffer; `SerialiseAsWrittenFromTruncates` states what it holds |
| CurrentMap.SerialiseAsWritten | src/game/g_maprotation.c:639-648 | the text as written always fits the buffer; `SerialiseAsWrittenTruncates` states it is the cut full text |
| CurrentMap.ParsedAsWritten | src/game/g_maprotation.c:609-627 | the read as written works on the first 31 characters of the cvar; `AsWrittenGetAfterSetWhenShort` and `AsWrittenMisreadsIndex` state where it agrees and where it does not |
| CurrentMap.SerialiseAsWrittenTruncates | src/game/g_maprotation.c:639-652 | the source's write loop stores the first 31 characters of the full text |
| CurrentMap.AsWrittenFitsArray | src/game/g_maprotation.c:609-627 | the 31 characters the source reads hold at most `MAX_MAP_ROTATIONS` words, so its unbounded array write stays in bounds |
| CurrentMap.AsWrittenGetAfterSetWhenShort | src/game/g_maprotation.c:605-666 | as long as the text fits the buffer, the source's get after set holds |
| CurrentMap.AsWrittenMisreadsIndex | src/game/g_maprotation.c:609-648 | eleven rotations at map 10: rotation 10 reads back map 1 |
| Advance.DefaultNext | src/game/g_maprotation.c:849 | the next map wraps to the first after the last |
| Advance.Fires | src/game/g_maprotation.c:855 | a condition fires when it is a `goto` or its test holds; `NoJumpStays` and `FirstJumpWins` use it |
| Advance.Scan | src/game/g_maprotation.c:851-880 | the condition scan yields a map of the active rotation, and a jump names a loaded rotation |
| Advance.ScanPrefix | src/game/g_maprotation.c:851-880 | before the first jump, the scan holds the target of the last firing map condition |
| Advance.NoJumpStays | src/game/g_maprotation.c:851-885 | with no jump, the last firing map condition decides the next map, else the default successor |
| Advance.FirstJumpWins | src/game/g_maprotation.c:865-870 | the first firing condition that names a rotation ends the scan; the map stored for the old rotation is the last map target before it |
| Advance.NothingFiresKeepsDefault | src/game/g_maprotation.c:849-882 | when no condition fires, the default successor is stored |
| Advance.UnresolvedIsSkipped | src/game/g_maprotation.c:873-877 | a firing condition that resolves to nothing is ignored |
| Advance.JumpTargetIsFound | src/game/g_maprotation.c:865-869 | the rotation a jump resolves to is the one `G_StartMapRotation` finds by name |
| Advance.CRem | src/game/g_maprotation.c:1005 | C's `%` agrees with the mathematical remainder on non-negative dividends and is never positive on negative ones |
| Advance.VoteEntryIndex | src/game/g_maprotation.c:1004-1006 | the entry voted on is an entry of the rotation, the one after the current map |
| Advance.EntryConds | src/game/g_maprotation.c:847-851 | the conditions of the stored map's entry, none for a slot past the counted maps |
| Advance.AdvanceOutcome | src/game/g_maprotation.c:845-886 | an advance is defined exactly when the rotation has maps and the stored index lies in the entry array; its next map is an entry, a jump names a loaded rotation, and a stale index past the last map wraps to `(cur + 1) % numMaps` |
| Vote.CountOf | src/game/g_maprotation.c:1068-1076 | no slot gets more votes than there are clients |
| Vote.TotalVotes | src/game/g_maprotation.c:1068-1076 | no more votes are counted than there are clients |
| Vote.Tally | src/game/g_maprotation.c:1059-1076 | one vote count per result slot |
| Vote.TallySnoc | src/game/g_maprotation.c:1070-1075 | one more client adds one vote to its slot when the selection is in range, and nothing otherwise |
| Vote.TotalIsSumOfTally | src/game/g_maprotation.c:1068-1083 | the total is the sum of the per-slot counts |
| Vote.SumIncrement | src/game/g_maprotation.c:1073-1074 | adding a vote to one slot adds one to the sum |
| Vote.Compare | src/game/g_maprotation.c:1039-1055 | the comparator returns -1, 0 or 1 |
| Vote.CompareIsTotalOrder | src/game/g_maprotation.c:1039-1055 | the comparator is antisymmetric, transitive and zero only on equal results, so the sorted order is unique |
| Vote.BeforeMeans | src/game/g_maprotation.c:1044-1052 | a slot sorts before another when it has more votes, or as many and a lower index |
| Vote.Rank | src/game/g_maprotation.c:1078-1089 | where `qsort` puts a slot: the number of slots that sort before it; `RankInRange`, `RanksDistinct` and `RankFollowsOrder` state its properties |
| Vote.Ranks | src/game/g_maprotation.c:1087-1088 | `resultorder`: one rank per slot; `RanksArePermutation` states that it is a permutation |
| Vote.RankFollowsOrder | src/game/g_maprotation.c:1078-1089 | a slot that sorts before another has a smaller rank |
| Vote.RanksDistinct | src/game/g_maprotation.c:1087-1088 | no two slots share a rank |
| Vote.RankInRange | src/game/g_maprotation.c:1087-1088 | each rank is a position of the sorted array |
| Vote.RanksArePermutation | src/game/g_maprotation.c:1078-1089 | `resultorder` is a permutation of the positions 0 .. `MAX_MAP_ROTATION_CONDS` - 1 |
| Vote.Winner | src/game/g_maprotation.c:1091 | the winner is a result slot |
| Vote.WinnerFrom | src/game/g_maprotation.c:1078-1091 | the left-to-right scan for the slot with strictly more votes returns a slot; `WinnerIsFirstMaximum` states it is the first maximum |
| Vote.WinnerIsFirstMaximum | src/game/g_maprotation.c:1078-1091 | the winner has the most votes, and every slot before it has fewer |
| Vote.WinnerHasRankZero | src/game/g_maprotation.c:1078-1091 | the winner is the slot the sort puts first, and the only one |
| Vote.NoVotesFirstWins | src/game/g_maprotation.c:1078-1091 | with no votes the first candidate wins |
| Vote.SumAtLeast | src/game/g_maprotation.c:1081-1083 | the winner's votes never exceed the total |
| Vote.Decisive | src/game/g_maprotation.c:1094-1109 | the two tests of `G_IntermissionMapVoteWinner`; `DecisiveIsMajority` and `DecisiveLeaderUncatchable` state their meaning |
| Vote.DecisiveIsMajority | src/game/g_maprotation.c:1094-1109 | the vote ends early exactly when more than half of the connected clients chose the winner |
| Vote.DecisiveLeaderUncatchable | src/game/g_maprotation.c:1100-1106 | once decisive, the votes of any other candidate plus all outstanding clients stay below the winner's |
| Vote.VoteDestsPrefix | src/game/g_maprotation.c:1129-1143 | the candidates of a prefix of the conditions come first among all candidates |
| Vote.VoteDests | src/game/g_maprotation.c:1012-1016 | the vote-candidate destinations of an entry, never more than its conditions; `VoteDestsAreVoteConditions` and `VoteDestsPrefix` state which and in what order |
| Vote.VoteDestsAreVoteConditions | src/game/g_maprotation.c:1012-1016 | every listed candidate is the destination of a vote condition |
| Vote.VotedDest | src/game/g_maprotation.c:1111-1148 | the voted map is the destination of a vote condition of the entry |
| Vote.Clamp | src/game/g_maprotation.c:1269-1272 | the cursor stays within the candidate list, is 0 on an empty list, and is unchanged when already inside |
| Vote.RandomPool | src/game/g_maprotation.c:1294-1307 | the pool is no longer than the entry's condition list |
| Vote.RandomPoolMembers | src/game/g_maprotation.c:1294-1307 | the pool holds exactly the random-candidate destinations that exist as maps |
| Vote.RandomPoolSnoc | src/game/g_maprotation.c:1296-1306 | each condition appends its destination when it is a random candidate that exists as a map, in declaration order |
| Vote.RandomPoolNonEmptyIff | src/game/g_maprotation.c:1309-1311 | the random slot has a map to pick exactly when some random candidate exists as a map |
| Engine.VoteListFor | src/game/g_maprotation.c:1004-1020 | at most `MAX_MAP_ROTATION_CONDS` candidates are listed |
| Engine.RotationEngine.constructor | src/game/g_maprotation.c:975-979 | the vote tables start empty and zeroed, the current-map array zeroed |
| Engine.RotationEngine.LoadRotationFile | src/game/g_maprotation.c:427-553 | the table becomes the load outcome; success exactly when the file parses and the whole table validates |
| Engine.RotationEngine.ReadRotation | src/game/g_maprotation.c:469-504 | a rotation is appended and the load goes on after its `}`, or the table is left as it is and the load stops with an error |
| Engine.RotationEngine.HasRotationNamed | src/game/g_maprotation.c:474-481 | true exactly when a loaded rotation has the name, ignoring case |
| Engine.RotationEngine.GetCurrentMapArray | src/game/g_maprotation.c:605-630 | the i-th word of the cvar overwrites slot i; later slots keep their value |
| Engine.RotationEngine.GetCurrentMap | src/game/g_maprotation.c:661-666 | the slot of the rotation after reading the cvar afresh |
| Engine.RotationEngine.SetCurrentMap | src/game/g_maprotation.c:639-652 | the slot of the rotation is set and the first `numRotations` slots are written back; reading the cvar again gives the same array |
| Engine.RotationEngine.Advance | src/game/g_maprotation.c:833-886 | with no active rotation nothing changes; otherwise the advance outcome decides: the next map is stored for the active rotation, including after a stale index, and a jump makes its target active |
| Engine.RotationEngine.ScanConditions | src/game/g_maprotation.c:849-880 | the condition loop computes the scan outcome; on a jump, the name it returns resolves to the jumped-to rotation |
| Engine.RotationEngine.Start | src/game/g_maprotation.c:895-916 | succeeds exactly when a rotation has the name, ignoring case, and then makes the first such rotation active; otherwise nothing changes |
| Engine.RotationEngine.Stop | src/game/g_maprotation.c:925-929 | no rotation is active afterwards |
| Engine.RotationEngine.IsActive | src/game/g_maprotation.c:938-941 | true exactly when a rotation is active |
| Engine.RotationEngine.CheckMapRotationVote | src/game/g_maprotation.c:986-1032 | the candidate list is emptied, then filled from the entry after the current map; the vote opens exactly when the list is non-empty, and only then are cursors and selections reset |
| Engine.RotationEngine.CollectVoteCandidates | src/game/g_maprotation.c:1008-1020 | the candidate loop lists the vote destinations of the entry in order |
| Engine.RotationEngine.ResetVoteArrays | src/game/g_maprotation.c:1025-1029 | every cursor is 0 and every selection -1 |
| Engine.RotationEngine.GetMapVoteWinner | src/game/g_maprotation.c:1057-1092 | the winner, its votes, the counted votes and each slot's rank in the sorted results |
| Engine.RotationEngine.IntermissionMapVoteWinner | src/game/g_maprotation.c:1094-1109 | decisive exactly when more than half of the connected clients chose the winner |
| Engine.RotationEngine.GetVotedMap | src/game/g_maprotation.c:1111-1148 | the winner-th vote destination of the entry when a vote is open and the winner is listed; the vote is closed afterwards |
| Engine.RotationEngine.IntermissionMapVoteCommand | src/game/g_maprotation.c:1250-1276 | choosing copies the cursor into the selection; moving steps the cursor by one, clamped to the list; no other client changes |
| Engine.RotationEngine.GetRandomMap | src/game/g_maprotation.c:1280-1318 | found exactly when the pool of existing random candidates is non-empty; the map is the pool entry the supplied random number selects |

## Left out

- Reading the rotation file, `trap_FS_*` and `G_MapExists`: the file arrives
  as its length and its tokens, and whether a map exists is a parameter
  `mapExists`.
- The tokenizer (`COM_Parse`, `COM_ParseExt`): comments, quoted strings and
  line tracking are not modelled. Tokens come with their new-line flag.
- `Q_strncpyz` truncation of names, destinations, commands and layouts to
  their fixed buffers: strings are unbounded.
- Cvars, `trap_Cvar_Set` and `trap_Cvar_Update`: `g_currentMapRotation` and
  `g_currentMap` are fields set directly; `g_mapRotationVote` and
  `level.numConnectedClients` are parameters.
- `G_IssueMapChange`, `G_PrintRotations`, `G_InitMapRotations`, the vote
  messages (`G_IntermissionMapVoteMessage*`) and every `G_Printf`: they issue
  commands and print text. The `changeMap` flag of `G_StartMapRotation` only
  decides whether `G_IssueMapChange` runs, so `Engine.RotationEngine.Start`
  does not take it.
- `rand()` and `random()`: a coin-flip condition reads a supplied bit
  (`Advance.Ambient`), and the random slot reads a supplied number whose
  remainder by the pool size is the pick.
- `qsort`: modelled by the unique order its comparator defines (each slot's
  rank). The sorting itself is not modelled.
- 32-bit overflow of `atoi` and of the vote counters: integers are unbounded.
- Engine.RotationEngine.Advance: returns false, changing nothing further, when
  the active rotation index is not a loaded rotation, when the rotation has no
  maps, or when its stored map is negative or at least `MAX_MAP_ROTATION_MAPS`.
  The source divides by zero or reads outside its arrays there.
- Advance.EntryConds: a stored map past the counted maps reads no conditions.
  In the source slot `numMaps` can be a scratch slot left by an empty
  `*VOTE*`/`*RANDOM*` section, holding conditions the source would evaluate.
- Engine.RotationEngine.CheckMapRotationVote: opens no vote when the active
  index is not a loaded rotation, the rotation has no maps, or C's `%` is
  negative. The source divides by zero or indexes before the first entry there.
- Engine.RotationEngine.GetCurrentMapArray: reads the whole cvar instead of its
  first 31 characters (see Findings).
- Engine.RotationEngine.SetCurrentMap: stores the whole serialised text, where
  the source's `Q_strcat` into `text[32]` keeps only its first 31 characters.
  The engine uses the corrected write of the first Findings row;
  `CurrentMap.SerialiseAsWrittenTruncates` models the write as the source has
  it.
- `src/game/g_team.c`, `src/game/g_shitpost.c` and `src/cgame/cg_shitpost.c`
  are not part of this model.

## Findings

| source | as written | input that shows it | evidently intended | confidence | as-written member | corrected member |
|---|---|---|---|---|---|---|
| src/game/g_maprotation.c:609-648 | the cvar is written and read through a buffer of `MAX_MAP_ROTATIONS * 2` characters, so text longer than 31 characters is cut | eleven rotations whose current map is 10 serialise to 33 characters; the cut turns the last `10` into `1`, and rotation 10 reads back map 1 | reading the cvar back gives the indices that were written | not executed | CurrentMap.AsWrittenMisreadsIndex | CurrentMap.GetAfterSet |
| src/game/g_maprotation.c:290-300 | the candidate loop of a `*VOTE*`/`*RANDOM*` section ends only on `}` or a `NULL` token, and `COM_Parse` returns `""` at the end of the text, never `NULL` | a file ending in `*VOTE* { a b` | the end of the text ends the section | not executed | ParserProperties.UnterminatedSectionNeverEnds | RotationParser.Candidates |
| src/game/g_maprotation.c:849 | a rotation with no maps loads and validates, and advancing it computes `( currentMap + 1 ) % 0` | the rotation file `r { }`, then starting and advancing `r` | a rotation without maps is not advanced | not executed | RotationFile.EmptyRotationLoads | Advance.AdvanceOutcome |

# browser-games: a verified model of the game rules

The repository is a set of small browser games built on the Phaser
engine: Anagram, Bug Sequence, Memo, Double and Colors. They share a core
made of:

- a context that holds the registered levels and the player's session;
- a bootstrapper that numbers the levels and registers the scenes;
- level settings with defaults;
- a game-scene base that keeps the score and the score the current round is worth, decaying it on every tick of a countdown clock;
- a health bar that signals "health over";
- a results dialog that decides which level to unlock and builds the callback URL.

This project models that core and the round rules of each game in Dafny,
and proves what the code promises about them.

Objects whose fields the games update in place are classes whose methods
state their whole new state: the context, the bootstrapper, the game
base, the clock, the health bar, the grids, the plates and the game
scenes. Pure computations are functions with lemmas about them: the
level lookups, the decay step, the unlock decision, the URL, the anagram
test and the board construction.

The engine's random sources are parameters:
- a shuffle is a given permutation of the indices;
- `getRandom` and `Math.random` are a given fraction num/den in [0, 1);
- an element drawn from a list is a given index.

Each async click handler is one atomic step. The anagram handler is cut at its
`await`, so its in-progress flag has something to guard.

Where the text and the code differ, the model follows the code. The exceptions are the defects under "## Findings": the code as written is modelled and its defect exhibited, but the rest of the model builds on the corrected behaviour, and the members that do so are named under "## Left out". Otherwise:

- `Anagram.check` only compares the counts of the characters of the first word, so a second word with extra letters still passes `check(first, second)`. It is not a multiset equality. `Anagrams.ExtraLettersIgnored` states this, and `Anagrams.SameLengthIsAnagram` shows the two agree when the normalised words have the same length.
- The memo scene builds its grid with the level's row count for both the rows and the columns (src/games/memo/scenes/game.ts:96-97). `MemoGames.MemoGame.constructor` does the same.

The engine's container removal is modelled in `Plates.RemoveBetween`: the end index of `removeBetween` is exclusive, and a range outside the list removes nothing.

## Model

| member | source | states |
|---|---|---|
| Contexts.Context.constructor | src/core/context.ts:14-20 | the assets path is `assets/` followed by the game id; the boot scene and config are stored; levels, scenes and session start empty |
| Contexts.FindIndex | src/core/context.ts:46 | -1 exactly when no level has the value; otherwise the first index whose level has it |
| Contexts.CurrentLevel | src/core/context.ts:22-41 | no levels fails; a falsy session level gives the first level; a session level gives the first level with that value, and fails exactly when no level has it |
| Contexts.NextLevel | src/core/context.ts:43-55 | fails exactly when the current level fails; otherwise the level after the current one, or the current one when it is last |
| Contexts.FindIndexConsecutive | src/core/context.ts:46 | with values start, start+1, ... the index of v is v - start inside that range and -1 outside it |
| Contexts.CurrentLevelNumbered | src/core/context.ts:29-38 | with levels numbered 1..n, session level 0 gives level 1, v in 1..n gives the v-th level, anything else is the unknown-level error |
| Contexts.NextLevelNumbered | src/core/context.ts:43-55 | with levels numbered 1..n, the level after v is v+1, and after n it is n again: the lookup is clamped and never wraps |
| Contexts.NextLevelWithoutSession | src/core/context.ts:43-55 | with no session level the next level is the second one, or the only one |
| Contexts.Context.GetCurrentLevel | src/core/context.ts:22-41 | the context's current level: with no levels it fails with the "no levels" error, and a level it returns is one of the registered levels |
| Contexts.Context.GetNextLevel | src/core/context.ts:43-55 | the context's next level: fails exactly when the current level does, and a level it returns is one of the registered levels |
| Bootstrappers.ValidateConfig | src/core/bootstrapperBase.ts:65-72 | passes exactly when the timer limit is defined and at least 10; a falsy limit gives the undefined error, a limit below 10 the too-low error |
| Bootstrappers.RegistrationNumbers | src/core/bootstrapperBase.ts:52-57 | registering n levels into an empty context numbers them 1..n in order and changes nothing else of each |
| Bootstrappers.AddLevelKeepsNumbering | src/core/bootstrapperBase.ts:52-57 | one more `addLevel` extends the numbering 1..n to 1..n+1 and keeps the earlier levels |
| Bootstrappers.RegisteredSceneKept | src/core/bootstrapperBase.ts:59-63 | a registered key keeps its scene whatever is registered after it |
| Bootstrappers.FirstSceneWins | src/core/bootstrapperBase.ts:59-63 | a new key ends up with the scene of its first registration |
| Bootstrappers.Reparsed | src/core/bootstrapperBase.ts:32-35 | `Number.parseInt(n.toString())` gives back n |
| Bootstrappers.Bootstrapper.constructor | src/core/bootstrapperBase.ts:12-16 | the key is the game id followed by `_bootstrapper`; a fresh context holds that key as its only scene |
| Bootstrappers.Bootstrapper.AddLevel | src/core/bootstrapperBase.ts:52-57 | the level is appended with value 1 (first) or the last value plus one; scenes and session unchanged |
| Bootstrappers.Bootstrapper.AddScene | src/core/bootstrapperBase.ts:59-63 | the scene is set only when its key is not registered yet; nothing else changes |
| Bootstrappers.Bootstrapper.RegisterScenes | src/games/memo/bootstrapper.ts:26-30 | the scenes become those of `addScene` applied to each pair in turn |
| Bootstrappers.Bootstrapper.RegisterLevels | src/games/memo/bootstrapper.ts:18-24 | the levels become the old ones followed by each given level renumbered by `addLevel` |
| Bootstrappers.Bootstrapper.Init | src/core/bootstrapperBase.ts:25-38 | levels registered, callback URL and session stored; succeeds exactly when a session with a timestamp is given |
| Bootstrappers.Create | src/core/bootstrapperBase.ts:12-19 | succeeds exactly when the timer limit passes validation, with the error of the validation otherwise; the new context holds the bootstrapper scene and then the game's scenes |
| Levels.ValidSettings | src/core/level.ts:35-64 | an undefined config gives 100/5/20/100; otherwise each falsy setting on its own takes its default and every other field is kept |
| Levels.ValidSettingsIdempotent | src/core/level.ts:35-64 | normalising a normalised config changes nothing |
| Levels.CompleteSettingsKept | src/core/level.ts:47-63 | a config with every setting truthy is returned unchanged |
| Levels.ZeroTakesDefault | src/core/level.ts:51-61 | a zero counts as missing: chargePoints 0 becomes 5 and nextLevelTreshold 0 becomes 100 |
| Levels.LevelOf | src/core/level.ts:10-18 | the level holds the value and copies the normalised settings verbatim |
| Levels.LevelConfig.constructor | src/core/level.ts:27-33 | the config object holds the given settings |
| Levels.GetValidConfig | src/core/level.ts:35-64 | fills the passed object in place (or builds a fresh one when there is none) so that it holds the normalised settings |
| Levels.NewLevel | src/core/level.ts:10-18 | the level is built from the normalised settings, and a passed config is normalised in place |
| GameBases.Charged | src/core/scenes/gameBase.ts:333-342 | one tick gives max(minPoints, roundScore - chargePoints): never below the minimum, even from below it |
| GameBases.ChargedTicks | src/core/scenes/gameBase.ts:333-342 | with a non-negative charge, k ticks give max(minPoints, roundScore - k * chargePoints) |
| GameBases.GameBase.constructor | src/core/scenes/gameBase.ts:30-34 | score and roundScore start at 0 with no level; the clock counts from the timer limit and the health bar holds 3 |
| GameBases.GameBase.OnInit | src/core/scenes/gameBase.ts:84-93 | succeeds exactly when the current level resolves (no levels is the no-levels error); then the round is worth that level's award |
| GameBases.GameBase.AddScore | src/core/scenes/gameBase.ts:218-222 | score grows by v and the new score is returned |
| GameBases.GameBase.CalcRoundScore | src/core/scenes/gameBase.ts:333-342 | roundScore becomes `Charged` of the old one; score and level unchanged |
| GameBases.GameBase.ClockTick | src/core/scenes/gameBase.ts:180 | the clock ticks as `TickStep` says and the round score is charged once |
| GameBases.GameBase.OnCompleteHandler | src/core/scenes/gameBase.ts:319-322 | the clock is reset and the score goes back to 0 |
| GameBases.GameBase.OnDispose | src/core/scenes/gameBase.ts:207-211 | the score goes back to 0 and the clock is reset |
| GameBases.GameBase.ShowGameResults | src/games/memo/scenes/game.ts:86-90 | the clock is reset and the dialog shows what `ShowModal` computes for the score |
| GameBases.GameBase.TimerCallback | src/core/objects/clock.ts:128-145 | the tick, and results shown exactly when the tick completes the timer |
| Healthbars.HealthbarConfig.constructor | src/core/objects/healthbar.ts:104-110 | the config holds the given amount and texture |
| Healthbars.GetValidConfig | src/core/objects/healthbar.ts:112-121 | a falsy amount becomes 3 and a falsy texture "heart"; other values kept |
| Healthbars.KillStep | src/core/objects/healthbar.ts:35-54 | at health <= 0 nothing changes and nothing is returned; otherwise health drops by one and is returned; "healthOver" exactly on reaching 0 |
| Healthbars.HealthOverOnce | src/core/objects/healthbar.ts:35-54 | n kills from h emit "healthOver" once if 0 < h <= n and never otherwise, and health stops at 0 |
| Healthbars.Healthbar.constructor | src/core/objects/healthbar.ts:8-25 | health starts at the normalised amount |
| Healthbars.Healthbar.KillHealth | src/core/objects/healthbar.ts:35-54 | the new health, the value returned and whether "healthOver" fired are `KillStep` of the old health |
| Healthbars.Healthbar.Reset | src/core/objects/healthbar.ts:56-63 | health is the configured amount again |
| Clocks.TimerConfig.constructor | src/core/objects/clock.ts:152-165 | the config holds the given start time and start flag |
| Clocks.GetValidConfig | src/core/objects/clock.ts:170-202 | a falsy start time becomes 45 and a falsy `startImmediately` false |
| Clocks.TickStep | src/core/objects/clock.ts:128-138 | above 0 the value counts down by one; at 0 the timer completes and the start time comes back |
| Clocks.CompletesOneTickAfterZero | src/core/objects/clock.ts:128-138 | from v >= 0, v ticks count down to 0 without completing, and completion fires on tick v+1, leaving the start time |
| Clocks.FormattedTimerValue | src/core/objects/clock.ts:147-149 | five characters `MM:SS`: the minutes and seconds of t modulo one hour, zero-padded |
| Clocks.FormattedReadsBack | src/core/objects/clock.ts:147-149 | the text reads back as t modulo 3600, and as t itself below one hour |
| Clocks.Clock.constructor | src/core/objects/clock.ts:11-48 | the value starts at the normalised start time; the timer runs only with `startImmediately` |
| Clocks.Clock.Paused | src/core/objects/clock.ts:50-56 | paused exactly when a timer event exists and is paused |
| Clocks.Clock.SetPaused | src/core/objects/clock.ts:58-62 | sets the event's flag, and does nothing without an event |
| Clocks.Clock.Start | src/core/objects/clock.ts:72-74 | a new running timer event |
| Clocks.Clock.Pause | src/core/objects/clock.ts:76-82 | the event (if any) is paused afterwards, whatever it was before |
| Clocks.Clock.Resume | src/core/objects/clock.ts:84-90 | the event (if any) is running afterwards, whatever it was before |
| Clocks.Clock.Reset | src/core/objects/clock.ts:92-97 | with an event, destroys it and restores the start time; without one, changes nothing |
| Clocks.Clock.UpdateTimer | src/core/objects/clock.ts:128-145 | the new value and completion are `TickStep` of the old value; the value passed on is the new one |
| ResultsDialogs.RecordColor | src/core/resultsDialog.ts:104-109 | the highlight colour exactly when the score beats the saved highscore |
| ResultsDialogs.Unlocks | src/core/resultsDialog.ts:134-138 | the unlock condition: never at the last level, where the next level is the current one, and never for a level whose threshold is 0 |
| ResultsDialogs.LevelToUnlock | src/core/resultsDialog.ts:134-143 | the next level exactly when the levels differ, the threshold is not 0 and the score reaches it; otherwise the current level |
| ResultsDialogs.Title | src/core/resultsDialog.ts:138-147 | the congratulation exactly when a level is unlocked, else "Results" |
| ResultsDialogs.CallbackUrl | src/core/resultsDialog.ts:151 | the query starts with `?` |
| ResultsDialogs.UrlFields | src/core/resultsDialog.ts:151 | the query has eight `key=value` fields, in the order gameId, playerId, sessionId, rank, highscore, level, timestamp, signature |
| ResultsDialogs.CallbackUrlReadsBack | src/core/resultsDialog.ts:151 | split on `&`, the query gives the eight fields in order; the highscore field parses to this game's score and the level field to the unlocked level |
| ResultsDialogs.NumberHasNoAmpersand | src/core/resultsDialog.ts:151 | a number written in decimal holds no `&` |
| ResultsDialogs.FieldsHaveNoAmpersand | src/core/resultsDialog.ts:151 | no field of the query holds `&` when the session texts hold none |
| ResultsDialogs.ShowModal | src/core/resultsDialog.ts:99-154 | fails exactly when there is no session or no current level; otherwise colour, unlocked level, title, score text and URL as above |
| ResultsDialogs.LastLevelUnlocksNothing | src/core/resultsDialog.ts:129-143 | at the last level the unlocked level is the current one, whatever the score |
| ResultsDialogs.UnlockNumbered | src/core/resultsDialog.ts:134-143 | with levels 1..n and a positive threshold, level v < n unlocks v+1 exactly when the score reaches the threshold |
| Utils.GetRandom | src/core/utils.ts:11-13 | for min <= max the value lies in [min, max] |
| Utils.IndexOf | src/core/utils.ts:48 | -1 exactly when the item is absent; otherwise the first index holding it |
| Utils.SpliceOne | src/core/utils.ts:49 | removes the one element at the start index, counted from the end when negative; nothing past the end |
| Utils.RemovePresent | src/core/utils.ts:47-50 | a present item loses its first occurrence and the rest keep their order |
| Utils.RemoveAbsent | src/core/utils.ts:47-50 | an absent item: the last element is removed instead, and an empty array stays empty |
| Utils.RemoveLength | src/core/utils.ts:47-50 | a non-empty array loses exactly one element, and only elements it held |
| Utils.JsArray.constructor | src/core/utils.ts:47 | the array holds the given items |
| Utils.JsArray.Remove | src/core/utils.ts:47-50 | the items become `RemoveFromArray` of the old ones |
| Utils.GetRandomItem | src/core/utils.ts:52-56 | undefined exactly on an empty array; otherwise one of its elements |
| Anagrams.Strip | src/games/anagram/anagram.ts:13-14 | keeps exactly the `\w` characters, each as often as in the input, in order |
| Anagrams.StripConcat | src/games/anagram/anagram.ts:13-14 | stripping distributes over concatenation |
| Anagrams.Normalize | src/games/anagram/anagram.ts:13-14 | the normalised word is no longer than the input and holds only `\w` characters, none of them an upper-case letter |
| Anagrams.NormalizeIdempotent | src/games/anagram/anagram.ts:13-14 | a normalised word normalises to itself |
| Anagrams.NormalizeKeepsMultiset | src/games/anagram/anagram.ts:13-14 | words with the same characters normalise to words with the same characters |
| Anagrams.GetCharMap | src/games/anagram/anagram.ts:44-50 | the keys are exactly the string's characters, each mapped to its number of occurrences |
| Anagrams.Check | src/games/anagram/anagram.ts:12-26 | true exactly when every character of the normalised first word occurs equally often in the normalised second |
| Anagrams.CharMapsAgree | src/games/anagram/anagram.ts:19-25 | comparing the two count maps on the first map's keys is the same as comparing the words' counts |
| Anagrams.PermutationAccepted | src/games/anagram/anagram.ts:12-26 | a rearrangement of the first word is accepted, in both directions |
| Anagrams.ExtraLettersIgnored | src/games/anagram/anagram.ts:19-25 | letters the second word has on top are ignored: the test passes one way and fails the other |
| Anagrams.SameLengthIsAnagram | src/games/anagram/anagram.ts:19-25 | when the normalised words have the same length the test is exactly multiset equality |
| Anagrams.Shuffle | src/games/anagram/anagram.ts:28-42 | the characters in the drawn order, with the last one replaced by the drawn letter when asked |
| Anagrams.ShuffledWord | src/games/anagram/anagram.ts:28-42 | the shuffled word has the input's length, and with replacement a non-empty word ends in a letter a-z |
| Anagrams.ShufflePermutes | src/games/anagram/anagram.ts:33-41 | without replacement: same length, same characters, and `check` accepts it both ways |
| Anagrams.ShuffleReplacesLast | src/games/anagram/anagram.ts:29-39 | with replacement a non-empty word keeps its length, the other characters are the shuffled ones and the last is a letter a-z |
| AnagramScreens.ScreenChoicesConfig.constructor | src/games/anagram/objects/screenChoices.ts:143-150 | the config holds the given text and count |
| AnagramScreens.GetValidConfig | src/games/anagram/objects/screenChoices.ts:152-158 | a falsy choice count becomes 4; the text is kept |
| AnagramScreens.Generated | src/games/anagram/objects/screenChoices.ts:121-126 | one word per draw, each of the text's length, and every word but the `choicesCount`-th ends in a letter a-z when the text is not empty |
| AnagramScreens.Dealt | src/games/anagram/objects/screenChoices.ts:121-128 | as many choices as draws, and exactly the generated words (as a multiset) in the shuffled order |
| AnagramScreens.DealtShape | src/games/anagram/objects/screenChoices.ts:121-131 | `choicesCount` choices are dealt, they are the generated words rearranged, and each but the last generated ends in a letter a-z with the text's length |
| AnagramScreens.CorrectChoiceDealt | src/games/anagram/objects/screenChoices.ts:121-128 | the last generated word is a true anagram of the text, so some dealt choice always passes `check` |
| AnagramScreens.ScreenChoices.constructor | src/games/anagram/objects/screenChoices.ts:14-36 | the count is normalised, the text kept as given and the choices dealt from it |
| AnagramScreens.ScreenChoices.AddChoices | src/games/anagram/objects/screenChoices.ts:116-134 | the generated words are appended and the whole list is then permuted by the drawn order |
| AnagramScreens.ScreenChoices.RemoveChoices | src/games/anagram/objects/screenChoices.ts:136-140 | no choices remain |
| AnagramScreens.ScreenChoices.SetText | src/games/anagram/objects/screenChoices.ts:46-50 | the screen shows the word upper-cased and exactly the newly dealt choices remain |
| AnagramGames.AnagramGame.constructor | src/games/anagram/scenes/game.ts:17-26 | score 0, no check running, an empty screen with four choices |
| AnagramGames.AnagramGame.StartNewRound | src/games/anagram/scenes/game.ts:40-50 | the round is worth the level's award and the screen shows the word with newly dealt choices |
| AnagramGames.AnagramGame.CheckWord | src/games/anagram/scenes/game.ts:59-77 | ignored while a check runs; otherwise correct exactly when `check(choice, screen)` passes; a correct choice ends the check and adds the round score, a wrong one keeps the check running and adds nothing |
| AnagramGames.AnagramGame.ClickChoice | src/games/anagram/scenes/game.ts:44-48 | a click checks that button's text as the first word against the screen's |
| AnagramGames.AnagramGame.WrongResultShown | src/games/anagram/scenes/game.ts:68-71 | one life is lost, the results show exactly when that was the last, and the check ends |
| AnagramGames.RoundWinnable | src/games/anagram/objects/screenChoices.ts:121-128 | with four choices some choice of every round is accepted |
| BugsGrids.BugsGridConfig.constructor | src/games/bugsequence/objects/bugsGrid.ts:162-174 | the config holds the given rows, columns, count and duration, and nothing else |
| BugsGrids.GetValidNumbers | src/games/bugsequence/objects/bugsGrid.ts:187-204 | falsy width, height, rows, columns, count and duration take 100, 100, 6, 4, 3 and 1000 |
| BugsGrids.GetValidConfig | src/games/bugsequence/objects/bugsGrid.ts:186-216 | every falsy field takes its own default, the textures included |
| BugsGrids.AsWrittenDropsRows | src/games/bugsequence/objects/bugsGrid.ts:21-22 | the grid as written has 16 bugs for the default 6 x 4, rows 4 and 5 have no cells, and any config with more rows than columns loses bugs |
| BugsGrids.AsWrittenBugCount | src/games/bugsequence/objects/bugsGrid.ts:21-22 | the grid as written ignores the row count: it is the square grid of the column count, `columns * columns` bugs for positive columns |
| BugsGrids.BugCount | src/games/bugsequence/objects/bugsGrid.ts:21-22 | the grid the configuration asks for: `rows * columns` bugs when both are positive, none otherwise |
| BugsGrids.BugPerCell | src/games/bugsequence/objects/bugsGrid.ts:21-22 | the corrected grid has rows x columns bugs, one per cell, with no two cells sharing one |
| BugsGrids.BugsGrid.constructor | src/games/bugsequence/objects/bugsGrid.ts:13-37 | the config is normalised, the grid has the corrected `BugCount` (rows x columns) bugs rather than the as-written columns x columns, all unrevealed, in creation order, with no active bug and no reveal running |
| BugsGrids.BugsGrid.ResetBugs | src/games/bugsequence/objects/bugsGrid.ts:144-159 | every bug of the grid is unrevealed and the reset flag is set |
| BugsGrids.BugsGrid.ShuffleBugs | src/games/bugsequence/objects/bugsGrid.ts:68-92 | the children are permuted; all bugs are reset unless the flag was set; it succeeds exactly when the count fits, with the first `count` children active; otherwise it throws with every child active and the flag left set |
| BugsGrids.BugsGrid.StartReveal | src/games/bugsequence/objects/bugsGrid.ts:51-56 | starts exactly when no reveal is running; a reveal is running afterwards |
| BugsGrids.BugsGrid.FinishReveal | src/games/bugsequence/objects/bugsGrid.ts:65 | the reveal is over; nothing else changes |
| BugsGrids.ActiveBugsDistinct | src/games/bugsequence/objects/bugsGrid.ts:77-89 | the active bugs are distinct bugs of the grid |
| BugsGrids.Create | src/games/bugsequence/objects/bugsGrid.ts:13-41 | construction succeeds exactly when the normalised count fits the corrected grid of rows x columns bugs (not the as-written columns x columns), and then every bug is unrevealed and the first bugs of the shuffle are active |
| BugSequenceGames.BugSequenceGame.constructor | src/games/bugsequence/scenes/game.ts:17-21 | score 0, no callback set, every bug unrevealed |
| BugSequenceGames.BugSequenceGame.AllBugsRevealed | src/games/bugsequence/scenes/game.ts:128-131 | true exactly when every active bug is revealed, which under the invariant means the whole sequence was found |
| BugSequenceGames.BugSequenceGame.Accept | src/games/bugsequence/scenes/game.ts:104-111 | the next bug of the sequence is revealed, the revealed prefix grows by one, and the result tells whether it was the last |
| BugSequenceGames.BugSequenceGame.ClickBug | src/games/bugsequence/scenes/game.ts:96-124 | before the callbacks are set, or on a revealed or inactive bug, nothing changes; otherwise the bug is accepted exactly when it is the next of the sequence and rejected exactly when it lies further on; the revealed bugs stay a prefix of the sequence |
| BugSequenceGames.BugSequenceGame.WrongResultShown | src/games/bugsequence/scenes/game.ts:116-121 | after a wrong click every bug is unrevealed, so the sequence starts over |
| BugSequenceGames.BugSequenceGame.CompleteRound | src/games/bugsequence/scenes/game.ts:52-59 | the round's score is added and returned |
| BugSequenceGames.BugSequenceGame.StartNewRound | src/games/bugsequence/scenes/game.ts:39-50 | the round is worth the level's award, the children are reshuffled, the first bugs become active, every bug is unrevealed and no callback is set |
| BugSequenceGames.BugSequenceGame.BeginReveal | src/games/bugsequence/scenes/game.ts:43-46 | the clock is paused after the first round; the reveal starts exactly when none runs, and when one runs the callbacks are set at once |
| BugSequenceGames.BugSequenceGame.RevealFinished | src/games/bugsequence/scenes/game.ts:92-126 | the callbacks are set on the active bugs, the reveal is over, and the clock starts (first round) or resumes |
| BugSequenceGames.BugSequenceGame.ShowGameResults | src/games/bugsequence/scenes/game.ts:61-65 | the dialog shows what `ShowModal` computes for the score |
| BugSequenceGames.CreateGame | src/games/bugsequence/scenes/game.ts:67-90 | succeeds exactly when the level's sequence fits the corrected grid of rows x columns bugs, with score 0 and no callback set |
| CardsGrids.CardsGridConfig.constructor | src/games/memo/objects/cardsGrid.ts:154-163 | the config holds the given card, row and column counts, with no size and no reveal duration |
| CardsGrids.GetValidConfig | src/games/memo/objects/cardsGrid.ts:177-198 | falsy width, height and card count take 100, 100 and 4; falsy rows and columns take half the card count after its default; a falsy reveal duration takes 1000 |
| CardsGrids.Apply | src/games/memo/objects/card.ts:53-74 | flip-back and set-back end with the back up, flip-open and set-front with the front up, disable and enable switch clicks; no operation touches the front texture or the revealed flag |
| CardsGrids.ApplyIdempotent | src/games/memo/objects/cardsGrid.ts:47-85 | applying a bulk operation twice is applying it once |
| CardsGrids.DealtTexture | src/games/memo/objects/cardsGrid.ts:88-97 | the texture a child is dealt lies in 1..67 |
| CardsGrids.DealtInPairs | src/games/memo/objects/cardsGrid.ts:90-98 | before the final shuffle children 2k and 2k+1 receive the same texture, and every texture lies in 1..67 |
| CardsGrids.PairedEvenCounts | src/games/memo/objects/cardsGrid.ts:90-98 | a sequence of equal neighbours 2k, 2k+1 holds every value an even number of times |
| CardsGrids.DealtEvenCounts | src/games/memo/objects/cardsGrid.ts:90-98 | with an even number of children every texture is dealt an even number of times |
| CardsGrids.ShuffledEvenCounts | src/games/memo/objects/cardsGrid.ts:87-101 | the final shuffle only permutes, so every texture still occurs an even number of times |
| CardsGrids.CardsGrid.constructor | src/games/memo/objects/cardsGrid.ts:11-41 | the config is normalised, one card per cell is created front up, unrevealed and clickable, and the textures are dealt in pairs and shuffled |
| CardsGrids.CardsGrid.ShuffleCards | src/games/memo/objects/cardsGrid.ts:87-101 | the children are permuted and, in the new order, show the pair-dealt textures permuted the same way; nothing but the textures changes on the cards |
| CardsGrids.CardsGrid.DealTextures | src/games/memo/objects/cardsGrid.ts:88-98 | the child at position k, in the current order, gets the texture dealt to position k; flags and faces are kept |
| CardsGrids.CardsGrid.ApplyAll | src/games/memo/objects/cardsGrid.ts:47-85 | every card is the old card under the bulk operation |
| MemoGames.RevealPair | src/games/memo/scenes/game.ts:119-125 | revealing two different unrevealed cards with the same front adds two to that front's revealed count and nothing to any other |
| MemoGames.MemoGame.constructor | src/games/memo/scenes/game.ts:92-116 | the grid is built from the level's card count, with the level's row count for both rows and columns; score 0, no pending card, and the revealed cards come in pairs |
| MemoGames.MemoGame.AllCardsRevealed | src/games/memo/scenes/game.ts:138 | true exactly when every card is revealed |
| MemoGames.MemoGame.ResetRevealed | src/games/memo/scenes/game.ts:140-142 | every card loses its revealed flag and nothing else |
| MemoGames.MemoGame.RevealMatch | src/games/memo/scenes/game.ts:122-123 | the two cards are marked revealed and the revealed cards still come in pairs |
| MemoGames.MemoGame.CheckPrevCard | src/games/memo/scenes/game.ts:118-137 | a different pending card with the same front gives a revealed pair; any other pending card, the picked card itself included, turns both back and costs a life, showing the results exactly when that was the last; with none pending the picked card becomes pending; the revealed cards stay paired |
| MemoGames.MemoGame.CompleteIfAllRevealed | src/games/memo/scenes/game.ts:138-144 | completes exactly when every card was revealed, then every card is unrevealed and the round score is added; otherwise nothing changes |
| MemoGames.MemoGame.PickCard | src/games/memo/objects/card.ts:28-38 | a disabled or revealed card ignores the pick; otherwise the card turns and `checkPrevCard` decides; a round completes only through a match and leaves every card unrevealed |
| MemoGames.MemoGame.StartNewRound | src/games/memo/scenes/game.ts:55-62 | the round is worth the level's award, the clock is paused, the cards are dealt anew and shown front up with clicks off |
| MemoGames.MemoGame.RoundShown | src/games/memo/scenes/game.ts:68-71 | every card shows its back and takes clicks, keeping its front and revealed flag, and the clock resumes |
| MemoGames.MemoGame.OnDispose | src/games/memo/scenes/game.ts:147-150 | the score goes back to 0 and no card is pending |
| DoubleGames.Indexes | src/games/double/scenes/game.ts:99-100 | the shuffled textures: position i holds texture p[i] + 1, nine of them |
| DoubleGames.Board1 | src/games/double/scenes/game.ts:102-110 | plate 1 gets five new objects, with the first five shuffled textures in order |
| DoubleGames.Board2 | src/games/double/scenes/game.ts:102-120 | plate 2 gets new objects with the last four shuffled textures, then a second object with the fifth |
| DoubleGames.BoardShape | src/games/double/scenes/game.ts:99-120 | the ten objects are new, shown, unselected, with distinct identities and textures 1..9; no plate holds a texture twice; an object of plate 1 shares its texture with one of plate 2 exactly when both are the fifth |
| DoubleGames.SharedTexture | src/games/double/scenes/game.ts:99-120 | of plate 1's objects exactly the fifth has a texture that plate 2 holds |
| DoubleGames.OnlyPairOfRound | src/games/double/scenes/game.ts:99-120 | two different objects of a new round share a texture exactly when they are the fifth of plate 1 and the fifth of plate 2 |
| DoubleGames.Ids | src/games/double/scenes/game.ts:124 | the k-th identity is that of the k-th object: the scene compares objects by reference |
| DoubleGames.DoubleGame.constructor | src/games/double/scenes/game.ts:67-93 | two distinct empty plates, both hidden, score 0 and no selection |
| DoubleGames.DoubleGame.AddNew | src/games/double/objects/plate.ts:127-132 | a new shown, unselected object with a fresh identity goes at the end of the chosen plate; the other plate is unchanged and identities stay distinct |
| DoubleGames.DoubleGame.AddShuffled | src/games/double/scenes/game.ts:103-113 | iteration i adds the i-th object of plate 1's board for i <= 4, and object i - 5 of plate 2's board for i from 5 to 8 |
| DoubleGames.DoubleGame.AddObjects | src/games/double/scenes/game.ts:95-121 | plate 1 gains exactly `Board1` and plate 2 exactly `Board2`, the ten identities fresh; nothing else changes |
| DoubleGames.DoubleGame.StartNewRound | src/games/double/scenes/game.ts:47-52 | the round is worth the level's award, the boards are added and both plates are shown |
| DoubleGames.DoubleGame.Begin | src/games/double/scenes/game.ts:30-33 | the first round starts and then a running timer event is created |
| DoubleGames.DoubleGame.ChangeEverywhere | src/games/double/scenes/game.ts:127-136 | the object with the identity gets the change on whichever plate holds it; everything else is kept |
| DoubleGames.DoubleGame.SettlePair | src/games/double/scenes/game.ts:127-138 | both objects of the pair get the same change and the selection is cleared |
| DoubleGames.DoubleGame.ClickObject | src/games/double/scenes/game.ts:123-143 | a hidden object is ignored; otherwise it is selected, and a different earlier selection with the same texture hides and deselects both and adds the round score, one with another texture deselects both at no cost, and otherwise the object becomes the selection |
| DoubleGames.DoubleGame.RoundCleared | src/games/double/scenes/game.ts:58-64 | both plates are emptied by the corrected removal (as written each would keep its last object), and the next round's boards are then exactly their objects |
| DoubleGames.DoubleGame.ShowGameResults | src/games/double/scenes/game.ts:145-156 | both plates are emptied by the corrected removal (as written each would keep its last object), and the dialog shows what `ShowModal` computes for the score |
| DoubleGames.DoubleGame.OnDispose | src/games/double/scenes/game.ts:158-161 | the score goes back to 0 and the selection is forgotten |
| Plates.NewSprite | src/games/double/objects/spriteObject.ts:9-17 | a new object has its identity and texture, is shown and is not selected |
| Plates.Apply | src/games/double/objects/spriteObject.ts:20-45 | a click selects, `resetState` deselects, a found pair is also hidden; identity and texture are kept |
| Plates.Changed | src/games/double/scenes/game.ts:127-136 | only the objects with the identity change, and they change as `Apply` says; length, identities and textures are kept |
| Plates.Plate.constructor | src/games/double/objects/plate.ts:76-78 | a new plate is shown and holds no object |
| Plates.Plate.SetVisible | src/games/double/objects/plate.ts:90-93 | the plate's visibility is the value; its objects are unchanged |
| Plates.Plate.AddObject | src/games/double/objects/plate.ts:127-132 | the object is appended after the others |
| Plates.RemoveBetween | src/games/double/objects/plate.ts:135 | the engine's removal of the children from start up to, not including, end: a range inside the list removes exactly those, any other removes nothing |
| Plates.RemoveAllKeepsLast | src/games/double/objects/plate.ts:134-137 | with the background as first child, removing from 1 to length - 1 leaves the background and the last object |
| Plates.Plate.RemoveAllObjectsAsWritten | src/games/double/objects/plate.ts:134-137 | as written the last object stays on a plate that held any |
| Plates.Plate.RemoveAllObjects | src/games/double/objects/plate.ts:134-137 | as intended: no object remains; visibility is unchanged |
| Plates.Plate.ChangeObject | src/games/double/scenes/game.ts:127-136 | the plate's objects become `Changed` of the old ones |
| Plates.Plate.ContainsAsWritten | src/games/double/objects/plate.ts:80-88 | as written the answer is always false |
| Plates.Plate.Contains | src/games/double/objects/plate.ts:80-88 | as intended: true exactly when some object on the plate has the object's texture |
| Plates.Plate.ContainsCounterexample | src/games/double/objects/plate.ts:80-88 | asked about one of its own objects, the plate holds that texture, yet the as-written answer is false while the intended one is true |
| ColorsGames.ColorsOf | src/games/colors/scenes/game.ts:33-35 | one colour per word, in the words' order |
| ColorsGames.FloorDiv | src/games/colors/scenes/game.ts:90 | `Math.floor(a / b)`: the largest q with q * b <= a for positive b, and the matching bound for negative b |
| ColorsGames.OwnColorCadence | src/games/colors/scenes/game.ts:90-98 | with positive `minCorrectItems` and a time limit at least as large, a word shows its own colour exactly on the multiples of the factor, so the cadence has the factor's period; with a shorter limit it never does |
| ColorsGames.ShowsOwnColor | src/games/colors/scenes/game.ts:90-98 | a word is never shown in its own colour without a time limit (start time 0), nor when the time limit is below a positive `minCorrectItems` |
| ColorsGames.SmallFactor | src/games/colors/scenes/game.ts:90 | `Math.floor(startTime / minCorrectItems)` is 0 for a zero start time and for one below a positive divisor |
| ColorsGames.Multiples | src/games/colors/scenes/game.ts:96 | a tick count has remainder 0 by the factor exactly when it is a multiple of it |
| ColorsGames.ScoresExactlyOnOwnColor | src/games/colors/scenes/game.ts:134 | a word whose colour has no upper-case letter scores exactly when shown in its own colour; one with an upper-case letter never scores in its own colour, because only `originalColor` is lower-cased |
| ColorsGames.ColorsGame.constructor | src/games/colors/scenes/game.ts:16-39 | score 0, no live word, tick count 0, no spawn event, and the colours are the words' colours in order |
| ColorsGames.ColorsGame.Begin | src/games/colors/scenes/game.ts:41-46 | the spawn event exists and a running timer event is created; the words and the tick count are kept |
| ColorsGames.ColorsGame.GetRandomColor | src/games/colors/scenes/game.ts:124-131 | the first drawn colour that differs from the excluded one: never the excluded colour, always one of the colours; none exactly when every draw is the excluded colour, so always none when every colour is it |
| ColorsGames.ColorsGame.CreateRandomWord | src/games/colors/scenes/game.ts:85-122 | the picked word, upper-cased, with its normalised own colour and the level's duration; shown in its own colour exactly on the cadence, otherwise in another colour of the list |
| ColorsGames.ColorsGame.SpawnWords | src/games/colors/scenes/game.ts:54-69 | every tick is counted; nothing spawns while three words are live, so at most three ever are; a spawn makes the round worth the level's award and appends the new word |
| ColorsGames.ColorsGame.WordTimedOut | src/games/colors/scenes/game.ts:65-68 | the word leaves the live words as `removeFromArray` does it |
| ColorsGames.ColorsGame.ShowGameResults | src/games/colors/scenes/game.ts:71-76 | the spawn event is destroyed, the clock reset, and the dialog shows what `ShowModal` computes for the score |
| ColorsGames.ColorsGame.CheckWordColor | src/games/colors/scenes/game.ts:133-145 | a word shown in its own colour adds the round score and costs nothing; any other costs exactly one life, showing the results exactly when that was the last; either way the word leaves the live words |
| ColorsGames.ColorsGame.OnDispose | src/games/colors/scenes/game.ts:182-192 | no word is live, the spawn event is gone, the tick count is 0 and the score is 0 |
| ColoredWords.ColoredWordConfig.constructor | src/games/colors/objects/coloredWord.ts:131-143 | the config holds the given text, colour, duration and style |
| ColoredWords.NormalColor | src/games/colors/objects/coloredWord.ts:146-158 | a falsy colour is "#ffffff"; a given colour is lower-cased; the result is never empty and holds no upper-case letter |
| ColoredWords.GetValidConfig | src/games/colors/objects/coloredWord.ts:145-161 | the colour is normalised, the text upper-cased, a falsy duration becomes 2000 and a missing style one without a colour |
| ColoredWords.NormalisationIdempotent | src/games/colors/objects/coloredWord.ts:145-161 | normalising a normalised colour, text or duration changes nothing |
| ColoredWords.ColoredWord.constructor | src/games/colors/objects/coloredWord.ts:10-53 | the config is normalised; `originalColor` is the normalised data colour and `actualColor` the style's colour, or the engine's own when the style names none |
| Js.NumberOr | src/core/level.ts:47-61 | `if (!x) x = d`: undefined and 0 take the default, any other number is kept |
| Js.StringOr | src/games/colors/objects/coloredWord.ts:146-148 | `if (!s) s = d`: undefined and the empty string take the default, any other string is kept |
| Js.Lower | src/games/colors/objects/coloredWord.ts:158 | `toLowerCase` on ASCII: same length, each letter A-Z mapped to its lower case, everything else kept |
| Js.Upper | src/games/colors/objects/coloredWord.ts:159 | `toUpperCase` on ASCII: same length, each letter a-z mapped to its upper case, everything else kept |
| Js.LowerIdempotent | src/games/colors/objects/coloredWord.ts:158 | a lower-cased string holds no upper-case letter and lower-cases to itself |
| Js.UpperIdempotent | src/games/colors/objects/coloredWord.ts:159 | an upper-cased string holds no lower-case letter and upper-cases to itself |
| Js.IntToString | src/core/resultsDialog.ts:151 | the decimal text of an integral number starts with `-` exactly when the number is negative |
| Js.NatToString | src/core/resultsDialog.ts:151 | the decimal text of a non-negative integer is a non-empty run of digits without a leading zero (except for 0 itself) |
| Js.ParseInt | src/core/bootstrapperBase.ts:32-35 | `parseInt` of well-formed decimal text: unsigned text reads as a non-negative number, and only signed text reads as a negative one |
| Js.ParseIntToString | src/core/bootstrapperBase.ts:32-35 | the decimal text of a number is well formed and parses back to the number |
| Js.IntToStringInjective | src/core/resultsDialog.ts:151 | two numbers have the same decimal text exactly when they are equal |
| Js.Pad2 | src/core/objects/clock.ts:147-149 | two decimal digits that read back as the number |
| Js.SplitJoin | src/core/resultsDialog.ts:151 | splitting on the separator recovers the parts when no part contains it |
| Permutations.Permute | src/games/double/scenes/game.ts:100 | a shuffle: position i of the result holds the element at index p[i], with as many positions as p has |
| Permutations.PermutationCovers | src/games/memo/objects/cardsGrid.ts:100 | every index below n occurs in a shuffle of n elements |
| Permutations.PermutePreservesMultiset | src/games/anagram/objects/screenChoices.ts:128 | a shuffle keeps every element with its multiplicity |
| Permutations.PermuteDistinct | src/games/bugsequence/objects/bugsGrid.ts:70 | a shuffle of distinct elements has distinct elements |

## Left out

- Rendering, layout, tweens, sounds, the HUD labels, the spinner, the wrong-result overlay and `tweenCenterText`: they are engine widgets with no rule to state. A tween's completion callback is a method called when it ends (for example `MemoGames.MemoGame.RoundShown`, `DoubleGames.DoubleGame.RoundCleared`).
- The overlap placement of plate objects and colour words: floating-point geometry with unbounded resampling.
- Fetching `levels.json` and `words.json`, URL parsing, `open()` navigation, the launcher and the scene life cycle of sceneBase.ts: these are I/O. Parsed data is a parameter. Levels loaded from JSON are cast, not normalised, so the model takes their settings as given.
- The un-awaited `registerLevels` of `init`, and interleavings across `await`s: each handler is one step.
- The main menu, the letter buttons, the fullscreen button and the screen widget's rendering.
- BugsGrids.BugsGrid.constructor, BugsGrids.Create, BugSequenceGames.CreateGame: they build the corrected grid of rows x columns bugs (`BugCount`). As written (bugsGrid.ts:21-22) the grid has columns x columns bugs. So the shuffle range, the "too many active bugs" check and the success condition are stated for the corrected size. `BugsGrids.AsWrittenBugCount` and `BugsGrids.AsWrittenDropsRows` give the as-written size.
- DoubleGames.DoubleGame.RoundCleared, DoubleGames.DoubleGame.ShowGameResults: they empty the plates with the corrected `Plates.Plate.RemoveAllObjects`. As written (plate.ts:134-137) each plate keeps its last object, which after a cleared round is the matched pair's hidden object, and the next board is added after it. `Plates.Plate.RemoveAllObjectsAsWritten` and `Plates.RemoveAllKeepsLast` give the as-written removal.
- Js.Lower, Js.Upper: only the ASCII letters are mapped. JavaScript's `toLowerCase` and `toUpperCase` also map the other Unicode letters. The models' words and colour names are ASCII.
- Numbers are JavaScript doubles in the source and integers in the model. Fractional values from `levels.json` (for example a fractional threshold or duration), NaN and infinities are not modelled, except where `ColorsGames.ShowsOwnColor` states the infinite factor's effect.
- Js.ParseInt: defined only on well-formed decimal text, which is what the session's integer fields give when they are turned back into text.
- `Number.parseInt` on session fields that are not numbers (NaN): the session holds integers, and `Bootstrappers.Reparsed` covers integers.
- The clock: once destroyed, a timer event is taken to fire no further ticks, so `Clocks.Clock.UpdateTimer` requires a live, running event.
- Levels.NewLevel: the level keeps a copy of the settings; aliasing between the level and the passed config object is not modelled.
- AnagramScreens.ScreenChoices.constructor: the text passed to the constructor is kept as given; only the `text` setter upper-cases it, as in the source.
- Utils.GetRandom: the range is stated only for min <= max; for min > max the source's value is not characterised.
- CardsGrids.GetValidConfig: half of an odd card count is rounded down, where JavaScript keeps the fraction and the grid sizer rounds it.
- CardsGrids.CardsGrid.ShuffleCards: the texture keys `card_N` are their numbers N. The number of children is fixed once the grid is built.
- ColorsGames.ColorsGame.CreateRandomWord: `getRandomColor` loops for ever when every colour is the word's own. The model is given finite draws, and its precondition asks for one draw with another colour; `GetRandomColor` itself answers `None` when the draws run out.
- ColorsGames.ColorsGame.SpawnWords: a spawn needs a non-empty word list. The source reads a field of `undefined` on an empty list.
- ColorsGames: a word entry without a colour is not modelled; `words.json` gives every word one.
- ColorsGames: the engine's own text colour "#fff" is used only when a style names no colour. The scene always names one.
- ColorsGames.ColorsGame.WordTimedOut: `removeFromArray` of a word that already left the list removes the last live word instead. The model keeps this quirk and does not correct it.
- DoubleGames.DoubleGame.ClickObject: a hidden object, or one on a hidden plate, receives no click. This is the engine's input rule, stated here as the model's.
- DoubleGames: texture keys `<level>_object_N` are their numbers N. Object sizes and the `getRandom` of the size are left out.
- The frame-by-frame face of a card flip: a flip turns the card at once.

## Findings

| source | as written | input that shows it | evidently intended | confidence | as-written member | corrected member |
|---|---|---|---|---|---|---|
| src/games/bugsequence/objects/bugsGrid.ts:21-22 | the grid sizer gets `row: config.columns` | the default 6 rows and 4 columns give a 4 x 4 grid of 16 bugs instead of 24 | `row: config.rows`, one bug per cell of rows x columns | not executed | BugsGrids.AsWrittenDropsRows | BugsGrids.BugPerCell |
| src/games/double/objects/plate.ts:80-88 | `return true` inside the `forEach` callback is dropped, and the method returns false | any plate asked about one of its own objects | return true when some object has the texture | not executed | Plates.Plate.ContainsCounterexample | Plates.Plate.Contains |
| src/games/double/objects/plate.ts:134-137 | `removeBetween(1, length - 1)` stops before the last child | a plate holding its five objects keeps the fifth after `removeAllObjects` | remove every child after the background | not executed; rests on the engine's exclusive end index | Plates.RemoveAllKeepsLast | Plates.Plate.RemoveAllObjects |

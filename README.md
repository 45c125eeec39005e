# QuizM2Bot quiz engine in Dafny

This is a model of the quiz engine of QuizM2Bot, a Discord trivia bot for the
game Metin2, with proofs about that model. Players are shown an image and
must type the in-game name of the item or monster on it, in one of the
server's allowed languages. The model covers:

- **The session scoreboard** (`Scoreboard.Leaderboard`). It maps player id to
  score. The leaderboard it produces uses competition ranking, so the scores
  5, 5, 3, 1 get the ranks 1, 1, 3, 4.
- **The persistent rating store** (`EloStore.EloLeaderboard`). It maps guild
  to player to a record holding a name and an optional elo.
  - `get_elo` reads a rating with the default 1000 and creates missing
    records lazily.
  - The end of a ranked session updates every player's rating in one batch,
    computed from a frozen snapshot.
  - The rated leaderboard is capped at 20 rows and stops at the elo -1.
  - A player's ranking can be looked up by name.
- **One question round** (`QuestionRound.Question`):
  - the answers in the allowed languages and their normalised forms;
  - per language, a masked hint and the shuffled list of positions still to
    reveal;
  - the poll counter that decides when a hint is due;
  - the cap on hints;
  - the winner check.
- **A quiz session and the registry of sessions** (`QuizSession.Quiz`,
  `QuizSession.QuizManager`):
  - the settings a session reads from its difficulty;
  - the settings message;
  - the clean-up of in-game names;
  - the choice between a question's two images;
  - the map from channel to running session.
- **The configuration manager** (`Config`): the three answer normalisers,
  their similarity thresholds, the choice of normaliser by mode, and the
  per-server language list.
- **The wiki page decoder** (`Metin2Api`): the little-endian base-52 item
  codes and the "+0" name suffix.
- **The JSON key/value converter** (`JsonConverter`).

Python dictionaries whose iteration order can be observed are modelled as
insertion-ordered association lists with distinct keys (`Dict`). This covers
the scoreboard, the rating tables, the per-language answers and hints, and
JSON objects. Assigning to a key that is present overwrites its value in
place. A new key goes last.

Some functions belong to other libraries or to code that is not part of this
model. They enter the model as parameters:

- `str.lower` and `unidecode` (`Config.TextOps`);
- `fuzz.ratio` (a `(string, string) -> int` argument);
- `elo_formula` (`EloStore.EloFormula`);
- Python's `int(str)` (`JsonConverter.ParseInt`, which yields `None` where
  `int` raises);
- the outcome of `random.shuffle`, given as a permutation per language;
- the outcome of `random.choice`, given as a boolean.

File contents read at start-up are constructor arguments. A file write is
modelled by recording what was written and counting the writes.

## Model

| member | source | states |
|---|---|---|
| Dict.Put | src/quiz_manager.py:27-30 | `d[k] = v`: a present key keeps its place and the key order is unchanged; a new key is appended; every other pair is untouched; `k` then maps to `v` |
| Dict.PutDistinct | src/quiz_manager.py:27-30 | an assignment keeps the keys of a dictionary distinct |
| Dict.PutOther | src/quiz_manager.py:27-30 | an assignment leaves every other key present or absent as before, with its value |
| Dict.PutMember | src/quiz_manager.py:27-30 | an assignment adds no pair other than the one assigned |
| Dict.GetAt | src/quiz_manager.py:40-41 | with distinct keys, the value at a position is the value looked up by its key |
| Ranking.SortDescProperties | src/quiz_manager.py:33-35 | `sorted(..., key=score, reverse=True)` yields scores that never increase and is a permutation of its input |
| Ranking.SortDesc | src/quiz_manager.py:33-35 | `sorted(..., reverse=True)` by insertion, each earlier entry going before the later entries of the same score; the result has the input's length |
| Ranking.SortDescStable | src/quiz_manager.py:33-35 | the sort is stable: for every score, the entries holding it keep their relative order |
| Ranking.SortDescDistinct | src/quiz_manager.py:33-35 | sorting the items of a dictionary keeps their keys distinct |
| Ranking.InsertDescProperties | src/quiz_manager.py:33-35 | one insertion step of the stable sort keeps the order and adds exactly the inserted entry |
| Ranking.CountAboveSort | src/quiz_manager.py:47 | sorting does not change how many scores lie strictly above any value |
| Ranking.RankAtScoreChange | src/quiz_manager.py:53-56 | in sorted entries, an entry whose score differs from the previous one has exactly its index entries scoring higher, which is why the loop sets the rank to index + 1 there |
| Ranking.RankOfMonotone | src/quiz_manager.py:53-57 | a higher score never gets a worse rank, and equal scores share a rank |
| Ranking.RankOfStrict | src/quiz_manager.py:53-57 | a present score strictly above another ranks strictly better |
| Ranking.CountAboveAppend | src/quiz_manager.py:53-57 | counting the scores above a value is additive over concatenation |
| Scoreboard.Leaderboard.Initialize | src/quiz_manager.py:25-27 | every listed player is set to 0, in order, and the keys stay distinct |
| Scoreboard.ZeroAllScores | src/quiz_manager.py:25-27 | after `initialize`, each listed player has score 0 and every other player keeps presence and score |
| Scoreboard.Leaderboard.constructor | src/quiz_manager.py:22-23 | an empty scoreboard that reads a missing player as 0, as a `defaultdict(int)` does |
| Scoreboard.Leaderboard.IncrementScore | src/quiz_manager.py:29-30 | the player's score grows by exactly 1, starting from 0 when absent while the board is a `defaultdict`; after `sort` an absent player raises a KeyError and nothing changes; no other player changes |
| Scoreboard.Leaderboard.Sort | src/quiz_manager.py:32-35 | the scores are reordered highest first, ties in their old order, as a permutation, into a plain `dict` that no longer defaults a missing player to 0 |
| Scoreboard.Leaderboard.Reset | src/quiz_manager.py:37-38 | the scoreboard is empty again and is a `defaultdict` again, as `__init__` makes it |
| Scoreboard.Leaderboard.Len | src/quiz_manager.py:43-44 | the number of players |
| Scoreboard.Leaderboard.GetLeaderboard | src/quiz_manager.py:46-59 | one row per player, in sorted order, each with rank 1 + the number of players scoring strictly higher |
| Scoreboard.RankedRowsSnoc | src/quiz_manager.py:57 | appending the next ranked row keeps the rows a ranked prefix of the sorted entries |
| Scoreboard.CompetitionRankingExample | src/quiz_manager.py:46-59 | the scores 5, 5, 3, 1 are ranked 1, 1, 3, 4 |
| EloStore.EloLeaderboard.constructor | src/quiz_manager.py:68-76 | the store starts as the content read at start-up (the caller passes the empty store when there is no file), equal to the saved copy, with no write yet |
| EloStore.EloLeaderboard.GetElo | src/quiz_manager.py:77-88 | returns the stored elo, or 1000 when the record has none or is missing; creates the guild and a name-only record when missing; leaves existing records as they are |
| EloStore.DefaultInfo | src/quiz_manager.py:90-91 | a fresh record has the given name and no elo |
| EloStore.TouchEffect | src/quiz_manager.py:77-88 | a lookup changes no rating, keeps every existing record and leaves a record for the player looked up |
| EloStore.TouchIdempotent | src/quiz_manager.py:77-88 | looking a player up twice changes the store as looking up once does |
| EloStore.TouchAllEffect | src/quiz_manager.py:97-99 | the snapshot lookups change no rating and leave records exactly for the store's players plus the session's |
| EloStore.EloLeaderboard.UpdateElo | src/quiz_manager.py:93-94 | sets the elo of an existing record and keeps its name |
| EloStore.SetEloEffect | src/quiz_manager.py:93-94 | one update changes only that player's record, keeps the store well formed and creates no record |
| EloStore.EloLeaderboard.Save | src/quiz_manager.py:174-176 | the whole store is written once more and nothing else changes |
| EloStore.EloLeaderboard.CurrentElos | src/quiz_manager.py:97-99 | `current_elo` maps each session player to their rating before the batch, and the store gains exactly the records the lookups create |
| EloStore.EloLeaderboard.CalcAndSaveNewElo | src/quiz_manager.py:96-127 | with one player: that player gets (current elo, 0) and nothing is updated or saved; otherwise each player gets snapshot elo + the opponent sum, the store holds exactly those elos, and it is saved once, after all updates |
| EloStore.ApplyChanges | src/quiz_manager.py:110-123 | the update loop records, in leaderboard order, each player's (new elo, gain) and writes exactly those elos into the store |
| EloStore.Snapshot | src/quiz_manager.py:97-99 | the snapshot has exactly the session's players as keys |
| EloStore.GainAppend | src/quiz_manager.py:112-118 | the opponent sum is additive over a split of the leaderboard |
| EloStore.GainPermutation | src/quiz_manager.py:110-118 | a player's gain does not depend on the order in which the leaderboard lists the opponents |
| EloStore.GainMoveFront | src/quiz_manager.py:112-118 | moving one opponent to the front leaves the sum unchanged |
| EloStore.ChangeValue | src/quiz_manager.py:111-122 | the change recorded for a player is (snapshot elo + gain, gain) |
| EloStore.Changes | src/quiz_manager.py:108-122 | the batch records one change per leaderboard entry handled so far |
| EloStore.ChangesAt | src/quiz_manager.py:119-122 | entry k of the batch is the change of leaderboard entry k |
| EloStore.ChangesKeys | src/quiz_manager.py:119-122 | the batch names the leaderboard's players, in leaderboard order |
| EloStore.BatchChanges | src/quiz_manager.py:119-122 | each step records a player not yet updated, so the batch grows in leaderboard order with distinct players |
| EloStore.BatchStore | src/quiz_manager.py:123 | updating one more existing record extends the sequence of updates |
| EloStore.ApplyStep | src/quiz_manager.py:110-123 | one turn of the loop: the player has a record, and the new change and store extend the batch |
| EloStore.ChangesStore | src/quiz_manager.py:110-123 | applying every change keeps each guild's players distinct |
| EloStore.SetElosShape | src/quiz_manager.py:110-123 | a batch of updates keeps the store well formed and creates or drops no record |
| EloStore.SetElosOther | src/quiz_manager.py:110-123 | a batch leaves the record of every unlisted player as it was |
| EloStore.SetElosListed | src/quiz_manager.py:110-123 | after a batch, each listed player holds its new elo under its old name |
| EloStore.SetElosListedInit | src/quiz_manager.py:110-123 | the same for a player listed before the last update of the batch |
| EloStore.SetElosLast | src/quiz_manager.py:123 | the last update of a batch sets the rating of the player listed there |
| EloStore.RatedEntries | src/quiz_manager.py:131-135 | the rated entries are at most as many as the records |
| EloStore.RatedEntriesMember | src/quiz_manager.py:131-135 | exactly the records holding an elo are listed, as (name, elo) |
| EloStore.EloLeaderboard.GetLeaderboard | src/quiz_manager.py:129-150 | a KeyError for an unknown guild; otherwise the rated entries sorted highest first, ranked like the scoreboard, cut after 20 rows or before the first elo of -1 |
| EloStore.FirstNamed | src/quiz_manager.py:164-170 | the first sorted position holding the name, or none when no entry has it |
| EloStore.FirstNamedAt | src/quiz_manager.py:164-170 | a match with no match before it is the first match |
| EloStore.FoundRanking | src/quiz_manager.py:164-170 | the first match gives (its elo, its competition rank, the number of rated players) |
| EloStore.EloLeaderboard.GetPlayerRanking | src/quiz_manager.py:152-172 | a KeyError for an unknown guild; otherwise (elo, rank, number of rated players) for the first matching name in sorted order, or none |
| QuestionRound.FilterAnswers | src/quiz_manager.py:207-212 | keeps exactly the answers whose language is allowed, and no more of them than there were; distinct languages stay distinct |
| QuestionRound.FilterAnswersAppend | src/quiz_manager.py:207-212 | filtering a concatenation filters each part, so the kept answers keep their relative order |
| QuestionRound.FilterAnswersOne | src/quiz_manager.py:207-212 | a single answer is kept exactly when its language is allowed |
| QuestionRound.DefaultHintHidesAll | src/quiz_manager.py:220-242 | a fresh shuffle lists each position of the answer once, and the default hint is the mask hiding all of them: the space placeholder at spaces and the letter placeholder elsewhere |
| QuestionRound.Question.constructor | src/quiz_manager.py:180-205 | the filtered answers, their normalised forms, the default hints and the shuffles, consistent with each other, with the counters at 0 |
| QuestionRound.Question.ShowHint | src/quiz_manager.py:244-253 | the counter grows by one; a hint is due, and the counter is reset to 0, exactly when counter × `CHECK_ANSWER_PERIOD` reaches `time_between_hints` |
| QuestionRound.TicksBeforeDue | src/quiz_manager.py:244-253 | from a fresh counter, the first T - 1 polls only count |
| QuestionRound.HintDueEvery | src/quiz_manager.py:244-253 | poll T makes a hint due and starts the count over, so a hint comes every T polls |
| QuestionRound.Question.ExceedMaxHint | src/quiz_manager.py:255-256 | true exactly while fewer hints than the cap have been shown |
| QuestionRound.PopReveal | src/quiz_manager.py:263-272 | popping the last pair leaves a shuffle without that position, and the hint changes only there: to `__c__`, with `(` escaped; a space is left as it is |
| QuestionRound.Remaining | src/quiz_manager.py:259-264 | a hint step pops `len(shuffle) // hints_left` pairs off the end |
| QuestionRound.LastHintEmpties | src/quiz_manager.py:259-264 | with one hint left the whole shuffle is popped |
| QuestionRound.GetHint | src/quiz_manager.py:258-272 | the shuffle loses exactly its last `len // hints_left` pairs, and the hint still hides exactly the positions left in it |
| QuestionRound.ConsistentUpdate | src/quiz_manager.py:274-276 | replacing one language's hint and shuffle by a matching pair keeps every language consistent |
| QuestionRound.HintRound | src/quiz_manager.py:274-276 | every language takes one hint step, in hint order; with one hint left every character is revealed |
| QuestionRound.Question.GetHints | src/quiz_manager.py:274-278 | each shuffle shrinks by one hint step, the hints stay consistent, one more hint is shown, and after the last allowed hint every shuffle is empty and every hint hides nothing |
| QuestionRound.Question.IsCorrectAnswer | src/quiz_manager.py:280-289 | true exactly when some normalised answer reaches the threshold against the normalised guess |
| QuestionRound.Question.IsWinner | src/quiz_manager.py:291-294 | true exactly when the author may answer (no registered players, or a registered one) and the answer is correct |
| QuizSession.MultilangPlural | src/quiz_manager.py:329 | "s" exactly when at least two languages are allowed, "" otherwise |
| QuizSession.SettingsYearLine | src/quiz_manager.py:352-362 | the settings have a year line exactly when a year was chosen, as the fourth of four lines; otherwise there are three lines |
| QuizSession.CreateSettings | src/quiz_manager.py:352-362 | the three fixed lines joined by newlines; choosing a year appends a newline and the year line to that message |
| QuizSession.GetIngameNames | src/quiz_manager.py:367-381 | a KeyError for an unknown vnum; otherwise every language keeps its place and gets its cleaned name |
| QuizSession.CleanNameShape | src/quiz_manager.py:376-379 | a cleaned name holds no no-break space and neither starts nor ends with whitespace |
| QuizSession.CleanNameKeepsClean | src/quiz_manager.py:376-379 | a name without a "+0" suffix, no-break space or surrounding whitespace is unchanged |
| QuizSession.ChooseValue | src/quiz_manager.py:383-392 | always one of the row's image names; the first when there is no second one, otherwise the one picked |
| QuizSession.Quiz.constructor | src/quiz_manager.py:298-332 | the difficulty's settings, the guild's languages, an empty scoreboard, `is_ranked` exactly for the ranked category, and a rating store only for a ranked session |
| QuizSession.Quiz.InitializeLeaderboard | src/quiz_manager.py:364-365 | every registered player starts at 0, in the set's iteration order |
| QuizSession.Quiz.CalcAndSaveNewElo | src/quiz_manager.py:417-420 | the session's rating update from its scoreboard: with one player, that player gets (current elo, 0) and the store is only touched by the lookups, with nothing saved; otherwise the batch of changes, the store holding exactly those elos, and one more save of the whole store |
| QuizSession.Quiz.Stop | src/quiz_manager.py:422-423 | the session stops running and nothing else changes |
| QuizSession.QuizSettingsError | src/quiz_manager.py:313-321 | creating a session fails exactly for an unknown difficulty (KeyError) or an unknown mode (ValueError) |
| QuizSession.QuizManager.constructor | src/quiz_manager.py:427-432 | no session is in progress |
| QuizSession.QuizManager.HasActiveQuiz | src/quiz_manager.py:437-441 | true exactly when the channel has a session |
| QuizSession.QuizManager.GetQuiz | src/quiz_manager.py:443-444 | the channel's session, or a KeyError when it has none |
| QuizSession.QuizManager.StartQuiz | src/quiz_manager.py:446-466 | a new running session is registered for the channel, replacing any previous one, and no other channel changes; when the difficulty cannot be read the error is returned and nothing is registered |
| QuizSession.QuizManager.EndQuiz | src/quiz_manager.py:468-470 | stops the channel's session and removes exactly that channel; a KeyError, with nothing changed, when there is none |
| Config.ConfigurationManager.constructor | src/config.py:52-53 | the language table is loaded as stored |
| Config.ConfigurationManager.GetConfig | src/config.py:55-56 | the named difficulty when it exists, a KeyError otherwise |
| Config.GetAnswerFormatter | src/config.py:58-71 | a normaliser exactly for the three mode names, the one that mode names; a ValueError naming the mode otherwise |
| Config.GetAnswerFormatterModeName | src/config.py:58-71 | each mode's own name selects that mode |
| Config.StrictFormat | src/config.py:73-74 | the answer unchanged |
| Config.PermissiveFormatFoldsCase | src/config.py:76-77 | `_permissive` (lower case, then `unidecode`) folds answers that differ only in case alike |
| Config.KeepAlnumAndSpace | src/config.py:81-85 | every character kept is alphanumeric or a space, and every such character of the input is kept |
| Config.KeepAlnumAndSpaceAppend | src/config.py:81-85 | filtering a concatenation filters each part, so the kept characters keep their order and multiplicity |
| Config.KeepAlnumAndSpaceChar | src/config.py:81-85 | a single character is kept, once, exactly when it is alphanumeric or a space |
| Config.VeryPermissiveFormat | src/config.py:79-86 | the very permissive form has no hyphen, only letters, digits and spaces, no leading or trailing space, and never two spaces in a row |
| Config.VeryPermissiveWords | src/config.py:79-86 | splitting the very permissive form gives back the words of the filtered permissive form, so its non-space characters are the kept ones, in order |
| Config.HyphenIsSeparator | src/config.py:80 | two answers that agree once hyphens become spaces normalise alike |
| Config.HyphenExample | src/config.py:80-86 | "a-b" and "a b" normalise alike |
| Config.FuzzThreshold | src/config.py:36-40 | 100 for strict, 97 for permissive, 94 for very permissive, all within 0..100 |
| Config.ThresholdDecreasesWithPermissiveness | src/config.py:36-40 | the more permissive the mode, the lower the threshold |
| Config.ConfigurationManager.GetAllowedLangs | src/config.py:88-92 | the guild's stored list, or `["fr"]` for an unknown guild |
| Config.ConfigurationManager.UpdateAllowedLangs | src/config.py:94-98 | only this guild's list is replaced, and the whole table is written once |
| PyStrings.ReplaceChar | src/config.py:80 | `str.replace` of one character: same length, and exactly the matching characters are replaced |
| PyStrings.LStrip | src/quiz_manager.py:379 | the suffix left once the leading whitespace is removed |
| PyStrings.RStrip | src/quiz_manager.py:379 | the prefix left once the trailing whitespace is removed |
| PyStrings.StripShape | src/quiz_manager.py:379 | `strip()` keeps characters of its input and leaves no surrounding whitespace |
| PyStrings.TakeWord | src/config.py:86 | the longest leading run without whitespace |
| PyStrings.Split | src/config.py:86 | `split()` yields non-empty words without whitespace |
| PyStrings.SplitAllSpace | src/config.py:86 | text made only of whitespace splits into no word |
| PyStrings.SplitWordFirst | src/config.py:86 | the words are the maximal runs: after whitespace, a word that ends at whitespace or at the end is the next item, followed by the split of the rest |
| PyStrings.SplitSpaces | src/config.py:86 | leading whitespace does not change the words |
| PyStrings.SplitConcat | src/config.py:86 | the words hold exactly the non-whitespace characters of the input, in order |
| PyStrings.SplitJoinSpace | src/config.py:86 | `split()` undoes `" ".join(ws)` for non-empty words without whitespace |
| PyStrings.SplitChars | src/config.py:86 | every character of a word comes from the input |
| PyStrings.JoinSnoc | src/quiz_manager.py:362 | joining one more part adds the separator and that part at the end |
| PyStrings.JoinSpaceCollapsed | src/config.py:86 | joining such words with single spaces leaves no leading, trailing or double space |
| Metin2Api.Alphabet | src/metin2_api.py:10-12 | the 52 letters a..z then A..Z |
| Metin2Api.Digit | src/metin2_api.py:50 | a letter's index in the alphabet: a..z are 0..25 and A..Z are 26..51 |
| Metin2Api.CodeToVnum | src/metin2_api.py:46-53 | the sum of digit × 52^i over the code's letters; a ValueError for a character outside the alphabet |
| Metin2Api.EmptyCode | src/metin2_api.py:47-53 | the empty code is vnum 0 |
| Metin2Api.ValueBound | src/metin2_api.py:46-53 | a code of n letters decodes below 52^n |
| Metin2Api.TrailingZeroDigit | src/metin2_api.py:49-51 | a trailing `a` leaves the value unchanged |
| Metin2Api.TrailingZeroExample | src/metin2_api.py:49-51 | "b" and "ba" both decode to 1 |
| Metin2Api.StripPlusZero | src/metin2_api.py:35-36 | removes one trailing "+0" and leaves any other name unchanged |
| Metin2Api.StripPlusZeroOnce | src/metin2_api.py:35-36 | exactly one "+0" is removed |
| Metin2Api.Page.constructor | src/metin2_api.py:16-19 | a page with its title and no in-game name yet |
| Metin2Api.Page.AddIgName | src/metin2_api.py:29-38 | decodes the stripped code, looks it up among the item names and stores the name without its "+0"; on a bad code or an unknown vnum the name stays unset |
| JsonConverter.Convert | src/utils/utils.py:1-12 | lists and dicts keep their kind, and no string that `int()` accepts is left anywhere in the result, as a value or as a key |
| JsonConverter.ConvertKey | src/utils/utils.py:9-10 | a key that parses becomes that integer; any other key is unchanged |
| JsonConverter.ConvertString | src/utils/utils.py:2-6 | a string that parses becomes its integer; one that does not is returned unchanged |
| JsonConverter.ConvertList | src/utils/utils.py:7-8 | a list keeps its length and order and is converted element by element |
| JsonConverter.ConvertScalar | src/utils/utils.py:11-12 | numbers, booleans and null come back unchanged |
| JsonConverter.ConvertedPairs | src/utils/utils.py:10 | one converted pair per entry |
| JsonConverter.BuildDict | src/utils/utils.py:10 | the built dictionary has at most as many keys as pairs were given |
| JsonConverter.BuildDictDistinct | src/utils/utils.py:10 | the built dictionary has distinct keys |
| JsonConverter.BuildDictKeys | src/utils/utils.py:10 | its keys are exactly the keys given |
| JsonConverter.BuildDictUntouched | src/utils/utils.py:10 | a key no pair mentions keeps its value |
| JsonConverter.BuildDictLastWins | src/utils/utils.py:10 | a key ends up with the value of the last pair holding it |
| JsonConverter.BuildDictMember | src/utils/utils.py:10 | no pair appears that was not given |
| JsonConverter.BuildDictFresh | src/utils/utils.py:10 | pairs with new, distinct keys are appended in order |
| JsonConverter.ConvertDict | src/utils/utils.py:9-10 | keys and values are both converted; keys that convert alike collapse with the later value winning, so the key count never grows |
| JsonConverter.ConvertIdempotent | src/utils/utils.py:1-12 | converting twice gives what converting once gives |

## Left out

- Discord and async code is not part of this model: commands, widgets, the polling loop and the message handles of a question (`first_message`, `last_message`, `last_hint_message`). The polling loop and the close-answer sweep only call the `Question` operations modelled here.
- File and CSV input and output are not modelled. The JSON files are constructor arguments. `_save` and `update_allowed_langs` record what they write and count the writes. `_get_data`, `open_json` and `pd.read_csv` are not modelled.
- `str.lower`, `unidecode`, `fuzz.ratio` and `elo_formula` are parameters, because they are foreign code. The floating-point Elo curve, `convert_rank` and `format_number_with_sign` are not modelled: rows carry the integer rank, and the batch records the integer gain instead of its signed text.
- `random.shuffle` and `random.choice` are not modelled. Their outcomes (a permutation per language, a boolean) are inputs.
- `Quiz.get_questions` is not modelled, because it is pandas filtering and `sample`. The pandas `.loc` row lookup of `get_ingame_names` is a map from vnum to the row's names.
- `QuizManager.get_lang_icon`, `get_elo`, `get_player_ranking`, `get_elo_leaderboard` and `ConfigurationManager.get_descriptions`/`get_lang_icon` are not modelled. They are one-line lookups; the three rating methods read an attribute `QuizManager` never sets.
- The scoreboard's `__iter__` is not a separate member: the model iterates the item list directly.
- Wiring errors in the source are modelled as their evident intent, not as crashes:
  - `int(cm.MAX_HINT)` parses the text "max_hint". The model uses the difficulty's `max_hint` as the cap (`Question.maxHint`).
  - `Question` stores `time_between_hints` but reads `time_between_hint`. The model uses the value passed in.
  - `Quiz._get_time_between_hint` returns `None`. The model takes the difficulty's `time_between_hint`.
  - `get_max_hint` and `get_fuzz_threshold` do not exist on the configuration manager. The model takes the difficulty's `max_hint` and `FUZZ_THRESHOLD` of its mode.
  - `_save` writes `self.data` instead of `self._data`. The model writes the store.
  - `Quiz.get_questions` passes `time_between_hint=` to the `Question` parameter named `time_between_hints`. The model passes the value.
- Config.KeepAlnumAndSpace: `str.isalnum` is modelled on ASCII letters and digits only. It is applied to the output of `unidecode`, which is ASCII, but the `unidecode` parameter is not constrained to return ASCII.
- `allowed_players` is a set of integer ids, not of `nextcord.Member` objects.
- Aliasing is not modelled. A `Question` holds a copy of the session's registered players, where the source shares one mutable set.
- QuestionRound.GetHint: `_get_hint` pops and writes the question's lists in place. The model is a method on values whose results `get_hints` writes back once per language. It does not capture aliasing of those lists.
- EloStore.ApplyChanges: `calc_and_save_new_elo` calls `_update_elo` on the object once per player. The model runs the same loop on a value and assigns the resulting store once. No other code runs in between, so nothing can observe the difference.
- EloStore.Gain: the opponent lookups fall back to 1000 for an id missing from the snapshot. Every opponent is in the snapshot, so the fallback is never used. Python would raise a KeyError there instead.


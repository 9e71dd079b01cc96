# vhkt — a verified model of the hotkey trainer's core

vhkt quizzes a user on an application's hotkeys. It draws an action from a
catalog, asks for its key combination, judges the answer, and keeps each
action's progress in a results store until every action is learned. This
project models that core in Dafny and proves its properties:

- **Catalog** (`Catalog`): a catalog entry can be a plain key combo, a
  sequence of keys, or an unsupported entry.
  - The model includes the per-action normalisation rule of
    `action_hotkeys_by_key`: a combo is either kept whole or split into its
    characters.
  - The older raw lookup is modelled beside it.
- **Progress records** (`Progress`): a record has four optional fields, and
  an absent field behaves differently from a zero one.
  - Scoring follows the current rule: a leaky streak, with a `>=` threshold
    of 3 and an error count.
  - The older rule is modelled too: `==` threshold and no error count.
- **The store** (`LearningStore`): the results mapping is kept with its
  insertion order.
  - Operations: reconcile against the catalog keys, score, mark learned,
    remove, and the two all-learned predicates.
  - Random selection with the anti-repeat rule is a pure function over an
    explicit sequence of random draws.
- **The two storage classes** (`FileStorage`, `CoreStorage`) hold that
  state and update it in place. They are proved against the functions
  above.
- **The summary counters** (`Stats`): learned, in process, to learn,
  guesses and errors.
- **The basic tutor** (`Tutor`):
  - the answer-matching rule;
  - the stale-key recovery loop of `prepare_question`;
  - the question, notes and help text.
- **The three front ends**:
  - the line-based one (`SimpleText`);
  - the key-by-key one (`CursesText`);
  - the screen one (`CursesTui`). Its interface-state machine is a pure
    transition function. It is checked against a session function over a
    sequence of key codes, and the tutor class's loop is proved to compute
    that session.

Randomness becomes a `draws` parameter. Files, the terminal and the
window become parameters or are left out (see below).

Two facts about the code that a reader might not expect:

- The streak, `correct_guesses`, is not capped at the threshold of 3 in
  either version. It keeps counting after the action is learned, so a
  hand-edited or long-played record can hold any count.
- Only the current store's all-learned test skips records whose keys left
  the catalog. The older test counts them.

## Model

| member | source | states |
|---|---|---|
| Catalog.KeyCombinationType | vhkt/filestorage.py:24-40 | the `type` of an action, `hotkey` when the entry has none; a missing key is `KeyError` naming it |
| Catalog.ActionHotkeysByKey | vhkt/filestorage.py:42-63 | Ok exactly for catalog keys, with the normalised hotkeys; otherwise `KeyError` with the key |
| Catalog.NormalisePreservesOrder | vhkt/filestorage.py:43-63 | on supported entries the result has the same length and position `i` is entry `i` normalised |
| Catalog.KeptWhole | vhkt/filestorage.py:48-59 | the test that keeps a string hotkey whole: every one-character key passes, the empty string does not |
| Catalog.NormaliseOne | vhkt/filestorage.py:45-62 | a list entry is unchanged; a string entry stays whole exactly when `KeptWhole` holds, and a split one becomes as many keys as characters, which join back to the string; other entries stay unsupported |
| Catalog.Normalise | vhkt/filestorage.py:43-63 | the result holds only strings and lists (other entries dropped) and is never longer |
| Catalog.SplitHotkeyRoundTrip | vhkt/filestorage.py:61-62 | a string that is not kept whole becomes its characters, which concatenate back to it and are each kept whole |
| Catalog.NormaliseAppend | vhkt/filestorage.py:44-63 | normalisation works entry by entry: it distributes over concatenation |
| Catalog.NormaliseIdempotent | vhkt/filestorage.py:44-63 | normalising twice gives the same list as once |
| Catalog.LowercaseRunIsSplit | vhkt/filestorage.py:48-62 | a lowercase word of two or more letters is split into its letters |
| Catalog.NormaliseExamples | vhkt/filestorage.py:48-59 | `x`, `Ctrl+w`, `F12` and `:wq` are kept whole |
| Catalog.ActionHotkeysByKeyOld | vhkt/core.py:55-56 | the older lookup returns the raw hotkeys for catalog keys and fails for others |
| Progress.Score | vhkt/filestorage.py:126-156 | guesses +1 (created as 1); streak created as 1/0, or +1 on correct with `success` set iff it reaches ≥ 3, or -1 floored at 0 on wrong; errors +1 on wrong and created as 0 on correct; `success` never cleared |
| Progress.ActionSuccess | vhkt/filestorage.py:93-98 | an absent or false `success` means not learned; learned implies the field is present |
| Progress.LearningInProcess | vhkt/filestorage.py:112-119 | in process implies guessed and not learned; a learned, never guessed or zero-guess record is not in process |
| Progress.ScoreOld | vhkt/core.py:150-171 | the older rule: same guess count and streak, learning only when the streak equals 3, error count untouched |
| Progress.LearnedIsPermanent | vhkt/filestorage.py:121-156 | once learned, any further answers leave the action learned |
| Progress.CountsAfterAnswers | vhkt/filestorage.py:129-133 | after n answers guesses grew by n and errors by the number of wrong ones |
| Progress.StreakStaysNonNegative | vhkt/filestorage.py:145-147 | a non-negative streak stays non-negative whatever the answers |
| Progress.ScoredIsInProcessUnlessLearned | vhkt/filestorage.py:112-119 | a scored record with non-negative guesses is in process iff not learned |
| Progress.ThreeCorrectAnswersLearn | vhkt/filestorage.py:134-144 | three correct answers in a row learn any record with a sound streak, a fresh one included |
| Progress.LeakyStreakExample | vhkt/filestorage.py:134-147 | from a fresh record, T,T does not learn; T,T,F,T leaves streak 2; T,T,F,T,T learns |
| Progress.VersionsAgree | vhkt/core.py:158-171 | from agreeing records the two rules keep agreeing on streak and learned flag for any answers |
| Progress.VersionsAgreeFromFresh | vhkt/core.py:150-171 | from fresh records both versions learn after the same answers |
| Progress.VersionsDivergeOnEditedRecord | vhkt/core.py:167 | a record with streak already 3 learns under `>=` but not under `==` |
| LearningStore.Insert | vhkt/filestorage.py:127-128 | a missing key is added with an empty record at the end of the order; other records unchanged |
| LearningStore.Put | vhkt/filestorage.py:126-156 | replaces one existing record, keeping the order |
| LearningStore.Scored | vhkt/filestorage.py:126-156 | the key's record becomes its score; every other record and the order (plus a new key) are kept |
| LearningStore.ScoredOld | vhkt/core.py:150-171 | the same frame for the older scoring rule |
| LearningStore.Learned | vhkt/filestorage.py:121-124 | the key's record gets `success` true, created if missing; nothing else changes |
| LearningStore.Without | vhkt/filestorage.py:86-87 | the order without the key, still distinct |
| LearningStore.WithoutAbsent | vhkt/filestorage.py:86-87 | taking out a key the order lacks leaves the order unchanged |
| LearningStore.WithoutAt | vhkt/filestorage.py:86-87 | taking out the key at position `i` of a distinct order is the order with that position cut out, the other keys in their order |
| LearningStore.Removed | vhkt/filestorage.py:86-87 | deletes exactly that key's record |
| LearningStore.Reconcile | vhkt/filestorage.py:78-82 | the reconciled store is well formed |
| LearningStore.ReconcileMeaning | vhkt/filestorage.py:78-82 | every catalog key has a record; existing records (stale ones too) are kept unchanged; new ones are empty; the old order is a prefix |
| LearningStore.ReconcileLoop | vhkt/filestorage.py:80-82 | the loop over catalog keys computes `Reconcile` |
| LearningStore.ReconcileCovered | vhkt/filestorage.py:80-82 | a store that already covers the catalog is unchanged |
| LearningStore.ReconcileIdempotent | vhkt/filestorage.py:78-82 | reconciling twice is reconciling once |
| LearningStore.AllLearned | vhkt/filestorage.py:158-172 | all learned implies no catalog action is still in process; an empty store is never all learned |
| LearningStore.AllLearnedOld | vhkt/core.py:173-185 | on a well-formed store, the older test is the current test taken over every stored key, stale ones included |
| LearningStore.AllLearnedOldIsStricter | vhkt/core.py:173-185 | whatever the older all-learned test accepts, the current one accepts |
| LearningStore.OnlyStaleKeysCountAsLearned | vhkt/filestorage.py:158-172 | a non-empty store of only stale, unlearned keys is all learned for the current test and not for the older one |
| LearningStore.SelectMeaning | vhkt/filestorage.py:174-192 | the result is None iff all learned; an empty store fails; a picked key is unlearned and was drawn last; the previous key is returned only after 5 repeats |
| LearningStore.Select | vhkt/filestorage.py:174-192 | the selection loop over the draws uses at most the draws given; what it returns is stated by `SelectMeaning` |
| LearningStore.SelectStep | vhkt/filestorage.py:178-191 | one draw: a learned key is redrawn, the previous key is redrawn while repeats are under 5, any other key is returned |
| LearningStore.LearnedActionIsNeverPicked | vhkt/filestorage.py:183-185 | with one of two actions learned, every finished selection returns the other |
| LearningStore.RepeatLimitExample | vhkt/filestorage.py:176-191 | the previous key drawn six times in a row is returned on the sixth draw |
| FileStorage.LearningResultsStorage.constructor | vhkt/filestorage.py:70-84 | the data is the loaded store (empty when missing or empty) reconciled with the catalog keys; no previous key |
| FileStorage.LearningResultsStorage.RemoveResultsForAction | vhkt/filestorage.py:86-87 | deletes the record when present; otherwise `KeyError` with the key and no change |
| FileStorage.LearningResultsStorage.Success | vhkt/filestorage.py:93-98 | true iff `success` is present and true; `KeyError` for a missing key |
| FileStorage.LearningResultsStorage.Guesses | vhkt/filestorage.py:100-104 | the `guesses` field or None; `KeyError` for a missing key |
| FileStorage.LearningResultsStorage.ErrorGuesses | vhkt/filestorage.py:106-110 | the `error_guesses` field or None; `KeyError` for a missing key |
| FileStorage.LearningResultsStorage.InProcess | vhkt/filestorage.py:112-119 | true iff guesses present and positive and `success` absent or false; `KeyError` for a missing key |
| FileStorage.LearningResultsStorage.SetActionLearnedSuccessfully | vhkt/filestorage.py:121-124 | the data becomes `Learned(old data, key)` |
| FileStorage.LearningResultsStorage.SetActionGuessCorrectness | vhkt/filestorage.py:126-156 | the field updates compute `Scored(old data, key, correctness)` |
| FileStorage.LearningResultsStorage.SetActionGuessCorrect | vhkt/basic.py:116-117 | scores a correct guess |
| FileStorage.LearningResultsStorage.SetActionGuessWrong | vhkt/basic.py:119-120 | scores a wrong guess |
| FileStorage.LearningResultsStorage.AllActionsLearnedSuccessfully | vhkt/filestorage.py:158-172 | the flag loop returns false on an empty map and otherwise true iff every catalog key's record has success |
| FileStorage.LearningResultsStorage.RandomNonlearnedActionKey | vhkt/filestorage.py:174-192 | the draw loop computes `Select` over the draws and records a picked key as the previous one |
| CoreStorage.LearningResultsStorage.constructor | vhkt/core.py:120-132 | the older store is reconciled the same way |
| CoreStorage.LearningResultsStorage.SetActionLearnedSuccessfully | vhkt/core.py:145-148 | marks the key learned, creating it if missing |
| CoreStorage.LearningResultsStorage.SetActionGuessCorrectness | vhkt/core.py:150-171 | computes `ScoredOld(old data, key, correctness)` |
| CoreStorage.LearningResultsStorage.SetActionGuessCorrect | vhkt/core.py:101-102 | scores a correct guess by the older rule |
| CoreStorage.LearningResultsStorage.SetActionGuessWrong | vhkt/core.py:104-105 | scores a wrong guess by the older rule |
| CoreStorage.LearningResultsStorage.AllActionsLearnedSuccessfully | vhkt/core.py:173-185 | false on an empty map, else true iff every record, stale or not, has success |
| CoreStorage.LearningResultsStorage.RandomNonlearnedActionKey | vhkt/core.py:187-194 | one draw: an empty store fails; None iff the drawn key is learned; otherwise the drawn, unlearned key |
| CoreStorage.NoneDoesNotMeanAllLearned | vhkt/core.py:187-194 | drawing a learned key returns None although another action is unlearned |
| Stats.LearnedCount | vhkt/basic.py:63-69 | between 0 and the number of actions |
| Stats.ActionsCount | vhkt/basic.py:59-61 | on a well-formed store, one action per stored record |
| Stats.GuessesCount | vhkt/basic.py:75-81 | absent counts add nothing: with no negative count stored the total is not negative, and an empty store totals 0 |
| Stats.ErrorGuessesCount | vhkt/basic.py:83-89 | the same for the error counts |
| Stats.ToLearnCount | vhkt/basic.py:99-101 | actions minus learned, so learned + to learn = all |
| Stats.InProcessCount | vhkt/basic.py:91-97 | between 0 and the number of actions |
| Stats.SumOfIndicatorsBounded | vhkt/basic.py:63-97 | a count of keys satisfying a test is between 0 and the number of keys |
| Stats.LearnedAndInProcessDisjoint | vhkt/basic.py:63-97 | no key is both learned and in process |
| Stats.LearnedPlusInProcessBounded | vhkt/basic.py:63-97 | learned + in process never exceed the number of actions |
| Stats.SumIgnoresOthers | vhkt/basic.py:75-97 | a record outside the counted keys does not change a counter |
| Stats.SumAfterUpdate | vhkt/basic.py:75-97 | changing one counted record changes a counter by that record's difference |
| Stats.SumAfterScoring | vhkt/basic.py:75-97 | after scoring one key (new or existing) a counter moves by that key's difference only |
| Stats.ScoringMovesTotals | vhkt/basic.py:75-89 | one scored guess adds exactly 1 to the guesses total and 1 to errors iff wrong; a new key adds an action |
| Stats.ScoringKeepsLearned | vhkt/basic.py:63-69 | scoring never lowers the learned count |
| Stats.MarkingLearnedCounts | vhkt/basic.py:63-69 | marking an unlearned action learned adds 1 to learned and removes 1 from to learn |
| Tutor.CorrectIffSomeHotkeyAnswers | vhkt/basic.py:169-170 | an answer is correct iff some accepted hotkey is answered by it: a string by the one equal block, a list by the same two or more blocks |
| Tutor.IsCorrectAnswer | vhkt/basic.py:169-170 | an empty answer, or an action without accepted hotkeys, is never correct; a correct answer matches some string or list hotkey |
| Tutor.UnanswerableCases | vhkt/basic.py:169-170 | an empty answer is never correct, and a one-key list can never be answered |
| Tutor.CtrlComboExample | vhkt/basic.py:169-170 | `Ctrl+w` as one block answers the combo; as two blocks it does not |
| Tutor.JudgeAnswer | vhkt/basic.py:168-175 | the verdict is `IsCorrectAnswer` on the normalised hotkeys and the store is scored with it |
| Tutor.KindText | vhkt/basic.py:234-239 | a type name as is, a list joined by ` or `, anything else `ValueError` |
| Tutor.NamesCommand | vhkt/basic.py:259 | the type `command` names a command, an unsupported type never does |
| Tutor.BaseNotes | vhkt/basic.py:256-261 | the colon note iff the type names `command`, else no note |
| Tutor.ColonNoteExamples | vhkt/basic.py:256-261 | `command` and `[hotkey, command]` get the note; `hotkey` does not |
| Tutor.QuestionText | vhkt/basic.py:241-249 | the question line is upper-cased (no lowercase letter remains) and the text ends with the prompt |
| Tutor.NumberedGrows | vhkt/basic.py:246-248 | each further note adds its number and the note at the end |
| Tutor.OneNoteBlock | vhkt/basic.py:243-244 | one note is shown as `NOTE:` and the note |
| Tutor.TwoNotesBlock | vhkt/basic.py:245-248 | two notes are shown as `NOTES:` and numbered 1 and 2 |
| Tutor.NotesBlock | vhkt/basic.py:243-248 | no notes give no text; one note is `\nNOTE: ` and the note; several start with `\nNOTES:` |
| Tutor.HelpEntries | vhkt/basic.py:203-210 | Ok iff every hotkey is supported, with one entry per hotkey in order |
| Tutor.HelpEntry | vhkt/basic.py:205-210 | Ok exactly for strings and lists, `NotImplementedError` otherwise; each entry is quoted, a string with itself and a list with its keys joined by commas between the quotes |
| Tutor.HelpMessage | vhkt/basic.py:211-212 | the message names the action's description and ends with the entries joined by ` or ` |
| Tutor.ShowHelpForAction | vhkt/basic.py:202-212 | the normalised hotkeys are all strings or lists, so the help always succeeds: every hotkey quoted (a list joined by commas), separated by ` or `, after the description |
| Tutor.DrawAskableKey | vhkt/basic.py:222-233 | a returned key is in the catalog, unlearned in the store and the store's previous key; a missing key's record is removed and another drawn; `NoKeyToAsk` exactly when all is learned (then nothing changes); surviving records are unchanged |
| Tutor.NotesText | vhkt/basic.py:243-248 | the numbering loop computes `NotesBlock` |
| Tutor.PrepareQuestion | vhkt/basic.py:221-250 | a question for an unlearned catalog key: the upper-cased question line, the notes block and the prompt; an unsupported type fails; `NoKeyToAsk` exactly when all is learned |
| SimpleText.AnswerForQuestion | vhkt/simpletext.py:16-24 | help iff the line is `\h`, exit iff `\e`; the blocks are never empty and join back to the line |
| SimpleText.CommandsKeepTheirBlock | vhkt/simpletext.py:18-24 | `\h` and `\e` come back with their line as the one block |
| SimpleText.TypingTheHelpTextAnswers | vhkt/simpletext.py:16-24 | typing a hotkey as the help shows it (without quotes) is a correct answer |
| SimpleText.NotesForAskedAction | vhkt/simpletext.py:30-50 | the notes are the base notes, the scanned notes and the instruction, in that order |
| SimpleText.ScanNotes | vhkt/simpletext.py:32-48 | the loop with its two flags computes the notes of `ScanAll` |
| SimpleText.NoteFor | vhkt/simpletext.py:38-48 | one turn of the loop is one `ScanStep` |
| SimpleText.ScanListFound | vhkt/simpletext.py:38-41 | the list flag is set iff some hotkey is a list |
| SimpleText.TriggerInFront | vhkt/simpletext.py:37-48 | whether a hotkey brings the Ctrl note depends only on the hotkeys before it |
| SimpleText.ScanCtrlFound | vhkt/simpletext.py:42-48 | the Ctrl flag is set iff some hotkey triggers it |
| SimpleText.ScanStepAdded | vhkt/simpletext.py:37-48 | one turn adds at most one note, and only a note whose flag it sets |
| SimpleText.ScanStep | vhkt/simpletext.py:37-48 | a turn never clears a flag and adds at most one note |
| SimpleText.ScanAll | vhkt/simpletext.py:37-48 | the notes added are one per flag that is set, so never more than the hotkeys |
| SimpleText.SimpleNotes | vhkt/simpletext.py:30-50 | the base notes come first and the instruction last, with at most four notes |
| SimpleText.ScanAdded | vhkt/simpletext.py:37-48 | the added notes are the several-keys note iff the list flag and the Ctrl note iff the Ctrl flag |
| SimpleText.SimpleNotesMeaning | vhkt/simpletext.py:30-50 | base notes first, instruction last; each added note appears at most once and iff its trigger occurs |
| SimpleText.CtrlNoteExamples | vhkt/simpletext.py:42-48 | a second list containing whole `Ctrl` keys is needed for the Ctrl note; a string containing `Ctrl` suffices |
| CursesText.KeyEffectMeaning | vhkt/cursestext.py:40-57 | letters and other keys are appended as they are, codes 1-26 as `Ctrl+<letter>`, backspace deletes, arrows are ignored |
| CursesText.EnterIsCtrlJ | vhkt/cursestext.py:42-43 | a newline is recorded as `Ctrl+j` |
| CursesText.KeyEffectAsWrittenFails | vhkt/cursestext.py:42-43 | as written, exactly the one-character keys with code 27-32 raise `IndexError`; elsewhere it agrees with the corrected mapping |
| CursesText.SpaceAndEscapeFailAsWritten | vhkt/cursestext.py:42-43 | space and Esc raise `IndexError` as written; corrected, space is typed as itself |
| CursesText.LetterKey | vhkt/cursestext.py:40-41 | a letter is appended and does not end the answer |
| CursesText.Collect | vhkt/cursestext.py:37-70 | a finished reading has at least one block and ends with its terminator (corrected mapping, see ## Findings) |
| CursesText.KeyEffectAsWritten | vhkt/cursestext.py:40-55 | the key handling as written: it raises only `IndexError` and only on a control character, and otherwise agrees with the corrected handling |
| CursesText.CollectAsWritten | vhkt/cursestext.py:37-70 | the reading loop as written: where it does not raise it reads what the corrected loop reads, and it raises `IndexError` only when a key of code 27-32 is typed |
| CursesText.CollectStep | vhkt/cursestext.py:57-70 | a non-terminating appended key is one more block |
| CursesText.CollectStop | vhkt/cursestext.py:65-70 | Enter, `Ctrl+h` or `Ctrl+e` is appended and ends the reading |
| CursesText.SpaceInAnswerFailsAsWritten | vhkt/cursestext.py:42-43 | as written, typing `a`, space, Enter raises; corrected, it reads `a`, space and `Ctrl+j` |
| CursesText.ReadBlocks | vhkt/cursestext.py:35-70 | the key loop computes `Collect` (corrected mapping, see ## Findings) |
| CursesText.ConcatBlocks | vhkt/cursestext.py:79-81 | the concatenation loop computes `Concat` |
| CursesText.AnswerForQuestion | vhkt/cursestext.py:33-83 | computes `ReadAnswer`: help or exit on a lone `Ctrl+h`/`Ctrl+e`, terminator dropped, command blocks merged (corrected mapping, see ## Findings) |
| CursesText.ReadAnswer | vhkt/cursestext.py:33-83 | an answer exists exactly when a key ended the reading; its blocks spell the typed text without the terminator, and help or exit carry no blocks |
| CursesText.Classify | vhkt/cursestext.py:71-76 | help exactly for a lone `Ctrl+h`, exit exactly for a lone `Ctrl+e`, a regular answer otherwise |
| CursesText.Merged | vhkt/cursestext.py:78-82 | merging keeps the typed text, leaves a non-command unchanged and yields one block for a command |
| CursesText.EnterEndsReading | vhkt/cursestext.py:67-70 | any key sequence containing Enter finishes |
| CursesText.EditingKeysAreNeverBlocks | vhkt/cursestext.py:45-57 | backspace and arrows never become blocks |
| CursesText.BackspaceUndoes | vhkt/cursestext.py:45-50 | a key followed by backspace leaves the reading as if neither were typed |
| CursesText.HelpOnlyWhenAlone | vhkt/cursestext.py:67-76 | `Ctrl+h` alone asks for help; after other keys it ends a regular answer |
| CursesText.CommandKeysCollect | vhkt/cursestext.py:40-70 | `:`, `w`, `q`, Enter read as those blocks and `Ctrl+j` |
| CursesText.CommandIsMerged | vhkt/cursestext.py:77-82 | `:wq` typed key by key is one block `:wq` |
| CursesText.SequenceKeysCollect | vhkt/cursestext.py:40-70 | `d`, `d`, Enter read as those blocks and `Ctrl+j` |
| CursesText.SequenceAnswersSplitHotkey | vhkt/cursestext.py:33-83 | typing `d`, `d` answers the catalog hotkey `dd` |
| CursesText.NotesForAskedAction | vhkt/cursestext.py:28-31 | the base notes followed by this front end's instruction |
| CursesTui.InputText | vhkt/cursestui.py:65-73 | the prompt, then the tokens concatenated when the first is `:` and joined by `, ` otherwise |
| CursesTui.InputAnswerDisplayBlock.constructor | vhkt/cursestui.py:61-63 | a new input block has no tokens and shows the prompt |
| CursesTui.InputAnswerDisplayBlock.Text | vhkt/cursestui.py:65-73 | the `text` property is `InputText` of the block's tokens |
| CursesTui.InputAnswerDisplayBlock.SetText | vhkt/cursestui.py:75-77 | assigning the text fails with `NotImplementedError` |
| CursesTui.Typable | vhkt/cursestui.py:244-247 | letters, digits and punctuation are exactly codes 33-126 |
| CursesTui.TokenAsWritten | vhkt/cursestui.py:244-252 | the token mapping as written: it raises only `IndexError`, only for a code from 1 to 32, and otherwise agrees with `Token` |
| CursesTui.Token | vhkt/cursestui.py:244-252 | corrected mapping: codes 33-126 are themselves, 1-26 `Ctrl+<letter>`, code 0, 27-32 and 127 on add nothing |
| CursesTui.TokenAsWrittenFails | vhkt/cursestui.py:244-252 | as written, the token mapping raises `IndexError` exactly for codes 27-32 and otherwise agrees with the corrected one |
| CursesTui.TuiCorrect | vhkt/cursestui.py:260-267 | without a `:` token the check is the basic tutor's rule; with one it judges the concatenated command as one block; an empty answer is never correct |
| CursesTui.JudgedAsDisplayed | vhkt/cursestui.py:65-73 | a command answer is judged by exactly the text shown after the prompt |
| CursesTui.Accepted | vhkt/cursestui.py:261 | the lookup succeeds exactly for an asked catalog key, with only supported hotkeys |
| CursesTui.Dispatch | vhkt/cursestui.py:194-325 | each state's branch keeps the loop invariant and a `continue` always lowers the state's rank (corrected mapping, see ## Findings) |
| CursesTui.Transition | vhkt/cursestui.py:184-325 | one pass keeps the invariant (PENDING knows its next state, which is ASKING or QUIT; answers have an action) and every `continue` leads to a lower rank |
| CursesTui.Applied | vhkt/cursestui.py:282-291 | a pass's score keeps the store well formed |
| CursesTui.Run | vhkt/cursestui.py:178-332 | the whole loop ends on every key sequence and keeps the invariant (corrected mapping, see ## Findings) |
| CursesTui.CtrlEEnds | vhkt/cursestui.py:184-186 | key 5 ends the loop in every state with no change |
| CursesTui.AllSuccessTakesOver | vhkt/cursestui.py:188-202 | all learned: any state but PENDING and QUIT goes to PENDING with next QUIT |
| CursesTui.StopsOnlyThere | vhkt/cursestui.py:184-186 | the loop ends only on Ctrl+e, in QUIT, with no question to ask, or on an exception; never exhausts keys itself |
| CursesTui.AnswerInputKeys | vhkt/cursestui.py:227-254 | 263 deletes the last token, 8 goes to help, 10 to checking; codes 33-126 append themselves, 1-26 `Ctrl+<letter>`; others are ignored |
| CursesTui.CheckingJudges | vhkt/cursestui.py:257-272 | CHECKING goes to CORRECT iff `TuiCorrect`, else INCORRECT, only the state changing; an empty answer is wrong without a lookup |
| CursesTui.ScoringStates | vhkt/cursestui.py:275-293 | only CORRECT scores correct (then PENDING, next ASKING) and only INCORRECT scores wrong (then CHECKING_IF_HELP), for the asked action |
| CursesTui.HelpQuestion | vhkt/cursestui.py:294-318 | `y` goes to help, `n` to the next question, other keys wait; help goes to PENDING with next ASKING |
| CursesTui.PendingWaitsForEnter | vhkt/cursestui.py:319-323 | PENDING ignores every key but 10, even when all is learned; 10 moves to the stored state and clears it |
| CursesTui.AskingStartsAnswer | vhkt/cursestui.py:203-226 | a question sets the asked key and starts an empty answer |
| CursesTui.TypedAnswerScores | vhkt/cursestui.py:227-293 | typing an accepted one-key combo and Enter scores the action correct and waits for Enter |
| CursesTui.AllLearnedQuits | vhkt/cursestui.py:188-202 | with all learned, the success screen waits for Enter, then the loop quits with the store unchanged |
| CursesTui.CursesTuiTutor.constructor | vhkt/cursestui.py:109-117 | the tutor starts in ASKING_QUESTION with no next state, no action and an empty input |
| CursesTui.CursesTuiTutor.Branch | vhkt/cursestui.py:194-327 | the branch chain computes `Dispatch` on the fields and the store |
| CursesTui.CursesTuiTutor.AnswerKey | vhkt/cursestui.py:227-254 | the ANSWER_INPUT branch computes `Dispatch`, editing the block in place (corrected mapping, see ## Findings) |
| CursesTui.CursesTuiTutor.CheckAnswer | vhkt/cursestui.py:257-272 | the CHECKING_ANSWER branch computes `Dispatch` |
| CursesTui.CursesTuiTutor.ScoreAnswer | vhkt/cursestui.py:275-293 | the CORRECT and INCORRECT branches compute `Dispatch` and score the store |
| CursesTui.CursesTuiTutor.Iterate | vhkt/cursestui.py:180-327 | one loop pass computes `Transition` |
| CursesTui.CursesTuiTutor.TutorInternal | vhkt/cursestui.py:175-332 | the loop from key 0 computes `Run` over the given key codes (corrected mapping, see ## Findings) |

## Left out

- Reading and writing the YAML files (`save`) is left out. A loaded file
  becomes an optional store argument.
- `random.randint` is left out. The draws are an explicit sequence, and
  running out of them is a distinct outcome, `DrawsExhausted`. The source
  instead loops until it finds a key.
- Curses rendering, colours, window geometry and the status bar are left out.
  - The same goes for echoing keys in the key-by-key front end (`last_combo`
    only affects that echo).
  - The swallowing of exceptions in the screen front end's `tutor` is also
    left out. A crash is a `Crashed` result.
- CursesTui: `prepare_question` is unpacked there into three values although
  it returns two. Each question's key is therefore an input, not computed.
  `learning_stats` (read by `_render_statistics` on every pass of the loop),
  `success_string`, `question_for_correct_answer` and `help_for_action` are
  used there but not defined. They only feed display
  blocks and are left out. As written, the loop raises `AttributeError` on
  `learning_stats` before it reads any key, and the three-value unpack raises
  `ValueError` after `prepare_question` has already removed stale records;
  since the model takes the question key as an input, `Run`'s `Ask` effect
  does not apply those removals to the store.
- The `ValueError`s that the screen front end builds but never raises are
  left out. They are at vhkt/cursestui.py:256 and 274.
- The basic tutor's interactive `tutor` loop is left out: printing, the
  repeated y/n prompt and the statistics lines. Its judging step is
  `Tutor.JudgeAnswer`.
- `Tutor.DrawAskableKey`: removes the record and draws again for every stale
  key. `prepare_question` does so only when the key occurs in `str` of the
  `KeyError`, which is Python's `repr` of the key. For a key whose `repr` is
  not the key between quotes (one holding a backslash, a control character
  such as a tab, or both quote kinds) the source re-raises the `KeyError`
  instead. Python's `repr` escaping is not modelled.
- `Common.Upper` upper-cases ASCII letters only. Python's `str.upper` also
  maps other alphabets.
- `Common.IsDigit` accepts only `0`-`9`, so `Catalog.KeptWhole` finds a
  function key `F<digits>` only with ASCII digits. Python's `\d` in
  `re.search(r'F\d+', ...)` also matches other Unicode decimal digits.
- `CursesText.LineSeparator` is `os.linesep` on POSIX, `"\n"`. On Windows it
  is `"\r\n"`, which `getkey` never returns as one key, so there Enter would
  not end the reading at vhkt/cursestext.py:67. That platform is not modelled.
- The members that read keys in the two curses front ends use the corrected
  Ctrl mapping of `## Findings` (codes 27-32 are not `Ctrl+` letters):
  `CursesText.Collect`, `CursesText.ReadBlocks`, `CursesText.ReadAnswer`,
  `CursesText.AnswerForQuestion`, `CursesTui.Token`, `CursesTui.Dispatch`,
  `CursesTui.Transition`, `CursesTui.Run` and the `CursesTui.CursesTuiTutor`
  methods. As written the source raises `IndexError` on those codes; that
  behaviour is `CursesText.CollectAsWritten` and `CursesTui.TokenAsWritten`.
- Record values are optional booleans and integers. The model does not
  cover other YAML values in those fields, which Python would judge by
  truthiness.
- The abandoned prototype `vhkt/newcursestui.py` is not part of this model.

## Findings

| source | as written | input that shows it | evidently intended | confidence | as-written member | corrected member |
|---|---|---|---|---|---|---|
| vhkt/cursestext.py:42-43 | codes 1-32 are mapped to `Ctrl+` and `ascii_lowercase[code - 1]`, which has only 26 letters | typing a space (code 32) or Esc (27) while answering raises `IndexError` | only codes 1-26 are control letters; the others are typed as themselves | not executed | CursesText.KeyEffectAsWrittenFails, CursesText.CollectAsWritten | CursesText.KeyEffectMeaning |
| vhkt/cursestui.py:249-250 | the same 1-32 guard on the key code | pressing space (32) or Esc (27) in ANSWER_INPUT raises `IndexError`; `tutor` then swallows it and the session ends silently | codes 27-32 have no letter and are ignored | not executed | CursesTui.TokenAsWrittenFails | CursesTui.AnswerInputKeys |

# spanish-words-app, modelled in Dafny

The spanish-words-app is a flashcard trainer for Spanish vocabulary. This
project models its drilling engine and the two scripts that fetch the
pronunciation files:

- **the attempt ledger**: a map from word key to `{correct, incorrect, total}`,
  with record-correct, record-wrong, reset and a read that defaults to zeros
  (`Stats`, a class `StatsStore` over a `map` field);
- **the weighted selector**: weight 200 for an untried word, otherwise
  `100·incorrect/total + 1`, then a roulette walk over running sums with the
  random draw passed in (`Words`, the walk as a `method` with a loop). The
  overall summary of the ledger is in the same module;
- **the lesson catalog and unlock threshold** (`Lessons`) and the
  intro-dismissed flag (`Settings`, a class);
- **the progress bar**: the knew / didn't-know / not-practised partition
  loop, the minimum-width widening, the rescaling to 100% and the indicator
  midpoint (`ProgressIndicator`);
- **the statistics table**: the category filter, the success rate per row,
  the comparator and the stable sort (`StatsView`);
- **the question card**: which side is asked, the reveal flag and the ledger
  update an answer causes (`QuestionBox`, a class);
- **the practice screens**: the unlocked-lesson loop, the word pipeline,
  the re-pick rule and the empty state of the main screen (`App`), and the
  practice route, which picks by (english, direction) identity and never
  records answers (`Practice`);
- **the audio file name** `sanitizeFilename`, whose three copies are
  character for character the same (`Filename`). The playback hook's single
  audio slot is `AudioPlayback`;
- **the two audio scripts**.
  - Their shared semantics (`AudioJobs`): one file per word, named by its
    English text; an existing file is skipped; a file is written when the
    fetch works.
  - The text-to-speech script is sequential, with an environment guard
    (`GenerateAudio`).
  - The dictionary script works in batches of five (`GenerateAudioSpanishDict`).
    Every word of a batch checks for its file before any word of that batch
    writes. So a batch sees the files of earlier batches but not its own.

`Wrappers` (an `Option` type), `Seqs` (filter and subsequence facts) and
`Vocabulary` (the word-list item) are shared helpers. The functions whose
bodies are not in the repository become parameters with no assumed
properties: `isLessonUnlocked`, `getStatKey`, `getAllUnlockedItems` and the
word list. The same holds for the outcomes of I/O: whether a file exists,
whether a fetch works, and the random draw.

## Model

| member | source | states |
|---|---|---|
| Stats.RecordCorrect | src/stores/stats.ts:22-40 | the key's record gains one correct and one total, starting from zeros when absent; incorrect is unchanged; every other key is untouched; the key set gains the key; total == correct + incorrect is preserved |
| Stats.RecordWrong | src/stores/stats.ts:41-59 | the same for a wrong answer: incorrect and total rise by one, correct is unchanged, other keys are untouched |
| Stats.RunKeepsConsistent | src/stores/stats.ts:21-62 | any sequence of correct/wrong/reset operations keeps every record at total == correct + incorrect |
| Stats.RunKeys | src/stores/stats.ts:21-62 | a key present after a sequence of operations was written by an add after the last reset, or was there at the start with no reset since |
| Stats.CorrectThenWrong | src/stores/stats.ts:22-59 | on a fresh key, correct then wrong reads {1, 1, 2} |
| Stats.AddsCommute | src/stores/stats.ts:22-59 | record-correct on one key and record-wrong on another (or the same) key commute |
| Stats.ResetReadsZero | src/stores/stats.ts:60-62 | after reset every key reads {0, 0, 0} |
| Stats.StatsStore.constructor | src/stores/stats.ts:21 | the ledger starts empty |
| Stats.StatsStore.AddCorrectAnswer | src/stores/stats.ts:22-40 | the store's map becomes RecordCorrect of the old map and stays consistent |
| Stats.StatsStore.AddWrongAnswer | src/stores/stats.ts:41-59 | the store's map becomes RecordWrong of the old map and stays consistent |
| Stats.StatsStore.ResetStats | src/stores/stats.ts:60-62 | the map becomes empty |
| Stats.StatsStore.GetStats | src/stores/stats.ts:63-67 | the stored record for a present key, zeros for an absent one, and consistency of what is returned |
| Words.Score | src/lib/words.ts:25-30 | the weight is positive; it is 200 with no record or no attempts, and within [1, 101] otherwise when incorrect <= total |
| Words.AllCorrectScoresOne | src/lib/words.ts:25-30 | an all-correct record weighs exactly 1 |
| Words.AllWrongScoresCeiling | src/lib/words.ts:25-30 | an all-incorrect record weighs exactly 101 |
| Words.ScoreGrowsWithMistakes | src/lib/words.ts:25-30 | for a fixed total, more incorrect answers give a strictly larger weight |
| Words.AttemptedBelowNew | src/lib/words.ts:25-30 | a consistent attempted record weighs strictly less than an untried word |
| Words.Weights | src/lib/words.ts:25-32 | one positive weight per candidate, each the score of that candidate's ledger record |
| Words.FirstReachIsFirst | src/lib/words.ts:37-44 | the position the walk stops at has running sum >= the target, and every earlier position is below it |
| Words.FirstReachUnique | src/lib/words.ts:37-44 | any position with that property is the one the walk stops at |
| Words.FirstReachInside | src/lib/words.ts:35-44 | a target no larger than the total weight is reached inside the list |
| Words.DrawWithinTotal | src/lib/words.ts:35-44 | with positive weights and a draw u <= 1, the target u·total is reached inside the list, so the `words[0]` fallback is never taken |
| Words.Pick | src/lib/words.ts:35-46 | the roulette walk returns an element of the list |
| Words.PickStopsAtFirstReach | src/lib/words.ts:35-46 | the walk returns the word at the first position whose running sum reaches the target |
| Words.RandomWord | src/lib/words.ts:19-47 | null exactly for the empty list; otherwise an element of the list; for a single candidate, that candidate |
| Words.RandomWordStopsAtFirstReach | src/lib/words.ts:19-47 | for a non-empty list, the result is the first word whose running weight sum reaches the draw's target |
| Words.EmptyIsNull | src/lib/words.ts:23 | an empty list yields null whatever the ledger and the draw |
| Words.GetRandomWord | src/lib/words.ts:19-47 | the loop with its early return computes RandomWord |
| Words.RoundPercent | src/lib/words.ts:57-58 | `Math.round(100·part/whole)`: the integer nearest to the exact percentage, halves rounded up, and at most 100 when part <= whole |
| Words.CorrectWithinAttempts | src/lib/words.ts:54-55 | when every record has correct <= total, so do their sums |
| Words.OverallStats | src/lib/words.ts:52-66 | wordsPlayed is the number of entries; the rate is 0 with no attempts, else the rounded percentage of correct answers, within [0, 100] for consistent entries |
| Words.SumEntriesRemove | src/lib/words.ts:53-55 | a sum over the ledger's values is one entry's value plus the sum over the rest, whichever entry is taken out |
| Words.LedgerOverall | src/lib/words.ts:52-66 | over a consistent ledger, wordsPlayed is the number of keys, totalCorrect <= totalAttempts and the rate is at most 100 |
| Words.OverallAfterAnswer | src/lib/words.ts:52-66 | recording an answer adds one attempt to the overall total, one correct answer exactly when it was correct, and one played word exactly when the key was new |
| Words.OverallAfterReset | src/lib/words.ts:52-66 | the summary of the empty ledger is all zeros |
| Lessons.CatalogIds | src/lib/lessons.ts:7-17 | the catalog holds nine lessons and lesson i has id i + 1 |
| Lessons.IdsUnique | src/lib/lessons.ts:7-17 | no two catalog entries share an id |
| Lessons.Find | src/components/LessonQuiz.tsx:21 | the catalog lookup `lessons.find((l) => l.id === lessonId)` that the lesson quiz uses: the first lesson with that id, or nothing when none has it |
| Lessons.FindInCatalog | src/lib/lessons.ts:7-17 | an id is found exactly when it is within 1..9, and then it is lesson id - 1 |
| Lessons.ThresholdAsIntegers | src/lib/lessons.ts:19 | learned/count >= 0.8 is the same as 5·learned >= 4·count |
| Settings.RunSpec | src/stores/settings.ts:9-14 | once dismissed the intro stays dismissed; after any run it is dismissed exactly when it started so or some dismiss happened; dismissing is idempotent |
| Settings.SettingsStore.constructor | src/stores/settings.ts:12 | the flag starts false |
| Settings.SettingsStore.DismissIntro | src/stores/settings.ts:13 | the flag becomes true |
| Filename.Lower | scripts/generate-audio.ts:34 | lowercasing keeps the length and maps each character on its own |
| Filename.Slashes | scripts/generate-audio.ts:35 | each slash or backslash becomes a hyphen and nothing else changes |
| Filename.Collapse | scripts/generate-audio.ts:37 | runs of hyphens become one: the first character is kept, no character is invented, and no "--" is left |
| Filename.SanitizeCanonical | src/hooks/useAudioPlayback.ts:6-13 | the result has only a-z, 0-9 and "-", no "--", and no "-" at either end |
| Filename.SanitizeIdempotent | src/hooks/useAudioPlayback.ts:6-13 | sanitising twice is sanitising once |
| Filename.CanonicalFixed | src/hooks/useAudioPlayback.ts:6-13 | a name already in that form is left unchanged |
| Filename.SanitizeKeepsAlnum | src/hooks/useAudioPlayback.ts:8-10 | the ASCII letters and digits of the lowercased input survive, in order, and nothing else alphanumeric appears |
| Filename.CharacterFate | src/hooks/useAudioPlayback.ts:9-10 | a slash or backslash becomes a hyphen; any other character that is not allowed after lowercasing is deleted |
| Filename.SlashBecomesHyphen | src/hooks/useAudioPlayback.ts:9 | "a/b" sanitises to "a-b" |
| Filename.TrimSpec | src/hooks/useAudioPlayback.ts:12 | trimming a leading and a trailing hyphen after collapsing gives the canonical form and keeps every letter and digit |
| Filename.FileName | scripts/generate-audio-spanishdict.ts:202 | the file name is the sanitised word plus ".mp3" and holds no path separator |
| AudioPlayback.AudioPath | src/hooks/useAudioPlayback.ts:26-27 | the URL is "/audio/" + the file name the scripts write |
| AudioPlayback.SamePathForSameName | src/hooks/useAudioPlayback.ts:6-27 | two words share an audio URL exactly when they sanitise alike |
| AudioPlayback.Player.constructor | src/hooks/useAudioPlayback.ts:16-17 | no audio is held and nothing plays |
| AudioPlayback.Player.Play | src/hooks/useAudioPlayback.ts:19-39 | any held audio is paused and released, then exactly the new word's audio is held |
| AudioPlayback.Player.Stop | src/hooks/useAudioPlayback.ts:41-47 | with nothing held nothing changes; otherwise the held audio is paused and released and playing is cleared |
| ProgressIndicator.CategoryOf | src/components/ProgressIndicator.tsx:33-42 | not practised iff no record or no attempts; knew iff attempted and correct > incorrect; didn't know otherwise, ties included |
| ProgressIndicator.CountsPartition | src/components/ProgressIndicator.tsx:29-43 | the three counts add up to the number of words |
| ProgressIndicator.CurrentCategoryNoMatch | src/components/ProgressIndicator.tsx:27-43 | when no word matches the current one, the current category is not practised |
| ProgressIndicator.CurrentCategoryLastMatch | src/components/ProgressIndicator.tsx:27-43 | otherwise it is the class of the last matching word |
| ProgressIndicator.Tally | src/components/ProgressIndicator.tsx:23-46 | the `forEach` loop computes the three counts and the current category |
| ProgressIndicator.Widened | src/components/ProgressIndicator.tsx:57-60 | an empty class gets width 0 and a non-empty class at least the minimum width |
| ProgressIndicator.ScaledWidths | src/components/ProgressIndicator.tsx:63-67 | rescaling keeps widths non-negative, keeps zero widths exactly zero, and makes a positive total exactly 100 |
| ProgressIndicator.Layout | src/components/ProgressIndicator.tsx:48-75 | nothing for an empty list; otherwise a class is 0% exactly when it is empty, non-empty lists sum to 100%, and the indicator sits at the middle of its class's segment |
| ProgressIndicator.ProgressBarShape | src/components/ProgressIndicator.tsx:23-75 | for any word list the bar exists iff the list is non-empty; its three parts sum to 100 and the indicator lies within [0, 100], inside the current class's segment |
| StatsView.FilteredWordsSpec | src/components/StatsView.tsx:19-22 | the filtered words are exactly those of a selected category, in their original order |
| StatsView.SuccessRate | src/components/StatsView.tsx:30-33 | null iff no attempts; otherwise the rounded percentage of correct answers, at most 100 when correct <= total |
| StatsView.Rows | src/components/StatsView.tsx:27-35 | one row per filtered word, built from the ledger record at its filtered position, zeros when absent |
| StatsView.CompareIsTotalPreorder | src/components/StatsView.tsx:36-42 | the comparator is 0 exactly for equal rates (two nulls included), antisymmetric, total and transitive |
| StatsView.Insert | src/components/StatsView.tsx:36-42 | inserting into a sorted list adds exactly that row and keeps it sorted |
| StatsView.SortRows | src/components/StatsView.tsx:36-42 | the result is a permutation of the rows and is sorted |
| StatsView.InsertStable | src/components/StatsView.tsx:36-42 | an inserted row ends up ahead of every row of its own rate and leaves the order of the other rates' rows alone |
| StatsView.SortRowsStable | src/components/StatsView.tsx:36-42 | the sort is stable, as `Array.prototype.sort` is: the rows of any one rate, unattempted rows included, keep their order from before sorting |
| StatsView.SortedOrder | src/components/StatsView.tsx:36-41 | attempted rows come before unattempted ones, and attempted rows are in non-decreasing rate order |
| StatsView.WordStats | src/components/StatsView.tsx:26-43 | the table is a sorted permutation of the rows of the filtered words, and rows of equal rate stay in filtered order |
| StatsView.BadgesOfRow | src/components/StatsView.tsx:82-116 | "New" iff there is no rate, and the struggling and sparkle badges never appear together or on a new row |
| QuestionBox.CardSides | src/components/QuestionBox.tsx:41-42 | the card shows the two sides of the word; Spanish is asked exactly for "es-en"; the opposite direction swaps question and answer |
| QuestionBox.AnswerEffect | src/components/QuestionBox.tsx:45-52 | with recording off the ledger is unchanged; with it on exactly the stat key gets one more attempt, correct or incorrect as answered |
| QuestionBox.UnrecordedAnswersKeepLedger | src/components/QuestionBox.tsx:45-52 | any number of answers with recording off leaves the ledger as it was |
| QuestionBox.RecordedAnswersCount | src/components/QuestionBox.tsx:45-52 | with recording on, each answer adds one attempt to the stat key |
| QuestionBox.Controls | src/components/QuestionBox.tsx:73-103 | the answer buttons are shown exactly while the answer is revealed, and "Show Answer" exactly while it is hidden |
| QuestionBox.Card.constructor | src/components/QuestionBox.tsx:31-43 | the answer starts hidden, recording defaults to on, and the stat key is `getStatKey(english, direction)` |
| QuestionBox.Card.Reveal | src/components/QuestionBox.tsx:77 | reveals the answer without moving on |
| QuestionBox.Card.HandleAnswer | src/components/QuestionBox.tsx:45-55 | applies AnswerEffect to the store, hides the answer and calls `onNext` exactly once |
| App.UnlockedIdsOfSpec | src/App.tsx:43-51 | the collected ids are exactly the listed ids that pass the unlock test, increasing when the list's ids increase |
| App.UnlockedLessonIds | src/App.tsx:43-51 | the push loop computes those ids over the catalog |
| App.UnlockedLessonIdsSpec | src/App.tsx:43-51 | the unlocked ids are exactly the ids 1..9 that pass the test, in increasing order without duplicates |
| App.Indexed | src/App.tsx:57 | each word carries its position in the full list |
| App.UnlockedWordsSpec | src/App.tsx:54-60 | the unlocked words are exactly those whose lesson is unlocked, in order, with their positions in the full list |
| App.FilteredWordsSpec | src/App.tsx:63-66 | the filtered words are the unlocked words of a selected category, in order, which is the one-pass filter on both tests |
| App.NothingUnlockedNothingFiltered | src/App.tsx:63-66 | no unlocked words means no filtered words |
| App.ReconciledSpec | src/App.tsx:79-87 | a re-pick happens iff the list is non-empty and no listed word has the current word's English; a re-picked word comes from the list, and otherwise the current word is kept |
| App.EmptyListKeepsCurrent | src/App.tsx:79-87 | an empty list never triggers a re-pick, so the current word is kept |
| App.PracticeTab.constructor | src/App.tsx:68-70 | the first word is the weighted pick from the filtered list, null exactly when it is empty |
| App.PracticeTab.HandleNext | src/App.tsx:72-76 | the next word is the weighted pick under the fresh ledger, null exactly when the list is empty |
| App.PracticeTab.Reconcile | src/App.tsx:79-87 | the current word becomes the reconciled one |
| App.PracticeScreen | src/App.tsx:206-225 | a quiz iff a word is current; otherwise "Complete Lesson 1" iff no word is unlocked, and "No words available" iff some is |
| App.EmptyStateSpec | src/App.tsx:206-225 | along the whole pipeline the empty state appears only when no word passes the filters |
| App.DecimalRoundTrip | src/App.tsx:89-93 | the decimal text of a number reads back as that number |
| App.LockedToastNamesPredecessor | src/App.tsx:89-93 | the toast for catalog lesson i names lesson i - 1, whose id is one less |
| Practice.SameItemSpec | src/routes/practice.tsx:39-43 | item identity is an equivalence: equal English and equal direction; the same word in the other direction is a different item |
| Practice.ReconciledSpec | src/routes/practice.tsx:35-47 | a re-pick happens iff the items are non-empty and none matches the current item; a re-picked item comes from the items, and otherwise the current item is kept |
| Practice.PracticeScreen | src/routes/practice.tsx:49-59 | a quiz iff an item is current, the empty-state message otherwise |
| Practice.PracticeNeverRecords | src/routes/practice.tsx:67 | with `recordStats={false}` no answer, nor any number of answers, changes the ledger |
| Practice.PracticePage.constructor | src/routes/practice.tsx:23-25 | the first item is the weighted pick from the unlocked items under the store's ledger |
| Practice.PracticePage.HandleNext | src/routes/practice.tsx:27-32 | items and weights come from one snapshot of the ledger; null exactly when there are no items |
| Practice.PracticePage.Reconcile | src/routes/practice.tsx:35-47 | the current item becomes the reconciled one |
| Practice.PracticePage.CurrentCard | src/routes/practice.tsx:61-68 | the card shows the current item's word and direction, never records and shares the store |
| AudioJobs.OutputPathSpec | scripts/generate-audio.ts:131-132 | the output file sits directly in the output directory, and two words share it exactly when their English texts sanitise alike |
| AudioJobs.OutcomeAtSpec | scripts/generate-audio-spanishdict.ts:206-211 | each word is decided against the files present when its batch began, and only a generated word adds a file |
| AudioJobs.SnapshotIsBatchStart | scripts/generate-audio-spanishdict.ts:206-211 | the snapshot a word checks is the file set at the start of its batch |
| AudioJobs.FilesSpec | scripts/generate-audio-spanishdict.ts:153-166 | a file is present exactly when it existed at the start or an earlier word generated it |
| AudioJobs.FilesGrow | scripts/generate-audio-spanishdict.ts:153-166 | files are only ever added |
| AudioJobs.ExistingSkipped | scripts/generate-audio-spanishdict.ts:153-155 | a word whose file existed at the start is skipped |
| AudioJobs.GeneratedStays | scripts/generate-audio-spanishdict.ts:166 | a generated file is present at the end of the run |
| AudioJobs.LaterDuplicateSkipped | scripts/generate-audio-spanishdict.ts:206-211 | a word whose file an earlier batch generated (two English texts that sanitise alike) is skipped |
| AudioJobs.TallySum | scripts/generate-audio-spanishdict.ts:213-221 | every outcome falls in exactly one of the three counters |
| AudioJobs.AttemptedSpec | scripts/generate-audio.ts:134-144 | the attempted words are exactly the words not skipped, in increasing order |
| GenerateAudio.PartialStep | scripts/generate-audio.ts:129-157 | one loop turn: an existing file bumps skipped; any other word adds its call, bumps generated and adds its file, or bumps failed, and pauses unless it is the last word |
| GenerateAudio.GenerateAll | scripts/generate-audio.ts:125-158 | the loop with `continue` computes the counters, calls, pauses and files of the outcome semantics |
| GenerateAudio.RunScript | scripts/generate-audio.ts:102-158 | without both credentials it stops before creating the directory or running the loop; otherwise it creates a missing directory and returns the loop's summary |
| GenerateAudio.ExpectedTotals | scripts/generate-audio.ts:125-158 | the three counters sum to the number of words, and each generated or failed word made exactly one call |
| GenerateAudio.RequestedIffMissing | scripts/generate-audio.ts:134-144 | a word is sent to the service exactly when its file is missing just before its turn |
| GenerateAudio.ExistingUntouched | scripts/generate-audio.ts:135-138 | a word whose file exists makes no call and causes no pause, and no call overwrites a file that existed |
| GenerateAudio.DelaysSpec | scripts/generate-audio.ts:154-157 | the pauses follow exactly the called words other than the last index, in order |
| GenerateAudioSpanishDict.TasksSpec | scripts/generate-audio-spanishdict.ts:198-203 | task i carries index i and word i's texts; its path is in the output directory and keyed by the sanitised English word, not the index |
| GenerateAudioSpanishDict.BatchesSpec | scripts/generate-audio-spanishdict.ts:206-207 | the batches concatenate to the task list, number ceil(n / 5), and hold 1 to 5 tasks, exactly 5 in all but the last |
| GenerateAudioSpanishDict.BatchAt | scripts/generate-audio-spanishdict.ts:206-207 | batch b is the slice starting at 5·b |
| GenerateAudioSpanishDict.ProcessWordSpec | scripts/generate-audio-spanishdict.ts:148-179 | an existing file gives {success: true, skipped: true}; skipped iff the file exists; otherwise success iff both the lookup and the download work |
| GenerateAudioSpanishDict.ResultOfSpec | scripts/generate-audio-spanishdict.ts:148-155 | each word's result is decided against the files present at the start of its batch |
| GenerateAudioSpanishDict.Bump | scripts/generate-audio-spanishdict.ts:213-221 | each result increments exactly one counter |
| GenerateAudioSpanishDict.TallyOf | scripts/generate-audio-spanishdict.ts:213-221 | tallying a batch raises the counter total by its size |
| GenerateAudioSpanishDict.ProcessBatch | scripts/generate-audio-spanishdict.ts:209-211 | the batch's results and effects, every word checked against one snapshot |
| GenerateAudioSpanishDict.TallyResults | scripts/generate-audio-spanishdict.ts:213-221 | the counting loop computes TallyOf |
| GenerateAudioSpanishDict.BatchLink | scripts/generate-audio-spanishdict.ts:209-211 | processing a batch against its starting snapshot yields exactly the outcome semantics of its words |
| GenerateAudioSpanishDict.RoundLink | scripts/generate-audio-spanishdict.ts:207-221 | one batch turn takes the counters and effects from the batch start to the batch end |
| GenerateAudioSpanishDict.RoundsSpec | scripts/generate-audio-spanishdict.ts:205-227 | after b batch turns the counters and effects are those of the first min(5·b, n) words, and the pauses are those after the batches not last |
| GenerateAudioSpanishDict.RunBatch | scripts/generate-audio-spanishdict.ts:207-226 | one turn of the batch loop advances the summary by one batch |
| GenerateAudioSpanishDict.RunAll | scripts/generate-audio-spanishdict.ts:206-227 | the loop stepping by 5 runs exactly ceil(n / 5) batch turns |
| GenerateAudioSpanishDict.RunScript | scripts/generate-audio-spanishdict.ts:181-227 | creates the directory iff missing, and returns the summary of the outcome semantics |
| GenerateAudioSpanishDict.ExpectedTotals | scripts/generate-audio-spanishdict.ts:193-221 | the counters sum to the number of words, each generated or failed word made one lookup, and there are no more downloads than lookups |
| GenerateAudioSpanishDict.ExistingNoNetwork | scripts/generate-audio-spanishdict.ts:153-155 | a word whose file exists at the start is {success: true, skipped: true}, with no lookup and no download |
| GenerateAudioSpanishDict.DelaysSpec | scripts/generate-audio-spanishdict.ts:224-226 | the script pauses after every batch except the last, and only then |
| GenerateAudioSpanishDict.SameBatchBothFetched | scripts/generate-audio-spanishdict.ts:206-211 | two words of one batch that share a missing file are both fetched, because neither sees the other's write |

## Left out

- JSX markup, styling, tabs, routing, toasts and display text are not modelled. Only the values the components compute are. `src/routes/__root.tsx`, `src/routes/stats.tsx`, `src/components/LessonList.tsx`, `src/components/LessonQuiz.tsx`, `src/routes/lessons.index.tsx` and `src/components/CategoryFilter.tsx` are not part of this model.
- `src/components/Word.tsx` is not part of this model. Its long-press timer is UI timing, and its rate formula is the one in `StatsView.SuccessRate`.
- The zustand `persist` and localStorage wiring is left out. The stores keep their state in memory.
- Floating point is left out. Weights, the threshold and the bar percentages are exact reals, and `Math.round` is integer round-half-up. IEEE-754 rounding is not modelled.
- `toLowerCase` lowercases ASCII letters only. Unicode case mapping is out of scope, and other non-ASCII characters are deleted by the strip step, as in the code.
- `Math.random` is a parameter `u`, and the walk's target is `u · total`. Probability and frequency claims are out of scope.
- Words.DrawWithinTotal: requires u <= 1 (what `Math.random` delivers) to prove that the fallback is unreachable. `RandomWord` itself takes any draw and models the fallback.
- The bodies of `isLessonUnlocked`, `getStatKey`, `getWordsForLesson`, `getLearnableItemsForLesson` and `getAllUnlockedItems`, and the `@/lib/list` word list, are not part of this model. They are parameters with no assumed properties.
- All network and file work in the scripts is left out: `fetch`, the HTML scraping of `getAudioUrl`, `downloadAudio`, `generateAudio`, `fs`, `dotenv`, `process.exit` and console output. File existence at the start, whether the lookup finds audio, and whether the download or speech call works are inputs.
- `Promise.all` is modelled as handling the tasks of a batch in list order. In the code every `existsSync` of a batch runs before any word of that batch can write, and the model keeps that (one snapshot per batch). The real interleaving of the writes is not modelled. It changes only the order of effects, not the files, counters or lookups.
- `sleep` is modelled only as the index after which a pause happens. Its duration is not modelled.
- The HTMLAudioElement events, the `play()` promise and the `isPlaying` updates they cause are left out. `AudioPlayback.Player` tracks which audio is held and the pauses issued.
- Practice.PracticeScreen: states which screen the practice route chooses. It does not model that rendering the quiz screen throws in the progress bar, because the page passes that component no `words` prop (`src/routes/practice.tsx:69-73`). The model has no notion of a render failure.
- `getOverallStats` sums `Object.values` in some enumeration order of the map. Sums do not depend on that order, and the model fixes one order through a ghost enumeration.

## Notes on the code

- The doc comment of `sanitizeFilename` in both scripts (scripts/generate-audio.ts:29-30) says special characters are replaced with hyphens. The code deletes them, and only slashes and backslashes become hyphens. The model follows the code (`Filename.CharacterFate`).
- The ledger's key is a type parameter. `src/stores/stats.ts:11` keys it by word index, and `src/App.tsx` picks and reads it by index. `src/components/QuestionBox.tsx:43` writes it under `getStatKey(english, direction)`. Both uses are modelled as written.
- `src/App.tsx` renders the question card without a direction. Such a card asks the English side (`QuestionBox.CardSides` with no direction).
- `src/components/StatsView.tsx:28-29` reads each row's record at the word's position in the filtered list, not at its position in the full word list. `StatsView.Rows` models that as written.
- `src/components/ProgressIndicator.tsx:12-16` declares the props `words`, `stats` and `currentWordIndex`, but neither caller passes them as declared. The component is modelled as written, over its own props (`ProgressIndicator.Tally`, `ProgressIndicator.Layout`).
- `src/App.tsx:209-213` passes `words` and `stats` but gives `currentWordId` instead of `currentWordIndex`. So `currentWordIndex` is undefined, no word's `index` equals it (`src/components/ProgressIndicator.tsx:31`), and the indicator always sits in the not-practised segment. That is `ProgressIndicator.CurrentCategoryNoMatch` with no current key.
- `src/routes/practice.tsx:69-73` passes `items` and `currentWordId` and no `words` at all. So whenever an item is current, `words.forEach` (`src/components/ProgressIndicator.tsx:29`) runs on `undefined` and throws while the practice page renders. The quiz screen that `Practice.PracticeScreen` chooses is therefore never displayed as written.
- The re-pick in `src/App.tsx:79-87` never fires on an empty filtered list. So a stale current word survives deselecting every category until the next "next" (`App.EmptyListKeepsCurrent`). The model keeps that behaviour.

# tg-linguine, verified

A Dafny model of the parts of the language-learning bot whose correctness is about whole runs,
unbounded inputs or an unreliable environment:

- **Progress ledger** (`Progress`, `Interleaving`): points, day streak and daily bonus are kept in
  one small row. The row is proved to be a summary of the user's whole history, with steady days
  and with days in any order, and the six separate SQL statements of a correct answer are
  interleaved in every possible way.
- **Quiz rounds** (`Quiz`, `Dictionary`, `Deck`, `Study`, `Overlap`): the session, the word's status
  row, the progress row and the round's point counter move together on every button press. As long
  as presses are handled one at a time, none, stale or repeated, counts twice, and both rows stay
  the replay of what was done to them. For handlers that overlap, `Overlap` says what every
  interleaving keeps and exactly when a card is acted on twice. Every card of a deck is fair.
- **Text budget** (`Strings`, `Truncate`, `Chunk`, `LongArticle`): greedy cutting at paragraphs
  under a token budget, and the gate that parks what does not fit.
- **Rate limit** (`RateLimit`): a bound over every window of every run, and the exactness of the
  announced wait.
- **Active screen** (`Screens`) and **expiring stores** (`PendingStore`, `Quiz`): state machines
  against a messenger that fails and a clock that passes.
- **Model calls** (`Retry`, `Adapt`, `MergeWords`, `Dedup`): three nested retry loops against every
  server, the choice of a source level, and the merge of word lists.
- **Button payloads** (`Callbacks`, `Decimal`): printing and parsing are inverses.

Objects that the program updates in place are classes here. Each of their methods is tied to a
function on values (`Step`, `Handle`, `Replay`, ...), and the promises are lemmas about all runs of
those functions. Dates are day numbers, durations and clock readings are nanoseconds, text is a
sequence of Unicode scalar values, and SQL rows are values in a map keyed by the primary key.
Clock readings, query results, random draws, server replies and failures are inputs, quantified
over. Rune-wise lower-casing is a parameter `fold`; where trimming matters it is assumed to turn
no white space into anything else or back, as Unicode lower-casing does.

`dafny verify dfyconfig.toml` checks the project.

Where comments and code disagree, the code is modelled:

- `TruncateAtParagraph` by itself does not always keep "something": see
  `Truncate.CutKeepsSomethingIff`. The failing texts start with white space, and every caller trims
  first, so the promise does hold in the program: see `Truncate.CutOfTrimmedIsPrefix` and
  `LongArticle.Pipeline.AnalyzeExtracted`.
- The merged word list can exceed its target by one, or by what the primary list exceeds it:
  see `MergeWords.CapHoldsIff`.
- The cap on rate-limit waits is per wait (`internal/llm/groq/budget.go:62-66` suggests a
  cumulative one). A chat call waits exactly as long as the 429 replies before its last round ask
  (`Retry.ChatWaitsAsAsked`); the cumulative cap holds against every server whose hints are at most
  19.25 seconds, and against no server that keeps hinting at more: see
  `Retry.SafeHintsStayWithinCap` and `Retry.WaitsAddUp`.
- The flag of a recorded correct answer means "mastered now". It means "flipped by this call"
  (`internal/dictionary/repo.go:91-95`) exactly for a word that was not mastered before: see
  `Dictionary.UserWordStatusTable.RecordCorrect`.
- A repeated adaptation asks the model again if the stored reply was empty: see
  `Adapt.RepeatIsCachedIff`. Overlapping adaptations of one article can lose a text: see
  `Adapt.NothingLostIff`.
- A stale press is turned away by comparing it with a snapshot
  (`internal/telegram/handlers/study.go:232-236`). The quiz locks each of its calls, not a whole
  press, and nothing serialises the handlers, so two handlers of one double click can both pass
  that check: see `Overlap.CrossedDoubleClick`, and `Overlap.AnsweredOnceIff` for when a word is
  answered once.
- "Exactly once per day" for the daily bonus (`internal/progress/progress.go:116-120`) needs more
  than the code enforces. With days in any order, a day is paid once for each separate stay on it
  that reaches the goal: see `Progress.DayPaidOnceIff`. With interleaved calls, exactly when no
  paying UPDATE finds the goal flag up or runs after another UPDATE took it down: see
  `Interleaving.BonusPaidOnceIff`. It is enough that no other call stands between its SELECT and
  its UPDATE while one writes (`Interleaving.UncrossedCallsPayOnce`); crossed calls can pay twice
  (`Interleaving.CrossedCallsPayTwice`).

## Model

| member | source | states |
|---|---|---|
| Progress.RowSummarisesHistory | internal/progress/progress.go:92-192 | After any history of non-decreasing days: the streak is the block of consecutive active days ending at the last active day, the longest streak is the longest block anywhere in the history, today's count and goal flag are those of the latest day, and the total is the per-answer points for every correct answer plus one bonus for every day that met the goal |
| Progress.BonusAtGoalthAnswer | internal/progress/progress.go:155-191 | The bonus is paid at exactly the goal-th correct answer of a day and never again that day; the reported gain, its two parts and the new total are what the history earns |
| Progress.ReportedDay | internal/progress/progress.go:137-191 | The reported count and streak are those of the history with the answer in |
| Progress.StreakAfter | internal/progress/progress.go:137-153 | The first correct answer of a day makes the streak the block ending that day, and the longest streak the longer of the old longest block and that one |
| Progress.RolloverKeepsSummary | internal/progress/progress.go:97-114 | Rolling over to a later day changes only the day the row is seen from; streaks and points stay |
| Progress.XPAfter | internal/progress/progress.go:155-168 | One more correct answer earns its points, and the bonus exactly when it completes the goal of its day |
| Progress.AnyHistoryPaysByStay | internal/progress/progress.go:97-192 | After any history, whatever the order of its days: the day's count and flag are those of the latest stay, the total is the per-answer points and one bonus for each stay that reaches the goal, and the bonuses paid on a day are as many as its stays that reach it |
| Progress.StaysCutHistory | internal/progress/progress.go:103-109 | The stays are the history cut into maximal runs of one day |
| Progress.DayPaidOnceIff | internal/progress/progress.go:116-120 | Over any history, a day is paid at most one bonus exactly when no two separate stays on it both reach the goal |
| Progress.SteadyDaysPayOnce | internal/progress/progress.go:116-120 | With non-decreasing days every day is paid at most one bonus |
| Progress.UnsteadyDaysPayTwice | internal/progress/progress.go:103-109 | A day that comes back after another one is two stays, and is paid twice |
| Progress.BegunKeepsXP | internal/progress/progress.go:125-135 | A call that fails before its last statement moves no points, and before the rollover nothing |
| Progress.ProgressTable.EnsureRow | internal/progress/progress.go:203-210 | A missing row is inserted as zero, an existing one is kept |
| Progress.ProgressTable.Get | internal/progress/progress.go:65-90 | Returns the stored row, inserting a zero one first if there is none; either statement may fail |
| Progress.ProgressTable.RolloverIfNewDay | internal/progress/progress.go:92-114 | The day's count and goal flag are reset exactly when the stored day is another one and both statements work; no other user's row changes |
| Progress.ProgressTable.RecordCorrect | internal/progress/progress.go:116-192 | If all six statements work, the row becomes the scored one and the result reports the same numbers; if one fails, the row is what the earlier ones left; no other user's row changes |
| Progress.ProgressTable.RecordWrong | internal/progress/progress.go:194-201 | A wrong answer only rolls the row over, as far as its statements work |
| Interleaving.EveryInterleavingKeepsXP | internal/progress/progress.go:121-192 | Any number of calls for one user, interleaved statement by statement and failing anywhere: the total is its start value plus every gain reported to a caller, and the streak never exceeds the longest one, in every reachable state |
| Interleaving.StepKeeps | internal/progress/progress.go:125-181 | One statement of one call changes the total by exactly what that call newly reports and keeps the streak order, also for rows read but not yet written back |
| Interleaving.AloneIsAtomic | internal/progress/progress.go:125-191 | A call whose six statements run undisturbed has the effect and the result of the single atomic step; its first five roll the row over and read it |
| Interleaving.EveryAnswerCountsIff | internal/progress/progress.go:132-181 | For any calls of one day in any interleaving with any failures: the day's count is its start plus the finished correct answers exactly if every final UPDATE finds the count its own call read |
| Interleaving.StreakSurvivesInterleaving | internal/progress/progress.go:137-181 | For any calls of one day in any interleaving with any failures: the streak columns are those of the start until a call has finished, and then exactly what a single correct answer makes of them |
| Interleaving.BonusPaidOnceIff | internal/progress/progress.go:157-181 | For any such interleaving: the day's bonus is paid at most once exactly if every paying UPDATE finds the goal flag down and no earlier UPDATE took it down |
| Interleaving.BonusFollowsFlag | internal/progress/progress.go:157-181 | If every UPDATE finds the flag its own call read, the bonus is paid once if the flag has come up and not at all otherwise |
| Interleaving.UncrossedCallsPayOnce | internal/progress/progress.go:132-181 | If no other call stands between its SELECT and its UPDATE whenever a call writes, every answer is counted and the bonus is paid at most once, when the flag comes up |
| Interleaving.CrossedCallsPayTwice | internal/progress/progress.go:132-181 | From a user without a row, two calls that both read before either writes are both paid the bonus, and one answer is not counted |
| Dictionary.CountersCountAnswers | internal/dictionary/repo.go:476-513 | Over any history of a key, the streak is the number of correct answers since the last wrong one, and the totals count the correct and the wrong answers recorded since the row was created; upserts change no counter |
| Dictionary.TotalsMove | internal/dictionary/repo.go:476-513 | Statements that delete nothing move the totals of a row by exactly the answers among them |
| Dictionary.StatusSinceLastUpsert | internal/dictionary/repo.go:257-268 | The status is mastered exactly when it was last set so or an answer since then brought the streak to its threshold, and otherwise what it was last set to |
| Dictionary.MasteryLasts | internal/dictionary/repo.go:478-504 | Between a point where a word is mastered and a later one where it is not there is an upsert or a deletion |
| Dictionary.UserWordStatusTable.Upsert | internal/dictionary/repo.go:257-268 | Sets the status of one key, inserting zero counters or keeping the stored ones |
| Dictionary.UserWordStatusTable.RecordCorrect | internal/dictionary/repo.go:476-495 | Counts a correct answer; the reported flag says that the row is mastered now, which is "flipped in this call" exactly if the row was not mastered before |
| Dictionary.OwnersMasteryNeverFlips | internal/dictionary/repo.go:91-95 | A word set to mastered by its owner is reported as mastered by every later correct answer, with nothing flipping |
| Dictionary.UserWordStatusTable.RecordWrong | internal/dictionary/repo.go:497-513 | Counts a wrong answer and resets the streak, or reports that there is no row |
| Dictionary.UserWordStatusTable.DeleteWordStatus | internal/dictionary/repo.go:515-521 | Removes the row of one key, if any |
| Quiz.SweepingIsUnobservableButByEnd | internal/session/quiz.go:127-215 | Over any run of a steady clock, every call but End answers as if sessions were never swept and only checked for age when looked up; End does so exactly when the user's session is not an expired one still waiting to be swept |
| Quiz.EndSeesTheSweep | internal/session/quiz.go:193-203 | Whether an expired session can still be ended depends on whether another user's call swept it first |
| Quiz.SweepLoop | internal/session/quiz.go:205-215 | The sweep removes exactly the sessions idle for longer than the time to live, in whatever order it visits them |
| Quiz.AnswerMovesState | internal/session/quiz.go:149-191 | An answer moves the cursor, exactly one counter and, for a mastered word, the list; a skip moves the cursor only |
| Quiz.MovesRefresh | internal/session/quiz.go:129-215 | Starting a round and moving on in it keep the session for exactly the time to live from then on |
| Quiz.LooksDoNotRefresh | internal/session/quiz.go:136-147 | Looking at a session does not prolong it |
| Quiz.QuizSessions.Start | internal/session/quiz.go:127-134 | Replaces the user's session by a fresh one on the deck |
| Quiz.QuizSessions.Look | internal/session/quiz.go:136-147 | Returns the state of the user's live session |
| Quiz.QuizSessions.RecordAnswer | internal/session/quiz.go:149-175 | Moves the cursor and one counter past a card that was not passed yet, and notes a mastered word |
| Quiz.QuizSessions.RecordSkip | internal/session/quiz.go:177-191 | Moves the cursor only |
| Quiz.QuizSessions.End | internal/session/quiz.go:193-203 | Drops the user's session without sweeping |
| Study.RunKeeps | internal/telegram/handlers/study.go:109-302 | Over any run of presses by any users, handled one at a time, stale and repeated ones and status buttons included, with stores failing at any statement and sessions expiring: in each round every deck word is answered at most once, the answers recorded on its status row and the history of the progress row are exactly those given, the cursor is correct plus wrong plus skipped and within the deck, and the round's points are the sum of the reported gains |
| Study.HandleKeeps | internal/telegram/handlers/study.go:139-176 | Every single press of any kind keeps all of that for every user |
| Study.AnswerCardKeeps | internal/telegram/handlers/study.go:211-302 | An answer keeps the round in order whether it is accepted, stale, failing, or overtaken by the expiry of the session |
| Study.AnswerIsJudged | internal/telegram/handlers/study.go:237-261 | An answer to the current card is right exactly if it is the option at the card's correct index; then the word's row, the day and the session's right answers get a correct answer, else the row and the session's wrong answers a wrong one; nobody else's row moves and the points grow with the total |
| Study.RightOptionCounts | internal/telegram/handlers/study.go:237-252 | On a fair card a correct answer is recorded exactly if the option pressed is the answer |
| Study.StalePressIsIdle | internal/telegram/handlers/study.go:227-236 | An answer or a deletion for another word than that of the card, or without a card, writes nothing and at most closes a finished round |
| Study.SkipPasses | internal/telegram/handlers/study.go:397-419 | A skip passes the current card and changes no row |
| Study.DeleteForgets | internal/telegram/handlers/study.go:421-457 | A deletion removes exactly the row of the current word and passes the card |
| Study.NextPassesPoll | internal/telegram/handlers/study.go:370-394 | Next passes a current poll card, and closes the round after the last one |
| Study.NextRenders | internal/telegram/handlers/study.go:394-395 | Otherwise Next leaves a current card alone and closes a finished round |
| Study.StartOpensSession | internal/telegram/handlers/study.go:124-209 | A started round has a session on the first card of its deck |
| Study.ProfileRolls | internal/telegram/handlers/me.go:81-86 | The profile adds the day to the history if its rollover works, and changes nothing else |
| Study.SetStatusSets | internal/telegram/handlers/mywords.go:294-298 | A status button sets the status of one row, keeping its counters or starting them at zero |
| Study.NextCardKeeps | internal/telegram/handlers/study.go:370-395 | Next keeps the round in order, including the skip of a current poll card and the end of the deck |
| Study.DeleteWordKeeps | internal/telegram/handlers/study.go:421-457 | Deleting the current word keeps the round in order |
| Study.SkipPressedKeeps | internal/telegram/handlers/study.go:397-419 | Skipping keeps the round in order |
| Study.StartRoundKeeps | internal/telegram/handlers/study.go:124-209 | By command or button, a new round begins with its deck at the first card, nothing answered or written, no points, and the day rolled over exactly if the store works |
| Study.EndRoundKeeps | internal/telegram/handlers/study.go:486-506 | Ending a round clears its live session and its points together and changes no row; without a live session the points stay |
| Study.RoundXPIsGrowth | internal/telegram/handlers/study.go:284-302 | While a round is open its counter is exactly what the user's total has grown by since it began |
| Study.RoundScoresEachWordOnce | internal/telegram/handlers/study.go:227-288 | In a round of any run the user's history has grown by exactly one correct answer for each word scored, and each of those words was answered right in the round |
| Study.HandleMoves | internal/telegram/handlers/study.go:139-288 | Each press adds at most one event to the history of the user who pressed, and that user's progress row follows it; nobody else's moves |
| Study.RunReplaysHistory | internal/progress/progress.go:97-192 | After any run the progress row is the replay of the user's history and pays by the stay |
| Study.RunRowSummarisesHistory | internal/progress/progress.go:97-192 | After any run with steady days the progress row is a summary of everything the user did: streaks, today's count, and one payment a correct answer and one bonus a day |
| Study.RunReplaysStatements | internal/dictionary/repo.go:257-521 | After any run each status row is what the statements run on its key make of it: answers, deletions and the owner's status buttons |
| Study.RunRowCountsAnswers | internal/dictionary/repo.go:476-513 | After any run the counters of a status row count the answers recorded since it was created |
| Study.RoundMovesRow | internal/telegram/handlers/study.go:227-262 | A row that was there when the round began and was not deleted since has moved by exactly the answer given to its word in the round, if any |
| Study.AnsweredWordIsNotWrittenAgain | internal/telegram/handlers/study.go:227-236 | A press for a word whose answer in the round has been handled writes to neither store |
| Study.Study.HandleCommand | internal/telegram/handlers/study.go:109-137 | A round starts exactly if the queue has a usable entry, with one fair card for each of them and no word twice |
| Study.Study.HandleStart | internal/telegram/handlers/study.go:178-209 | By the button too a round starts exactly if the queue has a usable entry, with one fair card for each of them; session, counter and progress row after it, with both of its looks at the session |
| Study.Study.HandleProfile | internal/telegram/handlers/me.go:81-86 | Showing the profile rolls the day over, as far as the store works |
| Study.Study.HandleSetStatus | internal/telegram/handlers/mywords.go:286-302 | The status button of a word list sets the status of one row |
| Study.Study.HandleAnswer | internal/telegram/handlers/study.go:211-262 | Session, status row, progress row and counter after an answer; one to the current card is judged by the correct index |
| Study.Study.ApplyProgress | internal/telegram/handlers/study.go:264-288 | Progress row and counter after an answer; the counter grows by the reported gain, and a call that fails on the way leaves what its statements did |
| Study.Study.HandleNext | internal/telegram/handlers/study.go:370-395 | Session and counter after Next |
| Study.Study.HandleSkip | internal/telegram/handlers/study.go:397-419 | Session after Skip |
| Study.Study.HandleDelete | internal/telegram/handlers/study.go:421-457 | Session and status row after deleting a word |
| Study.Study.RenderCurrentState | internal/telegram/handlers/study.go:459-484 | A session at its end is closed and its points handed out; otherwise nothing but a sweep |
| Study.Study.Summarize | internal/telegram/handlers/study.go:290-296 | The points of the round are handed out once and cleared with the session |
| Study.Study.HandleEnd | internal/telegram/handlers/study.go:486-506 | The round is closed early; the points of the round are handed out |
| Overlap.CallIsStep | internal/session/quiz.go:127-215 | A session call does to the caller's entry what it does to it alone, and at most sweeps anybody else's |
| Overlap.CountersSurviveOverlap | internal/session/quiz.go:149-191 | However presses overlap, fail and expire: the cursor is correct plus wrong plus skipped and never passes the end of the deck |
| Overlap.OwnCardsOnly | internal/telegram/handlers/study.go:211-457 | If every press finds the session on the card it saw when it moves it, no card of any round is acted on twice, and the cards passed are exactly those acted on |
| Overlap.CardsOnceIff | internal/telegram/handlers/study.go:211-457 | In a round that stays open, no card is acted on twice exactly if every press finds the session on the card it saw |
| Overlap.OwnCardsAnswerOnce | internal/telegram/handlers/study.go:227-262 | Under that condition no word is answered twice in a round, through starts, ends and expiries |
| Overlap.AnsweredOnceIff | internal/telegram/handlers/study.go:227-262 | In a round of overlapping answers that stays open, no word is answered twice exactly if no other press moves the session between an answer's look and its own move |
| Overlap.CrossedDoubleClick | internal/telegram/handlers/study.go:227-262 | Two overlapping handlers of one double click count the word twice and pass the next card as answered without showing it |
| Overlap.AloneIsHandled | internal/telegram/handlers/study.go:227-262 | An answer whose steps nothing comes between does to the session and the row what it does handled as a whole |
| Deck.BuildDeck | internal/telegram/handlers/study.go:586-672 | For every query result and every draw, the deck has in order one card for each usable queue entry, at most ten, no word twice, the first one inline, each with four one-word options that differ pairwise up to case and the answer exactly at the correct index; each card has the answer and the three distractors sampled for it in the order they were shuffled into, and is a poll exactly as drawn unless first |
| Deck.BuildCard | internal/telegram/handlers/study.go:609-669 | An entry gets a card exactly when it has a translation, a one-word answer and three one-word distractors |
| Deck.OwnWordsFirst | internal/dictionary/repo.go:558-673 | The user's own words come first, in order, and only if they do not suffice words of the global pool; every distractor is from one of the two |
| Deck.OnlyTheAnswerIsRight | internal/telegram/handlers/study.go:237-238 | On a card of the deck, picking the correct index and picking the correct answer are the same thing |
| Deck.SampleDistractors | internal/dictionary/repo.go:549-674 | Whatever the two pools hold, the result is the first n of their trimmed values that are not blank, not the answer up to case and new up to case, the user's own first |
| Deck.DistractorsDiffer | internal/dictionary/repo.go:567-588 | Distractors are trimmed and non-blank and differ pairwise and from the trimmed answer up to case |
| Deck.AnswerDiffers | internal/dictionary/repo.go:558-578 | A distractor differs up to case from the answer itself, even if the answer was not trimmed |
| Deck.FilterSingleWord | internal/telegram/handlers/study.go:818-826 | Keeps exactly the items without a blank, tab or line break |
| Deck.BuildQuizOptions | internal/session/quiz.go:231-260 | Under any sequence of swaps the options are a rearrangement of the answer and the first distractors, and the index is the first place of the answer; the fallback after the search is out of reach |
| Deck.Shuffle | internal/session/quiz.go:250-252 | Swapping in place gives exactly the pool after those swaps |
| Deck.SwappedIsShuffle | internal/session/quiz.go:250-252 | Any swaps rearrange the pool, with the place each option came from and went to |
| Deck.LastSwapExchanges | internal/session/quiz.go:250-252 | One more swap exchanges two places and leaves the others alone |
| Truncate.EstimateTokens | internal/llm/analysis.go:107-115 | The least number of tokens of four runes that holds the text |
| Truncate.TruncateAtParagraph | internal/articles/truncate.go:17-57 | A text that fits comes back whole; one over budget is cut at the latest paragraph boundary that fits, or to a rune prefix if that leaves only white space; the result always fits, and the share is within 0 to 100 and 100 exactly when nothing was cut |
| Truncate.CutIsUnique | internal/articles/truncate.go:25-48 | There is exactly one such cut: adding the next paragraph exceeds the budget |
| Truncate.CutIsPieceWithinBudget | internal/articles/truncate.go:38-48 | The cut is a trimmed contiguous piece of the text, within the budget |
| Truncate.CutKeepsSomethingIff | internal/articles/truncate.go:12-16 | Something is kept exactly when the runes the budget allows are not all white space |
| Truncate.CutMayKeepNothing | internal/articles/truncate.go:38-48 | Of the function alone: under every budget some text that starts with white space and has a word in it is cut to nothing |
| Truncate.CutOfTrimmedIsPrefix | internal/articles/truncate.go:38-48 | From a text that starts with a word a non-empty prefix is kept |
| Truncate.ApproxWordCount | internal/articles/usecase.go:73-93 | Counts the places where a word starts |
| Truncate.PieceHasNoMoreWords | internal/articles/usecase.go:73-93 | A contiguous piece never has more words than the text |
| Truncate.CutHasNoMoreWords | internal/articles/usecase.go:373-382 | The word count reported for a truncated article never exceeds the total |
| Chunk.ChunkTextUpTo | internal/articles/chunk.go:9-35 | For any cap: non-empty trimmed chunks within the budget, laid out in order in the trimmed text with only white space after each, each as much as truncation keeps of what is left; both early breaks are out of reach; nothing but white space is lost if fewer chunks than the cap came out or the cap is as large as the text |
| Chunk.ChunkText | internal/articles/chunk.go:5-35 | The same for the cap of two |
| Chunk.LaidOutKeepsInk | internal/articles/chunk.go:17-32 | The non-space runes of a text are those of its chunks followed by those of the rest |
| Chunk.NextRemaining | internal/articles/chunk.go:25-31 | Advancing past a chunk keeps the layout |
| LongArticle.Pipeline.AnalyzeArticle | internal/articles/usecase.go:274-300 | The trimmed text of a page is analysed at once exactly when it fits, and otherwise parked with its true size; an empty one is no article; nothing untrimmed or empty is ever parked |
| LongArticle.FirstPieceOfTrimmed | internal/articles/truncate.go:10-15 | From trimmed text truncation keeps a trimmed prefix, empty only for the empty text, with no more words |
| LongArticle.Pipeline.AnalyzeExtracted | internal/articles/usecase.go:338-432 | A parked article is resumed only by a successful claim, and is gone after it, lost if the language, the user or the key is then missing; otherwise truncation always gives a non-empty prefix that fits, with its true share and words, and a summary fails exactly if the model has no answer to the non-empty first part it is given, and else gives a prefix of the trimmed answer that fits |
| RateLimit.WindowBound | internal/telegram/ratelimit.go:51-89 | In any window of any run, a user's allowed calls are at most the capacity plus the whole refill times that fit into the window, whatever other users do |
| RateLimit.DeniedIff | internal/telegram/ratelimit.go:51-89 | Over any run of a steady clock, a call is denied exactly if letting it through would put more calls into some window of that user's calls ending with it than the capacity and the whole refills of its length |
| RateLimit.FirstCallsAllowed | internal/telegram/ratelimit.go:62-64 | The first calls of a user, up to the capacity, are allowed however fast they come |
| RateLimit.AllowedWithinClimb | internal/telegram/ratelimit.go:60-81 | For any clock at all, the allowed calls are paid for by one full bucket and the forward motion of the clock between the user's own calls |
| RateLimit.DenialWait | internal/telegram/ratelimit.go:83-88 | A denial names a positive whole number of seconds, the fewest that cover what is missing, and at most the refill time rounded up |
| RateLimit.RetryAfterWaitIsAllowed | internal/telegram/ratelimit.go:61-88 | A call made that long afterwards is allowed, with any calls of others and any further denials in between |
| RateLimit.RetryTooEarlyIsDenied | internal/telegram/ratelimit.go:61-88 | Every call of that user up to one second before that is denied |
| RateLimit.UnsteadyClockRefills | internal/telegram/ratelimit.go:66-75 | A clock that jumps back and forth lets through more than the bound; only an injected clock does that, as the default one is monotonic within a process |
| RateLimit.URLRateLimiter.constructor | internal/telegram/ratelimit.go:35-49 | The limiter is enabled exactly when capacity is positive and the window has a nanosecond for each token |
| RateLimit.URLRateLimiter.Allow | internal/telegram/ratelimit.go:51-89 | The verdict and the bucket after one call; no other bucket changes |
| Screens.RunKeepsOnlyActiveLive | internal/screen/manager.go:40-152 | Over any run against a messenger that refuses edits only of messages that are gone, whatever sends fail and whatever messages vanish, at most one managed message has live buttons and it is the stored one |
| Screens.StepKeepsOnlyActiveLiveIff | internal/screen/manager.go:40-152 | With edits refused for any reason, one operation keeps that exactly when it does not move on from a live message whose buttons could not be taken |
| Screens.SuccessShowsScreen | internal/screen/manager.go:108-139 | After a successful Show, Replace or EditInPlace the stored record names a message that displays exactly the given screen |
| Screens.SameScreenIsEdited | internal/screen/manager.go:45-47 | Showing the active screen again, or changing it in place, edits the active message and sends nothing, if the messenger lets it |
| Screens.RefusedEditIsSent | internal/screen/manager.go:123-133 | If the edit is refused the screen is sent anew and becomes the stored one, or nothing changes if the send fails |
| Screens.OtherScreenIsSent | internal/screen/manager.go:48-65 | Any other screen and a replacement are new messages if they can be sent; the old one loses its buttons if the messenger lets it, and no other message changes |
| Screens.RetireForgets | internal/screen/manager.go:81-92 | Retiring forgets the active message and takes its buttons if the messenger lets it |
| Screens.FailureKeepsRecord | internal/screen/manager.go:54-65 | A failed operation keeps the stored record, sends nothing and at most strips buttons |
| Screens.Manager.Show | internal/screen/manager.go:39-52 | The chat after Show; no other chat changes |
| Screens.Manager.Replace | internal/screen/manager.go:54-65 | The chat after Replace; no other chat changes |
| Screens.Manager.EditInPlace | internal/screen/manager.go:67-79 | The chat after EditInPlace; no other chat changes |
| Screens.Manager.RetireActive | internal/screen/manager.go:81-92 | The chat after RetireActive; no other chat changes |
| Screens.Manager.SendNewMessage | internal/screen/manager.go:108-121 | A sent message becomes the stored one; a failed send changes nothing |
| Screens.Manager.EditActiveMessage | internal/screen/manager.go:123-139 | The active message shows the screen, or a new one does if the edit fails |
| PendingStore.TakeSucceedsIff | internal/articles/pending_store.go:64-82 | Over any run with fresh ids, a claim succeeds exactly when that user parked that id, has not claimed it since and the deadline has not passed, and returns what was parked |
| PendingStore.TakenAtMostOnce | internal/articles/pending_store.go:64-82 | No parked item is handed out twice |
| PendingStore.SizeCountsParked | internal/articles/pending_store.go:84-90 | The size is the number of ids parked, unclaimed and not expired |
| PendingStore.SweepingIsUnobservable | internal/articles/pending_store.go:50-98 | Every call is answered as by a store that never sweeps and checks the deadline only on lookup |
| PendingStore.StoreIsHistory | internal/articles/pending_store.go:50-98 | The swept store holds exactly the items its history says are parked and not expired |
| PendingStore.PendingStore.constructor | internal/articles/pending_store.go:34-45 | An empty store with a positive time to live |
| PendingStore.PendingStore.Put | internal/articles/pending_store.go:50-62 | Sweeps and parks one item |
| PendingStore.PendingStore.Take | internal/articles/pending_store.go:64-82 | Sweeps and removes the item only for its owner; a wrong user consumes nothing |
| PendingStore.PendingStore.Size | internal/articles/pending_store.go:84-90 | Sweeps and counts |
| PendingStore.PendingStore.GcLocked | internal/articles/pending_store.go:92-98 | Removes exactly the expired items, in whatever order it visits them |
| Retry.SchemaCallIsBounded | internal/llm/groq/schema_retry.go:18-54 | For every server and every cancellation: at most 2*4*(len(backoff)+1) attempts, at most 2*(3*MaxRetryAfter + 4*sum(backoff)) of waiting, and no attempt after a 401 or 403 |
| Retry.SchemaCallReturnsValid | internal/llm/groq/schema_retry.go:18-54 | Text is returned exactly when the last reply is a good one that passes the validator, and it is that reply's text; a 401 or 403 is reported as a bad key |
| Retry.SchemaCallSends | internal/llm/groq/schema_retry.go:41-46 | The second conversation starts only after a good reply the validator refused and carries the first conversation, that reply and the complaint; nothing else is ever sent |
| Retry.ChatIsBounded | internal/llm/groq/client.go:157-184 | One chat call makes at most four rounds and three rate-limit waits, and its outcome agrees with the last reply |
| Retry.OnceIsBounded | internal/llm/groq/analyze.go:94-153 | One round makes between one and len(backoff)+1 attempts, and only a 429 yields a wait hint |
| Retry.DoIsBounded | internal/llm/groq/client.go:186-224 | The transport loop makes at most one attempt more than there are backoffs, waits at most their sum, and stops at the first reply that is no server error |
| Retry.DoIsTransportRun | internal/llm/groq/client.go:193-224 | For every server and every cancellation, exactly: the loop goes on after transport failures and 5xx replies, waiting the backoffs in order; its answer is the first other reply, and it is cancelled in a wait, refused a request, or out of backoffs otherwise |
| Retry.FirstSettledReplyAnswers | internal/llm/groq/client.go:193-222 | Without cancellation the first reply that is neither a transport failure nor a 5xx is the answer, after exactly the attempts and waits before it |
| Retry.NoSettledReplyIsUnavailable | internal/llm/groq/client.go:213-224 | Without one, all attempts are made and the result is unavailable |
| Retry.ChatIsChatRun | internal/llm/groq/client.go:157-184 | Exactly: a round that meets a 429 with a wait is followed by that wait and another round, up to four; any other round ends the call with what its result means |
| Retry.SchemaCallIsSchemaRun | internal/llm/groq/schema_retry.go:18-54 | Exactly: one conversation, and a second one exactly if the first brought a text that the validator refuses |
| Retry.SettledReplyDecides | internal/llm/groq/schema_retry.go:18-54 | Against a server that settles within the schedule on a reply that names no wait and is no refused text, that reply decides the whole call |
| Retry.ChatWaitsAsAsked | internal/llm/groq/client.go:157-184 | For every server and every cancellation, a chat call waits for rate limits exactly as long as the 429 replies before its last round ask it to, so within the cap exactly if they add up to no more |
| Retry.SafeHintsStayWithinCap | internal/llm/groq/budget.go:62-66 | Against every server whose hints are at most 19.25 seconds a chat call waits no longer than the cap in all |
| Retry.WaitsAddUp | internal/llm/groq/client.go:163-167 | Against a server that keeps answering 429 with one hint, the cumulative cap holds exactly if the hint is at most 19.25 seconds |
| Retry.Client.DoWithRetry | internal/llm/groq/client.go:193-224 | The loop computes the bounded transport retry |
| Retry.Client.Once | internal/llm/groq/analyze.go:94-153 | The status of the reply is classified into outcome and wait hint |
| Retry.Client.Chat | internal/llm/groq/client.go:157-184 | The loop computes the bounded rate-limit retry; its final return is out of reach |
| Retry.Client.ChatJSONWithSchemaRetry | internal/llm/groq/schema_retry.go:18-54 | Two chats with a validation after each |
| Adapt.PickAdaptSource | internal/articles/usecase.go:782-823 | For a known target, whatever the order the map is visited in: the usable level closest to the target, the lower one on a tie, and its text; for an unknown target some text that is there |
| Adapt.ClosestIsUnique | internal/articles/usecase.go:782-785 | There is only one closest level, so the order of the map does not matter |
| Adapt.AdaptAddsOnlyTarget | internal/articles/usecase.go:745-752 | A successful adaptation with a text adds exactly the target level and keeps all other levels and articles |
| Adapt.OnlyOwnerAdapts | internal/articles/usecase.go:690-752 | Only the owner of an article gets a text of it or has the model asked; the stored text is returned if there is one, otherwise the model is asked exactly if the user loads, has a key and there is a source; every failed call changes nothing |
| Adapt.RepeatIsCachedIff | internal/articles/usecase.go:684-706 | Repeating it returns the same text without asking the model exactly when the text was not empty; the comment calls it idempotent without that condition |
| Adapt.NothingLostIff | internal/articles/usecase.go:695-750 | Overlapping calls for different levels of one article: no text, stored before or by any of them, is ever lost exactly if no other text is stored between a call's read and its write |
| Adapt.AloneIsAdapt | internal/articles/usecase.go:690-762 | A call that reads and writes with nothing in between stores what a single call does |
| Adapt.RelativeRoundTrip | internal/articles/usecase.go:764-780 | The relative slots land on different levels, everything stored is read back, and each level shows the slot it was made from |
| Adapt.ParseAdaptedVersions | internal/articles/article.go:33-53 | Exactly the entries with a known level and a text survive parsing |
| Adapt.CEFRShift | internal/users/codes.go:52-67 | There is a level delta steps away exactly if the base is known and the shift stays in range, and it is that one |
| Adapt.IndexOfCEFR | internal/articles/usecase.go:825-832 | The place of a level in the canonical order |
| Adapt.Service.Adapt | internal/articles/usecase.go:690-762 | The result, whether the model was asked, and the stored article; an unknown level, a missing article and somebody else's fail without asking or changing anything; when the model is asked, from the closest stored level or the article's own summary, and never from an empty text |
| MergeWords.MergeWords | internal/articles/usecase.go:653-676 | The primary list whole, then the new words at their first occurrence in order, as many as there is room for |
| MergeWords.MergedMeaning | internal/articles/usecase.go:655-676 | The added words have new, pairwise different lemmas, and if the result stops below the limit no new lemma was left out |
| MergeWords.CapHoldsIff | internal/articles/usecase.go:653-674 | The result respects the limit exactly when the primary list is below it, or at it with nothing new; it never exceeds the larger of the limit and one more than the primary list |
| MergeWords.CapMayBeExceeded | internal/articles/usecase.go:653-674 | A full list and one new word exceed the limit by one |
| Dedup.FirstsMeaning | internal/articles/usecase.go:664-674 | Keeping first occurrences loses no key, repeats none and keeps none that was seen before |
| Callbacks.CardRoundTrip | internal/telegram/handlers/card.go:229-251 | Every 64-bit id and view comes back from its payload, any level but the three as the current one |
| Callbacks.CardPayloadsDiffer | internal/telegram/handlers/card.go:229-235 | Different cards have different payloads |
| Callbacks.StatusRoundTrip | internal/telegram/handlers/words.go:245-272 | Every id, page and word comes back with each of the three statuses a user can pick; the fourth is refused |
| Callbacks.AnswerRoundTrip | internal/telegram/handlers/study.go:211-226 | Every word and option comes back from an answer payload |
| Callbacks.CardPayloadExample | internal/telegram/handlers/card.go:229-235 | A card payload as it stands on the button |
| Callbacks.StatusPayloadExample | internal/telegram/handlers/words.go:394-398 | A status payload as it stands on the button |
| Decimal.ParseOfFormat | internal/telegram/handlers/card.go:234-247 | A printed integer parses back to itself exactly if it fits 64 bits |
| Strings.SplitOfJoin | internal/telegram/handlers/card.go:237-243 | Splitting undoes joining when no field contains the separator |
| Strings.JoinOfSplit | internal/articles/truncate.go:25-36 | Joining undoes splitting |
| Strings.SplitIsLeftmost | internal/articles/truncate.go:25 | Splitting cuts at every leftmost separator of any length: no part has one inside or starts one before its cut |

## Left out

- Study.RunKeeps: presses are handled one at a time; what overlapping handlers keep is the subject of `Overlap`.
- Study.AnsweredWordIsNotWrittenAgain: says nothing of a click whose handler overlaps that of the first one; `Overlap.AnsweredOnceIff` does.
- Overlap.AnsweredOnceIff: the call to the progress store in an answer is not a step of its own, as it touches no session; its statements interleave in `Interleaving`, and a press of a status button on a word list is not among the overlapping ones.
- Adapt.NothingLostIff: two overlapping calls for the same level are not covered; the later write replaces the text of the earlier one.
- Study.Study.RenderCurrentState: the summary's read of the progress row (like the profile's) can insert a zero row, which reads the same as no row and is not modelled.
- Quiz.SweepLoop: the locked calls read the clock twice, once for the sweep and once for the stamp of the session; one reading stands for both.
- Screens.RunKeepsOnlyActiveLive: the store of active screens works; its own failures are not modelled.
- RateLimit.URLRateLimiter.Allow: the buckets count whole nanoseconds of refill, so floating-point rounding is not captured, and a nil limiter is not an object here.
- Truncate.TruncateAtParagraph: the token budget times four is an unbounded integer; a budget near the 64-bit limit would wrap. Invalid UTF-8 is excluded by the type of text.
- Retry.SchemaCallIsBounded: the parsing of wait hints is an input, clamped as the code clamps it; a cancelled wait is counted in full; request bodies and logging are left out.
- Adapt.PickAdaptSource: for a target that is no level the answer depends on the order of the map; no caller passes one.
- Deck.BuildDeck: the SQL of the learning queue, the article samples and the distractor pools is replaced by what it may return; the order of the queue by time of last update is not used.
- Progress.ProgressTable.RecordCorrect: a statement that takes effect but is reported as failed is not modelled; a failed one has no effect.
- Interleaving.EveryInterleavingKeepsXP: user deletion, which removes the row, is not among the interleaved statements.
- The vocabulary pass over chunks (internal/articles/usecase.go:598-651): one request a chunk, easy once the chunks and the merge are known.
- The `lastMsg` map of the quiz handler: it only remembers which message to tidy up.
- Telegram transport, rendering, keyboards, translations of the interface, logging, HTML extraction, JSON encoding and schema checking.
- Onboarding and API-key sessions (the same sweep as the quiz sessions), user deletion, encryption of keys, URL normalisation and the blocklist.

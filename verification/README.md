# Zelal lesson engine in Dafny

Zelal is a vocabulary game for Kurdish (Kurmanci). A lesson walks a fixed list of
five word pairs. Each pair is an Arabic loanword and its Kurdish replacement. For
each item the player goes through three phases:

- IDENTIFY: pick the loanword among the words of a mixed sentence.
- REPLACE: pick the Kurdish word among four options.
- REINFORCE: read an explanation of the pair.

After the last item the lesson is COMPLETE. It reports its score to the application
shell, which adds the score to the learner's progress record.

This project models that engine and proves properties of the model. It is organised
in these modules:

- `Types` (`types.dfy`): the records and enumerations.
- `Text` (`text.dfy`): splitting a sentence into tokens, removing punctuation,
  lower-casing, and the identify match rule built from them.
- `Options` (`options.dfy`): the filter, map and slice pipeline that builds the
  replace options.
- `Shuffling` (`shuffle.dfy`): the random arrangement of the options.
- `Words` (`words.dfy`): the five stored word pairs, and facts proved about them.
- `Engine` (`engine.dfy`): the game screen as a class `GameEngine` whose methods are
  the click handlers.
- `App` (`app.dfy`): the application shell as a class `AppState`, and the
  progress-record update.

Delayed and asynchronous work is made explicit in the engine:

- **Timers.** The callbacks the handlers pass to `setTimeout` all use 800 ms. They
  are queued in `timers` in the order they were scheduled. `FireTimer` runs the
  oldest one.
- **Phase effect.** The effect that runs when the phase changes is part of the
  method that changes the phase. Entering REPLACE rebuilds the options. Entering
  REINFORCE starts an explanation request.
- **Explanation requests.** Each request is queued in `fetches` with the item that
  was current when it started. `ResolveFetch` completes any pending request, in any
  order, with the service's reply as a parameter (`None` for an undefined text).
- **Randomness.** The numbers behind the random sort comparator are a parameter
  `picks`.

The class invariant `GameEngine.Valid` holds in every reachable state:

- the index is inside the list;
- the score is a multiple of five;
- COMPLETE only happens on the last item;
- during REPLACE the options are an arrangement of the current item's candidates;
- every pending request concerns a stored item.

Every handler preserves it.

Where the code and the design description differ, the model follows the code:

- **Punctuation.** A clicked token loses every `.`, `,`, `!`, `?` and `;`, wherever
  it occurs, not only at its end (`Text.PunctuationAnywhereIgnored`).
- **Handler guards.** The handlers do not check the phase. Only rendering offers the
  buttons in the right phase.
  - A second matching click in IDENTIFY, before the callback runs, adds five more
    points and schedules a second move to REPLACE.
  - That second move can land on the next item and skip its identify step
    (`Engine.DoubleClickSkipsIdentify`).
  - The same stale callback can also take a completed lesson back to REPLACE, since
    `FireTimer` sets REPLACE in any phase.
- **Stale explanations.** A late explanation is not checked against the current
  item. It overwrites the explanation of whatever item is on screen
  (`Engine.StaleExplanation`).
- **Feedback timers.** A pending clear-feedback callback also clears feedback set by
  a later click. The design describes last-write-wins feedback; the code does not
  do that.
- **Identify on the stored data.** The design expects every stored sentence to
  contain its loanword as a token. In the stored data only the first one does.
  - The other four sentences carry inflected forms: `hevalê`, `fikreke`,
    `muntezirê`, `Cewaba`.
  - So the identify step cannot be passed through the rendered buttons for items 2
    to 5 (`Words.IdentifyReachableOnlyFirst`).
  - The design's scenario of a 75-point perfect lesson is therefore reachable only
    by calling the handler with the loanword itself (`Engine.PerfectSession`).

## Model

| member | source | states |
|---|---|---|
| Text.Split | components/GameEngine.tsx:23 | splitting on a space yields at least one piece and no piece contains a space |
| Text.JoinSplit | components/GameEngine.tsx:23 | gluing the pieces of a split back with the separator gives the original sentence |
| Text.SplitJoin | components/GameEngine.tsx:23 | splitting a join of separator-free pieces gives exactly those pieces back |
| Text.StripPunctuation | components/GameEngine.tsx:47 | the cleaned token is no longer than the token, has no punctuation, and keeps only characters of the token |
| Text.StripConcat | components/GameEngine.tsx:47 | removing punctuation distributes over concatenation |
| Text.StripClean | components/GameEngine.tsx:47 | a token without punctuation is unchanged by cleaning |
| Text.StripIdempotent | components/GameEngine.tsx:47 | cleaning twice is cleaning once |
| Text.LowerChar | components/GameEngine.tsx:48 | the lower-cased character is not upper-case, and a character that is not upper-case is kept |
| Text.ToLower | components/GameEngine.tsx:48 | lower-casing keeps the length and maps each character on its own |
| Text.ToLowerIdempotent | components/GameEngine.tsx:48 | lower-casing twice is lower-casing once |
| Text.MatchNeedsEqualLength | components/GameEngine.tsx:47-48 | a matching token, once cleaned, is exactly as long as the loanword |
| Text.PunctuationAnywhereIgnored | components/GameEngine.tsx:47-48 | inserting a punctuation character anywhere in a token never changes whether it matches |
| Text.MatchIgnoresCase | components/GameEngine.tsx:47-48 | a token matches exactly when its lower-case form matches |
| Text.StripLowerCommute | components/GameEngine.tsx:47-48 | cleaning and lower-casing can be done in either order |
| Text.MatchesItself | components/GameEngine.tsx:47-48 | a loanword without punctuation is accepted when clicked as it is |
| Options.OthersThan | components/GameEngine.tsx:29 | the filtered list holds exactly the entries whose id differs from the current one |
| Options.PureWords | components/GameEngine.tsx:30 | the mapped list has one pure word per entry, in order |
| Options.Take | components/GameEngine.tsx:31 | the slice is the prefix of length min(n, length) |
| Options.CandidatesShape | components/GameEngine.tsx:28-32 | for any list, there are min(3, number of other entries) + 1 options before shuffling, and the answer is the last of them |
| Options.ArrangementOffersAnswer | components/GameEngine.tsx:28-33 | any arrangement of the options has that many options and offers the answer |
| Options.OthersThanNone | components/GameEngine.tsx:29 | filtering by an id that no entry has keeps the whole list |
| Options.OthersThanExactlyOne | components/GameEngine.tsx:29 | with distinct ids, the filter removes exactly the current entry and keeps the others in order |
| Options.CandidatesFor | components/GameEngine.tsx:28-32 | with distinct ids and pure words, the options are the pure words of the first three other entries in list order plus the answer; there are min(3, n-1)+1 of them and the answer occurs once |
| Shuffling.Shuffle | components/GameEngine.tsx:32 | the arranged options are a permutation of the candidates |
| Shuffling.ShuffleReaches | components/GameEngine.tsx:32 | every permutation of the candidates is produced by some choice of random numbers |
| Engine.ArrangeOptions | components/GameEngine.tsx:32 | the sorted options, whatever the random numbers, are a permutation of the candidates |
| Words.StoreShape | data/words.ts:4-65 | the store has five entries, pairwise distinct ids and pairwise distinct pure words, so entry 0 exists |
| Words.IdsAreDistinct | data/words.ts:4-65 | no two stored entries share an id |
| Words.PureWordsAreDistinct | data/words.ts:4-65 | no two stored entries share a pure word |
| Words.EntriesWellFormed | data/words.ts:4-65 | every loanword is free of punctuation and every usage note is non-empty |
| Words.FirstSentenceMatches | data/words.ts:7-10 | the sentence `Lazim e ez herim.` has a button accepted as `Lazim` |
| Words.SecondSentenceNoMatch | data/words.ts:19-22 | no button of `Ew hevalê min ê baş e.` is accepted as `Heval` |
| Words.ThirdSentenceNoMatch | data/words.ts:31-34 | no button of `Ev fikreke pir baş e.` is accepted as `Fikre` |
| Words.FourthSentenceNoMatch | data/words.ts:43-46 | no button of `Ez muntezirê te me.` is accepted as `Muntezir` |
| Words.FifthSentenceNoMatch | data/words.ts:55-58 | no button of `Cewaba min çi ye?` is accepted as `Cewab` |
| Words.FirstIdentifiable | data/words.ts:7-10 | the token `Lazim` of the first sentence matches its loanword |
| Words.SecondNotIdentifiable | data/words.ts:19-22 | no token of the second sentence matches `Heval` |
| Words.ThirdNotIdentifiable | data/words.ts:31-34 | no token of the third sentence matches `Fikre` |
| Words.FourthNotIdentifiable | data/words.ts:43-46 | no token of the fourth sentence matches `Muntezir` |
| Words.FifthNotIdentifiable | data/words.ts:55-58 | no token of the fifth sentence matches `Cewab` |
| Words.IdentifyReachableOnlyFirst | data/words.ts:4-65 | a token of an entry's sentence matches its loanword if and only if it is the first entry |
| Words.FourOptionsEach | data/words.ts:4-65 | every stored entry gets four options with its answer exactly once |
| Engine.ExplanationText | components/GameEngine.tsx:41-44 | the explanation is the service's text when non-empty, and the captured item's usage notes otherwise |
| Engine.ExplanationNeverEmpty | components/GameEngine.tsx:43 | for a stored item the explanation is never empty, whatever the service answers, so the loading placeholder goes away |
| Engine.GameEngine.CurrentWord | components/GameEngine.tsx:22 | the item on screen is a stored item |
| Engine.GameEngine.constructor | components/GameEngine.tsx:14-20 | a fresh screen is on item 0 in IDENTIFY with score 0, no options, no feedback, no explanation and nothing pending, and satisfies the invariant |
| Engine.GameEngine.HandleIdentify | components/GameEngine.tsx:46-59 | a match sets correct feedback, adds 5 and schedules the move to REPLACE; a miss sets incorrect feedback, keeps the score and schedules clearing; phase, index and options never change |
| Engine.GameEngine.FireTimer | components/GameEngine.tsx:51-54 | the oldest callback runs and clears feedback; the identify callback sets REPLACE and, when that changes the phase, the options become an arrangement of the current candidates; index and score stay |
| Engine.GameEngine.EnterReplace | components/GameEngine.tsx:25-34 | on entering REPLACE the options become an arrangement of the current item's candidates and nothing else but the phase changes |
| Engine.GameEngine.HandleReplace | components/GameEngine.tsx:61-70 | the exact pure word sets correct feedback, adds 10 and sets REINFORCE, starting one request for the current item when the phase changes; any other option sets incorrect feedback, keeps score and phase and schedules clearing |
| Engine.GameEngine.NextQuestion | components/GameEngine.tsx:72-81 | before the last item it advances the index by one into IDENTIFY and clears feedback and explanation; on the last item it sets COMPLETE and keeps the index; the index stays inside the list |
| Engine.GameEngine.ResolveFetch | components/GameEngine.tsx:41-44 | the completed request sets the explanation from its reply and its own captured item, regardless of the item on screen |
| Engine.GameEngine.CompletionReport | components/GameEngine.tsx:107 | the completion button reports exactly the score, a multiple of five |
| Engine.OptionsOnScreen | components/GameEngine.tsx:28-33 | on the stored list, the options shown during REPLACE are four with the answer exactly once |
| Engine.PlayPerfectly | components/GameEngine.tsx:46-81 | answering every item right once, letting each callback run, ends COMPLETE on the last item with 15 points more per item |
| Engine.PerfectSession | components/GameEngine.tsx:46-81 | a perfect lesson over the stored list reports 75 points and ends COMPLETE |
| Engine.DoubleClick | components/GameEngine.tsx:46-59 | two matching clicks before the callback runs give 20 points for the item, and the second callback moves the next item straight to REPLACE |
| Engine.DoubleClickSkipsIdentify | components/GameEngine.tsx:51-54 | on the stored list, the second item opens in REPLACE with 20 points |
| Engine.LateExplanation | components/GameEngine.tsx:41-44 | a request that completes without text after the player moved on shows the previous item's usage notes on the next item |
| Engine.StaleExplanation | components/GameEngine.tsx:41-44 | on the stored list, the second item's screen shows the first item's usage notes |
| App.AfterGame | App.tsx:19-24 | a finished lesson adds exactly its points and one streak day, and keeps level, mastered ids and accuracy |
| App.GamesAccumulate | App.tsx:19-24 | after any series of lessons the record has gained their total points and one streak day per lesson, and nothing else has changed |
| App.AppState.constructor | App.tsx:9-17 | the shell starts on the home screen, not playing, with the record 320 points, level 2, streak 4, no mastered ids, accuracy 88 |
| App.AppState.SelectView | App.tsx:41 | the navigation bar changes only the screen |
| App.AppState.StartLesson | App.tsx:96 | the lesson card starts a lesson and changes nothing else |
| App.AppState.HandleGameComplete | App.tsx:19-27 | the record is updated by the lesson's points, no lesson runs and the home screen shows |
| App.AppState.Cancel | App.tsx:34 | cancelling stops the lesson and keeps the record and the screen |
| App.FinishLesson | App.tsx:33 | the completion button of a finished lesson adds exactly its score to the record's points |

## Left out

- Rendering: the markup, the styling and the progress bar. The progress bar width is a floating-point percentage.
- The navigation layout component: only its screen selection is modelled, as `SelectView`.
- The explanation service: its reply is a parameter of `ResolveFetch`. Its fallback text on failure is non-empty, so the usage notes are used only for an empty or undefined reply.
- The unused sentence generator of the service: it parses a remote reply.
- `selectedWord`: the component never sets it.
- Real time: callbacks run in scheduling order whenever `FireTimer` is called, and requests complete whenever `ResolveFetch` is called. How clicks interleave with the 800 ms delay is not modelled.
- The identify handler takes any string. Rendering passes only the tokens of the sentence, and only during IDENTIFY. The same holds for the replace options and the continue button.
- Text.ToLower: folds ASCII, the Latin-1 capitals and `Ş` only, not full Unicode case mapping; every character of the stored data is covered.
- Shuffling.Shuffle: is a pick-by-index model of the random sort, not the engine's sort algorithm. Its contract is only that the result is a permutation; the order a real browser sort produces is not modelled.
- Options.Candidates: the pipeline itself has no contract. Its properties are stated by `Options.CandidatesShape`, `Options.CandidatesFor` and `Words.FourOptionsEach`.
- The lesson's `difficulty_level` is a datatype with the three allowed values, so every entry has one of them by construction.

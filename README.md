# Flashcard spaced repetition: scheduler, study session and library in Dafny

This project models the core of a flashcard app that schedules reviews by spaced
repetition. It has four parts:

- **Scheduler** (`srs.dfy`, module `Srs`). A card and a recall grade (Again, Hard, Good,
  Easy) give the card's next interval, ease factor, box, due date and history.
  `CreateInitialFlashcard` builds a card in the "new" state.
- **Study session** (`study_session.dfy`, class `StudySession.Session`). The session keeps a
  working copy of the deck. It studies up to ten cards at a time (the batch) and grades
  the current card. When a batch ends it shows a summary and offers three actions:
  start the next batch, retry the same batch, or exit. The two host callbacks
  (`onSessionComplete`, `onExit`) are recorded in order in the ghost log `events`.
- **Batch summary** (`batch_summary.dfy`, module `BatchSummary`). These are counts over the
  batch and its grade map: total, the Again/Hard count, the Good/Easy count, accuracy,
  the difficult cards, the first three of them, and the "+N more" figure.
- **Application root** (`app.dfy`, class `App.AppState`). It decides at startup between
  the stored library and a legacy single deck. It also puts a new deck at the head of
  the library, merges a finished batch back into the active deck, deletes a deck, and
  selects or leaves a deck.

`seqs.dfy` holds `Option`, the order-preserving `Filter` and a keyed replacement
(`ReplaceByKey`). `types.dfy` holds the records (`Flashcard`, `Deck`, `Grade`) and id helpers.

Representation choices:

- The ease factor is an integer count of hundredths: 250 to start, a floor of 130, and
  steps of −20, −15 and +15.
- Intervals scaled by 1.2 and 2.5 are exact: `I*12/10` and `I*25/10`, rounded down.
- The clock reading `Date.now()` is the parameter `now`, in milliseconds. A day is
  86 400 000 ms and a minute is 60 000 ms.
- Both storage slots are held as their parsed contents, as `Option` values.

Behaviour of the code worth noting; the model follows the code:

- **Batches cycle.** "Start Next Batch" takes the next batch from the *whole* working
  deck minus only the batch just finished (components/StudySession.tsx:98-99). So with
  25 distinct cards the batches are cards 0–9, then 10–19, then 0–9 and 10–19 again, so
  the batches alternate. Cards 20–24 are never reached, and "has more cards" stays true for every deck of more than ten
  distinct cards (`LargeDeckHasMore`, `BatchesCycle`). Batches are not sized 10, 10, 5,
  and the session does not end after the third batch. This contradicts the comments at
  components/StudySession.tsx:91 and :97, which speak of shifting the window and of
  proceeding linearly through the deck.
- **Retry overwrites.** Each grade is scheduled from the batch's snapshot of the card,
  taken when the batch started. A second pass after "Practice This Batch Again" therefore
  overwrites the first pass's result instead of compounding it (`RegradeOverwrites`).
- **Grading does not check the flip.** `handleRate` does not test `isFlipped`. Only the
  rendering hides the grade buttons until the answer is shown. At the last card of a
  batch `isFlipped` keeps its value.
- **Nothing is saved on exit.** Exiting flushes nothing. Only the end of a batch reports
  the deck to the host.
- **"To Review" counts difficult cards.** The figure is the number of difficult cards,
  not the Again/Hard count. The two are equal when the batch's ids are distinct and
  every graded id is in the batch (`ToReviewIsHardCount`).

## Model

| member | source | states |
|---|---|---|
| Srs.CalculateNextReview | services/srsService.ts:7-68 | id, front and back pass through. The history is the old one with the grade appended. Again gives interval 0, box 0 and ease max(1.3, e−0.2). Hard gives 1 day for a new card, else the largest n ≥ 1 with 10n ≤ 12I; box unchanged; ease max(1.3, e−0.15). Good gives 1 day if new, else floor(2.5I) but at least 1; box +1; ease unchanged. Easy gives 3 days if new, else max(1, 4I); box +1; ease +0.15. Every non-Again grade gives ≥ 1 day. The due date is now+1 min for interval 0, else now+interval days. |
| Srs.CreateInitialFlashcard | services/srsService.ts:70-79 | Returns the given id, front and back. Box 0, interval 0, ease 2.5, empty history, due at `now`. |
| Srs.EaseFloorKept | services/srsService.ts:21-44 | An ease of at least 1.3 stays at least 1.3 after any grade. |
| Srs.IntervalGrowsUnlessAgain | services/srsService.ts:29-43 | A positive interval never shrinks under Hard, Good or Easy. |
| Srs.ReviewAllInvariants | services/srsService.ts:7-68 | Over any sequence of gradings, from a card with ease ≥ 1.3 and interval ≥ 0: ease stays ≥ 1.3, interval stays ≥ 0, and id and content are fixed. The history gains exactly the grades, in order. |
| Srs.EasyFromTenDays | services/srsService.ts:39-58 | Interval 10 and ease 2.5 graded Easy give 40 days, ease 2.65, box +1, due now+40 days. |
| Srs.AgainClampsEase | services/srsService.ts:22-54 | Interval 5 and ease 1.35 graded Again give interval 0, ease clamped to 1.3, box 0, due in one minute. |
| Srs.FirstReview | services/srsService.ts:19-79 | A new card's first grade gives 0/1/1/3 days for Again/Hard/Good/Easy. The history is that one grade. The box becomes 1 only for Good or Easy. |
| BatchSummary.CountsPartition | components/BatchSummary.tsx:25-26 | The Again/Hard count plus the Good/Easy count equals the number of entries in the grade map. |
| BatchSummary.Accuracy | components/BatchSummary.tsx:27 | None (NaN) exactly when the batch is empty. Otherwise it is easyCount·100/total rounded half up: 2·t·r ≤ 200e + t < 2·t·r + 2t. |
| BatchSummary.AccuracyInRange | components/BatchSummary.tsx:24-27 | If every graded id is in a non-empty batch, accuracy is defined and in 0..100. |
| BatchSummary.DifficultCards | components/BatchSummary.tsx:30 | Holds only batch cards graded Again or Hard. Every such batch card is included. In batch order (Seqs.FilterAppend). |
| BatchSummary.DifficultCount | components/BatchSummary.tsx:25-30 | Over distinct cards, the number of difficult cards equals the number of Again/Hard ids that belong to the batch. |
| BatchSummary.ToReviewIsHardCount | components/BatchSummary.tsx:25-49 | If the batch ids are distinct and the graded ids are in the batch, "To Review" equals the Again/Hard count. |
| BatchSummary.Summarize | components/BatchSummary.tsx:23-79 | total = batch length. The Again/Hard and Good/Easy counts are `HardCount` and `EasyCount` (lines 25-26: the number of grade entries of each kind), and accuracy is as above. At most 3 difficult cards are listed, the first ones in order. "+N more" appears exactly when more than 3 are difficult, with N = count − 3. The gaps list shows iff some card is difficult. "Start Next Batch" is offered iff `hasMoreCards`. |
| Seqs.FilterAppend | components/StudySession.tsx:99 | A filter of a concatenation is the concatenation of the filters, so filtering keeps order. |
| StudySession.TakeBatch | components/StudySession.tsx:44 | The batch is the prefix of the source of length min(10, length). Its ids come from the source. |
| StudySession.ReplaceCard | components/StudySession.tsx:70 | Same length and ids. Exactly the cards whose id equals the updated card's id become the updated card; all others stay. |
| StudySession.RegradeOverwrites | components/StudySession.tsx:60-71 | Grading the same snapshot card twice leaves only the second result in the deck. |
| StudySession.Remaining | components/StudySession.tsx:98-99 | Holds the deck cards whose id is not in the batch, and every such card. The ids are the deck ids minus the batch ids. |
| StudySession.LargeDeckHasMore | components/StudySession.tsx:126-136 | A deck of distinct cards larger than the batch always leaves cards, so `hasMoreCards` stays true. |
| StudySession.RemainingOfSlice | components/StudySession.tsx:98-99 | Over distinct cards, removing a slice by id leaves exactly the cards before and after it, in order. |
| StudySession.BatchesCycle | components/StudySession.tsx:41-107 | With 25 distinct cards the batches are 0–9, 10–19, then 0–9 again, and the fourth is 10–19 again; cards remain each time. |
| StudySession.Session.constructor | components/StudySession.tsx:19-51 | The working deck is the given deck and the first batch is its first ten cards. Index 0, not flipped, no summary, no grades, no events. |
| StudySession.Session.CurrentScreen | components/StudySession.tsx:121-139 | Loading exactly when the batch is empty and no summary shows. Summary exactly when `showSummary`. |
| StudySession.Session.CurrentCard | components/StudySession.tsx:60-61 | A card exists exactly when the index is within the batch, and it is then the batch card at the index (the card rendered at line 141 too). |
| StudySession.Session.HasMoreCards | components/StudySession.tsx:126-136 | True iff some working-deck card's id is not in the current batch. |
| StudySession.Session.Summary | components/StudySession.tsx:125-138 | The summary is `BatchSummary.Summarize` of the current batch, the session's grades and `hasMoreCards`, so its counts, accuracy, "To Review", listed cards and "+N more" all come from `sessionGrades` as that row states. In any valid state, the accuracy on the summary is in 0..100. |
| StudySession.Session.StartNewBatch | components/StudySession.tsx:41-51 | The batch is the first min(10, n) cards of the source, in order. Index 0, flipped and summary false, grades empty. The working deck is untouched. |
| StudySession.Session.HandleFlip | components/StudySession.tsx:55-57 | Toggles the flip and changes nothing else. |
| StudySession.Session.HandleRate | components/StudySession.tsx:59-83 | With no card at the index nothing changes. Otherwise the batch's snapshot card is scheduled, the working deck is replaced by id (length, order and ids kept), and `grades[id] := grade` is recorded. Not at the last card: the index advances and the card is unflipped. At the last card: the host is sent the updated deck once and the summary shows. The batch never changes. |
| StudySession.Session.HandleNextBatch | components/StudySession.tsx:86-108 | If cards remain (deck minus the batch), the next batch starts from them. Otherwise `onExit` is recorded and nothing else changes. The working deck never changes. |
| StudySession.Session.HandleRetryBatch | components/StudySession.tsx:110-117 | Index 0, flipped and summary false, grades cleared. The batch and working deck are untouched. |
| App.UpdatedMap | App.tsx:84 | Its keys are the updated cards' ids. Each id maps to the last card with that id. |
| App.MergeCards | App.tsx:84-87 | Same length, order and ids as the active deck. A card with no update is kept; otherwise it becomes the last updated card with its id. |
| App.MergeOfSameIds | App.tsx:84-87 | Merging a working copy with the deck's own distinct ids yields that copy. |
| App.MergeOfSession | App.tsx:165-170 | The working copy of a session started on the active deck's cards is taken over unchanged by the merge. |
| App.ReplaceDeck | App.tsx:93 | Only decks with the updated deck's id are replaced. All others stay in place. |
| App.DeleteDeck | App.tsx:100 | Holds exactly the decks whose id differs from the given id. |
| App.DeleteKeepsOrder | App.tsx:100 | Deletion distributes over concatenation, so the survivors keep their order. |
| App.DeleteAbsent | App.tsx:100 | Deleting an id no deck has changes nothing. |
| App.AddDeck | App.tsx:65 | The new deck is the head, followed by the old library unchanged. |
| App.GeneratedDeck | services/geminiService.ts:92-101 | Every generated card is in the new scheduling state with its given id, front and back. |
| App.LoadLibrary | App.tsx:21-53 | A non-empty stored library is used as is. Otherwise a legacy deck becomes a one-element library, which is saved. Otherwise the library is empty and the view is Upload. What is saved is the library. The view is Library iff the library is non-empty. |
| App.ReloadIsStable | App.tsx:38-47 | Loading again after the startup save (the legacy slot left in place) gives the same library and view and saves nothing. |
| App.AppState.constructor | App.tsx:15-53 | The state after mount follows `LoadLibrary`. The library slot holds what was saved; the legacy slot is kept. |
| App.AppState.Generate | App.tsx:59-78 | A failed generation changes nothing. Otherwise the deck heads the library, the library is saved, and the deck is active in the study view. |
| App.AppState.SessionComplete | App.tsx:80-96 | With no active deck nothing changes. Otherwise the merged deck becomes active, replaces its namesake in the library, and the library is saved. |
| App.AppState.DeleteDeckById | App.tsx:98-104 | The library is `DeleteDeck` of the old one, and it is saved. |
| App.AppState.SelectDeck | App.tsx:106-109 | The deck becomes active in the study view. |
| App.AppState.ExitStudy | App.tsx:111-114 | Library view, no active deck. |

## Left out

- The generator's network call, prompt, file reading and base64 conversion, random ids,
  and the date in the deck name (services/geminiService.ts) are foreign asynchronous
  I/O. The generator is treated as returning `GeneratedDeck` or failing. `Generate`
  takes its outcome as an `Option`.
- `localStorage` reads and writes and `JSON.parse`/`JSON.stringify` are left out. The
  slots are their parsed contents. A malformed or non-array library slot is `None`. A
  legacy slot counts only when it parses to a record with a `cards` field, and it is
  then `Some`.
- The `confirm` and `alert` dialogs are left out. A delete is modelled as already
  confirmed; a failed generation only alerts.
- `isGenerating` is left out. It is true only while the generator is awaited, and each
  handler is modelled as one atomic step.
- React rendering, hooks and state-update batching are left out, and so is the 150 ms
  delay before the index advances. Each handler is one atomic step.
- The navigation buttons that only set the view, and the session's Exit button and
  "Return to Dashboard" (they call `onExit` directly), are presentation. They are not
  modelled as session methods.
- The progress bar percentage (components/StudySession.tsx:142) is left out.
- Presentation components (components/Flashcard.tsx, components/Library.tsx,
  components/FileUpload.tsx, components/SettingsModal.tsx) and the build configuration
  are not part of this model.
- Srs.CalculateNextReview: ease and the 1.2, 2.5 and 4.0 multipliers are exact integer
  arithmetic, not IEEE doubles. The rare cases where floating-point rounding moves a
  product across a whole number are not modelled. `card.history || []` is modelled as a
  history that is always present.
- Srs.CalculateNextReview: intervals and due dates are exact unbounded integers. JavaScript
  numbers are doubles, so once `now + interval * 86400000` passes 2^53 ms the source's due
  date is rounded; the model has no such limit. That needs an interval above about 1.04e8
  days, which fourteen consecutive Easy grades reach from a new card (3·4^13 days).
- App.GeneratedDeck: one clock reading `now` serves as `createdAt` and as every card's due
  date. The source reads `Date.now()` separately for each card
  (services/srsService.ts:75) and again for `createdAt` (services/geminiService.ts:100);
  nothing in the core depends on these readings being equal or different.
- BatchSummary.Accuracy: `Math.round` of the double `easyCount / total * 100` is modelled
  as exact half-up rounding of the rational. Infinity and NaN both become `None`.

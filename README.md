# Flashmind study sessions in Dafny

Flashmind is a flashcard app. A language model generates a deck of question/answer cards on a topic. The learner flips each card, marks it correct or incorrect, and the progress is saved to a Convex database. Decks can be edited, made public, browsed and copied. This project models the state and synchronisation logic behind that, and proves properties of the model:

- **Store** (`store/useStudyStore.ts`): the client store. A class with the four fields the store keeps: the session list, the current session, the card index and the engine flag. It has the actions that overwrite them.
- **StudyController** (`hooks/useStudySession.ts`): the study logic.
  - Marking a card uses the six-row counter table, then moves the index.
  - Navigation clamps the index.
  - Creating a session builds a zero-progress draft from the generator's output.
  - Completing, resuming and deleting a session.
- **Mutations** (`hooks/useStudySessionMutations.ts`): the gateway to the database.
  - Create writes the store after the remote call.
  - Update writes it at once and queues a save, where the last save wins.
  - Delete writes it at once and restores a snapshot when the remote call fails.
- **UserApi** (`convex/userApi.ts`): the server.
  - The table is a `map` from session id to record, and the caller is an optional user id.
  - Each mutation runs its checks in the source's order and leaves the table untouched when a check fails.
  - The queries are exact filters of the table.
- **EditDeck**, **Browse**, **CreateDialog**, **FlashcardView**: the state machines of the deck editor, the browse page, the "new session" dialog and the study view.
- **Types**, **Seqs**, **Text**: shared records and counts, an order-keeping filter, and the JavaScript string built-ins the code relies on. Those built-ins are `trim`, ASCII `toLowerCase`, `includes`, and `parseInt` without a radix.

Remote calls, the language model and `JSON.parse` become parameters:

- remote outcomes are a `bool` or an `Option` of the returned id;
- the model's response is an `Option<string>`;
- the parse is a function `string -> Option<seq<Flashcard>>`;
- random card ids are a function from the card's position to a string.

Four `async` handlers become two methods each: a `Begin…` method up to the awaited call and a `Settle…`/`End…` method after it, so that the in-flight state is visible. They are the dialog's create (`BeginCreate`/`EndCreate`), the editor's save (`BeginSave`/`EndSave`), the browse page's copy (`BeginCopy`/`SettleCopy`) and the gateway's delete (`BeginDelete`/`SettleDelete`). The other `async` operations, such as `Mutations.CreateSession` and `StudyController.DeleteSession`, are single methods that take the remote outcome as a parameter.

The progress invariant is `Types.Consistent`:

- `completedCards` is the number of marked cards;
- `correctAnswers` is the number of cards marked correct.

Marking preserves it. Copying a public deck establishes it. Saving an edit breaks it whenever the deck had progress, because the save drops every mark and keeps the counters. The model proves that this happens rather than proving an invariant that the code does not keep.

Three behaviours of the code that differ from what one might expect, modelled as the code has them:

- **Index after the last card.** After the last card is marked, the index is 0, not the last card. `markCard` first calls `setCurrentSession`, which resets the index, and advances it only when the card was not the last.
- **Empty model response.** An empty or missing response gives a session with no cards. It does not give "no session".
- **Out-of-range index.** Marking with an index outside the deck stops with no write (`CardMissing`). In JavaScript the lookup `cards[currentCardIndex]` gives `undefined` there, and reading `answeredCorrect` from it throws a `TypeError`.

## Model

| member | source | states |
|---|---|---|
| Store.StudyStore.constructor | store/useStudyStore.ts:24-32 | the store starts with no sessions, no current session, index 0 and the flag off |
| Store.StudyStore.Reset | store/useStudyStore.ts:59 | reset restores exactly the initial state |
| Store.StudyStore.SetStudySessions | store/useStudyStore.ts:34 | the list is replaced wholesale; current session, index and flag are unchanged |
| Store.StudyStore.SetCurrentSession | store/useStudyStore.ts:36-40 | the session (or none) becomes current and the index is 0 whatever the argument |
| Store.StudyStore.SetCurrentCardIndex | store/useStudyStore.ts:42 | the index is stored verbatim, no clamping; nothing else changes |
| Store.StudyStore.SetInitComplete | store/useStudyStore.ts:44 | only the flag changes |
| Store.UpdateWhere | store/useStudyStore.ts:48-52 | same length and order; exactly the entries whose id is the given id become old record overridden by the update |
| Store.UpdateCurrent | store/useStudyStore.ts:54-56 | the current session is merged exactly when its id matches, otherwise it is unchanged |
| Store.StudyStore.UpdateSession | store/useStudyStore.ts:46-57 | list and current session updated as above, index and flag untouched, and list/current agreement preserved |
| Store.UpdateKeepsInSync | store/useStudyStore.ts:46-57 | if every list copy of the current session equals it before an update by id, the same holds after |
| Store.UpdateSkipsUnsaved | store/useStudyStore.ts:49 | a session without an id is never changed by an update |
| Types.Merge | store/useStudyStore.ts:50-55 | the fields the partial update supplies win, the others and the id are kept; an empty update changes nothing |
| Types.MergeIdempotent | store/useStudyStore.ts:50 | merging the same partial update twice equals merging it once, and the id is kept |
| Types.CountsAfterSet | hooks/useStudySession.ts:75-79 | replacing one card changes the answered and correct counts by that card's difference only |
| Types.CountsOfUnmarked | hooks/useStudySession.ts:48-54 | unmarked cards count zero answered and zero correct |
| StudyController.NoDeltaIffSameMark | hooks/useStudySession.ts:81-93 | the counters stay put exactly when the card is re-marked with the mark it already carries |
| StudyController.MarkedCards | hooks/useStudySession.ts:75-79 | same length; card i gets the mark and keeps id, question and answer; every other card is unchanged |
| StudyController.MarkDelta | hooks/useStudySession.ts:81-93 | the six rows: unanswered gives +1 completed and +1/0 correct; same mark gives no change; true to false gives -1 correct; false to true gives +1 correct |
| StudyController.MarkDeltaMatchesCounts | hooks/useStudySession.ts:72-93 | the table's deltas are exactly how much the mark changes the number of answered and correct cards |
| StudyController.Marked | hooks/useStudySession.ts:75-100 | only the mark of card i and the counters change, each counter by the delta table's entry for the card's old mark, whatever the stored counters were; other cards, id, topic, requested count and public flag are kept |
| StudyController.MarkPreservesConsistency | hooks/useStudySession.ts:72-100 | counters that agree with the marks before a mark still agree after it |
| StudyController.RemarkRoundTrip | hooks/useStudySession.ts:87-92 | true to false and back to true restores the session, counters included |
| StudyController.RemarkRoundTripFromIncorrect | hooks/useStudySession.ts:87-92 | false to true and back to false restores the session |
| StudyController.ProgressPatch | hooks/useStudySession.ts:104-108 | the save after a mark carries the cards and both counters and nothing else |
| StudyController.MergeProgress | hooks/useStudySession.ts:103-108 | merging the marked session's progress patch into the unmarked one yields the marked session |
| StudyController.MarkKeepsInSync | hooks/useStudySession.ts:103-108 | after the store write of a mark, the list copies of the session equal the new current session |
| StudyController.MarkCard | hooks/useStudySession.ts:67-114 | no-op without a saved current session or with the index off the deck; otherwise the marked session is current and merged into the list, the progress save is queued, the index becomes i+1 if i < len-1 and 0 otherwise, and consistency and list agreement are preserved |
| StudyController.NavigateIndex | hooks/useStudySession.ts:131-134 | prev gives max(0, i-1) and next gives min(len-1, i+1) for every index, in range or not; an in-range index stays in range |
| StudyController.NavigateIdempotentAtEnds | hooks/useStudySession.ts:131-134 | a second step from an end of the deck stays at that end |
| StudyController.NextOnEmptyDeck | hooks/useStudySession.ts:134 | next on a deck with no cards sets the index to -1 |
| StudyController.NavigateCard | hooks/useStudySession.ts:127-139 | no-op without a current session; otherwise only the index moves, as NavigateIndex says |
| StudyController.GenerateFlashcards | hooks/useStudySession.ts:32-40 | a missing or empty response gives no cards; otherwise the cards are what the parse yields, or failure |
| StudyController.Draft | hooks/useStudySession.ts:48-54 | the new session has no id and no public flag, the given topic and cards, the requested count as totalCards and zero counters |
| StudyController.DraftConsistent | hooks/useStudySession.ts:48-54 | the draft of unmarked cards has zero counters that agree with its cards |
| StudyController.CreateStudySession | hooks/useStudySession.ts:45-61 | a parse failure or a failed save leaves the store untouched; success prepends the draft with the returned id, makes it current at index 0, requested count as totalCards and zero counters |
| StudyController.CompleteSession | hooks/useStudySession.ts:144-147 | no current session, index 0, list kept |
| StudyController.ResumeSession | hooks/useStudySession.ts:152-158 | the session is current at index 0, list kept |
| StudyController.DeleteSession | hooks/useStudySession.ts:163-168 | the gateway's delete, with its outcome |
| Mutations.AutoSave.constructor | hooks/useStudySessionMutations.ts:18-19 | no save is waiting when the hook mounts |
| Mutations.AutoSave.Schedule | hooks/useStudySessionMutations.ts:19-28 | a new save replaces the waiting one: the last call wins |
| Mutations.AutoSave.Cancel | hooks/useStudySessionMutations.ts:31-35 | unmounting drops the waiting save |
| Mutations.AutoSave.Fire | hooks/useStudySessionMutations.ts:20-26 | firing sends exactly the waiting save and touches no store state, whatever the remote outcome |
| Mutations.WithoutId | hooks/useStudySessionMutations.ts:88-90 | exactly the sessions whose id differs are kept, each as often as before and in their order (a subsequence); the deleted id is gone |
| Mutations.WithoutAbsentId | hooks/useStudySessionMutations.ts:88-90 | deleting an id no session carries leaves the list unchanged |
| Mutations.CreateSession | hooks/useStudySessionMutations.ts:40-61 | on failure the store is untouched; on success the session with the returned id is put first and the old list follows |
| Mutations.UpdateSession | hooks/useStudySessionMutations.ts:69-78 | the store takes the update at once and the save is queued, with no rollback |
| Mutations.BeginDelete | hooks/useStudySessionMutations.ts:85-100 | snapshot taken; sessions with the id removed; current session cleared and index 0 exactly when the current session is the deleted one |
| Mutations.SettleDelete | hooks/useStudySessionMutations.ts:102-113 | on remote failure the snapshot's list, current session and index are restored exactly |
| Mutations.DeleteSession | hooks/useStudySessionMutations.ts:83-116 | a failed delete leaves list, current session and index as they were; a successful one keeps the optimistic removal |
| UserApi.CheckSaver | convex/userApi.ts:34-42 | no identity first, then a guest, otherwise the caller |
| UserApi.CheckOwner | convex/userApi.ts:91-103 | no identity, then missing record, then not owner, each as an if-and-only-if |
| UserApi.CheckCopy | convex/userApi.ts:202-219 | no identity, then guest, then missing record, then not public, each as an if-and-only-if; success exactly when all four checks pass, with the stored record |
| UserApi.Patched | convex/userApi.ts:105-122 | each supplied field replaces the stored one, the others stay; owner and requested count never change |
| UserApi.PatchedKeepsOwner | convex/userApi.ts:105-122 | patching keeps owner and requested count, is idempotent, and an empty update changes nothing |
| UserApi.CopyOf | convex/userApi.ts:222-236 | the copy has the caller as owner, same topic and requested count, same card ids, questions and answers in order with marks cleared, zero counters and private |
| UserApi.CopyIsConsistent | convex/userApi.ts:226-234 | the copy's counters agree with its cards |
| UserApi.Select | convex/userApi.ts:63-66 | exactly the stored records the filter accepts, each with its id, in increasing id order |
| UserApi.CreatorName | convex/userApi.ts:188 | never empty; the username when it is non-empty; "Anonymous" for a missing user |
| UserApi.CreatorNameFallback | convex/userApi.ts:188 | then the name, then the email, then "Anonymous" |
| UserApi.WithCreator | convex/userApi.ts:182-191 | every record keeps its place and gets its owner's display name |
| UserApi.Database.constructor | convex/schema.ts:20-35 | the table starts empty |
| UserApi.Database.Insert | convex/userApi.ts:44-51 | the record is stored under an id no record had, the other records unchanged |
| UserApi.Database.CreateUserStudySession | convex/userApi.ts:16-53 | rejects a missing then a guest caller with no insert; otherwise inserts a record owned by the caller with the given fields |
| UserApi.Database.GetUserStudySessions | convex/userApi.ts:55-68 | errors when unauthenticated; otherwise exactly the caller's records |
| UserApi.Database.UpdateUserStudySession | convex/userApi.ts:70-124 | after the owner checks, exactly the supplied fields are replaced; any failed check leaves the table unchanged |
| UserApi.Database.ToggleSessionPublic | convex/userApi.ts:126-148 | after the owner checks, only the public flag of the target changes |
| UserApi.Database.DeleteUserStudySession | convex/userApi.ts:150-171 | after the owner checks, exactly the target record is removed |
| UserApi.Database.GetPublicStudySessions | convex/userApi.ts:173-195 | exactly the records whose public flag is true, each with its creator name |
| UserApi.Database.CopyPublicDeck | convex/userApi.ts:197-238 | after the four checks, the copy is inserted under a new id and the original is unchanged; a failed check changes nothing |
| EditDeck.LoadedId | components/decks/EditDeckModal.tsx:44 | a card's own non-empty id is kept, otherwise the drawn one; a non-empty draw gives a non-empty id |
| EditDeck.LoadedCards | components/decks/EditDeckModal.tsx:42-48 | same questions and answers in order; a card's own non-empty id is kept |
| EditDeck.SomeDiffers | components/decks/EditDeckModal.tsx:102-106 | true exactly when some card differs from the original at its index in question or answer |
| EditDeck.HasChanges | components/decks/EditDeckModal.tsx:98-107 | true iff there is a session and the topic, the length, or some card's question or answer differs; ids and marks are ignored |
| EditDeck.NoChangesAfterLoad | components/decks/EditDeckModal.tsx:39-50 | right after loading there are no changes, whatever ids were drawn |
| EditDeck.SaveAllowed | components/decks/EditDeckModal.tsx:53 | the save proceeds iff the session has an id, the topic has a non-whitespace character and there is a card |
| EditDeck.SaveButtonEnabled | components/decks/EditDeckModal.tsx:221-223 | an enabled Save button means a session to compare with, not saving, a card and a non-blank topic |
| EditDeck.EnabledButtonPassesGuard | components/decks/EditDeckModal.tsx:221-223 | a click on the enabled Save button passes the save guard exactly when the session has an id |
| EditDeck.SavePayload | components/decks/EditDeckModal.tsx:57-67 | topic and cards only; each card is id, question and answer with no mark; no counters |
| EditDeck.SaveKeepsCounters | components/decks/EditDeckModal.tsx:59-66 | after the save the counters and public flag are as before and no card is marked |
| EditDeck.SaveBreaksCounters | components/decks/EditDeckModal.tsx:59-66 | saving an edit of a deck with progress leaves counters that no card backs |
| EditDeck.RemoveAt | components/decks/EditDeckModal.tsx:84-86 | exactly position i goes and the others keep their order; out of range changes nothing |
| EditDeck.WithField | components/decks/EditDeckModal.tsx:94 | the named field takes the value; the id and the other field stay |
| EditDeck.EditDeckModal.constructor | components/decks/EditDeckModal.tsx:32-36 | empty topic, no cards, not saving |
| EditDeck.EditDeckModal.Load | components/decks/EditDeckModal.tsx:39-50 | a session's topic and cards replace the working copy; none changes nothing |
| EditDeck.EditDeckModal.AddCard | components/decks/EditDeckModal.tsx:77-82 | one empty card with a new id is appended; earlier cards unchanged |
| EditDeck.EditDeckModal.RemoveCard | components/decks/EditDeckModal.tsx:84-86 | the working cards become RemoveAt of the old ones |
| EditDeck.EditDeckModal.CardChange | components/decks/EditDeckModal.tsx:88-96 | the named field of card i is set; every other field and card is unchanged |
| EditDeck.EditDeckModal.BeginSave | components/decks/EditDeckModal.tsx:52-67 | does nothing without an id, with a blank topic or no cards; otherwise saving starts with the payload |
| EditDeck.EditDeckModal.EndSave | components/decks/EditDeckModal.tsx:68-74 | saving ends after success and failure; only success closes |
| Browse.TopicMatches | app/browse/page.tsx:30 | a deck matches iff the lowercased term occurs at some position of the lowercased topic |
| Browse.SearchIgnoresCase | app/browse/page.tsx:28-30 | a term and its lowercase form match the same decks |
| Browse.FilteredSessions | app/browse/page.tsx:23-32 | empty before loading; everything for a blank term; otherwise exactly the decks whose lowercased topic contains the lowercased term, each as often as in the input |
| Browse.FilteredIsSubsequence | app/browse/page.tsx:26-31 | the result keeps the input's order |
| Browse.BrowsePage.constructor | app/browse/page.tsx:17 | no copy in flight |
| Browse.BrowsePage.BeginCopy | app/browse/page.tsx:34-35 | the deck is marked as being copied |
| Browse.BrowsePage.SettleCopy | app/browse/page.tsx:36-45 | the mark is cleared after success and failure; navigation only after success |
| CreateDialog.NumCardsInput | components/StudySessionModal.tsx:139 | the parsed integer, or 5 when parsing gives NaN or 0; never 0 |
| CreateDialog.NumCardsOfDecimal | components/StudySessionModal.tsx:139 | a positive count typed in decimal is taken as typed |
| CreateDialog.NumCardsOfZeros | components/StudySessionModal.tsx:139 | typing zero, as any non-empty run of zeros, gives 5 |
| Text.ParseInt | components/StudySessionModal.tsx:139 | NaN for a blank string or one whose first visible character is neither a sign nor a digit; a negative result only after a minus sign |
| Text.ParseIntOfDigits | components/StudySessionModal.tsx:139 | a non-empty run of decimal digits is read as the number it denotes |
| Text.ParseIntOfDecimal | components/StudySessionModal.tsx:139 | parseInt reads back the decimal string of every natural number |
| Text.IsBlank | components/StudySessionModal.tsx:43 | a string is blank after trimming iff all its characters are whitespace |
| Text.Lower | app/browse/page.tsx:28-30 | same length, no ASCII capital left, each capital replaced by its small letter, all else kept |
| Text.LowerIdempotent | app/browse/page.tsx:28-30 | lowercasing twice is lowercasing once |
| Text.Includes | app/browse/page.tsx:30 | true iff the needle occurs at some position of the haystack |
| CreateDialog.StudySessionModal.constructor | components/StudySessionModal.tsx:28-31 | topic "", 5 cards, not creating, closed |
| CreateDialog.StudySessionModal.HandleModalClose | components/StudySessionModal.tsx:33-40 | closing resets topic and count; opening keeps them |
| CreateDialog.StudySessionModal.SetNumCardsFromInput | components/StudySessionModal.tsx:139 | the count becomes NumCardsInput of the text |
| CreateDialog.StudySessionModal.BeginCreate | components/StudySessionModal.tsx:42-47 | a blank topic changes nothing and requests nothing; otherwise creating starts with topic and count |
| CreateDialog.StudySessionModal.EndCreate | components/StudySessionModal.tsx:46-53 | creating ends either way; success closes and resets, failure keeps dialog, topic and count |
| FlashcardView.CardAt | components/FlashcardStudy.tsx:31 | the card at the index exactly when the index is in range |
| FlashcardView.PrevDisabled | components/FlashcardStudy.tsx:125 | Previous is disabled iff a step back would leave the index where it is, for any deck size |
| FlashcardView.NextDisabled | components/FlashcardStudy.tsx:158 | Next is disabled iff a step forward would leave the index where it is |
| FlashcardView.MarkDisabled | components/FlashcardStudy.tsx:138-146 | a mark button is disabled iff there is a card and marking it that way would change neither counter |
| FlashcardView.MarkEnabled | components/FlashcardStudy.tsx:133-149 | a mark button can be clicked iff the card is flipped and the button is not disabled |
| FlashcardView.EnabledMarkChangesSomething | components/FlashcardStudy.tsx:133-153 | a mark button can be clicked iff the card is flipped and its mark changes a counter, so same-mark rows are unreachable from the view; after the mark the same button is disabled |
| FlashcardView.FlashcardStudy.constructor | components/FlashcardStudy.tsx:30 | the card starts unflipped |
| FlashcardView.FlashcardStudy.ToggleFlip | components/FlashcardStudy.tsx:73 | a click turns the card over |
| FlashcardView.FlashcardStudy.HandleNavigateCard | components/FlashcardStudy.tsx:33-36 | unflipped, then navigation as the controller does it |
| FlashcardView.FlashcardStudy.HandleMarkCard | components/FlashcardStudy.tsx:38-41 | unflipped, then the mark as the controller does it: the same outcomes, list write, index move, queued save and preserved invariants |
| Seqs.Filter | app/browse/page.tsx:29 | the kept elements are exactly those the test accepts, each with its multiplicity in the input |
| Seqs.FilterIsSubsequence | app/browse/page.tsx:29 | a filter's result is a subsequence of its input |
| Seqs.FilterKeepsAll | app/browse/page.tsx:26 | a filter that keeps everything returns its input |

## Left out

- The language model engine (`lib/webllm.ts`, `components/WebLLMProvider.tsx`) is foreign inference code. Its response is a parameter, and `JSON.parse` is an abstract partial function. A parse result that is not an array is not distinguished from a card list. An engine that is not loaded makes `getCards` return `null` (`lib/webllm.ts:24-27`), which the model covers as a missing response: a session with no cards. A rejected `engine!.chat.completions.create` call (`lib/webllm.ts:44`) or a reply without `choices[0]` (`lib/webllm.ts:48`) throws instead. The response parameter cannot express that; it aborts session creation before any write, which is the same effect as `ParseFailed`.
- Debounce timing: the 500 ms timer is not modelled. Only the single pending-save slot is, with its last-call-wins, cancel and fire behaviour.
- The Convex database, indexes and auth SDK are foreign code.
  - The table is a `map` with ids handed out in increasing order, and the caller is a parameter.
  - Query order is modelled as increasing id, meaning creation order.
  - Convex schema validation is not modelled. The schema does not list `isPublic`, so a real deployment would reject a write of it; the model accepts that write.
  - `createdAt` is not modelled: it is a clock read.
- `getCurrentUser`, the search route, sign-in, sign-out and the navbar are auth and network plumbing outside this core.
- Percentages and progress-bar widths are floating-point display values.
- Presentational components, the decks-page view mapping, the user store, toasts, console logging, and the dialog's `variant` and `isLoading` props belong to presentation only.
- Random card ids: `Math.random().toString()` is a parameter (an id per card position, or one new id), because randomness stays outside the model.
- Text.ParseInt returns an unbounded integer. JavaScript's `parseInt` returns a double, so it loses precision above 2^53 ("9007199254740993" gives 9007199254740992); the model does not round.
- Text.Lower folds ASCII letters only. JavaScript's `toLowerCase` also folds the rest of Unicode, which has no finite model here.
- UserApi.Database.GetUserStudySessions does not state the source's index order as such. It returns the caller's records in increasing id order, which is what the `by_userId` index gives for one owner.
- UserApi.CheckOwner uses one error value, `NotAuthorized`, for both "not authorized to update" and "not authorized to delete". The message texts are not modelled.
- EditDeck.EditDeckModal.CardChange requires the index to be in range, because the only callers pass the index of a row on screen.

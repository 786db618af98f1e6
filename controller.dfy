/**
 * The study controller: marking the card on screen, moving between cards,
 * and the session lifecycle (create from generated cards, complete, resume,
 * delete). It reads and writes the study store and goes through the
 * mutation gateway for everything that is saved.
 */
module StudyController {

  import opened Types
  import opened Store
  import Mutations

  datatype Direction = Prev | Next

  /** The changes to `completedCards` and `correctAnswers` that one mark causes. */
  datatype Delta = Delta(completed: int, correct: int)

  /**
   * The counter changes for marking a card `isCorrect` when it carried the
   * mark `prior`; the six rows of the transition table.
   */
  function MarkDelta(prior: Option<bool>, isCorrect: bool): (d: Delta)
    ensures prior == None && isCorrect ==> d == Delta(1, 1)
    ensures prior == None && !isCorrect ==> d == Delta(1, 0)
    ensures prior == Some(true) && isCorrect ==> d == Delta(0, 0)
    ensures prior == Some(true) && !isCorrect ==> d == Delta(0, -1)
    ensures prior == Some(false) && isCorrect ==> d == Delta(0, 1)
    ensures prior == Some(false) && !isCorrect ==> d == Delta(0, 0)
  {
    var wasAlreadyAnswered := prior.Some?;
    var previousAnswerWasCorrect := prior == Some(true);
    var completedChange := if wasAlreadyAnswered then 0 else 1;
    var correctChange :=
      if !wasAlreadyAnswered then (if isCorrect then 1 else 0)
      else if previousAnswerWasCorrect != isCorrect then (if isCorrect then 1 else -1)
      else 0;
    Delta(completedChange, correctChange)
  }

  /** Only re-marking a card with the mark it already carries leaves both counters alone. */
  lemma {:induction false} NoDeltaIffSameMark(prior: Option<bool>, isCorrect: bool)
    ensures MarkDelta(prior, isCorrect) == Delta(0, 0) <==> prior == Some(isCorrect)
  {
    match prior
    case None =>
    case Some(b) =>
      if b {
        assert MarkDelta(Some(true), isCorrect) == Delta(0, if isCorrect then 0 else -1);
      } else {
        assert MarkDelta(Some(false), isCorrect) == Delta(0, if isCorrect then 1 else 0);
      }
  }

  /** The card list after card `i` is marked `isCorrect`. */
  function MarkedCards(cards: seq<Flashcard>, i: nat, isCorrect: bool): (r: seq<Flashcard>)
    requires i < |cards|
    ensures |r| == |cards|
    ensures r[i].answeredCorrect == Some(isCorrect)
    ensures r[i].id == cards[i].id && r[i].question == cards[i].question && r[i].answer == cards[i].answer
    ensures forall j :: 0 <= j < |cards| && j != i ==> r[j] == cards[j]
  {
    cards[i := cards[i].(answeredCorrect := Some(isCorrect))]
  }

  /** The delta is exactly how much marking card `i` changes each count. */
  lemma MarkDeltaMatchesCounts(cards: seq<Flashcard>, i: nat, isCorrect: bool)
    requires i < |cards|
    ensures CountAnswered(MarkedCards(cards, i, isCorrect))
         == CountAnswered(cards) + MarkDelta(cards[i].answeredCorrect, isCorrect).completed
    ensures CountCorrect(MarkedCards(cards, i, isCorrect))
         == CountCorrect(cards) + MarkDelta(cards[i].answeredCorrect, isCorrect).correct
  {
    CountsAfterSet(cards, i, cards[i].(answeredCorrect := Some(isCorrect)));
  }

  /**
   * The session that marking card `i` produces: only that card's mark and
   * the two counters change.
   */
  function Marked(s: StudySession, i: nat, isCorrect: bool): (r: StudySession)
    requires i < |s.cards|
    ensures |r.cards| == |s.cards|
    ensures r.cards[i] == s.cards[i].(answeredCorrect := Some(isCorrect))
    ensures forall j :: 0 <= j < |s.cards| && j != i ==> r.cards[j] == s.cards[j]
    ensures r.id == s.id && r.topic == s.topic && r.totalCards == s.totalCards && r.isPublic == s.isPublic
    ensures r.completedCards == s.completedCards + MarkDelta(s.cards[i].answeredCorrect, isCorrect).completed
    ensures r.correctAnswers == s.correctAnswers + MarkDelta(s.cards[i].answeredCorrect, isCorrect).correct
  {
    var d := MarkDelta(s.cards[i].answeredCorrect, isCorrect);
    s.(cards := MarkedCards(s.cards, i, isCorrect),
       completedCards := s.completedCards + d.completed,
       correctAnswers := s.correctAnswers + d.correct)
  }

  /** Counters that agree with the marks still agree after a mark. */
  lemma MarkPreservesConsistency(s: StudySession, i: nat, isCorrect: bool)
    requires i < |s.cards| && Consistent(s)
    ensures Consistent(Marked(s, i, isCorrect))
  {
    MarkDeltaMatchesCounts(s.cards, i, isCorrect);
  }

  /** Changing a correct mark to incorrect and back restores the session exactly. */
  lemma RemarkRoundTrip(s: StudySession, i: nat)
    requires i < |s.cards| && s.cards[i].answeredCorrect == Some(true)
    ensures Marked(Marked(s, i, false), i, true) == s
  {
    assert MarkedCards(MarkedCards(s.cards, i, false), i, true) == s.cards;
  }

  /** Changing an incorrect mark to correct and back restores the session exactly. */
  lemma RemarkRoundTripFromIncorrect(s: StudySession, i: nat)
    requires i < |s.cards| && s.cards[i].answeredCorrect == Some(false)
    ensures Marked(Marked(s, i, true), i, false) == s
  {
    assert MarkedCards(MarkedCards(s.cards, i, true), i, false) == s.cards;
  }

  /** The partial update that the mark sends: the cards and both counters. */
  function ProgressPatch(s: StudySession): (p: Patch)
    ensures p.topic.None? && p.totalCards.None? && p.isPublic.None?
    ensures p.cards == Some(s.cards)
    ensures p.completedCards == Some(s.completedCards) && p.correctAnswers == Some(s.correctAnswers)
  {
    Patch(None, None, Some(s.cards), Some(s.completedCards), Some(s.correctAnswers), None)
  }

  /** Merging a session's progress into a copy that differs only in progress yields that session. */
  lemma MergeProgress(prior: StudySession, s: StudySession)
    requires prior.id == s.id && prior.topic == s.topic && prior.totalCards == s.totalCards
    requires prior.isPublic == s.isPublic
    ensures Merge(prior, ProgressPatch(s)) == s
  {
  }

  /** After a mark, the list copies of the marked session agree with the current one again. */
  lemma MarkKeepsInSync(sessions: seq<StudySession>, s: StudySession, i: nat, isCorrect: bool)
    requires s.id.Some? && i < |s.cards| && InSync(sessions, Some(s))
    ensures var m := Marked(s, i, isCorrect);
      InSync(UpdateWhere(sessions, s.id.value, ProgressPatch(m)), Some(m))
  {
    var m := Marked(s, i, isCorrect);
    var r := UpdateWhere(sessions, s.id.value, ProgressPatch(m));
    forall j | 0 <= j < |r| && r[j].id == m.id
      ensures r[j] == m
    {
      MergeIdempotent(sessions[j], ProgressPatch(m));
      MergeProgress(s, m);
    }
  }

  /** `navigateCard`'s index: one step back or forward, clamped to the deck. */
  function NavigateIndex(direction: Direction, index: int, count: int): (r: int)
    ensures 0 <= index < count ==> 0 <= r < count
    ensures direction == Prev && index == 0 ==> r == 0
    ensures direction == Next && index == count - 1 ==> r == index
    ensures direction == Prev && 0 < index ==> r == index - 1
    ensures direction == Next && index < count - 1 ==> r == index + 1
    ensures direction == Prev && index <= 0 ==> r == 0
    ensures direction == Next && index >= count - 1 ==> r == count - 1
  {
    if direction == Prev then
      (if index - 1 < 0 then 0 else index - 1)
    else
      (if count - 1 < index + 1 then count - 1 else index + 1)
  }

  /** Navigating again from an end of the deck stays there. */
  lemma NavigateIdempotentAtEnds(direction: Direction, index: int, count: int)
    requires 0 <= index < count
    requires direction == Prev ==> index <= 1
    requires direction == Next ==> index >= count - 2
    ensures NavigateIndex(direction, NavigateIndex(direction, index, count), count)
         == NavigateIndex(direction, index, count)
  {
  }

  /** On a deck with no cards, Next leaves the deck: the index becomes -1. */
  lemma NextOnEmptyDeck(index: int)
    requires 0 <= index
    ensures NavigateIndex(Next, index, 0) == -1
  {
  }

  /**
   * `generateFlashcards`: no response (or an empty one) gives no cards;
   * otherwise the cards are whatever the JSON parse yields, and None when
   * the parse throws.
   */
  function GenerateFlashcards(response: Option<string>, parse: string -> Option<seq<Flashcard>>)
    : (r: Option<seq<Flashcard>>)
    ensures response.None? || response == Some("") ==> r == Some([])
    ensures response.Some? && response.value != "" ==> r == parse(response.value)
  {
    match response
    case None => Some([])
    case Some(text) => if text == "" then Some([]) else parse(text)
  }

  /** The new session before it is saved: requested count, no progress, no id. */
  function Draft(topic: string, numCards: int, cards: seq<Flashcard>): (r: StudySession)
    ensures r.id.None? && r.isPublic.None?
    ensures r.topic == topic && r.cards == cards
    ensures r.totalCards == numCards
    ensures r.completedCards == 0 && r.correctAnswers == 0
  {
    StudySession(None, topic, numCards, cards, 0, 0, None)
  }

  /** A draft built from unmarked cards has counters that agree with its cards. */
  lemma DraftConsistent(topic: string, numCards: int, cards: seq<Flashcard>)
    requires forall j :: 0 <= j < |cards| ==> cards[j].answeredCorrect.None?
    ensures Consistent(Draft(topic, numCards, cards))
    ensures |Draft(topic, numCards, cards).cards| == |cards|
  {
    CountsOfUnmarked(cards);
  }

  datatype MarkOutcome = Skipped | CardMissing | Recorded

  /**
   * `markCard`: without a saved current session nothing happens; when the
   * index is off the card list the card lookup throws before any write.
   * Otherwise the marked session becomes current (which resets the index
   * to 0), the progress goes to the gateway, and the index moves to the next
   * card unless the marked card was the last one, in which case it stays 0.
   */
  method MarkCard(store: StudyStore, saver: Mutations.AutoSave, isCorrect: bool) returns (outcome: MarkOutcome)
    modifies store, saver
    ensures outcome == Skipped <==>
      old(store.currentSession).None? || old(store.currentSession).value.id.None?
    ensures outcome == CardMissing <==>
      && old(store.currentSession).Some? && old(store.currentSession).value.id.Some?
      && !(0 <= old(store.currentCardIndex) < |old(store.currentSession).value.cards|)
    ensures outcome != Recorded ==> unchanged(store) && unchanged(saver)
    ensures outcome == Recorded ==>
      && old(store.currentSession).Some? && old(store.currentSession).value.id.Some?
      && 0 <= old(store.currentCardIndex) < |old(store.currentSession).value.cards|
    ensures outcome == Recorded ==>
      var s := old(store.currentSession).value;
      var i := old(store.currentCardIndex);
      var m := Marked(s, i, isCorrect);
      && store.currentSession == Some(m)
      && store.studySessions == UpdateWhere(old(store.studySessions), s.id.value, ProgressPatch(m))
      && store.currentCardIndex == (if i < |s.cards| - 1 then i + 1 else 0)
      && store.initComplete == old(store.initComplete)
      && saver.pending == Some(Mutations.PendingWrite(s.id.value, ProgressPatch(m)))
      && (Consistent(s) ==> Consistent(m))
      && (InSync(old(store.studySessions), old(store.currentSession)) ==>
            InSync(store.studySessions, store.currentSession))
  {
    var session := store.currentSession;
    if session.None? || session.value.id.None? {
      return Skipped;
    }
    var current := session.value;
    var index := store.currentCardIndex;
    if !(0 <= index < |current.cards|) {
      return CardMissing;
    }
    var currentCard := current.cards[index];
    var updatedCards := current.cards[index := currentCard.(answeredCorrect := Some(isCorrect))];
    var change := MarkDelta(currentCard.answeredCorrect, isCorrect);
    var updatedSession := current.(cards := updatedCards,
                                   completedCards := current.completedCards + change.completed,
                                   correctAnswers := current.correctAnswers + change.correct);
    assert updatedSession == Marked(current, index, isCorrect);
    if Consistent(current) {
      MarkPreservesConsistency(current, index, isCorrect);
    }
    if InSync(store.studySessions, session) {
      MarkKeepsInSync(store.studySessions, current, index, isCorrect);
    }
    MergeProgress(updatedSession, updatedSession);

    store.SetCurrentSession(Some(updatedSession));
    Mutations.UpdateSession(store, saver, current.id.value, ProgressPatch(updatedSession));
    if index < |current.cards| - 1 {
      store.SetCurrentCardIndex(index + 1);
    }
    outcome := Recorded;
  }

  /** `navigateCard`: with a current session, the index moves by `NavigateIndex`. */
  method NavigateCard(store: StudyStore, direction: Direction)
    modifies store
    ensures old(store.currentSession).None? ==> unchanged(store)
    ensures old(store.currentSession).Some? ==>
      store.currentCardIndex
        == NavigateIndex(direction, old(store.currentCardIndex), |old(store.currentSession).value.cards|)
    ensures store.studySessions == old(store.studySessions)
    ensures store.currentSession == old(store.currentSession)
    ensures store.initComplete == old(store.initComplete)
  {
    if store.currentSession.None? {
      return;
    }
    var newIndex := NavigateIndex(direction, store.currentCardIndex, |store.currentSession.value.cards|);
    store.SetCurrentCardIndex(newIndex);
  }

  datatype CreateError = ParseFailed | SaveFailed

  /**
   * `createStudySession`: generate the cards, build the draft, save it
   * through the gateway, then make it current at the first card. A parse
   * failure or a failed save propagates and leaves the store as it was.
   */
  method CreateStudySession(
    store: StudyStore, topic: string, numCards: int,
    response: Option<string>, parse: string -> Option<seq<Flashcard>>, remote: Option<SessionId>)
    returns (r: Result<StudySession, CreateError>)
    modifies store
    ensures GenerateFlashcards(response, parse).None? ==> r == Err(ParseFailed) && unchanged(store)
    ensures GenerateFlashcards(response, parse).Some? && remote.None? ==>
      r == Err(SaveFailed) && unchanged(store)
    ensures r.Ok? <==> GenerateFlashcards(response, parse).Some? && remote.Some?
    ensures r.Ok? ==>
      && r.value == Draft(topic, numCards, GenerateFlashcards(response, parse).value).(id := remote)
      && store.studySessions == [r.value] + old(store.studySessions)
      && store.currentSession == Some(r.value)
      && store.currentCardIndex == 0
      && store.initComplete == old(store.initComplete)
  {
    var cards := GenerateFlashcards(response, parse);
    if cards.None? {
      return Err(ParseFailed);
    }
    var newStudySession := Draft(topic, numCards, cards.value);
    var sessionWithId := Mutations.CreateSession(store, newStudySession, remote);
    if sessionWithId.None? {
      return Err(SaveFailed);
    }
    store.SetCurrentSession(sessionWithId);
    store.SetCurrentCardIndex(0);
    r := Ok(sessionWithId.value);
  }

  /** `completeSession`: no current session, first card; the session itself is kept. */
  method CompleteSession(store: StudyStore)
    modifies store
    ensures store.currentSession == None && store.currentCardIndex == 0
    ensures store.studySessions == old(store.studySessions)
    ensures store.initComplete == old(store.initComplete)
  {
    store.SetCurrentSession(None);
    store.SetCurrentCardIndex(0);
  }

  /** `resumeSession`: the given session becomes current at its first card. */
  method ResumeSession(store: StudyStore, session: StudySession)
    modifies store
    ensures store.currentSession == Some(session) && store.currentCardIndex == 0
    ensures store.studySessions == old(store.studySessions)
    ensures store.initComplete == old(store.initComplete)
  {
    store.SetCurrentSession(Some(session));
    store.SetCurrentCardIndex(0);
  }

  /** `deleteSession`: handed to the gateway's delete unchanged. */
  method DeleteSession(store: StudyStore, sessionId: SessionId, remoteOk: bool) returns (ok: bool)
    modifies store
    ensures ok == remoteOk
    ensures !remoteOk ==> store.Snap() == old(store.Snap())
    ensures remoteOk ==> store.studySessions == Mutations.WithoutId(old(store.studySessions), sessionId)
    ensures remoteOk ==>
      var clear := old(store.currentSession).Some? && old(store.currentSession).value.id == Some(sessionId);
      && store.currentSession == (if clear then None else old(store.currentSession))
      && store.currentCardIndex == (if clear then 0 else old(store.currentCardIndex))
    ensures store.initComplete == old(store.initComplete)
  {
    ok := Mutations.DeleteSession(store, sessionId, remoteOk);
  }
}

/**
 * The study view: whether the card on screen shows its answer, and which of
 * its buttons are enabled. Navigating and marking turn the card back over and
 * hand the request to the study controller.
 */
module FlashcardView {

  import opened Types
  import opened Store
  import Mutations
  import StudyController

  /**
   * Previous is disabled on the first card: exactly where a step back would
   * leave the index where it is, whatever the number of cards.
   */
  predicate PrevDisabled(index: int)
    ensures PrevDisabled(index) <==>
      forall count :: StudyController.NavigateIndex(StudyController.Prev, index, count) == index
  {
    assert StudyController.NavigateIndex(StudyController.Prev, index, 0) == index ==> index == 0;
    index == 0
  }

  /**
   * Next is disabled on the last card (never, on a deck with no cards and
   * index 0): exactly where a step forward would leave the index where it is.
   */
  predicate NextDisabled(index: int, count: int)
    ensures NextDisabled(index, count) <==>
      StudyController.NavigateIndex(StudyController.Next, index, count) == index
  {
    index == count - 1
  }

  /**
   * A mark button is disabled when the card on screen already carries that
   * mark: exactly when marking it again would change neither counter.
   */
  predicate MarkDisabled(card: Option<Flashcard>, isCorrect: bool)
    ensures MarkDisabled(card, isCorrect) <==>
      card.Some? && StudyController.MarkDelta(card.value.answeredCorrect, isCorrect) == StudyController.Delta(0, 0)
  {
    if card.None? then false
    else
      StudyController.NoDeltaIffSameMark(card.value.answeredCorrect, isCorrect);
      card.value.answeredCorrect == Some(isCorrect)
  }

  /** The mark buttons are shown only once the card is flipped, and then obey `MarkDisabled`. */
  predicate MarkEnabled(isFlipped: bool, card: Option<Flashcard>, isCorrect: bool)
    ensures MarkEnabled(isFlipped, card, isCorrect) <==> isFlipped && !MarkDisabled(card, isCorrect)
  {
    isFlipped && !MarkDisabled(card, isCorrect)
  }

  /** The card at the index, when there is one (`session.cards[currentCardIndex]`). */
  function CardAt(cards: seq<Flashcard>, index: int): (c: Option<Flashcard>)
    ensures c.Some? <==> 0 <= index < |cards|
    ensures c.Some? ==> c.value == cards[index]
  {
    if 0 <= index < |cards| then Some(cards[index]) else None
  }

  /**
   * A mark button that can be clicked always changes the counters' table
   * row: the same-mark rows of the table, the ones that change nothing, cannot
   * be reached from this view. After the click the same button is disabled.
   */
  lemma EnabledMarkChangesSomething(isFlipped: bool, cards: seq<Flashcard>, index: int, isCorrect: bool)
    requires 0 <= index < |cards|
    ensures MarkEnabled(isFlipped, CardAt(cards, index), isCorrect) <==>
      isFlipped && StudyController.MarkDelta(cards[index].answeredCorrect, isCorrect) != StudyController.Delta(0, 0)
    ensures MarkDisabled(CardAt(StudyController.MarkedCards(cards, index, isCorrect), index), isCorrect)
  {
  }

  class FlashcardStudy {
    var isFlipped: bool

    constructor ()
      ensures !isFlipped
    {
      isFlipped := false;
    }

    /** A click on the card turns it over. */
    method ToggleFlip()
      modifies this
      ensures isFlipped == !old(isFlipped)
    {
      isFlipped := !isFlipped;
    }

    /** `handleNavigateCard`: show the question again, then navigate. */
    method HandleNavigateCard(store: StudyStore, direction: StudyController.Direction)
      modifies this, store
      ensures !isFlipped
      ensures old(store.currentSession).None? ==> store.Snap() == old(store.Snap())
      ensures old(store.currentSession).Some? ==>
        store.currentCardIndex
          == StudyController.NavigateIndex(direction, old(store.currentCardIndex), |old(store.currentSession).value.cards|)
      ensures store.studySessions == old(store.studySessions) && store.currentSession == old(store.currentSession)
      ensures store.initComplete == old(store.initComplete)
    {
      isFlipped := false;
      StudyController.NavigateCard(store, direction);
    }

    /** `handleMarkCard`: show the question again, then mark. */
    method HandleMarkCard(store: StudyStore, saver: Mutations.AutoSave, isCorrect: bool)
      returns (outcome: StudyController.MarkOutcome)
      modifies this, store, saver
      ensures !isFlipped
      ensures outcome == StudyController.Skipped <==>
        old(store.currentSession).None? || old(store.currentSession).value.id.None?
      ensures outcome == StudyController.CardMissing <==>
        && old(store.currentSession).Some? && old(store.currentSession).value.id.Some?
        && !(0 <= old(store.currentCardIndex) < |old(store.currentSession).value.cards|)
      ensures outcome != StudyController.Recorded ==> unchanged(store) && unchanged(saver)
      ensures outcome == StudyController.Recorded ==>
        && old(store.currentSession).Some? && old(store.currentSession).value.id.Some?
        && 0 <= old(store.currentCardIndex) < |old(store.currentSession).value.cards|
      ensures outcome == StudyController.Recorded ==>
        var s := old(store.currentSession).value;
        var i := old(store.currentCardIndex);
        var m := StudyController.Marked(s, i, isCorrect);
        && store.currentSession == Some(m)
        && store.studySessions == UpdateWhere(old(store.studySessions), s.id.value, StudyController.ProgressPatch(m))
        && store.currentCardIndex == (if i < |s.cards| - 1 then i + 1 else 0)
        && store.initComplete == old(store.initComplete)
        && saver.pending == Some(Mutations.PendingWrite(s.id.value, StudyController.ProgressPatch(m)))
        && (Consistent(s) ==> Consistent(m))
        && (InSync(old(store.studySessions), old(store.currentSession)) ==>
              InSync(store.studySessions, store.currentSession))
    {
      isFlipped := false;
      outcome := StudyController.MarkCard(store, saver, isCorrect);
    }
  }
}

/**
 * The deck editor: a working copy of a saved session's topic and cards
 * (every card with an id, no progress), edited in place, compared with the
 * original, and saved as a topic-and-cards update of the stored record.
 */
module EditDeck {

  import opened Types
  import opened Text
  import UserApi

  /** A card as the editor holds it: always an id, never a mark. */
  datatype DraftCard = DraftCard(id: string, question: string, answer: string)

  datatype CardField = Question | Answer

  /**
   * `card.id || fresh`: an absent or empty id is replaced by a newly drawn
   * one, so a non-empty drawn id always yields a non-empty id.
   */
  function LoadedId(card: Flashcard, newId: string): (r: string)
    ensures card.id.Some? && card.id.value != "" ==> r == card.id.value
    ensures (card.id.None? || card.id.value == "") ==> r == newId
    ensures newId != "" ==> r != ""
  {
    if card.id.Some? && card.id.value != "" then card.id.value else newId
  }

  /** The load effect's card list; `newId(j)` stands for the random id drawn for card j. */
  function LoadedCards(cards: seq<Flashcard>, newId: nat -> string): (r: seq<DraftCard>)
    ensures |r| == |cards|
    ensures forall j :: 0 <= j < |r| ==>
      r[j].question == cards[j].question && r[j].answer == cards[j].answer
    ensures forall j :: 0 <= j < |r| && cards[j].id.Some? && cards[j].id.value != "" ==>
      r[j].id == cards[j].id.value
  {
    var r := seq(|cards|, j requires 0 <= j < |cards| =>
      DraftCard(LoadedId(cards[j], newId(j)), cards[j].question, cards[j].answer));
    assert forall j :: 0 <= j < |r| ==> r[j].id == LoadedId(cards[j], newId(j));
    r
  }

  /** Card j of the editor differs from card j of the original in its question or its answer. */
  predicate DiffersAt(cards: seq<DraftCard>, originals: seq<Flashcard>, j: int)
    requires 0 <= j < |cards|
  {
    j >= |originals| || cards[j].question != originals[j].question || cards[j].answer != originals[j].answer
  }

  /** `cards.some((card, idx) => ...)`, scanning from the first card; a missing original differs. */
  function SomeDiffers(cards: seq<DraftCard>, originals: seq<Flashcard>): (r: bool)
    ensures r <==> exists j :: 0 <= j < |cards| && DiffersAt(cards, originals, j)
  {
    if cards == [] then false
    else if originals == [] || cards[0].question != originals[0].question || cards[0].answer != originals[0].answer then
      assert DiffersAt(cards, originals, 0);
      true
    else
      var rest := SomeDiffers(cards[1..], originals[1..]);
      DifferenceInTail(cards, originals);
      rest
  }

  /** When the first cards agree, a difference is one in the remaining cards, one place earlier. */
  lemma DifferenceInTail(cards: seq<DraftCard>, originals: seq<Flashcard>)
    requires cards != [] && originals != [] && !DiffersAt(cards, originals, 0)
    ensures (exists j :: 0 <= j < |cards| && DiffersAt(cards, originals, j)) <==>
            (exists j :: 0 <= j < |cards[1..]| && DiffersAt(cards[1..], originals[1..], j))
  {
    if exists j :: 0 <= j < |cards| && DiffersAt(cards, originals, j) {
      var k :| 0 <= k < |cards| && DiffersAt(cards, originals, k);
      assert DiffersAt(cards[1..], originals[1..], k - 1);
    }
    if exists j :: 0 <= j < |cards[1..]| && DiffersAt(cards[1..], originals[1..], j) {
      var k :| 0 <= k < |cards[1..]| && DiffersAt(cards[1..], originals[1..], k);
      assert DiffersAt(cards, originals, k + 1);
    }
  }

  /**
   * `hasChanges`: with a session, the topic, the number of cards or some
   * card's question or answer differs; card ids and marks are ignored.
   */
  function HasChanges(session: Option<StudySession>, topic: string, cards: seq<DraftCard>): (r: bool)
    ensures r <==>
      && session.Some?
      && (|| topic != session.value.topic
          || |cards| != |session.value.cards|
          || exists j :: 0 <= j < |cards| &&
               (cards[j].question != session.value.cards[j].question
                || cards[j].answer != session.value.cards[j].answer))
  {
    if session.None? then false
    else if topic != session.value.topic then true
    else if |cards| != |session.value.cards| then true
    else
      assert forall j :: 0 <= j < |cards| ==>
        (DiffersAt(cards, session.value.cards, j) <==>
          (cards[j].question != session.value.cards[j].question || cards[j].answer != session.value.cards[j].answer));
      SomeDiffers(cards, session.value.cards)
  }

  /** Right after the load effect nothing has changed, whatever ids were drawn. */
  lemma NoChangesAfterLoad(session: StudySession, newId: nat -> string)
    ensures !HasChanges(Some(session), session.topic, LoadedCards(session.cards, newId))
  {
  }

  /**
   * The `handleSave` guard: a saved session, a topic with a character that is
   * not whitespace, at least one card.
   */
  predicate SaveAllowed(session: Option<StudySession>, topic: string, cards: seq<DraftCard>)
    ensures SaveAllowed(session, topic, cards) <==>
      && session.Some? && session.value.id.Some?
      && (exists i :: 0 <= i < |topic| && !IsSpace(topic[i]))
      && |cards| > 0
  {
    session.Some? && session.value.id.Some? && !IsBlank(topic) && |cards| > 0
  }

  /**
   * The Save button is enabled: a topic, a card, not saving, and something
   * changed, which needs a session to compare with.
   */
  predicate SaveButtonEnabled(session: Option<StudySession>, topic: string, cards: seq<DraftCard>, isSaving: bool)
    ensures SaveButtonEnabled(session, topic, cards, isSaving) ==>
      session.Some? && !isSaving && |cards| > 0 && exists i :: 0 <= i < |topic| && !IsSpace(topic[i])
  {
    !IsBlank(topic) && |cards| > 0 && !isSaving && HasChanges(session, topic, cards)
  }

  /** A click on an enabled Save button passes the guard exactly when the session has an id. */
  lemma EnabledButtonPassesGuard(session: Option<StudySession>, topic: string, cards: seq<DraftCard>, isSaving: bool)
    requires SaveButtonEnabled(session, topic, cards, isSaving)
    ensures SaveAllowed(session, topic, cards) <==> session.value.id.Some?
  {
  }

  function SavedCard(card: DraftCard): Flashcard
  {
    Flashcard(Some(card.id), card.question, card.answer, None)
  }

  /** The update `handleSave` sends: the topic and the cards, nothing else. */
  function SavePayload(topic: string, cards: seq<DraftCard>): (u: UserApi.Updates)
    ensures u.topic == Some(topic) && u.cards.Some? && |u.cards.value| == |cards|
    ensures forall j :: 0 <= j < |cards| ==>
      u.cards.value[j] == Flashcard(Some(cards[j].id), cards[j].question, cards[j].answer, None)
    ensures u.completedCards.None? && u.correctAnswers.None? && u.isPublic.None?
  {
    UserApi.Updates(Some(topic), Some(seq(|cards|, j requires 0 <= j < |cards| => SavedCard(cards[j]))),
                    None, None, None)
  }

  /**
   * Saving an edit replaces topic and cards, drops every mark and keeps the
   * stored counters: the record is left with counters that no card backs.
   */
  lemma SaveKeepsCounters(rec: UserApi.Record, topic: string, cards: seq<DraftCard>)
    ensures var saved := UserApi.Patched(rec, SavePayload(topic, cards));
      && saved.completedCards == rec.completedCards
      && saved.correctAnswers == rec.correctAnswers
      && saved.isPublic == rec.isPublic
      && CountAnswered(saved.cards) == 0 && CountCorrect(saved.cards) == 0
  {
    CountsOfUnmarked(UserApi.Patched(rec, SavePayload(topic, cards)).cards);
  }

  /** Hence an edit of a deck with any progress leaves its counters out of step with its cards. */
  lemma SaveBreaksCounters(rec: UserApi.Record, topic: string, cards: seq<DraftCard>)
    requires rec.completedCards != 0
    ensures var saved := UserApi.Patched(rec, SavePayload(topic, cards));
      CountAnswered(saved.cards) != saved.completedCards
  {
    SaveKeepsCounters(rec, topic, cards);
  }

  /** `cards.filter((_, i) => i !== index)`: position `index` goes, the others keep their order. */
  function RemoveAt(cards: seq<DraftCard>, index: int): (r: seq<DraftCard>)
    ensures 0 <= index < |cards| ==> |r| == |cards| - 1
    ensures !(0 <= index < |cards|) ==> r == cards
    ensures 0 <= index < |cards| ==> forall j :: 0 <= j < index ==> r[j] == cards[j]
    ensures 0 <= index < |cards| ==> forall j :: index <= j < |r| ==> r[j] == cards[j + 1]
  {
    if cards == [] then []
    else
      var rest := RemoveAt(cards[1..], index - 1);
      if index == 0 then rest else [cards[0]] + rest
  }

  /** `{ ...card, [field]: value }`: the named field takes the value, the id and the other field stay. */
  function WithField(card: DraftCard, field: CardField, value: string): (r: DraftCard)
    ensures r.id == card.id
    ensures field == Question ==> r.question == value && r.answer == card.answer
    ensures field == Answer ==> r.answer == value && r.question == card.question
  {
    match field
    case Question => card.(question := value)
    case Answer => card.(answer := value)
  }

  class EditDeckModal {
    var topic: string
    var cards: seq<DraftCard>
    var isSaving: bool

    constructor ()
      ensures topic == "" && cards == [] && !isSaving
    {
      topic := "";
      cards := [];
      isSaving := false;
    }

    /** The load effect: a session's topic and cards replace the working copy; none changes nothing. */
    method Load(session: Option<StudySession>, newId: nat -> string)
      modifies this
      ensures session.None? ==> topic == old(topic) && cards == old(cards)
      ensures session.Some? ==>
        topic == session.value.topic && cards == LoadedCards(session.value.cards, newId)
      ensures session.Some? ==> !HasChanges(session, topic, cards)
      ensures isSaving == old(isSaving)
    {
      if session.Some? {
        topic := session.value.topic;
        cards := LoadedCards(session.value.cards, newId);
        NoChangesAfterLoad(session.value, newId);
      }
    }

    /** `handleAddCard`: one empty card with a fresh id at the end. */
    method AddCard(freshId: string)
      modifies this
      ensures cards == old(cards) + [DraftCard(freshId, "", "")]
      ensures |cards| == |old(cards)| + 1
      ensures topic == old(topic) && isSaving == old(isSaving)
    {
      cards := cards + [DraftCard(freshId, "", "")];
    }

    /** `handleRemoveCard`. */
    method RemoveCard(index: int)
      modifies this
      ensures cards == RemoveAt(old(cards), index)
      ensures topic == old(topic) && isSaving == old(isSaving)
    {
      cards := RemoveAt(cards, index);
    }

    /** `handleCardChange`, called with the index of a row on screen. */
    method CardChange(index: int, field: CardField, value: string)
      requires 0 <= index < |cards|
      modifies this
      ensures cards == old(cards)[index := WithField(old(cards)[index], field, value)]
      ensures field == Question ==> cards[index].question == value && cards[index].answer == old(cards)[index].answer
      ensures field == Answer ==> cards[index].answer == value && cards[index].question == old(cards)[index].question
      ensures cards[index].id == old(cards)[index].id
      ensures topic == old(topic) && isSaving == old(isSaving)
    {
      var newCards := cards;
      newCards := newCards[index := WithField(newCards[index], field, value)];
      cards := newCards;
    }

    /**
     * `handleSave` up to the awaited update: when the guard fails nothing
     * happens; otherwise saving starts and the request is returned.
     */
    method BeginSave(session: Option<StudySession>) returns (request: Option<(SessionId, UserApi.Updates)>)
      modifies this
      ensures request.None? <==> !SaveAllowed(session, old(topic), old(cards))
      ensures request.None? ==> isSaving == old(isSaving)
      ensures request.Some? ==>
        isSaving && request.value == (session.value.id.value, SavePayload(old(topic), old(cards)))
      ensures topic == old(topic) && cards == old(cards)
    {
      if !SaveAllowed(session, topic, cards) {
        return None;
      }
      isSaving := true;
      request := Some((session.value.id.value, SavePayload(topic, cards)));
    }

    /** `handleSave` after the update: saving always ends; only success closes the dialog. */
    method EndSave(ok: bool) returns (closed: bool)
      modifies this
      ensures !isSaving && closed == ok
      ensures topic == old(topic) && cards == old(cards)
    {
      isSaving := false;
      closed := ok;
    }
  }
}

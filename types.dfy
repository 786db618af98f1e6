/**
 * The records shared by the client store, the study controller and the
 * server: flashcards, study sessions, partial session updates, and the
 * progress counts that a session's counters are meant to agree with.
 */
module Types {

  datatype Option<+T> = None | Some(value: T)

  datatype Result<+T, +E> = Ok(value: T) | Err(error: E)

  /** Identifier of a stored study session; the database assigns it on insert. */
  type SessionId = nat

  /**
   * A flashcard. `answeredCorrect` is the tri-state mark: None (unanswered),
   * Some(true) (answered correctly) or Some(false) (answered incorrectly).
   * The id is optional: cards parsed from the generator's output carry none.
   */
  datatype Flashcard = Flashcard(
    id: Option<string>,
    question: string,
    answer: string,
    answeredCorrect: Option<bool>)

  /**
   * A study session as the client holds it. `totalCards` is the card count
   * that was requested, which need not be the length of `cards`.
   */
  datatype StudySession = StudySession(
    id: Option<SessionId>,
    topic: string,
    totalCards: int,
    cards: seq<Flashcard>,
    completedCards: int,
    correctAnswers: int,
    isPublic: Option<bool>)

  /** A partial session: a field that is Some overrides, a field that is None is absent. */
  datatype Patch = Patch(
    topic: Option<string>,
    totalCards: Option<int>,
    cards: Option<seq<Flashcard>>,
    completedCards: Option<int>,
    correctAnswers: Option<int>,
    isPublic: Option<bool>)

  /** The supplied value if there is one, otherwise the current one. */
  function Pick<T>(supplied: Option<T>, current: T): T
  {
    if supplied.Some? then supplied.value else current
  }

  /**
   * Object spread `{ ...s, ...p }`: the fields present in `p` win, the
   * others and the id are kept; an empty patch changes nothing.
   */
  function Merge(s: StudySession, p: Patch): (r: StudySession)
    ensures r.id == s.id
    ensures p.topic.Some? ==> r.topic == p.topic.value
    ensures p.totalCards.Some? ==> r.totalCards == p.totalCards.value
    ensures p.cards.Some? ==> r.cards == p.cards.value
    ensures p.completedCards.Some? ==> r.completedCards == p.completedCards.value
    ensures p.correctAnswers.Some? ==> r.correctAnswers == p.correctAnswers.value
    ensures p.isPublic.Some? ==> r.isPublic == p.isPublic
    ensures p.topic.None? ==> r.topic == s.topic
    ensures p.totalCards.None? ==> r.totalCards == s.totalCards
    ensures p.cards.None? ==> r.cards == s.cards
    ensures p.completedCards.None? ==> r.completedCards == s.completedCards
    ensures p.correctAnswers.None? ==> r.correctAnswers == s.correctAnswers
    ensures p.isPublic.None? ==> r.isPublic == s.isPublic
    ensures p == Patch(None, None, None, None, None, None) ==> r == s
  {
    s.(topic := Pick(p.topic, s.topic),
       totalCards := Pick(p.totalCards, s.totalCards),
       cards := Pick(p.cards, s.cards),
       completedCards := Pick(p.completedCards, s.completedCards),
       correctAnswers := Pick(p.correctAnswers, s.correctAnswers),
       isPublic := if p.isPublic.Some? then p.isPublic else s.isPublic)
  }

  /** Merging the same partial session twice is the same as merging it once. */
  lemma MergeIdempotent(s: StudySession, p: Patch)
    ensures Merge(Merge(s, p), p) == Merge(s, p)
    ensures Merge(s, p).id == s.id
  {
  }

  function AnsweredBit(c: Flashcard): nat
  {
    if c.answeredCorrect.Some? then 1 else 0
  }

  function CorrectBit(c: Flashcard): nat
  {
    if c.answeredCorrect == Some(true) then 1 else 0
  }

  /** The number of cards that carry a mark. */
  function CountAnswered(cards: seq<Flashcard>): (n: nat)
    ensures n <= |cards|
  {
    if cards == [] then 0 else AnsweredBit(cards[0]) + CountAnswered(cards[1..])
  }

  /** The number of cards marked correct; never more than the marked ones. */
  function CountCorrect(cards: seq<Flashcard>): (n: nat)
    ensures n <= CountAnswered(cards)
  {
    if cards == [] then 0 else CorrectBit(cards[0]) + CountCorrect(cards[1..])
  }

  /** The progress counters agree with the marks on the cards. */
  predicate Consistent(s: StudySession)
  {
    s.completedCards == CountAnswered(s.cards) && s.correctAnswers == CountCorrect(s.cards)
  }

  /** Replacing one card changes each count by that card's difference only. */
  lemma {:induction false} CountsAfterSet(cards: seq<Flashcard>, i: nat, c: Flashcard)
    requires i < |cards|
    ensures CountAnswered(cards[i := c]) == CountAnswered(cards) - AnsweredBit(cards[i]) + AnsweredBit(c)
    ensures CountCorrect(cards[i := c]) == CountCorrect(cards) - CorrectBit(cards[i]) + CorrectBit(c)
  {
    if i == 0 {
      assert cards[i := c][1..] == cards[1..];
    } else {
      assert cards[i := c][1..] == cards[1..][i - 1 := c];
      CountsAfterSet(cards[1..], i - 1, c);
    }
  }

  /** Cards that carry no mark count zero answered and zero correct. */
  lemma {:induction false} CountsOfUnmarked(cards: seq<Flashcard>)
    requires forall j :: 0 <= j < |cards| ==> cards[j].answeredCorrect.None?
    ensures CountAnswered(cards) == 0 && CountCorrect(cards) == 0
  {
    if cards != [] {
      CountsOfUnmarked(cards[1..]);
    }
  }
}

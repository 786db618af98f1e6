/**
 * The "new study session" dialog: its four pieces of state, the reset on
 * close, the card-count input and the create request with its cleanup.
 */
module CreateDialog {

  import opened Types
  import opened Text

  /** The card count the form starts with and falls back to. */
  const DefaultNumCards: int := 5

  /** `parseInt(value) || 5`: NaN and 0 both fall back to the default. */
  function NumCardsInput(value: string): (n: int)
    ensures n != 0
    ensures ParseInt(value).None? || ParseInt(value) == Some(0) ==> n == DefaultNumCards
    ensures ParseInt(value).Some? && ParseInt(value).value != 0 ==> n == ParseInt(value).value
  {
    match ParseInt(value)
    case None => DefaultNumCards
    case Some(k) => if k == 0 then DefaultNumCards else k
  }

  /** A count typed as its decimal digits is taken as typed. */
  lemma NumCardsOfDecimal(n: nat)
    requires n >= 1
    ensures NumCardsInput(DecimalString(n)) == n
  {
    ParseIntOfDecimal(n);
  }

  /** Typing zero, written with any number of zeros, falls back to the default. */
  lemma NumCardsOfZeros(value: string)
    requires value != [] && forall i :: 0 <= i < |value| ==> value[i] == '0'
    ensures NumCardsInput(value) == DefaultNumCards
  {
    ParseIntOfDigits(value);
    ValueOfZeros(value, 10);
  }

  class StudySessionModal {
    var topic: string
    var numCards: int
    var isCreating: bool
    var isModalOpen: bool

    predicate IsInitial()
      reads this
    {
      topic == "" && numCards == DefaultNumCards && !isCreating && !isModalOpen
    }

    constructor ()
      ensures IsInitial()
    {
      topic := "";
      numCards := DefaultNumCards;
      isCreating := false;
      isModalOpen := false;
    }

    /** `handleModalClose`: closing also clears the form; opening keeps it. */
    method HandleModalClose(open: bool)
      modifies this
      ensures isModalOpen == open
      ensures !open ==> topic == "" && numCards == DefaultNumCards
      ensures open ==> topic == old(topic) && numCards == old(numCards)
      ensures isCreating == old(isCreating)
    {
      isModalOpen := open;
      if !open {
        topic := "";
        numCards := DefaultNumCards;
      }
    }

    /** The count input's change handler. */
    method SetNumCardsFromInput(value: string)
      modifies this
      ensures numCards == NumCardsInput(value)
      ensures topic == old(topic) && isCreating == old(isCreating) && isModalOpen == old(isModalOpen)
    {
      numCards := NumCardsInput(value);
    }

    /**
     * `handleCreateSession` up to the awaited create: a blank topic changes
     * nothing and asks for nothing; otherwise creating starts and the topic
     * and count to create with are returned.
     */
    method BeginCreate() returns (request: Option<(string, int)>)
      modifies this
      ensures IsBlank(old(topic)) <==> request.None?
      ensures request.None? ==> unchanged(this)
      ensures request.Some? ==> request.value == (old(topic), old(numCards)) && isCreating
      ensures topic == old(topic) && numCards == old(numCards) && isModalOpen == old(isModalOpen)
    {
      if IsBlank(topic) {
        return None;
      }
      isCreating := true;
      request := Some((topic, numCards));
    }

    /**
     * `handleCreateSession` after the create: creating always ends; success
     * closes the dialog and clears the form, failure keeps both.
     */
    method EndCreate(ok: bool)
      modifies this
      ensures !isCreating
      ensures ok ==> !isModalOpen && topic == "" && numCards == DefaultNumCards
      ensures !ok ==> isModalOpen == old(isModalOpen) && topic == old(topic) && numCards == old(numCards)
    {
      if ok {
        isModalOpen := false;
        topic := "";
        numCards := DefaultNumCards;
      }
      isCreating := false;
    }
  }
}

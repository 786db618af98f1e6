/**
 * The browse page: the public decks filtered by a search term on their
 * topic, and the one copy request that may be in flight.
 */
module Browse {

  import opened Types
  import opened Seqs
  import opened Text
  import UserApi

  /**
   * The deck's topic, lowercased, contains the lowercased (untrimmed) term:
   * the lowercased term occurs at some position of the lowercased topic.
   */
  predicate TopicMatches(deck: UserApi.PublicDeck, term: string)
    ensures TopicMatches(deck, term) <==> exists k :: OccursAt(Lower(deck.record.topic), Lower(term), k)
  {
    Includes(Lower(deck.record.topic), Lower(term))
  }

  /** The search ignores letter case in the term: a term and its lowercase form match the same decks. */
  lemma SearchIgnoresCase(deck: UserApi.PublicDeck, term: string)
    ensures TopicMatches(deck, term) <==> TopicMatches(deck, Lower(term))
  {
    LowerIdempotent(term);
  }

  /**
   * `filteredSessions`: nothing before the decks have loaded, every deck
   * when the term is blank, otherwise the matching decks in their order.
   */
  function FilteredSessions(publicSessions: Option<seq<UserApi.PublicDeck>>, term: string)
    : (r: seq<UserApi.PublicDeck>)
    ensures publicSessions.None? ==> r == []
    ensures publicSessions.Some? && IsBlank(term) ==> r == publicSessions.value
    ensures publicSessions.Some? && !IsBlank(term) ==>
      && (forall j :: 0 <= j < |r| ==> r[j] in publicSessions.value && TopicMatches(r[j], term))
      && (forall j :: 0 <= j < |publicSessions.value| && TopicMatches(publicSessions.value[j], term) ==>
            publicSessions.value[j] in r)
    ensures publicSessions.Some? && !IsBlank(term) ==>
      forall j :: 0 <= j < |publicSessions.value| ==>
        multiset(r)[publicSessions.value[j]] ==
          if TopicMatches(publicSessions.value[j], term) then multiset(publicSessions.value)[publicSessions.value[j]] else 0
  {
    if publicSessions.None? then []
    else if IsBlank(term) then publicSessions.value
    else Filter(publicSessions.value, (deck: UserApi.PublicDeck) => TopicMatches(deck, term))
  }

  /** Whatever the term, the result lists decks of the input in their original order. */
  lemma FilteredIsSubsequence(publicSessions: seq<UserApi.PublicDeck>, term: string)
    ensures IsSubsequence(FilteredSessions(Some(publicSessions), term), publicSessions)
  {
    if IsBlank(term) {
      FilterKeepsAll(publicSessions, (deck: UserApi.PublicDeck) => true);
      FilterIsSubsequence(publicSessions, (deck: UserApi.PublicDeck) => true);
    } else {
      FilterIsSubsequence(publicSessions, (deck: UserApi.PublicDeck) => TopicMatches(deck, term));
    }
  }

  class BrowsePage {
    var copyingId: Option<SessionId>
    var navigatedToDecks: bool

    constructor ()
      ensures copyingId == None && !navigatedToDecks
    {
      copyingId := None;
      navigatedToDecks := false;
    }

    /** `handleCopyDeck` up to the awaited copy: the deck is marked as being copied. */
    method BeginCopy(sessionId: SessionId)
      modifies this
      ensures copyingId == Some(sessionId)
      ensures navigatedToDecks == old(navigatedToDecks)
    {
      copyingId := Some(sessionId);
    }

    /** `handleCopyDeck` after the copy: the mark is cleared; only success goes to the decks page. */
    method SettleCopy(ok: bool)
      modifies this
      ensures copyingId == None
      ensures navigatedToDecks == (old(navigatedToDecks) || ok)
    {
      if ok {
        navigatedToDecks := true;
      }
      copyingId := None;
    }
  }
}

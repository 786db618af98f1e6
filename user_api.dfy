/**
 * The server side of study sessions: a table of session records, each owned
 * by a user, and the queries and mutations the client calls. The caller is
 * the authenticated user id, or None when the request carries no identity.
 * Every mutation runs its checks in a fixed order and leaves the table
 * untouched when one of them fails.
 */
module UserApi {

  import opened Types

  type UserId = nat

  datatype User = User(
    name: Option<string>,
    username: Option<string>,
    email: Option<string>,
    isAnonymous: Option<bool>)

  /** A stored study session. */
  datatype Record = Record(
    userId: UserId,
    topic: string,
    totalCards: int,
    cards: seq<Flashcard>,
    completedCards: int,
    correctAnswers: int,
    isPublic: Option<bool>)

  /** The session a client asks to save. */
  datatype NewSession = NewSession(
    topic: string,
    totalCards: int,
    completedCards: int,
    correctAnswers: int,
    cards: seq<Flashcard>)

  /** The optional fields an update may carry. */
  datatype Updates = Updates(
    topic: Option<string>,
    cards: Option<seq<Flashcard>>,
    completedCards: Option<int>,
    correctAnswers: Option<int>,
    isPublic: Option<bool>)

  datatype ApiError = NotAuthenticated | GuestForbidden | NotFound | NotAuthorized | NotPublic

  /** A record together with its id, as a query returns it. */
  datatype Doc = Doc(id: SessionId, record: Record)

  /** A public record with the display name of its owner attached. */
  datatype PublicDeck = PublicDeck(id: SessionId, record: Record, creatorName: string)

  /** The caller's user record says it is a guest; a missing record does not. */
  predicate IsGuest(users: map<UserId, User>, uid: UserId)
  {
    uid in users && users[uid].isAnonymous == Some(true)
  }

  /** The checks of create: an identity first, then not a guest. */
  function CheckSaver(caller: Option<UserId>, users: map<UserId, User>): (r: Result<UserId, ApiError>)
    ensures r == Err(NotAuthenticated) <==> caller.None?
    ensures r == Err(GuestForbidden) <==> caller.Some? && IsGuest(users, caller.value)
    ensures r.Ok? <==> caller.Some? && !IsGuest(users, caller.value)
    ensures r.Ok? ==> r.value == caller.value
  {
    if caller.None? then Err(NotAuthenticated)
    else if IsGuest(users, caller.value) then Err(GuestForbidden)
    else Ok(caller.value)
  }

  /** The checks of update, toggle and delete, in order: identity, existence, ownership. */
  function CheckOwner(caller: Option<UserId>, sessions: map<SessionId, Record>, id: SessionId)
    : (r: Result<Record, ApiError>)
    ensures r == Err(NotAuthenticated) <==> caller.None?
    ensures r == Err(NotFound) <==> caller.Some? && id !in sessions
    ensures r == Err(NotAuthorized) <==> caller.Some? && id in sessions && sessions[id].userId != caller.value
    ensures r.Ok? <==> caller.Some? && id in sessions && sessions[id].userId == caller.value
    ensures r.Ok? ==> r.value == sessions[id]
  {
    if caller.None? then Err(NotAuthenticated)
    else if id !in sessions then Err(NotFound)
    else if caller.value != sessions[id].userId then Err(NotAuthorized)
    else Ok(sessions[id])
  }

  /** The checks of copy, in order: identity, not a guest, existence, publicness. */
  function CheckCopy(caller: Option<UserId>, users: map<UserId, User>, sessions: map<SessionId, Record>, id: SessionId)
    : (r: Result<Record, ApiError>)
    ensures r == Err(NotAuthenticated) <==> caller.None?
    ensures r == Err(GuestForbidden) <==> caller.Some? && IsGuest(users, caller.value)
    ensures r == Err(NotFound) <==> caller.Some? && !IsGuest(users, caller.value) && id !in sessions
    ensures r == Err(NotPublic) <==>
      caller.Some? && !IsGuest(users, caller.value) && id in sessions && sessions[id].isPublic != Some(true)
    ensures r.Ok? <==>
      caller.Some? && !IsGuest(users, caller.value) && id in sessions && sessions[id].isPublic == Some(true)
    ensures r.Ok? ==> id in sessions && r.value == sessions[id]
  {
    if caller.None? then Err(NotAuthenticated)
    else if IsGuest(users, caller.value) then Err(GuestForbidden)
    else if id !in sessions then Err(NotFound)
    else if sessions[id].isPublic != Some(true) then Err(NotPublic)
    else Ok(sessions[id])
  }

  /**
   * The record after `updates`: each supplied field replaces the old value,
   * the rest stay; the owner and the requested card count are never touched.
   */
  function Patched(rec: Record, updates: Updates): (r: Record)
    ensures r.userId == rec.userId && r.totalCards == rec.totalCards
    ensures updates.topic.Some? ==> r.topic == updates.topic.value
    ensures updates.cards.Some? ==> r.cards == updates.cards.value
    ensures updates.completedCards.Some? ==> r.completedCards == updates.completedCards.value
    ensures updates.correctAnswers.Some? ==> r.correctAnswers == updates.correctAnswers.value
    ensures updates.isPublic.Some? ==> r.isPublic == updates.isPublic
    ensures updates.topic.None? ==> r.topic == rec.topic
    ensures updates.cards.None? ==> r.cards == rec.cards
    ensures updates.completedCards.None? ==> r.completedCards == rec.completedCards
    ensures updates.correctAnswers.None? ==> r.correctAnswers == rec.correctAnswers
    ensures updates.isPublic.None? ==> r.isPublic == rec.isPublic
  {
    rec.(topic := Pick(updates.topic, rec.topic),
         cards := Pick(updates.cards, rec.cards),
         completedCards := Pick(updates.completedCards, rec.completedCards),
         correctAnswers := Pick(updates.correctAnswers, rec.correctAnswers),
         isPublic := if updates.isPublic.Some? then updates.isPublic else rec.isPublic)
  }

  /** Patching never changes the owner or the requested card count, and is idempotent. */
  lemma PatchedKeepsOwner(rec: Record, updates: Updates)
    ensures Patched(rec, updates).userId == rec.userId
    ensures Patched(rec, updates).totalCards == rec.totalCards
    ensures Patched(Patched(rec, updates), updates) == Patched(rec, updates)
    ensures updates == Updates(None, None, None, None, None) ==> Patched(rec, updates) == rec
  {
  }

  /** A card with its progress dropped. */
  function Unmarked(c: Flashcard): Flashcard
  {
    Flashcard(c.id, c.question, c.answer, None)
  }

  /** The fresh, private, zero-progress copy of `original` owned by `owner`. */
  function CopyOf(original: Record, owner: UserId): (r: Record)
    ensures r.userId == owner && r.topic == original.topic && r.totalCards == original.totalCards
    ensures |r.cards| == |original.cards|
    ensures forall j :: 0 <= j < |r.cards| ==>
      && r.cards[j].id == original.cards[j].id
      && r.cards[j].question == original.cards[j].question
      && r.cards[j].answer == original.cards[j].answer
      && r.cards[j].answeredCorrect.None?
    ensures r.completedCards == 0 && r.correctAnswers == 0 && r.isPublic == Some(false)
  {
    Record(owner, original.topic, original.totalCards,
           seq(|original.cards|, j requires 0 <= j < |original.cards| => Unmarked(original.cards[j])),
           0, 0, Some(false))
  }

  /** The copy's counters agree with its cards, whatever progress the original had. */
  lemma CopyIsConsistent(original: Record, owner: UserId)
    ensures var c := CopyOf(original, owner);
      CountAnswered(c.cards) == c.completedCards && CountCorrect(c.cards) == c.correctAnswers
  {
    CountsOfUnmarked(CopyOf(original, owner).cards);
  }

  /** The records with an id below `n` that `keep` accepts, in increasing id order. */
  function Select(sessions: map<SessionId, Record>, n: nat, keep: Record -> bool): (r: seq<Doc>)
    ensures forall j :: 0 <= j < |r| ==>
      r[j].id < n && r[j].id in sessions && sessions[r[j].id] == r[j].record && keep(r[j].record)
    ensures forall j, k :: 0 <= j < k < |r| ==> r[j].id < r[k].id
    ensures forall id: SessionId :: id < n && id in sessions && keep(sessions[id]) ==> Doc(id, sessions[id]) in r
  {
    if n == 0 then []
    else
      var earlier := Select(sessions, n - 1, keep);
      if n - 1 in sessions && keep(sessions[n - 1]) then earlier + [Doc(n - 1, sessions[n - 1])]
      else earlier
  }

  /** `user?.username || user?.name || user?.email || "Anonymous"`. */
  function CreatorName(users: map<UserId, User>, uid: UserId): (name: string)
    ensures name != ""
    ensures uid !in users ==> name == "Anonymous"
    ensures uid in users && users[uid].username.Some? && users[uid].username.value != "" ==>
      name == users[uid].username.value
  {
    if uid !in users then "Anonymous"
    else
      var u := users[uid];
      if u.username.Some? && u.username.value != "" then u.username.value
      else if u.name.Some? && u.name.value != "" then u.name.value
      else if u.email.Some? && u.email.value != "" then u.email.value
      else "Anonymous"
  }

  /** The fallback chain: the name is the first non-empty of username, name and email. */
  lemma CreatorNameFallback(users: map<UserId, User>, uid: UserId)
    requires uid in users
    ensures var u := users[uid];
      (u.username.None? || u.username.value == "") && u.name.Some? && u.name.value != "" ==>
        CreatorName(users, uid) == u.name.value
    ensures var u := users[uid];
      ((u.username.None? || u.username.value == "") && (u.name.None? || u.name.value == "")
       && u.email.Some? && u.email.value != "") ==>
        CreatorName(users, uid) == u.email.value
    ensures var u := users[uid];
      ((u.username.None? || u.username.value == "") && (u.name.None? || u.name.value == "")
       && (u.email.None? || u.email.value == "")) ==>
        CreatorName(users, uid) == "Anonymous"
  {
  }

  function WithCreator(users: map<UserId, User>, docs: seq<Doc>): (r: seq<PublicDeck>)
    ensures |r| == |docs|
    ensures forall j :: 0 <= j < |r| ==>
      r[j] == PublicDeck(docs[j].id, docs[j].record, CreatorName(users, docs[j].record.userId))
  {
    if docs == [] then []
    else [PublicDeck(docs[0].id, docs[0].record, CreatorName(users, docs[0].record.userId))]
         + WithCreator(users, docs[1..])
  }

  /** Naming the owners of an exact, id-ordered list of the public records keeps it exact and ordered. */
  lemma PublicDecksOf(users: map<UserId, User>, sessions: map<SessionId, Record>, docs: seq<Doc>)
    requires forall j :: 0 <= j < |docs| ==>
      docs[j].id in sessions && sessions[docs[j].id] == docs[j].record && docs[j].record.isPublic == Some(true)
    requires forall j, k :: 0 <= j < k < |docs| ==> docs[j].id < docs[k].id
    requires forall id :: id in sessions && sessions[id].isPublic == Some(true) ==> Doc(id, sessions[id]) in docs
    ensures var r := WithCreator(users, docs);
      && (forall j :: 0 <= j < |r| ==>
            && r[j].id in sessions && sessions[r[j].id] == r[j].record
            && r[j].record.isPublic == Some(true)
            && r[j].creatorName == CreatorName(users, r[j].record.userId))
      && (forall id :: id in sessions && sessions[id].isPublic == Some(true) ==>
            exists j :: 0 <= j < |r| && r[j].id == id)
      && (forall j, k :: 0 <= j < k < |r| ==> r[j].id < r[k].id)
  {
    var r := WithCreator(users, docs);
    forall id | id in sessions && sessions[id].isPublic == Some(true)
      ensures exists j :: 0 <= j < |r| && r[j].id == id
    {
      var j :| 0 <= j < |docs| && docs[j] == Doc(id, sessions[id]);
      assert r[j].id == id;
    }
  }

  class Database {
    var sessions: map<SessionId, Record>
    var users: map<UserId, User>
    var nextId: SessionId

    /** Every stored id was handed out before `nextId`. */
    ghost predicate Valid()
      reads this
    {
      forall id :: id in sessions ==> id < nextId
    }

    constructor (users: map<UserId, User>)
      ensures Valid() && sessions == map[] && this.users == users
    {
      sessions := map[];
      this.users := users;
      nextId := 0;
    }

    /** `ctx.db.insert`: stores the record under an id no record has. */
    method Insert(rec: Record) returns (id: SessionId)
      requires Valid()
      modifies this
      ensures Valid()
      ensures id !in old(sessions) && sessions == old(sessions)[id := rec]
      ensures users == old(users)
    {
      id := nextId;
      sessions := sessions[id := rec];
      nextId := nextId + 1;
    }

    /** `createUserStudySession`: a non-guest caller gets a new record that it owns. */
    method CreateUserStudySession(caller: Option<UserId>, studySession: NewSession)
      returns (r: Result<SessionId, ApiError>)
      requires Valid()
      modifies this
      ensures Valid() && users == old(users)
      ensures r.Err? ==> r == CheckSaver(caller, old(users)) && sessions == old(sessions)
      ensures r.Ok? <==> CheckSaver(caller, old(users)).Ok?
      ensures r.Ok? ==>
        && r.value !in old(sessions)
        && sessions == old(sessions)[r.value := Record(caller.value, studySession.topic,
             studySession.totalCards, studySession.cards, studySession.completedCards,
             studySession.correctAnswers, None)]
    {
      if caller.None? {
        return Err(NotAuthenticated);
      }
      var currentUserId := caller.value;
      if IsGuest(users, currentUserId) {
        return Err(GuestForbidden);
      }
      var id := Insert(Record(currentUserId, studySession.topic, studySession.totalCards,
                              studySession.cards, studySession.completedCards,
                              studySession.correctAnswers, None));
      r := Ok(id);
    }

    /** `getUserStudySessions`: exactly the caller's records, oldest first. */
    function GetUserStudySessions(caller: Option<UserId>): (r: Result<seq<Doc>, ApiError>)
      requires Valid()
      reads this
      ensures r.Err? <==> caller.None?
      ensures r.Err? ==> r.error == NotAuthenticated
      ensures r.Ok? ==> forall j :: 0 <= j < |r.value| ==>
        r.value[j].id in sessions && sessions[r.value[j].id] == r.value[j].record
        && r.value[j].record.userId == caller.value
      ensures r.Ok? ==> forall id :: id in sessions && sessions[id].userId == caller.value ==>
        Doc(id, sessions[id]) in r.value
      ensures r.Ok? ==> forall j, k :: 0 <= j < k < |r.value| ==> r.value[j].id < r.value[k].id
    {
      if caller.None? then Err(NotAuthenticated)
      else Ok(Select(sessions, nextId, (rec: Record) => rec.userId == caller.value))
    }

    /** `updateUserStudySession`: after the owner checks, the supplied fields are patched in. */
    method UpdateUserStudySession(caller: Option<UserId>, sessionId: SessionId, updates: Updates)
      returns (r: Result<(), ApiError>)
      requires Valid()
      modifies this
      ensures Valid() && users == old(users)
      ensures r.Err? ==> CheckOwner(caller, old(sessions), sessionId) == Err(r.error) && sessions == old(sessions)
      ensures r.Ok? <==> CheckOwner(caller, old(sessions), sessionId).Ok?
      ensures r.Ok? ==> sessions == old(sessions)[sessionId := Patched(old(sessions)[sessionId], updates)]
    {
      var check := CheckOwner(caller, sessions, sessionId);
      if check.Err? {
        return Err(check.error);
      }
      var patched := check.value;
      if updates.topic.Some? {
        patched := patched.(topic := updates.topic.value);
      }
      if updates.cards.Some? {
        patched := patched.(cards := updates.cards.value);
      }
      if updates.completedCards.Some? {
        patched := patched.(completedCards := updates.completedCards.value);
      }
      if updates.correctAnswers.Some? {
        patched := patched.(correctAnswers := updates.correctAnswers.value);
      }
      if updates.isPublic.Some? {
        patched := patched.(isPublic := updates.isPublic);
      }
      sessions := sessions[sessionId := patched];
      r := Ok(());
    }

    /** `toggleSessionPublic`: after the owner checks, only the public flag changes. */
    method ToggleSessionPublic(caller: Option<UserId>, sessionId: SessionId, isPublic: bool)
      returns (r: Result<(), ApiError>)
      requires Valid()
      modifies this
      ensures Valid() && users == old(users)
      ensures r.Err? ==> CheckOwner(caller, old(sessions), sessionId) == Err(r.error) && sessions == old(sessions)
      ensures r.Ok? <==> CheckOwner(caller, old(sessions), sessionId).Ok?
      ensures r.Ok? ==> sessions == old(sessions)[sessionId := old(sessions)[sessionId].(isPublic := Some(isPublic))]
    {
      var check := CheckOwner(caller, sessions, sessionId);
      if check.Err? {
        return Err(check.error);
      }
      sessions := sessions[sessionId := check.value.(isPublic := Some(isPublic))];
      r := Ok(());
    }

    /** `deleteUserStudySession`: after the owner checks, exactly that record goes. */
    method DeleteUserStudySession(caller: Option<UserId>, sessionId: SessionId)
      returns (r: Result<(), ApiError>)
      requires Valid()
      modifies this
      ensures Valid() && users == old(users)
      ensures r.Err? ==> CheckOwner(caller, old(sessions), sessionId) == Err(r.error) && sessions == old(sessions)
      ensures r.Ok? <==> CheckOwner(caller, old(sessions), sessionId).Ok?
      ensures r.Ok? ==> sessions == old(sessions) - {sessionId}
      ensures r.Ok? ==> sessionId !in sessions && forall id :: id in old(sessions) && id != sessionId ==>
        id in sessions && sessions[id] == old(sessions)[id]
    {
      var check := CheckOwner(caller, sessions, sessionId);
      if check.Err? {
        return Err(check.error);
      }
      sessions := sessions - {sessionId};
      r := Ok(());
    }

    /** `getPublicStudySessions`: exactly the public records, each with its owner's display name. */
    function GetPublicStudySessions(): (r: seq<PublicDeck>)
      requires Valid()
      reads this
      ensures forall j :: 0 <= j < |r| ==>
        && r[j].id in sessions && sessions[r[j].id] == r[j].record
        && r[j].record.isPublic == Some(true)
        && r[j].creatorName == CreatorName(users, r[j].record.userId)
      ensures forall id :: id in sessions && sessions[id].isPublic == Some(true) ==>
        exists j :: 0 <= j < |r| && r[j].id == id
      ensures forall j, k :: 0 <= j < k < |r| ==> r[j].id < r[k].id
    {
      var docs := Select(sessions, nextId, (rec: Record) => rec.isPublic == Some(true));
      assert forall id :: id in sessions && sessions[id].isPublic == Some(true) ==> Doc(id, sessions[id]) in docs;
      PublicDecksOf(users, sessions, docs);
      WithCreator(users, docs)
    }

    /**
     * `copyPublicDeck`: after its four checks, a private zero-progress copy
     * owned by the caller is inserted and the original is left as it was.
     */
    method CopyPublicDeck(caller: Option<UserId>, sessionId: SessionId)
      returns (r: Result<SessionId, ApiError>)
      requires Valid()
      modifies this
      ensures Valid() && users == old(users)
      ensures r.Err? ==> CheckCopy(caller, old(users), old(sessions), sessionId) == Err(r.error)
      ensures r.Err? ==> sessions == old(sessions)
      ensures r.Ok? <==> CheckCopy(caller, old(users), old(sessions), sessionId).Ok?
      ensures r.Ok? ==>
        && r.value !in old(sessions) && r.value != sessionId
        && sessions == old(sessions)[r.value := CopyOf(old(sessions)[sessionId], caller.value)]
        && sessions[sessionId] == old(sessions)[sessionId]
    {
      var check := CheckCopy(caller, users, sessions, sessionId);
      if check.Err? {
        return Err(check.error);
      }
      var originalSession := check.value;
      var id := Insert(CopyOf(originalSession, caller.value));
      r := Ok(id);
    }
  }
}

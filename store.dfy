/**
 * The client-side study store: the session list, the session being studied,
 * the index of the card on screen and the engine-initialised flag. Every
 * action overwrites some of these four fields.
 */
module Store {

  import opened Types

  /** The list entries whose id is `id` get `p` merged in; the others stay. */
  function UpdateWhere(sessions: seq<StudySession>, id: SessionId, p: Patch): (r: seq<StudySession>)
    ensures |r| == |sessions|
    ensures forall j :: 0 <= j < |r| ==>
      r[j] == if sessions[j].id == Some(id) then Merge(sessions[j], p) else sessions[j]
  {
    if sessions == [] then []
    else [if sessions[0].id == Some(id) then Merge(sessions[0], p) else sessions[0]]
         + UpdateWhere(sessions[1..], id, p)
  }

  /** The current session after an update by id: merged exactly when its id matches. */
  function UpdateCurrent(current: Option<StudySession>, id: SessionId, p: Patch): (r: Option<StudySession>)
    ensures r.None? <==> current.None?
    ensures current.Some? && current.value.id == Some(id) ==> r == Some(Merge(current.value, p))
    ensures current.Some? && current.value.id != Some(id) ==> r == current
  {
    match current
    case None => None
    case Some(s) => if s.id == Some(id) then Some(Merge(s, p)) else current
  }

  /**
   * The current session agrees with every list entry that carries its id:
   * the two copies of one session that the store keeps are the same.
   */
  predicate InSync(sessions: seq<StudySession>, current: Option<StudySession>)
  {
    current.Some? && current.value.id.Some? ==>
      forall j :: 0 <= j < |sessions| && sessions[j].id == current.value.id ==> sessions[j] == current.value
  }

  /** A partial update by id keeps the list copy and the current copy in agreement. */
  lemma UpdateKeepsInSync(sessions: seq<StudySession>, current: Option<StudySession>, id: SessionId, p: Patch)
    requires InSync(sessions, current)
    ensures InSync(UpdateWhere(sessions, id, p), UpdateCurrent(current, id, p))
  {
    var r := UpdateWhere(sessions, id, p);
    var c := UpdateCurrent(current, id, p);
    if c.Some? && c.value.id.Some? {
      forall j | 0 <= j < |r| && r[j].id == c.value.id
        ensures r[j] == c.value
      {
        MergeIdempotent(sessions[j], p);
        MergeIdempotent(current.value, p);
      }
    }
  }

  /** A session that has no id is never touched by an update by id. */
  lemma UpdateSkipsUnsaved(sessions: seq<StudySession>, id: SessionId, p: Patch, j: int)
    requires 0 <= j < |sessions| && sessions[j].id.None?
    ensures UpdateWhere(sessions, id, p)[j] == sessions[j]
  {
  }

  /** The part of the store that a delete saves and may restore. */
  datatype Snapshot = Snapshot(
    sessions: seq<StudySession>,
    current: Option<StudySession>,
    cardIndex: int)

  class StudyStore {
    var studySessions: seq<StudySession>
    var currentSession: Option<StudySession>
    var currentCardIndex: int
    var initComplete: bool

    /** `initialState`: nothing loaded, nothing selected, first card, engine not ready. */
    predicate IsInitial()
      reads this
    {
      studySessions == [] && currentSession == None && currentCardIndex == 0 && !initComplete
    }

    function Snap(): Snapshot
      reads this
    {
      Snapshot(studySessions, currentSession, currentCardIndex)
    }

    constructor ()
      ensures IsInitial()
    {
      studySessions := [];
      currentSession := None;
      currentCardIndex := 0;
      initComplete := false;
    }

    /** Replaces the whole list; nothing else changes. */
    method SetStudySessions(sessions: seq<StudySession>)
      modifies this
      ensures studySessions == sessions
      ensures currentSession == old(currentSession)
      ensures currentCardIndex == old(currentCardIndex)
      ensures initComplete == old(initComplete)
    {
      studySessions := sessions;
    }

    /** Selects a session (or none) and always goes back to the first card. */
    method SetCurrentSession(session: Option<StudySession>)
      modifies this
      ensures currentSession == session
      ensures currentCardIndex == 0
      ensures studySessions == old(studySessions)
      ensures initComplete == old(initComplete)
    {
      currentSession := session;
      currentCardIndex := 0;
    }

    /** Stores the index as given, without clamping it to the card list. */
    method SetCurrentCardIndex(index: int)
      modifies this
      ensures currentCardIndex == index
      ensures studySessions == old(studySessions)
      ensures currentSession == old(currentSession)
      ensures initComplete == old(initComplete)
    {
      currentCardIndex := index;
    }

    method SetInitComplete(complete: bool)
      modifies this
      ensures initComplete == complete
      ensures studySessions == old(studySessions)
      ensures currentSession == old(currentSession)
      ensures currentCardIndex == old(currentCardIndex)
    {
      initComplete := complete;
    }

    /**
     * Merges `updates` into every list entry whose id is `sessionId` and
     * into the current session when its id matches; the list keeps its
     * length and order, and the card index and the flag are untouched.
     */
    method UpdateSession(sessionId: SessionId, updates: Patch)
      modifies this
      ensures studySessions == UpdateWhere(old(studySessions), sessionId, updates)
      ensures currentSession == UpdateCurrent(old(currentSession), sessionId, updates)
      ensures currentCardIndex == old(currentCardIndex)
      ensures initComplete == old(initComplete)
      ensures InSync(old(studySessions), old(currentSession)) ==> InSync(studySessions, currentSession)
    {
      if InSync(studySessions, currentSession) {
        UpdateKeepsInSync(studySessions, currentSession, sessionId, updates);
      }
      studySessions := UpdateWhere(studySessions, sessionId, updates);
      currentSession := UpdateCurrent(currentSession, sessionId, updates);
    }

    /** Goes back to the initial state. */
    method Reset()
      modifies this
      ensures IsInitial()
    {
      studySessions := [];
      currentSession := None;
      currentCardIndex := 0;
      initComplete := false;
    }
  }
}

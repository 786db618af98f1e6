/**
 * The mutation gateway between the study store and the remote database:
 * create writes the store only after the remote call succeeded, update
 * writes it at once and queues a delayed save that is never rolled back,
 * delete writes it at once and restores the saved snapshot when the remote
 * call fails. The remote outcome of each call is a parameter.
 */
module Mutations {

  import opened Types
  import opened Seqs
  import opened Store

  /** A save waiting in the debounced auto-save slot. */
  datatype PendingWrite = PendingWrite(sessionId: SessionId, updates: Patch)

  /**
   * The debounced auto-save, reduced to its one pending slot: a new call
   * replaces whatever was waiting (the last call wins), cancelling drops it,
   * and firing hands the waiting save to the database. Timing is not modelled.
   */
  class AutoSave {
    var pending: Option<PendingWrite>

    constructor ()
      ensures pending == None
    {
      pending := None;
    }

    method Schedule(sessionId: SessionId, updates: Patch)
      modifies this
      ensures pending == Some(PendingWrite(sessionId, updates))
    {
      pending := Some(PendingWrite(sessionId, updates));
    }

    /** Unmount: the waiting save is dropped without being sent. */
    method Cancel()
      modifies this
      ensures pending == None
    {
      pending := None;
    }

    /**
     * The quiet period has elapsed: the waiting save is sent. A failure of
     * the remote write is only logged, so firing touches no store state.
     */
    method Fire() returns (sent: Option<PendingWrite>)
      modifies this
      ensures sent == old(pending)
      ensures pending == None
    {
      sent := pending;
      pending := None;
    }
  }

  /** The list with every session whose id is `id` taken out, the rest in order. */
  function WithoutId(sessions: seq<StudySession>, id: SessionId): (r: seq<StudySession>)
    ensures forall j :: 0 <= j < |r| ==> r[j] in sessions && r[j].id != Some(id)
    ensures forall j :: 0 <= j < |sessions| && sessions[j].id != Some(id) ==> sessions[j] in r
    ensures IsSubsequence(r, sessions)
    ensures forall j :: 0 <= j < |sessions| ==>
      multiset(r)[sessions[j]] == if sessions[j].id != Some(id) then multiset(sessions)[sessions[j]] else 0
  {
    FilterIsSubsequence(sessions, (s: StudySession) => s.id != Some(id));
    Filter(sessions, (s: StudySession) => s.id != Some(id))
  }

  /** Deleting an id that no session carries leaves the list as it was. */
  lemma WithoutAbsentId(sessions: seq<StudySession>, id: SessionId)
    requires forall j :: 0 <= j < |sessions| ==> sessions[j].id != Some(id)
    ensures WithoutId(sessions, id) == sessions
  {
    FilterKeepsAll(sessions, (s: StudySession) => s.id != Some(id));
  }

  /**
   * Create: the database call comes first; only when it returns an id is the
   * new session, carrying that id, put in front of the store's list. When the
   * call fails the error propagates and the store is untouched.
   */
  method CreateSession(store: StudyStore, draft: StudySession, remote: Option<SessionId>)
    returns (created: Option<StudySession>)
    modifies store
    ensures remote.None? ==> created.None? && unchanged(store)
    ensures remote.Some? ==> created == Some(draft.(id := remote))
    ensures remote.Some? ==> store.studySessions == [created.value] + old(store.studySessions)
    ensures store.currentSession == old(store.currentSession)
    ensures store.currentCardIndex == old(store.currentCardIndex)
    ensures store.initComplete == old(store.initComplete)
  {
    if remote.None? {
      return None;
    }
    var newSession := draft.(id := remote);
    var sessions := store.studySessions;
    store.studySessions := [newSession] + sessions;
    created := Some(newSession);
  }

  /**
   * Update: the store takes the partial update at once and the save is
   * queued; whatever the database later answers, the store is not rolled back.
   */
  method UpdateSession(store: StudyStore, saver: AutoSave, sessionId: SessionId, updates: Patch)
    modifies store, saver
    ensures store.studySessions == UpdateWhere(old(store.studySessions), sessionId, updates)
    ensures store.currentSession == UpdateCurrent(old(store.currentSession), sessionId, updates)
    ensures store.currentCardIndex == old(store.currentCardIndex)
    ensures store.initComplete == old(store.initComplete)
    ensures saver.pending == Some(PendingWrite(sessionId, updates))
  {
    store.UpdateSession(sessionId, updates);
    saver.Schedule(sessionId, updates);
  }

  /**
   * Delete, up to the remote call: snapshot the store, drop the sessions
   * with this id, and clear the current session (back to the first card)
   * exactly when it is the one being deleted.
   */
  method BeginDelete(store: StudyStore, sessionId: SessionId) returns (snapshot: Snapshot)
    modifies store
    ensures snapshot == old(store.Snap())
    ensures store.studySessions == WithoutId(old(store.studySessions), sessionId)
    ensures var clear := old(store.currentSession).Some? && old(store.currentSession).value.id == Some(sessionId);
      && store.currentSession == (if clear then None else old(store.currentSession))
      && store.currentCardIndex == (if clear then 0 else old(store.currentCardIndex))
    ensures store.initComplete == old(store.initComplete)
  {
    snapshot := store.Snap();
    var newSessions := WithoutId(snapshot.sessions, sessionId);
    var shouldClearCurrent := snapshot.current.Some? && snapshot.current.value.id == Some(sessionId);
    store.studySessions := newSessions;
    store.currentSession := if shouldClearCurrent then None else snapshot.current;
    store.currentCardIndex := if shouldClearCurrent then 0 else snapshot.cardIndex;
  }

  /** Delete, after the remote call: on failure the snapshot is written back exactly. */
  method SettleDelete(store: StudyStore, snapshot: Snapshot, remoteOk: bool) returns (ok: bool)
    modifies store
    ensures ok == remoteOk
    ensures remoteOk ==> unchanged(store)
    ensures !remoteOk ==> store.Snap() == snapshot && store.initComplete == old(store.initComplete)
  {
    if !remoteOk {
      store.studySessions := snapshot.sessions;
      store.currentSession := snapshot.current;
      store.currentCardIndex := snapshot.cardIndex;
    }
    ok := remoteOk;
  }

  /** The whole delete: the optimistic removal, kept on success, undone on failure. */
  method DeleteSession(store: StudyStore, sessionId: SessionId, remoteOk: bool) returns (ok: bool)
    modifies store
    ensures ok == remoteOk
    ensures !remoteOk ==> store.Snap() == old(store.Snap())
    ensures remoteOk ==> store.studySessions == WithoutId(old(store.studySessions), sessionId)
    ensures remoteOk ==>
      var clear := old(store.currentSession).Some? && old(store.currentSession).value.id == Some(sessionId);
      && store.currentSession == (if clear then None else old(store.currentSession))
      && store.currentCardIndex == (if clear then 0 else old(store.currentCardIndex))
    ensures store.initComplete == old(store.initComplete)
  {
    var snapshot := BeginDelete(store, sessionId);
    ok := SettleDelete(store, snapshot, remoteOk);
  }
}

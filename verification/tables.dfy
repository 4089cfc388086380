/** The `scenarios` and `user_sessions` tables as in-memory sequences of rows
    (in row-id order), the lookups the application runs against them, and the
    invariants the lifecycle keeps. */
module Tables {
  import opened Base
  import opened Gns3Client

  /** A timestamp as the database renders it; never inspected. */
  type Timestamp = string

  const INSTRUCTOR: string := "instructor"

  datatype User = User(id: nat, username: string, role: string)

  datatype Scenario = Scenario(
    id: nat,
    name: string,
    description: string,
    difficulty: string,
    projectId: ProjectId,  // the template project every launch duplicates
    createdBy: nat)

  datatype Status = Active | Ended

  datatype Session = Session(
    id: nat,
    userId: nat,
    scenarioId: nat,
    projectId: ProjectId,  // the duplicated project, set once at insertion
    status: Status,
    startedAt: Timestamp,
    endedAt: Option<Timestamp>)

  predicate IsActiveFor(s: Session, userId: nat, scenarioId: nat) {
    s.userId == userId && s.scenarioId == scenarioId && s.status == Active
  }

  /** `SELECT * FROM scenarios WHERE id = ?` */
  function ScenarioById(catalogue: seq<Scenario>, id: nat): (r: Option<nat>)
    ensures r.Some? ==> r.value < |catalogue| && catalogue[r.value].id == id
    ensures r.None? <==> forall i :: 0 <= i < |catalogue| ==> catalogue[i].id != id
  {
    Find(catalogue, (s: Scenario) => s.id == id)
  }

  /** `SELECT * FROM user_sessions WHERE user_id = ? AND scenario_id = ? AND status = 'active'` */
  function ActiveSessionFor(sessions: seq<Session>, userId: nat, scenarioId: nat): (r: Option<nat>)
    ensures r.Some? ==> r.value < |sessions| && IsActiveFor(sessions[r.value], userId, scenarioId)
    ensures r.None? <==> forall i :: 0 <= i < |sessions| ==> !IsActiveFor(sessions[i], userId, scenarioId)
  {
    Find(sessions, (s: Session) => IsActiveFor(s, userId, scenarioId))
  }

  /** `SELECT * FROM user_sessions WHERE id = ? AND user_id = ? AND status = 'active'` */
  function OwnedActiveSession(sessions: seq<Session>, sessionId: nat, userId: nat): (r: Option<nat>)
    ensures r.Some? ==> r.value < |sessions|
    ensures r.Some? ==> sessions[r.value].id == sessionId && sessions[r.value].userId == userId
    ensures r.Some? ==> sessions[r.value].status == Active
    ensures r.None? <==> forall i :: 0 <= i < |sessions| ==>
      !(sessions[i].id == sessionId && sessions[i].userId == userId && sessions[i].status == Active)
  {
    Find(sessions, (s: Session) => s.id == sessionId && s.userId == userId && s.status == Active)
  }

  /** The session half of `... FROM user_sessions us JOIN scenarios s ... WHERE us.id = ? AND us.user_id = ?` */
  function OwnedSession(sessions: seq<Session>, sessionId: nat, userId: nat): (r: Option<nat>)
    ensures r.Some? ==> r.value < |sessions| && sessions[r.value].id == sessionId && sessions[r.value].userId == userId
    ensures r.None? <==> forall i :: 0 <= i < |sessions| ==> !(sessions[i].id == sessionId && sessions[i].userId == userId)
  {
    Find(sessions, (s: Session) => s.id == sessionId && s.userId == userId)
  }

  /** A session row after `SET status = 'ended', ended_at = CURRENT_TIMESTAMP`. */
  function Close(s: Session, now: Timestamp): (r: Session)
    ensures r.status == Ended && r.endedAt == Some(now)
    ensures r.id == s.id && r.userId == s.userId && r.scenarioId == s.scenarioId
    ensures r.projectId == s.projectId && r.startedAt == s.startedAt
  {
    s.(status := Ended, endedAt := Some(now))
  }

  /** `UPDATE user_sessions SET status = 'ended', ended_at = ? WHERE id = ?` */
  function MarkEnded(sessions: seq<Session>, sessionId: nat, now: Timestamp): (r: seq<Session>)
    ensures |r| == |sessions|
    ensures forall k :: 0 <= k < |r| && sessions[k].id != sessionId ==> r[k] == sessions[k]
    ensures forall k :: 0 <= k < |r| && sessions[k].id == sessionId ==>
      r[k].status == Ended && r[k].endedAt == Some(now) && r[k].(status := Active, endedAt := None) == sessions[k].(status := Active, endedAt := None)
  {
    seq(|sessions|, k requires 0 <= k < |sessions| =>
      if sessions[k].id == sessionId then Close(sessions[k], now) else sessions[k])
  }

  /** The central invariant: no (user, scenario) pair has two active sessions. */
  ghost predicate AtMostOneActive(sessions: seq<Session>) {
    forall i, j :: 0 <= i < j < |sessions| && sessions[i].status == Active && sessions[j].status == Active ==>
      sessions[i].userId != sessions[j].userId || sessions[i].scenarioId != sessions[j].scenarioId
  }

  /** AUTOINCREMENT row ids: strictly increasing and below the next id to hand out. */
  ghost predicate SessionIdsBelow(sessions: seq<Session>, next: nat) {
    && (forall i, j :: 0 <= i < j < |sessions| ==> sessions[i].id < sessions[j].id)
    && (forall i :: 0 <= i < |sessions| ==> sessions[i].id < next)
  }

  ghost predicate ScenarioIdsBelow(catalogue: seq<Scenario>, next: nat) {
    && (forall i, j :: 0 <= i < j < |catalogue| ==> catalogue[i].id < catalogue[j].id)
    && (forall i :: 0 <= i < |catalogue| ==> catalogue[i].id < next)
  }

  /** Every session refers to a scenario of the catalogue (the foreign key). */
  ghost predicate ScenariosKnown(sessions: seq<Session>, catalogue: seq<Scenario>) {
    forall i :: 0 <= i < |sessions| ==> ScenarioById(catalogue, sessions[i].scenarioId).Some?
  }

  /** Inserting an active session for a pair that has none keeps the invariant. */
  lemma InsertKeepsAtMostOne(sessions: seq<Session>, s: Session)
    requires AtMostOneActive(sessions)
    requires ActiveSessionFor(sessions, s.userId, s.scenarioId).None?
    ensures AtMostOneActive(sessions + [s])
  {
    var t := sessions + [s];
    forall i, j | 0 <= i < j < |t| && t[i].status == Active && t[j].status == Active
      ensures t[i].userId != t[j].userId || t[i].scenarioId != t[j].scenarioId
    {
      if j == |sessions| {
        assert !IsActiveFor(sessions[i], s.userId, s.scenarioId);
      }
    }
  }

  /** With unique ids, the UPDATE ... WHERE id = ? touches exactly the one row. */
  lemma MarkEndedOnlyThatRow(sessions: seq<Session>, next: nat, i: nat, now: Timestamp)
    requires SessionIdsBelow(sessions, next)
    requires i < |sessions|
    ensures MarkEnded(sessions, sessions[i].id, now) == sessions[i := Close(sessions[i], now)]
  {
    var m := MarkEnded(sessions, sessions[i].id, now);
    forall k | 0 <= k < |sessions| && k != i
      ensures m[k] == sessions[k]
    {
      assert sessions[k].id != sessions[i].id by {
        if k < i {
          assert sessions[k].id < sessions[i].id;
        } else {
          assert sessions[i].id < sessions[k].id;
        }
      }
    }
  }

  /** Ending a session keeps the invariant and frees its (user, scenario)
      pair, so the user may launch that scenario again. */
  lemma CloseFreesPair(sessions: seq<Session>, i: nat, now: Timestamp)
    requires AtMostOneActive(sessions)
    requires i < |sessions| && sessions[i].status == Active
    ensures AtMostOneActive(sessions[i := Close(sessions[i], now)])
    ensures ActiveSessionFor(sessions[i := Close(sessions[i], now)], sessions[i].userId, sessions[i].scenarioId).None?
  {
    var t := sessions[i := Close(sessions[i], now)];
    forall k | 0 <= k < |t|
      ensures !IsActiveFor(t[k], sessions[i].userId, sessions[i].scenarioId)
    {
      if k < i {
        assert !(sessions[k].status == Active && sessions[i].status == Active
          && sessions[k].userId == sessions[i].userId && sessions[k].scenarioId == sessions[i].scenarioId);
      } else if k > i {
        assert !(sessions[i].status == Active && sessions[k].status == Active
          && sessions[i].userId == sessions[k].userId && sessions[i].scenarioId == sessions[k].scenarioId);
      }
    }
  }

  /** Once a session is ended, the owner-scoped lookup of active sessions no
      longer finds it: a repeated end finds nothing to do. */
  lemma ClosedIsNotFoundAgain(sessions: seq<Session>, next: nat, i: nat, userId: nat, now: Timestamp)
    requires SessionIdsBelow(sessions, next)
    requires i < |sessions|
    ensures OwnedActiveSession(sessions[i := Close(sessions[i], now)], sessions[i].id, userId).None?
  {
    var t := sessions[i := Close(sessions[i], now)];
    forall k | 0 <= k < |t|
      ensures !(t[k].id == sessions[i].id && t[k].userId == userId && t[k].status == Active)
    {
      if k < i {
        assert sessions[k].id < sessions[i].id;
      } else if k > i {
        assert sessions[i].id < sessions[k].id;
      }
    }
  }

  /** A freshly inserted active session blocks a second launch for its pair. */
  lemma InsertedBlocksRelaunch(sessions: seq<Session>, s: Session)
    requires s.status == Active
    ensures ActiveSessionFor(sessions + [s], s.userId, s.scenarioId).Some?
  {
    assert IsActiveFor((sessions + [s])[|sessions|], s.userId, s.scenarioId);
  }

  /** Appending a row with the next id keeps the ids increasing and below the new next id. */
  lemma InsertKeepsIds(sessions: seq<Session>, next: nat, s: Session)
    requires SessionIdsBelow(sessions, next) && s.id == next
    ensures SessionIdsBelow(sessions + [s], next + 1)
  {
  }

  /** Appending a session whose scenario is in the catalogue keeps the foreign key. */
  lemma InsertKeepsKnown(sessions: seq<Session>, catalogue: seq<Scenario>, s: Session)
    requires ScenariosKnown(sessions, catalogue)
    requires ScenarioById(catalogue, s.scenarioId).Some?
    ensures ScenariosKnown(sessions + [s], catalogue)
  {
    var t := sessions + [s];
    forall i | 0 <= i < |t|
      ensures ScenarioById(catalogue, t[i].scenarioId).Some?
    {
      if i < |sessions| {
        assert t[i] == sessions[i];
      }
    }
  }

  /** Ending a session changes neither its id nor its scenario, so the id
      order and the foreign key survive. */
  lemma CloseKeepsIdsAndKnown(sessions: seq<Session>, catalogue: seq<Scenario>, next: nat, i: nat, now: Timestamp)
    requires SessionIdsBelow(sessions, next) && ScenariosKnown(sessions, catalogue)
    requires i < |sessions|
    ensures SessionIdsBelow(sessions[i := Close(sessions[i], now)], next)
    ensures ScenariosKnown(sessions[i := Close(sessions[i], now)], catalogue)
  {
  }

  /** The UPDATE of end_session on tables that satisfy the invariants: it
      closes exactly row i and every invariant still holds afterwards. */
  lemma EndKeepsInvariants(sessions: seq<Session>, catalogue: seq<Scenario>, next: nat, i: nat, now: Timestamp)
    requires SessionIdsBelow(sessions, next) && ScenariosKnown(sessions, catalogue) && AtMostOneActive(sessions)
    requires i < |sessions| && sessions[i].status == Active
    ensures MarkEnded(sessions, sessions[i].id, now) == sessions[i := Close(sessions[i], now)]
    ensures SessionIdsBelow(sessions[i := Close(sessions[i], now)], next)
    ensures ScenariosKnown(sessions[i := Close(sessions[i], now)], catalogue)
    ensures AtMostOneActive(sessions[i := Close(sessions[i], now)])
  {
    MarkEndedOnlyThatRow(sessions, next, i, now);
    CloseFreesPair(sessions, i, now);
    CloseKeepsIdsAndKnown(sessions, catalogue, next, i, now);
  }
}

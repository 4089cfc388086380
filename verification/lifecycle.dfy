/** The session lifecycle: the four request handlers that read and write the
    catalogue and the session registry and drive the emulation backend, as
    methods of one object holding the tables. Every backend request issued is
    appended to `calls`; the reply it got back is a parameter. */
module Lifecycle {
  import opened Base
  import opened Gns3Client
  import opened Tables

  /** A request sent to the emulation backend. */
  datatype Call =
    | CreateProject(name: string)
    | DuplicateProject(source: ProjectId, name: string)
    | StartProject(project: ProjectId)
    | StopProject(project: ProjectId)
    | DeleteProject(project: ProjectId)
    | GetProjectNodes(project: ProjectId)

  /** How a handler reads a create or duplicate reply: `if not project`
      rejects both None and the empty object; `project['project_id']` raises
      KeyError (an uncaught error, the request ends with no database write)
      when the member is missing. */
  datatype Created = NotCreated | MissingProjectId | CreatedProject(id: ProjectId)

  const PROJECT_ID_KEY: string := "project_id"

  function ReadCreated(reply: Reply<JsonObject>): (c: Created)
    ensures c.NotCreated? <==> CreatedBody(reply).None? || CreatedBody(reply) == Some(map[])
    ensures c.CreatedProject? <==> Classify(reply, HTTP_CREATED).Success? && PROJECT_ID_KEY in reply.body
    ensures c.CreatedProject? ==> c.id == reply.body[PROJECT_ID_KEY]
  {
    match CreatedBody(reply)
    case None => NotCreated
    case Some(project) =>
      if project == map[] then NotCreated
      else if PROJECT_ID_KEY in project then CreatedProject(project[PROJECT_ID_KEY])
      else MissingProjectId
  }

  /** The name a launch gives the duplicated project: scenario name, user name
      and the formatted launch time, joined by underscores. */
  function DuplicateName(scenarioName: string, username: string, stamp: string): (r: string)
    ensures |r| == |scenarioName| + |username| + |stamp| + 2
    ensures r[..|scenarioName|] == scenarioName && r[|scenarioName|] == '_'
    ensures r[|r| - |stamp|..] == stamp && r[|r| - |stamp| - 1] == '_'
    ensures r[|scenarioName| + 1..|r| - |stamp| - 1] == username
  {
    scenarioName + "_" + username + "_" + stamp
  }

  /** For one scenario and one user, different stamp strings give different
      project names. The stamp has one-second resolution, so two launches
      within the same second still ask for the same name. */
  lemma DuplicateNamesDiffer(scenarioName: string, username: string, stamp1: string, stamp2: string)
    requires stamp1 != stamp2
    ensures DuplicateName(scenarioName, username, stamp1) != DuplicateName(scenarioName, username, stamp2)
  {
    var prefix := scenarioName + "_" + username + "_";
    assert DuplicateName(scenarioName, username, stamp1)[|prefix|..] == stamp1;
    assert DuplicateName(scenarioName, username, stamp2)[|prefix|..] == stamp2;
  }

  /** For one scenario and one stamp, different users ask for different
      project names: each copy's name is per user. */
  lemma DuplicateNamesDifferByUser(scenarioName: string, username1: string, username2: string, stamp: string)
    requires username1 != username2
    ensures DuplicateName(scenarioName, username1, stamp) != DuplicateName(scenarioName, username2, stamp)
  {
    var r1 := DuplicateName(scenarioName, username1, stamp);
    var r2 := DuplicateName(scenarioName, username2, stamp);
    if |username1| == |username2| {
      assert r1[|scenarioName| + 1..|r1| - |stamp| - 1] == username1;
      assert r2[|scenarioName| + 1..|r2| - |stamp| - 1] == username2;
    }
  }

  /** The joined parts are not recoverable: an underscore inside a scenario
      name or a user name shifts the boundary, so different (scenario name,
      user name) pairs can ask for the same project name. */
  lemma DuplicateNamesCanCollide(stamp: string)
    ensures DuplicateName("a_b", "c", stamp) == DuplicateName("a", "b_c", stamp)
    ensures ("a_b", "c") != ("a", "b_c")
  {
    assert "a_b" + "_" + "c" == "a" + "_" + "b_c";
  }

  datatype LaunchOutcome =
    | ScenarioNotFound
    | AlreadyActive
    | LaunchFailed
    | LaunchCrashed        // 201 reply without a project id: KeyError before the INSERT
    | Launched(sessionId: nat)

  datatype EndOutcome = SessionEnded | NotFoundOrEnded

  datatype CreateOutcome =
    | AccessDenied
    | CreateFailed
    | CreateCrashed        // 201 reply without a project id: KeyError before the INSERT
    | ScenarioCreated(scenarioId: nat)

  /** What the session page shows: the session row joined with its scenario's
      name and description, the backend's node list and the web-UI link. */
  datatype SessionPage = SessionPage(
    session: Session,
    scenarioName: string,
    scenarioDescription: string,
    nodes: seq<JsonObject>,
    webUiUrl: string)

  const WEB_UI_PATH: string := "/static/web-ui/server/1/project/"

  class CyberRange {
    const serverUrl: string
    var scenarios: seq<Scenario>
    var sessions: seq<Session>
    var nextScenarioId: nat
    var nextSessionId: nat
    var calls: seq<Call>

    ghost predicate Valid()
      reads this
    {
      && ScenarioIdsBelow(scenarios, nextScenarioId)
      && SessionIdsBelow(sessions, nextSessionId)
      && AtMostOneActive(sessions)
      && ScenariosKnown(sessions, scenarios)
    }

    /** Empty tables; SQLite's AUTOINCREMENT hands out 1 first. */
    constructor (serverUrl: string)
      ensures Valid()
      ensures this.serverUrl == serverUrl
      ensures scenarios == [] && sessions == [] && calls == []
      ensures nextScenarioId == 1 && nextSessionId == 1
    {
      this.serverUrl := serverUrl;
      scenarios, sessions, calls := [], [], [];
      nextScenarioId, nextSessionId := 1, 1;
    }

    /** create_scenario (POST): instructors only; the catalogue gains a row
        only when the backend created the template project. */
    method CreateScenario(user: User, name: string, description: string, difficulty: string,
                          createReply: Reply<JsonObject>) returns (outcome: CreateOutcome)
      requires Valid()
      modifies this
      ensures Valid()
      ensures sessions == old(sessions) && nextSessionId == old(nextSessionId)
      ensures user.role != INSTRUCTOR ==>
        outcome == AccessDenied && calls == old(calls)
        && scenarios == old(scenarios) && nextScenarioId == old(nextScenarioId)
      ensures user.role == INSTRUCTOR ==> calls == old(calls) + [CreateProject(ProjectName(name, None))]
      ensures user.role == INSTRUCTOR && !ReadCreated(createReply).CreatedProject? ==>
        outcome == (if ReadCreated(createReply).NotCreated? then CreateFailed else CreateCrashed)
        && scenarios == old(scenarios) && nextScenarioId == old(nextScenarioId)
      ensures user.role == INSTRUCTOR && ReadCreated(createReply).CreatedProject? ==>
        outcome == ScenarioCreated(old(nextScenarioId))
        && scenarios == old(scenarios) + [Scenario(old(nextScenarioId), name, description, difficulty,
                                                   ReadCreated(createReply).id, user.id)]
        && nextScenarioId == old(nextScenarioId) + 1
    {
      if user.role != INSTRUCTOR {
        return AccessDenied;
      }
      var request := CreateProject(ProjectName(name, None));
      var project := ReadCreated(createReply);
      if !project.CreatedProject? {
        calls := calls + [request];
        return if project.NotCreated? then CreateFailed else CreateCrashed;
      }
      var row := Scenario(nextScenarioId, name, description, difficulty, project.id, user.id);
      ghost var before := scenarios;
      forall i | 0 <= i < |sessions|
        ensures ScenarioById(before + [row], sessions[i].scenarioId).Some?
      {
        var j := ScenarioById(before, sessions[i].scenarioId).value;
        assert (before + [row])[j].id == sessions[i].scenarioId;
      }
      calls, scenarios, nextScenarioId := calls + [request], scenarios + [row], nextScenarioId + 1;
      outcome := ScenarioCreated(row.id);
    }

    /** launch_scenario: look the scenario up, refuse a second active session
        for the same (user, scenario), duplicate the template, record the new
        session as active, then start it. The start reply is ignored. */
    method LaunchScenario(user: User, scenarioId: nat, stamp: string, now: Timestamp,
                          duplicateReply: Reply<JsonObject>, startReply: Reply<JsonObject>)
      returns (outcome: LaunchOutcome)
      requires Valid()
      modifies this
      ensures Valid()
      ensures scenarios == old(scenarios) && nextScenarioId == old(nextScenarioId)
      ensures ScenarioById(old(scenarios), scenarioId).None? ==>
        outcome == ScenarioNotFound
        && sessions == old(sessions) && nextSessionId == old(nextSessionId) && calls == old(calls)
      ensures ScenarioById(old(scenarios), scenarioId).Some? && ActiveSessionFor(old(sessions), user.id, scenarioId).Some? ==>
        outcome == AlreadyActive
        && sessions == old(sessions) && nextSessionId == old(nextSessionId) && calls == old(calls)
      ensures ScenarioById(old(scenarios), scenarioId).Some? && ActiveSessionFor(old(sessions), user.id, scenarioId).None? ==>
        var template := old(scenarios)[ScenarioById(old(scenarios), scenarioId).value];
        var duplicate := DuplicateProject(template.projectId, DuplicateName(template.name, user.username, stamp));
        match ReadCreated(duplicateReply)
        case NotCreated =>
          outcome == LaunchFailed && calls == old(calls) + [duplicate]
          && sessions == old(sessions) && nextSessionId == old(nextSessionId)
        case MissingProjectId =>
          outcome == LaunchCrashed && calls == old(calls) + [duplicate]
          && sessions == old(sessions) && nextSessionId == old(nextSessionId)
        case CreatedProject(project) =>
          outcome == Launched(old(nextSessionId))
          && calls == old(calls) + [duplicate, StartProject(project)]
          && sessions == old(sessions) + [Session(old(nextSessionId), user.id, scenarioId, project, Active, now, None)]
          && nextSessionId == old(nextSessionId) + 1
    {
      var found := ScenarioById(scenarios, scenarioId);
      if found.None? {
        return ScenarioNotFound;
      }
      var template := scenarios[found.value];
      if ActiveSessionFor(sessions, user.id, scenarioId).Some? {
        return AlreadyActive;
      }
      var duplicate := DuplicateProject(template.projectId, DuplicateName(template.name, user.username, stamp));
      var project := ReadCreated(duplicateReply);
      if !project.CreatedProject? {
        calls := calls + [duplicate];
        return if project.NotCreated? then LaunchFailed else LaunchCrashed;
      }
      // INSERT the active row, then start_project (its reply is not read)
      var row := Session(nextSessionId, user.id, scenarioId, project.id, Active, now, None);
      InsertKeepsAtMostOne(sessions, row);
      InsertKeepsIds(sessions, nextSessionId, row);
      InsertKeepsKnown(sessions, scenarios, row);
      sessions, nextSessionId, calls := sessions + [row], nextSessionId + 1, calls + [duplicate, StartProject(project.id)];
      outcome := Launched(row.id);
    }

    /** end_session: an owner-scoped lookup of an active session; if found,
        stop then delete its project and mark it ended whatever the backend
        answered; otherwise nothing happens. */
    method EndSession(user: User, sessionId: nat, now: Timestamp,
                      stopReply: Reply<JsonObject>, deleteReply: Reply<JsonObject>)
      returns (outcome: EndOutcome)
      requires Valid()
      modifies this
      ensures Valid()
      ensures scenarios == old(scenarios) && nextScenarioId == old(nextScenarioId)
      ensures nextSessionId == old(nextSessionId)
      ensures OwnedActiveSession(old(sessions), sessionId, user.id).None? ==>
        outcome == NotFoundOrEnded && sessions == old(sessions) && calls == old(calls)
      ensures OwnedActiveSession(old(sessions), sessionId, user.id).Some? ==>
        var i := OwnedActiveSession(old(sessions), sessionId, user.id).value;
        var project := old(sessions)[i].projectId;
        outcome == SessionEnded
        && calls == old(calls) + [StopProject(project), DeleteProject(project)]
        && sessions == old(sessions)[i := Close(old(sessions)[i], now)]
        && sessions == MarkEnded(old(sessions), sessionId, now)
    {
      var found := OwnedActiveSession(sessions, sessionId, user.id);
      if found.None? {
        return NotFoundOrEnded;
      }
      var i := found.value;
      var project := sessions[i].projectId;
      // stop_project, then delete_project (neither reply is read), then the
      // UPDATE ... WHERE id = ?, which with unique ids touches row i alone
      EndKeepsInvariants(sessions, scenarios, nextSessionId, i, now);
      calls, sessions := calls + [StopProject(project), DeleteProject(project)], sessions[i := Close(sessions[i], now)];
      outcome := SessionEnded;
    }

    /** session_view: the owner-scoped lookup joined with the scenario, then
        the project's node list. A session of another user, or a missing one,
        shows nothing and asks the backend nothing. */
    method SessionView(user: User, sessionId: nat, nodesReply: Reply<seq<JsonObject>>)
      returns (page: Option<SessionPage>)
      requires Valid()
      modifies this
      ensures Valid()
      ensures scenarios == old(scenarios) && sessions == old(sessions)
      ensures nextScenarioId == old(nextScenarioId) && nextSessionId == old(nextSessionId)
      ensures page.Some? <==> OwnedSession(sessions, sessionId, user.id).Some?
      ensures page.None? ==> calls == old(calls)
      ensures page.Some? ==>
        var s := sessions[OwnedSession(sessions, sessionId, user.id).value];
        && page.value.session == s
        && s.id == sessionId && s.userId == user.id
        && page.value.scenarioName == scenarios[ScenarioById(scenarios, s.scenarioId).value].name
        && page.value.scenarioDescription == scenarios[ScenarioById(scenarios, s.scenarioId).value].description
        && page.value.nodes == ListedBody(nodesReply)
        && page.value.webUiUrl == serverUrl + WEB_UI_PATH + s.projectId
        && calls == old(calls) + [GetProjectNodes(s.projectId)]
    {
      var found := OwnedSession(sessions, sessionId, user.id);
      if found.None? {
        return None;
      }
      var s := sessions[found.value];
      var j := ScenarioById(scenarios, s.scenarioId);
      if j.None? {
        // the JOIN drops a session whose scenario is missing; ScenariosKnown rules this out
        return None;
      }
      var scenario := scenarios[j.value];
      calls := calls + [GetProjectNodes(s.projectId)];
      var nodes := ListedBody(nodesReply);
      page := Some(SessionPage(s, scenario.name, scenario.description, nodes, serverUrl + WEB_UI_PATH + s.projectId));
    }
  }

  const LAB: string := "Intro Firewall Lab"

  /** A lab's life end to end, on a fresh installation: an instructor defines
      a scenario; a student launches it (the start request fails, the session
      is recorded anyway); launches it again (refused, no second duplicate);
      another user tries to end it (nothing happens); the student ends it
      (stop, then delete, on the duplicated project); ends it again (nothing
      happens); and launches it afresh (a new session on a new project). */
  method LaunchEndRelaunch(instructor: User, student: User, stranger: User, template: ProjectId,
                           first: ProjectId, second: ProjectId, stamp1: string, stamp2: string, now: Timestamp)
    returns (launch: LaunchOutcome, refused: LaunchOutcome, strangerEnd: EndOutcome, end: EndOutcome,
             repeatEnd: EndOutcome, relaunch: LaunchOutcome, log: seq<Call>, registry: seq<Session>)
    requires instructor.role == INSTRUCTOR && stranger.id != student.id
    ensures launch == Launched(1) && refused == AlreadyActive && relaunch == Launched(2)
    ensures strangerEnd == NotFoundOrEnded && end == SessionEnded && repeatEnd == NotFoundOrEnded
    ensures log == [CreateProject(LAB),
                    DuplicateProject(template, DuplicateName(LAB, student.username, stamp1)), StartProject(first),
                    StopProject(first), DeleteProject(first),
                    DuplicateProject(template, DuplicateName(LAB, student.username, stamp2)), StartProject(second)]
    ensures registry == [Session(1, student.id, 1, first, Ended, now, Some(now)),
                         Session(2, student.id, 1, second, Active, now, None)]
  {
    var range := OpenLab(instructor, template);
    launch, refused := LaunchTwice(range, instructor.id, student, template, first, stamp1, now);
    strangerEnd, end, repeatEnd := EndThrice(range, instructor.id, student, stranger, template, first, stamp1, now);
    relaunch := Relaunch(range, instructor.id, student, template, first, second, stamp2, now);
    log, registry := range.calls, range.sessions;
  }

  /** The catalogue every step of LaunchEndRelaunch runs against. */
  function Lab(instructorId: nat, template: ProjectId): seq<Scenario> {
    [Scenario(1, LAB, "", "beginner", template, instructorId)]
  }

  method OpenLab(instructor: User, template: ProjectId) returns (range: CyberRange)
    requires instructor.role == INSTRUCTOR
    ensures fresh(range) && range.Valid()
    ensures range.scenarios == Lab(instructor.id, template) && range.sessions == []
    ensures range.nextSessionId == 1 && range.calls == [CreateProject(LAB)]
  {
    range := new CyberRange("http://gns3.local");
    var reply: Reply<JsonObject> := Response(HTTP_CREATED, map[PROJECT_ID_KEY := template]);
    assert ReadCreated(reply) == CreatedProject(template);
    var created := range.CreateScenario(instructor, LAB, "", "beginner", reply);
  }

  method LaunchTwice(range: CyberRange, instructorId: nat, student: User, template: ProjectId,
                     first: ProjectId, stamp1: string, now: Timestamp)
    returns (launch: LaunchOutcome, refused: LaunchOutcome)
    requires range.Valid()
    requires range.scenarios == Lab(instructorId, template) && range.sessions == []
    requires range.nextSessionId == 1 && range.calls == [CreateProject(LAB)]
    modifies range
    ensures range.Valid()
    ensures launch == Launched(1) && refused == AlreadyActive
    ensures range.scenarios == Lab(instructorId, template) && range.nextSessionId == 2
    ensures range.sessions == [Session(1, student.id, 1, first, Active, now, None)]
    ensures range.calls == [CreateProject(LAB),
                            DuplicateProject(template, DuplicateName(LAB, student.username, stamp1)), StartProject(first)]
  {
    assert ScenarioById(range.scenarios, 1) == Some(0);
    var reply: Reply<JsonObject> := Response(HTTP_CREATED, map[PROJECT_ID_KEY := first]);
    assert ReadCreated(reply) == CreatedProject(first);
    launch := range.LaunchScenario(student, 1, stamp1, now, reply, Unreachable);
    assert IsActiveFor(range.sessions[0], student.id, 1);
    refused := range.LaunchScenario(student, 1, stamp1, now, reply, Unreachable);
  }

  method EndThrice(range: CyberRange, instructorId: nat, student: User, stranger: User, template: ProjectId,
                   first: ProjectId, stamp1: string, now: Timestamp)
    returns (strangerEnd: EndOutcome, end: EndOutcome, repeatEnd: EndOutcome)
    requires range.Valid() && stranger.id != student.id
    requires range.scenarios == Lab(instructorId, template)
    requires range.sessions == [Session(1, student.id, 1, first, Active, now, None)]
    modifies range
    ensures range.Valid()
    ensures strangerEnd == NotFoundOrEnded && end == SessionEnded && repeatEnd == NotFoundOrEnded
    ensures range.scenarios == Lab(instructorId, template)
    ensures range.nextSessionId == old(range.nextSessionId)
    ensures range.sessions == [Session(1, student.id, 1, first, Ended, now, Some(now))]
    ensures range.calls == old(range.calls) + [StopProject(first), DeleteProject(first)]
  {
    strangerEnd := range.EndSession(stranger, 1, now, Unreachable, Unreachable);
    assert OwnedActiveSession(range.sessions, 1, student.id) == Some(0);
    end := range.EndSession(student, 1, now, Response(500, map[]), Unreachable);
    assert range.sessions == [Session(1, student.id, 1, first, Ended, now, Some(now))];
    repeatEnd := range.EndSession(student, 1, now, Response(HTTP_NO_CONTENT, map[]), Response(HTTP_NO_CONTENT, map[]));
  }

  method Relaunch(range: CyberRange, instructorId: nat, student: User, template: ProjectId,
                  first: ProjectId, second: ProjectId, stamp2: string, now: Timestamp)
    returns (relaunch: LaunchOutcome)
    requires range.Valid()
    requires range.scenarios == Lab(instructorId, template)
    requires range.sessions == [Session(1, student.id, 1, first, Ended, now, Some(now))]
    requires range.nextSessionId == 2
    modifies range
    ensures relaunch == Launched(2)
    ensures range.sessions == old(range.sessions) + [Session(2, student.id, 1, second, Active, now, None)]
    ensures range.calls == old(range.calls)
      + [DuplicateProject(template, DuplicateName(LAB, student.username, stamp2)), StartProject(second)]
  {
    assert ScenarioById(range.scenarios, 1) == Some(0);
    var reply: Reply<JsonObject> := Response(HTTP_CREATED, map[PROJECT_ID_KEY := second]);
    assert ReadCreated(reply) == CreatedProject(second);
    relaunch := range.LaunchScenario(student, 1, stamp2, now, reply, Response(HTTP_NO_CONTENT, map[]));
  }
}

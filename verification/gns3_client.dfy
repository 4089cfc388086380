/** The GNS3 client wrapper: how each request's HTTP status code becomes the
    value the application sees, and how `create_project` names a project.
    The requests themselves are not modelled: a reply is an input. */
module Gns3Client {
  import opened Base
  import opened Decimal

  type ProjectId = string

  /** A decoded JSON object, reduced to its string-valued members. */
  type JsonObject = map<string, string>

  const HTTP_OK: int := 200
  const HTTP_CREATED: int := 201
  const HTTP_NO_CONTENT: int := 204

  const PROJECT_PREFIX: string := "cyberrange_"

  /** What one request came back with: a response with its status code and
      decoded body, or an exception (connection failure, undecodable body),
      which every client method swallows. */
  datatype Reply<T> = Response(status: int, body: T) | Unreachable

  /** The uniform failure taxonomy a caller would need to tell "backend
      rejected" from "backend unreachable"; the reference the client's
      boolean and optional results are compared against. */
  datatype Outcome<T> = Success(value: T) | Rejected(status: int) | Unavailable

  function Classify<T>(reply: Reply<T>, expected: int): Outcome<T> {
    match reply
    case Unreachable => Unavailable
    case Response(status, body) => if status == expected then Success(body) else Rejected(status)
  }

  /** `start_project`, `stop_project`, `delete_project`: true exactly when the
      backend answers 204. */
  function Acknowledged<T>(reply: Reply<T>): (ok: bool)
    ensures ok <==> Classify(reply, HTTP_NO_CONTENT).Success?
  {
    reply.Response? && reply.status == HTTP_NO_CONTENT
  }

  /** `create_project`, `duplicate_project`: the decoded body when the backend
      answers 201, None on any other status or exception. */
  function CreatedBody<T>(reply: Reply<T>): (r: Option<T>)
    ensures r.Some? <==> Classify(reply, HTTP_CREATED).Success?
    ensures r.Some? ==> Classify(reply, HTTP_CREATED) == Success(r.value)
  {
    if reply.Response? && reply.status == HTTP_CREATED then Some(reply.body) else None
  }

  /** `get_project_nodes`: the decoded list when the backend answers 200, the
      empty list on any other status or exception. */
  function ListedBody<T>(reply: Reply<seq<T>>): (r: seq<T>)
    ensures Classify(reply, HTTP_OK).Success? ==> r == Classify(reply, HTTP_OK).value
    ensures !Classify(reply, HTTP_OK).Success? ==> r == []
  {
    if reply.Response? && reply.status == HTTP_OK then reply.body else []
  }

  /** The node list of a project that has no nodes is indistinguishable from
      the list a rejected or failed request yields: whatever the status or
      exception, a caller seeing `[]` cannot tell which happened. */
  lemma EmptyListIndistinguishable<T>(reply: Reply<seq<T>>)
    requires !Classify(reply, HTTP_OK).Success?
    ensures ListedBody(reply) == ListedBody(Response(HTTP_OK, []))
    ensures Classify(reply, HTTP_OK) != Classify(Response(HTTP_OK, []), HTTP_OK)
  {
  }

  /** The client's results drop the cause of a failure: a rejection and an
      unreachable backend give the same value, although the taxonomy tells
      them apart. */
  lemma FailureCauseLost<T>(status: int, body: T)
    requires status != HTTP_NO_CONTENT && status != HTTP_CREATED
    ensures Acknowledged(Response(status, body)) == Acknowledged<T>(Unreachable)
    ensures CreatedBody(Response(status, body)) == CreatedBody<T>(Unreachable)
    ensures Classify(Response(status, body), HTTP_NO_CONTENT) != Classify<T>(Unreachable, HTTP_NO_CONTENT)
  {
  }

  /** Python truthiness of the optional `scenario_id` argument. */
  predicate Truthy(scenarioId: Option<int>) {
    scenarioId.Some? && scenarioId.value != 0
  }

  /** The name `create_project` sends: tagged with the scenario id when one is
      given and truthy, the bare name otherwise. */
  function ProjectName(name: string, scenarioId: Option<int>): (r: string)
    ensures !Truthy(scenarioId) ==> r == name
    ensures Truthy(scenarioId) ==> |r| > |PROJECT_PREFIX| + |name|
    ensures Truthy(scenarioId) ==> r[..|PROJECT_PREFIX|] == PROJECT_PREFIX && r[|r| - |name|..] == name
  {
    if Truthy(scenarioId) then PROJECT_PREFIX + (IntToDecimal(scenarioId.value) + "_" + name) else name
  }

  /** Recovers the scenario id and the bare name from a tagged project name. */
  function ParseProjectName(s: string): Option<(int, string)> {
    if |s| < |PROJECT_PREFIX| || s[..|PROJECT_PREFIX|] != PROJECT_PREFIX then None
    else ParseTag(s[|PROJECT_PREFIX|..])
  }

  /** What follows the prefix: the id is the text before the first underscore,
      the name everything after it. */
  function ParseTag(rest: string): Option<(int, string)> {
    match Find(rest, (c: char) => c == '_')
    case None => None
    case Some(k) =>
      match ParseInt(rest[..k])
      case None => None
      case Some(id) => if id == 0 then None else Some((id, rest[k + 1..]))
  }

  lemma ParsePrefixed(rest: string)
    ensures ParseProjectName(PROJECT_PREFIX + rest) == ParseTag(rest)
  {
    var s := PROJECT_PREFIX + rest;
    assert s[..|PROJECT_PREFIX|] == PROJECT_PREFIX && s[|PROJECT_PREFIX|..] == rest;
  }

  lemma ParseTagRoundTrip(id: int, name: string)
    requires id != 0
    ensures ParseTag(IntToDecimal(id) + "_" + name) == Some((id, name))
  {
    var digits := IntToDecimal(id);
    var rest := digits + "_" + name;
    assert rest[|digits|] == '_';
    var k := Find(rest, (c: char) => c == '_');
    assert k.Some? && k.value == |digits| by {
      assert forall i :: 0 <= i < |digits| ==> rest[i] == digits[i] && rest[i] != '_';
    }
    assert rest[..|digits|] == digits;
    assert rest[|digits| + 1..] == name;
    IntRoundTrip(id);
  }

  lemma ParseTagSound(rest: string, id: int, name: string)
    requires ParseTag(rest) == Some((id, name))
    ensures id != 0 && IntToDecimal(id) + "_" + name == rest
  {
    var k := Find(rest, (c: char) => c == '_').value;
    ParseIntSound(rest[..k], id);
    assert rest == rest[..k] + [rest[k]] + rest[k + 1..];
  }

  /** A tagged name gives back its scenario id and bare name. */
  lemma ProjectNameRoundTrip(name: string, scenarioId: Option<int>)
    ensures Truthy(scenarioId) ==> ParseProjectName(ProjectName(name, scenarioId)) == Some((scenarioId.value, name))
  {
    if Truthy(scenarioId) {
      var tagged := IntToDecimal(scenarioId.value) + "_" + name;
      ParsePrefixed(tagged);
      ParseTagRoundTrip(scenarioId.value, name);
    }
  }

  /** Whatever parses as a tagged name is exactly the name `create_project`
      sends for that id and bare name. */
  lemma ParseProjectNameSound(s: string, id: int, name: string)
    requires ParseProjectName(s) == Some((id, name))
    ensures ProjectName(name, Some(id)) == s
  {
    var rest := s[|PROJECT_PREFIX|..];
    ParseTagSound(rest, id, name);
    assert s == s[..|PROJECT_PREFIX|] + rest;
  }

  /** Tagged names of distinct (scenario id, name) pairs never collide. */
  lemma ProjectNameInjective(name1: string, id1: int, name2: string, id2: int)
    requires id1 != 0 && id2 != 0
    requires ProjectName(name1, Some(id1)) == ProjectName(name2, Some(id2))
    ensures id1 == id2 && name1 == name2
  {
    ProjectNameRoundTrip(name1, Some(id1));
    ProjectNameRoundTrip(name2, Some(id2));
  }
}

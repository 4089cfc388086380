# Cyber-range session lifecycle, modelled in Dafny

The application hands each student a private copy of a lab scenario. A scenario is a template
project on a GNS3 network-emulation server. Launching it duplicates the template, records a session
row as `active`, and starts the copy. Ending the session stops and deletes the copy and marks the row
`ended`. This project models that lifecycle.

- `base.dfy` (`Base`): `Option`, and `Find`, the first-match search behind every `fetchone()` lookup.
- `decimal.dfy` (`Decimal`): the decimal text of an integer, as `str` gives it inside f-strings, and its strict
  inverse.
- `gns3_client.dfy` (`Gns3Client`): how each `GNS3Client` method turns an HTTP status code into the value
  its caller sees. It is compared with a three-way taxonomy (`Success | Rejected | Unavailable`).
  The module also holds the `create_project` name builder and a parser that recovers the id and name.
- `tables.dfy` (`Tables`): the `scenarios` and `user_sessions` tables as sequences of rows in row-id
  order. It holds the SQL lookups as functions and the invariants as predicates. Its lemmas show that
  insertions and the `UPDATE` keep those invariants.
- `lifecycle.dfy` (`Lifecycle`): the class `CyberRange` holding the tables and a log of backend requests.
  Its methods are the four handlers `create_scenario`, `launch_scenario`, `end_session` and
  `session_view`. `LaunchEndRelaunch` runs a lab's whole life on a fresh instance.

The backend is never called. Each request a handler makes is appended to `calls`, and the reply it
got (`Response(status, body)` or `Unreachable` for a swallowed exception) is a parameter. So "makes
no backend call" reads `calls == old(calls)`. The main invariant, kept by every method through
`Valid()`, is that at most one session per (user, scenario) is `active`.

The model keeps these behaviours of the code as written:
- A session is recorded `active` before `start_project` is called, and the start result is ignored.
- The results of stop and delete are ignored too.
- Ending a session that is missing, not owned or already ended reports "not found or already ended".
  It is not reported as a success.
- The client collapses "rejected" and "unreachable" into one `False`/`None`/`[]` value.
  `FailureCauseLost` states this.

## Model

| member | source | states |
|---|---|---|
| `Base.Find` | cyberrange.py:320-333 | the first row matching the WHERE clause, or None exactly when no row matches |
| `Decimal.NatToDecimal` | cyberrange.py:119 | `str(n)` is canonical decimal text, with a leading `0` only for 0 |
| `Decimal.IntToDecimal` | cyberrange.py:119 | `str(k)` is non-empty text of digits and an optional minus sign; `IntRoundTrip` and `ParseIntSound` pin it to k |
| `Decimal.IntRoundTrip` | cyberrange.py:119 | the text of every integer parses back to that integer |
| `Decimal.ParseIntSound` | cyberrange.py:119 | any text that parses is exactly the text of the integer it parses to |
| `Gns3Client.Acknowledged` | cyberrange.py:143-165 | start, stop and delete report success exactly when the taxonomy says Success for 204; any other status or an exception gives false |
| `Gns3Client.CreatedBody` | cyberrange.py:116-133 | create and duplicate return the body exactly when the status is 201; otherwise None |
| `Gns3Client.ListedBody` | cyberrange.py:135-141 | the node list is the body on 200; it is `[]` on any other status or an exception |
| `Gns3Client.EmptyListIndistinguishable` | cyberrange.py:135-141 | a project with no nodes and a rejected or failed node request give the same `[]`, though the taxonomy tells them apart |
| `Gns3Client.FailureCauseLost` | cyberrange.py:122-163 | a rejection and an unreachable backend give the same client result, though the taxonomy tells them apart |
| `Gns3Client.ProjectName` | cyberrange.py:119 | with a falsy scenario id the name is the bare name; with a truthy one it starts with `cyberrange_` and ends with the bare name (the full round trip is `ProjectNameRoundTrip`) |
| `Gns3Client.ProjectNameRoundTrip` | cyberrange.py:116-119 | with a truthy scenario id, parsing the tagged name gives back the id and the name |
| `Gns3Client.ParseProjectNameSound` | cyberrange.py:119 | any name that parses as tagged is exactly `cyberrange_{id}_{name}` for the parsed pair |
| `Gns3Client.ProjectNameInjective` | cyberrange.py:119 | tagged names of distinct (scenario id, name) pairs never collide |
| `Tables.ScenarioById` | cyberrange.py:319-325 | finds a scenario with that id, or None exactly when the catalogue has none |
| `Tables.ActiveSessionFor` | cyberrange.py:327-333 | finds an active session of that user for that scenario, or None exactly when there is none |
| `Tables.OwnedActiveSession` | cyberrange.py:398-405 | finds an active session with that id owned by that user, or None exactly when there is none |
| `Tables.OwnedSession` | cyberrange.py:369-379 | finds a session with that id owned by that user (any status), or None exactly when there is none |
| `Tables.InsertKeepsAtMostOne` | cyberrange.py:327-350 | inserting an active session for a pair with no active session keeps at most one active session per pair |
| `Tables.InsertKeepsIds` | cyberrange.py:347-352 | a row inserted with the next AUTOINCREMENT id keeps ids strictly increasing and below the new next id |
| `Tables.InsertKeepsKnown` | cyberrange.py:346-350 | a session inserted for a catalogue scenario keeps every session's scenario in the catalogue |
| `Tables.InsertedBlocksRelaunch` | cyberrange.py:327-350 | after a session is inserted as active, the guard query finds an active session for its pair |
| `Tables.Close` | cyberrange.py:411-415 | a row after the UPDATE is `ended` with the end time, and its id, owner, scenario, project and start time are unchanged |
| `Tables.MarkEnded` | cyberrange.py:411-415 | `UPDATE ... WHERE id = ?` keeps the row count, leaves every row with another id as it was, and ends every row with that id, changing only its status and end time |
| `Tables.MarkEndedOnlyThatRow` | cyberrange.py:411-415 | with unique ids, the `UPDATE ... WHERE id = ?` changes exactly the one row and leaves every other row unchanged |
| `Tables.CloseFreesPair` | cyberrange.py:398-415 | ending an active session keeps the invariant and leaves its (user, scenario) pair with no active session, so a relaunch is allowed |
| `Tables.CloseKeepsIdsAndKnown` | cyberrange.py:411-415 | ending a session changes neither its id nor its scenario, so id order and the foreign key survive |
| `Tables.EndKeepsInvariants` | cyberrange.py:398-415 | on tables that satisfy the invariants, the end-session UPDATE closes exactly the found row and every invariant still holds |
| `Tables.ClosedIsNotFoundAgain` | cyberrange.py:398-420 | once a session is ended, the owner-scoped active lookup no longer finds it, so a repeated end does nothing |
| `Lifecycle.ReadCreated` | cyberrange.py:292-303 | a create or duplicate reply counts as a project only for a 201 carrying `project_id`; None or `{}` is a failure; a 201 without `project_id` is the KeyError crash |
| `Lifecycle.DuplicateName` | cyberrange.py:338 | the duplicated project's name is the scenario name, an underscore, the user name, an underscore and the stamp, each part at its own position |
| `Lifecycle.DuplicateNamesDiffer` | cyberrange.py:338 | for one scenario name and one user name, different stamp strings give different names |
| `Lifecycle.DuplicateNamesDifferByUser` | cyberrange.py:338 | for one scenario name and one stamp, different user names give different names |
| `Lifecycle.DuplicateNamesCanCollide` | cyberrange.py:338 | different (scenario name, user name) pairs can join to the same name: `a_b`/`c` and `a`/`b_c` |
| `Lifecycle.CyberRange.constructor` | cyberrange.py:60-87 | empty tables whose AUTOINCREMENT ids start at 1, and an empty request log |
| `Lifecycle.CyberRange.CreateScenario` | cyberrange.py:278-308 | a non-instructor gets AccessDenied with no request and no write. An instructor's request is `create_project(name)` with the bare name. One scenario row is appended, with the next id, the returned project id and the caller as creator, only when the reply yields a project. Sessions are untouched. |
| `Lifecycle.CyberRange.LaunchScenario` | cyberrange.py:312-360 | an unknown scenario, or an existing active session for the pair, changes nothing and sends no request. Otherwise duplicate is requested on the template with the built name. If it fails, no row is written and start is not called. On success exactly one `active` row is appended with the caller, the scenario, the duplicated project id and the next id, and start is then requested on that project. The outcome is Launched whatever start returns. The invariant is kept. |
| `Lifecycle.CyberRange.EndSession` | cyberrange.py:391-423 | a session that is missing, owned by someone else or already ended changes nothing and sends no request. Otherwise stop, then delete, is requested on its stored project id. Only that row becomes `ended` with the end time, whatever the backend answered; the result equals the `UPDATE ... WHERE id = ?` over all rows. Its project id and every other row are unchanged. |
| `Lifecycle.CyberRange.SessionView` | cyberrange.py:362-389 | a page exists exactly when the caller owns a session with that id. It shows that row, its scenario's name and description, the node list read from the reply and the web-UI link. The only request is for that project's nodes; without a page there is none. Tables are unchanged. |
| `Lifecycle.LaunchEndRelaunch` | cyberrange.py:278-423 | on a fresh instance: define a scenario, then launch (1), a refused second launch, a refused end by another user, end, a no-op repeated end, and relaunch (2). The request log and the final session rows are exactly as listed. |

## Left out

- Flask routing, redirects, `flash` messages and templates: each handler returns an outcome value instead.
- The GET branch of `create_scenario`, which only renders the form.
- Login, registration, password hashing and `load_user`: they are werkzeug and flask_login library calls.
  The caller is a `User` value.
- The dashboard, the scenario list, the admin panel and `/api/nodes`: read-only queries and presentation.
- `GNS3Client.get_projects`: no handler of the lifecycle calls it.
- SQLite connections, SQL text and `init_db`: the tables are sequences. AUTOINCREMENT is a next-id counter
  that starts at 1. The default admin row belongs to the users table, which is not modelled.
- The HTTP requests themselves and the server URL in the API base: replies are parameters.
- Blocking requests: no request passes a timeout, so one can wait forever. The model assumes every request
  returns, with a response or an exception.
- Integer width of ids: the routes accept any non-negative integer, but the database driver raises an
  overflow error when binding an id of 2^63 or more, and the request ends with a server error. The model
  treats such an id as absent (`ScenarioNotFound`, no page, `NotFoundOrEnded`). No table or request differs.
- DuplicateNamesDiffer: two launches by one user of one scenario within the same second use the same stamp
  (one-second resolution), so they ask for the same name. Different (scenario name, user name) pairs can also
  join to the same name (`DuplicateNamesCanCollide`). Scenario names are not unique in the catalogue, so one user
  launching two scenarios of the same name within one second also sends the same name twice. Nothing in the
  source prevents any of these collisions.
- Time: `datetime.now().strftime(...)` in the duplicated name and `CURRENT_TIMESTAMP` for a session's start and end
  are opaque string parameters. The `created_at` column of `scenarios` has no field in `Scenario` and is dropped.
- IntToDecimal: has no digit limit. Recent Python versions raise ValueError when converting an integer of more than
  4300 digits, and `create_project` would then return None without sending a request. No handler passes a scenario
  id to `create_project`, so the lifecycle never reaches this case.
- Concurrency: nothing in the source locks the check-then-insert in `launch_scenario`, so two racing launches
  could both pass the guard. Only sequential calls are modelled, and the invariant holds for them.
- JSON bodies are maps from string to string. Non-object bodies and non-string members are not represented.
  Beyond the project id, the model only distinguishes empty from non-empty.
- Scenario deletion and editing do not exist in the source.

# Cloud to-do client: the logic inside the Streamlit page

The repository is a single Streamlit page, `todo_streamlit_app.py`, that lists, adds, updates and deletes to-do
tasks held by an AWS Chalice API behind API Gateway. Most of the file renders widgets and calls `requests`. This
project takes out the pieces of pure logic inside that I/O, writes them as Dafny functions over immutable data,
and proves what they do:

- **Endpoint** (`endpoint.dfy`): the typed URL is normalised with Python's `strip("/")`, which removes slashes at
  *both* ends. Then `/tasks` is appended unless the stripped text already ends with it. The client counts as
  configured only when the endpoint is non-empty and contains `execute-api`.
- **Client** (`client.dfy`): `get_all_tasks`, `add_new_task`, `update_existing_task` and `delete_existing_task`
  are pure functions. Their network input is a `Reply`: no response, or a status, a decoded body and the raw text.
  Each returns the request it issued (if any), the Python return value and what it reported. The module also holds
  the error-detail fallback (`Message`, then `message`, then the raw text, else `"No additional details."`) and the
  update payload, which contains only the arguments that are not `None`.
- **Partition** (`partition.dfy`): the pending and completed sections are two order-preserving filters on the
  truth of `t.get("completed", False)`.
- **Editing** (`editing.dfy`): `st.session_state.editing_task_id` is an `Option` of a task id. User actions are
  the events of a transition function, and a rerun of the script is just the next event. With the state `None`,
  line 368 draws the edit form under every pending task that has no `taskId`. `Next` is the page as
  written; `NextCorrected` differs only in the success test after a save or an add (see "## Findings"). The
  module also states which task gets an edit form.
- **Scenarios** (`scenarios.dfy`): a few concrete exchanges traced through the model.

`Wrappers` (Option) and `Json` (decoded JSON values, `dict.get` and Python truthiness) are shared helpers.

The model follows the code in these places:

- the URL is stripped at both ends, although the comment at line 26 speaks only of removing a trailing slash;
- the editing state is never reset when the edited task disappears from a refresh. The page only stops drawing
  its form (`Editing.StaleStateShowsNoEditor`);
- an update with nothing to change makes no request and returns `None` with a warning (`Client.NoChanges`).

The client assumes `requests` 2.27 or later, where `Response.json()` raises `requests.exceptions.JSONDecodeError`,
a `RequestException`. So a 2xx reply whose body is not JSON takes the request-error branch: listing yields `[]`,
update and delete report the raw text as the detail, and delete returns `False`.

## Model

| member | source | states |
|---|---|---|
| Endpoint.Strip | todo_streamlit_app.py:27 | `strip("/")`: the result has no slash at either end and appears in the input with only slashes before and after it |
| Endpoint.Normalize | todo_streamlit_app.py:24-34 | empty input gives `""`; any other input gives an endpoint that ends with `/tasks` and starts with the stripped input; it equals the stripped input when that already ends with `/tasks`, and is exactly six characters longer otherwise |
| Endpoint.StripKeepsUnslashed | todo_streamlit_app.py:27 | stripping text with no slash at either end leaves it unchanged |
| Endpoint.AppendsSuffixOnce | todo_streamlit_app.py:28-31 | `/tasks` is added at most once: the endpoint ends in `/tasks/tasks` only if the stripped input already did |
| Endpoint.NormalizeIdempotent | todo_streamlit_app.py:25-31 | when the stripped input is non-empty, the endpoint has no slash at either end and normalising it again changes nothing |
| Endpoint.NormalizeSlashesOnly | todo_streamlit_app.py:25-31 | a non-empty input made only of slashes gives `/tasks` |
| Endpoint.NormalizeNotIdempotentOnSlash | todo_streamlit_app.py:25-31 | `/` gives `/tasks`, and normalising that again gives `tasks/tasks`, so idempotence fails for slash-only input |
| Endpoint.ConfiguredIffMarker | todo_streamlit_app.py:24-47 | the client is configured exactly when the typed text contains `execute-api`; stripping slashes and appending `/tasks` never change the answer |
| Endpoint.ContainsAppendSuffix | todo_streamlit_app.py:31 | appending `/tasks` neither creates nor removes an occurrence of a slash-free word at least six characters long |
| Endpoint.DefaultEndpointConfigured | todo_streamlit_app.py:13-15 | the default URL passes the configured check |
| Endpoint.DefaultEndpointNormal | todo_streamlit_app.py:13-31 | the default URL is already normal: normalising it leaves it unchanged |
| Client.ErrorDetail | todo_streamlit_app.py:150-160 | no response gives `"No additional details."`; a body that is not a JSON object gives the raw text; an object body gives `Message` if present, else `message` if present, else the raw text |
| Client.ErrorDetailDrawnFromReply | todo_streamlit_app.py:151-160 | the detail is always the fixed sentence, the raw text, or a value of the body object; extraction never fails |
| Client.ListTasks | todo_streamlit_app.py:50-63 | an unconfigured client returns `[]` without a request; otherwise exactly one GET to the endpoint is made; the call succeeds iff the reply passes the status check with an object body; then the value is the body's `tasks`, or `[]` when that key is missing; every failure yields `[]` |
| Client.AddTask | todo_streamlit_app.py:168-235 | unconfigured: no request and `None`; otherwise one POST carrying `title` and `dueDate`; a task is returned (and reported done) exactly when the client is configured and the reply passes the status check with an object body whose `task` is an object or missing, and it is that object (`{}` if missing); a non-JSON body is reported before the status check; a body, or a `task` value, that is not an object is malformed and gives `None`; a connection error gives the no-details detail |
| Client.BuildPayload | todo_streamlit_app.py:101-109 | the payload has a key exactly for each argument that is not `None`, under `title`, `dueDate` and `completed`, holding that argument; `completed=False` is kept |
| Client.PayloadRoundTrip | todo_streamlit_app.py:101-109 | reading the payload back recovers the three arguments exactly |
| Client.PayloadEmptyIff | todo_streamlit_app.py:101-139 | the payload is empty exactly when all three arguments are `None` |
| Client.UpdateTask | todo_streamlit_app.py:96-165 | a request is made iff the client is configured and some argument is not `None`; that request is one PUT to `endpoint/taskId` carrying the payload; unconfigured and no-changes calls return `None` with their own report; a task is returned (and reported done) exactly when a request was made and the reply passes the status check with an object body whose `task` is an object or missing, and it is that object (`{}` if missing); a parsed body or `task` of another shape is an unexpected error with `None`; request errors report the extracted detail |
| Client.DeleteTask | todo_streamlit_app.py:238-266 | unconfigured: no request and `None`; otherwise one DELETE to `endpoint/taskId` and a boolean result; `True` exactly when the reply passes the status check with an object body, confirmed with the body's `message` or a default sentence; request errors give `False` with the extracted detail |
| Partition.TaskList | todo_streamlit_app.py:309-318 | the fetched `tasks` value is read as a task list exactly when it is a JSON array of objects; the list has one task per item, holding that item's fields |
| Partition.PendingTasks | todo_streamlit_app.py:317 | a task is pending exactly when it is in the list and its `completed` value is falsy or missing |
| Partition.CompletedTasks | todo_streamlit_app.py:318 | a task is completed exactly when it is in the list and its `completed` value is truthy |
| Partition.PartitionInterleaves | todo_streamlit_app.py:317-318 | the fetched list is an order-preserving merge of the two sections |
| Partition.PartitionCovers | todo_streamlit_app.py:317-318 | the two section lengths add up to the list length, their multisets add up to the list's, and no task is in both |
| Partition.CompletedFollowsFlag | todo_streamlit_app.py:317-318 | a missing flag means pending; a boolean flag decides the section directly |
| Editing.OpenEditReplaces | todo_streamlit_app.py:350-354 | Edit sets the state to the task's id, replacing any previous value |
| Editing.CancelCloses | todo_streamlit_app.py:414-420 | Cancel Edit clears the state |
| Editing.CompleteClosesOnlyItsEditor | todo_streamlit_app.py:335-340 | ticking a pending task clears the state iff it is that task's id, and otherwise leaves it unchanged, whatever the update returned |
| Editing.UncompleteClosesOnlyItsEditor | todo_streamlit_app.py:444-449 | unticking a completed task follows the same rule |
| Editing.DeleteClosesOnlyItsEditor | todo_streamlit_app.py:358-365 | Delete (here and at 454-461) clears the state iff it is that task's id, before the request, so the result of the delete does not matter |
| Editing.CloseOnSuccessAsWritten | todo_streamlit_app.py:404-410 | `if success:` as written, Python truthiness: when the state is set, it is cleared exactly when the result is a truthy value; `None` and `{}` leave it unchanged |
| Editing.CloseOnSuccess | todo_streamlit_app.py:404-410 | the intended test: when the state is set, it is cleared exactly when the save returned a task; `None` leaves it unchanged |
| Editing.CorrectionOnlyForFalsyTask | todo_streamlit_app.py:295-410 | the corrected step differs from the written one exactly when the state is set and a save or add returned a falsy task such as `{}` |
| Editing.SaveClosesEditorIffUpdated | todo_streamlit_app.py:393-411 | as written, after Save Changes a set state is cleared exactly when the update succeeded and returned a non-empty task; otherwise the state is unchanged |
| Editing.SaveClosesEditorIffUpdatedCorrected | todo_streamlit_app.py:393-411 | with the intended test, a set state is cleared exactly when the update succeeded, whatever task it returned |
| Editing.AddClosesEditorIffAdded | todo_streamlit_app.py:290-301 | as written, submitting the add form clears a set state exactly when a title was given, the add succeeded and it returned a non-empty task; otherwise the state is unchanged |
| Editing.AddClosesEditorIffAddedCorrected | todo_streamlit_app.py:290-301 | with the intended test, the add form clears a set state exactly when a title was given and the add succeeded |
| Editing.RunStateComesFromOpenEdit | todo_streamlit_app.py:274-277 | across any sequence of actions, the state is the starting value, `None`, or the id of an Edit button pressed during the sequence |
| Editing.FreshSessionStateFromOpenEdit | todo_streamlit_app.py:274-277 | a session starts with the state `None`; afterwards the state is `None` or the id of an Edit button pressed during the session |
| Editing.OpenEditors | todo_streamlit_app.py:368 | a task gets an edit form exactly when it is pending and its `taskId` equals the state |
| Editing.UnsetStateShowsIdlessTasks | todo_streamlit_app.py:368 | with the state `None`, as at the start of a session, the form is drawn under exactly the pending tasks without a `taskId`, since `None == None` |
| Editing.EditorsShareOneId | todo_streamlit_app.py:368 | every drawn form belongs to a pending task whose id is the state, so all open forms share one id |
| Editing.StaleStateShowsNoEditor | todo_streamlit_app.py:368 | if no pending task carries the state's id, no edit form is drawn, though the state is kept |
| Editing.AcceptedSaveKeepsEditorAsWritten | todo_streamlit_app.py:404-410 | a 200 reply with body `{}` makes the update return `{}`, which is a success; with the state `"1"`, the page as written keeps it, the corrected page clears it |
| Scenarios.ListingOnePendingTask | todo_streamlit_app.py:50-57 | a listing of one incomplete "Buy milk" task, fetched and read as a task list, puts it alone in the pending section, and the completed section is empty |
| Scenarios.CreateTaskReplies | todo_streamlit_app.py:196-232 | a reply `{"task": {...}}` returns the created task with its id; a bare JSON list is reported as malformed and returns `None` |
| Scenarios.DeleteNotFound | todo_streamlit_app.py:250-263 | a 404 reply with `{"message": "not found"}` returns `False` with detail `not found`, and another task's editor stays open |

## Left out

- HTTP and the Streamlit runtime: the `requests` calls become the `Reply` parameter. Rendering, debug `st.write`
  output and the text of `st.success`/`st.error`/`st.warning` messages are not modelled, nor is `st.rerun`, which
  is just the next event. Only the kind of each report is kept, plus the extracted error detail and the delete
  confirmation.
- The exception object `e` in the error messages is not modelled.
- Date handling (`datetime.today`, `strptime`, `strftime`): it depends on the clock and a library. Due dates are
  opaque strings.
- The commented-out `add_new_task` (lines 66-93) is dead code.
- The empty-payload block at lines 119-133 only shows a warning. The check at 137-139 is modelled.
- JSON numbers are integers only. Floats are not modelled.
- Python's cross-type equality (`1 == 1.0 == True`) is not modelled. Task ids and the editing state are compared
  structurally.
- Client.UpdateTask, Client.DeleteTask: the task id is taken as the string placed in the URL. Python's `str()` of a
  non-string or missing id (`.../None`) is not modelled.
- Partition.PendingTasks, Partition.CompletedTasks: listed tasks are taken to be JSON objects. A truthy `tasks`
  value that is not a list of objects makes the page raise at line 317 outside any handler. A falsy one (`null`,
  `{}`, `0`, `""`, `false`) is shown as "no tasks" by line 312. `Partition.TaskList` only reports such a value
  as `None`; the crash itself is not modelled.
- The sidebar warning printed by `is_api_configured()` is UI and is not modelled.
- No timeouts or retries exist in the source, so none are modelled.

## Findings

| source | as written | input that shows it | evidently intended | confidence | as-written member | corrected member |
|---|---|---|---|---|---|---|
| todo_streamlit_app.py:404-410 | `if success:` tests the truthiness of the dict returned by `update_existing_task` (the same test guards the add at line 295) | Save Changes answered with status 200 and body `{}`: the update succeeds and returns `{}`, which is falsy, so the editor stays open | the comment at line 406 says the function returns the task dict on success and `None` on failure, so the editor should close whenever the result is not `None` | low; not executed; the API is expected to always send a non-empty `task` object | Editing.CloseOnSuccessAsWritten | Editing.CloseOnSuccess |

/** The one piece of session state of the page, `editing_task_id`: the id
    of the task being edited, or `None`. The edit form is drawn under every
    pending task whose id equals it (todo_streamlit_app.py:368). User actions become events of a
    transition function; a rerun of the script is simply the next event. */
module Editing {
  import opened Wrappers
  import opened Json
  import Endpoint
  import Client
  import Partition

  /** The id of the task being edited, or `None` (todo_streamlit_app.py:274-277).
      With `None`, line 368 still draws the form under every pending task
      that has no `taskId`, since `None == None`. */
  type EditState = Option<JsonValue>

  const Initial: EditState := None

  /** `task.get("taskId")`: `None` when the field is missing or null. */
  function TaskKey(t: Partition.Task): Option<JsonValue>
  {
    if "taskId" in t && t["taskId"] != JNull then Some(t["taskId"]) else None
  }

  /** A user action, carrying the value the client operation it triggered
      returned where the page looks at that value. */
  datatype Event =
    | OpenEdit(key: Option<JsonValue>)                // Edit button of a pending task
    | CancelEdit                                      // Cancel Edit button
    | SaveSubmitted(saved: Option<JsonValue>)         // update_existing_task's return value
    | TaskAdded(added: Option<JsonValue>)             // add_new_task's return value
    | Checked(key: Option<JsonValue>, updated: Option<JsonValue>)    // pending task ticked
    | Unchecked(key: Option<JsonValue>, updated: Option<JsonValue>)  // completed task unticked
    | DeletePressed(key: Option<JsonValue>, deleted: Option<bool>)   // Delete button

  /** The page's test `if success:` on an update or add result, as written:
      Python truthiness, so an empty task object `{}` counts as failure. */
  predicate SucceededAsWritten(result: Option<JsonValue>)
  {
    result.Some? && Truthy(result.value)
  }

  /** The intended test: the operation returned a task object, not `None`. */
  predicate Succeeded(result: Option<JsonValue>)
  {
    result.Some?
  }

  /** The state after a save or add, as the page is written: a set state is
      cleared exactly when the result is a truthy value, so `None` and the
      empty task object `{}` both leave it as it was. */
  function CloseOnSuccessAsWritten(s: EditState, result: Option<JsonValue>): (next: EditState)
    ensures next == None || next == s
    ensures s.Some? ==> (next == None <==> result.Some? && Truthy(result.value))
    ensures result.None? || result == Some(JObject(map[])) ==> next == s
  {
    if SucceededAsWritten(result) then None else s
  }

  /** The state after a save or add, with the intended success test: the
      state is cleared exactly when the operation returned a task. */
  function CloseOnSuccess(s: EditState, result: Option<JsonValue>): (next: EditState)
    ensures s.Some? ==> (next == None <==> result.Some?)
    ensures result.None? ==> next == s
  {
    if Succeeded(result) then None else s
  }

  /** Completing, uncompleting or deleting a task first closes the editor if
      it is that task's editor. */
  function CloseIfEditing(s: EditState, key: Option<JsonValue>): EditState
  {
    if s == key then None else s
  }

  /** One step of the session, as the page is written. */
  function Next(s: EditState, e: Event): EditState
  {
    match e
    case OpenEdit(key) => key
    case CancelEdit => None
    case SaveSubmitted(saved) => CloseOnSuccessAsWritten(s, saved)
    case TaskAdded(added) => CloseOnSuccessAsWritten(s, added)
    case Checked(key, _) => CloseIfEditing(s, key)
    case Unchecked(key, _) => CloseIfEditing(s, key)
    case DeletePressed(key, _) => CloseIfEditing(s, key)
  }

  /** One step of the session with the intended success test for saves and
      adds; every other action is as written. */
  function NextCorrected(s: EditState, e: Event): EditState
  {
    match e
    case SaveSubmitted(saved) => CloseOnSuccess(s, saved)
    case TaskAdded(added) => CloseOnSuccess(s, added)
    case _ => Next(s, e)
  }

  /** The corrected step differs from the written one exactly when the state
      is set and a save or add returned a falsy task, such as `{}`. */
  lemma CorrectionOnlyForFalsyTask(s: EditState, e: Event)
    ensures NextCorrected(s, e) != Next(s, e) <==>
      && s.Some?
      && (|| (e.SaveSubmitted? && e.saved.Some? && !Truthy(e.saved.value))
          || (e.TaskAdded? && e.added.Some? && !Truthy(e.added.value)))
  {
  }

  /** A whole session: the events applied in order. */
  function Run(s: EditState, events: seq<Event>): EditState
    decreases |events|
  {
    if events == [] then s else Run(Next(s, events[0]), events[1..])
  }

  /** Opening an editor replaces whatever editor was open. */
  lemma OpenEditReplaces(s: EditState, key: Option<JsonValue>)
    ensures Next(s, OpenEdit(key)) == key
  {
  }

  /** Cancel closes the editor, whichever was open. */
  lemma CancelCloses(s: EditState)
    ensures Next(s, CancelEdit) == None
  {
  }

  /** Ticking a pending task closes the editor exactly when it is that
      task's editor and otherwise changes nothing, whatever the update returned. */
  lemma CompleteClosesOnlyItsEditor(s: EditState, key: Option<JsonValue>, updated: Option<JsonValue>)
    ensures s == key ==> Next(s, Checked(key, updated)) == None
    ensures s != key ==> Next(s, Checked(key, updated)) == s
  {
  }

  /** Unticking a completed task: the same rule as ticking. */
  lemma UncompleteClosesOnlyItsEditor(s: EditState, key: Option<JsonValue>, updated: Option<JsonValue>)
    ensures s == key ==> Next(s, Unchecked(key, updated)) == None
    ensures s != key ==> Next(s, Unchecked(key, updated)) == s
  {
  }

  /** Deleting a task closes its editor before the request is made, so the
      editor is closed whether or not the delete succeeds; other editors stay. */
  lemma DeleteClosesOnlyItsEditor(s: EditState, key: Option<JsonValue>, deleted: Option<bool>)
    ensures s == key ==> Next(s, DeletePressed(key, deleted)) == None
    ensures s != key ==> Next(s, DeletePressed(key, deleted)) == s
    ensures Next(s, DeletePressed(key, deleted)) == Next(s, DeletePressed(key, Some(false)))
  {
  }

  /** What the sidebar form's add yields (todo_streamlit_app.py:290-301): the
      add is attempted only when the client is configured and a title was
      given, and `None` stands for "not attempted". */
  function AddAttempt(endpoint: string, title: string, dueDate: string, reply: Client.Reply): Option<JsonValue>
  {
    if !Endpoint.IsConfigured(endpoint) || title == [] then None
    else Client.AddTask(endpoint, title, dueDate, reply).value
  }

  /** The sidebar form, as written: the add's result is tested for truth. */
  function SubmitNewTask(s: EditState, endpoint: string, title: string, dueDate: string, reply: Client.Reply): EditState
  {
    Next(s, TaskAdded(AddAttempt(endpoint, title, dueDate, reply)))
  }

  /** The sidebar form with the intended success test. */
  function SubmitNewTaskCorrected(s: EditState, endpoint: string, title: string, dueDate: string,
                                  reply: Client.Reply): EditState
  {
    NextCorrected(s, TaskAdded(AddAttempt(endpoint, title, dueDate, reply)))
  }

  /** What Save Changes yields: an update of title and due date. */
  function SaveAttempt(endpoint: string, taskId: string, title: string, dueDate: string,
                       reply: Client.Reply): Option<JsonValue>
  {
    Client.UpdateTask(endpoint, taskId, Some(title), Some(dueDate), None, reply).value
  }

  /** The Save Changes button, as written: the update's result is tested for truth. */
  function SubmitSave(s: EditState, endpoint: string, taskId: string, title: string, dueDate: string,
                      reply: Client.Reply): EditState
  {
    Next(s, SaveSubmitted(SaveAttempt(endpoint, taskId, title, dueDate, reply)))
  }

  /** The Save Changes button with the intended success test. */
  function SubmitSaveCorrected(s: EditState, endpoint: string, taskId: string, title: string, dueDate: string,
                               reply: Client.Reply): EditState
  {
    NextCorrected(s, SaveSubmitted(SaveAttempt(endpoint, taskId, title, dueDate, reply)))
  }

  /** As written, a set state is cleared after Save exactly when the update
      succeeded (configured client, a reply passing the status check with an
      object body whose `task` is an object or missing) and the returned task
      is not empty. Otherwise the state stays as it was. */
  lemma SaveClosesEditorIffUpdated(s: EditState, endpoint: string, taskId: string, title: string, dueDate: string,
                                   reply: Client.Reply)
    requires s.Some?
    ensures var c := Client.UpdateTask(endpoint, taskId, Some(title), Some(dueDate), None, reply);
      var next := SubmitSave(s, endpoint, taskId, title, dueDate, reply);
      && (next == None <==> c.report == Client.Done && c.value.value != JObject(map[]))
      && (next != None ==> next == s)
  {
  }

  /** With the intended test, a set state is cleared after Save exactly when
      the update succeeded, whatever task object it returned. */
  lemma SaveClosesEditorIffUpdatedCorrected(s: EditState, endpoint: string, taskId: string, title: string,
                                            dueDate: string, reply: Client.Reply)
    requires s.Some?
    ensures var c := Client.UpdateTask(endpoint, taskId, Some(title), Some(dueDate), None, reply);
      var next := SubmitSaveCorrected(s, endpoint, taskId, title, dueDate, reply);
      && (next == None <==> c.report == Client.Done)
      && (next != None ==> next == s)
  {
  }

  /** As written, a set state is cleared after the sidebar form exactly when a
      title was given, the add succeeded and the returned task is not empty;
      otherwise it stays as it was. */
  lemma AddClosesEditorIffAdded(s: EditState, endpoint: string, title: string, dueDate: string, reply: Client.Reply)
    requires s.Some?
    ensures var c := Client.AddTask(endpoint, title, dueDate, reply);
      var next := SubmitNewTask(s, endpoint, title, dueDate, reply);
      && (next == None <==> title != [] && c.report == Client.Done && c.value.value != JObject(map[]))
      && (next != None ==> next == s)
  {
  }

  /** With the intended test, a set state is cleared after the sidebar form
      exactly when a title was given and the add succeeded. */
  lemma AddClosesEditorIffAddedCorrected(s: EditState, endpoint: string, title: string, dueDate: string,
                                         reply: Client.Reply)
    requires s.Some?
    ensures var c := Client.AddTask(endpoint, title, dueDate, reply);
      var next := SubmitNewTaskCorrected(s, endpoint, title, dueDate, reply);
      && (next == None <==> title != [] && c.report == Client.Done)
      && (next != None ==> next == s)
  {
  }

  /** Whatever happens in a session, the state is the starting state, `None`,
      or the key of an Edit button pressed during the session. */
  lemma {:induction false} RunStateComesFromOpenEdit(s: EditState, events: seq<Event>)
    ensures var final := Run(s, events);
      final == s || final == None || OpenEdit(final) in events
    decreases |events|
  {
    if events != [] {
      var s1 := Next(s, events[0]);
      RunStateComesFromOpenEdit(s1, events[1..]);
      var final := Run(s, events);
      assert final == Run(s1, events[1..]);
      if final == s1 && final != s && final != None {
        assert events[0] == OpenEdit(final);
      }
      if OpenEdit(final) in events[1..] {
        assert OpenEdit(final) in events;
      }
    }
  }

  /** A fresh session starts with the state `None`; afterwards the state is
      `None` or the id of an Edit button pressed during the session. */
  lemma FreshSessionStateFromOpenEdit(events: seq<Event>)
    ensures Run(Initial, events) == None || OpenEdit(Run(Initial, events)) in events
  {
    RunStateComesFromOpenEdit(Initial, events);
  }

  /** The page draws the edit form under a task when the task is in the
      pending section and its id equals the state (todo_streamlit_app.py:368). */
  predicate EditorShown(s: EditState, t: Partition.Task)
  {
    !Partition.IsCompleted(t) && TaskKey(t) == s
  }

  /** The tasks under which an edit form is drawn, in page order. */
  function OpenEditors(s: EditState, tasks: seq<Partition.Task>): (shown: seq<Partition.Task>)
    ensures forall t :: t in shown <==> t in tasks && EditorShown(s, t)
  {
    if tasks == [] then []
    else (if EditorShown(s, tasks[0]) then [tasks[0]] else []) + OpenEditors(s, tasks[1..])
  }

  /** With the state `None`, as at the start of a session, the form is drawn
      under exactly the pending tasks that have no `taskId`, though no Edit
      button was pressed. */
  lemma UnsetStateShowsIdlessTasks(tasks: seq<Partition.Task>)
    ensures forall t :: t in OpenEditors(Initial, tasks) <==> t in Partition.PendingTasks(tasks) && TaskKey(t) == None
  {
  }

  /** Every drawn edit form belongs to a pending task carrying the state's
      id, so all open forms share one id: at most one task id has an open
      editor. With the state `None`, only tasks lacking a `taskId` get one. */
  lemma EditorsShareOneId(s: EditState, tasks: seq<Partition.Task>)
    ensures forall t :: t in OpenEditors(s, tasks) ==> t in Partition.PendingTasks(tasks) && TaskKey(t) == s
    ensures forall a, b :: a in OpenEditors(s, tasks) && b in OpenEditors(s, tasks) ==> TaskKey(a) == TaskKey(b)
  {
  }

  /** When the edited task is gone from the fetched list, or is now completed,
      no edit form is drawn; the state itself is kept. */
  lemma StaleStateShowsNoEditor(s: EditState, tasks: seq<Partition.Task>)
    requires forall t :: t in Partition.PendingTasks(tasks) ==> TaskKey(t) != s
    ensures OpenEditors(s, tasks) == []
  {
  }

  /** A reply that passes the status check with the JSON body `{}`. */
  const EmptyObjectReply: Client.Reply := Client.Responded(Client.Response(200, Client.Parsed(JObject(map[])), "{}"))

  /** As written, a save the server accepted with a body lacking `task`
      leaves the editor open: the update returns `{}`, which is falsy. */
  lemma AcceptedSaveKeepsEditorAsWritten()
    ensures var c := Client.UpdateTask(Endpoint.DefaultEndpoint, "1", Some("Buy milk"), Some("2024-01-01"), None, EmptyObjectReply);
      && c.report == Client.Done
      && c.value == Some(JObject(map[]))
      && CloseOnSuccessAsWritten(Some(JStr("1")), c.value) == Some(JStr("1"))
      && CloseOnSuccess(Some(JStr("1")), c.value) == None
      && SubmitSave(Some(JStr("1")), Endpoint.DefaultEndpoint, "1", "Buy milk", "2024-01-01", EmptyObjectReply) == Some(JStr("1"))
      && SubmitSaveCorrected(Some(JStr("1")), Endpoint.DefaultEndpoint, "1", "Buy milk", "2024-01-01", EmptyObjectReply) == None
  {
    Endpoint.DefaultEndpointConfigured();
  }
}

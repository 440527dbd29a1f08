/** The four remote operations of the to-do client (list, add, update,
    delete) as pure functions. The network is a parameter: `Reply` is what the
    HTTP library would hand back if a request were made, and each operation
    returns the request it actually issued (if any), its Python return value and
    what it reported to the user. */
module Client {
  import opened Wrappers
  import opened Json
  import Endpoint

  datatype Verb = Get | Post | Put | Delete

  /** An HTTP request: verb, URL and optional JSON payload. */
  datatype Request = Request(verb: Verb, url: string, payload: Option<JsonValue>)

  /** The body of a response as `response.json()` sees it. */
  datatype Body = Parsed(json: JsonValue) | NotJson

  /** A response: status code, decoded body and raw text (`response.text`). */
  datatype Response = Response(status: int, body: Body, text: string)

  /** What the HTTP library gives back: no response at all (connection
      error) or a response. */
  datatype Reply = NoResponse | Responded(response: Response)

  /** What an operation shows the user. */
  datatype Report =
    | Done                           // success, no message modelled
    | Confirmed(message: JsonValue)  // delete succeeded; the server's message
    | NotConfigured                  // the endpoint failed the configured check
    | NoChanges                      // update called with nothing to change
    | FetchFailed                    // listing hit a request error
    | RequestFailed(detail: JsonValue) // a request error, with the extracted detail
    | InvalidJson                    // add: the body was not JSON
    | Malformed                      // add: the JSON had an unexpected shape
    | Unexpected                     // any other exception

  /** The outcome of one operation: the request issued (if any), the value
      the Python function returns, and the report. */
  datatype Call<T> = Call(request: Option<Request>, value: T, report: Report)

  const NoDetails: string := "No additional details."

  /** `raise_for_status()` raises for 4xx and 5xx codes. */
  predicate IsHttpError(status: int)
  {
    400 <= status < 600
  }

  /** The URL of one task: the endpoint, a slash, and the id. */
  function TaskUrl(endpoint: string, taskId: string): string
  {
    endpoint + "/" + taskId
  }

  /** The response body when it decoded to a JSON object. */
  function ObjectBody(r: Response): Option<Dict>
  {
    if r.body.Parsed? && r.body.json.JObject? then Some(r.body.json.fields) else None
  }

  /** A reply that passes `raise_for_status()` and whose body decodes to an object. */
  predicate IsObjectSuccess(reply: Reply)
  {
    reply.Responded? && !IsHttpError(reply.response.status) && ObjectBody(reply.response).Some?
  }

  /** A reply to an add or update that hands back a task: it passes the
      status check, its body is an object, and that object's `task` is an
      object or missing (`{}` is used then). */
  predicate TaskAccepted(reply: Reply)
  {
    IsObjectSuccess(reply) && GetOr(ObjectBody(reply.response).value, "task", JObject(map[])).JObject?
  }

  /** The error detail shown after a request error: the body's `Message`
      field, else its `message` field, else the raw response text; the raw
      text when the body is not JSON or not an object; and a fixed sentence
      when no response exists. It never fails. */
  function ErrorDetail(reply: Reply): (detail: JsonValue)
    ensures reply.NoResponse? ==> detail == JStr(NoDetails)
    ensures reply.Responded? && ObjectBody(reply.response).None? ==> detail == JStr(reply.response.text)
    ensures reply.Responded? && ObjectBody(reply.response).Some? ==>
      var fields := ObjectBody(reply.response).value;
      && ("Message" in fields ==> detail == fields["Message"])
      && ("Message" !in fields && "message" in fields ==> detail == fields["message"])
      && ("Message" !in fields && "message" !in fields ==> detail == JStr(reply.response.text))
  {
    match reply
    case NoResponse => JStr(NoDetails)
    case Responded(r) =>
      match ObjectBody(r)
      case Some(fields) => GetOr(fields, "Message", GetOr(fields, "message", JStr(r.text)))
      case None => JStr(r.text)
  }

  /** Whatever the reply, the detail is a value of the body's object, the raw
      response text, or the fixed no-details sentence. */
  lemma ErrorDetailDrawnFromReply(reply: Reply)
    ensures var detail := ErrorDetail(reply);
      || detail == JStr(NoDetails)
      || (reply.Responded? && detail == JStr(reply.response.text))
      || (reply.Responded? && ObjectBody(reply.response).Some? && detail in ObjectBody(reply.response).value.Values)
  {
  }

  /** `get_all_tasks()`. An unconfigured client returns `[]` without a
      request; otherwise it issues one GET and returns the body's `tasks`
      value, or `[]` when that key is missing or anything fails. */
  function ListTasks(endpoint: string, reply: Reply): (c: Call<JsonValue>)
    ensures !Endpoint.IsConfigured(endpoint) ==> c == Call(None, JArray([]), NotConfigured)
    ensures Endpoint.IsConfigured(endpoint) ==> c.request == Some(Request(Get, endpoint, None))
    ensures c.report == Done <==> Endpoint.IsConfigured(endpoint) && IsObjectSuccess(reply)
    ensures c.report == Done ==>
      var fields := ObjectBody(reply.response).value;
      && ("tasks" in fields ==> c.value == fields["tasks"])
      && ("tasks" !in fields ==> c.value == JArray([]))
    ensures c.report != Done ==> c.value == JArray([])
  {
    if !Endpoint.IsConfigured(endpoint) then
      Call(None, JArray([]), NotConfigured)
    else
      var request := Some(Request(Get, endpoint, None));
      match reply
      case NoResponse => Call(request, JArray([]), FetchFailed)
      case Responded(r) =>
        if IsHttpError(r.status) || r.body.NotJson? then
          // raise_for_status() and the JSON decode error are both request errors
          Call(request, JArray([]), FetchFailed)
        else if r.body.json.JObject? then
          Call(request, GetOr(r.body.json.fields, "tasks", JArray([])), Done)
        else
          // `.get` on a non-object raises AttributeError
          Call(request, JArray([]), Unexpected)
  }

  /** `add_new_task(title, due_date)`. The body is decoded before the status
      is checked, so a non-JSON body is reported as such even on an error
      status. On success the value is the body's `task` object (`{}` when the
      key is missing); a body or `task` value that is not an object makes a
      `.get` raise, which is reported as a malformed response. */
  function AddTask(endpoint: string, title: string, dueDate: string, reply: Reply): (c: Call<Option<JsonValue>>)
    ensures !Endpoint.IsConfigured(endpoint) ==> c == Call(None, None, NotConfigured)
    ensures Endpoint.IsConfigured(endpoint) ==>
      c.request == Some(Request(Post, endpoint, Some(JObject(map["title" := JStr(title), "dueDate" := JStr(dueDate)]))))
    ensures c.value.Some? <==> c.report == Done
    ensures c.report == Done <==> Endpoint.IsConfigured(endpoint) && TaskAccepted(reply)
    ensures c.value.Some? ==>
      && c.value.value.JObject?
      && c.value.value == GetOr(ObjectBody(reply.response).value, "task", JObject(map[]))
    ensures Endpoint.IsConfigured(endpoint) && IsObjectSuccess(reply) && !TaskAccepted(reply) ==>
      c == Call(c.request, None, Malformed)
    ensures Endpoint.IsConfigured(endpoint) && reply.Responded? && reply.response.body.NotJson? ==> c.report == InvalidJson
    ensures Endpoint.IsConfigured(endpoint) && reply.Responded? && reply.response.body.Parsed? && IsHttpError(reply.response.status) ==>
      c.report == RequestFailed(ErrorDetail(reply))
    ensures (Endpoint.IsConfigured(endpoint) && reply.Responded? && reply.response.body.Parsed? &&
             !IsHttpError(reply.response.status) && !reply.response.body.json.JObject?) ==>
      c == Call(c.request, None, Malformed)
    ensures Endpoint.IsConfigured(endpoint) && reply.NoResponse? ==> c.report == RequestFailed(JStr(NoDetails))
  {
    if !Endpoint.IsConfigured(endpoint) then
      Call(None, None, NotConfigured)
    else
      var payload := JObject(map["title" := JStr(title), "dueDate" := JStr(dueDate)]);
      var request := Some(Request(Post, endpoint, Some(payload)));
      match reply
      case NoResponse => Call(request, None, RequestFailed(ErrorDetail(reply)))
      case Responded(r) =>
        match r.body
        case NotJson => Call(request, None, InvalidJson)
        case Parsed(json) =>
          if IsHttpError(r.status) then
            Call(request, None, RequestFailed(ErrorDetail(reply)))
          else if json.JObject? then
            var task := GetOr(json.fields, "task", JObject(map[]));
            if task.JObject? then Call(request, Some(task), Done) else Call(request, None, Malformed)
          else
            Call(request, None, Malformed)
  }

  /** The update payload: one entry per argument that is not `None`, under
      the keys `title`, `dueDate` and `completed`. */
  function BuildPayload(title: Option<string>, dueDate: Option<string>, completed: Option<bool>): (p: Dict)
    ensures "title" in p <==> title.Some?
    ensures "dueDate" in p <==> dueDate.Some?
    ensures "completed" in p <==> completed.Some?
    ensures p.Keys <= {"title", "dueDate", "completed"}
    ensures title.Some? ==> p["title"] == JStr(title.value)
    ensures dueDate.Some? ==> p["dueDate"] == JStr(dueDate.value)
    ensures completed.Some? ==> p["completed"] == JBool(completed.value)
  {
    var withTitle: Dict := if title.Some? then map["title" := JStr(title.value)] else map[];
    var withDue := if dueDate.Some? then withTitle["dueDate" := JStr(dueDate.value)] else withTitle;
    if completed.Some? then withDue["completed" := JBool(completed.value)] else withDue
  }

  /** The text field of a payload entry, when it holds a string. */
  function StringField(p: Dict, key: string): Option<string>
  {
    if key in p && p[key].JStr? then Some(p[key].s) else None
  }

  /** The boolean field of a payload entry, when it holds a boolean. */
  function BoolField(p: Dict, key: string): Option<bool>
  {
    if key in p && p[key].JBool? then Some(p[key].b) else None
  }

  /** Reading the payload back recovers exactly the arguments it was built
      from, `completed=False` included. */
  lemma PayloadRoundTrip(title: Option<string>, dueDate: Option<string>, completed: Option<bool>)
    ensures var p := BuildPayload(title, dueDate, completed);
      StringField(p, "title") == title && StringField(p, "dueDate") == dueDate && BoolField(p, "completed") == completed
  {
  }

  /** The payload is empty exactly when all three arguments are `None`. */
  lemma PayloadEmptyIff(title: Option<string>, dueDate: Option<string>, completed: Option<bool>)
    ensures BuildPayload(title, dueDate, completed) == map[] <==> title.None? && dueDate.None? && completed.None?
  {
  }

  /** `update_existing_task(task_id, title, due_date, completed)`. No request
      is made when the client is unconfigured or when the payload is empty;
      otherwise one PUT to the task's URL carries the payload. On success the
      value is the body's `task` object (`{}` when the key is missing). */
  function UpdateTask(endpoint: string, taskId: string, title: Option<string>, dueDate: Option<string>,
                      completed: Option<bool>, reply: Reply): (c: Call<Option<JsonValue>>)
    ensures !Endpoint.IsConfigured(endpoint) ==> c == Call(None, None, NotConfigured)
    ensures Endpoint.IsConfigured(endpoint) && title.None? && dueDate.None? && completed.None? ==>
      c == Call(None, None, NoChanges)
    ensures c.request.Some? <==> Endpoint.IsConfigured(endpoint) && (title.Some? || dueDate.Some? || completed.Some?)
    ensures c.request.Some? ==>
      c.request.value == Request(Put, TaskUrl(endpoint, taskId), Some(JObject(BuildPayload(title, dueDate, completed))))
    ensures c.value.Some? <==> c.report == Done
    ensures c.report == Done <==> c.request.Some? && TaskAccepted(reply)
    ensures c.value.Some? ==>
      && c.value.value.JObject?
      && c.value.value == GetOr(ObjectBody(reply.response).value, "task", JObject(map[]))
    ensures c.request.Some? && reply.Responded? && !IsHttpError(reply.response.status) && !TaskAccepted(reply) &&
            reply.response.body.Parsed? ==>
      c == Call(c.request, None, Unexpected)
    ensures c.request.Some? && (reply.NoResponse? || IsHttpError(reply.response.status) || reply.response.body.NotJson?) ==>
      c.report == RequestFailed(ErrorDetail(reply))
  {
    if !Endpoint.IsConfigured(endpoint) then
      Call(None, None, NotConfigured)
    else
      var payload := BuildPayload(title, dueDate, completed);
      PayloadEmptyIff(title, dueDate, completed);
      if payload == map[] then
        Call(None, None, NoChanges)
      else
        var request := Some(Request(Put, TaskUrl(endpoint, taskId), Some(JObject(payload))));
        match reply
        case NoResponse => Call(request, None, RequestFailed(ErrorDetail(reply)))
        case Responded(r) =>
          if IsHttpError(r.status) || r.body.NotJson? then
            Call(request, None, RequestFailed(ErrorDetail(reply)))
          else if r.body.json.JObject? then
            var task := GetOr(r.body.json.fields, "task", JObject(map[]));
            // `.get("title", ...)` on a non-object task raises AttributeError
            if task.JObject? then Call(request, Some(task), Done) else Call(request, None, Unexpected)
          else
            Call(request, None, Unexpected)
  }

  /** `delete_existing_task(task_id)`. Returns `None` (no request) when
      unconfigured, `True` when the DELETE passes the status check and its
      body decodes to an object, and `False` on every other outcome. */
  function DeleteTask(endpoint: string, taskId: string, reply: Reply): (c: Call<Option<bool>>)
    ensures !Endpoint.IsConfigured(endpoint) ==> c.request.None? && c.value.None?
    ensures Endpoint.IsConfigured(endpoint) ==> c.request == Some(Request(Delete, TaskUrl(endpoint, taskId), None)) && c.value.Some?
    ensures c.value == Some(true) <==> Endpoint.IsConfigured(endpoint) && IsObjectSuccess(reply)
    ensures c.value == Some(true) ==>
      c.report == Confirmed(GetOr(ObjectBody(reply.response).value, "message",
                                  JStr("Task '" + taskId + "' deleted successfully!")))
    ensures c.request.Some? && (reply.NoResponse? || IsHttpError(reply.response.status) || reply.response.body.NotJson?) ==>
      c == Call(c.request, Some(false), RequestFailed(ErrorDetail(reply)))
  {
    if !Endpoint.IsConfigured(endpoint) then
      Call(None, None, NotConfigured)
    else
      var request := Some(Request(Delete, TaskUrl(endpoint, taskId), None));
      match reply
      case NoResponse => Call(request, Some(false), RequestFailed(ErrorDetail(reply)))
      case Responded(r) =>
        if IsHttpError(r.status) || r.body.NotJson? then
          Call(request, Some(false), RequestFailed(ErrorDetail(reply)))
        else if r.body.json.JObject? then
          var message := GetOr(r.body.json.fields, "message", JStr("Task '" + taskId + "' deleted successfully!"));
          Call(request, Some(true), Confirmed(message))
        else
          Call(request, Some(false), Unexpected)
  }
}

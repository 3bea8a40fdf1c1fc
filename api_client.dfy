/**
 * The bot's HTTP client for the backend: the per-user headers, the lazily
 * created connection and its `close`, the requests each call sends, the
 * conditional `create_task` payload and the unwrapping of list responses.
 * The transport is a parameter: `respond` gives the server's answer to a
 * request.
 */
module ApiClient {
  import opened Common
  import opened Text
  import opened Json
  import opened Tenancy
  import opened Fields
  import opened TaskSerializers

  const ContentType := "application/json"

  /** An open connection pool: the base URL and the default headers it was made with. */
  datatype Connection = Connection(baseUrl: string, headers: map<string, string>)

  datatype Verb = GET | POST | PATCH | DELETE

  /** A request as sent: method, path below the base URL, and an optional JSON body. */
  datatype Request = Request(verb: Verb, path: string, body: Option<Json>)

  datatype HttpResponse = HttpResponse(status: int, body: Json)

  /**
   * httpx's `response.raise_for_status()` then `response.json()`: every
   * status outside 2xx becomes an error, informational and redirect
   * statuses included (the client does not follow redirects).
   */
  function Checked(r: HttpResponse): (out: Result<Json, int>)
    ensures out.Ok? <==> 200 <= r.status < 300
    ensures out.Ok? ==> out.value == r.body
    ensures out.Err? ==> out.error == r.status
  {
    if 200 <= r.status < 300 then Ok(r.body) else Err(r.status)
  }

  /**
   * `data.get("results", data) if isinstance(data, dict) else data`: a
   * paginated object yields its results, an object without them is kept,
   * and anything else (a bare list) is kept.
   */
  function UnwrapList(data: Json): (r: Json)
    ensures data.JObject? && "results" in data.fields ==> r == data.fields["results"]
    ensures data.JObject? && "results" !in data.fields ==> r == data
    ensures !data.JObject? ==> r == data
  {
    match data
    case JObject(fields) => Get(fields, "results", data)
    case _ => data
  }

  /**
   * The body of `create_task`: the title and the description always, the
   * category key and the due date only when they are given and truthy.
   * Absent optional arguments are `JNull`.
   */
  function CreateTaskPayload(title: Json, description: Json, categoryId: Json, dueDate: Json): (p: map<string, Json>)
    ensures "title" in p && p["title"] == title
    ensures "description" in p && p["description"] == description
    ensures "category" in p <==> Truthy(categoryId)
    ensures "category" in p ==> p["category"] == categoryId
    ensures "due_date" in p <==> Truthy(dueDate)
    ensures "due_date" in p ==> p["due_date"] == dueDate
    ensures forall k :: k in p ==> k == "title" || k == "description" || k == "category" || k == "due_date"
  {
    var base := map["title" := title, "description" := description];
    var withCategory := if Truthy(categoryId) then base["category" := categoryId] else base;
    if Truthy(dueDate) then withCategory["due_date" := dueDate] else withCategory
  }

  /**
   * What the server's create serializer makes of the client's payload: the
   * title it sees is the one given; without a (truthy) category or due date
   * the task gets none; title and description arrive stripped.
   */
  lemma ClientPayloadValidation(title: string, description: string, categoryId: Json, dueDate: Json,
                                cs: seq<Models.Category>, tid: int)
    ensures var data := CreateTaskPayload(JStr(title), JStr(description), categoryId, dueDate);
      var v := ValidateCreate(data, cs, Some(tid));
      && CreateTitle(data) == CharValue(JStr(title), false, Some(Models.TitleMaxLength))
      && (v.Ok? ==> v.value.title == Strip(title) && v.value.description == Strip(description))
      && (v.Ok? && !Truthy(categoryId) ==> v.value.category == None)
      && (v.Ok? && !Truthy(dueDate) ==> v.value.dueDate == None)
  {
    var data := CreateTaskPayload(JStr(title), JStr(description), categoryId, dueDate);
    assert TitleKey.Name() == "title" && DescriptionKey.Name() == "description";
    var v := ValidateCreate(data, cs, Some(tid));
    if v.Ok? {
      assert v.value.title == CreateTitle(data).value;
      assert v.value.description == CreateDescription(data).value;
      if !Truthy(categoryId) {
        assert Lookup(data, "category") == None;
      }
      if !Truthy(dueDate) {
        assert "due_date" !in data;
      }
    }
  }

  /** `headers`: the user's id as decimal text, and the JSON content type. */
  function Headers(telegramId: int): (h: map<string, string>)
    ensures TelegramIdHeader in h && h[TelegramIdHeader] == IntToString(telegramId)
    ensures "Content-Type" in h && h["Content-Type"] == ContentType
    ensures forall k :: k in h ==> k == TelegramIdHeader || k == "Content-Type"
  {
    map[TelegramIdHeader := IntToString(telegramId), "Content-Type" := ContentType]
  }

  /** The backend reads the client's header back as the client's own user. */
  lemma HeadersIdentifyUser(telegramId: int)
    ensures GetTelegramId(Some(Headers(telegramId)[TelegramIdHeader])) == Some(telegramId)
  {
    ClientHeaderIdentifies(telegramId);
  }

  /** The server's answer to a request through the connection a user's client opens. */
  function Answer(telegramId: int, baseUrl: string, respond: (Connection, Request) -> HttpResponse, request: Request): Result<Json, int> {
    Checked(respond(Connection(baseUrl, Headers(telegramId)), request))
  }

  /** A list call: the checked answer, unwrapped. */
  function ListAnswer(telegramId: int, baseUrl: string, respond: (Connection, Request) -> HttpResponse, path: string): (r: Result<Json, int>)
    ensures r.Err? <==> Answer(telegramId, baseUrl, respond, Request(GET, path, None)).Err?
    ensures r.Err? ==> r == Answer(telegramId, baseUrl, respond, Request(GET, path, None))
    ensures r.Ok? ==> r.value == UnwrapList(Answer(telegramId, baseUrl, respond, Request(GET, path, None)).value)
  {
    var a := Answer(telegramId, baseUrl, respond, Request(GET, path, None));
    if a.Ok? then Ok(UnwrapList(a.value)) else a
  }

  /** `f"/tasks/{task_id}/"` */
  function TaskPath(taskId: string): string {
    "/tasks/" + taskId + "/"
  }

  class APIClient {
    const telegramId: int
    const baseUrl: string
    var client: Option<Connection>
    /** How many connections this client has opened so far. */
    ghost var connections: nat
    /** The requests sent through this client, oldest first. */
    ghost var sent: seq<Request>

    /** `APIClient(telegram_id)`, with the configured base URL as a parameter. */
    constructor (telegramId: int, baseUrl: string)
      ensures this.telegramId == telegramId && this.baseUrl == baseUrl
      ensures Valid() && client == None && connections == 0 && sent == []
    {
      this.telegramId := telegramId;
      this.baseUrl := baseUrl;
      client := None;
      connections := 0;
      sent := [];
    }

    /** An open connection carries this client's base URL and headers. */
    ghost predicate Valid()
      reads this
    {
      client.Some? ==> client.value == Connection(baseUrl, Headers(telegramId))
    }

    /** `_get_client`: the open connection, or a new one when there is none. */
    method GetClient() returns (c: Connection)
      requires Valid()
      modifies this
      ensures Valid() && c == Connection(baseUrl, Headers(telegramId)) && client == Some(c) && sent == old(sent)
      ensures old(client).Some? ==> connections == old(connections)
      ensures old(client).None? ==> connections == old(connections) + 1
    {
      if client.None? {
        client := Some(Connection(baseUrl, Headers(telegramId)));
        connections := connections + 1;
      }
      c := client.value;
    }

    /** `close`: drops the open connection; with none open it does nothing. */
    method Close()
      modifies this
      ensures Valid() && client == None && connections == old(connections) && sent == old(sent)
    {
      if client.Some? {
        client := None;
      }
    }

    /** Sends one request through the (possibly new) connection and checks its status. */
    method Send(request: Request, respond: (Connection, Request) -> HttpResponse) returns (out: Result<Json, int>)
      requires Valid()
      modifies this
      ensures Valid() && client.Some? && sent == old(sent) + [request]
      ensures old(client).Some? ==> connections == old(connections)
      ensures old(client).None? ==> connections == old(connections) + 1
      ensures out == Answer(telegramId, baseUrl, respond, request)
    {
      var c := GetClient();
      sent := sent + [request];
      out := Checked(respond(c, request));
    }

    method GetTasks(respond: (Connection, Request) -> HttpResponse) returns (out: Result<Json, int>)
      requires Valid()
      modifies this
      ensures Valid() && sent == old(sent) + [Request(GET, "/tasks/", None)]
      ensures out == ListAnswer(telegramId, baseUrl, respond, "/tasks/")
    {
      var r := Send(Request(GET, "/tasks/", None), respond);
      out := if r.Ok? then Ok(UnwrapList(r.value)) else r;
    }

    method GetTask(taskId: string, respond: (Connection, Request) -> HttpResponse) returns (out: Result<Json, int>)
      requires Valid()
      modifies this
      ensures Valid() && sent == old(sent) + [Request(GET, TaskPath(taskId), None)]
      ensures out == Answer(telegramId, baseUrl, respond, Request(GET, TaskPath(taskId), None))
    {
      out := Send(Request(GET, TaskPath(taskId), None), respond);
    }

    method CreateTask(title: Json, description: Json, categoryId: Json, dueDate: Json,
                      respond: (Connection, Request) -> HttpResponse) returns (out: Result<Json, int>)
      requires Valid()
      modifies this
      ensures var request := Request(POST, "/tasks/", Some(JObject(CreateTaskPayload(title, description, categoryId, dueDate))));
        Valid() && sent == old(sent) + [request] && out == Answer(telegramId, baseUrl, respond, request)
    {
      var payload := BuildCreateTaskPayload(title, description, categoryId, dueDate);
      out := Send(Request(POST, "/tasks/", Some(JObject(payload))), respond);
    }

    method UpdateTask(taskId: string, data: map<string, Json>, respond: (Connection, Request) -> HttpResponse)
      returns (out: Result<Json, int>)
      requires Valid()
      modifies this
      ensures var request := Request(PATCH, TaskPath(taskId), Some(JObject(data)));
        Valid() && sent == old(sent) + [request] && out == Answer(telegramId, baseUrl, respond, request)
    {
      out := Send(Request(PATCH, TaskPath(taskId), Some(JObject(data))), respond);
    }

    method DeleteTask(taskId: string, respond: (Connection, Request) -> HttpResponse) returns (out: Result<(), int>)
      requires Valid()
      modifies this
      ensures var request := Request(DELETE, TaskPath(taskId), None);
        var r := Answer(telegramId, baseUrl, respond, request);
        Valid() && sent == old(sent) + [request] && out == if r.Ok? then Ok(()) else Err(r.error)
    {
      var r := Send(Request(DELETE, TaskPath(taskId), None), respond);
      out := if r.Ok? then Ok(()) else Err(r.error);
    }

    /** `complete_task`: a partial update whose body sets only `is_completed` to true. */
    method CompleteTask(taskId: string, respond: (Connection, Request) -> HttpResponse) returns (out: Result<Json, int>)
      requires Valid()
      modifies this
      ensures var request := Request(PATCH, TaskPath(taskId), Some(JObject(map["is_completed" := JBool(true)])));
        Valid() && sent == old(sent) + [request] && out == Answer(telegramId, baseUrl, respond, request)
    {
      out := UpdateTask(taskId, map["is_completed" := JBool(true)], respond);
    }

    method GetCategories(respond: (Connection, Request) -> HttpResponse) returns (out: Result<Json, int>)
      requires Valid()
      modifies this
      ensures Valid() && sent == old(sent) + [Request(GET, "/categories/", None)]
      ensures out == ListAnswer(telegramId, baseUrl, respond, "/categories/")
    {
      var r := Send(Request(GET, "/categories/", None), respond);
      out := if r.Ok? then Ok(UnwrapList(r.value)) else r;
    }

    method CreateCategory(name: string, respond: (Connection, Request) -> HttpResponse) returns (out: Result<Json, int>)
      requires Valid()
      modifies this
      ensures var request := Request(POST, "/categories/", Some(JObject(map["name" := JStr(name)])));
        Valid() && sent == old(sent) + [request] && out == Answer(telegramId, baseUrl, respond, request)
    {
      out := Send(Request(POST, "/categories/", Some(JObject(map["name" := JStr(name)]))), respond);
    }
  }

  /** `get_api_client`: a new client for the user, not yet connected. */
  method GetApiClient(telegramId: int, baseUrl: string) returns (c: APIClient)
    ensures fresh(c) && c.Valid() && c.telegramId == telegramId && c.baseUrl == baseUrl
    ensures c.client == None && c.sent == []
  {
    c := new APIClient(telegramId, baseUrl);
  }

  /** `create_task`'s payload, built as the source builds it: a dictionary with keys added conditionally. */
  method BuildCreateTaskPayload(title: Json, description: Json, categoryId: Json, dueDate: Json)
    returns (payload: map<string, Json>)
    ensures payload == CreateTaskPayload(title, description, categoryId, dueDate)
  {
    payload := map["title" := title, "description" := description];
    if Truthy(categoryId) {
      payload := payload["category" := categoryId];
    }
    if Truthy(dueDate) {
      payload := payload["due_date" := dueDate];
    }
  }
}

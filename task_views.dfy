/**
 * The task endpoints: the per-user queryset with its two query filters,
 * the choice of serializer per action, `create` with the header check, the
 * `complete` and `uncomplete` actions and the partial update the bot's
 * client uses. A response is its status code and its body.
 */
module TaskViews {
  import opened Common
  import opened Text
  import opened Json
  import opened DateTimes
  import opened Sorting
  import opened Models
  import opened Store
  import opened Tenancy
  import opened Fields
  import opened TaskSerializers
  import opened Responses

  const NoTaskMatches := "No Task matches the given query."

  /** The two query parameters `get_queryset` reads. */
  datatype QueryParams = QueryParams(isCompleted: Option<string>, category: Option<string>)

  /**
   * The two query filters: `is_completed` equal to whether the parameter
   * reads "true" in any case when the parameter is given, and the given
   * category when that parameter is non-empty.
   */
  predicate PassesFilters(q: QueryParams, t: Task) {
    && (q.isCompleted.Some? ==> t.isCompleted == (Lower(q.isCompleted.value) == "true"))
    && (q.category.Some? && q.category.value != "" ==> t.category == Some(q.category.value))
  }

  /** Whether the queryset of user `tid` keeps `t`: the user's own task, through both filters. */
  predicate InQueryset(tid: int, q: QueryParams, t: Task) {
    t.telegramId == tid && PassesFilters(q, t)
  }

  function Selects(tid: int, q: QueryParams): Task -> bool {
    t => InQueryset(tid, q, t)
  }

  /**
   * `get_queryset()`: nothing without a usable header; otherwise exactly
   * the rows the filters keep, each once, newest first.
   */
  function TaskQueryset(ts: seq<Task>, header: Option<string>, q: QueryParams): (r: seq<Task>)
    ensures GetTelegramId(header).None? ==> r == []
    ensures GetTelegramId(header).Some? ==>
      && (forall i :: 0 <= i < |r| ==> r[i] in ts && InQueryset(GetTelegramId(header).value, q, r[i]))
      && (forall k :: 0 <= k < |ts| && InQueryset(GetTelegramId(header).value, q, ts[k]) ==> ts[k] in r)
      && multiset(r) == multiset(Filter(ts, Selects(GetTelegramId(header).value, q)))
    ensures SortedBy(r, NewerFirst)
  {
    match GetTelegramId(header)
    case None => []
    case Some(tid) =>
      var f := Filter(ts, Selects(tid, q));
      var r := NewestFirst(f);
      SameElements(f, r);
      r
  }

  /** Two parameter sets that keep the same rows give the same queryset. */
  lemma {:induction false} SameSelection(ts: seq<Task>, header: Option<string>, q1: QueryParams, q2: QueryParams)
    requires forall t: Task :: PassesFilters(q1, t) == PassesFilters(q2, t)
    ensures TaskQueryset(ts, header, q1) == TaskQueryset(ts, header, q2)
  {
    if GetTelegramId(header).Some? {
      var tid := GetTelegramId(header).value;
      assert forall i :: 0 <= i < |ts| ==> Selects(tid, q1)(ts[i]) == Selects(tid, q2)(ts[i]);
      FilterCongruent(ts, Selects(tid, q1), Selects(tid, q2));
    }
  }

  /**
   * Only "true", in any mix of cases, selects the completed tasks: every
   * other value of `is_completed` ("1", "yes", "False", "") selects the
   * open ones.
   */
  lemma OtherCompletionValuesSelectOpen(ts: seq<Task>, header: Option<string>, p: string, category: Option<string>)
    requires Lower(p) != "true"
    ensures TaskQueryset(ts, header, QueryParams(Some(p), category))
         == TaskQueryset(ts, header, QueryParams(Some("false"), category))
  {
    assert Lower("false") == "false";
    SameSelection(ts, header, QueryParams(Some(p), category), QueryParams(Some("false"), category));
  }

  lemma CompletionValueIgnoresCase(ts: seq<Task>, header: Option<string>, category: Option<string>)
    ensures TaskQueryset(ts, header, QueryParams(Some("TRUE"), category))
         == TaskQueryset(ts, header, QueryParams(Some("true"), category))
  {
    assert Lower("TRUE") == "true" && Lower("true") == "true";
    SameSelection(ts, header, QueryParams(Some("TRUE"), category), QueryParams(Some("true"), category));
  }

  /** An empty `category` parameter filters nothing. */
  lemma EmptyCategoryFiltersNothing(ts: seq<Task>, header: Option<string>, isCompleted: Option<string>)
    ensures TaskQueryset(ts, header, QueryParams(isCompleted, Some("")))
         == TaskQueryset(ts, header, QueryParams(isCompleted, None))
  {
    SameSelection(ts, header, QueryParams(isCompleted, Some("")), QueryParams(isCompleted, None));
  }

  /** Users see disjoint querysets: no row is listed for two different headers. */
  lemma QuerysetsOfUsersDisjoint(ts: seq<Task>, h1: Option<string>, h2: Option<string>, q1: QueryParams, q2: QueryParams, t: Task)
    requires GetTelegramId(h1) != GetTelegramId(h2)
    requires t in TaskQueryset(ts, h1, q1)
    ensures t !in TaskQueryset(ts, h2, q2)
  {
    var r1 := TaskQueryset(ts, h1, q1);
    var i :| 0 <= i < |r1| && r1[i] == t;
  }

  // ---------------------------------------------------------------------------
  // Serializer choice
  // ---------------------------------------------------------------------------

  datatype SerializerKind = ListSerializer | CreateSerializer | FullSerializer

  /** `get_serializer_class()`: by the router's action name. */
  function SerializerClass(action: string): (k: SerializerKind)
    ensures k == ListSerializer <==> action == "list"
    ensures k == CreateSerializer <==> action == "create"
    ensures k == FullSerializer <==> action != "list" && action != "create"
  {
    if action == "list" then ListSerializer
    else if action == "create" then CreateSerializer
    else FullSerializer
  }

  // ---------------------------------------------------------------------------
  // create
  // ---------------------------------------------------------------------------

  /**
   * `create()`: a request without a usable header is refused before the
   * body is read; an invalid body is refused with its field errors; a
   * valid one is saved under the header's user and echoed through the full
   * serializer. A user id outside the column's 64-bit range makes the
   * insert fail. `newId` is the key the database assigns and `now` the
   * save time.
   */
  method Create(db: Database, header: Option<string>, data: map<string, Json>, newId: Id, now: DateTime)
    returns (response: Response)
    requires db.Valid() && Valid(now)
    requires forall k :: 0 <= k < |db.tasks| ==> db.tasks[k].id != newId
    modifies db
    ensures db.Valid() && db.categories == old(db.categories)
    ensures GetTelegramId(header).None? ==>
      response == Response(400, ErrorBody(HeaderRequired)) && db.tasks == old(db.tasks)
    ensures GetTelegramId(header).Some? ==>
      var tid := GetTelegramId(header).value;
      var v := ValidateCreate(data, old(db.categories), Some(tid));
      && (v.Err? ==> response == Response(400, ErrorsBody(v.error)) && db.tasks == old(db.tasks))
      && (v.Ok? && !IsBigInt(tid) ==> response == Response(500, ServerError) && db.tasks == old(db.tasks))
      && (v.Ok? && IsBigInt(tid) ==>
            var t := CreatedTask(newId, tid, v.value, now);
            && db.tasks == old(db.tasks) + [t]
            && response == Response(201, ObjectBody(TaskRepresentation(t, db.categories))))
  {
    var telegramId := GetTelegramId(header);
    if telegramId.None? {
      return Response(400, ErrorBody(HeaderRequired));
    }
    var tid := telegramId.value;
    var v := ValidateCreate(data, db.categories, Some(tid));
    if v.Err? {
      return Response(400, ErrorsBody(v.error));
    }
    if !IsBigInt(tid) {
      return Response(500, ServerError);
    }
    var t := CreatedTask(newId, tid, v.value, now);
    CreatedTaskValid(newId, tid, data, db.categories, now);
    AppendKeepsValid(db, t);
    var body := ToRepresentation(t, db.categories);
    response := Response(201, ObjectBody(body));
  }

  /** Appending a valid row with a fresh key and a resolving category keeps the table invariant. */
  method AppendKeepsValid(db: Database, t: Task)
    requires db.Valid() && ValidTask(t) && ReferencesResolveOne(t, db.categories)
    requires forall k :: 0 <= k < |db.tasks| ==> db.tasks[k].id != t.id
    modifies db
    ensures db.tasks == old(db.tasks) + [t] && db.categories == old(db.categories)
    ensures db.Valid()
  {
    db.InsertTask(t);
    assert db.tasks[|db.tasks| - 1] == t;
    assert forall k :: 0 <= k < |old(db.tasks)| ==> db.tasks[k] == old(db.tasks)[k];
  }

  // ---------------------------------------------------------------------------
  // Row actions
  // ---------------------------------------------------------------------------

  /** `get_object()`: the row with key `id` among those the queryset keeps. */
  function GetObject(ts: seq<Task>, header: Option<string>, q: QueryParams, id: Id): (r: Option<Task>)
    ensures r.Some? ==>
      && r.value in ts && r.value.id == id
      && GetTelegramId(header).Some? && InQueryset(GetTelegramId(header).value, q, r.value)
    ensures r.None? ==> forall k :: 0 <= k < |ts| && ts[k].id == id ==>
      GetTelegramId(header).None? || !InQueryset(GetTelegramId(header).value, q, ts[k])
  {
    var qs := TaskQueryset(ts, header, q);
    match FindTaskIndex(qs, id)
    case None => None
    case Some(i) => Some(qs[i])
  }

  /** The row `complete` (`done`) or `uncomplete` saves: only the flag and the save time change. */
  function SetCompletion(t: Task, done: bool, now: DateTime): (u: Task)
    ensures u.isCompleted == done && u.updatedAt == now
    ensures u.(isCompleted := t.isCompleted, updatedAt := t.updatedAt) == t
  {
    t.(isCompleted := done, updatedAt := now)
  }

  /** Completing twice is completing once, at the later time. */
  lemma SetCompletionIdempotent(t: Task, done: bool, now1: DateTime, now2: DateTime)
    ensures SetCompletion(SetCompletion(t, done, now1), done, now2) == SetCompletion(t, done, now2)
  {
  }

  /** `uncomplete` undoes `complete` on an open task, except for the save time. */
  lemma UncompleteUndoesComplete(t: Task, now1: DateTime, now2: DateTime)
    requires !t.isCompleted
    ensures SetCompletion(SetCompletion(t, true, now1), false, now2) == t.(updatedAt := now2)
  {
  }

  /**
   * The client's `complete_task`, a partial update whose body is
   * `{"is_completed": true}`, saves the same row as the `complete` action.
   */
  lemma ClientCompleteIsCompleteAction(t: Task, cs: seq<Category>, now: DateTime)
    ensures PartialUpdate(t, map["is_completed" := JBool(true)], cs, now) == Ok(SetCompletion(t, true, now))
  {
  }

  /**
   * `complete` (`done`) and `uncomplete` (not `done`): a row outside the
   * caller's queryset is not found and nothing changes; otherwise the row
   * gets the flag and the save time, and is echoed through the full
   * serializer.
   */
  method SetCompletedAction(db: Database, header: Option<string>, q: QueryParams, id: Id, done: bool, now: DateTime)
    returns (response: Response)
    requires db.Valid() && Valid(now)
    modifies db
    ensures db.Valid() && db.categories == old(db.categories)
    ensures GetObject(old(db.tasks), header, q, id).None? ==>
      response == Response(404, DetailBody(NoTaskMatches)) && db.tasks == old(db.tasks)
    ensures GetObject(old(db.tasks), header, q, id).Some? ==>
      && FindTaskIndex(old(db.tasks), id).Some?
      && var i := FindTaskIndex(old(db.tasks), id).value;
         && old(db.tasks)[i] == GetObject(old(db.tasks), header, q, id).value
         && db.tasks == old(db.tasks)[i := SetCompletion(old(db.tasks)[i], done, now)]
         && response == Response(200, ObjectBody(TaskRepresentation(db.tasks[i], db.categories)))
  {
    var found := GetObject(db.tasks, header, q, id);
    if found.None? {
      return Response(404, DetailBody(NoTaskMatches));
    }
    var i := LocateRow(db.tasks, found.value);
    var u := SetCompletion(db.tasks[i], done, now);
    assert ValidTask(db.tasks[i]) && ReferencesResolveOne(db.tasks[i], db.categories);
    db.SaveTask(i, u);
    var body := ToRepresentation(u, db.categories);
    response := Response(200, ObjectBody(body));
  }

  /** The index of a row of a table with distinct keys, found by its key. */
  method LocateRow(ts: seq<Task>, t: Task) returns (i: nat)
    requires UniqueTaskIds(ts) && t in ts
    ensures FindTaskIndex(ts, t.id) == Some(i) && i < |ts| && ts[i] == t
  {
    var k :| 0 <= k < |ts| && ts[k] == t;
    FindOwnRow(ts, k);
    i := k;
  }

  method Complete(db: Database, header: Option<string>, q: QueryParams, id: Id, now: DateTime)
    returns (response: Response)
    requires db.Valid() && Valid(now)
    modifies db
    ensures db.Valid() && db.categories == old(db.categories)
    ensures GetObject(old(db.tasks), header, q, id).None? ==>
      response.status == 404 && db.tasks == old(db.tasks)
    ensures GetObject(old(db.tasks), header, q, id).Some? ==>
      && FindTaskIndex(old(db.tasks), id).Some?
      && var i := FindTaskIndex(old(db.tasks), id).value;
         && db.tasks == old(db.tasks)[i := SetCompletion(old(db.tasks)[i], true, now)]
         && response == Response(200, ObjectBody(TaskRepresentation(db.tasks[i], db.categories)))
  {
    response := SetCompletedAction(db, header, q, id, true, now);
  }

  method Uncomplete(db: Database, header: Option<string>, q: QueryParams, id: Id, now: DateTime)
    returns (response: Response)
    requires db.Valid() && Valid(now)
    modifies db
    ensures db.Valid() && db.categories == old(db.categories)
    ensures GetObject(old(db.tasks), header, q, id).None? ==>
      response.status == 404 && db.tasks == old(db.tasks)
    ensures GetObject(old(db.tasks), header, q, id).Some? ==>
      && FindTaskIndex(old(db.tasks), id).Some?
      && var i := FindTaskIndex(old(db.tasks), id).value;
         && db.tasks == old(db.tasks)[i := SetCompletion(old(db.tasks)[i], false, now)]
         && response == Response(200, ObjectBody(TaskRepresentation(db.tasks[i], db.categories)))
  {
    response := SetCompletedAction(db, header, q, id, false, now);
  }

  /**
   * `partial_update()` (PATCH) through the full serializer: not found
   * outside the caller's queryset; an invalid body is refused with its
   * field errors and nothing changes; otherwise the updated row is saved
   * and echoed.
   */
  method PartialUpdateAction(db: Database, header: Option<string>, q: QueryParams, id: Id,
                             data: map<string, Json>, now: DateTime)
    returns (response: Response)
    requires db.Valid() && Valid(now)
    modifies db
    ensures db.Valid() && db.categories == old(db.categories)
    ensures GetObject(old(db.tasks), header, q, id).None? ==>
      response == Response(404, DetailBody(NoTaskMatches)) && db.tasks == old(db.tasks)
    ensures GetObject(old(db.tasks), header, q, id).Some? ==>
      && FindTaskIndex(old(db.tasks), id).Some?
      && var i := FindTaskIndex(old(db.tasks), id).value;
         var v := PartialUpdate(old(db.tasks)[i], data, old(db.categories), now);
         && (v.Err? ==> response == Response(400, ErrorsBody(v.error)) && db.tasks == old(db.tasks))
         && (v.Ok? ==>
               && db.tasks == old(db.tasks)[i := v.value]
               && response == Response(200, ObjectBody(TaskRepresentation(v.value, db.categories))))
  {
    var found := GetObject(db.tasks, header, q, id);
    if found.None? {
      return Response(404, DetailBody(NoTaskMatches));
    }
    var i := LocateRow(db.tasks, found.value);
    var v := PartialUpdate(db.tasks[i], data, db.categories, now);
    if v.Err? {
      return Response(400, ErrorsBody(v.error));
    }
    assert ValidTask(db.tasks[i]) && ReferencesResolveOne(db.tasks[i], db.categories);
    PartialUpdateKeepsValid(db.tasks[i], data, db.categories, now);
    PartialUpdateKeepsReadOnly(db.tasks[i], data, db.categories, now);
    db.SaveTask(i, v.value);
    var body := ToRepresentation(v.value, db.categories);
    response := Response(200, ObjectBody(body));
  }
}

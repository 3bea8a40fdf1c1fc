/**
 * The bot's task dialogs: the task list window (two stable sorts, the first
 * ten, a status icon each), the detail and confirmation windows with their
 * fallbacks, the due-date parser that tries four formats in order, and the
 * handlers of the create-task wizard, which write into the dialog's data and
 * switch its state. The backend is reached through `ApiClient`; its answers
 * come from the `respond` parameter, and the text of an exception
 * (`str(e)`) from the `describe` parameter.
 */
module TaskDialogs {
  import opened Common
  import opened Text
  import opened Json
  import opened DateTimes
  import opened Sorting
  import opened Fields
  import opened ApiClient
  import opened DialogStates
  import TaskSerializers
  import Models

  /** A task as the bot holds it: a decoded JSON object. */
  type Item = map<string, Json>

  /** What an exception raised inside a handler was about. */
  datatype Failure =
    | HttpStatus(code: int)  // raise_for_status on a 4xx or 5xx answer
    | NotAListOfObjects      // the task list cannot be sorted by keys read with `.get`
    | NotSubscriptable       // `value["key"]` on a value that is not an object
    | MissingKey(key: string)

  const DoneIcon := "✅"
  const PendingIcon := "⏳"
  const DoneText := "Выполнена"
  const PendingText := "В процессе"
  const NoDescription := "Нет описания"
  const NoCategory := "Без категории"
  const NoDueDate := "Не указан"
  const TaskNotFound := "Задача не найдена"
  const TaskCompleted := "✅ Задача выполнена!"
  const TaskDeleted := "🗑 Задача удалена!"
  const TaskCreated := "✅ Задача создана!"
  const BadDateFormat := "❌ Неверный формат даты. Используйте: ДД.ММ.ГГГГ или ДД.ММ.ГГГГ ЧЧ:ММ"
  const ErrorPrefix := "Ошибка: "
  const LoadErrorPrefix := "Ошибка при загрузке задачи: "
  const CategoryErrorPrefix := "❌ Ошибка при создании категории: "
  /** The most tasks the list window shows. */
  const ListLimit := 10

  // ---------------------------------------------------------------------------
  // The task list window
  // ---------------------------------------------------------------------------

  /** `x.get("created_at", "")`, the sort key of the first sort. */
  function CreatedKey(t: Item): string {
    match Get(t, "created_at", JStr(""))
    case JStr(s) => s
    case _ => ""
  }

  /** `x.get("is_completed", False)`, the sort key of the second sort. */
  predicate IsDone(t: Item) {
    Get(t, "is_completed", JBool(false)) == JBool(true)
  }

  /** `sort(key=created_at, reverse=True)`: a later timestamp comes first. */
  predicate NewerCreated(a: Item, b: Item) {
    StrLt(CreatedKey(b), CreatedKey(a))
  }

  /** `sort(key=is_completed)`: False sorts before True. */
  predicate OpenFirst(a: Item, b: Item) {
    !IsDone(a) && IsDone(b)
  }

  lemma NewerCreatedOrder()
    ensures StrictWeakOrder(NewerCreated)
  {
    forall a: Item, b: Item, c: Item
      ensures NewerCreated(a, b) && NewerCreated(b, c) ==> NewerCreated(a, c)
      ensures !NewerCreated(a, b) && !NewerCreated(b, c) ==> !NewerCreated(a, c)
    {
      if NewerCreated(a, b) && NewerCreated(b, c) {
        StrLtTransitive(CreatedKey(c), CreatedKey(b), CreatedKey(a));
      }
      if !NewerCreated(a, b) && !NewerCreated(b, c) && NewerCreated(a, c) {
        StrLtTotal(CreatedKey(a), CreatedKey(b));
        StrLtTotal(CreatedKey(b), CreatedKey(c));
        if CreatedKey(a) != CreatedKey(b) {
          StrLtTransitive(CreatedKey(c), CreatedKey(a), CreatedKey(b));
        }
      }
    }
    forall a: Item ensures !NewerCreated(a, a) {
      StrLtIrreflexive(CreatedKey(a));
    }
  }

  /** The list after both sorts: open tasks first, each group newest first. */
  function ListedOrder(items: seq<Item>): (r: seq<Item>)
    ensures multiset(r) == multiset(items)
    ensures SortedBy(r, ThenBy(OpenFirst, NewerCreated))
  {
    NewerCreatedOrder();
    SortBySorted(items, NewerCreated);
    SortByThenBy(SortBy(items, NewerCreated), OpenFirst, NewerCreated);
    SortBy(SortBy(items, NewerCreated), OpenFirst)
  }

  /** `tasks[:10]` of the sorted list. */
  function Listed(items: seq<Item>): seq<Item> {
    var sorted := ListedOrder(items);
    if |sorted| <= ListLimit then sorted else sorted[..ListLimit]
  }

  /** Two tasks in the order of the list window: open before completed, then the later `created_at` first. */
  lemma ListedPair(s: seq<Item>, i: int, j: int)
    requires SortedBy(s, ThenBy(OpenFirst, NewerCreated)) && 0 <= i < j < |s|
    ensures IsDone(s[i]) ==> IsDone(s[j])
    ensures IsDone(s[i]) == IsDone(s[j]) ==> !StrLt(CreatedKey(s[i]), CreatedKey(s[j]))
  {
    var less := ThenBy(OpenFirst, NewerCreated);
    assert !less(s[j], s[i]);
    assert less(s[j], s[i]) == (OpenFirst(s[j], s[i]) ||
      (!OpenFirst(s[j], s[i]) && !OpenFirst(s[i], s[j]) && NewerCreated(s[j], s[i])));
  }

  /**
   * The list window shows at most ten tasks, all taken from the answer:
   * every open task before every completed one, each group ordered by
   * `created_at` from the latest down, and they are the first ten of that
   * order.
   */
  lemma ListedTasks(items: seq<Item>)
    ensures var l := Listed(items);
      && |l| == (if |items| <= ListLimit then |items| else ListLimit)
      && l == ListedOrder(items)[..|l|]
      && (forall i :: 0 <= i < |l| ==> l[i] in items)
      && (forall i, j :: 0 <= i < j < |l| && IsDone(l[i]) ==> IsDone(l[j]))
      && (forall i, j :: 0 <= i < j < |l| && IsDone(l[i]) == IsDone(l[j]) ==>
            !StrLt(CreatedKey(l[i]), CreatedKey(l[j])))
  {
    var sorted := ListedOrder(items);
    var l := Listed(items);
    assert l == sorted[..|l|];
    WindowOfOrder(items, sorted, l);
  }

  lemma WindowOfOrder(items: seq<Item>, sorted: seq<Item>, l: seq<Item>)
    requires multiset(sorted) == multiset(items) && SortedBy(sorted, ThenBy(OpenFirst, NewerCreated))
    requires |l| <= |sorted| && l == sorted[..|l|]
    ensures forall i :: 0 <= i < |l| ==> l[i] in items
    ensures forall i, j :: 0 <= i < j < |l| && IsDone(l[i]) ==> IsDone(l[j])
    ensures forall i, j :: 0 <= i < j < |l| && IsDone(l[i]) == IsDone(l[j]) ==>
      !StrLt(CreatedKey(l[i]), CreatedKey(l[j]))
  {
    forall i | 0 <= i < |l| ensures l[i] in items {
      assert l[i] == sorted[i];
      assert l[i] in multiset(sorted);
    }
    forall i, j | 0 <= i < j < |l|
      ensures IsDone(l[i]) ==> IsDone(l[j])
      ensures IsDone(l[i]) == IsDone(l[j]) ==> !StrLt(CreatedKey(l[i]), CreatedKey(l[j]))
    {
      assert l[i] == sorted[i] && l[j] == sorted[j];
      ListedPair(sorted, i, j);
    }
  }

  /** The decoded answer as a list of objects; anything else makes the sort raise. */
  function Items(j: Json): (r: Option<seq<Item>>)
    ensures r.Some? <==> j.JArray? && forall i :: 0 <= i < |j.items| ==> j.items[i].JObject?
    ensures r.Some? ==> |r.value| == |j.items| && forall i :: 0 <= i < |j.items| ==> j.items[i] == JObject(r.value[i])
  {
    if j.JArray? && forall i :: 0 <= i < |j.items| ==> j.items[i].JObject? then
      Some(seq(|j.items|, i requires 0 <= i < |j.items| => j.items[i].fields))
    else None
  }

  /** The `try` block of `get_tasks_data`: the tasks to show, or what went wrong. */
  function TaskListOutcome(fetched: Result<Json, int>): Result<seq<Item>, Failure> {
    if fetched.Err? then Err(HttpStatus(fetched.error))
    else
      match Items(fetched.value)
      case None => Err(NotAListOfObjects)
      case Some(items) => Ok(Listed(items))
  }

  /**
   * The task list is shown only for a 2xx answer whose unwrapped body is a
   * list of objects, and then it is the window of those objects; any other
   * status, a redirect included, is reported as that status.
   */
  lemma ListOutcomeOfAnswer(userId: int, baseUrl: string, respond: (Connection, Request) -> HttpResponse)
    ensures var r := respond(Connection(baseUrl, Headers(userId)), Request(GET, "/tasks/", None));
      var o := TaskListOutcome(ListAnswer(userId, baseUrl, respond, "/tasks/"));
      && (o.Ok? <==> 200 <= r.status < 300 && Items(UnwrapList(r.body)).Some?)
      && (!(200 <= r.status < 300) ==> o == Err(HttpStatus(r.status)))
      && (o.Ok? ==> o.value == Listed(Items(UnwrapList(r.body)).value))
  {
  }

  /** A paginated page `{"results": [...], ...}` is listed exactly as the bare list of its results. */
  lemma PageListedAsItsResults(fields: map<string, Json>, items: seq<Json>)
    requires "results" in fields && fields["results"] == JArray(items)
    ensures UnwrapList(JObject(fields)) == UnwrapList(JArray(items))
    ensures TaskListOutcome(Ok(UnwrapList(JObject(fields)))) == TaskListOutcome(Ok(JArray(items)))
  {
  }

  /** `"✅" if task.get("is_completed") else "⏳"` */
  function StatusIcon(t: Item): string {
    if Truthy(Get(t, "is_completed", JNull)) then DoneIcon else PendingIcon
  }

  function WithIcon(t: Item): Item {
    t["status_icon" := JStr(StatusIcon(t))]
  }

  function WithIcons(ts: seq<Item>): (r: seq<Item>)
    ensures |r| == |ts|
    ensures forall i :: 0 <= i < |ts| ==> r[i] == WithIcon(ts[i])
  {
    seq(|ts|, i requires 0 <= i < |ts| => WithIcon(ts[i]))
  }

  /**
   * The icons follow the order of the list: when completion is given as a
   * boolean (or not at all), a task shown with ✅ is followed only by tasks
   * shown with ✅; each icon says whether the task is completed.
   */
  lemma IconsFollowOrder(items: seq<Item>)
    requires forall i :: 0 <= i < |items| ==> "is_completed" !in items[i] || items[i]["is_completed"].JBool?
    ensures var shown := WithIcons(Listed(items));
      && (forall i :: 0 <= i < |shown| ==>
            ("status_icon" in shown[i] && (shown[i]["status_icon"] == JStr(DoneIcon) <==> IsDone(Listed(items)[i]))))
      && (forall i, j :: 0 <= i < j < |shown| && shown[i]["status_icon"] == JStr(DoneIcon) ==>
            shown[j]["status_icon"] == JStr(DoneIcon))
  {
    var l := Listed(items);
    ListedTasks(items);
    forall i | 0 <= i < |l| ensures StatusIcon(l[i]) == DoneIcon <==> IsDone(l[i]) {
      assert l[i] in items;
      var k :| 0 <= k < |items| && items[k] == l[i];
    }
  }

  datatype TaskListView = TaskListView(tasks: seq<Item>, hasTasks: bool, taskCount: int)

  // ---------------------------------------------------------------------------
  // The detail and confirmation windows
  // ---------------------------------------------------------------------------

  /** Python's `a or b`. */
  function Or(a: Json, b: Json): (r: Json)
    ensures Truthy(a) ==> r == a
    ensures !Truthy(a) ==> r == b
  {
    if Truthy(a) then a else b
  }

  /**
   * The date block of `get_task_detail_data`: a truthy text that
   * `fromisoformat` accepts (after `Z` becomes `+00:00`) is shown as
   * "DD.MM.YYYY HH:MM"; anything else is kept as it is.
   */
  function ShownDate(v: Json): Json {
    if Truthy(v) && v.JStr? then
      match ParseApiDateTime(v.s)
      case Some(dt) => JStr(FormatDayMonthYearTime(dt))
      case None => v
    else v
  }

  /** A text the parser refuses is shown unchanged, and so is a value that is not text. */
  lemma UnparsableDateUnchanged(v: Json)
    requires !v.JStr? || ParseApiDateTime(v.s).None?
    ensures ShownDate(v) == v
  {
  }

  /** A timestamp as the API writes it is shown as its day, month, year, hour and minute. */
  lemma ApiDateShown(dt: DateTime)
    requires Valid(dt)
    ensures ShownDate(JStr(DateTimeText(dt))) == JStr(FormatDayMonthYearTime(dt))
  {
    DateTimeTextReadBack(dt);
    assert |DateTimeText(dt)| == 20;
  }

  /** `dialog_data.get("selected_task", {})` */
  function SelectedTask(data: map<string, Json>): Json {
    Get(data, "selected_task", JObject(map[]))
  }

  /**
   * `get_task_detail_data`: `{}` without a (truthy) selected task, otherwise
   * the eight values of the detail window; `None` stands for the
   * AttributeError raised when the task or its category is truthy but not
   * an object.
   */
  function TaskDetail(data: map<string, Json>): (r: Option<map<string, Json>>)
    ensures !Truthy(SelectedTask(data)) ==> r == Some(map[])
    ensures Truthy(SelectedTask(data)) && !SelectedTask(data).JObject? ==> r == None
  {
    var task := SelectedTask(data);
    if !Truthy(task) then Some(map[])
    else if !task.JObject? then None
    else
      var f := task.fields;
      var createdAt := ShownDate(Get(f, "created_at", JStr("")));
      var dueDate := ShownDate(Get(f, "due_date", JStr("")));
      var category := Get(f, "category", JNull);
      if Truthy(category) && !category.JObject? then None
      else Some(DetailWindow(f, createdAt, dueDate))
  }

  /** The detail window's fields, given the two dates as the date block left them. */
  function DetailWindow(f: Item, createdAt: Json, dueDate: Json): map<string, Json> {
    var category := Get(f, "category", JNull);
    var categoryName := if Truthy(category) && category.JObject? then Get(category.fields, "name", JNull) else JStr(NoCategory);
    var isCompleted := Get(f, "is_completed", JBool(false));
    map[
      "title" := Get(f, "title", JStr("")),
      "description" := Or(Get(f, "description", JStr("")), JStr(NoDescription)),
      "category_name" := categoryName,
      "due_date" := Or(dueDate, JStr(NoDueDate)),
      "created_at" := createdAt,
      "is_completed" := isCompleted,
      "status_emoji" := JStr(if Truthy(isCompleted) then DoneIcon else PendingIcon),
      "status_text" := JStr(if Truthy(isCompleted) then DoneText else PendingText)]
  }

  /** An object task renders as its detail window with the dates the date block produced. */
  lemma DetailIsWindow(data: map<string, Json>, f: Item)
    requires SelectedTask(data) == JObject(f) && f != map[]
    requires !Truthy(Get(f, "category", JNull)) || Get(f, "category", JNull).JObject?
    ensures TaskDetail(data)
      == Some(DetailWindow(f, ShownDate(Get(f, "created_at", JStr(""))), ShownDate(Get(f, "due_date", JStr("")))))
  {
  }

  /** The fallbacks of the window, whatever the two dates are. */
  lemma WindowFallbacks(f: Item, createdAt: Json, dueDate: Json)
    ensures var w := DetailWindow(f, createdAt, dueDate);
      && (!Truthy(Get(f, "description", JStr(""))) ==> w["description"] == JStr(NoDescription))
      && (!Truthy(Get(f, "category", JNull)) ==> w["category_name"] == JStr(NoCategory))
      && (Get(f, "category", JNull).JObject? && Truthy(Get(f, "category", JNull)) ==>
            w["category_name"] == Get(Get(f, "category", JNull).fields, "name", JNull))
      && (!Truthy(dueDate) ==> w["due_date"] == JStr(NoDueDate))
      && (w["status_emoji"] == JStr(DoneIcon) <==> Truthy(Get(f, "is_completed", JBool(false))))
      && w["created_at"] == createdAt && w["due_date"] == Or(dueDate, JStr(NoDueDate))
  {
  }

  /**
   * The fallbacks of the detail window: an empty or missing description
   * reads "Нет описания", a missing or null category "Без категории", an
   * empty or missing due date "Не указан"; a task as the API renders it has
   * its creation time shown to the minute.
   */
  lemma DetailFallbacks(data: map<string, Json>, f: Item)
    requires SelectedTask(data) == JObject(f) && f != map[]
    requires !Truthy(Get(f, "category", JNull)) || Get(f, "category", JNull).JObject?
    ensures var r := TaskDetail(data);
      && r.Some?
      && (!Truthy(Get(f, "description", JStr(""))) ==> r.value["description"] == JStr(NoDescription))
      && (!Truthy(Get(f, "category", JNull)) ==> r.value["category_name"] == JStr(NoCategory))
      && (Get(f, "category", JNull).JObject? && Truthy(Get(f, "category", JNull)) ==>
            r.value["category_name"] == Get(Get(f, "category", JNull).fields, "name", JNull))
      && (!Truthy(Get(f, "due_date", JStr(""))) ==> r.value["due_date"] == JStr(NoDueDate))
      && (r.value["status_emoji"] == JStr(DoneIcon) <==> Truthy(Get(f, "is_completed", JBool(false))))
  {
    var createdAt, dueDate := ShownDate(Get(f, "created_at", JStr(""))), ShownDate(Get(f, "due_date", JStr("")));
    DetailIsWindow(data, f);
    WindowFallbacks(f, createdAt, dueDate);
    if !Truthy(Get(f, "due_date", JStr(""))) {
      UntruthyDateShownAsIs(Get(f, "due_date", JStr("")));
    }
  }

  /** A falsy date value passes through the date block unchanged. */
  lemma UntruthyDateShownAsIs(v: Json)
    requires !Truthy(v)
    ensures ShownDate(v) == v
  {
  }

  /** A task the API rendered shows its creation and due times to the minute, or "Не указан" without a due date. */
  lemma DetailOfApiTask(data: map<string, Json>, f: Item, created: DateTime, due: Option<DateTime>)
    requires SelectedTask(data) == JObject(f) && f != map[]
    requires !Truthy(Get(f, "category", JNull)) || Get(f, "category", JNull).JObject?
    requires Valid(created) && (due.Some? ==> Valid(due.value))
    requires "created_at" in f && f["created_at"] == JStr(DateTimeText(created))
    requires "due_date" in f && f["due_date"] == DateTimeJson(due)
    ensures var r := TaskDetail(data);
      && r.Some?
      && r.value["created_at"] == JStr(FormatDayMonthYearTime(created))
      && r.value["due_date"] == (if due.Some? then JStr(FormatDayMonthYearTime(due.value)) else JStr(NoDueDate))
  {
    DetailDates(data, f);
    ApiDateShown(created);
    if due.Some? {
      ApiDateShown(due.value);
    }
  }

  lemma DetailDates(data: map<string, Json>, f: Item)
    requires SelectedTask(data) == JObject(f) && f != map[]
    requires !Truthy(Get(f, "category", JNull)) || Get(f, "category", JNull).JObject?
    ensures var r := TaskDetail(data);
      && r.Some?
      && r.value["created_at"] == ShownDate(Get(f, "created_at", JStr("")))
      && r.value["due_date"] == Or(ShownDate(Get(f, "due_date", JStr(""))), JStr(NoDueDate))
  {
    DetailIsWindow(data, f);
    WindowFallbacks(f, ShownDate(Get(f, "created_at", JStr(""))), ShownDate(Get(f, "due_date", JStr(""))));
  }

  /** `get_confirm_data`: what the wizard collected, with the same fallbacks as the detail window. */
  function ConfirmData(data: map<string, Json>): (r: map<string, Json>)
    ensures r.Keys == {"title", "description", "category_name", "due_date"}
    ensures "category_name" !in data ==> r["category_name"] == JStr(NoCategory)
    ensures "due_date_display" !in data ==> r["due_date"] == JStr(NoDueDate)
    ensures !Truthy(Get(data, "description", JStr(""))) ==> r["description"] == JStr(NoDescription)
  {
    map[
      "title" := Get(data, "title", JStr("")),
      "description" := Or(Get(data, "description", JStr("")), JStr(NoDescription)),
      "category_name" := Get(data, "category_name", JStr(NoCategory)),
      "due_date" := Get(data, "due_date_display", JStr(NoDueDate))]
  }

  // ---------------------------------------------------------------------------
  // The due date the user types
  // ---------------------------------------------------------------------------

  /** The result of the first format that parses the text. */
  function FirstMatch(t: string, formats: seq<Format>): (r: Option<DateTime>)
    ensures r.Some? ==> exists i :: 0 <= i < |formats| && Strptime(t, formats[i]) == r
    ensures r.None? <==> forall i :: 0 <= i < |formats| ==> Strptime(t, formats[i]).None?
    decreases |formats|
  {
    if formats == [] then None
    else
      var first := Strptime(t, formats[0]);
      if first.Some? then first
      else
        var rest := FirstMatch(t, formats[1..]);
        assert forall i :: 1 <= i < |formats| ==> formats[i] == formats[1..][i - 1];
        rest
  }

  /** What `on_due_date_input` makes of the message text. */
  function ParseDueDate(text: string): Option<DateTime> {
    FirstMatch(Strip(text), DueDateFormats)
  }

  /**
   * The order of the formats does not matter: no text matches two of them,
   * so whichever format accepts the text decides the date.
   */
  lemma DueDateFormatDecides(text: string, i: int)
    requires 0 <= i < |DueDateFormats| && Strptime(Strip(text), DueDateFormats[i]).Some?
    ensures ParseDueDate(text) == Strptime(Strip(text), DueDateFormats[i])
  {
    var t := Strip(text);
    var r := ParseDueDate(text);
    var j :| 0 <= j < |DueDateFormats| && Strptime(t, DueDateFormats[j]) == r;
    if j < i {
      DueDateFormatsExclusive(t, j, i);
    } else if i < j {
      DueDateFormatsExclusive(t, i, j);
    }
  }

  /** The way the detail window shows a time is read back by the due-date input, to the minute. */
  lemma ShownDateReadBack(dt: DateTime)
    requires Valid(dt)
    ensures ParseDueDate(FormatDayMonthYearTime(dt)) == Some(dt.(second := 0))
  {
    var s := FormatDayMonthYearTime(dt);
    assert IsDigit(s[0]) && IsDigit(s[|s| - 1]);
    StripNoop(s);
    StrptimeReadsDayMonthYearTime(dt);
    DueDateFormatDecides(s, 0);
  }

  /** The ISO text the wizard stores for a parsed due date is accepted by the backend as that date. */
  lemma StoredDueDateAccepted(dt: DateTime)
    requires Valid(dt)
    ensures DateTimeValue(JStr(IsoFormat(dt))) == Ok(Some(dt))
  {
    IsoFormatHasNoZ(dt);
    ParseIsoFormat(dt);
  }

  // ---------------------------------------------------------------------------
  // Picking a category
  // ---------------------------------------------------------------------------

  /** The loop of `on_category_selected`. */
  datatype Search = Found(name: Json) | Missing | Raised

  /**
   * `for cat in categories: if cat["id"] == item_id: name = cat["name"]; break`,
   * where a `cat` that is not an object with an `id`, or a match without a
   * `name`, raises.
   */
  function CategorySearch(cats: seq<Json>, itemId: string): Search
    decreases |cats|
  {
    if cats == [] then Missing
    else
      var c := cats[0];
      if !(c.JObject? && "id" in c.fields) then Raised
      else if c.fields["id"] == JStr(itemId) then (if "name" in c.fields then Found(c.fields["name"]) else Raised)
      else CategorySearch(cats[1..], itemId)
  }

  /** A category carrying an id other than `itemId`. */
  predicate OtherCategory(c: Json, itemId: string) {
    c.JObject? && "id" in c.fields && c.fields["id"] != JStr(itemId)
  }

  /**
   * The search finds the name of the first category with the selected id;
   * it misses only when every category has an id and none is the selected
   * one; it raises at the first category without an id, or when the match
   * has no name.
   */
  lemma {:induction false} CategorySearchFinds(cats: seq<Json>, itemId: string)
    ensures var r := CategorySearch(cats, itemId);
      && (r.Found? ==> exists k :: (0 <= k < |cats| && cats[k].JObject? && "id" in cats[k].fields
            && cats[k].fields["id"] == JStr(itemId) && "name" in cats[k].fields && r.name == cats[k].fields["name"]
            && forall m :: 0 <= m < k ==> OtherCategory(cats[m], itemId)))
      && (r.Missing? <==> forall k :: 0 <= k < |cats| ==> OtherCategory(cats[k], itemId))
      && (r.Raised? ==> exists k :: (0 <= k < |cats| && !OtherCategory(cats[k], itemId)
            && !(cats[k].JObject? && "id" in cats[k].fields && "name" in cats[k].fields)))
    decreases |cats|
  {
    if cats != [] {
      var c := cats[0];
      if OtherCategory(c, itemId) {
        CategorySearchFinds(cats[1..], itemId);
        var r := CategorySearch(cats, itemId);
        assert r == CategorySearch(cats[1..], itemId);
        if r.Found? {
          var k :| 0 <= k < |cats[1..]| && cats[1..][k].JObject? && "id" in cats[1..][k].fields
            && cats[1..][k].fields["id"] == JStr(itemId) && "name" in cats[1..][k].fields
            && r.name == cats[1..][k].fields["name"]
            && forall m :: 0 <= m < k ==> OtherCategory(cats[1..][m], itemId);
          assert cats[k + 1] == cats[1..][k];
          assert forall m :: 0 <= m < k + 1 ==> OtherCategory(cats[m], itemId) by {
            forall m | 0 <= m < k + 1 ensures OtherCategory(cats[m], itemId) {
              if m > 0 {
                assert cats[m] == cats[1..][m - 1];
              }
            }
          }
        }
        if r.Raised? {
          var k :| 0 <= k < |cats[1..]| && !OtherCategory(cats[1..][k], itemId)
            && !(cats[1..][k].JObject? && "id" in cats[1..][k].fields && "name" in cats[1..][k].fields);
          assert cats[k + 1] == cats[1..][k];
        }
        if forall k :: 0 <= k < |cats| ==> OtherCategory(cats[k], itemId) {
          assert forall k :: 0 <= k < |cats[1..]| ==> OtherCategory(cats[1..][k], itemId) by {
            forall k | 0 <= k < |cats[1..]| ensures OtherCategory(cats[1..][k], itemId) {
              assert cats[1..][k] == cats[k + 1];
            }
          }
        }
      }
    }
  }

  /**
   * Iterating over what `get_categories_data` returned: a list gives its
   * elements; an empty object or text gives nothing; the first element of a
   * non-empty object or text is a string, which `cat["id"]` cannot index.
   */
  function SearchCategories(categories: Json, itemId: string): Search {
    match categories
    case JArray(items) => CategorySearch(items, itemId)
    case JObject(fields) => if fields == map[] then Missing else Raised
    case JStr(s) => if s == "" then Missing else Raised
    case _ => Raised
  }

  /** `len()` of a decoded value; the other types have none. */
  function PyLen(j: Json): Option<nat> {
    match j
    case JArray(items) => Some(|items|)
    case JObject(fields) => Some(|fields|)
    case JStr(s) => Some(|s|)
    case _ => None
  }

  datatype CategoriesView = CategoriesView(categories: Json, hasCategories: bool)

  /**
   * `get_categories_data`: the (unwrapped) categories, or an empty list when
   * the request failed; `None` stands for the TypeError of `len()` on a
   * number, boolean or null.
   */
  function CategoriesWindow(fetched: Result<Json, int>): (r: Option<CategoriesView>)
    ensures fetched.Err? ==> r == Some(CategoriesView(JArray([]), false))
    ensures r.Some? && fetched.Ok? ==> r.value.categories == fetched.value
    ensures r.Some? <==> PyLen(if fetched.Ok? then fetched.value else JArray([])).Some?
    ensures r.Some? ==> PyLen(r.value.categories).Some? && (r.value.hasCategories <==> PyLen(r.value.categories).value > 0)
  {
    var categories := if fetched.Ok? then fetched.value else JArray([]);
    match PyLen(categories)
    case None => None
    case Some(n) => Some(CategoriesView(categories, n > 0))
  }

  // ---------------------------------------------------------------------------
  // The task detail buttons
  // ---------------------------------------------------------------------------

  /** What the complete and delete buttons find in the dialog data. */
  datatype Selection = NotAnObject | NoTaskId | TaskId(id: Json)

  /**
   * `task = dialog_data.get("selected_task", {})`, then `task.get("id")`,
   * which raises on a task that is not an object; a falsy id stops the
   * handler.
   */
  function Selected(data: map<string, Json>): (r: Selection)
    ensures r.TaskId? ==> Truthy(r.id)
    ensures "selected_task" !in data ==> r == NoTaskId
    ensures r.TaskId? <==>
      (SelectedTask(data).JObject? && "id" in SelectedTask(data).fields && Truthy(SelectedTask(data).fields["id"]))
  {
    var task := SelectedTask(data);
    if !task.JObject? then NotAnObject
    else
      var id := Get(task.fields, "id", JNull);
      if Truthy(id) then TaskId(id) else NoTaskId
  }

  /** `f"{task_id}"` for the id values the API gives. */
  function PathSegment(id: Json): string {
    match id
    case JStr(s) => s
    case JInt(i) => IntToString(i)
    case JBool(b) => if b then "True" else "False"
    case _ => ""
  }

  /** The `try` block's list work: sort by `created_at` descending, then stably by completion, and keep ten. */
  method FirstTen(items: seq<Item>) returns (tasks: seq<Item>)
    ensures tasks == Listed(items)
  {
    tasks := SortBy(items, NewerCreated);
    tasks := SortBy(tasks, OpenFirst);
    if |tasks| > ListLimit {
      tasks := tasks[..ListLimit];
    }
  }

  /** `for task in tasks: task["status_icon"] = ...`, updating each task in turn. */
  method AddIcons(listed: seq<Item>) returns (tasks: seq<Item>)
    ensures tasks == WithIcons(listed)
  {
    tasks := listed;
    var i := 0;
    while i < |tasks|
      invariant 0 <= i <= |tasks| && |tasks| == |listed|
      invariant forall k :: 0 <= k < i ==> tasks[k] == WithIcon(listed[k])
      invariant forall k :: i <= k < |tasks| ==> tasks[k] == listed[k]
    {
      tasks := tasks[i := WithIcon(tasks[i])];
      i := i + 1;
    }
  }

  /** The loop of `on_category_selected`, with its `break`. */
  method FindCategory(cats: seq<Json>, itemId: string) returns (r: Search)
    ensures r == CategorySearch(cats, itemId)
  {
    var i := 0;
    while i < |cats|
      invariant 0 <= i <= |cats|
      invariant CategorySearch(cats[i..], itemId) == CategorySearch(cats, itemId)
    {
      var cat := cats[i];
      assert cats[i..][0] == cat && cats[i..][1..] == cats[i + 1..];
      if !(cat.JObject? && "id" in cat.fields) {
        return Raised;
      }
      if cat.fields["id"] == JStr(itemId) {
        if "name" in cat.fields {
          return Found(cat.fields["name"]);
        }
        return Raised;
      }
      i := i + 1;
    }
    assert cats[i..] == [];
    r := Missing;
  }

  /** The loop of `on_due_date_input`: try each format in turn and stop at the first that parses. */
  method ParseDueDateText(t: string) returns (parsed: Option<DateTime>)
    ensures parsed == FirstMatch(t, DueDateFormats)
  {
    parsed := None;
    var i := 0;
    while i < |DueDateFormats|
      invariant 0 <= i <= |DueDateFormats| && parsed.None?
      invariant FirstMatch(t, DueDateFormats[i..]) == FirstMatch(t, DueDateFormats)
    {
      var rest := DueDateFormats[i..];
      assert rest[0] == DueDateFormats[i] && rest[1..] == DueDateFormats[i + 1..];
      parsed := Strptime(t, DueDateFormats[i]);
      if parsed.Some? {
        assert FirstMatch(t, rest) == parsed;
        return;
      }
      i := i + 1;
    }
    assert DueDateFormats[i..] == [];
  }

  // ---------------------------------------------------------------------------
  // Creating the task
  // ---------------------------------------------------------------------------

  /** `message.text`, which is `None` for a message without text. */
  function MessageText(text: Option<string>): Json {
    if text.Some? then JStr(text.value) else JNull
  }

  /** The request `on_confirm_create` sends for the collected dialog data. */
  function ConfirmRequest(data: map<string, Json>): (r: Request)
    ensures r.verb == POST && r.path == "/tasks/" && r.body.Some? && r.body.value.JObject?
  {
    Request(POST, "/tasks/", Some(JObject(CreateTaskPayload(
      Get(data, "title", JStr("")), Get(data, "description", JStr("")),
      Get(data, "category_id", JNull), Get(data, "due_date", JNull)))))
  }

  function CategoryCreatedReply(name: string): string {
    "✅ Категория '" + name + "' создана и выбрана."
  }

  /**
   * A wizard whose every optional step was skipped confirms the title with
   * the three fallbacks and sends only the title and an empty description.
   */
  lemma SkippedStepsConfirm(data: map<string, Json>, title: string)
    ensures var d := data["title" := JStr(title)]["description" := JStr("")]
      ["category_id" := JNull]["category_name" := JStr(NoCategory)]
      ["due_date" := JNull]["due_date_display" := JStr(NoDueDate)];
      && ConfirmData(d) == map["title" := JStr(title), "description" := JStr(NoDescription),
                               "category_name" := JStr(NoCategory), "due_date" := JStr(NoDueDate)]
      && ConfirmRequest(d).body == Some(JObject(map["title" := JStr(title), "description" := JStr("")]))
  {
  }

  /**
   * A due date the user entered is confirmed as displayed, sent in ISO
   * form, and read back by the backend's create serializer as the same
   * date; a chosen category is sent by its id.
   */
  lemma EnteredValuesReachBackend(data: map<string, Json>, shown: string, itemId: string, dt: DateTime)
    requires Valid(dt) && itemId != ""
    ensures var d := data["category_id" := JStr(itemId)]["due_date" := JStr(IsoFormat(dt))]["due_date_display" := JStr(shown)];
      var payload := ConfirmRequest(d).body.value.fields;
      && ConfirmData(d)["due_date"] == JStr(shown)
      && "category" in payload && payload["category"] == JStr(itemId)
      && "due_date" in payload && payload["due_date"] == JStr(IsoFormat(dt))
      && TaskSerializers.DueDateField(payload, None) == Ok(Some(dt))
  {
    var d := data["category_id" := JStr(itemId)]["due_date" := JStr(IsoFormat(dt))]["due_date_display" := JStr(shown)];
    assert |IsoFormat(dt)| == 19;
    StoredDueDateAccepted(dt);
  }

  /** When a payload carrying the ISO form of a date is accepted, that date becomes the due date. */
  lemma ValidatedDueDate(payload: map<string, Json>, cs: seq<Models.Category>, tid: int, dt: DateTime)
    requires Valid(dt) && "due_date" in payload && payload["due_date"] == JStr(IsoFormat(dt))
    ensures TaskSerializers.ValidateCreate(payload, cs, Some(tid)).Ok? ==>
      TaskSerializers.ValidateCreate(payload, cs, Some(tid)).value.dueDate == Some(dt)
  {
    StoredDueDateAccepted(dt);
  }

  // ---------------------------------------------------------------------------
  // The dialog and its handlers
  // ---------------------------------------------------------------------------

  /**
   * The dialog seen by the handlers: the current state and the dialog
   * data they write into. Every handler makes its own client for the user
   * of the event and closes it; `requests` records what those clients sent.
   */
  class DialogManager {
    const userId: int
    /** The configured API base URL the clients use. */
    const baseUrl: string
    var state: State
    var dialogData: map<string, Json>
    ghost var requests: seq<Request>

    constructor (userId: int, baseUrl: string, state: State)
      ensures this.userId == userId && this.baseUrl == baseUrl && this.state == state
      ensures dialogData == map[] && requests == []
    {
      this.userId := userId;
      this.baseUrl := baseUrl;
      this.state := state;
      dialogData := map[];
      requests := [];
    }

    /**
     * `get_tasks_data`: the first ten tasks in list order, each with its
     * status icon; on any failure an empty list, with the error text kept in
     * the dialog data.
     */
    method GetTasksData(respond: (Connection, Request) -> HttpResponse, describe: Failure -> string)
      returns (view: TaskListView)
      modifies this
      ensures state == old(state) && requests == old(requests) + [Request(GET, "/tasks/", None)]
      ensures var o := TaskListOutcome(ListAnswer(userId, baseUrl, respond, "/tasks/"));
        && (o.Ok? ==> view.tasks == WithIcons(o.value) && dialogData == old(dialogData))
        && (o.Err? ==> view.tasks == [] && dialogData == old(dialogData)["error" := JStr(describe(o.error))])
      ensures view.taskCount == |view.tasks| && view.hasTasks == (view.taskCount > 0)
    {
      var client := GetApiClient(userId, baseUrl);
      var fetched := client.GetTasks(respond);
      var tasks: seq<Item> := [];
      if fetched.Err? {
        dialogData := dialogData["error" := JStr(describe(HttpStatus(fetched.error)))];
      } else {
        var items := Items(fetched.value);
        if items.None? {
          dialogData := dialogData["error" := JStr(describe(NotAListOfObjects))];
        } else {
          tasks := FirstTen(items.value);
        }
      }
      client.Close();
      requests := requests + client.sent;
      tasks := AddIcons(tasks);
      view := TaskListView(tasks, |tasks| > 0, |tasks|);
    }

    /** `on_task_selected`: load the task and open the detail window, or answer with the error. */
    method OnTaskSelected(itemId: string, respond: (Connection, Request) -> HttpResponse, describe: Failure -> string)
      returns (reply: Option<string>)
      modifies this
      ensures var request := Request(GET, TaskPath(itemId), None);
        var r := Answer(userId, baseUrl, respond, request);
        && requests == old(requests) + [request]
        && (r.Ok? ==> dialogData == old(dialogData)["selected_task" := r.value] && state == TaskDetail && reply == None)
        && (r.Err? ==>
              (dialogData == old(dialogData) && state == old(state) && reply == Some(LoadErrorPrefix + describe(HttpStatus(r.error)))))
    {
      var client := GetApiClient(userId, baseUrl);
      var r := client.GetTask(itemId, respond);
      if r.Ok? {
        dialogData := dialogData["selected_task" := r.value];
        state := TaskDetail;
        reply := None;
      } else {
        reply := Some(LoadErrorPrefix + describe(HttpStatus(r.error)));
      }
      client.Close();
      requests := requests + client.sent;
    }

    /**
     * `on_complete_task`: without a task id, answer "Задача не найдена" and
     * send nothing; otherwise mark the task completed and keep the answer as
     * the selected task.
     */
    method OnCompleteTask(respond: (Connection, Request) -> HttpResponse, describe: Failure -> string)
      returns (reply: Option<string>)
      modifies this
      ensures state == old(state)
      ensures var sel := Selected(old(dialogData));
        && (sel.NotAnObject? ==> reply == None && dialogData == old(dialogData) && requests == old(requests))
        && (sel.NoTaskId? ==> reply == Some(TaskNotFound) && dialogData == old(dialogData) && requests == old(requests))
        && (sel.TaskId? ==>
              var request := Request(PATCH, TaskPath(PathSegment(sel.id)), Some(JObject(map["is_completed" := JBool(true)])));
              var r := Answer(userId, baseUrl, respond, request);
              && requests == old(requests) + [request]
              && (r.Ok? ==> dialogData == old(dialogData)["selected_task" := r.value] && reply == Some(TaskCompleted))
              && (r.Err? ==> dialogData == old(dialogData) && reply == Some(ErrorPrefix + describe(HttpStatus(r.error)))))
    {
      var sel := Selected(dialogData);
      if sel.NotAnObject? {
        return None;
      }
      if sel.NoTaskId? {
        return Some(TaskNotFound);
      }
      var client := GetApiClient(userId, baseUrl);
      var r := client.CompleteTask(PathSegment(sel.id), respond);
      if r.Ok? {
        dialogData := dialogData["selected_task" := r.value];
        reply := Some(TaskCompleted);
      } else {
        reply := Some(ErrorPrefix + describe(HttpStatus(r.error)));
      }
      client.Close();
      requests := requests + client.sent;
    }

    /**
     * `on_delete_task`: without a task id, answer "Задача не найдена" and
     * send nothing; otherwise delete the task and go back to the list.
     */
    method OnDeleteTask(respond: (Connection, Request) -> HttpResponse, describe: Failure -> string)
      returns (reply: Option<string>)
      modifies this
      ensures dialogData == old(dialogData)
      ensures var sel := Selected(old(dialogData));
        && (sel.NotAnObject? ==> reply == None && state == old(state) && requests == old(requests))
        && (sel.NoTaskId? ==> reply == Some(TaskNotFound) && state == old(state) && requests == old(requests))
        && (sel.TaskId? ==>
              var request := Request(DELETE, TaskPath(PathSegment(sel.id)), None);
              var r := Answer(userId, baseUrl, respond, request);
              && requests == old(requests) + [request]
              && (r.Ok? ==> state == TaskList && reply == Some(TaskDeleted))
              && (r.Err? ==> state == old(state) && reply == Some(ErrorPrefix + describe(HttpStatus(r.error)))))
    {
      var sel := Selected(dialogData);
      if sel.NotAnObject? {
        return None;
      }
      if sel.NoTaskId? {
        return Some(TaskNotFound);
      }
      var client := GetApiClient(userId, baseUrl);
      var r := client.DeleteTask(PathSegment(sel.id), respond);
      if r.Ok? {
        reply := Some(TaskDeleted);
        state := TaskList;
      } else {
        reply := Some(ErrorPrefix + describe(HttpStatus(r.error)));
      }
      client.Close();
      requests := requests + client.sent;
    }

    /** `on_title_input` */
    method OnTitleInput(text: Option<string>)
      modifies this
      ensures dialogData == old(dialogData)["title" := MessageText(text)]
      ensures state == EnterDescription && requests == old(requests)
    {
      dialogData := dialogData["title" := MessageText(text)];
      state := EnterDescription;
    }

    /** `on_description_input` */
    method OnDescriptionInput(text: Option<string>)
      modifies this
      ensures dialogData == old(dialogData)["description" := MessageText(text)]
      ensures state == ChooseCategory && requests == old(requests)
    {
      dialogData := dialogData["description" := MessageText(text)];
      state := ChooseCategory;
    }

    /** `on_skip_description`: an empty description. */
    method OnSkipDescription()
      modifies this
      ensures dialogData == old(dialogData)["description" := JStr("")]
      ensures state == ChooseCategory && requests == old(requests)
    {
      dialogData := dialogData["description" := JStr("")];
      state := ChooseCategory;
    }

    /** `get_categories_data`, the getter of the category window. */
    method GetCategoriesData(respond: (Connection, Request) -> HttpResponse) returns (view: Option<CategoriesView>)
      modifies this
      ensures view == CategoriesWindow(ListAnswer(userId, baseUrl, respond, "/categories/"))
      ensures dialogData == old(dialogData) && state == old(state)
      ensures requests == old(requests) + [Request(GET, "/categories/", None)]
    {
      var client := GetApiClient(userId, baseUrl);
      var fetched := client.GetCategories(respond);
      client.Close();
      requests := requests + client.sent;
      view := CategoriesWindow(fetched);
    }

    /**
     * `on_category_selected`: record the chosen id, look its name up among
     * the user's categories and go on to the due date; a name that is not
     * found leaves the previous `category_name`; when the lookup raises, the
     * id stays recorded and the state does not change.
     */
    method OnCategorySelected(itemId: string, respond: (Connection, Request) -> HttpResponse) returns (raised: bool)
      modifies this
      ensures requests == old(requests) + [Request(GET, "/categories/", None)]
      ensures var w := CategoriesWindow(ListAnswer(userId, baseUrl, respond, "/categories/"));
        var found := if w.None? then Raised else SearchCategories(w.value.categories, itemId);
        var d := old(dialogData)["category_id" := JStr(itemId)];
        && raised == found.Raised?
        && (found.Raised? ==> dialogData == d && state == old(state))
        && (found.Missing? ==> dialogData == d && state == EnterDueDate)
        && (found.Found? ==> dialogData == d["category_name" := found.name] && state == EnterDueDate)
    {
      dialogData := dialogData["category_id" := JStr(itemId)];
      var view := GetCategoriesData(respond);
      if view.None? {
        return true;
      }
      var found: Search;
      if view.value.categories.JArray? {
        found := FindCategory(view.value.categories.items, itemId);
      } else {
        found := SearchCategories(view.value.categories, itemId);
      }
      if found.Raised? {
        return true;
      }
      if found.Found? {
        dialogData := dialogData["category_name" := found.name];
      }
      state := EnterDueDate;
      raised := false;
    }

    /** `on_skip_category`: no category, shown as "Без категории". */
    method OnSkipCategory()
      modifies this
      ensures dialogData == old(dialogData)["category_id" := JNull]["category_name" := JStr(NoCategory)]
      ensures state == EnterDueDate && requests == old(requests)
    {
      dialogData := dialogData["category_id" := JNull]["category_name" := JStr(NoCategory)];
      state := EnterDueDate;
    }

    /**
     * `on_new_category_input`: create a category with the stripped name and
     * select it; an answer without `id` or `name`, or a failed request, is
     * reported, after the id when only the name is missing.
     */
    method OnNewCategoryInput(text: Option<string>, respond: (Connection, Request) -> HttpResponse, describe: Failure -> string)
      returns (reply: Option<string>)
      modifies this
      ensures text.None? ==> reply == None && dialogData == old(dialogData) && state == old(state) && requests == old(requests)
      ensures text.Some? ==>
        var name := Strip(text.value);
        var request := Request(POST, "/categories/", Some(JObject(map["name" := JStr(name)])));
        var r := Answer(userId, baseUrl, respond, request);
        && requests == old(requests) + [request]
        && (r.Err? ==>
              (reply == Some(CategoryErrorPrefix + describe(HttpStatus(r.error))) && dialogData == old(dialogData) && state == old(state)))
        && (r.Ok? && !r.value.JObject? ==>
              (reply == Some(CategoryErrorPrefix + describe(NotSubscriptable)) && dialogData == old(dialogData) && state == old(state)))
        && (r.Ok? && r.value.JObject? && "id" !in r.value.fields ==>
              (reply == Some(CategoryErrorPrefix + describe(MissingKey("id"))) && dialogData == old(dialogData) && state == old(state)))
        && (r.Ok? && r.value.JObject? && "id" in r.value.fields && "name" !in r.value.fields ==>
              reply == Some(CategoryErrorPrefix + describe(MissingKey("name")))
              && dialogData == old(dialogData)["category_id" := r.value.fields["id"]] && state == old(state))
        && (r.Ok? && r.value.JObject? && "id" in r.value.fields && "name" in r.value.fields ==>
              reply == Some(CategoryCreatedReply(name)) && state == EnterDueDate
              && dialogData == old(dialogData)["category_id" := r.value.fields["id"]]["category_name" := r.value.fields["name"]])
    {
      if text.None? {
        return None;
      }
      var name := Strip(text.value);
      var client := GetApiClient(userId, baseUrl);
      var r := client.CreateCategory(name, respond);
      if r.Err? {
        reply := Some(CategoryErrorPrefix + describe(HttpStatus(r.error)));
      } else if !r.value.JObject? {
        reply := Some(CategoryErrorPrefix + describe(NotSubscriptable));
      } else if "id" !in r.value.fields {
        reply := Some(CategoryErrorPrefix + describe(MissingKey("id")));
      } else {
        dialogData := dialogData["category_id" := r.value.fields["id"]];
        if "name" !in r.value.fields {
          reply := Some(CategoryErrorPrefix + describe(MissingKey("name")));
        } else {
          dialogData := dialogData["category_name" := r.value.fields["name"]];
          reply := Some(CategoryCreatedReply(name));
          state := EnterDueDate;
        }
      }
      client.Close();
      requests := requests + client.sent;
    }

    /**
     * `on_due_date_input`: the first of the four formats that parses the
     * stripped text decides; the ISO form is stored and the text as typed is
     * shown. Text no format accepts is answered with the format hint and
     * changes nothing; a message without text raises before anything changes.
     */
    method OnDueDateInput(text: Option<string>) returns (reply: Option<string>)
      modifies this
      ensures requests == old(requests)
      ensures text.None? ==> reply == None && dialogData == old(dialogData) && state == old(state)
      ensures text.Some? && ParseDueDate(text.value).None? ==>
        reply == Some(BadDateFormat) && dialogData == old(dialogData) && state == old(state)
      ensures text.Some? && ParseDueDate(text.value).Some? ==>
        && reply == None && state == Confirm
        && dialogData == old(dialogData)["due_date" := JStr(IsoFormat(ParseDueDate(text.value).value))]
                                        ["due_date_display" := JStr(Strip(text.value))]
    {
      if text.None? {
        return None;
      }
      var t := Strip(text.value);
      var parsed := ParseDueDateText(t);
      if parsed.None? {
        return Some(BadDateFormat);
      }
      dialogData := dialogData["due_date" := JStr(IsoFormat(parsed.value))]["due_date_display" := JStr(t)];
      state := Confirm;
      reply := None;
    }

    /** `on_skip_due_date`: no due date, shown as "Не указан". */
    method OnSkipDueDate()
      modifies this
      ensures dialogData == old(dialogData)["due_date" := JNull]["due_date_display" := JStr(NoDueDate)]
      ensures state == Confirm && requests == old(requests)
    {
      dialogData := dialogData["due_date" := JNull]["due_date_display" := JStr(NoDueDate)];
      state := Confirm;
    }

    /**
     * `on_confirm_create`: send the collected task; on success close the
     * wizard, which returns to the task list that started it.
     */
    method OnConfirmCreate(respond: (Connection, Request) -> HttpResponse, describe: Failure -> string)
      returns (reply: string)
      modifies this
      ensures dialogData == old(dialogData)
      ensures var request := ConfirmRequest(old(dialogData));
        var r := Answer(userId, baseUrl, respond, request);
        && requests == old(requests) + [request]
        && (r.Ok? ==> reply == TaskCreated && state == TaskList)
        && (r.Err? ==> reply == ErrorPrefix + describe(HttpStatus(r.error)) && state == old(state))
    {
      var client := GetApiClient(userId, baseUrl);
      var r := client.CreateTask(Get(dialogData, "title", JStr("")), Get(dialogData, "description", JStr("")),
        Get(dialogData, "category_id", JNull), Get(dialogData, "due_date", JNull), respond);
      if r.Ok? {
        reply := TaskCreated;
        state := TaskList;
      } else {
        reply := ErrorPrefix + describe(HttpStatus(r.error));
      }
      client.Close();
      requests := requests + client.sent;
    }
  }
}

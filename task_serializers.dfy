/**
 * The three task serializers: the full one (every column, with the
 * category nested as `{id, name}` and the server-maintained columns
 * read-only), the create serializer (four writable fields and the
 * ownership check on the category) and the list serializer (a summary row
 * with the category's name).
 */
module TaskSerializers {
  import opened Common
  import opened Text
  import opened Json
  import opened DateTimes
  import opened Models
  import opened Fields

  // ---------------------------------------------------------------------------
  // Output
  // ---------------------------------------------------------------------------

  /** `CategoryListSerializer`: a category as `{id, name}`. */
  function CategoryBrief(c: Category): (j: Json)
    ensures Truthy(j)
  {
    assert "id" in map["id" := JStr(c.id), "name" := JStr(c.name)];
    JObject(map["id" := JStr(c.id), "name" := JStr(c.name)])
  }

  function CategoryKeyJson(category: Option<Id>): Json {
    match category
    case None => JNull
    case Some(id) => JStr(id)
  }

  function CategoryDetail(cs: seq<Category>, t: Task): (j: Json)
    ensures j == JNull || Truthy(j)
  {
    match CategoryOf(cs, t)
    case None => JNull
    case Some(c) => CategoryBrief(c)
  }

  /**
   * The value a serializer field renders for a task: the column itself, the
   * category's key under `category`, its nested form under
   * `category_detail` and its name under `category_name`.
   */
  function Rendered(t: Task, cs: seq<Category>, k: Key): Json
    requires ValidTask(t)
  {
    match k
    case IdKey => JStr(t.id)
    case TitleKey => JStr(t.title)
    case DescriptionKey => JStr(t.description)
    case TelegramIdKey => JInt(t.telegramId)
    case CategoryKey => CategoryKeyJson(t.category)
    case CategoryDetailKey => CategoryDetail(cs, t)
    case DueDateKey => DateTimeJson(t.dueDate)
    case IsCompletedKey => JBool(t.isCompleted)
    case NotificationSentKey => JBool(t.notificationSent)
    case CreatedAtKey => DateTimeJson(Some(t.createdAt))
    case UpdatedAtKey => DateTimeJson(Some(t.updatedAt))
    case CategoryNameKey => (match GetCategoryName(cs, t) case None => JNull case Some(n) => JStr(n))
    case NameKey => JNull  // a category field, never rendered for a task
  }

  /** The full serializer's declared fields. */
  const DeclaredKeys: set<Key> :=
    {IdKey, TitleKey, DescriptionKey, TelegramIdKey, CategoryKey, CategoryDetailKey, DueDateKey,
     IsCompletedKey, NotificationSentKey, CreatedAtKey, UpdatedAtKey}

  /** The full serializer's fields as the model serializer renders them, before the override. */
  function BaseRepresentation(t: Task, cs: seq<Category>): map<Key, Json>
    requires ValidTask(t)
  {
    map k | k in DeclaredKeys :: Rendered(t, cs, k)
  }

  const RepresentationKeys: set<Key> :=
    {IdKey, TitleKey, DescriptionKey, TelegramIdKey, CategoryKey, DueDateKey,
     IsCompletedKey, NotificationSentKey, CreatedAtKey, UpdatedAtKey}

  /**
   * What a client receives for one task: the ten columns, with `category`
   * holding the nested category, or null when there is none.
   */
  function TaskRepresentation(t: Task, cs: seq<Category>): map<Key, Json>
    requires ValidTask(t)
  {
    map k | k in RepresentationKeys :: if k == CategoryKey then CategoryDetail(cs, t) else Rendered(t, cs, k)
  }

  /**
   * `TaskSerializer.to_representation`: the default rendering, then the
   * primary key under `category` is dropped and the nested detail, when it
   * is truthy, moves into its place.
   */
  method ToRepresentation(t: Task, cs: seq<Category>) returns (data: map<Key, Json>)
    requires ValidTask(t)
    ensures data == TaskRepresentation(t, cs)
  {
    ghost var base := BaseRepresentation(t, cs);
    BaseCategoryEntries(t, cs);
    data := BaseRepresentation(t, cs);
    if CategoryKey in data {
      data := data - {CategoryKey};
    }
    if CategoryDetailKey in data && Truthy(data[CategoryDetailKey]) {
      var detail := data[CategoryDetailKey];
      data := data - {CategoryDetailKey};
      data := data[CategoryKey := detail];
      DropThenSet(base, CategoryKey, CategoryDetailKey, detail);
    } else {
      data := data[CategoryKey := JNull];
      data := data - {CategoryDetailKey};
      SetThenDrop(base, CategoryKey, CategoryDetailKey, JNull);
    }
    RepresentationFromBase(t, cs);
  }

  /** The default rendering always holds both category entries. */
  lemma BaseCategoryEntries(t: Task, cs: seq<Category>)
    requires ValidTask(t)
    ensures CategoryKey in BaseRepresentation(t, cs) && CategoryDetailKey in BaseRepresentation(t, cs)
    ensures BaseRepresentation(t, cs)[CategoryDetailKey] == CategoryDetail(cs, t)
  {
  }

  lemma DropThenSet(m: map<Key, Json>, a: Key, b: Key, v: Json)
    requires a != b
    ensures ((m - {a}) - {b})[a := v] == (m - {a, b})[a := v]
  {
  }

  lemma SetThenDrop(m: map<Key, Json>, a: Key, b: Key, v: Json)
    requires a != b
    ensures ((m - {a})[a := v]) - {b} == (m - {a, b})[a := v]
  {
  }

  /** The override's result, in terms of the default rendering. */
  lemma RepresentationFromBase(t: Task, cs: seq<Category>)
    requires ValidTask(t)
    ensures TaskRepresentation(t, cs)
         == (BaseRepresentation(t, cs) - {CategoryKey, CategoryDetailKey})[CategoryKey := CategoryDetail(cs, t)]
  {
    var f := k => Rendered(t, cs, k);
    DeclaredKeysMinusDetail();
    OverrideComprehension(f, DeclaredKeys, RepresentationKeys, CategoryKey, CategoryDetailKey, CategoryDetail(cs, t));
  }

  lemma DeclaredKeysMinusDetail()
    ensures RepresentationKeys == DeclaredKeys - {CategoryDetailKey}
    ensures CategoryKey in DeclaredKeys && CategoryDetailKey in DeclaredKeys
  {
  }

  /** Dropping two keys of a comprehension and setting one of them again. */
  lemma OverrideComprehension(f: Key -> Json, d: set<Key>, r: set<Key>, a: Key, b: Key, v: Json)
    requires a != b && a in d && b in d && r == d - {b}
    ensures (map k | k in r :: if k == a then v else f(k)) == ((map k | k in d :: f(k)) - {a, b})[a := v]
  {
    var lhs := map k | k in r :: if k == a then v else f(k);
    var rhs := ((map k | k in d :: f(k)) - {a, b})[a := v];
    assert lhs.Keys == rhs.Keys;
  }

  /** The ten column keys are every key except the nested detail and the two names. */
  lemma RepresentationKeysExact(k: Key)
    ensures k in RepresentationKeys <==> k != CategoryDetailKey && k != CategoryNameKey && k != NameKey
  {
  }

  /** A rendered task has exactly the ten column keys: no `category_detail`. */
  lemma TaskRepresentationKeys(t: Task, cs: seq<Category>)
    requires ValidTask(t)
    ensures forall k :: k in TaskRepresentation(t, cs) <==> k != CategoryDetailKey && k != CategoryNameKey && k != NameKey
  {
    forall k: Key ensures k in TaskRepresentation(t, cs) <==> k in RepresentationKeys {
    }
    forall k: Key ensures k in RepresentationKeys <==> k != CategoryDetailKey && k != CategoryNameKey && k != NameKey {
      RepresentationKeysExact(k);
    }
  }

  /**
   * The `category` of a rendered task is null iff the task has none, and
   * otherwise names that category's key and name; the owner is its own.
   */
  lemma TaskRepresentationCategory(t: Task, cs: seq<Category>)
    requires ValidTask(t) && ReferencesResolveOne(t, cs)
    ensures var r := TaskRepresentation(t, cs);
      && (r[CategoryKey] == JNull <==> t.category.None?)
      && (t.category.Some? ==>
            r[CategoryKey] == JObject(map["id" := JStr(t.category.value), "name" := JStr(CategoryOf(cs, t).value.name)]))
      && r[TelegramIdKey] == JInt(t.telegramId)
  {
  }

  /** The three timestamps of a rendering, read back. */
  ghost predicate ReadsBack(r: map<Key, Json>, dueDate: Option<DateTime>, createdAt: DateTime, updatedAt: DateTime) {
    && DueDateKey in r && CreatedAtKey in r && UpdatedAtKey in r
    && (r[DueDateKey] == JNull <==> dueDate.None?)
    && (dueDate.Some? ==> r[DueDateKey].JStr? && ParseApiDateTime(r[DueDateKey].s) == dueDate)
    && r[CreatedAtKey].JStr? && ParseApiDateTime(r[CreatedAtKey].s) == Some(createdAt)
    && r[UpdatedAtKey].JStr? && ParseApiDateTime(r[UpdatedAtKey].s) == Some(updatedAt)
  }

  /** A column other than `category` is rendered as the model serializer renders it. */
  lemma RenderedAt(t: Task, cs: seq<Category>, k: Key)
    requires ValidTask(t) && k in RepresentationKeys && k != CategoryKey
    ensures k in TaskRepresentation(t, cs) && TaskRepresentation(t, cs)[k] == Rendered(t, cs, k)
  {
  }

  lemma DueDateEntry(t: Task, cs: seq<Category>)
    requires ValidTask(t)
    ensures DueDateKey in TaskRepresentation(t, cs) && TaskRepresentation(t, cs)[DueDateKey] == DateTimeJson(t.dueDate)
  {
    RenderedAt(t, cs, DueDateKey);
  }

  lemma CreatedAtEntry(t: Task, cs: seq<Category>)
    requires ValidTask(t)
    ensures CreatedAtKey in TaskRepresentation(t, cs)
    ensures TaskRepresentation(t, cs)[CreatedAtKey] == DateTimeJson(Some(t.createdAt))
  {
    RenderedAt(t, cs, CreatedAtKey);
    RenderedCreatedAt(t, cs);
  }

  lemma RenderedCreatedAt(t: Task, cs: seq<Category>)
    requires ValidTask(t)
    ensures Rendered(t, cs, CreatedAtKey) == DateTimeJson(Some(t.createdAt))
  {
  }

  lemma UpdatedAtEntry(t: Task, cs: seq<Category>)
    requires ValidTask(t)
    ensures UpdatedAtKey in TaskRepresentation(t, cs)
    ensures TaskRepresentation(t, cs)[UpdatedAtKey] == DateTimeJson(Some(t.updatedAt))
  {
    RenderedAt(t, cs, UpdatedAtKey);
    RenderedUpdatedAt(t, cs);
  }

  lemma RenderedUpdatedAt(t: Task, cs: seq<Category>)
    requires ValidTask(t)
    ensures Rendered(t, cs, UpdatedAtKey) == DateTimeJson(Some(t.updatedAt))
  {
  }

  lemma TaskRepresentationDates(t: Task, cs: seq<Category>)
    requires ValidTask(t)
    ensures ReadsBack(TaskRepresentation(t, cs), t.dueDate, t.createdAt, t.updatedAt)
  {
    DueDateEntry(t, cs);
    CreatedAtEntry(t, cs);
    UpdatedAtEntry(t, cs);
    DateTimeJsonReadBack(t.dueDate);
    DateTimeJsonReadBack(Some(t.createdAt));
    DateTimeJsonReadBack(Some(t.updatedAt));
  }

  /** `TaskListSerializer.get_category_name`. */
  function GetCategoryName(cs: seq<Category>, t: Task): (r: Option<string>)
    ensures ReferencesResolveOne(t, cs) ==> (r.None? <==> t.category.None?)
    ensures r.Some? ==> exists c :: c in cs && c.id == t.category.value && c.name == r.value
  {
    match CategoryOf(cs, t)
    case None => None
    case Some(c) => Some(c.name)
  }

  const ListKeys: set<Key> := {IdKey, TitleKey, CategoryNameKey, DueDateKey, IsCompletedKey, CreatedAtKey}

  /** `TaskListSerializer`: the summary row of the list endpoint. */
  function ListRepresentation(t: Task, cs: seq<Category>): map<Key, Json>
    requires ValidTask(t)
  {
    map k | k in ListKeys :: Rendered(t, cs, k)
  }

  /**
   * A summary row has the six keys of the list serializer; its
   * `category_name` is the category's name, or null iff there is none,
   * and its dates read back.
   */
  lemma ListRepresentationReads(t: Task, cs: seq<Category>)
    requires ValidTask(t) && ReferencesResolveOne(t, cs)
    ensures var r := ListRepresentation(t, cs);
      && (forall k :: k in r <==> k in {IdKey, TitleKey, CategoryNameKey, DueDateKey, IsCompletedKey, CreatedAtKey})
      && (r[CategoryNameKey] == JNull <==> t.category.None?)
      && (t.category.Some? ==> r[CategoryNameKey] == JStr(CategoryOf(cs, t).value.name))
      && (r[DueDateKey] == JNull <==> t.dueDate.None?)
      && (t.dueDate.Some? ==> r[DueDateKey].JStr? && ParseApiDateTime(r[DueDateKey].s) == t.dueDate)
  {
    var r := ListRepresentation(t, cs);
    assert r[DueDateKey] == DateTimeJson(t.dueDate);
    DateTimeJsonReadBack(t.dueDate);
  }

  // ---------------------------------------------------------------------------
  // Create
  // ---------------------------------------------------------------------------

  const NotYourCategory := "Category does not belong to this user."

  /**
   * `TaskCreateSerializer.validate_category`: no category passes; a category
   * is refused only when the context names a non-zero user who does not own
   * it (user 0 is falsy and switches the check off).
   */
  function ValidateCategory(value: Option<Category>, contextTelegramId: Option<int>): (r: Result<Option<Category>, string>)
    ensures r.Ok? ==> r.value == value
    ensures r.Err? <==>
      value.Some? && contextTelegramId.Some? && contextTelegramId.value != 0
      && value.value.telegramId != contextTelegramId.value
    ensures r.Err? ==> r.error == NotYourCategory
  {
    match value
    case None => Ok(value)
    case Some(c) =>
      if contextTelegramId.Some? && contextTelegramId.value != 0 && c.telegramId != contextTelegramId.value then
        Err(NotYourCategory)
      else Ok(value)
  }

  datatype CreateFields = CreateFields(
    title: string,
    description: string,
    category: Option<Category>,
    dueDate: Option<DateTime>)

  /** The create serializer's category: an existing key, then the ownership check. */
  function CreateCategory(v: Option<Json>, cs: seq<Category>, contextTelegramId: Option<int>): (r: Result<Option<Category>, seq<string>>)
    ensures v.None? ==> r == Ok(None)
    ensures r.Ok? && r.value.Some? ==> r.value.value in cs
    ensures r.Ok? && r.value.Some? && contextTelegramId.Some? && contextTelegramId.value != 0 ==>
      r.value.value.telegramId == contextTelegramId.value
    ensures r.Err? ==> r.error != []
  {
    if v.None? then Ok(None)
    else
      var pk := CategoryPkValue(v.value, cs);
      if pk.Err? then Err(pk.error)
      else
        var owned := ValidateCategory(pk.value, contextTelegramId);
        if owned.Err? then Err([owned.error]) else Ok(owned.value)
  }

  /** The nullable `due_date` of a body, or the given value when the key is absent. */
  function DueDateField(data: map<string, Json>, absent: Option<DateTime>): (r: Result<Option<DateTime>, seq<string>>)
    ensures "due_date" !in data ==> r == Ok(absent)
    ensures "due_date" in data ==> r == DateTimeValue(data["due_date"])
  {
    if "due_date" in data then DateTimeValue(data["due_date"]) else Ok(absent)
  }

  function CreateTitle(data: map<string, Json>): Result<string, seq<string>> {
    TextField(data, TitleKey, false, Some(TitleMaxLength), Err([Required]))
  }

  function CreateDescription(data: map<string, Json>): Result<string, seq<string>> {
    TextField(data, DescriptionKey, true, None, Ok(""))
  }

  /** The fields of the create serializer. */
  const CreateKeys: set<Key> := {TitleKey, DescriptionKey, CategoryKey, DueDateKey}

  /**
   * The outcome of the create serializer from the outcomes of its four
   * fields: their values when all are accepted, otherwise the messages of
   * exactly the failing ones.
   */
  function CreateOutcome(
    title: Result<string, seq<string>>, description: Result<string, seq<string>>,
    category: Result<Option<Category>, seq<string>>, dueDate: Result<Option<DateTime>, seq<string>>): (r: Result<CreateFields, Errors>)
    ensures r.Ok? <==> title.Ok? && description.Ok? && category.Ok? && dueDate.Ok?
    ensures r.Ok? ==> r.value == CreateFields(title.value, description.value, category.value, dueDate.value)
    ensures r.Err? ==>
      && Reports(r.error, TitleKey, title) && Reports(r.error, DescriptionKey, description)
      && Reports(r.error, CategoryKey, category) && Reports(r.error, DueDateKey, dueDate)
    ensures r.Err? ==> forall k :: k in r.error ==> k in CreateKeys
  {
    if title.Ok? && description.Ok? && category.Ok? && dueDate.Ok? then
      Ok(CreateFields(title.value, description.value, category.value, dueDate.value))
    else
      Err(map k | k in CreateKeys && CreateFailure(title, description, category, dueDate, k).Some? ::
            CreateFailure(title, description, category, dueDate, k).value)
  }

  function CreateFailure(
    title: Result<string, seq<string>>, description: Result<string, seq<string>>,
    category: Result<Option<Category>, seq<string>>, dueDate: Result<Option<DateTime>, seq<string>>, k: Key): Option<seq<string>>
  {
    match k
    case TitleKey => Failure(title)
    case DescriptionKey => Failure(description)
    case CategoryKey => Failure(category)
    case DueDateKey => Failure(dueDate)
    case _ => None
  }

  /**
   * `TaskCreateSerializer.is_valid()`: the body is accepted iff each of its
   * four fields is, and then yields their values; otherwise exactly the
   * failing fields are reported, each with its own messages.
   */
  function ValidateCreate(data: map<string, Json>, cs: seq<Category>, contextTelegramId: Option<int>): (r: Result<CreateFields, Errors>)
    ensures r.Ok? <==>
      && CreateTitle(data).Ok? && CreateDescription(data).Ok?
      && CreateCategory(Lookup(data, "category"), cs, contextTelegramId).Ok? && DueDateField(data, None).Ok?
    ensures r.Ok? ==> r.value == CreateFields(CreateTitle(data).value, CreateDescription(data).value,
      CreateCategory(Lookup(data, "category"), cs, contextTelegramId).value, DueDateField(data, None).value)
    ensures r.Err? ==>
      && Reports(r.error, TitleKey, CreateTitle(data))
      && Reports(r.error, DescriptionKey, CreateDescription(data))
      && Reports(r.error, CategoryKey, CreateCategory(Lookup(data, "category"), cs, contextTelegramId))
      && Reports(r.error, DueDateKey, DueDateField(data, None))
    ensures r.Err? ==> forall k :: k in r.error ==> k in CreateKeys
  {
    CreateOutcome(CreateTitle(data), CreateDescription(data),
      CreateCategory(Lookup(data, "category"), cs, contextTelegramId), DueDateField(data, None))
  }

  /**
   * What an accepted create body guarantees: a title that was given, is
   * stripped, non-blank and at most 255 characters; the defaults for absent
   * fields (empty description, no category, no due date); and a category
   * that exists and, for a non-zero user, is that user's own.
   */
  lemma AcceptedCreate(data: map<string, Json>, cs: seq<Category>, contextTelegramId: Option<int>)
    requires ValidateCreate(data, cs, contextTelegramId).Ok?
    ensures var f := ValidateCreate(data, cs, contextTelegramId).value;
      && "title" in data && f.title != "" && |f.title| <= TitleMaxLength
      && (data["title"].JStr? ==> f.title == Strip(data["title"].s))
      && ("description" !in data ==> f.description == "")
      && ("due_date" !in data ==> f.dueDate == None)
      && ("category" !in data ==> f.category == None)
      && (f.category.Some? ==> f.category.value in cs)
      && (f.category.Some? && contextTelegramId.Some? && contextTelegramId.value != 0 ==>
            f.category.value.telegramId == contextTelegramId.value)
  {
  }

  /** A body without a title is refused, and the title is reported as required. */
  lemma TitleRequired(data: map<string, Json>, cs: seq<Category>, contextTelegramId: Option<int>)
    requires "title" !in data
    ensures var r := ValidateCreate(data, cs, contextTelegramId);
      r.Err? && TitleKey in r.error && r.error[TitleKey] == [Required]
  {
  }

  const CreateNames: set<string> := {"title", "description", "category", "due_date"}

  /** The create serializer accepts only its four fields: every other key of the body is ignored. */
  lemma CreateReadsOnlyItsFields(data: map<string, Json>, cs: seq<Category>, contextTelegramId: Option<int>)
    ensures ValidateCreate(data, cs, contextTelegramId)
         == ValidateCreate(map k | k in data && k in CreateNames :: data[k], cs, contextTelegramId)
  {
    var only := map k | k in data && k in CreateNames :: data[k];
    assert CreateTitle(only) == CreateTitle(data);
    assert CreateDescription(only) == CreateDescription(data);
    assert Lookup(data, "category") == Lookup(only, "category");
    assert DueDateField(only, None) == DueDateField(data, None);
  }

  /** In a table with distinct keys, a category is found by its own key. */
  lemma {:induction false} FindOwnCategory(cs: seq<Category>, k: nat)
    requires UniqueCategoryIds(cs) && k < |cs|
    ensures FindCategory(cs, cs[k].id) == Some(cs[k])
  {
    if k > 0 {
      assert cs[0].id != cs[k].id;
      assert cs[1..][k - 1] == cs[k];
      FindOwnCategory(cs[1..], k - 1);
    }
  }

  /** A non-zero user naming someone else's category by its key is refused, field by field. */
  lemma ForeignCategoryRefused(data: map<string, Json>, cs: seq<Category>, tid: int, k: nat)
    requires UniqueCategoryIds(cs) && k < |cs|
    requires tid != 0 && cs[k].telegramId != tid && cs[k].id != ""
    requires "category" in data && data["category"] == JStr(cs[k].id)
    ensures var r := ValidateCreate(data, cs, Some(tid));
      r.Err? && CategoryKey in r.error && r.error[CategoryKey] == [NotYourCategory]
  {
    FindOwnCategory(cs, k);
  }

  /** The same key is accepted for the owner, and for every category when the user is 0. */
  lemma OwnCategoryAccepted(cs: seq<Category>, tid: int, k: nat)
    requires UniqueCategoryIds(cs) && k < |cs|
    requires cs[k].telegramId == tid || tid == 0
    requires cs[k].id != ""
    ensures CreateCategory(Some(JStr(cs[k].id)), cs, Some(tid)) == Ok(Some(cs[k]))
  {
    FindOwnCategory(cs, k);
  }

  /** The row `serializer.save(telegram_id=...)` creates from validated fields. */
  function CreatedTask(id: Id, telegramId: int, f: CreateFields, now: DateTime): (t: Task)
    ensures t.id == id && t.telegramId == telegramId
    ensures t.title == f.title && t.description == f.description && t.dueDate == f.dueDate
    ensures t.category.Some? <==> f.category.Some?
    ensures f.category.Some? ==> t.category.value == f.category.value.id
    ensures !t.isCompleted && !t.notificationSent && t.createdAt == now && t.updatedAt == now
  {
    NewTask(id, telegramId, f.title, now).(
      description := f.description,
      category := if f.category.Some? then Some(f.category.value.id) else None,
      dueDate := f.dueDate)
  }

  /** A created row satisfies the column constraints and its category exists. */
  lemma CreatedTaskValid(id: Id, telegramId: int, data: map<string, Json>, cs: seq<Category>, now: DateTime)
    requires ValidateCreate(data, cs, Some(telegramId)).Ok?
    requires IsBigInt(telegramId) && Valid(now)
    ensures var t := CreatedTask(id, telegramId, ValidateCreate(data, cs, Some(telegramId)).value, now);
      ValidTask(t) && ReferencesResolveOne(t, cs)
  {
    var f := ValidateCreate(data, cs, Some(telegramId)).value;
    if f.dueDate.Some? {
      assert "due_date" in data;
    }
    if f.category.Some? {
      var c := f.category.value;
      var i :| 0 <= i < |cs| && cs[i] == c;
    }
  }

  // ---------------------------------------------------------------------------
  // Partial update through the full serializer
  // ---------------------------------------------------------------------------

  const WritableNames: set<string> := {"title", "description", "category", "due_date", "is_completed"}

  function PkToKey(r: Result<Option<Category>, seq<string>>): (k: Result<Option<Id>, seq<string>>)
    ensures r.Err? <==> k.Err?
    ensures r.Err? ==> k.error == r.error
    ensures r.Ok? ==> (k.value.Some? <==> r.value.Some?)
    ensures r.Ok? && r.value.Some? ==> k.value.value == r.value.value.id
  {
    if r.Err? then Err(r.error)
    else if r.value.Some? then Ok(Some(r.value.value.id)) else Ok(None)
  }

  function UpdateTitle(t: Task, data: map<string, Json>): Result<string, seq<string>> {
    TextField(data, TitleKey, false, Some(TitleMaxLength), Ok(t.title))
  }

  function UpdateDescription(t: Task, data: map<string, Json>): Result<string, seq<string>> {
    TextField(data, DescriptionKey, true, None, Ok(t.description))
  }

  function UpdateCategory(t: Task, data: map<string, Json>, cs: seq<Category>): Result<Option<Id>, seq<string>> {
    if "category" in data then PkToKey(CategoryPkValue(data["category"], cs)) else Ok(t.category)
  }

  function UpdateCompletion(t: Task, data: map<string, Json>): Result<bool, seq<string>> {
    if "is_completed" in data then BoolValue(data["is_completed"]) else Ok(t.isCompleted)
  }

  /** The writable fields of the full serializer. */
  const UpdateKeys: set<Key> := {TitleKey, DescriptionKey, CategoryKey, DueDateKey, IsCompletedKey}

  /**
   * The outcome of a partial update from the outcomes of its five fields:
   * the row with those values and the save time, or the messages of exactly
   * the failing fields.
   */
  function UpdateOutcome(
    t: Task, title: Result<string, seq<string>>, description: Result<string, seq<string>>,
    category: Result<Option<Id>, seq<string>>, dueDate: Result<Option<DateTime>, seq<string>>,
    isCompleted: Result<bool, seq<string>>, now: DateTime): (r: Result<Task, Errors>)
    ensures r.Ok? <==> title.Ok? && description.Ok? && category.Ok? && dueDate.Ok? && isCompleted.Ok?
    ensures r.Ok? ==> r.value == t.(title := title.value, description := description.value,
      category := category.value, dueDate := dueDate.value, isCompleted := isCompleted.value, updatedAt := now)
    ensures r.Err? ==>
      && Reports(r.error, TitleKey, title) && Reports(r.error, DescriptionKey, description)
      && Reports(r.error, CategoryKey, category) && Reports(r.error, DueDateKey, dueDate)
      && Reports(r.error, IsCompletedKey, isCompleted)
    ensures r.Err? ==> forall k :: k in r.error ==> k in UpdateKeys
  {
    if title.Ok? && description.Ok? && category.Ok? && dueDate.Ok? && isCompleted.Ok? then
      Ok(t.(title := title.value, description := description.value, category := category.value,
            dueDate := dueDate.value, isCompleted := isCompleted.value, updatedAt := now))
    else
      Err(map k | k in UpdateKeys && UpdateFailure(title, description, category, dueDate, isCompleted, k).Some? ::
            UpdateFailure(title, description, category, dueDate, isCompleted, k).value)
  }

  function UpdateFailure(
    title: Result<string, seq<string>>, description: Result<string, seq<string>>,
    category: Result<Option<Id>, seq<string>>, dueDate: Result<Option<DateTime>, seq<string>>,
    isCompleted: Result<bool, seq<string>>, k: Key): Option<seq<string>>
  {
    match k
    case TitleKey => Failure(title)
    case DescriptionKey => Failure(description)
    case CategoryKey => Failure(category)
    case DueDateKey => Failure(dueDate)
    case IsCompletedKey => Failure(isCompleted)
    case _ => None
  }

  /**
   * `TaskSerializer(task, data, partial=True)` followed by `save()`: the
   * body is accepted iff each writable field present in it is; each such
   * field replaces its column and `updated_at` becomes the save time;
   * otherwise exactly the failing fields are reported. The category key is
   * checked to exist, not to belong to the task's owner.
   */
  function PartialUpdate(t: Task, data: map<string, Json>, cs: seq<Category>, now: DateTime): (r: Result<Task, Errors>)
    ensures r.Ok? <==>
      && UpdateTitle(t, data).Ok? && UpdateDescription(t, data).Ok? && UpdateCategory(t, data, cs).Ok?
      && DueDateField(data, t.dueDate).Ok? && UpdateCompletion(t, data).Ok?
    ensures r.Ok? ==> r.value == t.(
      title := UpdateTitle(t, data).value, description := UpdateDescription(t, data).value,
      category := UpdateCategory(t, data, cs).value, dueDate := DueDateField(data, t.dueDate).value,
      isCompleted := UpdateCompletion(t, data).value, updatedAt := now)
    ensures r.Err? ==>
      && Reports(r.error, TitleKey, UpdateTitle(t, data))
      && Reports(r.error, DescriptionKey, UpdateDescription(t, data))
      && Reports(r.error, CategoryKey, UpdateCategory(t, data, cs))
      && Reports(r.error, DueDateKey, DueDateField(data, t.dueDate))
      && Reports(r.error, IsCompletedKey, UpdateCompletion(t, data))
    ensures r.Err? ==> forall k :: k in r.error ==> k in UpdateKeys
  {
    UpdateOutcome(t, UpdateTitle(t, data), UpdateDescription(t, data), UpdateCategory(t, data, cs),
      DueDateField(data, t.dueDate), UpdateCompletion(t, data), now)
  }

  /**
   * The read-only columns (`id`, `telegram_id`, `notification_sent`,
   * `created_at`) survive every accepted update, `updated_at` is the save
   * time, a field absent from the body keeps its value, and a valid row
   * stays valid.
   */
  lemma PartialUpdateKeepsReadOnly(t: Task, data: map<string, Json>, cs: seq<Category>, now: DateTime)
    requires PartialUpdate(t, data, cs, now).Ok?
    ensures var u := PartialUpdate(t, data, cs, now).value;
      && u.id == t.id && u.telegramId == t.telegramId
      && u.notificationSent == t.notificationSent
      && u.createdAt == t.createdAt && u.updatedAt == now
      && ("title" !in data ==> u.title == t.title)
      && ("description" !in data ==> u.description == t.description)
      && ("category" !in data ==> u.category == t.category)
      && ("due_date" !in data ==> u.dueDate == t.dueDate)
      && ("is_completed" !in data ==> u.isCompleted == t.isCompleted)
      && ("is_completed" in data ==> BoolValue(data["is_completed"]) == Ok(u.isCompleted))
  {
  }

  lemma PartialUpdateKeepsValid(t: Task, data: map<string, Json>, cs: seq<Category>, now: DateTime)
    requires PartialUpdate(t, data, cs, now).Ok?
    requires ValidTask(t) && ReferencesResolveOne(t, cs) && Valid(now)
    ensures var u := PartialUpdate(t, data, cs, now).value;
      ValidTask(u) && ReferencesResolveOne(u, cs)
  {
    var u := PartialUpdate(t, data, cs, now).value;
    if u.category.Some? && "category" in data {
      var c := CategoryPkValue(data["category"], cs).value.value;
      var i :| 0 <= i < |cs| && cs[i] == c;
    }
  }

  /** Setting a read-only or unknown key in the body changes nothing about the update. */
  lemma PartialUpdateIgnoresReadOnly(t: Task, data: map<string, Json>, cs: seq<Category>, now: DateTime, key: string, v: Json)
    requires key !in WritableNames
    ensures PartialUpdate(t, data[key := v], cs, now) == PartialUpdate(t, data, cs, now)
  {
    var data' := data[key := v];
    assert UpdateTitle(t, data') == UpdateTitle(t, data);
    assert UpdateDescription(t, data') == UpdateDescription(t, data);
    assert UpdateCategory(t, data', cs) == UpdateCategory(t, data, cs);
    assert DueDateField(data', t.dueDate) == DueDateField(data, t.dueDate);
    assert UpdateCompletion(t, data') == UpdateCompletion(t, data);
  }

  /** An update may attach a category of another user: only its existence is checked. */
  lemma PartialUpdateAcceptsForeignCategory(t: Task, cs: seq<Category>, now: DateTime, k: nat)
    requires UniqueCategoryIds(cs) && k < |cs| && cs[k].telegramId != t.telegramId && cs[k].id != ""
    ensures PartialUpdate(t, map["category" := JStr(cs[k].id)], cs, now)
         == Ok(t.(category := Some(cs[k].id), updatedAt := now))
  {
    FindOwnCategory(cs, k);
  }
}

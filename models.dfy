/**
 * The two stored records, `Task` and `Category`, with their field defaults,
 * length limits, nullability, default orderings, the per-user uniqueness of
 * category names, the `ON DELETE SET NULL` rule of the task's category and
 * the `__str__` renderings.
 */
module Models {
  import opened Common
  import opened Text
  import opened DateTimes
  import opened Sorting

  /** A primary key (a ULID in the database); only equality matters. */
  type Id = string

  const TitleMaxLength := 255
  const NameMaxLength := 100

  /** `telegram_id` is a `BigIntegerField`: a signed 64-bit integer. */
  predicate IsBigInt(i: int) {
    -0x8000_0000_0000_0000 <= i < 0x8000_0000_0000_0000
  }

  datatype Category = Category(
    id: Id,
    telegramId: int,
    name: string,
    createdAt: DateTime,
    updatedAt: DateTime)

  datatype Task = Task(
    id: Id,
    telegramId: int,
    title: string,
    description: string,
    category: Option<Id>,        // foreign key, nullable
    dueDate: Option<DateTime>,   // nullable
    isCompleted: bool,
    notificationSent: bool,
    createdAt: DateTime,
    updatedAt: DateTime)

  /** What the column types and lengths admit. */
  predicate ValidCategory(c: Category) {
    IsBigInt(c.telegramId) && |c.name| <= NameMaxLength && Valid(c.createdAt) && Valid(c.updatedAt)
  }

  predicate ValidTask(t: Task) {
    && IsBigInt(t.telegramId)
    && |t.title| <= TitleMaxLength
    && (t.dueDate.Some? ==> Valid(t.dueDate.value))
    && Valid(t.createdAt) && Valid(t.updatedAt)
  }

  /**
   * A row as the database creates it from the given columns: every other
   * column takes its default (`description = ""`, no category, no due date,
   * not completed, not notified) and both timestamps are the creation time.
   */
  function NewTask(id: Id, telegramId: int, title: string, now: DateTime): (t: Task)
    ensures t.id == id && t.telegramId == telegramId && t.title == title
    ensures t.description == "" && t.category == None && t.dueDate == None
    ensures !t.isCompleted && !t.notificationSent
    ensures t.createdAt == now && t.updatedAt == now
  {
    Task(id, telegramId, title, "", None, None, false, false, now, now)
  }

  lemma NewTaskValid(id: Id, telegramId: int, title: string, now: DateTime)
    requires IsBigInt(telegramId) && |title| <= TitleMaxLength && Valid(now)
    ensures ValidTask(NewTask(id, telegramId, title, now))
  {
  }

  function NewCategory(id: Id, telegramId: int, name: string, now: DateTime): (c: Category)
    ensures c.id == id && c.telegramId == telegramId && c.name == name
    ensures c.createdAt == now && c.updatedAt == now
  {
    Category(id, telegramId, name, now, now)
  }

  // ---------------------------------------------------------------------------
  // __str__
  // ---------------------------------------------------------------------------

  const OwnerPrefix := " (user: "

  /** `" (user: <telegram_id>)"`, the common tail of both renderings. */
  function OwnerSuffix(telegramId: int): (s: string)
    ensures |s| == |OwnerPrefix| + |IntToString(telegramId)| + 1
    ensures s[..|OwnerPrefix|] == OwnerPrefix && s[|s| - 1] == ')'
    ensures s[|OwnerPrefix|..|s| - 1] == IntToString(telegramId)
  {
    OwnerPrefix + IntToString(telegramId) + ")"
  }

  /** The owner's id is read back from the end of an owner suffix. */
  lemma OwnerSuffixParses(telegramId: int, head: string)
    ensures var s := head + OwnerSuffix(telegramId);
      var n := |IntToString(telegramId)|;
      ParseInt(s[|s| - 1 - n..|s| - 1]) == Some(telegramId)
  {
    OwnerSuffixDigits(telegramId, head);
    IntToStringParses(telegramId);
  }

  /** The owner's id sits just before the closing parenthesis. */
  lemma OwnerSuffixDigits(telegramId: int, head: string)
    ensures var s := head + OwnerSuffix(telegramId);
      var n := |IntToString(telegramId)|;
      s[|s| - 1 - n..|s| - 1] == IntToString(telegramId)
  {
    var suffix := OwnerSuffix(telegramId);
    var s := head + suffix;
    var n := |IntToString(telegramId)|;
    assert s[|head| + |OwnerPrefix|..|head| + |suffix| - 1] == suffix[|OwnerPrefix|..|suffix| - 1];
  }

  function StatusMark(isCompleted: bool): (c: char)
    ensures c == '✓' <==> isCompleted
    ensures c == '○' <==> !isCompleted
  {
    if isCompleted then '✓' else '○'
  }

  /** `Task.__str__`: a completion mark, a blank, the title, then the owner. */
  function TaskToString(t: Task): (s: string)
    ensures |s| == 2 + |t.title| + |OwnerSuffix(t.telegramId)|
    ensures s[0] == StatusMark(t.isCompleted) && s[1] == ' '
    ensures s[2..2 + |t.title|] == t.title
    ensures s[2 + |t.title|..] == OwnerSuffix(t.telegramId)
  {
    [StatusMark(t.isCompleted), ' '] + t.title + OwnerSuffix(t.telegramId)
  }

  /** The rendering tells a completed task from an open one, and names its owner. */
  lemma TaskToStringReads(t: Task)
    ensures var s := TaskToString(t);
      var n := |IntToString(t.telegramId)|;
      (s[0] == '✓' <==> t.isCompleted) && ParseInt(s[|s| - 1 - n..|s| - 1]) == Some(t.telegramId)
  {
    var head := [StatusMark(t.isCompleted), ' '] + t.title;
    assert TaskToString(t) == head + OwnerSuffix(t.telegramId);
    OwnerSuffixParses(t.telegramId, head);
  }

  /** `Category.__str__`: the name, then the owner. */
  function CategoryToString(c: Category): (s: string)
    ensures |s| == |c.name| + |OwnerSuffix(c.telegramId)|
    ensures s[..|c.name|] == c.name && s[|c.name|..] == OwnerSuffix(c.telegramId)
  {
    c.name + OwnerSuffix(c.telegramId)
  }

  lemma CategoryToStringReads(c: Category)
    ensures var s := CategoryToString(c);
      var n := |IntToString(c.telegramId)|;
      ParseInt(s[|s| - 1 - n..|s| - 1]) == Some(c.telegramId)
  {
    OwnerSuffixParses(c.telegramId, c.name);
  }

  // ---------------------------------------------------------------------------
  // Default orderings
  // ---------------------------------------------------------------------------

  /** `ordering = ["-created_at"]`: `a` is listed before `b` when it is newer. */
  predicate NewerFirst(a: Task, b: Task) {
    Before(b.createdAt, a.createdAt)
  }

  /** `ordering = ["name"]`. */
  predicate NameFirst(a: Category, b: Category) {
    StrLt(a.name, b.name)
  }

  lemma NewerFirstOrder()
    ensures StrictWeakOrder(NewerFirst)
  {
    forall a: Task, b: Task, c: Task
      ensures NewerFirst(a, b) && NewerFirst(b, c) ==> NewerFirst(a, c)
      ensures !NewerFirst(a, b) && !NewerFirst(b, c) ==> !NewerFirst(a, c)
    {
      if NewerFirst(a, b) && NewerFirst(b, c) {
        BeforeTransitive(c.createdAt, b.createdAt, a.createdAt);
      }
      if !NewerFirst(a, b) && !NewerFirst(b, c) && NewerFirst(a, c) {
        BeforeTotal(a.createdAt, b.createdAt);
        BeforeTotal(b.createdAt, c.createdAt);
        if a.createdAt != b.createdAt {
          BeforeTransitive(c.createdAt, a.createdAt, b.createdAt);
        }
      }
    }
    forall a: Task ensures !NewerFirst(a, a) {
      BeforeIrreflexive(a.createdAt);
    }
  }

  lemma NameFirstOrder()
    ensures StrictWeakOrder(NameFirst)
  {
    forall a: Category, b: Category, c: Category
      ensures NameFirst(a, b) && NameFirst(b, c) ==> NameFirst(a, c)
      ensures !NameFirst(a, b) && !NameFirst(b, c) ==> !NameFirst(a, c)
    {
      if NameFirst(a, b) && NameFirst(b, c) {
        StrLtTransitive(a.name, b.name, c.name);
      }
      if !NameFirst(a, b) && !NameFirst(b, c) && NameFirst(a, c) {
        StrLtTotal(a.name, b.name);
        StrLtTotal(b.name, c.name);
        if a.name != b.name {
          StrLtTransitive(b.name, a.name, c.name);
        }
      }
    }
    forall a: Category ensures !NameFirst(a, a) {
      StrLtIrreflexive(a.name);
    }
  }

  /** A task table in its default order. */
  function NewestFirst(ts: seq<Task>): (r: seq<Task>)
    ensures multiset(r) == multiset(ts)
    ensures SortedBy(r, NewerFirst)
  {
    NewerFirstOrder();
    SortBySorted(ts, NewerFirst);
    SortBy(ts, NewerFirst)
  }

  /** A category table in its default order. */
  function ByName(cs: seq<Category>): (r: seq<Category>)
    ensures multiset(r) == multiset(cs)
    ensures SortedBy(r, NameFirst)
  {
    NameFirstOrder();
    SortBySorted(cs, NameFirst);
    SortBy(cs, NameFirst)
  }

  // ---------------------------------------------------------------------------
  // Table invariants
  // ---------------------------------------------------------------------------

  predicate UniqueTaskIds(ts: seq<Task>) {
    forall i, j :: 0 <= i < j < |ts| ==> ts[i].id != ts[j].id
  }

  predicate UniqueCategoryIds(cs: seq<Category>) {
    forall i, j :: 0 <= i < j < |cs| ==> cs[i].id != cs[j].id
  }

  /** The `unique_category_per_user` constraint on `(telegram_id, name)`. */
  predicate UniqueNamesPerUser(cs: seq<Category>) {
    forall i, j :: 0 <= i < j < |cs| && cs[i].telegramId == cs[j].telegramId ==> cs[i].name != cs[j].name
  }

  predicate HasCategory(cs: seq<Category>, id: Id) {
    exists i :: 0 <= i < |cs| && cs[i].id == id
  }

  /** Every non-null category reference points at an existing category. */
  predicate ReferencesResolve(ts: seq<Task>, cs: seq<Category>) {
    forall i :: 0 <= i < |ts| && ts[i].category.Some? ==> HasCategory(cs, ts[i].category.value)
  }

  /** The category a key names, if the table has it. */
  function FindCategory(cs: seq<Category>, id: Id): (r: Option<Category>)
    ensures r.Some? <==> HasCategory(cs, id)
    ensures r.Some? ==> r.value in cs && r.value.id == id
  {
    if cs == [] then None
    else if cs[0].id == id then Some(cs[0])
    else
      var r := FindCategory(cs[1..], id);
      assert HasCategory(cs, id) ==> cs[0].id == id || HasCategory(cs[1..], id) by {
        if HasCategory(cs, id) {
          var i :| 0 <= i < |cs| && cs[i].id == id;
          if i > 0 { assert cs[1..][i - 1].id == id; }
        }
      }
      r
  }

  /** `task.category` as `select_related` resolves it. */
  function CategoryOf(cs: seq<Category>, t: Task): (r: Option<Category>)
    ensures t.category.None? ==> r.None?
    ensures ReferencesResolveOne(t, cs) && t.category.Some? ==> r.Some? && r.value.id == t.category.value
  {
    if t.category.None? then None else FindCategory(cs, t.category.value)
  }

  predicate ReferencesResolveOne(t: Task, cs: seq<Category>) {
    t.category.Some? ==> HasCategory(cs, t.category.value)
  }

  /**
   * `on_delete=SET_NULL`: deleting a category keeps its tasks and clears
   * their reference; every other category and task stays as it was.
   */
  function DeleteCategory(ts: seq<Task>, cs: seq<Category>, id: Id): (r: (seq<Task>, seq<Category>))
    ensures |r.0| == |ts|
    ensures forall i :: 0 <= i < |ts| ==>
      r.0[i] == (if ts[i].category == Some(id) then ts[i].(category := None) else ts[i])
    ensures r.1 == Filter(cs, (c: Category) => c.id != id)
  {
    (seq(|ts|, i requires 0 <= i < |ts| =>
       if ts[i].category == Some(id) then ts[i].(category := None) else ts[i]),
     Filter(cs, (c: Category) => c.id != id))
  }

  /** Deleting a category keeps the references of the remaining tasks resolvable. */
  lemma DeleteCategoryKeepsReferences(ts: seq<Task>, cs: seq<Category>, id: Id)
    requires ReferencesResolve(ts, cs)
    ensures var (ts', cs') := DeleteCategory(ts, cs, id);
      ReferencesResolve(ts', cs') && forall i :: 0 <= i < |ts'| ==> ts'[i].category != Some(id)
  {
    var (ts', cs') := DeleteCategory(ts, cs, id);
    forall i | 0 <= i < |ts'| && ts'[i].category.Some?
      ensures HasCategory(cs', ts'[i].category.value)
    {
      var k :| 0 <= k < |cs| && cs[k].id == ts[i].category.value;
      assert cs[k] in cs';
      var j :| 0 <= j < |cs'| && cs'[j] == cs[k];
    }
  }
}

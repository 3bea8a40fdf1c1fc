/**
 * The two database tables as one mutable object. Rows are replaced whole,
 * appended, or removed; the invariant is what the primary keys, the
 * per-user name constraint and the foreign key guarantee.
 */
module Store {
  import opened Common
  import opened Models

  /** The index of the row with the given key. */
  function FindTaskIndex(ts: seq<Task>, id: Id): (r: Option<nat>)
    ensures r.Some? ==> r.value < |ts| && ts[r.value].id == id
    ensures r.None? ==> forall k :: 0 <= k < |ts| ==> ts[k].id != id
  {
    if ts == [] then None
    else if ts[|ts| - 1].id == id then Some(|ts| - 1)
    else FindTaskIndex(ts[..|ts| - 1], id)
  }

  /** In a table with distinct keys, a row is found by its own key. */
  lemma FindOwnRow(ts: seq<Task>, k: nat)
    requires UniqueTaskIds(ts) && k < |ts|
    ensures FindTaskIndex(ts, ts[k].id) == Some(k)
  {
  }

  class Database {
    var tasks: seq<Task>
    var categories: seq<Category>

    ghost predicate Valid()
      reads this
    {
      && (forall k :: 0 <= k < |tasks| ==> ValidTask(tasks[k]))
      && (forall k :: 0 <= k < |categories| ==> ValidCategory(categories[k]))
      && UniqueTaskIds(tasks)
      && UniqueCategoryIds(categories)
      && UniqueNamesPerUser(categories)
      && ReferencesResolve(tasks, categories)
    }

    constructor ()
      ensures tasks == [] && categories == []
      ensures Valid()
    {
      tasks := [];
      categories := [];
    }

    /**
     * `save()` of an existing row: the row at `i` becomes `t`, which keeps
     * its key and points at an existing category, if any.
     */
    method SaveTask(i: nat, t: Task)
      requires Valid()
      requires i < |tasks| && t.id == tasks[i].id
      requires ValidTask(t) && ReferencesResolveOne(t, categories)
      modifies this
      ensures tasks == old(tasks)[i := t]
      ensures categories == old(categories)
      ensures Valid()
    {
      tasks := tasks[i := t];
      assert forall k :: 0 <= k < |tasks| ==> tasks[k].id == old(tasks)[k].id;
    }

    /** `save()` of a new row. */
    method InsertTask(t: Task)
      modifies this
      ensures tasks == old(tasks) + [t]
      ensures categories == old(categories)
    {
      tasks := tasks + [t];
    }

    method InsertCategory(c: Category)
      modifies this
      ensures categories == old(categories) + [c]
      ensures tasks == old(tasks)
    {
      categories := categories + [c];
    }

    /** Deleting a category, with the `SET_NULL` rule on its tasks. */
    method DeleteCategoryRow(id: Id)
      requires Valid()
      modifies this
      ensures (tasks, categories) == DeleteCategory(old(tasks), old(categories), id)
      ensures Valid()
    {
      var r := DeleteCategory(tasks, categories, id);
      DeleteCategoryKeepsReferences(tasks, categories, id);
      DeleteCategoryKeepsUniqueness(categories, id);
      tasks, categories := r.0, r.1;
      assert UniqueTaskIds(tasks) by {
        forall i, j | 0 <= i < j < |tasks| ensures tasks[i].id != tasks[j].id {
          assert tasks[i].id == old(tasks)[i].id && tasks[j].id == old(tasks)[j].id;
        }
      }
      assert forall k :: 0 <= k < |tasks| ==> ValidTask(tasks[k]) by {
        forall k | 0 <= k < |tasks| ensures ValidTask(tasks[k]) {
          assert ValidTask(old(tasks)[k]);
        }
      }
    }
  }

  /** Removing rows keeps distinct keys and per-user names distinct. */
  lemma DeleteCategoryKeepsUniqueness(cs: seq<Category>, id: Id)
    requires UniqueCategoryIds(cs) && UniqueNamesPerUser(cs)
    ensures var r := Sorting.Filter(cs, (c: Category) => c.id != id);
      UniqueCategoryIds(r) && UniqueNamesPerUser(r)
  {
    var rel := (a: Category, b: Category) =>
      a.id != b.id && (a.telegramId == b.telegramId ==> a.name != b.name);
    Sorting.FilterPairwise(cs, (c: Category) => c.id != id, rel);
  }
}

/** The category endpoints: the per-user queryset and `create` with the header check. */
module CategoryViews {
  import opened Common
  import opened Json
  import opened DateTimes
  import opened Sorting
  import opened Models
  import opened Store
  import opened Tenancy
  import opened Fields
  import opened CategorySerializers
  import opened Responses

  function OwnedBy(tid: int): Category -> bool {
    (c: Category) => c.telegramId == tid
  }

  /**
   * `get_queryset()`: nothing without a usable header; otherwise exactly
   * the user's categories, each once, in the default order by name.
   */
  function CategoryQueryset(cs: seq<Category>, header: Option<string>): (r: seq<Category>)
    ensures GetTelegramId(header).None? ==> r == []
    ensures GetTelegramId(header).Some? ==>
      && (forall i :: 0 <= i < |r| ==> r[i] in cs && r[i].telegramId == GetTelegramId(header).value)
      && (forall k :: 0 <= k < |cs| && cs[k].telegramId == GetTelegramId(header).value ==> cs[k] in r)
      && multiset(r) == multiset(Filter(cs, OwnedBy(GetTelegramId(header).value)))
    ensures SortedBy(r, NameFirst)
  {
    match GetTelegramId(header)
    case None => []
    case Some(tid) =>
      var r := ByName(Filter(cs, OwnedBy(tid)));
      OwnedSelection(cs, tid, r);
      r
  }

  /** A reordering of the user's rows holds their categories and no others. */
  lemma OwnedSelection(cs: seq<Category>, tid: int, r: seq<Category>)
    requires multiset(r) == multiset(Filter(cs, OwnedBy(tid)))
    ensures forall i :: 0 <= i < |r| ==> r[i] in cs && r[i].telegramId == tid
    ensures forall k :: 0 <= k < |cs| && cs[k].telegramId == tid ==> cs[k] in r
  {
    var f := Filter(cs, OwnedBy(tid));
    SameElements(f, r);
    forall i | 0 <= i < |r| ensures r[i] in cs && r[i].telegramId == tid {
      FilterMember(cs, OwnedBy(tid), r[i]);
      assert OwnedBy(tid)(r[i]);
    }
    forall k | 0 <= k < |cs| && cs[k].telegramId == tid ensures cs[k] in r {
      assert OwnedBy(tid)(cs[k]);
      assert cs[k] in f;
      assert cs[k] in multiset(f);
    }
  }

  /** Whether user `tid` already has a category called `name`. */
  predicate NameTaken(cs: seq<Category>, tid: int, name: string) {
    exists k :: 0 <= k < |cs| && cs[k].telegramId == tid && cs[k].name == name
  }

  /**
   * `create()`: a request without a usable header is refused before the
   * body is read; an invalid name is refused with its field errors; a
   * valid one is saved under the header's user. The serializer does not
   * check the `(telegram_id, name)` constraint, because `telegram_id` is
   * read-only, so a duplicate name, like a user id outside the 64-bit
   * column, makes the insert fail. `newId` is the key the database assigns
   * and `now` the save time.
   */
  method Create(db: Database, header: Option<string>, data: map<string, Json>, newId: Id, now: DateTime)
    returns (response: Response)
    requires db.Valid() && Valid(now)
    requires forall k :: 0 <= k < |db.categories| ==> db.categories[k].id != newId
    modifies db
    ensures db.Valid() && db.tasks == old(db.tasks)
    ensures GetTelegramId(header).None? ==>
      response == Response(400, ErrorBody(HeaderRequired)) && db.categories == old(db.categories)
    ensures GetTelegramId(header).Some? ==>
      var tid := GetTelegramId(header).value;
      var v := ValidateCategoryBody(data);
      && (v.Err? ==> response == Response(400, ErrorsBody(v.error)) && db.categories == old(db.categories))
      && (v.Ok? && (!IsBigInt(tid) || NameTaken(old(db.categories), tid, v.value)) ==>
            response == Response(500, ServerError) && db.categories == old(db.categories))
      && (v.Ok? && IsBigInt(tid) && !NameTaken(old(db.categories), tid, v.value) ==>
            var c := NewCategory(newId, tid, v.value, now);
            && db.categories == old(db.categories) + [c]
            && response == Response(201, ObjectBody(CategoryRepresentation(c))))
  {
    var telegramId := GetTelegramId(header);
    if telegramId.None? {
      return Response(400, ErrorBody(HeaderRequired));
    }
    var tid := telegramId.value;
    var v := ValidateCategoryBody(data);
    if v.Err? {
      return Response(400, ErrorsBody(v.error));
    }
    var taken := FindNameTaken(db.categories, tid, v.value);
    if !IsBigInt(tid) || taken {
      return Response(500, ServerError);
    }
    var c := NewCategory(newId, tid, v.value, now);
    AppendCategoryKeepsValid(db, c);
    response := Response(201, ObjectBody(CategoryRepresentation(c)));
  }

  /** The database's check of the `(telegram_id, name)` constraint. */
  method FindNameTaken(cs: seq<Category>, tid: int, name: string) returns (taken: bool)
    ensures taken <==> NameTaken(cs, tid, name)
  {
    taken := false;
    var k := 0;
    while k < |cs|
      invariant 0 <= k <= |cs|
      invariant taken <==> exists j :: 0 <= j < k && cs[j].telegramId == tid && cs[j].name == name
    {
      if cs[k].telegramId == tid && cs[k].name == name {
        taken := true;
      }
      k := k + 1;
    }
  }

  /** Appending a valid category with a fresh key and a free name keeps the table invariant. */
  method AppendCategoryKeepsValid(db: Database, c: Category)
    requires db.Valid() && ValidCategory(c)
    requires forall k :: 0 <= k < |db.categories| ==> db.categories[k].id != c.id
    requires !NameTaken(db.categories, c.telegramId, c.name)
    modifies db
    ensures db.categories == old(db.categories) + [c] && db.tasks == old(db.tasks)
    ensures db.Valid()
  {
    db.InsertCategory(c);
    assert db.categories[|db.categories| - 1] == c;
    assert forall k :: 0 <= k < |old(db.categories)| ==> db.categories[k] == old(db.categories)[k];
    assert ReferencesResolve(db.tasks, db.categories) by {
      forall i | 0 <= i < |db.tasks| && db.tasks[i].category.Some?
        ensures HasCategory(db.categories, db.tasks[i].category.value)
      {
        var j :| 0 <= j < |old(db.categories)| && old(db.categories)[j].id == db.tasks[i].category.value;
        assert db.categories[j] == old(db.categories)[j];
      }
    }
  }
}

/**
 * `CategorySerializer`: five rendered fields, of which only `name` is
 * writable (a stripped, non-blank text of at most 100 characters).
 */
module CategorySerializers {
  import opened Common
  import opened Text
  import opened Json
  import opened DateTimes
  import opened Models
  import opened Fields

  const CategoryKeys: set<Key> := {IdKey, NameKey, TelegramIdKey, CreatedAtKey, UpdatedAtKey}

  function CategoryRendered(c: Category, k: Key): Json
    requires ValidCategory(c)
  {
    match k
    case IdKey => JStr(c.id)
    case NameKey => JStr(c.name)
    case TelegramIdKey => JInt(c.telegramId)
    case CreatedAtKey => DateTimeJson(Some(c.createdAt))
    case UpdatedAtKey => DateTimeJson(Some(c.updatedAt))
    case _ => JNull  // a task field, never rendered for a category
  }

  /** `CategorySerializer(category).data`. */
  function CategoryRepresentation(c: Category): map<Key, Json>
    requires ValidCategory(c)
  {
    map k | k in CategoryKeys :: CategoryRendered(c, k)
  }

  /** A rendered category has exactly the five declared keys and carries its key, name and owner. */
  lemma CategoryRepresentationKeys(c: Category)
    requires ValidCategory(c)
    ensures var r := CategoryRepresentation(c);
      && (forall k :: k in r <==> k == IdKey || k == NameKey || k == TelegramIdKey || k == CreatedAtKey || k == UpdatedAtKey)
      && r[IdKey] == JStr(c.id) && r[NameKey] == JStr(c.name) && r[TelegramIdKey] == JInt(c.telegramId)
  {
  }

  lemma CreatedStamp(c: Category)
    requires ValidCategory(c)
    ensures CategoryRepresentation(c)[CreatedAtKey] == DateTimeJson(Some(c.createdAt))
  {
  }

  lemma UpdatedStamp(c: Category)
    requires ValidCategory(c)
    ensures CategoryRepresentation(c)[UpdatedAtKey] == DateTimeJson(Some(c.updatedAt))
  {
  }

  /** The two timestamps of a rendered category read back. */
  lemma CategoryRepresentationDates(c: Category)
    requires ValidCategory(c)
    ensures var r := CategoryRepresentation(c);
      && CreatedAtKey in r && UpdatedAtKey in r
      && r[CreatedAtKey].JStr? && ParseApiDateTime(r[CreatedAtKey].s) == Some(c.createdAt)
      && r[UpdatedAtKey].JStr? && ParseApiDateTime(r[UpdatedAtKey].s) == Some(c.updatedAt)
  {
    CreatedStamp(c);
    UpdatedStamp(c);
    DateTimeJsonReadBack(Some(c.createdAt));
    DateTimeJsonReadBack(Some(c.updatedAt));
  }

  /** The `name` field of a create body: required, not blank, at most 100 characters. */
  function CategoryName(data: map<string, Json>): (r: Result<string, seq<string>>)
    ensures "name" !in data ==> r == Err([Required])
    ensures r.Ok? ==> r.value != "" && |r.value| <= NameMaxLength
    ensures r.Ok? && data["name"].JStr? ==> r.value == Strip(data["name"].s)
  {
    TextField(data, NameKey, false, Some(NameMaxLength), Err([Required]))
  }

  /**
   * `is_valid()`: the body is accepted iff its name is; otherwise the name
   * alone is reported. Every other key of the body, `telegram_id`
   * included, is ignored.
   */
  function ValidateCategoryBody(data: map<string, Json>): (r: Result<string, Errors>)
    ensures r.Ok? <==> CategoryName(data).Ok?
    ensures r.Ok? ==> r.value == CategoryName(data).value
    ensures r.Err? ==> r.error == map[NameKey := CategoryName(data).error]
  {
    match CategoryName(data)
    case Ok(name) => Ok(name)
    case Err(e) => Err(map[NameKey := e])
  }

  /** Only `name` is read from a create body. */
  lemma CategoryBodyReadsOnlyName(data: map<string, Json>, key: string, v: Json)
    requires key != "name"
    ensures ValidateCategoryBody(data[key := v]) == ValidateCategoryBody(data)
  {
    var updated := data[key := v];
    assert NameKey.Name() == "name";
    assert ("name" in updated) == ("name" in data);
    if "name" in data {
      assert updated["name"] == data["name"];
    }
    assert CategoryName(updated) == CategoryName(data);
  }
}

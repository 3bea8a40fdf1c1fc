/**
 * The REST framework field types the serializers are built from, as they
 * turn one decoded JSON value into a column value or a list of messages:
 * character fields (trimmed, optionally non-blank, length-limited), the
 * boolean field, the ISO 8601 datetime field and the primary-key field.
 */
module Fields {
  import opened Common
  import opened Text
  import opened Json
  import opened DateTimes
  import opened Models

  /**
   * The serializers' field names. Renderings and error reports are maps
   * over this closed set; `Name` gives each one's text in a JSON body.
   */
  datatype Key =
    | IdKey | TitleKey | DescriptionKey | TelegramIdKey | CategoryKey | CategoryDetailKey
    | DueDateKey | IsCompletedKey | NotificationSentKey | CreatedAtKey | UpdatedAtKey
    | CategoryNameKey | NameKey
  {
    function Name(): string {
      match this
      case IdKey => "id"
      case TitleKey => "title"
      case DescriptionKey => "description"
      case TelegramIdKey => "telegram_id"
      case CategoryKey => "category"
      case CategoryDetailKey => "category_detail"
      case DueDateKey => "due_date"
      case IsCompletedKey => "is_completed"
      case NotificationSentKey => "notification_sent"
      case CreatedAtKey => "created_at"
      case UpdatedAtKey => "updated_at"
      case CategoryNameKey => "category_name"
      case NameKey => "name"
    }
  }

  /** Per-field messages of a rejected request body. */
  type Errors = map<Key, seq<string>>

  /** The field's messages are reported iff it failed. */
  predicate Reports<T>(e: Errors, k: Key, r: Result<T, seq<string>>) {
    (k in e <==> r.Err?) && (k in e ==> e[k] == r.error)
  }

  /** The messages of a field that failed. */
  function Failure<T>(r: Result<T, seq<string>>): (m: Option<seq<string>>)
    ensures m.Some? <==> r.Err?
    ensures m.Some? ==> m.value == r.error
  {
    if r.Err? then Some(r.error) else None
  }

  /** A text field of the body, or the given outcome when the key is absent. */
  function TextField(data: map<string, Json>, key: Key, allowBlank: bool, maxLength: Option<nat>,
                     absent: Result<string, seq<string>>): (r: Result<string, seq<string>>)
    ensures key.Name() !in data ==> r == absent
    ensures key.Name() in data ==> r == CharValue(data[key.Name()], allowBlank, maxLength)
  {
    if key.Name() in data then CharValue(data[key.Name()], allowBlank, maxLength) else absent
  }

  const Required := "This field is required."
  const MayNotBeNull := "This field may not be null."
  const MayNotBeBlank := "This field may not be blank."
  const NotAString := "Not a valid string."
  const NullCharacters := "Null characters are not allowed."
  const NotABoolean := "Must be a valid boolean."
  const DateTimeWrongFormat :=
    "Datetime has wrong format. Use one of these formats instead: YYYY-MM-DDThh:mm[:ss[.uuuuuu]][+HH:MM|-HH:MM|Z]."

  function TooLong(maxLength: nat): string {
    "Ensure this field has no more than " + NatToString(maxLength) + " characters."
  }

  function InvalidPk(pk: string): string {
    "Invalid pk \"" + pk + "\" - object does not exist."
  }

  /** Python's name for the type of a decoded JSON value. */
  function TypeName(j: Json): string {
    match j
    case JNull => "NoneType"
    case JBool(_) => "bool"
    case JInt(_) => "int"
    case JStr(_) => "str"
    case JArray(_) => "list"
    case JObject(_) => "dict"
  }

  function IncorrectPkType(j: Json): string {
    "Incorrect type. Expected pk value, received " + TypeName(j) + "."
  }

  /** `data.get(key)` where a missing key is told apart from an explicit null. */
  function Lookup(data: map<string, Json>, key: string): (v: Option<Json>)
    ensures v.Some? <==> key in data
    ensures v.Some? ==> v.value == data[key]
  {
    if key in data then Some(data[key]) else None
  }

  /** The validators a character field runs on its trimmed text; every failure is reported. */
  function TextMessages(s: string, maxLength: Option<nat>): (errs: seq<string>)
    ensures errs == [] <==> (maxLength.Some? ==> |s| <= maxLength.value) && '\0' !in s
  {
    (if maxLength.Some? && |s| > maxLength.value then [TooLong(maxLength.value)] else [])
      + (if '\0' in s then [NullCharacters] else [])
  }

  /**
   * `CharField(trim_whitespace=True)` on a present value: null is refused,
   * text is stripped and a blank one is refused unless blanks are allowed,
   * an integer is taken as its decimal text, any other type is refused.
   */
  function CharValue(v: Json, allowBlank: bool, maxLength: Option<nat>): (r: Result<string, seq<string>>)
    ensures r.Err? ==> r.error != []
    ensures r.Ok? ==> (allowBlank || r.value != "") && '\0' !in r.value
    ensures r.Ok? && maxLength.Some? ==> |r.value| <= maxLength.value
    ensures r.Ok? && v.JStr? ==> r.value == Strip(v.s)
    ensures r.Ok? && v.JInt? ==> r.value == IntToString(v.i)
    ensures v.JStr? && (Strip(v.s) == "" ==> allowBlank) && TextMessages(Strip(v.s), maxLength) == [] ==> r.Ok?
    ensures !(v.JStr? || v.JInt?) ==> r.Err?
  {
    match v
    case JNull => Err([MayNotBeNull])
    case JStr(s) =>
      var t := Strip(s);
      if t == [] then (if allowBlank then Ok("") else Err([MayNotBeBlank]))
      else
        var errs := TextMessages(t, maxLength);
        if errs == [] then Ok(t) else Err(errs)
    case JInt(i) =>
      var errs := TextMessages(IntToString(i), maxLength);
      if errs == [] then Ok(IntToString(i)) else Err(errs)
    case _ => Err([NotAString])
  }

  const TrueTexts: set<string> := {"t", "T", "y", "Y", "yes", "Yes", "YES", "true", "True", "TRUE", "on", "On", "ON", "1"}
  const FalseTexts: set<string> := {"f", "F", "n", "N", "no", "No", "NO", "false", "False", "FALSE", "off", "Off", "OFF", "0"}

  /** `BooleanField` on a present value. */
  function BoolValue(v: Json): (r: Result<bool, seq<string>>)
    ensures v.JBool? ==> r == Ok(v.b)
    ensures r == Ok(true) <==> v == JBool(true) || v == JInt(1) || (v.JStr? && v.s in TrueTexts)
    ensures r == Ok(false) <==> v == JBool(false) || v == JInt(0) || (v.JStr? && v.s in FalseTexts)
    ensures r.Err? ==> r.error != []
  {
    match v
    case JNull => Err([MayNotBeNull])
    case JBool(b) => Ok(b)
    case JInt(i) => if i == 1 then Ok(true) else if i == 0 then Ok(false) else Err([NotABoolean])
    case JStr(s) =>
      if s in TrueTexts then Ok(true) else if s in FalseTexts then Ok(false) else Err([NotABoolean])
    case _ => Err([NotABoolean])
  }

  /**
   * How an ISO 8601 timestamp with a `Z` suffix is read: the `Z` stands for
   * `+00:00`.
   */
  function ParseApiDateTime(s: string): (r: Option<DateTime>)
    ensures r.Some? ==> Valid(r.value)
  {
    ParseIso(ReplaceChar(s, 'Z', "+00:00"))
  }

  /** How the API writes a timestamp: ISO 8601 in UTC, with the offset written `Z`. */
  function DateTimeText(dt: DateTime): string
    requires Valid(dt)
  {
    IsoFormat(dt) + "Z"
  }

  /** Every timestamp the API writes is read back as the same timestamp. */
  lemma DateTimeTextReadBack(dt: DateTime)
    requires Valid(dt)
    ensures ParseApiDateTime(DateTimeText(dt)) == Some(dt)
  {
    ParseIsoZulu(dt);
  }

  function DateTimeJson(dt: Option<DateTime>): Json
    requires dt.Some? ==> Valid(dt.value)
  {
    match dt
    case None => JNull
    case Some(d) => JStr(DateTimeText(d))
  }

  /** A nullable timestamp, rendered and read back. */
  lemma DateTimeJsonReadBack(dt: Option<DateTime>)
    requires dt.Some? ==> Valid(dt.value)
    ensures DateTimeJson(dt) == JNull <==> dt.None?
    ensures dt.Some? ==> DateTimeJson(dt).JStr? && ParseApiDateTime(DateTimeJson(dt).s) == dt
  {
    if dt.Some? {
      DateTimeTextReadBack(dt.value);
    }
  }

  /** A nullable `DateTimeField` on a present value. */
  function DateTimeValue(v: Json): (r: Result<Option<DateTime>, seq<string>>)
    ensures v.JNull? <==> r == Ok(None)
    ensures r.Ok? && r.value.Some? ==> v.JStr? && ParseApiDateTime(v.s) == r.value
    ensures v.JStr? && ParseApiDateTime(v.s).Some? ==> r == Ok(ParseApiDateTime(v.s))
    ensures r.Err? ==> r.error == [DateTimeWrongFormat]
  {
    match v
    case JNull => Ok(None)
    case JStr(s) =>
      if ParseApiDateTime(s).Some? then Ok(ParseApiDateTime(s)) else Err([DateTimeWrongFormat])
    case _ => Err([DateTimeWrongFormat])
  }

  /**
   * A nullable `PrimaryKeyRelatedField` over every category: null and the
   * empty string mean no category, a key (an integer's decimal text
   * included) must name an existing row, a boolean or a container is the
   * wrong type.
   */
  function PkLookup(pk: string, cs: seq<Category>): (r: Result<Option<Category>, seq<string>>)
    ensures r.Ok? <==> HasCategory(cs, pk)
    ensures r.Ok? ==> r.value.Some? && r.value.value in cs && r.value.value.id == pk
  {
    match FindCategory(cs, pk)
    case None => Err([InvalidPk(pk)])
    case Some(c) => Ok(Some(c))
  }

  function CategoryPkValue(v: Json, cs: seq<Category>): (r: Result<Option<Category>, seq<string>>)
    ensures v == JNull || v == JStr("") ==> r == Ok(None)
    ensures r.Ok? && r.value.Some? ==> r.value.value in cs
    ensures v.JStr? && v.s != "" ==> (r.Ok? <==> HasCategory(cs, v.s))
    ensures v.JStr? && v.s != "" && r.Ok? ==> r.value.Some? && r.value.value.id == v.s
    ensures v.JBool? || v.JArray? || v.JObject? ==> r == Err([IncorrectPkType(v)])
  {
    match v
    case JNull => Ok(None)
    case JStr(s) =>
      if s == "" then Ok(None)
      else
        PkLookup(s, cs)
    case JInt(i) => PkLookup(IntToString(i), cs)
    case _ => Err([IncorrectPkType(v)])
  }
}

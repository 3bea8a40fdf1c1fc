# A Dafny model of the Telegram to-do bot and its backend

This project models the core of a personal task service. Tasks and
categories live in a relational store and belong to a Telegram user. Every
request names that user in the `X-Telegram-ID` header. A REST backend lists,
creates, completes and updates them. A periodic job reminds users of due
tasks through the Telegram Bot API. A conversational bot drives the backend
over HTTP.

The model follows the program's structure, one Dafny module per concern:

- `Models`: the `Task` and `Category` records, with:
  - their defaults and length limits;
  - the `__str__` renderings;
  - the default orderings;
  - the `ON DELETE SET NULL` rule of a task's category.
- `Store`: the two tables as a mutable `Database` object. Its invariant covers:
  - unique keys;
  - unique `(telegram_id, name)` pairs;
  - resolving category references;
  - the column constraints.
- `Tenancy`: how both viewsets read the header.
- `TaskViews`, `CategoryViews`: the querysets, `create`, the `complete` and `uncomplete` actions, and the partial update.
- `TaskSerializers`, `CategorySerializers`, `Fields`: what the serializers make of a JSON body (accepted values, or per-field messages), and how they render a row.
- `Notifications`: the reminder job, the message it renders, and the one-off notification.
- `ApiClient`: the bot's HTTP client, with:
  - its headers;
  - the lazily opened connection and `close`;
  - the request each call sends;
  - the conditional `create_task` payload;
  - the unwrapping of lists.
- `TaskDialogs`: the bot's task dialogs. The `DialogManager` class holds the dialog state and the dialog data that the handlers write into. The module also holds the list, detail and confirm windows and the due-date parser.
- `DialogStates`: the states of `bot/dialogs/states.py`.

The supporting modules are:

- `Text`: `str(int)`, `int(str)`, `strip`, `lower`, `replace` and Python's string order.
- `DateTimes`: calendar date-times, `strftime`, `isoformat`, `strptime` on the four due-date formats, and the subset of `fromisoformat` the timestamps use.
- `Sorting`: filters and a stable insertion sort.
- `Json`, `Common`, `Responses`: shared datatypes.

Outside effects are parameters:

- The Telegram Bot API is an oracle `send` that answers the post made for each task (keyed by the task and its request) with success or with an exception's text.
- The backend, seen from the bot, is a function `respond` from a connection and a request to a status and a body.
- `str(e)` of an exception in a handler is a function `describe`.
- The clock (`now`) and the database's key generator (`newId`) are inputs.

The job saves a delivered task with `update_fields=["notification_sent"]`,
so `updated_at` is not written (backend/tasks/tasks.py:37). The model's run
changes that one field only (`Notifications.RunWritesOnlyTheFlag`).

## Model

| member | source | states |
|---|---|---|
| Notifications.SelectDue | backend/tasks/tasks.py:17-21 | The job's queryset holds exactly the tasks that are due: a due date at or before `now`, not completed, not notified. No null due date is selected. Each due row appears exactly once (the multiset of the filter), newest first. |
| Notifications.CheckDueTasks | backend/tasks/tasks.py:11-43 | One run. It posts one request per selected task, in queryset order. The table becomes `AfterRun`: a due task is flagged iff its own send succeeded. The summary is "No due tasks", "Bot token not configured" or "Sent N notifications". The loop invariant carries this across failures. |
| Notifications.NotifyAll | backend/tasks/tasks.py:32-40 | The loop over the selected tasks. Afterwards, a row is flagged iff it was selected and its send succeeded. The sent count is the number of successful sends, and the requests are one per task, in order. |
| Notifications.NotifyTask | backend/tasks/tasks.py:34-40 | One loop iteration. It posts the task's request and sets `notification_sent` on that row only when the send succeeded. A failure leaves the table unchanged and the loop goes on. |
| Notifications.NothingDue | backend/tasks/tasks.py:23-25 | With nothing due, the run reports "No due tasks", changes no row and posts nothing, whatever the token. |
| Notifications.NoToken | backend/tasks/tasks.py:27-30 | With an empty token, the run posts nothing and changes nothing. It reports the token error when something is due. |
| Notifications.RunWritesOnlyTheFlag | backend/tasks/tasks.py:32-40 | Every row keeps every field except `notification_sent`. A row that is not due is untouched. A due row ends up flagged iff the token is set and its delivery succeeded. |
| Notifications.SentCountIsFlaggedRows | backend/tasks/tasks.py:32-43 | The reported count equals the number of due tasks whose delivery succeeded. It is therefore at most the number selected, and it equals the number of rows the run changes. |
| Notifications.SecondRunSelectsOnlyFailures | backend/tasks/tasks.py:17-21 | A second run with the same clock selects exactly the due tasks whose delivery failed. It never selects a task the first run flagged. |
| Notifications.SecondRunAfterFullSuccess | backend/tasks/tasks.py:17-25 | When every delivery of a run succeeded, the next run finds nothing due and reports "No due tasks". |
| Notifications.FlaggedAll | backend/tasks/tasks.py:33-38 | Once every selected task has been handled, the table is exactly `AfterRun`. This joins the loop invariant to the run's definition. |
| Notifications.SendImmediateNotification | backend/tasks/tasks.py:72-94 | An unknown id gives "Task … not found" and changes nothing. An empty token gives "Bot token not configured". Otherwise the task is posted without checking its completion or its flag. Success flags it and failure returns "Failed: e" with no change. |
| Notifications.CategoryLine | backend/tasks/tasks.py:47 | The category line is empty iff there is no category; otherwise it is the label followed by the name. |
| Notifications.DueText | backend/tasks/tasks.py:48 | "Не указана" iff there is no due date. A due date is rendered as `%d.%m.%Y %H:%M`, which the bot's first date format reads back to the minute. |
| Notifications.DescriptionPart | backend/tasks/tasks.py:55 | Empty iff the description is empty; otherwise "📝 " followed by the description. |
| Notifications.BareMessage | backend/tasks/tasks.py:50-56 | A task with no category, due date or description renders the heading, the title and the placeholder line only. |
| Notifications.RequestFor | backend/tasks/tasks.py:58-63 | The request goes to the task's owner, with parse mode HTML. |
| Notifications.RequestsFor | backend/tasks/tasks.py:33-35 | One request per selected task, in order. |
| Notifications.ValidSelected | backend/tasks/tasks.py:17-21 | The selection holds only rows of the table, so its tasks satisfy the column constraints. |
| Store.Database.DeleteCategoryRow | backend/tasks/models.py:21-28 | Deleting a category clears the reference of its tasks, keeps every other row and keeps the table invariant. |
| Store.Database.SaveTask | backend/tasks/models.py:7-43 | Saving a row with its own key and a resolving category replaces that row and keeps the invariant. |
| Store.Database.InsertTask | backend/tasks/models.py:7-43 | A new row is appended and nothing else changes. |
| Store.Database.InsertCategory | backend/categories/models.py:5-24 | A new category is appended and nothing else changes. |
| Store.FindTaskIndex | backend/tasks/tasks.py:77 | The index found holds a row with that key. No index found means no row has it. |
| Store.FindOwnRow | backend/tasks/tasks.py:77 | In a table with distinct keys, a row is found by its own key. |
| Store.DeleteCategoryKeepsUniqueness | backend/categories/models.py:19-24 | Removing a category keeps keys distinct and names per user distinct. |
| Models.NewTask | backend/tasks/models.py:16-43 | A new task has an empty description, no category, no due date, is neither completed nor notified, and both timestamps are the creation time. |
| Models.NewTaskValid | backend/tasks/models.py:8-15 | A new task with a 64-bit owner and a title of at most 255 characters satisfies the column constraints. |
| Models.NewCategory | backend/categories/models.py:5-13 | A new category with its owner, its name and both timestamps at the creation time. |
| Models.TaskToString | backend/tasks/models.py:54-56 | The rendering is "✓" or "○", a blank, the title, then " (user: <id>)". |
| Models.TaskToStringReads | backend/tasks/models.py:54-56 | The mark is "✓" iff the task is completed, and the owner's id parses back out of the rendering. |
| Models.StatusMark | backend/tasks/models.py:55 | "✓" iff completed, "○" iff not. |
| Models.CategoryToString | backend/categories/models.py:26-27 | The rendering is the name, then " (user: <id>)". |
| Models.CategoryToStringReads | backend/categories/models.py:26-27 | The owner's id parses back out of a category's rendering. |
| Models.OwnerSuffix | backend/tasks/models.py:56 | " (user: ", the decimal id and ")". |
| Models.OwnerSuffixParses | backend/categories/models.py:27 | The id just before the closing parenthesis parses back to the owner. |
| Models.NewerFirstOrder | backend/tasks/models.py:48 | "Newer `created_at` first" is a strict weak order. |
| Models.NameFirstOrder | backend/categories/models.py:18 | "Name first" is a strict weak order. |
| Models.NewestFirst | backend/tasks/models.py:48 | The default task order is a permutation of the table, sorted newest first. |
| Models.ByName | backend/categories/models.py:18 | The default category order is a permutation of the table, sorted by name. |
| Models.FindCategory | backend/tasks/models.py:21-28 | A category is found iff the table has one with that key, and it is that row. |
| Models.CategoryOf | backend/tasks/models.py:21-28 | No reference gives no category. A resolving reference gives the category it names. |
| Models.DeleteCategory | backend/tasks/models.py:21-28 | `SET_NULL`: every task keeps its place. The references to the deleted category become null. Only that category leaves the table. |
| Models.DeleteCategoryKeepsReferences | backend/tasks/models.py:21-28 | After a deletion, every remaining reference resolves and none names the deleted key. |
| Tenancy.GetTelegramId | backend/api/v1/tasks/views.py:10-17 | An absent or empty header gives no user. Otherwise the result is what `int()` makes of the value. A user is found only for an optionally signed run of digits. |
| Tenancy.ClientHeaderIdentifies | backend/api/v1/categories/views.py:11-18 | The decimal text of a user id is read back as that id. |
| Tenancy.MalformedHeaderRejected | backend/api/v1/categories/views.py:11-18 | A header that is not an optionally signed run of digits names no user. |
| TaskViews.TaskQueryset | backend/api/v1/tasks/views.py:19-34 | There is nothing without a user. Otherwise the result is exactly the user's rows that pass the `is_completed` and `category` filters, each once, newest first. |
| TaskViews.SameSelection | backend/api/v1/tasks/views.py:26-32 | Parameters that keep the same rows give the same queryset. |
| TaskViews.OtherCompletionValuesSelectOpen | backend/api/v1/tasks/views.py:26-28 | Any `is_completed` value whose lower case is not "true" selects the open tasks, like "false". |
| TaskViews.CompletionValueIgnoresCase | backend/api/v1/tasks/views.py:28 | "TRUE" selects what "true" selects. |
| TaskViews.EmptyCategoryFiltersNothing | backend/api/v1/tasks/views.py:30-32 | An empty `category` parameter is the same as none. |
| TaskViews.QuerysetsOfUsersDisjoint | backend/api/v1/tasks/views.py:19-24 | No row appears in the querysets of two different users. |
| TaskViews.SerializerClass | backend/api/v1/tasks/views.py:36-41 | The list serializer iff "list", the create serializer iff "create", the full serializer otherwise. |
| TaskViews.Create | backend/api/v1/tasks/views.py:48-66 | Without a user: 400 "X-Telegram-ID header is required" and nothing is stored. An invalid body: 400 with its field errors. Otherwise one row is appended, owned by the header's user whatever the body says, and echoed with 201 by the full serializer. |
| TaskViews.AppendKeepsValid | backend/api/v1/tasks/views.py:58 | Saving a valid new row keeps the table invariant. |
| TaskViews.GetObject | backend/api/v1/tasks/views.py:70 | The row found has that key and is in the caller's queryset. Not found means no such row is visible to the caller. |
| TaskViews.SetCompletion | backend/api/v1/tasks/views.py:71-72 | Only the flag and `updated_at` change. |
| TaskViews.SetCompletionIdempotent | backend/api/v1/tasks/views.py:68-82 | Completing twice is completing once, and likewise for uncompleting. |
| TaskViews.UncompleteUndoesComplete | backend/api/v1/tasks/views.py:76-82 | `uncomplete` undoes `complete` on an open task, except for the save time. |
| TaskViews.ClientCompleteIsCompleteAction | bot/api_client.py:79-80 | The client's `complete_task` (a partial update `{"is_completed": true}`) saves the same row as the `complete` action. |
| TaskViews.SetCompletedAction | backend/api/v1/tasks/views.py:68-82 | A row outside the caller's queryset: 404 and nothing changes. Otherwise that row gets the flag and the save time and is echoed with 200. |
| TaskViews.Complete | backend/api/v1/tasks/views.py:68-74 | `complete`: as above, with the flag set. |
| TaskViews.Uncomplete | backend/api/v1/tasks/views.py:76-82 | `uncomplete`: as above, with the flag cleared. |
| TaskViews.LocateRow | backend/api/v1/tasks/views.py:70 | A row of a keyed table is found at its own index. |
| TaskViews.PartialUpdateAction | backend/api/v1/tasks/serializers.py:10-34 | PATCH: 404 outside the queryset. An invalid body: 400 with its errors and no change. Otherwise the updated row is stored and echoed. |
| CategoryViews.CategoryQueryset | backend/api/v1/categories/views.py:20-24 | There is nothing without a user. Otherwise the result is exactly the user's categories, each once, by name. |
| CategoryViews.Create | backend/api/v1/categories/views.py:26-38 | Without a user: 400 and nothing is stored. An invalid name: 400 with its errors. A taken name or an out-of-range id makes the insert fail (500). Otherwise one category is appended, owned by the header's user, and echoed with 201. |
| CategoryViews.FindNameTaken | backend/categories/models.py:19-24 | True iff the user already has a category with that name. |
| CategoryViews.AppendCategoryKeepsValid | backend/categories/models.py:19-24 | Appending a category with a fresh key and a free name keeps the invariant. |
| TaskSerializers.ToRepresentation | backend/api/v1/tasks/serializers.py:36-45 | The in-place edits of the default rendering give the task's representation. |
| TaskSerializers.RepresentationFromBase | backend/api/v1/tasks/serializers.py:36-45 | The representation is the default one without `category` and `category_detail`, with `category` set to the nested detail or null. |
| TaskSerializers.TaskRepresentationKeys | backend/api/v1/tasks/serializers.py:15-27 | A rendered task has exactly the ten column keys and never `category_detail`. |
| TaskSerializers.TaskRepresentationCategory | backend/api/v1/tasks/serializers.py:38-44 | `category` is null iff the task has none; otherwise it is `{id, name}` of that category. `telegram_id` is the owner. |
| TaskSerializers.TaskRepresentationDates | backend/api/v1/tasks/serializers.py:22-26 | The three timestamps of a rendering read back to the row's values. |
| TaskSerializers.CategoryBrief | backend/api/v1/tasks/serializers.py:5-7 | The nested category is a non-empty object. |
| TaskSerializers.CategoryDetail | backend/api/v1/tasks/serializers.py:11 | The nested detail is null or truthy. |
| TaskSerializers.GetCategoryName | backend/api/v1/tasks/serializers.py:82-83 | None iff the task has no category; otherwise the name of the category it names. |
| TaskSerializers.ListRepresentationReads | backend/api/v1/tasks/serializers.py:68-83 | A summary row has the six list keys, `category_name` is the name or null, and the due date reads back. |
| TaskSerializers.ValidateCategory | backend/api/v1/tasks/serializers.py:58-65 | None passes. A category is refused iff the context names a non-zero user who does not own it, with "Category does not belong to this user.". |
| TaskSerializers.CreateCategory | backend/api/v1/tasks/serializers.py:54-65 | An accepted category exists and, for a non-zero user, is that user's own. |
| TaskSerializers.DueDateField | backend/tasks/models.py:29-34 | An absent `due_date` keeps the given value; a present one is read as a nullable datetime. |
| TaskSerializers.CreateOutcome | backend/api/v1/tasks/serializers.py:48-56 | Accepted iff all four fields are. Otherwise exactly the failing fields are reported, each with its messages. |
| TaskSerializers.ValidateCreate | backend/api/v1/tasks/serializers.py:48-56 | `is_valid()` of a create body: accepted iff title, description, category and due date are, and then their values; otherwise exactly the failing fields are reported. |
| TaskSerializers.AcceptedCreate | backend/api/v1/tasks/serializers.py:48-65 | An accepted body has a stripped, non-blank title of at most 255 characters. Absent fields take their defaults. The category exists and belongs to a non-zero context user. |
| TaskSerializers.TitleRequired | backend/tasks/models.py:12-15 | A body without a title is refused, with "This field is required." for the title. |
| TaskSerializers.CreateReadsOnlyItsFields | backend/api/v1/tasks/serializers.py:51-56 | Keys other than the four fields do not change the outcome. |
| TaskSerializers.FindOwnCategory | backend/api/v1/tasks/serializers.py:54 | In a keyed table, a category is found by its own key. |
| TaskSerializers.ForeignCategoryRefused | backend/api/v1/tasks/serializers.py:62-64 | A non-zero user naming another user's category is refused on `category`. |
| TaskSerializers.OwnCategoryAccepted | backend/api/v1/tasks/serializers.py:62-65 | The owner's category is accepted, and for user 0 any category is. |
| TaskSerializers.CreatedTask | backend/api/v1/tasks/views.py:58 | The saved row has the header's user as owner, the validated title, description, category key and due date, is neither completed nor notified, and has both timestamps at the save time. |
| TaskSerializers.CreatedTaskValid | backend/api/v1/tasks/views.py:56-58 | A row created from an accepted body satisfies the column constraints and its category resolves. |
| TaskSerializers.PkToKey | backend/api/v1/tasks/serializers.py:20 | A category outcome maps to its key, preserving errors. |
| TaskSerializers.UpdateOutcome | backend/api/v1/tasks/serializers.py:10-34 | Accepted iff every writable field is. Then the row gets those values and the save time; otherwise exactly the failing fields are reported. |
| TaskSerializers.PartialUpdate | backend/api/v1/tasks/serializers.py:10-34 | A partial update through the full serializer: each present writable field is validated and replaces its column, `updated_at` is the save time, failing fields are reported. |
| TaskSerializers.PartialUpdateKeepsReadOnly | backend/api/v1/tasks/serializers.py:28-34 | An update never changes `id`, `telegram_id`, `notification_sent` or `created_at`, and sets `updated_at` to the save time. A field absent from the body keeps its value. |
| TaskSerializers.PartialUpdateKeepsValid | backend/api/v1/tasks/serializers.py:10-34 | An accepted update of a valid row is valid and its category resolves. |
| TaskSerializers.PartialUpdateIgnoresReadOnly | backend/api/v1/tasks/serializers.py:28-34 | Setting a read-only or unknown key in the body changes nothing. |
| TaskSerializers.PartialUpdateAcceptsForeignCategory | backend/api/v1/tasks/serializers.py:10-34 | The full serializer accepts another user's category: only its existence is checked. |
| CategorySerializers.CategoryRepresentationKeys | backend/api/v1/categories/serializers.py:5-15 | A rendered category has exactly the five keys, carrying its key, name and owner. |
| CategorySerializers.CategoryRepresentationDates | backend/api/v1/categories/serializers.py:12-13 | The two timestamps read back. |
| CategorySerializers.CategoryName | backend/categories/models.py:10-13 | `name` is required, stripped, non-blank and at most 100 characters. |
| CategorySerializers.ValidateCategoryBody | backend/api/v1/categories/serializers.py:5-15 | Accepted iff the name is; otherwise only `name` is reported. |
| CategorySerializers.CategoryBodyReadsOnlyName | backend/api/v1/categories/serializers.py:15 | Keys other than `name`, `telegram_id` included, are ignored. |
| Fields.CharValue | backend/tasks/models.py:12-20 | A character field refuses null, strips text, refuses a blank unless allowed, refuses NUL and over-long text, reads an integer as its decimal text, refuses every other type. Text that passes the validators is accepted. |
| Fields.TextField | backend/tasks/models.py:12-20 | An absent key gives the field's absent outcome; a present one is read by `CharValue`. |
| Fields.TextMessages | backend/tasks/models.py:12-15 | No message iff the text fits the length limit and has no NUL. |
| Fields.BoolValue | backend/tasks/models.py:35-39 | True iff the value is true, 1 or a true text; false iff false, 0 or a false text; anything else is refused. |
| Fields.DateTimeValue | backend/tasks/models.py:29-34 | Null iff null. A text the parser accepts gives its datetime. Anything else gives the format message. |
| Fields.DateTimeTextReadBack | backend/api/v1/tasks/serializers.py:22-26 | Every timestamp as the API writes it reads back to itself. |
| Fields.DateTimeJsonReadBack | backend/api/v1/tasks/serializers.py:22 | A nullable timestamp is null iff absent, and reads back otherwise. |
| Fields.ParseApiDateTime | bot/dialogs/tasks.py:76 | A parsed timestamp is a valid datetime. |
| Fields.PkLookup | backend/tasks/models.py:21-28 | A key is accepted iff a category has it, and then that category. |
| Fields.CategoryPkValue | backend/tasks/models.py:21-28 | Null or "" means no category. A non-empty key is accepted iff it names a category. A boolean or container is the wrong type. |
| Fields.Lookup | backend/api/v1/tasks/serializers.py:48-56 | A missing key is told apart from a present one, with its value. |
| Fields.Failure | backend/api/v1/tasks/serializers.py:48-56 | A field's messages are present iff it failed. |
| ApiClient.Headers | bot/api_client.py:13-18 | Exactly two headers: `X-Telegram-ID` is `str(telegram_id)` and `Content-Type` is JSON. |
| ApiClient.HeadersIdentifyUser | bot/api_client.py:16 | The backend reads the client's header back as the client's own user. |
| ApiClient.APIClient.GetClient | bot/api_client.py:20-27 | The connection carries the base URL and headers. A new one is opened only when none is open, so a client opens at most one until it is closed. |
| ApiClient.APIClient.Close | bot/api_client.py:29-32 | Afterwards no connection is open; with none open it changes nothing. |
| ApiClient.APIClient.Send | bot/api_client.py:35-37 | One request through the connection, recorded, and its status checked. |
| ApiClient.APIClient.GetTasks | bot/api_client.py:34-39 | GET /tasks/, the checked answer unwrapped. |
| ApiClient.APIClient.GetTask | bot/api_client.py:41-45 | GET /tasks/<id>/, the checked answer. |
| ApiClient.APIClient.CreateTask | bot/api_client.py:47-66 | POST /tasks/ with the conditional payload. |
| ApiClient.APIClient.UpdateTask | bot/api_client.py:68-72 | PATCH /tasks/<id>/ with the given fields. |
| ApiClient.APIClient.DeleteTask | bot/api_client.py:74-77 | DELETE /tasks/<id>/; only the status matters. |
| ApiClient.APIClient.CompleteTask | bot/api_client.py:79-80 | Exactly the PATCH of `update_task(id, is_completed=True)`. |
| ApiClient.APIClient.GetCategories | bot/api_client.py:82-87 | GET /categories/, the checked answer unwrapped. |
| ApiClient.APIClient.CreateCategory | bot/api_client.py:89-93 | POST /categories/ with `{"name": name}`. |
| ApiClient.GetApiClient | bot/api_client.py:96-97 | A fresh client for the user, with no connection open. |
| ApiClient.Checked | bot/api_client.py:37 | A status outside 200-299 (1xx, 3xx, 4xx, 5xx) is an error with that status; a 2xx status gives the body. |
| ApiClient.UnwrapList | bot/api_client.py:39 | An object yields its `results`, or itself without them; anything else is kept. Its partner is `TaskDialogs.PageListedAsItsResults`. |
| ApiClient.ListAnswer | bot/api_client.py:34-39 | A list call fails iff its request fails, and then with that request's error; a success carries the unwrapped body of the answer. |
| ApiClient.CreateTaskPayload | bot/api_client.py:55-62 | The payload always has the title and description. It has `category` iff the key is truthy and `due_date` iff the date is truthy, and no other key. |
| ApiClient.BuildCreateTaskPayload | bot/api_client.py:55-62 | Adding the keys conditionally builds exactly that payload. |
| ApiClient.ClientPayloadValidation | bot/api_client.py:47-66 | The server reads the client's title, stores title and description stripped, and gives no category or due date when the client sent none. |
| TaskDialogs.NewerCreatedOrder | bot/dialogs/tasks.py:28 | "Later `created_at` first" is a strict weak order. |
| TaskDialogs.ListedOrder | bot/dialogs/tasks.py:28-29 | The two stable sorts give a permutation sorted by completion, ties by `created_at` descending. |
| TaskDialogs.ListedPair | bot/dialogs/tasks.py:28-29 | In that order, an open task precedes a completed one and, within a group, a later `created_at` comes first. |
| TaskDialogs.ListedTasks | bot/dialogs/tasks.py:27-30 | The window shows min(n, 10) tasks from the answer, the first ten of that order: every open task before every completed one, each group newest first. |
| TaskDialogs.FirstTen | bot/dialogs/tasks.py:28-30 | The sorts and the slice give the listed tasks. |
| TaskDialogs.AddIcons | bot/dialogs/tasks.py:37-38 | The loop gives every task its icon. |
| TaskDialogs.WithIcons | bot/dialogs/tasks.py:37-38 | Each task, in order, with its icon. |
| TaskDialogs.IconsFollowOrder | bot/dialogs/tasks.py:37-38 | "✅" iff the task is completed, and a "✅" task is followed only by "✅" tasks. |
| TaskDialogs.Items | bot/dialogs/tasks.py:27-29 | The answer is usable iff it is a list of objects, and then those objects. |
| TaskDialogs.ListOutcomeOfAnswer | bot/dialogs/tasks.py:24-31 | For the GET /tasks/ answer: the list is shown iff the status is 2xx and the unwrapped body (`results` of a page, or the bare body) is a list of objects, and then it is the listed window of those objects; every other status, 1xx and 3xx included, is reported as that status. |
| TaskDialogs.PageListedAsItsResults | bot/api_client.py:39 | A paginated page is unwrapped to its `results` list and listed exactly as that bare list would be. |
| TaskDialogs.DialogManager.GetTasksData | bot/dialogs/tasks.py:22-44 | One GET /tasks/. On success the first ten in list order, with icons. On failure an empty list and the error text kept in the dialog data. The count is the length and `has_tasks` is count > 0. |
| TaskDialogs.DialogManager.OnTaskSelected | bot/dialogs/tasks.py:47-63 | Success keeps the task as selected and opens the detail window. Failure answers "Ошибка при загрузке задачи: e" and changes nothing. |
| TaskDialogs.Or | bot/dialogs/tasks.py:100 | Python's `a or b`. |
| TaskDialogs.UnparsableDateUnchanged | bot/dialogs/tasks.py:75-79 | A date text the parser refuses, or a value that is not text, is shown unchanged. |
| TaskDialogs.ApiDateShown | bot/dialogs/tasks.py:71-77 | A timestamp as the API writes it is shown as "DD.MM.YYYY HH:MM" of that time. |
| TaskDialogs.TaskDetail | bot/dialogs/tasks.py:66-107 | `{}` without a truthy selected task; a truthy non-object raises. |
| TaskDialogs.DetailIsWindow | bot/dialogs/tasks.py:66-107 | An object task with an object or falsy category renders as the window built from its fields and its two shown dates. |
| TaskDialogs.WindowFallbacks | bot/dialogs/tasks.py:91-107 | Whatever the two dates are, the window applies the description, category and due-date fallbacks and a "✅" emoji iff completed. |
| TaskDialogs.DetailFallbacks | bot/dialogs/tasks.py:91-107 | An empty description reads "Нет описания", no category "Без категории", an empty due date "Не указан"; the emoji is "✅" iff completed. |
| TaskDialogs.DetailOfApiTask | bot/dialogs/tasks.py:71-89 | A task as the API rendered it shows its creation and due times to the minute, or "Не указан". |
| TaskDialogs.DetailDates | bot/dialogs/tasks.py:71-102 | The shown dates are the date block's results, the due date with its fallback. |
| TaskDialogs.ConfirmData | bot/dialogs/tasks.py:350-357 | The four values of the confirm window, with the fallbacks "Нет описания", "Без категории" and "Не указан". |
| TaskDialogs.FirstMatch | bot/dialogs/tasks.py:321-327 | Some format gives the result, and there is none iff no format parses. |
| TaskDialogs.ParseDueDateText | bot/dialogs/tasks.py:321-327 | The loop stops at the first format that parses and gives that format's date. |
| TaskDialogs.DueDateFormatDecides | bot/dialogs/tasks.py:314-327 | Whichever format accepts the stripped text decides the date: no text matches two formats. |
| TaskDialogs.ShownDateReadBack | bot/dialogs/tasks.py:312-327 | A time as the detail window shows it is read back by the due-date input, to the minute. |
| TaskDialogs.StoredDueDateAccepted | bot/dialogs/tasks.py:335 | The stored ISO text of a parsed date is accepted by the backend as that date. |
| TaskDialogs.DialogManager.OnDueDateInput | bot/dialogs/tasks.py:305-337 | Text no format accepts gets the format hint and changes nothing. Otherwise the ISO form and the stripped text are stored and the wizard moves to confirm. A message without text raises before any change. |
| TaskDialogs.DialogManager.OnSkipDueDate | bot/dialogs/tasks.py:340-347 | No due date, shown as "Не указан"; on to confirm. |
| TaskDialogs.DialogManager.OnTitleInput | bot/dialogs/tasks.py:213-219 | The title is the message text; on to the description. |
| TaskDialogs.DialogManager.OnDescriptionInput | bot/dialogs/tasks.py:222-228 | The description is the message text; on to the category. |
| TaskDialogs.DialogManager.OnSkipDescription | bot/dialogs/tasks.py:231-237 | An empty description; on to the category. |
| TaskDialogs.DialogManager.GetCategoriesData | bot/dialogs/tasks.py:240-254 | One GET /categories/; the categories, or an empty list on failure, with `has_categories` iff non-empty. |
| TaskDialogs.CategoriesWindow | bot/dialogs/tasks.py:244-254 | A failed request gives an empty list. A successful one gives its answer; `len()` fails on a value without a length. |
| TaskDialogs.CategorySearchFinds | bot/dialogs/tasks.py:266-269 | The search finds the name of the first category with the id. It misses iff every category has another id. It raises at a category without an id, or at a match without a name. |
| TaskDialogs.FindCategory | bot/dialogs/tasks.py:266-269 | The loop with its `break` computes the search. |
| TaskDialogs.DialogManager.OnCategorySelected | bot/dialogs/tasks.py:257-271 | The id is recorded. A found name is recorded and the wizard goes on to the due date; a miss keeps the old name; a raise stays in the state. |
| TaskDialogs.DialogManager.OnSkipCategory | bot/dialogs/tasks.py:274-281 | No category, named "Без категории"; on to the due date. |
| TaskDialogs.DialogManager.OnNewCategoryInput | bot/dialogs/tasks.py:284-302 | POST of the stripped name. Success selects the new category and moves on. A failed request, a non-object or a missing `id` changes nothing. A missing `name` records the id only. |
| TaskDialogs.Selected | bot/dialogs/tasks.py:115-120 | A task id is found iff the selected task is an object with a truthy id. |
| TaskDialogs.DialogManager.OnCompleteTask | bot/dialogs/tasks.py:110-133 | Without a task id: "Задача не найдена" and no request. Otherwise one PATCH; success keeps the answer as the selected task, failure answers the error. |
| TaskDialogs.DialogManager.OnDeleteTask | bot/dialogs/tasks.py:136-158 | Without a task id: "Задача не найдена" and no request. Otherwise one DELETE; success returns to the list, failure answers the error. |
| TaskDialogs.ConfirmRequest | bot/dialogs/tasks.py:370-375 | POST /tasks/ with an object body. |
| TaskDialogs.SkippedStepsConfirm | bot/dialogs/tasks.py:350-375 | Skipping every optional step confirms the title with the three fallbacks and sends only the title and "". |
| TaskDialogs.EnteredValuesReachBackend | bot/dialogs/tasks.py:335-375 | A due date entered is confirmed as typed and sent in ISO form, which the backend reads as that date; a chosen category is sent by its id. |
| TaskDialogs.ValidatedDueDate | bot/dialogs/tasks.py:374 | An accepted body carrying the ISO form of a date gets that due date. |
| TaskDialogs.DialogManager.OnConfirmCreate | bot/dialogs/tasks.py:360-381 | One POST of the collected task. Success answers "✅ Задача создана!" and returns to the task list; failure answers the error and stays. |
| Text.IntToString | bot/api_client.py:16 | `str(i)`: non-empty, with a minus sign iff negative. |
| Text.IntToStringParses | bot/api_client.py:16 | `int(str(i)) == i`. |
| Text.NatToStringValue | backend/tasks/models.py:56 | The decimal text of a natural number denotes it. |
| Text.ParseInt | backend/api/v1/tasks/views.py:14 | `int(s)` succeeds only on non-empty text. |
| Text.DigitsValueInjective | bot/dialogs/tasks.py:77 | Two digit strings of one length with one value are equal. |
| Text.PadNat | bot/dialogs/tasks.py:77 | Zero padding keeps the value and reaches the width. |
| Text.Strip | bot/dialogs/tasks.py:312 | The result neither starts nor ends with whitespace and is no longer than the input. |
| Text.StripIdempotent | bot/dialogs/tasks.py:289 | Stripping twice is stripping once. |
| Text.StripNoop | bot/dialogs/tasks.py:312 | Text without surrounding whitespace is its own strip. |
| Text.TrimLeft | bot/dialogs/tasks.py:312 | Only leading whitespace is dropped. |
| Text.TrimRight | bot/dialogs/tasks.py:312 | Only trailing whitespace is dropped. |
| Text.Lower | backend/api/v1/tasks/views.py:28 | ASCII letters lower-cased and every other character kept, at the same length; this decides `lower() == "true"` exactly. |
| Text.ReplaceChar | bot/dialogs/tasks.py:76 | Text without the character is unchanged. |
| Text.StrLtIrreflexive | bot/dialogs/tasks.py:28 | Python's string order is irreflexive. |
| Text.StrLtTransitive | bot/dialogs/tasks.py:28 | The order is transitive. |
| Text.StrLtTotal | bot/dialogs/tasks.py:28 | The order is total. |
| DateTimes.BeforeIrreflexive | backend/tasks/tasks.py:18 | Datetime order is irreflexive. |
| DateTimes.BeforeTransitive | backend/tasks/tasks.py:18 | The order is transitive. |
| DateTimes.BeforeTotal | backend/tasks/models.py:48 | The order is total. |
| DateTimes.Pad2 | bot/dialogs/tasks.py:77 | `%d`, `%m`, `%H`, `%M`: two digits that denote the number. |
| DateTimes.Pad4 | bot/dialogs/tasks.py:77 | `%Y`: four digits that denote the year. |
| DateTimes.PadsArePadNat | bot/dialogs/tasks.py:77 | The fixed-width fields are zero padding of the decimal text to that width. |
| DateTimes.FormatDayMonthYearTime | bot/dialogs/tasks.py:77 | `strftime("%d.%m.%Y %H:%M")` is 16 characters. |
| DateTimes.IsoFormat | bot/dialogs/tasks.py:335 | `isoformat()` is 19 characters. |
| DateTimes.Strptime | bot/dialogs/tasks.py:324 | A parsed date is valid and has zero seconds. |
| DateTimes.StrptimeReadsDayMonthYearTime | bot/dialogs/tasks.py:315 | The first format reads `strftime("%d.%m.%Y %H:%M")` back to the minute. |
| DateTimes.DueDateFormatsExclusive | bot/dialogs/tasks.py:314-319 | No text is accepted by two of the four formats. |
| DateTimes.TimeTailExclusive | bot/dialogs/tasks.py:314-319 | A format and the same format followed by a time never both match. |
| DateTimes.SeparatorExclusive | bot/dialogs/tasks.py:314-319 | Dotted and slashed formats never both match. |
| DateTimes.MatchByAppend | bot/dialogs/tasks.py:324 | For any reader of one directive, matching a concatenated format is consuming the first part and matching the rest. |
| DateTimes.MatchIsMatchBy | bot/dialogs/tasks.py:324 | `strptime` matching is the generic matcher with `Step` as its reader. |
| DateTimes.MatchAppend | bot/dialogs/tasks.py:324 | Matching a concatenated format is matching its parts in turn. |
| DateTimes.ParseIso | bot/dialogs/tasks.py:76 | A parsed timestamp is a valid datetime. |
| DateTimes.ParseIsoFormat | bot/dialogs/tasks.py:76 | `fromisoformat(dt.isoformat()) == dt`. |
| DateTimes.ParseIsoFormatUtc | bot/dialogs/tasks.py:76 | The same with `+00:00` appended. |
| DateTimes.ParseIsoZulu | bot/dialogs/tasks.py:76 | An API timestamp ending in `Z` reads back after `replace("Z", "+00:00")`. |
| DateTimes.DaysInMonth | backend/tasks/models.py:29 | Between 28 and 31 days. |
| Sorting.Filter | backend/api/v1/tasks/views.py:24 | The elements kept are exactly those of the input that pass. |
| Sorting.FilterAppend | backend/api/v1/tasks/views.py:24-32 | Filtering distributes over concatenation. |
| Sorting.SortBy | bot/dialogs/tasks.py:28-29 | The sort is a permutation. |
| Sorting.SortBySorted | bot/dialogs/tasks.py:28-29 | The sort's result is sorted. |
| Sorting.InsertSorted | bot/dialogs/tasks.py:28-29 | Inserting into a sorted sequence keeps it sorted. |
| Sorting.SortByStable | bot/dialogs/tasks.py:29 | Elements that compare equal keep their input order. |
| Sorting.SortByThenBy | bot/dialogs/tasks.py:28-29 | A stable sort by one key of a sequence sorted by another is sorted by the first key, ties by the second. |
| Sorting.InsertThenBy | bot/dialogs/tasks.py:29 | The insertion step of that fact. |
| Sorting.FilterSorted | backend/api/v1/tasks/views.py:24-32 | A filter of a sorted sequence is sorted. |
| Sorting.SortByCount | backend/tasks/tasks.py:42 | Sorting keeps the number of elements that pass a predicate. |
| Sorting.FilterFilter | backend/api/v1/tasks/views.py:24-32 | Two filters in turn are one filter by both. |
| Sorting.PartitionedSplits | bot/dialogs/tasks.py:29 | A partitioned sequence is its first part followed by the rest. |
| Sorting.CountIsFilterLength | backend/tasks/tasks.py:38 | Counting is the length of the filter. |

## Left out

- I/O: HTTP transport, timeouts (10 s and 30 s), the Telegram Bot API, logging and the Celery scheduling are outside the model; transport exceptions other than an HTTP error status are not modelled.
- The Django ORM is a sequence-of-rows table; SQL, transactions, concurrency, overlapping job runs and database collation are not modelled; string order is the code-point order.
- ULID generation: keys are opaque strings supplied as `newId`; a key text that is not a well-formed ULID (on which the field's parse raises a validation error in `send_immediate_notification` instead of reaching `DoesNotExist`) is not modelled.
- Datetimes have second resolution: microseconds and time zones are not modelled; an ISO offset is checked but not converted.
- `Text.ParseInt`: `int()` is modelled on an optional sign and ASCII digits only; surrounding whitespace, underscores and non-ASCII digits are not accepted.
- `Text.Strip`: only ASCII whitespace (blank, tab, line feed, carriage return, vertical tab, form feed and U+001C to U+001F) counts as whitespace; non-ASCII whitespace such as U+0085, U+00A0 or U+3000, which `str.strip()` also removes, is kept.
- `Text.TrimLeft`: the same whitespace set as `Text.Strip`; non-ASCII leading whitespace is kept.
- `Text.TrimRight`: the same whitespace set as `Text.Strip`; non-ASCII trailing whitespace is kept.
- `DateTimes.Strptime`: `%d`, `%m`, `%Y`, `%H`, `%M` read ASCII digits only and the blank between date and time is ASCII whitespace only; `_strptime` builds its pattern from `\d` and `\s`, which also match other Unicode decimal digits (Arabic-Indic, for example) and Unicode spaces such as the no-break space, so such input is accepted by the source and refused by the model.
- `TaskDialogs.DialogManager.OnDueDateInput`: inherits that restriction through `DateTimes.Strptime`: a due date typed with non-ASCII digits or separated by a non-ASCII space is answered with the format hint in the model, while the source accepts it.
- `DateTimes.Pad4`: always writes four digits. That is `isoformat()`'s rendering for every year, but `strftime("%Y")` pads years below 1000 only on some platforms and Python versions (glibc's own `%Y` writes `999`), so for those years the model fixes the padded form.
- `DateTimes.FormatDayMonthYearTime`: uses `Pad4` for `%Y`, so for years below 1000 it shows the zero-padded year; where `strftime` does not pad, the shown text differs and `TaskDialogs.ShownDateReadBack` (which relies on `%Y` reading exactly four digits) does not describe that case.
- `Fields.CharValue`, `Fields.BoolValue`, `Fields.DateTimeValue`: the REST framework's message texts are approximated; a float or other non-JSON type is not modelled.
- `DateTimes.ParseIso`: reads only `YYYY-MM-DD`, optionally followed by one separator character and `HH:MM[:SS[.fff|.ffffff]][+HH:MM|-HH:MM]`; other texts `fromisoformat` accepts (an hour alone, `+HHMM` offsets, other fraction lengths, week dates, basic format without dashes) are refused.
- `Fields.DateTimeValue`: reads the text with `DateTimes.ParseIso` after `Z` becomes `+00:00`; Django's `parse_datetime` also accepts, through its `datetime_re` fallback, one- or two-digit month, day and hour fields, `+HHMM` and `+HH` offsets and fractions of one to six digits, and through `fromisoformat` the forms listed for `DateTimes.ParseIso`; such texts are refused with the format message in the model.
- `Fields.ParseApiDateTime`: has the same reading as `DateTimes.ParseIso`, so it covers every timestamp the API writes (`DateTimes.ParseIsoZulu`) but not the other forms listed there.
- `TaskViews.SetCompletedAction`: the 404 detail text is a fixed string.
- The `retrieve`, `list`, `destroy` and full-update actions of the viewsets are not modelled; pagination is not modelled beyond `ApiClient.UnwrapList`.
- `TaskViews.PartialUpdateAction`: a partial update does not check the category's owner, as in the source; the model states this (`TaskSerializers.PartialUpdateAcceptsForeignCategory`) rather than adding a check.
- An absent dictionary key of the bot's dialog data and an explicit `None` are both `JNull`-or-absent cases modelled as written with `.get` defaults.
- `TaskDialogs.DialogManager.OnConfirmCreate`: `dialog_manager.done()` is modelled as returning to the task list state; the aiogram dialog stack, its start data and the widget layout of the `Dialog(...)`/`Window(...)` declarations are not modelled.
- `TaskDialogs.CreatedKey` treats a `created_at` that is not text as "" (a mixed-type comparison would raise in Python); `TaskDialogs.IsDone` compares with `true` only.
- `TaskDialogs.PathSegment` writes a list, object or null task id as "".
- The `when` conditions of the windows and the main menu, `bot/handlers.py`, `bot/main.py`, `bot/dialogs_registry.py`, admin pages, URL routing, settings and management commands are not part of this model.

/**
 * The reminder job `check_due_tasks`, the message `send_task_notification`
 * renders, and the one-off `send_immediate_notification`. The Telegram Bot
 * API is an oracle `send` that answers each task's request with success or
 * with the text of the exception raised.
 */
module Notifications {
  import opened Common
  import opened Text
  import opened DateTimes
  import opened Sorting
  import opened Models
  import opened Store

  datatype SendResult = Sent | SendFailed(detail: string)

  /** One `POST .../sendMessage` and its JSON body. */
  datatype SendRequest = SendRequest(url: string, chatId: int, text: string, parseMode: string)

  /**
   * The Telegram Bot API's answer to the post made for the task with the
   * given key. Each task is posted on its own, so two tasks whose
   * messages are identical can still fare differently (one delivered,
   * the other refused with a rate limit).
   */
  type Sender = (Id, SendRequest) -> SendResult

  // ---------------------------------------------------------------------------
  // Selection
  // ---------------------------------------------------------------------------

  /**
   * `due_date <= now`, not completed, not yet notified. A null due date
   * never compares, so such a task is never due.
   */
  predicate IsDue(now: DateTime, t: Task) {
    t.dueDate.Some? && NotAfter(t.dueDate.value, now) && !t.isCompleted && !t.notificationSent
  }

  function DueAt(now: DateTime): Task -> bool {
    t => IsDue(now, t)
  }

  /** The job's queryset: the due tasks in the model's default order. */
  function SelectDue(ts: seq<Task>, now: DateTime): (r: seq<Task>)
    ensures forall i :: 0 <= i < |r| ==> r[i] in ts && IsDue(now, r[i])
    ensures forall k :: 0 <= k < |ts| && IsDue(now, ts[k]) ==> ts[k] in r
    ensures multiset(r) == multiset(Filter(ts, DueAt(now)))
    ensures SortedBy(r, NewerFirst)
  {
    var f := Filter(ts, DueAt(now));
    var r := NewestFirst(f);
    SameElements(f, r);
    r
  }

  // ---------------------------------------------------------------------------
  // The message
  // ---------------------------------------------------------------------------

  const Heading := "⏰ <b>Напоминание о задаче!</b>\n\n📌 <b>"
  const CategoryLabel := "\n📁 Категория: "
  const DueLabel := "\n📅 Срок: "
  const NoDueText := "Не указана"
  const DescriptionMark := "📝 "

  /** The category line, present exactly when the task has a category. */
  function CategoryLine(c: Option<Category>): (s: string)
    ensures s == "" <==> c.None?
    ensures c.Some? ==> |s| == |CategoryLabel| + |c.value.name|
    ensures c.Some? ==> s[..|CategoryLabel|] == CategoryLabel && s[|CategoryLabel|..] == c.value.name
  {
    match c
    case None => ""
    case Some(cat) => CategoryLabel + cat.name
  }

  /**
   * The due date as `%d.%m.%Y %H:%M`, or the placeholder; the rendering is
   * what the bot's first date format reads back.
   */
  function DueText(d: Option<DateTime>): (s: string)
    requires d.Some? ==> Valid(d.value)
    ensures s == NoDueText <==> d.None?
    ensures d.Some? ==> Strptime(s, DotDateTime) == Some(d.value.(second := 0))
  {
    match d
    case None => NoDueText
    case Some(dt) =>
      StrptimeReadsDayMonthYearTime(dt);
      FormatDayMonthYearTime(dt)
  }

  /** The description paragraph, present exactly when the description is not empty. */
  function DescriptionPart(description: string): (s: string)
    ensures s == "" <==> description == ""
    ensures description != "" ==> |s| == |DescriptionMark| + |description|
    ensures description != "" ==> s[..|DescriptionMark|] == DescriptionMark && s[|DescriptionMark|..] == description
  {
    if description != "" then DescriptionMark + description else ""
  }

  function RenderMessage(t: Task, c: Option<Category>): string
    requires t.dueDate.Some? ==> Valid(t.dueDate.value)
  {
    Heading + t.title + "</b>\n" + CategoryLine(c) + DueLabel + DueText(t.dueDate) + "\n\n" + DescriptionPart(t.description)
  }

  /** With no category, no due date and no description, only the title varies. */
  lemma BareMessage(t: Task)
    requires t.dueDate.None? && t.description == ""
    ensures RenderMessage(t, None) == Heading + t.title + "</b>\n" + "\n📅 Срок: Не указана\n\n"
  {
  }

  const TelegramApi := "https://api.telegram.org/bot"

  /** The request `send_task_notification` posts for a task. */
  function RequestFor(cs: seq<Category>, token: string, t: Task): (r: SendRequest)
    requires ValidTask(t)
    ensures r.chatId == t.telegramId && r.parseMode == "HTML"
  {
    SendRequest(TelegramApi + token + "/sendMessage", t.telegramId, RenderMessage(t, CategoryOf(cs, t)), "HTML")
  }

  /** Whether the API accepts the notification for `t`. */
  predicate Delivered(cs: seq<Category>, token: string, send: Sender, t: Task) {
    ValidTask(t) && send(t.id, RequestFor(cs, token, t)).Sent?
  }

  function DeliveredBy(cs: seq<Category>, token: string, send: Sender): Task -> bool {
    t => Delivered(cs, token, send, t)
  }

  predicate AllValid(ts: seq<Task>) {
    forall k :: 0 <= k < |ts| ==> ValidTask(ts[k])
  }

  // ---------------------------------------------------------------------------
  // What one run of the job does
  // ---------------------------------------------------------------------------

  /** Row by row: a due task whose notification went through is flagged. */
  function AfterRun(ts: seq<Task>, cs: seq<Category>, now: DateTime, token: string, send: Sender): (r: seq<Task>)
    ensures |r| == |ts|
  {
    seq(|ts|, k requires 0 <= k < |ts| =>
      if token != "" && IsDue(now, ts[k]) && Delivered(cs, token, send, ts[k])
      then ts[k].(notificationSent := true) else ts[k])
  }

  /** The number of notifications sent. */
  function SentCount(ts: seq<Task>, cs: seq<Category>, now: DateTime, token: string, send: Sender): nat {
    Count(SelectDue(ts, now), DeliveredBy(cs, token, send))
  }

  function Summary(ts: seq<Task>, cs: seq<Category>, now: DateTime, token: string, send: Sender): string {
    if SelectDue(ts, now) == [] then "No due tasks"
    else if token == "" then "Bot token not configured"
    else "Sent " + IntToString(SentCount(ts, cs, now, token, send)) + " notifications"
  }

  /** One request per task, in order. */
  function RequestsFor(cs: seq<Category>, token: string, due: seq<Task>): (r: seq<SendRequest>)
    requires AllValid(due)
    ensures |r| == |due|
    ensures forall i :: 0 <= i < |due| ==> r[i] == RequestFor(cs, token, due[i])
  {
    seq(|due|, i requires 0 <= i < |due| => RequestFor(cs, token, due[i]))
  }

  lemma RequestsStep(cs: seq<Category>, token: string, due: seq<Task>, i: nat, prev: seq<SendRequest>, next: SendRequest)
    requires AllValid(due) && i < |due|
    requires prev == RequestsFor(cs, token, due[..i]) && next == RequestFor(cs, token, due[i])
    ensures prev + [next] == RequestsFor(cs, token, due[..i + 1])
  {
    assert due[..i + 1][..i] == due[..i];
  }

  /** The requests posted, one per selected task in queryset order. */
  function Attempts(ts: seq<Task>, cs: seq<Category>, now: DateTime, token: string): seq<SendRequest>
    requires AllValid(ts)
  {
    var due := SelectDue(ts, now);
    ValidSelected(ts, now);
    if due == [] || token == "" then [] else RequestsFor(cs, token, due)
  }

  lemma ValidSelected(ts: seq<Task>, now: DateTime)
    requires AllValid(ts)
    ensures AllValid(SelectDue(ts, now))
  {
    var due := SelectDue(ts, now);
    forall j | 0 <= j < |due| ensures ValidTask(due[j]) {
      var k :| 0 <= k < |ts| && ts[k] == due[j];
    }
  }

  /** The rows once the tasks in `done` have been handled, starting from `before`. */
  ghost predicate FlaggedFor(cur: seq<Task>, before: seq<Task>, done: seq<Task>, delivered: Task -> bool) {
    && |cur| == |before|
    && forall k :: 0 <= k < |before| ==>
         cur[k] == (if before[k] in done && delivered(before[k]) then before[k].(notificationSent := true) else before[k])
  }

  /** Handling one more task flags its row exactly when its notification went through. */
  lemma FlagStep(cur: seq<Task>, before: seq<Task>, done: seq<Task>, m: nat, delivered: Task -> bool)
    requires FlaggedFor(cur, before, done, delivered)
    requires UniqueTaskIds(before) && m < |before|
    ensures delivered(before[m]) ==>
      FlaggedFor(cur[m := cur[m].(notificationSent := true)], before, done + [before[m]], delivered)
    ensures !delivered(before[m]) ==> FlaggedFor(cur, before, done + [before[m]], delivered)
  {
    var task := before[m];
    forall k | 0 <= k < |before|
      ensures (before[k] in done + [task]) == (before[k] in done || k == m)
    {
      if before[k] == task {
        assert before[k].id == before[m].id;
      }
    }
  }

  /** Once every selected task has been handled, the rows are those `AfterRun` describes. */
  lemma FlaggedAll(cur: seq<Task>, ts: seq<Task>, cs: seq<Category>, now: DateTime, token: string,
                   send: Sender)
    requires token != ""
    requires FlaggedFor(cur, ts, SelectDue(ts, now), DeliveredBy(cs, token, send))
    ensures cur == AfterRun(ts, cs, now, token, send)
  {
    var due := SelectDue(ts, now);
    var after := AfterRun(ts, cs, now, token, send);
    var delivered := DeliveredBy(cs, token, send);
    forall k | 0 <= k < |ts| ensures cur[k] == after[k] {
      SelectedIffDue(ts, now, k);
      assert delivered(ts[k]) == Delivered(cs, token, send, ts[k]);
    }
  }

  /** A row is in the job's queryset exactly when it is due. */
  lemma SelectedIffDue(ts: seq<Task>, now: DateTime, k: nat)
    requires k < |ts|
    ensures (ts[k] in SelectDue(ts, now)) == IsDue(now, ts[k])
  {
    var due := SelectDue(ts, now);
    if ts[k] in due {
      var i :| 0 <= i < |due| && due[i] == ts[k];
    }
  }

  /**
   * `check_due_tasks`: select, stop early without due tasks or without a
   * token, then post one request per task. A task is flagged right after its
   * own request succeeds; a failed request is logged and the loop goes on.
   */
  method CheckDueTasks(db: Database, now: DateTime, botToken: string, send: Sender)
    returns (summary: string, attempts: seq<SendRequest>)
    requires db.Valid()
    modifies db
    ensures db.Valid()
    ensures db.categories == old(db.categories)
    ensures db.tasks == AfterRun(old(db.tasks), db.categories, now, botToken, send)
    ensures summary == Summary(old(db.tasks), db.categories, now, botToken, send)
    ensures attempts == Attempts(old(db.tasks), db.categories, now, botToken)
  {
    var due := SelectDue(db.tasks, now);
    if due == [] {
      NothingDue(db.tasks, db.categories, now, botToken, send);
      return "No due tasks", [];
    }
    if botToken == "" {
      return "Bot token not configured", [];
    }
    ghost var before := db.tasks;
    var cs := db.categories;
    ValidSelected(before, now);
    var sentCount;
    sentCount, attempts := NotifyAll(db, due, before, cs, botToken, send);
    FlaggedAll(db.tasks, before, cs, now, botToken, send);
    RunOutcome(before, cs, now, botToken, send);
    summary := "Sent " + IntToString(sentCount) + " notifications";
  }

  /** The loop of `check_due_tasks` over the selected tasks, in order. */
  method NotifyAll(db: Database, due: seq<Task>, ghost before: seq<Task>, cs: seq<Category>,
                   botToken: string, send: Sender)
    returns (sentCount: nat, attempts: seq<SendRequest>)
    requires db.Valid() && db.categories == cs && db.tasks == before
    requires AllValid(due) && forall j :: 0 <= j < |due| ==> due[j] in before
    modifies db
    ensures db.Valid() && db.categories == cs
    ensures FlaggedFor(db.tasks, before, due, DeliveredBy(cs, botToken, send))
    ensures sentCount == Count(due, DeliveredBy(cs, botToken, send))
    ensures attempts == RequestsFor(cs, botToken, due)
  {
    ghost var delivered := DeliveredBy(cs, botToken, send);
    sentCount := 0;
    attempts := [];
    var i := 0;
    while i < |due|
      invariant 0 <= i <= |due|
      invariant db.Valid() && db.categories == cs && UniqueTaskIds(before)
      invariant FlaggedFor(db.tasks, before, due[..i], delivered)
      invariant sentCount == Count(due[..i], delivered)
      invariant attempts == RequestsFor(cs, botToken, due[..i])
    {
      sentCount, attempts := NotifyNext(db, due, i, before, cs, botToken, send, sentCount, attempts);
      i := i + 1;
    }
    assert due[..i] == due;
  }

  /** One turn of that loop: the next task is handled and counted, and its request recorded. */
  method NotifyNext(db: Database, due: seq<Task>, i: nat, ghost before: seq<Task>, cs: seq<Category>,
                    botToken: string, send: Sender, sentCount: nat, attempts: seq<SendRequest>)
    returns (sentCount': nat, attempts': seq<SendRequest>)
    requires db.Valid() && db.categories == cs && UniqueTaskIds(before)
    requires AllValid(due) && i < |due| && due[i] in before
    requires FlaggedFor(db.tasks, before, due[..i], DeliveredBy(cs, botToken, send))
    requires sentCount == Count(due[..i], DeliveredBy(cs, botToken, send))
    requires attempts == RequestsFor(cs, botToken, due[..i])
    modifies db
    ensures db.Valid() && db.categories == cs
    ensures FlaggedFor(db.tasks, before, due[..i + 1], DeliveredBy(cs, botToken, send))
    ensures sentCount' == Count(due[..i + 1], DeliveredBy(cs, botToken, send))
    ensures attempts' == RequestsFor(cs, botToken, due[..i + 1])
  {
    var request, sent := NotifyTask(db, due[i], before, due[..i], cs, botToken, send);
    PrefixStep(due, i);
    CountStep(due, i, DeliveredBy(cs, botToken, send), sentCount);
    RequestsStep(cs, botToken, due, i, attempts, request);
    attempts' := attempts + [request];
    sentCount' := if sent then sentCount + 1 else sentCount;
  }

  /** The summary and the requests of a run that found due tasks and a token. */
  lemma RunOutcome(ts: seq<Task>, cs: seq<Category>, now: DateTime, token: string, send: Sender)
    requires AllValid(ts) && token != "" && SelectDue(ts, now) != []
    ensures Summary(ts, cs, now, token, send)
      == "Sent " + IntToString(Count(SelectDue(ts, now), DeliveredBy(cs, token, send))) + " notifications"
    ensures AllValid(SelectDue(ts, now))
    ensures Attempts(ts, cs, now, token) == RequestsFor(cs, token, SelectDue(ts, now))
  {
    ValidSelected(ts, now);
  }

  /**
   * The body of the loop for one task: post its request and, only when the
   * request succeeds, save `notification_sent = True` on its row.
   */
  method NotifyTask(db: Database, task: Task, ghost before: seq<Task>, ghost done: seq<Task>,
                    cs: seq<Category>, botToken: string, send: Sender)
    returns (request: SendRequest, sent: bool)
    requires db.Valid() && db.categories == cs
    requires UniqueTaskIds(before) && task in before && ValidTask(task)
    requires FlaggedFor(db.tasks, before, done, DeliveredBy(cs, botToken, send))
    modifies db
    ensures db.Valid() && db.categories == cs
    ensures FlaggedFor(db.tasks, before, done + [task], DeliveredBy(cs, botToken, send))
    ensures request == RequestFor(cs, botToken, task)
    ensures sent == Delivered(cs, botToken, send, task)
  {
    request := RequestFor(cs, botToken, task);
    var result := send(task.id, request);
    sent := result.Sent?;
    ghost var m :| 0 <= m < |before| && before[m] == task;
    FlagStep(db.tasks, before, done, m, DeliveredBy(cs, botToken, send));
    if sent {
      assert db.tasks[m].id == task.id;
      FindOwnRow(db.tasks, m);
      var j := FindTaskIndex(db.tasks, task.id).value;
      db.SaveTask(j, db.tasks[j].(notificationSent := true));
    }
  }

  /**
   * `send_immediate_notification`: the task is looked up by key alone, so
   * neither its completion nor its flag is checked before posting.
   */
  method SendImmediateNotification(db: Database, taskId: Id, botToken: string, send: Sender)
    returns (outcome: string, attempt: Option<SendRequest>)
    requires db.Valid()
    modifies db
    ensures db.Valid() && db.categories == old(db.categories)
    ensures FindTaskIndex(old(db.tasks), taskId).None? ==>
      outcome == "Task " + taskId + " not found" && attempt == None && db.tasks == old(db.tasks)
    ensures FindTaskIndex(old(db.tasks), taskId).Some? && botToken == "" ==>
      outcome == "Bot token not configured" && attempt == None && db.tasks == old(db.tasks)
    ensures FindTaskIndex(old(db.tasks), taskId).Some? && botToken != "" ==>
      var k := FindTaskIndex(old(db.tasks), taskId).value;
      var t := old(db.tasks)[k];
      var request := RequestFor(db.categories, botToken, t);
      && attempt == Some(request)
      && match send(t.id, request)
         case Sent =>
           outcome == "Notification sent for task " + taskId
           && db.tasks == old(db.tasks)[k := t.(notificationSent := true)]
         case SendFailed(e) => outcome == "Failed: " + e && db.tasks == old(db.tasks)
  {
    var found := FindTaskIndex(db.tasks, taskId);
    if found.None? {
      return "Task " + taskId + " not found", None;
    }
    if botToken == "" {
      return "Bot token not configured", None;
    }
    var k := found.value;
    var task := db.tasks[k];
    var request := RequestFor(db.categories, botToken, task);
    attempt := Some(request);
    match send(task.id, request)
    case Sent =>
      db.SaveTask(k, task.(notificationSent := true));
      outcome := "Notification sent for task " + taskId;
    case SendFailed(e) =>
      outcome := "Failed: " + e;
  }

  // ---------------------------------------------------------------------------
  // Properties of a run
  // ---------------------------------------------------------------------------

  /** Without due tasks the run reports so, posts nothing and changes nothing, whatever the token. */
  lemma NothingDue(ts: seq<Task>, cs: seq<Category>, now: DateTime, token: string, send: Sender)
    requires SelectDue(ts, now) == []
    ensures AfterRun(ts, cs, now, token, send) == ts
    ensures Summary(ts, cs, now, token, send) == "No due tasks"
    ensures AllValid(ts) ==> Attempts(ts, cs, now, token) == []
  {
  }

  /** Without a token nothing is posted and nothing changes. */
  lemma NoToken(ts: seq<Task>, cs: seq<Category>, now: DateTime, send: Sender)
    requires AllValid(ts)
    ensures AfterRun(ts, cs, now, "", send) == ts
    ensures Attempts(ts, cs, now, "") == []
    ensures Summary(ts, cs, now, "", send) ==
      if SelectDue(ts, now) == [] then "No due tasks" else "Bot token not configured"
  {
  }

  /**
   * Only `notification_sent` is written: a row keeps every other field, a row
   * that was not due is untouched, and a due row ends up flagged exactly when
   * its notification went through.
   */
  lemma RunWritesOnlyTheFlag(ts: seq<Task>, cs: seq<Category>, now: DateTime, token: string,
                             send: Sender, k: nat)
    requires k < |ts|
    ensures var t' := AfterRun(ts, cs, now, token, send)[k];
      && t' == ts[k].(notificationSent := t'.notificationSent)
      && (!IsDue(now, ts[k]) ==> t' == ts[k])
      && (IsDue(now, ts[k]) ==> (t'.notificationSent <==> token != "" && Delivered(cs, token, send, ts[k])))
  {
  }

  /**
   * The reported count is the number of notifications that went through,
   * at most the number of due tasks, and equal to the number of rows the run
   * flags.
   */
  lemma SentCountIsFlaggedRows(ts: seq<Task>, cs: seq<Category>, now: DateTime, token: string,
                               send: Sender)
    requires token != ""
    ensures SentCount(ts, cs, now, token, send) <= |SelectDue(ts, now)|
    ensures SentCount(ts, cs, now, token, send) == |Filter(ts, Both(DueAt(now), DeliveredBy(cs, token, send)))|
    ensures var after := AfterRun(ts, cs, now, token, send);
      forall k :: 0 <= k < |ts| ==>
        (after[k] != ts[k] <==> Both(DueAt(now), DeliveredBy(cs, token, send))(ts[k]))
  {
    SentCountIsFilterLength(ts, cs, now, token, send);
    forall k | 0 <= k < |ts|
      ensures AfterRun(ts, cs, now, token, send)[k] != ts[k] <==> Both(DueAt(now), DeliveredBy(cs, token, send))(ts[k])
    {
      RowChangedIffFlagged(ts, cs, now, token, send, k);
    }
  }

  lemma SentCountIsFilterLength(ts: seq<Task>, cs: seq<Category>, now: DateTime, token: string, send: Sender)
    ensures SentCount(ts, cs, now, token, send) <= |SelectDue(ts, now)|
    ensures SentCount(ts, cs, now, token, send) == |Filter(ts, Both(DueAt(now), DeliveredBy(cs, token, send)))|
  {
    var delivered := DeliveredBy(cs, token, send);
    var f := Filter(ts, DueAt(now));
    CountIsFilterLength(SelectDue(ts, now), delivered);
    NewerFirstOrder();
    SortByCount(f, NewerFirst, delivered);
    FilterFilter(ts, DueAt(now), delivered);
  }

  lemma RowChangedIffFlagged(ts: seq<Task>, cs: seq<Category>, now: DateTime, token: string, send: Sender, k: nat)
    requires token != "" && k < |ts|
    ensures AfterRun(ts, cs, now, token, send)[k] != ts[k] <==> Both(DueAt(now), DeliveredBy(cs, token, send))(ts[k])
  {
    assert Both(DueAt(now), DeliveredBy(cs, token, send))(ts[k]) == (IsDue(now, ts[k]) && Delivered(cs, token, send, ts[k]));
  }

  /**
   * Idempotence: after a run, the next run with the same clock selects
   * exactly the tasks whose notification failed, so it posts nothing for a
   * task the first run flagged.
   */
  lemma SecondRunSelectsOnlyFailures(ts: seq<Task>, cs: seq<Category>, now: DateTime, token: string,
                                     send: Sender)
    requires token != ""
    ensures var after := AfterRun(ts, cs, now, token, send);
      forall k :: 0 <= k < |ts| ==>
        (IsDue(now, after[k]) <==> IsDue(now, ts[k]) && !Delivered(cs, token, send, ts[k]))
    ensures var again := SelectDue(AfterRun(ts, cs, now, token, send), now);
      forall i :: 0 <= i < |again| ==> again[i] in SelectDue(ts, now) && !Delivered(cs, token, send, again[i])
  {
    var after := AfterRun(ts, cs, now, token, send);
    var again := SelectDue(after, now);
    forall k | 0 <= k < |ts|
      ensures IsDue(now, after[k]) <==> IsDue(now, ts[k]) && !Delivered(cs, token, send, ts[k])
    {
      RunRow(ts, cs, now, token, send, k);
    }
    forall i | 0 <= i < |again|
      ensures again[i] in SelectDue(ts, now) && !Delivered(cs, token, send, again[i])
    {
      var k :| 0 <= k < |after| && after[k] == again[i];
      RunRow(ts, cs, now, token, send, k);
    }
  }

  /** A row the run leaves due is one it did not touch, and it failed to deliver. */
  lemma RunRow(ts: seq<Task>, cs: seq<Category>, now: DateTime, token: string,
               send: Sender, k: nat)
    requires token != "" && k < |ts|
    ensures var row := AfterRun(ts, cs, now, token, send)[k];
      IsDue(now, row) <==> IsDue(now, ts[k]) && !Delivered(cs, token, send, ts[k])
    ensures var row := AfterRun(ts, cs, now, token, send)[k];
      IsDue(now, row) ==> row == ts[k]
  {
  }

  /** When every notification of a run went through, the next run finds nothing due. */
  lemma SecondRunAfterFullSuccess(ts: seq<Task>, cs: seq<Category>, now: DateTime, token: string,
                                  send: Sender)
    requires token != "" && AllValid(ts)
    requires forall i :: 0 <= i < |SelectDue(ts, now)| ==> Delivered(cs, token, send, SelectDue(ts, now)[i])
    ensures var after := AfterRun(ts, cs, now, token, send);
      SelectDue(after, now) == [] && Summary(after, cs, now, token, send) == "No due tasks"
  {
    var after := AfterRun(ts, cs, now, token, send);
    SecondRunSelectsOnlyFailures(ts, cs, now, token, send);
  }
}

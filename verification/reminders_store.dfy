/** The reminders store (store/reminders_store.go, store/filters.go,
    store/errors.go): the interface the repository calls, the placeholder and
    argument list built for the list query, and the statements on one row run
    against a table keyed by owner and reminder id, with the driver's answers
    mapped to "no reminder found". */
module RemindersStore {
  import opened Wrappers
  import opened Recurrence
  import opened Models

  /** What a store call can fail with: the row is not there (carrying the id
      asked for), or any other driver error, passed on as it is. */
  datatype StoreError = NoReminderFound(id: string) | DbError(msg: string)
  {
    function Message(): string
    {
      match this
      case NoReminderFound(id) => "no reminder found with ID " + id
      case DbError(msg) => msg
    }
  }

  datatype ListFilters = ListFilters(
    userId: string,
    search: Option<string>,
    startDate: Option<Time>,
    endDate: Option<Time>,
    limit: Option<int>,
    offset: Option<int>
  )

  /** The store as the repository sees it (`ReminderStoreInterface`). A list
      reply of `None` is a nil slice, which the store returns when no row matched. */
  datatype ReminderStoreApi = ReminderStoreApi(
    list: ListFilters -> Result<Option<seq<Reminder>>, StoreError>,
    get: (string, string) -> Result<Reminder, StoreError>,
    create: Reminder -> Result<Reminder, StoreError>,
    update: Reminder -> Result<Reminder, StoreError>,
    delete: (string, string) -> Option<StoreError>
  )

  // ---------------------------------------------------------------------------
  // The list query

  /** The conditions the WHERE clause can hold. */
  datatype Condition =
    | UserIdIs          // user_id = $ph
    | DescriptionLike   // LOWER(description) LIKE LOWER($ph)
    | StartAtAtMost     // start_at <= $ph

  /** A condition and the placeholder `$ph` it binds. */
  datatype Clause = Clause(cond: Condition, ph: nat)

  datatype Arg = TextArg(text: string) | TimeArg(time: Time)

  /** The conditions, the bound arguments and the next placeholder number. */
  datatype ListQuery = ListQuery(clauses: seq<Clause>, args: seq<Arg>, argIdx: nat)

  /** The index invariant of the query builder: the next placeholder is one past
      the last argument, and the k-th condition binds `$k`, i.e. `args[k-1]`. */
  predicate Aligned(q: ListQuery)
  {
    && q.argIdx == |q.args| + 1
    && |q.clauses| == |q.args|
    && forall k :: 0 <= k < |q.clauses| ==> q.clauses[k].ph == k + 1
  }

  /** `WHERE user_id=$1` with the owner as the first argument. */
  function BaseQuery(userId: string): (q: ListQuery)
    ensures Aligned(q)
  {
    ListQuery([Clause(UserIdIs, 1)], [TextArg(userId)], 2)
  }

  /** Appends one condition bound to the next placeholder, then advances it. */
  function Bind(q: ListQuery, cond: Condition, a: Arg): (q': ListQuery)
    requires Aligned(q)
    ensures Aligned(q')
    ensures q'.clauses == q.clauses + [Clause(cond, q.argIdx)] && q'.args == q.args + [a]
  {
    ListQuery(q.clauses + [Clause(cond, q.argIdx)], q.args + [a], q.argIdx + 1)
  }

  /** The argument each condition must be bound to under `f`. */
  predicate BoundAs(c: Clause, a: Arg, f: ListFilters)
  {
    match c.cond
    case UserIdIs => a == TextArg(f.userId)
    case DescriptionLike => f.search.Some? && a == TextArg("%" + f.search.value + "%")
    case StartAtAtMost => f.endDate.Some? && a == TimeArg(f.endDate.value)
  }

  /** The query `ListReminders` builds: owner first, then a case-insensitive
      substring match when a search is given, then an upper bound on the start
      when BOTH window ends are given. Only the window's end is ever bound. */
  function BuildListQuery(f: ListFilters): (q: ListQuery)
    ensures Aligned(q)
    ensures |q.args| == 1 + (if f.search.Some? then 1 else 0)
                          + (if f.startDate.Some? && f.endDate.Some? then 1 else 0)
    ensures q.clauses[0] == Clause(UserIdIs, 1) && q.args[0] == TextArg(f.userId)
    ensures forall k :: 0 <= k < |q.clauses| ==> BoundAs(q.clauses[k], q.args[k], f)
    ensures (exists k :: 0 <= k < |q.clauses| && q.clauses[k].cond == DescriptionLike) <==> f.search.Some?
    ensures (exists k :: 0 <= k < |q.clauses| && q.clauses[k].cond == StartAtAtMost) <==>
              f.startDate.Some? && f.endDate.Some?
    ensures forall k :: 0 <= k < |q.args| && q.args[k].TimeArg? ==>
              f.endDate.Some? && q.args[k] == TimeArg(f.endDate.value)
  {
    var q1 := BaseQuery(f.userId);
    var q2 := if f.search.Some? then Bind(q1, DescriptionLike, TextArg("%" + f.search.value + "%")) else q1;
    var q3 := if f.startDate.Some? && f.endDate.Some? then Bind(q2, StartAtAtMost, TimeArg(f.endDate.value)) else q2;
    assert f.search.Some? ==> q3.clauses[1].cond == DescriptionLike;
    assert f.startDate.Some? && f.endDate.Some? ==> q3.clauses[|q3.clauses| - 1].cond == StartAtAtMost;
    q3
  }

  // ---------------------------------------------------------------------------
  // Not-found mapping over the driver's answers

  /** What the driver answers to a single-row query. */
  datatype RowOutcome = Row(row: Reminder) | NoRows | QueryFailed(msg: string)

  /** What the driver answers to a DELETE: the statement fails, reading the
      affected-row count fails, or the count. */
  datatype ExecOutcome = ExecFailed(msg: string) | CountFailed(msg: string) | Affected(n: nat)

  /** `GetReminderByID`: a missing row becomes "no reminder found" with the id
      asked for; other failures pass through. */
  function GetOutcome(o: RowOutcome, reminderId: string): (r: Result<Reminder, StoreError>)
    ensures r.Success? <==> o.Row?
    ensures o.Row? ==> r.value == o.row
    ensures o.NoRows? ==> r.error == NoReminderFound(reminderId)
    ensures o.QueryFailed? ==> r.error == DbError(o.msg)
  {
    match o
    case Row(row) => Success(row)
    case NoRows => Failure(NoReminderFound(reminderId))
    case QueryFailed(msg) => Failure(DbError(msg))
  }

  /** `UpdateReminder`: a missing row becomes "no reminder found" with the id of
      the reminder being written. */
  function UpdateOutcome(o: RowOutcome, reminder: Reminder): (r: Result<Reminder, StoreError>)
    ensures r.Success? <==> o.Row?
    ensures o.Row? ==> r.value == o.row
    ensures o.NoRows? ==> r.error == NoReminderFound(reminder.id)
    ensures o.QueryFailed? ==> r.error == DbError(o.msg)
  {
    GetOutcome(o, reminder.id)
  }

  /** `DeleteReminder`: zero affected rows becomes "no reminder found" with the
      id asked for; driver failures pass through; any other count is success. */
  function DeleteOutcome(o: ExecOutcome, reminderId: string): (r: Option<StoreError>)
    ensures r.None? <==> o.Affected? && o.n > 0
    ensures o == Affected(0) ==> r == Some(NoReminderFound(reminderId))
    ensures o.ExecFailed? ==> r == Some(DbError(o.msg))
    ensures o.CountFailed? ==> r == Some(DbError(o.msg))
  {
    match o
    case ExecFailed(msg) => Some(DbError(msg))
    case CountFailed(msg) => Some(DbError(msg))
    case Affected(n) => if n == 0 then Some(NoReminderFound(reminderId)) else None
  }

  // ---------------------------------------------------------------------------
  // The reminders table

  datatype Key = Key(userId: string, reminderId: string)

  type Table = map<Key, Reminder>

  function KeyOf(r: Reminder): Key
  {
    Key(r.userId, r.id)
  }

  /** Every row is filed under its own owner and id. */
  predicate WellKeyed(t: Table)
  {
    forall k :: k in t ==> KeyOf(t[k]) == k
  }

  /** `SELECT … WHERE id=$1 AND user_id=$2`; `fault` is a driver failure. */
  function SelectRow(t: Table, userId: string, reminderId: string, fault: Option<string>): RowOutcome
  {
    if fault.Some? then QueryFailed(fault.value)
    else if Key(userId, reminderId) in t then Row(t[Key(userId, reminderId)])
    else NoRows
  }

  /** `GetReminderByID` against the table: only the owner's row is found. */
  function GetReminderByID(t: Table, userId: string, reminderId: string, fault: Option<string>): (r: Result<Reminder, StoreError>)
    ensures fault.Some? ==> r == Failure(DbError(fault.value))
    ensures fault.None? ==> (r.Success? <==> Key(userId, reminderId) in t)
    ensures fault.None? && r.Success? ==> r.value == t[Key(userId, reminderId)]
    ensures fault.None? && r.Failure? ==> r.error == NoReminderFound(reminderId)
  {
    GetOutcome(SelectRow(t, userId, reminderId, fault), reminderId)
  }

  /** `UPDATE … SET rrule, description, start_at, updated_at = NOW() WHERE id AND user_id
      RETURNING …`: the row's other columns are kept. */
  function UpdateRow(t: Table, reminder: Reminder, now: Time, fault: Option<string>): (Table, RowOutcome)
  {
    var k := KeyOf(reminder);
    if fault.Some? then (t, QueryFailed(fault.value))
    else if k in t then
      var row := t[k].(rrule := reminder.rrule, description := reminder.description,
                       startAt := reminder.startAt, updatedAt := Some(now));
      (t[k := row], Row(row))
    else (t, NoRows)
  }

  /** `UpdateReminder` against the table: writes only the rule, description and
      start of the owner's row (and stamps it); a missing row changes nothing
      and is reported with the reminder's id. */
  function UpdateReminder(t: Table, reminder: Reminder, now: Time, fault: Option<string>): (res: (Table, Result<Reminder, StoreError>))
    requires WellKeyed(t)
    ensures WellKeyed(res.0)
    ensures res.1.Failure? ==> res.0 == t
    ensures fault.Some? ==> res.1 == Failure(DbError(fault.value))
    ensures fault.None? && KeyOf(reminder) !in t ==> res.1 == Failure(NoReminderFound(reminder.id))
    ensures fault.None? && KeyOf(reminder) in t ==>
              var old_ := t[KeyOf(reminder)];
              && res.1.Success?
              && res.1.value.id == old_.id && res.1.value.userId == old_.userId
              && res.1.value.createdAt == old_.createdAt
              && res.1.value.rrule == reminder.rrule
              && res.1.value.description == reminder.description
              && res.1.value.startAt == reminder.startAt
              && res.1.value.updatedAt == Some(now)
              && res.0 == t[KeyOf(reminder) := res.1.value]
  {
    var (t', o) := UpdateRow(t, reminder, now, fault);
    (t', UpdateOutcome(o, reminder))
  }

  /** `DELETE FROM reminders WHERE id=$1 AND user_id=$2`. */
  function DeleteRows(t: Table, userId: string, reminderId: string, fault: Option<string>): (Table, ExecOutcome)
  {
    var k := Key(userId, reminderId);
    if fault.Some? then (t, ExecFailed(fault.value))
    else if k in t then (t - {k}, Affected(1))
    else (t, Affected(0))
  }

  /** `DeleteReminder` against the table: removes exactly the owner's row, and
      reports a reminder that is not there (or not theirs) as not found. */
  function DeleteReminder(t: Table, userId: string, reminderId: string, fault: Option<string>): (res: (Table, Option<StoreError>))
    ensures res.1.None? <==> fault.None? && Key(userId, reminderId) in t
    ensures res.1.None? ==> res.0 == t - {Key(userId, reminderId)}
    ensures res.1.Some? ==> res.0 == t
    ensures fault.None? && Key(userId, reminderId) !in t ==> res.1 == Some(NoReminderFound(reminderId))
    ensures fault.Some? ==> res.1 == Some(DbError(fault.value))
  {
    var (t', o) := DeleteRows(t, userId, reminderId, fault);
    (t', DeleteOutcome(o, reminderId))
  }

  /** A reminder can never be reached through another user's id: reading,
      updating or deleting under a different owner reports it as not found
      and leaves the table as it was. */
  lemma OwnershipIsolation(t: Table, r: Reminder, otherUser: string, now: Time)
    requires WellKeyed(t)
    requires KeyOf(r) in t && otherUser != r.userId
    requires forall k :: k in t && k.reminderId == r.id ==> k.userId == r.userId
    ensures GetReminderByID(t, otherUser, r.id, None) == Failure(NoReminderFound(r.id))
    ensures UpdateReminder(t, r.(userId := otherUser), now, None) == (t, Failure(NoReminderFound(r.id)))
    ensures DeleteReminder(t, otherUser, r.id, None) == (t, Some(NoReminderFound(r.id)))
  {
    assert Key(otherUser, r.id) !in t;
  }
}

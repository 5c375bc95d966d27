/** The persisted records of the Go service (models/reminder.go, models/user.go)
    and the one piece of logic on them: attaching the occurrences that fall in
    a requested window to a reminder. */
module Models {
  import opened Wrappers
  import opened Recurrence

  /** A reminder row. `description` may be NULL; `createdAt`/`updatedAt` are
      assigned by the database; `occurrences` is never stored and is only
      filled in when a window is requested. */
  datatype Reminder = Reminder(
    id: string,
    userId: string,
    rrule: string,
    description: Option<string>,
    startAt: Time,
    createdAt: Option<Time>,
    updatedAt: Option<Time>,
    occurrences: seq<Time>
  )

  /** A user row. `password` and `apiKey` are never serialised. */
  datatype User = User(
    id: string,
    name: string,
    email: string,
    password: string,
    apiKey: Option<string>,
    createdAt: Option<Time>,
    updatedAt: Option<Time>
  )

  /** Why occurrence generation gave up: the stored rule does not parse. */
  datatype GenerateError = RuleDoesNotParse

  /** The occurrences of the reminder's rule, started at the reminder's own
      `startAt`, in the window `[from, to]`; a rule that does not parse is an
      error and nothing else is attempted. That every occurrence lies in the
      window follows directly from the engine's `HonoursWindow` promise. */
  function GenerateOccurrences(lib: RRuleLib, r: Reminder, from: Time, to: Time): (res: Result<seq<Time>, GenerateError>)
    ensures res.Failure? <==> !lib.valid(r.rrule)
    ensures HonoursWindow(lib) && res.Success? ==>
              forall k :: 0 <= k < |res.value| ==> from <= res.value[k] <= to
  {
    if !lib.valid(r.rrule) then Failure(RuleDoesNotParse)
    else Success(lib.between(r.rrule, r.startAt, from, to))
  }

  /** Attaches occurrences when, and only when, both window bounds are given and
      the rule parses; a failure is swallowed and the prior occurrences stay.
      No field other than `occurrences` is ever written. */
  function PopulateMetadataFields(lib: RRuleLib, r: Reminder, start: Option<Time>, end: Option<Time>): (r': Reminder)
    ensures r'.(occurrences := r.occurrences) == r
    ensures start.None? || end.None? || !lib.valid(r.rrule) ==> r' == r
    ensures start.Some? && end.Some? && lib.valid(r.rrule) ==>
              r'.occurrences == lib.between(r.rrule, r.startAt, start.value, end.value)
  {
    if start.Some? && end.Some? then
      match GenerateOccurrences(lib, r, start.value, end.value)
      case Success(occ) => r.(occurrences := occ)
      case Failure(_) => r
    else r
  }

  /** Populating twice with the same window is the same as populating once:
      the occurrences depend only on the fields populating never writes. */
  lemma PopulateIdempotent(lib: RRuleLib, r: Reminder, start: Option<Time>, end: Option<Time>)
    ensures PopulateMetadataFields(lib, PopulateMetadataFields(lib, r, start, end), start, end)
         == PopulateMetadataFields(lib, r, start, end)
  {
  }

  /** A JSON value as the encoder emits it; instants stay abstract. */
  datatype Json = JString(s: string) | JNull | JTime(t: Time) | JTimes(ts: seq<Time>)

  /** One `"key": value` member of a JSON object. */
  datatype Member = Member(key: string, value: Json)

  function OptionalString(o: Option<string>): Json
  {
    match o
    case Some(s) => JString(s)
    case None => JNull
  }

  /** The JSON object the encoder writes for a reminder: the creation and update
      stamps are tagged `json:"-"`, and `occurrences` is `omitempty`. */
  function ReminderJson(r: Reminder): (obj: seq<Member>)
    ensures |obj| == 5 || (|obj| == 6 && obj[5] == Member("occurrences", JTimes(r.occurrences)))
    ensures |obj| == 6 <==> |r.occurrences| > 0
  {
    [ Member("id", JString(r.id)),
      Member("user_id", JString(r.userId)),
      Member("rrule", JString(r.rrule)),
      Member("description", OptionalString(r.description)),
      Member("start_at", JTime(r.startAt)) ]
    + (if |r.occurrences| > 0 then [Member("occurrences", JTimes(r.occurrences))] else [])
  }

  /** The keys of a JSON object, in order. */
  function Keys(obj: seq<Member>): seq<string>
  {
    seq(|obj|, k requires 0 <= k < |obj| => obj[k].key)
  }

  /** The stamps never reach the JSON, whatever they hold, and the serialised
      object differs between two reminders only if a serialised field differs. */
  lemma ReminderJsonHidesStamps(a: Reminder, b: Reminder)
    ensures ReminderJson(a) == ReminderJson(b) <==>
              a.(createdAt := b.createdAt, updatedAt := b.updatedAt) == b
  {
    if ReminderJson(a) == ReminderJson(b) {
      assert ReminderJson(a)[0] == ReminderJson(b)[0];
      assert ReminderJson(a)[1] == ReminderJson(b)[1];
      assert ReminderJson(a)[2] == ReminderJson(b)[2];
      assert ReminderJson(a)[3] == ReminderJson(b)[3];
      assert ReminderJson(a)[4] == ReminderJson(b)[4];
      assert a.description == b.description by {
        match a.description
        case Some(_) =>
        case None =>
      }
      if |a.occurrences| > 0 {
        assert ReminderJson(a)[5] == ReminderJson(b)[5];
      }
    }
  }

  /** The member names the encoder writes: never a stamp, and `occurrences`
      only when there is at least one. */
  lemma ReminderJsonKeys(r: Reminder)
    ensures "created_at" !in Keys(ReminderJson(r)) && "updated_at" !in Keys(ReminderJson(r))
    ensures "occurrences" in Keys(ReminderJson(r)) <==> |r.occurrences| > 0
  {
    var ks := Keys(ReminderJson(r));
    assert ks[..5] == ["id", "user_id", "rrule", "description", "start_at"];
    if |r.occurrences| > 0 {
      assert ks == ["id", "user_id", "rrule", "description", "start_at", "occurrences"];
    } else {
      assert ks == ["id", "user_id", "rrule", "description", "start_at"];
    }
  }
}

/** The query of `GET /reminders` (transport/ReminderRequestList.go): an
    optional search term and an optional window given by both of its bounds. */
module ReminderListRequest {
  import opened Wrappers
  import opened Recurrence
  import opened TransportErrors
  import opened Domain

  datatype Request = Request(
    userId: string,
    startDate: Option<string>,
    endDate: Option<string>,
    search: Option<string>
  )

  /** A parsed URL query: every name with the values it was given, in order. */
  type QueryValues = map<string, seq<string>>

  /** `url.Values.Get`: the first value given for `key`, or "" when there is none. */
  function Get(values: QueryValues, key: string): string
  {
    if key in values && |values[key]| > 0 then values[key][0] else ""
  }

  /** Sets a field only when its query value is non-empty, leaving it as it was otherwise. */
  function Present(s: string, prior: Option<string>): Option<string>
  {
    if s != "" then Some(s) else prior
  }

  /** `ParseFromQuery`: an empty or missing query value leaves the field as it was. */
  function ParseFromQuery(req: Request, values: QueryValues): (r: Request)
    ensures r.userId == req.userId
    ensures Get(values, "start_date") == "" ==> r.startDate == req.startDate
    ensures Get(values, "start_date") != "" ==> r.startDate == Some(Get(values, "start_date"))
    ensures Get(values, "end_date") == "" ==> r.endDate == req.endDate
    ensures Get(values, "end_date") != "" ==> r.endDate == Some(Get(values, "end_date"))
    ensures Get(values, "search") == "" ==> r.search == req.search
    ensures Get(values, "search") != "" ==> r.search == Some(Get(values, "search"))
  {
    req.(startDate := Present(Get(values, "start_date"), req.startDate),
         endDate := Present(Get(values, "end_date"), req.endDate),
         search := Present(Get(values, "search"), req.search))
  }

  /** No field is present and empty. */
  predicate NoEmptyField(req: Request)
  {
    && (req.startDate.Some? ==> req.startDate.value != "")
    && (req.endDate.Some? ==> req.endDate.value != "")
    && (req.search.Some? ==> req.search.value != "")
  }

  /** The query a client sends for a request: one value per present field. */
  function Encode(req: Request): QueryValues
  {
    var q0: QueryValues := map[];
    var q1 := if req.startDate.Some? then q0["start_date" := [req.startDate.value]] else q0;
    var q2 := if req.endDate.Some? then q1["end_date" := [req.endDate.value]] else q1;
    if req.search.Some? then q2["search" := [req.search.value]] else q2
  }

  /** Parsing a fresh request from the query a client sends for `req` gives
      back `req`; and whatever the query, the parsed fields are never empty. */
  lemma ParseEncodeRoundTrip(req: Request)
    requires NoEmptyField(req)
    ensures ParseFromQuery(Request(req.userId, None, None, None), Encode(req)) == req
  {
  }

  lemma ParsedFieldsNeverEmpty(userId: string, values: QueryValues)
    ensures NoEmptyField(ParseFromQuery(Request(userId, None, None, None), values))
  {
  }

  /** Which check an error comes from, in the order the checks run. */
  function Position(e: RequestError): nat
  {
    match e
    case EndDateRequired => 0
    case StartDateRequired => 1
    case InvalidDateFormat => 2
    case _ => 3
  }

  /** The errors `Validate` collects: a lone bound asks for the other one, and
      any unreadable bound adds one date-format error, however many there are. */
  function Errors(req: Request, dates: DateLib): (errs: seq<RequestError>)
    ensures EndDateRequired in errs <==> req.startDate.Some? && req.endDate.None?
    ensures StartDateRequired in errs <==> req.endDate.Some? && req.startDate.None?
    ensures InvalidDateFormat in errs <==>
              (req.startDate.Some? && !dates.valid(req.startDate.value)) ||
              (req.endDate.Some? && !dates.valid(req.endDate.value))
    ensures forall k :: 0 <= k < |errs| ==> Position(errs[k]) < 3
    ensures forall i, j :: 0 <= i < j < |errs| ==> Position(errs[i]) < Position(errs[j])
  {
    (if req.startDate.Some? && req.endDate.None? then [EndDateRequired] else [])
    + (if req.endDate.Some? && req.startDate.None? then [StartDateRequired] else [])
    + (if (req.startDate.Some? && !dates.valid(req.startDate.value)) ||
          (req.endDate.Some? && !dates.valid(req.endDate.value))
       then [InvalidDateFormat] else [])
  }

  /** Passes exactly when the window is either complete or absent and every
      given bound is readable; the search term is never checked. */
  function Validate(req: Request, dates: DateLib): (v: Option<BadRequest>)
    ensures v.None? <==>
              (req.startDate.Some? <==> req.endDate.Some?) &&
              (req.startDate.Some? ==> dates.valid(req.startDate.value)) &&
              (req.endDate.Some? ==> dates.valid(req.endDate.value))
    ensures v.Some? ==> v.value.errs == Errors(req, dates)
  {
    Collected(Errors(req, dates))
  }

  function ParseBound(o: Option<string>, dates: DateLib): Option<Time>
  {
    match o
    case Some(s) => Some(dates.parse(s))
    case None => None
  }

  /** `ToDomain` as the source writes it: the owner is not copied. */
  function ToDomainAsWritten(req: Request, dates: DateLib): (d: ReminderListDomain)
    ensures d.userId == ""
    ensures d.startDate.Some? <==> req.startDate.Some?
    ensures d.endDate.Some? <==> req.endDate.Some?
    ensures req.startDate.Some? ==> d.startDate.value == dates.parse(req.startDate.value)
    ensures req.endDate.Some? ==> d.endDate.value == dates.parse(req.endDate.value)
    ensures d.search == req.search
  {
    ReminderListDomain("", ParseBound(req.startDate, dates), ParseBound(req.endDate, dates), req.search)
  }

  /** Whoever is signed in, the as-written command lists nobody's reminders. */
  lemma ToDomainAsWrittenDropsOwner(req: Request, dates: DateLib)
    requires req.userId != ""
    ensures ToDomainAsWritten(req, dates).userId != req.userId
  {
  }

  /** `ToDomain` as intended: the listing is scoped to the authenticated user. */
  function ToDomain(req: Request, dates: DateLib): (d: ReminderListDomain)
    ensures d.userId == req.userId
    ensures d.startDate.Some? <==> req.startDate.Some?
    ensures d.endDate.Some? <==> req.endDate.Some?
    ensures req.startDate.Some? ==> d.startDate.value == dates.parse(req.startDate.value)
    ensures req.endDate.Some? ==> d.endDate.value == dates.parse(req.endDate.value)
    ensures d.search == req.search
  {
    ToDomainAsWritten(req, dates).(userId := req.userId)
  }

  /** After validation the window handed on is all or nothing, so occurrences
      are attached either to every listed reminder or to none. */
  lemma ValidatedWindowIsWhole(req: Request, dates: DateLib)
    requires Validate(req, dates).None?
    ensures ToDomain(req, dates).startDate.Some? <==> ToDomain(req, dates).endDate.Some?
  {
  }
}

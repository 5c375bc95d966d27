/** The body of `POST /reminders` (transport/ReminderRequestCreate.go): its
    validator and its conversion into a create command. */
module ReminderCreateRequest {
  import opened Wrappers
  import opened Recurrence
  import opened TransportErrors
  import opened Domain

  /** `userId` is the authenticated user taken from the request context; the
      other fields come from the JSON body and may be missing. */
  datatype Request = Request(
    userId: string,
    rrule: Option<string>,
    description: Option<string>,
    startAt: Option<string>
  )

  /** A JSON field that is absent or the empty string. */
  predicate Missing(o: Option<string>)
  {
    o.None? || o.value == ""
  }

  /** Which field an error is about, in the order the fields are checked. */
  function Position(e: RequestError): nat
  {
    match e
    case RRuleRequired => 0
    case InvalidRRuleFormat => 0
    case StartAtRequired => 1
    case InvalidStartAt => 1
    case _ => 2
  }

  /** The errors `Validate` collects: at most one per field, the rule's first;
      a missing rule is never also reported as malformed, and likewise for the
      start. The description is never looked at. */
  function Errors(req: Request, rules: RRuleLib, dates: DateLib): (errs: seq<RequestError>)
    ensures RRuleRequired in errs <==> Missing(req.rrule)
    ensures InvalidRRuleFormat in errs <==> !Missing(req.rrule) && !rules.valid(req.rrule.value)
    ensures StartAtRequired in errs <==> Missing(req.startAt)
    ensures InvalidStartAt in errs <==> !Missing(req.startAt) && !dates.valid(req.startAt.value)
    ensures forall k :: 0 <= k < |errs| ==> Position(errs[k]) < 2
    ensures forall i, j :: 0 <= i < j < |errs| ==> Position(errs[i]) < Position(errs[j])
    ensures |errs| <= 2
  {
    var ruleErrs :=
      if Missing(req.rrule) then [RRuleRequired]
      else if !rules.valid(req.rrule.value) then [InvalidRRuleFormat]
      else [];
    var startErrs :=
      if Missing(req.startAt) then [StartAtRequired]
      else if !dates.valid(req.startAt.value) then [InvalidStartAt]
      else [];
    ruleErrs + startErrs
  }

  /** Passes exactly when both the rule and the start are given, non-empty and
      readable; otherwise the bad request lists what `Errors` collected. */
  function Validate(req: Request, rules: RRuleLib, dates: DateLib): (v: Option<BadRequest>)
    ensures v.None? <==>
              !Missing(req.rrule) && rules.valid(req.rrule.value) &&
              !Missing(req.startAt) && dates.valid(req.startAt.value)
    ensures v.Some? ==> v.value.errs == Errors(req, rules, dates)
  {
    Collected(Errors(req, rules, dates))
  }

  /** The description has no say in validation. */
  lemma DescriptionNeverValidated(req: Request, d: Option<string>, rules: RRuleLib, dates: DateLib)
    ensures Validate(req.(description := d), rules, dates) == Validate(req, rules, dates)
  {
  }

  /** `ToDomain` as the source writes it: the owner parsed from the context is
      not copied, so the command carries the empty user id. */
  function ToDomainAsWritten(req: Request, dates: DateLib): (d: ReminderCreateDomain)
    requires req.rrule.Some? && req.startAt.Some?
    ensures d.userId == ""
    ensures d.rrule == req.rrule.value && d.description == req.description
    ensures d.startAt == dates.parse(req.startAt.value)
  {
    ReminderCreateDomain("", req.rrule.value, req.description, dates.parse(req.startAt.value))
  }

  /** Whoever is signed in, the as-written command names nobody as the owner. */
  lemma ToDomainAsWrittenDropsOwner(req: Request, dates: DateLib)
    requires req.rrule.Some? && req.startAt.Some?
    requires req.userId != ""
    ensures ToDomainAsWritten(req, dates).userId != req.userId
  {
  }

  /** `ToDomain` as intended: the command is owned by the authenticated user. */
  function ToDomain(req: Request, dates: DateLib): (d: ReminderCreateDomain)
    requires req.rrule.Some? && req.startAt.Some?
    ensures d.userId == req.userId
    ensures d.rrule == req.rrule.value && d.description == req.description
    ensures d.startAt == dates.parse(req.startAt.value)
  {
    ToDomainAsWritten(req, dates).(userId := req.userId)
  }

  /** A request that passed validation converts into a command whose rule the
      engine accepts, which is what creating a reminder needs. */
  lemma ValidatedRequestIsCreatable(req: Request, rules: RRuleLib, dates: DateLib)
    requires Validate(req, rules, dates).None?
    ensures req.rrule.Some? && req.startAt.Some?
    ensures rules.valid(ToDomain(req, dates).rrule)
    ensures ToDomain(req, dates).userId == req.userId
  {
  }
}

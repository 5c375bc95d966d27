/** The body of `PATCH /reminders/{reminderId}` (transport/ReminderRequestUpdate.go):
    every field is optional, but at least one must be sent. */
module ReminderUpdateRequest {
  import opened Wrappers
  import opened Recurrence
  import opened TransportErrors
  import opened Domain

  datatype Request = Request(
    userId: string,
    reminderId: string,
    rrule: Option<string>,
    description: Option<string>,
    startAt: Option<string>
  )

  /** Which check an error comes from, in the order the checks run. */
  function Position(e: RequestError): nat
  {
    match e
    case RRuleEmpty => 0
    case InvalidRRuleFormat => 0
    case InvalidStartAt => 1
    case NoFieldsToUpdate => 2
    case _ => 3
  }

  /** True when the body sends none of the three fields. */
  predicate NothingSupplied(req: Request)
  {
    req.rrule.None? && req.description.None? && req.startAt.None?
  }

  /** The errors `Validate` collects, in check order, at most one per check.
      A sent but empty rule is reported as empty and not also as malformed; a
      description, even an empty one, counts as a supplied field. */
  function Errors(req: Request, rules: RRuleLib, dates: DateLib): (errs: seq<RequestError>)
    ensures RRuleEmpty in errs <==> req.rrule == Some("")
    ensures InvalidRRuleFormat in errs <==> req.rrule.Some? && req.rrule.value != "" && !rules.valid(req.rrule.value)
    ensures InvalidStartAt in errs <==> req.startAt.Some? && !dates.valid(req.startAt.value)
    ensures NoFieldsToUpdate in errs <==> NothingSupplied(req)
    ensures forall k :: 0 <= k < |errs| ==> Position(errs[k]) < 3
    ensures forall i, j :: 0 <= i < j < |errs| ==> Position(errs[i]) < Position(errs[j])
  {
    var ruleErrs :=
      if req.rrule.Some? && req.rrule.value == "" then [RRuleEmpty]
      else if req.rrule.Some? && !rules.valid(req.rrule.value) then [InvalidRRuleFormat]
      else [];
    var startErrs :=
      if req.startAt.Some? && !dates.valid(req.startAt.value) then [InvalidStartAt] else [];
    var bodyErrs :=
      if NothingSupplied(req) then [NoFieldsToUpdate] else [];
    ruleErrs + startErrs + bodyErrs
  }

  /** Passes exactly when something is sent, a sent rule is non-empty and
      accepted by the engine, and a sent start is readable. */
  function Validate(req: Request, rules: RRuleLib, dates: DateLib): (v: Option<BadRequest>)
    ensures v.None? <==>
              !NothingSupplied(req) &&
              (req.rrule.Some? ==> req.rrule.value != "" && rules.valid(req.rrule.value)) &&
              (req.startAt.Some? ==> dates.valid(req.startAt.value))
    ensures v.Some? ==> v.value.errs == Errors(req, rules, dates)
  {
    Collected(Errors(req, rules, dates))
  }

  /** `ToDomain` as the source writes it: the owner is not copied. */
  function ToDomainAsWritten(req: Request, dates: DateLib): (d: ReminderUpdateDomain)
    ensures d.userId == ""
    ensures d.reminderId == req.reminderId
    ensures d.rrule == req.rrule && d.description == req.description
    ensures d.startAt.Some? <==> req.startAt.Some?
    ensures req.startAt.Some? ==> d.startAt.value == dates.parse(req.startAt.value)
  {
    ReminderUpdateDomain(
      "",
      req.reminderId,
      req.rrule,
      req.description,
      if req.startAt.Some? then Some(dates.parse(req.startAt.value)) else None)
  }

  /** Whoever is signed in, the as-written command names nobody as the owner. */
  lemma ToDomainAsWrittenDropsOwner(req: Request, dates: DateLib)
    requires req.userId != ""
    ensures ToDomainAsWritten(req, dates).userId != req.userId
  {
  }

  /** `ToDomain` as intended: the command is scoped to the authenticated user. */
  function ToDomain(req: Request, dates: DateLib): (d: ReminderUpdateDomain)
    ensures d.userId == req.userId
    ensures d.reminderId == req.reminderId
    ensures d.rrule == req.rrule && d.description == req.description
    ensures d.startAt.Some? <==> req.startAt.Some?
    ensures req.startAt.Some? ==> d.startAt.value == dates.parse(req.startAt.value)
  {
    ToDomainAsWritten(req, dates).(userId := req.userId)
  }

  /** A request that passed validation converts into a command that supplies
      at least one field, and whose rule, when supplied, the engine accepts. */
  lemma ValidatedRequestIsUpdatable(req: Request, rules: RRuleLib, dates: DateLib)
    requires Validate(req, rules, dates).None?
    ensures var d := ToDomain(req, dates);
            (d.rrule.Some? || d.description.Some? || d.startAt.Some?) &&
            (d.rrule.Some? ==> rules.valid(d.rrule.value))
  {
  }
}

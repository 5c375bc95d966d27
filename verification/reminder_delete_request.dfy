/** `DELETE /reminders/{reminderId}` (transport/ReminderRequestDelete.go):
    nothing to validate, only the conversion into a delete command. */
module ReminderDeleteRequest {
  import opened Domain

  datatype Request = Request(userId: string, reminderId: string)

  /** `ToDomain` as the source writes it: the owner is not copied. */
  function ToDomainAsWritten(req: Request): (d: ReminderDeleteDomain)
    ensures d.userId == "" && d.reminderId == req.reminderId
  {
    ReminderDeleteDomain("", req.reminderId)
  }

  /** Whoever is signed in, the as-written command deletes nobody's reminder. */
  lemma ToDomainAsWrittenDropsOwner(req: Request)
    requires req.userId != ""
    ensures ToDomainAsWritten(req).userId != req.userId
  {
  }

  /** `ToDomain` as intended: the delete is scoped to the authenticated user. */
  function ToDomain(req: Request): (d: ReminderDeleteDomain)
    ensures d.userId == req.userId && d.reminderId == req.reminderId
  {
    ToDomainAsWritten(req).(userId := req.userId)
  }
}

/** The result records the Go repository hands back to its handlers
    (repository/results.go): each is a projection of a model record that keeps
    exactly the fields meant to leave the service. */
module Results {
  import opened Wrappers
  import opened Recurrence
  import opened Models

  datatype UserCreateResult = UserCreateResult(id: string, name: string, email: string, apiKey: Option<string>)

  datatype UserGetResult = UserGetResult(id: string, name: string, email: string)

  datatype ReminderListResult = ReminderListResult(reminders: seq<Reminder>)

  datatype ReminderCreateResult = ReminderCreateResult(id: string, rrule: string, description: Option<string>, startAt: Time)

  datatype ReminderUpdateResult = ReminderUpdateResult(id: string, rrule: string, description: Option<string>, startAt: Time)

  /** A freshly created user as returned once: identity, contact and the issued key. */
  function NewUserCreateResult(u: User): (res: UserCreateResult)
    ensures res.id == u.id && res.name == u.name && res.email == u.email
    ensures res.apiKey == u.apiKey
  {
    UserCreateResult(u.id, u.name, u.email, u.apiKey)
  }

  /** A user as shown afterwards: identity and contact, no secret. */
  function NewUserGetResult(u: User): (res: UserGetResult)
    ensures res.id == u.id && res.name == u.name && res.email == u.email
  {
    UserGetResult(u.id, u.name, u.email)
  }

  /** A Go slice may be nil; the list result always carries a real list, so a
      nil slice becomes the empty list and anything else is kept as it is. */
  function NewReminderListResult(reminders: Option<seq<Reminder>>): (res: ReminderListResult)
    ensures reminders.None? ==> res.reminders == []
    ensures reminders.Some? ==> res.reminders == reminders.value
  {
    ReminderListResult(reminders.GetOr([]))
  }

  function NewReminderCreateResult(r: Reminder): (res: ReminderCreateResult)
    ensures res.id == r.id && res.rrule == r.rrule && res.description == r.description && res.startAt == r.startAt
  {
    ReminderCreateResult(r.id, r.rrule, r.description, r.startAt)
  }

  function NewReminderUpdateResult(r: Reminder): (res: ReminderUpdateResult)
    ensures res.id == r.id && res.rrule == r.rrule && res.description == r.description && res.startAt == r.startAt
  {
    ReminderUpdateResult(r.id, r.rrule, r.description, r.startAt)
  }

  /** Two users give the same shown result exactly when they agree on id, name
      and email: the password and the API key can never be read back from it. */
  lemma UserGetResultHidesSecrets(a: User, b: User)
    ensures NewUserGetResult(a) == NewUserGetResult(b) <==>
              a.id == b.id && a.name == b.name && a.email == b.email
  {
  }

  /** The creation result is the shown result plus the user's API key. */
  lemma UserCreateResultExtendsGet(u: User)
    ensures var c := NewUserCreateResult(u); var g := NewUserGetResult(u);
            c.id == g.id && c.name == g.name && c.email == g.email && c.apiKey == u.apiKey
  {
  }

  /** The creation result keeps exactly id, rrule, description and start: two
      reminders give the same result if and only if they agree on those four. */
  lemma ReminderCreateResultKeepsExactly(a: Reminder, b: Reminder)
    ensures NewReminderCreateResult(a) == NewReminderCreateResult(b) <==>
              a.id == b.id && a.rrule == b.rrule && a.description == b.description && a.startAt == b.startAt
  {
  }

  /** The update result is the same projection as the creation result. */
  lemma ReminderUpdateResultIsCreateProjection(r: Reminder)
    ensures var u := NewReminderUpdateResult(r); var c := NewReminderCreateResult(r);
            u.id == c.id && u.rrule == c.rrule && u.description == c.description && u.startAt == c.startAt
  {
  }
}

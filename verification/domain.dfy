/** The commands the transport layer hands to the repository (domain/reminders.go,
    domain/users.go): optional fields are what the client may leave out. */
module Domain {
  import opened Wrappers
  import opened Recurrence

  datatype ReminderCreateDomain = ReminderCreateDomain(
    userId: string,
    rrule: string,
    description: Option<string>,
    startAt: Time
  )

  datatype ReminderUpdateDomain = ReminderUpdateDomain(
    userId: string,
    reminderId: string,
    rrule: Option<string>,
    description: Option<string>,
    startAt: Option<Time>
  )

  datatype ReminderListDomain = ReminderListDomain(
    userId: string,
    startDate: Option<Time>,
    endDate: Option<Time>,
    search: Option<string>
  )

  datatype ReminderDeleteDomain = ReminderDeleteDomain(userId: string, reminderId: string)

  datatype UserCreateDomain = UserCreateDomain(
    name: Option<string>,
    email: Option<string>,
    password: Option<string>
  )

  datatype UserGetDomain = UserGetDomain(userId: string)
}

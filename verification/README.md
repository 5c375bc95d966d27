# Reminders service core in Dafny

This project models the core of a small reminders service that exists in two
implementations.

The Go implementation is modelled from the HTTP request validators down to the
reminder store:

- **Transport requests.** Each request validates itself and collects its
  faults into one `Bad request: …; …` error. It then converts itself to a
  domain request.
- **Repositories.** The reminder repository lists reminders and fills in
  their occurrences inside a date window. It creates, updates and deletes
  reminders, refusing any rule/start pair that yields no occurrence. The user
  repository signs an API key for a new user's id.
- **Results.** These are the projections the repositories return.
- **Store.** The modelled parts are the list query's placeholder numbering,
  the not-found mapping of get, update and delete, and a map-backed table
  that gives those statements their meaning.

The Laravel implementation is modelled through its `ReminderResource`:

- the JSON array it renders;
- the filter that walks the rule's ascending occurrence stream and keeps
  what falls in `[start, end]`;
- its own `KEY=VALUE;…` reader of rule strings (section 3.3.10 of RFC 5545
  gives the grammar it approximates).

Two libraries are parameters, not code.

- **Recurrence library.** A rule parser, "yields at least one occurrence"
  and an inclusive `Between`.
- **Date parser.** Holds `valid` and `parse` (`Recurrence.RRuleLib` and
  `Recurrence.DateLib`).

The store is seen by the repositories as a record of functions
(`RemindersStore.ReminderStoreApi`, `UsersRepository.UserStoreApi`). Every
repository operation returns a `Repository.Run`: the calls it made on its
collaborators, in order, and its result. Properties such as "the store is
never called" or "the filters are passed on unchanged" are stated about that
call log. `RemindersRepository.BackedBy` ties such a record to the map-backed
table, so that the update and delete operations can be followed through to
the rows.

Two behaviours of the Go code are worth knowing:

- An update that supplies only a description still re-runs the occurrence
  check on the stored rule and start
  (`go-version/internal/api/repository/reminders_repository.go:92-107`).
- ErrStartAtEmpty is declared but never raised. An update with an empty
  `start_at` is reported as an invalid start.

## Model

| member | source | states |
|---|---|---|
| TransportErrors.MessageRoundTrip | go-version/internal/api/transport/errors.go:20-96 | Each validation error's message identifies it: reading the message back gives the same error. |
| TransportErrors.MessagesDistinct | go-version/internal/api/transport/errors.go:20-96 | Two validation errors have the same message exactly when they are the same error. |
| TransportErrors.MessageHasNoSemicolon | go-version/internal/api/transport/errors.go:20-96 | No message contains `;`, the separator of the combined message. |
| TransportErrors.BadRequestMessage | go-version/internal/api/transport/errors.go:9-18 | The combined message always starts with `Bad request`, and is exactly that when there are no errors. |
| TransportErrors.BadRequestRoundTrip | go-version/internal/api/transport/errors.go:9-18 | The combined message loses nothing: splitting it at `; ` gives back the same errors in the same order. |
| TransportErrors.Messages | go-version/internal/api/transport/errors.go:13-16 | One message per error, in the same order. |
| TransportErrors.Collected | go-version/internal/api/transport/ReminderRequestCreate.go:39-42 | A validator fails exactly when it collected at least one error, and reports all of them. |
| ReminderCreateRequest.Errors | go-version/internal/api/transport/ReminderRequestCreate.go:25-37 | "rrule required" is reported iff the rule is absent or empty. "Invalid rrule format" is reported iff it is present but unparseable. The same pair of conditions holds for the start. Errors come rule first, start second, at most one of each. |
| ReminderCreateRequest.Validate | go-version/internal/api/transport/ReminderRequestCreate.go:25-43 | Passes iff the rule is present and parseable and the start is present and a valid date; otherwise it returns the collected errors. |
| ReminderCreateRequest.DescriptionNeverValidated | go-version/internal/api/transport/ReminderRequestCreate.go:25-43 | Changing the description never changes the verdict. |
| ReminderCreateRequest.ToDomainAsWritten | go-version/internal/api/transport/ReminderRequestCreate.go:45-52 | Copies the rule and description and parses the start, but leaves the owner empty. |
| ReminderCreateRequest.ToDomainAsWrittenDropsOwner | go-version/internal/api/transport/ReminderRequestCreate.go:45-52 | For any authenticated caller, the domain request as written names a different owner than the caller. |
| ReminderCreateRequest.ToDomain | go-version/internal/api/transport/ReminderRequestCreate.go:45-52 | The corrected conversion carries the caller as owner, along with the rule, description and parsed start. |
| ReminderCreateRequest.ValidatedRequestIsCreatable | go-version/internal/api/transport/ReminderRequestCreate.go:25-52 | A request that passes validation converts to a domain request whose rule the recurrence library accepts, as the repository's create requires. |
| ReminderUpdateRequest.Errors | go-version/internal/api/transport/ReminderRequestUpdate.go:35-53 | "rrule empty" iff the rule is supplied and empty; "invalid format" iff it is supplied, non-empty and unparseable; "invalid start" iff a start is supplied and not a valid date (the empty string included); "no fields" iff nothing is supplied. Errors are kept in the source's order. |
| ReminderUpdateRequest.Validate | go-version/internal/api/transport/ReminderRequestUpdate.go:35-60 | Passes iff no fault is found; otherwise it returns the collected errors. |
| ReminderUpdateRequest.ToDomainAsWritten | go-version/internal/api/transport/ReminderRequestUpdate.go:62-74 | Copies the reminder id, rule and description and parses the start when it is present, but leaves the owner empty. |
| ReminderUpdateRequest.ToDomainAsWrittenDropsOwner | go-version/internal/api/transport/ReminderRequestUpdate.go:62-74 | For any authenticated caller, the owner in the domain request as written is not the caller. |
| ReminderUpdateRequest.ToDomain | go-version/internal/api/transport/ReminderRequestUpdate.go:62-74 | The corrected conversion also carries the caller as owner. |
| ReminderUpdateRequest.ValidatedRequestIsUpdatable | go-version/internal/api/transport/ReminderRequestUpdate.go:35-74 | A request that passes validation supplies something, and any rule it supplies is accepted by the recurrence library. |
| ReminderListRequest.ParseFromQuery | go-version/internal/api/transport/ReminderRequestList.go:21-36 | Each of `start_date`, `end_date` and `search` is taken from the query's first value when that value is non-empty, and is otherwise left as it was. |
| ReminderListRequest.ParseEncodeRoundTrip | go-version/internal/api/transport/ReminderRequestList.go:21-36 | A request whose fields are never empty strings survives being written into a query string and parsed back. |
| ReminderListRequest.ParsedFieldsNeverEmpty | go-version/internal/api/transport/ReminderRequestList.go:21-36 | Parsing never yields a present-but-empty field. |
| ReminderListRequest.Errors | go-version/internal/api/transport/ReminderRequestList.go:38-48 | An end date is required iff only the start is given, and a start date iff only the end is given. "invalid date format" is reported iff a given bound is not a valid date. Errors are kept in the source's order. |
| ReminderListRequest.Validate | go-version/internal/api/transport/ReminderRequestList.go:38-53 | Passes iff both bounds or neither are given and every given bound is a valid date. |
| ReminderListRequest.ToDomainAsWritten | go-version/internal/api/transport/ReminderRequestList.go:55-70 | Parses the bounds that are present, copies the search, and leaves the owner empty. |
| ReminderListRequest.ToDomainAsWrittenDropsOwner | go-version/internal/api/transport/ReminderRequestList.go:55-70 | For any authenticated caller, the list as written is asked for another owner. |
| ReminderListRequest.ToDomain | go-version/internal/api/transport/ReminderRequestList.go:55-70 | The corrected conversion also carries the caller as owner. |
| ReminderListRequest.ValidatedWindowIsWhole | go-version/internal/api/transport/ReminderRequestList.go:38-70 | After validation, the domain request has both bounds of the window or neither. |
| ReminderDeleteRequest.ToDomainAsWritten | go-version/internal/api/transport/ReminderRequestDelete.go:29-33 | Copies the reminder id and leaves the owner empty. |
| ReminderDeleteRequest.ToDomainAsWrittenDropsOwner | go-version/internal/api/transport/ReminderRequestDelete.go:29-33 | For any authenticated caller, the delete as written is scoped to another owner. |
| ReminderDeleteRequest.ToDomain | go-version/internal/api/transport/ReminderRequestDelete.go:29-33 | The corrected conversion carries the caller and the reminder id, as the user lookup's conversion does (`go-version/internal/api/transport/UserRequestGet.go:18-22`). |
| UserCreateRequest.Errors | go-version/internal/api/transport/UserRequestCreate.go:23-33 | Name, email and password are each reported as required iff absent or empty, in that order. |
| UserCreateRequest.Validate | go-version/internal/api/transport/UserRequestCreate.go:23-38 | Passes iff all three fields are present and non-empty. |
| UserCreateRequest.ToDomain | go-version/internal/api/transport/UserRequestCreate.go:40-46 | Copies name, email and password. |
| UserCreateRequest.ValidatedRequestIsCreatable | go-version/internal/api/transport/UserRequestCreate.go:23-46 | After validation, the domain request has all three fields, as the repository's create requires. |
| Models.GenerateOccurrences | go-version/internal/api/models/reminder.go:29-38 | Fails exactly when the rule does not parse. With a library that honours the window, every occurrence lies within the inclusive window; this follows directly from that assumption. |
| Models.PopulateMetadataFields | go-version/internal/api/models/reminder.go:20-27 | Writes nothing but the occurrences. It changes nothing when a bound is missing or the rule does not parse; otherwise the occurrences are the library's inclusive `Between` from the reminder's start. |
| Models.PopulateIdempotent | go-version/internal/api/models/reminder.go:20-27 | Filling in the occurrences twice with the same window is the same as doing it once. |
| Models.ReminderJson | go-version/internal/api/models/reminder.go:9-18 | The JSON object has the five public keys, plus `occurrences` exactly when there are occurrences (`omitempty`). |
| Models.ReminderJsonHidesStamps | go-version/internal/api/models/reminder.go:15-16 | Two reminders render identically iff they agree on everything but their timestamps. |
| Models.ReminderJsonKeys | go-version/internal/api/models/reminder.go:15-17 | Neither timestamp is ever rendered; `occurrences` is rendered iff there are some. |
| Results.NewUserCreateResult | go-version/internal/api/repository/results.go:40-47 | Carries the user's id, name, email and API key. |
| Results.NewUserGetResult | go-version/internal/api/repository/results.go:49-55 | Carries the user's id, name and email. |
| Results.UserGetResultHidesSecrets | go-version/internal/api/repository/results.go:49-55 | Two users give the same lookup result iff they agree on id, name and email, so neither password nor key can leak. |
| Results.UserCreateResultExtendsGet | go-version/internal/api/repository/results.go:40-55 | The creation result is the lookup result plus the API key. |
| Results.NewReminderCreateResult | go-version/internal/api/repository/results.go:57-64 | Carries the reminder's id, rule, description and start. |
| Results.ReminderCreateResultKeepsExactly | go-version/internal/api/repository/results.go:57-64 | Two reminders give the same creation result iff they agree on id, rule, description and start. |
| Results.NewReminderUpdateResult | go-version/internal/api/repository/results.go:66-73 | Carries the same four fields. |
| Results.ReminderUpdateResultIsCreateProjection | go-version/internal/api/repository/results.go:57-73 | The update result and the creation result of one reminder hold the same values. |
| Results.NewReminderListResult | go-version/internal/api/repository/results.go:75-82 | A nil list becomes the empty list; any other list is kept as it is. |
| Repository.RuleAndNotFoundMessagesDiffer | go-version/internal/api/repository/errors.go:1-17 | A client can tell the two update/delete failures apart by their text. A rule error always starts with `rrule is invalid: ` and its reason follows that head unchanged. A missing reminder's message (`store/errors.go:8-10`) never starts with that head, and it ends in the reminder's id. |
| RemindersStore.BuildListQuery | go-version/internal/api/store/reminders_store.go:27-47 | `$1` is always the owner. A search clause is present iff a search is given. A start-at clause, bound to the end date, is present iff both dates are given. Clause k is bound to `$k` and to the k-th argument, with no gap or reuse. |
| RemindersStore.GetOutcome | go-version/internal/api/store/reminders_store.go:74-84 | A row is returned as it is. "No rows" becomes not-found with the requested id. Any other failure is passed on. |
| RemindersStore.UpdateOutcome | go-version/internal/api/store/reminders_store.go:114-132 | A returned row is the result. "No rows" becomes not-found with the reminder's own id. Any other failure is passed on. |
| RemindersStore.DeleteOutcome | go-version/internal/api/store/reminders_store.go:136-153 | Succeeds iff at least one row was affected. Zero rows is not-found with the requested id. A failed statement or row count is passed on. |
| RemindersStore.GetReminderByID | go-version/internal/api/store/reminders_store.go:67-85 | On a table, succeeds iff the (owner, id) row exists, and returns that row. Otherwise it is not-found with the id, or the injected database fault. |
| RemindersStore.UpdateReminder | go-version/internal/api/store/reminders_store.go:106-133 | Only the owner's row is rewritten. Rule, description and start are replaced, `updated_at` is set to now, and id, owner and `created_at` are kept. A missing row gives not-found and leaves the table unchanged. The table stays keyed by owner and id. |
| RemindersStore.DeleteReminder | go-version/internal/api/store/reminders_store.go:135-154 | Succeeds iff the (owner, id) row exists, and then removes exactly that row. Otherwise the table is unchanged and the error is not-found or the fault. |
| RemindersStore.OwnershipIsolation | go-version/internal/api/store/reminders_store.go:67-154 | Another user can neither read, rewrite nor delete a reminder: each attempt is not-found and leaves the table unchanged. |
| RemindersRepository.PopulateAll | go-version/internal/api/repository/reminders_repository.go:44-46 | The list keeps its length and nil-ness, and each reminder is the stored one with its occurrences filled in for the window. |
| RemindersRepository.ListReminders | go-version/internal/api/repository/reminders_repository.go:31-49 | The store is called once, with the owner, search and both bounds copied unchanged. Its error is returned as it is. Otherwise each reminder gets its occurrences for the window, and a nil list becomes empty. |
| RemindersRepository.ListWithoutWindowIsStoreRows | go-version/internal/api/repository/reminders_repository.go:31-49 | Without a full window, the listed reminders are the store's rows unchanged. |
| RemindersRepository.CreateReminder | go-version/internal/api/repository/reminders_repository.go:51-74 | A rule/start pair that yields no occurrence is refused with the fixed reason, and the store is never called; that refusal happens iff the pair is unproductive. Otherwise the store is asked once to create a reminder with the fresh id, the request's owner, rule, description and start, and no stamps; its error is returned unchanged. |
| RemindersRepository.Merge | go-version/internal/api/repository/reminders_repository.go:82-101 | The merged reminder keeps id, owner and `created_at`, clears `updated_at`, and takes each supplied field from the request and every other field from the stored reminder. |
| RemindersRepository.MergeIdempotent | go-version/internal/api/repository/reminders_repository.go:82-101 | Applying the same update twice is the same as applying it once. |
| RemindersRepository.MergeComposes | go-version/internal/api/repository/reminders_repository.go:82-101 | Two updates in a row equal one update in which the later request's supplied fields win. |
| RemindersRepository.UpdateReminder | go-version/internal/api/repository/reminders_repository.go:76-115 | The stored reminder is fetched first, and a failed fetch is wrapped as not-found with nothing else called. When any field is supplied, an unproductive merged rule/start is refused before the store is written. Otherwise the merged reminder is written once, and a write error is wrapped as not-found. |
| RemindersRepository.EmptyUpdateSkipsCheck | go-version/internal/api/repository/reminders_repository.go:92-109 | An update that supplies nothing skips the occurrence check and writes the stored reminder back with `updated_at` cleared. |
| RemindersRepository.DeleteReminder | go-version/internal/api/repository/reminders_repository.go:117-123 | The store is asked once, for the owner and id, and its error is wrapped as not-found. |
| RemindersRepository.UpdateThroughTable | go-version/internal/api/repository/reminders_repository.go:76-115 | Over a table-backed store, an update of a reminder that is not the owner's row is not-found with its id. Otherwise the update is either refused as unproductive, or returns the id with each supplied field from the request and every other field from the stored row. |
| RemindersRepository.DeleteThroughTable | go-version/internal/api/repository/reminders_repository.go:117-123 | Over a table-backed store, delete succeeds iff the owner's row exists, and otherwise reports not-found for that id. |
| UsersRepository.GetUser | go-version/internal/api/repository/users_repository.go:27-34 | One store lookup with the requested id. Its error is returned as it is, and its user without password or key. |
| UsersRepository.CreateUser | go-version/internal/api/repository/users_repository.go:36-60 | A token is signed for the new user's own fresh id before anything is stored; if that fails, the store is never called. Otherwise the store gets one user with that id, the request's fields, the token as key and no stamps. |
| UsersRepository.CreatedUserGetsOwnKey | go-version/internal/api/repository/users_repository.go:36-60 | When the store keeps what it is given, the caller receives the fresh id and the key that was signed for that id. |
| Strings.Split | laravel-starter/source/app/Resources/ReminderResource.php:74 | `explode`: the pieces never contain the separator and join back into the input. |
| Strings.SplitJoin | laravel-starter/source/app/Resources/ReminderResource.php:74 | Splitting a join of separator-free pieces gives the pieces back. |
| Strings.RemoveAll | laravel-starter/source/app/Resources/ReminderResource.php:70 | `str_replace` with an empty replacement never lengthens the string. |
| Strings.RemoveAllAtFirst | laravel-starter/source/app/Resources/ReminderResource.php:70 | When the pattern first occurs at index i (as `Strings.Find` reports it), the scan keeps everything before i, deletes that occurrence, and carries on with the rest. Together with RemoveAllAbsent and FindNoneIffAbsent, this determines the result on every input. |
| Strings.FindIsFirst | laravel-starter/source/app/Resources/ReminderResource.php:70 | No occurrence of the pattern comes before the index `Find` reports, so the decomposition above is at the first match of the left-to-right scan. |
| Strings.FindNoneIffAbsent | laravel-starter/source/app/Resources/ReminderResource.php:70 | `Find` reports no index exactly when the pattern does not occur, in both directions. |
| Strings.RemoveAllAbsent | laravel-starter/source/app/Resources/ReminderResource.php:70 | Removing a pattern that does not occur changes nothing. |
| ReminderResource.GetOccurrencesBetween | laravel-starter/source/app/Resources/ReminderResource.php:42-60 | On an ascending stream, the result is exactly the stream's elements in `[start, end]`, in order. The walk stops at the first element past the window. |
| ReminderResource.InWindowMembers | laravel-starter/source/app/Resources/ReminderResource.php:48-57 | A time is in the window filter's result iff it is in the stream and between the bounds. |
| ReminderResource.ToArray | laravel-starter/source/app/Resources/ReminderResource.php:22-40 | The array holds id, rule, rule in words, description and start. It holds `occurrences` iff the request has both `start_date` and `end_date`, and then exactly the window filter of the stream between the parsed bounds: the times in that window, in stream order. |
| ReminderResource.SplitPair | laravel-starter/source/app/Resources/ReminderResource.php:76 | The key is what precedes the first `=`; key, `=` and value put back together give the part. |
| ReminderResource.Parts | laravel-starter/source/app/Resources/ReminderResource.php:70-74 | The parts join back with `;` into the rule with every `RRULE:` deleted. |
| ReminderResource.CreateRRuleObject | laravel-starter/source/app/Resources/ReminderResource.php:102 | DTSTART is always the given start, whatever the rule string says. |
| ReminderResource.AddPartsLastWins | laravel-starter/source/app/Resources/ReminderResource.php:74-100 | After the loop, a key is present iff some part assigns to it, and holds the converted value of its last assignment. |
| ReminderResource.CreateRRuleObjectComponents | laravel-starter/source/app/Resources/ReminderResource.php:67-105 | Every key but DTSTART is present iff a part of the rule string assigns to it, and has the value of its last assignment. |
| ReminderResource.ByDayRoundTrip | laravel-starter/source/app/Resources/ReminderResource.php:79-81 | BYDAY becomes a list of days that joins back with `,` into the value. |
| ReminderResource.PrefixRemoved | laravel-starter/source/app/Resources/ReminderResource.php:70 | A rule behind one `RRULE:` prefix loses the prefix and nothing else. |
| ReminderResource.RemovalIsOnePass | laravel-starter/source/app/Resources/ReminderResource.php:70 | The deletion is a single pass: `RRULRRULE:E:` comes out as `RRULE:`. |

## Left out

- The recurrence library (rule parsing, `All`, `Between`, `humanReadable`) and the date parser are parameters, not code. The only assumption made about the Go `Between` is `Recurrence.HonoursWindow`: every time it reports lies in `[from, to]`. It is not assumed that `Between` reports every occurrence in the window, that they are at or after the start, or that they come in order. For the PHP iterator, the only assumption is `ReminderResource.Ascending`: the stream never decreases.
- RemindersRepository.CreateReminder and RemindersRepository.UpdateReminder treat the occurrence check as an instant, total predicate (`RRuleLib.productive`). The Go check calls `All()` (`reminders_repository.go:125-133`). For a rule with neither COUNT nor UNTIL, that enumerates every occurrence up to the library's own limit. The time and memory this costs, and a possible hang or exhaustion on create and update, are not modelled.
- RemindersRepository.CreateReminder and RemindersRepository.UpdateReminder require the rule to parse, because the Go check dereferences the rule without looking at the parse error (`reminders_repository.go:125-133`). A rule that does not parse makes that code panic, and the panic is not modelled.
- UUID generation is a parameter: the fresh id is passed in and required to be non-empty.
- Token signing (`auth.GenerateToken`) is a parameter that either returns a token or fails.
- HTTP plumbing is not modelled: body, URL-parameter and context parsing, JSON decoding, handlers, middleware, authentication and response writing.
- The database is not executed. The SQL text is not rendered, and row scanning is not modelled: statement outcomes are abstract values, and a map-backed table gives them meaning. The store's create and the list query's execution are left out; the list query is modelled only as clauses and arguments.
- The users store, and the service wiring in `service.go` and `cmd/main.go`, are not part of this model.
- Times are integers. Time zones and date formatting (`Y-m-d H:i:s` in the resource) are not modelled.
- ReminderResource.GetOccurrencesBetween works on a finite prefix of the occurrence stream. For an unbounded rule, the PHP iterator is infinite and the loop ends only at its `break`.
- ReminderResource.ToArray takes the rule in words as a given string, without `ucwords`. It reads both dates from one input map, whereas Laravel's `has` looks at query and body while `query` reads only the query string.
- ReminderResource.CreateRRuleObject reads every date, whereas `new \DateTime` throws on a string it cannot read. The RRule object built from the components is not modelled. The method is not called by the resource (its only call is commented out at `ReminderResource.php:19`).
- The ErrStartAtEmpty error (`transport/errors.go:62-66`) has a message but is never raised, so it appears only in the error catalogue.

## Findings

| source | as written | input that shows it | evidently intended | confidence | as-written member | corrected member |
|---|---|---|---|---|---|---|
| go-version/internal/api/transport/ReminderRequestCreate.go:45-52 | the domain request is built without `UserID`, so the new reminder's owner is the empty string | any valid create request from an authenticated user, e.g. user `u1` | the reminder is owned by the caller, as `UserRequestGet.go:18-22` copies `UserID` | high (not executed) | ReminderCreateRequest.ToDomainAsWritten | ReminderCreateRequest.ToDomain |
| go-version/internal/api/transport/ReminderRequestUpdate.go:62-74 | `UserID` is not copied, so the lookup `WHERE id=$1 AND user_id=$2` runs with an empty owner and finds nothing | an update by user `u1` of their own reminder | the caller's reminder is updated | high (not executed) | ReminderUpdateRequest.ToDomainAsWritten | ReminderUpdateRequest.ToDomain |
| go-version/internal/api/transport/ReminderRequestList.go:55-70 | `UserID` is not copied, so the list is filtered on `user_id=''` | a list request by user `u1` who owns reminders | the caller's reminders are listed | high (not executed) | ReminderListRequest.ToDomainAsWritten | ReminderListRequest.ToDomain |
| go-version/internal/api/transport/ReminderRequestDelete.go:29-33 | `UserID` is not copied, so the delete matches no row and reports not-found | a delete by user `u1` of their own reminder | the caller's reminder is deleted | high (not executed) | ReminderDeleteRequest.ToDomainAsWritten | ReminderDeleteRequest.ToDomain |

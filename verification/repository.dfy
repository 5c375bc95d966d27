/** What the Go repositories report (repository/errors.go): their error kinds,
    and the shape of one repository call — the collaborator calls it made, in
    order, and what it returned. */
module Repository {
  import opened Wrappers
  import opened RemindersStore

  /** The repository's errors. `InvalidRRule` is a rule that yields nothing;
      `NoResourceFound` wraps the store's error on update and delete;
      `StoreFailed` is a reminder store error returned as it is;
      `UserStoreFailed` is a user store error returned as it is; `TokenFailed`
      is a failed token signature returned as it is. */
  datatype RepoError =
    | InvalidRRule(reason: string)
    | NoResourceFound(cause: StoreError)
    | StoreFailed(cause: StoreError)
    | UserStoreFailed(failure: UserStoreError)
    | TokenFailed(msg: string)
  {
    /** `Error()`: the rule error is prefixed; the wrappers add nothing. */
    function Message(): (m: string)
      ensures InvalidRRule? ==> m == RuleErrorHead + reason
      ensures NoResourceFound? || StoreFailed? ==> m == cause.Message()
    {
      match this
      case InvalidRRule(reason) => RuleErrorHead + reason
      case NoResourceFound(cause) => cause.Message()
      case StoreFailed(cause) => cause.Message()
      case UserStoreFailed(failure) => failure.message
      case TokenFailed(msg) => msg
    }
  }

  /** What the users store fails with; the repository never looks inside it. */
  datatype UserStoreError = UserStoreError(message: string)

  const RuleErrorHead := "rrule is invalid: "

  /** True when `m` begins with `head`. */
  predicate StartsWith(m: string, head: string)
  {
    |m| >= |head| && m[..|head|] == head
  }

  /** The two kinds a client sees for update and delete are told apart by their
      text: a rule error always carries the rule head, and its reason can be
      read back after it; a missing reminder never carries the head, and its
      message names the reminder's id. */
  lemma RuleAndNotFoundMessagesDiffer(reason: string, id: string)
    ensures StartsWith(InvalidRRule(reason).Message(), RuleErrorHead)
    ensures InvalidRRule(reason).Message()[|RuleErrorHead|..] == reason
    ensures !StartsWith(NoResourceFound(NoReminderFound(id)).Message(), RuleErrorHead)
    ensures NoResourceFound(NoReminderFound(id)).Message()[|"no reminder found with ID "|..] == id
  {
    var n := NoResourceFound(NoReminderFound(id)).Message();
    assert n[0] == 'n' != RuleErrorHead[0];
  }

  /** The reason given whenever a rule and start produce no occurrence. */
  const NoOccurrences := "no occurrences can be generated with the provided rrule and start_at"

  /** One repository call: the collaborator calls it made, and its result. */
  datatype Run<C, T> = Run(calls: seq<C>, result: Result<T, RepoError>)
}

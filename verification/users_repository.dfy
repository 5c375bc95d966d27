/** Users (repository/users_repository.go): look one up, or create one with a
    fresh id and an API key signed for that id. */
module UsersRepository {
  import opened Wrappers
  import opened Models
  import opened Domain
  import opened Results
  import opened Repository

  /** The user store as the repository sees it (`UserStoreInterface`). */
  datatype UserStoreApi = UserStoreApi(
    get: string -> Result<User, UserStoreError>,
    create: User -> Result<User, UserStoreError>
  )

  /** Signs an API token for a user id, or fails with a message. */
  type TokenIssuer = string -> Result<string, string>

  /** A call the repository makes on its collaborators, with its arguments. */
  datatype UserCall =
    | GetUserCall(userId: string)
    | GenerateTokenCall(subject: string)
    | CreateUserCall(user: User)

  /** `GetUser`: one store lookup with exactly the requested id; its error comes
      back as it is, its user without password or key. */
  function GetUser(store: UserStoreApi, req: UserGetDomain): (run: Run<UserCall, UserGetResult>)
    ensures run.calls == [GetUserCall(req.userId)]
    ensures store.get(req.userId).Failure? ==> run.result == Failure(UserStoreFailed(store.get(req.userId).error))
    ensures store.get(req.userId).Success? ==> run.result == Success(NewUserGetResult(store.get(req.userId).value))
  {
    match store.get(req.userId)
    case Failure(e) => Run([GetUserCall(req.userId)], Failure(UserStoreFailed(e)))
    case Success(u) => Run([GetUserCall(req.userId)], Success(NewUserGetResult(u)))
  }

  /** The user a create request persists before its key is known. */
  function NewUser(req: UserCreateDomain, freshId: string): User
    requires req.name.Some? && req.email.Some? && req.password.Some?
  {
    User(freshId, req.name.value, req.email.value, req.password.value, None, None, None)
  }

  /** `CreateUser`. A token is first signed for the new user's own fresh id; if
      that fails the error comes back and the store is never called. Otherwise
      the store is asked once to create the user with the fresh id, the
      request's name, email and password, the token as API key and no stamps;
      its error comes back as it is, its user as a creation result. */
  function CreateUser(tokens: TokenIssuer, store: UserStoreApi, req: UserCreateDomain, freshId: string): (run: Run<UserCall, UserCreateResult>)
    requires req.name.Some? && req.email.Some? && req.password.Some?
    requires freshId != ""
    ensures |run.calls| >= 1 && run.calls[0] == GenerateTokenCall(freshId)
    ensures tokens(freshId).Failure? ==>
              run == Run([GenerateTokenCall(freshId)], Failure(TokenFailed(tokens(freshId).error)))
    ensures tokens(freshId).Success? ==>
              && |run.calls| == 2 && run.calls[1].CreateUserCall?
              && var sent := run.calls[1].user;
              && sent.id == freshId && sent.id != ""
              && sent.name == req.name.value && sent.email == req.email.value && sent.password == req.password.value
              && sent.apiKey == Some(tokens(freshId).value)
              && sent.createdAt.None? && sent.updatedAt.None?
              && (store.create(sent).Failure? ==> run.result == Failure(UserStoreFailed(store.create(sent).error)))
              && (store.create(sent).Success? ==> run.result == Success(NewUserCreateResult(store.create(sent).value)))
  {
    var draft := NewUser(req, freshId);
    match tokens(draft.id)
    case Failure(msg) => Run([GenerateTokenCall(draft.id)], Failure(TokenFailed(msg)))
    case Success(key) =>
      var sent := draft.(apiKey := Some(key));
      match store.create(sent)
      case Failure(e) => Run([GenerateTokenCall(draft.id), CreateUserCall(sent)], Failure(UserStoreFailed(e)))
      case Success(created) => Run([GenerateTokenCall(draft.id), CreateUserCall(sent)], Success(NewUserCreateResult(created)))
  }

  /** When the store keeps what it is given, the caller receives the key that
      was signed for the new user's own id, and that id. */
  lemma {:induction false} CreatedUserGetsOwnKey(tokens: TokenIssuer, store: UserStoreApi, req: UserCreateDomain, freshId: string)
    requires req.name.Some? && req.email.Some? && req.password.Some?
    requires freshId != ""
    requires forall u :: store.create(u) == Success(u)
    requires tokens(freshId).Success?
    ensures CreateUser(tokens, store, req, freshId).result ==
              Success(UserCreateResult(freshId, req.name.value, req.email.value, Some(tokens(freshId).value)))
  {
    var sent := NewUser(req, freshId).(apiKey := Some(tokens(freshId).value));
    assert store.create(sent) == Success(sent);
  }
}

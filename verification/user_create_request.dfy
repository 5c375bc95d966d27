/** The body of `POST /users` (transport/UserRequestCreate.go): three required
    fields and no format checks. */
module UserCreateRequest {
  import opened Wrappers
  import opened TransportErrors
  import opened Domain

  datatype Request = Request(name: Option<string>, email: Option<string>, password: Option<string>)

  predicate Missing(o: Option<string>)
  {
    o.None? || o.value == ""
  }

  function Position(e: RequestError): nat
  {
    match e
    case NameRequired => 0
    case EmailRequired => 1
    case PasswordRequired => 2
    case _ => 3
  }

  /** One "required" error per missing or empty field, in the order name,
      email, password, and nothing else. */
  function Errors(req: Request): (errs: seq<RequestError>)
    ensures NameRequired in errs <==> Missing(req.name)
    ensures EmailRequired in errs <==> Missing(req.email)
    ensures PasswordRequired in errs <==> Missing(req.password)
    ensures forall k :: 0 <= k < |errs| ==> Position(errs[k]) < 3
    ensures forall i, j :: 0 <= i < j < |errs| ==> Position(errs[i]) < Position(errs[j])
    ensures |errs| <= 3
  {
    (if Missing(req.name) then [NameRequired] else [])
    + (if Missing(req.email) then [EmailRequired] else [])
    + (if Missing(req.password) then [PasswordRequired] else [])
  }

  /** Passes exactly when all three fields are sent and non-empty. */
  function Validate(req: Request): (v: Option<BadRequest>)
    ensures v.None? <==> !Missing(req.name) && !Missing(req.email) && !Missing(req.password)
    ensures v.Some? ==> v.value.errs == Errors(req)
  {
    Collected(Errors(req))
  }

  /** The three fields are handed on as they are, absent or not. */
  function ToDomain(req: Request): (d: UserCreateDomain)
    ensures d.name == req.name && d.email == req.email && d.password == req.password
  {
    UserCreateDomain(req.name, req.email, req.password)
  }

  /** A request that passed validation converts into a command with all three
      fields present, which is what creating a user dereferences. */
  lemma ValidatedRequestIsCreatable(req: Request)
    requires Validate(req).None?
    ensures var d := ToDomain(req);
            d.name.Some? && d.email.Some? && d.password.Some? &&
            d.name.value != "" && d.email.value != "" && d.password.value != ""
  {
  }
}

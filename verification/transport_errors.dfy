/** The client-facing validation errors of the Go transport layer
    (transport/errors.go): one fixed message per error kind, and the
    `ErrBadRequest` wrapper whose message lists every collected error. */
module TransportErrors {
  import opened Wrappers
  import opened Strings

  datatype RequestError =
    | NameRequired
    | EmailRequired
    | PasswordRequired
    | RRuleRequired
    | StartAtRequired
    | RRuleEmpty
    | InvalidRRuleFormat
    | StartAtEmpty
    | InvalidStartAt
    | NoFieldsToUpdate
    | StartDateRequired
    | EndDateRequired
    | InvalidDateFormat

  /** The fixed message of each error kind. */
  function Message(e: RequestError): string
  {
    match e
    case NameRequired => "name is required"
    case EmailRequired => "email is required"
    case PasswordRequired => "password is required"
    case RRuleRequired => "rrule is required"
    case StartAtRequired => "start_at is required"
    case RRuleEmpty => "rrule cannot be empty"
    case InvalidRRuleFormat => "rrule is not in a valid format"
    case StartAtEmpty => "start_at cannot be empty"
    case InvalidStartAt => "start_at is invalid"
    case NoFieldsToUpdate => "request body is empty"
    case StartDateRequired => "start_date is required"
    case EndDateRequired => "end_date is required"
    case InvalidDateFormat => "date is not in a valid datetime format"
  }

  /** Reads an error kind back from its message. */
  function FromMessage(m: string): Option<RequestError>
  {
    if m == "name is required" then Some(NameRequired)
    else if m == "email is required" then Some(EmailRequired)
    else if m == "password is required" then Some(PasswordRequired)
    else if m == "rrule is required" then Some(RRuleRequired)
    else if m == "start_at is required" then Some(StartAtRequired)
    else if m == "rrule cannot be empty" then Some(RRuleEmpty)
    else if m == "rrule is not in a valid format" then Some(InvalidRRuleFormat)
    else if m == "start_at cannot be empty" then Some(StartAtEmpty)
    else if m == "start_at is invalid" then Some(InvalidStartAt)
    else if m == "request body is empty" then Some(NoFieldsToUpdate)
    else if m == "start_date is required" then Some(StartDateRequired)
    else if m == "end_date is required" then Some(EndDateRequired)
    else if m == "date is not in a valid datetime format" then Some(InvalidDateFormat)
    else None
  }

  /** Every message reads back as its own error kind. */
  lemma MessageRoundTrip(e: RequestError)
    ensures FromMessage(Message(e)) == Some(e)
  {
  }

  /** Distinct error kinds have distinct messages. */
  lemma MessagesDistinct(a: RequestError, b: RequestError)
    ensures Message(a) == Message(b) <==> a == b
  {
    MessageRoundTrip(a);
    MessageRoundTrip(b);
  }

  /** No message contains the `;` that separates messages in a bad request. */
  lemma MessageHasNoSemicolon(e: RequestError)
    ensures ';' !in Message(e)
  {
    UserMessagesPlain();
    ReminderMessagesPlain();
    UpdateMessagesPlain();
    ListMessagesPlain();
  }

  lemma UserMessagesPlain()
    ensures ';' !in Message(NameRequired)
    ensures ';' !in Message(EmailRequired)
    ensures ';' !in Message(PasswordRequired)
  {
  }

  lemma ReminderMessagesPlain()
    ensures ';' !in Message(RRuleRequired)
    ensures ';' !in Message(StartAtRequired)
    ensures ';' !in Message(RRuleEmpty)
  {
  }

  lemma UpdateMessagesPlain()
    ensures ';' !in Message(InvalidRRuleFormat)
    ensures ';' !in Message(StartAtEmpty)
    ensures ';' !in Message(InvalidStartAt)
    ensures ';' !in Message(NoFieldsToUpdate)
  {
  }

  lemma ListMessagesPlain()
    ensures ';' !in Message(StartDateRequired)
    ensures ';' !in Message(EndDateRequired)
    ensures ';' !in Message(InvalidDateFormat)
  {
  }

  /** The errors a validator collected, wrapped for the client. */
  datatype BadRequest = BadRequest(errs: seq<RequestError>)

  /** The messages of `errs`, in order. */
  function Messages(errs: seq<RequestError>): (ms: seq<string>)
    ensures |ms| == |errs|
    ensures forall k :: 0 <= k < |errs| ==> ms[k] == Message(errs[k])
  {
    if |errs| == 0 then [] else [Message(errs[0])] + Messages(errs[1..])
  }

  const BadRequestHead := "Bad request"

  /** `ErrBadRequest.Error()`: the bare head when nothing was collected,
      otherwise the head, a colon and the messages joined by "; ". */
  function BadRequestMessage(b: BadRequest): (m: string)
    ensures |m| >= |BadRequestHead| && m[..|BadRequestHead|] == BadRequestHead
    ensures |b.errs| == 0 <==> m == BadRequestHead
  {
    if |b.errs| == 0 then BadRequestHead
    else BadRequestHead + ": " + Join(Messages(b.errs), "; ")
  }

  /** Reads a bad-request message back into the errors it lists. */
  function ParseBadRequest(m: string): Option<BadRequest>
  {
    if m == BadRequestHead then Some(BadRequest([]))
    else if |m| >= |BadRequestHead| + 2 && m[..|BadRequestHead| + 2] == BadRequestHead + ": " then
      var pieces := Split(m[|BadRequestHead| + 2..], ';');
      match ErrorsFromMessages([pieces[0]] + Unspaced(pieces[1..]))
      case Some(errs) => Some(BadRequest(errs))
      case None => None
    else None
  }

  /** Each piece with one leading space dropped, when it has one. */
  function Unspaced(pieces: seq<string>): (r: seq<string>)
    ensures |r| == |pieces|
  {
    if |pieces| == 0 then []
    else (if |pieces[0]| > 0 && pieces[0][0] == ' ' then [pieces[0][1..]] else [pieces[0]]) + Unspaced(pieces[1..])
  }

  /** Each piece with one leading space added. */
  function Spaced(pieces: seq<string>): (r: seq<string>)
    ensures |r| == |pieces|
  {
    if |pieces| == 0 then [] else [" " + pieces[0]] + Spaced(pieces[1..])
  }

  function ErrorsFromMessages(ms: seq<string>): Option<seq<RequestError>>
  {
    if |ms| == 0 then Some([])
    else match (FromMessage(ms[0]), ErrorsFromMessages(ms[1..]))
      case (Some(e), Some(rest)) => Some([e] + rest)
      case _ => None
  }

  /** The rendered message determines the collected errors: reading it back
      gives exactly the errors, in order. */
  lemma {:induction false} BadRequestRoundTrip(b: BadRequest)
    ensures ParseBadRequest(BadRequestMessage(b)) == Some(b)
  {
    if |b.errs| > 0 {
      var ms := Messages(b.errs);
      var m := BadRequestMessage(b);
      var body := Join(ms, "; ");
      assert m == BadRequestHead + ": " + body;
      assert m[..|BadRequestHead| + 2] == BadRequestHead + ": ";
      assert m[|BadRequestHead| + 2..] == body;
      var pieces := [ms[0]] + Spaced(ms[1..]);
      JoinSpaced(ms);
      assert forall k :: 0 <= k < |pieces| ==> ';' !in pieces[k] by {
        forall k | 0 <= k < |pieces|
          ensures ';' !in pieces[k]
        {
          if k == 0 {
            MessageHasNoSemicolon(b.errs[0]);
          } else {
            SpacedAt(ms[1..], k - 1);
            MessageHasNoSemicolon(b.errs[k]);
          }
        }
      }
      SplitJoin(pieces, ';');
      assert pieces[1..] == Spaced(ms[1..]);
      UnspacedSpaced(ms[1..]);
      assert [pieces[0]] + Unspaced(pieces[1..]) == ms;
      ErrorsFromOwnMessages(b.errs);
    }
  }

  lemma {:induction false} SpacedAt(pieces: seq<string>, k: nat)
    requires k < |pieces|
    ensures Spaced(pieces)[k] == " " + pieces[k]
  {
    if k > 0 {
      SpacedAt(pieces[1..], k - 1);
    }
  }

  lemma {:induction false} UnspacedSpaced(pieces: seq<string>)
    ensures Unspaced(Spaced(pieces)) == pieces
  {
    if |pieces| > 0 {
      assert Spaced(pieces)[1..] == Spaced(pieces[1..]);
      assert (" " + pieces[0])[1..] == pieces[0];
      UnspacedSpaced(pieces[1..]);
    }
  }

  /** Joining with "; " is joining the space-prefixed tails with ";". */
  lemma {:induction false} JoinSpaced(ms: seq<string>)
    requires |ms| >= 1
    ensures Join(ms, "; ") == Join([ms[0]] + Spaced(ms[1..]), ";")
  {
    if |ms| > 1 {
      JoinSpacedTail(ms[1..]);
      assert ([ms[0]] + Spaced(ms[1..]))[1..] == Spaced(ms[1..]);
    }
  }

  lemma {:induction false} JoinSpacedTail(ms: seq<string>)
    requires |ms| >= 1
    ensures Join(Spaced(ms), ";") == " " + Join(ms, "; ")
  {
    if |ms| > 1 {
      JoinSpacedTail(ms[1..]);
      assert Spaced(ms)[1..] == Spaced(ms[1..]);
    }
  }

  lemma {:induction false} ErrorsFromOwnMessages(errs: seq<RequestError>)
    ensures ErrorsFromMessages(Messages(errs)) == Some(errs)
  {
    if |errs| > 0 {
      MessageRoundTrip(errs[0]);
      assert Messages(errs)[1..] == Messages(errs[1..]);
      ErrorsFromOwnMessages(errs[1..]);
      assert [errs[0]] + errs[1..] == errs;
    }
  }

  /** Wraps the collected errors, or reports success when there are none. */
  function Collected(errs: seq<RequestError>): (v: Option<BadRequest>)
    ensures v.None? <==> |errs| == 0
    ensures v.Some? ==> v.value.errs == errs
  {
    if |errs| == 0 then None else Some(BadRequest(errs))
  }
}

/** The set-password page, reached from an e-mailed link whose last path
    segment is a token: its schema and its submit handler. */
module SetPasswordPage {
  import opened Common
  import opened FormErrors
  import opened Http
  import opened AuthContext

  const Priority: seq<string> := ["password"]

  /** `required` and `min(6)`, where the length is JavaScript's. */
  predicate PasswordValid(password: string) {
    Truthy(password) && Utf16Length(password) >= 6
  }

  /** The rule is a bound on the JavaScript length alone. */
  lemma PasswordRuleIsLength(password: string)
    ensures PasswordValid(password) <==> Utf16Length(password) >= 6
    ensures |password| >= 6 ==> PasswordValid(password)
    ensures |password| < 3 ==> !PasswordValid(password)
  {
  }

  /** The text shown when the request fails without a reply. */
  function NoReplyText(errMessage: string): (text: string)
    ensures Truthy(text)
    ensures Truthy(errMessage) ==> text == errMessage
    ensures !Truthy(errMessage) ==> text == "Something went wrong"
  {
    OrElse(errMessage, "Something went wrong")
  }

  /** A validation failure shows the first non-empty message reported for
      `password`, or nothing when there is none. */
  lemma ValidationShowsPasswordMessage(inner: seq<FieldError>)
    ensures var shown := ShownError(Priority, inner);
            && (FirstTruthyMessage(inner, "password") != "" ==>
                  shown == FieldError("password", FirstTruthyMessage(inner, "password")))
            && (FirstTruthyMessage(inner, "password") == "" ==> shown == NoFieldError)
  {
    ShownErrorFromReport(Priority, inner);
  }

  /** The effect on the flag: an authenticated visitor is sent to "/articles". */
  function RedirectWhenAuthenticated(isAuthenticated: bool): (target: Option<string>)
    ensures target.Some? <==> isAuthenticated
    ensures target.Some? ==> target.value == "/articles"
  {
    if isAuthenticated then Some("/articles") else None
  }

  class SetPassword {
    /** The token from the route `/setPassword/:token`. */
    const urlToken: string
    var password: string
    var fieldError: FieldError
    var isLoading: bool
    var toasts: seq<Toast>

    constructor (routeToken: string)
      ensures urlToken == routeToken && password == ""
      ensures fieldError == NoFieldError && !isLoading && toasts == []
    {
      urlToken := routeToken;
      password := "";
      fieldError := NoFieldError;
      isLoading := false;
      toasts := [];
    }

    /** The input's `onChange`: only the password changes. */
    method HandleChange(value: string)
      modifies this
      ensures password == value
      ensures fieldError == old(fieldError) && isLoading == old(isLoading) && toasts == old(toasts)
    {
      password := value;
    }

    /** `handleSubmit`. The request carries `urlToken` as its bearer token.
        Returns where the page navigates, if anywhere. */
    method HandleSubmit(session: AuthProvider, rejection: Thrown, outcome: Outcome)
      returns (navigateTo: Option<string>)
      modifies this, session
      ensures !isLoading && password == old(password)
      ensures !PasswordValid(password) ==>
                && navigateTo == None && session.Snapshot() == old(session.Snapshot())
                && fieldError == (if rejection.ValidationError? then ShownError(Priority, rejection.inner) else NoFieldError)
                && toasts == old(toasts) + (if rejection.OtherError? then [ErrorToast(NoReplyText(rejection.message))] else [])
      // accepted with 200: the session logs in with the token of the link, not one from the reply
      ensures PasswordValid(password) && outcome.Resolved? && outcome.reply.status == 200 ==>
                && session.Snapshot() == LoggedIn(old(session.Snapshot()), Some(urlToken), outcome.reply.data.user)
                && session.token == Some(urlToken)
                && navigateTo == Some("/articles")
                && toasts == old(toasts) + [SuccessToast(outcome.reply.data.message)]
      ensures PasswordValid(password) && !(outcome.Resolved? && outcome.reply.status == 200) ==>
                && session.Snapshot() == old(session.Snapshot()) && navigateTo == None
                && toasts == old(toasts) + match outcome
                                           case Resolved(reply) => [ErrorToast(reply.data.message)]
                                           case Rejected(Some(reply), _) => [ErrorToast(reply.data.message)]
                                           case Rejected(None, errMessage) => [ErrorToast(NoReplyText(errMessage))]
      ensures PasswordValid(password) ==> fieldError == NoFieldError
    {
      fieldError := NoFieldError;
      isLoading := true;
      navigateTo := None;
      if PasswordValid(password) {
        match outcome {
          case Resolved(reply) =>
            if reply.status == 200 {
              toasts := toasts + [SuccessToast(reply.data.message)];
              session.Login(Some(urlToken), reply.data.user);
              navigateTo := Some("/articles");
            } else {
              toasts := toasts + [ErrorToast(reply.data.message)];
            }
          case Rejected(response, errMessage) =>
            if response.Some? {
              toasts := toasts + [ErrorToast(response.value.data.message)];
            } else {
              toasts := toasts + [ErrorToast(NoReplyText(errMessage))];
            }
        }
      } else {
        match rejection {
          case ValidationError(inner) =>
            var errorMap := CollectFirstMessages(inner);
            var shown := PickByPriority(Priority, errorMap);
            if shown.Some? {
              fieldError := shown.value;
            }
          case OtherError(message) =>
            toasts := toasts + [ErrorToast(NoReplyText(message))];
        }
      }
      isLoading := false;
    }
  }
}

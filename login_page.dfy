/** The login page: its schema, its field updates and its submit handler. */
module LoginPage {
  import opened Common
  import opened Validation
  import opened FormErrors
  import opened Http
  import opened AuthContext

  /** The order in which a failing field is chosen for display. */
  const Priority: seq<string> := ["email", "password"]

  /** `required` and the explicit `matches(...)` regex. */
  predicate EmailValid(email: string) {
    Truthy(email) && MatchesEmailRegex(email)
  }

  /** `required` and `min(6)`, where the length is JavaScript's. */
  predicate PasswordValid(password: string) {
    Truthy(password) && Utf16Length(password) >= 6
  }

  predicate FormValid(email: string, password: string) {
    EmailValid(email) && PasswordValid(password)
  }

  /** The password rule is a bound on the JavaScript length: the emptiness
      test adds nothing. For text within the Basic Multilingual Plane that
      length is the number of characters. */
  lemma PasswordRuleIsLength(password: string)
    ensures PasswordValid(password) <==> Utf16Length(password) >= 6
    ensures (forall i :: 0 <= i < |password| ==> password[i] as int < 0x1_0000) ==>
              (PasswordValid(password) <==> |password| >= 6)
  {
  }

  /** Three emoji make a password of JavaScript length 6, which passes,
      although it is only three characters long. */
  lemma ThreeEmojiPasswordPasses()
    ensures |"\U{1F600}\U{1F600}\U{1F600}"| == 3
    ensures PasswordValid("\U{1F600}\U{1F600}\U{1F600}")
  {
    assert Utf16Length("\U{1F600}") == 2;
    assert Utf16Length("\U{1F600}\U{1F600}") == 2 + Utf16Length("\U{1F600}");
  }

  /** An e-mail that passes is non-empty and holds exactly one `@`. */
  lemma ValidEmailHasOneAt(email: string)
    requires EmailValid(email)
    ensures exists at :: 0 <= at < |email| && email[at] == '@'
                         && forall i :: 0 <= i < |email| && email[i] == '@' ==> i == at
  {
    var at: nat, dot: nat :| at < dot < |email| && IsEmailSplit(email, at, dot);
    EmailSplitIsUnique(email, at, dot);
  }

  /** The effect on the flag: an authenticated visitor is sent to "/articles". */
  function RedirectWhenAuthenticated(isAuthenticated: bool): (target: Option<string>)
    ensures target.Some? <==> isAuthenticated
    ensures target.Some? ==> target.value == "/articles"
  {
    if isAuthenticated then Some("/articles") else None
  }

  datatype Field = Email | Password

  class Login {
    var email: string
    var password: string
    var fieldError: FieldError
    var isLoading: bool
    /** Toasts raised by this page, oldest first. */
    var toasts: seq<Toast>

    constructor ()
      ensures email == "" && password == ""
      ensures fieldError == NoFieldError && !isLoading && toasts == []
    {
      email, password := "", "";
      fieldError := NoFieldError;
      isLoading := false;
      toasts := [];
    }

    /** `handleChange`: sets the named field and clears the shown error. */
    method HandleChange(field: Field, value: string)
      modifies this
      ensures field == Email ==> email == value && password == old(password)
      ensures field == Password ==> password == value && email == old(email)
      ensures fieldError == NoFieldError
      ensures isLoading == old(isLoading) && toasts == old(toasts)
    {
      match field {
        case Email => email := value;
        case Password => password := value;
      }
      fieldError := NoFieldError;
    }

    /** `handleSubmit`. `rejection` is what validation throws when the schema
        rejects the form; `outcome` is how the login request ends when the
        schema accepts it. Returns where the page navigates, if anywhere. */
    method HandleSubmit(session: AuthProvider, rejection: Thrown, outcome: Outcome)
      returns (navigateTo: Option<string>)
      modifies this, session
      ensures !isLoading
      ensures email == old(email) && password == old(password)
      // the schema rejects: one field error chosen by priority, nothing else happens
      ensures !FormValid(email, password) ==>
                && navigateTo == None && toasts == old(toasts)
                && session.Snapshot() == old(session.Snapshot())
                && fieldError == (if rejection.ValidationError? then ShownError(Priority, rejection.inner) else NoFieldError)
      // the request answers 200: the session logs in with the reply's token and user
      ensures FormValid(email, password) && outcome.Resolved? && outcome.reply.status == 200 ==>
                && session.Snapshot() == LoggedIn(old(session.Snapshot()), outcome.reply.data.token, outcome.reply.data.user)
                && navigateTo == Some("/articles")
                && toasts == old(toasts) + [SuccessToast(outcome.reply.data.message)]
                && fieldError == NoFieldError
      // any other reply: an error toast, the session untouched
      ensures FormValid(email, password) && outcome.Resolved? && outcome.reply.status != 200 ==>
                && session.Snapshot() == old(session.Snapshot()) && navigateTo == None
                && toasts == old(toasts) + [ErrorToast(outcome.reply.data.message)]
                && fieldError == NoFieldError
      ensures FormValid(email, password) && outcome.Rejected? ==>
                && session.Snapshot() == old(session.Snapshot()) && navigateTo == None
                && fieldError == NoFieldError
                && toasts == old(toasts) + (if outcome.response.Some? then [ErrorToast(BackendErrorText(outcome.response.value))] else [])
    {
      navigateTo := None;
      fieldError := NoFieldError;
      isLoading := true;
      if FormValid(email, password) {
        match outcome {
        case Resolved(reply) =>
          if reply.status == 200 {
            toasts := toasts + [SuccessToast(reply.data.message)];
            session.Login(reply.data.token, reply.data.user);
            isLoading := false;
            navigateTo := Some("/articles");
          } else {
            toasts := toasts + [ErrorToast(reply.data.message)];
          }
        case Rejected(response, _) =>
          if response.Some? {
            toasts := toasts + [ErrorToast(BackendErrorText(response.value))];
            isLoading := false;
          }
        }
      } else if rejection.ValidationError? {
        var errorMap := CollectFirstMessages(rejection.inner);
        var shown := PickByPriority(Priority, errorMap);
        if shown.Some? {
          fieldError := shown.value;
        }
      }
      isLoading := false;
    }
  }
}

/** The registration page: its schema (optional profile image), the multipart
    body it posts, its field updates and its submit handler. */
module RegisterPage {
  import opened Common
  import opened Validation
  import opened FormErrors
  import opened Http

  const Priority: seq<string> := ["firstName", "lastName", "email", "profileImage"]

  /** `required` and `min(2)`, for the first and the last name. */
  predicate NameValid(name: string) {
    Truthy(name) && Utf16Length(name) >= 2
  }

  /** `required` and the explicit regex. */
  predicate EmailValid(email: string) {
    Truthy(email) && MatchesEmailRegex(email)
  }

  /** `nullable()` and the `fileFormat` test: no file passes; a file passes
      when its extension is allowed. */
  predicate ImageValid(image: FileSlot) {
    match image
    case File(name) => HasAllowedExtension(name)
    case _ => true
  }

  predicate FormValid(firstName: string, lastName: string, email: string, image: FileSlot) {
    NameValid(firstName) && NameValid(lastName) && EmailValid(email) && ImageValid(image)
  }

  /** A name passes exactly when its JavaScript length is two or more: any
      two characters pass, and so does a single character outside the Basic
      Multilingual Plane. */
  lemma NameRuleIsLength(name: string)
    ensures NameValid(name) <==> Utf16Length(name) >= 2
    ensures |name| >= 2 ==> NameValid(name)
    ensures |name| == 1 ==> (NameValid(name) <==> name[0] as int >= 0x1_0000)
  {
    if |name| == 1 {
      assert name[1..] == [];
    }
  }

  /** The image rule: an absent image passes; a file passes iff the
      lower-cased text after its last dot is jpg, jpeg, png or webp. */
  lemma ImageRule(stem: string, ext: string)
    requires '.' !in ext
    ensures ImageValid(Null) && ImageValid(Undefined)
    ensures ImageValid(File(stem + "." + ext)) <==> AsciiLower(ext) in AllowedExtensions
  {
    SegmentAfterLastDot(stem, ext);
  }

  /** The body `register` posts: the four fields in order. An image that was
      never chosen is sent as the text "null". */
  function RegisterBody(firstName: string, lastName: string, email: string, image: FileSlot): (body: seq<Entry>)
    ensures |body| == 4
    ensures body[0] == Entry("firstName", Text(firstName))
    ensures body[1] == Entry("lastName", Text(lastName))
    ensures body[2] == Entry("email", Text(email))
    ensures body[3] == Entry("profileImage", SlotPart(image))
  {
    [Entry("firstName", Text(firstName)), Entry("lastName", Text(lastName)),
     Entry("email", Text(email)), Entry("profileImage", SlotPart(image))]
  }

  /** The effect on the flag: an authenticated visitor is sent to "/". */
  function RedirectWhenAuthenticated(isAuthenticated: bool): (target: Option<string>)
    ensures target.Some? <==> isAuthenticated
    ensures target.Some? ==> target.value == "/"
  {
    if isAuthenticated then Some("/") else None
  }

  datatype Field = FirstName | LastName | Email | ProfileImage

  class Register {
    var firstName: string
    var lastName: string
    var email: string
    var profileImage: FileSlot
    var fieldError: FieldError
    var isLoading: bool
    var toasts: seq<Toast>

    constructor ()
      ensures firstName == "" && lastName == "" && email == "" && profileImage == Null
      ensures fieldError == NoFieldError && !isLoading && toasts == []
    {
      firstName, lastName, email, profileImage := "", "", "", Null;
      fieldError := NoFieldError;
      isLoading := false;
      toasts := [];
    }

    /** `handleChange`: clears the shown error; the image input stores its
        first selected file, every other input its text. */
    method HandleChange(field: Field, value: string, files: seq<string>)
      modifies this
      ensures fieldError == NoFieldError
      ensures firstName == (if field == FirstName then value else old(firstName))
      ensures lastName == (if field == LastName then value else old(lastName))
      ensures email == (if field == Email then value else old(email))
      ensures profileImage == (if field == ProfileImage then FirstFile(files) else old(profileImage))
      ensures isLoading == old(isLoading) && toasts == old(toasts)
    {
      fieldError := NoFieldError;
      match field {
        case ProfileImage => profileImage := FirstFile(files);
        case FirstName => firstName := value;
        case LastName => lastName := value;
        case Email => email := value;
      }
    }

    /** `handleSubmit`. Returns the body posted, when the schema accepts the form. */
    method HandleSubmit(rejection: Thrown, outcome: Outcome) returns (sent: Option<seq<Entry>>)
      modifies this
      ensures !isLoading
      ensures FormValid(old(firstName), old(lastName), old(email), old(profileImage)) <==> sent.Some?
      ensures sent.Some? ==> sent.value == RegisterBody(old(firstName), old(lastName), old(email), old(profileImage))
      // rejected by the schema: one field error chosen by priority
      ensures sent.None? ==>
                && fieldError == (if rejection.ValidationError? then ShownError(Priority, rejection.inner) else NoFieldError)
                && toasts == old(toasts)
                && firstName == old(firstName) && lastName == old(lastName)
                && email == old(email) && profileImage == old(profileImage)
      // created: a success toast and an emptied form
      ensures sent.Some? && outcome.Resolved? && outcome.reply.status == 201 ==>
                && toasts == old(toasts) + [SuccessToast(outcome.reply.data.message)]
                && firstName == "" && lastName == "" && email == "" && profileImage == Null
      // anything else: one error toast, the form kept
      ensures sent.Some? && !(outcome.Resolved? && outcome.reply.status == 201) ==>
                && firstName == old(firstName) && lastName == old(lastName)
                && email == old(email) && profileImage == old(profileImage)
                && toasts == old(toasts) + match outcome
                                           case Resolved(reply) => [ErrorToast(reply.data.message)]
                                           case Rejected(Some(reply), _) => [ErrorToast(BackendErrorText(reply))]
                                           case Rejected(None, _) => []
      ensures sent.Some? ==> fieldError == NoFieldError
    {
      fieldError := NoFieldError;
      isLoading := true;
      sent := None;
      if FormValid(firstName, lastName, email, profileImage) {
        sent := Some(RegisterBody(firstName, lastName, email, profileImage));
        match outcome {
          case Resolved(reply) =>
            if reply.status == 201 {
              toasts := toasts + [SuccessToast(reply.data.message)];
              firstName, lastName, email, profileImage := "", "", "", Null;
              isLoading := false;
            } else {
              toasts := toasts + [ErrorToast(reply.data.message)];
            }
          case Rejected(response, _) =>
            if response.Some? {
              toasts := toasts + [ErrorToast(BackendErrorText(response.value))];
              isLoading := false;
            }
        }
      } else if rejection.ValidationError? {
        var errorMap := CollectFirstMessages(rejection.inner);
        var shown := PickByPriority(Priority, errorMap);
        if shown.Some? {
          fieldError := shown.value;
        }
      }
      isLoading := false;
    }
  }
}

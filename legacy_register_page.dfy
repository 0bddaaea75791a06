/** The older registration page: a schema with a required profile image and
    error reporting by one toast per reported error. It sends nothing. */
module LegacyRegisterPage {
  import opened Common
  import opened Validation
  import opened FormErrors

  /** `required` only (the library's own `.email()` test is not modelled). */
  predicate TextValid(s: string) {
    Truthy(s)
  }

  /** `required` and the `fileFormat` test, which also rejects a missing file. */
  predicate ImageValid(image: FileSlot) {
    image.File? && HasAllowedExtension(image.name)
  }

  predicate FormValid(firstName: string, lastName: string, email: string, image: FileSlot) {
    TextValid(firstName) && TextValid(lastName) && TextValid(email) && ImageValid(image)
  }

  /** Unlike the newer page, a missing image fails here, and a one-letter
      name passes. */
  lemma DiffersFromNewerSchema(stem: string, ext: string)
    requires '.' !in ext
    ensures !ImageValid(Null) && !ImageValid(Undefined)
    ensures ImageValid(File(stem + "." + ext)) <==> AsciiLower(ext) in AllowedExtensions
    ensures TextValid("A")
  {
    SegmentAfterLastDot(stem, ext);
  }

  const SuccessToasts: seq<Toast> :=
    [SuccessToast("You have registered Successfully !"), SuccessToast("Check your email for setting up password")]

  datatype Field = FirstName | LastName | Email | ProfileImage

  class Register {
    var firstName: string
    var lastName: string
    var email: string
    var profileImage: FileSlot
    var toasts: seq<Toast>

    constructor ()
      ensures firstName == "" && lastName == "" && email == "" && profileImage == Null && toasts == []
    {
      firstName, lastName, email, profileImage := "", "", "", Null;
      toasts := [];
    }

    /** `handleChange`: the image input stores its first selected file, every
        other input its text. */
    method HandleChange(field: Field, value: string, files: seq<string>)
      modifies this
      ensures firstName == (if field == FirstName then value else old(firstName))
      ensures lastName == (if field == LastName then value else old(lastName))
      ensures email == (if field == Email then value else old(email))
      ensures profileImage == (if field == ProfileImage then FirstFile(files) else old(profileImage))
      ensures toasts == old(toasts)
    {
      match field {
        case ProfileImage => profileImage := FirstFile(files);
        case FirstName => firstName := value;
        case LastName => lastName := value;
        case Email => email := value;
      }
    }

    /** `handleSubmit`: two success toasts, or one error toast per reported
        error in the order reported, or a single generic toast. */
    method HandleSubmit(rejection: Thrown)
      modifies this
      ensures firstName == old(firstName) && lastName == old(lastName)
      ensures email == old(email) && profileImage == old(profileImage)
      ensures FormValid(firstName, lastName, email, profileImage) ==> toasts == old(toasts) + SuccessToasts
      ensures !FormValid(firstName, lastName, email, profileImage) ==>
                toasts == old(toasts) + match rejection
                                        case ValidationError(inner) => ErrorToasts(inner)
                                        case OtherError(_) => [ErrorToast("Something went wrong!")]
    {
      if FormValid(firstName, lastName, email, profileImage) {
        toasts := toasts + SuccessToasts;
      } else {
        match rejection {
          case ValidationError(inner) =>
            var i := 0;
            while i < |inner|
              invariant 0 <= i <= |inner|
              invariant toasts == old(toasts) + ErrorToasts(inner[..i])
              invariant firstName == old(firstName) && lastName == old(lastName)
              invariant email == old(email) && profileImage == old(profileImage)
            {
              ErrorToastsSnoc(inner[..i], inner[i]);
              assert inner[..i + 1] == inner[..i] + [inner[i]];
              toasts := toasts + [ErrorToast(inner[i].message)];
              i := i + 1;
            }
            assert inner[..i] == inner;
          case OtherError(_) =>
            toasts := toasts + [ErrorToast("Something went wrong!")];
        }
      }
    }
  }
}

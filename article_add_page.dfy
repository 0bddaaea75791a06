/** The article creation page: its schema, field updates and submit handler.
    It validates and reports; it sends nothing. */
module ArticleAddPage {
  import opened Common
  import opened FormErrors
  import ArticleUpdatePage

  const TitleMin := 3
  const TitleMax := 100
  const ContentMin := 10

  /** `min(3)`, `max(100)` and `required`. */
  predicate TitleValid(title: string) {
    Truthy(title) && TitleMin <= Utf16Length(title) <= TitleMax
  }

  /** `min(10)` and `required`. */
  predicate ContentValid(content: string) {
    Truthy(content) && Utf16Length(content) >= ContentMin
  }

  predicate FormValid(title: string, content: string) {
    TitleValid(title) && ContentValid(content)
  }

  /** The title rule is a window on the JavaScript length, wider than the
      update page's: a title of length 61 to 100 can be created but not saved
      by an update. */
  lemma TitleWindowWiderThanUpdate(title: string, content: string)
    ensures TitleValid(title) <==> 3 <= Utf16Length(title) <= 100
    ensures ContentValid(content) <==> Utf16Length(content) >= 10
    ensures ArticleUpdatePage.TitleValid(title) ==> TitleValid(title)
    ensures 60 < Utf16Length(title) <= 100 ==> TitleValid(title) && !ArticleUpdatePage.TitleValid(title)
  {
  }

  datatype TextField = Title | Content

  class ArticleAdd {
    var title: string
    var image: FileSlot
    var content: string
    var errors: map<string, string>
    var toasts: seq<Toast>

    constructor ()
      ensures title == "" && image == Null && content == "" && errors == map[] && toasts == []
    {
      title, image, content := "", Null, "";
      errors := map[];
      toasts := [];
    }

    /** `handleChange`: only the named text field changes. */
    method HandleChange(field: TextField, value: string)
      modifies this
      ensures title == (if field == Title then value else old(title))
      ensures content == (if field == Content then value else old(content))
      ensures image == old(image) && errors == old(errors) && toasts == old(toasts)
    {
      match field {
        case Title => title := value;
        case Content => content := value;
      }
    }

    /** `handleFileChange`: only the image changes. */
    method HandleFileChange(files: seq<string>)
      modifies this
      ensures image == FirstFile(files)
      ensures title == old(title) && content == old(content)
      ensures errors == old(errors) && toasts == old(toasts)
    {
      image := FirstFile(files);
    }

    /** `handleSubmit`. */
    method HandleSubmit(rejection: Thrown)
      modifies this
      ensures title == old(title) && content == old(content) && image == old(image)
      ensures FormValid(title, content) ==>
                errors == map[] && toasts == old(toasts) + [SuccessToast("Article submitted successfully!")]
      ensures !FormValid(title, content) && rejection.ValidationError? ==>
                errors == LastMessageMap(rejection.inner) && toasts == old(toasts)
      ensures !FormValid(title, content) && rejection.OtherError? ==>
                errors == old(errors) && toasts == old(toasts)
    {
      if FormValid(title, content) {
        errors := map[];
        toasts := toasts + [SuccessToast("Article submitted successfully!")];
      } else if rejection.ValidationError? {
        errors := CollectLastMessages(rejection.inner);
      }
    }
  }
}

/** The article update page: its schema, loading the article, field updates,
    and saving as draft or publishing with a multipart body. */
module ArticleUpdatePage {
  import opened Common
  import opened FormErrors
  import opened Http
  import opened AuthContext

  const TitleMin := 3
  const TitleMax := 60
  const ContentMin := 10

  /** `min(3)`, `max(60)` and `required`. */
  predicate TitleValid(title: string) {
    Truthy(title) && TitleMin <= Utf16Length(title) <= TitleMax
  }

  /** `min(10)` and `required`. */
  predicate ContentValid(content: string) {
    Truthy(content) && Utf16Length(content) >= ContentMin
  }

  predicate FormValid(title: string, content: string) {
    TitleValid(title) && ContentValid(content)
  }

  /** Both rules are bounds on the JavaScript length. The title's upper bound
      is inclusive, so a title of length exactly 60 passes although the
      message says "less than 60". Two emoji make a title of length 4. */
  lemma RulesAreLengthBounds(title: string, content: string)
    ensures TitleValid(title) <==> 3 <= Utf16Length(title) <= 60
    ensures Utf16Length(title) == 60 ==> TitleValid(title)
    ensures ContentValid(content) <==> Utf16Length(content) >= 10
    ensures TitleValid("\U{1F600}\U{1F600}")
  {
    assert Utf16Length("\U{1F600}") == 2;
  }

  /** The article's image: none, the address the server returned, or a newly
      chosen file. */
  datatype ArticleImage = NoImage | Href(url: string) | Upload(name: string)

  /** `if (formData.articleImage)` */
  predicate ImagePresent(image: ArticleImage) {
    match image
    case NoImage => false
    case Href(url) => Truthy(url)
    case Upload(_) => true
  }

  function ImagePart(image: ArticleImage): Part
    requires ImagePresent(image)
  {
    match image
    case Href(url) => Text(url)
    case Upload(name) => Blob(name)
  }

  datatype ArticleStatus = Draft | Published

  /** The value each button passes: "Save As Draft" and "Update Article". */
  function StatusText(status: ArticleStatus): (text: string)
    ensures status == Draft <==> text == "draft"
    ensures status == Published <==> text == "published"
  {
    match status
    case Draft => "draft"
    case Published => "published"
  }

  /** The body built by successive `append` calls. */
  function UpdateBody(title: string, content: string, status: ArticleStatus, image: ArticleImage): (body: seq<Entry>)
    ensures |body| == (if ImagePresent(image) then 4 else 3)
    ensures body[..3] == [Entry("title", Text(title)), Entry("content", Text(content)),
                          Entry("articleStatus", Text(StatusText(status)))]
    ensures ImagePresent(image) ==> body[3] == Entry("articleImage", ImagePart(image))
  {
    var fields := [Entry("title", Text(title)), Entry("content", Text(content)),
                   Entry("articleStatus", Text(StatusText(status)))];
    if ImagePresent(image) then fields + [Entry("articleImage", ImagePart(image))] else fields
  }

  function EntryNames(body: seq<Entry>): (names: seq<string>)
    ensures |names| == |body|
    ensures forall i :: 0 <= i < |body| ==> names[i] == body[i].name
  {
    if body == [] then [] else [body[0].name] + EntryNames(body[1..])
  }

  /** The entry names come in a fixed order; the image is the only optional
      one and is last. The two buttons differ only in the status entry. */
  lemma UpdateBodyLayout(title: string, content: string, image: ArticleImage)
    ensures EntryNames(UpdateBody(title, content, Draft, image)) ==
            ["title", "content", "articleStatus"] + (if ImagePresent(image) then ["articleImage"] else [])
    ensures var d, p := UpdateBody(title, content, Draft, image), UpdateBody(title, content, Published, image);
            |d| == |p| && d[2].part == Text("draft") && p[2].part == Text("published")
            && forall i :: 0 <= i < |d| && i != 2 ==> d[i] == p[i]
  {
    var names := EntryNames(UpdateBody(title, content, Draft, image));
    var expected := ["title", "content", "articleStatus"] + (if ImagePresent(image) then ["articleImage"] else []);
    assert |names| == |expected|;
    forall i | 0 <= i < |names| ensures names[i] == expected[i] {
      var body := UpdateBody(title, content, Draft, image);
      if i < 3 { assert body[i] == body[..3][i]; }
    }
    var d, p := UpdateBody(title, content, Draft, image), UpdateBody(title, content, Published, image);
    assert d[0] == d[..3][0] && p[0] == p[..3][0];
    assert d[1] == d[..3][1] && p[1] == p[..3][1];
    assert d[2] == d[..3][2] && p[2] == p[..3][2];
  }

  /** The effect on the flag: a visitor whose flag is false is sent to "/login". */
  function RedirectWhenSignedOut(isAuthenticated: bool): (target: Option<string>)
    ensures target.Some? <==> !isAuthenticated
    ensures target.Some? ==> target.value == "/login"
  {
    if !isAuthenticated then Some("/login") else None
  }

  /** How loading the article ends: its fields, or a failure with the HTTP
      status when there was a reply. */
  datatype FetchOutcome =
    | Fetched(title: string, content: string, imageUrl: Option<string>)
    | FetchFailed(status: Option<nat>)

  datatype TextField = Title | Content

  class ArticleUpdate {
    var title: string
    var image: ArticleImage
    var content: string
    /** `errors`: field path to message. */
    var errors: map<string, string>
    var toasts: seq<Toast>

    constructor ()
      ensures title == "" && image == NoImage && content == "" && errors == map[] && toasts == []
    {
      title, image, content := "", NoImage, "";
      errors := map[];
      toasts := [];
    }

    /** `fetchArticle`: a 401 logs the session out and leaves for "/login";
        any other failure only raises a toast. */
    method FetchArticle(session: AuthProvider, outcome: FetchOutcome) returns (navigateTo: Option<string>)
      modifies this, session
      ensures errors == old(errors)
      ensures outcome.Fetched? ==>
                && title == outcome.title && content == outcome.content
                && image == (if outcome.imageUrl.Some? then Href(outcome.imageUrl.value) else NoImage)
                && session.Snapshot() == old(session.Snapshot())
                && navigateTo == None && toasts == old(toasts)
      ensures outcome == FetchFailed(Some(401)) ==>
                && session.Snapshot() == LoggedOut(old(session.Snapshot()))
                && navigateTo == Some("/login") && toasts == old(toasts)
      ensures outcome.FetchFailed? && outcome != FetchFailed(Some(401)) ==>
                && session.Snapshot() == old(session.Snapshot())
                && navigateTo == None && toasts == old(toasts) + [ErrorToast("Failed to Fetch")]
      ensures outcome.FetchFailed? ==> title == old(title) && content == old(content) && image == old(image)
    {
      navigateTo := None;
      match outcome {
        case Fetched(t, c, url) =>
          title := t;
          image := if url.Some? then Href(url.value) else NoImage;
          content := c;
        case FetchFailed(status) =>
          if status == Some(401) {
            session.Logout();
            navigateTo := Some("/login");
          } else {
            toasts := toasts + [ErrorToast("Failed to Fetch")];
          }
      }
    }

    /** `handleChange`: only the named text field changes. */
    method HandleChange(field: TextField, value: string)
      modifies this
      ensures title == (if field == Title then value else old(title))
      ensures content == (if field == Content then value else old(content))
      ensures image == old(image) && errors == old(errors) && toasts == old(toasts)
    {
      match field {
        case Title => title := value;
        case Content => content := value;
      }
    }

    /** `handleFileChange`: only the image changes. */
    method HandleFileChange(files: seq<string>)
      modifies this
      ensures image == (if files == [] then NoImage else Upload(files[0]))
      ensures title == old(title) && content == old(content)
      ensures errors == old(errors) && toasts == old(toasts)
    {
      image := if files == [] then NoImage else Upload(files[0]);
    }

    /** `handleSubmit(e, status)`. Returns the body sent and where the page
        navigates. */
    method HandleSubmit(status: ArticleStatus, rejection: Thrown, outcome: Outcome)
      returns (sent: Option<seq<Entry>>, navigateTo: Option<string>)
      modifies this
      ensures title == old(title) && content == old(content) && image == old(image)
      ensures FormValid(title, content) <==> sent.Some?
      ensures sent.Some? ==> sent.value == UpdateBody(title, content, status, image) && errors == map[]
      ensures sent.Some? && outcome.Resolved? ==>
                navigateTo == Some("/articles") && toasts == old(toasts) + [SuccessToast("Article updated successfully!")]
      ensures sent.Some? && outcome.Rejected? ==>
                navigateTo == None && toasts == old(toasts) + [ErrorToast("Failed to update article")]
      // rejected by the schema: the last message per reported path
      ensures sent.None? && rejection.ValidationError? ==>
                errors == LastMessageMap(rejection.inner) && toasts == old(toasts) && navigateTo == None
      ensures sent.None? && rejection.OtherError? ==>
                errors == old(errors) && toasts == old(toasts) + [ErrorToast("Failed to update article")]
                && navigateTo == None
    {
      sent, navigateTo := None, None;
      if FormValid(title, content) {
        errors := map[];
        var body := [Entry("title", Text(title))];
        body := body + [Entry("content", Text(content))];
        body := body + [Entry("articleStatus", Text(StatusText(status)))];
        if ImagePresent(image) {
          body := body + [Entry("articleImage", ImagePart(image))];
        }
        sent := Some(body);
        if outcome.Resolved? {
          toasts := toasts + [SuccessToast("Article updated successfully!")];
          navigateTo := Some("/articles");
        } else {
          toasts := toasts + [ErrorToast("Failed to update article")];
        }
      } else {
        match rejection {
          case ValidationError(inner) =>
            errors := CollectLastMessages(inner);
          case OtherError(_) =>
            toasts := toasts + [ErrorToast("Failed to update article")];
        }
      }
    }
  }
}

# Session store, route guard and form rules of the article client

This project models the client-side logic of a React article application.
The model leaves out the browser, the HTTP library and React.

- **Session store** (`AuthProvider`). It holds a token, a plain boolean
  authentication flag that starts `false`, and the browser's key-value
  storage. The operations are the mount-time restore, `login`, `logout` and
  `isLoggedIn`. Each transition is defined on values (`AuthContext.Session`).
  The class `AuthContext.AuthProvider` carries them out step by step, and each
  of its methods is proved equal to its transition function.
- **Route guard** (`ProtectedPages`). When the flag is set, the guard renders
  the nested routes. Otherwise it renders nothing, logs out and navigates to
  `"/"`. One lemma shows what happens when the guard's mount effect runs
  before the provider's restore effect: a stored session is deleted, and the
  restore that follows finds nothing. React runs a child's mount effects
  before its parent's, so this is the order on a page load at a guarded route.
- **Form rules and error reporting.** These cover the e-mail regular
  expression, the image-extension test and the length rules of each schema.
  They also cover what the pages do with the validation library's list of
  `(path, message)` errors:
  - the auth pages keep the first message per path and show one field, chosen
    by priority;
  - the article pages keep the last message per path;
  - the older register page raises one toast per error.

  The module also builds the multipart bodies that the register and
  article-update requests send. Each page is a class whose methods are the
  page's handlers.

The code behaves as follows where a reader might expect otherwise:

- The flag is a plain boolean. It has no "unknown at boot" state.
- The guard sends an unauthenticated visitor to `"/"`, not to the login view.
- `login` does not check its token. `login("", u)` sets the flag while the
  token is empty, so "authenticated implies a non-empty token" does not hold
  (`AuthContext.LoginAcceptsEmptyToken`).
- The restore step leaves the state unchanged when no token is stored. It
  does not set the flag to false. At boot the two are the same.
- Only the update page's article fetch reacts to a 401 by logging out. It
  then sends the visitor to `"/login"`.

Conventions:

- An absent `message` or `error` field of a reply body is written `""`.
  Absent and `""` are both falsy, so `a || b` gives the same result for
  either. Where a page toasts `data.message` directly, an absent message is
  modelled as an empty toast (see "## Left out"). An absent `token` or
  `user` is `None`
  (`undefined`). The pages hand those fields to `login`, and
  `localStorage.setItem` stores `undefined` as the truthy text
  `"undefined"`. A 200 reply without a token therefore leaves a session
  that `isLoggedIn` and the next page load accept
  (`AuthContext.ReloadAfterLoginWithoutToken`).
- Every `min`/`max` rule measures JavaScript's `length`, which counts UTF-16
  code units (`Common.Utf16Length`), not characters. A character outside
  the Basic Multilingual Plane, such as an emoji, counts twice.
- JavaScript truthiness is kept exactly. `if (!errorMap[path])` overwrites an
  entry for as long as it is empty, so the auth pages show the first
  *non-empty* message for a path. `if (errorMap[field])` skips a field whose
  message is empty.
- A form's file input holds `null`, `undefined` (the choice was cancelled) or
  a file, which is known by its name. `FormData.append` sends a non-file as
  its text, so a register request without an image sends the text `"null"`.
- The user profile that `login` stores is passed in already serialised, or
  `undefined` when the reply had none.
- Which validation rules fail is decided by the schema predicates. What the
  library throws (`err.inner`, its order and messages, or some other value)
  is an input to each submit handler. The outcome of each request is an input
  too.

## Model

| member | source | states |
|---|---|---|
| `Common.AsciiLower` | src/Pages/Auth/Register.jsx:65 | `toLowerCase` on ASCII: same length, each upper-case letter mapped to its lower-case letter, every other character kept |
| `Common.FirstFile` | src/Pages/Auth/Register.jsx:75-77 | `files[0]`: `undefined` exactly when no file was selected, otherwise the first file |
| `Common.OrElse` | src/Pages/Auth/SetPassword.jsx:87 | `a \|\| b` on strings: `a` when it is non-empty, otherwise `b` |
| `Common.DecimalText` | src/Pages/Auth/Login.jsx:92 | the `${status}` text is non-empty, all decimal digits, with no leading zero, and its digits spell the status (`DigitsValue(r) == n`) |
| `Common.DigitsValue` | src/Pages/Auth/Login.jsx:92 | the reference reading of a digit text as a number, most significant digit first; it is the partner of `DecimalText` |
| `Common.AsciiLowerChar` | src/Pages/Auth/Register.jsx:65 | `toLowerCase` on one ASCII character: a capital maps to the letter 32 code points higher, and every other character is kept |
| `Common.Truthy` | src/Pages/Auth/Login.jsx:77 | JavaScript truthiness of a string: only `""` is falsy |
| `Common.Utf16Length` | src/Pages/Auth/Login.jsx:46 | JavaScript's `length`: between the number of characters and twice that, and equal to it exactly when every character lies in the Basic Multilingual Plane |
| `Common.Utf16LengthOfChar` | src/Pages/Auth/Login.jsx:46 | one character has length 2 outside the Basic Multilingual Plane and 1 inside it |
| `Common.Utf16LengthAppend` | src/Pages/Auth/Login.jsx:46 | the length of a concatenation is the sum of the lengths, so with the one-character case the length of every text is fixed |
| `Validation.MatchesEmailRegex` | src/Pages/Auth/Login.jsx:39-42 | the anchored regex `^[a-zA-Z0-9._%+-]+@[a-zA-Z0-9.-]+\.[a-zA-Z]{2,}$`: a split at an `@` and a later `.` with a non-empty local part, a non-empty domain part and a top-level part of two or more letters |
| `Validation.EmailSplitIsUnique` | src/Pages/Auth/Login.jsx:39-42 | when the e-mail regex matches, its `@` is the only `@` in the string and the separating dot is the last dot |
| `Validation.TwoAtSignsNeverMatch` | src/Pages/Auth/Login.jsx:39-42 | a string with two `@` never matches the regex |
| `Validation.EmailFromParts` | src/Pages/Auth/Register.jsx:57-60 | every `L@D.T` is accepted when L is over `[A-Za-z0-9._%+-]`, D over `[A-Za-z0-9.-]` (both non-empty) and T is two or more letters |
| `Validation.EmailHasParts` | src/Pages/Auth/Register.jsx:57-60 | the converse of `EmailFromParts`: every accepted string is `L@D.T` for some parts of those classes |
| `Validation.LastSegment` | src/Pages/Auth/Register.jsx:65 | `split(".").pop()` is the longest dot-free suffix: the whole name when it has no dot, `""` after a trailing dot |
| `Validation.HasAllowedExtension` | src/Pages/Auth/Register.jsx:63-67 | the lower-cased last segment of the name is one of jpg, jpeg, png, webp |
| `Validation.NoDotIsWholeName` | src/Pages/Register.jsx:25 | a name without a dot is its own extension |
| `Validation.SegmentAfterLastDot` | src/Pages/Register.jsx:25 | for `stem + "." + ext` with a dot-free `ext`, the extension is `ext`, whatever the stem holds |
| `Validation.UpperCaseExtensionPasses` | src/Pages/Auth/Register.jsx:65-66 | `"a.PNG"` passes: the test ignores case |
| `Validation.InnerExtensionIgnored` | src/Pages/Auth/Register.jsx:65-66 | `"a.png.exe"` fails: only the last segment counts |
| `Validation.TrailingDotFails` | src/Pages/Auth/Register.jsx:65-66 | `"photo."` fails: its extension is `""` |
| `Validation.BareExtensionNamePasses` | src/Pages/Auth/Register.jsx:65-66 | a file named `"png"` passes, because the whole name counts when there is no dot |
| `FormErrors.FirstTruthyMessage` | src/Pages/Auth/Login.jsx:76-80 | the result is the first non-empty message reported for the path, with every earlier message for it empty; it is `""` only when every message for the path is empty |
| `FormErrors.FirstMessageMapSnoc` | src/Pages/Auth/Login.jsx:76-80 | one `forEach` step keeps a non-empty entry and otherwise stores the new message |
| `FormErrors.FirstMessageMap` | src/Pages/Auth/Login.jsx:74-80 | the reference map: its keys are the reported paths, and each value is that path's first non-empty message |
| `FormErrors.CollectFirstMessages` | src/Pages/Auth/Login.jsx:74-80 | the loop builds a map whose keys are the reported paths and whose values are the first non-empty message of each |
| `FormErrors.HasMessage` | src/Pages/Auth/Login.jsx:83 | `errorMap[field]` is truthy: the field is in the map with a non-empty message |
| `FormErrors.FirstByPriority` | src/Pages/Auth/Login.jsx:82-87 | the result is the first priority field with a non-empty entry, with that entry, after no earlier field has one; it is None exactly when no priority field has one |
| `FormErrors.PickByPriority` | src/Pages/Auth/Register.jsx:116-121 | the loop with `break` returns that first field |
| `FormErrors.ShownError` | src/Pages/Auth/Login.jsx:72-87 | the field error a page shows: the priority pick from the first-message map, or the cleared value when there is none |
| `FormErrors.ShownErrorFromReport` | src/Pages/Auth/Login.jsx:72-87 | on the reported list: the shown field is the first priority field with a non-empty message, and its message is that field's first non-empty message; the cleared value stays exactly when no priority field has one |
| `FormErrors.LastMessage` | src/Pages/Article/ArticleUpdatePage.jsx:103-105 | for a reported path, the result is the message of an error for it after which no error for that path follows |
| `FormErrors.LastMessageMap` | src/Pages/Article/ArticleUpdatePage.jsx:101-106 | the reference map: its keys are the reported paths, and each value is that path's last message |
| `FormErrors.CollectLastMessages` | src/Pages/Article/ArticleAddPage.jsx:43-46 | the loop builds the map from each reported path to its last message |
| `FormErrors.LastMessageMapAppend` | src/Pages/Article/ArticleUpdatePage.jsx:103-105 | one more error adds its path to the keys and replaces any earlier message for that path |
| `FormErrors.ErrorToasts` | src/Pages/Register.jsx:52-54 | one error toast per reported error, same order, carrying its message |
| `FormErrors.ErrorToastsSnoc` | src/Pages/Register.jsx:52-54 | one more error adds exactly one toast at the end |
| `Http.BackendErrorText` | src/Pages/Auth/Login.jsx:89-92 | `data.message` if non-empty, else `data.error` if non-empty, else `"Error: "` and the status; never empty |
| `Http.SlotPart` | src/Pages/Auth/Register.jsx:16 | a file is sent as a file; `null` and `undefined` are sent as the texts `"null"` and `"undefined"` |
| `AuthContext.HasStoredToken` | src/context/AuthContext.jsx:33-34 | `!!localStorage.getItem("token")`: a token is stored and it is not `""` |
| `AuthContext.Initial` | src/context/AuthContext.jsx:6-7 | the state before restore: token `""`, flag false, over the given storage |
| `AuthContext.StoredText` | src/context/AuthContext.jsx:18-19 | the text `setItem` stores: the value itself, or the truthy text `"undefined"` for `undefined` |
| `AuthContext.Restored` | src/context/AuthContext.jsx:9-15 | a non-empty stored token becomes the state's token and sets the flag; otherwise the state is unchanged; storage is untouched |
| `AuthContext.LoggedIn` | src/context/AuthContext.jsx:17-22 | storage maps `"token"` and `"user"` to the stored texts of the token and the profile, other keys unchanged; the state's token is the new token, `undefined` included, and the flag is set |
| `AuthContext.LoggedOut` | src/context/AuthContext.jsx:24-29 | `"token"` and `"user"` are absent, every other key keeps its value, the token is `""` and the flag is false |
| `AuthContext.Checked` | src/context/AuthContext.jsx:31-36 | the flag becomes "a non-empty token is stored"; token and storage are unchanged |
| `AuthContext.LogoutIdempotent` | src/context/AuthContext.jsx:24-29 | logging out twice equals logging out once |
| `AuthContext.RestoreIdempotent` | src/context/AuthContext.jsx:9-15 | restoring twice equals restoring once |
| `AuthContext.CheckAfterLogoutAndLogin` | src/context/AuthContext.jsx:17-36 | `isLoggedIn` is false after `logout`, and true after `login(t, u)` exactly when `t` is not `""`, so also when `t` is `undefined` |
| `AuthContext.ReloadRestoresLogin` | src/context/AuthContext.jsx:9-22 | after a `login` with a non-empty token, restoring on a fresh load rebuilds the same session |
| `AuthContext.ReloadAfterLoginWithoutToken` | src/context/AuthContext.jsx:9-22 | after `login(undefined, u)` the state's token is `undefined` while `isLoggedIn` is true, and the next load restores the token text `"undefined"` with the flag set |
| `AuthContext.SyncedPreserved` | src/context/AuthContext.jsx:6-29 | "the flag implies the stored token is the text of the state's token" holds at boot and is kept by restore, `login` and `logout` |
| `AuthContext.CheckBeforeRestoreDesyncs` | src/context/AuthContext.jsx:31-36 | `isLoggedIn` before the restore step sets the flag while the token is still `""`, breaking that agreement |
| `AuthContext.LoginAcceptsEmptyToken` | src/context/AuthContext.jsx:17-22 | `login("", u)` sets the flag with an empty token, and `isLoggedIn` then reports false |
| `AuthContext.AuthProvider.constructor` | src/context/AuthContext.jsx:6-7 | before restore, the token is `""` and the flag is false over the storage left by earlier loads |
| `AuthContext.AuthProvider.Restore` | src/context/AuthContext.jsx:9-15 | the new state is `Restored` of the old |
| `AuthContext.AuthProvider.Login` | src/context/AuthContext.jsx:17-22 | the new state is `LoggedIn` of the old |
| `AuthContext.AuthProvider.Logout` | src/context/AuthContext.jsx:24-29 | the new state is `LoggedOut` of the old |
| `AuthContext.AuthProvider.IsLoggedIn` | src/context/AuthContext.jsx:31-36 | the method returns whether a non-empty token is stored, and the new state is `Checked` of the old |
| `ProtectedPages.Decide` | src/Pages/ProtectedPages.jsx:16-20 | the guard renders the nested routes exactly when the flag is set; otherwise it renders nothing and the target is exactly `"/"` |
| `ProtectedPages.Guarded` | src/Pages/ProtectedPages.jsx:9-14 | with the flag set, the session is unchanged; without it, the session is the logged-out one |
| `ProtectedPages.Guard` | src/Pages/ProtectedPages.jsx:9-20 | the decision follows the flag, and the session ends as `Guarded` of the old one |
| `ProtectedPages.GuardIdempotent` | src/Pages/ProtectedPages.jsx:9-14 | a second guard step changes neither the session nor the decision |
| `ProtectedPages.GuardBeforeRestoreEndsSession` | src/Pages/ProtectedPages.jsx:9-14 | a guard step at the initial `false`, followed by the restore step, ends logged out with no token stored, and the visitor is sent to `"/"` |
| `ProtectedPages.RestoreBeforeGuardKeepsSession` | src/context/AuthContext.jsx:9-15 | with a stored token, restoring first leaves the guard rendering the routes and the session untouched |
| `ProtectedPages.LoadProtectedRoute` | src/Pages/ProtectedPages.jsx:9-18 | on the live objects, mount, guard, then restore ends logged out, with no token stored and a redirect to `"/"` |
| `LoginPage.EmailValid` | src/Pages/Auth/Login.jsx:36-42 | `required` and the regex: non-empty and accepted by `MatchesEmailRegex` |
| `LoginPage.PasswordValid` | src/Pages/Auth/Login.jsx:44-46 | `required` and `min(6)` on the JavaScript length |
| `LoginPage.FormValid` | src/Pages/Auth/Login.jsx:35-47 | both fields pass |
| `LoginPage.PasswordRuleIsLength` | src/Pages/Auth/Login.jsx:44-46 | the password passes exactly when its JavaScript length is at least 6; for text in the Basic Multilingual Plane, exactly when it has at least 6 characters |
| `LoginPage.ThreeEmojiPasswordPasses` | src/Pages/Auth/Login.jsx:46 | a password of three emoji, three characters long, passes `min(6)` |
| `LoginPage.ValidEmailHasOneAt` | src/Pages/Auth/Login.jsx:36-42 | an accepted e-mail holds exactly one `@` |
| `LoginPage.RedirectWhenAuthenticated` | src/Pages/Auth/Login.jsx:29-33 | an authenticated visitor is sent to `"/articles"`, and only then |
| `LoginPage.Login.constructor` | src/Pages/Auth/Login.jsx:10-17 | empty fields, no field error, not loading |
| `LoginPage.Login.HandleChange` | src/Pages/Auth/Login.jsx:49-53 | only the named field takes the value, and the field error is cleared |
| `LoginPage.Login.HandleSubmit` | src/Pages/Auth/Login.jsx:55-100 | a rejected form shows the priority-chosen error and changes nothing else; a 200 logs the session in with the reply's token and user and goes to `"/articles"`; other replies toast (the backend fallback text for a rejected request with a reply); loading ends false in every case |
| `RegisterPage.NameValid` | src/Pages/Auth/Register.jsx:48-53 | `required` and `min(2)` on the JavaScript length |
| `RegisterPage.EmailValid` | src/Pages/Auth/Register.jsx:54-60 | `required` and the regex |
| `RegisterPage.ImageValid` | src/Pages/Auth/Register.jsx:61-67 | `nullable` and the `fileFormat` test: no file passes, a file passes when its extension is allowed |
| `RegisterPage.FormValid` | src/Pages/Auth/Register.jsx:47-68 | all four fields pass |
| `RegisterPage.NameRuleIsLength` | src/Pages/Auth/Register.jsx:48-53 | a name passes exactly when its JavaScript length is at least 2: any two characters pass, and one character passes exactly when it lies outside the Basic Multilingual Plane |
| `RegisterPage.ImageRule` | src/Pages/Auth/Register.jsx:61-67 | no image passes; a file passes exactly when its lower-cased last segment is jpg, jpeg, png or webp |
| `RegisterPage.RegisterBody` | src/Pages/Auth/Register.jsx:10-17 | the posted body is firstName, lastName, email and profileImage, in that order |
| `RegisterPage.RedirectWhenAuthenticated` | src/Pages/Auth/Register.jsx:40-44 | an authenticated visitor is sent to `"/"`, and only then |
| `RegisterPage.Register.constructor` | src/Pages/Auth/Register.jsx:27-32 | empty fields, image `null`, no field error |
| `RegisterPage.Register.HandleChange` | src/Pages/Auth/Register.jsx:70-81 | clears the field error; the image input stores its first file, every other input its text; nothing else changes |
| `RegisterPage.Register.HandleSubmit` | src/Pages/Auth/Register.jsx:83-134 | a body is sent exactly when the schema accepts; a 201 resets all four fields; a rejected form shows the priority-chosen error; failures toast with the backend fallback text; loading ends false |
| `SetPasswordPage.PasswordValid` | src/Pages/Auth/SetPassword.jsx:45-47 | `required` and `min(6)` on the JavaScript length |
| `SetPasswordPage.PasswordRuleIsLength` | src/Pages/Auth/SetPassword.jsx:45-47 | the password passes exactly when its JavaScript length is at least 6: six characters always pass, fewer than three never do |
| `SetPasswordPage.NoReplyText` | src/Pages/Auth/SetPassword.jsx:86-88 | `err.message` when non-empty, else `"Something went wrong"` |
| `SetPasswordPage.ValidationShowsPasswordMessage` | src/Pages/Auth/SetPassword.jsx:67-82 | a validation failure shows the first non-empty message for `password`, or nothing when there is none |
| `SetPasswordPage.RedirectWhenAuthenticated` | src/Pages/Auth/SetPassword.jsx:39-43 | an authenticated visitor is sent to `"/articles"`, and only then |
| `SetPasswordPage.SetPassword.constructor` | src/Pages/Auth/SetPassword.jsx:13-19 | the token comes from the route, and the password is empty |
| `SetPasswordPage.SetPassword.HandleChange` | src/Pages/Auth/SetPassword.jsx:115 | only the password changes |
| `SetPasswordPage.SetPassword.HandleSubmit` | src/Pages/Auth/SetPassword.jsx:50-92 | on 200 the session's token is the link's token, not one from the reply; a reply error toasts `data.message` without fallback; no reply toasts `NoReplyText`; loading ends false |
| `LegacyRegisterPage.TextValid` | src/Pages/Register.jsx:16-20 | `required` only, for the names and the e-mail |
| `LegacyRegisterPage.ImageValid` | src/Pages/Register.jsx:21-27 | `required` and the `fileFormat` test: only a file with an allowed extension passes |
| `LegacyRegisterPage.FormValid` | src/Pages/Register.jsx:15-28 | all four fields pass |
| `LegacyRegisterPage.DiffersFromNewerSchema` | src/Pages/Register.jsx:15-28 | a missing image fails; a file passes exactly when its lower-cased last segment is allowed; a one-letter name passes |
| `LegacyRegisterPage.Register.constructor` | src/Pages/Register.jsx:6-11 | empty fields, image `null`, no toasts |
| `LegacyRegisterPage.Register.HandleChange` | src/Pages/Register.jsx:30-39 | the image input stores its first file, every other input its text; nothing else changes |
| `LegacyRegisterPage.Register.HandleSubmit` | src/Pages/Register.jsx:41-59 | exactly the two success toasts on success; otherwise one error toast per reported error in order, or the single toast `"Something went wrong!"` |
| `ArticleUpdatePage.TitleValid` | src/Pages/Article/ArticleUpdatePage.jsx:13-16 | `min(3)`, `max(60)` and `required` on the JavaScript length |
| `ArticleUpdatePage.ContentValid` | src/Pages/Article/ArticleUpdatePage.jsx:17-19 | `min(10)` and `required` on the JavaScript length |
| `ArticleUpdatePage.FormValid` | src/Pages/Article/ArticleUpdatePage.jsx:12-20 | the article schema accepts: both the title and the content pass |
| `ArticleUpdatePage.RulesAreLengthBounds` | src/Pages/Article/ArticleUpdatePage.jsx:12-20 | the title passes exactly when its JavaScript length is 3 to 60 (60 included), the content when it is at least 10; a title of two emoji passes |
| `ArticleUpdatePage.ImagePresent` | src/Pages/Article/ArticleUpdatePage.jsx:88 | `if (formData.articleImage)`: a chosen file or a non-empty address |
| `ArticleUpdatePage.ImagePart` | src/Pages/Article/ArticleUpdatePage.jsx:89 | the appended image: the address as text, or the chosen file |
| `ArticleUpdatePage.StatusText` | src/Pages/Article/ArticleUpdatePage.jsx:174-179 | `"draft"` from the draft button and `"published"` from the update button |
| `ArticleUpdatePage.UpdateBody` | src/Pages/Article/ArticleUpdatePage.jsx:83-90 | title, content and articleStatus in that order, then articleImage only when an image is present |
| `ArticleUpdatePage.EntryNames` | src/Pages/Article/ArticleUpdatePage.jsx:83-90 | a helper for stating the body's layout, with no counterpart in the page: the names of the body's entries, in order |
| `ArticleUpdatePage.UpdateBodyLayout` | src/Pages/Article/ArticleUpdatePage.jsx:83-90 | the entry names are exactly `title, content, articleStatus[, articleImage]`; the two buttons' bodies differ only in the status entry |
| `ArticleUpdatePage.RedirectWhenSignedOut` | src/Pages/Article/ArticleUpdatePage.jsx:58-62 | a false flag sends the visitor to `"/login"`, and only then |
| `ArticleUpdatePage.ArticleUpdate.constructor` | src/Pages/Article/ArticleUpdatePage.jsx:27-32 | empty fields, no image, no errors |
| `ArticleUpdatePage.ArticleUpdate.FetchArticle` | src/Pages/Article/ArticleUpdatePage.jsx:34-56 | a loaded article fills the form; a 401 logs out and goes to `"/login"`; any other failure only toasts `"Failed to Fetch"` and leaves the session untouched |
| `ArticleUpdatePage.ArticleUpdate.HandleChange` | src/Pages/Article/ArticleUpdatePage.jsx:68-71 | only the named field changes |
| `ArticleUpdatePage.ArticleUpdate.HandleFileChange` | src/Pages/Article/ArticleUpdatePage.jsx:73-75 | only the image changes |
| `ArticleUpdatePage.ArticleUpdate.HandleSubmit` | src/Pages/Article/ArticleUpdatePage.jsx:77-112 | a body is sent exactly when the schema accepts, and the error map is then empty; a schema failure maps each reported path to its last message; failures toast `"Failed to update article"` |
| `ArticleAddPage.TitleValid` | src/Pages/Article/ArticleAddPage.jsx:16-19 | `min(3)`, `max(100)` and `required` on the JavaScript length |
| `ArticleAddPage.ContentValid` | src/Pages/Article/ArticleAddPage.jsx:20-22 | `min(10)` and `required` on the JavaScript length |
| `ArticleAddPage.FormValid` | src/Pages/Article/ArticleAddPage.jsx:15-23 | the article schema accepts: both the title and the content pass |
| `ArticleAddPage.TitleWindowWiderThanUpdate` | src/Pages/Article/ArticleAddPage.jsx:15-23 | the title passes exactly when its JavaScript length is 3 to 100 and the content when it is at least 10; titles of length 61 to 100 pass here but fail on the update page |
| `ArticleAddPage.ArticleAdd.constructor` | src/Pages/Article/ArticleAddPage.jsx:7-12 | empty fields, image `null`, no errors |
| `ArticleAddPage.ArticleAdd.HandleChange` | src/Pages/Article/ArticleAddPage.jsx:25-28 | only the named field changes |
| `ArticleAddPage.ArticleAdd.HandleFileChange` | src/Pages/Article/ArticleAddPage.jsx:30-32 | only `image` changes |
| `ArticleAddPage.ArticleAdd.HandleSubmit` | src/Pages/Article/ArticleAddPage.jsx:34-50 | success empties the error map and toasts once; a validation error maps each reported path to its last message; any other thrown value leaves the map unchanged |

## Left out

- A toast of an absent reply `message` is not modelled as such. The pages toast `data.message` directly (src/Pages/Auth/Login.jsx:64, src/Pages/Auth/SetPassword.jsx:84-85), which in JavaScript passes `undefined`; here the toast carries `""`.
- HTTP requests. Each request's outcome (reply, or rejection with or without a reply) is an input. Request URLs, headers and bearer tokens are not modelled.
- React machinery. Hooks, re-rendering, effect scheduling and batching are not modelled. Navigation is a returned target path. Effects are modelled as separate steps, and the guard-before-restore order is stated as a lemma.
- The validation library. Its built-in `.email()` test is not modelled: the e-mail rules use only the explicit regular expression. The library's error list, with its order and messages, is an input. Which list it produces for a given form is not modelled.
- `JSON.stringify(user)` is not modelled. `login` receives the profile already serialised.
- Unicode lower-casing is not modelled. `toLowerCase` is ASCII-only here, and files are known only by their name.
- Toast rendering is not modelled. Each page appends to its own log of toasts instead of a shared toaster.
- `console.log` calls are not modelled. Neither are the `isLoading` flip to true during a request (only the final value is stated), the show-password toggles, or JSX and styling.
- Inherited object properties are not modelled. In JavaScript, a path such as `"constructor"` reads a truthy value from `{}`. The maps here start really empty; the priority fields' own names are unaffected.
- The article list, article view, navigation bar, back button, button colours and the route table have no rules of their own and are not part of this model.

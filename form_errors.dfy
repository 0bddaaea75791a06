/** What the form pages do with the list of `(path, message)` errors that the
    validation library reports (`err.inner`): the auth pages keep the first
    message per path and show one field chosen by priority; the article pages
    keep the last message per path; the older register page raises one toast
    per error. The list itself, its order and its messages, come from the
    library and are inputs here. */
module FormErrors {
  import opened Common

  datatype FieldError = FieldError(path: string, message: string)

  /** The `{ field: "", message: "" }` value the auth pages start from. */
  const NoFieldError := FieldError("", "")

  /** What `schema.validate(...)` throws when the schema rejects a form: the
      library's `ValidationError` with its `inner` list, or any other value
      (the handlers test for that case, so it is kept). */
  datatype Thrown = ValidationError(inner: seq<FieldError>) | OtherError(message: string)

  /** A notification raised with `toast.success` or `toast.error`. */
  datatype Toast = SuccessToast(text: string) | ErrorToast(text: string)

  function Paths(inner: seq<FieldError>): set<string> {
    set i | 0 <= i < |inner| :: inner[i].path
  }

  // ---------------------------------------------------------------------
  // First message per path: `if (!errorMap[error.path]) errorMap[error.path] = error.message`
  // ---------------------------------------------------------------------

  /** The first non-empty message reported for `path`, or "" when every
      message for it is empty. The map entry is overwritten for as long as it
      is falsy, so an empty first message does not stop a later one. */
  function FirstTruthyMessage(inner: seq<FieldError>, path: string): (r: string)
    ensures r != "" ==>
              exists i :: 0 <= i < |inner| && inner[i].path == path && inner[i].message == r
                          && forall j :: 0 <= j < i && inner[j].path == path ==> inner[j].message == ""
    ensures r == "" ==> forall i :: 0 <= i < |inner| && inner[i].path == path ==> inner[i].message == ""
  {
    if inner == [] then ""
    else if inner[0].path == path && Truthy(inner[0].message) then inner[0].message
    else
      var r := FirstTruthyMessage(inner[1..], path);
      assert r != "" ==> exists i :: 1 <= i < |inner| && inner[i].path == path && inner[i].message == r
                          && forall j :: 0 <= j < i && inner[j].path == path ==> inner[j].message == "" by {
        if r != "" {
          var i :| 0 <= i < |inner[1..]| && inner[1..][i].path == path && inner[1..][i].message == r
                   && forall j :: 0 <= j < i && inner[1..][j].path == path ==> inner[1..][j].message == "";
          assert inner[i + 1] == inner[1..][i];
          forall j | 0 <= j < i + 1 && inner[j].path == path
            ensures inner[j].message == ""
          {
            if j > 0 { assert inner[j] == inner[1..][j - 1]; }
          }
        }
      }
      assert r == "" ==> forall i :: 0 <= i < |inner| && inner[i].path == path ==> inner[i].message == "" by {
        if r == "" {
          forall i | 0 <= i < |inner| && inner[i].path == path
            ensures inner[i].message == ""
          {
            if i > 0 { assert inner[i] == inner[1..][i - 1]; }
          }
        }
      }
      r
  }

  /** The reference definition of `errorMap` after the `forEach`. */
  function FirstMessageMap(inner: seq<FieldError>): map<string, string> {
    map p | p in Paths(inner) :: FirstTruthyMessage(inner, p)
  }

  lemma {:induction false} FirstTruthyMessageSnoc(inner: seq<FieldError>, e: FieldError, path: string)
    ensures FirstTruthyMessage(inner + [e], path) ==
            if FirstTruthyMessage(inner, path) != "" then FirstTruthyMessage(inner, path)
            else if e.path == path then e.message
            else ""
  {
    if inner != [] {
      assert (inner + [e])[1..] == inner[1..] + [e];
      FirstTruthyMessageSnoc(inner[1..], e, path);
    }
  }

  /** One step of the `forEach`: an entry that is already truthy is kept,
      otherwise the new message is stored. */
  lemma FirstMessageMapSnoc(inner: seq<FieldError>, e: FieldError)
    ensures FirstMessageMap(inner + [e]) ==
            if HasMessage(FirstMessageMap(inner), e.path) then FirstMessageMap(inner)
            else FirstMessageMap(inner)[e.path := e.message]
  {
    PathsSnoc(inner, e);
    var m, m' := FirstMessageMap(inner), FirstMessageMap(inner + [e]);
    var r := if HasMessage(m, e.path) then m else m[e.path := e.message];
    assert m'.Keys == r.Keys;
    forall p | p in m' ensures m'[p] == r[p] {
      FirstTruthyMessageSnoc(inner, e, p);
      if FirstTruthyMessage(inner, p) != "" {
        var i :| 0 <= i < |inner| && inner[i].path == p && inner[i].message == FirstTruthyMessage(inner, p);
        assert p in Paths(inner);
      }
    }
    assert m' == r;
  }

  /** The `forEach` that fills `errorMap`. */
  method CollectFirstMessages(inner: seq<FieldError>) returns (errorMap: map<string, string>)
    ensures errorMap == FirstMessageMap(inner)
  {
    errorMap := map[];
    var i := 0;
    while i < |inner|
      invariant 0 <= i <= |inner|
      invariant errorMap == FirstMessageMap(inner[..i])
    {
      var e := inner[i];
      if !HasMessage(errorMap, e.path) {
        errorMap := errorMap[e.path := e.message];
      }
      assert inner[..i + 1] == inner[..i] + [e];
      FirstMessageMapSnoc(inner[..i], e);
      i := i + 1;
    }
    assert inner[..i] == inner;
  }

  lemma PathsSnoc(inner: seq<FieldError>, e: FieldError)
    ensures Paths(inner + [e]) == Paths(inner) + {e.path}
  {
    var s := inner + [e];
    assert s[|inner|].path == e.path;
    forall p | p in Paths(inner) ensures p in Paths(s) {
      var i :| 0 <= i < |inner| && inner[i].path == p;
      assert s[i] == inner[i];
    }
  }

  // ---------------------------------------------------------------------
  // Field shown by priority: `for (const field of priority) if (errorMap[field]) { ...; break; }`
  // ---------------------------------------------------------------------

  /** `errorMap[field]` is truthy. */
  predicate HasMessage(errorMap: map<string, string>, field: string) {
    field in errorMap && Truthy(errorMap[field])
  }

  /** The first field of `priority` that has a message, with that message. */
  function FirstByPriority(priority: seq<string>, errorMap: map<string, string>): (r: Option<FieldError>)
    ensures r.None? <==> forall k :: 0 <= k < |priority| ==> !HasMessage(errorMap, priority[k])
    ensures r.Some? ==>
              exists k :: 0 <= k < |priority| && priority[k] == r.value.path
                          && HasMessage(errorMap, priority[k]) && r.value.message == errorMap[priority[k]]
                          && forall j :: 0 <= j < k ==> !HasMessage(errorMap, priority[j])
  {
    if priority == [] then None
    else if HasMessage(errorMap, priority[0]) then Some(FieldError(priority[0], errorMap[priority[0]]))
    else
      var r := FirstByPriority(priority[1..], errorMap);
      assert r.Some? ==>
               exists k :: 0 <= k < |priority| && priority[k] == r.value.path
                           && HasMessage(errorMap, priority[k]) && r.value.message == errorMap[priority[k]]
                           && forall j :: 0 <= j < k ==> !HasMessage(errorMap, priority[j]) by {
        if r.Some? {
          var k :| 0 <= k < |priority[1..]| && priority[1..][k] == r.value.path
                   && HasMessage(errorMap, priority[1..][k]) && r.value.message == errorMap[priority[1..][k]]
                   && forall j :: 0 <= j < k ==> !HasMessage(errorMap, priority[1..][j]);
          assert priority[k + 1] == priority[1..][k];
          forall j | 0 <= j < k + 1 ensures !HasMessage(errorMap, priority[j]) {
            if j > 0 { assert priority[j] == priority[1..][j - 1]; }
          }
        }
      }
      assert r.None? <==> forall k :: 0 <= k < |priority| ==> !HasMessage(errorMap, priority[k]) by {
        assert forall k :: 1 <= k < |priority| ==> priority[k] == priority[1..][k - 1];
      }
      r
  }

  /** The priority loop with its `break`. */
  method PickByPriority(priority: seq<string>, errorMap: map<string, string>) returns (shown: Option<FieldError>)
    ensures shown == FirstByPriority(priority, errorMap)
  {
    shown := None;
    var i := 0;
    while i < |priority|
      invariant 0 <= i <= |priority|
      invariant FirstByPriority(priority, errorMap) == FirstByPriority(priority[i..], errorMap)
    {
      if HasMessage(errorMap, priority[i]) {
        shown := Some(FieldError(priority[i], errorMap[priority[i]]));
        break;
      }
      assert priority[i..][1..] == priority[i + 1..];
      i := i + 1;
    }
  }

  /** The field error an auth page shows after a validation failure:
      the picked field, or the cleared value when no priority field has a message. */
  function ShownError(priority: seq<string>, inner: seq<FieldError>): FieldError {
    match FirstByPriority(priority, FirstMessageMap(inner))
    case Some(e) => e
    case None => NoFieldError
  }

  /** Priority selection, stated on the reported list itself: the shown field
      is the first priority field that has a non-empty message in the list,
      and its message is the first such message for it; when no priority
      field has one, nothing is shown. */
  lemma ShownErrorFromReport(priority: seq<string>, inner: seq<FieldError>)
    ensures var shown := ShownError(priority, inner);
            (shown == NoFieldError <==>
               forall k :: 0 <= k < |priority| ==> FirstTruthyMessage(inner, priority[k]) == "")
            && (shown != NoFieldError ==>
                  exists k :: 0 <= k < |priority| && priority[k] == shown.path
                              && shown.message == FirstTruthyMessage(inner, priority[k]) != ""
                              && forall j :: 0 <= j < k ==> FirstTruthyMessage(inner, priority[j]) == "")
  {
    var m := FirstMessageMap(inner);
    forall p ensures HasMessage(m, p) <==> FirstTruthyMessage(inner, p) != "" {
      if FirstTruthyMessage(inner, p) != "" {
        var i :| 0 <= i < |inner| && inner[i].path == p && inner[i].message == FirstTruthyMessage(inner, p);
        assert p in Paths(inner);
      }
    }
  }

  // ---------------------------------------------------------------------
  // Last message per path: `formErrors[error.path] = error.message`
  // ---------------------------------------------------------------------

  /** The message of the last error reported for `path` ("" if there is none). */
  function LastMessage(inner: seq<FieldError>, path: string): (r: string)
    ensures path in Paths(inner) ==>
              exists i :: 0 <= i < |inner| && inner[i].path == path && inner[i].message == r
                          && forall j :: i < j < |inner| ==> inner[j].path != path
  {
    if inner == [] then ""
    else
      var n := |inner| - 1;
      if inner[n].path == path then inner[n].message
      else
        var r := LastMessage(inner[..n], path);
        assert path in Paths(inner) ==> path in Paths(inner[..n]) by {
          if path in Paths(inner) {
            var i :| 0 <= i < |inner| && inner[i].path == path;
            assert inner[..n][i] == inner[i];
          }
        }
        r
  }

  /** The reference definition of `formErrors` after the `forEach`. */
  function LastMessageMap(inner: seq<FieldError>): map<string, string> {
    map p | p in Paths(inner) :: LastMessage(inner, p)
  }

  /** The `forEach` that fills `formErrors`. */
  method CollectLastMessages(inner: seq<FieldError>) returns (formErrors: map<string, string>)
    ensures formErrors == LastMessageMap(inner)
  {
    formErrors := map[];
    var i := 0;
    while i < |inner|
      invariant 0 <= i <= |inner|
      invariant formErrors == LastMessageMap(inner[..i])
    {
      var e := inner[i];
      formErrors := formErrors[e.path := e.message];
      assert inner[..i + 1] == inner[..i] + [e];
      assert inner[..i + 1][..i] == inner[..i];
      PathsSnoc(inner[..i], e);
      i := i + 1;
    }
    assert inner[..i] == inner;
  }

  /** The keys of the article error map are exactly the reported paths, and
      a later report for the same path replaces an earlier one. */
  lemma LastMessageMapAppend(inner: seq<FieldError>, e: FieldError)
    ensures LastMessageMap(inner + [e]) == LastMessageMap(inner)[e.path := e.message]
    ensures LastMessageMap(inner + [e]).Keys == LastMessageMap(inner).Keys + {e.path}
  {
    PathsSnoc(inner, e);
    assert (inner + [e])[..|inner|] == inner;
  }

  // ---------------------------------------------------------------------
  // One toast per error, in the order reported
  // ---------------------------------------------------------------------

  function ErrorToasts(inner: seq<FieldError>): (toasts: seq<Toast>)
    ensures |toasts| == |inner|
    ensures forall i :: 0 <= i < |inner| ==> toasts[i] == ErrorToast(inner[i].message)
  {
    if inner == [] then [] else [ErrorToast(inner[0].message)] + ErrorToasts(inner[1..])
  }

  lemma ErrorToastsSnoc(inner: seq<FieldError>, e: FieldError)
    ensures ErrorToasts(inner + [e]) == ErrorToasts(inner) + [ErrorToast(e.message)]
  {
    var l, r := ErrorToasts(inner + [e]), ErrorToasts(inner) + [ErrorToast(e.message)];
    forall i | 0 <= i < |l| ensures l[i] == r[i] {
      if i < |inner| { assert (inner + [e])[i] == inner[i]; }
    }
  }
}

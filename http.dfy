/** What the pages receive from the REST API. Requests are not modelled: a
    call's outcome is an input. An absent `message` or `error` of a reply
    body is written "": both are falsy, so `a || b` gives the same result,
    and a toast of an absent message is taken to show the same empty text
    as a toast of "". An absent `token` or `user` is `None`, since the pages
    store them and `undefined` is stored as a text of its own. */
module Http {
  import opened Common

  /** The fields of a reply body the pages read. `user` is the profile in the
      serialised form the session store persists. */
  datatype ReplyData = ReplyData(message: string, error: string, token: Option<string>, user: Option<string>)

  datatype Reply = Reply(status: nat, data: ReplyData)

  /** How an awaited request ends: the promise resolves with a reply, or it
      rejects with an error that may carry the server's reply
      (`err.response`) and always carries a text (`err.message`). */
  datatype Outcome =
    | Resolved(reply: Reply)
    | Rejected(response: Option<Reply>, errMessage: string)

  /** One entry of a multipart (`FormData`) body: a text value, or a file
      known by its name. */
  datatype Part = Text(text: string) | Blob(fileName: string)
  datatype Entry = Entry(name: string, part: Part)

  /** `FormData.append(name, value)` on a form's file slot: a file is sent as
      a file; any other value is converted to its text. */
  function SlotPart(slot: FileSlot): (part: Part)
    ensures slot.File? <==> part.Blob?
    ensures slot.File? ==> part.fileName == slot.name
    ensures slot == Null ==> part == Text("null")
    ensures slot == Undefined ==> part == Text("undefined")
  {
    match slot
    case Null => Text("null")
    case Undefined => Text("undefined")
    case File(name) => Blob(name)
  }

  /** `data?.message || data?.error || \`Error: ${status}\`` */
  function BackendErrorText(reply: Reply): (text: string)
    ensures Truthy(text)
    ensures Truthy(reply.data.message) ==> text == reply.data.message
    ensures !Truthy(reply.data.message) && Truthy(reply.data.error) ==> text == reply.data.error
    ensures !Truthy(reply.data.message) && !Truthy(reply.data.error) ==>
              text == "Error: " + DecimalText(reply.status)
  {
    OrElse(reply.data.message, OrElse(reply.data.error, "Error: " + DecimalText(reply.status)))
  }
}

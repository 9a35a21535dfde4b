/** The Microsoft Graph SDK objects the core builds, as plain values; each setter call
    of the source fills one optional field. The directory lookup (`Users().ByUserId`) and
    the send (`SendMail().Post`) are collaborators passed in as functions. */
module Graph {
  import opened Wrappers
  import opened Octets

  /** A resolved `users/{id}` request builder. */
  datatype Handle = Handle(userId: string)

  /** `Recipient` holding an `EmailAddress` whose address is set. */
  datatype Recipient = Recipient(address: string)

  /** `ItemBody`; `content` is None until `SetContent` is called. */
  datatype ItemBody = ItemBody(content: Option<string>)

  /** `FileAttachment` with name, content type and content bytes set. */
  datatype FileAttachment = FileAttachment(name: string, contentType: string, contentBytes: Bytes)

  /** `Message`; a field is None until its setter is called. */
  datatype Message = Message(
    subject: Option<string>,
    body: Option<ItemBody>,
    from: Option<Recipient>,
    toRecipients: Option<seq<Recipient>>,
    ccRecipients: Option<seq<Recipient>>,
    bccRecipients: Option<seq<Recipient>>,
    attachments: Option<seq<FileAttachment>>)

  /** `models.NewMessage()`. */
  const NewMessage := Message(None, None, None, None, None, None, None)

  /** `ItemSendMailPostRequestBody`. */
  datatype SendMailRequest = SendMailRequest(message: Option<Message>, saveToSentItems: Option<bool>)

  /** `users.NewItemSendMailPostRequestBody()`. */
  const NewSendMailRequest := SendMailRequest(None, None)

  /** `Users().ByUserId(id)`: None where the source sees a nil builder. */
  type Directory = string -> Option<Handle>

  /** `SendMail().Post(ctx, body, nil)`: None on success, else the error's text. */
  type Post = (Handle, SendMailRequest) -> Option<string>

  /** One recipient per address, in order. */
  function RecipientsOf(addresses: seq<string>): (r: seq<Recipient>)
    ensures |r| == |addresses|
    ensures forall i :: 0 <= i < |r| ==> r[i] == Recipient(addresses[i])
  {
    if addresses == [] then [] else [Recipient(addresses[0])] + RecipientsOf(addresses[1..])
  }
}

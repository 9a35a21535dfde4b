/** The SMTP session callbacks of `pkg/graphserver` (session.go) and the backend that
    mints sessions (backend.go). */
module GraphServer {
  import opened Wrappers
  import opened Octets
  import opened Strings
  import opened Mime
  import opened Graph
  import AddressList
  import Base64
  import Attachments

  /** The errors the callbacks return. */
  datatype Error =
    | ClientNotInitialised     // "graph client not initialised"
    | UserNotFound             // "user not found"
    | InvalidCredentials       // "invalid username or password"
    | MessageUnreadable        // mail.ReadMessage failed
    | NilUser                  // Data with no resolved user: the source dereferences nil here
    | SendFailed(detail: string)

  /** What Data returns for the outcome of the post. */
  function SendResult(outcome: Option<string>): (err: Option<Error>)
    ensures err.None? <==> outcome.None?
    ensures outcome.Some? ==> err == Some(SendFailed(outcome.value))
  {
    match outcome
    case None => None
    case Some(detail) => Some(SendFailed(detail))
  }

  /** `parseAddressList` of session.go: the empty header gives no recipient; otherwise
      one recipient per comma-separated piece, trimmed, in order. */
  method ParseAddressList(addresses: string) returns (recipients: seq<Recipient>)
    ensures recipients == RecipientsOf(AddressList.Parse(addresses))
  {
    recipients := [];
    if addresses == "" {
      return;
    }
    var list := AddressList.Split(addresses);
    ghost var trimmed := AddressList.TrimEach(list);
    for i := 0 to |list|
      invariant |recipients| == i
      invariant forall k :: 0 <= k < i ==> recipients[k] == Recipient(trimmed[k])
    {
      var address := TrimSpace(list[i]);
      assert address == trimmed[i];
      recipients := recipients + [Recipient(address)];
    }
    assert AddressList.Parse(addresses) == trimmed;
    ghost var expected := RecipientsOf(trimmed);
    assert forall k :: 0 <= k < |list| ==> recipients[k] == expected[k];
  }

  /** The body of the loop in `parseAttachments`: read the part, undo its transfer
      encoding, re-encode the result as base64 and build the file attachment. */
  method ConvertPart(part: Part, qp: Bytes -> Option<Bytes>) returns (r: Result<FileAttachment, Attachments.Failure>)
    ensures r == Attachments.ToAttachment(part, qp)
  {
    if part.readFailed {
      return Failure(Attachments.ReadFailed);
    }
    var cte := ToUpper(Get(part.header, "Content-Transfer-Encoding"));
    var decoded: Bytes;
    if cte == "BASE64" {
      var d := Base64.Decode(part.data);
      if d.None? {
        return Failure(Attachments.Base64Corrupt);
      }
      decoded := d.value;
    } else if cte == "QUOTED-PRINTABLE" {
      var d := qp(part.data);
      if d.None? {
        return Failure(Attachments.QuotedPrintableInvalid);
      }
      decoded := d.value;
    } else {
      decoded := part.data;
    }
    // encode to base64
    var dst := Base64.Encode(decoded);
    r := Success(FileAttachment(part.fileName, Get(part.header, "Content-Type"), dst));
  }

  /** `parseAttachments` of session.go, with the message given as its header and the
      bytes its body reader still holds. On an error the attachments built so far are
      returned with it, as the source does. */
  method ParseAttachments(header: Header, body: Bytes, lib: Library)
    returns (attachments: seq<FileAttachment>, err: Option<Attachments.Failure>)
    ensures Attachments.Scan(attachments, err) == Attachments.ParseAttachments(header, body, lib)
  {
    attachments := [];
    var mediaType := lib.parseMediaType(Get(header, "Content-Type"));
    if mediaType.None? {
      return attachments, Some(Attachments.MediaTypeInvalid);
    }
    if !HasPrefix(mediaType.value.mediaType, "multipart/") {
      return attachments, None;
    }
    var reader := lib.multipart(body, Boundary(mediaType.value));
    var parts, qp := reader.parts, lib.quotedPrintable;
    ghost var whole := Attachments.ScanParts(parts, reader.ending, qp);
    var i := 0;
    while true
      invariant 0 <= i <= |parts|
      invariant whole == Attachments.Scan(attachments + Attachments.ScanParts(parts[i..], reader.ending, qp).attachments,
                                          Attachments.ScanParts(parts[i..], reader.ending, qp).err)
      decreases |parts| - i
    {
      if i == |parts| {
        // NextPart reports how the stream ends
        if reader.ending == AtEof {
          break;
        }
        return attachments, Some(Attachments.NextPartError);
      }
      var part := parts[i];
      assert parts[i..][0] == part && parts[i..][1..] == parts[i + 1..];
      Attachments.ScanStep(parts[i..], reader.ending, qp);
      var converted := ConvertPart(part, qp);
      if converted.Failure? {
        return attachments, Some(converted.error);
      }
      ghost var rest := Attachments.ScanParts(parts[i + 1..], reader.ending, qp).attachments;
      assert (attachments + [converted.value]) + rest == attachments + ([converted.value] + rest);
      attachments := attachments + [converted.value];
      i := i + 1;
    }
    assert parts[i..] == [];
    return attachments, None;
  }

  /** The sendMail request Data posts for a parsed message: the body is the whole rest
      of the message, the subject and the To/Cc/Bcc lists come from the header (each list
      set, even when empty), From is the session's `from`, and the attachments are set
      exactly when the scan returned no error and at least one attachment. */
  predicate Relayed(request: SendMailRequest, from: string, msg: MailMessage, scan: Attachments.Scan) {
    && request.saveToSentItems.None?
    && request.message.Some?
    && var m := request.message.value;
    && m.subject == Some(Get(msg.header, "Subject"))
    && m.body == Some(ItemBody(Some(AsString(msg.body))))
    && m.toRecipients == Some(RecipientsOf(AddressList.Parse(Get(msg.header, "To"))))
    && m.ccRecipients == Some(RecipientsOf(AddressList.Parse(Get(msg.header, "Cc"))))
    && m.bccRecipients == Some(RecipientsOf(AddressList.Parse(Get(msg.header, "Bcc"))))
    && m.from == Some(Recipient(from))
    && (m.attachments.Some? <==> scan.err.None? && scan.attachments != [])
    && (m.attachments.Some? ==> m.attachments.value == scan.attachments)
  }

  /** Without a resolved user nothing is posted; with one, the request described by
      Relayed is posted and Data returns the post's result. */
  predicate Delivered(posted: Option<SendMailRequest>, err: Option<Error>, from: string, user: Option<Handle>,
                      msg: MailMessage, scan: Attachments.Scan, post: Post)
  {
    && (user.None? ==> posted == None && err == Some(NilUser))
    && (user.Some? ==> posted.Some? && Relayed(posted.value, from, msg, scan)
                       && err == SendResult(post(user.value, posted.value)))
  }

  /** The fixed credential check of the PLAIN server that Auth hands out. */
  function CheckCredentials(identity: string, username: string, password: string): (err: Option<Error>)
    ensures err.None? <==> username == "username" && password == "password"
    ensures err.Some? ==> err.value == InvalidCredentials
  {
    if username != "username" || password != "password" then Some(InvalidCredentials) else None
  }

  /** The identity a client asks to act as plays no part in the check. */
  lemma CredentialsIgnoreIdentity(identity: string, other: string, username: string, password: string)
    ensures CheckCredentials(identity, username, password) == CheckCredentials(other, username, password)
  {
  }

  /** The SASL PLAIN server, reduced to its credential validator. */
  datatype PlainServer = PlainServer(validate: (string, string, string) -> Option<Error>)

  /** One SMTP connection's state. `clientPresent` says whether the Graph client field
      is non-nil. */
  class Session {
    var from: string
    var user: Option<Handle>
    var clientPresent: bool

    /** `&Session{...}` with the given fields. */
    constructor (from: string, user: Option<Handle>, clientPresent: bool)
      ensures this.from == from && this.user == user && this.clientPresent == clientPresent
    {
      this.from := from;
      this.user := user;
      this.clientPresent := clientPresent;
    }

    /** No SASL mechanism is advertised. */
    function AuthMechanisms(): (mechanisms: seq<string>)
      ensures |mechanisms| == 0
    {
      []
    }

    /** Auth never fails and hands out a PLAIN server that accepts exactly the fixed
        credentials, for any mechanism name and any identity. */
    function Auth(mech: string): (server: Result<PlainServer, Error>)
      ensures server.Success?
      ensures forall identity, username, password ::
        server.value.validate(identity, username, password).None? <==> username == "username" && password == "password"
    {
      Success(PlainServer((identity, username, password) => CheckCredentials(identity, username, password)))
    }

    /** MAIL FROM: without a Graph client it fails and changes nothing; when the
        directory resolves the address it records the user and succeeds, leaving `from`
        as it was; otherwise it records the address in `from` and fails. */
    method Mail(from: string, directory: Directory) returns (err: Option<Error>)
      modifies this
      ensures clientPresent == old(clientPresent)
      ensures !clientPresent ==> err == Some(ClientNotInitialised) && this.from == old(this.from) && user == old(user)
      ensures clientPresent && directory(from).Some? ==>
        err == None && user == directory(from) && this.from == old(this.from)
      ensures clientPresent && directory(from).None? ==>
        err == Some(UserNotFound) && this.from == from && user == old(user)
    {
      if !clientPresent {
        return Some(ClientNotInitialised);
      }
      var u := directory(from);
      if u.Some? {
        user := u;
        return None;
      }
      this.from := from;
      return Some(UserNotFound);
    }

    /** RCPT TO always succeeds; the recipient is only logged. */
    method Rcpt(to: string) returns (err: Option<Error>)
      ensures err == None
    {
      err := None;
    }

    /** Builds the message from a parsed mail and posts it; `multipartBody` is what the
        multipart reader gets to read. */
    method Relay(msg: MailMessage, multipartBody: Bytes, lib: Library, post: Post)
      returns (posted: Option<SendMailRequest>, err: Option<Error>)
      ensures Delivered(posted, err, from, user, msg, Attachments.ParseAttachments(msg.header, multipartBody, lib), post)
    {
      var body := ItemBody(Some(AsString(msg.body)));
      var header := msg.header;
      var subject := Get(header, "Subject");

      // build the message
      var message := NewMessage;
      message := message.(body := Some(body));
      message := message.(subject := Some(subject));
      var to := ParseAddressList(Get(header, "To"));
      message := message.(toRecipients := Some(to));
      var cc := ParseAddressList(Get(header, "Cc"));
      message := message.(ccRecipients := Some(cc));
      var bcc := ParseAddressList(Get(header, "Bcc"));
      message := message.(bccRecipients := Some(bcc));
      message := message.(from := Some(Recipient(from)));

      // handle any attachments
      var attachments, attachErr := ParseAttachments(header, multipartBody, lib);
      if attachErr.None? && |attachments| > 0 {
        message := message.(attachments := Some(attachments));
      }

      var request := NewSendMailRequest.(message := Some(message));
      if user.None? {
        return None, Some(NilUser);
      }
      posted := Some(request);
      err := SendResult(post(user.value, request));
    }

    /** DATA as written: a message that does not parse is refused before anything is
        sent; otherwise the whole body is read into the message body first, so the
        multipart reader that looks for attachments is left an exhausted stream. */
    method Data(raw: Bytes, lib: Library, post: Post) returns (posted: Option<SendMailRequest>, err: Option<Error>)
      ensures lib.readMessage(raw).None? ==> posted == None && err == Some(MessageUnreadable)
      ensures lib.readMessage(raw).Some? ==>
        Delivered(posted, err, from, user, lib.readMessage(raw).value,
                  Attachments.ParseAttachments(lib.readMessage(raw).value.header, [], lib), post)
    {
      var parsed := lib.readMessage(raw);
      if parsed.None? {
        return None, Some(MessageUnreadable);
      }
      var msg := parsed.value;
      // reading the body to its end leaves nothing for the multipart reader
      var remaining: Bytes := [];
      posted, err := Relay(msg, remaining, lib, post);
    }

    /** DATA with the body handed to the multipart reader as well, so that the
        attachments of a multipart message are forwarded. */
    method DataFixed(raw: Bytes, lib: Library, post: Post) returns (posted: Option<SendMailRequest>, err: Option<Error>)
      ensures lib.readMessage(raw).None? ==> posted == None && err == Some(MessageUnreadable)
      ensures lib.readMessage(raw).Some? ==>
        Delivered(posted, err, from, user, lib.readMessage(raw).value,
                  Attachments.ParseAttachments(lib.readMessage(raw).value.header, lib.readMessage(raw).value.body, lib), post)
    {
      var parsed := lib.readMessage(raw);
      if parsed.None? {
        return None, Some(MessageUnreadable);
      }
      var msg := parsed.value;
      posted, err := Relay(msg, msg.body, lib, post);
    }

    /** RSET does nothing. */
    method Reset()
      ensures unchanged(this)
    {
    }

    /** QUIT always succeeds. */
    method Logout() returns (err: Option<Error>)
      ensures err == None
    {
      err := None;
    }
  }

  /** The backend holds the app registration's credentials. */
  datatype Backend = Backend(clientId: string, tenantId: string, secret: string) {

    /** Every connection gets a zero-valued session: empty `from`, no user and no Graph
        client; it never fails. */
    method NewSession() returns (s: Session, err: Option<Error>)
      ensures fresh(s)
      ensures s.from == "" && s.user == None && !s.clientPresent
      ensures err == None
    {
      s := new Session("", None, false);
      err := None;
    }
  }

  /** Stores the three credentials as given, blank ones included. */
  function NewGraphBackend(clientId: string, tenantId: string, secret: string): (b: Backend)
    ensures b.clientId == clientId && b.tenantId == tenantId && b.secret == secret
  {
    Backend(clientId, tenantId, secret)
  }

  /** A session minted by NewSession has no Graph client, so MAIL FROM always fails on
      it, whatever the address and the directory. */
  method MailOnNewSession(b: Backend, from: string, directory: Directory) returns (err: Option<Error>)
    ensures err == Some(ClientNotInitialised)
  {
    var s, _ := b.NewSession();
    err := s.Mail(from, directory);
  }

  /** When MAIL FROM is first refused for an unknown address and then accepted for
      another, the session keeps the refused address as `from`, so Data would send the
      message From the refused address through the accepted user's mailbox. */
  method RetriedMail(first: string, second: string, directory: Directory)
    returns (from: string, user: Option<Handle>, err1: Option<Error>, err2: Option<Error>)
    requires directory(first).None? && directory(second).Some?
    ensures err1 == Some(UserNotFound) && err2 == None
    ensures from == first && user == directory(second)
  {
    var s := new Session("", None, true);
    err1 := s.Mail(first, directory);
    err2 := s.Mail(second, directory);
    from, user := s.from, s.user;
  }

  /** As written, Data never attaches anything: the multipart reader gets the drained
      body, and a reader over an empty stream finds no part. */
  method DataDropsAttachments(s: Session, raw: Bytes, lib: Library, post: Post)
    returns (posted: Option<SendMailRequest>, err: Option<Error>)
    requires forall b :: lib.multipart([], b).parts == []
    ensures posted.Some? ==> posted.value.message.Some? && posted.value.message.value.attachments.None?
  {
    posted, err := s.Data(raw, lib, post);
    if lib.readMessage(raw).Some? {
      Attachments.DrainedBodyHasNoAttachments(lib.readMessage(raw).value.header, lib);
    }
  }

  /** With the corrected Data, a multipart message whose one part is a readable base64
      part in canonical form (line wrapping aside) is forwarded with one attachment
      carrying the part's file name, its Content-Type and that base64 text unwrapped. */
  method DataFixedForwardsAttachment(s: Session, raw: Bytes, lib: Library, post: Post, part: Part, decoded: Bytes)
    returns (posted: Option<SendMailRequest>, err: Option<Error>)
    requires s.user.Some? && lib.readMessage(raw).Some?
    requires var msg := lib.readMessage(raw).value;
      && lib.parseMediaType(Get(msg.header, "Content-Type")).Some?
      && var mt := lib.parseMediaType(Get(msg.header, "Content-Type")).value;
      && HasPrefix(mt.mediaType, "multipart/")
      && lib.multipart(msg.body, Boundary(mt)) == PartStream([part], AtEof)
    requires !part.readFailed && Base64.StripLineBreaks(part.data) == Base64.Encode(decoded)
    requires EqualFold(Get(part.header, "Content-Transfer-Encoding"), "BASE64")
    ensures posted.Some? && posted.value.message.Some?
    ensures posted.value.message.value.attachments ==
      Some([FileAttachment(part.fileName, Get(part.header, "Content-Type"), Base64.StripLineBreaks(part.data))])
  {
    posted, err := s.DataFixed(raw, lib, post);
    var msg := lib.readMessage(raw).value;
    var attachment := FileAttachment(part.fileName, Get(part.header, "Content-Type"), Base64.StripLineBreaks(part.data));
    Attachments.Base64PartRoundTrip(part, lib.quotedPrintable, decoded);
    assert Attachments.ScanParts([part][1..], AtEof, lib.quotedPrintable) == Attachments.Scan([], None);
    assert Attachments.ScanParts([part], AtEof, lib.quotedPrintable) == Attachments.Scan([attachment], None);
    assert Attachments.ParseAttachments(msg.header, msg.body, lib) == Attachments.Scan([attachment], None);
  }
}

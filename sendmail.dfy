/** The outbound message builder of `pkg/sendmail` (sendmail.go and options.go). The two
    files come from different revisions: options.go assigns `cc`, `bcc`, `body` (a string),
    `attachments` and `saveToSentItems`, none of which sendmail.go's Message declares.
    Message here carries the union: sendmail.go's builders (its `body *ItemBody` is
    `itemBody`) and the fields the options assign. */
module SendMail {
  import opened Wrappers
  import opened Octets
  import opened Strings
  import Graph
  import AddressList

  /** `parsemail.Attachment`: file name, content type and content. */
  datatype SourceAttachment = SourceAttachment(filename: string, contentType: string, data: Bytes)

  /** A `MessageOption` closure, named by the constructor that made it. */
  datatype MessageOption =
    | WithCc(cc: string)
    | WithBcc(bcc: string)
    | WithBody(body: string)
    | WithAttachments(attachments: seq<SourceAttachment>)
    | WithSaveToSentItems(save: bool)

  /** The fields the options assign. */
  datatype Options = Options(cc: string, bcc: string, body: string,
                             attachments: seq<SourceAttachment>, saveToSentItems: bool)

  /** Their Go zero values, as `new(Message)` leaves them. */
  const ZeroOptions := Options("", "", "", [], false)

  /** What running one option does to the fields: a plain assignment of its argument. */
  function Applied(f: Options, o: MessageOption): Options {
    match o
    case WithCc(cc) => f.(cc := cc)
    case WithBcc(bcc) => f.(bcc := bcc)
    case WithBody(body) => f.(body := body)
    case WithAttachments(attachments) => f.(attachments := attachments)
    case WithSaveToSentItems(save) => f.(saveToSentItems := save)
  }

  /** Running the options in the order given. */
  function AppliedAll(f: Options, opts: seq<MessageOption>): Options
    decreases |opts|
  {
    if opts == [] then f else Applied(AppliedAll(f, opts[..|opts| - 1]), opts[|opts| - 1])
  }

  /** The names of the fields, and a field's content, to speak of one field at a time. */
  datatype Field = Cc | Bcc | Body | Attachments | SaveToSentItems

  datatype FieldValue = Text(text: string) | Files(files: seq<SourceAttachment>) | Flag(flag: bool)

  function FieldOf(f: Options, k: Field): FieldValue {
    match k
    case Cc => Text(f.cc)
    case Bcc => Text(f.bcc)
    case Body => Text(f.body)
    case Attachments => Files(f.attachments)
    case SaveToSentItems => Flag(f.saveToSentItems)
  }

  /** The field an option assigns, and the value it assigns there. */
  function Target(o: MessageOption): Field {
    match o
    case WithCc(_) => Cc
    case WithBcc(_) => Bcc
    case WithBody(_) => Body
    case WithAttachments(_) => Attachments
    case WithSaveToSentItems(_) => SaveToSentItems
  }

  function ValueOf(o: MessageOption): FieldValue {
    match o
    case WithCc(cc) => Text(cc)
    case WithBcc(bcc) => Text(bcc)
    case WithBody(body) => Text(body)
    case WithAttachments(attachments) => Files(attachments)
    case WithSaveToSentItems(save) => Flag(save)
  }

  /** The last option in `opts` that targets field `k`, if any. */
  function LastFor(opts: seq<MessageOption>, k: Field): Option<MessageOption>
    decreases |opts|
  {
    if opts == [] then None
    else if Target(opts[|opts| - 1]) == k then Some(opts[|opts| - 1])
    else LastFor(opts[..|opts| - 1], k)
  }

  /** An option stores its argument, unparsed, in its own field and leaves every other
      field as it was. */
  lemma AppliedChangesOnlyTarget(f: Options, o: MessageOption, k: Field)
    ensures FieldOf(Applied(f, o), k) == if k == Target(o) then ValueOf(o) else FieldOf(f, k)
  {
  }

  /** Two options for the same field: the later one's value stays. */
  lemma LastWriteWins(f: Options, first: MessageOption, second: MessageOption)
    requires Target(first) == Target(second)
    ensures Applied(Applied(f, first), second) == Applied(f, second)
  {
  }

  /** Options for different fields can be given in either order. */
  lemma DifferentFieldsCommute(f: Options, a: MessageOption, b: MessageOption)
    requires Target(a) != Target(b)
    ensures Applied(Applied(f, a), b) == Applied(Applied(f, b), a)
  {
  }

  /** After a list of options, each field holds the value of the last option that
      targets it, or its initial value when no option does. */
  lemma {:induction false} AppliedAllKeepsLast(f: Options, opts: seq<MessageOption>, k: Field)
    ensures FieldOf(AppliedAll(f, opts), k) ==
      match LastFor(opts, k)
      case Some(o) => ValueOf(o)
      case None => FieldOf(f, k)
    decreases |opts|
  {
    if opts != [] {
      var init, last := opts[..|opts| - 1], opts[|opts| - 1];
      AppliedAllKeepsLast(f, init, k);
      AppliedChangesOnlyTarget(AppliedAll(f, init), last, k);
    }
  }

  /** `parseAddressList` of sendmail.go, the same code as the copy in session.go. */
  method ParseAddressList(addresses: string) returns (recipients: seq<Graph.Recipient>)
    ensures recipients == Graph.RecipientsOf(AddressList.Parse(addresses))
  {
    recipients := [];
    if addresses == "" {
      return;
    }
    var list := AddressList.Split(addresses);
    ghost var trimmed := AddressList.TrimEach(list);
    for i := 0 to |list|
      invariant |recipients| == i
      invariant forall k :: 0 <= k < i ==> recipients[k] == Graph.Recipient(trimmed[k])
    {
      var address := TrimSpace(list[i]);
      assert address == trimmed[i];
      recipients := recipients + [Graph.Recipient(address)];
    }
    assert AddressList.Parse(addresses) == trimmed;
    ghost var expected := Graph.RecipientsOf(trimmed);
    assert forall k :: 0 <= k < |list| ==> recipients[k] == expected[k];
  }

  /** The Graph message NewMessage builds after the options have run: subject, the
      (content-less) item body and From always set, To set only when the address list
      has at least one entry, nothing else set. */
  function Envelope(from: string, to: string, subject: string): (m: Graph.Message)
    ensures m.subject == Some(subject) && m.from == Some(Graph.Recipient(from))
    ensures m.body == Some(Graph.ItemBody(None))
    ensures m.toRecipients.Some? <==> to != ""
    ensures m.toRecipients.Some? ==> m.toRecipients.value == Graph.RecipientsOf(AddressList.Parse(to))
    ensures m.ccRecipients.None? && m.bccRecipients.None? && m.attachments.None?
  {
    var addrs := AddressList.Parse(to);
    Graph.NewMessage.(subject := Some(subject), body := Some(Graph.ItemBody(None)),
                      from := Some(Graph.Recipient(from)),
                      toRecipients := if |addrs| > 0 then Some(Graph.RecipientsOf(addrs)) else None)
  }

  /** A message being built, with its Graph message and sendMail request body. */
  class Message {
    var itemBody: Graph.ItemBody
    var message: Graph.Message
    var requestBody: Graph.SendMailRequest
    var cc: string
    var bcc: string
    var body: string
    var attachments: seq<SourceAttachment>
    var saveToSentItems: bool

    /** The fields the options assign. */
    function Fields(): Options
      reads this
    {
      Options(cc, bcc, body, attachments, saveToSentItems)
    }

    /** `new(Message)` followed by the three fresh builders. */
    constructor ()
      ensures Fields() == ZeroOptions
      ensures itemBody == Graph.ItemBody(None) && message == Graph.NewMessage
      ensures requestBody == Graph.NewSendMailRequest
    {
      itemBody := Graph.ItemBody(None);
      message := Graph.NewMessage;
      requestBody := Graph.NewSendMailRequest;
      cc, bcc, body, attachments, saveToSentItems := "", "", "", [], false;
    }

    /** Runs one option `o(m)`: it assigns its own field and nothing else. */
    method Apply(o: MessageOption)
      modifies this
      ensures Fields() == Applied(old(Fields()), o)
      ensures itemBody == old(itemBody) && message == old(message) && requestBody == old(requestBody)
    {
      match o
      case WithCc(x) => cc := x;
      case WithBcc(x) => bcc := x;
      case WithBody(x) => body := x;
      case WithAttachments(x) => attachments := x;
      case WithSaveToSentItems(x) => saveToSentItems := x;
    }

    /** Puts the built message into the request body, posts it as `user` and returns
        the post's result; nothing else changes. */
    method Send(user: Graph.Handle, post: Graph.Post) returns (err: Option<string>)
      modifies this
      ensures requestBody == old(requestBody).(message := Some(message))
      ensures err == post(user, requestBody)
      ensures Fields() == old(Fields()) && message == old(message) && itemBody == old(itemBody)
    {
      requestBody := requestBody.(message := Some(message));
      err := post(user, requestBody);
    }
  }

  /** NewMessage runs every option, in order, and only then sets subject, body, From
      and To, so no option affects those: the Graph message is the Envelope of `from`,
      `to` and `subject` alone, while the option fields end as the options left them. */
  method NewMessage(from: string, to: string, subject: string, opts: seq<MessageOption>) returns (m: Message)
    ensures fresh(m)
    ensures m.Fields() == AppliedAll(ZeroOptions, opts)
    ensures m.message == Envelope(from, to, subject)
    ensures m.requestBody == Graph.NewSendMailRequest
  {
    m := new Message();

    // apply options
    for i := 0 to |opts|
      invariant m.Fields() == AppliedAll(ZeroOptions, opts[..i])
      invariant m.itemBody == Graph.ItemBody(None) && m.message == Graph.NewMessage
      invariant m.requestBody == Graph.NewSendMailRequest
    {
      assert opts[..i + 1][..i] == opts[..i];
      m.Apply(opts[i]);
    }
    assert opts[..|opts|] == opts;

    // set subject and message body
    m.message := m.message.(subject := Some(subject));
    m.message := m.message.(body := Some(m.itemBody));

    // add sender/from
    m.message := m.message.(from := Some(Graph.Recipient(from)));

    // set recipients
    var addrs := ParseAddressList(to);
    if |addrs| > 0 {
      m.message := m.message.(toRecipients := Some(addrs));
    }
  }

  /** Building with options and sending: the posted request holds exactly the Envelope,
      whatever the options were, and the result is the post's. */
  method BuildAndSend(from: string, to: string, subject: string, opts: seq<MessageOption>,
                      user: Graph.Handle, post: Graph.Post)
    returns (request: Graph.SendMailRequest, err: Option<string>)
    ensures request == Graph.SendMailRequest(Some(Envelope(from, to, subject)), None)
    ensures err == post(user, request)
  {
    var m := NewMessage(from, to, subject, opts);
    err := m.Send(user, post);
    request := m.requestBody;
  }
}

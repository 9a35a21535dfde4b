/** What `parseAttachments` computes from a message: no attachment for a message that is
    not multipart, otherwise one file attachment per part, in part order, each holding the
    base64 encoding of the part's decoded content; the first part that cannot be read or
    decoded stops the scan with an error. */
module Attachments {
  import opened Wrappers
  import opened Octets
  import opened Strings
  import opened Mime
  import Base64
  import opened Graph

  /** The errors `parseAttachments` can return. */
  datatype Failure =
    | MediaTypeInvalid        // mime.ParseMediaType failed
    | NextPartError           // NextPart failed with an error other than io.EOF
    | ReadFailed              // io.ReadAll of a part failed
    | Base64Corrupt           // the part claims base64 but is not valid base64
    | QuotedPrintableInvalid  // the part claims quoted-printable but does not decode

  /** The part's Content-Transfer-Encoding, upper-cased (ASCII). */
  function TransferEncoding(p: Part): string {
    ToUpper(Get(p.header, "Content-Transfer-Encoding"))
  }

  /** The content of a part once its transfer encoding is undone (section 6 of RFC 2045):
      base64 and quoted-printable are decoded, any other or no encoding is identity. */
  function TransferDecode(p: Part, qp: Bytes -> Option<Bytes>): Result<Bytes, Failure> {
    var cte := TransferEncoding(p);
    if cte == "BASE64" then
      match Base64.Decode(p.data)
      case None => Failure(Base64Corrupt)
      case Some(d) => Success(d)
    else if cte == "QUOTED-PRINTABLE" then
      match qp(p.data)
      case None => Failure(QuotedPrintableInvalid)
      case Some(d) => Success(d)
    else Success(p.data)
  }

  /** The attachment built from one part, or why the part aborts the scan. */
  function ToAttachment(p: Part, qp: Bytes -> Option<Bytes>): Result<FileAttachment, Failure> {
    if p.readFailed then Failure(ReadFailed)
    else
      match TransferDecode(p, qp)
      case Failure(e) => Failure(e)
      case Success(d) => Success(FileAttachment(p.fileName, Get(p.header, "Content-Type"), Base64.Encode(d)))
  }

  /** The list built so far together with the error returned beside it, if any. */
  datatype Scan = Scan(attachments: seq<FileAttachment>, err: Option<Failure>)

  /** The loop over the parts: convert each in turn and stop at the first failure; after
      the last part, `io.EOF` ends the scan cleanly and any other `NextPart` error fails it. */
  function ScanParts(parts: seq<Part>, ending: Ending, qp: Bytes -> Option<Bytes>): Scan
    decreases |parts|
  {
    if parts == [] then
      (if ending == AtEof then Scan([], None) else Scan([], Some(NextPartError)))
    else
      match ToAttachment(parts[0], qp)
      case Failure(e) => Scan([], Some(e))
      case Success(a) =>
        var rest := ScanParts(parts[1..], ending, qp);
        Scan([a] + rest.attachments, rest.err)
  }

  /** One step of the scan: the first part either stops it with its failure or puts
      its attachment in front of the scan of the remaining parts. */
  lemma ScanStep(parts: seq<Part>, ending: Ending, qp: Bytes -> Option<Bytes>)
    requires parts != []
    ensures ToAttachment(parts[0], qp).Failure? ==>
      ScanParts(parts, ending, qp) == Scan([], Some(ToAttachment(parts[0], qp).error))
    ensures ToAttachment(parts[0], qp).Success? ==>
      ScanParts(parts, ending, qp) == Scan([ToAttachment(parts[0], qp).value] + ScanParts(parts[1..], ending, qp).attachments,
                                           ScanParts(parts[1..], ending, qp).err)
  {
  }

  /** `parseAttachments(msg)`, with `body` the bytes the message's body reader still holds. */
  function ParseAttachments(header: Header, body: Bytes, lib: Library): Scan {
    match lib.parseMediaType(Get(header, "Content-Type"))
    case None => Scan([], Some(MediaTypeInvalid))
    case Some(mt) =>
      if !HasPrefix(mt.mediaType, "multipart/") then Scan([], None)
      else
        var stream := lib.multipart(body, Boundary(mt));
        ScanParts(stream.parts, stream.ending, lib.quotedPrintable)
  }

  /** A Content-Type that does not parse is an error with no attachment; a media type
      outside `multipart/` means no attachment and no error. */
  lemma ParseAttachmentsNonMultipart(header: Header, body: Bytes, lib: Library)
    ensures lib.parseMediaType(Get(header, "Content-Type")).None? ==>
      ParseAttachments(header, body, lib) == Scan([], Some(MediaTypeInvalid))
    ensures var mt := lib.parseMediaType(Get(header, "Content-Type"));
      mt.Some? && !HasPrefix(mt.value.mediaType, "multipart/") ==> ParseAttachments(header, body, lib) == Scan([], None)
  {
  }

  lemma UpperLiterals()
    ensures ToUpper("BASE64") == "BASE64"
    ensures ToUpper("QUOTED-PRINTABLE") == "QUOTED-PRINTABLE"
  {
    ToUpperFixesNonLower("BASE64");
    ToUpperFixesNonLower("QUOTED-PRINTABLE");
  }

  /** Any spelling of "base64" selects the base64 decoder. */
  lemma DispatchBase64(p: Part, qp: Bytes -> Option<Bytes>)
    ensures EqualFold(Get(p.header, "Content-Transfer-Encoding"), "BASE64") ==>
      TransferDecode(p, qp) == (if Base64.Decode(p.data).Some?
                                then Success(Base64.Decode(p.data).value) else Failure(Base64Corrupt))
  {
    UpperLiterals();
    ToUpperMatchesLiteral(Get(p.header, "Content-Transfer-Encoding"), "BASE64");
  }

  /** Any spelling of "quoted-printable" selects the quoted-printable decoder. */
  lemma DispatchQuotedPrintable(p: Part, qp: Bytes -> Option<Bytes>)
    ensures EqualFold(Get(p.header, "Content-Transfer-Encoding"), "QUOTED-PRINTABLE") ==>
      TransferDecode(p, qp) == (if qp(p.data).Some?
                                then Success(qp(p.data).value) else Failure(QuotedPrintableInvalid))
  {
    var cte := Get(p.header, "Content-Transfer-Encoding");
    UpperLiterals();
    ToUpperMatchesLiteral(cte, "BASE64");
    ToUpperMatchesLiteral(cte, "QUOTED-PRINTABLE");
  }

  /** Any other value, or none, leaves the bytes as they are. */
  lemma DispatchIdentity(p: Part, qp: Bytes -> Option<Bytes>)
    ensures var cte := Get(p.header, "Content-Transfer-Encoding");
      !EqualFold(cte, "BASE64") && !EqualFold(cte, "QUOTED-PRINTABLE") ==>
        TransferDecode(p, qp) == Success(p.data)
  {
    var cte := Get(p.header, "Content-Transfer-Encoding");
    UpperLiterals();
    ToUpperMatchesLiteral(cte, "BASE64");
    ToUpperMatchesLiteral(cte, "QUOTED-PRINTABLE");
  }

  /** The transfer encoding is matched without regard to ASCII case: any spelling of
      "base64" selects the base64 decoder, any spelling of "quoted-printable" the
      quoted-printable decoder, and anything else (including an absent header) leaves
      the bytes as they are. */
  lemma TransferEncodingDispatch(p: Part, qp: Bytes -> Option<Bytes>)
    ensures var cte := Get(p.header, "Content-Transfer-Encoding");
      && (EqualFold(cte, "BASE64") ==>
            TransferDecode(p, qp) == (if Base64.Decode(p.data).Some?
                                      then Success(Base64.Decode(p.data).value) else Failure(Base64Corrupt)))
      && (EqualFold(cte, "QUOTED-PRINTABLE") ==>
            TransferDecode(p, qp) == (if qp(p.data).Some?
                                      then Success(qp(p.data).value) else Failure(QuotedPrintableInvalid)))
      && (!EqualFold(cte, "BASE64") && !EqualFold(cte, "QUOTED-PRINTABLE") ==>
            TransferDecode(p, qp) == Success(p.data))
  {
    DispatchBase64(p, qp);
    DispatchQuotedPrintable(p, qp);
    DispatchIdentity(p, qp);
  }

  /** A part fails exactly when its read failed or its content does not decode; otherwise
      its attachment keeps the part's file name and Content-Type as given, and its content
      is the standard padded base64 text of the decoded bytes: 4 * ceil(n / 3) characters
      that decode back to those bytes. */
  lemma AttachmentOfPart(p: Part, qp: Bytes -> Option<Bytes>)
    ensures ToAttachment(p, qp).Failure? <==> p.readFailed || TransferDecode(p, qp).Failure?
    ensures ToAttachment(p, qp).Success? ==>
      var a, d := ToAttachment(p, qp).value, TransferDecode(p, qp).value;
      && a.name == p.fileName
      && a.contentType == Get(p.header, "Content-Type")
      && a.contentBytes == Base64.Encode(d)
      && |a.contentBytes| == 4 * ((|d| + 2) / 3)
      && Base64.Decode(a.contentBytes) == Some(d)
  {
    if ToAttachment(p, qp).Success? {
      Base64.DecodeEncode(TransferDecode(p, qp).value);
    }
  }

  /** A readable part whose transfer encoding is base64 and whose text, once its line
      breaks are removed, is the canonical encoding of some bytes is forwarded with that
      unwrapped text as its content: the round trip holds up to line wrapping. */
  lemma Base64PartRoundTrip(p: Part, qp: Bytes -> Option<Bytes>, d: Bytes)
    requires !p.readFailed
    requires EqualFold(Get(p.header, "Content-Transfer-Encoding"), "BASE64")
    requires Base64.StripLineBreaks(p.data) == Base64.Encode(d)
    ensures ToAttachment(p, qp) ==
      Success(FileAttachment(p.fileName, Get(p.header, "Content-Type"), Base64.StripLineBreaks(p.data)))
  {
    TransferEncodingDispatch(p, qp);
    Base64.QuantaRoundTrip(d);
  }

  /** The shape of a scan: the attachments are those of the leading parts, one per part
      in part order; the scan is clean exactly when every part converted and the reader
      ended with EOF; otherwise the error is that of the first part that failed, or the
      reader's error when all parts converted. */
  lemma {:induction false} ScanShape(parts: seq<Part>, ending: Ending, qp: Bytes -> Option<Bytes>)
    ensures var r := ScanParts(parts, ending, qp);
      && |r.attachments| <= |parts|
      && (forall i :: 0 <= i < |r.attachments| ==> ToAttachment(parts[i], qp) == Success(r.attachments[i]))
      && (r.err.None? <==> |r.attachments| == |parts| && ending == AtEof)
      && (r.err.Some? && |r.attachments| < |parts| ==>
            ToAttachment(parts[|r.attachments|], qp) == Failure(r.err.value))
      && (r.err.Some? && |r.attachments| == |parts| ==> ending == NextPartFailed && r.err == Some(NextPartError))
    decreases |parts|
  {
    if parts != [] {
      ScanShape(parts[1..], ending, qp);
      var r := ScanParts(parts, ending, qp);
      if ToAttachment(parts[0], qp).Success? {
        var rest := ScanParts(parts[1..], ending, qp);
        assert r.attachments == [ToAttachment(parts[0], qp).value] + rest.attachments;
        forall i | 0 <= i < |r.attachments|
          ensures ToAttachment(parts[i], qp) == Success(r.attachments[i])
        {
          if i > 0 { assert parts[i] == parts[1..][i - 1]; }
        }
        if r.err.Some? && |r.attachments| < |parts| {
          assert parts[|r.attachments|] == parts[1..][|rest.attachments|];
        }
      }
    }
  }

  /** Every attachment of a clean scan corresponds to the part in the same position. */
  lemma CleanScanOnePerPart(parts: seq<Part>, ending: Ending, qp: Bytes -> Option<Bytes>)
    ensures var r := ScanParts(parts, ending, qp);
      r.err.None? ==>
        && |r.attachments| == |parts|
        && forall i :: 0 <= i < |parts| ==>
             r.attachments[i].name == parts[i].fileName &&
             r.attachments[i].contentType == Get(parts[i].header, "Content-Type")
  {
    ScanShape(parts, ending, qp);
    var r := ScanParts(parts, ending, qp);
    if r.err.None? {
      forall i | 0 <= i < |parts|
        ensures r.attachments[i].name == parts[i].fileName
        ensures r.attachments[i].contentType == Get(parts[i].header, "Content-Type")
      {
        AttachmentOfPart(parts[i], qp);
      }
    }
  }

  /** A reader over an exhausted stream finds no part, so a message whose body has
      already been read to its end yields no attachment, whatever its Content-Type. */
  lemma DrainedBodyHasNoAttachments(header: Header, lib: Library)
    requires forall b :: lib.multipart([], b).parts == []
    ensures ParseAttachments(header, [], lib).attachments == []
  {
  }
}

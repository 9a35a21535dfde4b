/** The library collaborators of message parsing, kept abstract: `net/mail.ReadMessage`,
    `mime.ParseMediaType`, the `mime/multipart` reader (as the sequence of parts it yields
    and how it stops) and the quoted-printable decoder (section 6.7 of RFC 2045). */
module Mime {
  import opened Wrappers
  import opened Octets

  /** A MIME header, keyed by canonical field name and holding each field's first value. */
  type Header = map<string, string>

  /** `Header.Get`: the first value of the field, or "" when it is absent. */
  function Get(h: Header, key: string): string {
    if key in h then h[key] else ""
  }

  /** A parsed message: its header and the bytes of its body. */
  datatype MailMessage = MailMessage(header: Header, body: Bytes)

  /** The result of `mime.ParseMediaType`: the media type and its parameters. */
  datatype MediaType = MediaType(mediaType: string, params: map<string, string>)

  /** One part of a multipart body (section 5.1 of RFC 2046): its header, the file name
      `Part.FileName()` derives from its Content-Disposition, the bytes `io.ReadAll` got,
      and whether that read failed. */
  datatype Part = Part(header: Header, fileName: string, data: Bytes, readFailed: bool)

  /** How `NextPart` stopped: with `io.EOF` or with another error. */
  datatype Ending = AtEof | NextPartFailed

  /** What a multipart reader yields: the parts in order, then how it stopped. */
  datatype PartStream = PartStream(parts: seq<Part>, ending: Ending)

  /** The library functions the core calls. */
  datatype Library = Library(
    readMessage: Bytes -> Option<MailMessage>,
    parseMediaType: string -> Option<MediaType>,
    multipart: (Bytes, string) -> PartStream,
    quotedPrintable: Bytes -> Option<Bytes>)

  /** The `boundary` parameter, "" when absent (a Go map lookup). */
  function Boundary(m: MediaType): string {
    if "boundary" in m.params then m.params["boundary"] else ""
  }
}

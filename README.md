# graph-smtpd core, modelled in Dafny

This project models the core of an SMTP-to-Microsoft-Graph relay. The relay accepts a
message over SMTP and sends it on through the Graph `sendMail` API as the sender's user.
The model covers:

- the per-connection SMTP session: `Mail`, `Rcpt`, `Data`, `Reset`, `Logout`, the
  advertised mechanisms and the fixed-credential PLAIN check;
- the backend that mints sessions;
- the translation `Data` does: address lists, the subject, the body and the MIME
  attachments, with base64 per section 4 of RFC 4648 and the transfer-encoding dispatch
  of section 6 of RFC 2045;
- the `sendmail` message builder with functional options;
- the log levels.

Modules, one per source file or library the core calls:

| module | file | models |
|---|---|---|
| `Wrappers`, `Octets` | wrappers.dfy | Option/Result in place of nil and `error`; Go bytes |
| `Strings` | strings.dfy | `strings.TrimSpace`, `unicode.IsSpace`, `strings.ToUpper`, `strings.HasPrefix` |
| `AddressList` | addresslist.dfy | what `parseAddressList` computes (`strings.Split` on `,`, then trim) |
| `Base64` | base64.dfy | `base64.StdEncoding` encoding and decoding |
| `Graph` | graph.dfy | the Graph SDK objects as values; the directory and the post as functions |
| `Mime` | mime.dfy | `net/mail`, `mime` and `mime/multipart`, kept abstract |
| `Attachments` | attachments.dfy | what `parseAttachments` computes, and its properties |
| `GraphServer` | graphserver.dfy | session.go and backend.go |
| `Logger` | logger.dfy | logger.go |
| `SendMail` | sendmail.go, options.go → sendmail.dfy | the message builder |

State the source changes in place is modelled as classes:

- `GraphServer.Session` has the fields `from`, `user` and `clientPresent`.
- `SendMail.Message` has the builders and the option fields.

Loops stay loops, each proved against a specification function:

- `ParseAddressList` (both copies) against `AddressList.Parse`;
- `ParseAttachments` against `Attachments.ParseAttachments`;
- the option loop of `NewMessage` against `SendMail.AppliedAll`.

Collaborators are parameters:

- `Graph.Directory` stands for `ByUserId`.
- `Graph.Post` stands for `SendMail().Post`.
- `Mime.Library` bundles `mail.ReadMessage`, `mime.ParseMediaType`, the multipart
  reader and the quoted-printable decoder.

The model follows the code where its behaviour departs from what one might expect of such a relay:

- A header holding only white space yields one empty address, not an empty list.
  `AddressList.BlankHeaderGivesOneEmptyAddress` proves this.
- `WithCc` and `WithBcc` store the raw header string. They do not parse it.
- `Data` always sets To, Cc and Bcc, even to an empty list. Only `sendmail` leaves To
  unset when it is empty.
- `Data` before a successful `Mail` dereferences a nil user after building the message.
  The model returns `NilUser` and posts nothing.
- The session records no allow-lists, error list, status or worst severity. This
  revision of session.go and backend.go has none of them.
- The decoder accepts non-canonical padding such as `AB==`. Re-encoding what it decodes
  therefore gives back the original text only when that text is canonical.
  `Base64.NonCanonicalPadding` and `Attachments.Base64PartRoundTrip` prove this.

## Model

| member | source | states |
|---|---|---|
| `Strings.TrimLeftShape` | pkg/graphserver/session.go:140 | drops exactly the leading white space; what it keeps is a suffix that does not start with a space |
| `Strings.TrimRightShape` | pkg/graphserver/session.go:140 | drops exactly the trailing white space; what it keeps is a prefix that does not end with a space |
| `Strings.TrimSpace` | pkg/graphserver/session.go:140 | `strings.TrimSpace`: never longer than its input; TrimLeftShape and TrimRightShape pin it down as the input without its leading and trailing white space |
| `Strings.TrimSpaceIsSlice` | pkg/graphserver/session.go:140 | `TrimSpace` keeps one contiguous slice of the input, starting after the leading spaces |
| `Strings.TrimSpaceDropsOnlySpace` | pkg/graphserver/session.go:140 | everything `TrimSpace` drops on either side is white space |
| `Strings.TrimSpaceTrimmed` | pkg/graphserver/session.go:140 | the result neither starts nor ends with white space |
| `Strings.TrimSpaceFixes` | pkg/graphserver/session.go:140 | a string without white space at its ends is returned unchanged |
| `Strings.TrimSpaceIdempotent` | pkg/graphserver/session.go:140 | trimming twice is trimming once |
| `Strings.ToUpper` | pkg/graphserver/session.go:187 | same length, each character upper-cased |
| `Strings.ToUpperEqualIffEqualFold` | pkg/graphserver/session.go:187-191 | two strings upper-case alike exactly when they are equal ignoring ASCII case (both directions) |
| `Strings.ToUpperMatchesLiteral` | pkg/graphserver/session.go:187-198 | comparing `ToUpper(s)` with an upper-case literal accepts every case spelling of it and nothing else |
| `Octets.AsString` | pkg/graphserver/session.go:89 | the body string has one character per body byte, with the same code |
| `AddressList.Split` | pkg/graphserver/session.go:138 | one piece more than there are commas; no piece holds a comma |
| `AddressList.JoinSplit` | pkg/graphserver/session.go:138 | joining the pieces with commas gives back the input, so nothing is dropped |
| `AddressList.SplitAfterWord` | pkg/graphserver/session.go:138 | a comma-free word before a comma splits off as the first piece |
| `AddressList.SplitJoin` | pkg/graphserver/session.go:138 | splitting undoes joining comma-free pieces (Split and Join are inverse) |
| `AddressList.TrimEach` | pkg/graphserver/session.go:139-140 | one trimmed piece per piece, in order |
| `AddressList.Parse` | pkg/graphserver/session.go:130-153 | the addresses `parseAddressList` builds: none exactly when the header is the empty string; ParseShape gives the entries |
| `AddressList.ParseShape` | pkg/graphserver/session.go:130-153 | empty header gives no address; any other gives commas + 1 addresses, the i-th the trimmed i-th piece |
| `AddressList.ParseTrimmed` | pkg/graphserver/session.go:138-140 | every address is comma-free and already trimmed |
| `AddressList.BlankHeaderGivesOneEmptyAddress` | pkg/graphserver/session.go:133-150 | `" "` yields `[""]`: only the exactly empty header gives no address |
| `AddressList.AdjacentCommasKeepEmptyAddress` | pkg/graphserver/session.go:138-150 | `"a,,b"` yields `["a", "", "b"]` |
| `Base64.Encode` | pkg/graphserver/session.go:211-212 | the encoding of n bytes has 4 * ceil(n / 3) characters |
| `Base64.EncodeCharacters` | pkg/graphserver/session.go:211-212 | the encoding uses only alphabet characters, with `=` only in the last two places |
| `Base64.StripEncoded` | pkg/graphserver/session.go:194 | the decoder's line-break removal leaves an encoding whole |
| `Base64.NoLineBreaksKept` | pkg/graphserver/session.go:194 | a text without CR or LF passes line-break removal unchanged |
| `Base64.DecodeEncode` | pkg/graphserver/session.go:194-212 | decoding the encoding of any bytes gives back those bytes |
| `Base64.QuantaRoundTrip` | pkg/graphserver/session.go:194-212 | quantum by quantum, decoding undoes encoding |
| `Base64.Decode` | pkg/graphserver/session.go:194 | `StdEncoding.DecodeString` with None for its error: accepts every encoding (DecodeEncode) and line-wrapped ones (LineWrappedText); refuses what DecodeRefusesLength and DecodeRefuses describe |
| `Base64.DecodedLength` | pkg/graphserver/session.go:194 | accepted text (line breaks removed) has a length divisible by four, equal to the encoded length of its bytes |
| `Base64.DecodeRefusesLength` | pkg/graphserver/session.go:194-197 | text whose length without line breaks is not a multiple of four is refused |
| `Base64.DecodeQuantaRefuses` | pkg/graphserver/session.go:194-197 | a byte outside the alphabet makes unwrapped text fail, unless it is `=` in one of the last two places |
| `Base64.DecodeRefuses` | pkg/graphserver/session.go:194-197 | the same for text with line breaks: a foreign byte, or padding anywhere but the last two places, is refused |
| `Base64.WrappedStripped` | pkg/graphserver/session.go:194 | removing the line breaks of `AA` CR LF `==` leaves `AA==` |
| `Base64.LineWrappedText` | pkg/graphserver/session.go:194 | `AA` CR LF `==` decodes to one zero byte, and unwrapped it is that byte's encoding |
| `Base64.NonCanonicalPadding` | pkg/graphserver/session.go:194 | `AB==` decodes to one zero byte, which re-encodes as `AA==` |
| `Graph.RecipientsOf` | pkg/graphserver/session.go:142-149 | one recipient per address, same address, same order |
| `Attachments.ParseAttachmentsNonMultipart` | pkg/graphserver/session.go:158-165 | an unparseable Content-Type gives an error and no attachment; a non-multipart type gives neither |
| `Attachments.UpperLiterals` | pkg/graphserver/session.go:191-198 | the literals `BASE64` and `QUOTED-PRINTABLE` are their own upper case |
| `Attachments.TransferDecode` | pkg/graphserver/session.go:187-208 | undoes the part's transfer encoding; TransferEncodingDispatch states its three branches |
| `Attachments.TransferEncodingDispatch` | pkg/graphserver/session.go:187-208 | any case spelling of base64 selects the base64 decoder, of quoted-printable the QP decoder; any other or absent value leaves the bytes unchanged |
| `Attachments.ToAttachment` | pkg/graphserver/session.go:182-220 | one part's attachment or failure; AttachmentOfPart states when it fails and what the attachment holds |
| `Attachments.AttachmentOfPart` | pkg/graphserver/session.go:182-220 | a part fails iff unreadable or undecodable; else name and content type are copied, and the content is the padded base64 of the decoded bytes, 4 * ceil(n / 3) long, decoding back to them |
| `Attachments.Base64PartRoundTrip` | pkg/graphserver/session.go:191-212 | a readable base64 part whose text, line breaks removed, is canonical is forwarded with that unwrapped text as content (round trip up to line wrapping) |
| `Attachments.ScanParts` | pkg/graphserver/session.go:172-224 | the loop over the parts; ScanShape states the attachments and the error it yields |
| `Attachments.ParseAttachments` | pkg/graphserver/session.go:155-227 | `parseAttachments`; ParseAttachmentsNonMultipart gives the early returns, ScanShape the multipart case |
| `Attachments.ScanShape` | pkg/graphserver/session.go:172-224 | attachments are those of the leading parts in order; clean iff every part converted and the reader hit EOF; else the error is the first failing part's, or the reader's |
| `Attachments.CleanScanOnePerPart` | pkg/graphserver/session.go:172-226 | a clean scan has one attachment per part with that part's file name and Content-Type |
| `Attachments.DrainedBodyHasNoAttachments` | pkg/graphserver/session.go:167-179 | a message whose body reader is exhausted yields no attachment |
| `GraphServer.SendResult` | pkg/graphserver/session.go:121 | Data succeeds iff the post does, and otherwise carries the post's error |
| `GraphServer.ParseAddressList` | pkg/graphserver/session.go:130-153 | the loop returns one recipient per entry of `AddressList.Parse`, in order |
| `GraphServer.ConvertPart` | pkg/graphserver/session.go:182-220 | the loop body converts a part exactly as `Attachments.ToAttachment` says |
| `GraphServer.ParseAttachments` | pkg/graphserver/session.go:155-227 | the loop returns the attachments and error of `Attachments.ParseAttachments`, the partial list included |
| `GraphServer.CheckCredentials` | pkg/graphserver/session.go:49-53 | accepts exactly username `username` with password `password` |
| `GraphServer.CredentialsIgnoreIdentity` | pkg/graphserver/session.go:49-53 | the identity plays no part in the check |
| `GraphServer.Session.constructor` | pkg/graphserver/session.go:24-28 | a session literal holds the given fields |
| `GraphServer.Session.AuthMechanisms` | pkg/graphserver/session.go:43-45 | no mechanism is advertised |
| `GraphServer.Session.Auth` | pkg/graphserver/session.go:48-55 | never fails; its validator accepts exactly the fixed credentials, whatever the mechanism and identity |
| `GraphServer.Session.Mail` | pkg/graphserver/session.go:57-72 | no client: error, nothing changes; resolved: user set, `from` unchanged, success; unresolved: `from` set, user unchanged, "user not found" |
| `GraphServer.Session.Rcpt` | pkg/graphserver/session.go:74-77 | always succeeds and changes nothing |
| `GraphServer.Session.Relay` | pkg/graphserver/session.go:86-121 | posts subject, whole body, parsed To/Cc/Bcc, From = `from`; attachments only when the scan is clean and non-empty; returns the post's result; no user: nothing posted |
| `GraphServer.Session.Data` | pkg/graphserver/session.go:79-122 | unparseable message: error, nothing posted; otherwise as Relay, with the attachment scan run on the drained body |
| `GraphServer.Session.DataFixed` | pkg/graphserver/session.go:79-122 | as Data, with the attachment scan run on the whole body |
| `GraphServer.Session.Reset` | pkg/graphserver/session.go:124 | changes nothing |
| `GraphServer.Session.Logout` | pkg/graphserver/session.go:126-128 | always succeeds |
| `GraphServer.Backend.NewSession` | pkg/graphserver/backend.go:17-19 | never fails; a fresh session with empty `from`, no user and no client |
| `GraphServer.NewGraphBackend` | pkg/graphserver/backend.go:12-14 | stores the three credentials as given, without validation |
| `GraphServer.MailOnNewSession` | pkg/graphserver/session.go:57-60 | Mail on any session from NewSession fails with "graph client not initialised" |
| `GraphServer.RetriedMail` | pkg/graphserver/session.go:63-71 | after a refused then an accepted Mail, `from` is the refused address and the user the accepted one |
| `GraphServer.DataDropsAttachments` | pkg/graphserver/session.go:86-114 | Data as written never attaches anything |
| `GraphServer.DataFixedForwardsAttachment` | pkg/graphserver/session.go:112-114 | corrected Data forwards a base64 part, line-wrapped or not, with its file name, content type and unwrapped base64 text |
| `Logger.Level.String` | pkg/graphserver/logger.go:20-31 | Error, Info and Warn render as `error`, `info` and `warn`; every other value as `unknown` (each an iff) |
| `Logger.StringHasFourValues` | pkg/graphserver/logger.go:20-31 | String is total with four possible results |
| `Logger.SeverityOrder` | pkg/graphserver/logger.go:11-15 | Info < Warn < Error, so the worst level is the largest |
| `Logger.NamesIdentifyLevels` | pkg/graphserver/logger.go:20-30 | distinct named levels have distinct names, none `unknown` |
| `SendMail.Applied` | pkg/sendmail/options.go:7-35 | what one option does to the option fields; AppliedChangesOnlyTarget, LastWriteWins and DifferentFieldsCommute state it |
| `SendMail.AppliedAll` | pkg/sendmail/sendmail.go:25-27 | the options applied in order; AppliedAllKeepsLast states the outcome |
| `SendMail.AppliedChangesOnlyTarget` | pkg/sendmail/options.go:7-35 | an option stores its argument unparsed in its own field; every other field is unchanged |
| `SendMail.LastWriteWins` | pkg/sendmail/options.go:7-35 | two options for one field leave the later value |
| `SendMail.DifferentFieldsCommute` | pkg/sendmail/options.go:7-35 | options for different fields commute |
| `SendMail.AppliedAllKeepsLast` | pkg/sendmail/sendmail.go:25-27 | after the loop each field holds the last value given for it, or its zero value |
| `SendMail.ParseAddressList` | pkg/sendmail/sendmail.go:55-78 | the sendmail copy returns one recipient per entry of `AddressList.Parse`, like the session.go copy |
| `SendMail.Envelope` | pkg/sendmail/sendmail.go:30-43 | subject, content-less body and From always set; To set iff the address list is non-empty; nothing else set |
| `SendMail.Message.constructor` | pkg/sendmail/sendmail.go:18-22 | zero-valued option fields and fresh, empty builders |
| `SendMail.Message.Apply` | pkg/sendmail/options.go:7-35 | running an option changes its field as `Applied` says and nothing else |
| `SendMail.Message.Send` | pkg/sendmail/sendmail.go:48-53 | puts the message into the request body, posts it and returns the post's result |
| `SendMail.NewMessage` | pkg/sendmail/sendmail.go:17-46 | the options run in order first; the Graph message is the Envelope of from/to/subject alone |
| `SendMail.BuildAndSend` | pkg/sendmail/sendmail.go:17-53 | the posted request is exactly the Envelope, whatever the options |

## Findings

| source | as written | input that shows it | evidently intended | confidence | as-written member | corrected member |
|---|---|---|---|---|---|---|
| pkg/graphserver/session.go:88 | `Data` reads `msg.Body` to its end. `parseAttachments` then opens its multipart reader on that same reader (line 167), which has nothing left. | Any multipart message with an attachment part, e.g. one base64 `application/pdf` part. The reader finds no part, so the message goes out without the attachment. | The parts of the message body are forwarded as attachments. | high; not executed | `GraphServer.DataDropsAttachments` | `GraphServer.DataFixedForwardsAttachment` |

## Left out

- Strings.ToUpper: covers ASCII letters only. Go's `unicode.ToUpper` also maps, for example, U+0131 to `I` and U+017F to `S`, so Go would also accept such spellings of `base64`.
- Quoted-printable decoding (section 6.7 of RFC 2045) is an abstract partial decoder, `Mime.Library.quotedPrintable`.
- `mail.ReadMessage`, `mime.ParseMediaType`, the multipart reader and `Part.FileName` are abstract functions. A header is a map from canonical field name to first value; stream reading is not modelled.
- Go's multipart reader decodes a part marked `Content-Transfer-Encoding: quoted-printable` itself and removes that header. So the quoted-printable branch of session.go:198-204 never fires for parts it returns. `Mime.Library.multipart` may still return such parts; what is forwarded is the same either way.
- `ByUserId` of the Graph SDK only builds a request builder and never returns nil. With a real client, the "user not found" branch of session.go:68-71 and the situation `GraphServer.RetriedMail` describes cannot arise. `Graph.Directory` allows `None` so that the branch is modelled all the same.
- The error of `bodyBuffer.ReadFrom` at session.go:88 is discarded, so a body that fails part-way is sent truncated. The model's message body is always complete.
- The `reader == nil` branch of session.go:168-170 has no counterpart, because the modelled reader always exists.
- The Graph SDK's request builders, its JSON serialisation, HTTP and OAuth are not part of this model. `ByUserId` and `SendMail().Post` are function parameters, and a directory handle is a value.
- `Data` with no resolved user: Go panics on a nil dereference. The model returns the `NilUser` error instead.
- `SendMail.Message.Send` takes a non-nil user handle. A nil user builder (a Go panic) is not modelled.
- options.go and sendmail.go come from different revisions. The options assign `cc`, `bcc`, `body` (a string), `attachments` and `saveToSentItems`, which sendmail.go's `Message` does not declare. The model's `SendMail.Message` carries both sets, with sendmail.go's `body *ItemBody` renamed to `itemBody`.
- The option fields of `SendMail.Message` are never read by `NewMessage` or `Send` as the code is written, so they do not reach the posted request.
- cmd/graph-sendmail/main.go calls `SendMailPostRequestBody`, which neither file defines; the command-line programs are not part of this model.
- `log.Println` in `Rcpt`, `context.Background()` and the concurrency between sessions are left out: they are logging, plumbing and the SMTP library's scheduling.
- The `Logger` interface has no code to model.
- pkg/graphclient, main.go, cmd/, pkg/graphserver/graphserver.go and pkg/graphserver.go are not part of this model. They hold configuration, I/O, the client wrapper and struct declarations. No allow-list or source-address check is shown there, so none is modelled.
- Go strings are byte strings. Header values are modelled as character sequences, and body bytes map one-to-one onto characters.

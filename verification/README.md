# Microsoft AD CS enrollment client, modelled in Dafny

This project models the enrollment core of a Go client for the Microsoft
Active Directory Certificate Services web enrollment pages (`/certsrv`):

- **Submission.** A PKCS #10 CSR and a template name become a form POST to
  `certfnsh.asp` (`buildCertificateRequest`).
- **Classification.** The CA answers with an HTML page. `getReqID` reads it:
  - an issued link `certnew…?ReqID=N&` gives the request identifier;
  - a "Certificate Pending" page gives a pending error naming the request;
  - otherwise the page is treated as a denial. Exactly two occurrences of
    `The disposition message is "…` give the first one as the message. Any
    other count gives the generic error.
- **Download.** For the identifier, `RetrieveCertificates` fetches the PKCS #7
  chain (`certnew.p7b`) and then the leaf certificate (`certnew.cer`), both in
  base64. A response with any other content type goes through
  `checkDispostionError`.
- **Orchestration.** `RequestCertificate` chains the three steps and wraps
  each failure with the step that failed.

The transport is an oracle. `DoRequest` is a method of the `AdcsClient`
class. The class holds two fields:

- `replies`: the script of replies still to come, one per request;
- `sent`: the log of requests handed to the transport, each stamped with the
  client's User-Agent.

Each method is proved against a specification function on values. For
example:

- `RetrieveCertificates` returns `Retrieval(host, reqId, replies).result`.
- `RequestCertificate` returns `Enrollment(host, csr, template, attributes,
  replies).result`.

Both methods also state the exact new `sent` and `replies`. The properties are
lemmas about those functions: request order, all-or-nothing results, and which
error each failure produces.

The three regular expressions are modelled with Go's leftmost-first
semantics:

- Each expression has a declarative description of the match Go prefers: the
  earliest start, a greedy `.*` that stays on one line, and a greedy `\d+` that
  gives a digit back to the trailing `.` when it must.
- A scanner is proved to return exactly that match.
- `FindAllString` is modelled as a left-to-right scan of non-overlapping
  matches.

A Go panic is an explicit outcome, `Crashed(fault)`.

The model follows the code as written, including three behaviours a caller
might not expect:

- **Denial message.** The denial error is the whole first match, including the
  prefix `The disposition message is "`, not only the captured text. The code
  uses `FindAllString`, not the submatch (client/certificates.go:79-83,
  206-210).
- **Leaf download failure.** A failed leaf download crashes (nil
  dereference) instead of returning an error. `certResp.Header` is read before
  `err` is checked (client/certificates.go:178-181). A failed chain download is
  reported normally.
- **Pending page without an identifier.** A pending page with no
  `Your Request Id is N.` also crashes: the empty submatch is indexed
  (client/certificates.go:75-76).

Modules:

- `Models`: `Certificates`, `Outcome`, `Fault`, `Option`.
- `Scan`: character and substring helpers.
- `Http`: requests, responses, the reply script, `DoRequest`'s contract and
  the decimal status code.
- `Submission`: the enrollment form.
- `ResponseClassifier`: the three scanners, `GetReqId` and
  `CheckDispositionError`.
- `Client`: the specification functions, their lemmas and the `AdcsClient`
  class.
- `Scenarios`: four end-to-end enrollments (issued, pending, denied, chain
  refused) against sample CA pages.

## Model

| member | source | states |
|---|---|---|
| Http.Exchange | client/client.go:131-138 | The result is Ok exactly when the reply is an answer with status 200, and then it is that response unchanged. A network failure gives `error making request: <cause>`, any other status gives `status error: <code>` with the code in decimal, and DoRequest never panics. |
| Http.WithUserAgent | client/client.go:122-123 | The request gains the User-Agent header with the provider's value. Every other header, the verb, the URL, the query and the form are unchanged. |
| Http.Decimal | client/client.go:136 | The `%v` rendering of a status code is a non-empty string of decimal digits with no leading zero. |
| Http.DecimalRoundTrip | client/client.go:136 | The rendered status code reads back as the same number. |
| Client.AdcsClient.DoRequest | client/client.go:118-139 | The result is `Exchange` of the next scripted reply (a network failure once the script is exhausted). The request is logged with the User-Agent, and the script advances by one reply. |
| Submission.NewCertBody | client/certificates.go:96-105 | The form is a new request (`newreq`) carrying the CSR verbatim, saved on the CA (`Saved-Request Certificate`, `0`, `yes`). The attribute line is `CertificateTemplate:`, the template, then `\r\n`, so the template can be read back from it. |
| Submission.FormValues | client/certificates.go:21-28 | The encoded form has exactly the six `certBody` field names as keys, and each key carries the value of the field of that name. |
| Submission.BuildCertificateRequest | client/certificates.go:94-127 | The request is a POST with no query and the form Content-Type. Its URL is `http://`, the host, then `/certsrv/certfnsh.asp`. Its form is the encoding of the new-request body for the CSR and template. |
| Submission.SubmissionForm | client/certificates.go:94-127 | The request is a POST to `http://<host>/certsrv/certfnsh.asp` with no query and the form Content-Type. The form carries `newreq`, the CSR verbatim, `CertificateTemplate:<template>\r\n`, `Saved-Request Certificate`, `0` and `yes`. |
| Submission.SubmissionDeterminesInputs | client/certificates.go:94-116 | Two requests are equal exactly when host, CSR and template are equal. The `attributes` argument never reaches the CA. |
| ResponseClassifier.QueryEnd | client/certificates.go:63 | `?ReqID=` at a position, followed by a non-empty digit run closed by `&`, ends at exactly the returned `&`. |
| ResponseClassifier.LastQuery | client/certificates.go:63 | Among the query positions in a range, the returned one is the last. This is where a greedy `.*` stops backtracking. |
| ResponseClassifier.LinkLineBound | client/certificates.go:63 | The `.*` of the link pattern never crosses a line break. Every query on the line of a `certnew` completes a match. |
| ResponseClassifier.FindLinkFrom | client/certificates.go:63-64 | The returned span is a link match. No match starts earlier, and no match from that start has a later query (leftmost-first, greedy). No result means no match at all. |
| ResponseClassifier.PreferredLinkUnique | client/certificates.go:63-64 | The preferred link match is unique. |
| ResponseClassifier.LinkSubmatch | client/certificates.go:64 | `FindStringSubmatch` gives nothing exactly when the page has no link match. Otherwise it gives three strings for the preferred match: the whole match up to and including `&`, the `certnew.*` group and the digit group. |
| ResponseClassifier.NamedGroups | client/certificates.go:65-70 | With no match the map is empty. Otherwise its keys are the names of the groups visited, index 0 excluded, and each name holds the group of the last index carrying it. |
| ResponseClassifier.ReqIdRecorded | client/certificates.go:65-72 | The loop over the sub-expression names records `ReqID` exactly when the link matched, and its value is the digit group. |
| ResponseClassifier.PendingDot | client/certificates.go:74 | For a given start, the returned end is the longest digit group that still leaves a character other than a line break for the trailing `.`. No result means no pending match at that start. |
| ResponseClassifier.FindPendingFrom | client/certificates.go:74-75 | The returned pending match has the earliest start and, for it, the longest digit group. No result means no pending match anywhere. |
| ResponseClassifier.PreferredPendingUnique | client/certificates.go:74-75 | The preferred pending match is unique. |
| ResponseClassifier.DispositionEnd | client/certificates.go:78 | A disposition match runs past its prefix by at least one character. The greedy `[^"]+` stops at the first `"` after the prefix, or at the end of the text when there is none. |
| ResponseClassifier.DispositionStarts | client/certificates.go:79 | The starts are the successive non-overlapping matches of a left-to-right scan, each search resuming where the previous match ended. |
| ResponseClassifier.ScannedUnique | client/certificates.go:79 | A scan from a given position has exactly one result. |
| ResponseClassifier.ScannedStarts | client/certificates.go:79 | Every start in a scan is a match, at or after the position where the scan began. |
| ResponseClassifier.ScannedMatches | client/certificates.go:79 | Every start in a scan is a match, and consecutive matches do not overlap. |
| ResponseClassifier.DispositionText | client/certificates.go:78-79 | The text of a match is the prefix followed by a non-empty run with no double quote. |
| ResponseClassifier.DispositionMatches | client/certificates.go:205-206 | `FindAllString` returns one string per match of the left-to-right scan, in order: the text from the match's start to its end. Every such string starts with the prefix, is longer than it, and holds no double quote after it. |
| ResponseClassifier.GetReqId | client/certificates.go:61-92 | The result is an identifier exactly when the page has an issued link. An identifier is a non-empty run of decimal digits. The only possible crash is the index out of range. |
| ResponseClassifier.CheckDispositionError | client/certificates.go:204-212 | In terms of the scan: two matches give the text of the first match, prefix included, which is never the generic error. Any other count gives the generic error. |
| ResponseClassifier.IssuedLinkReported | client/certificates.go:63-72 | With an issued link present, `getReqID` returns the digits of the preferred link match, whatever else the page says. |
| ResponseClassifier.PendingReported | client/certificates.go:72-76 | With no link and the pending marker present, the error is the pending message naming the digits of the preferred pending match. |
| ResponseClassifier.PendingWithoutIdCrashes | client/certificates.go:73-76 | With no link, the pending marker, and no `Your Request Id is N.` anywhere, `getReqID` panics with an index out of range. |
| ResponseClassifier.DispositionAgreement | client/certificates.go:77-84 | With neither link nor pending marker, `getReqID` returns the same error as `checkDispostionError` on the same page. |
| ResponseClassifier.EmbeddedLinkFound | client/certificates.go:61-92 | A link `certnew…?ReqID=N&` after markup holding no `certnew`, with no `?` in the rest of its line, yields exactly `N`. |
| ResponseClassifier.NoLinkWithoutHead | client/certificates.go:63 | A page with no `certnew` has no issued link. |
| ResponseClassifier.EmbeddedPendingFound | client/certificates.go:74-76 | `Your Request Id is N` followed by a non-digit other than a line break, after markup with no `Y`, is the preferred pending match, and its group is `N`. |
| ResponseClassifier.TwoQuotationsScan | client/certificates.go:204-212 | Two quotations of a text, with no `T` outside them, give the first quotation as the error, prefix included and closing quote excluded. |
| ResponseClassifier.OneQuotationScan | client/certificates.go:204-212 | A single quotation, with no `T` outside it, gives the generic error. |
| ResponseClassifier.DenialPageScan | client/certificates.go:204-212 | A denial page quoting the disposition text twice is classified by its first quotation. |
| ResponseClassifier.SingleDispositionScan | client/certificates.go:204-212 | A page quoting the disposition text once is classified as the generic error. |
| Client.RetrievalOrder | client/certificates.go:144-178 | The chain is requested first. The leaf is requested only after a 200 chain response with exactly the PKCS #7 content type, and then second. |
| Client.RetrievalTargets | client/certificates.go:137-150 | Every download is a GET of `certnew.p7b` or `certnew.cer` on the host, with query `ReqID=<id>` and `Enc=b64` and the User-Agent header. |
| Client.ChainUnreachable | client/certificates.go:152-157 | A failed chain request ends the downloads with the wrapped transport error, before the leaf is requested. |
| Client.BodyUnreadableReported | client/certificates.go:159-163 | An unreadable chain or leaf body ends the downloads with the read error. |
| Client.ChainRejected | client/certificates.go:164-166 | A chain response of any other content type is classified by `checkDispostionError`, and the leaf is never requested. |
| Client.LeafUnreachableCrashes | client/certificates.go:178-184 | A failed leaf request panics (nil dereference) instead of reporting the failure. |
| Client.LeafRejected | client/certificates.go:193-195 | A leaf response of any other content type is classified by `checkDispostionError`. |
| Client.RetrievalSucceeds | client/certificates.go:164-200 | Downloads succeed exactly when both responses are delivered with the expected content types. The result holds the identifier and both bodies verbatim, after exactly two requests. |
| Client.AdcsClient.RetrieveCertificates | client/certificates.go:129-202 | The result is that of `Retrieval` on the script, and the requests sent and the replies consumed are exactly those of `Retrieval`. A result carries the requested identifier. |
| Client.EnrollmentOrder | client/certificates.go:30-57 | The submission goes first. Downloads follow exactly when the CA's page yields an identifier, and they ask for that identifier. At most three requests are sent. |
| Client.EnrollmentErrors | client/certificates.go:37-52 | A transport failure, an unreadable body, a classification error or a classification crash stops the enrollment after the submission, with that step's message. |
| Client.EnrollmentDownloads | client/certificates.go:49-57 | Once the page names a request, the enrollment is the downloads for it, with a download error wrapped and a success or crash passed through. |
| Client.DownloadsCompleteEnrollment | client/certificates.go:49-57 | Once the page names a request, the downloads' result (a download error wrapped) is the enrollment's result. The requests logged are the submission then the downloads, and the script is left past all of them. |
| Client.EnrollmentSucceeds | client/certificates.go:30-58 | A certificate comes back only after three delivered replies: the page naming the identifier, then the chain and the leaf, both verbatim. |
| Client.AdcsClient.RequestCertificate | client/certificates.go:30-59 | The result is that of `Enrollment` on the script, and the requests sent and the replies consumed are exactly those of `Enrollment`. |
| Scenarios.SubmissionRefused | client/certificates.go:49-52 | A page that names no request gives `failed to get request ID: ` followed by the classifier's message, and only the submission is sent. |
| Scenarios.ChainRefused | client/certificates.go:53-56 | A page naming a request, followed by an HTML chain answer, fails with `certificate downloads failed: ` followed by the classification of that answer, after two requests. |
| Scenarios.DownloadsDelivered | client/certificates.go:53-57 | A page naming a request, followed by both deliveries, gives that request's certificate after three requests. |
| Scenarios.IssuedPage | client/certificates.go:61-92 | An issued link in markup of the stated shape yields its request identifier. |
| Scenarios.PendingPage | client/certificates.go:72-76 | A pending page of the stated shape is reported as pending for its request number. |
| Scenarios.DeniedPageClassified | client/certificates.go:77-84 | A denial page of the stated shape is classified by its disposition text alone. |
| Scenarios.ScenarioIssued | client/certificates.go:30-59 | Issued: a page linking to request 42, then chain and leaf delivered, gives certificate 42 with both bodies after three requests. |
| Scenarios.ScenarioPending | client/certificates.go:30-59 | Pending: a pending page for request 17 fails naming 17, and nothing is downloaded. |
| Scenarios.ScenarioDenied | client/certificates.go:30-59 | Denied: a denial page quoting `Denied by Policy Module` twice fails with that quotation, prefix included, and nothing is downloaded. |
| Scenarios.ScenarioChainRefused | client/certificates.go:30-59 | Chain refused: a chain download answered by an HTML page quoting a disposition once fails with the generic error after two requests. |

## Left out

- **Transports and construction.** The Kerberos (SPNEGO) and NTLM transports,
  client construction and the logger are not modelled. The transport is a
  script of replies given to the client, and an exhausted script answers with
  a network failure.
- **Wire encoding.** URL and form percent-encoding (`url.Values.Encode`) and
  the schema encoder are not modelled. Queries, headers and forms are
  key/value maps before encoding.
- **Request-construction failures.** The failures of `http.NewRequest` and of
  the schema encoder (client/certificates.go:108-112, 116-123, 145-149,
  172-176) are not modelled, and neither is the nil dereference at line 119
  when `http.NewRequest` fails. Request construction is total in the model.
- **Response bodies.** Bodies are sequences of characters. UTF-8 decoding and
  read limits are not modelled, and an unreadable body is an explicit
  `Unreadable(cause)`. `defer Body.Close()` has no counterpart.
- **Content-Type.** Only the first `Content-Type` value is kept, as
  `Header.Get` returns it.
- Http.WithUserAgent: `Header.Add` appends a value. The model sets the header,
  which is the same for the requests this client builds, because none carries
  a User-Agent before `DoRequest`.
- ResponseClassifier.GetReqId: the disposition text is returned verbatim. Go
  passes it to `fmt.Errorf` as a format string (client/certificates.go:83),
  so a `%` in the CA's text would be rewritten by the formatter.
- ResponseClassifier.CheckDispositionError: the same verbatim reading as for
  `GetReqId` (client/certificates.go:210).
- **Error values.** Errors are their message strings. Error wrapping
  (`errors.Is` and `errors.As`) is not modelled.
- **Text matching.** Go's regular expressions work on UTF-8 runes, and the
  model matches on characters. `\d` is the ASCII digits, as in Go.

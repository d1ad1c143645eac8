/** The enrollment client: submit the CSR, read the request identifier off
    the CA's answer, then download the chain and the leaf certificate.
    The transport is an oracle: a script of replies, one per request, and a
    log of the requests the client hands to it. */
module Client {
  import opened Models
  import opened Http
  import opened Submission
  import opened ResponseClassifier

  const ChainPath := "/certsrv/certnew.p7b"
  const LeafPath := "/certsrv/certnew.cer"
  const ChainContentType := "application/x-pkcs7-certificates"
  const LeafContentType := "application/pkix-cert"
  const B64Encoding := "b64"
  const SubmitFailed := "certificate request failed: "
  const SubmitUnreadable := "error reading response body from requesting certificates: "
  const NoRequestId := "failed to get request ID: "
  const DownloadsFailed := "certificate downloads failed: "
  const ChainFailed := "failed to download full certificate chain: "
  const BodyUnreadable := "error reading response body: "

  /** What a sequence of exchanges produced, and the requests it sent. */
  datatype Run<+T> = Run(result: Outcome<T>, requests: seq<HttpRequest>)

  /** The query both downloads carry. */
  function RetrievalQuery(reqId: string): map<string, string> {
    map["ReqID" := reqId, "Enc" := B64Encoding]
  }

  function ChainRequest(host: string, reqId: string): HttpRequest {
    HttpRequest("GET", "http://" + host + ChainPath, RetrievalQuery(reqId), map[], map[])
  }

  function LeafRequest(host: string, reqId: string): HttpRequest {
    HttpRequest("GET", "http://" + host + LeafPath, RetrievalQuery(reqId), map[], map[])
  }

  /** A 200 reply with a readable body of the given content type. */
  predicate Delivers(reply: Reply, contentType: string) {
    reply.Answered? && reply.response.status == StatusOk
    && reply.response.body.Read? && reply.response.contentType == contentType
  }

  // ---------------------------------------------------------------------------
  // Specification of RetrieveCertificates

  /** The downloads for `reqId` against the replies `replies`. */
  function Retrieval(host: string, reqId: string, replies: seq<Reply>): Run<Certificates> {
    var chainReq := WithUserAgent(ChainRequest(host, reqId));
    var chain := Exchange(Next(replies));
    if !chain.Ok? then Run(Err(ChainFailed + chain.message), [chainReq])
    else match chain.value.body
      case Unreadable(cause) => Run(Err(BodyUnreadable + cause), [chainReq])
      case Read(chainBody) =>
        if chain.value.contentType != ChainContentType then
          Run(Err(CheckDispositionError(chainBody)), [chainReq])
        else
          var requests := [chainReq, WithUserAgent(LeafRequest(host, reqId))];
          var leaf := Exchange(Next(Rest(replies)));
          if !leaf.Ok? then Run(Crashed(NilDereference), requests)
          else match leaf.value.body
            case Unreadable(cause) => Run(Err(BodyUnreadable + cause), requests)
            case Read(leafBody) =>
              if leaf.value.contentType != LeafContentType then
                Run(Err(CheckDispositionError(leafBody)), requests)
              else Run(Ok(Certificates(reqId, leafBody, chainBody)), requests)
  }

  /** The chain is requested first; the leaf is requested only after a chain
      response with exactly the PKCS #7 content type. */
  lemma RetrievalOrder(host: string, reqId: string, replies: seq<Reply>)
    ensures var run := Retrieval(host, reqId, replies);
      1 <= |run.requests| <= 2 && run.requests[0] == WithUserAgent(ChainRequest(host, reqId))
      && (|run.requests| == 2 <==> Delivers(Next(replies), ChainContentType))
      && (|run.requests| == 2 ==> run.requests[1] == WithUserAgent(LeafRequest(host, reqId)))
  {
  }

  /** Both downloads ask for `reqId` in base64, from the chain and leaf pages. */
  lemma RetrievalTargets(host: string, reqId: string, replies: seq<Reply>)
    ensures forall r :: r in Retrieval(host, reqId, replies).requests ==>
      r.verb == "GET" && r.query == map["ReqID" := reqId, "Enc" := "b64"] && r.headers["User-Agent"] == UserAgent
      && r.url in {"http://" + host + "/certsrv/certnew.p7b", "http://" + host + "/certsrv/certnew.cer"}
  {
    var chain, leaf := WithUserAgent(ChainRequest(host, reqId)), WithUserAgent(LeafRequest(host, reqId));
    RetrievalOrder(host, reqId, replies);
    assert forall r :: r in Retrieval(host, reqId, replies).requests ==> r == chain || r == leaf;
  }

  /** A chain response of any other content type: its body is classified and
      the leaf is never requested. */
  lemma ChainRejected(host: string, reqId: string, replies: seq<Reply>, contentType: string, body: string)
    requires Next(replies) == Answered(HttpResponse(StatusOk, contentType, Read(body)))
    requires contentType != ChainContentType
    ensures Retrieval(host, reqId, replies) == Run(Err(CheckDispositionError(body)), [WithUserAgent(ChainRequest(host, reqId))])
  {
  }

  /** A transport failure on the chain aborts before the leaf. */
  lemma ChainUnreachable(host: string, reqId: string, replies: seq<Reply>)
    requires !Exchange(Next(replies)).Ok?
    ensures Retrieval(host, reqId, replies)
      == Run(Err(ChainFailed + Exchange(Next(replies)).message), [WithUserAgent(ChainRequest(host, reqId))])
  {
  }

  /** A body that cannot be read ends the downloads with the read error. */
  lemma BodyUnreadableReported(host: string, reqId: string, replies: seq<Reply>)
    ensures var chain := Exchange(Next(replies));
      chain.Ok? && chain.value.body.Unreadable? ==>
        Retrieval(host, reqId, replies)
        == Run(Err(BodyUnreadable + chain.value.body.cause), [WithUserAgent(ChainRequest(host, reqId))])
    ensures var leaf := Exchange(Next(Rest(replies)));
      Delivers(Next(replies), ChainContentType) && leaf.Ok? && leaf.value.body.Unreadable? ==>
        Retrieval(host, reqId, replies)
        == Run(Err(BodyUnreadable + leaf.value.body.cause),
               [WithUserAgent(ChainRequest(host, reqId)), WithUserAgent(LeafRequest(host, reqId))])
  {
  }

  /** A leaf response of any other content type: its body is classified. */
  lemma LeafRejected(host: string, reqId: string, replies: seq<Reply>, contentType: string, body: string)
    requires Delivers(Next(replies), ChainContentType)
    requires Next(Rest(replies)) == Answered(HttpResponse(StatusOk, contentType, Read(body)))
    requires contentType != LeafContentType
    ensures Retrieval(host, reqId, replies)
      == Run(Err(CheckDispositionError(body)),
             [WithUserAgent(ChainRequest(host, reqId)), WithUserAgent(LeafRequest(host, reqId))])
  {
  }

  /** The leaf response is read before the transport error is looked at, so
      a failed leaf request crashes instead of reporting the failure. */
  lemma LeafUnreachableCrashes(host: string, reqId: string, replies: seq<Reply>)
    requires Delivers(Next(replies), ChainContentType)
    requires !Exchange(Next(Rest(replies))).Ok?
    ensures Retrieval(host, reqId, replies)
      == Run(Crashed(NilDereference),
             [WithUserAgent(ChainRequest(host, reqId)), WithUserAgent(LeafRequest(host, reqId))])
  {
  }

  /** All or nothing: a result exists exactly when both responses carry the
      expected content type, and it holds `reqId` and both bodies verbatim. */
  lemma RetrievalSucceeds(host: string, reqId: string, replies: seq<Reply>)
    ensures var run := Retrieval(host, reqId, replies);
      run.result.Ok? <==> Delivers(Next(replies), ChainContentType) && Delivers(Next(Rest(replies)), LeafContentType)
    ensures var run := Retrieval(host, reqId, replies);
      run.result.Ok? ==>
        run.requests == [WithUserAgent(ChainRequest(host, reqId)), WithUserAgent(LeafRequest(host, reqId))]
        && run.result.value == Certificates(reqId, Next(Rest(replies)).response.body.text, Next(replies).response.body.text)
  {
  }

  // ---------------------------------------------------------------------------
  // Specification of RequestCertificate

  /** The whole enrollment against the replies `replies`. */
  function Enrollment(host: string, csr: string, template: string, attributes: string,
                      replies: seq<Reply>): Run<Certificates>
  {
    var submit := WithUserAgent(BuildCertificateRequest(host, csr, template, attributes));
    var answer := Exchange(Next(replies));
    if !answer.Ok? then Run(Err(SubmitFailed + answer.message), [submit])
    else match answer.value.body
      case Unreadable(cause) =>
        Run(Err(SubmitUnreadable + cause), [submit])
      case Read(page) =>
        match GetReqId(page)
        case Err(m) => Run(Err(NoRequestId + m), [submit])
        case Crashed(f) => Run(Crashed(f), [submit])
        case Ok(reqId) =>
          var downloads := Retrieval(host, reqId, Rest(replies));
          var result := if downloads.result.Err?
            then Err(DownloadsFailed + downloads.result.message)
            else downloads.result;
          Run(result, [submit] + downloads.requests)
  }

  /** The page the CA answered the submission with, when it was delivered. */
  function SubmissionPage(replies: seq<Reply>): Option<string> {
    var answer := Exchange(Next(replies));
    if answer.Ok? && answer.value.body.Read? then Some(answer.value.body.text) else None
  }

  /** Once the page names a request identifier, the enrollment is the
      downloads for that identifier, with a download error wrapped. */
  lemma EnrollmentDownloads(host: string, csr: string, template: string, attributes: string,
                            replies: seq<Reply>, page: string, reqId: string)
    requires SubmissionPage(replies) == Some(page)
    requires GetReqId(page) == Ok(reqId)
    ensures var downloads := Retrieval(host, reqId, Rest(replies));
      Enrollment(host, csr, template, attributes, replies)
      == Run(if downloads.result.Err? then Err(DownloadsFailed + downloads.result.message)
             else downloads.result,
             [WithUserAgent(BuildCertificateRequest(host, csr, template, attributes))] + downloads.requests)
  {
  }

  /** The submission goes first; downloads follow only when the CA's page
      yields a request identifier, and they ask for exactly that identifier.
      Nothing is retried: at most three requests in all. */
  lemma EnrollmentOrder(host: string, csr: string, template: string, attributes: string, replies: seq<Reply>)
    ensures var run := Enrollment(host, csr, template, attributes, replies);
      1 <= |run.requests| <= 3
      && run.requests[0] == WithUserAgent(BuildCertificateRequest(host, csr, template, attributes))
    ensures var run := Enrollment(host, csr, template, attributes, replies);
      var page := SubmissionPage(replies);
      |run.requests| > 1 <==> page.Some? && GetReqId(page.value).Ok?
    ensures var run := Enrollment(host, csr, template, attributes, replies);
      var page := SubmissionPage(replies);
      page.Some? && GetReqId(page.value).Ok? ==>
        var reqId := GetReqId(page.value).value;
        run.requests[1..] == Retrieval(host, reqId, Rest(replies)).requests
        && run.requests[1] == WithUserAgent(ChainRequest(host, reqId))
  {
    var page := SubmissionPage(replies);
    if page.Some? && GetReqId(page.value).Ok? {
      var reqId := GetReqId(page.value).value;
      EnrollmentDownloads(host, csr, template, attributes, replies, page.value, reqId);
      RetrievalOrder(host, reqId, Rest(replies));
    }
  }

  /** Every failure before the downloads names the step that failed, and
      nothing is sent after the submission. */
  lemma EnrollmentErrors(host: string, csr: string, template: string, attributes: string, replies: seq<Reply>)
    ensures var answer := Exchange(Next(replies));
      !answer.Ok? ==>
        Enrollment(host, csr, template, attributes, replies)
        == Run(Err(SubmitFailed + answer.message),
               [WithUserAgent(BuildCertificateRequest(host, csr, template, attributes))])
    ensures var answer := Exchange(Next(replies));
      answer.Ok? && answer.value.body.Unreadable? ==>
        Enrollment(host, csr, template, attributes, replies)
        == Run(Err(SubmitUnreadable + answer.value.body.cause),
               [WithUserAgent(BuildCertificateRequest(host, csr, template, attributes))])
    ensures var page := SubmissionPage(replies);
      page.Some? && GetReqId(page.value).Err? ==>
        Enrollment(host, csr, template, attributes, replies)
        == Run(Err(NoRequestId + GetReqId(page.value).message),
               [WithUserAgent(BuildCertificateRequest(host, csr, template, attributes))])
    ensures var page := SubmissionPage(replies);
      page.Some? && GetReqId(page.value).Crashed? ==>
        Enrollment(host, csr, template, attributes, replies)
        == Run(Crashed(GetReqId(page.value).fault),
               [WithUserAgent(BuildCertificateRequest(host, csr, template, attributes))])
  {
    var answer := Exchange(Next(replies));
    if answer.Ok? && answer.value.body.Read? {
      assert SubmissionPage(replies) == Some(answer.value.body.text);
    }
  }

  /** A certificate comes back only from three delivered replies: the page
      naming the identifier, then the chain and the leaf, both verbatim. */
  lemma EnrollmentSucceeds(host: string, csr: string, template: string, attributes: string, replies: seq<Reply>)
    ensures var run := Enrollment(host, csr, template, attributes, replies);
      var page := SubmissionPage(replies);
      run.result.Ok? ==>
        |run.requests| == 3 && page.Some? && GetReqId(page.value).Ok?
        && Delivers(Next(Rest(replies)), ChainContentType)
        && Delivers(Next(Rest(Rest(replies))), LeafContentType)
        && run.result.value == Certificates(GetReqId(page.value).value,
                                            Next(Rest(Rest(replies))).response.body.text,
                                            Next(Rest(replies)).response.body.text)
  {
    var page := SubmissionPage(replies);
    if page.Some? && GetReqId(page.value).Ok? {
      RetrievalSucceeds(host, GetReqId(page.value).value, Rest(replies));
    }
  }

  /** The method's view of a successful classification: once the downloads
      have run from the script left after the submission, the enrollment's
      result, log and remaining script are theirs, with the error wrapped. */
  lemma DownloadsCompleteEnrollment(host: string, csr: string, template: string, attributes: string,
                                    script: seq<Reply>, page: string, id: string,
                                    sent0: seq<HttpRequest>, submitted: seq<HttpRequest>,
                                    sent1: seq<HttpRequest>, rest1: seq<Reply>,
                                    certificates: Outcome<Certificates>, r: Outcome<Certificates>)
    requires SubmissionPage(script) == Some(page) && GetReqId(page) == Ok(id)
    requires submitted == sent0 + [WithUserAgent(BuildCertificateRequest(host, csr, template, attributes))]
    requires var downloads := Retrieval(host, id, Rest(script));
      certificates == downloads.result && sent1 == submitted + downloads.requests
      && rest1 == Skip(Rest(script), |downloads.requests|)
    requires r == if certificates.Err? then Err(DownloadsFailed + certificates.message) else certificates
    ensures var run := Enrollment(host, csr, template, attributes, script);
      r == run.result && sent1 == sent0 + run.requests && rest1 == Skip(script, |run.requests|)
  {
    var downloads := Retrieval(host, id, Rest(script));
    var submit := WithUserAgent(BuildCertificateRequest(host, csr, template, attributes));
    var run := Enrollment(host, csr, template, attributes, script);
    EnrollmentDownloads(host, csr, template, attributes, script, page, id);
    assert run.requests == [submit] + downloads.requests && r == run.result;
    assert |run.requests| == 1 + |downloads.requests|;
    SkipAfter(script, |downloads.requests|);
    assert rest1 == Skip(script, |run.requests|);
    AppendAssoc(sent0, [submit], downloads.requests);
  }

  // ---------------------------------------------------------------------------
  // The client

  class AdcsClient {
    const hostUrl: string
    /** The replies the transport will give, in order. */
    var replies: seq<Reply>
    /** Every request handed to the transport, in order. */
    var sent: seq<HttpRequest>

    constructor (hostUrl: string, replies: seq<Reply>)
      ensures this.hostUrl == hostUrl && this.replies == replies && sent == []
    {
      this.hostUrl := hostUrl;
      this.replies := replies;
      sent := [];
    }

    /** DoRequest: stamp the User-Agent, send, and turn a network failure or
        a status other than 200 into an error. */
    method DoRequest(req: HttpRequest) returns (r: Outcome<HttpResponse>)
      modifies this
      ensures r == Exchange(Next(old(replies)))
      ensures sent == old(sent) + [WithUserAgent(req)] && replies == Rest(old(replies))
    {
      var reply := if replies == [] then NetworkFailure("no response") else replies[0];
      sent := sent + [WithUserAgent(req)];
      replies := if replies == [] then [] else replies[1..];
      r := Exchange(reply);
    }

    /** RetrieveCertificates: download the chain, then the leaf, for `reqId`. */
    method RetrieveCertificates(reqId: string) returns (r: Outcome<Certificates>)
      modifies this
      ensures var run := Retrieval(hostUrl, reqId, old(replies));
        r == run.result && sent == old(sent) + run.requests && replies == Skip(old(replies), |run.requests|)
      ensures r.Ok? ==> r.value.id == reqId
    {
      ghost var script := replies;
      SkipSteps(script);
      var certReturn := Certificates("", "", "");
      certReturn := certReturn.(id := reqId);

      var chainResp := DoRequest(ChainRequest(hostUrl, reqId));
      if !chainResp.Ok? {
        ChainUnreachable(hostUrl, reqId, script);
        return Err(ChainFailed + chainResp.message);
      }
      BodyUnreadableReported(hostUrl, reqId, script);
      if chainResp.value.body.Unreadable? {
        return Err(BodyUnreadable + chainResp.value.body.cause);
      }
      var body := chainResp.value.body.text;
      if chainResp.value.contentType != ChainContentType {
        ChainRejected(hostUrl, reqId, script, chainResp.value.contentType, body);
        return Err(CheckDispositionError(body));
      }
      certReturn := certReturn.(certificateChainB64 := body);

      var certResp := DoRequest(LeafRequest(hostUrl, reqId));
      assert sent == old(sent) + [WithUserAgent(ChainRequest(hostUrl, reqId)), WithUserAgent(LeafRequest(hostUrl, reqId))];
      // the content type is read off the response before the error is checked
      if !certResp.Ok? {
        LeafUnreachableCrashes(hostUrl, reqId, script);
        return Crashed(NilDereference);
      }
      if certResp.value.body.Unreadable? {
        return Err(BodyUnreadable + certResp.value.body.cause);
      }
      var certBody := certResp.value.body.text;
      if certResp.value.contentType != LeafContentType {
        LeafRejected(hostUrl, reqId, script, certResp.value.contentType, certBody);
        return Err(CheckDispositionError(certBody));
      }
      certReturn := certReturn.(certificateB64 := certBody);
      RetrievalSucceeds(hostUrl, reqId, script);
      return Ok(certReturn);
    }

    /** RequestCertificate: submit, read the request identifier, download. */
    method RequestCertificate(csr: string, template: string, attributes: string) returns (r: Outcome<Certificates>)
      modifies this
      ensures var run := Enrollment(hostUrl, csr, template, attributes, old(replies));
        r == run.result && sent == old(sent) + run.requests && replies == Skip(old(replies), |run.requests|)
    {
      var req := BuildCertificateRequest(hostUrl, csr, template, attributes);
      ghost var script := replies;
      ghost var run := Enrollment(hostUrl, csr, template, attributes, script);
      EnrollmentErrors(hostUrl, csr, template, attributes, script);
      SkipSteps(script);
      var resp := DoRequest(req);
      if !resp.Ok? {
        r := Err(SubmitFailed + resp.message);
        assert run == Run(r, [WithUserAgent(req)]);
      } else if resp.value.body.Unreadable? {
        r := Err(SubmitUnreadable + resp.value.body.cause);
        assert run == Run(r, [WithUserAgent(req)]);
      } else {
        assert SubmissionPage(script) == Some(resp.value.body.text);
        var reqId := GetReqId(resp.value.body.text);
        match reqId {
          case Err(m) =>
            r := Err(NoRequestId + m);
            assert run == Run(r, [WithUserAgent(req)]);
          case Crashed(f) =>
            r := Crashed(f);
            assert run == Run(r, [WithUserAgent(req)]);
          case Ok(id) =>
            ghost var submitted := sent;
            var certificates := RetrieveCertificates(id);
            if certificates.Err? {
              r := Err(DownloadsFailed + certificates.message);
            } else {
              r := certificates;
            }
            DownloadsCompleteEnrollment(hostUrl, csr, template, attributes, script, resp.value.body.text, id,
                                        old(sent), submitted, sent, replies, certificates, r);
        }
      }
    }
  }
}

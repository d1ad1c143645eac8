/** Four end-to-end enrollments (issued, pending, denied, chain refused)
    against concrete CA pages. The host, CSR, template and attributes are
    left arbitrary. Each scenario combines a lemma about the page with a
    lemma about the enrollment that holds for every page of that kind. */
module Scenarios {
  import opened Models
  import opened Scan
  import opened Http
  import opened Submission
  import opened ResponseClassifier
  import opened Client

  function Html(page: string): Reply {
    Answered(HttpResponse(StatusOk, "text/html", Read(page)))
  }

  function Delivered(contentType: string, body: string): Reply {
    Answered(HttpResponse(StatusOk, contentType, Read(body)))
  }

  // ---------------------------------------------------------------------------
  // Enrollments, for every page of a kind

  /** The CA answers with a page naming no request: that is the error, and
      nothing is downloaded. */
  lemma SubmissionRefused(host: string, csr: string, template: string, attributes: string,
                          page: string, m: string)
    requires GetReqId(page) == Err(m)
    ensures var run := Enrollment(host, csr, template, attributes, [Html(page)]);
      run.result == Err("failed to get request ID: " + m)
      && run.requests == [WithUserAgent(BuildCertificateRequest(host, csr, template, attributes))]
  {
  }

  /** The page names a request, but the chain download answers with a page
      of its own: its classification, wrapped, is the error. */
  lemma ChainRefused(host: string, csr: string, template: string, attributes: string,
                     page: string, id: string, chainPage: string, m: string)
    requires GetReqId(page) == Ok(id) && CheckDispositionError(chainPage) == m
    ensures var run := Enrollment(host, csr, template, attributes, [Html(page), Html(chainPage)]);
      run.result == Err(DownloadsFailed + m) && |run.requests| == 2
  {
    var replies := [Html(page), Html(chainPage)];
    var submit := WithUserAgent(BuildCertificateRequest(host, csr, template, attributes));
    var downloads := Retrieval(host, id, Rest(replies));
    assert SubmissionPage(replies) == Some(page);
    assert Rest(replies) == [Html(chainPage)];
    ChainRejected(host, id, Rest(replies), "text/html", chainPage);
    assert downloads == Run(Err(m), [WithUserAgent(ChainRequest(host, id))]);
    EnrollmentDownloads(host, csr, template, attributes, replies, page, id);
    assert Enrollment(host, csr, template, attributes, replies) == Run(Err(DownloadsFailed + m), [submit] + downloads.requests);
  }

  /** The page names a request and both downloads are delivered: the
      certificate of that request, with both bodies. */
  lemma DownloadsDelivered(host: string, csr: string, template: string, attributes: string,
                           page: string, id: string, chain: string, leaf: string)
    requires GetReqId(page) == Ok(id)
    ensures var run := Enrollment(host, csr, template, attributes,
                                  [Html(page), Delivered(ChainContentType, chain), Delivered(LeafContentType, leaf)]);
      run.result == Ok(Certificates(id, leaf, chain)) && |run.requests| == 3
  {
    var replies := [Html(page), Delivered(ChainContentType, chain), Delivered(LeafContentType, leaf)];
    assert Rest(replies) == [Delivered(ChainContentType, chain), Delivered(LeafContentType, leaf)];
    assert Rest(Rest(replies)) == [Delivered(LeafContentType, leaf)];
    RetrievalSucceeds(host, id, Rest(replies));
  }

  // ---------------------------------------------------------------------------
  // Pages, for every markup of a kind

  /** A page without a `w` has no issued link; without a `C`, no pending marker. */
  lemma PlainPage(page: string)
    ensures 'w' !in page ==> !HasLink(page)
    ensures 'C' !in page ==> !Contains(page, PendingMarker)
  {
    if 'w' !in page {
      MissingCharNoOccurrence(page, LinkHead, 6);
      NoLinkWithoutHead(page);
    }
    if 'C' !in page {
      MissingCharNoOccurrence(page, PendingMarker, 0);
    }
  }

  /** A link to the issued certificate, after markup holding no `w` and
      followed by markup holding no `?`, names its request. */
  lemma IssuedPage(pre: string, middle: string, id: string, post: string)
    requires 'w' !in pre && '\n' !in middle && '?' !in post
    requires id != [] && forall k :: 0 <= k < |id| ==> IsDigit(id[k])
    ensures GetReqId(LinkPage(pre, middle, id, post)) == Ok(id)
  {
    MissingCharNoOccurrence(pre, LinkHead, 6);
    var line := post[..StopAt(post, 0, '\n')];
    forall k | 0 <= k < |line| ensures line[k] != '?' {
      assert line[k] == post[k];
    }
    EmbeddedLinkFound(pre, middle, id, post);
  }

  /** A page holding the pending marker and no `w`: no issued link, and
      the marker is found. */
  lemma PendingPageMarked(open: string, close: string, n: string, c: char, post: string)
    requires 'w' !in open + close + n + post && c != 'w'
    ensures var page := open + PendingMarker + close + PendingPrefix + n + [c] + post;
      !HasLink(page) && Contains(page, PendingMarker)
  {
    var page := open + PendingMarker + close + PendingPrefix + n + [c] + post;
    assert 'w' !in PendingMarker && 'w' !in PendingPrefix;
    assert 'w' !in page;
    PlainPage(page);
    assert page[|open|..|open| + |PendingMarker|] == PendingMarker;
    assert HasAt(page, |open|, PendingMarker);
  }

  /** A page with no issued link but with the pending marker, whose first
      pending notice follows markup holding no `Y`: the request is reported
      as pending. */
  lemma PendingNoticeReported(pre: string, n: string, c: char, post: string)
    requires 'Y' !in pre
    requires n != [] && forall k :: 0 <= k < |n| ==> IsDigit(n[k])
    requires !IsDigit(c) && c != '\n'
    requires !HasLink(pre + PendingPrefix + n + [c] + post)
    requires Contains(pre + PendingPrefix + n + [c] + post, PendingMarker)
    ensures GetReqId(pre + PendingPrefix + n + [c] + post) == Err(PendingMessage + n)
  {
    var page := pre + PendingPrefix + n + [c] + post;
    EmbeddedPendingFound(pre, n, c, post);
    PendingReported(page, |pre|, |pre| + |PendingPrefix| + |n|);
  }

  /** A pending notice for request `n` inside markup holding no `w` and,
      before the notice, no `Y`: the request is reported as pending. */
  lemma PendingPage(open: string, close: string, n: string, c: char, post: string)
    requires 'w' !in open + close + n + post && c != 'w'
    requires 'Y' !in open + close
    requires n != [] && forall k :: 0 <= k < |n| ==> IsDigit(n[k])
    requires !IsDigit(c) && c != '\n'
    ensures GetReqId(open + PendingMarker + close + PendingPrefix + n + [c] + post) == Err(PendingMessage + n)
  {
    var pre := open + PendingMarker + close;
    assert pre + PendingPrefix + n + [c] + post == open + PendingMarker + close + PendingPrefix + n + [c] + post;
    PendingPageMarked(open, close, n, c, post);
    assert 'Y' !in PendingMarker;
    PendingNoticeReported(pre, n, c, post);
  }

  /** A denial page whose markup and text hold no `T`, `w` or `C` is
      classified by its disposition text alone. */
  lemma DeniedPageClassified(a: string, t: string, b: string, c: string)
    requires 'T' !in a && 'T' !in b && 'T' !in c
    requires 'w' !in a + t + b + c && 'C' !in a + t + b + c
    requires t != [] && '"' !in t
    ensures GetReqId(a + Quotation(t) + b + Quotation(t) + c) == Err(DispositionPrefix + t)
  {
    var page := a + Quotation(t) + b + Quotation(t) + c;
    assert 'w' !in DispositionPrefix && 'C' !in DispositionPrefix;
    forall x | x in page ensures x in a + t + b + c || x in DispositionPrefix || x == '"' {
    }
    PlainPage(page);
    DispositionAgreement(page);
    DenialPageScan(a, t, b, c);
  }

  // ---------------------------------------------------------------------------
  // The sample pages
  //
  // The pieces of each sample page are parameters pinned to literals by the
  // requires clause rather than named constants: the solver then reasons
  // about the pieces abstractly and looks at each literal only where a
  // character test needs it, which keeps these proofs cheap.

  /** The sample submission answer links to the issued request 42. */
  lemma SampleLinkPage(pre: string, middle: string, id: string, post: string)
    requires pre == "<a href=\"/certsrv/" && middle == ".asp" && id == "42"
    requires post == "Enc=b64\">Download certificate</a>"
    ensures GetReqId(LinkPage(pre, middle, id, post)) == Ok(id)
  {
    assert IsDigit(id[0]) && IsDigit(id[1]);
    IssuedPage(pre, middle, id, post);
  }

  /** The sample denial page quotes the disposition text twice. */
  lemma SampleDenialPage(a: string, t: string, b: string, c: string)
    requires a == "<p>" && t == "Denied by Policy Module" && b == "<br>" && c == "</p>"
    ensures GetReqId(a + Quotation(t) + b + Quotation(t) + c) == Err(DispositionPrefix + t)
  {
    assert 'w' !in a && 'w' !in t && 'w' !in b && 'w' !in c;
    assert 'C' !in a && 'C' !in t && 'C' !in b && 'C' !in c;
    DeniedPageClassified(a, t, b, c);
  }

  /** The sample download answer quotes the disposition text once. */
  lemma SampleQuotedOnce(a: string, t: string, c: string)
    requires a == "<p>" && t == "Denied by Policy Module" && c == "</p>"
    ensures CheckDispositionError(a + Quotation(t) + c) == UnknownError
  {
    SingleDispositionScan(a, t, c);
  }

  // ---------------------------------------------------------------------------
  // The scenarios

  /** Issued: the submission page links to request 42; chain and
      leaf are delivered with their content types. */
  lemma ScenarioIssued(host: string, csr: string, template: string, attributes: string,
                       pre: string, middle: string, id: string, post: string)
    requires pre == "<a href=\"/certsrv/" && middle == ".asp" && id == "42"
    requires post == "Enc=b64\">Download certificate</a>"
    ensures var replies := [Html(LinkPage(pre, middle, id, post)),
                            Delivered("application/x-pkcs7-certificates", "CHAINDATA"),
                            Delivered("application/pkix-cert", "CERTDATA")];
      var run := Enrollment(host, csr, template, attributes, replies);
      run.result == Ok(Certificates("42", "CERTDATA", "CHAINDATA")) && |run.requests| == 3
  {
    SampleLinkPage(pre, middle, id, post);
    DownloadsDelivered(host, csr, template, attributes, LinkPage(pre, middle, id, post), id, "CHAINDATA", "CERTDATA");
  }
  /** Pending: the page announces request 17 as pending; the
      call fails naming 17 and nothing is downloaded. */
  lemma ScenarioPending(host: string, csr: string, template: string, attributes: string,
                        open: string, close: string, n: string, post: string)
    requires open == "<h2>" && close == "</h2><p>" && n == "17" && post == " Please come back later.</p>"
    ensures var page := open + PendingMarker + close + PendingPrefix + n + ['.'] + post;
      var run := Enrollment(host, csr, template, attributes, [Html(page)]);
      run.result == Err("failed to get request ID: " + (PendingMessage + n)) && |run.requests| == 1
  {
    assert IsDigit(n[0]) && IsDigit(n[1]);
    PendingPage(open, close, n, '.', post);
    SubmissionRefused(host, csr, template, attributes,
                      open + PendingMarker + close + PendingPrefix + n + ['.'] + post, PendingMessage + n);
  }

  /** Denied: the disposition text appears twice (summary and
      detail); the call fails with the first quotation, prefix included,
      and nothing is downloaded. */
  lemma ScenarioDenied(host: string, csr: string, template: string, attributes: string,
                       a: string, t: string, b: string, c: string)
    requires a == "<p>" && t == "Denied by Policy Module" && b == "<br>" && c == "</p>"
    ensures var page := a + Quotation(t) + b + Quotation(t) + c;
      var run := Enrollment(host, csr, template, attributes, [Html(page)]);
      run.result == Err("failed to get request ID: " + (DispositionPrefix + t))
      && |run.requests| == 1
  {
    SampleDenialPage(a, t, b, c);
    SubmissionRefused(host, csr, template, attributes,
                      a + Quotation(t) + b + Quotation(t) + c, DispositionPrefix + t);
  }

  /** Chain refused: the chain download answers with an HTML page quoting a
      disposition once; the download fails with the generic error. */
  lemma ScenarioChainRefused(host: string, csr: string, template: string, attributes: string,
                             pre: string, middle: string, id: string, post: string,
                             a: string, t: string, c: string)
    requires pre == "<a href=\"/certsrv/" && middle == ".asp" && id == "42"
    requires post == "Enc=b64\">Download certificate</a>"
    requires a == "<p>" && t == "Denied by Policy Module" && c == "</p>"
    ensures var run := Enrollment(host, csr, template, attributes,
                                  [Html(LinkPage(pre, middle, id, post)), Html(a + Quotation(t) + c)]);
      run.result == Err("certificate downloads failed: " + UnknownError) && |run.requests| == 2
  {
    SampleLinkPage(pre, middle, id, post);
    SampleQuotedOnce(a, t, c);
    ChainRefused(host, csr, template, attributes, LinkPage(pre, middle, id, post), id, a + Quotation(t) + c, UnknownError);
  }
}

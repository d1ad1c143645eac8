/** HTTP as the enrollment client sees it: requests it builds, and a
    transport that answers each request with a failure or a response.
    `Exchange` is the contract of the client's `DoRequest`. */
module Http {
  import opened Models
  import opened Scan

  const StatusOk: nat := 200
  const UserAgent := "Mozilla/5.0 Terraform ADCS Provider "

  /** A request: verb, URL, query parameters, headers and form fields, each
      as key/value pairs before percent-encoding. */
  datatype HttpRequest = HttpRequest(
    verb: string, url: string, query: map<string, string>,
    headers: map<string, string>, form: map<string, string>)

  /** A response body, or the failure that interrupted reading it. */
  datatype Body = Read(text: string) | Unreadable(cause: string)

  /** `contentType` is the first `Content-Type` header value, "" when absent. */
  datatype HttpResponse = HttpResponse(status: nat, contentType: string, body: Body)

  /** What the network makes of one request. */
  datatype Reply = NetworkFailure(cause: string) | Answered(response: HttpResponse)

  /** The reply to the next request: the head of the script, or a network
      failure once the script is exhausted. */
  function Next(replies: seq<Reply>): Reply {
    if replies == [] then NetworkFailure("no response") else replies[0]
  }

  function Rest(replies: seq<Reply>): (rest: seq<Reply>)
    ensures |rest| == if replies == [] then 0 else |replies| - 1
  {
    if replies == [] then [] else replies[1..]
  }

  /** The script left after `n` requests. */
  function Skip(replies: seq<Reply>, n: nat): seq<Reply> {
    if n == 0 then replies else Skip(Rest(replies), n - 1)
  }

  lemma SkipSteps(replies: seq<Reply>)
    ensures Skip(replies, 1) == Rest(replies)
    ensures Skip(replies, 2) == Rest(Rest(replies))
    ensures Skip(replies, 3) == Rest(Rest(Rest(replies)))
  {
    assert Skip(replies, 3) == Skip(Rest(replies), 2) == Skip(Rest(Rest(replies)), 1);
  }

  lemma SkipAfter(replies: seq<Reply>, n: nat)
    ensures Skip(replies, 1 + n) == Skip(Rest(replies), n)
  {
  }

  /** The request as it goes on the wire: with the client's User-Agent. */
  function WithUserAgent(req: HttpRequest): (r: HttpRequest)
    ensures r.headers.Keys == req.headers.Keys + {"User-Agent"} && r.headers["User-Agent"] == UserAgent
    ensures r.verb == req.verb && r.url == req.url && r.query == req.query && r.form == req.form
    ensures forall h :: h in req.headers && h != "User-Agent" ==> r.headers[h] == req.headers[h]
  {
    req.(headers := req.headers["User-Agent" := UserAgent])
  }

  /** DoRequest's result for a reply: a network failure or any status other
      than 200 becomes an error; a 200 response is handed back unchanged. */
  function Exchange(reply: Reply): (r: Outcome<HttpResponse>)
    ensures r.Ok? <==> reply.Answered? && reply.response.status == StatusOk
    ensures r.Ok? ==> r.value == reply.response
    ensures reply.NetworkFailure? ==> r == Err("error making request: " + reply.cause)
    ensures reply.Answered? && reply.response.status != StatusOk ==>
      r == Err("status error: " + Decimal(reply.response.status))
    ensures !r.Crashed?
  {
    match reply
    case NetworkFailure(cause) => Err("error making request: " + cause)
    case Answered(resp) =>
      if resp.status != StatusOk then Err("status error: " + Decimal(resp.status)) else Ok(resp)
  }

  // ---------------------------------------------------------------------------
  // Decimal rendering of a status code (the `%v` verb on an int)

  function DigitChar(d: nat): (c: char)
    requires d < 10
    ensures IsDigit(c)
  {
    ['0', '1', '2', '3', '4', '5', '6', '7', '8', '9'][d]
  }

  function DigitValue(c: char): nat
    requires IsDigit(c)
  {
    (c - '0') as nat
  }

  function Decimal(n: nat): (s: string)
    ensures s != [] && forall k :: 0 <= k < |s| ==> IsDigit(s[k])
    ensures |s| > 1 ==> s[0] != '0'
  {
    if n < 10 then [DigitChar(n)] else Decimal(n / 10) + [DigitChar(n % 10)]
  }

  /** The number a string of decimal digits denotes. */
  function DecimalValue(s: string): nat
    requires forall k :: 0 <= k < |s| ==> IsDigit(s[k])
  {
    if s == [] then 0 else 10 * DecimalValue(s[..|s| - 1]) + DigitValue(s[|s| - 1])
  }

  /** The rendered code reads back as the code. */
  lemma {:induction false} DecimalRoundTrip(n: nat)
    ensures DecimalValue(Decimal(n)) == n
  {
    var s := Decimal(n);
    if n >= 10 {
      DecimalRoundTrip(n / 10);
      assert s[..|s| - 1] == Decimal(n / 10);
    }
    assert DigitValue(DigitChar(n % 10)) == n % 10;
  }
}

/** The response classifier: reads the CA's HTML page and finds the request
    identifier, the pending notice or the disposition (denial) message.
    Each of the three regular expressions is modelled by a dedicated scanner
    together with a declarative description of the match Go's leftmost-first
    search prefers; the scanners are proved to return exactly that match. */
module ResponseClassifier {
  import opened Models
  import opened Scan

  const LinkHead := "certnew"
  const LinkQuery := "?ReqID="
  const PendingMarker := "Certificate Pending"
  const PendingPrefix := "Your Request Id is "
  const DispositionPrefix := "The disposition message is \""
  const PendingMessage := "certificate pending for request id "
  const UnknownError := "an unkown error occured"
  /** The sub-expression names of the link pattern: the whole match, the
      unnamed `(certnew.*)` group and the named `ReqID` group. */
  const LinkGroupNames: seq<string> := ["", "", "ReqID"]

  // ---------------------------------------------------------------------------
  // Issued link: (certnew.*)\?ReqID=(?P<ReqID>\d+)&

  /** `?ReqID=` at `j`, a non-empty run of digits, and `&` at `e`. */
  ghost predicate QueryAt(s: string, j: nat, e: nat) {
    HasAt(s, j, LinkQuery) && j + |LinkQuery| < e < |s|
    && AllDigits(s, j + |LinkQuery|, e) && s[e] == '&'
  }

  /** A match of the link pattern: `certnew` at `i`, the `.*` spanning
      `s[i + 7..j]` without a line break, then the query at `j` closed at `e`. */
  ghost predicate LinkMatch(s: string, i: nat, j: nat, e: nat) {
    HasAt(s, i, LinkHead) && i + |LinkHead| <= j <= |s|
    && Avoids(s, i + |LinkHead|, j, '\n') && QueryAt(s, j, e)
  }

  ghost predicate HasLink(s: string) {
    exists i: nat, j: nat, e: nat :: LinkMatch(s, i, j, e)
  }

  /** The match leftmost-first search reports: the earliest start and, for
      that start, the longest `.*` (greedy). */
  ghost predicate PreferredLink(s: string, i: nat, j: nat, e: nat) {
    LinkMatch(s, i, j, e)
    && (forall i': nat, j': nat, e': nat :: i' < i ==> !LinkMatch(s, i', j', e'))
    && (forall j': nat, e': nat :: j < j' ==> !LinkMatch(s, i, j', e'))
  }

  /** The `&` closing the query that starts at `j`, if there is one. */
  function QueryEnd(s: string, j: nat): (r: Option<nat>)
    ensures forall e: nat :: QueryAt(s, j, e) <==> r == Some(e)
  {
    if HasAt(s, j, LinkQuery) then
      var e := DigitEnd(s, j + |LinkQuery|);
      if j + |LinkQuery| < e < |s| && s[e] == '&' then Some(e) else None
    else None
  }

  /** The last query starting in `[lo, hi]`. */
  function LastQuery(s: string, lo: nat, hi: nat): (r: Option<(nat, nat)>)
    requires lo <= hi
    ensures r.Some? ==> lo <= r.value.0 <= hi && QueryAt(s, r.value.0, r.value.1)
    ensures r.Some? ==> forall j: nat, e: nat :: r.value.0 < j <= hi ==> !QueryAt(s, j, e)
    ensures r.None? ==> forall j: nat, e: nat :: lo <= j <= hi ==> !QueryAt(s, j, e)
    decreases hi - lo
  {
    match QueryEnd(s, hi)
    case Some(e) => Some((hi, e))
    case None => if hi == lo then None else LastQuery(s, lo, hi - 1)
  }

  datatype LinkSpan = LinkSpan(start: nat, query: nat, amp: nat)

  /** The preferred link match among those starting at or after `i`. */
  function FindLinkFrom(s: string, i: nat): (r: Option<LinkSpan>)
    requires i <= |s|
    ensures r.Some? ==> i <= r.value.start && LinkMatch(s, r.value.start, r.value.query, r.value.amp)
    ensures r.Some? ==> forall i': nat, j': nat, e': nat :: i <= i' < r.value.start ==> !LinkMatch(s, i', j', e')
    ensures r.Some? ==> forall j': nat, e': nat :: r.value.query < j' ==> !LinkMatch(s, r.value.start, j', e')
    ensures r.None? ==> forall i': nat, j': nat, e': nat :: i <= i' ==> !LinkMatch(s, i', j', e')
    decreases |s| - i
  {
    if |s| < i + |LinkHead| then None
    else
      var lineEnd := StopAt(s, i + |LinkHead|, '\n');
      var last := if HasAt(s, i, LinkHead) then LastQuery(s, i + |LinkHead|, lineEnd) else None;
      if last.Some? then
        LinkLineBound(s, i, lineEnd);
        Some(LinkSpan(i, last.value.0, last.value.1))
      else
        LinkLineBound(s, i, lineEnd);
        FindLinkFrom(s, i + 1)
  }

  /** A link starting at `i` ends its `.*` no later than the first line break. */
  lemma LinkLineBound(s: string, i: nat, lineEnd: nat)
    requires i + |LinkHead| <= |s| && lineEnd == StopAt(s, i + |LinkHead|, '\n')
    ensures forall j: nat, e: nat :: LinkMatch(s, i, j, e) ==> j <= lineEnd
    ensures forall j: nat, e: nat :: HasAt(s, i, LinkHead) && i + |LinkHead| <= j <= lineEnd && QueryAt(s, j, e)
              ==> LinkMatch(s, i, j, e)
  {
    forall j: nat, e: nat | LinkMatch(s, i, j, e) && lineEnd < j
      ensures false
    {
    }
  }

  /** Leftmost-first search has one answer. */
  lemma PreferredLinkUnique(s: string, i: nat, j: nat, e: nat, i': nat, j': nat, e': nat)
    requires PreferredLink(s, i, j, e) && PreferredLink(s, i', j', e')
    ensures i == i' && j == j' && e == e'
  {
    assert i == i';
    assert j == j';
    assert QueryAt(s, j, e) && QueryAt(s, j, e');
    assert QueryEnd(s, j) == Some(e) == Some(e');
  }

  /** `FindStringSubmatch` for the link pattern: nothing when there is no
      match, otherwise the preferred match followed by its two groups. */
  function LinkSubmatch(s: string): (groups: seq<string>)
    ensures groups == [] || |groups| == |LinkGroupNames|
    ensures groups == [] <==> !HasLink(s)
    ensures forall i: nat, j: nat, e: nat :: PreferredLink(s, i, j, e) ==>
      groups == [s[i..e + 1], s[i..j], s[j + |LinkQuery|..e]]
  {
    match FindLinkFrom(s, 0)
    case None => []
    case Some(m) =>
      assert LinkMatch(s, m.start, m.query, m.amp);
      forall i: nat, j: nat, e: nat | PreferredLink(s, i, j, e)
        ensures i == m.start && j == m.query && e == m.amp
      {
        PreferredLinkUnique(s, i, j, e, m.start, m.query, m.amp);
      }
      [s[m.start..m.amp + 1], s[m.start..m.query], s[m.query + |LinkQuery|..m.amp]]
  }

  /** The map filled by the loop over the sub-expression names: entry `i`
      (for `0 < i <= |groups|`) records `groups[i]` under `names[i]`.
      `n` is the number of names visited so far. */
  function NamedGroups(names: seq<string>, groups: seq<string>, n: nat): (m: map<string, string>)
    requires groups == [] || |groups| == |names|
    requires n <= |names|
    ensures groups == [] ==> m == map[]
    ensures groups != [] ==> forall k :: 0 < k < n ==> names[k] in m
    ensures groups != [] ==> forall key :: key in m ==> exists k :: 0 < k < n && names[k] == key
    ensures groups != [] ==> forall k :: 0 < k < n && (forall k' :: k < k' < n ==> names[k'] != names[k]) ==>
      m[names[k]] == groups[k]
  {
    if n == 0 then map[]
    else
      var m := NamedGroups(names, groups, n - 1);
      var i := n - 1;
      if 0 < i <= |groups| then
        var m' := m[names[i] := groups[i]];
        forall k | 0 < k < n && (forall k' :: k < k' < n ==> names[k'] != names[k])
          ensures m'[names[k]] == groups[k]
        {
          if k < i {
            assert names[i] != names[k];
          }
        }
        m'
      else m
  }

  /** The map holds a `ReqID` entry exactly when the link pattern matched,
      and then it is the digit group. */
  lemma ReqIdRecorded(groups: seq<string>)
    requires groups == [] || |groups| == |LinkGroupNames|
    ensures var m := NamedGroups(LinkGroupNames, groups, |LinkGroupNames|);
      ("ReqID" in m <==> groups != []) && (groups != [] ==> m["ReqID"] == groups[2])
  {
    assert LinkGroupNames[1] != "ReqID";
  }

  // ---------------------------------------------------------------------------
  // Pending notice: Your Request Id is (?P<ReqID>\d+).

  /** A match of the pending pattern: the prefix at `p`, the digits
      `s[p + 19..c]` and one more character (not a line break) at `c`. */
  ghost predicate PendingMatch(s: string, p: nat, c: nat) {
    HasAt(s, p, PendingPrefix) && p + |PendingPrefix| < c < |s|
    && AllDigits(s, p + |PendingPrefix|, c) && s[c] != '\n'
  }

  /** The earliest start and, for it, the longest digit group (greedy `\d+`). */
  ghost predicate PreferredPending(s: string, p: nat, c: nat) {
    PendingMatch(s, p, c)
    && (forall p': nat, c': nat :: p' < p ==> !PendingMatch(s, p', c'))
    && (forall c': nat :: c < c' ==> !PendingMatch(s, p, c'))
  }

  /** The index of the character the trailing `.` consumes, for a match at `p`.
      When the digit run is followed by a line break or the end of the text,
      `\d+` gives back its last digit for `.` to consume. */
  function PendingDot(s: string, p: nat): (r: Option<nat>)
    ensures r.Some? ==> PendingMatch(s, p, r.value) && forall c: nat :: r.value < c ==> !PendingMatch(s, p, c)
    ensures r.None? ==> forall c: nat :: !PendingMatch(s, p, c)
  {
    if !HasAt(s, p, PendingPrefix) then None
    else
      var d := p + |PendingPrefix|;
      var e := DigitEnd(s, d);
      if e == d then None
      else if e < |s| && s[e] != '\n' then Some(e)
      else if d < e - 1 then Some(e - 1)
      else None
  }

  /** The preferred pending match among those starting at or after `p`. */
  function FindPendingFrom(s: string, p: nat): (r: Option<(nat, nat)>)
    requires p <= |s|
    ensures r.Some? ==> p <= r.value.0 && PendingMatch(s, r.value.0, r.value.1)
    ensures r.Some? ==> forall p': nat, c': nat :: p <= p' < r.value.0 ==> !PendingMatch(s, p', c')
    ensures r.Some? ==> forall c': nat :: r.value.1 < c' ==> !PendingMatch(s, r.value.0, c')
    ensures r.None? ==> forall p': nat, c': nat :: p <= p' ==> !PendingMatch(s, p', c')
    decreases |s| - p
  {
    if p == |s| then None
    else
      match PendingDot(s, p)
      case Some(c) => Some((p, c))
      case None => FindPendingFrom(s, p + 1)
  }

  lemma PreferredPendingUnique(s: string, p: nat, c: nat, p': nat, c': nat)
    requires PreferredPending(s, p, c) && PreferredPending(s, p', c')
    ensures p == p' && c == c'
  {
  }

  // ---------------------------------------------------------------------------
  // Disposition message: The disposition message is "([^"]+)

  /** A match starts at `q`: the prefix, then at least one character other
      than a double quote. */
  predicate DispositionAt(s: string, q: nat) {
    HasAt(s, q, DispositionPrefix) && q + |DispositionPrefix| < |s|
    && s[q + |DispositionPrefix|] != '"'
  }

  /** Where the match at `q` ends: `[^"]+` runs, across line breaks, up to the
      next double quote or the end of the text. */
  function DispositionEnd(s: string, q: nat): (e: nat)
    requires DispositionAt(s, q)
    ensures q + |DispositionPrefix| < e <= |s|
    ensures Avoids(s, q + |DispositionPrefix|, e, '"') && (e < |s| ==> s[e] == '"')
  {
    StopAt(s, q + |DispositionPrefix|, '"')
  }

  ghost predicate NoDispositionIn(s: string, lo: nat, hi: nat) {
    forall q: nat :: lo <= q < hi ==> !DispositionAt(s, q)
  }

  /** `ps` are the starts of the successive non-overlapping matches found by
      scanning left to right from `from`, each search resuming where the
      previous match ended. */
  ghost predicate Scanned(s: string, from: nat, ps: seq<nat>)
    decreases |ps|
  {
    if ps == [] then NoDispositionIn(s, from, |s|)
    else
      from <= ps[0] && NoDispositionIn(s, from, ps[0]) && DispositionAt(s, ps[0])
      && Scanned(s, DispositionEnd(s, ps[0]), ps[1..])
  }

  /** The scan `FindAllString` performs, as match starts. */
  function DispositionStarts(s: string, from: nat): (ps: seq<nat>)
    requires from <= |s|
    ensures Scanned(s, from, ps)
    decreases |s| - from
  {
    if from == |s| then []
    else if DispositionAt(s, from) then [from] + DispositionStarts(s, DispositionEnd(s, from))
    else DispositionStarts(s, from + 1)
  }

  /** A scan from a given position has one result. */
  lemma {:induction false} ScannedUnique(s: string, from: nat, ps: seq<nat>, qs: seq<nat>)
    requires Scanned(s, from, ps) && Scanned(s, from, qs)
    ensures ps == qs
    decreases |ps|
  {
    if ps != [] && qs != [] {
      assert ps[0] == qs[0];
      ScannedUnique(s, DispositionEnd(s, ps[0]), ps[1..], qs[1..]);
      assert ps == [ps[0]] + ps[1..] && qs == [qs[0]] + qs[1..];
    }
  }

  /** Every start in a scan is a match at or after where the scan began. */
  lemma {:induction false} ScannedStarts(s: string, from: nat, ps: seq<nat>)
    requires Scanned(s, from, ps)
    ensures forall k :: 0 <= k < |ps| ==> from <= ps[k] && DispositionAt(s, ps[k])
    decreases |ps|
  {
    if ps != [] {
      ScannedStarts(s, DispositionEnd(s, ps[0]), ps[1..]);
      forall k | 0 < k < |ps|
        ensures from <= ps[k] && DispositionAt(s, ps[k])
      {
        assert ps[k] == ps[1..][k - 1];
      }
    }
  }

  /** Every start in a scan is a match, and matches do not overlap. */
  lemma {:induction false} ScannedMatches(s: string, from: nat, ps: seq<nat>)
    requires Scanned(s, from, ps)
    ensures forall k :: 0 <= k < |ps| ==> from <= ps[k] && DispositionAt(s, ps[k])
    ensures forall k :: 0 <= k < |ps| - 1 ==> DispositionEnd(s, ps[k]) <= ps[k + 1]
    decreases |ps|
  {
    ScannedStarts(s, from, ps);
    if ps != [] {
      ScannedMatches(s, DispositionEnd(s, ps[0]), ps[1..]);
      forall k | 0 <= k < |ps| - 1
        ensures DispositionEnd(s, ps[k]) <= ps[k + 1]
      {
        if k > 0 { assert ps[k] == ps[1..][k - 1] && ps[k + 1] == ps[1..][k]; }
      }
    }
  }

  /** The text of the match at `q`: the prefix, then a non-empty run free
      of double quotes. */
  lemma DispositionText(s: string, q: nat)
    requires DispositionAt(s, q)
    ensures var m := s[q..DispositionEnd(s, q)];
      |DispositionPrefix| < |m| && m[..|DispositionPrefix|] == DispositionPrefix
      && '"' !in m[|DispositionPrefix|..]
  {
    var m := s[q..DispositionEnd(s, q)];
    assert m[..|DispositionPrefix|] == s[q..q + |DispositionPrefix|];
    forall x | 0 <= x < |m| - |DispositionPrefix|
      ensures m[|DispositionPrefix|..][x] != '"'
    {
      assert m[|DispositionPrefix|..][x] == s[q + |DispositionPrefix| + x];
    }
  }

  /** `FindAllString(data, -1)` for the disposition pattern: the text of each
      match, prefix included, closing quote excluded. */
  function DispositionMatches(s: string): (ms: seq<string>)
    ensures forall m :: m in ms ==>
      |DispositionPrefix| < |m| && m[..|DispositionPrefix|] == DispositionPrefix
      && '"' !in m[|DispositionPrefix|..]
    ensures forall ps :: Scanned(s, 0, ps) ==> (ScannedStarts(s, 0, ps);
      |ms| == |ps| && forall k :: 0 <= k < |ps| ==> ms[k] == s[ps[k]..DispositionEnd(s, ps[k])])
  {
    var ps := DispositionStarts(s, 0);
    ScannedMatches(s, 0, ps);
    var ms := seq(|ps|, k requires 0 <= k < |ps| => s[ps[k]..DispositionEnd(s, ps[k])]);
    forall ps' | Scanned(s, 0, ps')
      ensures ps' == ps
    {
      ScannedUnique(s, 0, ps', ps);
    }
    forall m | m in ms
      ensures |DispositionPrefix| < |m| && m[..|DispositionPrefix|] == DispositionPrefix
      ensures '"' !in m[|DispositionPrefix|..]
    {
      var k :| 0 <= k < |ms| && ms[k] == m;
      DispositionText(s, ps[k]);
    }
    ms
  }

  // ---------------------------------------------------------------------------
  // The two classifiers of certificates.go

  /** getReqID: the request identifier from the issued link; otherwise the
      pending notice, the disposition message or the generic error. */
  function GetReqId(data: string): (r: Outcome<string>)
    ensures r.Ok? <==> HasLink(data)
    ensures r.Ok? ==> r.value != [] && forall k :: 0 <= k < |r.value| ==> IsDigit(r.value[k])
    ensures r.Crashed? ==> r.fault == IndexOutOfRange
  {
    var groups := LinkSubmatch(data);
    var matchMap := NamedGroups(LinkGroupNames, groups, |LinkGroupNames|);
    ReqIdRecorded(groups);
    if "ReqID" !in matchMap then
      if Contains(data, PendingMarker) then
        match FindPendingFrom(data, 0)
        case None => Crashed(IndexOutOfRange)
        case Some((p, c)) => Err(PendingMessage + data[p + |PendingPrefix|..c])
      else
        var dispoMatch := DispositionMatches(data);
        if |dispoMatch| != 2 then Err(UnknownError) else Err(dispoMatch[0])
    else
      var m := FindLinkFrom(data, 0).value;
      assert forall k :: 0 <= k < |matchMap["ReqID"]| ==> matchMap["ReqID"][k] == data[m.query + |LinkQuery| + k];
      Ok(matchMap["ReqID"])
  }

  /** checkDispostionError: the error for a page that carries no artifact.
      When the scan finds exactly two disposition matches, the text of the
      first one, prefix included, which is never the generic error; any other
      count gives the generic error. It never reports success. */
  function CheckDispositionError(data: string): (message: string)
    ensures forall ps :: Scanned(data, 0, ps) ==>
      (|ps| == 2 ==> message == data[ps[0]..DispositionEnd(data, ps[0])] && message != UnknownError)
      && (|ps| != 2 ==> message == UnknownError)
  {
    var matches := DispositionMatches(data);
    ghost var starts := DispositionStarts(data, 0);
    forall ps | Scanned(data, 0, ps)
      ensures ps == starts
    {
      ScannedUnique(data, 0, ps, starts);
    }
    if |matches| != 2 then UnknownError
    else
      assert matches[0] in matches;
      assert matches[0][..|DispositionPrefix|][0] == 'T' != UnknownError[0];
      matches[0]
  }

  // ---------------------------------------------------------------------------
  // What the classifier reports, branch by branch

  /** The issued link wins over every other rule: the digits of the preferred
      link match are returned, whatever else the page says. */
  lemma IssuedLinkReported(data: string, i: nat, j: nat, e: nat)
    requires PreferredLink(data, i, j, e)
    ensures GetReqId(data) == Ok(data[j + |LinkQuery|..e])
  {
    var groups := LinkSubmatch(data);
    assert groups != [] && groups[2] == data[j + |LinkQuery|..e];
    ReqIdRecorded(groups);
  }

  /** No link and the pending marker present: the pending error naming the
      digits of the preferred pending match. */
  lemma PendingReported(data: string, p: nat, c: nat)
    requires !HasLink(data) && Contains(data, PendingMarker)
    requires PreferredPending(data, p, c)
    ensures GetReqId(data) == Err(PendingMessage + data[p + |PendingPrefix|..c])
  {
    var found := FindPendingFrom(data, 0);
    PreferredPendingUnique(data, p, c, found.value.0, found.value.1);
    ReqIdRecorded(LinkSubmatch(data));
  }

  /** No link, the pending marker present, but no `Your Request Id is N.`
      anywhere: the match slice is indexed anyway and the program crashes. */
  lemma PendingWithoutIdCrashes(data: string)
    requires !HasLink(data) && Contains(data, PendingMarker)
    requires forall p: nat, c: nat :: !PendingMatch(data, p, c)
    ensures GetReqId(data) == Crashed(IndexOutOfRange)
  {
    ReqIdRecorded(LinkSubmatch(data));
  }

  /** Neither link nor pending marker: getReqID's last branch gives the same
      error as checkDispostionError on the same page. */
  lemma DispositionAgreement(data: string)
    requires !HasLink(data) && !Contains(data, PendingMarker)
    ensures GetReqId(data) == Err(CheckDispositionError(data))
  {
    ReqIdRecorded(LinkSubmatch(data));
  }

  // ---------------------------------------------------------------------------
  // Pages built around a known fragment

  /** `certnew` has no proper prefix that is also a suffix, so an occurrence
      starting inside `pre` cannot run into a `certnew` that follows it. */
  lemma {:induction false} NoLinkHeadBefore(pre: string, rest: string, i: nat)
    requires !Contains(pre, LinkHead) && HasAt(rest, 0, LinkHead) && i < |pre|
    ensures !HasAt(pre + rest, i, LinkHead)
  {
    var s := pre + rest;
    if HasAt(s, i, LinkHead) {
      if i + |LinkHead| <= |pre| {
        assert s[i..i + |LinkHead|] == pre[i..i + |LinkHead|];
        assert HasAt(pre, i, LinkHead);
      } else {
        var k := |pre| - i;
        HasAtChar(s, i, LinkHead, k);
        HasAtChar(rest, 0, LinkHead, 0);
      }
    }
  }

  /** The page `pre + certnew + page + ?ReqID= + id + & + post`. */
  function LinkPage(pre: string, page: string, id: string, post: string): string {
    pre + LinkHead + page + LinkQuery + id + "&" + post
  }

  lemma {:induction false} LinkPageMatch(pre: string, page: string, id: string, post: string)
    requires '\n' !in page
    requires id != [] && forall k :: 0 <= k < |id| ==> IsDigit(id[k])
    ensures var j := |pre| + |LinkHead| + |page|;
      LinkMatch(LinkPage(pre, page, id, post), |pre|, j, j + |LinkQuery| + |id|)
      && LinkPage(pre, page, id, post)[j + |LinkQuery|..j + |LinkQuery| + |id|] == id
  {
    var s := LinkPage(pre, page, id, post);
    var i := |pre|;
    var j := i + |LinkHead| + |page|;
    var e := j + |LinkQuery| + |id|;
    assert s[i..i + |LinkHead|] == LinkHead;
    assert s[j..j + |LinkQuery|] == LinkQuery;
    assert s[j + |LinkQuery|..e] == id;
    assert s[e] == '&';
    forall k | i + |LinkHead| <= k < j ensures s[k] != '\n' {
      assert s[k] == page[k - i - |LinkHead|];
    }
    forall k | j + |LinkQuery| <= k < e ensures IsDigit(s[k]) {
      assert s[k] == id[k - j - |LinkQuery|];
    }
  }

  lemma {:induction false} LinkPageFirst(pre: string, page: string, id: string, post: string)
    requires !Contains(pre, LinkHead)
    ensures forall i': nat, j': nat, e': nat :: i' < |pre| ==> !LinkMatch(LinkPage(pre, page, id, post), i', j', e')
  {
    var tail := LinkHead + page + LinkQuery + id + "&" + post;
    assert LinkPage(pre, page, id, post) == pre + tail;
    assert tail[..|LinkHead|] == LinkHead;
    forall i': nat | i' < |pre|
      ensures !HasAt(pre + tail, i', LinkHead)
    {
      NoLinkHeadBefore(pre, tail, i');
    }
  }

  lemma {:induction false} LinkPageLongest(pre: string, page: string, id: string, post: string)
    requires forall k :: 0 <= k < |id| ==> IsDigit(id[k])
    requires '?' !in post[..StopAt(post, 0, '\n')]
    ensures var j := |pre| + |LinkHead| + |page|;
      forall j': nat, e': nat :: j < j' ==> !LinkMatch(LinkPage(pre, page, id, post), |pre|, j', e')
  {
    var s := LinkPage(pre, page, id, post);
    var i := |pre|;
    var j := i + |LinkHead| + |page|;
    var e := j + |LinkQuery| + |id|;
    forall j': nat, e': nat | j < j'
      ensures !LinkMatch(s, i, j', e')
    {
      if j' < j + |LinkQuery| {
        assert s[j'] == LinkQuery[j' - j];
        NotAtWhenFirstDiffers(s, j', LinkQuery);
      } else if j' < e {
        assert s[j'] == id[j' - j - |LinkQuery|];
        NotAtWhenFirstDiffers(s, j', LinkQuery);
      } else if j' == e {
        NotAtWhenFirstDiffers(s, j', LinkQuery);
      } else if j' < |s| {
        var k := j' - e - 1;
        var lineEnd := StopAt(post, 0, '\n');
        if k < lineEnd {
          assert s[j'] == post[k] == post[..lineEnd][k];
          NotAtWhenFirstDiffers(s, j', LinkQuery);
        } else {
          assert s[e + 1 + lineEnd] == post[lineEnd] == '\n';
        }
      }
    }
  }

  /** A link embedded in arbitrary markup is found and its digits returned,
      provided the markup before it holds no `certnew` and the rest of its
      line holds no `?`. */
  lemma {:induction false} EmbeddedLinkFound(pre: string, page: string, id: string, post: string)
    requires !Contains(pre, LinkHead)
    requires '\n' !in page
    requires id != [] && forall k :: 0 <= k < |id| ==> IsDigit(id[k])
    requires '?' !in post[..StopAt(post, 0, '\n')]
    ensures GetReqId(LinkPage(pre, page, id, post)) == Ok(id)
  {
    var s := LinkPage(pre, page, id, post);
    var j := |pre| + |LinkHead| + |page|;
    var e := j + |LinkQuery| + |id|;
    assert PreferredLink(s, |pre|, j, e) && s[j + |LinkQuery|..e] == id by {
      LinkPageMatch(pre, page, id, post);
      LinkPageFirst(pre, page, id, post);
      LinkPageLongest(pre, page, id, post);
    }
    IssuedLinkReported(s, |pre|, j, e);
  }

  /** A page with no `certnew` has no issued link. */
  lemma NoLinkWithoutHead(data: string)
    requires !Contains(data, LinkHead)
    ensures !HasLink(data)
  {
  }

  /** A pending notice `Your Request Id is <n><c>` after markup holding no
      `Y`, with `c` neither a digit nor a line break, is the preferred
      pending match and its group is `n`. */
  lemma {:induction false} EmbeddedPendingFound(pre: string, n: string, c: char, post: string)
    requires 'Y' !in pre
    requires n != [] && forall k :: 0 <= k < |n| ==> IsDigit(n[k])
    requires !IsDigit(c) && c != '\n'
    ensures var s := pre + PendingPrefix + n + [c] + post;
      var d := |pre| + |PendingPrefix|;
      PreferredPending(s, |pre|, d + |n|) && s[d..d + |n|] == n
  {
    var s := pre + PendingPrefix + n + [c] + post;
    var p := |pre|;
    var d := p + |PendingPrefix|;
    assert s[p..d] == PendingPrefix;
    assert s[d..d + |n|] == n;
    assert s[d + |n|] == c;
    forall k | d <= k < d + |n| ensures IsDigit(s[k]) {
      assert s[k] == n[k - d];
    }
    assert PendingMatch(s, p, d + |n|);
    forall p': nat, c': nat | p' < p
      ensures !PendingMatch(s, p', c')
    {
      assert s[p'] == pre[p'];
      NotAtWhenFirstDiffers(s, p', PendingPrefix);
    }
    forall c': nat | d + |n| < c'
      ensures !PendingMatch(s, p, c')
    {
      assert !IsDigit(s[d + |n|]);
    }
  }

  /** Positions that do not hold a `T` start no disposition match. */
  lemma NoDispositionWithoutT(s: string, lo: nat, hi: nat)
    requires lo <= hi <= |s| && forall k :: lo <= k < hi ==> s[k] != 'T'
    ensures NoDispositionIn(s, lo, hi)
  {
    forall q: nat | lo <= q < hi
      ensures !DispositionAt(s, q)
    {
      NotAtWhenFirstDiffers(s, q, DispositionPrefix);
    }
  }

  /** The text `The disposition message is "<t>"` at `q` is a match that ends
      at its closing quote. */
  lemma DispositionAtFragment(s: string, q: nat, t: string)
    requires t != [] && '"' !in t
    requires HasAt(s, q, Quotation(t))
    ensures DispositionAt(s, q) && DispositionEnd(s, q) == q + |DispositionPrefix| + |t|
    ensures s[q..DispositionEnd(s, q)] == DispositionPrefix + t
  {
    var w := Quotation(t);
    var d := q + |DispositionPrefix|;
    assert s[q..q + |w|] == w;
    assert s[q..d] == w[..|DispositionPrefix|] == DispositionPrefix;
    HasAtChar(s, q, w, |DispositionPrefix|);
    assert w[|DispositionPrefix|] == t[0];
    forall k | d <= k < d + |t| ensures s[k] != '"' {
      HasAtChar(s, q, w, k - q);
      assert w[k - q] == t[k - d];
    }
    HasAtChar(s, q, w, |w| - 1);
    assert s[d + |t|] == '"';
    StopAtIs(s, d, d + |t|, '"');
    assert s[q..d + |t|] == w[..|w| - 1];
  }

  /** The quotation of a disposition text as the CA renders it. */
  function Quotation(t: string): string {
    DispositionPrefix + t + "\""
  }

  /** A scan may start one position earlier at a position that starts no match. */
  lemma ScannedBack(s: string, from: nat, ps: seq<nat>)
    requires Scanned(s, from + 1, ps) && !DispositionAt(s, from)
    ensures Scanned(s, from, ps)
  {
  }

  /** A quotation at `q`, after a stretch from `from` holding no `T`, is the
      next match of the scan from `from`. */
  lemma QuotationStep(s: string, t: string, from: nat, q: nat, rest: seq<nat>)
    requires t != [] && '"' !in t
    requires from <= q && HasAt(s, q, Quotation(t))
    requires forall k :: from <= k < q ==> s[k] != 'T'
    requires Scanned(s, q + |Quotation(t)|, rest)
    ensures Scanned(s, from, [q] + rest)
    ensures s[q..DispositionEnd(s, q)] == DispositionPrefix + t
  {
    var e := q + |Quotation(t)| - 1;
    DispositionAtFragment(s, q, t);
    HasAtChar(s, q, Quotation(t), |Quotation(t)| - 1);
    NotAtWhenFirstDiffers(s, e, DispositionPrefix);
    ScannedBack(s, e, rest);
    NoDispositionWithoutT(s, from, q);
    assert ([q] + rest)[0] == q && ([q] + rest)[1..] == rest;
  }

  /** Quotations at `p1` and `p2` with no `T` anywhere outside them: the
      scan finds exactly those two. */
  lemma {:induction false} TwoQuotationsScan(s: string, t: string, p1: nat, p2: nat)
    requires t != [] && '"' !in t
    requires HasAt(s, p1, Quotation(t)) && p1 + |Quotation(t)| <= p2 && HasAt(s, p2, Quotation(t))
    requires forall k :: 0 <= k < p1 ==> s[k] != 'T'
    requires forall k :: p1 + |Quotation(t)| <= k < p2 ==> s[k] != 'T'
    requires forall k :: p2 + |Quotation(t)| <= k < |s| ==> s[k] != 'T'
    ensures CheckDispositionError(s) == DispositionPrefix + t
  {
    var n := |Quotation(t)|;
    NoDispositionWithoutT(s, p2 + n, |s|);
    assert Scanned(s, p2 + n, []);
    QuotationStep(s, t, p1 + n, p2, []);
    QuotationStep(s, t, 0, p1, [p2] + []);
    assert [p1] + ([p2] + []) == [p1, p2];
  }

  /** A quotation at `p1` with no `T` anywhere outside it: the scan finds
      one match, so the error is the generic one. */
  lemma {:induction false} OneQuotationScan(s: string, t: string, p1: nat)
    requires t != [] && '"' !in t
    requires HasAt(s, p1, Quotation(t))
    requires forall k :: 0 <= k < p1 ==> s[k] != 'T'
    requires forall k :: p1 + |Quotation(t)| <= k < |s| ==> s[k] != 'T'
    ensures CheckDispositionError(s) == UnknownError
  {
    NoDispositionWithoutT(s, p1 + |Quotation(t)|, |s|);
    assert Scanned(s, p1 + |Quotation(t)|, []);
    QuotationStep(s, t, 0, p1, []);
    assert [p1] + [] == [p1];
  }

  /** A denial page: the disposition text `t` quoted twice, separated and
      surrounded by markup holding no `T`. The error is the first quotation
      without its closing quote. */
  lemma {:induction false} DenialPageScan(a: string, t: string, b: string, c: string)
    requires 'T' !in a && 'T' !in b && 'T' !in c
    requires t != [] && '"' !in t
    ensures CheckDispositionError(a + Quotation(t) + b + Quotation(t) + c) == DispositionPrefix + t
  {
    var m := Quotation(t);
    var s := a + m + b + m + c;
    var p2 := |a| + |m| + |b|;
    assert s[|a|..|a| + |m|] == m;
    assert s[p2..p2 + |m|] == m;
    forall k | 0 <= k < |a| ensures s[k] != 'T' { assert s[k] == a[k]; }
    forall k | |a| + |m| <= k < p2 ensures s[k] != 'T' { assert s[k] == b[k - |a| - |m|]; }
    forall k | p2 + |m| <= k < |s| ensures s[k] != 'T' { assert s[k] == c[k - p2 - |m|]; }
    TwoQuotationsScan(s, t, |a|, p2);
  }

  /** A page quoting a disposition text once: the generic error. */
  lemma {:induction false} SingleDispositionScan(a: string, t: string, c: string)
    requires 'T' !in a && 'T' !in c
    requires t != [] && '"' !in t
    ensures CheckDispositionError(a + Quotation(t) + c) == UnknownError
  {
    var m := Quotation(t);
    var s := a + m + c;
    assert s[|a|..|a| + |m|] == m;
    forall k | 0 <= k < |a| ensures s[k] != 'T' { assert s[k] == a[k]; }
    forall k | |a| + |m| <= k < |s| ensures s[k] != 'T' { assert s[k] == c[k - |a| - |m|]; }
    OneQuotationScan(s, t, |a|);
  }
}

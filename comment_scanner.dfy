/** `fetchPrComments`: page through a pull request's comments and collect
    the fingerprints that earlier runs hid in them as
    `<!-- gemini:<12 hex digits> -->` markers. */
module CommentScanner {
  import opened JsValues
  import opened Hash
  import opened BitbucketApi
  import opened HttpClient

  const PageLength: nat := 100
  const MarkerOpen: string := "<!--"
  const MarkerTag: string := "gemini:"

  /** The characters JavaScript's `\s` matches. */
  predicate IsJsWhitespace(c: char) {
    || c == ' ' || c == '\t' || c == '\n' || c == '\U{B}' || c == '\U{C}' || c == '\r'
    || c == '\U{A0}' || c == '\U{1680}' || '\U{2000}' <= c <= '\U{200A}'
    || c == '\U{2028}' || c == '\U{2029}' || c == '\U{202F}' || c == '\U{205F}'
    || c == '\U{3000}' || c == '\U{FEFF}'
  }

  /** The end of the longest run of whitespace starting at `i` (what the
      greedy `\s*` consumes). */
  function SkipWhitespace(s: string, i: nat): (j: nat)
    requires i <= |s|
    ensures i <= j <= |s|
    ensures forall k :: i <= k < j ==> IsJsWhitespace(s[k])
    ensures j < |s| ==> !IsJsWhitespace(s[j])
    decreases |s| - i
  {
    if i < |s| && IsJsWhitespace(s[i]) then SkipWhitespace(s, i + 1) else i
  }

  /** The capture of `/<!--\s*gemini:([0-9a-f]{12})/` for a match that
      starts at position `i`. Since `gemini:` does not start with
      whitespace, `\s*` never gives characters back, so the greedy run is
      the only candidate. */
  function MatchAt(s: string, i: nat): Option<string>
    requires i <= |s|
  {
    if i + |MarkerOpen| <= |s| && s[i..i + |MarkerOpen|] == MarkerOpen then
      var w := SkipWhitespace(s, i + |MarkerOpen|);
      var h := w + |MarkerTag|;
      if h + FingerprintLength <= |s| && s[w..h] == MarkerTag && IsFingerprint(s[h..h + FingerprintLength])
      then Some(s[h..h + FingerprintLength])
      else None
    else None
  }

  /** The capture of the leftmost match at or after position `i`. */
  function FirstMarkerFrom(s: string, i: nat): (r: Option<string>)
    requires i <= |s|
    ensures r.Some? ==> IsFingerprint(r.value)
    decreases |s| - i
  {
    if MatchAt(s, i).Some? then MatchAt(s, i)
    else if i == |s| then None
    else FirstMarkerFrom(s, i + 1)
  }

  /** `s.match(/<!--\s*gemini:([0-9a-f]{12})/)?.[1]` (no `g` flag: the first match only). */
  function FirstMarker(s: string): Option<string> {
    FirstMarkerFrom(s, 0)
  }

  lemma {:induction false} LeftmostFrom(s: string, k: nat, i: nat)
    requires k <= i <= |s|
    requires MatchAt(s, i).Some?
    requires forall j :: k <= j < i ==> MatchAt(s, j).None?
    ensures FirstMarkerFrom(s, k) == MatchAt(s, i)
    decreases i - k
  {
    if k < i {
      LeftmostFrom(s, k + 1, i);
    }
  }

  /** The marker found is the capture of the leftmost match. */
  lemma FirstMarkerIsLeftmostMatch(s: string, i: nat)
    requires i <= |s|
    requires MatchAt(s, i).Some?
    requires forall j :: 0 <= j < i ==> MatchAt(s, j).None?
    ensures FirstMarker(s) == MatchAt(s, i)
  {
    LeftmostFrom(s, 0, i);
  }

  lemma {:induction false} NoMatchFrom(s: string, k: nat)
    requires k <= |s|
    requires forall j :: k <= j <= |s| ==> MatchAt(s, j).None?
    ensures FirstMarkerFrom(s, k).None?
    decreases |s| - k
  {
    if k < |s| {
      NoMatchFrom(s, k + 1);
    }
  }

  /** A body with no match anywhere has no marker. */
  lemma NoMatchNoMarker(s: string)
    requires forall j :: 0 <= j <= |s| ==> MatchAt(s, j).None?
    ensures FirstMarker(s).None?
  {
    NoMatchFrom(s, 0);
  }

  /** The fingerprint a comment contributes, if any (`c?.content?.raw?.match(...)`). */
  function MarkerOf(c: Comment): Option<string> {
    match c.raw
    case None => None
    case Some(raw) => FirstMarker(raw)
  }

  /** The fingerprints found in a list of comments. */
  function CommentMarkers(cs: seq<Comment>): set<string> {
    if cs == [] then {}
    else
      var last := MarkerOf(cs[|cs| - 1]);
      CommentMarkers(cs[..|cs| - 1]) + (if last.Some? then {last.value} else {})
  }

  lemma CommentMarkersSnoc(cs: seq<Comment>, j: nat)
    requires j < |cs|
    ensures CommentMarkers(cs[..j + 1])
         == CommentMarkers(cs[..j]) + (if MarkerOf(cs[j]).Some? then {MarkerOf(cs[j]).value} else {})
  {
    assert cs[..j + 1][..j] == cs[..j];
  }

  /** A fingerprint is among those of a list of comments exactly when it is
      the first marker of one of them. */
  lemma {:induction false} CommentMarkersMembers(cs: seq<Comment>, x: string)
    ensures x in CommentMarkers(cs) <==> exists c :: 0 <= c < |cs| && MarkerOf(cs[c]) == Some(x)
  {
    if cs != [] {
      var init := cs[..|cs| - 1];
      CommentMarkersMembers(init, x);
      if exists c :: 0 <= c < |init| && MarkerOf(init[c]) == Some(x) {
        var c :| 0 <= c < |init| && MarkerOf(init[c]) == Some(x);
        assert cs[c] == init[c];
      }
      if exists c :: 0 <= c < |cs| && MarkerOf(cs[c]) == Some(x) {
        var c :| 0 <= c < |cs| && MarkerOf(cs[c]) == Some(x);
        if c < |init| {
          assert init[c] == cs[c];
        }
      }
    }
  }

  /** The comments of a page: `resp.data.values ?? []`. */
  function ReplyComments(r: Reply): seq<Comment> {
    if r.Responded? then r.response.data.values.GetOr([]) else []
  }

  /** The `next` link of a page, or "" when there is none. */
  function NextUrl(r: Reply): string {
    if r.Responded? then r.response.data.next.GetOr("") else ""
  }

  /** A page after which the loop stops: the call failed (threw, or gave
      `undefined`, whose `.data` throws) or `next` is falsy. */
  predicate EndsListing(r: Reply) {
    !r.Responded? || !Truthy(r.response.data.next)
  }

  /** The server's answers to the page requests, the last of which ends the
      listing (pages after the first one that ends it are never requested). */
  predicate ListingEnds(pages: seq<Transport>) {
    |pages| > 0 && EndsListing(ReplyOf(pages[|pages| - 1]))
  }

  /** The index of the first page, at or after `k`, that ends the listing. */
  function FirstEnd(pages: seq<Transport>, k: nat): (r: nat)
    requires ListingEnds(pages) && k < |pages|
    ensures k <= r < |pages|
    ensures EndsListing(ReplyOf(pages[r]))
    ensures forall j :: k <= j < r ==> !EndsListing(ReplyOf(pages[j]))
    decreases |pages| - k
  {
    if EndsListing(ReplyOf(pages[k])) then k else FirstEnd(pages, k + 1)
  }

  /** The fingerprints found on the first `n` pages. */
  function MarkersUpTo(pages: seq<Transport>, n: nat): set<string>
    requires n <= |pages|
  {
    if n == 0 then {} else MarkersUpTo(pages, n - 1) + CommentMarkers(ReplyComments(ReplyOf(pages[n - 1])))
  }

  /** Where page `k` is requested from: the first page by repository and
      pull request, each later one at the `next` link of the page before. */
  function PageEndpoint(repo: string, prId: Option<int>, pages: seq<Transport>, k: nat): Endpoint
    requires k <= |pages|
  {
    if k == 0 then CommentList(repo, prId, PageLength) else Link(NextUrl(ReplyOf(pages[k - 1])))
  }

  function RequestsUpTo(repo: string, prId: Option<int>, pages: seq<Transport>, n: nat): (r: seq<Request>)
    requires n <= |pages|
    ensures |r| == n
  {
    seq(n, k requires 0 <= k < n => Request(GET, PageEndpoint(repo, prId, pages, k), NoPayload))
  }

  function ReplyFailure(r: Reply): Failure {
    if r.Threw? then TransportError(r.message) else TypeError
  }

  datatype Scan = Scan(result: Result<set<string>>, requests: seq<Request>)

  /** The whole scan: every page up to the first that ends the listing is
      requested; the result is the set of fingerprints found on those pages,
      unless the last of them failed. */
  function ScanPages(repo: string, prId: Option<int>, pages: seq<Transport>): Scan
    requires ListingEnds(pages)
  {
    var k := FirstEnd(pages, 0);
    var last := ReplyOf(pages[k]);
    Scan(if last.Responded? then Ok(MarkersUpTo(pages, k + 1)) else Err(ReplyFailure(last)),
         RequestsUpTo(repo, prId, pages, k + 1))
  }

  /** The inner `for (const c of values)` loop: add each comment's marker. */
  method AddMarkers(found: set<string>, values: seq<Comment>) returns (found': set<string>)
    ensures found' == found + CommentMarkers(values)
  {
    found' := found;
    for j := 0 to |values|
      invariant found' == found + CommentMarkers(values[..j])
    {
      CommentMarkersSnoc(values, j);
      var m := MarkerOf(values[j]);
      if m.Some? {
        found' := found' + {m.value};
      }
    }
    assert values[..|values|] == values;
  }

  /** The paging loop of `fetchPrComments`. */
  method FetchPrComments(repo: string, prId: Option<int>, pages: seq<Transport>)
    returns (result: Result<set<string>>, requests: seq<Request>)
    requires ListingEnds(pages)
    ensures Scan(result, requests) == ScanPages(repo, prId, pages)
  {
    var found: set<string> := {};
    var url: Option<Endpoint> := Some(CommentList(repo, prId, PageLength));
    var i := 0;
    requests := [];
    while url.Some?
      invariant i <= |pages|
      invariant url.Some? ==> i < |pages| && url.value == PageEndpoint(repo, prId, pages, i)
      invariant url.Some? ==> i <= FirstEnd(pages, 0)
      invariant url.None? ==> 0 < i && FirstEnd(pages, 0) == i - 1 && ReplyOf(pages[i - 1]).Responded?
      invariant found == MarkersUpTo(pages, i)
      invariant requests == RequestsUpTo(repo, prId, pages, i)
      decreases |pages| - i
    {
      RequestsUpToSnoc(repo, prId, pages, i);
      requests := requests + [Request(GET, url.value, NoPayload)];
      var reply, _, _ := MakeBitbucketRequest(pages[i]);
      assert reply == ReplyOf(pages[i]);
      if !reply.Responded? {
        StopsAt(pages, i);
        return Err(ReplyFailure(reply)), requests;
      }
      found := AddMarkers(found, reply.response.data.values.GetOr([]));
      assert found == MarkersUpTo(pages, i + 1);
      var next := reply.response.data.next;
      if Truthy(next) {
        url := Some(Link(next.value));
        assert !EndsListing(reply) && i != FirstEnd(pages, 0);
      } else {
        url := None;
        StopsAt(pages, i);
      }
      i := i + 1;
    }
    result := Ok(found);
  }

  lemma RequestsUpToSnoc(repo: string, prId: Option<int>, pages: seq<Transport>, n: nat)
    requires n < |pages|
    ensures RequestsUpTo(repo, prId, pages, n + 1)
         == RequestsUpTo(repo, prId, pages, n) + [Request(GET, PageEndpoint(repo, prId, pages, n), NoPayload)]
  {
  }

  /** The listing stops at the first page that ends it. */
  lemma StopsAt(pages: seq<Transport>, i: nat)
    requires ListingEnds(pages) && i < |pages|
    requires i <= FirstEnd(pages, 0)
    requires EndsListing(ReplyOf(pages[i]))
    ensures FirstEnd(pages, 0) == i
  {
  }

  /** Whether `x` is the first marker of a comment on the page `page` answers with. */
  ghost predicate MarkedOn(page: Transport, x: string) {
    exists c :: 0 <= c < |ReplyComments(ReplyOf(page))| && MarkerOf(ReplyComments(ReplyOf(page))[c]) == Some(x)
  }

  lemma MarkersOnPage(page: Transport, x: string)
    ensures x in CommentMarkers(ReplyComments(ReplyOf(page))) <==> MarkedOn(page, x)
  {
    CommentMarkersMembers(ReplyComments(ReplyOf(page)), x);
  }

  /** What the scan finds: exactly the first-marker captures of the
      comments on the pages it read; comments without a marker and pages
      without `values` add nothing. */
  lemma {:induction false} MarkersUpToMembers(pages: seq<Transport>, n: nat, x: string)
    requires n <= |pages|
    ensures x in MarkersUpTo(pages, n) <==> exists k :: 0 <= k < n && MarkedOn(pages[k], x)
  {
    if n > 0 {
      MarkersUpToMembers(pages, n - 1, x);
      MarkersOnPage(pages[n - 1], x);
      assert MarkersUpTo(pages, n) == MarkersUpTo(pages, n - 1) + CommentMarkers(ReplyComments(ReplyOf(pages[n - 1])));
      if x in MarkersUpTo(pages, n - 1) {
        var k :| 0 <= k < n - 1 && MarkedOn(pages[k], x);
        assert 0 <= k < n && MarkedOn(pages[k], x);
      } else if x !in MarkersUpTo(pages, n) {
        forall k | 0 <= k < n
          ensures !MarkedOn(pages[k], x)
        {
          if k < n - 1 {
            assert !(0 <= k < n - 1 && MarkedOn(pages[k], x));
          } else {
            assert x !in CommentMarkers(ReplyComments(ReplyOf(pages[k])));
          }
        }
      }
    }
  }

  /** The scan's result set: every element is a fingerprint, found as the
      first marker of some comment on a page the scan read. */
  lemma ScanResultMembers(repo: string, prId: Option<int>, pages: seq<Transport>, x: string)
    requires ListingEnds(pages)
    requires ScanPages(repo, prId, pages).result.Ok?
    ensures x in ScanPages(repo, prId, pages).result.value
        <==> exists k :: 0 <= k <= FirstEnd(pages, 0) && MarkedOn(pages[k], x)
    ensures x in ScanPages(repo, prId, pages).result.value ==> IsFingerprint(x)
  {
    MarkersUpToMembers(pages, FirstEnd(pages, 0) + 1, x);
  }

  /** Paging: the first request goes to the comment list of the pull
      request (100 per page), each later one to the truthy `next` link of
      the page before, and the last page requested is the first whose
      `next` is falsy or whose call failed. */
  lemma PagingFollowsNext(repo: string, prId: Option<int>, pages: seq<Transport>)
    requires ListingEnds(pages)
    ensures var rs := ScanPages(repo, prId, pages).requests;
      && |rs| == FirstEnd(pages, 0) + 1
      && rs[0] == Request(GET, CommentList(repo, prId, PageLength), NoPayload)
      && (forall k :: 0 < k < |rs| ==>
            Truthy(ReplyOf(pages[k - 1]).response.data.next)
            && rs[k] == Request(GET, Link(ReplyOf(pages[k - 1]).response.data.next.value), NoPayload))
      && EndsListing(ReplyOf(pages[|rs| - 1]))
  {
  }

  /** A failed page call makes the whole scan fail, with the re-raised
      transport error or, for `undefined`, a TypeError. */
  lemma FailedPageFailsScan(repo: string, prId: Option<int>, pages: seq<Transport>)
    requires ListingEnds(pages)
    ensures ScanPages(repo, prId, pages).result.Err?
        <==> !ReplyOf(pages[FirstEnd(pages, 0)]).Responded?
    ensures ScanPages(repo, prId, pages).result == Err(TypeError)
        <==> ReplyOf(pages[FirstEnd(pages, 0)]).NoResponse?
  {
  }
}

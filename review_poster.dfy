/** `postReviewComments` with `formatComment`, `buildAnnotation` and
    `truncateWithEllipsis`: post the AI findings that are new as inline
    comments, and collect one Code Insights annotation per posted comment. */
module ReviewPoster {
  import opened JsValues
  import opened Hash
  import opened BitbucketApi
  import opened HttpClient
  import opened CommentScanner
  import opened PrMetadata

  const SummaryLimit: nat := 400
  const Ellipsis: string := "..."
  const AnnotationType: string := "CODE_SMELL"
  const DefaultSeverity: string := "info"

  /** The `line` of a finding: a number that passes `Number.isInteger`, or
      anything else (a fraction, a string, null, missing). */
  datatype Line = IntegerLine(n: int) | NotInteger

  /** One item of the AI output: an object, or a `null`/`undefined` item,
      whose destructuring throws a TypeError. (A string or number item reads
      every property as undefined, so it is a `Finding` with `NotInteger`.) */
  datatype Finding =
    | Finding(file: string, line: Line, comment: JsString, severity: JsString)
    | Nullish
  {
    /** The item passes the `Number.isInteger(line)` test. */
    predicate HasIntegerLine() {
      Finding? && line.IntegerLine?
    }
  }

  /** The destructured `severity`: the default `(item.severity ?? "info").toLowerCase()`
      applies only when `item.severity` is undefined, and then it is "info";
      a given value (null included) is kept as it is, not lower-cased. */
  function EffectiveSeverity(v: JsString): (r: JsString)
    ensures r != Undefined
  {
    if v.Undefined? then Str(DefaultSeverity) else v
  }

  /** The body of a posted comment: the hidden marker first, then the
      visible header and the comment text. */
  function FormatComment(fp: string, severity: JsString, comment: JsString): string {
    MarkerOpen + " " + MarkerTag + fp + " -->**AI Review | Severity: " + Show(severity) + "**\n\n" + Show(comment)
  }

  /** The end index `s.slice(0, e)` uses for a string of length `len`
      (a negative `e` counts from the end). */
  function SliceEnd(len: nat, e: int): (r: nat)
    ensures r <= len
  {
    if e < 0 then (if len + e < 0 then 0 else len + e)
    else if e > len then len else e
  }

  function TruncateWithEllipsis(s: string, maxLength: nat): string {
    if |s| > maxLength then s[..SliceEnd(|s|, maxLength - |Ellipsis|)] + Ellipsis else s
  }

  /** A string within the limit is kept; a longer one becomes its first
      `maxLength - 3` characters and "...", exactly `maxLength` long. */
  lemma TruncationBounds(s: string, maxLength: nat)
    requires maxLength >= |Ellipsis|
    ensures |s| <= maxLength ==> TruncateWithEllipsis(s, maxLength) == s
    ensures |s| > maxLength ==>
      TruncateWithEllipsis(s, maxLength) == s[..maxLength - |Ellipsis|] + Ellipsis
      && |TruncateWithEllipsis(s, maxLength)| == maxLength
    ensures |TruncateWithEllipsis(s, maxLength)| <= maxLength
  {
  }

  /** A 500-character comment gives a 400-character summary ending in "...". */
  lemma LongCommentSummary(s: string)
    requires |s| == 500
    ensures var r := TruncateWithEllipsis(s, SummaryLimit);
      |r| == 400 && r[397..] == "..." && r[..397] == s[..397]
  {
  }

  /** Whether `name` is the word `key` (lengths compared first). */
  predicate IsName(name: string, key: string) {
    |name| == |key| && name == key
  }

  /** The annotation severity of a severity text. */
  function MapSeverity(severity: string): Level {
    var sev := ToLower(severity);
    if IsName(sev, "error") then HIGH else if IsName(sev, "warning") then MEDIUM else LOW
  }

  /** The mapping is case-insensitive: "error" in any case is HIGH,
      "warning" in any case is MEDIUM, everything else (the default "info"
      included) is LOW. */
  lemma SeverityMapping(severity: string)
    ensures MapSeverity(severity) == HIGH <==> SameIgnoringCase(severity, "error")
    ensures MapSeverity(severity) == MEDIUM <==> SameIgnoringCase(severity, "warning")
    ensures MapSeverity(severity) == LOW
        <==> !SameIgnoringCase(severity, "error") && !SameIgnoringCase(severity, "warning")
    ensures MapSeverity(DefaultSeverity) == LOW
  {
    LowerWordIsFixed("error");
    LowerWordIsFixed("warning");
    LowerWordIsFixed(DefaultSeverity);
    ToLowerEquals(severity, "error");
    ToLowerEquals(severity, "warning");
  }

  /** `buildAnnotation`: `severity.toLowerCase()` and `comment.length` throw
      a TypeError when their value is null or undefined. */
  function BuildAnnotation(fp: string, file: string, line: int, severity: JsString, comment: JsString)
    : (r: Result<Annotation>)
    ensures if severity.Str? && comment.Str? then r.Ok? else r == Err(TypeError)
    ensures r.Ok? ==> r.value.externalId == fp && r.value.path == file && r.value.line == line
    ensures r.Ok? ==> |r.value.summary| <= SummaryLimit
  {
    if !severity.Str? || !comment.Str? then Err(TypeError)
    else
      TruncationBounds(comment.s, SummaryLimit);
      Ok(Annotation(fp, AnnotationType, file, line, TruncateWithEllipsis(comment.s, SummaryLimit), MapSeverity(severity.s)))
  }

  /** The name a Level is sent under. */
  function LevelName(level: Level): string {
    match level
    case LOW => "LOW"
    case MEDIUM => "MEDIUM"
    case HIGH => "HIGH"
  }

  /** Reading a string-valued property of the annotation object by its
      JSON name; the object has no other properties. */
  function AnnotationField(a: Annotation, name: string): Option<string> {
    if IsName(name, "external_id") then Some(a.externalId)
    else if IsName(name, "annotation_type") then Some(a.annotationType)
    else if IsName(name, "path") then Some(a.path)
    else if IsName(name, "summary") then Some(a.summary)
    else if IsName(name, "severity") then Some(LevelName(a.severity))
    else None
  }

  /** The critical test as written: it reads `annotation.bbSev`, a property
      the annotation object does not have. */
  predicate IsCriticalAsWritten(a: Annotation) {
    AnnotationField(a, "bbSev") == Some("HIGH")
  }

  /** The critical test as intended: the `severity` the annotation carries. */
  predicate IsCritical(a: Annotation) {
    AnnotationField(a, "severity") == Some("HIGH")
  }

  lemma IsCriticalMeansHigh(a: Annotation)
    ensures IsCritical(a) <==> a.severity == HIGH
    ensures !IsCriticalAsWritten(a)
  {
  }

  /** A marker with a single space at the front of a text matches there. */
  lemma MarkerAtFront(s: string, fp: string)
    requires IsFingerprint(fp) && |s| >= 24
    requires s[..24] == MarkerOpen + " " + MarkerTag + fp
    ensures MatchAt(s, 0) == Some(fp)
  {
    var u := MarkerOpen + " " + MarkerTag + fp;
    assert s[..4] == u[..4] == MarkerOpen;
    assert s[4] == u[4] == ' ' && s[5] == u[5] == 'g';
    assert SkipWhitespace(s, 4) == 5;
    assert s[5..12] == u[5..12] == MarkerTag;
    assert s[12..24] == u[12..24] == fp;
  }

  lemma PrefixOfAppend(a: string, b: string, n: nat)
    requires n <= |a|
    ensures (a + b)[..n] == a[..n]
  {
  }

  /** A comment body made by FormatComment scans back to exactly its
      fingerprint: the marker is at position 0 and only the first match counts. */
  lemma FormatCommentRoundTrip(fp: string, severity: JsString, comment: JsString)
    requires IsFingerprint(fp)
    ensures FirstMarker(FormatComment(fp, severity, comment)) == Some(fp)
  {
    var s := FormatComment(fp, severity, comment);
    var u := MarkerOpen + " " + MarkerTag + fp;
    var a := u + " -->**AI Review | Severity: ";
    var b := a + Show(severity);
    var c := b + "**\n\n";
    assert s == c + Show(comment);
    PrefixOfAppend(c, Show(comment), 24);
    PrefixOfAppend(b, "**\n\n", 24);
    PrefixOfAppend(a, Show(severity), 24);
    PrefixOfAppend(u, " -->**AI Review | Severity: ", 24);
    assert u[..24] == u;
    MarkerAtFront(s, fp);
    assert FirstMarker(s) == MatchAt(s, 0);
  }

  /** What the poster works against: the comment URL of the pull request,
      the fingerprints already on it, the fingerprint function, and the
      transport answers for the k-th POST of the run. */
  datatype Poster = Poster(url: Endpoint, existing: set<string>, fingerprint: Fingerprinter, posts: nat -> Transport)

  function PosterFor(data: PrMetadata, existing: set<string>, fingerprint: Fingerprinter, posts: nat -> Transport): Poster {
    Poster(PrComments(data.repoSrc, data.prId), existing, fingerprint, posts)
  }

  function FpOf(p: Poster, f: Finding): string
    requires f.HasIntegerLine()
  {
    p.fingerprint(f.file, f.line.n)
  }

  /** The POST that publishes finding `f` as an inline comment. */
  function PostRequest(p: Poster, f: Finding): Request
    requires f.HasIntegerLine()
  {
    Request(POST, p.url, InlineComment(FormatComment(FpOf(p, f), EffectiveSeverity(f.severity), f.comment), f.file, f.line.n))
  }

  function AnnotationOf(p: Poster, f: Finding): Result<Annotation>
    requires f.HasIntegerLine()
  {
    BuildAnnotation(FpOf(p, f), f.file, f.line.n, EffectiveSeverity(f.severity), f.comment)
  }

  /** The loop state: `seen`, `annotations`, `hasCriticalIssue`, the POSTs
      made, the indices of the findings posted (for the specification), and
      the error the loop stopped with, if any. */
  datatype PosterState = PosterState(
    seen: set<string>,
    annotations: seq<Annotation>,
    critical: bool,
    requests: seq<Request>,
    kept: seq<nat>,
    failure: Option<Failure>)

  const Initial := PosterState({}, [], false, [], [], None)

  /** One iteration over finding `f` (at index `i`). A POST whose call
      returns anything (`undefined` or any status) is ignored; only a
      re-raised error, or a TypeError while destructuring a null item or
      building the annotation, stops the loop. */
  function Step(p: Poster, st: PosterState, f: Finding, i: nat): PosterState {
    if st.failure.Some? then st
    else if f.Nullish? then st.(failure := Some(TypeError))
    else if !f.HasIntegerLine() then st
    else if FpOf(p, f) in p.existing || FpOf(p, f) in st.seen then st
    else
      var requests := st.requests + [PostRequest(p, f)];
      var reply := ReplyOf(p.posts(|st.requests|));
      if reply.Threw? then st.(requests := requests, failure := Some(TransportError(reply.message)))
      else
        match AnnotationOf(p, f)
        case Err(e) => st.(requests := requests, failure := Some(e))
        case Ok(a) =>
          PosterState(st.seen + {FpOf(p, f)}, st.annotations + [a], st.critical || IsCriticalAsWritten(a),
                      requests, st.kept + [i], None)
  }

  /** The state after the first `n` findings. */
  function Run(p: Poster, findings: seq<Finding>, n: nat): (r: PosterState)
    requires n <= |findings|
  {
    if n == 0 then Initial else Step(p, Run(p, findings, n - 1), findings[n - 1], n - 1)
  }

  function Outcome(st: PosterState): Result<Posted> {
    if st.failure.Some? then Err(st.failure.value) else Ok(Posted(st.annotations, st.critical))
  }

  datatype Posted = Posted(annotations: seq<Annotation>, hasCriticalIssue: bool)

  /** The loop of `postReviewComments`. */
  method PostReviewComments(data: PrMetadata, findings: seq<Finding>, existing: set<string>,
                            fingerprint: Fingerprinter, posts: nat -> Transport)
    returns (result: Result<Posted>, requests: seq<Request>)
    ensures var st := Run(PosterFor(data, existing, fingerprint, posts), findings, |findings|);
      result == Outcome(st) && requests == st.requests
  {
    ghost var p := PosterFor(data, existing, fingerprint, posts);
    var seen: set<string> := {};
    var annotations: seq<Annotation> := [];
    var hasCriticalIssue := false;
    var url := PrComments(data.repoSrc, data.prId);
    ghost var kept: seq<nat> := [];
    requests := [];
    for i := 0 to |findings|
      invariant Run(p, findings, i) == PosterState(seen, annotations, hasCriticalIssue, requests, kept, None)
    {
      var item := findings[i];
      assert Run(p, findings, i + 1) == Step(p, Run(p, findings, i), item, i);
      if item.Nullish? {
        LaterFindingsChangeNothing(p, findings, i + 1, |findings|);
        return Err(TypeError), requests;
      }
      var severity := EffectiveSeverity(item.severity);
      if !item.HasIntegerLine() {
        continue;
      }
      var line := item.line.n;
      var fp := fingerprint(item.file, line);
      if fp in existing {
        continue;
      }
      if fp in seen {
        continue;
      }
      var formatted := FormatComment(fp, severity, item.comment);
      var ordinal := |requests|;
      requests := requests + [Request(POST, url, InlineComment(formatted, item.file, line))];
      var reply, _, _ := MakeBitbucketRequest(posts(ordinal));
      assert reply == ReplyOf(p.posts(ordinal));
      if reply.Threw? {
        LaterFindingsChangeNothing(p, findings, i + 1, |findings|);
        return Err(TransportError(reply.message)), requests;
      }
      var annotation := BuildAnnotation(fp, item.file, line, severity, item.comment);
      if annotation.Err? {
        LaterFindingsChangeNothing(p, findings, i + 1, |findings|);
        return Err(annotation.failure), requests;
      }
      annotations := annotations + [annotation.value];
      if AnnotationField(annotation.value, "bbSev") == Some("HIGH") {
        hasCriticalIssue := true;
      }
      seen := seen + {fp};
      kept := kept + [i];
    }
    result := Ok(Posted(annotations, hasCriticalIssue));
  }

  /** Once the loop has stopped with an error, later findings change nothing. */
  lemma {:induction false} LaterFindingsChangeNothing(p: Poster, findings: seq<Finding>, n: nat, m: nat)
    requires n <= m <= |findings|
    requires Run(p, findings, n).failure.Some?
    ensures Run(p, findings, m) == Run(p, findings, n)
    decreases m - n
  {
    if n < m {
      LaterFindingsChangeNothing(p, findings, n, m - 1);
    }
  }

  /** The declarative reading of the dedupe: finding `i` is posted exactly
      when its line is an integer, its fingerprint is not on the pull
      request yet, and no earlier finding with an integer line has the same
      fingerprint. */
  ghost predicate Keeps(p: Poster, findings: seq<Finding>, i: nat)
    requires i < |findings|
  {
    && findings[i].HasIntegerLine()
    && FpOf(p, findings[i]) !in p.existing
    && forall j :: 0 <= j < i && findings[j].HasIntegerLine() ==> FpOf(p, findings[j]) != FpOf(p, findings[i])
  }

  /** The fingerprints of a list of annotations. */
  function Ids(annotations: seq<Annotation>): set<string> {
    if annotations == [] then {}
    else Ids(annotations[..|annotations| - 1]) + {annotations[|annotations| - 1].externalId}
  }

  /** The flag as intended: the fold of the loop with the `severity` test
      in place of the `bbSev` one. */
  predicate AnyHigh(annotations: seq<Annotation>) {
    annotations != [] && (AnyHigh(annotations[..|annotations| - 1]) || IsCritical(annotations[|annotations| - 1]))
  }

  lemma IdsSnoc(annotations: seq<Annotation>, a: Annotation)
    ensures Ids(annotations + [a]) == Ids(annotations) + {a.externalId}
    ensures AnyHigh(annotations + [a]) == (AnyHigh(annotations) || a.severity == HIGH)
  {
    assert (annotations + [a])[..|annotations|] == annotations;
    IsCriticalMeansHigh(a);
  }

  lemma {:induction false} IdsMembers(annotations: seq<Annotation>)
    ensures forall x :: x in Ids(annotations) <==> exists k :: 0 <= k < |annotations| && annotations[k].externalId == x
    ensures AnyHigh(annotations) <==> exists k :: 0 <= k < |annotations| && annotations[k].severity == HIGH
  {
    if annotations != [] {
      var init := annotations[..|annotations| - 1];
      IdsMembers(init);
      assert annotations == init + [annotations[|annotations| - 1]];
      IdsSnoc(init, annotations[|annotations| - 1]);
      forall x | x in Ids(init)
        ensures exists k :: 0 <= k < |annotations| && annotations[k].externalId == x
      {
        var k :| 0 <= k < |init| && init[k].externalId == x;
        assert annotations[k] == init[k];
      }
      if AnyHigh(init) {
        var k :| 0 <= k < |init| && init[k].severity == HIGH;
        assert annotations[k] == init[k];
      }
    }
  }

  /** One failure-free step either skips the finding or posts it. */
  lemma StepCases(p: Poster, findings: seq<Finding>, n: nat)
    requires 0 < n <= |findings|
    requires Run(p, findings, n).failure.None?
    ensures var prev := Run(p, findings, n - 1); var st := Run(p, findings, n); var f := findings[n - 1];
      && prev.failure.None?
      && if !f.HasIntegerLine() || FpOf(p, f) in p.existing || FpOf(p, f) in prev.seen then st == prev
         else
           && AnnotationOf(p, f).Ok?
           && st == PosterState(prev.seen + {FpOf(p, f)}, prev.annotations + [AnnotationOf(p, f).value],
                                prev.critical || IsCriticalAsWritten(AnnotationOf(p, f).value),
                                prev.requests + [PostRequest(p, f)], prev.kept + [n - 1], None)
  {
  }

  /** The indices of the posted findings increase and lie below `n`. */
  ghost predicate Ordered(n: nat, st: PosterState) {
    && |st.kept| == |st.annotations| == |st.requests|
    && (forall k :: 0 <= k < |st.kept| ==> st.kept[k] < n)
    && (forall a, b :: 0 <= a < b < |st.kept| ==> st.kept[a] < st.kept[b])
  }

  /** The k-th POST and the k-th annotation belong to the k-th posted finding. */
  ghost predicate Matched(p: Poster, findings: seq<Finding>, st: PosterState)
    requires |st.kept| == |st.annotations| == |st.requests|
    requires forall k :: 0 <= k < |st.kept| ==> st.kept[k] < |findings|
  {
    forall k :: 0 <= k < |st.kept| ==>
      findings[st.kept[k]].HasIntegerLine()
      && AnnotationOf(p, findings[st.kept[k]]) == Ok(st.annotations[k])
      && st.requests[k] == PostRequest(p, findings[st.kept[k]])
  }

  /** The lists grow together; each entry belongs to a posted finding. */
  ghost predicate Aligned(p: Poster, findings: seq<Finding>, n: nat, st: PosterState)
    requires n <= |findings|
  {
    && Ordered(n, st)
    && Matched(p, findings, st)
    && st.seen == Ids(st.annotations)
    && !st.critical
  }

  lemma {:induction false} RunOrdered(p: Poster, findings: seq<Finding>, n: nat)
    requires n <= |findings|
    requires Run(p, findings, n).failure.None?
    ensures Ordered(n, Run(p, findings, n))
  {
    if n > 0 {
      StepCases(p, findings, n);
      RunOrdered(p, findings, n - 1);
      var prev := Run(p, findings, n - 1);
      var st := Run(p, findings, n);
      if st != prev {
        assert st.kept == prev.kept + [n - 1];
      }
    }
  }

  lemma {:induction false} RunMatched(p: Poster, findings: seq<Finding>, n: nat)
    requires n <= |findings|
    requires Run(p, findings, n).failure.None?
    ensures Ordered(n, Run(p, findings, n))
    ensures Matched(p, findings, Run(p, findings, n))
  {
    RunOrdered(p, findings, n);
    if n > 0 {
      StepCases(p, findings, n);
      RunMatched(p, findings, n - 1);
      var prev := Run(p, findings, n - 1);
      var st := Run(p, findings, n);
      var f := findings[n - 1];
      if st != prev {
        assert st.kept == prev.kept + [n - 1];
        assert st.annotations == prev.annotations + [AnnotationOf(p, f).value];
        assert st.requests == prev.requests + [PostRequest(p, f)];
        forall k | 0 <= k < |st.kept|
          ensures findings[st.kept[k]].HasIntegerLine()
          ensures AnnotationOf(p, findings[st.kept[k]]) == Ok(st.annotations[k])
          ensures st.requests[k] == PostRequest(p, findings[st.kept[k]])
        {
          if k < |prev.kept| {
            assert st.kept[k] == prev.kept[k] && st.annotations[k] == prev.annotations[k];
            assert st.requests[k] == prev.requests[k];
          }
        }
      }
    }
  }

  lemma {:induction false} RunSummaries(p: Poster, findings: seq<Finding>, n: nat)
    requires n <= |findings|
    requires Run(p, findings, n).failure.None?
    ensures Run(p, findings, n).seen == Ids(Run(p, findings, n).annotations)
    ensures !Run(p, findings, n).critical
  {
    CriticalNeverSetAsWritten(p, findings, n);
    if n > 0 {
      StepCases(p, findings, n);
      RunSummaries(p, findings, n - 1);
      var prev := Run(p, findings, n - 1);
      if Run(p, findings, n) != prev {
        IdsSnoc(prev.annotations, AnnotationOf(p, findings[n - 1]).value);
      }
    }
  }

  lemma RunAligned(p: Poster, findings: seq<Finding>, n: nat)
    requires n <= |findings|
    requires Run(p, findings, n).failure.None?
    ensures Aligned(p, findings, n, Run(p, findings, n))
  {
    RunMatched(p, findings, n);
    RunSummaries(p, findings, n);
  }

  /** What one failure-free step does to `kept` and `seen`. */
  lemma StepKept(p: Poster, findings: seq<Finding>, n: nat)
    requires 0 < n <= |findings|
    requires Run(p, findings, n).failure.None?
    ensures var prev := Run(p, findings, n - 1); var st := Run(p, findings, n); var f := findings[n - 1];
      && prev.failure.None?
      && if f.HasIntegerLine() && FpOf(p, f) !in p.existing && FpOf(p, f) !in prev.seen
         then st.kept == prev.kept + [n - 1] && st.seen == prev.seen + {FpOf(p, f)}
         else st.kept == prev.kept && st.seen == prev.seen
  {
    StepCases(p, findings, n);
  }

  /** An integer-line finding already processed has its fingerprint on
      the pull request or among the posted ones. */
  lemma {:induction false} Covered(p: Poster, findings: seq<Finding>, n: nat, i: nat)
    requires i < n <= |findings|
    requires Run(p, findings, n).failure.None? && findings[i].HasIntegerLine()
    ensures FpOf(p, findings[i]) in p.existing || FpOf(p, findings[i]) in Run(p, findings, n).seen
  {
    StepKept(p, findings, n);
    if i < n - 1 {
      Covered(p, findings, n - 1, i);
    }
  }

  /** Every integer-line finding already processed has its fingerprint on
      the pull request or among the posted ones. */
  lemma RunCovers(p: Poster, findings: seq<Finding>, n: nat)
    requires n <= |findings|
    requires Run(p, findings, n).failure.None?
    ensures forall i :: 0 <= i < n && findings[i].HasIntegerLine() ==>
      FpOf(p, findings[i]) in p.existing || FpOf(p, findings[i]) in Run(p, findings, n).seen
  {
    forall i | 0 <= i < n && findings[i].HasIntegerLine()
      ensures FpOf(p, findings[i]) in p.existing || FpOf(p, findings[i]) in Run(p, findings, n).seen
    {
      Covered(p, findings, n, i);
    }
  }

  /** The posted findings lie below `n`, have integer lines, and their
      fingerprints are exactly `seen`. */
  lemma {:induction false} RunSeen(p: Poster, findings: seq<Finding>, n: nat)
    requires n <= |findings|
    requires Run(p, findings, n).failure.None?
    ensures forall j :: j in Run(p, findings, n).kept ==> j < n && findings[j].HasIntegerLine()
    ensures forall x :: x in Run(p, findings, n).seen ==>
      exists j :: 0 <= j < n && j in Run(p, findings, n).kept && findings[j].HasIntegerLine() && FpOf(p, findings[j]) == x
  {
    if n > 0 {
      StepKept(p, findings, n);
      RunSeen(p, findings, n - 1);
      var prev := Run(p, findings, n - 1);
      var st := Run(p, findings, n);
      forall x | x in st.seen
        ensures exists j :: 0 <= j < n && j in st.kept && findings[j].HasIntegerLine() && FpOf(p, findings[j]) == x
      {
        if x in prev.seen {
          var j :| 0 <= j < n - 1 && j in prev.kept && findings[j].HasIntegerLine() && FpOf(p, findings[j]) == x;
          assert j in st.kept;
        } else {
          assert n - 1 in st.kept;
        }
      }
    }
  }

  /** The dedupe, declaratively: the run posts exactly the findings that Keeps. */
  lemma {:induction false} RunKeeps(p: Poster, findings: seq<Finding>, n: nat)
    requires n <= |findings|
    requires Run(p, findings, n).failure.None?
    ensures forall i :: 0 <= i < n ==> (i in Run(p, findings, n).kept <==> Keeps(p, findings, i))
  {
    if n > 0 {
      StepKept(p, findings, n);
      RunKeeps(p, findings, n - 1);
      var prev := Run(p, findings, n - 1);
      var st := Run(p, findings, n);
      var f := findings[n - 1];
      RunSeen(p, findings, n - 1);
      RunCovers(p, findings, n - 1);
      assert n - 1 !in prev.kept;
      if f.HasIntegerLine() && FpOf(p, f) !in p.existing && FpOf(p, f) !in prev.seen {
        assert Keeps(p, findings, n - 1) by {
          forall j | 0 <= j < n - 1 && findings[j].HasIntegerLine()
            ensures FpOf(p, findings[j]) != FpOf(p, f)
          {
          }
        }
        forall i | 0 <= i < n - 1
          ensures i in st.kept <==> i in prev.kept
        {
        }
      } else {
        if f.HasIntegerLine() && FpOf(p, f) !in p.existing {
          var j :| 0 <= j < n - 1 && j in prev.kept && findings[j].HasIntegerLine() && FpOf(p, findings[j]) == FpOf(p, f);
        }
        assert !Keeps(p, findings, n - 1);
      }
    }
  }

  /** As written, `hasCriticalIssue` is never set, whatever the findings:
      the `bbSev` test reads a property no annotation has. */
  lemma {:induction false} CriticalNeverSetAsWritten(p: Poster, findings: seq<Finding>, n: nat)
    requires n <= |findings|
    ensures !Run(p, findings, n).critical
  {
    if n > 0 {
      CriticalNeverSetAsWritten(p, findings, n - 1);
      var f := findings[n - 1];
      if f.HasIntegerLine() && AnnotationOf(p, f).Ok? {
        IsCriticalMeansHigh(AnnotationOf(p, f).value);
      }
    }
  }

  /** The discrepancy on one input: a new finding with severity "error"
      whose POST is answered yields a HIGH annotation, yet the returned
      flag is false, while the intended flag is true. */
  lemma ErrorFindingMissedAsWritten(p: Poster, f: Finding)
    requires f.HasIntegerLine() && FpOf(p, f) !in p.existing
    requires !ReplyOf(p.posts(0)).Threw?
    requires f.severity == Str("error") && f.comment.Str?
    ensures var st := Run(p, [f], 1);
      && st.failure.None? && |st.annotations| == 1
      && st.annotations[0].severity == HIGH
      && AnyHigh(st.annotations)
      && !st.critical
      && !Outcome(st).value.hasCriticalIssue
  {
    SeverityMapping("error");
    var st := Run(p, [f], 1);
    assert Run(p, [f], 0) == Initial && [f][0] == f;
    assert st == Step(p, Initial, f, 0);
    var a := AnnotationOf(p, f).value;
    IsCriticalMeansHigh(a);
    assert st.annotations == [a];
    assert st.annotations[..0] == [];
    CriticalNeverSetAsWritten(p, [f], 1);
  }

  /** The step over finding `n - 1` of a run that has not stopped posts
      that finding exactly when it Keeps. */
  lemma StepPostsIffKeeps(p: Poster, findings: seq<Finding>, n: nat)
    requires 0 < n <= |findings|
    requires Run(p, findings, n - 1).failure.None?
    ensures var f := findings[n - 1];
      (f.HasIntegerLine() && FpOf(p, f) !in p.existing && FpOf(p, f) !in Run(p, findings, n - 1).seen)
        <==> Keeps(p, findings, n - 1)
  {
    RunSeen(p, findings, n - 1);
    RunCovers(p, findings, n - 1);
    var prev := Run(p, findings, n - 1);
    var f := findings[n - 1];
    if f.HasIntegerLine() && FpOf(p, f) !in p.existing {
      if FpOf(p, f) in prev.seen {
        var j :| 0 <= j < n - 1 && j in prev.kept && findings[j].HasIntegerLine() && FpOf(p, findings[j]) == FpOf(p, f);
      } else {
        forall j | 0 <= j < n - 1 && findings[j].HasIntegerLine()
          ensures FpOf(p, findings[j]) != FpOf(p, f)
        {
        }
      }
    }
  }

  /** Whether iteration `n - 1` POSTs its finding: the run has not
      stopped, the line is an integer and the fingerprint is new. */
  predicate PostsAt(p: Poster, findings: seq<Finding>, n: nat)
    requires 0 < n <= |findings|
  {
    var prev := Run(p, findings, n - 1);
    var f := findings[n - 1];
    prev.failure.None? && f.HasIntegerLine() && FpOf(p, f) !in p.existing && FpOf(p, f) !in prev.seen
  }

  /** The indices of the findings whose POST the first `n` iterations made,
      in the order they were made, the POST of a run that then stopped with
      an error included. */
  function PostedIndices(p: Poster, findings: seq<Finding>, n: nat): seq<nat>
    requires n <= |findings|
  {
    if n == 0 then []
    else PostedIndices(p, findings, n - 1) + (if PostsAt(p, findings, n) then [n - 1] else [])
  }

  /** What one iteration does to the POSTs: one more exactly when it posts. */
  lemma StepRequests(p: Poster, findings: seq<Finding>, n: nat)
    requires 0 < n <= |findings|
    ensures var prev := Run(p, findings, n - 1); var st := Run(p, findings, n);
      && (st.failure.None? ==> prev.failure.None?)
      && (PostsAt(p, findings, n) ==> st.requests == prev.requests + [PostRequest(p, findings[n - 1])])
      && (!PostsAt(p, findings, n) ==> st.requests == prev.requests)
  {
  }

  /** What one iteration does to the kept indices and the annotations: it
      adds the finding's when it posts it and does not stop. */
  lemma StepAnnotations(p: Poster, findings: seq<Finding>, n: nat)
    requires 0 < n <= |findings|
    ensures var prev := Run(p, findings, n - 1); var st := Run(p, findings, n); var f := findings[n - 1];
      && (st.failure.None? ==> prev.failure.None?)
      && (PostsAt(p, findings, n) && st.failure.None? ==>
            st.kept == prev.kept + [n - 1] && st.annotations == prev.annotations + [AnnotationOf(p, f).value]
            && AnnotationOf(p, f).Ok?)
      && (!PostsAt(p, findings, n) || st.failure.Some? ==> st.kept == prev.kept && st.annotations == prev.annotations)
  {
  }

  /** One POST per posted index. */
  lemma {:induction false} PostedCount(p: Poster, findings: seq<Finding>, n: nat)
    requires n <= |findings|
    ensures |PostedIndices(p, findings, n)| == |Run(p, findings, n).requests|
  {
    if n > 0 {
      PostedCount(p, findings, n - 1);
      StepRequests(p, findings, n);
    }
  }

  /** A run makes one POST per posted index and collects one annotation
      per kept index; it lacks an annotation only for a POST it stopped after. */
  lemma {:induction false} RunPostCounts(p: Poster, findings: seq<Finding>, n: nat)
    requires n <= |findings|
    ensures var st := Run(p, findings, n); var ix := PostedIndices(p, findings, n);
      && |ix| == |st.requests|
      && |st.kept| == |st.annotations| <= |ix| <= |st.annotations| + 1
      && (st.failure.None? ==> |ix| == |st.annotations|)
  {
    if n > 0 {
      RunPostCounts(p, findings, n - 1);
      StepRequests(p, findings, n);
      StepAnnotations(p, findings, n);
    }
  }

  /** The k-th posted index is one of the first `n`, and its finding has
      an integer line. */
  lemma {:induction false} PostedIndexBound(p: Poster, findings: seq<Finding>, n: nat, k: nat)
    requires n <= |findings| && k < |PostedIndices(p, findings, n)|
    ensures var ix := PostedIndices(p, findings, n);
      ix[k] < n && findings[ix[k]].HasIntegerLine()
  {
    var ixp := PostedIndices(p, findings, n - 1);
    if k < |ixp| {
      PostedIndexBound(p, findings, n - 1, k);
    }
  }

  /** The k-th POST is that of the k-th posted finding. */
  lemma {:induction false} PostedIndexAt(p: Poster, findings: seq<Finding>, n: nat, k: nat)
    requires n <= |findings| && k < |PostedIndices(p, findings, n)|
    ensures var ix := PostedIndices(p, findings, n); var st := Run(p, findings, n);
      ix[k] < n && findings[ix[k]].HasIntegerLine()
      && k < |st.requests| && st.requests[k] == PostRequest(p, findings[ix[k]])
  {
    PostedIndexBound(p, findings, n, k);
    PostedCount(p, findings, n - 1);
    StepRequests(p, findings, n);
    var ixp := PostedIndices(p, findings, n - 1);
    if k < |ixp| {
      PostedIndexAt(p, findings, n - 1, k);
    }
  }

  predicate Increasing(s: seq<nat>) {
    forall a, b :: 0 <= a < b < |s| ==> s[a] < s[b]
  }

  /** The posted indices increase. */
  lemma {:induction false} PostedIndicesIncrease(p: Poster, findings: seq<Finding>, n: nat)
    requires n <= |findings|
    ensures Increasing(PostedIndices(p, findings, n))
  {
    if n > 0 {
      PostedIndicesIncrease(p, findings, n - 1);
      var ixp := PostedIndices(p, findings, n - 1);
      var ix := PostedIndices(p, findings, n);
      if PostsAt(p, findings, n) {
        assert ix == ixp + [n - 1];
        forall a | 0 <= a < |ixp|
          ensures ixp[a] < n - 1
        {
          PostedIndexAt(p, findings, n - 1, a);
        }
      } else {
        assert ix == ixp;
      }
    }
  }

  /** The k-th POST is that of the k-th posted finding, and the posted
      indices increase. */
  lemma RunPostRequests(p: Poster, findings: seq<Finding>, n: nat)
    requires n <= |findings|
    ensures var st := Run(p, findings, n); var ix := PostedIndices(p, findings, n);
      && |ix| == |st.requests|
      && (forall k :: 0 <= k < |ix| ==>
            ix[k] < n && findings[ix[k]].HasIntegerLine() && st.requests[k] == PostRequest(p, findings[ix[k]]))
      && (forall a, b :: 0 <= a < b < |ix| ==> ix[a] < ix[b])
  {
    RunPostCounts(p, findings, n);
    PostedIndicesIncrease(p, findings, n);
    var ix := PostedIndices(p, findings, n);
    forall k | 0 <= k < |ix|
      ensures ix[k] < n && findings[ix[k]].HasIntegerLine() && Run(p, findings, n).requests[k] == PostRequest(p, findings[ix[k]])
    {
      PostedIndexAt(p, findings, n, k);
    }
  }

  /** The k-th kept index is the k-th posted one, and the k-th annotation
      is built from that finding. */
  lemma {:induction false} RunPostAnnotations(p: Poster, findings: seq<Finding>, n: nat)
    requires n <= |findings|
    ensures var st := Run(p, findings, n); var ix := PostedIndices(p, findings, n);
      && |st.kept| == |st.annotations| <= |ix|
      && forall k :: 0 <= k < |st.kept| ==>
           ix[k] < |findings| && findings[ix[k]].HasIntegerLine()
           && st.kept[k] == ix[k] && AnnotationOf(p, findings[ix[k]]) == Ok(st.annotations[k])
  {
    RunPostCounts(p, findings, n);
    RunPostRequests(p, findings, n);
    if n > 0 {
      RunPostAnnotations(p, findings, n - 1);
      StepAnnotations(p, findings, n);
      var prev := Run(p, findings, n - 1);
      var st := Run(p, findings, n);
      var ixp := PostedIndices(p, findings, n - 1);
      var ix := PostedIndices(p, findings, n);
      forall k | 0 <= k < |st.kept|
        ensures st.kept[k] == ix[k] && AnnotationOf(p, findings[ix[k]]) == Ok(st.annotations[k])
      {
        if k < |prev.kept| {
          assert ix[k] == ixp[k] && st.kept[k] == prev.kept[k] && st.annotations[k] == prev.annotations[k];
        }
      }
    }
  }

  /** Every POST of a run, failed or not, belongs to a finding with an
      integer line, in increasing index order; the annotations are those of
      the first POSTs, all of them unless the run stopped after its last POST. */
  lemma RunPosts(p: Poster, findings: seq<Finding>, n: nat)
    requires n <= |findings|
    ensures var st := Run(p, findings, n); var ix := PostedIndices(p, findings, n);
      && |ix| == |st.requests|
      && |st.kept| == |st.annotations| <= |ix| <= |st.annotations| + 1
      && (st.failure.None? ==> |ix| == |st.annotations|)
      && (forall k :: 0 <= k < |ix| ==>
            ix[k] < n && findings[ix[k]].HasIntegerLine() && st.requests[k] == PostRequest(p, findings[ix[k]]))
      && (forall a, b :: 0 <= a < b < |ix| ==> ix[a] < ix[b])
      && (forall k :: 0 <= k < |st.kept| ==>
            st.kept[k] == ix[k] && AnnotationOf(p, findings[ix[k]]) == Ok(st.annotations[k]))
  {
    RunPostCounts(p, findings, n);
    RunPostRequests(p, findings, n);
    RunPostAnnotations(p, findings, n);
  }

  /** Finding `i` is posted exactly when it Keeps and the run had not
      stopped before it. */
  lemma {:induction false} PostedIff(p: Poster, findings: seq<Finding>, n: nat, i: nat)
    requires i < n <= |findings|
    ensures i in PostedIndices(p, findings, n) <==> Keeps(p, findings, i) && Run(p, findings, i).failure.None?
  {
    RunPostRequests(p, findings, n - 1);
    var ixp := PostedIndices(p, findings, n - 1);
    var ix := PostedIndices(p, findings, n);
    assert n - 1 !in ixp;
    if i < n - 1 {
      PostedIff(p, findings, n - 1, i);
      assert i in ix <==> i in ixp;
    } else if Run(p, findings, n - 1).failure.None? {
      StepPostsIffKeeps(p, findings, n);
    }
  }

  lemma RunPostsKeeps(p: Poster, findings: seq<Finding>, n: nat)
    requires n <= |findings|
    ensures forall i :: 0 <= i < n ==>
      (i in PostedIndices(p, findings, n) <==> Keeps(p, findings, i) && Run(p, findings, i).failure.None?)
  {
    forall i | 0 <= i < n
      ensures i in PostedIndices(p, findings, n) <==> Keeps(p, findings, i) && Run(p, findings, i).failure.None?
    {
      PostedIff(p, findings, n, i);
    }
  }

  /** A run that has not stopped has met no null item. */
  lemma {:induction false} FailureFreeRunHasObjects(p: Poster, findings: seq<Finding>, n: nat)
    requires n <= |findings|
    requires Run(p, findings, n).failure.None?
    ensures forall i :: 0 <= i < n ==> findings[i].Finding?
  {
    if n > 0 {
      FailureFreeRunHasObjects(p, findings, n - 1);
    }
  }

  /** Every run, one that stopped with an error included, posts the new
      findings in order: the k-th POST belongs to the k-th finding that
      Keeps before the run stopped, and the k-th annotation to the same
      finding, carrying its fingerprint, file and line. A run without an
      error has an annotation for every POST. */
  lemma PostsExactlyTheNewFindings(p: Poster, findings: seq<Finding>)
    ensures var st := Run(p, findings, |findings|); var ix := PostedIndices(p, findings, |findings|);
      && |ix| == |st.requests|
      && (forall i :: 0 <= i < |findings| ==>
            (i in ix <==> Keeps(p, findings, i) && Run(p, findings, i).failure.None?))
      && (forall a, b :: 0 <= a < b < |ix| ==> ix[a] < ix[b])
      && (forall k :: 0 <= k < |ix| ==>
            ix[k] < |findings| && findings[ix[k]].HasIntegerLine()
            && st.requests[k] == PostRequest(p, findings[ix[k]]))
      && |st.kept| == |st.annotations| <= |ix|
      && (forall k :: 0 <= k < |st.annotations| ==>
            && st.kept[k] == ix[k]
            && AnnotationOf(p, findings[ix[k]]) == Ok(st.annotations[k])
            && st.annotations[k].externalId == FpOf(p, findings[ix[k]])
            && st.annotations[k].path == findings[ix[k]].file
            && st.annotations[k].line == findings[ix[k]].line.n)
    ensures var st := Run(p, findings, |findings|);
      st.failure.None? ==>
        && st.kept == PostedIndices(p, findings, |findings|)
        && (forall i :: 0 <= i < |findings| ==> (i in st.kept <==> Keeps(p, findings, i)))
  {
    RunPosts(p, findings, |findings|);
    RunPostsKeeps(p, findings, |findings|);
    var st := Run(p, findings, |findings|);
    if st.failure.None? {
      RunKeeps(p, findings, |findings|);
    }
  }

  /** In every run, one that stopped with an error included: no POST is for
      a fingerprint that was on the pull request before, and no two POSTs
      are for the same fingerprint; the same holds for the annotations. */
  lemma PostedFingerprintsAreNewAndDistinct(p: Poster, findings: seq<Finding>)
    ensures var ix := PostedIndices(p, findings, |findings|);
      forall k :: 0 <= k < |ix| ==>
        ix[k] < |findings| && findings[ix[k]].HasIntegerLine() && FpOf(p, findings[ix[k]]) !in p.existing
    ensures var ix := PostedIndices(p, findings, |findings|);
      forall a, b :: 0 <= a < b < |ix| ==>
        ix[a] < |findings| && ix[b] < |findings| && findings[ix[a]].HasIntegerLine() && findings[ix[b]].HasIntegerLine()
        && FpOf(p, findings[ix[a]]) != FpOf(p, findings[ix[b]])
    ensures var anns := Run(p, findings, |findings|).annotations;
      && (forall k :: 0 <= k < |anns| ==> anns[k].externalId !in p.existing)
      && (forall a, b :: 0 <= a < b < |anns| ==> anns[a].externalId != anns[b].externalId)
  {
    var st := Run(p, findings, |findings|);
    var ix := PostedIndices(p, findings, |findings|);
    PostsExactlyTheNewFindings(p, findings);
    forall k | 0 <= k < |ix|
      ensures FpOf(p, findings[ix[k]]) !in p.existing
    {
      assert ix[k] in ix;
    }
    forall a, b | 0 <= a < b < |ix|
      ensures FpOf(p, findings[ix[a]]) != FpOf(p, findings[ix[b]])
    {
      assert ix[b] in ix;
      assert Keeps(p, findings, ix[b]);
    }
  }

  /** The intended flag holds exactly when some annotation is HIGH, that
      is when some posted finding's severity reads "error" in any case. */
  lemma CriticalIffSomeHigh(p: Poster, findings: seq<Finding>)
    requires Run(p, findings, |findings|).failure.None?
    ensures var st := Run(p, findings, |findings|);
      (AnyHigh(st.annotations) <==> exists k :: 0 <= k < |st.annotations| && st.annotations[k].severity == HIGH)
    ensures var st := Run(p, findings, |findings|);
      forall k :: 0 <= k < |st.kept| && k < |st.annotations| && st.kept[k] < |findings| ==>
        var f := findings[st.kept[k]];
        f.HasIntegerLine() && f.severity != Null && EffectiveSeverity(f.severity).Str?
        && (st.annotations[k].severity == HIGH <==> SameIgnoringCase(EffectiveSeverity(f.severity).s, "error"))
  {
    var st := Run(p, findings, |findings|);
    RunMatched(p, findings, |findings|);
    IdsMembers(st.annotations);
    forall k | 0 <= k < |st.kept| && k < |st.annotations| && st.kept[k] < |findings|
      ensures var f := findings[st.kept[k]];
        f.HasIntegerLine() && f.severity != Null && EffectiveSeverity(f.severity).Str?
        && (st.annotations[k].severity == HIGH <==> SameIgnoringCase(EffectiveSeverity(f.severity).s, "error"))
    {
      AnnotationSeverity(p, findings[st.kept[k]], st.annotations[k]);
    }
  }

  /** The severity of the annotation built for a finding. */
  lemma AnnotationSeverity(p: Poster, f: Finding, a: Annotation)
    requires f.HasIntegerLine() && AnnotationOf(p, f) == Ok(a)
    ensures f.severity != Null && EffectiveSeverity(f.severity).Str?
    ensures a.severity == HIGH <==> SameIgnoringCase(EffectiveSeverity(f.severity).s, "error")
  {
    SeverityMapping(EffectiveSeverity(f.severity).s);
  }

  /** When every integer-line finding's fingerprint is already known, the
      run posts nothing and collects nothing; it stops with a TypeError
      exactly when it meets a null item. */
  lemma {:induction false} AllKnownPostsNothing(p: Poster, findings: seq<Finding>, n: nat)
    requires n <= |findings|
    requires forall i :: 0 <= i < |findings| && findings[i].HasIntegerLine() ==> FpOf(p, findings[i]) in p.existing
    ensures var st := Run(p, findings, n);
      st.seen == {} && st.annotations == [] && !st.critical && st.requests == [] && st.kept == []
    ensures Run(p, findings, n).failure.None? <==> forall i :: 0 <= i < n ==> findings[i].Finding?
    ensures Run(p, findings, n).failure.Some? ==> Run(p, findings, n).failure == Some(TypeError)
  {
    if n > 0 {
      AllKnownPostsNothing(p, findings, n - 1);
    }
  }

  /** After a failure-free run every integer-line finding's fingerprint is
      on the pull request or among the posted ones. */
  lemma KnownAfterRun(p: Poster, findings: seq<Finding>)
    requires Run(p, findings, |findings|).failure.None?
    ensures forall i :: 0 <= i < |findings| && findings[i].HasIntegerLine() ==>
      FpOf(p, findings[i]) in p.existing + Ids(Run(p, findings, |findings|).annotations)
  {
    var st := Run(p, findings, |findings|);
    RunSummaries(p, findings, |findings|);
    RunCovers(p, findings, |findings|);
    assert forall i :: 0 <= i < |findings| && findings[i].HasIntegerLine() ==>
      FpOf(p, findings[i]) in p.existing || FpOf(p, findings[i]) in st.seen;
    assert st.seen == Ids(st.annotations);
  }

  /** Idempotence: running again over the same findings, with the posted
      fingerprints now on the pull request, posts nothing. */
  lemma RerunPostsNothing(p: Poster, findings: seq<Finding>)
    requires Run(p, findings, |findings|).failure.None?
    ensures var st := Run(p, findings, |findings|);
      Run(p.(existing := p.existing + Ids(st.annotations)), findings, |findings|) == Initial
  {
    var known := p.existing + Ids(Run(p, findings, |findings|).annotations);
    KnownAfterRun(p, findings);
    var p' := p.(existing := known);
    assert forall i :: 0 <= i < |findings| && findings[i].HasIntegerLine() ==> FpOf(p', findings[i]) in p'.existing;
    AllKnownPostsNothing(p', findings, |findings|);
    FailureFreeRunHasObjects(p, findings, |findings|);
  }

  /** Every posted body, in any run, scans back to the fingerprint of the
      finding it was posted for, which is also that of its annotation, so a
      later run's FetchPrComments sees it. */
  lemma PostedBodiesScanBack(p: Poster, findings: seq<Finding>)
    requires YieldsHex(p.fingerprint)
    ensures var st := Run(p, findings, |findings|); var ix := PostedIndices(p, findings, |findings|);
      forall k :: 0 <= k < |st.requests| ==>
        && st.requests[k].verb == POST && st.requests[k].endpoint == p.url
        && st.requests[k].payload.InlineComment?
        && k < |ix| && ix[k] < |findings| && findings[ix[k]].HasIntegerLine()
        && FirstMarker(st.requests[k].payload.raw) == Some(FpOf(p, findings[ix[k]]))
    ensures var st := Run(p, findings, |findings|);
      forall k :: 0 <= k < |st.annotations| && k < |st.requests| ==>
        && st.requests[k].payload.InlineComment?
        && FirstMarker(st.requests[k].payload.raw) == Some(st.annotations[k].externalId)
  {
    var st := Run(p, findings, |findings|);
    var ix := PostedIndices(p, findings, |findings|);
    PostsExactlyTheNewFindings(p, findings);
    forall k | 0 <= k < |st.requests|
      ensures st.requests[k].payload.InlineComment?
        && FirstMarker(st.requests[k].payload.raw) == Some(FpOf(p, findings[ix[k]]))
    {
      var f := findings[ix[k]];
      FormatCommentRoundTrip(FpOf(p, f), EffectiveSeverity(f.severity), f.comment);
    }
  }

  /** The number of iterations after which the run stopped with an error:
      one past the index of the finding it stopped at, or `n` if it has not
      stopped. */
  function StopIndex(p: Poster, findings: seq<Finding>, n: nat): (m: nat)
    requires n <= |findings|
    ensures m <= n
  {
    if n == 0 || Run(p, findings, n - 1).failure.None? then n else StopIndex(p, findings, n - 1)
  }

  /** The iteration that stops a run: a null item stops it with a
      TypeError and no POST; any other finding it stops at Keeps, is POSTed,
      and stops it with that call's re-raised error or with the TypeError of
      building its annotation. */
  lemma StoppingStep(p: Poster, findings: seq<Finding>, m: nat)
    requires 0 < m <= |findings|
    requires Run(p, findings, m - 1).failure.None? && Run(p, findings, m).failure.Some?
    ensures var prev := Run(p, findings, m - 1); var st := Run(p, findings, m);
      findings[m - 1].Nullish? ==> st == prev.(failure := Some(TypeError))
    ensures var prev := Run(p, findings, m - 1); var st := Run(p, findings, m);
      findings[m - 1].Finding? ==>
        && Keeps(p, findings, m - 1)
        && st == prev.(requests := prev.requests + [PostRequest(p, findings[m - 1])], failure := st.failure)
        && (ReplyOf(p.posts(|prev.requests|)).Threw? ==>
              st.failure == Some(TransportError(ReplyOf(p.posts(|prev.requests|)).message)))
        && (!ReplyOf(p.posts(|prev.requests|)).Threw? ==>
              st.failure == Some(TypeError) && AnnotationOf(p, findings[m - 1]).Err?)
  {
    StepPostsIffKeeps(p, findings, m);
  }

  /** A run that stopped did so at StopIndex, and later findings changed nothing. */
  lemma {:induction false} StopIndexStops(p: Poster, findings: seq<Finding>, n: nat)
    requires n <= |findings|
    requires Run(p, findings, n).failure.Some?
    ensures var m := StopIndex(p, findings, n);
      0 < m && Run(p, findings, m - 1).failure.None? && Run(p, findings, m) == Run(p, findings, n)
  {
    if Run(p, findings, n - 1).failure.Some? {
      StopIndexStops(p, findings, n - 1);
    }
  }

  /** A run that stopped with an error stopped at one finding, which the
      run had not stopped before, and nothing after it changes the state.
      A null item stops it with a TypeError and no POST; any other finding
      it stops at Keeps and was POSTed last, and the run stopped with that
      call's re-raised error or with the TypeError of building its annotation. */
  lemma RunStopsAtFirstFailure(p: Poster, findings: seq<Finding>, n: nat)
    requires n <= |findings|
    requires Run(p, findings, n).failure.Some?
    ensures var m := StopIndex(p, findings, n);
      0 < m && Run(p, findings, m - 1).failure.None? && Run(p, findings, m) == Run(p, findings, n)
    ensures var m := StopIndex(p, findings, n); var prev := Run(p, findings, m - 1); var st := Run(p, findings, n);
      findings[m - 1].Nullish? ==> st == prev.(failure := Some(TypeError))
    ensures var m := StopIndex(p, findings, n); var prev := Run(p, findings, m - 1); var st := Run(p, findings, n);
      findings[m - 1].Finding? ==>
        && Keeps(p, findings, m - 1)
        && st == prev.(requests := prev.requests + [PostRequest(p, findings[m - 1])], failure := st.failure)
        && (ReplyOf(p.posts(|prev.requests|)).Threw? ==>
              st.failure == Some(TransportError(ReplyOf(p.posts(|prev.requests|)).message)))
        && (!ReplyOf(p.posts(|prev.requests|)).Threw? ==>
              st.failure == Some(TypeError) && AnnotationOf(p, findings[m - 1]).Err?)
  {
    StopIndexStops(p, findings, n);
    StoppingStep(p, findings, StopIndex(p, findings, n));
  }

  /** A POST answered with no response or with any status (a 4xx included)
      does not stop the run: the finding is kept when its annotation builds. */
  lemma AnsweredPostsContinue(p: Poster, st: PosterState, f: Finding, i: nat)
    requires st.failure.None? && f.HasIntegerLine()
    requires FpOf(p, f) !in p.existing && FpOf(p, f) !in st.seen
    requires !ReplyOf(p.posts(|st.requests|)).Threw?
    requires f.severity != Null && f.comment.Str?
    ensures var next := Step(p, st, f, i);
      next.failure.None? && next.kept == st.kept + [i] && next.seen == st.seen + {FpOf(p, f)}
      && |next.requests| == |st.requests| + 1
  {
  }

  /** A missing severity is shown as "info" and annotated LOW; a null one
      is shown as "null" in the posted body and then fails the run with a
      TypeError. */
  lemma SeverityDefaults(p: Poster, st: PosterState, f: Finding, i: nat)
    requires st.failure.None? && f.HasIntegerLine()
    requires FpOf(p, f) !in p.existing && FpOf(p, f) !in st.seen
    requires !ReplyOf(p.posts(|st.requests|)).Threw?
    ensures f.severity == Undefined && f.comment.Str? ==>
      PostRequest(p, f).payload.raw == FormatComment(FpOf(p, f), Str("info"), f.comment)
      && Step(p, st, f, i).annotations == st.annotations + [AnnotationOf(p, f).value]
      && AnnotationOf(p, f).value.severity == LOW
    ensures f.severity == Null ==>
      PostRequest(p, f).payload.raw == FormatComment(FpOf(p, f), Str("null"), f.comment)
      && Step(p, st, f, i).requests == st.requests + [PostRequest(p, f)]
      && Step(p, st, f, i).failure == Some(TypeError)
  {
    SeverityMapping(DefaultSeverity);
  }
}

/** `uploadCodeInsights`: publish the annotations of a review as a Code
    Insights report on the source commit. */
module Insights {
  import opened JsValues
  import opened BitbucketApi
  import opened HttpClient
  import opened PrMetadata

  const ReportId: string := "gemini-ai-review"

  /** The report document for `count` annotations. */
  function ReportFor(count: nat): Report {
    Report("Gemini AI Code Review", "Found " + NatToDecimal(count) + " issues.", "BUG", "CI", "PASSED",
           [ReportDatum("Issues Found", "NUMBER", count)])
  }

  /** The result of an upload with the requests it made. */
  datatype Upload = Upload(result: Result<()>, requests: seq<Request>)

  function ReportRequest(data: PrMetadata, annotations: seq<Annotation>): Request {
    Request(PUT, CommitReport(data.repoSrc, data.srcCommit, ReportId), ReportPayload(ReportFor(|annotations|)))
  }

  function AnnotationsRequest(data: PrMetadata, annotations: seq<Annotation>): Request {
    Request(POST, ReportAnnotations(data.repoSrc, data.srcCommit, ReportId), AnnotationList(annotations))
  }

  /** The upload: nothing for no annotations; otherwise the PUT of the
      report and then the POST of the annotations. Either request's reply is
      ignored unless its call re-raised an error, which aborts the upload. */
  function Uploaded(data: PrMetadata, annotations: seq<Annotation>, reportCall: Transport, annotationsCall: Transport)
    : Upload
  {
    if |annotations| == 0 then Upload(Ok(()), [])
    else
      var put := ReplyOf(reportCall);
      if put.Threw? then Upload(Err(TransportError(put.message)), [ReportRequest(data, annotations)])
      else
        var post := ReplyOf(annotationsCall);
        var requests := [ReportRequest(data, annotations), AnnotationsRequest(data, annotations)];
        if post.Threw? then Upload(Err(TransportError(post.message)), requests) else Upload(Ok(()), requests)
  }

  method UploadCodeInsights(data: PrMetadata, annotations: seq<Annotation>, reportCall: Transport, annotationsCall: Transport)
    returns (result: Result<()>, requests: seq<Request>)
    ensures Upload(result, requests) == Uploaded(data, annotations, reportCall, annotationsCall)
  {
    if |annotations| == 0 {
      return Ok(()), [];
    }
    var url := CommitReport(data.repoSrc, data.srcCommit, ReportId);
    var count := |annotations|;
    var report := Report("Gemini AI Code Review", "Found " + NatToDecimal(count) + " issues.", "BUG", "CI", "PASSED",
                         [ReportDatum("Issues Found", "NUMBER", count)]);
    requests := [Request(PUT, url, ReportPayload(report))];
    var put, _, _ := MakeBitbucketRequest(reportCall);
    if put.Threw? {
      return Err(TransportError(put.message)), requests;
    }
    requests := requests + [Request(POST, ReportAnnotations(data.repoSrc, data.srcCommit, ReportId), AnnotationList(annotations))];
    var post, _, _ := MakeBitbucketRequest(annotationsCall);
    if post.Threw? {
      return Err(TransportError(post.message)), requests;
    }
    result := Ok(());
  }

  /** No annotations: no request, and the upload succeeds. */
  lemma EmptyUploadsNothing(data: PrMetadata, reportCall: Transport, annotationsCall: Transport)
    ensures Uploaded(data, [], reportCall, annotationsCall) == Upload(Ok(()), [])
  {
  }

  /** Some annotations: first a PUT of a PASSED report counting them to the
      commit's report URL, then (unless that call re-raised) a POST of
      exactly these annotations to its `/annotations` URL; nothing else. */
  lemma UploadOrder(data: PrMetadata, annotations: seq<Annotation>, reportCall: Transport, annotationsCall: Transport)
    requires |annotations| > 0
    ensures var u := Uploaded(data, annotations, reportCall, annotationsCall);
      && 1 <= |u.requests| <= 2
      && u.requests[0].verb == PUT
      && u.requests[0].endpoint == CommitReport(data.repoSrc, data.srcCommit, ReportId)
      && u.requests[0].payload.ReportPayload?
      && u.requests[0].payload.report.result == "PASSED"
      && u.requests[0].payload.report.data[0].value == |annotations|
      && DecimalValue(u.requests[0].payload.report.details[6..|u.requests[0].payload.report.details| - 8]) == |annotations|
      && (|u.requests| == 2 <==> !ReplyOf(reportCall).Threw?)
      && (|u.requests| == 2 ==>
            u.requests[1] == Request(POST, ReportAnnotations(data.repoSrc, data.srcCommit, ReportId), AnnotationList(annotations)))
    ensures var u := Uploaded(data, annotations, reportCall, annotationsCall);
      u.result.Err? <==> ReplyOf(reportCall).Threw? || (|u.requests| == 2 && ReplyOf(annotationsCall).Threw?)
  {
    var details := "Found " + NatToDecimal(|annotations|) + " issues.";
    assert details[6..|details| - 8] == NatToDecimal(|annotations|);
    DecimalRoundTrip(|annotations|);
  }
}

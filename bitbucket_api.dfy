/** The records the pipeline exchanges with the Bitbucket REST API, reduced
    to the parts the code reads or writes, and the trace entries that record
    each call it makes. */
module BitbucketApi {
  import opened JsValues

  /** One pull-request comment, reduced to `c?.content?.raw`. */
  datatype Comment = Comment(raw: Option<string>)

  /** The JSON body of a response, reduced to `data.values` and `data.next`;
      any body without these fields (an error object, a POST result) is
      `Body(None, None)`. */
  datatype Body = Body(values: Option<seq<Comment>>, next: Option<string>)

  datatype Response = Response(status: int, data: Body)

  /** Code Insights annotation severities. */
  datatype Level = LOW | MEDIUM | HIGH

  /** One record of the annotation list uploaded to the report. */
  datatype Annotation = Annotation(
    externalId: string,
    annotationType: string,
    path: string,
    line: int,
    summary: string,
    severity: Level)

  /** The `data` entry of a report. */
  datatype ReportDatum = ReportDatum(title: string, kind: string, value: int)

  /** The Code Insights report document. */
  datatype Report = Report(
    title: string,
    details: string,
    reportType: string,
    reporter: string,
    result: string,
    data: seq<ReportDatum>)

  datatype Verb = GET | PUT | POST

  /** The URL a request goes to, by the shape the code builds. */
  datatype Endpoint =
    | CommentList(repo: string, prId: Option<int>, pageLen: nat)   // .../pullrequests/{id}/comments?pagelen=100
    | Link(url: string)                                            // a `next` link returned by the server
    | PrComments(repo: string, prId: Option<int>)                  // .../pullrequests/{id}/comments
    | CommitReport(repo: string, commit: string, reportId: string) // .../commit/{hash}/reports/{id}
    | ReportAnnotations(repo: string, commit: string, reportId: string) // ... /annotations

  datatype Payload =
    | NoPayload
    | InlineComment(raw: string, path: string, to: int)   // { content: { raw }, inline: { path, to } }
    | ReportPayload(report: Report)
    | AnnotationList(annotations: seq<Annotation>)

  /** One call of the retrying client (however many attempts it took). */
  datatype Request = Request(verb: Verb, endpoint: Endpoint, payload: Payload)

  /** Why an operation rejected: a transport error re-raised by the client,
      or a TypeError from dereferencing a missing value. */
  datatype Failure = TransportError(message: string) | TypeError

  datatype Result<T> = Ok(value: T) | Err(failure: Failure)
}

/** `doPrReview` and the two HTTP routes that start it: the pipeline from
    the pull request to the posted comments and the Code Insights report,
    over abstract results of its collaborators. */
module Review {
  import opened JsValues
  import opened Hash
  import opened BitbucketApi
  import opened HttpClient
  import opened CommentScanner
  import opened PrMetadata
  import opened ReviewPoster
  import opened Insights
  import opened Prompt

  /** The parsed AI output `aiJson`, or the error the AI call raised. */
  datatype AiReply =
    | AiFailed(message: string)                         // the call or `JSON.parse` threw
    | NullReply                                         // `null`
    | FindingList(items: seq<Finding>)                  // a bare array of findings
    | Wrapper(reviewComments: Option<seq<Finding>>)     // an object; `None`: no or null `reviewComments`

  /** What the pipeline's collaborators give back: `fetchPR` and
      `fetchPrDiff` (null when their call threw or gave no response), the comment pages, the parsed
      config file, the AI call, the fingerprint function, and the transport
      answers of the poster's POSTs and of the two upload requests. */
  datatype Collaborators<!G> = Collaborators(
    prDetails: Option<PrDetails>,
    diff: Option<string>,
    commentPages: seq<Transport>,
    promptConfig: PromptConfig<G>,
    ai: (string, G) -> AiReply,
    fingerprint: Fingerprinter,
    posts: nat -> Transport,
    reportCall: Transport,
    annotationsCall: Transport)

  /** The stages of a review, in the order the code starts them. */
  datatype Stage =
    | FetchPr(repo: string, prId: Option<int>)
    | FetchDiff(repo: string, prId: Option<int>)
    | ScanComments(repo: string, prId: Option<int>)
    | BuildPrompt(vars: PromptVars)
    | CallAi(prompt: string)
    | PostComments(existing: set<string>)
    | UploadInsights(annotations: seq<Annotation>)

  function StageIndex(s: Stage): nat {
    match s
    case FetchPr(_, _) => 0
    case FetchDiff(_, _) => 1
    case ScanComments(_, _) => 2
    case BuildPrompt(_) => 3
    case CallAi(_) => 4
    case PostComments(_) => 5
    case UploadInsights(_) => 6
  }

  /** How `doPrReview` ends: early for a falsy diff; normally, having taken
      the critical branch or not; or by rejecting with an error. */
  datatype ReviewOutcome = NoDiff | Finished(critical: bool) | Crashed(failure: Failure)

  /** `aiJson.reviewComments ?? aiJson`: `Ok(None)` is a value that the
      poster cannot iterate (an object without a usable `reviewComments`). */
  function ReviewComments(reply: AiReply): (r: Result<Option<seq<Finding>>>)
    requires !reply.AiFailed?
    ensures r.Err? <==> reply.NullReply?
    ensures r == Ok(None) <==> reply == Wrapper(None)
  {
    match reply
    case NullReply => Err(TypeError)
    case FindingList(items) => Ok(Some(items))
    case Wrapper(r) => Ok(r)
  }

  /** `??` falls back to `aiJson` only for a null or undefined
      `reviewComments`: an empty list of review comments is used as it is. */
  lemma FindingsPreferReviewComments(items: seq<Finding>)
    ensures ReviewComments(Wrapper(Some(items))) == Ok(Some(items))
    ensures ReviewComments(FindingList(items)) == Ok(Some(items))
    ensures ReviewComments(Wrapper(Some([]))) == Ok(Some([]))
  {
  }

  /** The prompt variables `loadPrompt` reads from the metadata: the diff,
      the two branches, and a `jiraKey` that no code sets. */
  function VarsFor(m: PrMetadata, diff: Option<string>): PromptVars {
    PromptVars(diff, Some(m.srcBranch), Some(m.dstBranch), None)
  }

  datatype ReviewRun = ReviewRun(outcome: ReviewOutcome, stages: seq<Stage>, requests: seq<Request>)

  /** The whole review as a function of its inputs. */
  function Reviewed<G>(repo: string, prId: Option<int>, env: Collaborators<G>): ReviewRun
    requires ListingEnds(env.commentPages)
  {
    var m := GetPrMetadata(env.prDetails);
    var s0 := [FetchPr(repo, prId), FetchDiff(m.repoSrc, m.prId)];
    if !Truthy(env.diff) then ReviewRun(NoDiff, s0, [])
    else ScannedAndPosted(m, env, s0 + [ScanComments(m.repoSrc, m.prId)])
  }

  /** The stages from the comment scan on. */
  function ScannedAndPosted<G>(m: PrMetadata, env: Collaborators<G>, stages: seq<Stage>): ReviewRun
    requires ListingEnds(env.commentPages)
  {
    var scan := ScanPages(m.repoSrc, m.prId, env.commentPages);
    if scan.result.Err? then ReviewRun(Crashed(scan.result.failure), stages, scan.requests)
    else PromptedAndPosted(m, env, scan.result.value, stages, scan.requests)
  }

  /** The stages after the scan: the prompt, the AI call, and then posting
      and uploading unless the AI output is unusable. */
  function PromptedAndPosted<G>(m: PrMetadata, env: Collaborators<G>, existing: set<string>,
                                stages: seq<Stage>, requests: seq<Request>): ReviewRun
  {
    var vars := VarsFor(m, env.diff);
    var prompt := Substitute(env.promptConfig.promptTemplate, Values(vars), |Keys|);
    var s2 := stages + [BuildPrompt(vars), CallAi(prompt)];
    var reply := env.ai(prompt, env.promptConfig.generationConfig);
    if reply.AiFailed? then ReviewRun(Crashed(TransportError(reply.message)), s2, requests)
    else if ReviewComments(reply).Err? then ReviewRun(Crashed(TypeError), s2, requests)
    else
      var s3 := s2 + [PostComments(existing)];
      if ReviewComments(reply).value.None? then ReviewRun(Crashed(TypeError), s3, requests)
      else PostedAndUploaded(m, env, existing, ReviewComments(reply).value.value, s3, requests)
  }

  /** The last two stages: post the findings against the scanned set, then
      upload the annotations the poster collected. */
  function PostedAndUploaded<G>(m: PrMetadata, env: Collaborators<G>, existing: set<string>, findings: seq<Finding>,
                                stages: seq<Stage>, requests: seq<Request>): ReviewRun
  {
    var st := Run(PosterFor(m, existing, env.fingerprint, env.posts), findings, |findings|);
    var r3 := requests + st.requests;
    if st.failure.Some? then ReviewRun(Crashed(st.failure.value), stages, r3)
    else
      var s4 := stages + [UploadInsights(st.annotations)];
      var up := Uploaded(m, st.annotations, env.reportCall, env.annotationsCall);
      var r4 := r3 + up.requests;
      if up.result.Err? then ReviewRun(Crashed(up.result.failure), s4, r4)
      else ReviewRun(Finished(st.critical), s4, r4)
  }

  method PostAndUpload<G>(prMetadata: PrMetadata, env: Collaborators<G>, existing: set<string>, findings: seq<Finding>,
                          stages0: seq<Stage>, requests0: seq<Request>)
    returns (outcome: ReviewOutcome, stages: seq<Stage>, requests: seq<Request>)
    ensures ReviewRun(outcome, stages, requests) == PostedAndUploaded(prMetadata, env, existing, findings, stages0, requests0)
  {
    stages := stages0;
    var posted, postRequests := PostReviewComments(prMetadata, findings, existing, env.fingerprint, env.posts);
    requests := requests0 + postRequests;
    if posted.Err? {
      return Crashed(posted.failure), stages, requests;
    }
    stages := stages + [UploadInsights(posted.value.annotations)];
    var uploaded, uploadRequests := UploadCodeInsights(prMetadata, posted.value.annotations,
                                                       env.reportCall, env.annotationsCall);
    requests := requests + uploadRequests;
    if uploaded.Err? {
      return Crashed(uploaded.failure), stages, requests;
    }
    outcome := Finished(posted.value.hasCriticalIssue);
  }

  /** `doPrReview`: the awaited calls in order, with the early return for a
      falsy diff. */
  method DoPrReview<G>(repo: string, prId: Option<int>, env: Collaborators<G>)
    returns (outcome: ReviewOutcome, stages: seq<Stage>, requests: seq<Request>)
    requires ListingEnds(env.commentPages)
    ensures ReviewRun(outcome, stages, requests) == Reviewed(repo, prId, env)
  {
    stages := [FetchPr(repo, prId)];
    var prMetadata := GetPrMetadata(env.prDetails);
    stages := stages + [FetchDiff(prMetadata.repoSrc, prMetadata.prId)];
    var diff := env.diff;
    requests := [];
    if !Truthy(diff) {
      return NoDiff, stages, requests;
    }
    assert stages == [FetchPr(repo, prId), FetchDiff(prMetadata.repoSrc, prMetadata.prId)];
    stages := stages + [ScanComments(prMetadata.repoSrc, prMetadata.prId)];
    outcome, stages, requests := ScanAndPost(prMetadata, env, stages);
  }

  method ScanAndPost<G>(prMetadata: PrMetadata, env: Collaborators<G>, stages0: seq<Stage>)
    returns (outcome: ReviewOutcome, stages: seq<Stage>, requests: seq<Request>)
    requires ListingEnds(env.commentPages)
    ensures ReviewRun(outcome, stages, requests) == ScannedAndPosted(prMetadata, env, stages0)
  {
    stages := stages0;
    var existing, scanRequests := FetchPrComments(prMetadata.repoSrc, prMetadata.prId, env.commentPages);
    requests := scanRequests;
    if existing.Err? {
      return Crashed(existing.failure), stages, requests;
    }
    outcome, stages, requests := PromptAndPost(prMetadata, env, existing.value, stages, requests);
  }

  method PromptAndPost<G>(prMetadata: PrMetadata, env: Collaborators<G>, existing: set<string>,
                          stages0: seq<Stage>, requests0: seq<Request>)
    returns (outcome: ReviewOutcome, stages: seq<Stage>, requests: seq<Request>)
    ensures ReviewRun(outcome, stages, requests) == PromptedAndPosted(prMetadata, env, existing, stages0, requests0)
  {
    requests := requests0;
    var vars := PromptVars(env.diff, Some(prMetadata.srcBranch), Some(prMetadata.dstBranch), None);
    stages := stages0 + [BuildPrompt(vars)];
    var prompt, genCfg := LoadPrompt(env.promptConfig, vars);
    stages := stages + [CallAi(prompt)];
    var aiJson := env.ai(prompt, genCfg);
    if aiJson.AiFailed? {
      return Crashed(TransportError(aiJson.message)), stages, requests;
    }
    var reviewComments := ReviewComments(aiJson);
    if reviewComments.Err? {
      return Crashed(TypeError), stages, requests;
    }
    stages := stages + [PostComments(existing)];
    if reviewComments.value.None? {
      return Crashed(TypeError), stages, requests;
    }
    outcome, stages, requests := PostAndUpload(prMetadata, env, existing, reviewComments.value.value, stages, requests);
  }

  /** A falsy diff (missing or "") ends the review after the two fetches:
      no comment scan, no prompt, no AI call, no request at all. */
  lemma NoDiffStopsEarly<G>(repo: string, prId: Option<int>, env: Collaborators<G>)
    requires ListingEnds(env.commentPages)
    ensures var run := Reviewed(repo, prId, env);
      run.outcome == NoDiff <==> !Truthy(env.diff)
    ensures var run := Reviewed(repo, prId, env);
      !Truthy(env.diff) ==> |run.stages| == 2 && run.requests == []
  {
  }

  /** Stage number k is the k-th stage of the fixed order. */
  predicate InOrder(stages: seq<Stage>) {
    forall k :: 0 <= k < |stages| ==> StageIndex(stages[k]) == k
  }

  lemma PostedStagesInOrder<G>(m: PrMetadata, env: Collaborators<G>, existing: set<string>, findings: seq<Finding>,
                               stages: seq<Stage>, requests: seq<Request>)
    requires |stages| == 6 && InOrder(stages)
    ensures var r := PostedAndUploaded(m, env, existing, findings, stages, requests);
      InOrder(r.stages) && 6 <= |r.stages| <= 7 && (r.outcome.Finished? ==> |r.stages| == 7)
  {
  }

  lemma PromptedStagesInOrder<G>(m: PrMetadata, env: Collaborators<G>, existing: set<string>,
                                 stages: seq<Stage>, requests: seq<Request>)
    requires |stages| == 3 && InOrder(stages)
    ensures var r := PromptedAndPosted(m, env, existing, stages, requests);
      InOrder(r.stages) && 5 <= |r.stages| <= 7 && (r.outcome.Finished? ==> |r.stages| == 7)
  {
    var vars := VarsFor(m, env.diff);
    var prompt := Substitute(env.promptConfig.promptTemplate, Values(vars), |Keys|);
    var reply := env.ai(prompt, env.promptConfig.generationConfig);
    var s3 := stages + [BuildPrompt(vars), CallAi(prompt), PostComments(existing)];
    assert InOrder(stages + [BuildPrompt(vars), CallAi(prompt)]);
    assert InOrder(s3);
    if !reply.AiFailed? && ReviewComments(reply).Ok? && ReviewComments(reply).value.Some? {
      assert stages + [BuildPrompt(vars), CallAi(prompt)] + [PostComments(existing)] == s3;
      PostedStagesInOrder(m, env, existing, ReviewComments(reply).value.value, s3, requests);
    }
  }

  /** The stages that run are always a prefix of the fixed order fetchPR,
      diff, comment scan, prompt, AI call, post, upload; a finished review
      ran all seven. */
  lemma StagesRunInOrder<G>(repo: string, prId: Option<int>, env: Collaborators<G>)
    requires ListingEnds(env.commentPages)
    ensures var run := Reviewed(repo, prId, env);
      && 2 <= |run.stages| <= 7
      && (forall k :: 0 <= k < |run.stages| ==> StageIndex(run.stages[k]) == k)
      && (run.outcome.Finished? ==> |run.stages| == 7)
  {
    var m := GetPrMetadata(env.prDetails);
    var scan := ScanPages(m.repoSrc, m.prId, env.commentPages);
    var s1 := [FetchPr(repo, prId), FetchDiff(m.repoSrc, m.prId), ScanComments(m.repoSrc, m.prId)];
    assert [FetchPr(repo, prId), FetchDiff(m.repoSrc, m.prId)] + [ScanComments(m.repoSrc, m.prId)] == s1;
    if Truthy(env.diff) && scan.result.Ok? {
      PromptedStagesInOrder(m, env, scan.result.value, s1, scan.requests);
    }
  }

  lemma PostedFlow<G>(m: PrMetadata, env: Collaborators<G>, existing: set<string>, findings: seq<Finding>,
                      stages: seq<Stage>, requests: seq<Request>)
    requires PostedAndUploaded(m, env, existing, findings, stages, requests).outcome.Finished?
    ensures var st := Run(PosterFor(m, existing, env.fingerprint, env.posts), findings, |findings|);
      var r := PostedAndUploaded(m, env, existing, findings, stages, requests);
      && st.failure.None?
      && r.stages == stages + [UploadInsights(st.annotations)]
      && r.outcome.critical == st.critical
      && r.requests == requests + st.requests + Uploaded(m, st.annotations, env.reportCall, env.annotationsCall).requests
  {
    var st := Run(PosterFor(m, existing, env.fingerprint, env.posts), findings, |findings|);
    var up := Uploaded(m, st.annotations, env.reportCall, env.annotationsCall);
    assert st.failure.None? && up.result.Ok?;
    assert PostedAndUploaded(m, env, existing, findings, stages, requests)
        == ReviewRun(Finished(st.critical), stages + [UploadInsights(st.annotations)], requests + st.requests + up.requests);
  }

  lemma PromptedFlow<G>(m: PrMetadata, env: Collaborators<G>, existing: set<string>,
                        stages: seq<Stage>, requests: seq<Request>)
    returns (findings: seq<Finding>)
    requires PromptedAndPosted(m, env, existing, stages, requests).outcome.Finished?
    ensures var reply := env.ai(Substitute(env.promptConfig.promptTemplate, Values(VarsFor(m, env.diff)), |Keys|),
                                env.promptConfig.generationConfig);
      && !reply.AiFailed? && ReviewComments(reply).Ok? && ReviewComments(reply).value.Some?
      && findings == ReviewComments(reply).value.value
    ensures var vars := VarsFor(m, env.diff);
      var prompt := Substitute(env.promptConfig.promptTemplate, Values(vars), |Keys|);
      PromptedAndPosted(m, env, existing, stages, requests)
        == PostedAndUploaded(m, env, existing, findings, stages + [BuildPrompt(vars), CallAi(prompt)] + [PostComments(existing)], requests)
  {
    var vars := VarsFor(m, env.diff);
    var prompt := Substitute(env.promptConfig.promptTemplate, Values(vars), |Keys|);
    var reply := env.ai(prompt, env.promptConfig.generationConfig);
    findings := ReviewComments(reply).value.value;
  }

  /** What flows between the stages of a review that ran to the end: the
      scan of the source repository's pull request feeds the poster, the
      poster's annotations feed the upload, its flag decides the critical
      branch, and the requests are the scan's, the poster's and the
      upload's, in that order. */
  lemma FinishedReviewDataFlow<G>(repo: string, prId: Option<int>, env: Collaborators<G>)
    requires ListingEnds(env.commentPages)
    requires Reviewed(repo, prId, env).outcome.Finished?
    ensures var run := Reviewed(repo, prId, env);
      var m := GetPrMetadata(env.prDetails);
      var scan := ScanPages(m.repoSrc, m.prId, env.commentPages);
      && |run.stages| == 7
      && scan.result.Ok?
      && run.stages[2] == ScanComments(m.repoSrc, m.prId)
      && run.stages[3] == BuildPrompt(PromptVars(env.diff, Some(m.srcBranch), Some(m.dstBranch), None))
      && run.stages[5] == PostComments(scan.result.value)
      && var reply := env.ai(Substitute(env.promptConfig.promptTemplate, Values(VarsFor(m, env.diff)), |Keys|),
                             env.promptConfig.generationConfig);
         && !reply.AiFailed? && ReviewComments(reply).Ok? && ReviewComments(reply).value.Some?
         && var findings := ReviewComments(reply).value.value;
           var st := Run(PosterFor(m, scan.result.value, env.fingerprint, env.posts), findings, |findings|);
           && st.failure.None?
           && run.stages[6] == UploadInsights(st.annotations)
           && run.outcome.critical == st.critical
           && run.requests == scan.requests + st.requests
                              + Uploaded(m, st.annotations, env.reportCall, env.annotationsCall).requests
  {
    var run := Reviewed(repo, prId, env);
    var m := GetPrMetadata(env.prDetails);
    var scan := ScanPages(m.repoSrc, m.prId, env.commentPages);
    var s1 := [FetchPr(repo, prId), FetchDiff(m.repoSrc, m.prId)] + [ScanComments(m.repoSrc, m.prId)];
    assert run == PromptedAndPosted(m, env, scan.result.value, s1, scan.requests);
    var findings := PromptedFlow(m, env, scan.result.value, s1, scan.requests);
    var vars := VarsFor(m, env.diff);
    var prompt := Substitute(env.promptConfig.promptTemplate, Values(vars), |Keys|);
    var s3 := s1 + [BuildPrompt(vars), CallAi(prompt)] + [PostComments(scan.result.value)];
    PostedFlow(m, env, scan.result.value, findings, s3, scan.requests);
    var st := Run(PosterFor(m, scan.result.value, env.fingerprint, env.posts), findings, |findings|);
    assert run.stages == s3 + [UploadInsights(st.annotations)];
  }

  /** As written, a finished review never takes the critical branch: the
      poster's flag is never set. */
  lemma CriticalBranchNeverTakenAsWritten<G>(repo: string, prId: Option<int>, env: Collaborators<G>)
    requires ListingEnds(env.commentPages)
    requires Reviewed(repo, prId, env).outcome.Finished?
    ensures !Reviewed(repo, prId, env).outcome.critical
  {
    FinishedReviewDataFlow(repo, prId, env);
    var m := GetPrMetadata(env.prDetails);
    var scan := ScanPages(m.repoSrc, m.prId, env.commentPages);
    var reply := env.ai(Substitute(env.promptConfig.promptTemplate, Values(VarsFor(m, env.diff)), |Keys|),
                        env.promptConfig.generationConfig);
    var findings := ReviewComments(reply).value.value;
    CriticalNeverSetAsWritten(PosterFor(m, scan.result.value, env.fingerprint, env.posts), findings, |findings|);
  }

  /** With the intended test, the branch would be taken exactly when some
      uploaded annotation is HIGH. */
  lemma IntendedCriticalBranchIffHighAnnotation<G>(repo: string, prId: Option<int>, env: Collaborators<G>)
    requires ListingEnds(env.commentPages)
    requires Reviewed(repo, prId, env).outcome.Finished?
    ensures var run := Reviewed(repo, prId, env);
      |run.stages| == 7 && run.stages[6].UploadInsights?
      && (AnyHigh(run.stages[6].annotations) <==>
            exists k :: 0 <= k < |run.stages[6].annotations| && run.stages[6].annotations[k].severity == HIGH)
  {
    FinishedReviewDataFlow(repo, prId, env);
    var m := GetPrMetadata(env.prDetails);
    var scan := ScanPages(m.repoSrc, m.prId, env.commentPages);
    var reply := env.ai(Substitute(env.promptConfig.promptTemplate, Values(VarsFor(m, env.diff)), |Keys|),
                        env.promptConfig.generationConfig);
    var findings := ReviewComments(reply).value.value;
    CriticalIffSomeHigh(PosterFor(m, scan.result.value, env.fingerprint, env.posts), findings);
  }

  const CreatedEvent: string := "pullrequest:created"

  /** The parts of the webhook body the handler passes on:
      `repository.full_name` and `pullrequest.id`. */
  datatype WebhookBody = WebhookBody(repoFullName: string, prId: Option<int>)

  /** The `/api/webhook/pr` handler: a review only for the created event;
      the acknowledgement is sent after it, so a review that rejects leaves
      the request without one. */
  method HandleWebhook<G>(event: Option<string>, body: WebhookBody, env: Collaborators<G>)
    returns (review: Option<ReviewRun>, ack: Option<string>)
    requires ListingEnds(env.commentPages)
    ensures review.Some? <==> event == Some(CreatedEvent)
    ensures review.Some? ==> review.value == Reviewed(body.repoFullName, body.prId, env)
    ensures ack.Some? <==> review.None? || !review.value.outcome.Crashed?
    ensures ack.Some? ==> ack.value == ShowOption(event) + " webhook received."
  {
    review := None;
    if event == Some(CreatedEvent) {
      var outcome, stages, requests := DoPrReview(body.repoFullName, body.prId, env);
      review := Some(ReviewRun(outcome, stages, requests));
      if outcome.Crashed? {
        return review, None;
      }
    }
    ack := Some(ShowOption(event) + " webhook received.");
  }

  /** The `/api/review/pr` handler: a review for the given repository and
      pull request, then the fixed acknowledgement unless it rejected. */
  method HandleDirectReview<G>(repo: string, prId: Option<int>, env: Collaborators<G>)
    returns (review: ReviewRun, ack: Option<string>)
    requires ListingEnds(env.commentPages)
    ensures review == Reviewed(repo, prId, env)
    ensures ack.Some? <==> !review.outcome.Crashed?
    ensures ack.Some? ==> ack.value == "PR review completed successfully."
  {
    var outcome, stages, requests := DoPrReview(repo, prId, env);
    review := ReviewRun(outcome, stages, requests);
    if outcome.Crashed? {
      return review, None;
    }
    ack := Some("PR review completed successfully.");
  }
}

# ai-pr-reviewer in Dafny

This is a model of the review pipeline of ai-pr-reviewer, a small Node.js service that reviews Bitbucket pull requests with a generative-AI model. It covers the following parts:

- **The webhook dispatch and `doPrReview`** (`main.js`). A `pullrequest:created` event starts a review. The review fetches the pull request and its diff, and stops early when the diff is falsy. It then scans the existing comments, fills the prompt and calls the AI. Next it posts the new findings as inline comments, uploads a Code Insights report of annotations, and logs whether a critical issue was found.
- **`makeBitBucketRequest`** (`services/bitbucket.js`): at most five attempts with a backoff that starts at 2000 ms and doubles. 2xx and terminal statuses are returned; 429 and 5xx are retried. A thrown error is re-raised on attempt five only. After five retryable statuses the loop falls out and yields `undefined`.
- **`fetchPrComments`**: follows the `next` links of the comment listing and collects the 12-hex-digit fingerprints hidden in earlier comments as `<!-- gemini:… -->` markers (the first match of the marker regex).
- **`postReviewComments` with `formatComment`, `buildAnnotation` and `truncateWithEllipsis`**. It skips findings without an integer line and those whose fingerprint is already on the pull request or already posted in this run. For each remaining finding it posts the marked comment and builds an annotation (severity mapped to HIGH/MEDIUM/LOW, summary truncated to 400 characters). It also keeps a critical flag.
- **`uploadCodeInsights`**: nothing for no annotations; otherwise a PUT of the report and a POST of the annotations.
- **`loadPrompt`**: four sequential `replaceAll` passes for `{{DIFF}}`, `{{SRC_BRANCH}}`, `{{DST_BRANCH}}` and `{{JIRA_KEY}}`.
- **`getPrMetadata`**: optional chaining with `""` defaults.

The network is an input. Each request is given as the five outcomes its attempts would see (`HttpClient.Transport`). The poster's POSTs are indexed by their ordinal. The AI call and the fingerprint function are function-valued inputs: the fingerprint is opaque, and only "12 lowercase hex digits" is assumed where a property needs it. Every imperative loop of the source is a Dafny method. Each method is proved equal to a specification function (`Call`, `ScanPages`, `Run`, `Uploaded`, `Substitute`, `Reviewed`), and the properties are lemmas about those functions.

Modules, one per file: `JsValues` (JavaScript values: `undefined`/`null`/string, truthiness, template-literal rendering, lower-casing, decimal rendering), `Hash`, `BitbucketApi` (requests, responses, annotations), `HttpClient`, `CommentScanner`, `PrMetadata`, `ReviewPoster`, `Insights`, `Prompt`, `Review`.

The model follows the code where it differs from what a reader of the service's purpose would expect:

- Five retryable statuses in a row do not surface an error. The call yields `undefined` after five sleeps (`HttpClient.FiveRetryableStatusesGiveNoResponse`). The comment scan then fails with a TypeError, while the poster and the upload carry on.
- A terminal status (a 4xx other than 429) while posting does not stop the run. Only a re-raised transport error or a TypeError does (`ReviewPoster.AnsweredPostsContinue`, `ReviewPoster.RunStopsAtFirstFailure`). The POSTs made before the stop are still made, and they are the same new findings in the same order as in a run without errors (`ReviewPoster.PostsExactlyTheNewFindings`).
- A `null` or `undefined` item in the findings list makes the destructuring throw a TypeError, which stops the run with no POST for that item (`services/bitbucket.js:114-119`). A string or number item reads every property as undefined, so its line is not an integer and it is skipped.
- `doPrReview` can reject. The webhook handler then never sends its acknowledgement (`Review.HandleWebhook`).
- The critical flag is never set as written (see Findings), and the model computes it as written: `ReviewPoster.Run`, `ReviewPoster.PostReviewComments`, `Review.PostAndUpload` and `Review.DoPrReview` carry a flag that is always false. The intended flag is `ReviewPoster.AnyHigh` of the posted annotations, the same fold with the annotation's `severity` tested in place of `bbSev`; the lemmas marked "intended" are about it. Even when set, the flag only chooses a log line.
- `fetchPrComments` names its parameter `repoDst`, but it is called with the source repository (`main.js:72-75`). The model scans the source repository's pull request.
- Because replaced text is not scanned again, a placeholder can survive the substitution even when no value contains one. `Prompt.PlaceholderCanSurvive` shows this on the template `{{{{DIFF}}DIFF}}`. `Prompt.WellFormedTemplateIsFilled` states when none survives: the template is made of text without braces and placeholders, and the values contain no braces.
- A `null` severity is rendered as "null" in the posted comment. The run then fails with a TypeError when the annotation is built, after the POST was made (`ReviewPoster.SeverityDefaults`).

## Model

| member | source | states |
|---|---|---|
| HttpClient.MakeBitbucketRequest | services/bitbucket.js:4-35 | The retry loop returns exactly the reply, sleep schedule and attempt count of `Call`: the first non-retryable response, the error of attempt five, or `undefined` after five retryable outcomes |
| HttpClient.Call | services/bitbucket.js:7-34 | A call makes between one and five attempts; it slept once per attempt when no response came back, and once less otherwise |
| HttpClient.FirstFinalContinues | services/bitbucket.js:18-27 | Every attempt before the one the loop stops at got a retryable status or threw |
| HttpClient.StopsAtFinalStatus | services/bitbucket.js:18-27 | The call stops at attempt k+1 with that response exactly when every earlier attempt was retryable or threw and attempt k+1 got a 2xx or terminal status; it then slept the first k backoffs |
| HttpClient.RetryableLeadsToAnotherAttempt | services/bitbucket.js:20-25 | A 429/5xx before the last attempt always leads to another attempt, after sleeping 2000·2^k ms |
| HttpClient.ThrowEscapesOnlyOnLastAttempt | services/bitbucket.js:28-33 | An error escapes the call iff attempts one to four continued and attempt five threw; it is attempt five's error, after four sleeps |
| HttpClient.FiveRetryableStatusesGiveNoResponse | services/bitbucket.js:7-35 | Five retryable statuses give `undefined` (not an error) after sleeps of 2, 4, 8, 16 and 32 seconds |
| HttpClient.RecoversOnFifthAttempt | services/bitbucket.js:18-25 | Four 503s and then a 200 give the 200 after sleeps of 2, 4, 8 and 16 seconds |
| HttpClient.SleepSchedule | services/bitbucket.js:5-32 | The k-th sleep of any call, counting from 0, lasts 2000·2^k ms, whether it follows a retryable status or a thrown error |
| HttpClient.TotalSleep | services/bitbucket.js:5-32 | n backoff sleeps add up to 2000·(2^n − 1) ms |
| HttpClient.WorstCaseSleep | services/bitbucket.js:5-34 | One call sleeps at most 62 seconds, and exactly 62 seconds iff it ends without a response |
| CommentScanner.SkipWhitespace | services/bitbucket.js:60 | The greedy `\s*` run ends at the first non-whitespace character |
| CommentScanner.FirstMarkerFrom | services/bitbucket.js:60 | Every captured marker is 12 lowercase hex digits |
| CommentScanner.FirstMarkerIsLeftmostMatch | services/bitbucket.js:60 | The marker read from a body is the capture of the leftmost match of the marker pattern |
| CommentScanner.NoMatchNoMarker | services/bitbucket.js:60-63 | A body where the pattern matches nowhere contributes no fingerprint |
| CommentScanner.AddMarkers | services/bitbucket.js:59-64 | The inner loop adds exactly the markers of the page's comments to the set |
| CommentScanner.FetchPrComments | services/bitbucket.js:48-72 | The paging loop makes exactly the requests and gives exactly the result of `ScanPages` |
| CommentScanner.CommentMarkersMembers | services/bitbucket.js:59-64 | A string is collected from a page's comments iff it is the first marker of one of them |
| CommentScanner.MarkersUpToMembers | services/bitbucket.js:56-67 | A string is collected from the first n pages iff it is the first marker of some comment on one of them |
| CommentScanner.ScanResultMembers | services/bitbucket.js:56-71 | The returned set holds exactly the first markers of the comments on the pages read, and each is a fingerprint |
| CommentScanner.PagingFollowsNext | services/bitbucket.js:50-66 | The first GET goes to the comment list with page length 100, and each later GET to the truthy `next` of the page before; the last page read is the first whose `next` is falsy or whose call failed |
| CommentScanner.FailedPageFailsScan | services/bitbucket.js:57-59 | The scan fails iff the last page's call gave no response or threw; `undefined` fails it with a TypeError |
| PrMetadata.GetPrMetadata | utils/prMetadata.js:1-12 | A null pull request gives no id and five empty strings |
| PrMetadata.PresentPathsAreCopied | utils/prMetadata.js:5-10 | When every path is present, the id, repositories, branches and source commit are copied |
| PrMetadata.PresentPathIsCopied | utils/prMetadata.js:5-10 | Each of the five fields is the nested value whenever its own path is present and non-null, whatever the other paths hold; the id is `details.id`, absent for a null document |
| PrMetadata.BrokenPathsGiveEmpty | utils/prMetadata.js:5-10 | Each of the five fields is "" when any level of its own path (document, side, repository/branch/commit, leaf) is missing or null, whatever the other paths hold |
| ReviewPoster.EffectiveSeverity | services/bitbucket.js:118 | The destructuring default replaces only an undefined severity, so the result is never undefined |
| ReviewPoster.SliceEnd | services/bitbucket.js:181 | The end index of `slice`, negative ends included, stays within the string |
| ReviewPoster.TruncationBounds | services/bitbucket.js:177-184 | A string within the limit is kept; a longer one becomes its first limit−3 characters plus "...", exactly the limit long |
| ReviewPoster.LongCommentSummary | services/bitbucket.js:172 | A 500-character comment gives a 400-character summary: its first 397 characters, then "..." |
| ReviewPoster.SeverityMapping | services/bitbucket.js:164-165 | HIGH iff the severity is "error" in any case, MEDIUM iff "warning" in any case, LOW otherwise; the default "info" gives LOW |
| ReviewPoster.BuildAnnotation | services/bitbucket.js:163-175 | Building succeeds iff severity and comment are strings, and otherwise fails with exactly a TypeError; the annotation carries the fingerprint, path and line, with a summary of at most 400 characters |
| ReviewPoster.IsCriticalMeansHigh | services/bitbucket.js:149-174 | Testing the annotation's severity field for "HIGH" means severity HIGH; testing `bbSev` is always false |
| ReviewPoster.CriticalNeverSetAsWritten | services/bitbucket.js:148-151 | As written, the poster's flag is false after any number of findings, whatever they are |
| ReviewPoster.ErrorFindingMissedAsWritten | services/bitbucket.js:145-151 | One new finding with severity "error" whose POST is answered yields one HIGH annotation, so the intended flag holds, yet the returned `hasCriticalIssue` is false |
| ReviewPoster.FormatCommentRoundTrip | services/bitbucket.js:159-161 | The marker scan of a formatted body gives back exactly the fingerprint it was formatted with |
| ReviewPoster.PostReviewComments | services/bitbucket.js:106-157 | The loop makes exactly the POSTs and gives exactly the result of `Run` over all findings, its flag tested on `bbSev` as written |
| ReviewPoster.PostsExactlyTheNewFindings | services/bitbucket.js:113-146 | In every run, one stopped by an error included: a finding is posted iff the run had not stopped before it and it has an integer line, a fingerprint not on the pull request and none shared with an earlier integer-line finding. Posts follow the findings' order; the k-th POST belongs to the k-th posted finding, and so does the k-th annotation (its fingerprint, file and line). Only a stopped run can lack the annotation of its last POST |
| ReviewPoster.PostedFingerprintsAreNewAndDistinct | services/bitbucket.js:128-133 | In every run, one stopped by an error included, no POST is for a fingerprint that was on the pull request, and no two POSTs share one; the same holds for the annotations' ids |
| ReviewPoster.CriticalIffSomeHigh | services/bitbucket.js:148-151 | The intended flag (`AnyHigh`) holds iff some annotation is HIGH, and the k-th annotation is HIGH iff the k-th posted finding's severity reads "error" in any case |
| ReviewPoster.AllKnownPostsNothing | services/bitbucket.js:114-133 | When every integer-line fingerprint is already known, nothing is posted or collected; the run stops, with a TypeError, iff it meets a null or undefined item |
| ReviewPoster.RunSeen | services/bitbucket.js:113-146 | After a run without errors, every kept index is an earlier integer-line finding, and every seen fingerprint is that of a kept finding |
| ReviewPoster.KnownAfterRun | services/bitbucket.js:125-153 | After a run without errors, every integer-line finding's fingerprint is on the pull request or among the posted ones |
| ReviewPoster.RerunPostsNothing | services/bitbucket.js:113-154 | Idempotence: a second run over the same findings, with the posted fingerprints on the pull request, posts nothing |
| ReviewPoster.PostedBodiesScanBack | services/bitbucket.js:136-142 | With hex fingerprints, every POST of any run, a stopped one included, goes to the pull request's comment URL as an inline comment, and the comment scan reads back from its body the fingerprint of the finding it was posted for, which is its annotation's id |
| ReviewPoster.RunStopsAtFirstFailure | services/bitbucket.js:113-146 | A stopped run stopped at one finding and kept that state to the end. A null item stops it with a TypeError and no POST; any other finding it stops at is new and was POSTed last, and the run stopped with that call's re-raised error, or otherwise with the TypeError of building its annotation |
| ReviewPoster.FailureFreeRunHasObjects | services/bitbucket.js:113-119 | A run that did not stop met no null or undefined item |
| ReviewPoster.AnsweredPostsContinue | services/bitbucket.js:139-153 | A POST answered with `undefined` or any status, a 4xx included, does not stop the run; the finding is kept and marked seen |
| ReviewPoster.SeverityDefaults | services/bitbucket.js:118-164 | A missing severity is shown as "info" and annotated LOW; a null one is posted as "null" and then fails the run with a TypeError |
| Insights.UploadCodeInsights | services/bitbucket.js:85-104 | The method makes exactly the requests and gives exactly the result of `Uploaded` |
| Insights.EmptyUploadsNothing | services/bitbucket.js:86 | No annotations: no request, and success |
| Insights.UploadOrder | services/bitbucket.js:88-103 | First a PUT of a PASSED report to the commit's report URL, counting the annotations in its data and its details text. Then, unless that call threw, a POST of exactly these annotations to the `/annotations` URL. The upload fails iff a call it made threw |
| JsValues.DecimalRoundTrip | services/bitbucket.js:93 | The count rendered in the report details reads back as the same number |
| Prompt.LoadPrompt | services/prompt.js:3-18 | The loop's prompt is the four sequential passes of `Substitute`; the generation config is passed through |
| Prompt.ReplaceAllAbsent | services/prompt.js:14 | A replaceAll whose pattern does not occur leaves the text unchanged |
| Prompt.ReplaceAllSkip | services/prompt.js:14 | A prefix with no match starting inside it is kept, and the replacement continues on the rest |
| Prompt.ReplaceAllHit | services/prompt.js:14 | An occurrence at the front is replaced, and scanning resumes after it |
| Prompt.NoPlaceholderUnchanged | services/prompt.js:13-15 | A template without any of the four placeholders is returned unchanged |
| Prompt.MissingValueIsEmpty | services/prompt.js:14 | A null or undefined value is substituted as "" (the unset `jiraKey` included) |
| Prompt.SubstituteAgrees | services/prompt.js:14 | Only the text after `?? ""` matters: values that give the same text give the same prompt |
| Prompt.KeysAreDistinctAndBraceFree | services/prompt.js:6-11 | The four keys are distinct, non-empty and contain no brace |
| Prompt.WellFormedTemplateIsFilled | services/prompt.js:13-15 | For a template of text and placeholders with brace-free values, the sequential passes equal filling every slot at once, and no placeholder is left |
| Prompt.DiffPlaceholdersCascade | services/prompt.js:13-15 | Text inserted by an earlier pass is scanned by later ones: a diff holding `{{SRC_BRANCH}}` ends up as the source branch |
| Prompt.PlaceholderCanSurvive | services/prompt.js:13-15 | With an empty or missing diff and brace-free other values, so that no value holds its own placeholder, the template `{{{{DIFF}}DIFF}}` becomes exactly `{{DIFF}}`, which is left in the prompt |
| Prompt.SurvivingFirstPass | services/prompt.js:14 | For any non-empty brace-free key, replacing its placeholder in `{{{{key}}key}}` by "" leaves exactly the placeholder |
| Prompt.LaterPassesKeepDiffPlaceholder | services/prompt.js:13-15 | Once the first pass leaves `{{DIFF}}`, the passes for the other three keys keep it unchanged |
| Review.ReviewComments | main.js:82 | `reviewComments ?? aiJson` fails with a TypeError iff the AI output is null, and gives a non-iterable value iff it is an object without usable `reviewComments` |
| Review.FindingsPreferReviewComments | main.js:82 | A present `reviewComments` list is used even when it is empty; a bare array is used as it is |
| Review.DoPrReview | main.js:53-100 | The pipeline's outcome, stages and requests are exactly those of `Reviewed`, whose critical flag is the poster's as-written one |
| Review.ScanAndPost | main.js:71-89 | The scan-to-poster stages are exactly those of `ScannedAndPosted`: a failed scan crashes the review with the scan's error and its requests |
| Review.PromptAndPost | main.js:77-89 | The prompt-to-poster stages are exactly those of `PromptedAndPosted` |
| Review.PostAndUpload | main.js:84-92 | The poster and upload stages are exactly those of `PostedAndUploaded`; the outcome carries the poster's as-written flag |
| Review.NoDiffStopsEarly | main.js:60-65 | The review ends early iff the diff is falsy, and then after the two fetches, with no request of its own |
| Review.StagesRunInOrder | main.js:53-100 | The stages that run are a prefix, at least two long, of the fixed order fetch PR, diff, scan, prompt, AI, post, upload; a finished review ran all seven |
| Review.PostedFlow | main.js:84-92 | A finished poster stage had no error; the upload receives its annotations, the outcome carries its flag, and the requests are the poster's followed by the upload's |
| Review.PromptedFlow | main.js:77-89 | In a finished review the AI call did not fail, its reply was not null and `reviewComments ?? aiJson` was a list; the poster gets exactly that list, for the prompt filled from the metadata and the diff |
| Review.FinishedReviewDataFlow | main.js:71-92 | In a finished review, the poster runs over the AI reply's `reviewComments ?? aiJson` against the scan of the source repository's pull request, and the poster's annotations feed the upload. The requests are the scan's, then the poster's, then the upload's |
| Review.CriticalBranchNeverTakenAsWritten | main.js:94-99 | As written, a finished review never takes the critical branch |
| Review.IntendedCriticalBranchIffHighAnnotation | main.js:94-99 | With the intended flag, the branch would be taken iff some uploaded annotation is HIGH |
| Review.HandleWebhook | main.js:23-42 | A review runs iff the event key is `pullrequest:created`; the acknowledgement `<event> webhook received.` is sent iff the review, if any, did not reject |
| Review.HandleDirectReview | main.js:44-47 | A review of the given repository and pull request runs, and the fixed acknowledgement is sent iff it did not reject |

## Left out

- HTTP transport: axios, the headers, the access-token lookup and `extractRepoName` (`services/bitbucket.js:186-202`). Each request's outcomes are an input, and a request is a verb, an endpoint and a payload rather than a URL string.
- `fetchPR` and `fetchPrDiff` are not modelled as requests. Their results are inputs of the review, and they make no request in the request list. They give null only when the call threw or gave no response; for any status, a 404 included, they give the response body.
- Review.DoPrReview: the diff input is a string or null, so a response body that is a JSON object (the error document of a 404, say) is not modelled. Such a body is truthy, so the review goes on and `{{DIFF}}` becomes "[object Object]".
- ReviewPoster.PostReviewComments: treats `seen` as a set. The source uses a plain object, whose lookup is also truthy for names inherited from `Object.prototype` such as "constructor". The two agree because fingerprints are hex digits, but the dedupe lemmas do not take that assumption.
- The AI call (`services/vertex.js` is not part of this model) is an input function. Its parsed JSON is reduced to null, an array of findings, an object with or without `reviewComments`, or an error. Other JSON values (numbers, strings, booleans) are not modelled.
- SHA-1 (`utils/hash.js`): the fingerprint is an input function. `ReviewPoster.PostedBodiesScanBack` assumes that it yields 12 lowercase hex digits.
- Reading and `JSON.parse` of the configuration file (`services/prompt.js:4`): the parsed template is an input and is assumed to be a string.
- Prompt.ReplaceAll: does not model the `$&`, `$1` and `$$` patterns of `replaceAll` replacement strings; a value is inserted literally.
- Express setup, the health-check route, `listen`, all logging, `async`/`await` scheduling and the real sleeps. Sleeps appear only as the delay list.
- The logging lines of the webhook handler (`main.js:33-36`): a body without `pullrequest`, `repository`, `author` or `links` makes them throw. The model takes only the repository name and the pull-request id from the body.
- Strings are sequences of Unicode characters. JavaScript's `length` and `slice` count UTF-16 code units, so for text outside the Basic Multilingual Plane the 400-character limit is counted differently.
- Lower-casing covers ASCII letters only. No other character lower-cases to a letter of "error" or "warning", so the severity mapping agrees with JavaScript's.
- An item of the findings list is an object, `null`/`undefined`, or a string or number (which has no integer `line`). Objects whose `file` is missing, or whose severity or comment is a number or another non-string value, are not modelled: `file` is a string, and severity and comment are undefined, null or a string.
- A comment whose `content.raw` is not a string (where `match` would throw) is not modelled.
- CommentScanner.FetchPrComments: requires that one of the given pages ends the listing, because a listing whose `next` links never end loops forever in the source and cannot be given as a finite input. Review.DoPrReview, Review.HandleWebhook and Review.HandleDirectReview inherit this precondition.
- An object-valued `reviewComments` or AI output that is not iterable is modelled as a TypeError raised where the poster starts its loop. The model records that stage as started, though nothing in it ran.

## Findings

| source | as written | input that shows it | evidently intended | confidence | as-written member | corrected member |
|---|---|---|---|---|---|---|
| services/bitbucket.js:149 | The critical test reads a `bbSev` property of the annotation object, which has only `external_id`, `annotation_type`, `path`, `line`, `summary` and `severity` (lines 167-174), so `hasCriticalIssue` is never set | One new finding with an integer line, severity "error" and comment "x": its annotation's severity is HIGH, yet the flag stays false and `doPrReview` takes the no-critical branch | Test the annotation's `severity` field, which holds the mapped level, for "HIGH" | high; not executed | ReviewPoster.ErrorFindingMissedAsWritten | ReviewPoster.CriticalIffSomeHigh |

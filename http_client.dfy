/** `makeBitBucketRequest`: the retrying request loop. The network is an
    input: the outcome each of the (at most five) attempts would see. */
module HttpClient {
  import opened BitbucketApi

  const MaxAttempts: nat := 5
  const InitialBackoff: nat := 2000

  /** What one attempt gets back from the transport: a response with a
      status, or a thrown error (network failure, no response at all). */
  datatype Outcome = Status(response: Response) | Throw(message: string)

  /** The outcome attempt k + 1 would see, for k < MaxAttempts; outcomes
      after the attempt the loop stops at are never consumed. */
  type Transport = s: seq<Outcome> | |s| == MaxAttempts
    witness [Throw(""), Throw(""), Throw(""), Throw(""), Throw("")]

  /** What the call produced: the response it stopped at, `undefined`
      (every attempt was retryable), or the re-raised error. */
  datatype Reply = Responded(response: Response) | NoResponse | Threw(message: string)

  /** The reply, the delays slept between attempts, and the number of attempts. */
  datatype Exchange = Exchange(reply: Reply, delays: seq<nat>, attempts: nat)

  predicate IsSuccess(status: int) {
    200 <= status < 300
  }

  predicate IsRetryable(status: int) {
    status == 429 || status >= 500
  }

  /** An outcome after which the loop goes on to another attempt (if any is left). */
  predicate Continues(o: Outcome) {
    o.Throw? || IsRetryable(o.response.status)
  }

  function Pow2(n: nat): (r: nat)
    ensures r >= 1
  {
    if n == 0 then 1 else 2 * Pow2(n - 1)
  }

  /** The first `n` delays of the doubling schedule. */
  function Delays(n: nat): (r: seq<nat>)
    ensures |r| == n
  {
    seq(n, k requires 0 <= k < n => InitialBackoff * Pow2(k))
  }

  /** The first attempt index at or after `k` whose outcome ends the loop,
      or MaxAttempts when every remaining outcome continues it. */
  function FirstFinal(os: Transport, k: nat): (r: nat)
    requires k <= MaxAttempts
    ensures k <= r <= MaxAttempts
    ensures r < MaxAttempts ==> !Continues(os[r])
    decreases MaxAttempts - k
  {
    if k == MaxAttempts then MaxAttempts
    else if !Continues(os[k]) then k
    else FirstFinal(os, k + 1)
  }

  /** Every attempt before the one the loop stops at continues it. */
  lemma {:induction false} FirstFinalContinues(os: Transport, k: nat)
    requires k <= MaxAttempts
    ensures forall j :: k <= j < FirstFinal(os, k) ==> Continues(os[j])
    decreases MaxAttempts - k
  {
    if k < MaxAttempts && Continues(os[k]) {
      FirstFinalContinues(os, k + 1);
    }
  }

  /** The behaviour of the loop, stated by where it stops: at the first
      non-retryable response; or, when all five attempts continue, with the
      error of attempt five re-raised (after four sleeps) if that attempt
      threw, and with no response after five sleeps otherwise. */
  function Call(os: Transport): (r: Exchange)
    ensures 1 <= r.attempts <= MaxAttempts
    ensures r.reply == ReplyOf(os)
    ensures |r.delays| == if r.reply.NoResponse? then r.attempts else r.attempts - 1
  {
    var k := FirstFinal(os, 0);
    var attempts := if k < MaxAttempts then k + 1 else MaxAttempts;
    var reply := ReplyOf(os);
    Exchange(reply, Delays(if reply.NoResponse? then attempts else attempts - 1), attempts)
  }

  /** The reply alone, without the schedule of sleeps: what a caller of
      the request sees, and the reply `Call` reports. */
  function ReplyOf(os: Transport): Reply {
    var k := FirstFinal(os, 0);
    if k < MaxAttempts then Responded(os[k].response)
    else if os[MaxAttempts - 1].Throw? then Threw(os[MaxAttempts - 1].message)
    else NoResponse
  }

  /** The loop itself: attempt, classify, sleep `backoff` and double it. */
  method MakeBitbucketRequest(os: Transport) returns (reply: Reply, delays: seq<nat>, attempts: nat)
    ensures Exchange(reply, delays, attempts) == Call(os)
  {
    var backoff := InitialBackoff;
    delays := [];
    for attempt := 1 to MaxAttempts + 1
      invariant forall j :: 0 <= j < attempt - 1 ==> Continues(os[j])
      invariant forall j :: 0 <= j < attempt - 1 && j == MaxAttempts - 1 ==> os[j].Status?
      invariant delays == Delays(attempt - 1)
      invariant backoff == InitialBackoff * Pow2(attempt - 1)
    {
      match os[attempt - 1]
      case Status(resp) =>
        if IsSuccess(resp.status) {
          return Responded(resp), delays, attempt;
        }
        if IsRetryable(resp.status) {
          delays := delays + [backoff];
          backoff := backoff * 2;
          continue;
        }
        return Responded(resp), delays, attempt;
      case Throw(message) =>
        if attempt == MaxAttempts {
          return Threw(message), delays, attempt;
        }
        delays := delays + [backoff];
        backoff := backoff * 2;
    }
    return NoResponse, delays, MaxAttempts;
  }

  /** Classification: the call stops at attempt k + 1 with that response
      exactly when attempt k + 1 got a non-retryable status (2xx or a
      terminal status) and every earlier attempt continued. */
  lemma StopsAtFinalStatus(os: Transport, k: nat)
    requires k < MaxAttempts
    ensures Call(os).reply.Responded? && Call(os).attempts == k + 1
        <==> (forall j :: 0 <= j < k ==> Continues(os[j])) && os[k].Status? && !IsRetryable(os[k].response.status)
    ensures Call(os).reply.Responded? && Call(os).attempts == k + 1 ==>
        os[k].Status? && Call(os).reply.response == os[k].response && Call(os).delays == Delays(k)
  {
  }

  /** A retryable status at attempt k + 1 (k < 4) is always followed by another attempt. */
  lemma RetryableLeadsToAnotherAttempt(os: Transport, k: nat)
    requires k < MaxAttempts - 1
    requires forall j :: 0 <= j < k ==> Continues(os[j])
    requires os[k].Status? && IsRetryable(os[k].response.status)
    ensures Call(os).attempts > k + 1
    ensures Call(os).delays[k] == InitialBackoff * Pow2(k)
  {
  }

  /** A thrown error escapes the call only on attempt five, after four
      sleeps, and it is the error of attempt five. */
  lemma ThrowEscapesOnlyOnLastAttempt(os: Transport)
    ensures Call(os).reply.Threw?
        <==> (forall j :: 0 <= j < MaxAttempts - 1 ==> Continues(os[j])) && os[MaxAttempts - 1].Throw?
    ensures Call(os).reply.Threw? ==>
        Call(os).reply.message == os[MaxAttempts - 1].message && |Call(os).delays| == MaxAttempts - 1
  {
  }

  /** Five retryable statuses in a row: five sleeps of 2, 4, 8, 16 and 32
      seconds and then `undefined`, not an error. */
  lemma FiveRetryableStatusesGiveNoResponse(os: Transport)
    requires forall j :: 0 <= j < MaxAttempts ==> os[j].Status? && IsRetryable(os[j].response.status)
    ensures Call(os) == Exchange(NoResponse, [2000, 4000, 8000, 16000, 32000], 5)
  {
    assert FirstFinal(os, 0) == MaxAttempts;
    assert Delays(5) == [2000, 4000, 8000, 16000, 32000] by {
      assert Pow2(1) == 2 && Pow2(2) == 4 && Pow2(3) == 8 && Pow2(4) == 16;
    }
  }

  /** Four 503s and then a 200: the 200 is returned after sleeping 2, 4, 8
      and 16 seconds. */
  lemma RecoversOnFifthAttempt(os: Transport)
    requires forall j :: 0 <= j < 4 ==> os[j].Status? && os[j].response.status == 503
    requires os[4].Status? && os[4].response.status == 200
    ensures Call(os) == Exchange(Responded(os[4].response), [2000, 4000, 8000, 16000], 5)
  {
    assert FirstFinal(os, 0) == 4;
    assert Delays(4) == [2000, 4000, 8000, 16000] by {
      assert Pow2(1) == 2 && Pow2(2) == 4 && Pow2(3) == 8;
    }
  }

  /** Whatever the outcomes, the k-th sleep of a call lasts 2000 * 2^k ms. */
  lemma SleepSchedule(os: Transport)
    ensures forall k :: 0 <= k < |Call(os).delays| ==> Call(os).delays[k] == InitialBackoff * Pow2(k)
  {
  }

  function Sum(s: seq<nat>): nat {
    if s == [] then 0 else Sum(s[..|s| - 1]) + s[|s| - 1]
  }

  /** The sleeps of one call add up to 2000 * (2^n - 1) for n sleeps;
      at most 62000 ms, reached only when no response arrives. */
  lemma {:induction false} TotalSleep(n: nat)
    ensures Sum(Delays(n)) == InitialBackoff * (Pow2(n) - 1)
  {
    if n > 0 {
      TotalSleep(n - 1);
      assert Delays(n)[..n - 1] == Delays(n - 1);
    }
  }

  lemma WorstCaseSleep(os: Transport)
    ensures Sum(Call(os).delays) <= 62000
    ensures Sum(Call(os).delays) == 62000 <==> Call(os).reply.NoResponse?
  {
    var r := Call(os);
    TotalSleep(|r.delays|);
    assert Pow2(1) == 2 && Pow2(2) == 4 && Pow2(3) == 8 && Pow2(4) == 16 && Pow2(5) == 32;
    if |r.delays| < 5 {
      assert Pow2(|r.delays|) <= 16;
    }
  }
}

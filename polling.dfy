/**
 * Waiting for an uploaded recording to become usable.
 *
 * The status service is an oracle: `script[k]` is what the `k`-th status
 * request (0-based) answers: the name of the reported state, a reply
 * without a state, or an exception. Requests beyond the script raise. Sleeping is not modelled as
 * waiting; each sleep is recorded with its length in seconds.
 */
module Polling {
  import opened Wrappers

  /**
   * What one `files.get` call gives back: a reply whose state has a name, a
   * reply whose `state` is `None` (reading `.state.name` then raises), or an
   * exception raised by the call itself.
   */
  datatype Status = Reported(state: string) | Stateless | Raised

  /** The answer to the `k`-th status request. */
  function Answer(script: seq<Status>, k: nat): Status {
    if k < |script| then script[k] else Raised
  }

  /**
   * The first request at index `k` or later, below `n`, whose answer
   * satisfies `stop`; `None` when no answer in that range does.
   */
  function FirstStop(script: seq<Status>, k: nat, n: nat, stop: Status -> bool): (r: Option<nat>)
    ensures r.Some? ==> k <= r.value < n && stop(Answer(script, r.value))
    ensures r.Some? ==> forall j :: k <= j < r.value ==> !stop(Answer(script, j))
    ensures r.None? ==> forall j :: k <= j < n ==> !stop(Answer(script, j))
    decreases n - k
  {
    if n <= k then None
    else if stop(Answer(script, k)) then Some(k)
    else FirstStop(script, k + 1, n, stop)
  }

  function Min(a: real, b: real): real {
    if a <= b then a else b
  }

  // ---------------------------------------------------------------------
  // Legacy app: counted loop with capped exponential backoff
  // ---------------------------------------------------------------------

  const MaxRetries: nat := 15
  const InitialSleep: real := 8.0
  const MaxSleep: real := 45.0
  const Processing: string := "PROCESSING"
  const Active: string := "ACTIVE"

  /** An answer that ends the legacy loop: a reported state other than `PROCESSING`. */
  predicate Decisive(s: Status) {
    s.Reported? && s.state != Processing
  }

  /** The sleep before the `k`-th status request: 8 seconds, then ×1.5 capped at 45. */
  function Backoff(k: nat): real {
    if k == 0 then InitialSleep else Min(Backoff(k - 1) * 1.5, MaxSleep)
  }

  /**
   * An answer that leaves the legacy loop: a decisive one, or a reply without
   * a state, whose `.state.name` raises outside the inner `try`.
   */
  predicate LegacyStop(s: Status) {
    Decisive(s) || s.Stateless?
  }

  /** The legacy loop's exit: the first stopping answer among the 15 allowed requests. */
  function LegacyExit(script: seq<Status>): Option<nat> {
    FirstStop(script, 0, MaxRetries, LegacyStop)
  }

  /**
   * The loop was left by the exception of a state-less reply: it propagates
   * to the outer `except Exception`, which returns without deleting the file.
   */
  predicate LegacyAborted(script: seq<Status>) {
    LegacyExit(script).Some? && Answer(script, LegacyExit(script).value).Stateless?
  }

  /** How many status requests the legacy loop makes. */
  function LegacyChecks(script: seq<Status>): (n: nat)
    ensures 1 <= n <= MaxRetries
  {
    match LegacyExit(script)
    case Some(k) => k + 1
    case None => MaxRetries
  }

  /**
   * The value `file_state` ends with: the decisive answer, or `PROCESSING`
   * when the retries ran out or a state-less reply aborted the loop.
   */
  function LegacyFinalState(script: seq<Status>): (s: string)
    ensures (s == Processing) <==> LegacyExit(script).None? || LegacyAborted(script)
  {
    match LegacyExit(script)
    case Some(k) => if Answer(script, k).Reported? then Answer(script, k).state else Processing
    case None => Processing
  }

  /** The recording is usable: the loop ended on `ACTIVE`. */
  predicate BecomesActive(script: seq<Status>) {
    LegacyFinalState(script) == Active
  }

  /** What `client.files.upload` gives back, or the exception it raises. */
  datatype UploadReply = Uploaded(name: string) | PermissionDenied | ResourceExhausted | UploadFailed

  /**
   * `upload_to_gemini`: upload, then poll until the state is no longer
   * `PROCESSING` or 15 requests were made, sleeping before each request.
   * A request that raises still uses up a retry and grows the sleep. If the
   * final state is not `ACTIVE` the file is deleted once (a failing delete is
   * ignored) and nothing is returned. A reply without a state raises past
   * that delete: nothing is returned and nothing deleted. `checks` counts status requests,
   * `delays` lists the sleeps and `deletes` the names passed to
   * `files.delete`.
   */
  method UploadToGemini(reply: UploadReply, script: seq<Status>)
    returns (file: Option<string>, ghost checks: nat, ghost delays: seq<real>, ghost deletes: seq<string>)
    ensures !reply.Uploaded? ==> file == None && checks == 0 && delays == [] && deletes == []
    ensures reply.Uploaded? ==> checks == LegacyChecks(script)
    ensures |delays| == checks && forall k :: 0 <= k < checks ==> delays[k] == Backoff(k)
    ensures file.Some? <==> reply.Uploaded? && BecomesActive(script)
    ensures file.Some? ==> file.value == reply.name
    ensures deletes == (if reply.Uploaded? && !BecomesActive(script) && !LegacyAborted(script) then [reply.name] else [])
  {
    checks, delays, deletes := 0, [], [];
    if !reply.Uploaded? {
      return None, checks, delays, deletes;
    }
    var state := Processing;
    var retries := MaxRetries;
    var sleepTime := InitialSleep;
    while state == Processing && retries > 0
      invariant 0 <= retries <= MaxRetries && checks == MaxRetries - retries
      invariant sleepTime == Backoff(checks)
      invariant |delays| == checks && forall k :: 0 <= k < checks ==> delays[k] == Backoff(k)
      invariant state == Processing ==> LegacyExit(script) == FirstStop(script, checks, MaxRetries, LegacyStop)
      invariant state != Processing ==> LegacyExit(script) == Some(checks - 1) && state == LegacyFinalState(script)
                                        && !LegacyAborted(script)
    {
      delays := delays + [sleepTime];
      var answer := Answer(script, MaxRetries - retries);
      checks := checks + 1;
      if answer.Raised? {
        retries := retries - 1;
        sleepTime := Min(sleepTime * 1.5, MaxSleep);
        continue;
      }
      if answer.Stateless? {
        return None, checks, delays, deletes;
      }
      state := answer.state;
      retries := retries - 1;
      sleepTime := Min(sleepTime * 1.5, MaxSleep);
    }
    if state != Active {
      deletes := [reply.name];
      return None, checks, delays, deletes;
    }
    file := Some(reply.name);
  }

  /** The sleeps are 8, 12, 18, 27, 40.5 and from then on 45 seconds. */
  lemma {:induction false} BackoffValues(k: nat)
    ensures Backoff(0) == 8.0 && Backoff(1) == 12.0 && Backoff(2) == 18.0
    ensures Backoff(3) == 27.0 && Backoff(4) == 40.5
    ensures k >= 5 ==> Backoff(k) == 45.0
  {
    if k > 5 {
      BackoffValues(k - 1);
    }
  }

  /** No sleep is shorter than the one before it, and none exceeds 45 seconds. */
  lemma {:induction false} BackoffMonotone(k: nat)
    ensures InitialSleep <= Backoff(k) <= Backoff(k + 1) <= MaxSleep
  {
    if k > 0 {
      BackoffMonotone(k - 1);
    }
  }

  /** The total time slept over the first `n` requests. */
  function TotalSleep(n: nat): real {
    if n == 0 then 0.0 else TotalSleep(n - 1) + Backoff(n - 1)
  }

  lemma {:induction false} TotalSleepAfterCap(m: nat)
    ensures TotalSleep(5 + m) == 105.5 + 45.0 * m as real
  {
    if m == 0 {
      BackoffValues(0);
    } else {
      TotalSleepAfterCap(m - 1);
      BackoffValues(4 + m);
    }
  }

  /** A recording that never settles costs 555.5 seconds of sleeping before it is given up. */
  lemma LegacyGiveUpSleep()
    ensures TotalSleep(MaxRetries) == 555.5
  {
    TotalSleepAfterCap(10);
  }

  /** When every request raises, all 15 are made, the state stays `PROCESSING` and the file is not returned. */
  lemma AllRaisedTimesOut(script: seq<Status>)
    requires forall k :: 0 <= k < |script| ==> script[k].Raised?
    ensures LegacyChecks(script) == MaxRetries
    ensures LegacyFinalState(script) == Processing && !BecomesActive(script) && !LegacyAborted(script)
  {
    assert forall k: nat :: !LegacyStop(Answer(script, k));
  }

  /** A state other than `PROCESSING`, such as `FAILED`, ends the loop at once and the file is not returned. */
  lemma FailedStateStops(script: seq<Status>, k: nat)
    requires k < MaxRetries && k < |script| && script[k] == Reported("FAILED")
    requires forall j :: 0 <= j < k ==> !LegacyStop(Answer(script, j))
    ensures LegacyChecks(script) == k + 1
    ensures LegacyFinalState(script) == "FAILED" && !BecomesActive(script) && !LegacyAborted(script)
  {
    assert LegacyStop(Answer(script, k));
  }

  /** A reply without a state ends the loop at once with an exception: the file is neither returned nor deleted by the loop. */
  lemma StatelessReplyAborts(script: seq<Status>, k: nat)
    requires k < MaxRetries && k < |script| && script[k].Stateless?
    requires forall j :: 0 <= j < k ==> !LegacyStop(Answer(script, j))
    ensures LegacyChecks(script) == k + 1
    ensures LegacyAborted(script) && LegacyFinalState(script) == Processing && !BecomesActive(script)
  {
    assert LegacyStop(Answer(script, k));
  }

  /** A request that raises counts like one that reports `PROCESSING`: the error is absorbed. */
  lemma {:induction false} RaisedActsAsProcessing(script: seq<Status>, i: nat, k: nat, n: nat)
    requires i < |script| && script[i].Raised?
    ensures FirstStop(script[i := Reported(Processing)], k, n, LegacyStop) == FirstStop(script, k, n, LegacyStop)
    decreases n - k
  {
    if k < n {
      RaisedActsAsProcessing(script, i, k + 1, n);
    }
  }

  // ---------------------------------------------------------------------
  // API: fixed number of requests at a fixed interval
  // ---------------------------------------------------------------------

  const ApiMaxChecks: nat := 12
  const ApiInterval: real := 5.0

  /**
   * An answer that ends the API loop: `ACTIVE` breaks out; an exception, from
   * the call or from reading the state of a state-less reply, propagates.
   */
  predicate EndsApiPoll(s: Status) {
    !s.Reported? || s == Reported(Active)
  }

  function ApiExit(script: seq<Status>): Option<nat> {
    FirstStop(script, 0, ApiMaxChecks, EndsApiPoll)
  }

  /**
   * The `for _ in range(12)` loop of `transcribe`: a request, then a break on
   * `ACTIVE` or a sleep of 5 seconds. `raised` says the request, or reading
   * the state it returned, raised and the exception left the loop. Other states, and running out of requests,
   * are not looked at.
   */
  method AwaitActive(script: seq<Status>) returns (raised: bool, ghost checks: nat, ghost delays: seq<real>)
    ensures ApiExit(script).Some? ==> checks == ApiExit(script).value + 1
    ensures ApiExit(script).None? ==> checks == ApiMaxChecks
    ensures raised <==> ApiExit(script).Some? && !Answer(script, ApiExit(script).value).Reported?
    ensures |delays| == (if ApiExit(script).Some? then checks - 1 else checks)
    ensures forall k :: 0 <= k < |delays| ==> delays[k] == ApiInterval
  {
    raised, checks, delays := false, 0, [];
    for i := 0 to ApiMaxChecks
      invariant checks == i && |delays| == i
      invariant forall k :: 0 <= k < i ==> delays[k] == ApiInterval
      invariant ApiExit(script) == FirstStop(script, i, ApiMaxChecks, EndsApiPoll)
    {
      var answer := Answer(script, i);
      checks := checks + 1;
      if !answer.Reported? {
        raised := true;
        return;
      }
      if answer.state == Active {
        return;
      }
      delays := delays + [ApiInterval];
    }
  }

  /** Twelve `PROCESSING` answers end the loop without an error: generation goes ahead on an unready file. */
  lemma ApiIgnoresTimeout(script: seq<Status>)
    requires forall k :: 0 <= k < |script| ==> script[k] == Reported(Processing)
    requires |script| >= ApiMaxChecks
    ensures ApiExit(script).None?
  {
    assert forall k :: 0 <= k < ApiMaxChecks ==> !EndsApiPoll(Answer(script, k));
  }
}

/** The on-chain client's protocol logic: reading the task id out of a
    submission receipt, polling for a task's result until a deadline,
    submit-then-wait, and the session health check. The chain itself is an
    oracle: each call's answer is an input. */
module ChainClient {
  import opened Wrappers

  /** A session and a task in it. */
  datatype TaskRef = TaskRef(sessionId: nat, taskId: nat)

  /** One miner's answer to a task. */
  datatype TaskResult = TaskResult(miner: string, result: string, timestamp: nat)

  /** The answer to one `getTaskResults` call: it threw, or it returned a list. */
  datatype PollOutcome = PollFailed | Polled(results: seq<TaskResult>)

  /** A poll that returned at least one result. */
  predicate Answered(o: PollOutcome) {
    o.Polled? && |o.results| > 0
  }

  /** How a wait ended: the first result's text (or none at the deadline) and how many polls were made. */
  datatype Wait = Wait(result: Option<string>, polls: nat)

  /** Milliseconds spent by polls `lo` to `hi - 1`: each takes its call
      latency and then the pause between polls. */
  function Span(latency: nat -> nat, intervalMs: nat, lo: nat, hi: nat): nat
    requires lo <= hi
    decreases hi - lo
  {
    if lo == hi then 0 else latency(lo) + intervalMs + Span(latency, intervalMs, lo + 1, hi)
  }

  /** Each poll adds at least one pause. */
  lemma {:induction false} SpanAtLeast(latency: nat -> nat, intervalMs: nat, lo: nat, hi: nat)
    requires lo <= hi
    ensures Span(latency, intervalMs, lo, hi) >= (hi - lo) * intervalMs
    decreases hi - lo
  {
    if lo < hi {
      SpanAtLeast(latency, intervalMs, lo + 1, hi);
    }
  }

  /** The polling loop from poll number `k`, `elapsed` milliseconds after the
      start: while time remains, poll; the first poll with a result ends the
      wait with that result's text; a failed or empty poll is followed by the pause. */
  function Await(poll: (TaskRef, nat) -> PollOutcome, task: TaskRef, latency: nat -> nat,
                 timeoutMs: int, intervalMs: nat, k: nat, elapsed: nat): Wait
    requires intervalMs > 0
    decreases timeoutMs - elapsed
  {
    if elapsed >= timeoutMs then Wait(None, k)
    else
      var o := poll(task, k);
      if Answered(o) then Wait(Some(o.results[0].result), k + 1)
      else Await(poll, task, latency, timeoutMs, intervalMs, k + 1, elapsed + latency(k) + intervalMs)
  }

  /** `waitForTaskResult(sessionId, taskId, timeoutMs, pollIntervalMs)`. The
      clock starts at 0 and each iteration lasts the poll's latency plus the pause. */
  method WaitForTaskResult(poll: (TaskRef, nat) -> PollOutcome, task: TaskRef, latency: nat -> nat,
                           timeoutMs: int, intervalMs: nat) returns (result: Option<string>, polls: nat)
    requires intervalMs > 0
    ensures Wait(result, polls) == Await(poll, task, latency, timeoutMs, intervalMs, 0, 0)
  {
    var elapsed: nat := 0;
    polls := 0;
    while elapsed < timeoutMs
      invariant Await(poll, task, latency, timeoutMs, intervalMs, 0, 0)
             == Await(poll, task, latency, timeoutMs, intervalMs, polls, elapsed)
      decreases timeoutMs - elapsed
    {
      var outcome := poll(task, polls);
      if outcome.Polled? && |outcome.results| > 0 {
        return Some(outcome.results[0].result), polls + 1;
      }
      elapsed := elapsed + latency(polls) + intervalMs;
      polls := polls + 1;
    }
    result := None;
  }

  /** What a wait from poll `k` returns: the text of the first result of the
      first answered poll, every earlier poll having been failed or empty and
      made before the deadline; or nothing, when every poll made was failed or
      empty and the deadline has passed. */
  lemma {:induction false} AwaitOutcome(poll: (TaskRef, nat) -> PollOutcome, task: TaskRef, latency: nat -> nat,
                                        timeoutMs: int, intervalMs: nat, k: nat, elapsed: nat)
    requires intervalMs > 0
    ensures var w := Await(poll, task, latency, timeoutMs, intervalMs, k, elapsed);
      && w.polls >= k
      && (forall j :: k <= j < w.polls ==> elapsed + Span(latency, intervalMs, k, j) < timeoutMs)
      && (w.result.Some? ==>
            && w.polls > k && Answered(poll(task, w.polls - 1))
            && w.result.value == poll(task, w.polls - 1).results[0].result
            && forall j :: k <= j < w.polls - 1 ==> !Answered(poll(task, j)))
      && (w.result.None? ==>
            && elapsed + Span(latency, intervalMs, k, w.polls) >= timeoutMs
            && forall j :: k <= j < w.polls ==> !Answered(poll(task, j)))
    decreases timeoutMs - elapsed
  {
    if elapsed < timeoutMs && !Answered(poll(task, k)) {
      var e' := elapsed + latency(k) + intervalMs;
      AwaitOutcome(poll, task, latency, timeoutMs, intervalMs, k + 1, e');
      var w := Await(poll, task, latency, timeoutMs, intervalMs, k + 1, e');
      forall j | k + 1 <= j <= w.polls
        ensures elapsed + Span(latency, intervalMs, k, j) == e' + Span(latency, intervalMs, k + 1, j)
      {
      }
    }
  }

  /** The largest number of polls a wait can make: `ceil(timeoutMs / intervalMs)`,
      and none at all when the timeout is not positive. */
  function MaxPolls(timeoutMs: int, intervalMs: nat): nat
    requires intervalMs > 0
  {
    if timeoutMs <= 0 then 0 else (timeoutMs + intervalMs - 1) / intervalMs
  }

  /** Multiplication by a positive number preserves strict order backwards. */
  lemma MulCancel(a: int, b: int, c: int)
    requires c > 0 && a * c < b * c
    ensures a < b
  {
    assert (b - a) * c == b * c - a * c;
  }

  /** `n` polls fit before the deadline only if `n` is at most `ceil(t / i)`. */
  lemma CeilingBound(n: nat, t: int, i: nat)
    requires i > 0 && n > 0
    requires (n - 1) * i < t
    ensures n <= MaxPolls(t, i)
  {
    var x := t + i - 1;
    var q := x / i;
    assert n * i == (n - 1) * i + i;
    assert x == q * i + x % i && x % i < i;
    assert (q + 1) * i == q * i + i;
    MulCancel(n, q + 1, i);
  }

  /** The wait makes at most `ceil(timeoutMs / intervalMs)` polls, whatever the
      chain answers and however slow it is; with a non-positive timeout it makes none. */
  lemma PollBound(poll: (TaskRef, nat) -> PollOutcome, task: TaskRef, latency: nat -> nat,
                  timeoutMs: int, intervalMs: nat)
    requires intervalMs > 0
    ensures Await(poll, task, latency, timeoutMs, intervalMs, 0, 0).polls <= MaxPolls(timeoutMs, intervalMs)
    ensures timeoutMs <= 0 ==> Await(poll, task, latency, timeoutMs, intervalMs, 0, 0) == Wait(None, 0)
  {
    var w := Await(poll, task, latency, timeoutMs, intervalMs, 0, 0);
    AwaitOutcome(poll, task, latency, timeoutMs, intervalMs, 0, 0);
    if w.polls > 0 {
      var last := w.polls - 1;
      assert Span(latency, intervalMs, 0, last) < timeoutMs;
      SpanAtLeast(latency, intervalMs, 0, last);
      CeilingBound(w.polls, timeoutMs, intervalMs);
    }
  }

  /** A poll that throws counts as an empty answer: replacing every failure by
      an empty list changes nothing. */
  lemma {:induction false} FailuresAreSwallowed(poll: (TaskRef, nat) -> PollOutcome, task: TaskRef, latency: nat -> nat,
                                                timeoutMs: int, intervalMs: nat, k: nat, elapsed: nat)
    requires intervalMs > 0
    ensures var quiet := (t: TaskRef, j: nat) => if poll(t, j).PollFailed? then Polled([]) else poll(t, j);
      Await(quiet, task, latency, timeoutMs, intervalMs, k, elapsed)
      == Await(poll, task, latency, timeoutMs, intervalMs, k, elapsed)
    decreases timeoutMs - elapsed
  {
    if elapsed < timeoutMs {
      FailuresAreSwallowed(poll, task, latency, timeoutMs, intervalMs, k + 1, elapsed + latency(k) + intervalMs);
    }
  }

  /** One log of a submission receipt, as the contract interface reads it:
      it fails to decode, decodes to no known event, or is the named event. */
  datatype LogEntry = Undecodable | Unrecognised | Event(name: string, taskId: nat)

  /** The log `receipt.logs.find` selects: one that decodes as `TaskQueued`. */
  predicate IsTaskQueued(l: LogEntry) {
    l.Event? && l.name == "TaskQueued"
  }

  /** The index of the first `TaskQueued` log, if any. */
  function FirstTaskQueued(logs: seq<LogEntry>): (r: Option<nat>)
    ensures r.Some? ==>
      && r.value < |logs| && IsTaskQueued(logs[r.value])
      && forall j :: 0 <= j < r.value ==> !IsTaskQueued(logs[j])
    ensures r.None? ==> forall j :: 0 <= j < |logs| ==> !IsTaskQueued(logs[j])
  {
    if logs == [] then None
    else if IsTaskQueued(logs[0]) then Some(0)
    else match FirstTaskQueued(logs[1..])
      case None => None
      case Some(i) => Some(i + 1)
  }

  /** The task id read from the receipt: that of the first `TaskQueued` log, or 0. */
  function QueuedTaskId(logs: seq<LogEntry>): (r: nat)
    ensures (forall j :: 0 <= j < |logs| ==> !IsTaskQueued(logs[j])) ==> r == 0
    ensures forall i ::
      0 <= i < |logs| && IsTaskQueued(logs[i]) && (forall j :: 0 <= j < i ==> !IsTaskQueued(logs[j]))
      ==> r == logs[i].taskId
  {
    match FirstTaskQueued(logs)
    case None => 0
    case Some(i) => logs[i].taskId
  }

  /** Logs before the first `TaskQueued` that are not `TaskQueued` do not matter. */
  lemma {:induction false} QueuedTaskIdSkips(skipped: seq<LogEntry>, logs: seq<LogEntry>)
    requires forall j :: 0 <= j < |skipped| ==> !IsTaskQueued(skipped[j])
    ensures QueuedTaskId(skipped + logs) == QueuedTaskId(logs)
  {
    if skipped != [] {
      assert (skipped + logs)[1..] == skipped[1..] + logs;
      QueuedTaskIdSkips(skipped[1..], logs);
    } else {
      assert skipped + logs == logs;
    }
  }

  /** The first `TaskQueued` wins over later ones. */
  lemma QueuedTaskIdFirstWins(l: LogEntry, rest: seq<LogEntry>)
    requires IsTaskQueued(l)
    ensures QueuedTaskId([l] + rest) == l.taskId
  {
  }

  /** A mined submission's receipt. */
  datatype Receipt = Receipt(hash: string, logs: seq<LogEntry>)

  /** What the chain does with a submission: signing, sending or mining throws, or it is mined. */
  datatype SubmitReply = SubmitFailed(reason: string) | Mined(receipt: Receipt)

  /** What `submitTask` returns. */
  datatype Submitted = Submitted(taskId: nat, txHash: string)

  /** `submitTask(sessionId, taskData, privateKey)`: the chain's answer is the oracle `submit`. */
  function SubmitTask(submit: (nat, string) -> SubmitReply, sessionId: nat, taskData: string): (r: Result<Submitted>)
    ensures r.Success? <==> submit(sessionId, taskData).Mined?
    ensures r.Success? ==> var rc := submit(sessionId, taskData).receipt;
      && r.value.txHash == rc.hash
      && (r.value.taskId != 0 ==> exists j :: 0 <= j < |rc.logs| && IsTaskQueued(rc.logs[j]) && rc.logs[j].taskId == r.value.taskId)
      && ((forall j :: 0 <= j < |rc.logs| ==> !IsTaskQueued(rc.logs[j])) ==> r.value.taskId == 0)
      && forall i ::
        0 <= i < |rc.logs| && IsTaskQueued(rc.logs[i]) && (forall j :: 0 <= j < i ==> !IsTaskQueued(rc.logs[j]))
        ==> r.value.taskId == rc.logs[i].taskId
  {
    match submit(sessionId, taskData)
    case SubmitFailed(reason) => Failure(reason)
    case Mined(rc) => Success(Submitted(QueuedTaskId(rc.logs), rc.hash))
  }

  /** What `executeTask` returns. */
  datatype Execution = Execution(success: bool, result: Option<string>, taskId: nat, txHash: string)

  const DefaultTimeoutMs := 60000
  const DefaultPollIntervalMs := 3000

  /** `executeTask(sessionId, prompt, privateKey, timeoutMs)`: submit, then wait
      for the task id the submission reported with the default poll interval;
      any failure of the submission becomes an unsuccessful result. Also
      returns the number of polls made. */
  method ExecuteTask(submit: (nat, string) -> SubmitReply, poll: (TaskRef, nat) -> PollOutcome, latency: nat -> nat,
                     sessionId: nat, prompt: string, timeoutMs: int) returns (r: Execution, polls: nat)
    ensures r.success <==> r.result.Some?
    ensures SubmitTask(submit, sessionId, prompt).Failure? ==> r == Execution(false, None, 0, "") && polls == 0
    ensures SubmitTask(submit, sessionId, prompt).Success? ==>
      var s := SubmitTask(submit, sessionId, prompt).value;
      && r.taskId == s.taskId && r.txHash == s.txHash
      && Wait(r.result, polls) == Await(poll, TaskRef(sessionId, s.taskId), latency, timeoutMs, DefaultPollIntervalMs, 0, 0)
  {
    var submitted := SubmitTask(submit, sessionId, prompt);
    if submitted.Failure? {
      return Execution(false, None, 0, ""), 0;
    }
    var taskId, txHash := submitted.value.taskId, submitted.value.txHash;
    var result;
    result, polls := WaitForTaskResult(poll, TaskRef(sessionId, taskId), latency, timeoutMs, DefaultPollIntervalMs);
    r := Execution(result.Some?, result, taskId, txHash);
  }

  /** With the default timeout and interval a task is polled at most 20 times. */
  lemma DefaultPollBound(poll: (TaskRef, nat) -> PollOutcome, task: TaskRef, latency: nat -> nat)
    ensures Await(poll, task, latency, DefaultTimeoutMs, DefaultPollIntervalMs, 0, 0).polls <= 20
  {
    PollBound(poll, task, latency, DefaultTimeoutMs, DefaultPollIntervalMs);
  }

  /** The on-chain session record `getSession` returns. */
  datatype Session = Session(
    id: nat, name: string, metadata: string, owner: string, active: bool,
    modelIdentifier: nat, minNumOfNodes: nat, maxNumOfNodes: nat)

  /** The answer to `getSession`: it threw with a message, or returned the record. */
  datatype SessionLookup = LookupFailed(message: string) | Found(session: Session)

  /** What `verifySession` returns. */
  datatype SessionCheck = SessionCheck(valid: bool, name: Option<string>, model: Option<nat>, error: Option<string>)

  /** `verifySession(sessionId)`: valid exactly for an active session that
      could be read, reporting its name and model; otherwise an error saying why. */
  function VerifySession(lookup: nat -> SessionLookup, sessionId: nat): (r: SessionCheck)
    ensures r.valid <==> lookup(sessionId).Found? && lookup(sessionId).session.active
    ensures r.valid ==>
      && r.error.None?
      && r.name == Some(lookup(sessionId).session.name)
      && r.model == Some(lookup(sessionId).session.modelIdentifier)
    ensures !r.valid ==> r.error.Some? && r.name.None? && r.model.None?
    ensures lookup(sessionId).LookupFailed? ==> r.error == Some("Failed to get session: " + lookup(sessionId).message)
    ensures lookup(sessionId).Found? && !lookup(sessionId).session.active ==> r.error == Some("Session is not active")
  {
    match lookup(sessionId)
    case LookupFailed(message) => SessionCheck(false, None, None, Some("Failed to get session: " + message))
    case Found(s) =>
      if !s.active then SessionCheck(false, None, None, Some("Session is not active"))
      else SessionCheck(true, Some(s.name), Some(s.modelIdentifier), None)
  }
}

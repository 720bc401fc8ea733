/**
 * The asynchronous email dispatcher: a FIFO of send tasks consumed by a pool
 * of workers, with bounded retries that re-enter the queue after an
 * exponential back-off, statistics, a start/stop lifecycle and a process-wide
 * singleton.
 *
 * Threads and timers are replaced by a sequential model: one call of
 * `ProcessOne` is one iteration of a worker's loop, and a retry waits in
 * `pending` until `FireRetry` lets its timer go off.
 */
module AsyncEmail {
  import opened Wrappers
  import opened Strings
  import opened PyValues
  import SendEmail

  // ------------------------------------------------------------ data model

  /** One queued send request: the transport operation to call, its
      positional and keyword arguments, and how often it has been retried. */
  datatype Task = Task(kind: string, args: seq<Value>, kwargs: seq<(string, Value)>, retryCount: nat)

  /** An entry of the queue: a task, or the `None` that stops one worker. */
  datatype QueueItem = Stop | Job(task: Task)

  /** A retry whose timer has not fired yet: the task, already carrying its
      new retry count, and the timer's delay in seconds. */
  datatype PendingRetry = PendingRetry(task: Task, delay: nat)

  /** What the transport did with one task: returned a value, or raised. */
  datatype Reply = Returned(v: Value) | Raised(message: string)

  /** What one worker iteration did. */
  datatype StepKind = Idle | Stopped | Sent | Retried | Dropped

  /** The whole state of one sender. */
  datatype SenderState = SenderState(
    queue: seq<QueueItem>,
    pending: seq<PendingRetry>,
    running: bool,
    workers: seq<bool>,   // one liveness flag per worker handle
    maxWorkers: nat,
    maxRetries: nat,
    sent: nat,
    failed: nat)

  /** The snapshot returned by `get_stats`. */
  datatype Stats = Stats(queueSize: nat, sentCount: nat, failedCount: nat, totalProcessed: nat, activeWorkers: nat)

  const QueuedMessage := "邮件任务已加入队列"
  const DefaultMaxWorkers: nat := 3
  const DefaultMaxRetries: nat := 3

  predicate KnownKind(kind: string) {
    kind == "backup" || kind == "error" || kind == "custom" || kind == "direct"
  }

  // ------------------------------------------- result normalisation

  /** `_execute_email_task`: run the transport operation for `kind` and
      normalise whatever it produced into a `(success, message)` pair. */
  function Execute(kind: string, reply: Reply): (Value, Value) {
    if !KnownKind(kind) then (Bool(false), Str("未知的任务类型: " + kind))
    else match reply
      case Raised(m) => (Bool(false), Str("任务执行异常: " + m))
      case Returned(v) =>
        match v
        case Dict(es) =>
          if Get(es, "status").GetOr(Str("failed")) == Str("success") then (Bool(true), Str("邮件发送成功"))
          else (Bool(false), Str("邮件发送失败: " + ToStr(Get(es, "error").GetOr(Str("未知错误")))))
        case Tuple(xs) =>
          if |xs| == 2 then (xs[0], xs[1]) else (Bool(true), Str("邮件发送完成（未知返回值格式）"))
        case NoneValue => (Bool(true), Str("邮件发送成功"))
        case _ => (Bool(true), Str("邮件发送完成（未知返回值格式）"))
  }

  /** How `_execute_email_task` normalises: an unknown kind and a raising
      transport fail with their messages; a result dict succeeds exactly
      when its `status` is `success`, and otherwise reports its `error`; a
      pair is taken as it is; anything else counts as success. */
  lemma ExecuteFacts(kind: string, reply: Reply)
    ensures var r := Execute(kind, reply);
      && (!KnownKind(kind) ==> r == (Bool(false), Str("未知的任务类型: " + kind)))
      && (KnownKind(kind) && reply.Raised? ==> r == (Bool(false), Str("任务执行异常: " + reply.message)))
      && (KnownKind(kind) && reply.Returned? && reply.v.Dict? ==>
            (Truthy(r.0) <==> Get(reply.v.entries, "status") == Some(Str("success"))))
      && (KnownKind(kind) && reply.Returned? && reply.v.Dict? && Get(reply.v.entries, "status") != Some(Str("success")) ==>
            r.1 == Str("邮件发送失败: " + ToStr(Get(reply.v.entries, "error").GetOr(Str("未知错误")))))
      && (KnownKind(kind) && reply.Returned? && reply.v.Tuple? && |reply.v.items| == 2 ==>
            r == (reply.v.items[0], reply.v.items[1]))
      && (KnownKind(kind) && reply.Returned? && !reply.v.Dict? && !(reply.v.Tuple? && |reply.v.items| == 2) ==>
            Truthy(r.0))
  {
  }

  /** The worker's `if success:` on the normalised pair. */
  predicate Succeeded(kind: string, reply: Reply) {
    Truthy(Execute(kind, reply).0)
  }

  /** A direct task hands back the transport's result record; the worker
      counts it as delivered exactly when the record says `success`, and
      otherwise reports the record's error. */
  lemma DirectTaskFollowsRecord(r: SendEmail.SendRecord)
    ensures Succeeded("direct", Returned(SendEmail.RecordValue(r))) <==> r.status == "success"
    ensures r.status != "success" ==>
      Execute("direct", Returned(SendEmail.RecordValue(r))).1 == Str("邮件发送失败: " + ToStr(SendEmail.OptionalText(r.error)))
  {
  }

  /** So a direct send is counted delivered exactly when its recipients
      resolved and the SMTP session delivered the message. */
  lemma DirectTaskDelivered(to: SendEmail.Addresses, cc: SendEmail.Addresses, bcc: SendEmail.Addresses, subject: Value,
                            attachments: seq<string>, useDefault: bool, defaults: SendEmail.Addresses,
                            smtp: SendEmail.SmtpOutcome, elapsed: string)
    ensures var resolved := SendEmail.ResolveRecipients(to, useDefault, defaults);
            var record := SendEmail.SendResult(to, cc, bcc, subject, attachments, resolved, smtp, elapsed);
            Succeeded("direct", Returned(SendEmail.RecordValue(record))) <==> resolved.Ok? && smtp.Delivered?
  {
    var resolved := SendEmail.ResolveRecipients(to, useDefault, defaults);
    DirectTaskFollowsRecord(SendEmail.SendResult(to, cc, bcc, subject, attachments, resolved, smtp, elapsed));
  }

  // -------------------------------------------------- retry back-off

  function Pow2(n: nat): (r: nat)
    ensures r >= 1
  {
    if n == 0 then 1 else 2 * Pow2(n - 1)
  }

  lemma {:induction false} Pow2Monotone(m: nat, n: nat)
    requires m <= n
    ensures Pow2(m) <= Pow2(n)
    decreases n
  {
    if m < n {
      Pow2Monotone(m, n - 1);
    }
  }

  lemma {:induction false} Pow2AtLeast64(n: nat)
    requires n >= 6
    ensures Pow2(n) >= 64
    decreases n
  {
    if n > 6 {
      Pow2AtLeast64(n - 1);
    }
  }

  /** `_retry_task`: the timer delay before a task with the new retry count
      `n` re-enters the queue, `min(2 ** n, 60)` seconds. */
  function RetryDelay(n: nat): (d: nat)
    ensures 1 <= d <= 60
    ensures d <= Pow2(n)
    ensures d == 60 || d == Pow2(n)
  {
    if Pow2(n) < 60 then Pow2(n) else 60
  }

  /** The delay never shrinks as the retry count grows. */
  lemma RetryDelayMonotone(m: nat, n: nat)
    requires m <= n
    ensures RetryDelay(m) <= RetryDelay(n)
  {
    Pow2Monotone(m, n);
  }

  /** Up to the fifth retry the delay is the plain power of two (at most 32 seconds). */
  lemma RetryDelayUncapped(n: nat)
    requires n < 6
    ensures RetryDelay(n) == Pow2(n) <= 32
  {
    Pow2Monotone(n, 5);
  }

  /** From the sixth retry on, the delay is the 60-second cap. */
  lemma RetryDelayCapped(n: nat)
    requires n >= 6
    ensures RetryDelay(n) == 60
  {
    Pow2AtLeast64(n);
  }

  // ---------------------------------------------- queueing a task

  /** `if attachments is not None: kwargs['attachments'] = attachments`. */
  function AttachmentsKwarg(attachments: Value): (r: seq<(string, Value)>)
    ensures r == [] <==> attachments == NoneValue
    ensures r != [] ==> r == [("attachments", attachments)]
  {
    if attachments != NoneValue then [("attachments", attachments)] else []
  }

  /** Whether the log line's `len(attachments) if attachments else 0` is defined. */
  predicate Countable(attachments: Value) {
    !Truthy(attachments) || Len(attachments).Some?
  }

  // ---------------------------------------------- task descriptions

  /** `_get_task_description`: the text logged for a task, or None where
      `len(args[4])` raises because the attachments argument has no length. */
  function Describe(kind: string, args: seq<Value>): (r: Option<string>)
    ensures r.None? <==> kind == "direct" && |args| > 4 && Truthy(args[4]) && Len(args[4]).None?
    ensures kind == "backup" && |args| > 0 ==> r == Some("备份通知 -> " + ToStr(args[0]))
    ensures kind == "error" && |args| > 0 ==> r == Some("错误通知 -> " + ToStr(args[0]))
    ensures kind == "custom" && |args| > 0 ==> r == Some("自定义通知 -> " + ToStr(args[0]))
    ensures kind == "direct" && |args| > 0 && r.Some? ==>
      var count := if |args| > 4 && Truthy(args[4]) then Len(args[4]).value else 0;
      r == Some("直接发送 -> " + ToStr(args[0]) + " - " + (if |args| > 1 then ToStr(args[1]) else "Unknown")
                + " [附件: " + NatToString(count) + "个]")
    ensures !KnownKind(kind) || args == [] ==> r == Some(kind + "任务")
  {
    if kind == "backup" && |args| > 0 then Some("备份通知 -> " + ToStr(args[0]))
    else if kind == "error" && |args| > 0 then Some("错误通知 -> " + ToStr(args[0]))
    else if kind == "custom" && |args| > 0 then Some("自定义通知 -> " + ToStr(args[0]))
    else if kind == "direct" && |args| > 0 then
      var subject := if |args| > 1 then ToStr(args[1]) else "Unknown";
      var count: Option<nat> := if |args| > 4 && Truthy(args[4]) then Len(args[4]) else Some(0);
      if count.None? then None
      else Some("直接发送 -> " + ToStr(args[0]) + " - " + subject + " [附件: " + NatToString(count.value) + "个]")
    else Some(kind + "任务")
  }

  /** The notification kinds name only the recipient, so the description
      logged when a task is queued (built from the recipient alone) is the
      one logged when it is delivered. */
  lemma DescribeNamesRecipientOnly(kind: string, args: seq<Value>)
    requires kind == "backup" || kind == "error" || kind == "custom"
    requires |args| > 0
    ensures Describe(kind, args) == Describe(kind, args[..1])
    ensures Describe(kind, args).Some?
  {
  }

  /** A direct email whose queueing is answered with an error is exactly one
      whose description the worker cannot produce later: both count the
      attachments with `len`. */
  lemma DirectQueueFailureMatchesDescribe(args: seq<Value>)
    requires |args| == 8
    ensures Describe("direct", args).None? <==> !Countable(args[4])
  {
  }

  // ------------------------------------------------ the step model

  /** One iteration of `_process_queue` once the head task's attempt has
      been judged: `ok` is whether it succeeded. A `None` stops the worker;
      a task is then counted as sent, scheduled for retry, or counted as
      failed. */
  function Advance(s: SenderState, ok: bool): (SenderState, StepKind)
  {
    if s.queue == [] then (s, Idle)
    else match s.queue[0]
      case Stop => (s.(queue := s.queue[1..]), Stopped)
      case Job(t) =>
        if ok then (s.(queue := s.queue[1..], sent := s.sent + 1), Sent)
        else if t.retryCount < s.maxRetries then
          var retry := PendingRetry(t.(retryCount := t.retryCount + 1), RetryDelay(t.retryCount + 1));
          (s.(queue := s.queue[1..], pending := s.pending + [retry]), Retried)
        else (s.(queue := s.queue[1..], failed := s.failed + 1), Dropped)
  }

  /** What one judged iteration does: an empty queue waits, a stop signal
      ends the worker, a success is counted sent, a failure with retries
      left schedules exactly one retry with its count raised, and a failure
      without retries left is counted failed. The flags and limits never
      change. */
  lemma AdvanceFacts(s: SenderState, ok: bool)
    ensures s.queue == [] <==> Advance(s, ok).1 == Idle
    ensures Advance(s, ok).1 == Idle ==> Advance(s, ok).0 == s
    ensures s.queue != [] ==> Advance(s, ok).0.queue == s.queue[1..]
    ensures s.queue != [] && s.queue[0].Stop? ==> Advance(s, ok) == (s.(queue := s.queue[1..]), Stopped)
    ensures Advance(s, ok).0.running == s.running && Advance(s, ok).0.workers == s.workers
    ensures Advance(s, ok).0.maxWorkers == s.maxWorkers && Advance(s, ok).0.maxRetries == s.maxRetries
    ensures Advance(s, ok).1 == Sent ==>
      s.queue[0].Job? && ok && Advance(s, ok).0 == s.(queue := s.queue[1..], sent := s.sent + 1)
    ensures Advance(s, ok).1 == Retried ==>
      var t := s.queue[0].task;
      && s.queue[0].Job? && !ok && t.retryCount < s.maxRetries
      && Advance(s, ok).0 == s.(queue := s.queue[1..],
                                pending := s.pending + [PendingRetry(t.(retryCount := t.retryCount + 1), RetryDelay(t.retryCount + 1))])
    ensures Advance(s, ok).1 == Dropped ==>
      var t := s.queue[0].task;
      && s.queue[0].Job? && !ok && t.retryCount >= s.maxRetries
      && Advance(s, ok).0 == s.(queue := s.queue[1..], failed := s.failed + 1)
  {
  }

  /** Whether the head of the queue is a task that the transport's `reply`
      completes successfully. */
  predicate HeadSucceeds(s: SenderState, reply: Reply) {
    s.queue != [] && s.queue[0].Job? && Succeeded(s.queue[0].task.kind, reply)
  }

  /** One iteration of `_process_queue`: pop the head of the queue and
      execute it with the transport's `reply`. */
  function Step(s: SenderState, reply: Reply): (r: (SenderState, StepKind))
    ensures s.queue == [] <==> r.1 == Idle
    ensures s.queue != [] ==> r.0.queue == s.queue[1..]
    ensures r.1 == Sent ==> s.queue[0].Job? && Succeeded(s.queue[0].task.kind, reply)
    ensures r.1 == Retried || r.1 == Dropped ==> s.queue[0].Job? && !Succeeded(s.queue[0].task.kind, reply)
  {
    Advance(s, HeadSucceeds(s, reply))
  }

  /** The timer of pending retry `i` fires: its task goes to the back of the queue. */
  function FireRetrySpec(s: SenderState, i: nat): SenderState
    requires i < |s.pending|
  {
    s.(queue := s.queue + [Job(s.pending[i].task)], pending := s.pending[..i] + s.pending[i + 1..])
  }

  /** A timer firing moves exactly its own retry from the pending list to
      the back of the queue, and nothing else changes. */
  lemma FireRetryFacts(s: SenderState, i: nat)
    requires i < |s.pending|
    ensures FireRetrySpec(s, i).queue == s.queue + [Job(s.pending[i].task)]
    ensures |FireRetrySpec(s, i).pending| == |s.pending| - 1
    ensures multiset(FireRetrySpec(s, i).pending) + multiset{s.pending[i]} == multiset(s.pending)
    ensures FireRetrySpec(s, i).(queue := s.queue, pending := s.pending) == s
  {
    assert s.pending == s.pending[..i] + [s.pending[i]] + s.pending[i + 1..];
  }

  function Stops(n: nat): (r: seq<QueueItem>)
    ensures |r| == n && forall i :: 0 <= i < n ==> r[i] == Stop
  {
    seq(n, _ => Stop)
  }

  /** `start_workers`: only a stopped sender starts, with `maxWorkers` fresh workers. */
  function StartSpec(s: SenderState): (r: SenderState)
    ensures s.running ==> r == s
    ensures !s.running ==> r == s.(running := true, workers := s.workers + seq(s.maxWorkers, _ => true))
  {
    if s.running then s else s.(running := true, workers := s.workers + seq(s.maxWorkers, _ => true))
  }

  /** `stop_workers`: a running sender clears its flag, queues one stop
      signal per worker when asked to wait, and forgets its worker handles. */
  function StopSpec(s: SenderState, wait: bool): (r: SenderState)
    ensures s.running ==> !r.running && r.workers == []
    ensures s.running ==> r.queue == s.queue + (if wait then Stops(s.maxWorkers) else [])
    ensures !s.running ==> r == s
    ensures r.(queue := s.queue, running := s.running, workers := s.workers) == s
  {
    if !s.running then s
    else s.(running := false, workers := [], queue := s.queue + (if wait then Stops(s.maxWorkers) else []))
  }

  /** Number of live workers, `sum(1 for t in worker_threads if t.is_alive())`. */
  function CountAlive(workers: seq<bool>): (n: nat)
    ensures n <= |workers|
    ensures n > 0 <==> exists i :: 0 <= i < |workers| && workers[i]
  {
    if workers == [] then 0
    else (if workers[0] then 1 else 0) + CountAlive(workers[1..])
  }

  function StatsOf(s: SenderState): (r: Stats)
    ensures r.totalProcessed == r.sentCount + r.failedCount
    ensures r.sentCount == s.sent && r.failedCount == s.failed && r.queueSize == |s.queue|
    ensures r.activeWorkers <= |s.workers|
  {
    Stats(|s.queue|, s.sent, s.failed, s.sent + s.failed, CountAlive(s.workers))
  }

  // ------------------------------------ driving one task to its end

  /** Feed the judged attempts (`true` for a success) to successive
      iterations, letting each retry's timer fire as soon as it is scheduled.
      Returns the final state and how many delivery attempts were made. */
  function Deliver(s: SenderState, oks: seq<bool>): (SenderState, nat)
    decreases |oks|, 1
  {
    if oks == [] then (s, 0) else DeliverFirst(s, oks)
  }

  /** The first judged attempt, then the rest from the state it leaves. */
  function DeliverFirst(s: SenderState, oks: seq<bool>): (SenderState, nat)
    requires oks != []
    decreases |oks|, 0
  {
    var (n, k) := Advance(s, oks[0]);
    var m := if k == Retried then FireRetrySpec(n, |n.pending| - 1) else n;
    var rest := Deliver(m, oks[1..]);
    (rest.0, rest.1 + (if k == Sent || k == Retried || k == Dropped then 1 else 0))
  }

  /** Once the queue is empty nothing is attempted any more. */
  lemma {:induction false} DeliverEmpty(s: SenderState, oks: seq<bool>)
    requires s.queue == []
    ensures Deliver(s, oks) == (s, 0)
    decreases |oks|
  {
    if oks != [] {
      DeliverEmpty(s, oks[1..]);
    }
  }

  /** Attempts are consumed one after another. */
  lemma {:induction false} DeliverAppend(s: SenderState, a: seq<bool>, b: seq<bool>)
    ensures var m := Deliver(s, a);
            Deliver(s, a + b) == (Deliver(m.0, b).0, m.1 + Deliver(m.0, b).1)
    decreases |a|
  {
    if a == [] {
      assert a + b == b;
    } else {
      assert (a + b)[0] == a[0];
      assert (a + b)[1..] == a[1..] + b;
      assert Deliver(s, a) == DeliverFirst(s, a) && Deliver(s, a + b) == DeliverFirst(s, a + b);
      var (n, k) := Advance(s, a[0]);
      var m := if k == Retried then FireRetrySpec(n, |n.pending| - 1) else n;
      DeliverAppend(m, a[1..], b);
    }
  }

  /** A retried task, once its timer fires, is alone in the queue again
      with its retry count raised by one. */
  lemma RetryRequeues(s: SenderState, t: Task)
    requires s.queue == [Job(t)] && t.retryCount < s.maxRetries
    ensures var (n, k) := Advance(s, false);
            k == Retried && FireRetrySpec(n, |n.pending| - 1) == s.(queue := [Job(t.(retryCount := t.retryCount + 1))])
  {
    var (n, k) := Advance(s, false);
    assert n.pending[..|n.pending| - 1] == s.pending;
  }

  /** One failed attempt with retries left: the task is back, alone in the
      queue, with its retry count raised, and one attempt is counted. */
  lemma FailedAttempt(s: SenderState, t: Task, oks: seq<bool>)
    requires s.queue == [Job(t)] && oks != [] && !oks[0] && t.retryCount < s.maxRetries
    ensures var rest := Deliver(s.(queue := [Job(t.(retryCount := t.retryCount + 1))]), oks[1..]);
            Deliver(s, oks) == (rest.0, rest.1 + 1)
  {
    RetryRequeues(s, t);
    assert Deliver(s, oks) == DeliverFirst(s, oks);
  }

  /** The last failed attempt, with no retries left, counts the task failed. */
  lemma LastAttempt(s: SenderState, t: Task, oks: seq<bool>)
    requires s.queue == [Job(t)] && |oks| == 1 && !oks[0] && t.retryCount >= s.maxRetries
    ensures Deliver(s, oks) == (s.(queue := [], failed := s.failed + 1), 1)
  {
    assert oks[1..] == [];
    assert Deliver(s, oks) == DeliverFirst(s, oks);
  }

  /** A successful attempt counts the task sent and empties the queue. */
  lemma SuccessfulAttempt(s: SenderState, t: Task, oks: seq<bool>)
    requires s.queue == [Job(t)] && |oks| == 1 && oks[0]
    ensures Deliver(s, oks) == (s.(queue := [], sent := s.sent + 1), 1)
  {
    assert oks[1..] == [];
    assert Deliver(s, oks) == DeliverFirst(s, oks);
  }

  /** A task whose every attempt fails is attempted until its retries are
      used up, `maxRetries - retryCount + 1` times, and then counted failed
      exactly once and never sent. */
  lemma {:induction false} AlwaysFailing(s: SenderState, t: Task, oks: seq<bool>)
    requires s.queue == [Job(t)]
    requires t.retryCount <= s.maxRetries
    requires |oks| == s.maxRetries - t.retryCount + 1
    requires forall i :: 0 <= i < |oks| ==> !oks[i]
    ensures Deliver(s, oks) == (s.(queue := [], failed := s.failed + 1), |oks|)
    decreases |oks|
  {
    if t.retryCount < s.maxRetries {
      var t' := t.(retryCount := t.retryCount + 1);
      var m := s.(queue := [Job(t')]);
      FailedAttempt(s, t, oks);
      assert forall i :: 0 <= i < |oks[1..]| ==> oks[1..][i] == oks[i + 1];
      AlwaysFailing(m, t', oks[1..]);
      assert m.(queue := [], failed := m.failed + 1) == s.(queue := [], failed := s.failed + 1);
    } else {
      LastAttempt(s, t, oks);
    }
  }

  /** A fresh task that always fails is attempted `maxRetries + 1` times, and
      later attempts of nothing change nothing afterwards. */
  lemma FreshTaskAttempts(s: SenderState, t: Task, oks: seq<bool>, more: seq<bool>)
    requires s.queue == [Job(t)] && t.retryCount == 0
    requires |oks| == s.maxRetries + 1
    requires forall i :: 0 <= i < |oks| ==> !oks[i]
    ensures Deliver(s, oks + more) == (s.(queue := [], failed := s.failed + 1), s.maxRetries + 1)
  {
    AlwaysFailing(s, t, oks);
    DeliverAppend(s, oks, more);
    DeliverEmpty(s.(queue := [], failed := s.failed + 1), more);
  }

  /** A task that fails `k` times and then succeeds, with `k` within its
      remaining retries, is attempted `k + 1` times and counted sent once. */
  lemma {:induction false} SucceedsAfterFailures(s: SenderState, t: Task, oks: seq<bool>)
    requires s.queue == [Job(t)]
    requires |oks| >= 1 && t.retryCount + |oks| - 1 <= s.maxRetries
    requires forall i :: 0 <= i < |oks| - 1 ==> !oks[i]
    requires oks[|oks| - 1]
    ensures Deliver(s, oks) == (s.(queue := [], sent := s.sent + 1), |oks|)
    decreases |oks|
  {
    if |oks| == 1 {
      SuccessfulAttempt(s, t, oks);
    } else {
      var t' := t.(retryCount := t.retryCount + 1);
      var m := s.(queue := [Job(t')]);
      FailedAttempt(s, t, oks);
      assert forall i :: 0 <= i < |oks[1..]| ==> oks[1..][i] == oks[i + 1];
      SucceedsAfterFailures(m, t', oks[1..]);
      assert m.(queue := [], sent := m.sent + 1) == s.(queue := [], sent := s.sent + 1);
    }
  }

  // ------------------------------------------------- one worker's loop

  /** `_process_queue` for one worker: iterate while the sender runs and
      the queue holds something, until a stop signal is popped or the
      transport's replies run out (an empty queue makes the worker wait,
      which ends this model of its loop). Returns the final state, the
      number of replies consumed and whether a stop signal ended the loop. */
  function WorkerRun(s: SenderState, replies: seq<Reply>): (SenderState, nat, bool)
    decreases |replies|, 1
  {
    if !s.running || s.queue == [] then (s, 0, false)
    else if s.queue[0].Stop? then (s.(queue := s.queue[1..]), 0, true)
    else if replies == [] then (s, 0, false)
    else WorkerRunJob(s, replies)
  }

  /** A task at the head of the queue: execute it with the next reply, then
      go on from the new state. */
  function WorkerRunJob(s: SenderState, replies: seq<Reply>): (SenderState, nat, bool)
    requires replies != []
    decreases |replies|, 0
  {
    Consumed(WorkerRun(Step(s, replies[0]).0, replies[1..]), 1)
  }

  /** A run preceded by `n` consumed replies. */
  function Consumed(run: (SenderState, nat, bool), n: nat): (SenderState, nat, bool) {
    (run.0, run.1 + n, run.2)
  }

  /** A worker loop consumes at most the replies it is given; the counters
      only grow, by at most one per consumed reply; the configuration is
      untouched; a stopped sender does nothing. */
  lemma {:induction false} WorkerRunFacts(s: SenderState, replies: seq<Reply>)
    ensures var r := WorkerRun(s, replies);
      && r.1 <= |replies|
      && r.0.sent >= s.sent && r.0.failed >= s.failed
      && r.0.sent + r.0.failed <= s.sent + s.failed + r.1
      && r.0.running == s.running && r.0.workers == s.workers
      && r.0.maxWorkers == s.maxWorkers && r.0.maxRetries == s.maxRetries
      && (!s.running ==> r == (s, 0, false))
    decreases |replies|
  {
    if s.running && s.queue != [] && s.queue[0].Job? && replies != [] {
      var next := Step(s, replies[0]).0;
      assert WorkerRun(s, replies) == Consumed(WorkerRun(next, replies[1..]), 1) by {
        assert WorkerRun(s, replies) == WorkerRunJob(s, replies);
      }
      AdvanceFacts(s, HeadSucceeds(s, replies[0]));
      WorkerRunFacts(next, replies[1..]);
    }
  }

  /** Where a worker loop ends without consuming anything. */
  lemma WorkerRunIdle(s: SenderState, replies: seq<Reply>)
    requires !s.running || s.queue == [] || (s.queue[0].Job? && replies == [])
    ensures WorkerRun(s, replies) == (s, 0, false)
  {
  }

  /** A stop signal at the head ends the loop, popped. */
  lemma WorkerRunStops(s: SenderState, replies: seq<Reply>)
    requires s.running && s.queue != [] && s.queue[0].Stop?
    ensures WorkerRun(s, replies) == (s.(queue := s.queue[1..]), 0, true)
  {
  }

  /** A task at the head consumes one reply and goes on from the stepped state. */
  lemma WorkerRunSteps(s: SenderState, replies: seq<Reply>, next: SenderState)
    requires s.running && s.queue != [] && s.queue[0].Job? && replies != []
    requires next == Step(s, replies[0]).0
    ensures WorkerRun(s, replies) == Consumed(WorkerRun(next, replies[1..]), 1)
  {
    assert WorkerRun(s, replies) == WorkerRunJob(s, replies);
  }

  // ------------------------------------------------------- the sender

  class AsyncEmailSender {
    var queue: seq<QueueItem>
    var pending: seq<PendingRetry>
    var isRunning: bool
    var workers: seq<bool>
    const maxWorkers: nat
    const maxRetries: nat
    var sentCount: nat
    var failedCount: nat

    /** A running sender has exactly one handle per configured worker; a stopped one has none. */
    ghost predicate Valid()
      reads this
    {
      if isRunning then |workers| == maxWorkers else workers == []
    }

    function State(): SenderState
      reads this
    {
      SenderState(queue, pending, isRunning, workers, maxWorkers, maxRetries, sentCount, failedCount)
    }

    /** `__init__`: an empty queue, zeroed counters, and the workers started. */
    constructor (maxWorkers: nat, maxRetries: nat)
      ensures Valid()
      ensures State() == SenderState([], [], true, seq(maxWorkers, _ => true), maxWorkers, maxRetries, 0, 0)
    {
      this.maxWorkers := maxWorkers;
      this.maxRetries := maxRetries;
      queue, pending, isRunning, workers := [], [], false, [];
      sentCount, failedCount := 0, 0;
      new;
      StartWorkers();
    }

    method StartWorkers()
      requires Valid()
      modifies this
      ensures Valid()
      ensures State() == StartSpec(old(State()))
    {
      if !isRunning {
        isRunning := true;
        var i := 0;
        while i < maxWorkers
          invariant 0 <= i <= maxWorkers
          invariant State() == old(State()).(running := true, workers := old(workers) + seq(i, _ => true))
        {
          workers := workers + [true];
          i := i + 1;
        }
      }
    }

    /** `stop_workers(wait)`; joining the threads is not modelled. */
    method StopWorkers(wait: bool)
      requires Valid()
      modifies this
      ensures Valid()
      ensures State() == StopSpec(old(State()), wait)
    {
      if !isRunning {
        return;
      }
      isRunning := false;
      if wait {
        var i := 0;
        while i < maxWorkers
          invariant 0 <= i <= maxWorkers
          invariant State() == old(State()).(running := false, queue := old(queue) + Stops(i))
        {
          queue := queue + [Stop];
          i := i + 1;
        }
      }
      workers := [];
    }

    /** One iteration of a worker's loop; `reply` is what the transport does
        with the popped task (it is not used when the queue is empty or its
        head is a stop signal). */
    method ProcessOne(reply: Reply) returns (k: StepKind)
      requires Valid()
      modifies this
      ensures Valid()
      ensures (State(), k) == Step(old(State()), reply)
    {
      if queue == [] {
        return Idle;
      }
      var item := queue[0];
      queue := queue[1..];
      match item
      case Stop =>
        k := Stopped;
      case Job(t) =>
        var outcome := Execute(t.kind, reply);
        if Truthy(outcome.0) {
          sentCount := sentCount + 1;
          k := Sent;
        } else if t.retryCount < maxRetries {
          var next := t.retryCount + 1;
          pending := pending + [PendingRetry(t.(retryCount := next), RetryDelay(next))];
          k := Retried;
        } else {
          failedCount := failedCount + 1;
          k := Dropped;
        }
    }

    /** The timer of pending retry `i` fires and puts its task back on the queue. */
    method FireRetry(i: nat)
      requires Valid() && i < |pending|
      modifies this
      ensures Valid()
      ensures State() == FireRetrySpec(old(State()), i)
    {
      var retry := pending[i];
      pending := pending[..i] + pending[i + 1..];
      queue := queue + [Job(retry.task)];
    }

    /** Worker `i`'s thread has ended (it popped a stop signal, or saw the
        running flag cleared). */
    method WorkerExited(i: nat)
      requires Valid() && i < |workers|
      modifies this
      ensures Valid()
      ensures State() == old(State()).(workers := old(workers)[i := false])
    {
      workers := workers[i := false];
    }

    /** One worker's whole loop, fed with the transport's replies in order. */
    method RunWorker(replies: seq<Reply>) returns (consumed: nat, stopped: bool)
      requires Valid()
      modifies this
      ensures Valid()
      ensures (State(), consumed, stopped) == WorkerRun(old(State()), replies)
    {
      ghost var run := WorkerRun(State(), replies);
      consumed, stopped := 0, false;
      while isRunning && queue != [] && (queue[0].Stop? || consumed < |replies|)
        invariant Valid()
        invariant consumed <= |replies|
        invariant run == Consumed(WorkerRun(State(), replies[consumed..]), consumed)
        decreases |replies| - consumed
      {
        var reply := if consumed < |replies| then replies[consumed] else Returned(NoneValue);
        assert consumed < |replies| ==> replies[consumed..][1..] == replies[consumed + 1..];
        var k := Turn(replies[consumed..], reply);
        if k == Stopped {
          stopped := true;
          return;
        }
        consumed := consumed + 1;
      }
      WorkerRunIdle(State(), replies[consumed..]);
    }

    /** One pass of the worker loop over the remaining replies `rest`. */
    method Turn(ghost rest: seq<Reply>, reply: Reply) returns (k: StepKind)
      requires Valid() && isRunning && queue != []
      requires queue[0].Stop? || (rest != [] && reply == rest[0])
      modifies this
      ensures Valid()
      ensures k == Stopped ==> WorkerRun(old(State()), rest) == (State(), 0, true)
      ensures k != Stopped ==> rest != [] && WorkerRun(old(State()), rest) == Consumed(WorkerRun(State(), rest[1..]), 1)
    {
      ghost var before := State();
      k := ProcessOne(reply);
      AdvanceFacts(before, HeadSucceeds(before, reply));
      if k == Stopped {
        WorkerRunStops(before, rest);
      } else {
        WorkerRunSteps(before, rest, State());
      }
    }

    /** After `put`, the log line counts truthy attachments with `len`;
        where that raises, the call answers with the error's text although
        the task is already queued. */
    static method Logged(attachments: Value) returns (accepted: bool, message: string)
      ensures accepted <==> Countable(attachments)
      ensures message == (if accepted then QueuedMessage else NoLenError(attachments))
    {
      if Truthy(attachments) && Len(attachments).None? {
        return false, NoLenError(attachments);
      }
      return true, QueuedMessage;
    }

    /** `send_backup_notification_async`: queue a backup notification. */
    method SendBackupNotificationAsync(toEmail: Value, backupType: Value, backupInfo: Value, fileSize: Value,
                                       duration: Value, useDefaultRecipients: bool, attachments: Value,
                                       kwargs: seq<(string, Value)>)
      returns (accepted: bool, message: string)
      requires Valid()
      modifies this
      ensures Valid()
      ensures accepted <==> Countable(attachments)
      ensures message == (if accepted then QueuedMessage else NoLenError(attachments))
      ensures State() == old(State()).(queue := old(queue) + [Job(Task("backup",
                [toEmail, backupType, backupInfo, fileSize, duration, Bool(useDefaultRecipients)],
                kwargs + AttachmentsKwarg(attachments), 0))])
    {
      var kw := kwargs + AttachmentsKwarg(attachments);
      var args := [toEmail, backupType, backupInfo, fileSize, duration, Bool(useDefaultRecipients)];
      queue := queue + [Job(Task("backup", args, kw, 0))];
      accepted, message := Logged(attachments);
    }

    /** `send_error_notification_async`: queue an error notification. */
    method SendErrorNotificationAsync(toEmail: Value, errorType: Value, errorMessage: Value, errorDetails: Value,
                                      solution: Value, useDefaultRecipients: bool, attachments: Value,
                                      kwargs: seq<(string, Value)>)
      returns (accepted: bool, message: string)
      requires Valid()
      modifies this
      ensures Valid()
      ensures accepted <==> Countable(attachments)
      ensures message == (if accepted then QueuedMessage else NoLenError(attachments))
      ensures State() == old(State()).(queue := old(queue) + [Job(Task("error",
                [toEmail, errorType, errorMessage, errorDetails, solution, Bool(useDefaultRecipients)],
                kwargs + AttachmentsKwarg(attachments), 0))])
    {
      var kw := kwargs + AttachmentsKwarg(attachments);
      var args := [toEmail, errorType, errorMessage, errorDetails, solution, Bool(useDefaultRecipients)];
      queue := queue + [Job(Task("error", args, kw, 0))];
      accepted, message := Logged(attachments);
    }

    /** `send_custom_notification_async`: queue a custom notification. */
    method SendCustomNotificationAsync(toEmail: Value, notificationType: Value, title: Value, message': Value,
                                       details: Value, priority: Value, useDefaultRecipients: bool,
                                       attachments: Value, kwargs: seq<(string, Value)>)
      returns (accepted: bool, message: string)
      requires Valid()
      modifies this
      ensures Valid()
      ensures accepted <==> Countable(attachments)
      ensures message == (if accepted then QueuedMessage else NoLenError(attachments))
      ensures State() == old(State()).(queue := old(queue) + [Job(Task("custom",
                [toEmail, notificationType, title, message', details, priority, Bool(useDefaultRecipients)],
                kwargs + AttachmentsKwarg(attachments), 0))])
    {
      var kw := kwargs + AttachmentsKwarg(attachments);
      var args := [toEmail, notificationType, title, message', details, priority, Bool(useDefaultRecipients)];
      queue := queue + [Job(Task("custom", args, kw, 0))];
      accepted, message := Logged(attachments);
    }

    /** `send_email_async`: queue a direct email; attachments stay positional. */
    method SendEmailAsync(toEmail: Value, subject: Value, content: Value, contentType: Value, attachments: Value,
                          ccEmails: Value, bccEmails: Value, useDefaultRecipients: bool,
                          kwargs: seq<(string, Value)>)
      returns (accepted: bool, message: string)
      requires Valid()
      modifies this
      ensures Valid()
      ensures accepted <==> Countable(attachments)
      ensures message == (if accepted then QueuedMessage else NoLenError(attachments))
      ensures State() == old(State()).(queue := old(queue) + [Job(Task("direct",
                [toEmail, subject, content, contentType, attachments, ccEmails, bccEmails, Bool(useDefaultRecipients)],
                kwargs, 0))])
    {
      var args := [toEmail, subject, content, contentType, attachments, ccEmails, bccEmails, Bool(useDefaultRecipients)];
      queue := queue + [Job(Task("direct", args, kwargs, 0))];
      accepted, message := Logged(attachments);
    }

    /** `get_stats`. */
    method GetStats() returns (stats: Stats)
      ensures stats.totalProcessed == stats.sentCount + stats.failedCount
      ensures stats.sentCount == sentCount && stats.failedCount == failedCount
      ensures stats.queueSize == |queue|
      ensures stats.activeWorkers <= |workers|
      ensures stats.activeWorkers > 0 <==> exists i :: 0 <= i < |workers| && workers[i]
    {
      stats := Stats(|queue|, sentCount, failedCount, sentCount + failedCount, CountAlive(workers));
    }

    /** `is_active`: running, with at least one live worker. */
    method IsActive() returns (active: bool)
      ensures active <==> isRunning && exists i :: 0 <= i < |workers| && workers[i]
      ensures active ==> StatsOf(State()).activeWorkers > 0
    {
      active := isRunning && true in workers;
    }
  }

  /** The module-level `_async_email_sender` and its two accessors. */
  class SenderRegistry {
    var instance: AsyncEmailSender?

    ghost predicate Valid()
      reads this, instance
    {
      instance != null ==> instance.Valid()
    }

    constructor ()
      ensures Valid() && instance == null
    {
      instance := null;
    }

    /** `get_async_email_sender`: the existing sender, or a new one with the
        default pool size and retry limit. */
    method GetSender() returns (sender: AsyncEmailSender)
      requires Valid()
      modifies this
      ensures Valid()
      ensures instance == sender
      ensures old(instance) != null ==> sender == old(instance) && sender.State() == old(sender.State())
      ensures old(instance) == null ==> fresh(sender)
      ensures old(instance) == null ==>
        sender.State() == SenderState([], [], true, seq(DefaultMaxWorkers, _ => true), DefaultMaxWorkers, DefaultMaxRetries, 0, 0)
    {
      if instance == null {
        instance := new AsyncEmailSender(DefaultMaxWorkers, DefaultMaxRetries);
      }
      sender := instance;
    }

    /** `shutdown_async_email_sender`: stop the sender and forget it. */
    method Shutdown(wait: bool)
      requires Valid()
      modifies this, instance
      ensures Valid() && instance == null
      ensures old(instance) != null ==>
        old(instance).Valid() && old(instance).State() == StopSpec(old(instance.State()), wait)
    {
      if instance != null {
        instance.StopWorkers(wait);
        instance := null;
      }
    }
  }

  /** A client of the registry: after a shutdown the next access starts a
      new sender whose counters are zero, and the old one is inactive. */
  method ShutdownThenRestart(registry: SenderRegistry)
    requires registry.Valid()
    modifies registry, registry.instance
  {
    var first := registry.GetSender();
    var again := registry.GetSender();
    assert again == first;
    registry.Shutdown(true);
    var active := first.IsActive();
    assert !active;
    var second := registry.GetSender();
    assert second != first;
    var stats := second.GetStats();
    assert stats.sentCount == 0 && stats.failedCount == 0;
  }
}

/**
 * The post-start provisioning sequence of CouchbaseServerBuilder.cs as pure functions
 * of an exec oracle: one attempt of each step, the bounded retry, and the three-step
 * pipeline. The methods in module Startup are proved to behave exactly like these.
 */
module Provisioning {

  import opened Wrappers
  import opened Buckets
  import opened Configurations
  import opened Commands

  /** What `ExecAsync` reports for a command that ran. A null Stdout or Stderr is written "". */
  datatype ExecResult = ExecResult(exitCode: int, stdout: string, stderr: string)

  /** One exec call: the command ran, or the call itself threw (transport fault, cancellation). */
  datatype ExecOutcome = Completed(result: ExecResult) | Faulted(reason: string)

  /** What the outside world sees: an exec call with its argv, or a `Task.Delay` of some seconds. */
  datatype Event = Exec(argv: Argv) | Wait(seconds: nat)

  /** `ExecAsync` as an oracle: the answer may depend on everything that happened before. */
  type Oracle = (seq<Event>, Argv) -> ExecOutcome

  /** The exception a step throws: the InvalidOperationException it raises, or the exec fault. */
  datatype Error = CommandFailed(message: string) | ExecFaulted(reason: string)

  datatype Outcome = Pass | Fail(error: Error)

  /** The outcome of some activity and the events it produced, in order. */
  datatype Run = Run(outcome: Outcome, events: seq<Event>)

  /** The three steps, named after the couchbase-cli action each runs. */
  datatype Step = ClusterInit | BucketCreate | UserManage

  const RetryDelaySeconds: nat := 5
  const StepRetryCount: nat := 3

  /**
   * The rule shared by the three steps: exit code 0 succeeds; any other exit code fails
   * with Stderr as the message, or Stdout when Stderr is empty.
   */
  function CheckExit(o: ExecOutcome): (r: Outcome)
    ensures r.Pass? <==> o.Completed? && o.result.exitCode == 0
    ensures o.Completed? && o.result.exitCode != 0 && o.result.stderr != ""
            ==> r == Fail(CommandFailed(o.result.stderr))
    ensures o.Completed? && o.result.exitCode != 0 && o.result.stderr == ""
            ==> r == Fail(CommandFailed(o.result.stdout))
    ensures o.Faulted? ==> r == Fail(ExecFaulted(o.reason))
  {
    match o
    case Faulted(reason) => Fail(ExecFaulted(reason))
    case Completed(res) =>
      if res.exitCode == 0 then Pass
      else Fail(CommandFailed(if res.stderr == "" then res.stdout else res.stderr))
  }

  /** Which step a command belongs to, read off its couchbase-cli action. */
  function StepOf(argv: Argv): Option<Step> {
    if |argv| < 2 then None
    else if argv[1] == Some("cluster-init") then Some(ClusterInit)
    else if argv[1] == Some("bucket-create") then Some(BucketCreate)
    else if argv[1] == Some("user-manage") then Some(UserManage)
    else None
  }

  predicate OfStep(e: Event, step: Step) {
    e.Exec? && StepOf(e.argv) == Some(step)
  }

  function Rank(step: Step): nat {
    match step
    case ClusterInit => 0
    case BucketCreate => 1
    case UserManage => 2
  }

  function ExecOnce(argv: Argv, respond: Oracle, h: seq<Event>): Run {
    Run(CheckExit(respond(h, argv)), [Exec(argv)])
  }

  /** One bucket-create command per bucket, in list order. */
  function BucketCommands(f: ServerFields, bs: seq<Bucket>): (es: seq<Event>)
    ensures |es| == |bs|
  {
    seq(|bs|, j requires 0 <= j < |bs| => Exec(BucketCreateArgv(f, bs[j])))
  }

  /** The `foreach` of CreateBuckets: create each bucket in turn, stop at the first failure. */
  function CreateEach(f: ServerFields, bs: seq<Bucket>, respond: Oracle, h: seq<Event>): Run
    decreases |bs|
  {
    if bs == [] then Run(Pass, [])
    else
      var first := ExecOnce(BucketCreateArgv(f, bs[0]), respond, h);
      if first.outcome.Fail? then first
      else
        var rest := CreateEach(f, bs[1..], respond, h + first.events);
        Run(rest.outcome, first.events + rest.events)
  }

  /** One call of CreateCluster, CreateBuckets or ConfigureSyncGatewayUser after history `h`. */
  function Attempt(step: Step, f: ServerFields, respond: Oracle, h: seq<Event>): Run {
    match step
    case ClusterInit => ExecOnce(ClusterInitArgv(f), respond, h)
    case BucketCreate =>
      if f.buckets.None? then Run(Pass, []) else CreateEach(f, f.buckets.value, respond, h)
    case UserManage => ExecOnce(UserManageArgv(f), respond, h)
  }

  /** The events of some attempts, each followed by the retry delay. */
  function Separated(ts: seq<Run>): seq<Event>
    decreases |ts|
  {
    if ts == [] then [] else ts[0].events + [Wait(RetryDelaySeconds)] + Separated(ts[1..])
  }

  /** The `func` TryInvoke is handed: one call, as a function of everything that happened before it. */
  type Action = seq<Event> -> Run

  /** One call of the method of `step`, on a builder whose server fields are `f`. */
  function StepAction(step: Step, f: ServerFields, respond: Oracle): Action {
    (h: seq<Event>) => Attempt(step, f, respond, h)
  }

  /** The attempts `TryInvoke(func, retryCount)` makes, in order. */
  function Attempts(func: Action, h: seq<Event>, retryCount: nat): (ts: seq<Run>)
    ensures 1 <= |ts| <= retryCount + 1
    decreases retryCount
  {
    var t := func(h);
    if t.outcome.Pass? || retryCount == 0 then [t]
    else [t] + Attempts(func, h + t.events + [Wait(RetryDelaySeconds)], retryCount - 1)
  }

  /** Attempts seen as one run: the last attempt decides; a delay separates consecutive attempts. */
  function Combined(ts: seq<Run>): Run
    requires ts != []
  {
    Run(ts[|ts| - 1].outcome, Separated(ts[..|ts| - 1]) + ts[|ts| - 1].events)
  }

  /** `TryInvoke`: its attempts, seen as one run. */
  function Retry(func: Action, h: seq<Event>, retryCount: nat): Run {
    Combined(Attempts(func, h, retryCount))
  }

  /** Putting one more attempt in front adds its events and a delay, and does not change the outcome. */
  lemma CombinedCons(t: Run, rs: seq<Run>)
    requires rs != []
    ensures Combined([t] + rs).outcome == Combined(rs).outcome
    ensures Combined([t] + rs).events == t.events + [Wait(RetryDelaySeconds)] + Combined(rs).events
  {
    var ts := [t] + rs;
    assert ts[|ts| - 1] == rs[|rs| - 1];
    assert ts[..|ts| - 1] == [t] + rs[..|rs| - 1];
    assert ([t] + rs[..|rs| - 1])[1..] == rs[..|rs| - 1];
  }

  /** Three actions, each retried `StepRetryCount` times, in order; a failure ends the sequence. */
  function InSequence(first: Action, second: Action, third: Action, h: seq<Event>): Run {
    var c := Retry(first, h, StepRetryCount);
    if c.outcome.Fail? then c
    else
      var b := Retry(second, h + c.events, StepRetryCount);
      if b.outcome.Fail? then Run(b.outcome, c.events + b.events)
      else
        var u := Retry(third, h + c.events + b.events, StepRetryCount);
        Run(u.outcome, c.events + b.events + u.events)
  }

  /** `OnContainerStartingAsync`: cluster-init, the buckets, then the Sync Gateway user. */
  function Provision(f: ServerFields, respond: Oracle, h: seq<Event>): Run {
    InSequence(StepAction(ClusterInit, f, respond), StepAction(BucketCreate, f, respond), StepAction(UserManage, f, respond), h)
  }

  // ---------------------------------------------------------------- counting events

  function Waits(es: seq<Event>): nat
    decreases |es|
  {
    if es == [] then 0 else (if es[0].Wait? then 1 else 0) + Waits(es[1..])
  }

  function Execs(es: seq<Event>): nat
    decreases |es|
  {
    if es == [] then 0 else (if es[0].Exec? then 1 else 0) + Execs(es[1..])
  }

  lemma {:induction false} CountsAppend(a: seq<Event>, b: seq<Event>)
    ensures Waits(a + b) == Waits(a) + Waits(b)
    ensures Execs(a + b) == Execs(a) + Execs(b)
    decreases |a|
  {
    if a == [] {
      assert a + b == b;
    } else {
      CountsAppend(a[1..], b);
      assert (a + b)[0] == a[0];
      assert (a + b)[1..] == a[1..] + b;
    }
  }

  lemma {:induction false} NoWaitsAmongExecs(es: seq<Event>)
    requires forall e :: e in es ==> e.Exec?
    ensures Waits(es) == 0 && Execs(es) == |es|
    decreases |es|
  {
    if es != [] {
      assert es[0] in es;
      assert forall e :: e in es[1..] ==> e in es;
      NoWaitsAmongExecs(es[1..]);
    }
  }

  // ---------------------------------------------------------------- one attempt

  /** The answer the `j`-th event of `es` gets when `es` runs after history `h`; a delay always passes. */
  function ReplyTo(respond: Oracle, h: seq<Event>, es: seq<Event>, j: nat): Outcome
    requires j < |es|
  {
    match es[j]
    case Exec(argv) => CheckExit(respond(h + es[..j], argv))
    case Wait(_) => Pass
  }

  lemma ReplyToShift(respond: Oracle, h: seq<Event>, x: Event, es: seq<Event>, j: nat)
    requires j < |es|
    ensures ReplyTo(respond, h, [x] + es, j + 1) == ReplyTo(respond, h + [x], es, j)
  {
    assert ([x] + es)[..j + 1] == [x] + es[..j];
    assert h + ([x] + es[..j]) == h + [x] + es[..j];
    assert ([x] + es)[j + 1] == es[j];
  }

  /**
   * One CreateBuckets pass over `bs` issues a prefix of the bucket-create commands, in
   * list order, and all of them when it succeeds.
   */
  lemma {:induction false} CreateEachIssuesPrefix(f: ServerFields, bs: seq<Bucket>, respond: Oracle, h: seq<Event>)
    ensures CreateEach(f, bs, respond, h).events <= BucketCommands(f, bs)
    ensures CreateEach(f, bs, respond, h).outcome.Pass? ==> CreateEach(f, bs, respond, h).events == BucketCommands(f, bs)
    decreases |bs|
  {
    if bs != [] {
      var argv := BucketCreateArgv(f, bs[0]);
      var first := ExecOnce(argv, respond, h);
      assert BucketCommands(f, bs) == [Exec(argv)] + BucketCommands(f, bs[1..]);
      if first.outcome.Pass? {
        CreateEachIssuesPrefix(f, bs[1..], respond, h + first.events);
      }
    }
  }

  /** The pass stops at the first bucket whose command fails, with that command's failure. */
  lemma {:induction false} CreateEachFailsAtLast(f: ServerFields, bs: seq<Bucket>, respond: Oracle, h: seq<Event>)
    ensures var t := CreateEach(f, bs, respond, h);
      t.outcome.Fail? ==> t.events != [] && t.outcome == ReplyTo(respond, h, t.events, |t.events| - 1)
    decreases |bs|
  {
    var t := CreateEach(f, bs, respond, h);
    if bs != [] && t.outcome.Fail? {
      var argv := BucketCreateArgv(f, bs[0]);
      var first := ExecOnce(argv, respond, h);
      if first.outcome.Pass? {
        var h' := h + first.events;
        var rest := CreateEach(f, bs[1..], respond, h');
        CreateEachFailsAtLast(f, bs[1..], respond, h');
        assert t.events == [Exec(argv)] + rest.events;
        ReplyToShift(respond, h, Exec(argv), rest.events, |rest.events| - 1);
      } else {
        assert t.events[..0] == [] && h + [] == h;
      }
    }
  }

  /** Every bucket the pass moved past was created: its command's exec passed. */
  lemma {:induction false} CreateEachEarlierPassed(f: ServerFields, bs: seq<Bucket>, respond: Oracle, h: seq<Event>, j: nat)
    requires j < |CreateEach(f, bs, respond, h).events|
    requires j < |CreateEach(f, bs, respond, h).events| - 1 || CreateEach(f, bs, respond, h).outcome.Pass?
    ensures ReplyTo(respond, h, CreateEach(f, bs, respond, h).events, j).Pass?
    decreases |bs|
  {
    var t := CreateEach(f, bs, respond, h);
    var argv := BucketCreateArgv(f, bs[0]);
    var first := ExecOnce(argv, respond, h);
    if first.outcome.Pass? {
      var h' := h + first.events;
      var rest := CreateEach(f, bs[1..], respond, h');
      assert t.events == [Exec(argv)] + rest.events;
      if j == 0 {
        assert h + t.events[..0] == h;
      } else {
        CreateEachEarlierPassed(f, bs[1..], respond, h', j - 1);
        ReplyToShift(respond, h, Exec(argv), rest.events, j - 1);
      }
    }
  }

  /** Every event of an attempt is an exec of the step's own command. */
  lemma AttemptIssuesOnlyItsCommands(step: Step, f: ServerFields, respond: Oracle, h: seq<Event>)
    ensures forall e :: e in Attempt(step, f, respond, h).events ==> OfStep(e, step)
  {
    match step
    case ClusterInit =>
      assert StepOf(ClusterInitArgv(f)) == Some(ClusterInit);
    case UserManage =>
      assert StepOf(UserManageArgv(f)) == Some(UserManage);
    case BucketCreate =>
      if f.buckets.Some? {
        var bs := f.buckets.value;
        CreateEachIssuesPrefix(f, bs, respond, h);
        var es := CreateEach(f, bs, respond, h).events;
        forall e | e in es ensures OfStep(e, BucketCreate) {
          var j :| 0 <= j < |es| && es[j] == e;
          assert e == BucketCommands(f, bs)[j];
          assert StepOf(BucketCreateArgv(f, bs[j])) == Some(BucketCreate);
        }
      }
  }

  /** Every event of every call of `func` is a command of `step`. */
  ghost predicate IssuesOnly(func: Action, step: Step) {
    forall h: seq<Event>, e: Event :: e in func(h).events ==> OfStep(e, step)
  }

  lemma StepActionIssuesOnly(step: Step, f: ServerFields, respond: Oracle)
    ensures IssuesOnly(StepAction(step, f, respond), step)
  {
    forall h: seq<Event>, e: Event | e in StepAction(step, f, respond)(h).events ensures OfStep(e, step) {
      AttemptIssuesOnlyItsCommands(step, f, respond, h);
    }
  }

  // ---------------------------------------------------------------- the retry

  /**
   * TryInvoke stops at the first attempt that succeeds: every attempt before the last
   * failed, and the last one fails only when all `retryCount + 1` attempts were spent.
   */
  lemma {:induction false} AttemptsStopAtFirstSuccess(func: Action, h: seq<Event>, n: nat)
    ensures var ts := Attempts(func, h, n);
      (forall i :: 0 <= i < |ts| - 1 ==> ts[i].outcome.Fail?)
      && (ts[|ts| - 1].outcome.Fail? ==> |ts| == n + 1)
    decreases n
  {
    var t := func(h);
    if t.outcome.Fail? && n > 0 {
      AttemptsStopAtFirstSuccess(func, h + t.events + [Wait(RetryDelaySeconds)], n - 1);
    }
  }

  /**
   * Each retry calls `func` afresh: attempt `i` is a whole call, made after everything
   * before it (the earlier attempts and their delays).
   */
  lemma {:induction false} AttemptsRestart(func: Action, h: seq<Event>, n: nat, i: nat)
    requires i < |Attempts(func, h, n)|
    ensures Attempts(func, h, n)[i] == func(h + Separated(Attempts(func, h, n)[..i]))
    decreases n
  {
    var ts := Attempts(func, h, n);
    var t := func(h);
    if i == 0 {
      assert ts[..0] == [] && h + Separated([]) == h;
    } else {
      var h' := h + t.events + [Wait(RetryDelaySeconds)];
      var rest := Attempts(func, h', n - 1);
      assert ts == [t] + rest;
      AttemptsRestart(func, h', n - 1, i - 1);
      assert ts[..i] == [t] + rest[..i - 1];
      assert ([t] + rest[..i - 1])[1..] == rest[..i - 1];
      assert h + Separated(ts[..i]) == h' + Separated(rest[..i - 1]);
    }
  }

  lemma {:induction false} SeparatedCounts(ts: seq<Run>)
    requires forall i :: 0 <= i < |ts| ==> forall e :: e in ts[i].events ==> e.Exec?
    ensures Waits(Separated(ts)) == |ts|
    decreases |ts|
  {
    if ts != [] {
      NoWaitsAmongExecs(ts[0].events);
      SeparatedCounts(ts[1..]);
      CountsAppend(ts[0].events, [Wait(RetryDelaySeconds)]);
      CountsAppend(ts[0].events + [Wait(RetryDelaySeconds)], Separated(ts[1..]));
    }
  }

  lemma {:induction false} SeparatedMembers(ts: seq<Run>, e: Event)
    requires e in Separated(ts)
    ensures e == Wait(RetryDelaySeconds) || exists i :: 0 <= i < |ts| && e in ts[i].events
    decreases |ts|
  {
    if ts != [] && e !in ts[0].events && e != Wait(RetryDelaySeconds) {
      SeparatedMembers(ts[1..], e);
      if e in Separated(ts[1..]) {
        var i :| 0 <= i < |ts[1..]| && e in ts[1..][i].events;
        assert e in ts[i + 1].events;
      }
    }
  }

  /**
   * The retry as a whole: the outcome is the last attempt's, exactly one 5-second delay
   * follows each failed attempt that is retried (so `n` of them when the failure is
   * surfaced), and everything else it does is the step's own command.
   */
  lemma RetryWaitsOnlyBetweenAttempts(func: Action, step: Step, h: seq<Event>, n: nat)
    requires IssuesOnly(func, step)
    ensures var ts := Attempts(func, h, n);
      var run := Retry(func, h, n);
      run.outcome == ts[|ts| - 1].outcome
      && Waits(run.events) == |ts| - 1
      && (run.outcome.Fail? ==> Waits(run.events) == n)
      && (forall e :: e in run.events ==> e == Wait(RetryDelaySeconds) || OfStep(e, step))
  {
    var ts := Attempts(func, h, n);
    var run := Retry(func, h, n);
    var last := ts[|ts| - 1];
    AttemptsStopAtFirstSuccess(func, h, n);
    forall i | 0 <= i < |ts| ensures forall e :: e in ts[i].events ==> e.Exec? && OfStep(e, step) {
      AttemptsRestart(func, h, n, i);
      var hi := h + Separated(ts[..i]);
      assert forall e :: e in func(hi).events ==> OfStep(e, step);
    }
    SeparatedCounts(ts[..|ts| - 1]);
    NoWaitsAmongExecs(last.events);
    CountsAppend(Separated(ts[..|ts| - 1]), last.events);
    forall e | e in run.events ensures e == Wait(RetryDelaySeconds) || OfStep(e, step) {
      if e !in last.events {
        SeparatedMembers(ts[..|ts| - 1], e);
      }
    }
  }

  /** A failed first attempt with retries left: the delay, then the retry with one fewer. */
  lemma RetryUnfold(func: Action, h: seq<Event>, n: nat)
    requires n > 0
    requires func(h).outcome.Fail?
    ensures var h' := h + func(h).events + [Wait(RetryDelaySeconds)];
      var rest := Retry(func, h', n - 1);
      Retry(func, h, n).outcome == rest.outcome
      && h + Retry(func, h, n).events == h' + rest.events
  {
    var t := func(h);
    var h' := h + t.events + [Wait(RetryDelaySeconds)];
    var rs := Attempts(func, h', n - 1);
    assert Attempts(func, h, n) == [t] + rs;
    CombinedCons(t, rs);
  }

  /** An attempt that succeeds, or the last one allowed, is the whole retry. */
  lemma RetryStops(func: Action, h: seq<Event>, n: nat)
    requires func(h).outcome.Pass? || n == 0
    ensures Retry(func, h, n) == func(h)
  {
    assert Attempts(func, h, n) == [func(h)];
    assert Separated([]) == [];
  }

  /** How three retries in sequence are made up, one retry at a time. */
  lemma InSequenceSteps(first: Action, second: Action, third: Action, h: seq<Event>)
    ensures var c := Retry(first, h, StepRetryCount);
      var b := Retry(second, h + c.events, StepRetryCount);
      var u := Retry(third, h + c.events + b.events, StepRetryCount);
      var p := InSequence(first, second, third, h);
      (c.outcome.Fail? ==> p == c)
      && (c.outcome.Pass? && b.outcome.Fail? ==> p.outcome == b.outcome && h + p.events == h + c.events + b.events)
      && (c.outcome.Pass? && b.outcome.Pass? ==> p.outcome == u.outcome && h + p.events == h + c.events + b.events + u.events)
  {
    var c := Retry(first, h, StepRetryCount);
    var b := Retry(second, h + c.events, StepRetryCount);
    var u := Retry(third, h + c.events + b.events, StepRetryCount);
    assert h + (c.events + b.events) == h + c.events + b.events;
    assert h + (c.events + b.events + u.events) == h + c.events + b.events + u.events;
  }

  /**
   * TryInvoke returns normally exactly when some attempt succeeded; otherwise all
   * `n + 1` attempts failed and the last failure is the one rethrown.
   */
  lemma RetrySurfacesLastFailure(func: Action, h: seq<Event>, n: nat)
    ensures var ts := Attempts(func, h, n);
      var run := Retry(func, h, n);
      (run.outcome.Pass? <==> exists i :: 0 <= i < |ts| && ts[i].outcome.Pass?)
      && (run.outcome.Fail? ==> |ts| == n + 1 && run.outcome == ts[n].outcome)
  {
    AttemptsStopAtFirstSuccess(func, h, n);
  }

  // ---------------------------------------------------------------- scenarios of the retry

  function Min(a: nat, b: nat): nat {
    if a <= b then a else b
  }

  /** An exec that fails with `failure` for the first `k` calls overall and succeeds afterwards. */
  function FailFirst(k: nat, failure: ExecResult): Oracle {
    (h: seq<Event>, argv: Argv) => if Execs(h) < k then Completed(failure) else Completed(ExecResult(0, "", ""))
  }

  /** The steps that issue exactly one command per attempt. */
  predicate SingleCommand(step: Step) {
    step == ClusterInit || step == UserManage
  }

  lemma SingleCommandAttempt(step: Step, f: ServerFields, respond: Oracle, h: seq<Event>)
    requires SingleCommand(step)
    ensures var t := Attempt(step, f, respond, h);
      |t.events| == 1 && t.events[0].Exec? && t.outcome == CheckExit(respond(h, t.events[0].argv))
  {
  }

  /**
   * A `func` that issues exactly one command per call, and fails with `failed` while fewer
   * than `k` commands have run and succeeds afterwards.
   */
  ghost predicate OneCommandFailingFirst(func: Action, k: nat, failed: Outcome) {
    forall h: seq<Event> ::
      |func(h).events| == 1 && func(h).events[0].Exec? && func(h).outcome == (if Execs(h) < k then failed else Pass)
  }

  lemma SingleCommandFailsFirst(step: Step, f: ServerFields, k: nat, failure: ExecResult)
    requires SingleCommand(step)
    ensures OneCommandFailingFirst(StepAction(step, f, FailFirst(k, failure)), k, CheckExit(Completed(failure)))
  {
    var respond := FailFirst(k, failure);
    forall h: seq<Event> ensures var t := StepAction(step, f, respond)(h);
      |t.events| == 1 && t.events[0].Exec? && t.outcome == (if Execs(h) < k then CheckExit(Completed(failure)) else Pass)
    {
      SingleCommandAttempt(step, f, respond, h);
    }
  }

  /**
   * Against `k` more failures, a one-command action is attempted `min(k, n) + 1` times and
   * succeeds exactly when `k <= n`.
   */
  lemma {:induction false} FlakyAttempts(func: Action, k: nat, failed: Outcome, h: seq<Event>, n: nat)
    requires failed.Fail? && OneCommandFailingFirst(func, k, failed)
    requires Execs(h) <= k
    ensures |Attempts(func, h, n)| == Min(k - Execs(h), n) + 1
    ensures Attempts(func, h, n)[Min(k - Execs(h), n)].outcome == (if k - Execs(h) <= n then Pass else failed)
    decreases n
  {
    var t := func(h);
    if Execs(h) < k && n > 0 {
      var h' := h + t.events + [Wait(RetryDelaySeconds)];
      CountsAppend(h, t.events);
      CountsAppend(h + t.events, [Wait(RetryDelaySeconds)]);
      assert Execs(t.events) == 1 by { NoWaitsAmongExecs(t.events); }
      assert Execs([Wait(RetryDelaySeconds)]) == 0 by { assert [Wait(RetryDelaySeconds)][1..] == []; }
      FlakyAttempts(func, k, failed, h', n - 1);
    }
  }

  lemma {:induction false} SeparatedExecs(ts: seq<Run>)
    requires forall i :: 0 <= i < |ts| ==> |ts[i].events| == 1 && ts[i].events[0].Exec?
    ensures Execs(Separated(ts)) == |ts|
    decreases |ts|
  {
    if ts != [] {
      assert Execs(ts[0].events) == 1 by { NoWaitsAmongExecs(ts[0].events); }
      assert Execs([Wait(RetryDelaySeconds)]) == 0 by { assert [Wait(RetryDelaySeconds)][1..] == []; }
      SeparatedExecs(ts[1..]);
      CountsAppend(ts[0].events, [Wait(RetryDelaySeconds)]);
      CountsAppend(ts[0].events + [Wait(RetryDelaySeconds)], Separated(ts[1..]));
    }
  }

  /** A retry of a single-command step runs its command once per attempt, with a delay between attempts. */
  lemma SingleCommandRetryCounts(step: Step, f: ServerFields, respond: Oracle, h: seq<Event>, n: nat)
    requires SingleCommand(step)
    ensures Execs(Retry(StepAction(step, f, respond), h, n).events) == |Attempts(StepAction(step, f, respond), h, n)|
  {
    var ts := Attempts(StepAction(step, f, respond), h, n);
    forall i | 0 <= i < |ts| ensures |ts[i].events| == 1 && ts[i].events[0].Exec? {
      AttemptsRestart(StepAction(step, f, respond), h, n, i);
      SingleCommandAttempt(step, f, respond, h + Separated(ts[..i]));
    }
    SeparatedExecs(ts[..|ts| - 1]);
    NoWaitsAmongExecs(ts[|ts| - 1].events);
    CountsAppend(Separated(ts[..|ts| - 1]), ts[|ts| - 1].events);
  }

  /**
   * The retry of cluster-init or of the Sync Gateway user against an exec that fails the
   * first `k` times: it succeeds exactly when `k <= 3`; it runs the command `min(k, 3) + 1`
   * times with a 5-second delay after each failed run that is retried; when it gives up,
   * the error is the last run's Stderr, or its Stdout when Stderr is empty.
   */
  lemma FlakyRetry(step: Step, f: ServerFields, k: nat, failure: ExecResult)
    requires SingleCommand(step) && failure.exitCode != 0
    ensures var run := Retry(StepAction(step, f, FailFirst(k, failure)), [], StepRetryCount);
      (run.outcome.Pass? <==> k <= StepRetryCount)
      && Execs(run.events) == Min(k, StepRetryCount) + 1
      && Waits(run.events) == Min(k, StepRetryCount)
      && (run.outcome.Fail? ==>
            run.outcome.error == CommandFailed(if failure.stderr == "" then failure.stdout else failure.stderr))
  {
    assert Execs([]) == 0;
    FlakyRetryFrom(step, f, k, failure, [], StepRetryCount);
  }

  /** FlakyRetry from any history without commands, for any retry count. */
  lemma FlakyRetryFrom(step: Step, f: ServerFields, k: nat, failure: ExecResult, h: seq<Event>, n: nat)
    requires SingleCommand(step) && failure.exitCode != 0
    requires Execs(h) == 0
    ensures var run := Retry(StepAction(step, f, FailFirst(k, failure)), h, n);
      (run.outcome.Pass? <==> k <= n)
      && Execs(run.events) == Min(k, n) + 1
      && Waits(run.events) == Min(k, n)
      && (run.outcome.Fail? ==> run.outcome == CheckExit(Completed(failure)))
  {
    var respond := FailFirst(k, failure);
    var func := StepAction(step, f, respond);
    SingleCommandFailsFirst(step, f, k, failure);
    FlakyAttempts(func, k, CheckExit(Completed(failure)), h, n);
    StepActionIssuesOnly(step, f, respond);
    RetryWaitsOnlyBetweenAttempts(func, step, h, n);
    SingleCommandRetryCounts(step, f, respond, h, n);
  }

  /** Without a bucket list, the CreateBuckets step does nothing and succeeds. */
  lemma NoBucketsNoCommands(f: ServerFields, respond: Oracle, h: seq<Event>, n: nat)
    requires f.buckets.None?
    ensures Retry(StepAction(BucketCreate, f, respond), h, n) == Run(Pass, [])
  {
    assert Attempts(StepAction(BucketCreate, f, respond), h, n) == [Run(Pass, [])];
  }

  /** A retry of CreateBuckets starts again from the first bucket, not where the failure was. */
  lemma BucketRetryRestartsFromFirst(f: ServerFields, respond: Oracle, h: seq<Event>, n: nat, i: nat)
    requires f.buckets.Some? && f.buckets.value != []
    requires i < |Attempts(StepAction(BucketCreate, f, respond), h, n)|
    ensures [Exec(BucketCreateArgv(f, f.buckets.value[0]))] <= Attempts(StepAction(BucketCreate, f, respond), h, n)[i].events
  {
    var ts := Attempts(StepAction(BucketCreate, f, respond), h, n);
    AttemptsRestart(StepAction(BucketCreate, f, respond), h, n, i);
  }

  // ---------------------------------------------------------------- the pipeline

  /** An exec that always succeeds. */
  function AlwaysSucceeds(): Oracle {
    (h: seq<Event>, argv: Argv) => Completed(ExecResult(0, "", ""))
  }

  lemma {:induction false} CreateEachAllSucceed(f: ServerFields, bs: seq<Bucket>, h: seq<Event>)
    ensures CreateEach(f, bs, AlwaysSucceeds(), h) == Run(Pass, BucketCommands(f, bs))
    decreases |bs|
  {
    if bs != [] {
      var argv := BucketCreateArgv(f, bs[0]);
      assert BucketCommands(f, bs) == [Exec(argv)] + BucketCommands(f, bs[1..]);
      CreateEachAllSucceed(f, bs[1..], h + [Exec(argv)]);
    }
  }

  /**
   * When every command succeeds, provisioning issues exactly cluster-init, one
   * bucket-create per configured bucket in list order, then user-manage, with no delay.
   */
  lemma ProvisionWhenAllSucceed(f: ServerFields, h: seq<Event>)
    ensures Provision(f, AlwaysSucceeds(), h) == Run(Pass,
      [Exec(ClusterInitArgv(f))]
      + (if f.buckets.Some? then BucketCommands(f, f.buckets.value) else [])
      + [Exec(UserManageArgv(f))])
  {
    var respond := AlwaysSucceeds();
    var c := Run(Pass, [Exec(ClusterInitArgv(f))]);
    assert StepAction(ClusterInit, f, respond)(h) == c;
    RetryStops(StepAction(ClusterInit, f, respond), h, StepRetryCount);
    var b := Run(Pass, if f.buckets.Some? then BucketCommands(f, f.buckets.value) else []);
    if f.buckets.Some? {
      CreateEachAllSucceed(f, f.buckets.value, h + c.events);
    }
    assert StepAction(BucketCreate, f, respond)(h + c.events) == b;
    RetryStops(StepAction(BucketCreate, f, respond), h + c.events, StepRetryCount);
    var u := Run(Pass, [Exec(UserManageArgv(f))]);
    assert StepAction(UserManage, f, respond)(h + c.events + b.events) == u;
    RetryStops(StepAction(UserManage, f, respond), h + c.events + b.events, StepRetryCount);
    InSequenceSteps(StepAction(ClusterInit, f, respond), StepAction(BucketCreate, f, respond),
      StepAction(UserManage, f, respond), h);
  }

  /** The first thing provisioning does is run cluster-init. */
  lemma ProvisionStartsWithClusterInit(f: ServerFields, respond: Oracle, h: seq<Event>)
    ensures Provision(f, respond, h).events != []
    ensures Provision(f, respond, h).events[0] == Exec(ClusterInitArgv(f))
  {
    var ts := Attempts(StepAction(ClusterInit, f, respond), h, StepRetryCount);
    var c := Retry(StepAction(ClusterInit, f, respond), h, StepRetryCount);
    assert ts[0].events == [Exec(ClusterInitArgv(f))];
    if |ts| > 1 {
      assert ts[..|ts| - 1][0] == ts[0];
      assert Separated(ts[..|ts| - 1])[0] == Exec(ClusterInitArgv(f));
    }
    assert c.events[0] == Exec(ClusterInitArgv(f));
  }

  /** Everything a retry of `step` does is a command of that step or the retry delay. */
  predicate Only(es: seq<Event>, step: Step) {
    forall e :: e in es ==> e == Wait(RetryDelaySeconds) || OfStep(e, step)
  }

  lemma RetryOnly(step: Step, f: ServerFields, respond: Oracle, h: seq<Event>)
    ensures Only(Retry(StepAction(step, f, respond), h, StepRetryCount).events, step)
  {
    StepActionIssuesOnly(step, f, respond);
    RetryWaitsOnlyBetweenAttempts(StepAction(step, f, respond), step, h, StepRetryCount);
  }

  /**
   * A step only starts after every earlier step succeeded: a bucket-create command is
   * issued only after cluster-init succeeded, and user-manage only after both earlier
   * steps succeeded.
   */
  lemma ProvisionGated(f: ServerFields, respond: Oracle, h: seq<Event>, e: Event)
    requires e in Provision(f, respond, h).events
    ensures var c := Retry(StepAction(ClusterInit, f, respond), h, StepRetryCount);
      (OfStep(e, BucketCreate) || OfStep(e, UserManage) ==> c.outcome.Pass?)
      && (OfStep(e, UserManage) ==> Retry(StepAction(BucketCreate, f, respond), h + c.events, StepRetryCount).outcome.Pass?)
  {
    var c := Retry(StepAction(ClusterInit, f, respond), h, StepRetryCount);
    RetryOnly(ClusterInit, f, respond, h);
    if c.outcome.Fail? {
      assert Provision(f, respond, h).events == c.events;
    } else {
      var b := Retry(StepAction(BucketCreate, f, respond), h + c.events, StepRetryCount);
      RetryOnly(BucketCreate, f, respond, h + c.events);
      if b.outcome.Fail? {
        assert Provision(f, respond, h).events == c.events + b.events;
      }
    }
  }

  /** The step an event belongs to, if it is a command of one. */
  function StepAt(e: Event): Option<Step> {
    if e.Exec? then StepOf(e.argv) else None
  }

  /** Commands of the three steps appear in step order. */
  predicate InStepOrder(es: seq<Event>) {
    forall i, j :: 0 <= i < j < |es| && StepAt(es[i]).Some? && StepAt(es[j]).Some?
      ==> Rank(StepAt(es[i]).value) <= Rank(StepAt(es[j]).value)
  }

  predicate RanksBetween(es: seq<Event>, lo: nat, hi: nat) {
    forall e :: e in es && StepAt(e).Some? ==> lo <= Rank(StepAt(e).value) <= hi
  }

  lemma OnlyInOrder(es: seq<Event>, step: Step)
    requires Only(es, step)
    ensures InStepOrder(es) && RanksBetween(es, Rank(step), Rank(step))
  {
    forall i, j | 0 <= i < j < |es| && StepAt(es[i]).Some? && StepAt(es[j]).Some?
      ensures Rank(StepAt(es[i]).value) <= Rank(StepAt(es[j]).value)
    {
      assert es[i] in es && es[j] in es;
    }
  }

  lemma InOrderAppend(a: seq<Event>, b: seq<Event>, lo: nat, mid: nat, hi: nat)
    requires InStepOrder(a) && InStepOrder(b)
    requires lo <= mid <= hi
    requires RanksBetween(a, lo, mid) && RanksBetween(b, mid, hi)
    ensures InStepOrder(a + b) && RanksBetween(a + b, lo, hi)
  {
    var ab := a + b;
    forall i, j | 0 <= i < j < |ab| && StepAt(ab[i]).Some? && StepAt(ab[j]).Some?
      ensures Rank(StepAt(ab[i]).value) <= Rank(StepAt(ab[j]).value)
    {
      if j < |a| {
        assert ab[i] == a[i] && ab[j] == a[j];
      } else if i >= |a| {
        assert ab[i] == b[i - |a|] && ab[j] == b[j - |a|];
      } else {
        assert ab[i] == a[i] && ab[j] == b[j - |a|];
        assert a[i] in a && b[j - |a|] in b;
      }
    }
    forall e | e in ab && StepAt(e).Some? ensures lo <= Rank(StepAt(e).value) <= hi {
      assert e in a || e in b;
    }
  }

  /** Provisioning runs cluster-init, then the buckets, then the Sync Gateway user, never interleaved. */
  lemma ProvisionRunsStepsInOrder(f: ServerFields, respond: Oracle, h: seq<Event>)
    ensures InStepOrder(Provision(f, respond, h).events)
  {
    var es := Provision(f, respond, h).events;
    var c := Retry(StepAction(ClusterInit, f, respond), h, StepRetryCount);
    RetryOnly(ClusterInit, f, respond, h);
    OnlyInOrder(c.events, ClusterInit);
    if c.outcome.Fail? {
      assert es == c.events;
    } else {
      var b := Retry(StepAction(BucketCreate, f, respond), h + c.events, StepRetryCount);
      RetryOnly(BucketCreate, f, respond, h + c.events);
      OnlyInOrder(b.events, BucketCreate);
      InOrderAppend(c.events, b.events, 0, 1, 1);
      if b.outcome.Fail? {
        assert es == c.events + b.events;
      } else {
        var u := Retry(StepAction(UserManage, f, respond), h + c.events + b.events, StepRetryCount);
        RetryOnly(UserManage, f, respond, h + c.events + b.events);
        OnlyInOrder(u.events, UserManage);
        InOrderAppend(c.events + b.events, u.events, 0, 2, 2);
        assert es == c.events + b.events + u.events;
      }
    }
  }
}

/**
 * The provisioning methods of CouchbaseServerBuilder.cs as they run: each exec call and
 * each delay is an effect on a `Runtime`, and every method is proved to do exactly what
 * the functions of module Provisioning say.
 */
module Startup {

  import opened Wrappers
  import opened Buckets
  import opened Configurations
  import opened Commands
  import opened Provisioning
  import Builders

  /**
   * The outside world the callback talks to: `ExecAsync` on the started container, which
   * answers as `respond` says, and `Task.Delay`. `trace` records both, in order.
   */
  class Runtime {
    const respond: Oracle
    var trace: seq<Event>

    constructor(respond: Oracle)
      ensures this.respond == respond && trace == []
    {
      this.respond := respond;
      trace := [];
    }

    method ExecAsync(argv: Argv) returns (o: ExecOutcome)
      modifies this
      ensures o == respond(old(trace), argv)
      ensures trace == old(trace) + [Exec(argv)]
    {
      o := respond(trace, argv);
      trace := trace + [Exec(argv)];
    }

    method Delay(seconds: nat)
      modifies this
      ensures trace == old(trace) + [Wait(seconds)]
    {
      trace := trace + [Wait(seconds)];
    }
  }

  /**
   * In every method below `owner` is the server part of the configuration of the builder
   * the method belongs to (`DockerResourceConfiguration`); a returned `Fail` is the
   * exception the C# method throws.
   */
  method CreateCluster(owner: ServerFields, rt: Runtime) returns (outcome: Outcome)
    modifies rt
    ensures var run := Attempt(ClusterInit, owner, rt.respond, old(rt.trace));
      outcome == run.outcome && rt.trace == old(rt.trace) + run.events
  {
    var result := rt.ExecAsync(ClusterInitArgv(owner));
    outcome := CheckExit(result);
  }

  method ConfigureSyncGatewayUser(owner: ServerFields, rt: Runtime) returns (outcome: Outcome)
    modifies rt
    ensures var run := Attempt(UserManage, owner, rt.respond, old(rt.trace));
      outcome == run.outcome && rt.trace == old(rt.trace) + run.events
  {
    var result := rt.ExecAsync(UserManageArgv(owner));
    outcome := CheckExit(result);
  }

  /** What is left of the bucket pass over `bs` once the commands of the first `i` buckets succeeded. */
  function Remaining(f: ServerFields, bs: seq<Bucket>, respond: Oracle, h0: seq<Event>, i: nat): Run
    requires i <= |bs|
  {
    CreateEach(f, bs[i..], respond, h0 + BucketCommands(f, bs)[..i])
  }

  lemma RemainingAtStart(f: ServerFields, bs: seq<Bucket>, respond: Oracle, h0: seq<Event>)
    ensures Remaining(f, bs, respond, h0, 0) == CreateEach(f, bs, respond, h0)
  {
    assert bs[0..] == bs && h0 + BucketCommands(f, bs)[..0] == h0;
  }

  lemma RemainingAtEnd(f: ServerFields, bs: seq<Bucket>, respond: Oracle, h0: seq<Event>)
    ensures Remaining(f, bs, respond, h0, |bs|) == Run(Pass, [])
    ensures BucketCommands(f, bs)[..|bs|] == BucketCommands(f, bs)
  {
    assert bs[|bs|..] == [];
  }

  /** The command of bucket `i` succeeded: the pass goes on with bucket `i + 1`. */
  lemma RemainingAdvance(f: ServerFields, bs: seq<Bucket>, respond: Oracle, h0: seq<Event>, i: nat)
    requires i < |bs|
    requires CheckExit(respond(h0 + BucketCommands(f, bs)[..i], BucketCreateArgv(f, bs[i]))).Pass?
    ensures h0 + BucketCommands(f, bs)[..i] + [Exec(BucketCreateArgv(f, bs[i]))] == h0 + BucketCommands(f, bs)[..i + 1]
    ensures Remaining(f, bs, respond, h0, i).outcome == Remaining(f, bs, respond, h0, i + 1).outcome
    ensures BucketCommands(f, bs)[..i] + Remaining(f, bs, respond, h0, i).events
            == BucketCommands(f, bs)[..i + 1] + Remaining(f, bs, respond, h0, i + 1).events
  {
    var es := BucketCommands(f, bs);
    var x := Exec(BucketCreateArgv(f, bs[i]));
    assert es[..i + 1] == es[..i] + [x];
    assert bs[i..][0] == bs[i] && bs[i..][1..] == bs[i + 1..];
  }

  /** The command of bucket `i` failed: that failure ends the pass. */
  lemma RemainingFails(f: ServerFields, bs: seq<Bucket>, respond: Oracle, h0: seq<Event>, i: nat)
    requires i < |bs|
    requires CheckExit(respond(h0 + BucketCommands(f, bs)[..i], BucketCreateArgv(f, bs[i]))).Fail?
    ensures Remaining(f, bs, respond, h0, i).outcome
            == CheckExit(respond(h0 + BucketCommands(f, bs)[..i], BucketCreateArgv(f, bs[i])))
    ensures h0 + BucketCommands(f, bs)[..i] + [Exec(BucketCreateArgv(f, bs[i]))]
            == h0 + (BucketCommands(f, bs)[..i] + Remaining(f, bs, respond, h0, i).events)
  {
    assert bs[i..][0] == bs[i];
  }

  method CreateBuckets(owner: ServerFields, rt: Runtime) returns (outcome: Outcome)
    modifies rt
    ensures var run := Attempt(BucketCreate, owner, rt.respond, old(rt.trace));
      outcome == run.outcome && rt.trace == old(rt.trace) + run.events
  {
    if owner.buckets.None? {
      return Pass;
    }
    var bs := owner.buckets.value;
    ghost var h0 := rt.trace;
    ghost var whole := CreateEach(owner, bs, rt.respond, h0);
    RemainingAtStart(owner, bs, rt.respond, h0);
    for i := 0 to |bs|
      invariant rt.trace == h0 + BucketCommands(owner, bs)[..i]
      invariant whole.outcome == Remaining(owner, bs, rt.respond, h0, i).outcome
      invariant whole.events == BucketCommands(owner, bs)[..i] + Remaining(owner, bs, rt.respond, h0, i).events
    {
      var result := rt.ExecAsync(BucketCreateArgv(owner, bs[i]));
      var checked := CheckExit(result);
      if checked.Fail? {
        RemainingFails(owner, bs, rt.respond, h0, i);
        return checked;
      }
      RemainingAdvance(owner, bs, rt.respond, h0, i);
    }
    RemainingAtEnd(owner, bs, rt.respond, h0);
    outcome := Pass;
  }

  /** The `func` handed to TryInvoke: one call of the step's method. */
  method Invoke(step: Step, owner: ServerFields, rt: Runtime) returns (outcome: Outcome)
    modifies rt
    ensures var run := Attempt(step, owner, rt.respond, old(rt.trace));
      outcome == run.outcome && rt.trace == old(rt.trace) + run.events
  {
    match step
    case ClusterInit => outcome := CreateCluster(owner, rt);
    case BucketCreate => outcome := CreateBuckets(owner, rt);
    case UserManage => outcome := ConfigureSyncGatewayUser(owner, rt);
  }

  /**
   * TryInvoke: call the step; if it throws and retries are left, wait 5 seconds and try
   * again with one fewer; with none left, rethrow.
   */
  method TryInvoke(step: Step, owner: ServerFields, rt: Runtime, retryCount: nat) returns (outcome: Outcome)
    modifies rt
    ensures var run := Retry(StepAction(step, owner, rt.respond), old(rt.trace), retryCount);
      outcome == run.outcome && rt.trace == old(rt.trace) + run.events
    decreases retryCount
  {
    ghost var h := rt.trace;
    ghost var func := StepAction(step, owner, rt.respond);
    outcome := Invoke(step, owner, rt);
    assert func(h) == Attempt(step, owner, rt.respond, h);
    if outcome.Fail? && retryCount > 0 {
      rt.Delay(RetryDelaySeconds);
      RetryUnfold(func, h, retryCount);
      outcome := TryInvoke(step, owner, rt, retryCount - 1);
    } else {
      RetryStops(func, h, retryCount);
    }
  }

  /** The startup callback: the three steps in order, each retried three times; a failure stops it. */
  method OnContainerStartingAsync(owner: ServerFields, rt: Runtime) returns (outcome: Outcome)
    modifies rt
    ensures var run := Provision(owner, rt.respond, old(rt.trace));
      outcome == run.outcome && rt.trace == old(rt.trace) + run.events
  {
    ghost var steps := [StepAction(ClusterInit, owner, rt.respond), StepAction(BucketCreate, owner, rt.respond),
      StepAction(UserManage, owner, rt.respond)];
    InSequenceSteps(steps[0], steps[1], steps[2], rt.trace);
    outcome := TryInvoke(ClusterInit, owner, rt, StepRetryCount);
    if outcome.Fail? {
      return;
    }
    outcome := TryInvoke(BucketCreate, owner, rt, StepRetryCount);
    if outcome.Fail? {
      return;
    }
    outcome := TryInvoke(UserManage, owner, rt, StepRetryCount);
  }

  /**
   * Starting a built container as written: the callback its configuration holds runs, with
   * the server fields it was bound to when `Init` registered it.
   */
  method StartBuilt(container: Configuration, rt: Runtime) returns (outcome: Outcome)
    requires rt.trace == []
    modifies rt
    ensures var run := Builders.StartAsWritten(container, rt.respond);
      outcome == run.outcome && rt.trace == run.events
  {
    match container.container.startupCallback
    case None => outcome := Pass;
    case Some(owner) => outcome := OnContainerStartingAsync(owner, rt);
  }

  /**
   * Starting a built container with the callback bound to the configuration that was
   * built (the corrected binding): provisioning uses that configuration's credentials
   * and buckets.
   */
  method StartContainer(container: Configuration, rt: Runtime) returns (outcome: Outcome)
    requires rt.trace == []
    modifies rt
    ensures var run := Builders.StartIntended(container, rt.respond);
      outcome == run.outcome && rt.trace == run.events
  {
    outcome := OnContainerStartingAsync(container.Fields(), rt);
  }
}

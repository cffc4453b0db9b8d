# Couchbase Server test-container builder: provisioning model

This project models `CouchbaseServerBuilder`, the builder for a Couchbase Server
test container, together with the two values it reads, `Bucket` and
`CouchbaseServerConfiguration`. After the container starts, the builder runs a
provisioning callback with three steps, each wrapped in `TryInvoke(…, 3)`:

- `couchbase-cli cluster-init` initialises a single-node cluster;
- one `couchbase-cli bucket-create` runs per configured bucket;
- `couchbase-cli user-manage` creates the Sync Gateway account.

Each exec result is checked: exit code 0 succeeds. Any other exit code throws
with Stderr as the message, or with Stdout when Stderr is empty.

How the outside world is represented:

- `ExecAsync` is an oracle from the history of events and an argv to an outcome.
  The outcome is a completed result or a fault.
- `Task.Delay` is a `Wait(5)` event.
- A thrown exception is a `Fail` outcome.
- Username and Password are nullable in C#, so argv elements are `Option<string>`.

The modules:

- `Buckets`, `Configurations`: the two values. `BuildConfiguration.Combine` and
  the base container merge are library code. They are passed in as a `Combine`
  of three functions. Their documented behaviour is the explicit assumption
  `Configurations.AsDocumented`, used only as a `requires`, and
  `Configurations.DocumentedCombine` shows it can be met.
- `Commands`: the three argv lists, built from structured commands. `Parse`
  reads an argv back, so each argument can be stated by option name.
- `Decimal`: `ushort.ToString()` for bucket quotas.
- `Provisioning`: pure functions for one attempt of each step, the retry
  (`Attempts`, `Retry`) and the pipeline (`Provision`), with lemmas about them.
  As in the source, the retry takes the attempted call as a function value
  (`Action`), so its lemmas hold for any call.
- `Startup`: the C# methods as imperative Dafny. A `Runtime` object records
  every exec and delay. `CreateBuckets` is a `for` loop with an early exit and
  `TryInvoke` is recursive, as in the source. Each method is proved equal to its
  `Provisioning` function.
- `Builders`: the immutable builder, its `With…` calls, the constructor's `Init`
  chain, and what starting a built container does.

Three properties of the source that the model keeps:

- **Waits on exhaustion.** `TryInvoke` does not wait after the last allowed
  attempt, so a command failing `k` times waits `min(k, 3)` times, 5 seconds
  each (`Provisioning.FlakyRetry`).
- **Cancellation.** The cancellation token is never checked. It is only passed
  to `ExecAsync`, where a cancellation is one more failed attempt that
  `TryInvoke` catches and retries.
- **Retry form.** `TryInvoke` calls itself with a smaller counter rather than
  looping, and `Startup.TryInvoke` does the same.

## Model

| member | source | states |
|---|---|---|
| Buckets.OmittedArgumentsTakeDefaults | Bucket.cs:13-20 | a bucket built from a name alone keeps the name and has flush off, primary index on, a 100 MiB quota and 0 replicas |
| Buckets.SuppliedArgumentsAreStored | Bucket.cs:13-45 | every supplied argument is stored unchanged in its property; quota and replica count are unsigned 16-bit values |
| Configurations.WithFields | CouchbaseServerConfiguration.cs:8-13 | the optional-argument constructor stores username, password and buckets as given (null when omitted) and no container settings |
| Configurations.FromContainerSettings | CouchbaseServerConfiguration.cs:15-25 | the constructors from a generic container or resource configuration keep its settings and leave Username, Password and Buckets null |
| Configurations.MergeIsFieldwise | CouchbaseServerConfiguration.cs:27-33 | for any library merge rules, each merged server property depends only on the same property of the old and new value |
| Configurations.MergeIsRightBiased | CouchbaseServerConfiguration.cs:27-33 | under the documented rules, a set new value wins and null keeps the old one; buckets concatenate old then new; environment variables are united with the new side winning |
| Configurations.DocumentedCombineIsDocumented | CouchbaseServerConfiguration.cs:30-32 | the assumed library behaviour is consistent: one concrete merge meets it |
| Decimal.DecimalString | CouchbaseServerBuilder.cs:111 | the quota text is a non-empty string of digits without leading zeros, and is "0" only for 0 |
| Decimal.DecimalRoundTrip | CouchbaseServerBuilder.cs:111 | reading the quota text back as a decimal number gives the quota |
| Decimal.DecimalStringInjective | CouchbaseServerBuilder.cs:111 | different quotas give different texts |
| Commands.Render | CouchbaseServerBuilder.cs:76-86 | an argv starts with the program path and then the couchbase-cli action |
| Commands.ParseRender | CouchbaseServerBuilder.cs:76-137 | every command built as the three steps build them reads back from its argv unchanged |
| Commands.ParseRenderOptions | CouchbaseServerBuilder.cs:76-137 | the option list of such a command reads back unchanged, flag by flag and value by value |
| Commands.ClusterInitArguments | CouchbaseServerBuilder.cs:74-86 | cluster-init's argv reads back as cluster-init, with the configured Username after --cluster-username, Password after --cluster-password, and RAM sizes 1000, 3139 and 694 |
| Commands.BucketCreateArguments | CouchbaseServerBuilder.cs:103-113 | bucket-create's argv carries the credentials, the bucket name and its quota in decimal, with bucket type couchbase against localhost:8091 |
| Commands.BucketCreateArgvDependsOnNameAndQuota | CouchbaseServerBuilder.cs:105-113 | two buckets give the same argv exactly when their names and quotas are equal: flush, primary index and replicas are never sent |
| Commands.UserManageArguments | CouchbaseServerBuilder.cs:124-137 | user-manage's argv sets the account demo@example.com with password "password", role mobile_sync_gateway[*] and the local auth domain, as the configured administrator |
| Provisioning.CheckExit | CouchbaseServerBuilder.cs:89-93 | a step passes exactly when the exit code is 0; otherwise it fails with Stderr, or Stdout when Stderr is empty; an exec fault fails the step |
| Provisioning.BucketCommands | CouchbaseServerBuilder.cs:103-113 | one bucket-create command per configured bucket |
| Provisioning.CreateEachIssuesPrefix | CouchbaseServerBuilder.cs:96-122 | a CreateBuckets call issues the bucket-create commands in list order, stopping early only on failure, and all of them when it succeeds |
| Provisioning.CreateEachFailsAtLast | CouchbaseServerBuilder.cs:115-120 | when CreateBuckets fails, the failure is the answer to the last command it issued |
| Provisioning.CreateEachEarlierPassed | CouchbaseServerBuilder.cs:103-121 | every bucket command before the last one issued succeeded, and all of them did when the call succeeds |
| Provisioning.AttemptIssuesOnlyItsCommands | CouchbaseServerBuilder.cs:74-145 | one call of a step runs only that step's couchbase-cli action |
| Provisioning.StepActionIssuesOnly | CouchbaseServerBuilder.cs:67-71 | the function each step hands to TryInvoke runs only that step's action, whatever ran before |
| Provisioning.Attempts | CouchbaseServerBuilder.cs:147-161 | TryInvoke(f, n) calls f at least once and at most n + 1 times |
| Provisioning.AttemptsStopAtFirstSuccess | CouchbaseServerBuilder.cs:147-161 | every attempt before the last one failed, and the last fails only when all n + 1 attempts were used |
| Provisioning.AttemptsRestart | CouchbaseServerBuilder.cs:160 | each retry is a fresh call of the step, run after all earlier attempts and delays |
| Provisioning.RetryWaitsOnlyBetweenAttempts | CouchbaseServerBuilder.cs:153-160 | the retry's outcome is the last attempt's; one 5-second delay follows each retried failure, so n delays when it gives up; everything else it does is the step's own command |
| Provisioning.RetryUnfold | CouchbaseServerBuilder.cs:153-160 | after a failed attempt with retries left, the retry is the attempt, a 5-second delay and a retry with one fewer |
| Provisioning.RetryStops | CouchbaseServerBuilder.cs:149-158 | a successful attempt, or a failed one with no retries left, is the whole retry |
| Provisioning.CombinedCons | CouchbaseServerBuilder.cs:153-160 | a failed attempt followed by more attempts contributes its events and one 5-second delay before theirs, and the outcome is theirs |
| Provisioning.RetrySurfacesLastFailure | CouchbaseServerBuilder.cs:149-158 | TryInvoke returns normally exactly when some attempt succeeded; otherwise all n + 1 attempts failed and the last failure is rethrown |
| Provisioning.SingleCommandFailsFirst | CouchbaseServerBuilder.cs:74-94 | against an exec that fails the first k times, cluster-init and user-manage each run one command per call and fail exactly while fewer than k commands have run |
| Provisioning.FlakyAttempts | CouchbaseServerBuilder.cs:147-161 | TryInvoke(f, n) of a one-command f that fails k more times attempts f min(k, n) + 1 times and succeeds exactly when k <= n |
| Provisioning.FlakyRetry | CouchbaseServerBuilder.cs:67-71 | with 3 retries and an exec failing the first k times, the step succeeds exactly when k <= 3, runs min(k, 3) + 1 commands with min(k, 3) delays, and surfaces Stderr, or Stdout when Stderr is empty |
| Provisioning.FlakyRetryFrom | CouchbaseServerBuilder.cs:147-161 | for any retry count n, the same as FlakyRetry: success exactly when k <= n, min(k, n) + 1 commands, min(k, n) delays, the exec's failure surfaced |
| Provisioning.SingleCommandRetryCounts | CouchbaseServerBuilder.cs:147-161 | a retried single-command step runs its command once per attempt |
| Provisioning.NoBucketsNoCommands | CouchbaseServerBuilder.cs:98-101 | with no bucket list, the bucket step runs no command and succeeds |
| Provisioning.BucketRetryRestartsFromFirst | CouchbaseServerBuilder.cs:69 | every retry of CreateBuckets begins again with the first bucket |
| Provisioning.CreateEachAllSucceed | CouchbaseServerBuilder.cs:103-121 | when every exec succeeds, CreateBuckets issues exactly one command per bucket, in order, and succeeds |
| Provisioning.InSequenceSteps | CouchbaseServerBuilder.cs:65-72 | three retried calls in sequence: a failure of the first ends everything, a failure of the second ends after both, and otherwise all three run back to back |
| Provisioning.ProvisionWhenAllSucceed | CouchbaseServerBuilder.cs:65-72 | when every exec succeeds, the callback runs exactly cluster-init, the bucket commands in list order and user-manage, with no delay |
| Provisioning.ProvisionStartsWithClusterInit | CouchbaseServerBuilder.cs:67 | the first thing the callback does is run cluster-init |
| Provisioning.RetryOnly | CouchbaseServerBuilder.cs:67-71 | a retried step runs only its own commands and the retry delay |
| Provisioning.ProvisionGated | CouchbaseServerBuilder.cs:65-72 | a bucket command is issued only after cluster-init succeeded, and user-manage only after both earlier steps succeeded |
| Provisioning.ProvisionRunsStepsInOrder | CouchbaseServerBuilder.cs:65-72 | commands appear in step order: cluster-init, then buckets, then user-manage, never interleaved |
| Startup.Runtime.ExecAsync | CouchbaseServerBuilder.cs:88 | an exec gets the oracle's answer for the history so far and is recorded |
| Startup.Runtime.Delay | CouchbaseServerBuilder.cs:159 | a delay is recorded and nothing else changes |
| Startup.CreateCluster | CouchbaseServerBuilder.cs:74-94 | runs cluster-init once; the outcome and the recorded events are exactly one cluster-init attempt |
| Startup.CreateBuckets | CouchbaseServerBuilder.cs:96-122 | the foreach loop does exactly what one CreateBuckets attempt specifies: no command without a bucket list, otherwise one per bucket until the first failure |
| Startup.ConfigureSyncGatewayUser | CouchbaseServerBuilder.cs:124-145 | runs user-manage once; the outcome and the recorded events are exactly one user-manage attempt |
| Startup.Invoke | CouchbaseServerBuilder.cs:67-71 | the function handed to TryInvoke is one attempt of its step |
| Startup.TryInvoke | CouchbaseServerBuilder.cs:147-161 | the recursive retry produces exactly the outcome and events of the retry specification |
| Startup.OnContainerStartingAsync | CouchbaseServerBuilder.cs:65-72 | the callback produces exactly the outcome and events of the three-step provisioning |
| Startup.StartBuilt | CouchbaseServerBuilder.cs:40 | starting a container runs the callback its configuration holds, bound to the builder of `Init`, and produces exactly the as-written start |
| Startup.StartContainer | CouchbaseServerBuilder.cs:40 | starting a fresh container with the callback bound to the built configuration produces exactly the intended provisioning for that configuration |
| Builders.CloneKeepsServerFields | CouchbaseServerBuilder.cs:164-172 | under the documented merge, cloning with generic container settings keeps the server fields, adds the environment variables and replaces the callback only when one is given |
| Builders.WithUsernameSetsUsername | CouchbaseServerBuilder.cs:43-47 | WithUsername(u) sets Username and COUCHBASE_ADMINISTRATOR_USERNAME to u and keeps the password, buckets, other variables and callback |
| Builders.WithPasswordSetsPassword | CouchbaseServerBuilder.cs:49-53 | WithPassword(p) sets Password and COUCHBASE_ADMINISTRATOR_PASSWORD to p and keeps everything else |
| Builders.WithBucketAppends | CouchbaseServerBuilder.cs:55-58 | WithBucket appends its buckets to those already configured and changes nothing else |
| Builders.NewSetsDefaults | CouchbaseServerBuilder.cs:20-41 | a new builder has username Administrator, password "password", the single bucket "market", and the two credential variables set to those defaults |
| Builders.NewBindsCallbackToItself | CouchbaseServerBuilder.cs:20-40 | the callback registered by Init is bound to the server fields of the builder the constructor returns |
| Builders.StartUsesConstructorDefaults | CouchbaseServerBuilder.cs:20-53 | after WithUsername and WithPassword the configuration and environment carry the new credentials, but starting provisions with the constructor's defaults |
| Builders.CustomCredentialsIgnored | CouchbaseServerBuilder.cs:36-47 | whatever credentials are configured, the first command run at start is cluster-init with Administrator and "password" |
| Builders.AliceIsIgnored | CouchbaseServerBuilder.cs:40-47 | with username "alice", cluster-init's --cluster-username differs from the configured Username |
| Builders.IntendedUsesConfiguredCredentials | CouchbaseServerBuilder.cs:60-86 | provisioning from the built configuration runs cluster-init with the configured credentials, which equal the two environment variables |

## Left out

- `ExecAsync` and the running container are an oracle parameter. Its answer may depend on everything run before. A transport fault or a cancellation is an exec fault.
- `Task.Delay` is a recorded `Wait(5)` event. Real time and async scheduling are not modelled.
- The `CancellationToken` is not modelled. The source only passes it to `ExecAsync`.
- A null Stdout or Stderr is modelled as the empty string, which `string.IsNullOrEmpty` treats the same way.
- `Startup.TryInvoke`: the retry count is a `nat`. The source's `int` is always called with 3, so a negative count is not modelled.
- `Builders.New`: only the `Init` calls that touch the modelled state are kept (`WithUsername`, `WithPassword`, `WithBucket`, `WithStartupCallback`). Image, port bindings, hostname, working directory, entrypoint and the base builder's own defaults are library container settings that provisioning never reads.
- `BuildConfiguration.Combine` and the base configuration merge are library code. They are a `Combine` parameter, and their documented behaviour is an assumption (`AsDocumented`), never proved.
- `Build` returns the configuration. The `CouchbaseServerContainer` it wraps, and its connection string, depend on runtime port mapping.

## Findings

| source | as written | input that shows it | evidently intended | confidence | as-written member | corrected member |
|---|---|---|---|---|---|---|
| CouchbaseServerBuilder.cs:20-47 | `Init` registers `OnContainerStartingAsync` of the builder being constructed. Every later `With…` call returns a new builder, but the registered callback still reads the first builder's `DockerResourceConfiguration`, so provisioning always uses the defaults | `new CouchbaseServerBuilder().WithUsername("alice").WithPassword("secret")`: COUCHBASE_ADMINISTRATOR_USERNAME is alice, yet cluster-init, bucket-create and user-manage run as Administrator/password | provisioning uses the credentials and buckets of the configuration that is built | high; not executed | Builders.AliceIsIgnored | Builders.IntendedUsesConfiguredCredentials |

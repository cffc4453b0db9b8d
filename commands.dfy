/**
 * The three couchbase-cli command lines the provisioning sequence sends
 * (CouchbaseServerBuilder.cs, CreateCluster, CreateBuckets, ConfigureSyncGatewayUser).
 * A command is written as its program, its action and its options; `Render` lays it
 * out as the argument vector handed to exec, and `Parse` reads it back.
 */
module Commands {

  import opened Wrappers
  import opened Buckets
  import opened Decimal
  import opened Configurations

  /** An argument vector. An element is `None` when the source puts a null Username or Password there. */
  type Argv = seq<Option<string>>

  datatype Opt = Flag(name: string) | Valued(name: string, value: Option<string>)

  datatype Command = Command(program: string, action: string, options: seq<Opt>)

  /** The only option of these commands that takes no value. */
  const BareFlags: set<string> := {"--set"}

  predicate WellFormed(c: Command) {
    forall o :: o in c.options ==> (o.Flag? <==> o.name in BareFlags)
  }

  function RenderOptions(os: seq<Opt>): (argv: Argv)
    ensures |argv| >= |os|
    decreases |os|
  {
    if os == [] then []
    else match os[0]
      case Flag(n) => [Some(n)] + RenderOptions(os[1..])
      case Valued(n, v) => [Some(n), v] + RenderOptions(os[1..])
  }

  function Render(c: Command): (argv: Argv)
    ensures |argv| >= 2 && argv[0] == Some(c.program) && argv[1] == Some(c.action)
  {
    [Some(c.program), Some(c.action)] + RenderOptions(c.options)
  }

  function ParseOptions(tokens: Argv): Option<seq<Opt>>
    decreases |tokens|
  {
    if tokens == [] then Some([])
    else if tokens[0].None? then None
    else if tokens[0].value in BareFlags then
      match ParseOptions(tokens[1..])
      case None => None
      case Some(rest) => Some([Flag(tokens[0].value)] + rest)
    else if |tokens| < 2 then None
    else
      match ParseOptions(tokens[2..])
      case None => None
      case Some(rest) => Some([Valued(tokens[0].value, tokens[1])] + rest)
  }

  function Parse(argv: Argv): Option<Command> {
    if |argv| < 2 || argv[0].None? || argv[1].None? then None
    else match ParseOptions(argv[2..])
      case None => None
      case Some(os) => Some(Command(argv[0].value, argv[1].value, os))
  }

  lemma {:induction false} ParseRenderOptions(os: seq<Opt>)
    requires forall o :: o in os ==> (o.Flag? <==> o.name in BareFlags)
    ensures ParseOptions(RenderOptions(os)) == Some(os)
    decreases |os|
  {
    if os != [] {
      var tokens := RenderOptions(os);
      var rest := RenderOptions(os[1..]);
      ParseRenderOptions(os[1..]);
      assert os[0] in os;
      match os[0] {
        case Flag(n) =>
          assert tokens == [Some(n)] + rest;
          assert tokens[1..] == rest;
          assert ParseOptions(tokens) == Some([Flag(n)] + os[1..]);
        case Valued(n, v) =>
          assert tokens == [Some(n), v] + rest;
          assert tokens[2..] == rest;
          assert ParseOptions(tokens) == Some([Valued(n, v)] + os[1..]);
      }
      assert [os[0]] + os[1..] == os;
    }
  }

  /** Rendering loses nothing: a well-formed command is read back exactly. */
  lemma ParseRender(c: Command)
    requires WellFormed(c)
    ensures Parse(Render(c)) == Some(c)
  {
    ParseRenderOptions(c.options);
    assert Render(c)[2..] == RenderOptions(c.options);
  }

  /** The value given to the first option named `name`, if any. */
  function ValueOf(os: seq<Opt>, name: string): Option<Option<string>>
    decreases |os|
  {
    if os == [] then None
    else if os[0].Valued? && os[0].name == name then Some(os[0].value)
    else ValueOf(os[1..], name)
  }

  /** The first option named `name` sits at position `i` and carries `v`. */
  lemma {:induction false} ValueOfAt(os: seq<Opt>, name: string, i: nat, v: Option<string>)
    requires i < |os| && os[i] == Valued(name, v)
    requires forall j :: 0 <= j < i ==> os[j].name != name
    ensures ValueOf(os, name) == Some(v)
    decreases i
  {
    if i > 0 {
      ValueOfAt(os[1..], name, i - 1, v);
    }
  }

  /** The value a command line gives option `name`, when the line parses and has the option. */
  function Argument(argv: Argv, name: string): Option<Option<string>> {
    match Parse(argv)
    case None => None
    case Some(c) => ValueOf(c.options, name)
  }

  function Names(os: seq<Opt>): (ns: seq<string>)
    ensures |ns| == |os| && forall j :: 0 <= j < |os| ==> ns[j] == os[j].name
    decreases |os|
  {
    if os == [] then [] else [os[0].name] + Names(os[1..])
  }

  const CouchbaseCli := "/opt/couchbase/bin/couchbase-cli"

  /** cluster-init: configured credentials, fixed services and fixed RAM sizes. */
  function ClusterInitCommand(f: ServerFields): Command {
    Command(CouchbaseCli, "cluster-init", [
      Valued("-c", Some("127.0.0.1")),
      Valued("--cluster-username", f.username),
      Valued("--cluster-password", f.password),
      Valued("--services", Some("data,index,query,eventing")),
      Valued("--cluster-ramsize", Some("1000")),
      Valued("--cluster-index-ramsize", Some("3139")),
      Valued("--cluster-eventing-ramsize", Some("694")),
      Valued("--index-storage-setting", Some("default"))])
  }

  /** bucket-create: only the bucket's name and quota are sent. */
  function BucketCreateCommand(f: ServerFields, b: Bucket): Command {
    Command(CouchbaseCli, "bucket-create", [
      Valued("-c", Some("localhost:8091")),
      Valued("--username", f.username),
      Valued("--password", f.password),
      Valued("--bucket", Some(b.name)),
      Valued("--bucket-ramsize", Some(DecimalString(b.quotaMiB as nat))),
      Valued("--bucket-type", Some("couchbase"))])
  }

  /** user-manage: a fixed demo account with the Sync Gateway role. */
  function UserManageCommand(f: ServerFields): Command {
    Command(CouchbaseCli, "user-manage", [
      Valued("--cluster", Some("http://127.0.0.1")),
      Valued("--username", f.username),
      Valued("--password", f.password),
      Flag("--set"),
      Valued("--rbac-username", Some("demo@example.com")),
      Valued("--rbac-password", Some("password")),
      Valued("--roles", Some("mobile_sync_gateway[*]")),
      Valued("--auth-domain", Some("local"))])
  }

  function ClusterInitArgv(f: ServerFields): Argv { Render(ClusterInitCommand(f)) }

  function BucketCreateArgv(f: ServerFields, b: Bucket): Argv { Render(BucketCreateCommand(f, b)) }

  function UserManageArgv(f: ServerFields): Argv { Render(UserManageCommand(f)) }

  /** The cluster-init argv parses back to the cluster-init command. */
  lemma ClusterInitParses(f: ServerFields)
    ensures Parse(ClusterInitArgv(f)) == Some(ClusterInitCommand(f))
  {
    ParseRender(ClusterInitCommand(f));
  }

  lemma ClusterInitCredentials(f: ServerFields)
    ensures ValueOf(ClusterInitCommand(f).options, "--cluster-username") == Some(f.username)
    ensures ValueOf(ClusterInitCommand(f).options, "--cluster-password") == Some(f.password)
  {
    var os := ClusterInitCommand(f).options;
    ValueOfAt(os, "--cluster-username", 1, f.username);
    assert "--cluster-username"[10] != "--cluster-password"[10];
    ValueOfAt(os, "--cluster-password", 2, f.password);
  }

  lemma ClusterInitRamSizes(f: ServerFields)
    ensures ValueOf(ClusterInitCommand(f).options, "--cluster-ramsize") == Some(Some("1000"))
    ensures ValueOf(ClusterInitCommand(f).options, "--cluster-index-ramsize") == Some(Some("3139"))
    ensures ValueOf(ClusterInitCommand(f).options, "--cluster-eventing-ramsize") == Some(Some("694"))
  {
    var os := ClusterInitCommand(f).options;
    ValueOfAt(os, "--cluster-ramsize", 4, Some("1000"));
    ValueOfAt(os, "--cluster-index-ramsize", 5, Some("3139"));
    ValueOfAt(os, "--cluster-eventing-ramsize", 6, Some("694"));
  }

  /** The cluster-init argv reads back as the configured credentials and the fixed RAM sizes. */
  lemma ClusterInitArguments(f: ServerFields)
    ensures var argv := ClusterInitArgv(f);
      Parse(argv) == Some(ClusterInitCommand(f)) && argv[1] == Some("cluster-init")
      && Argument(argv, "--cluster-username") == Some(f.username)
      && Argument(argv, "--cluster-password") == Some(f.password)
      && Argument(argv, "--cluster-ramsize") == Some(Some("1000"))
      && Argument(argv, "--cluster-index-ramsize") == Some(Some("3139"))
      && Argument(argv, "--cluster-eventing-ramsize") == Some(Some("694"))
  {
    ClusterInitParses(f);
    ClusterInitCredentials(f);
    ClusterInitRamSizes(f);
  }

  lemma BucketCreateParses(f: ServerFields, b: Bucket)
    ensures Parse(BucketCreateArgv(f, b)) == Some(BucketCreateCommand(f, b))
  {
    ParseRender(BucketCreateCommand(f, b));
  }

  lemma BucketCreateCredentials(f: ServerFields, b: Bucket)
    ensures ValueOf(BucketCreateCommand(f, b).options, "--username") == Some(f.username)
    ensures ValueOf(BucketCreateCommand(f, b).options, "--password") == Some(f.password)
  {
    var os := BucketCreateCommand(f, b).options;
    ValueOfAt(os, "--username", 1, f.username);
    assert "--username"[2] != "--password"[2];
    ValueOfAt(os, "--password", 2, f.password);
  }

  lemma BucketCreateBucketValues(f: ServerFields, b: Bucket)
    ensures ValueOf(BucketCreateCommand(f, b).options, "--bucket") == Some(Some(b.name))
    ensures ValueOf(BucketCreateCommand(f, b).options, "--bucket-ramsize") == Some(Some(DecimalString(b.quotaMiB as nat)))
  {
    var os := BucketCreateCommand(f, b).options;
    ValueOfAt(os, "--bucket", 3, Some(b.name));
    ValueOfAt(os, "--bucket-ramsize", 4, Some(DecimalString(b.quotaMiB as nat)));
  }

  /**
   * The bucket-create argv reads back as the credentials, the bucket's name and its
   * quota in decimal, and no other option.
   */
  lemma BucketCreateArguments(f: ServerFields, b: Bucket)
    ensures var argv := BucketCreateArgv(f, b);
      Parse(argv) == Some(BucketCreateCommand(f, b)) && argv[1] == Some("bucket-create")
      && Argument(argv, "--username") == Some(f.username)
      && Argument(argv, "--password") == Some(f.password)
      && Argument(argv, "--bucket") == Some(Some(b.name))
      && Argument(argv, "--bucket-ramsize") == Some(Some(DecimalString(b.quotaMiB as nat)))
      && Names(Parse(argv).value.options) == ["-c", "--username", "--password", "--bucket", "--bucket-ramsize", "--bucket-type"]
  {
    BucketCreateParses(f, b);
    BucketCreateCredentials(f, b);
    BucketCreateBucketValues(f, b);
  }

  /**
   * Two buckets get the same bucket-create argv exactly when they agree on name and
   * quota: the flush, primary-index and replica settings are never sent.
   */
  lemma BucketCreateArgvDependsOnNameAndQuota(f: ServerFields, b1: Bucket, b2: Bucket)
    ensures BucketCreateArgv(f, b1) == BucketCreateArgv(f, b2)
            <==> b1.name == b2.name && b1.quotaMiB == b2.quotaMiB
  {
    if BucketCreateArgv(f, b1) == BucketCreateArgv(f, b2) {
      ParseRender(BucketCreateCommand(f, b1));
      ParseRender(BucketCreateCommand(f, b2));
      assert BucketCreateCommand(f, b1).options[4] == BucketCreateCommand(f, b2).options[4];
      DecimalStringInjective(b1.quotaMiB as nat, b2.quotaMiB as nat);
    }
  }

  lemma UserManageParses(f: ServerFields)
    ensures Parse(UserManageArgv(f)) == Some(UserManageCommand(f))
  {
    ParseRender(UserManageCommand(f));
  }

  lemma UserManageCredentials(f: ServerFields)
    ensures ValueOf(UserManageCommand(f).options, "--username") == Some(f.username)
    ensures ValueOf(UserManageCommand(f).options, "--password") == Some(f.password)
  {
    var os := UserManageCommand(f).options;
    ValueOfAt(os, "--username", 1, f.username);
    assert "--username"[2] != "--password"[2];
    ValueOfAt(os, "--password", 2, f.password);
  }

  lemma UserManageAccount(f: ServerFields)
    ensures ValueOf(UserManageCommand(f).options, "--rbac-username") == Some(Some("demo@example.com"))
    ensures ValueOf(UserManageCommand(f).options, "--rbac-password") == Some(Some("password"))
    ensures ValueOf(UserManageCommand(f).options, "--roles") == Some(Some("mobile_sync_gateway[*]"))
  {
    var os := UserManageCommand(f).options;
    ValueOfAt(os, "--rbac-username", 4, Some("demo@example.com"));
    assert "--rbac-username"[7] != "--rbac-password"[7];
    ValueOfAt(os, "--rbac-password", 5, Some("password"));
    ValueOfAt(os, "--roles", 6, Some("mobile_sync_gateway[*]"));
  }

  /** The user-manage argv reads back as the fixed demo account, its password and its role. */
  lemma UserManageArguments(f: ServerFields)
    ensures var argv := UserManageArgv(f);
      Parse(argv) == Some(UserManageCommand(f)) && argv[1] == Some("user-manage")
      && Argument(argv, "--username") == Some(f.username)
      && Argument(argv, "--password") == Some(f.password)
      && Argument(argv, "--rbac-username") == Some(Some("demo@example.com"))
      && Argument(argv, "--rbac-password") == Some(Some("password"))
      && Argument(argv, "--roles") == Some(Some("mobile_sync_gateway[*]"))
      && Flag("--set") in Parse(argv).value.options
  {
    UserManageParses(f);
    UserManageCredentials(f);
    UserManageAccount(f);
    assert UserManageCommand(f).options[3] == Flag("--set");
  }
}

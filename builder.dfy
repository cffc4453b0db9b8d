/**
 * CouchbaseServerBuilder.cs as values: every `With…` call returns a new builder over a
 * merged configuration, and starting a built container runs the startup callback the
 * configuration holds.
 */
module Builders {

  import opened Wrappers
  import opened Buckets
  import opened Configurations
  import opened Commands
  import opened Provisioning

  const DefaultUsername := "Administrator"
  const DefaultPassword := "password"
  const UsernameVariable := "COUCHBASE_ADMINISTRATOR_USERNAME"
  const PasswordVariable := "COUCHBASE_ADMINISTRATOR_PASSWORD"

  /** The bucket the constructor configures. */
  function MarketBucket(): Bucket {
    Bucket("market")
  }

  /**
   * A builder is immutable: it holds its configuration (`DockerResourceConfiguration`),
   * and `library` stands for the merge rules of the container library it builds on.
   */
  datatype Builder = Builder(library: Combine, configuration: Configuration)
  {
    /** `Merge(oldValue, newValue)`: a new builder over the merged configuration. */
    function Merge(oldValue: Configuration, newValue: Configuration): Builder {
      Builder(library, Configurations.Merge(library, oldValue, newValue))
    }

    /** Both `Clone` overloads: merge a generic container configuration into this one. */
    function Clone(settings: ContainerSettings): Builder {
      Merge(configuration, FromContainerSettings(settings))
    }

    /** The inherited `WithEnvironment`, which goes through `Clone`. */
    function WithEnvironment(name: string, value: string): Builder {
      Clone(ContainerSettings(map[name := value], None))
    }

    /** The inherited `WithStartupCallback`, here with `OnContainerStartingAsync` of the builder whose fields are `owner`. */
    function WithStartupCallback(owner: ServerFields): Builder {
      Clone(ContainerSettings(map[], Some(owner)))
    }

    function WithUsername(username: string): Builder {
      Merge(configuration, WithFields(username := Some(username))).WithEnvironment(UsernameVariable, username)
    }

    function WithPassword(password: string): Builder {
      Merge(configuration, WithFields(password := Some(password))).WithEnvironment(PasswordVariable, password)
    }

    function WithBucket(buckets: seq<Bucket>): Builder {
      Merge(configuration, WithFields(buckets := Some(buckets)))
    }

    /** `Build`: the container is created from this builder's configuration. */
    function Build(): Configuration {
      configuration
    }
  }

  /**
   * `new CouchbaseServerBuilder()`: a builder over an empty configuration runs `Init`,
   * which binds the callback to that very builder, whose configuration then becomes the
   * result of `Init`. The callback's fields are therefore those of the builder returned.
   */
  function New(library: Combine): Builder {
    var initial := Builder(library, WithFields());
    var before := initial.WithUsername(DefaultUsername).WithPassword(DefaultPassword).WithBucket([MarketBucket()]);
    // The merge is field by field, so every Clone of `before` has these fields,
    // including the builder that registering the callback itself produces.
    var owner := before.Clone(NoSettings).configuration.Fields();
    Builder(library, before.WithStartupCallback(owner).configuration)
  }

  /** Starting a built container runs the startup callback its configuration holds, if any. */
  function StartAsWritten(configuration: Configuration, respond: Oracle): Run {
    match configuration.container.startupCallback
    case None => Run(Pass, [])
    case Some(owner) => Provision(owner, respond, [])
  }

  /** What starting should do: provision with the credentials and buckets of the configuration built. */
  function StartIntended(configuration: Configuration, respond: Oracle): Run {
    Provision(configuration.Fields(), respond, [])
  }

  /** The defaults the constructor sets. */
  function DefaultFields(): ServerFields {
    ServerFields(Some(DefaultUsername), Some(DefaultPassword), Some([MarketBucket()]))
  }

  // ---------------------------------------------------------------- the builder's promises

  /**
   * The environment and callback a configuration step leaves, for a library that merges
   * as documented: server fields set by the step win, the rest are kept; the environment
   * gains the step's variables; a callback set by the step replaces the old one.
   */
  lemma CloneKeepsServerFields(b: Builder, settings: ContainerSettings)
    requires AsDocumented(b.library)
    ensures b.Clone(settings).configuration.Fields() == b.configuration.Fields()
    ensures b.Clone(settings).configuration.container.environment
            == b.configuration.container.environment + settings.environment
    ensures b.Clone(settings).configuration.container.startupCallback
            == (if settings.startupCallback.Some? then settings.startupCallback
                else b.configuration.container.startupCallback)
  {
  }

  /**
   * `WithUsername(u)`: the configuration's Username becomes `u` and so does the
   * COUCHBASE_ADMINISTRATOR_USERNAME variable; password, buckets, the other variables and
   * the startup callback are kept.
   */
  lemma WithUsernameSetsUsername(b: Builder, username: string)
    requires AsDocumented(b.library)
    ensures var r := b.WithUsername(username);
      r.library == b.library
      && r.configuration.Fields() == b.configuration.Fields().(username := Some(username))
      && r.configuration.container.environment == b.configuration.container.environment[UsernameVariable := username]
      && r.configuration.container.startupCallback == b.configuration.container.startupCallback
  {
    var m := b.Merge(b.configuration, WithFields(username := Some(username)));
    CloneKeepsServerFields(m, ContainerSettings(map[UsernameVariable := username], None));
  }

  /** `WithPassword(p)`: the same for Password and COUCHBASE_ADMINISTRATOR_PASSWORD. */
  lemma WithPasswordSetsPassword(b: Builder, password: string)
    requires AsDocumented(b.library)
    ensures var r := b.WithPassword(password);
      r.library == b.library
      && r.configuration.Fields() == b.configuration.Fields().(password := Some(password))
      && r.configuration.container.environment == b.configuration.container.environment[PasswordVariable := password]
      && r.configuration.container.startupCallback == b.configuration.container.startupCallback
  {
    var m := b.Merge(b.configuration, WithFields(password := Some(password)));
    CloneKeepsServerFields(m, ContainerSettings(map[PasswordVariable := password], None));
  }

  /** `WithBucket(bs)` appends `bs` to the buckets already configured, and changes nothing else. */
  lemma WithBucketAppends(b: Builder, buckets: seq<Bucket>)
    requires AsDocumented(b.library)
    ensures var r := b.WithBucket(buckets);
      r.configuration.username == b.configuration.username
      && r.configuration.password == b.configuration.password
      && r.configuration.buckets == Some((if b.configuration.buckets.Some? then b.configuration.buckets.value else []) + buckets)
      && r.configuration.container == b.configuration.container
  {
    if b.configuration.buckets.None? {
      assert [] + buckets == buckets;
    }
  }

  /**
   * The constructor configures the default credentials, in the fields and in the two
   * environment variables, and the single bucket "market".
   */
  lemma NewSetsDefaults(library: Combine)
    requires AsDocumented(library)
    ensures New(library).configuration.Fields() == DefaultFields()
    ensures New(library).configuration.container.environment
            == map[UsernameVariable := DefaultUsername, PasswordVariable := DefaultPassword]
  {
    var initial := Builder(library, WithFields());
    var u := initial.WithUsername(DefaultUsername);
    WithUsernameSetsUsername(initial, DefaultUsername);
    var p := u.WithPassword(DefaultPassword);
    WithPasswordSetsPassword(u, DefaultPassword);
    var before := p.WithBucket([MarketBucket()]);
    WithBucketAppends(p, [MarketBucket()]);
    CloneKeepsServerFields(before, NoSettings);
    // The merge is field by field, so every Clone of `before` has these fields,
    // including the builder that registering the callback itself produces.
    var owner := before.Clone(NoSettings).configuration.Fields();
    CloneKeepsServerFields(before, ContainerSettings(map[], Some(owner)));
    assert map[][UsernameVariable := DefaultUsername][PasswordVariable := DefaultPassword] + map[]
           == map[UsernameVariable := DefaultUsername, PasswordVariable := DefaultPassword];
  }

  /**
   * Under the documented merge rules, the callback the constructor registers survives the
   * rest of `Init` and is bound to the server fields of the builder it returns. (That the
   * fields do not depend on the callback holds for any library, by `MergeIsFieldwise`.)
   */
  lemma NewBindsCallbackToItself(library: Combine)
    requires AsDocumented(library)
    ensures New(library).configuration.container.startupCallback == Some(New(library).configuration.Fields())
  {
    var initial := Builder(library, WithFields());
    var before := initial.WithUsername(DefaultUsername).WithPassword(DefaultPassword).WithBucket([MarketBucket()]);
    // The merge is field by field, so every Clone of `before` has these fields,
    // including the builder that registering the callback itself produces.
    var owner := before.Clone(NoSettings).configuration.Fields();
    MergeIsFieldwise(library, before.configuration, FromContainerSettings(NoSettings),
                     before.configuration, FromContainerSettings(ContainerSettings(map[], Some(owner))));
  }

  // ---------------------------------------------------------------- what starting does

  /**
   * As written, starting a container built with any username and password runs the
   * provisioning commands with the constructor's defaults: the callback stays bound to the
   * builder the constructor returned, not to the one `Build` is called on.
   */
  lemma StartUsesConstructorDefaults(library: Combine, username: string, password: string, respond: Oracle)
    requires AsDocumented(library)
    ensures var b := New(library).WithUsername(username).WithPassword(password);
      b.configuration.Fields() == DefaultFields().(username := Some(username), password := Some(password))
      && b.configuration.container.environment
         == map[UsernameVariable := username, PasswordVariable := password]
      && New(library).configuration.Fields() == DefaultFields()
      && StartAsWritten(b.Build(), respond) == Provision(New(library).configuration.Fields(), respond, [])
  {
    var n := New(library);
    NewSetsDefaults(library);
    NewBindsCallbackToItself(library);
    WithUsernameSetsUsername(n, username);
    var u := n.WithUsername(username);
    WithPasswordSetsPassword(u, password);
    assert map[UsernameVariable := DefaultUsername, PasswordVariable := DefaultPassword][UsernameVariable := username][PasswordVariable := password]
           == map[UsernameVariable := username, PasswordVariable := password];
  }

  /**
   * The discrepancy in general: whatever credentials the builder is given, the container
   * is told them through its environment, yet cluster-init runs with the defaults.
   */
  lemma CustomCredentialsIgnored(library: Combine, username: string, password: string, respond: Oracle)
    requires AsDocumented(library)
    ensures var b := New(library).WithUsername(username).WithPassword(password);
      var run := StartAsWritten(b.Build(), respond);
      b.configuration.container.environment == map[UsernameVariable := username, PasswordVariable := password]
      && run.events != [] && run.events[0].Exec?
      && Argument(run.events[0].argv, "--cluster-username") == Some(Some(DefaultUsername))
      && Argument(run.events[0].argv, "--cluster-password") == Some(Some(DefaultPassword))
  {
    StartUsesConstructorDefaults(library, username, password, respond);
    ProvisionStartsWithClusterInit(DefaultFields(), respond, []);
    ClusterInitArguments(DefaultFields());
  }

  /**
   * The discrepancy on one input: with username "alice" and password "secret", the
   * container's administrator is alice, yet cluster-init runs as "Administrator".
   */
  lemma AliceIsIgnored()
    ensures var b := New(DocumentedCombine()).WithUsername("alice").WithPassword("secret");
      var run := StartAsWritten(b.Build(), AlwaysSucceeds());
      b.configuration.username == Some("alice")
      && run.events != [] && run.events[0].Exec?
      && Argument(run.events[0].argv, "--cluster-username") != Some(b.configuration.username)
  {
    DocumentedCombineIsDocumented();
    CustomCredentialsIgnored(DocumentedCombine(), "alice", "secret", AlwaysSucceeds());
    StartUsesConstructorDefaults(DocumentedCombine(), "alice", "secret", AlwaysSucceeds());
    assert "alice" != DefaultUsername by { assert "alice"[0] != DefaultUsername[0]; }
  }

  /**
   * Corrected: provisioning from the configuration that is built runs cluster-init with
   * exactly the credentials the builder was given, which are also the ones in the
   * container's environment.
   */
  lemma IntendedUsesConfiguredCredentials(library: Combine, username: string, password: string, respond: Oracle)
    requires AsDocumented(library)
    ensures var b := New(library).WithUsername(username).WithPassword(password);
      var run := StartIntended(b.Build(), respond);
      b.configuration.container.environment == map[UsernameVariable := username, PasswordVariable := password]
      && run.events != [] && run.events[0].Exec?
      && Argument(run.events[0].argv, "--cluster-username") == Some(Some(username))
      && Argument(run.events[0].argv, "--cluster-password") == Some(Some(password))
  {
    StartUsesConstructorDefaults(library, username, password, respond);
    var b := New(library).WithUsername(username).WithPassword(password);
    ProvisionStartsWithClusterInit(b.configuration.Fields(), respond, []);
    ClusterInitArguments(b.configuration.Fields());
  }
}

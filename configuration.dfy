/**
 * CouchbaseServerConfiguration.cs: the three server properties added to the generic
 * container configuration, its constructors and its field-by-field merge.
 */
module Configurations {

  import opened Wrappers
  import opened Buckets

  /** Username, Password and Buckets: what the provisioning commands read. */
  datatype ServerFields = ServerFields(
    username: Option<string>,
    password: Option<string>,
    buckets: Option<seq<Bucket>>)

  /**
   * The part of the inherited container configuration this model follows: the
   * environment variables and the startup callback. A callback `Some(owner)` stands for
   * `OnContainerStartingAsync` bound to a builder whose server fields are `owner`.
   */
  datatype ContainerSettings = ContainerSettings(
    environment: map<string, string>,
    startupCallback: Option<ServerFields>)

  const NoSettings := ContainerSettings(map[], None)

  /** Every property is get-only: a configuration is a value. */
  datatype Configuration = Configuration(
    username: Option<string>,
    password: Option<string>,
    buckets: Option<seq<Bucket>>,
    container: ContainerSettings)
  {
    function Fields(): ServerFields {
      ServerFields(username, password, buckets)
    }
  }

  /**
   * The library's merge rules, which are not part of this model: `BuildConfiguration.Combine`
   * at the two types the merge constructor uses, and the base `ContainerConfiguration`
   * merge constructor. A merge is correct for every choice of these.
   */
  datatype Combine = Combine(
    text: (Option<string>, Option<string>) -> Option<string>,
    buckets: (Option<seq<Bucket>>, Option<seq<Bucket>>) -> Option<seq<Bucket>>,
    container: (ContainerSettings, ContainerSettings) -> ContainerSettings)

  /**
   * ASSUMPTION, not proved: the library merges as it documents. A set value on the new
   * side wins and null means unset; bucket sequences are concatenated, old first;
   * environment maps are united with the new side winning; a set callback replaces the old one.
   */
  ghost predicate AsDocumented(combine: Combine) {
    (forall a, b :: combine.text(a, b) == (if b.Some? then b else a))
    && (forall a, b :: combine.buckets(a, b) == CombineBuckets(a, b))
    && (forall s, t :: combine.container(s, t) ==
          ContainerSettings(
            s.environment + t.environment,
            if t.startupCallback.Some? then t.startupCallback else s.startupCallback))
  }

  function CombineBuckets(a: Option<seq<Bucket>>, b: Option<seq<Bucket>>): Option<seq<Bucket>> {
    if a.None? then b else if b.None? then a else Some(a.value + b.value)
  }

  /** One library that merges as documented, so the assumption can be met. */
  function DocumentedCombine(): Combine {
    Combine(
      (a: Option<string>, b: Option<string>) => if b.Some? then b else a,
      (a, b) => CombineBuckets(a, b),
      (s: ContainerSettings, t: ContainerSettings) =>
        ContainerSettings(
          s.environment + t.environment,
          if t.startupCallback.Some? then t.startupCallback else s.startupCallback))
  }

  lemma DocumentedCombineIsDocumented()
    ensures AsDocumented(DocumentedCombine())
  {
  }

  /** The optional-argument constructor: omitted arguments are null. */
  function WithFields(username: Option<string> := None, password: Option<string> := None,
                      buckets: Option<seq<Bucket>> := None): (c: Configuration)
    ensures c.Fields() == ServerFields(username, password, buckets)
    ensures c.container == NoSettings
  {
    Configuration(username, password, buckets, NoSettings)
  }

  /** The constructors taking a generic container or resource configuration. */
  function FromContainerSettings(settings: ContainerSettings): (c: Configuration)
    ensures c.Fields() == ServerFields(None, None, None)
    ensures c.container == settings
  {
    Configuration(None, None, None, settings)
  }

  /** The merge constructor `(oldValue, newValue)`. */
  function Merge(combine: Combine, oldValue: Configuration, newValue: Configuration): Configuration {
    Configuration(
      combine.text(oldValue.username, newValue.username),
      combine.text(oldValue.password, newValue.password),
      combine.buckets(oldValue.buckets, newValue.buckets),
      combine.container(oldValue.container, newValue.container))
  }

  /**
   * No field feeds into another: each merged property is determined by the same
   * property of the two inputs alone, whatever the library does.
   */
  lemma MergeIsFieldwise(combine: Combine, o1: Configuration, n1: Configuration,
                         o2: Configuration, n2: Configuration)
    ensures o1.username == o2.username && n1.username == n2.username
            ==> Merge(combine, o1, n1).username == Merge(combine, o2, n2).username
    ensures o1.password == o2.password && n1.password == n2.password
            ==> Merge(combine, o1, n1).password == Merge(combine, o2, n2).password
    ensures o1.buckets == o2.buckets && n1.buckets == n2.buckets
            ==> Merge(combine, o1, n1).buckets == Merge(combine, o2, n2).buckets
    ensures o1.Fields() == o2.Fields() && n1.Fields() == n2.Fields()
            ==> Merge(combine, o1, n1).Fields() == Merge(combine, o2, n2).Fields()
  {
  }

  /** Under the documented library: the new side's set fields win, unset ones keep the old value. */
  lemma MergeIsRightBiased(combine: Combine, oldValue: Configuration, newValue: Configuration)
    requires AsDocumented(combine)
    ensures var m := Merge(combine, oldValue, newValue);
      m.username == (if newValue.username.Some? then newValue.username else oldValue.username)
      && m.password == (if newValue.password.Some? then newValue.password else oldValue.password)
      && m.buckets == CombineBuckets(oldValue.buckets, newValue.buckets)
      && m.container.environment == oldValue.container.environment + newValue.container.environment
  {
  }
}

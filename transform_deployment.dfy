/** Normalisation of one deployment (src/transform.rs): its application reference, its
    variables, configs and secrets, its resource defaults and its per-service overrides
    (prefixes, resources and `"external:internal"` ports). What the conversion reads from
    outside the descriptor is given as `Inputs`. */
module TransformDeployment {
  import opened Wrappers
  import opened Strings
  import opened Spec
  import opened SpecYaml
  import EnvLoader

  /** The `.env` files by path, as their lines; the config directories by their path in the
      descriptor, as the files they hold; and the semantic-version requirement parser, which
      gives the requirement's text or the parser's error. */
  datatype Inputs = Inputs(
    envFiles: map<string, seq<string>>,
    configDirs: map<string, seq<string>>,
    versionReq: string -> Result<string>)

  // ----- secrets -----

  /** Where a deployment takes a secret from: a bare string is the value itself; otherwise
      exactly one of `env` and `file` must be given. */
  function SecretSourceOf(name: string, v: DeploymentSecretSpecExYaml): (r: Result<DeploymentSecretSource>)
    ensures r.Ok? <==> v.LocalSecret? || (v.source.env.Some? != v.source.file.Some?)
    ensures v.LocalSecret? ==> r == Ok(Embedded(v.value))
    ensures r.Ok? && v.DetailedSource? && v.source.env.Some? ==> r.value == SourceEnvVariable(v.source.env.value)
    ensures r.Ok? && v.DetailedSource? && v.source.file.Some? ==> r.value == SourceFilePath(v.source.file.value)
    ensures v.DetailedSource? && v.source.env.Some? && v.source.file.Some? ==>
      r == Err("Secret " + name + " cannot have both env and file sources")
    ensures v.DetailedSource? && v.source.env.None? && v.source.file.None? ==>
      r == Err("Secret " + name + " must have either env or file source")
  {
    match v
    case DetailedSource(s) =>
      if s.env.Some? && s.file.Some? then Err("Secret " + name + " cannot have both env and file sources")
      else if s.env.Some? then Ok(SourceEnvVariable(s.env.value))
      else if s.file.Some? then Ok(SourceFilePath(s.file.value))
      else Err("Secret " + name + " must have either env or file source")
    case LocalSecret(value) => Ok(Embedded(value))
  }

  function DeploymentSecretOf(entry: (string, DeploymentSecretSpecExYaml)): Result<DeploymentSecretSpec> {
    var source :- SecretSourceOf(entry.0, entry.1);
    Ok(DeploymentSecretSpec(entry.0, source))
  }

  /** The secrets of a deployment, one per entry; the first bad entry fails them all. */
  function DeploymentSecretsOf(secrets: Option<Entries<DeploymentSecretSpecExYaml>>): Result<seq<DeploymentSecretSpec>> {
    CollectAll(DeploymentSecretOf, secrets.GetOr([]))
  }

  /** The secrets loop of `convert_deployment`. */
  method ConvertDeploymentSecrets(secrets: Option<Entries<DeploymentSecretSpecExYaml>>)
    returns (r: Result<seq<DeploymentSecretSpec>>)
    ensures r == DeploymentSecretsOf(secrets)
  {
    var entries := secrets.GetOr([]);
    var list := [];
    var i := 0;
    while i < |entries|
      invariant i <= |entries|
      invariant CollectAll(DeploymentSecretOf, entries[..i]) == Ok(list)
    {
      assert entries[..i + 1][..i] == entries[..i];
      var (k, v) := entries[i];
      var source;
      match v {
        case DetailedSource(s) =>
          if s.env.Some? && s.file.Some? {
            CollectAllStops(DeploymentSecretOf, entries, i + 1);
            return Err("Secret " + k + " cannot have both env and file sources");
          }
          if s.env.Some? {
            source := SourceEnvVariable(s.env.value);
          } else if s.file.Some? {
            source := SourceFilePath(s.file.value);
          } else {
            CollectAllStops(DeploymentSecretOf, entries, i + 1);
            return Err("Secret " + k + " must have either env or file source");
          }
        case LocalSecret(value) =>
          source := Embedded(value);
      }
      list := list + [DeploymentSecretSpec(k, source)];
      i := i + 1;
    }
    assert entries[..i] == entries;
    r := Ok(list);
  }

  /** The secrets convert exactly when every entry is a bare value or names exactly one
      source, and then each entry gives the secret of its key from that source. */
  lemma DeploymentSecretsExact(secrets: Option<Entries<DeploymentSecretSpecExYaml>>)
    ensures var entries := secrets.GetOr([]);
      DeploymentSecretsOf(secrets).Ok? <==>
        forall k :: 0 <= k < |entries| ==>
          entries[k].1.LocalSecret? || (entries[k].1.source.env.Some? != entries[k].1.source.file.Some?)
    ensures var entries := secrets.GetOr([]);
      DeploymentSecretsOf(secrets).Ok? ==>
        var r := DeploymentSecretsOf(secrets).value;
        |r| == |entries|
        && forall k :: 0 <= k < |entries| ==>
             r[k] == DeploymentSecretSpec(entries[k].0, SecretSourceOf(entries[k].0, entries[k].1).value)
  {
    var entries := secrets.GetOr([]);
    CollectAllOk(DeploymentSecretOf, entries);
    if DeploymentSecretsOf(secrets).Ok? {
      CollectAllElements(DeploymentSecretOf, entries);
    }
  }

  // ----- resources -----

  const DefaultMemory := "128Mi"
  const DefaultCpu := "100m"

  /** `convert_limits`: each of memory and cpu as written, else its default. */
  function LimitsOf(y: Option<ResourceLimitsYaml>): (r: ResourceLimits)
    ensures y.None? ==> r == ResourceLimits(DefaultMemory, DefaultCpu)
    ensures y.Some? && y.value.memory.Some? ==> r.memory == y.value.memory.value
    ensures y.Some? && y.value.memory.None? ==> r.memory == DefaultMemory
    ensures y.Some? && y.value.cpu.Some? ==> r.cpu == y.value.cpu.value
    ensures y.Some? && y.value.cpu.None? ==> r.cpu == DefaultCpu
  {
    match y
    case Some(l) => ResourceLimits(l.memory.GetOr(DefaultMemory), l.cpu.GetOr(DefaultCpu))
    case None => ResourceLimits(DefaultMemory, DefaultCpu)
  }

  /** A deployment's resource defaults: one replica and the default limits unless written. */
  function DefaultsOf(def: Option<DefaultsSpecYaml>): (r: ResourcesSpec)
    ensures def.None? ==> r == ResourcesSpec(1, LimitsOf(None), LimitsOf(None))
    ensures def.Some? ==> r.replicas == def.value.replicas.GetOr(1)
    ensures def.Some? && def.value.resources.None? ==> r.requests == LimitsOf(None) && r.limits == LimitsOf(None)
    ensures def.Some? && def.value.resources.Some? ==>
      r.requests == LimitsOf(def.value.resources.value.requests) && r.limits == LimitsOf(def.value.resources.value.limits)
  {
    match def
    case None => ResourcesSpec(1, ResourceLimits(DefaultMemory, DefaultCpu), ResourceLimits(DefaultMemory, DefaultCpu))
    case Some(d) =>
      var replicas := d.replicas.GetOr(1);
      match d.resources
      case Some(res) => ResourcesSpec(replicas, LimitsOf(res.requests), LimitsOf(res.limits))
      case None => ResourcesSpec(replicas, ResourceLimits(DefaultMemory, DefaultCpu), ResourceLimits(DefaultMemory, DefaultCpu))
  }

  /** A service's resources: its replicas or the deployment's; its own `resources` block if
      it has one (each missing side taking the built-in default, not the deployment's), else
      the deployment's requests and limits. */
  function ServiceResourcesOf(yaml: DeploymentServiceSpecYaml, defaults: ResourcesSpec): (r: ResourcesSpec)
    ensures r.replicas == yaml.replicas.GetOr(defaults.replicas)
    ensures yaml.resources.None? ==> r.requests == defaults.requests && r.limits == defaults.limits
    ensures yaml.resources.Some? ==>
      r.requests == LimitsOf(yaml.resources.value.requests) && r.limits == LimitsOf(yaml.resources.value.limits)
  {
    var replicas := yaml.replicas.GetOr(defaults.replicas);
    match yaml.resources
    case Some(res) => ResourcesSpec(replicas, LimitsOf(res.requests), LimitsOf(res.limits))
    case None =>
      ResourcesSpec(replicas,
        ResourceLimits(defaults.requests.memory, defaults.requests.cpu),
        ResourceLimits(defaults.limits.memory, defaults.limits.cpu))
  }

  /** A service `resources` block that gives only limits resets the requests to the built-in
      default, whatever the deployment's defaults say. */
  lemma PartialResourcesIgnoreDefaults(yaml: DeploymentServiceSpecYaml, defaults: ResourcesSpec)
    requires yaml.resources.Some? && yaml.resources.value.requests.None?
    ensures ServiceResourcesOf(yaml, defaults).requests == ResourceLimits("128Mi", "100m")
  {
  }

  // ----- prefixes -----

  /** The route prefixes of a service: one per `prefixes` entry, stripped only when the entry
      says `strip: true`; then the single `prefix`, last, stripped unless it says
      `strip_prefix: false`. */
  function PrefixesOf(yaml: DeploymentServiceSpecYaml): (r: seq<Prefix>)
    ensures var entries := yaml.prefixes.GetOr([]);
      && |r| == |entries| + (if yaml.prefix.Some? then 1 else 0)
      && (forall k :: 0 <= k < |entries| ==>
            r[k] == Prefix(entries[k].0, entries[k].1.strip == Some(true)))
      && (yaml.prefix.Some? ==> r[|r| - 1] == Prefix(yaml.prefix.value, yaml.strip_prefix != Some(false)))
  {
    var entries := yaml.prefixes.GetOr([]);
    seq(|entries|, k requires 0 <= k < |entries| => Prefix(entries[k].0, entries[k].1.strip.GetOr(false)))
    + (if yaml.prefix.Some? then [Prefix(yaml.prefix.value, yaml.strip_prefix.GetOr(true))] else [])
  }

  /** The `prefixes` vector, built by pushes. */
  method CollectPrefixes(yaml: DeploymentServiceSpecYaml) returns (r: seq<Prefix>)
    ensures r == PrefixesOf(yaml)
  {
    var entries := yaml.prefixes.GetOr([]);
    r := [];
    var i := 0;
    while i < |entries|
      invariant i <= |entries| && |r| == i
      invariant forall k :: 0 <= k < i ==> r[k] == Prefix(entries[k].0, entries[k].1.strip.GetOr(false))
    {
      r := r + [Prefix(entries[i].0, entries[i].1.strip.GetOr(false))];
      i := i + 1;
    }
    if yaml.prefix.Some? {
      r := r + [Prefix(yaml.prefix.value, yaml.strip_prefix.GetOr(true))];
    }
  }

  // ----- ports -----

  /** A port `"external:internal"`, split at the first `:`, each side a 16-bit number. */
  function PortOf(s: string): (r: Result<ServicePort>)
    ensures ':' !in s ==> r == Err("Invalid port format '" + s + "'. Expected format 'external:internal'")
  {
    match SplitOnce(s, ':')
    case None => Err("Invalid port format '" + s + "'. Expected format 'external:internal'")
    case Some((e, i)) =>
      var external :- WithContext(ParseU16(e), "Invalid external port '" + e + "' in '" + s + "'");
      var internal :- WithContext(ParseU16(i), "Invalid internal port '" + i + "' in '" + s + "'");
      Ok(ServicePort(external, internal))
  }

  /** `ext:int` with no `:` in `ext` is a port exactly when both sides parse as 16-bit
      numbers, and then it is those two numbers; a bad side is reported with its text. */
  lemma PortAccepts(ext: string, inner: string)
    requires ':' !in ext
    ensures var r := PortOf(ext + ":" + inner);
      && (r.Ok? <==> ParseU16(ext).Ok? && ParseU16(inner).Ok?)
      && (r.Ok? ==> r.value == ServicePort(ParseU16(ext).value, ParseU16(inner).value))
      && (ParseU16(ext).Err? ==>
            r == Err("Invalid external port '" + ext + "' in '" + (ext + ":" + inner) + "': " + ParseU16(ext).msg))
  {
    SplitFirst(ext, ':', inner);
  }

  /** Writing two 16-bit numbers as `ext:int` and parsing gives them back. */
  lemma PortFormat(external: u16, internal: u16)
    ensures PortOf(NatToString(external) + ":" + NatToString(internal)) == Ok(ServicePort(external, internal))
  {
    var e := NatToString(external);
    assert forall k :: 0 <= k < |e| ==> e[k] != ':';
    ParseU16Format(external);
    ParseU16Format(internal);
    PortAccepts(e, NatToString(internal));
  }

  // ----- one service override -----

  /** `convert_deployment_service`: variant and host as written, the prefixes, the resources
      against the deployment's defaults, and the ports; only a bad port fails it. */
  function DeploymentServiceOf(yaml: DeploymentServiceSpecYaml, defaults: ResourcesSpec): Result<DeploymentServiceSpec> {
    var ports :- CollectAll(PortOf, yaml.ports.GetOr([]));
    Ok(DeploymentServiceSpec(yaml.variant, yaml.host, PrefixesOf(yaml), ServiceResourcesOf(yaml, defaults), ports))
  }

  method ConvertDeploymentService(yaml: DeploymentServiceSpecYaml, defaults: ResourcesSpec)
    returns (r: Result<DeploymentServiceSpec>)
    ensures r == DeploymentServiceOf(yaml, defaults)
  {
    var prefixes := CollectPrefixes(yaml);
    var resources := ServiceResourcesOf(yaml, defaults);
    var ports := CollectAll(PortOf, yaml.ports.GetOr([]));
    if ports.Err? {
      return Err(ports.msg);
    }
    r := Ok(DeploymentServiceSpec(yaml.variant, yaml.host, prefixes, resources, ports.value));
  }

  /** An override converts exactly when all its ports do, and then has one port per entry,
      each the parse of its entry. */
  lemma DeploymentServicePorts(yaml: DeploymentServiceSpecYaml, defaults: ResourcesSpec)
    ensures var ports := yaml.ports.GetOr([]);
      DeploymentServiceOf(yaml, defaults).Ok? <==> forall k :: 0 <= k < |ports| ==> PortOf(ports[k]).Ok?
    ensures var ports := yaml.ports.GetOr([]);
      DeploymentServiceOf(yaml, defaults).Ok? ==>
        var r := DeploymentServiceOf(yaml, defaults).value;
        |r.ports| == |ports| && forall k :: 0 <= k < |ports| ==> PortOf(ports[k]) == Ok(r.ports[k])
  {
    CollectAllOk(PortOf, yaml.ports.GetOr([]));
    if DeploymentServiceOf(yaml, defaults).Ok? {
      CollectAllElements(PortOf, yaml.ports.GetOr([]));
    }
  }

  /** The overrides of a deployment, keyed by service name (a later entry replaces an earlier
      one with the same key); the first bad override fails them all. */
  function ServiceOverridesOf(entries: Entries<DeploymentServiceSpecYaml>, defaults: ResourcesSpec)
    : Result<map<string, DeploymentServiceSpec>>
  {
    if |entries| == 0 then Ok(map[])
    else
      var prev :- ServiceOverridesOf(entries[..|entries| - 1], defaults);
      var last := entries[|entries| - 1];
      var s :- DeploymentServiceOf(last.1, defaults);
      Ok(prev[last.0 := s])
  }

  /** The services loop of `convert_deployment`: each override converted and inserted. */
  method ConvertServiceOverrides(entries: Entries<DeploymentServiceSpecYaml>, defaults: ResourcesSpec)
    returns (r: Result<map<string, DeploymentServiceSpec>>)
    ensures r == ServiceOverridesOf(entries, defaults)
  {
    var m := map[];
    var i := 0;
    while i < |entries|
      invariant i <= |entries|
      invariant ServiceOverridesOf(entries[..i], defaults) == Ok(m)
    {
      assert entries[..i + 1][..i] == entries[..i];
      var s := ConvertDeploymentService(entries[i].1, defaults);
      if s.Err? {
        OverridesStop(entries, defaults, i + 1);
        return Err(s.msg);
      }
      m := m[entries[i].0 := s.value];
      i := i + 1;
    }
    assert entries[..i] == entries;
    r := Ok(m);
  }

  lemma {:induction false} OverridesStop(entries: Entries<DeploymentServiceSpecYaml>, defaults: ResourcesSpec, i: nat)
    requires i <= |entries| && ServiceOverridesOf(entries[..i], defaults).Err?
    ensures ServiceOverridesOf(entries, defaults) == ServiceOverridesOf(entries[..i], defaults)
  {
    if i == |entries| {
      assert entries[..i] == entries;
    } else {
      var init := entries[..|entries| - 1];
      assert init[..i] == entries[..i];
      OverridesStop(init, defaults, i);
    }
  }

  /** The overrides map has exactly the entries' keys. */
  lemma {:induction false} ServiceOverridesKeys(entries: Entries<DeploymentServiceSpecYaml>, defaults: ResourcesSpec)
    requires ServiceOverridesOf(entries, defaults).Ok?
    ensures ServiceOverridesOf(entries, defaults).value.Keys == EntryKeys(entries)
  {
    if |entries| > 0 {
      var init := entries[..|entries| - 1];
      ServiceOverridesKeys(init, defaults);
      assert EntryKeys(entries) == EntryKeys(init) + {entries[|entries| - 1].0} by {
        assert forall k :: 0 <= k < |init| ==> init[k] == entries[k];
      }
    }
  }

  /** An entry whose key no later entry repeats (any entry, since the keys of a YAML mapping
      are distinct) is in the overrides map as its own conversion. */
  lemma {:induction false} ServiceOverrideOfEntry(entries: Entries<DeploymentServiceSpecYaml>, defaults: ResourcesSpec, k: nat)
    requires ServiceOverridesOf(entries, defaults).Ok?
    requires k < |entries| && forall j :: k < j < |entries| ==> entries[j].0 != entries[k].0
    ensures var m := ServiceOverridesOf(entries, defaults).value;
      entries[k].0 in m && DeploymentServiceOf(entries[k].1, defaults) == Ok(m[entries[k].0])
  {
    var init := entries[..|entries| - 1];
    if k < |init| {
      assert init[k] == entries[k];
      ServiceOverrideOfEntry(init, defaults, k);
    }
  }

  // ----- variables, application and configs -----

  /** `convert_env_variables`: a `.env` file loaded line by line (an unknown path cannot be
      opened), or a list of entries each needing a value. */
  function EnvVariablesOf(y: Option<DeploymentEnvVariablesYaml>, envFiles: map<string, seq<string>>): Result<seq<EnvVariable>> {
    match y
    case None => Ok([])
    case Some(FromEnvFile(path)) =>
      if path in envFiles then EnvLoader.LoadEnvLines(envFiles[path])
      else Err("Failed to open .env file: " + Quoted(path))
    case Some(FromList(list)) => CollectAll(EnvLoader.ParseEnvVariable, list)
  }

  method ConvertEnvVariables(y: Option<DeploymentEnvVariablesYaml>, envFiles: map<string, seq<string>>)
    returns (r: Result<seq<EnvVariable>>)
    ensures r == EnvVariablesOf(y, envFiles)
  {
    match y {
      case None =>
        r := Ok([]);
      case Some(FromEnvFile(path)) =>
        if path in envFiles {
          r := EnvLoader.LoadEnvFile(envFiles[path]);
        } else {
          r := Err("Failed to open .env file: " + Quoted(path));
        }
      case Some(FromList(list)) =>
        r := CollectAll(EnvLoader.ParseEnvVariable, list);
    }
  }

  /** No variables when none are given; a `.env` file that cannot be opened is an error
      naming it, and one that loads gives the variables of its kept lines in file order; a
      list converts exactly when every entry has a value, one variable per entry. */
  lemma EnvVariablesExact(y: Option<DeploymentEnvVariablesYaml>, envFiles: map<string, seq<string>>)
    ensures y.None? ==> EnvVariablesOf(y, envFiles) == Ok([])
    ensures y.Some? && y.value.FromEnvFile? && y.value.path !in envFiles ==>
      EnvVariablesOf(y, envFiles) == Err("Failed to open .env file: " + Quoted(y.value.path))
    ensures y.Some? && y.value.FromEnvFile? && y.value.path in envFiles && EnvVariablesOf(y, envFiles).Ok? ==>
      EnvVariablesOf(y, envFiles) == CollectAll(EnvLoader.ParseEnvVariable, EnvLoader.KeptLines(envFiles[y.value.path]))
    ensures y.Some? && y.value.FromList? ==>
      (EnvVariablesOf(y, envFiles).Ok? <==>
        forall k :: 0 <= k < |y.value.list| ==> EnvLoader.ParseEnvVariable(y.value.list[k]).Ok?)
    ensures y.Some? && y.value.FromList? && EnvVariablesOf(y, envFiles).Ok? ==>
      var r := EnvVariablesOf(y, envFiles).value;
      |r| == |y.value.list|
      && forall k :: 0 <= k < |r| ==> EnvLoader.ParseEnvVariable(y.value.list[k]) == Ok(r[k])
  {
    match y {
      case None =>
      case Some(FromEnvFile(path)) =>
        if path in envFiles && EnvLoader.LoadEnvLines(envFiles[path]).Ok? {
          EnvLoader.LoadKeepsOrder(envFiles[path]);
        }
      case Some(FromList(list)) =>
        CollectAllOk(EnvLoader.ParseEnvVariable, list);
        if CollectAll(EnvLoader.ParseEnvVariable, list).Ok? {
          CollectAllElements(EnvLoader.ParseEnvVariable, list);
        }
    }
  }

  /** `convert_deployment_app`: the version requirement, if any, must parse. */
  function DeploymentAppOf(yaml: DeploymentAppSpecYaml, versionReq: string -> Result<string>): (r: Result<DeploymentAppSpec>)
    ensures r.Ok? <==> yaml.version.None? || versionReq(yaml.version.value).Ok?
    ensures r.Ok? ==> r.value.name == yaml.name && r.value.extra == yaml.extra.GetOr([])
  {
    match yaml.version
    case None => Ok(DeploymentAppSpec(yaml.name, None, yaml.extra.GetOr([])))
    case Some(v) =>
      var req :- versionReq(v);
      Ok(DeploymentAppSpec(yaml.name, Some(req), yaml.extra.GetOr([])))
  }

  /** The configs of a deployment: each entry names a directory, whose files it lists; a
      path that is not a directory fails them all. */
  function ConfigsOf(entries: Entries<string>, configDirs: map<string, seq<string>>): Result<seq<ConfigSpec>> {
    if |entries| == 0 then Ok([])
    else
      var prev :- ConfigsOf(entries[..|entries| - 1], configDirs);
      var (k, v) := entries[|entries| - 1];
      if v in configDirs then Ok(prev + [ConfigSpec(k, configDirs[v])])
      else Err("Config path " + v + " is not a directory")
  }

  /** The configs loop of `convert_deployment`. */
  method ConvertConfigs(entries: Entries<string>, configDirs: map<string, seq<string>>)
    returns (r: Result<seq<ConfigSpec>>)
    ensures r == ConfigsOf(entries, configDirs)
  {
    var specs := [];
    var i := 0;
    while i < |entries|
      invariant i <= |entries|
      invariant ConfigsOf(entries[..i], configDirs) == Ok(specs)
    {
      assert entries[..i + 1][..i] == entries[..i];
      var (k, v) := entries[i];
      if v !in configDirs {
        ConfigsStop(entries, configDirs, i + 1);
        return Err("Config path " + v + " is not a directory");
      }
      specs := specs + [ConfigSpec(k, configDirs[v])];
      i := i + 1;
    }
    assert entries[..i] == entries;
    r := Ok(specs);
  }

  lemma {:induction false} ConfigsStop(entries: Entries<string>, configDirs: map<string, seq<string>>, i: nat)
    requires i <= |entries| && ConfigsOf(entries[..i], configDirs).Err?
    ensures ConfigsOf(entries, configDirs) == ConfigsOf(entries[..i], configDirs)
  {
    if i == |entries| {
      assert entries[..i] == entries;
    } else {
      var init := entries[..|entries| - 1];
      assert init[..i] == entries[..i];
      ConfigsStop(init, configDirs, i);
    }
  }

  /** The configs convert exactly when every entry names a directory, and then each entry
      gives its key with that directory's files. */
  lemma {:induction false} ConfigsExact(entries: Entries<string>, configDirs: map<string, seq<string>>)
    ensures ConfigsOf(entries, configDirs).Ok? <==> forall k :: 0 <= k < |entries| ==> entries[k].1 in configDirs
    ensures ConfigsOf(entries, configDirs).Ok? ==>
      var r := ConfigsOf(entries, configDirs).value;
      |r| == |entries|
      && forall k :: 0 <= k < |entries| ==> r[k] == ConfigSpec(entries[k].0, configDirs[entries[k].1])
  {
    if |entries| > 0 {
      var init := entries[..|entries| - 1];
      ConfigsExact(init, configDirs);
      assert forall k :: 0 <= k < |init| ==> init[k] == entries[k];
    }
  }

  // ----- one deployment -----

  function OverridesOf(services: Option<Entries<DeploymentServiceSpecYaml>>, defaults: ResourcesSpec)
    : Result<Option<map<string, DeploymentServiceSpec>>>
  {
    match services
    case None => Ok(None)
    case Some(entries) =>
      var m :- ServiceOverridesOf(entries, defaults);
      Ok(Some(m))
  }

  /** `convert_deployment`: application, variables, undockerized variables, configs, secrets,
      defaults and service overrides, in that order, the first failure failing the whole.
      The conversion never fills `primary_host`. */
  function DeploymentOf(name: string, yaml: DeploymentSpecYaml, inputs: Inputs): Result<DeploymentSpec> {
    var application :- DeploymentAppOf(yaml.application, inputs.versionReq);
    var environment :- EnvVariablesOf(yaml.environment, inputs.envFiles);
    var undockerized :- EnvVariablesOf(yaml.undockerized_environment, inputs.envFiles);
    var configs :- ConfigsOf(yaml.configs.GetOr([]), inputs.configDirs);
    var secrets :- DeploymentSecretsOf(yaml.secrets);
    var defaults := DefaultsOf(yaml.defaults);
    var services :- OverridesOf(yaml.services, defaults);
    Ok(DeploymentSpec(name, "", application, environment, undockerized, configs, secrets, defaults, services))
  }

  method ConvertDeployment(name: string, yaml: DeploymentSpecYaml, inputs: Inputs) returns (r: Result<DeploymentSpec>)
    ensures r == DeploymentOf(name, yaml, inputs)
  {
    var application := DeploymentAppOf(yaml.application, inputs.versionReq);
    if application.Err? {
      return Err(application.msg);
    }
    var environment := ConvertEnvVariables(yaml.environment, inputs.envFiles);
    if environment.Err? {
      return Err(environment.msg);
    }
    var undockerized := ConvertEnvVariables(yaml.undockerized_environment, inputs.envFiles);
    if undockerized.Err? {
      return Err(undockerized.msg);
    }
    var configs := ConvertConfigs(yaml.configs.GetOr([]), inputs.configDirs);
    if configs.Err? {
      return Err(configs.msg);
    }
    var secrets := ConvertDeploymentSecrets(yaml.secrets);
    if secrets.Err? {
      return Err(secrets.msg);
    }
    var defaults := DefaultsOf(yaml.defaults);
    var services: Option<map<string, DeploymentServiceSpec>> := None;
    if yaml.services.Some? {
      var m := ConvertServiceOverrides(yaml.services.value, defaults);
      if m.Err? {
        return Err(m.msg);
      }
      services := Some(m.value);
    }
    r := Ok(DeploymentSpec(name, "", application.value, environment.value, undockerized.value,
      configs.value, secrets.value, defaults, services));
  }

  /** A converted deployment carries its key as name, no primary host, the application it
      names, the variables, configs and secrets of its entries, its defaults, and one
      override per entry of its `services` mapping, each converted under those defaults. */
  lemma DeploymentOutline(name: string, yaml: DeploymentSpecYaml, inputs: Inputs)
    requires DeploymentOf(name, yaml, inputs).Ok?
    ensures var d := DeploymentOf(name, yaml, inputs).value;
      && d.name == name && d.primary_host == "" && d.application.name == yaml.application.name
      && EnvVariablesOf(yaml.environment, inputs.envFiles) == Ok(d.environment)
      && EnvVariablesOf(yaml.undockerized_environment, inputs.envFiles) == Ok(d.undockerized_environment)
      && ConfigsOf(yaml.configs.GetOr([]), inputs.configDirs) == Ok(d.configs)
      && DeploymentSecretsOf(yaml.secrets) == Ok(d.secrets)
      && d.defaults == DefaultsOf(yaml.defaults)
      && (d.services.Some? <==> yaml.services.Some?)
    ensures var d := DeploymentOf(name, yaml, inputs).value;
      yaml.services.Some? ==>
        && d.services.value.Keys == EntryKeys(yaml.services.value)
        && forall k ::
          (0 <= k < |yaml.services.value|
           && forall j :: k < j < |yaml.services.value| ==> yaml.services.value[j].0 != yaml.services.value[k].0) ==>
          && yaml.services.value[k].0 in d.services.value
          && DeploymentServiceOf(yaml.services.value[k].1, d.defaults) == Ok(d.services.value[yaml.services.value[k].0])
  {
    if yaml.services.Some? {
      var entries, defaults := yaml.services.value, DefaultsOf(yaml.defaults);
      ServiceOverridesKeys(entries, defaults);
      forall k | 0 <= k < |entries| && (forall j :: k < j < |entries| ==> entries[j].0 != entries[k].0)
        ensures entries[k].0 in DeploymentOf(name, yaml, inputs).value.services.value
        ensures DeploymentServiceOf(entries[k].1, defaults) == Ok(DeploymentOf(name, yaml, inputs).value.services.value[entries[k].0])
      {
        ServiceOverrideOfEntry(entries, defaults, k);
      }
    }
  }
}

/** Normalisation of the application descriptor (src/transform.rs): the environment tiers
    with their per-tier rules, the application's secrets, and its services (type, image
    variants, environment selectors, config mounts and secret mounts). */
module TransformApp {
  import opened Wrappers
  import opened Strings
  import opened Spec
  import opened SpecYaml
  import EnvLoader

  // ----- environment tiers -----

  /** An `external` entry: `NAME` or `NAME=default`; a malformed entry keeps its parse error. */
  function ExternalOf(s: string): (r: Result<ExternalEnvVariable>)
    ensures r.Ok? <==> EnvLoader.ParseEnvString(s).Ok?
    ensures r.Ok? ==> EnvLoader.ParseEnvString(s) == Ok(EnvLoader.EnvDescriptor(r.value.name, r.value.default))
    ensures r.Err? ==> r.msg == EnvLoader.ParseEnvString(s).msg
  {
    var d :- EnvLoader.ParseEnvString(s);
    Ok(ExternalEnvVariable(d.name, d.default))
  }

  /** An `optional` entry is a bare name: a default value is refused. */
  function OptionalOf(s: string): (r: Result<OptionalEnvVariable>)
    ensures r.Ok? <==> EnvLoader.ParseEnvString(s).Ok? && EnvLoader.ParseEnvString(s).value.default.None?
    ensures r.Ok? ==> r.value.name == Trim(s) && EnvLoader.ValidName(r.value.name)
    ensures EnvLoader.ParseEnvString(s).Ok? && EnvLoader.ParseEnvString(s).value.default.Some? ==>
      r == Err("Optional env variable " + EnvLoader.ParseEnvString(s).value.name + " cannot have a default value")
  {
    var d :- EnvLoader.ParseEnvString(s);
    if d.default.Some? then Err("Optional env variable " + d.name + " cannot have a default value")
    else Ok(OptionalEnvVariable(d.name))
  }

  /** A `relative` entry is `NAME=/path`: the value must be there and start with `/`. */
  function RelativeOf(s: string): (r: Result<RelativeEnvVariable>)
    ensures r.Ok? <==>
      var p := EnvLoader.ParseEnvString(s);
      p.Ok? && p.value.default.Some? && StartsWith(p.value.default.value, '/')
    ensures r.Ok? ==> StartsWith(r.value.relative_value, '/')
    ensures r.Ok? ==> EnvLoader.ParseEnvString(s) == Ok(EnvLoader.EnvDescriptor(r.value.name, Some(r.value.relative_value)))
    ensures EnvLoader.ParseEnvString(s).Err? ==> r == Err("Invalid relative env variable format: " + s)
    ensures EnvLoader.ParseEnvString(s).Ok? && EnvLoader.ParseEnvString(s).value.default.None? ==>
      r == Err("Invalid relative env variable format (no value): " + s)
  {
    match EnvLoader.ParseEnvString(s)
    case Err(_) => Err("Invalid relative env variable format: " + s)
    case Ok(d) =>
      if d.default.None? then Err("Invalid relative env variable format (no value): " + s)
      else if !StartsWith(d.default.value, '/') then Err("Relative URL for " + d.name + " must start with /")
      else Ok(RelativeEnvVariable(d.name, d.default.value))
  }

  /** An `internal` entry is `NAME=value`: the value must be there. */
  function InternalOf(s: string): (r: Result<InternalEnvVariable>)
    ensures r.Ok? <==> EnvLoader.ParseEnvString(s).Ok? && EnvLoader.ParseEnvString(s).value.default.Some?
    ensures r.Ok? ==> EnvLoader.ParseEnvString(s) == Ok(EnvLoader.EnvDescriptor(r.value.name, Some(r.value.value)))
    ensures EnvLoader.ParseEnvString(s).Err? ==> r == Err("Invalid internal env variable format: " + s)
    ensures EnvLoader.ParseEnvString(s).Ok? && EnvLoader.ParseEnvString(s).value.default.None? ==>
      r == Err("Internal env variable " + EnvLoader.ParseEnvString(s).value.name + " must have a value")
  {
    match EnvLoader.ParseEnvString(s)
    case Err(_) => Err("Invalid internal env variable format: " + s)
    case Ok(d) =>
      if d.default.None? then Err("Internal env variable " + d.name + " must have a value")
      else Ok(InternalEnvVariable(d.name, d.default.value))
  }

  /** `convert_environment`: the four tiers in turn, each entry by its tier's rule; the first
      entry that breaks its rule fails the whole environment. */
  function ConvertEnvironment(yaml: AppEnvironmentYaml): Result<AppEnvironment> {
    var external :- CollectAll(ExternalOf, yaml.external.GetOr([]));
    var optional :- CollectAll(OptionalOf, yaml.optional.GetOr([]));
    var relative :- CollectAll(RelativeOf, yaml.relative.GetOr([]));
    var internal :- CollectAll(InternalOf, yaml.internal.GetOr([]));
    Ok(AppEnvironment(external, optional, relative, internal))
  }

  /** A converted environment has one variable per entry, in entry order, each the parse of
      its entry: optional ones without a value, relative ones with a value starting with `/`,
      internal ones with a value. */
  lemma EnvironmentTiers(yaml: AppEnvironmentYaml)
    requires ConvertEnvironment(yaml).Ok?
    ensures var env := ConvertEnvironment(yaml).value;
      var ext, opt, rel, inl := yaml.external.GetOr([]), yaml.optional.GetOr([]), yaml.relative.GetOr([]), yaml.internal.GetOr([]);
      && |env.external| == |ext| && |env.optional| == |opt| && |env.relative| == |rel| && |env.internal| == |inl|
      && (forall k :: 0 <= k < |ext| ==>
            EnvLoader.ParseEnvString(ext[k]) == Ok(EnvLoader.EnvDescriptor(env.external[k].name, env.external[k].default)))
      && (forall k :: 0 <= k < |opt| ==>
            EnvLoader.ParseEnvString(opt[k]) == Ok(EnvLoader.EnvDescriptor(env.optional[k].name, None)))
      && (forall k :: 0 <= k < |rel| ==>
            EnvLoader.ParseEnvString(rel[k]) == Ok(EnvLoader.EnvDescriptor(env.relative[k].name, Some(env.relative[k].relative_value)))
            && StartsWith(env.relative[k].relative_value, '/'))
      && (forall k :: 0 <= k < |inl| ==>
            EnvLoader.ParseEnvString(inl[k]) == Ok(EnvLoader.EnvDescriptor(env.internal[k].name, Some(env.internal[k].value))))
  {
    CollectAllElements(ExternalOf, yaml.external.GetOr([]));
    CollectAllElements(OptionalOf, yaml.optional.GetOr([]));
    CollectAllElements(RelativeOf, yaml.relative.GetOr([]));
    CollectAllElements(InternalOf, yaml.internal.GetOr([]));
  }

  /** The environment converts exactly when every external entry parses, no optional entry
      has a value, every relative entry has a value starting with `/`, and every internal
      entry has a value. */
  lemma EnvironmentAccepts(yaml: AppEnvironmentYaml)
    ensures ConvertEnvironment(yaml).Ok? <==>
      && (forall k :: 0 <= k < |yaml.external.GetOr([])| ==> ExternalOf(yaml.external.GetOr([])[k]).Ok?)
      && (forall k :: 0 <= k < |yaml.optional.GetOr([])| ==> OptionalOf(yaml.optional.GetOr([])[k]).Ok?)
      && (forall k :: 0 <= k < |yaml.relative.GetOr([])| ==> RelativeOf(yaml.relative.GetOr([])[k]).Ok?)
      && (forall k :: 0 <= k < |yaml.internal.GetOr([])| ==> InternalOf(yaml.internal.GetOr([])[k]).Ok?)
  {
    CollectAllOk(ExternalOf, yaml.external.GetOr([]));
    CollectAllOk(OptionalOf, yaml.optional.GetOr([]));
    CollectAllOk(RelativeOf, yaml.relative.GetOr([]));
    CollectAllOk(InternalOf, yaml.internal.GetOr([]));
  }

  /** An optional entry with a value fails the environment once the external tier has
      converted and the optional entries before it are fine. */
  lemma OptionalDefaultRefused(yaml: AppEnvironmentYaml, i: nat)
    requires CollectAll(ExternalOf, yaml.external.GetOr([])).Ok?
    requires var opt := yaml.optional.GetOr([]);
      i < |opt| && (forall k :: 0 <= k < i ==> OptionalOf(opt[k]).Ok?)
      && EnvLoader.ParseEnvString(opt[i]).Ok? && EnvLoader.ParseEnvString(opt[i]).value.default.Some?
    ensures ConvertEnvironment(yaml) ==
      Err("Optional env variable " + EnvLoader.ParseEnvString(yaml.optional.GetOr([])[i]).value.name + " cannot have a default value")
  {
    CollectAllFirstError(OptionalOf, yaml.optional.GetOr([]), i);
  }

  // ----- application secrets -----

  /** `convert_secrets`: one secret option per listed name, or per key of the detailed form. */
  function ConvertSecrets(yaml: AppSecretsYaml): (r: seq<AppSecretOption>)
    ensures var names := if yaml.SimpleSecrets? then yaml.names else yaml.keys;
      |r| == |names| && forall k :: 0 <= k < |r| ==> r[k].secret_name == names[k]
  {
    var names := if yaml.SimpleSecrets? then yaml.names else yaml.keys;
    seq(|names|, k requires 0 <= k < |names| => AppSecretOption(names[k]))
  }

  // ----- services -----

  /** The service type, `internal` when none is written. */
  function ServiceTypeOf(t: Option<ServiceTypeYaml>): (r: ServiceType)
    ensures r == Internal <==> t.None? || t == Some(InternalYaml)
    ensures r == Public <==> t == Some(PublicYaml)
    ensures r == Job <==> t == Some(JobYaml)
  {
    match t
    case Some(PublicYaml) => Public
    case Some(InternalYaml) => Internal
    case Some(JobYaml) => Job
    case None => Internal
  }

  /** An environment selector: exactly `$all`; else `name=value` split at the first `=` with
      both sides trimmed; else the whole text, untrimmed, as a bare name. */
  function ParseSelector(s: string): (r: ServiceEnvOption)
    ensures r.All? <==> s == "$all"
    ensures r.WithValue? <==> s != "$all" && '=' in s
    ensures r.Simple? ==> r.name == s
    ensures r.WithValue? ==> IsTrimmed(r.key) && IsTrimmed(r.value) && '=' !in r.key
  {
    if s == "$all" then All
    else match SplitOnce(s, '=')
      case Some((k, v)) =>
        EnvLoader.TrimKeepsAbsent(k, '=');
        WithValue(Trim(k), Trim(v))
      case None => Simple(s)
  }

  /** `name=value` is split at the `=` after the name, whatever the value holds. */
  lemma SelectorWithValue(name: string, value: string)
    requires '=' !in name
    ensures ParseSelector(name + "=" + value) == WithValue(Trim(name), Trim(value))
  {
    SplitFirst(name, '=', value);
    assert (name + "=" + value)[|name|] == '=';
  }

  /** The named variants, each under its own name. */
  function NamedVariants(entries: Entries<ImageVariantYaml>): (r: seq<ImageVariant>)
    ensures |r| == |entries|
    ensures forall k :: 0 <= k < |r| ==> r[k] == ImageVariant(entries[k].0, entries[k].1.image)
  {
    seq(|entries|, k requires 0 <= k < |entries| => ImageVariant(entries[k].0, entries[k].1.image))
  }

  /** The image variants of a service: the `image` field as variant `default`, first, then
      each named variant. */
  function ImageVariantsOf(image: Option<string>, variants: Option<Entries<ImageVariantYaml>>): (r: seq<ImageVariant>)
    ensures image.Some? ==> |r| > 0 && r[0] == ImageVariant("default", image.value)
    ensures var offset := if image.Some? then 1 else 0;
      |r| == offset + |variants.GetOr([])|
      && forall k :: 0 <= k < |variants.GetOr([])| ==>
           r[offset + k] == ImageVariant(variants.GetOr([])[k].0, variants.GetOr([])[k].1.image)
  {
    (if image.Some? then [ImageVariant("default", image.value)] else []) + NamedVariants(variants.GetOr([]))
  }

  /** The `image_variants` vector, built by pushes. */
  method CollectImageVariants(image: Option<string>, variants: Option<Entries<ImageVariantYaml>>)
    returns (r: seq<ImageVariant>)
    ensures r == ImageVariantsOf(image, variants)
  {
    r := [];
    if image.Some? {
      r := r + [ImageVariant("default", image.value)];
    }
    var head := r;
    var entries := variants.GetOr([]);
    var i := 0;
    while i < |entries|
      invariant i <= |entries|
      invariant r == head + NamedVariants(entries[..i])
    {
      var (name, v) := entries[i];
      r := r + [ImageVariant(name, v.image)];
      i := i + 1;
    }
    assert entries[..i] == entries;
  }

  /** The config mounts of one `configs` list item. */
  function ConfigMounts(m: Entries<string>): (r: seq<ServiceConfigOption>)
    ensures |r| == |m|
    ensures forall k :: 0 <= k < |r| ==> r[k] == ServiceConfigOption(m[k].0, m[k].1)
  {
    seq(|m|, k requires 0 <= k < |m| => ServiceConfigOption(m[k].0, m[k].1))
  }

  /** The config mounts of all `configs` list items, in list order. */
  function ConfigOptionsOf(configs: seq<Entries<string>>): seq<ServiceConfigOption> {
    if |configs| == 0 then []
    else ConfigOptionsOf(configs[..|configs| - 1]) + ConfigMounts(configs[|configs| - 1])
  }

  /** Every config mount comes from one entry of one list item, and every entry gives one. */
  lemma {:induction false} ConfigOptionsExact(configs: seq<Entries<string>>)
    ensures forall o :: o in ConfigOptionsOf(configs) ==>
      exists m :: m in configs && (o.config_name, o.mount_path) in m
    ensures forall m, e :: m in configs && e in m ==> ServiceConfigOption(e.0, e.1) in ConfigOptionsOf(configs)
  {
    if |configs| > 0 {
      var init, last := configs[..|configs| - 1], configs[|configs| - 1];
      ConfigOptionsExact(init);
      assert configs == init + [last];
      forall o | o in ConfigMounts(last)
        ensures (o.config_name, o.mount_path) in last
      {
        var k :| 0 <= k < |last| && ConfigMounts(last)[k] == o;
      }
      forall e | e in last
        ensures ServiceConfigOption(e.0, e.1) in ConfigMounts(last)
      {
        var k :| 0 <= k < |last| && last[k] == e;
        assert ConfigMounts(last)[k] == ServiceConfigOption(e.0, e.1);
      }
    }
  }

  // ----- service secrets -----

  /** Where a detailed secret is mounted: its `path` if given (even when a `variable` is too),
      else its `variable`; neither, or no configuration at all, is an error. */
  function SecretMountOf(name: string, config: Option<SecretConfigYaml>): (r: Result<SecretMount>)
    ensures r.Ok? <==> config.Some? && (config.value.path.Some? || config.value.variable.Some?)
    ensures r.Ok? && config.value.path.Some? ==> r.value == MountPath(config.value.path.value)
    ensures r.Ok? && config.value.path.None? ==> r.value == MountVariable(config.value.variable.value)
    ensures config.None? ==> r == Err("Secret " + name + " configuration is missing")
  {
    match config
    case None => Err("Secret " + name + " configuration is missing")
    case Some(c) =>
      if c.path.Some? then Ok(MountPath(c.path.value))
      else if c.variable.Some? then Ok(MountVariable(c.variable.value))
      else Err("Secret " + name + " must have either path: or variable: specified, or neigher")
  }

  function DetailedSecretOf(entry: (string, Option<SecretConfigYaml>)): Result<ServiceSecret> {
    var mount :- SecretMountOf(entry.0, entry.1);
    Ok(ServiceSecret(entry.0, mount))
  }

  /** The secrets one list item declares: a bare name is mounted at `/secrets/<name>`. */
  function ItemSecretsOf(item: ServiceSecretYaml): Result<seq<ServiceSecret>> {
    match item
    case SimpleSecret(name) => Ok([ServiceSecret(name, MountPath("/secrets/" + name))])
    case DetailedSecret(entries) => CollectAll(DetailedSecretOf, entries)
  }

  function Flatten<T>(groups: seq<seq<T>>): seq<T> {
    if |groups| == 0 then [] else Flatten(groups[..|groups| - 1]) + groups[|groups| - 1]
  }

  /** The secrets of a service: those of each list item, in list order; the first bad
      configuration fails them all. */
  function ServiceSecretsOf(items: seq<ServiceSecretYaml>): Result<seq<ServiceSecret>> {
    var groups :- CollectAll(ItemSecretsOf, items);
    Ok(Flatten(groups))
  }

  /** The entries of one detailed item of `convert_service_secrets`, read one by one. */
  method ConvertDetailedSecrets(entries: Entries<Option<SecretConfigYaml>>) returns (r: Result<seq<ServiceSecret>>)
    ensures r == CollectAll(DetailedSecretOf, entries)
  {
    var item := [];
    var j := 0;
    while j < |entries|
      invariant j <= |entries|
      invariant CollectAll(DetailedSecretOf, entries[..j]) == Ok(item)
    {
      assert entries[..j + 1][..j] == entries[..j];
      var (name, config) := entries[j];
      var mount;
      if config.None? {
        CollectAllStops(DetailedSecretOf, entries, j + 1);
        return Err("Secret " + name + " configuration is missing");
      } else if config.value.path.Some? {
        mount := MountPath(config.value.path.value);
      } else if config.value.variable.Some? {
        mount := MountVariable(config.value.variable.value);
      } else {
        CollectAllStops(DetailedSecretOf, entries, j + 1);
        return Err("Secret " + name + " must have either path: or variable: specified, or neigher");
      }
      item := item + [ServiceSecret(name, mount)];
      j := j + 1;
    }
    assert entries[..j] == entries;
    return Ok(item);
  }

  /** `convert_service_secrets`: the list walked item by item, the secrets of each item
      appended after those of the items before it. */
  method ConvertServiceSecrets(items: seq<ServiceSecretYaml>) returns (r: Result<seq<ServiceSecret>>)
    ensures r == ServiceSecretsOf(items)
  {
    var secrets := [];
    ghost var groups := [];
    var i := 0;
    while i < |items|
      invariant i <= |items|
      invariant CollectAll(ItemSecretsOf, items[..i]) == Ok(groups) && secrets == Flatten(groups)
    {
      assert items[..i + 1][..i] == items[..i];
      var item;
      match items[i] {
      case SimpleSecret(name) =>
        item := [ServiceSecret(name, MountPath("/secrets/" + name))];
      case DetailedSecret(entries) =>
        var collected := ConvertDetailedSecrets(entries);
        if collected.Err? {
          CollectAllStops(ItemSecretsOf, items, i + 1);
          return Err(collected.msg);
        }
        item := collected.value;
      }
      assert (groups + [item])[..|groups|] == groups;
      secrets := secrets + item;
      groups := groups + [item];
      i := i + 1;
    }
    assert items[..i] == items;
    r := Ok(secrets);
  }

  /** The secrets convert exactly when every detailed entry has a configuration naming a
      `path` or a `variable`. */
  lemma ServiceSecretsAccepts(items: seq<ServiceSecretYaml>)
    ensures ServiceSecretsOf(items).Ok? <==>
      forall i, e :: 0 <= i < |items| && items[i].DetailedSecret? && e in items[i].entries ==>
        e.1.Some? && (e.1.value.path.Some? || e.1.value.variable.Some?)
  {
    CollectAllOk(ItemSecretsOf, items);
    forall i | 0 <= i < |items| && items[i].DetailedSecret?
      ensures ItemSecretsOf(items[i]).Ok? <==>
        forall e :: e in items[i].entries ==> e.1.Some? && (e.1.value.path.Some? || e.1.value.variable.Some?)
    {
      var entries := items[i].entries;
      CollectAllOk(DetailedSecretOf, entries);
      if !ItemSecretsOf(items[i]).Ok? {
        var k :| 0 <= k < |entries| && !DetailedSecretOf(entries[k]).Ok?;
        assert entries[k] in entries;
      }
    }
  }

  /** A list of bare names gives one secret per name, in order, each mounted at
      `/secrets/<name>`. */
  lemma {:induction false} SimpleSecretsMounted(items: seq<ServiceSecretYaml>)
    requires forall k :: 0 <= k < |items| ==> items[k].SimpleSecret?
    ensures ServiceSecretsOf(items).Ok?
    ensures var r := ServiceSecretsOf(items).value;
      |r| == |items|
      && forall k :: 0 <= k < |items| ==> r[k] == ServiceSecret(items[k].name, MountPath("/secrets/" + items[k].name))
    decreases |items|
  {
    if |items| > 0 {
      var init, last := items[..|items| - 1], items[|items| - 1];
      SimpleSecretsMounted(init);
      assert items == init + [last];
      CollectAllSnoc(ItemSecretsOf, init, last);
      var groups := CollectAll(ItemSecretsOf, items).value;
      assert groups[..|groups| - 1] == CollectAll(ItemSecretsOf, init).value;
    }
  }

  // ----- one service -----

  /** `convert_service`: the type, image variants, selectors, config mounts and secrets of
      one service; only a bad secret fails it. `is_app_service` is whatever the caller says;
      the conversion never fills `ports`. */
  function ServiceOf(name: string, yaml: ServiceSpecYaml, isAppService: bool): Result<ServiceSpec> {
    var secrets :- ServiceSecretsOf(yaml.secrets.GetOr([]));
    var environment := yaml.environment.GetOr([]);
    Ok(ServiceSpec(
      name,
      ServiceTypeOf(yaml.service_type),
      isAppService,
      ImageVariantsOf(yaml.image, yaml.variants),
      seq(|environment|, k requires 0 <= k < |environment| => ParseSelector(environment[k])),
      ConfigOptionsOf(yaml.configs.GetOr([])),
      secrets,
      []))
  }

  method ConvertService(name: string, yaml: ServiceSpecYaml, isAppService: bool) returns (r: Result<ServiceSpec>)
    ensures r == ServiceOf(name, yaml, isAppService)
  {
    var serviceType := ServiceTypeOf(yaml.service_type);
    var imageVariants := CollectImageVariants(yaml.image, yaml.variants);
    var environment := yaml.environment.GetOr([]);
    var selectors := seq(|environment|, k requires 0 <= k < |environment| => ParseSelector(environment[k]));
    var configs := ConfigOptionsOf(yaml.configs.GetOr([]));
    var secrets := Ok([]);
    if yaml.secrets.Some? {
      secrets := ConvertServiceSecrets(yaml.secrets.value);
    }
    if secrets.Err? {
      return Err(secrets.msg);
    }
    r := Ok(ServiceSpec(name, serviceType, isAppService, imageVariants, selectors, configs, secrets.value, []));
  }

  /** A service converts exactly when its secrets do; it keeps its name, is `internal` unless
      typed, lists one selector per environment entry, and puts its `image` first as variant
      `default`. */
  lemma ServiceDefaults(name: string, yaml: ServiceSpecYaml, isAppService: bool)
    ensures ServiceOf(name, yaml, isAppService).Ok? <==> ServiceSecretsOf(yaml.secrets.GetOr([])).Ok?
    ensures var r := ServiceOf(name, yaml, isAppService);
      r.Ok? ==>
        && r.value.name == name && r.value.is_app_service == isAppService
        && (yaml.service_type.None? ==> r.value.service_type == Internal)
        && (yaml.image.Some? ==> r.value.image_variants[0] == ImageVariant("default", yaml.image.value))
        && |r.value.environment| == |yaml.environment.GetOr([])|
        && (forall k :: 0 <= k < |r.value.environment| ==>
              r.value.environment[k] == ParseSelector(yaml.environment.GetOr([])[k]))
  {
  }

  /** The services of one mapping, in the order the mapping is read. */
  function ServicesOf(entries: Entries<ServiceSpecYaml>, isAppService: bool): Result<seq<ServiceSpec>> {
    if |entries| == 0 then Ok([])
    else
      var prev :- ServicesOf(entries[..|entries| - 1], isAppService);
      var last := entries[|entries| - 1];
      var s :- ServiceOf(last.0, last.1, isAppService);
      Ok(prev + [s])
  }

  /** `convert_services`: each entry converted and pushed; the first bad one fails them all. */
  method ConvertServices(entries: Entries<ServiceSpecYaml>, isAppService: bool) returns (r: Result<seq<ServiceSpec>>)
    ensures r == ServicesOf(entries, isAppService)
  {
    var services := [];
    var i := 0;
    while i < |entries|
      invariant i <= |entries|
      invariant ServicesOf(entries[..i], isAppService) == Ok(services)
    {
      assert entries[..i + 1][..i] == entries[..i];
      var s := ConvertService(entries[i].0, entries[i].1, isAppService);
      if s.Err? {
        ServicesStop(entries, isAppService, i + 1);
        return Err(s.msg);
      }
      services := services + [s.value];
      i := i + 1;
    }
    assert entries[..i] == entries;
    r := Ok(services);
  }

  lemma {:induction false} ServicesStop(entries: Entries<ServiceSpecYaml>, isAppService: bool, i: nat)
    requires i <= |entries| && ServicesOf(entries[..i], isAppService).Err?
    ensures ServicesOf(entries, isAppService) == ServicesOf(entries[..i], isAppService)
  {
    if i == |entries| {
      assert entries[..i] == entries;
    } else {
      var init := entries[..|entries| - 1];
      assert init[..i] == entries[..i];
      ServicesStop(init, isAppService, i);
    }
  }

  /** Converted services are one per entry, in entry order, each named by its key. */
  lemma {:induction false} ServicesNamed(entries: Entries<ServiceSpecYaml>, isAppService: bool)
    requires ServicesOf(entries, isAppService).Ok?
    ensures var r := ServicesOf(entries, isAppService).value;
      |r| == |entries|
      && forall k :: 0 <= k < |r| ==> ServiceOf(entries[k].0, entries[k].1, isAppService) == Ok(r[k])
  {
    if |entries| > 0 {
      ServicesNamed(entries[..|entries| - 1], isAppService);
    }
  }
}

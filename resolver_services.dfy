/** The resolution of each service of the application for one deployment: its host, its
    image, the uniqueness of public host and prefix pairs, its environment and undockerized
    environment, and its config and secret references (src/resolver.rs:72-203). */
module ResolverServices {
  import opened Wrappers
  import opened Spec
  import opened ResolvedSpec
  import opened EnvVars
  import opened EnvTiers
  import opened Images

  /** What every service of one deployment is resolved against. */
  datatype Context = Context(
    envSpec: DeploymentEnvironmentSpec,
    app: AppSpec,
    dep: DeploymentSpec,
    configs: seq<ConfigResolvedSpec>,
    secrets: seq<SecretResolvedSpec>)

  type HostPrefix = (string, string)

  /** The services resolved so far and the public host and prefix pairs they claim. */
  datatype Progress = Progress(services: seq<ServiceResolvedSpec>, seen: set<HostPrefix>)

  // ----- host -----

  /** The first ingress host with the given name. */
  function FindHost(hosts: seq<HostSpec>, name: string): (r: Option<HostSpec>)
    ensures r.Some? ==> r.value in hosts && r.value.name == name
    ensures r.None? <==> forall h :: h in hosts ==> h.name != name
  {
    if |hosts| == 0 then None
    else if hosts[0].name == name then Some(hosts[0])
    else FindHost(hosts[1..], name)
  }

  /** The domain a service is reached at: the first domain of the first host of its name. */
  function HostDomain(hosts: seq<HostSpec>, name: string): Result<string> {
    match FindHost(hosts, name)
    case Some(h) => if |h.domain_names| > 0 then Ok(h.domain_names[0]) else Err("Host " + name + " not found in ingress spec")
    case None => Err("Host " + name + " not found in ingress spec")
  }

  /** The host a service is routed to: its override's host, else the primary host. */
  function ServiceHostName(dep: DeploymentSpec, ov: Option<DeploymentServiceSpec>): string {
    if ov.Some? then ov.value.host.GetOr(dep.primary_host) else dep.primary_host
  }

  function ServicePrefixes(ov: Option<DeploymentServiceSpec>): seq<Prefix> {
    if ov.Some? then ov.value.prefixes else []
  }

  // ----- public host and prefix pairs -----

  /** Claiming the pairs of one public service in order; a pair already claimed, by this
      service or an earlier one, stops it. */
  function ClaimPrefixes(seen: set<HostPrefix>, hostName: string, prefixes: seq<Prefix>, svcName: string): Result<set<HostPrefix>> {
    if |prefixes| == 0 then Ok(seen)
    else
      var prev :- ClaimPrefixes(seen, hostName, prefixes[..|prefixes| - 1], svcName);
      var p := prefixes[|prefixes| - 1].prefix;
      if (hostName, p) in prev
      then Err("Duplicate host+prefix combination for public service " + svcName + ": " + hostName + p)
      else Ok(prev + {(hostName, p)})
  }

  /** The loop over a public service's prefixes. */
  method ClaimPublicPrefixes(seen: set<HostPrefix>, hostName: string, prefixes: seq<Prefix>, svcName: string)
    returns (r: Result<set<HostPrefix>>)
    ensures r == ClaimPrefixes(seen, hostName, prefixes, svcName)
  {
    var claimed := seen;
    var i := 0;
    while i < |prefixes|
      invariant 0 <= i <= |prefixes|
      invariant ClaimPrefixes(seen, hostName, prefixes[..i], svcName) == Ok(claimed)
    {
      assert prefixes[..i + 1][..i] == prefixes[..i];
      var key := (hostName, prefixes[i].prefix);
      if key in claimed {
        ClaimPrefixesStops(seen, hostName, prefixes, svcName, i + 1);
        return Err("Duplicate host+prefix combination for public service " + svcName + ": " + hostName + prefixes[i].prefix);
      }
      claimed := claimed + {key};
      i := i + 1;
    }
    assert prefixes[..i] == prefixes;
    return Ok(claimed);
  }

  // ----- config and secret references -----

  predicate HasConfig(configs: seq<ConfigResolvedSpec>, name: string) {
    exists c :: c in configs && c.name == name
  }

  predicate HasSecret(secrets: seq<SecretResolvedSpec>, name: string) {
    exists s :: s in secrets && s.name == name
  }

  /** A service's configs, renamed `{app}-{config}`; each must be a config of the
      deployment. */
  function ServiceConfigs(appName: string, svcName: string, opts: seq<ServiceConfigOption>, configs: seq<ConfigResolvedSpec>): Result<seq<ServiceConfigOption>> {
    if |opts| == 0 then Ok([])
    else
      var prev :- ServiceConfigs(appName, svcName, opts[..|opts| - 1], configs);
      var o := opts[|opts| - 1];
      var name := appName + "-" + o.config_name;
      if !HasConfig(configs, name) then Err("Service " + svcName + " references undefined config " + name)
      else Ok(prev + [ServiceConfigOption(name, o.mount_path)])
  }

  /** A service's secrets, renamed `{app}-{secret}`; each must be a secret of the
      deployment. */
  function ServiceSecrets(appName: string, svcName: string, secs: seq<ServiceSecret>, secrets: seq<SecretResolvedSpec>): Result<seq<ServiceSecret>> {
    if |secs| == 0 then Ok([])
    else
      var prev :- ServiceSecrets(appName, svcName, secs[..|secs| - 1], secrets);
      var s := secs[|secs| - 1];
      var name := appName + "-" + s.name;
      if !HasSecret(secrets, name) then Err("Service " + svcName + " references undefined secret " + name)
      else Ok(prev + [ServiceSecret(name, s.mount)])
  }

  method ResolveServiceConfigs(appName: string, svcName: string, opts: seq<ServiceConfigOption>, configs: seq<ConfigResolvedSpec>)
    returns (r: Result<seq<ServiceConfigOption>>)
    ensures r == ServiceConfigs(appName, svcName, opts, configs)
  {
    var out: seq<ServiceConfigOption> := [];
    var i := 0;
    while i < |opts|
      invariant 0 <= i <= |opts|
      invariant ServiceConfigs(appName, svcName, opts[..i], configs) == Ok(out)
    {
      assert opts[..i + 1][..i] == opts[..i];
      var name := appName + "-" + opts[i].config_name;
      var found := exists c :: c in configs && c.name == name;
      if !found {
        ServiceConfigsStops(appName, svcName, opts, configs, i + 1);
        return Err("Service " + svcName + " references undefined config " + name);
      }
      out := out + [ServiceConfigOption(name, opts[i].mount_path)];
      i := i + 1;
    }
    assert opts[..i] == opts;
    return Ok(out);
  }

  method ResolveServiceSecrets(appName: string, svcName: string, secs: seq<ServiceSecret>, secrets: seq<SecretResolvedSpec>)
    returns (r: Result<seq<ServiceSecret>>)
    ensures r == ServiceSecrets(appName, svcName, secs, secrets)
  {
    var out: seq<ServiceSecret> := [];
    var i := 0;
    while i < |secs|
      invariant 0 <= i <= |secs|
      invariant ServiceSecrets(appName, svcName, secs[..i], secrets) == Ok(out)
    {
      assert secs[..i + 1][..i] == secs[..i];
      var name := appName + "-" + secs[i].name;
      var found := exists s :: s in secrets && s.name == name;
      if !found {
        ServiceSecretsStops(appName, svcName, secs, secrets, i + 1);
        return Err("Service " + svcName + " references undefined secret " + name);
      }
      out := out + [ServiceSecret(name, secs[i].mount)];
      i := i + 1;
    }
    assert secs[..i] == secs;
    return Ok(out);
  }

  // ----- one service -----

  /** The deployment values with the undockerized overrides upserted on top. */
  function UndockerizedValues(dep: DeploymentSpec): seq<EnvVariable> {
    FoldUpsert(dep.environment, dep.undockerized_environment)
  }

  /** Host, image and the public pairs of one service, in the order they are checked. */
  function ServiceHead(ctx: Context, seen: set<HostPrefix>, svc: ServiceSpec): Result<(string, string, set<HostPrefix>)> {
    var ov := ServiceOverride(ctx.dep, svc.name);
    var hostName := ServiceHostName(ctx.dep, ov);
    var domain :- HostDomain(ctx.envSpec.ingress.hosts, hostName);
    var image :- ServiceImage(ctx.envSpec, ctx.app.version, svc, VariantName(ov));
    var claimed :- if svc.service_type == Public then ClaimPrefixes(seen, hostName, ServicePrefixes(ov), svc.name) else Ok(seen);
    Ok((domain, image, claimed))
  }

  /** The rest of one service once its domain and image are known. */
  function ServiceBody(ctx: Context, svc: ServiceSpec, domain: string, image: string): Result<ServiceResolvedSpec> {
    var env :- BuildEnv(ctx.app, ctx.dep.environment, Some(domain));
    var vars :- FilterEnv(svc.environment, env, svc.name);
    var undockerizedEnv :- BuildEnv(ctx.app, UndockerizedValues(ctx.dep), Some(domain));
    var undockerized :- FilterEnv(svc.environment, undockerizedEnv, svc.name);
    var configs :- ServiceConfigs(ctx.app.name, svc.name, svc.configs, ctx.configs);
    var secrets :- ServiceSecrets(ctx.app.name, svc.name, svc.secrets, ctx.secrets);
    var ov := ServiceOverride(ctx.dep, svc.name);
    Ok(ServiceResolvedSpec(
      svc.service_type, ctx.app.name + "-" + svc.name, image, domain, vars, undockerized,
      configs, secrets, if ov.Some? then ov.value.ports else svc.ports))
  }

  function ResolveService(ctx: Context, seen: set<HostPrefix>, svc: ServiceSpec): Result<(ServiceResolvedSpec, set<HostPrefix>)> {
    var (domain, image, claimed) :- ServiceHead(ctx, seen, svc);
    var resolved :- ServiceBody(ctx, svc, domain, image);
    Ok((resolved, claimed))
  }

  /** The services loop: each service in order, the public pairs shared by all of them. */
  function ResolveServices(ctx: Context, svcs: seq<ServiceSpec>): Result<Progress> {
    if |svcs| == 0 then Ok(Progress([], {}))
    else
      var prev :- ResolveServices(ctx, svcs[..|svcs| - 1]);
      var (resolved, claimed) :- ResolveService(ctx, prev.seen, svcs[|svcs| - 1]);
      Ok(Progress(prev.services + [resolved], claimed))
  }

  /** Host, image and public pairs of one service (src/resolver.rs:79-150). */
  method ResolveServiceHead(ctx: Context, seen: set<HostPrefix>, svc: ServiceSpec)
    returns (r: Result<(string, string, set<HostPrefix>)>)
    ensures r == ServiceHead(ctx, seen, svc)
  {
    var ov := ServiceOverride(ctx.dep, svc.name);
    var hostName := ctx.dep.primary_host;
    if ov.Some? {
      hostName := ov.value.host.GetOr(ctx.dep.primary_host);
    }
    var host := FindHost(ctx.envSpec.ingress.hosts, hostName);
    if host.None? || |host.value.domain_names| == 0 {
      return Err("Host " + hostName + " not found in ingress spec");
    }
    var domain := host.value.domain_names[0];
    var image := ServiceImage(ctx.envSpec, ctx.app.version, svc, VariantName(ov));
    if image.Err? {
      return Err(image.msg);
    }
    var claimed := seen;
    if svc.service_type == Public {
      var c := ClaimPublicPrefixes(seen, hostName, ServicePrefixes(ov), svc.name);
      if c.Err? {
        return Err(c.msg);
      }
      claimed := c.value;
    }
    return Ok((domain, image.value, claimed));
  }

  /** Environments, references and the resolved record of one service
      (src/resolver.rs:152-202). */
  method ResolveServiceBody(ctx: Context, svc: ServiceSpec, domain: string, image: string)
    returns (r: Result<ServiceResolvedSpec>)
    ensures r == ServiceBody(ctx, svc, domain, image)
  {
    var env := ResolveAppEnvVars(ctx.app, ctx.dep.environment, Some(domain));
    if env.Err? {
      return Err(env.msg);
    }
    var vars := FilterServiceEnvVars(svc, env.value);
    if vars.Err? {
      return Err(vars.msg);
    }
    var undockerizedValues := AddUniqueVars(ctx.dep.environment, ctx.dep.undockerized_environment);
    var undockerizedEnv := ResolveAppEnvVars(ctx.app, undockerizedValues, Some(domain));
    if undockerizedEnv.Err? {
      return Err(undockerizedEnv.msg);
    }
    var undockerized := FilterServiceEnvVars(svc, undockerizedEnv.value);
    if undockerized.Err? {
      return Err(undockerized.msg);
    }
    var configs := ResolveServiceConfigs(ctx.app.name, svc.name, svc.configs, ctx.configs);
    if configs.Err? {
      return Err(configs.msg);
    }
    var secrets := ResolveServiceSecrets(ctx.app.name, svc.name, svc.secrets, ctx.secrets);
    if secrets.Err? {
      return Err(secrets.msg);
    }
    var ov := ServiceOverride(ctx.dep, svc.name);
    var ports := if ov.Some? then ov.value.ports else svc.ports;
    return Ok(ServiceResolvedSpec(
      svc.service_type, ctx.app.name + "-" + svc.name, image, domain, vars.value, undockerized.value,
      configs.value, secrets.value, ports));
  }

  /** The services loop of `resolve`. */
  method ResolveServiceList(ctx: Context, svcs: seq<ServiceSpec>) returns (r: Result<Progress>)
    ensures r == ResolveServices(ctx, svcs)
  {
    var resolved: seq<ServiceResolvedSpec> := [];
    var seen: set<HostPrefix> := {};
    var i := 0;
    while i < |svcs|
      invariant 0 <= i <= |svcs|
      invariant ResolveServices(ctx, svcs[..i]) == Ok(Progress(resolved, seen))
    {
      assert svcs[..i + 1][..i] == svcs[..i];
      var head := ResolveServiceHead(ctx, seen, svcs[i]);
      if head.Err? {
        ResolveServicesStops(ctx, svcs, i + 1);
        return Err(head.msg);
      }
      var (domain, image, claimed) := head.value;
      var body := ResolveServiceBody(ctx, svcs[i], domain, image);
      if body.Err? {
        ResolveServicesStops(ctx, svcs, i + 1);
        return Err(body.msg);
      }
      resolved := resolved + [body.value];
      seen := claimed;
      i := i + 1;
    }
    assert svcs[..i] == svcs;
    return Ok(Progress(resolved, seen));
  }

  // ----- stopping at the first error -----

  lemma {:induction false} ClaimPrefixesStops(seen: set<HostPrefix>, hostName: string, prefixes: seq<Prefix>, svcName: string, i: nat)
    requires i <= |prefixes| && ClaimPrefixes(seen, hostName, prefixes[..i], svcName).Err?
    ensures ClaimPrefixes(seen, hostName, prefixes, svcName) == ClaimPrefixes(seen, hostName, prefixes[..i], svcName)
  {
    if i < |prefixes| {
      var init := prefixes[..|prefixes| - 1];
      assert init[..i] == prefixes[..i];
      ClaimPrefixesStops(seen, hostName, init, svcName, i);
    } else {
      assert prefixes[..i] == prefixes;
    }
  }

  lemma {:induction false} ServiceConfigsStops(appName: string, svcName: string, opts: seq<ServiceConfigOption>, configs: seq<ConfigResolvedSpec>, i: nat)
    requires i <= |opts| && ServiceConfigs(appName, svcName, opts[..i], configs).Err?
    ensures ServiceConfigs(appName, svcName, opts, configs) == ServiceConfigs(appName, svcName, opts[..i], configs)
  {
    if i < |opts| {
      var init := opts[..|opts| - 1];
      assert init[..i] == opts[..i];
      ServiceConfigsStops(appName, svcName, init, configs, i);
    } else {
      assert opts[..i] == opts;
    }
  }

  lemma {:induction false} ServiceSecretsStops(appName: string, svcName: string, secs: seq<ServiceSecret>, secrets: seq<SecretResolvedSpec>, i: nat)
    requires i <= |secs| && ServiceSecrets(appName, svcName, secs[..i], secrets).Err?
    ensures ServiceSecrets(appName, svcName, secs, secrets) == ServiceSecrets(appName, svcName, secs[..i], secrets)
  {
    if i < |secs| {
      var init := secs[..|secs| - 1];
      assert init[..i] == secs[..i];
      ServiceSecretsStops(appName, svcName, init, secrets, i);
    } else {
      assert secs[..i] == secs;
    }
  }

  lemma {:induction false} ResolveServicesStops(ctx: Context, svcs: seq<ServiceSpec>, i: nat)
    requires i <= |svcs| && ResolveServices(ctx, svcs[..i]).Err?
    ensures ResolveServices(ctx, svcs) == ResolveServices(ctx, svcs[..i])
  {
    if i < |svcs| {
      var init := svcs[..|svcs| - 1];
      assert init[..i] == svcs[..i];
      ResolveServicesStops(ctx, init, i);
    } else {
      assert svcs[..i] == svcs;
    }
  }

  // ----- properties -----

  function Elems(xs: seq<HostPrefix>): set<HostPrefix> {
    set x | x in xs
  }

  predicate Distinct(xs: seq<HostPrefix>) {
    forall i, j :: 0 <= i < j < |xs| ==> xs[i] != xs[j]
  }

  /** The host and prefix pairs of one service's prefixes, in order. */
  function PrefixKeys(hostName: string, prefixes: seq<Prefix>): seq<HostPrefix> {
    if |prefixes| == 0 then []
    else PrefixKeys(hostName, prefixes[..|prefixes| - 1]) + [(hostName, prefixes[|prefixes| - 1].prefix)]
  }

  /** The pairs a service claims: those of its prefixes when it is public, none otherwise. */
  function ServiceKeys(ctx: Context, svc: ServiceSpec): seq<HostPrefix> {
    var ov := ServiceOverride(ctx.dep, svc.name);
    if svc.service_type == Public then PrefixKeys(ServiceHostName(ctx.dep, ov), ServicePrefixes(ov)) else []
  }

  function PublicKeys(ctx: Context, svcs: seq<ServiceSpec>): seq<HostPrefix> {
    if |svcs| == 0 then [] else PublicKeys(ctx, svcs[..|svcs| - 1]) + ServiceKeys(ctx, svcs[|svcs| - 1])
  }

  lemma DistinctSnoc(xs: seq<HostPrefix>, x: HostPrefix)
    ensures Distinct(xs + [x]) <==> Distinct(xs) && x !in xs
  {
    var ys := xs + [x];
    if Distinct(ys) {
      assert forall i, j :: 0 <= i < j < |xs| ==> xs[i] == ys[i] && xs[j] == ys[j];
      forall k | 0 <= k < |xs| ensures xs[k] != x {
        assert ys[k] == xs[k] && ys[|xs|] == x;
      }
    }
  }

  lemma DistinctAppend(xs: seq<HostPrefix>, ys: seq<HostPrefix>)
    requires Distinct(xs) && Distinct(ys) && Elems(xs) !! Elems(ys)
    ensures Distinct(xs + ys)
  {
    var zs := xs + ys;
    forall i, j | 0 <= i < j < |zs| ensures zs[i] != zs[j] {
      if j < |xs| {
        assert zs[i] == xs[i] && zs[j] == xs[j];
      } else if i >= |xs| {
        assert zs[i] == ys[i - |xs|] && zs[j] == ys[j - |xs|];
      } else {
        assert zs[i] in Elems(xs) && zs[j] == ys[j - |xs|] && zs[j] in Elems(ys);
      }
    }
  }

  /** A service's pairs are claimed exactly when they are distinct and none was claimed
      before; the claimed set then grows by exactly those pairs. */
  lemma {:induction false} ClaimPrefixesExact(seen: set<HostPrefix>, hostName: string, prefixes: seq<Prefix>, svcName: string)
    ensures ClaimPrefixes(seen, hostName, prefixes, svcName).Ok? <==>
      Distinct(PrefixKeys(hostName, prefixes)) && seen !! Elems(PrefixKeys(hostName, prefixes))
    ensures ClaimPrefixes(seen, hostName, prefixes, svcName).Ok? ==>
      ClaimPrefixes(seen, hostName, prefixes, svcName).value == seen + Elems(PrefixKeys(hostName, prefixes))
  {
    if |prefixes| > 0 {
      var init := prefixes[..|prefixes| - 1];
      var key := (hostName, prefixes[|prefixes| - 1].prefix);
      var pre := PrefixKeys(hostName, init);
      ClaimPrefixesExact(seen, hostName, init, svcName);
      DistinctSnoc(pre, key);
      assert Elems(pre + [key]) == Elems(pre) + {key};
    }
  }

  /** No host and prefix pair is claimed by two public services, or twice by one: when the
      services resolve, their pairs are all distinct and are exactly the claimed set. */
  lemma {:induction false} PublicPairsUnique(ctx: Context, svcs: seq<ServiceSpec>)
    requires ResolveServices(ctx, svcs).Ok?
    ensures Distinct(PublicKeys(ctx, svcs))
    ensures ResolveServices(ctx, svcs).value.seen == Elems(PublicKeys(ctx, svcs))
  {
    if |svcs| > 0 {
      var init, svc := svcs[..|svcs| - 1], svcs[|svcs| - 1];
      PublicPairsUnique(ctx, init);
      var prev := ResolveServices(ctx, init).value;
      var ov := ServiceOverride(ctx.dep, svc.name);
      var hostName := ServiceHostName(ctx.dep, ov);
      var keys := ServiceKeys(ctx, svc);
      assert ServiceHead(ctx, prev.seen, svc).Ok?;
      if svc.service_type == Public {
        ClaimPrefixesExact(prev.seen, hostName, ServicePrefixes(ov), svc.name);
      }
      assert ResolveServices(ctx, svcs).value.seen == prev.seen + Elems(keys);
      DistinctAppend(PublicKeys(ctx, init), keys);
      assert Elems(PublicKeys(ctx, init) + keys) == Elems(PublicKeys(ctx, init)) + Elems(keys);
    }
  }

  /** A service's configs resolve exactly when every one of them names a config of the
      deployment; each is then renamed `{app}-{config}` and keeps its mount path. */
  lemma {:induction false} ServiceConfigsExact(appName: string, svcName: string, opts: seq<ServiceConfigOption>, configs: seq<ConfigResolvedSpec>)
    ensures ServiceConfigs(appName, svcName, opts, configs).Ok? <==>
      forall o :: o in opts ==> HasConfig(configs, appName + "-" + o.config_name)
    ensures ServiceConfigs(appName, svcName, opts, configs).Ok? ==>
      var r := ServiceConfigs(appName, svcName, opts, configs).value;
      |r| == |opts| && forall i :: 0 <= i < |opts| ==> r[i] == ServiceConfigOption(appName + "-" + opts[i].config_name, opts[i].mount_path)
  {
    if |opts| > 0 {
      var init, o := opts[..|opts| - 1], opts[|opts| - 1];
      ServiceConfigsExact(appName, svcName, init, configs);
      assert opts == init + [o];
    }
  }

  /** The same for secrets, which keep their mount. */
  lemma {:induction false} ServiceSecretsExact(appName: string, svcName: string, secs: seq<ServiceSecret>, secrets: seq<SecretResolvedSpec>)
    ensures ServiceSecrets(appName, svcName, secs, secrets).Ok? <==>
      forall s :: s in secs ==> HasSecret(secrets, appName + "-" + s.name)
    ensures ServiceSecrets(appName, svcName, secs, secrets).Ok? ==>
      var r := ServiceSecrets(appName, svcName, secs, secrets).value;
      |r| == |secs| && forall i :: 0 <= i < |secs| ==> r[i] == ServiceSecret(appName + "-" + secs[i].name, secs[i].mount)
  {
    if |secs| > 0 {
      var init, s := secs[..|secs| - 1], secs[|secs| - 1];
      ServiceSecretsExact(appName, svcName, init, secrets);
      assert secs == init + [s];
    }
  }

  /** A host the ingress does not list is an error naming it; a service without an
      override is routed to the primary host. */
  lemma HostNotFound(hosts: seq<HostSpec>, name: string, dep: DeploymentSpec)
    requires forall h :: h in hosts ==> h.name != name
    ensures HostDomain(hosts, name) == Err("Host " + name + " not found in ingress spec")
    ensures ServiceHostName(dep, None) == dep.primary_host
  {
  }

  /** The undockerized values are the deployment values with the undockerized ones on
      top: an overridden name takes its last undockerized value. */
  lemma UndockerizedOverride(dep: DeploymentSpec, n: string)
    ensures Lookup(UndockerizedValues(dep), n) ==
      if n in NameSet(dep.undockerized_environment) then LastValue(dep.undockerized_environment, n)
      else Lookup(dep.environment, n)
  {
    FoldUpsertLookup(dep.environment, dep.undockerized_environment, n);
  }

  /** What a resolved service is made of: `{app}-{service}`, the domain of its host, its
      image, its selection from the environment built with that domain (and from the one
      built with the undockerized values), its renamed configs and secrets, and the
      override's ports, else its own. */
  predicate ResolvedFrom(ctx: Context, svc: ServiceSpec, rs: ServiceResolvedSpec) {
    var ov := ServiceOverride(ctx.dep, svc.name);
    var env := BuildEnv(ctx.app, ctx.dep.environment, Some(rs.service_host));
    var undockerizedEnv := BuildEnv(ctx.app, UndockerizedValues(ctx.dep), Some(rs.service_host));
    rs.full_name == ctx.app.name + "-" + svc.name && rs.service_type == svc.service_type
    && HostDomain(ctx.envSpec.ingress.hosts, ServiceHostName(ctx.dep, ov)) == Ok(rs.service_host)
    && ServiceImage(ctx.envSpec, ctx.app.version, svc, VariantName(ov)) == Ok(rs.image)
    && env.Ok? && FilterEnv(svc.environment, env.value, svc.name) == Ok(rs.environment_variables)
    && undockerizedEnv.Ok? && FilterEnv(svc.environment, undockerizedEnv.value, svc.name) == Ok(rs.undockerized_environment_variables)
    && ServiceConfigs(ctx.app.name, svc.name, svc.configs, ctx.configs) == Ok(rs.configs)
    && ServiceSecrets(ctx.app.name, svc.name, svc.secrets, ctx.secrets) == Ok(rs.secrets)
    && rs.ports == (if ov.Some? then ov.value.ports else svc.ports)
  }

  lemma ResolveServiceFrom(ctx: Context, seen: set<HostPrefix>, svc: ServiceSpec)
    requires ResolveService(ctx, seen, svc).Ok?
    ensures ResolvedFrom(ctx, svc, ResolveService(ctx, seen, svc).value.0)
  {
    var (domain, image, claimed) := ServiceHead(ctx, seen, svc).value;
    assert ServiceBody(ctx, svc, domain, image).Ok?;
  }

  /** The resolved services follow the application's, one each, each made as
      `ResolvedFrom` says. */
  lemma ResolveServicesShape(ctx: Context, svcs: seq<ServiceSpec>)
    requires ResolveServices(ctx, svcs).Ok?
    ensures var rs := ResolveServices(ctx, svcs).value.services;
      |rs| == |svcs| && forall i :: 0 <= i < |svcs| ==> ResolvedFrom(ctx, svcs[i], rs[i])
  {
    ResolveServicesLength(ctx, svcs);
    forall i | 0 <= i < |svcs|
      ensures ResolvedFrom(ctx, svcs[i], ResolveServices(ctx, svcs).value.services[i])
    {
      ResolveServicesAt(ctx, svcs, i);
    }
  }

  lemma {:induction false} ResolveServicesLength(ctx: Context, svcs: seq<ServiceSpec>)
    requires ResolveServices(ctx, svcs).Ok?
    ensures |ResolveServices(ctx, svcs).value.services| == |svcs|
  {
    if |svcs| > 0 {
      ResolveServicesLast(ctx, svcs);
      ResolveServicesLength(ctx, svcs[..|svcs| - 1]);
    }
  }

  /** The `i`-th resolved service is made from the `i`-th service. */
  lemma {:induction false} ResolveServicesAt(ctx: Context, svcs: seq<ServiceSpec>, i: nat)
    requires ResolveServices(ctx, svcs).Ok? && i < |svcs|
    ensures i < |ResolveServices(ctx, svcs).value.services|
    ensures ResolvedFrom(ctx, svcs[i], ResolveServices(ctx, svcs).value.services[i])
  {
    var init := svcs[..|svcs| - 1];
    ResolveServicesLast(ctx, svcs);
    ResolveServicesLength(ctx, init);
    var prev := ResolveServices(ctx, init).value;
    if i == |svcs| - 1 {
      ResolveServiceFrom(ctx, prev.seen, svcs[i]);
    } else {
      ResolveServicesAt(ctx, init, i);
      assert svcs[i] == init[i];
    }
  }

  /** The last service's resolution is appended after the others'. */
  lemma ResolveServicesLast(ctx: Context, svcs: seq<ServiceSpec>)
    requires |svcs| > 0 && ResolveServices(ctx, svcs).Ok?
    ensures var prev := ResolveServices(ctx, svcs[..|svcs| - 1]);
      prev.Ok? && ResolveService(ctx, prev.value.seen, svcs[|svcs| - 1]).Ok? &&
      ResolveServices(ctx, svcs).value.services ==
        prev.value.services + [ResolveService(ctx, prev.value.seen, svcs[|svcs| - 1]).value.0]
  {
  }
}

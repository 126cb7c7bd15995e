/** `validate` (src/validator.rs): checks that a deployment of the environment descriptor
    fits the application descriptor before anything is resolved. The semantic-version test
    is a parameter, and the order in which the deployment's service overrides are visited
    (a hash map's) is chosen by the implementation. */
module Validator {
  import opened Wrappers
  import opened Strings
  import opened Spec

  // ----- the specification -----

  /** The first name, in order, that is not provided. */
  function FirstNotIn(names: seq<string>, provided: set<string>): (r: Option<string>)
    ensures r.None? <==> forall n :: n in names ==> n in provided
    ensures r.Some? ==> r.value in names && r.value !in provided
  {
    if |names| == 0 then None
    else
      var init, last := names[..|names| - 1], names[|names| - 1];
      assert names == init + [last];
      match FirstNotIn(init, provided)
      case Some(n) => Some(n)
      case None => if last in provided then None else Some(last)
  }

  /** The externals without a default that the deployment does not provide, in order. */
  function MissingExternals(exts: seq<ExternalEnvVariable>, provided: set<string>): seq<string> {
    if |exts| == 0 then []
    else
      var e := exts[|exts| - 1];
      var prev := MissingExternals(exts[..|exts| - 1], provided);
      if e.name !in provided && e.default.None? then prev + [e.name] else prev
  }

  /** The names of the `Simple` selectors, in order. */
  function SimpleNames(opts: seq<ServiceEnvOption>): seq<string> {
    if |opts| == 0 then []
    else
      var o := opts[|opts| - 1];
      var prev := SimpleNames(opts[..|opts| - 1]);
      if o.Simple? then prev + [o.name] else prev
  }

  /** The first service, in order, with a `Simple` selector naming no variable of
      `defined`, and that name. */
  function FirstUndefined(services: seq<ServiceSpec>, defined: set<string>): Option<(string, string)> {
    if |services| == 0 then None
    else
      var s := services[|services| - 1];
      match FirstUndefined(services[..|services| - 1], defined)
      case Some(p) => Some(p)
      case None =>
        match FirstNotIn(SimpleNames(s.environment), defined)
        case None => None
        case Some(n) => Some((s.name, n))
  }

  /** The variables a selector may name: the external, relative and internal ones (the
      optional ones are not among them). */
  function DefinedVars(env: AppEnvironment): set<string> {
    (set e | e in env.external :: e.name) + (set e | e in env.relative :: e.name) + (set e | e in env.internal :: e.name)
  }

  function ServiceNames(services: seq<ServiceSpec>): set<string> {
    set s | s in services :: s.name
  }

  function ProvidedEnv(dep: DeploymentSpec): set<string> {
    set v | v in dep.environment :: v.name
  }

  function ProvidedSecrets(dep: DeploymentSpec): set<string> {
    set d | d in dep.secrets :: d.secret_name
  }

  function ProvidedConfigs(dep: DeploymentSpec): set<string> {
    set d | d in dep.configs :: d.name
  }

  function OverriddenServices(dep: DeploymentSpec): set<string> {
    if dep.services.Some? then dep.services.value.Keys else {}
  }

  /** `names` as the Debug format prints a vector of strings. */
  function DebugList(names: seq<string>): string {
    "[" + QuotedItems(names) + "]"
  }

  function QuotedItems(names: seq<string>): string {
    if |names| == 0 then ""
    else if |names| == 1 then Quoted(names[0])
    else QuotedItems(names[..|names| - 1]) + ", " + Quoted(names[|names| - 1])
  }

  function SecretNames(secrets: seq<AppSecretOption>): seq<string> {
    seq(|secrets|, i requires 0 <= i < |secrets| => secrets[i].secret_name)
  }

  function ConfigNames(configs: seq<ConfigSpec>): seq<string> {
    seq(|configs|, i requires 0 <= i < |configs| => configs[i].name)
  }

  /** The checks of `validate` after the deployment is found, in the order they are made;
      `order` is the order in which the service overrides are visited. */
  function CheckDeployment(dep: DeploymentSpec, app: AppSpec, envName: string, satisfies: (string, string) -> bool, order: seq<string>)
    : Result<()>
  {
    if dep.application.name != app.name then
      Err("Deployment " + envName + " expects application " + dep.application.name + ", but appspec is for " + app.name)
    else if dep.application.version.Some? && !satisfies(dep.application.version.value, app.version) then
      Err("App version " + app.version + " does not satisfy deployment requirement " + dep.application.version.value)
    else
      var missing := MissingExternals(app.environment.external, ProvidedEnv(dep));
      if |missing| > 0 then
        Err("Environment variables " + DebugList(missing) + " required by application are not provided by deployment " + envName)
      else match FirstNotIn(SecretNames(app.secrets), ProvidedSecrets(dep))
      case Some(s) => Err("Secret " + s + " required by application is not provided by deployment " + envName)
      case None =>
        match FirstNotIn(ConfigNames(app.configs), ProvidedConfigs(dep))
        case Some(c) => Err("Config " + c + " required by application is not provided by deployment " + envName)
        case None => CheckServices(app, order)
  }

  /** The service checks: every override names a service, every `Simple` selector a
      variable. */
  function CheckServices(app: AppSpec, order: seq<string>): Result<()> {
    match FirstNotIn(order, ServiceNames(AllServices(app)))
    case Some(k) => Err("Deployment configures service " + k + " which is not defined in application")
    case None =>
      match FirstUndefined(AllServices(app), DefinedVars(app.environment))
      case Some((s, n)) => Err("Service " + s + " references undefined environment variable " + n)
      case None => Ok(())
  }

  /** `validate`, with the service overrides visited in `order`. */
  function ValidateSpec(envSpec: DeploymentEnvironmentSpec, app: AppSpec, envName: string, satisfies: (string, string) -> bool, order: seq<string>)
    : Result<()>
  {
    match FindDeployment(envSpec.deployments, envName)
    case None => Err("Deployment " + envName + " not found in envspec")
    case Some(dep) => CheckDeployment(dep, app, envName, satisfies, order)
  }

  /** `order` visits exactly the service overrides of the deployment of that name. */
  ghost predicate VisitsOverrides(envSpec: DeploymentEnvironmentSpec, envName: string, order: seq<string>) {
    var found := FindDeployment(envSpec.deployments, envName);
    forall k :: k in order <==> found.Some? && k in OverriddenServices(found.value)
  }

  // ----- what a valid deployment is -----

  predicate IsDefinedVar(env: AppEnvironment, n: string) {
    || (exists e :: e in env.external && e.name == n)
    || (exists e :: e in env.relative && e.name == n)
    || (exists e :: e in env.internal && e.name == n)
  }

  /** Everything `validate` demands of a deployment, stated directly. */
  predicate Fits(dep: DeploymentSpec, app: AppSpec, satisfies: (string, string) -> bool) {
    && dep.application.name == app.name
    && (dep.application.version.Some? ==> satisfies(dep.application.version.value, app.version))
    && (forall e :: e in app.environment.external && e.default.None? ==> exists v :: v in dep.environment && v.name == e.name)
    && (forall s :: s in app.secrets ==> exists d :: d in dep.secrets && d.secret_name == s.secret_name)
    && (forall c :: c in app.configs ==> exists d :: d in dep.configs && d.name == c.name)
    && (forall k :: k in OverriddenServices(dep) ==> exists s :: s in AllServices(app) && s.name == k)
    && (forall s, o :: s in AllServices(app) && o in s.environment && o.Simple? ==> IsDefinedVar(app.environment, o.name))
  }

  predicate Valid(envSpec: DeploymentEnvironmentSpec, app: AppSpec, envName: string, satisfies: (string, string) -> bool) {
    var found := FindDeployment(envSpec.deployments, envName);
    found.Some? && Fits(found.value, app, satisfies)
  }

  // ----- the method -----

  /** The missing-variables loop. */
  method CollectMissing(exts: seq<ExternalEnvVariable>, provided: set<string>) returns (missing: seq<string>)
    ensures missing == MissingExternals(exts, provided)
  {
    missing := [];
    var i := 0;
    while i < |exts|
      invariant 0 <= i <= |exts|
      invariant missing == MissingExternals(exts[..i], provided)
    {
      assert exts[..i + 1][..i] == exts[..i];
      if exts[i].name !in provided && exts[i].default.None? {
        missing := missing + [exts[i].name];
      }
      i := i + 1;
    }
    assert exts[..i] == exts;
  }

  /** The secrets loop and the configs loop: the first required name not provided. */
  method FindNotProvided(names: seq<string>, provided: set<string>) returns (r: Option<string>)
    ensures r == FirstNotIn(names, provided)
  {
    var i := 0;
    while i < |names|
      invariant 0 <= i <= |names|
      invariant FirstNotIn(names[..i], provided) == None
    {
      assert names[..i + 1][..i] == names[..i];
      if names[i] !in provided {
        FirstNotInStops(names, provided, i + 1);
        return Some(names[i]);
      }
      i := i + 1;
    }
    assert names[..i] == names;
    return None;
  }

  /** The loop collecting the names of all services. */
  method CollectServiceNames(services: seq<ServiceSpec>) returns (names: set<string>)
    ensures names == ServiceNames(services)
  {
    names := {};
    var i := 0;
    while i < |services|
      invariant 0 <= i <= |services|
      invariant names == ServiceNames(services[..i])
    {
      assert services[..i + 1] == services[..i] + [services[i]];
      names := names + {services[i].name};
      i := i + 1;
    }
    assert services[..i] == services;
  }

  /** The three loops collecting the names a selector may refer to. */
  method CollectDefinedVars(env: AppEnvironment) returns (names: set<string>)
    ensures names == DefinedVars(env)
  {
    names := {};
    var i := 0;
    while i < |env.external|
      invariant 0 <= i <= |env.external|
      invariant names == set e | e in env.external[..i] :: e.name
    {
      assert env.external[..i + 1] == env.external[..i] + [env.external[i]];
      names := names + {env.external[i].name};
      i := i + 1;
    }
    assert env.external[..i] == env.external;
    ghost var ext := names;
    i := 0;
    while i < |env.relative|
      invariant 0 <= i <= |env.relative|
      invariant names == ext + set e | e in env.relative[..i] :: e.name
    {
      assert env.relative[..i + 1] == env.relative[..i] + [env.relative[i]];
      names := names + {env.relative[i].name};
      i := i + 1;
    }
    assert env.relative[..i] == env.relative;
    ghost var extRel := names;
    i := 0;
    while i < |env.internal|
      invariant 0 <= i <= |env.internal|
      invariant names == extRel + set e | e in env.internal[..i] :: e.name
    {
      assert env.internal[..i + 1] == env.internal[..i] + [env.internal[i]];
      names := names + {env.internal[i].name};
      i := i + 1;
    }
    assert env.internal[..i] == env.internal;
  }

  /** The loop over the deployment's service overrides, in an order of its choosing,
      which it reports. */
  method CheckOverrides(keys: set<string>, available: set<string>) returns (r: Option<string>, ghost order: seq<string>)
    ensures forall k :: k in order <==> k in keys
    ensures r == FirstNotIn(order, available)
  {
    var remaining := keys;
    ghost var visited: seq<string> := [];
    while remaining != {}
      invariant remaining <= keys
      invariant forall k :: k in visited <==> k in keys && k !in remaining
      invariant FirstNotIn(visited, available) == None
      decreases |remaining|
    {
      var k :| k in remaining;
      if k !in available {
        var rest := Enumerate(remaining - {k});
        order := visited + [k] + rest;
        assert (visited + [k])[..|visited|] == visited;
        FirstNotInAppend(visited + [k], rest, available);
        return Some(k), order;
      }
      visited := visited + [k];
      remaining := remaining - {k};
    }
    return None, visited;
  }

  /** The loop over one service's selectors. */
  method FindUndefinedSelector(opts: seq<ServiceEnvOption>, defined: set<string>) returns (r: Option<string>)
    ensures r == FirstNotIn(SimpleNames(opts), defined)
  {
    var i := 0;
    while i < |opts|
      invariant 0 <= i <= |opts|
      invariant FirstNotIn(SimpleNames(opts[..i]), defined) == None
    {
      assert opts[..i + 1][..i] == opts[..i];
      if opts[i].Simple? && opts[i].name !in defined {
        var pre := SimpleNames(opts[..i + 1]);
        assert pre == SimpleNames(opts[..i]) + [opts[i].name];
        assert pre[..|pre| - 1] == SimpleNames(opts[..i]);
        assert opts == opts[..i + 1] + opts[i + 1..];
        SimpleNamesAppend(opts[..i + 1], opts[i + 1..]);
        FirstNotInAppend(pre, SimpleNames(opts[i + 1..]), defined);
        return Some(opts[i].name);
      }
      i := i + 1;
    }
    assert opts[..i] == opts;
    return None;
  }

  /** The nested loop over every service's selectors. */
  method FindUndefinedReference(services: seq<ServiceSpec>, defined: set<string>) returns (r: Option<(string, string)>)
    ensures r == FirstUndefined(services, defined)
  {
    var i := 0;
    while i < |services|
      invariant 0 <= i <= |services|
      invariant FirstUndefined(services[..i], defined) == None
    {
      assert services[..i + 1][..i] == services[..i];
      var n := FindUndefinedSelector(services[i].environment, defined);
      if n.Some? {
        FirstUndefinedStops(services, defined, i + 1);
        return Some((services[i].name, n.value));
      }
      i := i + 1;
    }
    assert services[..i] == services;
    return None;
  }

  /** `validate`. It changes nothing: every input is a value. */
  method Validate(envSpec: DeploymentEnvironmentSpec, app: AppSpec, envName: string, satisfies: (string, string) -> bool)
    returns (r: Result<()>)
    ensures exists order :: VisitsOverrides(envSpec, envName, order) && r == ValidateSpec(envSpec, app, envName, satisfies, order)
    ensures r.Ok? <==> Valid(envSpec, app, envName, satisfies)
  {
    var found := FindDeployment(envSpec.deployments, envName);
    if found.None? {
      r := Err("Deployment " + envName + " not found in envspec");
      assert VisitsOverrides(envSpec, envName, []);
      return;
    }
    var dep := found.value;
    ghost var order: seq<string>;
    r, order := CheckFound(dep, app, envName, satisfies);
    assert VisitsOverrides(envSpec, envName, order);
    ValidateSpecValid(envSpec, app, envName, satisfies, order);
  }

  /** The checks of a found deployment. */
  method CheckFound(dep: DeploymentSpec, app: AppSpec, envName: string, satisfies: (string, string) -> bool)
    returns (r: Result<()>, ghost order: seq<string>)
    ensures forall k :: k in order <==> k in OverriddenServices(dep)
    ensures r == CheckDeployment(dep, app, envName, satisfies, order)
  {
    order := Enumerate(OverriddenServices(dep));
    if dep.application.name != app.name {
      return Err("Deployment " + envName + " expects application " + dep.application.name + ", but appspec is for " + app.name), order;
    }
    if dep.application.version.Some? && !satisfies(dep.application.version.value, app.version) {
      return Err("App version " + app.version + " does not satisfy deployment requirement " + dep.application.version.value), order;
    }
    var providedEnv := ProvidedEnv(dep);
    var missing := CollectMissing(app.environment.external, providedEnv);
    if |missing| > 0 {
      return Err("Environment variables " + DebugList(missing) + " required by application are not provided by deployment " + envName), order;
    }
    var secret := FindNotProvided(SecretNames(app.secrets), ProvidedSecrets(dep));
    if secret.Some? {
      return Err("Secret " + secret.value + " required by application is not provided by deployment " + envName), order;
    }
    var config := FindNotProvided(ConfigNames(app.configs), ProvidedConfigs(dep));
    if config.Some? {
      return Err("Config " + config.value + " required by application is not provided by deployment " + envName), order;
    }
    r, order := CheckServiceRules(app, OverriddenServices(dep));
  }

  /** The checks of the overrides and of the selectors. */
  method CheckServiceRules(app: AppSpec, overrides: set<string>) returns (r: Result<()>, ghost order: seq<string>)
    ensures forall k :: k in order <==> k in overrides
    ensures r == CheckServices(app, order)
  {
    var available := CollectServiceNames(AllServices(app));
    var unknown;
    unknown, order := CheckOverrides(overrides, available);
    if unknown.Some? {
      return Err("Deployment configures service " + unknown.value + " which is not defined in application"), order;
    }
    var defined := CollectDefinedVars(app.environment);
    var undefined := FindUndefinedReference(AllServices(app), defined);
    if undefined.Some? {
      return Err("Service " + undefined.value.0 + " references undefined environment variable " + undefined.value.1), order;
    }
    return Ok(()), order;
  }

  // ----- properties -----

  /** Some sequence holding exactly the elements of a set. */
  ghost function Enumerate(s: set<string>): (r: seq<string>)
    ensures forall x :: x in r <==> x in s
    decreases s
  {
    if s == {} then []
    else
      var x :| x in s;
      [x] + Enumerate(s - {x})
  }

  /** The result is the earliest name that is not provided. */
  lemma FirstNotInAt(names: seq<string>, provided: set<string>, i: nat)
    requires i < |names| && names[i] !in provided
    requires forall j :: 0 <= j < i ==> names[j] in provided
    ensures FirstNotIn(names, provided) == Some(names[i])
  {
    var pre := names[..i + 1];
    assert pre[..i] == names[..i];
    assert forall n :: n in names[..i] ==> n in provided;
    FirstNotInStops(names, provided, i + 1);
  }

  /** A name that is not provided decides the result for everything after it. */
  lemma {:induction false} FirstNotInAppend(a: seq<string>, b: seq<string>, provided: set<string>)
    ensures FirstNotIn(a + b, provided) == if FirstNotIn(a, provided).Some? then FirstNotIn(a, provided) else FirstNotIn(b, provided)
    decreases |b|
  {
    if |b| == 0 {
      assert a + b == a;
    } else {
      var ab := a + b;
      assert ab[..|ab| - 1] == a + b[..|b| - 1];
      FirstNotInAppend(a, b[..|b| - 1], provided);
    }
  }

  lemma FirstNotInStops(names: seq<string>, provided: set<string>, i: nat)
    requires i <= |names| && FirstNotIn(names[..i], provided).Some?
    ensures FirstNotIn(names, provided) == FirstNotIn(names[..i], provided)
  {
    assert names == names[..i] + names[i..];
    FirstNotInAppend(names[..i], names[i..], provided);
  }

  lemma {:induction false} SimpleNamesAppend(a: seq<ServiceEnvOption>, b: seq<ServiceEnvOption>)
    ensures SimpleNames(a + b) == SimpleNames(a) + SimpleNames(b)
    decreases |b|
  {
    if |b| == 0 {
      assert a + b == a;
    } else {
      var ab := a + b;
      assert ab[..|ab| - 1] == a + b[..|b| - 1];
      SimpleNamesAppend(a, b[..|b| - 1]);
    }
  }

  /** `SimpleNames` holds exactly the names of the `Simple` selectors. */
  lemma {:induction false} SimpleNamesExact(opts: seq<ServiceEnvOption>)
    ensures forall n :: n in SimpleNames(opts) <==> Simple(n) in opts
  {
    if |opts| > 0 {
      SimpleNamesExact(opts[..|opts| - 1]);
      assert opts == opts[..|opts| - 1] + [opts[|opts| - 1]];
    }
  }

  lemma {:induction false} FirstUndefinedStops(services: seq<ServiceSpec>, defined: set<string>, i: nat)
    requires i <= |services| && FirstUndefined(services[..i], defined).Some?
    ensures FirstUndefined(services, defined) == FirstUndefined(services[..i], defined)
  {
    if i == |services| {
      assert services[..i] == services;
    } else {
      var init := services[..|services| - 1];
      assert init[..i] == services[..i];
      FirstUndefinedStops(init, defined, i);
    }
  }

  /** No undefined reference exactly when every `Simple` selector of every service names a
      defined variable. */
  lemma {:induction false} FirstUndefinedNone(services: seq<ServiceSpec>, defined: set<string>)
    ensures FirstUndefined(services, defined).None?
        <==> forall s, o :: s in services && o in s.environment && o.Simple? ==> o.name in defined
  {
    if |services| > 0 {
      var init, last := services[..|services| - 1], services[|services| - 1];
      FirstUndefinedNone(init, defined);
      SimpleNamesExact(last.environment);
      assert services == init + [last];
    }
  }

  /** Nothing is missing exactly when every external without a default is provided. */
  lemma {:induction false} MissingExternalsEmpty(exts: seq<ExternalEnvVariable>, provided: set<string>)
    ensures |MissingExternals(exts, provided)| == 0 <==> forall e :: e in exts && e.default.None? ==> e.name in provided
  {
    if |exts| > 0 {
      MissingExternalsEmpty(exts[..|exts| - 1], provided);
      assert exts == exts[..|exts| - 1] + [exts[|exts| - 1]];
    }
  }

  /** The missing names are exactly those of the unprovided externals without a default. */
  lemma {:induction false} MissingExternalsExact(exts: seq<ExternalEnvVariable>, provided: set<string>)
    ensures forall n :: (n in MissingExternals(exts, provided)
                         <==> exists e :: e in exts && e.name == n && n !in provided && e.default.None?)
  {
    if |exts| > 0 {
      MissingExternalsExact(exts[..|exts| - 1], provided);
      assert exts == exts[..|exts| - 1] + [exts[|exts| - 1]];
    }
  }

  lemma DefinedVarsExact(env: AppEnvironment, n: string)
    ensures n in DefinedVars(env) <==> IsDefinedVar(env, n)
  {
  }

  lemma EnvironmentCheck(dep: DeploymentSpec, app: AppSpec)
    ensures |MissingExternals(app.environment.external, ProvidedEnv(dep))| == 0
        <==> forall e :: e in app.environment.external && e.default.None? ==> exists v :: v in dep.environment && v.name == e.name
  {
    MissingExternalsEmpty(app.environment.external, ProvidedEnv(dep));
  }

  lemma SecretsCheck(dep: DeploymentSpec, app: AppSpec)
    ensures FirstNotIn(SecretNames(app.secrets), ProvidedSecrets(dep)).None?
        <==> forall s :: s in app.secrets ==> exists d :: d in dep.secrets && d.secret_name == s.secret_name
  {
    var names := SecretNames(app.secrets);
    forall s | s in app.secrets
      ensures s.secret_name in names
    {
      var i :| 0 <= i < |app.secrets| && app.secrets[i] == s;
      assert names[i] == s.secret_name;
    }
    forall n | n in names
      ensures exists s :: s in app.secrets && s.secret_name == n
    {
      var i :| 0 <= i < |names| && names[i] == n;
      assert app.secrets[i] in app.secrets;
    }
  }

  lemma ConfigsCheck(dep: DeploymentSpec, app: AppSpec)
    ensures FirstNotIn(ConfigNames(app.configs), ProvidedConfigs(dep)).None?
        <==> forall c :: c in app.configs ==> exists d :: d in dep.configs && d.name == c.name
  {
    var names := ConfigNames(app.configs);
    forall c | c in app.configs
      ensures c.name in names
    {
      var i :| 0 <= i < |app.configs| && app.configs[i] == c;
      assert names[i] == c.name;
    }
    forall n | n in names
      ensures exists c :: c in app.configs && c.name == n
    {
      var i :| 0 <= i < |names| && names[i] == n;
      assert app.configs[i] in app.configs;
    }
  }

  lemma ReferencesCheck(app: AppSpec)
    ensures FirstUndefined(AllServices(app), DefinedVars(app.environment)).None?
        <==> forall s, o :: s in AllServices(app) && o in s.environment && o.Simple? ==> IsDefinedVar(app.environment, o.name)
  {
    FirstUndefinedNone(AllServices(app), DefinedVars(app.environment));
  }

  /** The checks of a found deployment pass exactly when it fits the application, for any
      visiting order of its overrides. */
  lemma CheckDeploymentFits(dep: DeploymentSpec, app: AppSpec, envName: string, satisfies: (string, string) -> bool, order: seq<string>)
    requires forall k :: k in order <==> k in OverriddenServices(dep)
    ensures CheckDeployment(dep, app, envName, satisfies, order).Ok? <==> Fits(dep, app, satisfies)
  {
    EnvironmentCheck(dep, app);
    SecretsCheck(dep, app);
    ConfigsCheck(dep, app);
    ReferencesCheck(app);
  }

  /** `validate` succeeds exactly for a valid deployment, whatever the visiting order. */
  lemma ValidateSpecValid(envSpec: DeploymentEnvironmentSpec, app: AppSpec, envName: string, satisfies: (string, string) -> bool, order: seq<string>)
    requires VisitsOverrides(envSpec, envName, order)
    ensures ValidateSpec(envSpec, app, envName, satisfies, order).Ok? <==> Valid(envSpec, app, envName, satisfies)
  {
    var found := FindDeployment(envSpec.deployments, envName);
    if found.Some? {
      CheckDeploymentFits(found.value, app, envName, satisfies, order);
    }
  }

  /** An unknown deployment name is the first error. */
  lemma DeploymentMissing(envSpec: DeploymentEnvironmentSpec, app: AppSpec, envName: string, satisfies: (string, string) -> bool, order: seq<string>)
    requires forall d :: d in envSpec.deployments ==> d.name != envName
    ensures ValidateSpec(envSpec, app, envName, satisfies, order) == Err("Deployment " + envName + " not found in envspec")
  {
  }

  /** A deployment for another application is refused before anything else is looked at. */
  lemma ApplicationMismatch(dep: DeploymentSpec, app: AppSpec, envName: string, satisfies: (string, string) -> bool, order: seq<string>)
    requires dep.application.name != app.name
    ensures CheckDeployment(dep, app, envName, satisfies, order)
         == Err("Deployment " + envName + " expects application " + dep.application.name + ", but appspec is for " + app.name)
  {
  }

  /** Values given only in the undockerized environment do not provide an external. */
  lemma UndockerizedDoesNotProvide(dep: DeploymentSpec, app: AppSpec, satisfies: (string, string) -> bool, e: ExternalEnvVariable)
    requires e in app.environment.external && e.default.None?
    requires forall v :: v in dep.environment ==> v.name != e.name
    ensures !Fits(dep, app, satisfies)
    ensures !Fits(dep.(undockerized_environment := dep.undockerized_environment + [EnvVariable(e.name, "")]), app, satisfies)
  {
  }

  /** A selector naming a variable that is only optional is refused. */
  lemma OptionalNotSelectable(dep: DeploymentSpec, app: AppSpec, satisfies: (string, string) -> bool, s: ServiceSpec, n: string)
    requires s in AllServices(app) && Simple(n) in s.environment
    requires !IsDefinedVar(app.environment, n)
    ensures !Fits(dep, app, satisfies)
  {
  }
}

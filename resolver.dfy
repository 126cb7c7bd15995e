/** `resolve` (src/resolver.rs:10-286): the application descriptor and one deployment of
    the environment descriptor become the resolved deployment, in five stages — configs,
    secrets, services, ingress rules, TLS — the first failure of which is the result. */
module Resolver {
  import opened Wrappers
  import opened Spec
  import opened ResolvedSpec
  import opened ResolverFiles
  import opened ResolverIngress
  import opened ResolverServices

  function DeploymentNamed(envSpec: DeploymentEnvironmentSpec, name: string): Result<DeploymentSpec> {
    match FindDeployment(envSpec.deployments, name)
    case None => Err("Deployment " + name + " not found")
    case Some(d) => Ok(d)
  }

  function ResolveIngress(envSpec: DeploymentEnvironmentSpec, app: AppSpec, dep: DeploymentSpec): IngressResolvedSpec {
    IngressResolvedSpec(
      envSpec.ingress.name,
      ResolveTls(envSpec.ingress.tls),
      AllDomains(envSpec.ingress.hosts),
      IngressRules(app, dep, envSpec.ingress.hosts))
  }

  /** The whole resolution, stage by stage. */
  function ResolveSpec(envSpec: DeploymentEnvironmentSpec, app: AppSpec, deploymentName: string, fs: FileSystem, penv: ProcessEnv)
    : Result<EnvironmentResolvedSpec>
  {
    var dep :- DeploymentNamed(envSpec, deploymentName);
    var configs :- ResolveConfigs(app.name, dep.configs, fs);
    var secrets :- ResolveSecrets(app.name, dep.secrets, fs, penv);
    var progress :- ResolveServices(Context(envSpec, app, dep, configs, secrets), AllServices(app));
    var deployment := DeploymentResolvedSpec(dep.name, dep.application.name, configs, secrets, dep.defaults, progress.services);
    Ok(EnvironmentResolvedSpec(ResolveIngress(envSpec, app, dep), deployment, envSpec.env_type))
  }

  /** `resolve`. */
  method Resolve(envSpec: DeploymentEnvironmentSpec, app: AppSpec, deploymentName: string, fs: FileSystem, penv: ProcessEnv)
    returns (r: Result<EnvironmentResolvedSpec>)
    ensures r == ResolveSpec(envSpec, app, deploymentName, fs, penv)
  {
    var found := FindDeployment(envSpec.deployments, deploymentName);
    if found.None? {
      return Err("Deployment " + deploymentName + " not found");
    }
    var dep := found.value;
    var configs := ResolveConfigList(app.name, dep.configs, fs);
    if configs.Err? {
      return Err(configs.msg);
    }
    var secrets := ResolveSecretList(app.name, dep.secrets, fs, penv);
    if secrets.Err? {
      return Err(secrets.msg);
    }
    var ctx := Context(envSpec, app, dep, configs.value, secrets.value);
    var progress := ResolveServiceList(ctx, AllServices(app));
    if progress.Err? {
      return Err(progress.msg);
    }
    var deployment := DeploymentResolvedSpec(dep.name, dep.application.name, configs.value, secrets.value, dep.defaults, progress.value.services);
    var rules := ResolveIngressRules(app, dep, envSpec.ingress.hosts);
    var ingress := IngressResolvedSpec(envSpec.ingress.name, ResolveTls(envSpec.ingress.tls), AllDomains(envSpec.ingress.hosts), rules);
    return Ok(EnvironmentResolvedSpec(ingress, deployment, envSpec.env_type));
  }

  // ----- properties -----

  /** The context the services of a found deployment are resolved against. */
  function ServiceContext(envSpec: DeploymentEnvironmentSpec, app: AppSpec, deploymentName: string, fs: FileSystem, penv: ProcessEnv): Context
    requires ResolveSpec(envSpec, app, deploymentName, fs, penv).Ok?
  {
    var dep := FindDeployment(envSpec.deployments, deploymentName).value;
    Context(envSpec, app, dep, ResolveConfigs(app.name, dep.configs, fs).value, ResolveSecrets(app.name, dep.secrets, fs, penv).value)
  }

  /** A successful resolution is made of successful stages. */
  lemma ResolveStages(envSpec: DeploymentEnvironmentSpec, app: AppSpec, deploymentName: string, fs: FileSystem, penv: ProcessEnv)
    requires ResolveSpec(envSpec, app, deploymentName, fs, penv).Ok?
    ensures var r := ResolveSpec(envSpec, app, deploymentName, fs, penv).value;
      var ctx := ServiceContext(envSpec, app, deploymentName, fs, penv);
      && ResolveServices(ctx, AllServices(app)).Ok?
      && r.current_deployment == DeploymentResolvedSpec(ctx.dep.name, ctx.dep.application.name, ctx.configs, ctx.secrets,
                                   ctx.dep.defaults, ResolveServices(ctx, AllServices(app)).value.services)
      && r.ingress == ResolveIngress(envSpec, app, ctx.dep)
      && r.env_type == envSpec.env_type
  {
  }

  /** An unknown deployment name is the first error. */
  lemma DeploymentNotFound(envSpec: DeploymentEnvironmentSpec, app: AppSpec, deploymentName: string, fs: FileSystem, penv: ProcessEnv)
    requires forall d :: d in envSpec.deployments ==> d.name != deploymentName
    ensures ResolveSpec(envSpec, app, deploymentName, fs, penv) == Err("Deployment " + deploymentName + " not found")
  {
  }

  /** A resolved deployment is the named one: it carries its name, application, defaults,
      configs and secrets, one resolved service per service of the application in order,
      the ingress rules of the environment's hosts and every domain of them. */
  lemma ResolveOutline(envSpec: DeploymentEnvironmentSpec, app: AppSpec, deploymentName: string, fs: FileSystem, penv: ProcessEnv)
    requires ResolveSpec(envSpec, app, deploymentName, fs, penv).Ok?
    ensures var r := ResolveSpec(envSpec, app, deploymentName, fs, penv).value;
      var dep := FindDeployment(envSpec.deployments, deploymentName).value;
      && FindDeployment(envSpec.deployments, deploymentName).Some?
      && r.current_deployment.name == deploymentName
      && r.current_deployment.application_name == dep.application.name
      && r.current_deployment.defaults == dep.defaults
      && ResolveConfigs(app.name, dep.configs, fs) == Ok(r.current_deployment.configs)
      && ResolveSecrets(app.name, dep.secrets, fs, penv) == Ok(r.current_deployment.secrets)
      && |r.current_deployment.services| == |app.app_services| + |app.extra_services|
      && r.ingress.rules == IngressRules(app, dep, envSpec.ingress.hosts)
      && r.ingress.domains == AllDomains(envSpec.ingress.hosts)
      && r.env_type == envSpec.env_type
  {
    ResolveStages(envSpec, app, deploymentName, fs, penv);
    ResolveServicesShape(ServiceContext(envSpec, app, deploymentName, fs, penv), AllServices(app));
  }

  /** Every service is resolved as `ResolvedFrom` says. */
  lemma ResolvedServices(envSpec: DeploymentEnvironmentSpec, app: AppSpec, deploymentName: string, fs: FileSystem, penv: ProcessEnv)
    requires ResolveSpec(envSpec, app, deploymentName, fs, penv).Ok?
    ensures var ctx := ServiceContext(envSpec, app, deploymentName, fs, penv);
      var rs := ResolveSpec(envSpec, app, deploymentName, fs, penv).value.current_deployment.services;
      |rs| == |AllServices(app)| && forall i :: 0 <= i < |rs| ==> ResolvedFrom(ctx, AllServices(app)[i], rs[i])
  {
    ResolveStages(envSpec, app, deploymentName, fs, penv);
    ResolveServicesShape(ServiceContext(envSpec, app, deploymentName, fs, penv), AllServices(app));
  }

  /** No host and prefix pair is claimed twice among the public services of a resolved
      deployment. */
  lemma ResolvedPublicPairsUnique(envSpec: DeploymentEnvironmentSpec, app: AppSpec, deploymentName: string, fs: FileSystem, penv: ProcessEnv)
    requires ResolveSpec(envSpec, app, deploymentName, fs, penv).Ok?
    ensures Distinct(PublicKeys(ServiceContext(envSpec, app, deploymentName, fs, penv), AllServices(app)))
  {
    ResolveStages(envSpec, app, deploymentName, fs, penv);
    PublicPairsUnique(ServiceContext(envSpec, app, deploymentName, fs, penv), AllServices(app));
  }

  /** The `{app}-` prefix of resolved names is unambiguous. */
  lemma PrefixedNameInjective(appName: string, a: string, b: string)
    requires appName + "-" + a == appName + "-" + b
    ensures a == b
  {
    var k := |appName + "-"|;
    assert a == (appName + "-" + a)[k..];
    assert b == (appName + "-" + b)[k..];
  }

  /** A service's config reference resolves exactly when the deployment declares a config
      of that name. */
  lemma ConfigReferenceResolves(appName: string, depConfigs: seq<ConfigSpec>, fs: FileSystem, name: string)
    requires ResolveConfigs(appName, depConfigs, fs).Ok?
    ensures HasConfig(ResolveConfigs(appName, depConfigs, fs).value, appName + "-" + name)
        <==> exists c :: c in depConfigs && c.name == name
  {
    var r := ResolveConfigs(appName, depConfigs, fs).value;
    ResolveConfigsShape(appName, depConfigs, fs);
    if HasConfig(r, appName + "-" + name) {
      var c :| c in r && c.name == appName + "-" + name;
      var k :| 0 <= k < |r| && r[k] == c;
      PrefixedNameInjective(appName, depConfigs[k].name, name);
      assert depConfigs[k] in depConfigs;
    }
    if exists c :: c in depConfigs && c.name == name {
      var c :| c in depConfigs && c.name == name;
      var k :| 0 <= k < |depConfigs| && depConfigs[k] == c;
      assert r[k] in r;
    }
  }

  /** The same for secrets. */
  lemma SecretReferenceResolves(appName: string, depSecrets: seq<DeploymentSecretSpec>, fs: FileSystem, penv: ProcessEnv, name: string)
    requires ResolveSecrets(appName, depSecrets, fs, penv).Ok?
    ensures HasSecret(ResolveSecrets(appName, depSecrets, fs, penv).value, appName + "-" + name)
        <==> exists s :: s in depSecrets && s.secret_name == name
  {
    var r := ResolveSecrets(appName, depSecrets, fs, penv).value;
    ResolveSecretsShape(appName, depSecrets, fs, penv);
    if HasSecret(r, appName + "-" + name) {
      var s :| s in r && s.name == appName + "-" + name;
      var k :| 0 <= k < |r| && r[k] == s;
      PrefixedNameInjective(appName, depSecrets[k].secret_name, name);
      assert depSecrets[k] in depSecrets;
    }
    if exists s :: s in depSecrets && s.secret_name == name {
      var s :| s in depSecrets && s.secret_name == name;
      var k :| 0 <= k < |depSecrets| && depSecrets[k] == s;
      assert r[k] in r;
    }
  }
}

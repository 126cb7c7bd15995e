/** Normalisation of the environment descriptor (src/transform.rs): the ingress and its TLS
    requirement, every deployment, and the rules each kind of environment (K8S, Docker,
    Local) imposes. */
module TransformEnv {
  import opened Wrappers
  import opened Strings
  import opened Spec
  import opened SpecYaml
  import opened TransformDeployment

  // ----- ingress -----

  function HostOf(entry: (string, HostSpecYaml)): HostSpec {
    match entry.1
    case Single(domain) => HostSpec(entry.0, [domain])
    case Multiple(domains) => HostSpec(entry.0, domains)
  }

  /** One host per entry: a single domain becomes a one-element list. */
  function HostsOf(entries: Entries<HostSpecYaml>): (r: seq<HostSpec>)
    ensures |r| == |entries|
    ensures forall k :: 0 <= k < |r| ==>
      r[k].name == entries[k].0
      && r[k].domain_names == (if entries[k].1.Single? then [entries[k].1.domain] else entries[k].1.domains)
  {
    seq(|entries|, k requires 0 <= k < |entries| => HostOf(entries[k]))
  }

  const TlsRequiredError := "Ingress TLS configuration is required for non-local environments. If you want to disable TLS explicitly set 'disable: true' in tls section"

  /** The TLS setting: required outside a Local environment; `disable: true` switches it
      off; otherwise its secret and Let's Encrypt settings as written. */
  function TlsOf(tls: Option<IngressTlsSpecYaml>, envType: DeploymentEnvTypeYaml): (r: Result<Option<IngressTlsSpec>>)
    ensures r.Err? <==> tls.None? && envType != LocalYaml
    ensures r.Err? ==> r.msg == TlsRequiredError
    ensures r.Ok? ==> (r.value.None? <==> tls.None? || tls.value.disable == Some(true))
    ensures r.Ok? && r.value.Some? ==>
      && r.value.value.secret == tls.value.secret
      && (r.value.value.letsencrypt.Some? <==> tls.value.letsencrypt.Some?)
      && (tls.value.letsencrypt.Some? ==>
            r.value.value.letsencrypt.value.server == tls.value.letsencrypt.value.server
            && r.value.value.letsencrypt.value.email == tls.value.letsencrypt.value.email)
  {
    match tls
    case None => if envType == LocalYaml then Ok(None) else Err(TlsRequiredError)
    case Some(t) =>
      if t.disable == Some(true) then Ok(None)
      else
        var letsencrypt :=
          if t.letsencrypt.Some? then Some(LetsEncryptSpec(t.letsencrypt.value.server, t.letsencrypt.value.email))
          else None;
        Ok(Some(IngressTlsSpec(t.secret, letsencrypt)))
  }

  /** `convert_ingress`: the name, the hosts and the TLS setting. */
  function IngressOf(yaml: IngressSpecYaml, envType: DeploymentEnvTypeYaml): Result<IngressSpec> {
    var tls :- TlsOf(yaml.tls, envType);
    Ok(IngressSpec(yaml.name, HostsOf(yaml.hosts), tls))
  }

  method ConvertIngress(yaml: IngressSpecYaml, envType: DeploymentEnvTypeYaml) returns (r: Result<IngressSpec>)
    ensures r == IngressOf(yaml, envType)
  {
    var hosts := [];
    var i := 0;
    while i < |yaml.hosts|
      invariant i <= |yaml.hosts| && |hosts| == i
      invariant forall k :: 0 <= k < i ==> hosts[k] == HostOf(yaml.hosts[k])
    {
      var (name, host) := yaml.hosts[i];
      match host {
        case Single(s) => hosts := hosts + [HostSpec(name, [s])];
        case Multiple(v) => hosts := hosts + [HostSpec(name, v)];
      }
      i := i + 1;
    }
    assert hosts == HostsOf(yaml.hosts);
    var tls := TlsOf(yaml.tls, envType);
    if tls.Err? {
      return Err(tls.msg);
    }
    r := Ok(IngressSpec(yaml.name, hosts, tls.value));
  }

  // ----- environment kinds -----

  /** Docker's ingress kind: `nginx`; `traefik` when so written or not written at all;
      anything else is refused. */
  function DockerIngressOf(ingressType: Option<string>): (r: Result<DockerIngressType>)
    ensures r == Ok(Nginx) <==> ingressType == Some("nginx")
    ensures r == Ok(Traefik) <==> ingressType.None? || ingressType == Some("traefik")
    ensures r.Err? ==> r == Err("Unknown ingress type: " + ingressType.value)
  {
    match ingressType
    case None => Ok(Traefik)
    case Some(t) =>
      if t == "nginx" then Ok(Nginx)
      else if t == "traefik" then Ok(Traefik)
      else Err("Unknown ingress type: " + t)
  }

  /** Every overridden service publishes at least one port. */
  ghost predicate EveryServiceHasPort(services: map<string, DeploymentServiceSpec>) {
    forall name :: name in services ==> |services[name].ports| > 0
  }

  /** No two ports, of the same service or of two services, share an external port. */
  ghost predicate UniqueExternalPorts(services: map<string, DeploymentServiceSpec>) {
    UniqueOn(services, services.Keys)
  }

  /** No two ports of the services named in `names` share an external port. */
  ghost predicate UniqueOn(services: map<string, DeploymentServiceSpec>, names: set<string>) {
    forall a, i, b, j ::
      a in names && b in names && a in services && b in services
      && 0 <= i < |services[a].ports| && 0 <= j < |services[b].ports| && (a != b || i != j)
      ==> services[a].ports[i].external != services[b].ports[j].external
  }

  /** The external port `p` is published twice. */
  ghost predicate Duplicated(services: map<string, DeploymentServiceSpec>, p: int) {
    exists a, i, b, j ::
      a in services && b in services
      && 0 <= i < |services[a].ports| && 0 <= j < |services[b].ports| && (a != b || i != j)
      && services[a].ports[i].external == p && services[b].ports[j].external == p
  }

  /** The external ports of the services named in `names`. */
  ghost function ExternalsOn(services: map<string, DeploymentServiceSpec>, names: set<string>): set<int> {
    set a, i | a in names && a in services && 0 <= i < |services[a].ports| :: services[a].ports[i].external
  }

  /** The check a Local environment makes of its deployment's overrides, as the `ports_seen`
      loop does it, in whatever order the map yields the services: it succeeds exactly when
      every service has a port and no external port repeats, and otherwise reports a service
      without ports or a repeated port. */
  method CheckLocalPorts(services: map<string, DeploymentServiceSpec>) returns (r: Result<()>)
    ensures r.Ok? <==> EveryServiceHasPort(services) && UniqueExternalPorts(services)
    ensures r.Err? ==>
      (exists name :: name in services && |services[name].ports| == 0
         && r.msg == "In Local environment, service " + name + " must have at least one port")
      || (exists p :: Duplicated(services, p) && r.msg == "Duplicate external port " + NatToString(p) + " in deployment")
  {
    var seen: set<int> := {};
    var remaining := services.Keys;
    ghost var visited: set<string> := {};
    while remaining != {}
      invariant remaining + visited == services.Keys && remaining !! visited
      invariant forall name :: name in visited ==> |services[name].ports| > 0
      invariant UniqueOn(services, visited)
      invariant seen == ExternalsOn(services, visited)
      decreases |remaining|
    {
      var name :| name in remaining;
      var ports := services[name].ports;
      if |ports| == 0 {
        return Err("In Local environment, service " + name + " must have at least one port");
      }
      var inserted := InsertPorts(services, visited, name, seen);
      if inserted.Err? {
        return Err(inserted.msg);
      }
      seen := inserted.value;
      visited := visited + {name};
      remaining := remaining - {name};
    }
    r := Ok(());
  }

  /** The inner loop of the ports check: the ports of one more service inserted into the
      set of external ports seen so far, failing at the first one already there. */
  method InsertPorts(services: map<string, DeploymentServiceSpec>, ghost visited: set<string>, name: string, seen: set<int>)
    returns (r: Result<set<int>>)
    requires name in services && name !in visited && UniqueOn(services, visited)
    requires seen == ExternalsOn(services, visited)
    ensures r.Ok? ==> r.value == ExternalsOn(services, visited + {name}) && UniqueOn(services, visited + {name})
    ensures r.Err? ==>
      !UniqueExternalPorts(services)
      && exists p :: Duplicated(services, p) && r.msg == "Duplicate external port " + NatToString(p) + " in deployment"
  {
    var ports := services[name].ports;
    var now := seen;
    var j := 0;
    while j < |ports|
      invariant j <= |ports|
      invariant now == seen + (set k | 0 <= k < j :: ports[k].external)
      invariant forall k1, k2 :: 0 <= k1 < k2 < j ==> ports[k1].external != ports[k2].external
      invariant forall k :: 0 <= k < j ==> ports[k].external !in seen
    {
      var p := ports[j].external;
      if p in now {
        DuplicateFound(services, visited, name, j);
        return Err("Duplicate external port " + NatToString(p) + " in deployment");
      }
      now := now + {p};
      j := j + 1;
    }
    UniqueExtend(services, visited, name);
    r := Ok(now);
  }

  /** A port already seen among the earlier services or the earlier ports of this one is
      published twice. */
  lemma DuplicateFound(services: map<string, DeploymentServiceSpec>, visited: set<string>, name: string, j: nat)
    requires name in services && name !in visited && j < |services[name].ports|
    requires var ports := services[name].ports;
      ports[j].external in ExternalsOn(services, visited) + (set k | 0 <= k < j :: ports[k].external)
    ensures Duplicated(services, services[name].ports[j].external)
    ensures !UniqueExternalPorts(services)
  {
    var ports := services[name].ports;
    var p := ports[j].external;
    if p in ExternalsOn(services, visited) {
      var a, i :| a in visited && a in services && 0 <= i < |services[a].ports| && services[a].ports[i].external == p;
      assert services[a].ports[i].external == p && a != name;
    } else {
      var k :| 0 <= k < j && ports[k].external == p;
      assert services[name].ports[k].external == p;
    }
  }

  /** A service whose ports are distinct and new keeps the external ports unique. */
  lemma UniqueExtend(services: map<string, DeploymentServiceSpec>, visited: set<string>, name: string)
    requires name in services && name !in visited && UniqueOn(services, visited)
    requires var ports := services[name].ports;
      && (forall k1, k2 :: 0 <= k1 < k2 < |ports| ==> ports[k1].external != ports[k2].external)
      && (forall k :: 0 <= k < |ports| ==> ports[k].external !in ExternalsOn(services, visited))
    ensures UniqueOn(services, visited + {name})
    ensures ExternalsOn(services, visited + {name}) ==
      ExternalsOn(services, visited) + (set k | 0 <= k < |services[name].ports| :: services[name].ports[k].external)
  {
    var ports := services[name].ports;
    forall a, i, b, j |
      a in visited + {name} && b in visited + {name} && a in services && b in services
      && 0 <= i < |services[a].ports| && 0 <= j < |services[b].ports| && (a != b || i != j)
      ensures services[a].ports[i].external != services[b].ports[j].external
    {
      if a == name && b != name {
        assert services[b].ports[j].external in ExternalsOn(services, visited);
      } else if b == name && a != name {
        assert services[a].ports[i].external in ExternalsOn(services, visited);
      }
    }
  }

  /** What the environment-kind rules give, `r`, for a kind, the written `swarm_mode` and
      ingress `type`, the registry and the converted deployments. K8S refuses `swarm_mode`
      and an ingress type. Docker takes its ingress kind from the type and is not in swarm
      mode unless told so. Local refuses `swarm_mode`, an ingress type and a non-empty
      registry, needs exactly one deployment, and then needs the ports check of that
      deployment's overrides to pass. */
  ghost predicate EnvTypeOutcome(envType: DeploymentEnvTypeYaml, swarmMode: Option<bool>, ingressType: Option<string>,
    registry: map<string, string>, deployments: seq<DeploymentSpec>, r: Result<DeploymentEnvType>)
  {
    match envType
    case K8SYaml =>
      r == if swarmMode.Some? then Err("swarm_mode cannot be set for K8S environment")
        else if ingressType.Some? then Err("ingress_type cannot be set for K8S environment")
        else Ok(K8S)
    case DockerYaml =>
      r == (match DockerIngressOf(ingressType)
        case Ok(kind) => Ok(Docker(DockerSpecificSpec(kind, swarmMode.GetOr(false))))
        case Err(m) => Err(m))
    case LocalYaml =>
      if swarmMode.Some? then r == Err("swarm_mode cannot be set for Local environment")
      else if ingressType.Some? then r == Err("ingress_type cannot be set for Local environment")
      else if |registry| != 0 then r == Err("registry must be empty for Local environment")
      else if |deployments| != 1 then r == Err("For Local environment exactly one deployment must be specified")
      else
        var services := deployments[0].services.GetOr(map[]);
        && (r.Ok? <==> EveryServiceHasPort(services) && UniqueExternalPorts(services))
        && (r.Ok? ==> r.value == Local)
        && (r.Err? ==>
              (exists name :: name in services && |services[name].ports| == 0
                 && r.msg == "In Local environment, service " + name + " must have at least one port")
              || (exists p :: Duplicated(services, p) && r.msg == "Duplicate external port " + NatToString(p) + " in deployment"))
  }

  /** The `env_type` match of `convert_env_spec`. */
  method ConvertEnvType(envType: DeploymentEnvTypeYaml, swarmMode: Option<bool>, ingressType: Option<string>,
    registry: map<string, string>, deployments: seq<DeploymentSpec>) returns (r: Result<DeploymentEnvType>)
    ensures EnvTypeOutcome(envType, swarmMode, ingressType, registry, deployments, r)
  {
    match envType {
      case K8SYaml =>
        if swarmMode.Some? {
          return Err("swarm_mode cannot be set for K8S environment");
        }
        if ingressType.Some? {
          return Err("ingress_type cannot be set for K8S environment");
        }
        r := Ok(K8S);
      case DockerYaml =>
        var swarm := swarmMode.GetOr(false);
        var kind;
        if ingressType == Some("nginx") {
          kind := Nginx;
        } else if ingressType.None? || ingressType == Some("traefik") {
          kind := Traefik;
        } else {
          return Err("Unknown ingress type: " + ingressType.value);
        }
        r := Ok(Docker(DockerSpecificSpec(kind, swarm)));
      case LocalYaml =>
        if swarmMode.Some? {
          return Err("swarm_mode cannot be set for Local environment");
        }
        if ingressType.Some? {
          return Err("ingress_type cannot be set for Local environment");
        }
        if |registry| != 0 {
          return Err("registry must be empty for Local environment");
        }
        if |deployments| != 1 {
          return Err("For Local environment exactly one deployment must be specified");
        }
        var check := CheckLocalPorts(deployments[0].services.GetOr(map[]));
        if check.Err? {
          return Err(check.msg);
        }
        r := Ok(Local);
    }
  }

  /** A Local environment that converts has no swarm mode, no ingress type, an empty
      registry, exactly one deployment, and ports on every overridden service with no
      external port used twice. */
  lemma LocalRequirements(swarmMode: Option<bool>, ingressType: Option<string>,
    registry: map<string, string>, deployments: seq<DeploymentSpec>, r: Result<DeploymentEnvType>)
    requires EnvTypeOutcome(LocalYaml, swarmMode, ingressType, registry, deployments, r) && r.Ok?
    ensures swarmMode.None? && ingressType.None? && |registry| == 0 && |deployments| == 1 && r.value == Local
    ensures var services := deployments[0].services.GetOr(map[]);
      forall name :: name in services ==> |services[name].ports| > 0
    ensures var services := deployments[0].services.GetOr(map[]);
      forall a, i, b, j ::
        (a in services && b in services && 0 <= i < |services[a].ports| && 0 <= j < |services[b].ports|
         && services[a].ports[i].external == services[b].ports[j].external) ==> a == b && i == j
  {
  }

  // ----- the environment descriptor -----

  /** The deployments, one per entry, each named by its key; the first that fails fails them
      all. */
  function DeploymentsOf(entries: Entries<DeploymentSpecYaml>, inputs: Inputs): Result<seq<DeploymentSpec>> {
    if |entries| == 0 then Ok([])
    else
      var prev :- DeploymentsOf(entries[..|entries| - 1], inputs);
      var last := entries[|entries| - 1];
      var d :- DeploymentOf(last.0, last.1, inputs);
      Ok(prev + [d])
  }

  lemma {:induction false} DeploymentsStop(entries: Entries<DeploymentSpecYaml>, inputs: Inputs, i: nat)
    requires i <= |entries| && DeploymentsOf(entries[..i], inputs).Err?
    ensures DeploymentsOf(entries, inputs) == DeploymentsOf(entries[..i], inputs)
  {
    if i == |entries| {
      assert entries[..i] == entries;
    } else {
      var init := entries[..|entries| - 1];
      assert init[..i] == entries[..i];
      DeploymentsStop(init, inputs, i);
    }
  }

  /** Converted deployments are one per entry, in entry order, each the conversion of its
      entry under its key. */
  lemma {:induction false} DeploymentsNamed(entries: Entries<DeploymentSpecYaml>, inputs: Inputs)
    requires DeploymentsOf(entries, inputs).Ok?
    ensures var deps := DeploymentsOf(entries, inputs).value;
      |deps| == |entries| && forall k :: 0 <= k < |deps| ==> DeploymentOf(entries[k].0, entries[k].1, inputs) == Ok(deps[k])
  {
    if |entries| > 0 {
      DeploymentsNamed(entries[..|entries| - 1], inputs);
    }
  }

  /** The deployments loop of `convert_env_spec`. */
  method ConvertDeployments(entries: Entries<DeploymentSpecYaml>, inputs: Inputs) returns (r: Result<seq<DeploymentSpec>>)
    ensures r == DeploymentsOf(entries, inputs)
  {
    var deployments := [];
    var i := 0;
    while i < |entries|
      invariant i <= |entries|
      invariant DeploymentsOf(entries[..i], inputs) == Ok(deployments)
    {
      assert entries[..i + 1][..i] == entries[..i];
      var d := ConvertDeployment(entries[i].0, entries[i].1, inputs);
      if d.Err? {
        DeploymentsStop(entries, inputs, i + 1);
        return Err(d.msg);
      }
      deployments := deployments + [d.value];
      i := i + 1;
    }
    assert entries[..i] == entries;
    r := Ok(deployments);
  }

  /** `convert_env_spec`: the ingress first (so a missing TLS block is reported before
      anything else), then every deployment, then the rules of the environment's kind; on
      success the descriptor holds the kind, the ingress, the registry (empty when not
      written) and the deployments. */
  method ConvertEnvSpec(yaml: DeploymentEnvironmentSpecYaml, inputs: Inputs) returns (r: Result<DeploymentEnvironmentSpec>)
    ensures IngressOf(yaml.ingress, yaml.env_type).Err? ==> r == Err(IngressOf(yaml.ingress, yaml.env_type).msg)
    ensures IngressOf(yaml.ingress, yaml.env_type).Ok? && DeploymentsOf(yaml.deployments, inputs).Err? ==>
      r == Err(DeploymentsOf(yaml.deployments, inputs).msg)
    ensures IngressOf(yaml.ingress, yaml.env_type).Ok? && DeploymentsOf(yaml.deployments, inputs).Ok? ==>
      var deployments := DeploymentsOf(yaml.deployments, inputs).value;
      var registry := yaml.registry.GetOr(map[]);
      && EnvTypeOutcome(yaml.env_type, yaml.swarm_mode, yaml.ingress.ingress_type, registry, deployments,
           if r.Ok? then Ok(r.value.env_type) else Err(r.msg))
      && (r.Ok? ==> r.value == DeploymentEnvironmentSpec(r.value.env_type, IngressOf(yaml.ingress, yaml.env_type).value, registry, deployments))
  {
    var ingress := ConvertIngress(yaml.ingress, yaml.env_type);
    if ingress.Err? {
      return Err(ingress.msg);
    }
    var registry := yaml.registry.GetOr(map[]);
    var deployments := ConvertDeployments(yaml.deployments, inputs);
    if deployments.Err? {
      return Err(deployments.msg);
    }
    var envType := ConvertEnvType(yaml.env_type, yaml.swarm_mode, yaml.ingress.ingress_type, registry, deployments.value);
    if envType.Err? {
      return Err(envType.msg);
    }
    r := Ok(DeploymentEnvironmentSpec(envType.value, ingress.value, registry, deployments.value));
  }
}

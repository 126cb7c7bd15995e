/** The normalised descriptors: the application descriptor (`AppSpec`) and the
    environment descriptor (`DeploymentEnvironmentSpec`) with its deployments. */
module Spec {
  import opened Wrappers

  type u16 = x: int | 0 <= x < 0x1_0000
  type u32 = x: int | 0 <= x < 0x1_0000_0000

  datatype ExternalEnvVariable = ExternalEnvVariable(name: string, default: Option<string>)
  datatype OptionalEnvVariable = OptionalEnvVariable(name: string)
  datatype RelativeEnvVariable = RelativeEnvVariable(name: string, relative_value: string)
  datatype InternalEnvVariable = InternalEnvVariable(name: string, value: string)

  /** The four tiers, resolved in this order. */
  datatype AppEnvironment = AppEnvironment(
    external: seq<ExternalEnvVariable>,
    optional: seq<OptionalEnvVariable>,
    relative: seq<RelativeEnvVariable>,
    internal: seq<InternalEnvVariable>)

  datatype ConfigSpec = ConfigSpec(name: string, files: seq<string>)
  datatype AppSecretOption = AppSecretOption(secret_name: string)
  datatype ServicePort = ServicePort(external: u16, internal: u16)
  datatype ServiceType = Public | Internal | Job

  /** An environment selector of a service: `$all`, a bare name, or `name=value`. */
  datatype ServiceEnvOption = All | Simple(name: string) | WithValue(key: string, value: string)

  datatype ServiceConfigOption = ServiceConfigOption(config_name: string, mount_path: string)
  datatype ImageVariant = ImageVariant(variant_name: string, image: string)

  /** Where a service sees a secret: a file path or an environment variable. */
  datatype SecretMount = MountPath(path: string) | MountVariable(variable: string)
  datatype ServiceSecret = ServiceSecret(name: string, mount: SecretMount)

  datatype ServiceSpec = ServiceSpec(
    name: string,
    service_type: ServiceType,
    is_app_service: bool,
    image_variants: seq<ImageVariant>,
    environment: seq<ServiceEnvOption>,
    configs: seq<ServiceConfigOption>,
    secrets: seq<ServiceSecret>,
    ports: seq<ServicePort>)

  /** `version` is the semantic version as it prints (`Version::to_string`). */
  datatype AppSpec = AppSpec(
    name: string,
    version: string,
    environment: AppEnvironment,
    app_services: seq<ServiceSpec>,
    extra_services: seq<ServiceSpec>,
    configs: seq<ConfigSpec>,
    secrets: seq<AppSecretOption>)

  datatype DockerIngressType = Nginx | Traefik
  datatype DockerSpecificSpec = DockerSpecificSpec(ingress_type: DockerIngressType, swarm_mode: bool)
  datatype DeploymentEnvType = K8S | Docker(docker: DockerSpecificSpec) | Local

  datatype LetsEncryptSpec = LetsEncryptSpec(server: Option<string>, email: string)
  datatype IngressTlsSpec = IngressTlsSpec(secret: Option<string>, letsencrypt: Option<LetsEncryptSpec>)
  datatype HostSpec = HostSpec(name: string, domain_names: seq<string>)
  datatype IngressSpec = IngressSpec(name: string, hosts: seq<HostSpec>, tls: Option<IngressTlsSpec>)

  datatype EnvVariable = EnvVariable(name: string, value: string)

  /** Where a deployment takes a secret's value from. */
  datatype DeploymentSecretSource = SourceEnvVariable(variable: string) | SourceFilePath(path: string) | Embedded(value: string)
  datatype DeploymentSecretSpec = DeploymentSecretSpec(secret_name: string, source: DeploymentSecretSource)

  /** `version` is the text of the semantic-version requirement, if any. */
  datatype DeploymentAppSpec = DeploymentAppSpec(name: string, version: Option<string>, extra: seq<string>)

  datatype ResourceLimits = ResourceLimits(memory: string, cpu: string)
  datatype ResourcesSpec = ResourcesSpec(replicas: u32, requests: ResourceLimits, limits: ResourceLimits)

  datatype Prefix = Prefix(prefix: string, strip: bool)
  datatype DeploymentServiceSpec = DeploymentServiceSpec(
    variant: Option<string>,
    host: Option<string>,
    prefixes: seq<Prefix>,
    resources: ResourcesSpec,
    ports: seq<ServicePort>)

  datatype DeploymentSpec = DeploymentSpec(
    name: string,
    primary_host: string,
    application: DeploymentAppSpec,
    environment: seq<EnvVariable>,
    undockerized_environment: seq<EnvVariable>,
    configs: seq<ConfigSpec>,
    secrets: seq<DeploymentSecretSpec>,
    defaults: ResourcesSpec,
    services: Option<map<string, DeploymentServiceSpec>>)

  datatype DeploymentEnvironmentSpec = DeploymentEnvironmentSpec(
    env_type: DeploymentEnvType,
    ingress: IngressSpec,
    registry: map<string, string>,
    deployments: seq<DeploymentSpec>)

  /** `AppSpec::all_services`: the application's own services, then the extra ones. */
  function AllServices(app: AppSpec): (r: seq<ServiceSpec>)
    ensures |r| == |app.app_services| + |app.extra_services|
  {
    app.app_services + app.extra_services
  }

  /** The application's own services come first, then the extra ones, each in order. */
  lemma AllServicesOrder(app: AppSpec)
    ensures forall i :: 0 <= i < |app.app_services| ==> AllServices(app)[i] == app.app_services[i]
    ensures forall i :: 0 <= i < |app.extra_services| ==> AllServices(app)[|app.app_services| + i] == app.extra_services[i]
  {
  }

  /** The per-service override a deployment gives for a service name, if any. */
  function ServiceOverride(dep: DeploymentSpec, name: string): Option<DeploymentServiceSpec> {
    if dep.services.Some? && name in dep.services.value then Some(dep.services.value[name]) else None
  }

  /** The first deployment with the given name (`deployments.iter().find`). */
  function FindDeployment(deps: seq<DeploymentSpec>, name: string): (r: Option<DeploymentSpec>)
    ensures r.Some? ==> r.value in deps && r.value.name == name
    ensures r.None? <==> forall d :: d in deps ==> d.name != name
  {
    if |deps| == 0 then None
    else if deps[0].name == name then Some(deps[0])
    else FindDeployment(deps[1..], name)
  }
}

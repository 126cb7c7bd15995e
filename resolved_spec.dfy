/** The resolved deployment handed to the artifact generators. */
module ResolvedSpec {
  import opened Wrappers
  import opened Spec

  datatype LetsEncryptResolvedSpec = LetsEncryptResolvedSpec(server: string, email: string)
  datatype IngressTlsResolvedSpec = IngressTlsResolvedSpec(secret: Option<string>, letsencrypt: Option<LetsEncryptResolvedSpec>)
  datatype IngressToServiceRule = IngressToServiceRule(service_name: string, port: u16, prefix: string, strip_prefix: bool)
  datatype IngressRule = IngressRule(domain_name: string, services: seq<IngressToServiceRule>)
  datatype IngressResolvedSpec = IngressResolvedSpec(
    name: string,
    tls: Option<IngressTlsResolvedSpec>,
    domains: seq<string>,
    rules: seq<IngressRule>)

  datatype ServiceResolvedSpec = ServiceResolvedSpec(
    service_type: ServiceType,
    full_name: string,
    image: string,
    service_host: string,
    environment_variables: seq<EnvVariable>,
    undockerized_environment_variables: seq<EnvVariable>,
    configs: seq<ServiceConfigOption>,
    secrets: seq<ServiceSecret>,
    ports: seq<ServicePort>)

  datatype SecretResolvedSpec = SecretResolvedSpec(name: string, value: string)
  datatype ConfigResolvedFile = ConfigResolvedFile(name: string, content: string)
  datatype ConfigResolvedSpec = ConfigResolvedSpec(name: string, files: seq<ConfigResolvedFile>)

  datatype DeploymentResolvedSpec = DeploymentResolvedSpec(
    name: string,
    application_name: string,
    configs: seq<ConfigResolvedSpec>,
    secrets: seq<SecretResolvedSpec>,
    defaults: ResourcesSpec,
    services: seq<ServiceResolvedSpec>)

  datatype EnvironmentResolvedSpec = EnvironmentResolvedSpec(
    ingress: IngressResolvedSpec,
    current_deployment: DeploymentResolvedSpec,
    env_type: DeploymentEnvType)
}

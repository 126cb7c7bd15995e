/** The descriptors as they are written in YAML, before normalisation. A YAML mapping is
    given as the sequence of its entries in the order the map hands them out; that order is
    unspecified, and nothing in the model depends on it. */
module SpecYaml {
  import opened Wrappers
  import opened Spec

  type Entries<V> = seq<(string, V)>

  /** The keys of a mapping. */
  function EntryKeys<V>(entries: Entries<V>): set<string> {
    set k | 0 <= k < |entries| :: entries[k].0
  }

  /** Each tier lists `NAME` or `NAME=value` strings. */
  datatype AppEnvironmentYaml = AppEnvironmentYaml(
    external: Option<seq<string>>,
    optional: Option<seq<string>>,
    relative: Option<seq<string>>,
    internal: Option<seq<string>>)

  /** A list of secret names, or a mapping whose values are never read (only its keys are). */
  datatype AppSecretsYaml = SimpleSecrets(names: seq<string>) | DetailedSecrets(keys: seq<string>)

  datatype ServiceTypeYaml = PublicYaml | InternalYaml | JobYaml
  datatype ImageVariantYaml = ImageVariantYaml(image: string)
  datatype SecretConfigYaml = SecretConfigYaml(path: Option<string>, variable: Option<string>)

  /** A service secret: a bare name, or a mapping from names to an optional configuration. */
  datatype ServiceSecretYaml =
    | SimpleSecret(name: string)
    | DetailedSecret(entries: Entries<Option<SecretConfigYaml>>)

  datatype ServiceSpecYaml = ServiceSpecYaml(
    service_type: Option<ServiceTypeYaml>,
    image: Option<string>,
    variants: Option<Entries<ImageVariantYaml>>,
    environment: Option<seq<string>>,
    configs: Option<seq<Entries<string>>>,
    secrets: Option<seq<ServiceSecretYaml>>)

  datatype DeploymentEnvTypeYaml = K8SYaml | DockerYaml | LocalYaml

  datatype LetsEncryptSpecYaml = LetsEncryptSpecYaml(server: Option<string>, email: string)

  /** `disable: true` switches TLS off. */
  datatype IngressTlsSpecYaml = IngressTlsSpecYaml(
    disable: Option<bool>,
    secret: Option<string>,
    letsencrypt: Option<LetsEncryptSpecYaml>)

  datatype HostSpecYaml = Single(domain: string) | Multiple(domains: seq<string>)

  datatype IngressSpecYaml = IngressSpecYaml(
    name: string,
    hosts: Entries<HostSpecYaml>,
    tls: Option<IngressTlsSpecYaml>,
    ingress_type: Option<string>)

  datatype DeploymentSecretSpecYaml = DeploymentSecretSpecYaml(env: Option<string>, file: Option<string>)

  /** A deployment secret: its value written in place, or where to take it from. */
  datatype DeploymentSecretSpecExYaml =
    | LocalSecret(value: string)
    | DetailedSource(source: DeploymentSecretSpecYaml)

  /** A deployment's variables: a `.env` file to load, or a list of `NAME=value` strings. */
  datatype DeploymentEnvVariablesYaml = FromEnvFile(path: string) | FromList(list: seq<string>)

  datatype DeploymentAppSpecYaml = DeploymentAppSpecYaml(
    name: string,
    version: Option<string>,
    extra: Option<seq<string>>)

  datatype ResourceLimitsYaml = ResourceLimitsYaml(memory: Option<string>, cpu: Option<string>)
  datatype ResourcesSpecYaml = ResourcesSpecYaml(requests: Option<ResourceLimitsYaml>, limits: Option<ResourceLimitsYaml>)
  datatype DefaultsSpecYaml = DefaultsSpecYaml(replicas: Option<u32>, resources: Option<ResourcesSpecYaml>)
  datatype PrefixOptionsYaml = PrefixOptionsYaml(strip: Option<bool>)

  /** `ports` are `"external:internal"` strings. */
  datatype DeploymentServiceSpecYaml = DeploymentServiceSpecYaml(
    variant: Option<string>,
    host: Option<string>,
    prefix: Option<string>,
    strip_prefix: Option<bool>,
    prefixes: Option<Entries<PrefixOptionsYaml>>,
    replicas: Option<u32>,
    resources: Option<ResourcesSpecYaml>,
    ports: Option<seq<string>>)

  datatype DeploymentSpecYaml = DeploymentSpecYaml(
    application: DeploymentAppSpecYaml,
    environment: Option<DeploymentEnvVariablesYaml>,
    undockerized_environment: Option<DeploymentEnvVariablesYaml>,
    configs: Option<Entries<string>>,
    secrets: Option<Entries<DeploymentSecretSpecExYaml>>,
    defaults: Option<DefaultsSpecYaml>,
    services: Option<Entries<DeploymentServiceSpecYaml>>)

  datatype DeploymentEnvironmentSpecYaml = DeploymentEnvironmentSpecYaml(
    env_type: DeploymentEnvTypeYaml,
    swarm_mode: Option<bool>,
    ingress: IngressSpecYaml,
    registry: Option<map<string, string>>,
    deployments: Entries<DeploymentSpecYaml>)
}

# simpled deployment resolver — a verified Dafny model

simpled turns two descriptors into one deployment:
- an *application spec* lists the services, their image variants, environment tiers, configs and secrets;
- an *environment spec* lists the ingress hosts, the registry mapping and the deployments.

This project models the part of simpled that does the work:

- **The resolver** (`src/resolver.rs`) picks a deployment and resolves it:
  - its configs and secrets, against an input file system and process environment;
  - every service: host, fully qualified image, environment variables, config and secret references and ports;
  - the ingress rules and TLS settings.

  Its helpers are modelled one by one:
  - the `${name}` interpolator;
  - the upsert-by-name on variable lists (`add_unique_var`);
  - the four-tier environment builder (external, optional, relative, internal);
  - the per-service selector filter;
  - image qualification.
- **The `.env` parser** (`src/env_loader.rs`) reads `NAME`, `NAME=value` and quoted values. Over the lines of a file, it skips blank and comment lines and fails at the first bad line.
- **The validator** (`src/validator.rs`) runs the referential checks between a deployment and the application.
- **The normaliser** (`src/transform.rs`) turns YAML-shaped records into the descriptors, with these rules:
  - the environment-tier rules and selector parsing;
  - service and deployment secrets;
  - port parsing, prefixes and resource defaults;
  - the rules of the Local, Docker and K8S environment kinds;
  - the TLS requirement.
- **The descriptor datatypes** (`src/spec.rs`), with `AppSpec::all_services`.

## How the model is built

- Every record of the source is a `datatype`. The closed choices of the source are closed datatypes:
  - `SecretMount` is a file path or a variable;
  - `DeploymentSecretSource` is a variable, a file path or an embedded value.
- Each loop of the source is a `method` with a `while` loop and its invariants. Its `ensures` ties the result to a recursive specification function, and the properties are lemmas about that function. `add_unique_var` takes the `&mut Vec` in and hands it back.
- Errors are `Result` values carrying the source's messages. `?` is modelled with Dafny's `:-`, and anyhow's `context` is modelled by `WithContext`.
- YAML mappings are sequences of `(key, value)` entries in the order the map yields them. Properties that hold for every order are stated over any such sequence.

Modules and files:

| module | file |
|---|---|
| `Wrappers` | `wrappers.dfy` |
| `Strings` | `strings.dfy` |
| `Spec` | `spec.dfy` |
| `SpecYaml` | `spec_yaml.dfy` |
| `ResolvedSpec` | `resolved_spec.dfy` |
| `EnvLoader` | `env_loader.dfy` |
| `EnvVars` | `env_vars.dfy` |
| `Interpolation` | `interpolation.dfy` |
| `EnvTiers` | `env_tiers.dfy` |
| `Images` | `images.dfy` |
| `ResolverFiles` | `resolver_files.dfy` |
| `ResolverServices` | `resolver_services.dfy` |
| `ResolverIngress` | `resolver_ingress.dfy` |
| `Resolver` | `resolver.dfy` |
| `Validator` | `validator.dfy` |
| `TransformApp` | `transform_app.dfy` |
| `TransformDeployment` | `transform_deployment.dfy` |
| `TransformEnv` | `transform_env.dfy` |

## Model

| member | source | states |
|---|---|---|
| Wrappers.CollectAllElements | src/transform.rs:81-87 | a collected `Result<Vec>` has one value per element, the value of each element at its place |
| Wrappers.CollectAllOk | src/transform.rs:81-87 | collecting succeeds exactly when every element succeeds |
| Wrappers.CollectAllFirstError | src/transform.rs:81-87 | a failed collection carries the error of the first failing element |
| Wrappers.CollectAllStops | src/transform.rs:81-87 | once a prefix fails, the whole collection fails with that error |
| Strings.Trim | src/env_loader.rs:15 | `str::trim`: the result has no whitespace at either end and is no longer than the input; trimmed text is unchanged; the result is empty exactly for blank input |
| Strings.TrimPadded | src/env_loader.rs:15 | trimming removes exactly the whitespace around a trimmed, non-empty text |
| Strings.IndexOf | src/env_loader.rs:20 | `find(c)`: the first position of `c`, and `None` exactly when `c` is absent |
| Strings.SplitOnce | src/env_loader.rs:20 | `split_once(c)`: `None` exactly when `c` is absent; otherwise the input is `before + c + after`, with no `c` before |
| Strings.SplitFirst | src/resolver.rs:289 | the split is at the first `c`, whatever follows |
| Strings.StripSuffixOr | src/resolver.rs:291 | `strip_suffix('/').unwrap_or(s)` drops exactly one trailing `/`, if there is one |
| Strings.FileName | src/resolver.rs:34 | the file name is the last component of the path: a suffix of it without `/`, and the path itself when the path has no `/` |
| Strings.NatToString | src/env_loader.rs:80 | `{}` of an unsigned number is a non-empty run of decimal digits |
| Strings.DecimalOfNatToString | src/env_loader.rs:80 | the digits written for `n` spell `n` back |
| Strings.ParseDigits | src/transform.rs:560-563 | the digit loop of `u16::from_str` never yields more than 65535 |
| Strings.ParseU16 | src/transform.rs:560-563 | `parse::<u16>()` never yields more than 65535 |
| Strings.ParseDigitsValue | src/transform.rs:560-563 | the digit loop succeeds exactly for all-digit text whose value fits 16 bits, and yields that value |
| Strings.ParseU16Accepts | src/transform.rs:560-563 | `parse::<u16>()` accepts exactly an optional `+` followed by at least one digit whose value fits 16 bits, and yields that value |
| Strings.ParseU16Format | src/transform.rs:560-563 | a 16-bit number written in decimal parses back to itself |
| Spec.AllServices | src/spec.rs:15-17 | `all_services` has exactly as many services as the app and extra lists together (no deduplication) |
| Spec.AllServicesOrder | src/spec.rs:15-17 | the app services come first, in order, then the extra services, in order |
| Spec.FindDeployment | src/resolver.rs:15-17 | the found deployment is in the list and has the name; none is found exactly when no deployment has it |
| EnvVars.IndexOfName | src/resolver.rs:308 | the position found holds a variable of that name |
| EnvVars.IndexOfNameNone | src/resolver.rs:308 | the search fails exactly when no variable has the name |
| EnvVars.IndexOfNameAt | src/resolver.rs:308 | the first position holding the name is the one found |
| EnvVars.IndexOfNameFirst | src/resolver.rs:308 | no variable before the found one has the name |
| EnvVars.LookupFound | src/resolver.rs:327 | a lookup by name finds a value exactly when some variable has the name |
| EnvVars.UpsertInPlace | src/resolver.rs:307-313 | an existing name is overwritten in place at its first position and the length is kept; a new name is appended; every entry of another name stays where it was |
| EnvVars.AddUniqueVar | src/resolver.rs:307-313 | the method computes the upsert |
| EnvVars.UpsertLookup | src/resolver.rs:307-313 | after the upsert the new name finds the new value and every other name finds what it found before |
| EnvVars.UpsertNames | src/resolver.rs:307-313 | the upsert adds exactly the new name and keeps unique names unique |
| EnvVars.LastValue | src/resolver.rs:157-160 | the value of the last variable of a name exists exactly when the name occurs |
| EnvVars.AddUniqueVars | src/resolver.rs:157-160 | a loop of upserts computes their fold |
| EnvVars.FoldUpsertLookup | src/resolver.rs:157-160 | after upserting a list, its names find their last value in it, and other names find what they found before |
| EnvVars.FoldUpsertNames | src/resolver.rs:157-160 | upserting a list adds exactly its names and keeps names unique |
| EnvVars.FoldUpsertCopies | src/resolver.rs:409-412 | upserting a list with unique names into an empty list copies it |
| Interpolation.FindRef | src/resolver.rs:319 | a found `${` is at or after the cursor |
| Interpolation.FindChar | src/resolver.rs:323 | a found `}` is at or after the cursor, inside the input |
| Interpolation.FindRefFirst | src/resolver.rs:319 | the first `${` from the cursor is found, and none means there is none |
| Interpolation.FindCharFirst | src/resolver.rs:323 | the first `}` from the cursor is found, and none means there is none |
| Interpolation.CloseAfterOpener | src/resolver.rs:323-325 | searching for `}` from the `${` is the same as searching from the name |
| Interpolation.CursorReference | src/resolver.rs:319-333 | at a defined reference the result is the text before it, then its value, then the rest after the `}` |
| Interpolation.CursorStep | src/resolver.rs:319-333 | one loop turn moves the text before the reference and its value into the result, and the cursor past the `}` |
| Interpolation.CursorDone | src/resolver.rs:339-340 | with no `${` left the rest of the input is copied |
| Interpolation.CursorUnterminated | src/resolver.rs:334-336 | a `${` with no later `}` is "Invalid variable reference" naming the whole input |
| Interpolation.CursorUndefined | src/resolver.rs:327-331 | an undefined name is "Undefined variable" naming it |
| Interpolation.ResolveVariableInString | src/resolver.rs:315-341 | the cursor loop computes the interpolation function |
| Interpolation.FindRefSkip | src/resolver.rs:319 | the `${` search passes over text that holds none |
| Interpolation.SkipText | src/resolver.rs:319-321 | text without `${` is copied to the result as it is |
| Interpolation.LiteralHasNoOpener | src/resolver.rs:319 | a literal piece that holds no `${`, and ends in `$` only where no `{` follows, starts no `${` even next to what follows |
| Interpolation.ReferenceBounds | src/resolver.rs:319-325 | at a written `${name}`, the `${` and the `}` are found where they are written |
| Interpolation.ReferenceStep | src/resolver.rs:323-333 | at a reference the result is its value followed by the rest after the `}`, or "Undefined variable" with the name |
| Interpolation.UndefinedReference | src/resolver.rs:327-331 | `${n}` with `n` undefined fails naming `n` |
| Interpolation.SkipLiteral | src/resolver.rs:319-321 | the loop copies a literal piece |
| Interpolation.SkipReference | src/resolver.rs:323-333 | the loop replaces a reference piece by its value, or fails when the name is undefined |
| Interpolation.PieceStep | src/resolver.rs:319-337 | the loop's work on one piece is the reference rendering of the piece |
| Interpolation.InterpolateMatches | src/resolver.rs:315-341 | over text laid out as literal and reference pieces, the loop computes the reference semantics: each `${n}` becomes the first value of `n`, inserted verbatim |
| Interpolation.InterpolateTemplate | src/resolver.rs:315-341 | interpolating a template written from pieces equals rendering the pieces |
| Interpolation.RenderOk | src/resolver.rs:327-331 | a template succeeds exactly when every name it references is defined |
| Interpolation.NoReferenceUnchanged | src/resolver.rs:315-341 | text without `${` comes back unchanged |
| Interpolation.UnterminatedReference | src/resolver.rs:334-336 | a first `${` with no later `}` fails with "Invalid variable reference" and the whole input |
| Interpolation.NoRescan | src/resolver.rs:328-333 | a substituted value that reads `${B}` is not interpolated again |
| Interpolation.UndefinedName | src/resolver.rs:327-331 | `${B}` with only `A` defined is "Undefined variable: B" |
| Interpolation.DollarBeforeReference | src/resolver.rs:319-333 | in `$${A}` the first `$` stays literal and only the `${A}` after it is replaced |
| EnvTiers.RelativeDerived | src/resolver.rs:376-386 | one derived variable per relative variable |
| EnvTiers.InternalDerived | src/resolver.rs:389-396 | one derived variable per internal variable |
| EnvTiers.ResolveAppEnvVars | src/resolver.rs:343-399 | the four tier loops over one accumulator compute the tier functions in order |
| EnvTiers.ResolveExternal | src/resolver.rs:351-362 | the external loop computes the external tier from an empty accumulator |
| EnvTiers.ResolveOptional | src/resolver.rs:365-373 | the optional loop computes the optional tier |
| EnvTiers.ResolveRelative | src/resolver.rs:376-386 | the relative loop computes the tier of the service host's URLs |
| EnvTiers.ResolveInternal | src/resolver.rs:389-396 | the internal loop computes the internal tier |
| EnvTiers.ExternalTierStops | src/resolver.rs:357-361 | the first missing external is the tier's result |
| EnvTiers.ExternalTierOk | src/resolver.rs:351-362 | the external tier succeeds exactly when every external has a deployment value or a default |
| EnvTiers.ExternalTierMissing | src/resolver.rs:357-361 | a missing external after supplied ones fails with "Missing external env variable" and its name |
| EnvTiers.ExternalTierNames | src/resolver.rs:351-362 | the tier adds exactly the external names and keeps names unique |
| EnvTiers.ExternalTierLookup | src/resolver.rs:352-358 | the last external of a name decides its value: the deployment's first value for it, else the default |
| EnvTiers.OptionalTierNames | src/resolver.rs:365-373 | the tier adds exactly the optional names the deployment supplies, keeping names unique |
| EnvTiers.OptionalTierLookup | src/resolver.rs:365-373 | a supplied optional name takes the deployment's value; every other name keeps what it had |
| EnvTiers.DerivedTierStops | src/resolver.rs:379-380 | the first derived variable that fails to interpolate is the tier's result |
| EnvTiers.DerivedTierNames | src/resolver.rs:376-396 | a derived tier adds exactly its names and keeps names unique |
| EnvTiers.DerivedTierLookup | src/resolver.rs:376-396 | the last derived variable of a name holds its template interpolated against the accumulator as it stood just before it |
| EnvTiers.DerivedForwardReference | src/resolver.rs:376-396 | a variable whose template is `${n}`, with `n` neither accumulated nor defined earlier in the tier, fails the tier: later variables are not visible |
| EnvTiers.DerivedUndefined | src/resolver.rs:376-396 | one more derived variable whose template is `${n}`, with `n` undefined so far, fails |
| EnvTiers.BuildEnvNames | src/resolver.rs:343-399 | the environment has unique names: exactly the externals, the supplied optionals, the relatives when there is a host, and the internals |
| EnvTiers.DerivedTierFrame | src/resolver.rs:376-396 | a derived tier leaves every name it does not derive with the value it had before |
| EnvTiers.BuildEnvLookup | src/resolver.rs:343-399 | every name takes the value of the last tier that sets it: internal, else relative (with a host), else a supplied optional (the deployment's value), else the value of its last external declaration |
| EnvTiers.InternalForwardReference | src/resolver.rs:389-396 | an internal variable that references a name no earlier tier or earlier internal defines makes the environment fail |
| EnvTiers.FilterServiceEnvVars | src/resolver.rs:401-431 | the selector loop computes the filter function |
| EnvTiers.ApplySelectorStep | src/resolver.rs:408-427 | one `match` arm computes one selector's effect |
| EnvTiers.FilterEnvSnoc | src/resolver.rs:407-428 | one more selector applies its effect to the selection so far |
| EnvTiers.FilterEnvStops | src/resolver.rs:414-426 | the first selector that fails is the filter's result |
| EnvTiers.FilterEnvOk | src/resolver.rs:401-431 | the filter succeeds exactly when every selector can be applied against the full environment |
| EnvTiers.ApplySelectorOk | src/resolver.rs:408-427 | a selector applies exactly when its name is defined (`Simple`) or its value interpolates (`WithValue`); `All` always applies |
| EnvTiers.FilterEnvNames | src/resolver.rs:401-431 | the selection holds exactly the selected names, none twice |
| EnvTiers.FilterLastSelector | src/resolver.rs:407-428 | the last selector decides the names it sets: `Simple` copies the variable, `WithValue` the interpolated value, `All` every variable; other names keep the earlier selectors' values |
| EnvTiers.FilterAllCopies | src/resolver.rs:409-412 | `$all` alone hands the service the whole environment, in order |
| Images.FindVariant | src/resolver.rs:118-121 | no image is found exactly when no variant has the name |
| Images.ResolveAppServiceImage | src/resolver.rs:288-305 | a qualified image always ends with the raw image |
| Images.DefaultVariant | src/resolver.rs:84-93 | without an override, or with one naming no variant, the variant is `default` |
| Images.FindVariantFirst | src/resolver.rs:118-120 | the first variant of the name is the one taken |
| Images.MissingVariant | src/resolver.rs:118-121 | a variant the service lacks is "Image variant … not found for service …" |
| Images.RawImageTag | src/resolver.rs:123-129 | app images get `:latest` when Local and `:{version}` otherwise; other images keep the variant's text |
| Images.RegistryRequired | src/resolver.rs:131-133 | a non-Local environment with an empty registry map fails once the variant is found |
| Images.ExtraServiceImageUnchanged | src/resolver.rs:135-139 | images of extra services are used as written |
| Images.NoNamespaceKept | src/resolver.rs:301-303 | an image without `/` is kept |
| Images.MappedNamespace | src/resolver.rs:289-292 | a mapped namespace puts its host, minus one trailing `/`, in front of the whole image |
| Images.UnmappedNamespace | src/resolver.rs:293-299 | an unmapped namespace keeps the image when Local and is an error otherwise |
| Images.TrailingSlashIrrelevant | src/resolver.rs:291 | a host written with or without its trailing `/` gives the same image |
| Images.SplitAtNamespace | src/resolver.rs:289 | the namespace is everything before the first `/` |
| Images.ResolvedImageShape | src/resolver.rs:288-305 | a qualified image is the raw image, or a registry host of the namespace the raw image starts with, then `/`, then the raw image |
| ResolverFiles.ReadDirFiles | src/resolver.rs:29-37 | the directory loop computes the directory's files |
| ResolverFiles.ReadConfigFiles | src/resolver.rs:23-43 | the path loop computes one config's files |
| ResolverFiles.ResolveConfigList | src/resolver.rs:19-48 | the config loop computes the resolved configs |
| ResolverFiles.ConfigFilesStops | src/resolver.rs:25-27 | the first missing path ends a config's loop with its error |
| ResolverFiles.ResolveConfigsStops | src/resolver.rs:21-48 | the first failing config ends the config loop with its error |
| ResolverFiles.DirFilesExact | src/resolver.rs:29-37 | a directory contributes exactly its regular files, each under its file name |
| ResolverFiles.ConfigFilesOk | src/resolver.rs:23-43 | a config's files can be read exactly when each of its paths exists |
| ResolverFiles.ConfigFileMissing | src/resolver.rs:25-27 | the first missing path is "Config file not found" naming it |
| ResolverFiles.SingleFileConfig | src/resolver.rs:38-42 | a single file is read under its file name |
| ResolverFiles.ResolveConfigsShape | src/resolver.rs:44-47 | the resolved configs follow the deployment's, one each, named `{app}-{config}`, each with its files |
| ResolverFiles.ResolveSecretList | src/resolver.rs:50-70 | the secret loop computes the resolved secrets |
| ResolverFiles.ResolveSecretsStops | src/resolver.rs:55-62 | the first secret without a value ends the loop with its error |
| ResolverFiles.ResolveSecretsOk | src/resolver.rs:51-70 | the secrets resolve exactly when every source yields a value |
| ResolverFiles.ResolveSecretsShape | src/resolver.rs:66-69 | the resolved secrets follow the deployment's, one each, named `{app}-{secret}`, each with its source's value |
| ResolverFiles.SecretSources | src/resolver.rs:53-65 | a variable source gives the process variable's value, else "Secret environment variable … not set"; a file gives its text, and a missing file is an error; an embedded value is itself |
| ResolverIngress.RoutingPort | src/resolver.rs:227-233 | the port is 80 or the first external port, and 80 whenever some external port is 80 |
| ResolverIngress.PrefixRules | src/resolver.rs:235-242 | one rule per prefix |
| ResolverIngress.PushPrefixRules | src/resolver.rs:235-242 | the prefix loop appends the service's rules |
| ResolverIngress.PushServiceRules | src/resolver.rs:219-246 | one turn of the service loop appends the rules of a service routed to the host |
| ResolverIngress.CollectHostRules | src/resolver.rs:217-246 | the service loop computes a host's rules |
| ResolverIngress.ResolveHostRules | src/resolver.rs:216-254 | the domain loop gives one rule per domain of the host, when the host has rules |
| ResolverIngress.ResolveIngressRules | src/resolver.rs:214-255 | the host loop computes the ingress rules |
| ResolverIngress.RulesOfExact | src/resolver.rs:220-244 | a service's rules are exactly those of a Public service with an override bound to the host: its full name, the routing port, one per prefix with its strip flag |
| ResolverIngress.HostRulesExact | src/resolver.rs:219-246 | a host's rules are exactly the rules of its services |
| ResolverIngress.IngressRulesExact | src/resolver.rs:214-255 | the ingress rules are exactly the rules of the hosts' domains |
| ResolverIngress.DomainRulesExact | src/resolver.rs:248-253 | a domain gets a rule exactly when its host has service rules, and then it carries them all |
| ResolverIngress.IngressRulesNonEmpty | src/resolver.rs:248-253 | no rule has an empty service list |
| ResolverIngress.RoutingPortChoice | src/resolver.rs:227-233 | port 80 wins over any other port; otherwise the first port; 80 when there is none |
| ResolverIngress.TlsDefaults | src/resolver.rs:257-272 | no TLS stays none; TLS keeps its secret; a missing Let's Encrypt server is the production ACME directory |
| ResolverIngress.AllDomainsExact | src/resolver.rs:276 | the domain list holds exactly the hosts' domain names |
| ResolverIngress.RuleDomainsListed | src/resolver.rs:248-276 | every rule's domain is one of the ingress domains |
| ResolverServices.FindHost | src/resolver.rs:105-106 | the found host is listed and has the name; none exactly when no host has it |
| ResolverServices.ClaimPublicPrefixes | src/resolver.rs:141-150 | the prefix loop computes the claim of the service's pairs |
| ResolverServices.ResolveServiceConfigs | src/resolver.rs:164-175 | the service config loop computes the service's config references |
| ResolverServices.ResolveServiceSecrets | src/resolver.rs:177-188 | the service secret loop computes the service's secret references |
| ResolverServices.ResolveServiceHead | src/resolver.rs:79-150 | the host, image and public-pair steps of one service |
| ResolverServices.ResolveServiceBody | src/resolver.rs:152-202 | the environment, reference and record steps of one service |
| ResolverServices.ResolveServiceList | src/resolver.rs:72-203 | the services loop computes the resolved services |
| ResolverServices.ClaimPrefixesStops | src/resolver.rs:145-148 | the first repeated pair ends the claim with its error |
| ResolverServices.ServiceConfigsStops | src/resolver.rs:168-170 | the first undefined config reference ends the loop with its error |
| ResolverServices.ServiceSecretsStops | src/resolver.rs:181-183 | the first undefined secret reference ends the loop with its error |
| ResolverServices.ResolveServicesStops | src/resolver.rs:78-203 | the first service that fails ends the services loop with its error |
| ResolverServices.ClaimPrefixesExact | src/resolver.rs:141-150 | a service's (host, prefix) pairs are claimed exactly when they are distinct and none was claimed before; the claimed set grows by exactly those pairs |
| ResolverServices.PublicPairsUnique | src/resolver.rs:141-150 | when the services resolve, the pairs of all Public services are distinct and are exactly the claimed set |
| ResolverServices.ServiceConfigsExact | src/resolver.rs:164-175 | config references resolve exactly when each names a resolved config; each becomes `{app}-{config}` with its mount path |
| ResolverServices.ServiceSecretsExact | src/resolver.rs:177-188 | secret references resolve exactly when each names a resolved secret; each becomes `{app}-{secret}` with its mount |
| ResolverServices.HostNotFound | src/resolver.rs:98-113 | a host the ingress lacks is "Host … not found in ingress spec"; a service without an override goes to the primary host |
| ResolverServices.UndockerizedOverride | src/resolver.rs:157-160 | the undockerized values are the deployment values with the undockerized ones upserted on top |
| ResolverServices.ResolveServiceFrom | src/resolver.rs:78-202 | a resolved service is made from its spec: full name, type, host domain, image, both filtered environments, references and ports |
| ResolverServices.ResolveServicesShape | src/resolver.rs:72-203 | the resolved services follow the application's, one each, each made from its spec |
| ResolverServices.ResolveServicesLength | src/resolver.rs:190-202 | one resolved service per service |
| ResolverServices.ResolveServicesAt | src/resolver.rs:72-203 | the `i`-th resolved service is made from the `i`-th service |
| ResolverServices.ResolveServicesLast | src/resolver.rs:190-202 | the last service's record is pushed after the others |
| Resolver.Resolve | src/resolver.rs:10-286 | `resolve` computes the resolution function |
| Resolver.ResolveStages | src/resolver.rs:205-285 | a resolution is its successful stages: the deployment record, the ingress and the environment kind |
| Resolver.DeploymentNotFound | src/resolver.rs:15-17 | an unknown deployment is the first error |
| Resolver.ResolveOutline | src/resolver.rs:205-285 | a resolved deployment carries the named deployment's name, application, defaults, resolved configs and secrets, one service per application service, the hosts' rules and every domain |
| Resolver.ResolvedServices | src/resolver.rs:72-203 | every resolved service is made from the application service at its place |
| Resolver.ResolvedPublicPairsUnique | src/resolver.rs:141-150 | no (host, prefix) pair is claimed twice in a resolved deployment |
| Resolver.PrefixedNameInjective | src/resolver.rs:45 | the `{app}-` naming is unambiguous |
| Resolver.ConfigReferenceResolves | src/resolver.rs:164-170 | a config reference resolves exactly when the deployment declares a config of that name |
| Resolver.SecretReferenceResolves | src/resolver.rs:177-183 | a secret reference resolves exactly when the deployment declares a secret of that name |
| EnvLoader.ParseValue | src/env_loader.rs:27-48 | an unquoted value is kept and holds no `=` |
| EnvLoader.ParseAssignment | src/env_loader.rs:20-48 | an accepted assignment has a non-empty trimmed name and a value |
| EnvLoader.ParseEnvString | src/env_loader.rs:14-55 | an accepted entry has a valid name; without a value the name is the trimmed input; with one, the input holds `=` |
| EnvLoader.ParseEnvVariable | src/env_loader.rs:57-63 | an accepted variable has a valid name |
| EnvLoader.LoadEnvFile | src/env_loader.rs:65-85 | the line loop computes the load function |
| EnvLoader.TrimKeepsAbsent | src/env_loader.rs:15 | trimming adds no character |
| EnvLoader.TrimIdempotent | src/env_loader.rs:15 | trimming twice is trimming once |
| EnvLoader.ParseTrimmed | src/env_loader.rs:15 | surrounding whitespace never matters |
| EnvLoader.EmptyInput | src/env_loader.rs:15-18 | "Empty string" exactly for blank input |
| EnvLoader.EmptyName | src/env_loader.rs:20-24 | `=` with nothing before it is "Empty name" |
| EnvLoader.NameOnly | src/env_loader.rs:49-53 | without `=` the trimmed input is the name and there is no value |
| EnvLoader.SplitAssignment | src/env_loader.rs:20 | `name=value` is split at the `=` after a valid name |
| EnvLoader.ParseViaSplit | src/env_loader.rs:20-25 | after trimming, the input is parsed as its two sides of the first `=` |
| EnvLoader.AssignmentTrimmed | src/env_loader.rs:21-25 | each side counts only trimmed |
| EnvLoader.PaddingIgnored | src/env_loader.rs:15-25 | whitespace around the name and around the value is ignored |
| EnvLoader.UnquotedValue | src/env_loader.rs:40-48 | an unquoted value is kept, unless it holds `=`: "Unquoted '=' found in value. Use quotes." |
| EnvLoader.QuotedValue | src/env_loader.rs:27-34 | a value in matching `"` or `'` loses its quotes and keeps what is inside, `=` included |
| EnvLoader.QuotedInner | src/env_loader.rs:27-34 | a quoted value is trimmed and its quotes come off |
| EnvLoader.ParseTrimmedAssignment | src/env_loader.rs:25-48 | with both sides trimmed, the entry is the name with the parsed value, or the value's error |
| EnvLoader.LoneQuote | src/env_loader.rs:29-37 | a lone quote character is "Invalid quoted value" |
| EnvLoader.ParseFormat | src/env_loader.rs:14-55 | parsing undoes the formatting of every entry with a valid name |
| EnvLoader.MissingValue | src/env_loader.rs:61 | an entry without a value is "No value for env variable" naming the input |
| EnvLoader.VariableFromEntry | src/env_loader.rs:57-63 | a variable is the parsed name and value; a parse error is kept; a variable exists exactly when the entry has a value |
| EnvLoader.ParseFormatVariable | src/env_loader.rs:57-63 | every variable with a valid name survives being written and read back |
| EnvLoader.KeptLines | src/env_loader.rs:73-78 | the kept lines are no more than the lines |
| EnvLoader.LoadEnvLinesStops | src/env_loader.rs:80 | once a prefix of the lines fails, the load fails with that error |
| EnvLoader.LoadKeepsOrder | src/env_loader.rs:71-84 | a load is the kept lines, trimmed, parsed one by one in file order |
| EnvLoader.LoadEnvLinesSnoc | src/env_loader.rs:71-82 | one more line is skipped, parsed and appended, or reported with its line number and text |
| EnvLoader.LoadOk | src/env_loader.rs:71-84 | a load succeeds when every kept line parses |
| EnvLoader.SkippedLine | src/env_loader.rs:75-78 | a blank or comment line adds nothing |
| EnvLoader.ParsedLine | src/env_loader.rs:80-81 | another line that parses is appended after the earlier variables |
| EnvLoader.FirstBadLine | src/env_loader.rs:80 | the first bad line fails the load, reported with its line number and text |
| EnvLoader.ExampleUnquoted | src/env_loader.rs:96-97 | `FOO=bar` is `FOO` with `bar` |
| EnvLoader.ExampleUnquotedEquals | src/env_loader.rs:108-109 | `FOO=bar=bar` is an error |
| EnvLoader.ExampleDoubleQuoted | src/env_loader.rs:100-101 | `FOO="bar"` is `FOO` with `bar` |
| EnvLoader.ExampleSingleQuoted | src/env_loader.rs:104-105 | `FOO='bar'` is `FOO` with `bar` |
| EnvLoader.ExampleQuotedEquals | src/env_loader.rs:112-113 | `FOO="bar=bar"` is `FOO` with `bar=bar` |
| EnvLoader.ExampleNameOnly | src/env_loader.rs:116-117 | `FOO` is `FOO` without a value |
| EnvLoader.ExampleSpaced | src/env_loader.rs:120-121 | `  FOO  =  bar  ` is `FOO` with `bar` |
| EnvLoader.ExampleEmpty | src/env_loader.rs:124-125 | the empty string and `=` are errors |
| EnvLoader.ExampleLoadError | src/env_loader.rs:145-151 | a file holding the line `FOO` fails to load |
| Validator.FirstNotIn | src/validator.rs:38-55 | none exactly when every name is provided; otherwise a listed name that is not provided |
| Validator.CollectMissing | src/validator.rs:25-31 | the loop collects the missing externals |
| Validator.FindNotProvided | src/validator.rs:38-55 | the secret and config loops find the first name not provided |
| Validator.CollectServiceNames | src/validator.rs:59-62 | the loop collects the names of all services |
| Validator.CollectDefinedVars | src/validator.rs:73-82 | the three loops collect the external, relative and internal names |
| Validator.CheckOverrides | src/validator.rs:64-70 | the override loop visits exactly the overridden services and finds the first one not defined |
| Validator.FindUndefinedSelector | src/validator.rs:85-91 | the selector loop finds the first `Simple` name not defined |
| Validator.FindUndefinedReference | src/validator.rs:84-92 | the nested loop finds the first undefined reference |
| Validator.Validate | src/validator.rs:5-95 | `validate` changes nothing, and succeeds exactly when the named deployment exists and fits the application |
| Validator.CheckFound | src/validator.rs:10-94 | the checks of a found deployment, in the source's order |
| Validator.CheckServiceRules | src/validator.rs:57-92 | the checks of the overrides and of the selectors |
| Validator.FirstNotInAt | src/validator.rs:40-45 | the earliest name not provided is the one reported |
| Validator.FirstNotInStops | src/validator.rs:40-45 | a prefix with a name not provided decides the result |
| Validator.SimpleNamesExact | src/validator.rs:86 | the names checked are exactly those of the `Simple` selectors |
| Validator.FirstUndefinedStops | src/validator.rs:84-92 | an undefined reference among the first services decides the result |
| Validator.FirstUndefinedNone | src/validator.rs:84-92 | no undefined reference exactly when every `Simple` selector names a defined variable |
| Validator.MissingExternalsEmpty | src/validator.rs:25-36 | nothing is missing exactly when every external without a default is provided |
| Validator.MissingExternalsExact | src/validator.rs:25-31 | the missing names are exactly those of the unprovided externals without a default |
| Validator.DefinedVarsExact | src/validator.rs:73-82 | the defined names are the external, relative and internal names |
| Validator.EnvironmentCheck | src/validator.rs:25-36 | the environment check passes exactly when each external without a default is named in the deployment environment |
| Validator.SecretsCheck | src/validator.rs:39-45 | the secret check passes exactly when every app secret is a deployment secret |
| Validator.ConfigsCheck | src/validator.rs:49-55 | the config check passes exactly when every app config is a deployment config |
| Validator.ReferencesCheck | src/validator.rs:73-92 | the reference check passes exactly when every `Simple` selector names an external, relative or internal variable |
| Validator.CheckDeploymentFits | src/validator.rs:10-94 | a found deployment passes exactly when it fits: same application, version satisfied, externals, secrets, configs, overrides and selectors all present, for any visiting order |
| Validator.ValidateSpecValid | src/validator.rs:5-95 | `validate` succeeds exactly for a valid deployment, whatever the visiting order |
| Validator.DeploymentMissing | src/validator.rs:6-8 | an unknown deployment is "Deployment … not found in envspec" |
| Validator.ApplicationMismatch | src/validator.rs:11-14 | a deployment for another application is refused first |
| Validator.UndockerizedDoesNotProvide | src/validator.rs:25-36 | an external given only in the undockerized environment is not provided |
| Validator.OptionalNotSelectable | src/validator.rs:73-92 | a selector naming a variable that is not external, relative or internal (an optional one, say) is refused |
| TransformApp.ExternalOf | src/transform.rs:81-87 | an external entry converts exactly when it parses, into its name and default; a bad entry keeps the parse error |
| TransformApp.OptionalOf | src/transform.rs:90-98 | an optional entry converts exactly when it parses without a value; with one it is "Optional env variable … cannot have a default value" |
| TransformApp.RelativeOf | src/transform.rs:100-114 | a relative entry converts exactly when it parses with a value starting with `/`; a parse failure or a missing value is reported with the entry |
| TransformApp.InternalOf | src/transform.rs:116-128 | an internal entry converts exactly when it parses with a value; the errors name the entry or the variable |
| TransformApp.EnvironmentTiers | src/transform.rs:80-136 | a converted environment has one variable per entry, in order, each the parse of its entry |
| TransformApp.EnvironmentAccepts | src/transform.rs:80-136 | the environment converts exactly when every entry of every tier converts |
| TransformApp.OptionalDefaultRefused | src/transform.rs:90-98 | an optional entry with a value fails the environment |
| TransformApp.ConvertSecrets | src/transform.rs:138-147 | one secret option per listed name or per key of the detailed form |
| TransformApp.ServiceTypeOf | src/transform.rs:158-163 | the written type, `internal` when none is written |
| TransformApp.ParseSelector | src/transform.rs:181-189 | exactly `$all` is `All`; text with `=` is `WithValue`, split at the first `=`, both sides trimmed; anything else is `Simple` with the text as written |
| TransformApp.SelectorWithValue | src/transform.rs:184-185 | `name=value` splits at the `=` after the name |
| TransformApp.NamedVariants | src/transform.rs:172-179 | one variant per entry, under its key |
| TransformApp.ImageVariantsOf | src/transform.rs:165-179 | the `image` field is variant `default`, first, then the named variants |
| TransformApp.CollectImageVariants | src/transform.rs:165-179 | the push loop computes the variants |
| TransformApp.ConfigMounts | src/transform.rs:191-196 | one mount per entry of a `configs` item |
| TransformApp.ConfigOptionsExact | src/transform.rs:191-196 | every mount comes from an entry of an item, and every entry gives one |
| TransformApp.SecretMountOf | src/transform.rs:224-236 | a detailed secret mounts at its `path`, which wins over `variable`, else at its `variable`; neither, or no configuration, is an error |
| TransformApp.ConvertDetailedSecrets | src/transform.rs:224-242 | the inner loop converts the entries of a detailed item |
| TransformApp.ConvertServiceSecrets | src/transform.rs:214-247 | the outer loop appends each item's secrets |
| TransformApp.ServiceSecretsAccepts | src/transform.rs:214-247 | the secrets convert exactly when every detailed entry has a configuration with a `path` or a `variable` |
| TransformApp.SimpleSecretsMounted | src/transform.rs:218-223 | bare names give one secret each, in order, mounted at `/secrets/{name}` |
| TransformApp.ConvertService | src/transform.rs:157-212 | the method computes the service conversion |
| TransformApp.ServiceDefaults | src/transform.rs:157-212 | a service converts exactly when its secrets do; it keeps its name, is `internal` unless typed, has one selector per entry, and puts `image` first as `default` |
| TransformApp.ConvertServices | src/transform.rs:149-155 | the loop converts each entry, and the first bad one fails all |
| TransformApp.ServicesStop | src/transform.rs:152 | the first failing service is the result |
| TransformApp.ServicesNamed | src/transform.rs:149-155 | one service per entry, in entry order, each named by its key |
| TransformDeployment.SecretSourceOf | src/transform.rs:410-433 | a bare string is embedded; otherwise exactly one of `env` and `file` must be given; both and neither are errors naming the secret |
| TransformDeployment.ConvertDeploymentSecrets | src/transform.rs:407-439 | the loop computes the deployment's secrets |
| TransformDeployment.DeploymentSecretsExact | src/transform.rs:407-439 | the secrets convert exactly when every entry is bare or has one source; each entry then gives its key's secret |
| TransformDeployment.LimitsOf | src/transform.rs:508-517 | memory and cpu as written, else `128Mi` and `100m` |
| TransformDeployment.DefaultsOf | src/transform.rs:441-449 | one replica and the default limits unless written |
| TransformDeployment.ServiceResourcesOf | src/transform.rs:535-553 | the service's replicas or the deployment's; its own block with built-in defaults for missing sides, else the deployment's requests and limits |
| TransformDeployment.PartialResourcesIgnoreDefaults | src/transform.rs:535-540 | a block without requests resets the requests to the built-in default, whatever the deployment says |
| TransformDeployment.PrefixesOf | src/transform.rs:520-533 | `prefixes` entries strip only with `strip: true`; the single `prefix` comes last and strips unless `strip_prefix: false` |
| TransformDeployment.CollectPrefixes | src/transform.rs:520-533 | the push loop computes the prefixes |
| TransformDeployment.PortOf | src/transform.rs:556-569 | a port without `:` is "Invalid port format" |
| TransformDeployment.PortAccepts | src/transform.rs:557-563 | `ext:int` is a port exactly when both sides parse as u16, and is then those numbers; a bad external side is reported with its text |
| TransformDeployment.PortFormat | src/transform.rs:555-572 | two 16-bit numbers written as `ext:int` parse back |
| TransformDeployment.ConvertDeploymentService | src/transform.rs:519-581 | the method computes the override conversion |
| TransformDeployment.DeploymentServicePorts | src/transform.rs:555-572 | an override converts exactly when all its ports do, with one port per entry |
| TransformDeployment.ConvertServiceOverrides | src/transform.rs:451-459 | the loop converts and inserts every override |
| TransformDeployment.OverridesStop | src/transform.rs:454 | the first failing override is the result |
| TransformDeployment.ServiceOverridesKeys | src/transform.rs:451-459 | the overrides map has exactly the entries' keys |
| TransformDeployment.ServiceOverrideOfEntry | src/transform.rs:451-459 | each entry is in the map as its own conversion |
| TransformDeployment.ConvertEnvVariables | src/transform.rs:364-374 | the method computes the variables conversion |
| TransformDeployment.EnvVariablesExact | src/transform.rs:364-374 | no variables when none are given; a file that cannot be opened is an error naming it; a loaded file gives its kept lines' variables in order; a list converts exactly when every entry has a value |
| TransformDeployment.DeploymentAppOf | src/transform.rs:473-485 | the application converts exactly when its version requirement, if any, parses; it keeps its name and its extras |
| TransformDeployment.ConvertConfigs | src/transform.rs:383-405 | the loop computes the configs |
| TransformDeployment.ConfigsStop | src/transform.rs:398 | the first path that is not a directory is the result |
| TransformDeployment.ConfigsExact | src/transform.rs:383-405 | the configs convert exactly when every path is a directory; each entry then gives its key with that directory's files |
| TransformDeployment.ConvertDeployment | src/transform.rs:376-471 | the method computes the deployment conversion |
| TransformDeployment.DeploymentOutline | src/transform.rs:376-471 | a deployment carries its key, no primary host, its application, variables, configs, secrets, defaults and one override per `services` entry |
| TransformEnv.HostsOf | src/transform.rs:326-332 | one host per entry; a single domain becomes a one-element list |
| TransformEnv.TlsOf | src/transform.rs:334-355 | TLS is required outside Local; `disable: true` gives none; otherwise its secret and Let's Encrypt settings as written |
| TransformEnv.ConvertIngress | src/transform.rs:325-362 | the method computes the ingress conversion |
| TransformEnv.DockerIngressOf | src/transform.rs:272-276 | `nginx`, or `traefik` when so written or not written; anything else is "Unknown ingress type" |
| TransformEnv.CheckLocalPorts | src/transform.rs:296-311 | the check passes exactly when every service has a port and no external port repeats; otherwise it names a portless service or a repeated port |
| TransformEnv.InsertPorts | src/transform.rs:304-308 | adding one service's ports keeps the seen set exact and the ports unique |
| TransformEnv.DuplicateFound | src/transform.rs:305-307 | a port already seen is published twice |
| TransformEnv.UniqueExtend | src/transform.rs:304-308 | a service with distinct new ports keeps external ports unique |
| TransformEnv.ConvertEnvType | src/transform.rs:260-315 | K8S refuses swarm mode and an ingress type; Docker defaults to traefik and no swarm; Local refuses swarm mode, an ingress type and a registry, needs one deployment, and checks the ports |
| TransformEnv.LocalRequirements | src/transform.rs:282-313 | a converted Local environment has no swarm mode, no ingress type, an empty registry, one deployment, ports on every override, and no external port used twice |
| TransformEnv.DeploymentsStop | src/transform.rs:257 | the first failing deployment is the result |
| TransformEnv.DeploymentsNamed | src/transform.rs:255-258 | one deployment per entry, in order, each converted under its key |
| TransformEnv.ConvertDeployments | src/transform.rs:255-258 | the loop computes the deployments |
| TransformEnv.ConvertEnvSpec | src/transform.rs:249-323 | the ingress is converted first, then the deployments, then the kind's rules; the result holds the kind, the ingress, the registry and the deployments |

## Left out

- File reads, directory listings and process variables are input maps:
  - `FileSystem` maps a path to a file or a directory;
  - `ProcessEnv` maps a name to a value;
  - `.env` files are sequences of lines;
  - config directories map a path to its files.

  The "not found" outcomes are kept. I/O failures of existing files are not modelled (`fs::read` of an unreadable file, `read_dir` entry errors, a line that is not UTF-8). Neither are the path semantics of `Path::new`, `root.join` and `is_file`.
- Semantic versions are strings. Requirement parsing (`VersionReq::parse`) and matching (`req.matches`) are function parameters, because they belong to the semver crate.
- HashMap iteration order is unspecified: maps are entry sequences in any order. The validator's override loop is stated for every visiting order.
- The Debug format renders a string in plain double quotes, and a list of strings as `["a", "b"]`. Rust's escaping of special characters is not modelled.
- The rest of the repository is not part of this model:
  - the artifact generators, the local runner, the release and bundle code;
  - the CLI and the spec loaders;
  - the YAML decoding, which is a foreign library;
  - `convert_app_spec` (src/transform.rs:10-78), which reads extra spec files.
- Where the files disagree, the model follows src/resolver.rs:
  - `service_host` is a plain string;
  - the resolved environment carries `env_type`;
  - `primary_host` is never filled in by the normaliser, so it is `""`;
  - `ServiceSpec.is_app_service` is a parameter of the conversion, and `ports` stays empty.
- `IngressTlsSpecYaml` has a `disable` field, because src/transform.rs:338 reads it.
- `parse::<u16>()` follows the current Rust standard library: each character is checked to be a digit before the value is checked for overflow. Its error messages are the library's.
- External values (a deployment value or a default) are stored as written, without interpolation, as src/resolver.rs:351-362 does.
- The `.env` load test (src/env_loader.rs:129-142) has no literal instance. The properties it checks (blank and comment lines skipped, order kept) are the general lemmas `EnvLoader.SkippedLine`, `EnvLoader.ParsedLine` and `EnvLoader.LoadKeepsOrder`.
- Images.UnmappedNamespace: the error text leaves out the list of available namespaces that src/resolver.rs:297-298 appends, because the order of map keys is unspecified.
- Images.ResolveAppServiceImage: the error when the registry map is empty outside Local is raised before this function by `Images.ServiceImage`, as src/resolver.rs:131-133 does.
- Strings.NatToString: states only that the result is decimal digits; `Strings.DecimalOfNatToString` states that they spell the number.
- The `neigher` typo of src/transform.rs:232 is kept in the error text.
- Wrappers.WithContext: an error with context is rendered as `context: cause`, which is anyhow's alternate (`{:#}`) form. The program's top-level error output (src/main.rs:94 returns `Result<()>`) prints the cause on a `Caused by:` line instead. The secret errors of src/resolver.rs:55 and 61 keep only the context text, as plain `{}` shows it, because their causes are messages of the operating system and the standard library.
- Interpolation.InterpolateMatches: covers every template written as literal and reference pieces in which a literal ending in `$` is the last piece or is followed by a reference. Two literals in a row can always be written as one, and text such as `$` + `{A}` is the reference `${A}`. `Interpolation.ResolveVariableInString` computes `Interpolate` on every input.

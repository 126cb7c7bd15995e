/** The image a service runs (src/resolver.rs:117-139) and the registry prefixing of an
    application image (`resolve_app_service_image`, src/resolver.rs:288-305). */
module Images {
  import opened Wrappers
  import opened Strings
  import opened Spec

  /** The variant a deployment selects for a service: its override's variant, else
      `"default"`. */
  function VariantName(ov: Option<DeploymentServiceSpec>): string {
    if ov.Some? && ov.value.variant.Some? then ov.value.variant.value else "default"
  }

  /** The image of the first variant with the given name. */
  function FindVariant(variants: seq<ImageVariant>, name: string): (r: Option<string>)
    ensures r.None? <==> forall v :: v in variants ==> v.variant_name != name
  {
    if |variants| == 0 then None
    else if variants[0].variant_name == name then Some(variants[0].image)
    else FindVariant(variants[1..], name)
  }

  /** The tag an application image gets: `latest` locally, the application version
      elsewhere. */
  function ImageTag(envType: DeploymentEnvType, version: string): string {
    if envType == Local then "latest" else version
  }

  /** The image before registry resolution: the selected variant, tagged when the service
      is one of the application's own. */
  function RawImage(service: ServiceSpec, variant: string, envType: DeploymentEnvType, version: string): Result<string> {
    match FindVariant(service.image_variants, variant)
    case None => Err("Image variant " + variant + " not found for service " + service.name)
    case Some(image) =>
      if service.is_app_service then Ok(image + ":" + ImageTag(envType, version)) else Ok(image)
  }

  /** `resolve_app_service_image`: the namespace before the first `/` picks a registry host
      (one trailing `/` of it dropped) that is put in front of the image. An image with no
      `/` is kept; an unknown namespace is kept locally and an error elsewhere. */
  function ResolveAppServiceImage(envType: DeploymentEnvType, registry: map<string, string>, raw: string): (r: Result<string>)
    ensures r.Ok? ==> HasSuffix(r.value, raw)
  {
    match SplitOnce(raw, '/')
    case None => Ok(raw)
    case Some((namespace, _)) =>
      if namespace in registry then
        var host := StripSuffixOr(registry[namespace], '/');
        assert (host + "/" + raw)[|host + "/"|..] == raw;
        Ok(host + "/" + raw)
      else if envType == Local then Ok(raw)
      else Err("Docker registry host for namespace '" + namespace + "' not found in environment spec")
  }

  /** The image of a service in a deployment: variant lookup, tagging, the registry
      requirement of non-local deployments, then registry resolution of application
      images. */
  function ServiceImage(envSpec: DeploymentEnvironmentSpec, version: string, service: ServiceSpec, variant: string): Result<string> {
    var raw :- RawImage(service, variant, envSpec.env_type, version);
    if envSpec.env_type != Local && |envSpec.registry| == 0 then
      Err("Registry mapping is required for non-local deployments")
    else if service.is_app_service then
      ResolveAppServiceImage(envSpec.env_type, envSpec.registry, raw)
    else
      Ok(raw)
  }

  // ----- properties -----

  /** Without an override, or with one that names no variant, the `default` variant is used. */
  lemma DefaultVariant(ov: Option<DeploymentServiceSpec>)
    requires ov.None? || ov.value.variant.None?
    ensures VariantName(ov) == "default"
  {
  }

  /** The first variant of the name is the one taken. */
  lemma {:induction false} FindVariantFirst(variants: seq<ImageVariant>, name: string, i: nat)
    requires i < |variants| && variants[i].variant_name == name
    requires forall k :: 0 <= k < i ==> variants[k].variant_name != name
    ensures FindVariant(variants, name) == Some(variants[i].image)
  {
    if i > 0 {
      FindVariantFirst(variants[1..], name, i - 1);
    }
  }

  /** A variant the service does not declare is an error naming the variant and the
      service. */
  lemma MissingVariant(envSpec: DeploymentEnvironmentSpec, version: string, service: ServiceSpec, variant: string)
    requires forall v :: v in service.image_variants ==> v.variant_name != variant
    ensures ServiceImage(envSpec, version, service, variant)
         == Err("Image variant " + variant + " not found for service " + service.name)
  {
  }

  /** An application image is tagged `:latest` locally and with the version elsewhere;
      other images keep their variant's text. */
  lemma RawImageTag(service: ServiceSpec, variant: string, envType: DeploymentEnvType, version: string)
    requires FindVariant(service.image_variants, variant).Some?
    ensures var image := FindVariant(service.image_variants, variant).value;
      RawImage(service, variant, envType, version) ==
        if !service.is_app_service then Ok(image)
        else if envType == Local then Ok(image + ":latest")
        else Ok(image + ":" + version)
  {
    var image := FindVariant(service.image_variants, variant).value;
    assert image + ":" + "latest" == image + ":latest";
  }

  /** A non-local deployment with no registry mapping fails once the variant is found. */
  lemma RegistryRequired(envSpec: DeploymentEnvironmentSpec, version: string, service: ServiceSpec, variant: string)
    requires envSpec.env_type != Local && |envSpec.registry| == 0
    requires FindVariant(service.image_variants, variant).Some?
    ensures ServiceImage(envSpec, version, service, variant) == Err("Registry mapping is required for non-local deployments")
  {
  }

  /** Images of services that are not the application's own are used as written. */
  lemma ExtraServiceImageUnchanged(envSpec: DeploymentEnvironmentSpec, version: string, service: ServiceSpec, variant: string)
    requires !service.is_app_service
    requires envSpec.env_type == Local || |envSpec.registry| > 0
    ensures ServiceImage(envSpec, version, service, variant) ==
      match FindVariant(service.image_variants, variant)
      case None => Err("Image variant " + variant + " not found for service " + service.name)
      case Some(image) => Ok(image)
  {
  }

  /** An image without `/` has no namespace and is kept. */
  lemma NoNamespaceKept(envType: DeploymentEnvType, registry: map<string, string>, raw: string)
    requires '/' !in raw
    ensures ResolveAppServiceImage(envType, registry, raw) == Ok(raw)
  {
  }

  /** The namespace is everything before the first `/`: a mapped namespace puts its host,
      without one trailing `/`, in front of the whole image. */
  lemma MappedNamespace(envType: DeploymentEnvType, registry: map<string, string>, ns: string, rest: string)
    requires '/' !in ns && ns in registry
    ensures ResolveAppServiceImage(envType, registry, ns + "/" + rest)
         == Ok(StripSuffixOr(registry[ns], '/') + "/" + ns + "/" + rest)
  {
    SplitAtNamespace(ns, rest);
    var host := StripSuffixOr(registry[ns], '/');
    assert host + "/" + (ns + "/" + rest) == host + "/" + ns + "/" + rest;
  }

  /** An unmapped namespace keeps the image locally and is an error elsewhere. */
  lemma UnmappedNamespace(envType: DeploymentEnvType, registry: map<string, string>, ns: string, rest: string)
    requires '/' !in ns && ns !in registry
    ensures ResolveAppServiceImage(envType, registry, ns + "/" + rest) ==
      if envType == Local then Ok(ns + "/" + rest)
      else Err("Docker registry host for namespace '" + ns + "' not found in environment spec")
  {
    SplitAtNamespace(ns, rest);
  }

  /** A host written with or without its trailing `/` gives the same image. */
  lemma TrailingSlashIrrelevant(envType: DeploymentEnvType, registry: map<string, string>, ns: string, rest: string, host: string)
    requires '/' !in ns && !EndsWith(host, '/')
    ensures ResolveAppServiceImage(envType, registry[ns := host + "/"], ns + "/" + rest)
         == ResolveAppServiceImage(envType, registry[ns := host], ns + "/" + rest)
         == Ok(host + "/" + ns + "/" + rest)
  {
    MappedNamespace(envType, registry[ns := host + "/"], ns, rest);
    MappedNamespace(envType, registry[ns := host], ns, rest);
    assert StripSuffixOr(host + "/", '/') + ['/'] == host + "/";
  }

  /** Only the first `/` separates the namespace. */
  lemma SplitAtNamespace(ns: string, rest: string)
    requires '/' !in ns
    ensures SplitOnce(ns + "/" + rest, '/') == Some((ns, rest))
  {
    var s := ns + "/" + rest;
    var i := IndexOf(s, '/').value;
    assert s[..|ns|] == ns && s[|ns|] == '/';
    assert s[..|ns| + 1][|ns|] == '/';
    if i < |ns| {
      assert false;
    } else if i > |ns| {
      assert false;
    }
    assert s[i + 1..] == rest;
  }

  /** A resolved application image is the raw image, or the raw image behind the host of
      the namespace it starts with. */
  lemma ResolvedImageShape(envType: DeploymentEnvType, registry: map<string, string>, raw: string)
    requires ResolveAppServiceImage(envType, registry, raw).Ok?
    ensures var r := ResolveAppServiceImage(envType, registry, raw).value;
      r == raw || exists ns :: ns in registry && '/' !in ns && HasPrefix(raw, ns + "/")
                               && r == StripSuffixOr(registry[ns], '/') + "/" + raw
  {
    match SplitOnce(raw, '/')
    case None =>
    case Some((ns, rest)) =>
      assert raw == ns + "/" + rest;
      assert raw[..|ns + "/"|] == ns + "/";
  }
}

/** The resolved ingress of a deployment: one rule per domain with the public services
    routed to its host, the TLS settings and the list of domains
    (src/resolver.rs:214-279). */
module ResolverIngress {
  import opened Wrappers
  import opened Spec
  import opened ResolvedSpec

  const DefaultAcmeServer := "https://acme-v02.api.letsencrypt.org/directory"

  /** The host a service override routes to: its own, else the deployment's primary host. */
  function OverrideHost(ds: DeploymentServiceSpec, primary: string): string {
    ds.host.GetOr(primary)
  }

  /** The port an ingress sends a service's traffic to: 80 when the service exposes it,
      else its first external port, else 80. */
  function RoutingPort(ports: seq<ServicePort>): (p: u16)
    ensures p == 80 || (|ports| > 0 && p == ports[0].external)
    ensures (exists q :: q in ports && q.external == 80) ==> p == 80
  {
    if exists q :: q in ports && q.external == 80 then 80
    else if |ports| > 0 then ports[0].external
    else 80
  }

  /** One rule per prefix of a service. */
  function PrefixRules(fullName: string, port: u16, prefixes: seq<Prefix>): (r: seq<IngressToServiceRule>)
    ensures |r| == |prefixes|
  {
    seq(|prefixes|, k requires 0 <= k < |prefixes| =>
      IngressToServiceRule(fullName, port, prefixes[k].prefix, prefixes[k].strip))
  }

  /** The rules a service contributes to a host: only a public service whose override
      routes it there contributes, one rule per prefix of the override. */
  function RulesOf(app: AppSpec, dep: DeploymentSpec, hostName: string, svc: ServiceSpec): seq<IngressToServiceRule> {
    match ServiceOverride(dep, svc.name)
    case None => []
    case Some(ds) =>
      if svc.service_type == Public && OverrideHost(ds, dep.primary_host) == hostName
      then PrefixRules(app.name + "-" + svc.name, RoutingPort(ds.ports), ds.prefixes)
      else []
  }

  /** The rules of a host over the services, in service order. */
  function HostRules(app: AppSpec, dep: DeploymentSpec, hostName: string, svcs: seq<ServiceSpec>): seq<IngressToServiceRule> {
    if |svcs| == 0 then []
    else HostRules(app, dep, hostName, svcs[..|svcs| - 1]) + RulesOf(app, dep, hostName, svcs[|svcs| - 1])
  }

  /** Every domain of a host gets the host's rules; a host with no rules gets no entry. */
  function DomainRules(domains: seq<string>, rules: seq<IngressToServiceRule>): seq<IngressRule> {
    if |rules| == 0 then []
    else seq(|domains|, k requires 0 <= k < |domains| => IngressRule(domains[k], rules))
  }

  function IngressRules(app: AppSpec, dep: DeploymentSpec, hosts: seq<HostSpec>): seq<IngressRule> {
    if |hosts| == 0 then []
    else
      var h := hosts[|hosts| - 1];
      IngressRules(app, dep, hosts[..|hosts| - 1]) + DomainRules(h.domain_names, HostRules(app, dep, h.name, AllServices(app)))
  }

  /** The loop over one service's prefixes. */
  method PushPrefixRules(rules: seq<IngressToServiceRule>, fullName: string, port: u16, prefixes: seq<Prefix>)
    returns (r: seq<IngressToServiceRule>)
    ensures r == rules + PrefixRules(fullName, port, prefixes)
  {
    r := rules;
    var i := 0;
    while i < |prefixes|
      invariant 0 <= i <= |prefixes|
      invariant r == rules + PrefixRules(fullName, port, prefixes[..i])
    {
      r := r + [IngressToServiceRule(fullName, port, prefixes[i].prefix, prefixes[i].strip)];
      i := i + 1;
    }
    assert prefixes[..i] == prefixes;
  }

  /** The body of the service loop: the rules of one service, if it is routed to the host. */
  method PushServiceRules(rules: seq<IngressToServiceRule>, app: AppSpec, dep: DeploymentSpec, hostName: string, svc: ServiceSpec)
    returns (r: seq<IngressToServiceRule>)
    ensures r == rules + RulesOf(app, dep, hostName, svc)
  {
    r := rules;
    var ov := ServiceOverride(dep, svc.name);
    if ov.Some? && svc.service_type == Public {
      var h := ov.value.host.GetOr(dep.primary_host);
      if h == hostName {
        r := PushPrefixRules(rules, app.name + "-" + svc.name, RoutingPort(ov.value.ports), ov.value.prefixes);
      }
    }
  }

  /** The service loop for one domain of a host. */
  method CollectHostRules(app: AppSpec, dep: DeploymentSpec, hostName: string) returns (rules: seq<IngressToServiceRule>)
    ensures rules == HostRules(app, dep, hostName, AllServices(app))
  {
    var svcs := AllServices(app);
    rules := [];
    var i := 0;
    while i < |svcs|
      invariant 0 <= i <= |svcs|
      invariant rules == HostRules(app, dep, hostName, svcs[..i])
    {
      assert svcs[..i + 1][..i] == svcs[..i];
      rules := PushServiceRules(rules, app, dep, hostName, svcs[i]);
      i := i + 1;
    }
    assert svcs[..i] == svcs;
  }

  /** The domain loop of one host; the rules are collected afresh for every domain. */
  method ResolveHostRules(app: AppSpec, dep: DeploymentSpec, host: HostSpec) returns (r: seq<IngressRule>)
    ensures r == DomainRules(host.domain_names, HostRules(app, dep, host.name, AllServices(app)))
  {
    ghost var rules := HostRules(app, dep, host.name, AllServices(app));
    var domains := host.domain_names;
    r := [];
    var i := 0;
    while i < |domains|
      invariant 0 <= i <= |domains|
      invariant r == DomainRules(domains[..i], rules)
    {
      var serviceRules := CollectHostRules(app, dep, host.name);
      if |serviceRules| > 0 {
        r := r + [IngressRule(domains[i], serviceRules)];
      }
      i := i + 1;
    }
    assert domains[..i] == domains;
  }

  /** The host loop of `resolve`. */
  method ResolveIngressRules(app: AppSpec, dep: DeploymentSpec, hosts: seq<HostSpec>) returns (r: seq<IngressRule>)
    ensures r == IngressRules(app, dep, hosts)
  {
    r := [];
    var i := 0;
    while i < |hosts|
      invariant 0 <= i <= |hosts|
      invariant r == IngressRules(app, dep, hosts[..i])
    {
      assert hosts[..i + 1][..i] == hosts[..i];
      var hostRules := ResolveHostRules(app, dep, hosts[i]);
      r := r + hostRules;
      i := i + 1;
    }
    assert hosts[..i] == hosts;
  }

  /** TLS settings pass through; a Let's Encrypt block without a server gets the ACME v2
      production directory. */
  function ResolveTls(tls: Option<IngressTlsSpec>): Option<IngressTlsResolvedSpec> {
    match tls
    case None => None
    case Some(t) =>
      var le := match t.letsencrypt
        case None => None
        case Some(l) => Some(LetsEncryptResolvedSpec(l.server.GetOr(DefaultAcmeServer), l.email));
      Some(IngressTlsResolvedSpec(t.secret, le))
  }

  /** Every domain name of every host, host by host. */
  function AllDomains(hosts: seq<HostSpec>): seq<string> {
    if |hosts| == 0 then [] else AllDomains(hosts[..|hosts| - 1]) + hosts[|hosts| - 1].domain_names
  }

  // ----- properties -----

  /** A service rule for a host exists exactly for a prefix of a public service whose
      override routes it to that host; it names `{app}-{service}` and the routing port. */
  predicate RuleFor(app: AppSpec, dep: DeploymentSpec, hostName: string, svc: ServiceSpec, rule: IngressToServiceRule) {
    var ov := ServiceOverride(dep, svc.name);
    ov.Some? && svc.service_type == Public && OverrideHost(ov.value, dep.primary_host) == hostName
    && rule.service_name == app.name + "-" + svc.name && rule.port == RoutingPort(ov.value.ports)
    && Prefix(rule.prefix, rule.strip_prefix) in ov.value.prefixes
  }

  lemma RulesOfExact(app: AppSpec, dep: DeploymentSpec, hostName: string, svc: ServiceSpec, rule: IngressToServiceRule)
    ensures rule in RulesOf(app, dep, hostName, svc) <==> RuleFor(app, dep, hostName, svc, rule)
  {
    var ov := ServiceOverride(dep, svc.name);
    if RuleFor(app, dep, hostName, svc, rule) {
      var prefixes := ov.value.prefixes;
      var k :| 0 <= k < |prefixes| && prefixes[k] == Prefix(rule.prefix, rule.strip_prefix);
      assert RulesOf(app, dep, hostName, svc)[k] == rule;
    }
  }

  lemma {:induction false} HostRulesExact(app: AppSpec, dep: DeploymentSpec, hostName: string, svcs: seq<ServiceSpec>, rule: IngressToServiceRule)
    ensures rule in HostRules(app, dep, hostName, svcs) <==> exists svc :: svc in svcs && RuleFor(app, dep, hostName, svc, rule)
  {
    if |svcs| > 0 {
      var init, last := svcs[..|svcs| - 1], svcs[|svcs| - 1];
      HostRulesExact(app, dep, hostName, init, rule);
      RulesOfExact(app, dep, hostName, last, rule);
      assert svcs == init + [last];
    }
  }

  /** An ingress rule of host `h`: one of its domains, with all of the host's service
      rules, of which there is at least one. */
  predicate RuleOfHost(app: AppSpec, dep: DeploymentSpec, h: HostSpec, ir: IngressRule) {
    var rules := HostRules(app, dep, h.name, AllServices(app));
    ir.domain_name in h.domain_names && ir.services == rules && |rules| > 0
  }

  /** The ingress rules are exactly the rules of the hosts' domains. */
  lemma {:induction false} IngressRulesExact(app: AppSpec, dep: DeploymentSpec, hosts: seq<HostSpec>, ir: IngressRule)
    ensures ir in IngressRules(app, dep, hosts) <==> exists h :: h in hosts && RuleOfHost(app, dep, h, ir)
  {
    if |hosts| > 0 {
      var init, h := hosts[..|hosts| - 1], hosts[|hosts| - 1];
      IngressRulesExact(app, dep, init, ir);
      var rules := HostRules(app, dep, h.name, AllServices(app));
      assert IngressRules(app, dep, hosts) == IngressRules(app, dep, init) + DomainRules(h.domain_names, rules);
      DomainRulesExact(h.domain_names, rules, ir);
      assert RuleOfHost(app, dep, h, ir) <==> ir in DomainRules(h.domain_names, rules);
      assert hosts == init + [h];
      assert forall g :: g in hosts <==> g in init || g == h;
    }
  }

  lemma DomainRulesExact(domains: seq<string>, rules: seq<IngressToServiceRule>, ir: IngressRule)
    ensures ir in DomainRules(domains, rules) <==> ir.domain_name in domains && ir.services == rules && |rules| > 0
  {
    if ir in DomainRules(domains, rules) {
      var k :| 0 <= k < |domains| && DomainRules(domains, rules)[k] == ir;
      assert ir.domain_name in domains;
    }
    if ir.domain_name in domains && ir.services == rules && |rules| > 0 {
      var k :| 0 <= k < |domains| && domains[k] == ir.domain_name;
      assert DomainRules(domains, rules)[k] == ir;
    }
  }

  /** A rule never carries an empty service list. */
  lemma IngressRulesNonEmpty(app: AppSpec, dep: DeploymentSpec, hosts: seq<HostSpec>)
    ensures forall ir :: ir in IngressRules(app, dep, hosts) ==> |ir.services| > 0
  {
    forall ir | ir in IngressRules(app, dep, hosts) ensures |ir.services| > 0 {
      IngressRulesExact(app, dep, hosts, ir);
    }
  }

  /** Port 80 wins over any other port; otherwise the first port, and 80 when there is none. */
  lemma RoutingPortChoice(ports: seq<ServicePort>, i: nat)
    requires i < |ports| && ports[i].external == 80
    ensures RoutingPort(ports) == 80
    ensures RoutingPort([]) == 80
    ensures (forall q :: q in ports ==> q.external != 80) ==> RoutingPort(ports) == ports[0].external
  {
    assert ports[i] in ports;
  }

  /** Without TLS there is none; with it, the secret is kept and a missing ACME server is
      the production one. */
  lemma TlsDefaults(tls: Option<IngressTlsSpec>)
    ensures tls.None? ==> ResolveTls(tls).None?
    ensures tls.Some? ==> ResolveTls(tls).Some? && ResolveTls(tls).value.secret == tls.value.secret
    ensures tls.Some? && tls.value.letsencrypt.Some? ==>
      ResolveTls(tls).value.letsencrypt == Some(LetsEncryptResolvedSpec(
        tls.value.letsencrypt.value.server.GetOr("https://acme-v02.api.letsencrypt.org/directory"),
        tls.value.letsencrypt.value.email))
    ensures tls.Some? && tls.value.letsencrypt.None? ==> ResolveTls(tls).value.letsencrypt.None?
  {
  }

  /** The domain list holds exactly the hosts' domain names. */
  lemma {:induction false} AllDomainsExact(hosts: seq<HostSpec>, d: string)
    ensures d in AllDomains(hosts) <==> exists h :: h in hosts && d in h.domain_names
  {
    if |hosts| > 0 {
      var init, h := hosts[..|hosts| - 1], hosts[|hosts| - 1];
      AllDomainsExact(init, d);
      assert hosts == init + [h];
    }
  }

  /** Every ingress rule's domain is one of the ingress's domains. */
  lemma RuleDomainsListed(app: AppSpec, dep: DeploymentSpec, hosts: seq<HostSpec>, ir: IngressRule)
    requires ir in IngressRules(app, dep, hosts)
    ensures ir.domain_name in AllDomains(hosts)
  {
    IngressRulesExact(app, dep, hosts, ir);
    AllDomainsExact(hosts, ir.domain_name);
  }
}

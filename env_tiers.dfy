/** The application environment of one deployment (`resolve_app_env_vars`) and the
    per-service selection from it (`filter_service_env_vars`), src/resolver.rs:343-431.

    The four tiers run in order — external, optional, relative, internal — each upserting
    into one accumulator; relative and internal values are interpolated against the
    accumulator as it stands when they are reached. */
module EnvTiers {
  import opened Wrappers
  import opened Spec
  import opened EnvVars
  import opened Interpolation

  // ----- external and optional tiers -----

  /** An external variable takes the deployment's value, else its own default. */
  function ExternalValue(e: ExternalEnvVariable, dv: seq<EnvVariable>): Option<string> {
    match Lookup(dv, e.name)
    case Some(v) => Some(v)
    case None => e.default
  }

  /** The external tier over `exts`, upserted onto `acc`; the first external with no value
      stops it. */
  function ExternalTier(acc: seq<EnvVariable>, exts: seq<ExternalEnvVariable>, dv: seq<EnvVariable>): Result<seq<EnvVariable>> {
    if |exts| == 0 then Ok(acc)
    else
      var prev :- ExternalTier(acc, exts[..|exts| - 1], dv);
      var e := exts[|exts| - 1];
      match ExternalValue(e, dv)
      case None => Err("Missing external env variable: " + e.name)
      case Some(v) => Ok(Upsert(prev, EnvVariable(e.name, v)))
  }

  /** The optional tier: only the variables the deployment supplies are added. */
  function OptionalTier(acc: seq<EnvVariable>, opts: seq<OptionalEnvVariable>, dv: seq<EnvVariable>): seq<EnvVariable> {
    if |opts| == 0 then acc
    else
      var prev := OptionalTier(acc, opts[..|opts| - 1], dv);
      var o := opts[|opts| - 1];
      match Lookup(dv, o.name)
      case None => prev
      case Some(v) => Upsert(prev, EnvVariable(o.name, v))
  }

  function ExternalNames(exts: seq<ExternalEnvVariable>): set<string> {
    set e | e in exts :: e.name
  }

  function SuppliedOptionalNames(opts: seq<OptionalEnvVariable>, dv: seq<EnvVariable>): set<string> {
    set o | o in opts && Lookup(dv, o.name).Some? :: o.name
  }

  // ----- relative and internal tiers: variables derived by interpolation -----

  /** A variable whose value is `template` interpolated against the accumulator;
      `context` prefixes the error when that fails. */
  datatype Derived = Derived(name: string, template: string, context: string)

  /** Each relative variable is the URL `https://{host}{relative_value}`. */
  function RelativeDerived(rels: seq<RelativeEnvVariable>, host: string): (r: seq<Derived>)
    ensures |r| == |rels|
  {
    seq(|rels|, k requires 0 <= k < |rels| =>
      Derived(rels[k].name, "https://" + host + rels[k].relative_value,
              "Failed to resolve relative env variable " + rels[k].name))
  }

  function InternalDerived(ints: seq<InternalEnvVariable>): (r: seq<Derived>)
    ensures |r| == |ints|
  {
    seq(|ints|, k requires 0 <= k < |ints| =>
      Derived(ints[k].name, ints[k].value, "Failed to resolve internal env variable " + ints[k].name))
  }

  /** Upserting derived variables one by one, each interpolated against what the
      accumulator holds at that point; the first failing interpolation stops it. */
  function DerivedTier(acc: seq<EnvVariable>, ds: seq<Derived>): Result<seq<EnvVariable>> {
    if |ds| == 0 then Ok(acc)
    else
      var prev :- DerivedTier(acc, ds[..|ds| - 1]);
      var d := ds[|ds| - 1];
      var v :- WithContext(Interpolate(d.template, prev), d.context);
      Ok(Upsert(prev, EnvVariable(d.name, v)))
  }

  /** The relative tier is skipped entirely when the service has no host. */
  function RelativeTier(acc: seq<EnvVariable>, rels: seq<RelativeEnvVariable>, host: Option<string>): Result<seq<EnvVariable>> {
    match host
    case None => Ok(acc)
    case Some(h) => DerivedTier(acc, RelativeDerived(rels, h))
  }

  function DerivedNames(ds: seq<Derived>): set<string> {
    set d | d in ds :: d.name
  }

  /** The whole environment of one deployment, as `resolve_app_env_vars` builds it. */
  function BuildEnv(app: AppSpec, dv: seq<EnvVariable>, host: Option<string>): Result<seq<EnvVariable>> {
    var env := app.environment;
    var external :- ExternalTier([], env.external, dv);
    var relative :- RelativeTier(OptionalTier(external, env.optional, dv), env.relative, host);
    DerivedTier(relative, InternalDerived(env.internal))
  }

  /** `resolve_app_env_vars`: the four tier loops, in order, over one accumulator. */
  method ResolveAppEnvVars(app: AppSpec, deploymentValues: seq<EnvVariable>, host: Option<string>)
    returns (r: Result<seq<EnvVariable>>)
    ensures r == BuildEnv(app, deploymentValues, host)
  {
    var env := app.environment;
    var external := ResolveExternal(env.external, deploymentValues);
    if external.Err? {
      return Err(external.msg);
    }
    var vars := ResolveOptional(external.value, env.optional, deploymentValues);
    if host.Some? {
      var relative := ResolveRelative(vars, env.relative, host.value);
      if relative.Err? {
        return Err(relative.msg);
      }
      vars := relative.value;
    }
    r := ResolveInternal(vars, env.internal);
  }

  /** The external loop, starting from an empty accumulator. */
  method ResolveExternal(exts: seq<ExternalEnvVariable>, deploymentValues: seq<EnvVariable>)
    returns (r: Result<seq<EnvVariable>>)
    ensures r == ExternalTier([], exts, deploymentValues)
  {
    var vars: seq<EnvVariable> := [];
    var i := 0;
    while i < |exts|
      invariant 0 <= i <= |exts|
      invariant ExternalTier([], exts[..i], deploymentValues) == Ok(vars)
    {
      var e := exts[i];
      assert exts[..i + 1][..i] == exts[..i];
      var found := Lookup(deploymentValues, e.name);
      var val := if found.Some? then found else e.default;
      if val.None? {
        ExternalTierStops([], exts, deploymentValues, i + 1);
        return Err("Missing external env variable: " + e.name);
      }
      vars := AddUniqueVar(vars, EnvVariable(e.name, val.value));
      i := i + 1;
    }
    assert exts[..i] == exts;
    return Ok(vars);
  }

  /** The optional loop: a variable the deployment does not supply is skipped. */
  method ResolveOptional(acc: seq<EnvVariable>, opts: seq<OptionalEnvVariable>, deploymentValues: seq<EnvVariable>)
    returns (vars: seq<EnvVariable>)
    ensures vars == OptionalTier(acc, opts, deploymentValues)
  {
    vars := acc;
    var i := 0;
    while i < |opts|
      invariant 0 <= i <= |opts|
      invariant OptionalTier(acc, opts[..i], deploymentValues) == vars
    {
      var o := opts[i];
      assert opts[..i + 1][..i] == opts[..i];
      var val := Lookup(deploymentValues, o.name);
      if val.Some? {
        vars := AddUniqueVar(vars, EnvVariable(o.name, val.value));
      }
      i := i + 1;
    }
    assert opts[..i] == opts;
  }

  /** The relative loop for a service with host `host`. */
  method ResolveRelative(acc: seq<EnvVariable>, rels: seq<RelativeEnvVariable>, host: string)
    returns (r: Result<seq<EnvVariable>>)
    ensures r == DerivedTier(acc, RelativeDerived(rels, host))
  {
    var vars := acc;
    var i := 0;
    while i < |rels|
      invariant 0 <= i <= |rels|
      invariant DerivedTier(acc, RelativeDerived(rels[..i], host)) == Ok(vars)
    {
      var rel := rels[i];
      ghost var ds := RelativeDerived(rels[..i + 1], host);
      assert ds[..i] == RelativeDerived(rels[..i], host);
      var url := "https://" + host + rel.relative_value;
      var value := ResolveVariableInString(url, vars);
      if value.Err? {
        assert ds[i] == Derived(rel.name, url, "Failed to resolve relative env variable " + rel.name);
        assert DerivedTier(acc, ds).Err?;
        assert RelativeDerived(rels, host)[..i + 1] == ds;
        DerivedTierStops(acc, RelativeDerived(rels, host), i + 1);
        return Err("Failed to resolve relative env variable " + rel.name + ": " + value.msg);
      }
      vars := AddUniqueVar(vars, EnvVariable(rel.name, value.value));
      i := i + 1;
    }
    assert rels[..i] == rels;
    return Ok(vars);
  }

  /** The internal loop. */
  method ResolveInternal(acc: seq<EnvVariable>, ints: seq<InternalEnvVariable>)
    returns (r: Result<seq<EnvVariable>>)
    ensures r == DerivedTier(acc, InternalDerived(ints))
  {
    var vars := acc;
    var i := 0;
    while i < |ints|
      invariant 0 <= i <= |ints|
      invariant DerivedTier(acc, InternalDerived(ints[..i])) == Ok(vars)
    {
      var internal := ints[i];
      ghost var ds := InternalDerived(ints[..i + 1]);
      assert ds[..i] == InternalDerived(ints[..i]);
      var value := ResolveVariableInString(internal.value, vars);
      if value.Err? {
        assert ds[i] == Derived(internal.name, internal.value, "Failed to resolve internal env variable " + internal.name);
        assert DerivedTier(acc, ds).Err?;
        assert InternalDerived(ints)[..i + 1] == ds;
        DerivedTierStops(acc, InternalDerived(ints), i + 1);
        return Err("Failed to resolve internal env variable " + internal.name + ": " + value.msg);
      }
      vars := AddUniqueVar(vars, EnvVariable(internal.name, value.value));
      i := i + 1;
    }
    assert ints[..i] == ints;
    return Ok(vars);
  }

  // ----- properties of the tiers -----

  /** The first failure of the external tier is the tier's result (the `return Err`). */
  lemma {:induction false} ExternalTierStops(acc: seq<EnvVariable>, exts: seq<ExternalEnvVariable>, dv: seq<EnvVariable>, i: nat)
    requires i <= |exts| && ExternalTier(acc, exts[..i], dv).Err?
    ensures ExternalTier(acc, exts, dv) == ExternalTier(acc, exts[..i], dv)
  {
    if i == |exts| {
      assert exts[..i] == exts;
    } else {
      var init := exts[..|exts| - 1];
      assert init[..i] == exts[..i];
      ExternalTierStops(acc, init, dv, i);
    }
  }

  /** The external tier succeeds exactly when every external has a deployment value or
      a default. */
  lemma {:induction false} ExternalTierOk(acc: seq<EnvVariable>, exts: seq<ExternalEnvVariable>, dv: seq<EnvVariable>)
    ensures ExternalTier(acc, exts, dv).Ok? <==> forall e :: e in exts ==> ExternalValue(e, dv).Some?
  {
    if |exts| > 0 {
      var init, e := exts[..|exts| - 1], exts[|exts| - 1];
      ExternalTierOk(acc, init, dv);
      assert exts == init + [e];
    }
  }

  /** With every earlier external supplied, a missing one fails the tier with its name. */
  lemma ExternalTierMissing(acc: seq<EnvVariable>, exts: seq<ExternalEnvVariable>, dv: seq<EnvVariable>, i: nat)
    requires i < |exts| && ExternalValue(exts[i], dv).None?
    requires forall k :: 0 <= k < i ==> ExternalValue(exts[k], dv).Some?
    ensures ExternalTier(acc, exts, dv) == Err("Missing external env variable: " + exts[i].name)
  {
    var pre := exts[..i];
    ExternalTierOk(acc, pre, dv);
    assert forall x :: x in pre ==> ExternalValue(x, dv).Some? by {
      forall x | x in pre ensures ExternalValue(x, dv).Some? {
        var k :| 0 <= k < i && pre[k] == x;
        assert exts[k] == x;
      }
    }
    assert exts[..i + 1][..i] == pre;
    ExternalTierStops(acc, exts, dv, i + 1);
  }

  /** The tier adds exactly the external names and keeps names unique. */
  lemma {:induction false} ExternalTierNames(acc: seq<EnvVariable>, exts: seq<ExternalEnvVariable>, dv: seq<EnvVariable>)
    requires ExternalTier(acc, exts, dv).Ok?
    ensures NameSet(ExternalTier(acc, exts, dv).value) == NameSet(acc) + ExternalNames(exts)
    ensures UniqueNames(acc) ==> UniqueNames(ExternalTier(acc, exts, dv).value)
  {
    if |exts| > 0 {
      var init, e := exts[..|exts| - 1], exts[|exts| - 1];
      ExternalTierNames(acc, init, dv);
      assert exts == init + [e];
      assert ExternalNames(exts) == ExternalNames(init) + {e.name};
      UpsertNames(ExternalTier(acc, init, dv).value, EnvVariable(e.name, ExternalValue(e, dv).value));
    }
  }

  /** The last external of a name decides its value: the deployment's, else the default. */
  lemma {:induction false} ExternalTierLookup(acc: seq<EnvVariable>, exts: seq<ExternalEnvVariable>, dv: seq<EnvVariable>, i: nat)
    requires ExternalTier(acc, exts, dv).Ok?
    requires i < |exts| && forall k :: i < k < |exts| ==> exts[k].name != exts[i].name
    ensures Lookup(ExternalTier(acc, exts, dv).value, exts[i].name) == ExternalValue(exts[i], dv)
  {
    var init, e := exts[..|exts| - 1], exts[|exts| - 1];
    var prev := ExternalTier(acc, init, dv).value;
    UpsertLookup(prev, EnvVariable(e.name, ExternalValue(e, dv).value), exts[i].name);
    if i < |exts| - 1 {
      ExternalTierLookup(acc, init, dv, i);
    }
  }

  /** The optional tier adds exactly the optional names the deployment supplies. */
  lemma {:induction false} OptionalTierNames(acc: seq<EnvVariable>, opts: seq<OptionalEnvVariable>, dv: seq<EnvVariable>)
    ensures NameSet(OptionalTier(acc, opts, dv)) == NameSet(acc) + SuppliedOptionalNames(opts, dv)
    ensures UniqueNames(acc) ==> UniqueNames(OptionalTier(acc, opts, dv))
  {
    if |opts| > 0 {
      var init, o := opts[..|opts| - 1], opts[|opts| - 1];
      OptionalTierNames(acc, init, dv);
      assert opts == init + [o];
      var prev := OptionalTier(acc, init, dv);
      if Lookup(dv, o.name).Some? {
        assert SuppliedOptionalNames(opts, dv) == SuppliedOptionalNames(init, dv) + {o.name};
        UpsertNames(prev, EnvVariable(o.name, Lookup(dv, o.name).value));
      } else {
        assert SuppliedOptionalNames(opts, dv) == SuppliedOptionalNames(init, dv);
      }
    }
  }

  /** An optional name takes the deployment's value if supplied; otherwise the
      accumulator keeps what it had. */
  lemma {:induction false} OptionalTierLookup(acc: seq<EnvVariable>, opts: seq<OptionalEnvVariable>, dv: seq<EnvVariable>, n: string)
    ensures Lookup(OptionalTier(acc, opts, dv), n) ==
      if n in SuppliedOptionalNames(opts, dv) then Lookup(dv, n) else Lookup(acc, n)
  {
    if |opts| > 0 {
      var init, o := opts[..|opts| - 1], opts[|opts| - 1];
      OptionalTierLookup(acc, init, dv, n);
      assert opts == init + [o];
      var prev := OptionalTier(acc, init, dv);
      if Lookup(dv, o.name).Some? {
        assert SuppliedOptionalNames(opts, dv) == SuppliedOptionalNames(init, dv) + {o.name};
        UpsertLookup(prev, EnvVariable(o.name, Lookup(dv, o.name).value), n);
      } else {
        assert SuppliedOptionalNames(opts, dv) == SuppliedOptionalNames(init, dv);
      }
    }
  }

  /** The first failing derived variable is the tier's result (the `?`). */
  lemma {:induction false} DerivedTierStops(acc: seq<EnvVariable>, ds: seq<Derived>, i: nat)
    requires i <= |ds| && DerivedTier(acc, ds[..i]).Err?
    ensures DerivedTier(acc, ds) == DerivedTier(acc, ds[..i])
  {
    if i == |ds| {
      assert ds[..i] == ds;
    } else {
      var init := ds[..|ds| - 1];
      assert init[..i] == ds[..i];
      DerivedTierStops(acc, init, i);
    }
  }

  lemma DerivedNamesSnoc(ds: seq<Derived>, d: Derived)
    ensures DerivedNames(ds + [d]) == DerivedNames(ds) + {d.name}
  {
    assert forall x :: x in ds + [d] <==> x in ds || x == d;
  }

  lemma {:induction false} DerivedTierNames(acc: seq<EnvVariable>, ds: seq<Derived>)
    requires DerivedTier(acc, ds).Ok?
    ensures NameSet(DerivedTier(acc, ds).value) == NameSet(acc) + DerivedNames(ds)
    ensures UniqueNames(acc) ==> UniqueNames(DerivedTier(acc, ds).value)
  {
    if |ds| > 0 {
      var init, d := ds[..|ds| - 1], ds[|ds| - 1];
      DerivedTierNames(acc, init);
      assert ds == init + [d];
      DerivedNamesSnoc(init, d);
      var prev := DerivedTier(acc, init).value;
      var v := Interpolate(d.template, prev).value;
      assert DerivedTier(acc, ds).value == Upsert(prev, EnvVariable(d.name, v));
      UpsertNames(prev, EnvVariable(d.name, v));
    }
  }

  /** The last derived variable of a name holds its template interpolated against the
      accumulator as it stood just before it: later variables are not visible to it. */
  lemma {:induction false} DerivedTierLookup(acc: seq<EnvVariable>, ds: seq<Derived>, i: nat)
    requires DerivedTier(acc, ds).Ok?
    requires i < |ds| && forall k :: i < k < |ds| ==> ds[k].name != ds[i].name
    ensures DerivedTier(acc, ds[..i]).Ok?
    ensures Interpolate(ds[i].template, DerivedTier(acc, ds[..i]).value).Ok?
    ensures Lookup(DerivedTier(acc, ds).value, ds[i].name)
         == Some(Interpolate(ds[i].template, DerivedTier(acc, ds[..i]).value).value)
  {
    var init, d := ds[..|ds| - 1], ds[|ds| - 1];
    var prev := DerivedTier(acc, init).value;
    UpsertLookup(prev, EnvVariable(d.name, Interpolate(d.template, prev).value), ds[i].name);
    if i < |ds| - 1 {
      assert init[..i] == ds[..i];
      DerivedTierLookup(acc, init, i);
    }
  }

  /** A reference to a name that is neither in the accumulator nor defined by an earlier
      derived variable fails the tier: names are resolved in declaration order. */
  lemma DerivedForwardReference(acc: seq<EnvVariable>, ds: seq<Derived>, i: nat, n: string)
    requires i < |ds| && ds[i].template == "${" + n + "}" && '}' !in n
    requires n !in NameSet(acc) && forall k :: 0 <= k < i ==> ds[k].name != n
    ensures DerivedTier(acc, ds).Err?
  {
    var pre := ds[..i];
    if DerivedTier(acc, pre).Err? {
      DerivedTierStops(acc, ds, i);
    } else {
      DerivedUndefined(acc, pre, ds[i], n);
      assert ds[..i + 1] == pre + [ds[i]];
      DerivedTierStops(acc, ds, i + 1);
    }
  }

  /** A derived variable that only references a name the accumulator and the earlier
      derived variables leave undefined fails. */
  lemma DerivedUndefined(acc: seq<EnvVariable>, pre: seq<Derived>, d: Derived, n: string)
    requires DerivedTier(acc, pre).Ok? && d.template == "${" + n + "}" && '}' !in n
    requires n !in NameSet(acc) && forall k :: 0 <= k < |pre| ==> pre[k].name != n
    ensures DerivedTier(acc, pre + [d]).Err?
  {
    DerivedTierNames(acc, pre);
    var prev := DerivedTier(acc, pre).value;
    assert n !in DerivedNames(pre);
    assert n !in NameSet(prev);
    LookupFound(prev, n);
    UndefinedReference(n, prev);
    assert (pre + [d])[..|pre|] == pre;
  }

  /** The environment has no repeated names and holds exactly the external names, the
      optional names supplied, the relative names when there is a host, and the internal
      names. */
  lemma BuildEnvNames(app: AppSpec, dv: seq<EnvVariable>, host: Option<string>)
    requires BuildEnv(app, dv, host).Ok?
    ensures UniqueNames(BuildEnv(app, dv, host).value)
    ensures NameSet(BuildEnv(app, dv, host).value) ==
      ExternalNames(app.environment.external)
      + SuppliedOptionalNames(app.environment.optional, dv)
      + (if host.Some? then DerivedNames(RelativeDerived(app.environment.relative, host.value)) else {})
      + DerivedNames(InternalDerived(app.environment.internal))
  {
    var env := app.environment;
    ExternalTierNames([], env.external, dv);
    var external := ExternalTier([], env.external, dv).value;
    OptionalTierNames(external, env.optional, dv);
    var optional := OptionalTier(external, env.optional, dv);
    if host.Some? {
      DerivedTierNames(optional, RelativeDerived(env.relative, host.value));
    }
    var relative := RelativeTier(optional, env.relative, host).value;
    DerivedTierNames(relative, InternalDerived(env.internal));
  }

  /** A derived tier leaves every name it does not derive with the value it had before. */
  lemma {:induction false} DerivedTierFrame(acc: seq<EnvVariable>, ds: seq<Derived>, n: string)
    requires DerivedTier(acc, ds).Ok? && n !in DerivedNames(ds)
    ensures Lookup(DerivedTier(acc, ds).value, n) == Lookup(acc, n)
    decreases |ds|
  {
    if |ds| > 0 {
      var init, d := ds[..|ds| - 1], ds[|ds| - 1];
      assert ds == init + [d];
      DerivedNamesSnoc(init, d);
      DerivedTierFrame(acc, init, n);
      var prev := DerivedTier(acc, init).value;
      var v := WithContext(Interpolate(d.template, prev), d.context).value;
      UpsertLookup(prev, EnvVariable(d.name, v), n);
    }
  }

  /** Every name of the built environment has the value of the last tier that sets it:
      an internal name the internal tier's value, otherwise a relative name (when a host
      is given) the relative tier's value, otherwise a supplied optional name the
      deployment's value, otherwise an external name the value of its last declaration. */
  lemma BuildEnvLookup(app: AppSpec, dv: seq<EnvVariable>, host: Option<string>, n: string)
    requires BuildEnv(app, dv, host).Ok?
    ensures ExternalTier([], app.environment.external, dv).Ok?
    ensures RelativeTier(OptionalTier(ExternalTier([], app.environment.external, dv).value,
                                      app.environment.optional, dv),
                         app.environment.relative, host).Ok?
    ensures
      var env := app.environment;
      var external := ExternalTier([], env.external, dv).value;
      var optional := OptionalTier(external, env.optional, dv);
      var relative := RelativeTier(optional, env.relative, host).value;
      var built := BuildEnv(app, dv, host).value;
      && (n !in DerivedNames(InternalDerived(env.internal)) ==> Lookup(built, n) == Lookup(relative, n))
      && (n !in DerivedNames(InternalDerived(env.internal))
          && (host.Some? ==> n !in DerivedNames(RelativeDerived(env.relative, host.value)))
          ==> Lookup(built, n) == if n in SuppliedOptionalNames(env.optional, dv) then Lookup(dv, n)
                                  else Lookup(external, n))
    ensures
      var env := app.environment;
      forall i :: 0 <= i < |env.external| && env.external[i].name == n
                  && (forall k :: i < k < |env.external| ==> env.external[k].name != n)
                  && n !in DerivedNames(InternalDerived(env.internal))
                  && (host.Some? ==> n !in DerivedNames(RelativeDerived(env.relative, host.value)))
                  && n !in SuppliedOptionalNames(env.optional, dv)
        ==> Lookup(BuildEnv(app, dv, host).value, n) == ExternalValue(env.external[i], dv)
  {
    var env := app.environment;
    var external := ExternalTier([], env.external, dv).value;
    var optional := OptionalTier(external, env.optional, dv);
    var relative := RelativeTier(optional, env.relative, host).value;
    var built := BuildEnv(app, dv, host).value;
    OptionalTierLookup(external, env.optional, dv, n);
    if n !in DerivedNames(InternalDerived(env.internal)) {
      DerivedTierFrame(relative, InternalDerived(env.internal), n);
      if host.Some? && n !in DerivedNames(RelativeDerived(env.relative, host.value)) {
        DerivedTierFrame(optional, RelativeDerived(env.relative, host.value), n);
      }
    }
    forall i | 0 <= i < |env.external| && env.external[i].name == n
               && (forall k :: i < k < |env.external| ==> env.external[k].name != n)
               && n !in DerivedNames(InternalDerived(env.internal))
               && (host.Some? ==> n !in DerivedNames(RelativeDerived(env.relative, host.value)))
               && n !in SuppliedOptionalNames(env.optional, dv)
      ensures Lookup(built, n) == ExternalValue(env.external[i], dv)
    {
      ExternalTierLookup([], env.external, dv, i);
    }
  }

  /** An internal variable that references a name no earlier tier and no earlier internal
      variable defines makes the whole environment fail. */
  lemma InternalForwardReference(app: AppSpec, dv: seq<EnvVariable>, host: Option<string>, i: nat, n: string)
    requires i < |app.environment.internal| && '}' !in n
    requires app.environment.internal[i].value == "${" + n + "}"
    requires n !in ExternalNames(app.environment.external) + SuppliedOptionalNames(app.environment.optional, dv)
    requires host.Some? ==> forall rel :: rel in app.environment.relative ==> rel.name != n
    requires forall k :: 0 <= k < i ==> app.environment.internal[k].name != n
    ensures BuildEnv(app, dv, host).Err?
  {
    var env := app.environment;
    if ExternalTier([], env.external, dv).Ok? {
      var external := ExternalTier([], env.external, dv).value;
      ExternalTierNames([], env.external, dv);
      OptionalTierNames(external, env.optional, dv);
      var optional := OptionalTier(external, env.optional, dv);
      if RelativeTier(optional, env.relative, host).Ok? {
        if host.Some? {
          var rds := RelativeDerived(env.relative, host.value);
          DerivedTierNames(optional, rds);
          assert forall d :: d in rds ==> d.name != n by {
            forall d | d in rds ensures d.name != n {
              var k :| 0 <= k < |rds| && rds[k] == d;
              assert env.relative[k] in env.relative;
            }
          }
        }
        var relative := RelativeTier(optional, env.relative, host).value;
        DerivedForwardReference(relative, InternalDerived(env.internal), i, n);
      }
    }
  }

  // ----- the per-service selection -----

  /** One selector applied to the service's list so far. */
  function ApplySelector(acc: seq<EnvVariable>, opt: ServiceEnvOption, all: seq<EnvVariable>, service: string): Result<seq<EnvVariable>> {
    match opt
    case All => Ok(FoldUpsert(acc, all))
    case Simple(n) =>
      (match Lookup(all, n)
       case None => Err("Service " + service + " references undefined env var " + n)
       case Some(v) => Ok(Upsert(acc, EnvVariable(n, v))))
    case WithValue(k, v) =>
      var value :- WithContext(Interpolate(v, all), service + ": Failed to resolve env var " + k + "=" + v);
      Ok(Upsert(acc, EnvVariable(k, value)))
  }

  /** The selectors applied in order from an empty list. */
  function FilterEnv(opts: seq<ServiceEnvOption>, all: seq<EnvVariable>, service: string): Result<seq<EnvVariable>> {
    if |opts| == 0 then Ok([])
    else
      var prev :- FilterEnv(opts[..|opts| - 1], all, service);
      ApplySelector(prev, opts[|opts| - 1], all, service)
  }

  /** `filter_service_env_vars`. */
  method FilterServiceEnvVars(service: ServiceSpec, all: seq<EnvVariable>) returns (r: Result<seq<EnvVariable>>)
    ensures r == FilterEnv(service.environment, all, service.name)
  {
    var opts := service.environment;
    var out: seq<EnvVariable> := [];
    var i := 0;
    while i < |opts|
      invariant 0 <= i <= |opts|
      invariant FilterEnv(opts[..i], all, service.name) == Ok(out)
    {
      FilterEnvSnoc(opts, all, service.name, i);
      var next := ApplySelectorStep(out, opts[i], all, service.name);
      if next.Err? {
        FilterEnvStops(opts, all, service.name, i + 1);
        return Err(next.msg);
      }
      out := next.value;
      i := i + 1;
    }
    assert opts[..i] == opts;
    return Ok(out);
  }

  /** The body of the selector loop: one `match` arm. */
  method ApplySelectorStep(out: seq<EnvVariable>, opt: ServiceEnvOption, all: seq<EnvVariable>, service: string)
    returns (r: Result<seq<EnvVariable>>)
    ensures r == ApplySelector(out, opt, all, service)
  {
    match opt
    case All =>
      var vars := AddUniqueVars(out, all);
      return Ok(vars);
    case Simple(n) =>
      var found := Lookup(all, n);
      if found.None? {
        return Err("Service " + service + " references undefined env var " + n);
      }
      var vars := AddUniqueVar(out, EnvVariable(n, found.value));
      return Ok(vars);
    case WithValue(k, v) =>
      var value := ResolveVariableInString(v, all);
      if value.Err? {
        return Err(service + ": Failed to resolve env var " + k + "=" + v + ": " + value.msg);
      }
      var vars := AddUniqueVar(out, EnvVariable(k, value.value));
      return Ok(vars);
  }

  /** Whether a selector can be applied: a bare name must exist, a `name=value` template
      must interpolate against the full environment. */
  predicate SelectorOk(opt: ServiceEnvOption, all: seq<EnvVariable>) {
    match opt
    case All => true
    case Simple(n) => Lookup(all, n).Some?
    case WithValue(_, v) => Interpolate(v, all).Ok?
  }

  /** The names a selector sets. */
  function SelectorNames(opt: ServiceEnvOption, all: seq<EnvVariable>): set<string> {
    match opt
    case All => NameSet(all)
    case Simple(n) => {n}
    case WithValue(k, _) => {k}
  }

  function SelectedNames(opts: seq<ServiceEnvOption>, all: seq<EnvVariable>): set<string> {
    if |opts| == 0 then {} else SelectedNames(opts[..|opts| - 1], all) + SelectorNames(opts[|opts| - 1], all)
  }

  lemma FilterEnvSnoc(opts: seq<ServiceEnvOption>, all: seq<EnvVariable>, service: string, i: nat)
    requires i < |opts| && FilterEnv(opts[..i], all, service).Ok?
    ensures FilterEnv(opts[..i + 1], all, service)
         == ApplySelector(FilterEnv(opts[..i], all, service).value, opts[i], all, service)
  {
    assert opts[..i + 1][..i] == opts[..i];
  }

  lemma {:induction false} FilterEnvStops(opts: seq<ServiceEnvOption>, all: seq<EnvVariable>, service: string, i: nat)
    requires i <= |opts| && FilterEnv(opts[..i], all, service).Err?
    ensures FilterEnv(opts, all, service) == FilterEnv(opts[..i], all, service)
  {
    if i == |opts| {
      assert opts[..i] == opts;
    } else {
      var init := opts[..|opts| - 1];
      assert init[..i] == opts[..i];
      FilterEnvStops(init, all, service, i);
    }
  }

  /** The selection succeeds exactly when every selector can be applied; the selectors do
      not depend on each other, since each reads the full environment. */
  lemma {:induction false} FilterEnvOk(opts: seq<ServiceEnvOption>, all: seq<EnvVariable>, service: string)
    ensures FilterEnv(opts, all, service).Ok? <==> forall i :: 0 <= i < |opts| ==> SelectorOk(opts[i], all)
  {
    if |opts| > 0 {
      var init, o := opts[..|opts| - 1], opts[|opts| - 1];
      FilterEnvOk(init, all, service);
      if FilterEnv(init, all, service).Err? {
        var k :| 0 <= k < |init| && !SelectorOk(init[k], all);
        assert opts[k] == init[k];
      } else {
        ApplySelectorOk(FilterEnv(init, all, service).value, o, all, service);
        if SelectorOk(o, all) {
          forall i | 0 <= i < |opts| ensures SelectorOk(opts[i], all) {
            if i < |init| { assert opts[i] == init[i]; } else { assert opts[i] == o; }
          }
        }
      }
    }
  }

  lemma ApplySelectorOk(acc: seq<EnvVariable>, opt: ServiceEnvOption, all: seq<EnvVariable>, service: string)
    ensures ApplySelector(acc, opt, all, service).Ok? <==> SelectorOk(opt, all)
  {
  }

  /** The selection holds exactly the selected names, none of them twice. */
  lemma {:induction false} FilterEnvNames(opts: seq<ServiceEnvOption>, all: seq<EnvVariable>, service: string)
    requires FilterEnv(opts, all, service).Ok?
    ensures NameSet(FilterEnv(opts, all, service).value) == SelectedNames(opts, all)
    ensures UniqueNames(FilterEnv(opts, all, service).value)
  {
    if |opts| > 0 {
      var init, o := opts[..|opts| - 1], opts[|opts| - 1];
      FilterEnvNames(init, all, service);
      var prev := FilterEnv(init, all, service).value;
      match o
      case All => FoldUpsertNames(prev, all);
      case Simple(n) => UpsertNames(prev, EnvVariable(n, Lookup(all, n).value));
      case WithValue(k, v) => UpsertNames(prev, EnvVariable(k, Interpolate(v, all).value));
    }
  }

  /** The last selector decides the names it sets; every other name keeps what the
      earlier selectors gave it. */
  lemma FilterLastSelector(opts: seq<ServiceEnvOption>, all: seq<EnvVariable>, service: string, n: string)
    requires |opts| > 0 && FilterEnv(opts, all, service).Ok?
    ensures FilterEnv(opts[..|opts| - 1], all, service).Ok?
    ensures var r, last := FilterEnv(opts, all, service).value, opts[|opts| - 1];
      (last.Simple? && last.name == n ==> Lookup(r, n) == Lookup(all, n))
      && (last.WithValue? && last.key == n ==> Lookup(r, n) == Some(Interpolate(last.value, all).value))
      && (last.All? && n in NameSet(all) ==> Lookup(r, n) == LastValue(all, n))
      && (n !in SelectorNames(last, all) ==> Lookup(r, n) == Lookup(FilterEnv(opts[..|opts| - 1], all, service).value, n))
  {
    var prev := FilterEnv(opts[..|opts| - 1], all, service).value;
    match opts[|opts| - 1]
    case All => FoldUpsertLookup(prev, all, n);
    case Simple(m) => UpsertLookup(prev, EnvVariable(m, Lookup(all, m).value), n);
    case WithValue(k, v) => UpsertLookup(prev, EnvVariable(k, Interpolate(v, all).value), n);
  }

  /** `$all` alone hands the service the whole environment, in order. */
  lemma FilterAllCopies(all: seq<EnvVariable>, service: string)
    requires UniqueNames(all)
    ensures FilterEnv([All], all, service) == Ok(all)
  {
    assert [All][..0] == [];
    FoldUpsertCopies(all);
  }
}

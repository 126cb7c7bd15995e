/** Name-keyed variable lists: the first-match lookup used throughout the resolver and
    `add_unique_var`, the "upsert by name" that keeps such a list free of repeated names
    (src/resolver.rs). */
module EnvVars {
  import opened Wrappers
  import opened Spec

  function NameSet(vars: seq<EnvVariable>): set<string> {
    set v | v in vars :: v.name
  }

  predicate UniqueNames(vars: seq<EnvVariable>) {
    forall i, j :: 0 <= i < j < |vars| ==> vars[i].name != vars[j].name
  }

  /** Position of the first variable called `name`. */
  function IndexOfName(vars: seq<EnvVariable>, name: string): (r: Option<nat>)
    ensures r.Some? ==> r.value < |vars| && vars[r.value].name == name
  {
    if |vars| == 0 then None
    else if vars[0].name == name then Some(0)
    else match IndexOfName(vars[1..], name)
      case None => None
      case Some(i) => Some(i + 1)
  }

  /** The search fails exactly when no variable has the name. */
  lemma {:induction false} IndexOfNameNone(vars: seq<EnvVariable>, name: string)
    ensures IndexOfName(vars, name).None? <==> name !in NameSet(vars)
  {
    if |vars| > 0 {
      IndexOfNameNone(vars[1..], name);
      assert NameSet(vars) == {vars[0].name} + NameSet(vars[1..]);
    }
  }

  /** The first position holding `name` is the one `IndexOfName` finds. */
  lemma {:induction false} IndexOfNameAt(vars: seq<EnvVariable>, name: string, i: nat)
    requires i < |vars| && vars[i].name == name
    requires forall k :: 0 <= k < i ==> vars[k].name != name
    ensures IndexOfName(vars, name) == Some(i)
  {
    if i > 0 {
      assert vars[0].name != name;
      IndexOfNameAt(vars[1..], name, i - 1);
    }
  }

  /** No variable before the one `IndexOfName` finds has that name. */
  lemma {:induction false} IndexOfNameFirst(vars: seq<EnvVariable>, name: string)
    ensures IndexOfName(vars, name).Some? ==> forall k :: 0 <= k < IndexOfName(vars, name).value ==> vars[k].name != name
  {
    if |vars| > 0 && vars[0].name != name {
      IndexOfNameFirst(vars[1..], name);
    }
  }

  /** `vars.iter().find(|v| v.name == name).map(|v| v.value)`: the value of the first
      variable called `name`. */
  function Lookup(vars: seq<EnvVariable>, name: string): Option<string> {
    match IndexOfName(vars, name)
    case None => None
    case Some(i) => Some(vars[i].value)
  }

  /** A lookup finds a value exactly when some variable has the name. */
  lemma LookupFound(vars: seq<EnvVariable>, name: string)
    ensures Lookup(vars, name).Some? <==> name in NameSet(vars)
  {
    IndexOfNameNone(vars, name);
  }

  /** The list `add_unique_var` leaves behind: the first entry with the new variable's
      name takes its value, in place; with no such entry the variable is appended. */
  function Upsert(vars: seq<EnvVariable>, v: EnvVariable): seq<EnvVariable> {
    match IndexOfName(vars, v.name)
    case Some(i) => vars[i := vars[i].(value := v.value)]
    case None => vars + [v]
  }

  /** An upsert leaves every entry of another name where it was, and overwrites the first
      entry of the new variable's name in place. */
  lemma UpsertInPlace(vars: seq<EnvVariable>, v: EnvVariable)
    ensures v.name in NameSet(vars) ==> |Upsert(vars, v)| == |vars|
    ensures v.name !in NameSet(vars) ==> Upsert(vars, v) == vars + [v]
    ensures forall k :: 0 <= k < |vars| && vars[k].name != v.name ==> Upsert(vars, v)[k] == vars[k]
    ensures IndexOfName(vars, v.name).Some? ==> Upsert(vars, v)[IndexOfName(vars, v.name).value] == v
  {
    IndexOfNameNone(vars, v.name);
  }

  /** `add_unique_var`, with the `&mut Vec` passed in and handed back. */
  method AddUniqueVar(vars: seq<EnvVariable>, v: EnvVariable) returns (r: seq<EnvVariable>)
    ensures r == Upsert(vars, v)
  {
    var i := 0;
    while i < |vars| && vars[i].name != v.name
      invariant 0 <= i <= |vars|
      invariant forall k :: 0 <= k < i ==> vars[k].name != v.name
    {
      i := i + 1;
    }
    if i < |vars| {
      IndexOfNameAt(vars, v.name, i);
      r := vars[i := vars[i].(value := v.value)];
    } else {
      r := vars + [v];
    }
  }

  /** After an upsert the new variable is found under its name, and every other name
      finds what it found before. */
  lemma UpsertLookup(vars: seq<EnvVariable>, v: EnvVariable, n: string)
    ensures Lookup(Upsert(vars, v), n) == if n == v.name then Some(v.value) else Lookup(vars, n)
  {
    var r := Upsert(vars, v);
    UpsertInPlace(vars, v);
    if n == v.name {
      IndexOfNameFirst(vars, n);
      match IndexOfName(vars, v.name)
      case Some(i) =>
        assert r[i] == v;
        IndexOfNameAt(r, n, i);
      case None =>
        IndexOfNameAt(r, n, |vars|);
    } else {
      IndexOfNameFirst(vars, n);
      match IndexOfName(vars, n)
      case Some(i) =>
        assert r[i] == vars[i];
        IndexOfNameAt(r, n, i);
      case None =>
        IndexOfNameNone(vars, n);
        UpsertNames(vars, v);
        IndexOfNameNone(r, n);
    }
  }

  /** Upserting adds exactly the new name, and never introduces a repeated name. */
  lemma UpsertNames(vars: seq<EnvVariable>, v: EnvVariable)
    ensures NameSet(Upsert(vars, v)) == NameSet(vars) + {v.name}
    ensures UniqueNames(vars) ==> UniqueNames(Upsert(vars, v))
  {
    var r := Upsert(vars, v);
    UpsertInPlace(vars, v);
    match IndexOfName(vars, v.name)
    case Some(i) =>
      assert r == vars[i := v];
      forall n | n in NameSet(r) ensures n in NameSet(vars) + {v.name} {
        var k :| 0 <= k < |r| && r[k].name == n;
        if k != i { assert r[k] == vars[k]; }
      }
      forall n | n in NameSet(vars) ensures n in NameSet(r) {
        var k :| 0 <= k < |vars| && vars[k].name == n;
        if k != i { assert r[k] == vars[k]; } else { assert r[k] == v; }
      }
      forall a, b | 0 <= a < b < |r| && UniqueNames(vars) ensures r[a].name != r[b].name {
        assert r[a].name == vars[a].name && r[b].name == vars[b].name;
      }
    case None =>
  }

  /** The value of the last variable called `n`. */
  function LastValue(vs: seq<EnvVariable>, n: string): (r: Option<string>)
    ensures r.Some? <==> n in NameSet(vs)
  {
    if |vs| == 0 then None
    else if vs[|vs| - 1].name == n then Some(vs[|vs| - 1].value)
    else
      assert NameSet(vs) == NameSet(vs[..|vs| - 1]) + {vs[|vs| - 1].name};
      LastValue(vs[..|vs| - 1], n)
  }

  /** Upserting every variable of `vs` in order onto `acc`. */
  function FoldUpsert(acc: seq<EnvVariable>, vs: seq<EnvVariable>): seq<EnvVariable> {
    if |vs| == 0 then acc else Upsert(FoldUpsert(acc, vs[..|vs| - 1]), vs[|vs| - 1])
  }

  /** A loop of `add_unique_var` calls, one per variable of `vs`, in order. */
  method AddUniqueVars(acc: seq<EnvVariable>, vs: seq<EnvVariable>) returns (r: seq<EnvVariable>)
    ensures r == FoldUpsert(acc, vs)
  {
    r := acc;
    var j := 0;
    while j < |vs|
      invariant 0 <= j <= |vs|
      invariant r == FoldUpsert(acc, vs[..j])
    {
      assert vs[..j + 1][..j] == vs[..j];
      r := AddUniqueVar(r, vs[j]);
      j := j + 1;
    }
    assert vs[..j] == vs;
  }

  /** After upserting `vs`, a name of `vs` finds its last value there; any other name
      finds what it found in `acc`. */
  lemma {:induction false} FoldUpsertLookup(acc: seq<EnvVariable>, vs: seq<EnvVariable>, n: string)
    ensures Lookup(FoldUpsert(acc, vs), n) == if n in NameSet(vs) then LastValue(vs, n) else Lookup(acc, n)
  {
    if |vs| > 0 {
      var init := vs[..|vs| - 1];
      assert NameSet(vs) == NameSet(init) + {vs[|vs| - 1].name};
      FoldUpsertLookup(acc, init, n);
      UpsertLookup(FoldUpsert(acc, init), vs[|vs| - 1], n);
    }
  }

  lemma {:induction false} FoldUpsertNames(acc: seq<EnvVariable>, vs: seq<EnvVariable>)
    ensures NameSet(FoldUpsert(acc, vs)) == NameSet(acc) + NameSet(vs)
    ensures UniqueNames(acc) ==> UniqueNames(FoldUpsert(acc, vs))
  {
    if |vs| > 0 {
      var init := vs[..|vs| - 1];
      assert NameSet(vs) == NameSet(init) + {vs[|vs| - 1].name};
      FoldUpsertNames(acc, init);
      UpsertNames(FoldUpsert(acc, init), vs[|vs| - 1]);
    }
  }

  /** Upserting a list with no repeated names into an empty list copies it. */
  lemma {:induction false} FoldUpsertCopies(vs: seq<EnvVariable>)
    requires UniqueNames(vs)
    ensures FoldUpsert([], vs) == vs
  {
    if |vs| > 0 {
      var init, last := vs[..|vs| - 1], vs[|vs| - 1];
      assert UniqueNames(init) by {
        forall i, j | 0 <= i < j < |init| ensures init[i].name != init[j].name {
          assert init[i] == vs[i] && init[j] == vs[j];
        }
      }
      FoldUpsertCopies(init);
      forall x | x in init ensures x.name != last.name {
        var k :| 0 <= k < |init| && init[k] == x;
        assert vs[k] == x;
      }
      assert last.name !in NameSet(init);
      assert init + [last] == vs;
    }
  }
}

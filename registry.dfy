/** The rule registry (internal/rules/registry.go) and the built-in registration of
    main.go's `setupRegistry`. */
module Registry {
  import opened VTypes
  import opened GoStrings
  import opened Rules

  /** The imports the rules named by one field's rule keys declare, counting only keys that
      are registered. */
  ghost function FieldImports(rules: map<string, RuleId>, f: ValidationField): set<string>
  {
    set name, imp | name in f.rules && name in rules && imp in RequiredImports(rules[name]) :: imp
  }

  /** The imports needed by a list of fields. */
  ghost function ImportsOf(rules: map<string, RuleId>, fields: seq<ValidationField>): set<string>
  {
    if fields == [] then {} else ImportsOf(rules, fields[..|fields| - 1]) + FieldImports(rules, fields[|fields| - 1])
  }

  /** An import is needed exactly when some field names a registered rule that declares it. */
  lemma {:induction false} ImportsOfMeaning(rules: map<string, RuleId>, fields: seq<ValidationField>, imp: string)
    ensures imp in ImportsOf(rules, fields) <==>
      exists i, name :: 0 <= i < |fields| && name in fields[i].rules && name in rules &&
        imp in RequiredImports(rules[name])
  {
    if fields != [] {
      var n := |fields| - 1;
      ImportsOfMeaning(rules, fields[..n], imp);
      if imp in FieldImports(rules, fields[n]) {
        var name :| name in fields[n].rules && name in rules && imp in RequiredImports(rules[name]);
        assert 0 <= n < |fields| && name in fields[n].rules;
      }
      forall i, name | 0 <= i < |fields| && name in fields[i].rules && name in rules &&
          imp in RequiredImports(rules[name])
        ensures imp in ImportsOf(rules, fields)
      {
        if i < n {
          assert fields[..n][i] == fields[i];
        } else {
          assert imp in FieldImports(rules, fields[n]);
        }
      }
      if imp in ImportsOf(rules, fields[..n]) {
        var i, name :| 0 <= i < n && name in fields[..n][i].rules && name in rules &&
          imp in RequiredImports(rules[name]);
        assert fields[..n][i] == fields[i];
      }
    }
  }

  /** `m` after binding each of `keys` in turn to `r`. */
  function BindAll(m: map<string, RuleId>, keys: seq<string>, r: RuleId): map<string, RuleId>
  {
    if keys == [] then m else BindAll(m, keys[..|keys| - 1], r)[keys[|keys| - 1] := r]
  }

  /** Binding adds exactly the given keys, all bound to `r`, and leaves every other key as
      it was: an earlier binding of one of the keys is overwritten without notice. */
  lemma {:induction false} BindAllMeaning(m: map<string, RuleId>, keys: seq<string>, r: RuleId)
    ensures BindAll(m, keys, r).Keys == m.Keys + set k | k in keys
    ensures forall k :: k in keys ==> BindAll(m, keys, r)[k] == r
    ensures forall k :: k in m && k !in keys ==> BindAll(m, keys, r)[k] == m[k]
  {
    if keys != [] {
      var init := keys[..|keys| - 1];
      BindAllMeaning(m, init, r);
      assert keys == init + [keys[|keys| - 1]];
    }
  }

  /** No element occurs twice. */
  predicate NoDuplicates<T(==)>(s: seq<T>)
  {
    forall i, j :: 0 <= i < j < |s| ==> s[i] != s[j]
  }

  /** `Registry`: rule names and aliases to rules. */
  class RuleRegistry {
    var rules: map<string, RuleId>

    /** `NewRegistry`: no keys. */
    constructor ()
      ensures rules == map[]
    {
      rules := map[];
    }

    /** `Register`: binds each alias, then the name, to `rule`, overwriting silently any
        earlier binding of those keys (see `BindAllMeaning`). */
    method Register(rule: RuleId)
      modifies this
      ensures rules == BindAll(old(rules), Keys(rule), rule)
    {
      var a := Aliases(rule);
      var i := 0;
      while i < |a|
        invariant 0 <= i <= |a|
        invariant rules == BindAll(old(rules), a[..i], rule)
      {
        assert a[..i + 1][..i] == a[..i];
        rules := rules[a[i] := rule];
        i := i + 1;
      }
      assert a[..i] == a;
      assert (a + [Name(rule)])[..|a|] == a;
      rules := rules[Name(rule) := rule];
    }

    /** `Get`: the rule bound to `name`, if any. */
    function Get(name: string): (r: Option<RuleId>)
      reads this
      ensures r.Some? <==> name in rules
      ensures r.Some? ==> r.value == rules[name]
    {
      if name in rules then Some(rules[name]) else None
    }

    /** `GetForTypeCheck`: the same lookup, narrowed to the `SupportsType` capability. */
    function GetForTypeCheck(name: string): (r: Option<RuleId>)
      reads this
      ensures r.Some? <==> name in rules
      ensures r.Some? ==> r.value == rules[name]
    {
      var rule := Get(name);
      if rule.None? then None else Some(rule.value)
    }

    /** `HasRule`: whether some rule is bound to the key, which is what `Get` finds. */
    predicate HasRule(name: string): (b: bool)
      reads this
      ensures b <==> name in rules
      ensures b <==> GetForTypeCheck(name).Some?
    {
      name in rules
    }

    /** `HasRule`, `Get` and `GetForTypeCheck` always agree on whether a key is bound. */
    lemma LookupsAgree(name: string)
      ensures HasRule(name) <==> Get(name).Some?
      ensures Get(name) == GetForTypeCheck(name)
    {
    }

    /** `GetAllForGeneration`: a new map with exactly the registry's keys, each bound to the
        same rule. The copy visits the keys in an unspecified order. */
    method GetAllForGeneration() returns (result: map<string, RuleId>)
      ensures result.Keys == rules.Keys
      ensures forall k :: k in result ==> result[k] == rules[k]
    {
      result := map[];
      var remaining := rules.Keys;
      while remaining != {}
        invariant remaining <= rules.Keys
        invariant result.Keys == rules.Keys - remaining
        invariant forall k :: k in result ==> result[k] == rules[k]
        decreases |remaining|
      {
        var name :| name in remaining;
        result := result[name := rules[name]];
        remaining := remaining - {name};
      }
    }

    /** `GetRequiredImports`: every import declared by a registered rule that some field
        names, each once, in an unspecified order. Unregistered names contribute nothing. */
    method GetRequiredImports(fields: seq<ValidationField>) returns (result: seq<string>)
      ensures NoDuplicates(result)
      ensures forall imp :: imp in result <==>
        exists i, name :: 0 <= i < |fields| && name in fields[i].rules && name in rules &&
          imp in RequiredImports(rules[name])
    {
      var imports: set<string> := {};
      var i := 0;
      while i < |fields|
        invariant 0 <= i <= |fields|
        invariant imports == ImportsOf(rules, fields[..i])
      {
        assert fields[..i + 1][..i] == fields[..i];
        imports := CollectFieldImports(fields[i], imports);
        i := i + 1;
      }
      assert fields[..i] == fields;
      result := [];
      var remaining := imports;
      while remaining != {}
        invariant remaining <= imports
        invariant NoDuplicates(result)
        invariant forall imp :: imp in result <==> imp in imports && imp !in remaining
        decreases |remaining|
      {
        var imp :| imp in remaining;
        result := result + [imp];
        remaining := remaining - {imp};
      }
      forall imp
        ensures imp in result <==>
          exists i, name :: 0 <= i < |fields| && name in fields[i].rules && name in rules &&
            imp in RequiredImports(rules[name])
      {
        ImportsOfMeaning(rules, fields, imp);
      }
    }

    /** The inner loops of `GetRequiredImports` for one field: its rule keys in an unspecified
        order, then each import of a registered rule. */
    method CollectFieldImports(f: ValidationField, imports: set<string>) returns (acc: set<string>)
      ensures acc == imports + FieldImports(rules, f)
    {
      acc := imports;
      var remaining := f.rules.Keys;
      while remaining != {}
        invariant remaining <= f.rules.Keys
        invariant acc == imports + set name, imp | name in f.rules && name !in remaining &&
          name in rules && imp in RequiredImports(rules[name]) :: imp
        decreases |remaining|
      {
        var name :| name in remaining;
        var rule := Get(name);
        if rule.Some? {
          var needed := RequiredImports(rule.value);
          var j := 0;
          while j < |needed|
            invariant 0 <= j <= |needed|
            invariant acc == imports + (set n, imp | n in f.rules && n !in remaining &&
              n in rules && imp in RequiredImports(rules[n]) :: imp) + set imp | imp in needed[..j]
          {
            assert needed[..j + 1] == needed[..j] + [needed[j]];
            acc := acc + {needed[j]};
            j := j + 1;
          }
          assert needed[..j] == needed;
        }
        remaining := remaining - {name};
      }
    }
  }

  /** The rules `setupRegistry` registers, in its order. */
  const BuiltinOrder: seq<RuleId> :=
    [Required, GreaterThan, LessThan, EqualField, MinLen, MaxLen, Len, EqualFieldSecure, Email]

  /** The registry `setupRegistry` builds: every name and alias bound to its rule, listed in
      the order the registrations bind them. */
  const BuiltinRules: map<string, RuleId> :=
    map["required" := Required, "gte" := GreaterThan, "gt" := GreaterThan,
        "lte" := LessThan, "lt" := LessThan, "eqfield" := EqualField,
        "minlen" := MinLen, "maxlen" := MaxLen, "len" := Len,
        "eqfieldsecure" := EqualFieldSecure, "email" := Email]

  /** `setupRegistry`: registers the nine built-in rules in order. */
  method SetupRegistry() returns (registry: RuleRegistry)
    ensures fresh(registry)
    ensures registry.rules == BuiltinRules
  {
    registry := new RuleRegistry();
    KeysOfOne(registry.rules, Required);
    registry.Register(Required);
    KeysOfTwo(registry.rules, GreaterThan);
    registry.Register(GreaterThan);
    KeysOfTwo(registry.rules, LessThan);
    registry.Register(LessThan);
    KeysOfOne(registry.rules, EqualField);
    registry.Register(EqualField);
    KeysOfOne(registry.rules, MinLen);
    registry.Register(MinLen);
    KeysOfOne(registry.rules, MaxLen);
    registry.Register(MaxLen);
    KeysOfOne(registry.rules, Len);
    registry.Register(Len);
    KeysOfOne(registry.rules, EqualFieldSecure);
    registry.Register(EqualFieldSecure);
    KeysOfOne(registry.rules, Email);
    registry.Register(Email);
  }

  /** Registering a rule without aliases binds its name. */
  lemma KeysOfOne(m: map<string, RuleId>, r: RuleId)
    requires Aliases(r) == []
    ensures BindAll(m, Keys(r), r) == m[Name(r) := r]
  {
    assert Keys(r) == [Name(r)];
  }

  /** Registering a rule with one alias binds the alias, then the name. */
  lemma KeysOfTwo(m: map<string, RuleId>, r: RuleId)
    requires |Aliases(r)| == 1
    ensures BindAll(m, Keys(r), r) == m[Aliases(r)[0] := r][Name(r) := r]
  {
    var ks := Keys(r);
    assert ks == [Aliases(r)[0], Name(r)];
    assert ks[..1][..0] == [];
    assert BindAll(m, ks[..1], r) == m[Aliases(r)[0] := r];
    assert BindAll(m, ks, r) == BindAll(m, ks[..1], r)[Name(r) := r];
  }

  /** Every rule identity is registered once, and no two built-in rules share a key, so no
      registration in `setupRegistry` overwrites another. */
  lemma BuiltinKeysDisjoint()
    ensures |BuiltinOrder| == 9 && forall r :: r in BuiltinOrder
    ensures forall i, j, k :: 0 <= i < j < |BuiltinOrder| && k in Keys(BuiltinOrder[i]) ==>
      k !in Keys(BuiltinOrder[j])
  {
    forall r ensures r in BuiltinOrder {
      match r
      case Required => assert BuiltinOrder[0] == r;
      case GreaterThan => assert BuiltinOrder[1] == r;
      case LessThan => assert BuiltinOrder[2] == r;
      case EqualField => assert BuiltinOrder[3] == r;
      case MinLen => assert BuiltinOrder[4] == r;
      case MaxLen => assert BuiltinOrder[5] == r;
      case Len => assert BuiltinOrder[6] == r;
      case EqualFieldSecure => assert BuiltinOrder[7] == r;
      case Email => assert BuiltinOrder[8] == r;
    }
    forall i, j, k | 0 <= i < j < |BuiltinOrder| && k in Keys(BuiltinOrder[i])
      ensures k !in Keys(BuiltinOrder[j])
    {
      KeysAreNamesOf(BuiltinOrder[i], k);
      KeysAreNamesOf(BuiltinOrder[j], k);
    }
  }

  /** Which rule a key belongs to, read off the key itself. */
  function KeyOwner(k: string): Option<RuleId>
  {
    if k == "required" then Some(Required)
    else if k == "gt" || k == "gte" then Some(GreaterThan)
    else if k == "lt" || k == "lte" then Some(LessThan)
    else if k == "eqfield" then Some(EqualField)
    else if k == "minlen" then Some(MinLen)
    else if k == "maxlen" then Some(MaxLen)
    else if k == "len" then Some(Len)
    else if k == "eqfieldsecure" then Some(EqualFieldSecure)
    else if k == "email" then Some(Email)
    else None
  }

  /** Each key of a rule is owned by that rule. */
  lemma KeysAreNamesOf(r: RuleId, k: string)
    ensures k in Keys(r) ==> KeyOwner(k) == Some(r)
  {
  }

  /** The built-in registry answers to exactly the 11 names and aliases of the built-in
      rules, and each leads to the rule that owns it. */
  lemma BuiltinRulesExactly(k: string)
    ensures k in BuiltinRules <==> KeyOwner(k).Some?
    ensures k in BuiltinRules ==> BuiltinRules[k] == KeyOwner(k).value && k in Keys(BuiltinRules[k])
  {
  }

  lemma BuiltinRulesSize()
    ensures |BuiltinRules| == 11
  {
  }

  /** Of the built-in rules only `eqfieldsecure` needs an import: whatever the fields, the
      built-in registry asks for nothing but "crypto/subtle", and only for a field that
      carries `eqfieldsecure`. */
  lemma BuiltinImports(fields: seq<ValidationField>, imp: string)
    requires imp in ImportsOf(BuiltinRules, fields)
    ensures imp == "crypto/subtle"
    ensures exists i :: 0 <= i < |fields| && "eqfieldsecure" in fields[i].rules
  {
    ImportsOfMeaning(BuiltinRules, fields, imp);
    var i, name :| 0 <= i < |fields| && name in fields[i].rules && name in BuiltinRules &&
      imp in RequiredImports(BuiltinRules[name]);
    BuiltinRulesExactly(name);
    ImportsOnlyForSecureCompare(BuiltinRules[name]);
  }
}

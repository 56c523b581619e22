/** The type checker (internal/typechecker/typechecker.go): every rule a field declares is
    looked up in the registry, tried against the field's kind and then against its parameter.
    Diagnostics accumulate; nothing stops at the first one. */
module TypeChecker {
  import opened VTypes
  import opened TypeSets
  import opened GoStrings
  import opened Rules
  import opened Registry
  import opened Seqs

  /** `isIntegerType`: the switch over the ten integer kinds agrees with `IntegerTypes`. */
  function IsIntegerType(k: TypeKind): (b: bool)
    ensures b <==> k in IntegerTypes
  {
    match k
    case Int => true
    case Int8 => true
    case Int16 => true
    case Int32 => true
    case Int64 => true
    case Uint => true
    case Uint8 => true
    case Uint16 => true
    case Uint32 => true
    case Uint64 => true
    case _ => false
  }

  /** The rule names `validateRuleParams` checks as integer comparisons ... */
  const ComparisonKeys: set<string> := {"gt", "lt", "lte", "gte"}

  /** ... and as lengths. */
  const LengthKeys: set<string> := {"minlen", "maxlen", "len"}

  /** A diagnostic about rule `rule` of field `f`; the type checker never sets a position. */
  function Diagnostic(t: ErrorType, message: string, f: ValidationField, structName: string,
    rule: string): CompilerError
  {
    CompilerError(t, message, f.name, structName, rule, "")
  }

  /** `validateRuleParams`: the parameter check of one rule, by rule name. Any diagnostic it
      gives is about this field, struct and rule, and only the rule names with a parameter
      case can be refused. */
  function ValidateRuleParams(ruleName: string, f: ValidationField, value: string,
    structName: string, fieldMap: map<string, ValidationField>): (r: Option<CompilerError>)
    ensures r.Some? ==> (r.value.field == f.name && r.value.structName == structName &&
                         r.value.rule == ruleName && r.value.position == "")
    ensures (ruleName !in ComparisonKeys && ruleName !in LengthKeys &&
             ruleName != "eqfield" && ruleName != "eqfieldsecure") ==> r.None?
  {
    if ruleName in ComparisonKeys then
      if value == "" then
        Some(Diagnostic(Invalid, "rule '" + ruleName + "' requires a numeric value", f, structName, ruleName))
      else if !IsIntegerType(f.fieldType.kind) then
        Some(Diagnostic(Incompatible, "rule '" + ruleName + "' can only be used with integer types", f, structName, ruleName))
      else if ParseInt64(value).None? then
        Some(Diagnostic(Invalid, "rule '" + ruleName + "' value must be a valid integer", f, structName, ruleName))
      else None
    else if ruleName in LengthKeys then
      if value == "" then
        Some(Diagnostic(Invalid, "rule '" + ruleName + "' requires a numeric value", f, structName, ruleName))
      else if ParseInt64(value).None? || ParseInt64(value).value < 0 then
        Some(Diagnostic(Invalid, "rule '" + ruleName + "' value must be a non-negative integer", f, structName, ruleName))
      else None
    else if ruleName == "eqfield" then
      if value == "" then
        Some(Diagnostic(Invalid, "eqfield rule requires a field name", f, structName, ruleName))
      else if value !in fieldMap then
        Some(Diagnostic(Missing, "eqfield references unknown field '" + value + "'", f, structName, ruleName))
      else if f.fieldType.kind != fieldMap[value].fieldType.kind then
        Some(Diagnostic(Incompatible, "eqfield field types must match: '" + KindName(f.fieldType.kind) +
          "' vs '" + KindName(fieldMap[value].fieldType.kind) + "'", f, structName, ruleName))
      else None
    else if ruleName == "eqfieldsecure" then
      if value == "" then
        Some(Diagnostic(Invalid, "eqfieldsecure rule requires a field name", f, structName, ruleName))
      else if value !in fieldMap then
        Some(Diagnostic(Missing, "eqfieldsecure references unknown field '" + value + "'", f, structName, ruleName))
      else if f.fieldType.kind != String || fieldMap[value].fieldType.kind != String then
        Some(Diagnostic(Incompatible, "eqfieldsecure can only be used with string fields", f, structName, ruleName))
      else None
    else None
  }

  /** The parameters the type checker accepts, stated per rule name: an int64 bound on an
      integer field, a non-negative int64 length, or the name of another field of the struct
      with the same kind (both of kind string for the secure comparison). Rules with no
      parameter case accept anything. */
  predicate AcceptableParam(ruleName: string, kind: TypeKind, value: string,
    fieldMap: map<string, ValidationField>)
  {
    if ruleName in ComparisonKeys then kind in IntegerTypes && ParseInt64(value).Some?
    else if ruleName in LengthKeys then ParseInt64(value).Some? && ParseInt64(value).value >= 0
    else if ruleName == "eqfield" then
      value != "" && value in fieldMap && fieldMap[value].fieldType.kind == kind
    else if ruleName == "eqfieldsecure" then
      value != "" && value in fieldMap && kind == String && fieldMap[value].fieldType.kind == String
    else true
  }

  /** `validateRuleParams` refuses a parameter exactly when it is not acceptable. */
  lemma ParamsAcceptedExactly(ruleName: string, f: ValidationField, value: string,
    structName: string, fieldMap: map<string, ValidationField>)
    ensures ValidateRuleParams(ruleName, f, value, structName, fieldMap).None? <==>
      AcceptableParam(ruleName, f.fieldType.kind, value, fieldMap)
  {
  }

  /** gt, gte, lt and lte: an empty value is reported first, whatever the kind; then a
      non-integer kind; then a value that is not a base-10 int64. */
  lemma ComparisonOutcome(ruleName: string, f: ValidationField, value: string,
    structName: string, fieldMap: map<string, ValidationField>)
    requires ruleName in ComparisonKeys
    ensures var r := ValidateRuleParams(ruleName, f, value, structName, fieldMap);
      && (value == "" ==>
            r == Some(Diagnostic(Invalid, "rule '" + ruleName + "' requires a numeric value", f, structName, ruleName)))
      && (value != "" && f.fieldType.kind !in IntegerTypes ==>
            r == Some(Diagnostic(Incompatible, "rule '" + ruleName + "' can only be used with integer types",
                                 f, structName, ruleName)))
      && (value != "" && f.fieldType.kind in IntegerTypes && ParseInt64(value).None? ==>
            r == Some(Diagnostic(Invalid, "rule '" + ruleName + "' value must be a valid integer", f, structName, ruleName)))
  {
  }

  /** minlen, maxlen and len: an empty value, then a value that is not a non-negative int64,
      both as Invalid, whatever the field's kind. */
  lemma LengthOutcome(ruleName: string, f: ValidationField, value: string,
    structName: string, fieldMap: map<string, ValidationField>)
    requires ruleName in LengthKeys
    ensures var r := ValidateRuleParams(ruleName, f, value, structName, fieldMap);
      && (value == "" ==>
            r == Some(Diagnostic(Invalid, "rule '" + ruleName + "' requires a numeric value", f, structName, ruleName)))
      && (value != "" && (ParseInt64(value).None? || ParseInt64(value).value < 0) ==>
            r == Some(Diagnostic(Invalid, "rule '" + ruleName + "' value must be a non-negative integer",
                                 f, structName, ruleName)))
      && (r.Some? ==> r.value.errorType == Invalid)
  {
  }

  /** eqfield: an empty value is Invalid, a name that is not a field of the struct is Missing,
      a field of another kind is Incompatible and names both kinds. */
  lemma EqualFieldOutcome(f: ValidationField, value: string, structName: string,
    fieldMap: map<string, ValidationField>)
    ensures var r := ValidateRuleParams("eqfield", f, value, structName, fieldMap);
      && (value == "" ==>
            r == Some(Diagnostic(Invalid, "eqfield rule requires a field name", f, structName, "eqfield")))
      && (value != "" && value !in fieldMap ==>
            r == Some(Diagnostic(Missing, "eqfield references unknown field '" + value + "'", f, structName, "eqfield")))
      && (value != "" && value in fieldMap && fieldMap[value].fieldType.kind != f.fieldType.kind ==>
            r == Some(Diagnostic(Incompatible, "eqfield field types must match: '" + KindName(f.fieldType.kind) +
                                 "' vs '" + KindName(fieldMap[value].fieldType.kind) + "'", f, structName, "eqfield")))
  {
  }

  /** eqfieldsecure: the same chain, except that both fields must be strings. */
  lemma SecureEqualOutcome(f: ValidationField, value: string, structName: string,
    fieldMap: map<string, ValidationField>)
    ensures var r := ValidateRuleParams("eqfieldsecure", f, value, structName, fieldMap);
      && (value == "" ==>
            r == Some(Diagnostic(Invalid, "eqfieldsecure rule requires a field name", f, structName, "eqfieldsecure")))
      && (value != "" && value !in fieldMap ==>
            r == Some(Diagnostic(Missing, "eqfieldsecure references unknown field '" + value + "'",
                                 f, structName, "eqfieldsecure")))
      && (value != "" && value in fieldMap &&
          (f.fieldType.kind != String || fieldMap[value].fieldType.kind != String) ==>
            r == Some(Diagnostic(Incompatible, "eqfieldsecure can only be used with string fields",
                                 f, structName, "eqfieldsecure")))
  {
  }

  /** The decision `checkField` takes for one rule key and its value: unknown rule, then
      unsupported kind, then the parameter check. */
  function RuleDiagnostic(rules: map<string, RuleId>, f: ValidationField, structName: string,
    fieldMap: map<string, ValidationField>, name: string, value: string): Option<CompilerError>
  {
    if name !in rules then
      Some(Diagnostic(Missing, "unknown validation rule '" + name + "'", f, structName, name))
    else if !SupportsType(rules[name], f.fieldType) then
      Some(Diagnostic(Incompatible, "rule '" + name + "' is not compatible with type '" +
        KindName(f.fieldType.kind) + "'", f, structName, name))
    else ValidateRuleParams(name, f, value, structName, fieldMap)
  }

  /** A rule key passes exactly when it is registered, its rule supports the field's type and
      its parameter is acceptable. An unregistered key is reported as Missing and an
      unsupported kind as Incompatible naming the kind; neither reaches the parameter check. */
  lemma RuleOutcome(rules: map<string, RuleId>, f: ValidationField, structName: string,
    fieldMap: map<string, ValidationField>, name: string, value: string)
    ensures var r := RuleDiagnostic(rules, f, structName, fieldMap, name, value);
      && (r.None? <==>
            name in rules && SupportsType(rules[name], f.fieldType) &&
            AcceptableParam(name, f.fieldType.kind, value, fieldMap))
      && (name !in rules ==>
            r == Some(Diagnostic(Missing, "unknown validation rule '" + name + "'", f, structName, name)))
      && (name in rules && !SupportsType(rules[name], f.fieldType) ==>
            r == Some(Diagnostic(Incompatible, "rule '" + name + "' is not compatible with type '" +
                                 KindName(f.fieldType.kind) + "'", f, structName, name)))
  {
    ParamsAcceptedExactly(name, f, value, structName, fieldMap);
  }

  /** With the built-in registry the integer-kind test of `validateRuleParams` never fires:
      gt, gte, lt and lte are bound to rules that support integer kinds only, so a field of
      another kind is refused one step earlier, and the only Incompatible diagnostic these
      keys can get is the one naming the field's kind. */
  lemma IntegerCheckUnreachable(f: ValidationField, structName: string,
    fieldMap: map<string, ValidationField>, name: string, value: string)
    requires name in ComparisonKeys
    ensures var r := RuleDiagnostic(BuiltinRules, f, structName, fieldMap, name, value);
      r.Some? && r.value.errorType == Incompatible ==>
        r == Some(Diagnostic(Incompatible, "rule '" + name + "' is not compatible with type '" +
                             KindName(f.fieldType.kind) + "'", f, structName, name))
  {
    BuiltinRulesExactly(name);
    var r := BuiltinRules[name];
    assert r == GreaterThan || r == LessThan;
  }

  function OptionalSeq(o: Option<CompilerError>): (s: seq<CompilerError>)
    ensures |s| <= 1
  {
    if o.Some? then [o.value] else []
  }

  /** The keys of `order` are rule keys of `f`. */
  predicate KeysIn(order: seq<string>, f: ValidationField)
  {
    forall k :: k in order ==> k in f.rules
  }

  /** The diagnostics `checkField` collects when the map iteration visits `f.rules` in the
      order `order`. */
  function DiagnosticsInOrder(rules: map<string, RuleId>, f: ValidationField, structName: string,
    fieldMap: map<string, ValidationField>, order: seq<string>): seq<CompilerError>
    requires KeysIn(order, f)
  {
    if order == [] then []
    else
      var name := order[|order| - 1];
      DiagnosticsInOrder(rules, f, structName, fieldMap, order[..|order| - 1]) +
        OptionalSeq(RuleDiagnostic(rules, f, structName, fieldMap, name, f.rules[name]))
  }

  /** At most one diagnostic per visited key, and each one is about this field and struct and
      names one of the visited keys. */
  lemma {:induction false} DiagnosticsBound(rules: map<string, RuleId>, f: ValidationField,
    structName: string, fieldMap: map<string, ValidationField>, order: seq<string>)
    requires KeysIn(order, f)
    ensures |DiagnosticsInOrder(rules, f, structName, fieldMap, order)| <= |order|
    ensures forall d :: d in DiagnosticsInOrder(rules, f, structName, fieldMap, order) ==>
      d.field == f.name && d.structName == structName && d.rule in order && d.position == ""
  {
    if order != [] {
      var init := order[..|order| - 1];
      assert KeysIn(init, f);
      DiagnosticsBound(rules, f, structName, fieldMap, init);
    }
  }

  /** Visiting `a` then `b` collects the diagnostics of `a` then those of `b`. */
  lemma {:induction false} DiagnosticsAppend(rules: map<string, RuleId>, f: ValidationField,
    structName: string, fieldMap: map<string, ValidationField>, a: seq<string>, b: seq<string>)
    requires KeysIn(a, f) && KeysIn(b, f)
    ensures KeysIn(a + b, f)
    ensures DiagnosticsInOrder(rules, f, structName, fieldMap, a + b) ==
      DiagnosticsInOrder(rules, f, structName, fieldMap, a) +
      DiagnosticsInOrder(rules, f, structName, fieldMap, b)
  {
    if b == [] {
      assert a + b == a;
    } else {
      var init := b[..|b| - 1];
      assert KeysIn(init, f);
      DiagnosticsAppend(rules, f, structName, fieldMap, a, init);
      assert (a + b)[..|a + b| - 1] == a + init;
      assert (a + b)[|a + b| - 1] == b[|b| - 1];
    }
  }

  /** The iteration order does not matter up to permutation: two visits of the same keys
      collect the same diagnostics, possibly in another order. */
  lemma {:induction false} DiagnosticsPermutation(rules: map<string, RuleId>, f: ValidationField,
    structName: string, fieldMap: map<string, ValidationField>, o1: seq<string>, o2: seq<string>)
    requires KeysIn(o1, f) && multiset(o1) == multiset(o2)
    ensures KeysIn(o2, f)
    ensures multiset(DiagnosticsInOrder(rules, f, structName, fieldMap, o1)) ==
      multiset(DiagnosticsInOrder(rules, f, structName, fieldMap, o2))
    decreases |o1|
  {
    assert KeysIn(o2, f) by {
      forall k | k in o2 ensures k in f.rules { assert k in multiset(o1); }
    }
    if o1 == [] {
      assert |o2| == |multiset(o1)|;
    } else {
      var init := o1[..|o1| - 1];
      var x := o1[|o1| - 1];
      var before, after := PickLast(o1, o2);
      assert KeysIn(init, f);
      DiagnosticsPermutation(rules, f, structName, fieldMap, init, before + after);
      DiagnosticsLast(rules, f, structName, fieldMap, o1);
      DiagnosticsMoveOut(rules, f, structName, fieldMap, before, x, after);
    }
  }

  /** The last element of `o1` occurs somewhere in its permutation `o2`; the rest of `o2` is a
      permutation of the rest of `o1`. */
  lemma PickLast(o1: seq<string>, o2: seq<string>) returns (before: seq<string>, after: seq<string>)
    requires o1 != [] && multiset(o1) == multiset(o2)
    ensures o2 == before + [o1[|o1| - 1]] + after
    ensures multiset(o1[..|o1| - 1]) == multiset(before + after)
  {
    var n := |o1| - 1;
    var x := o1[n];
    assert o1 == o1[..n] + [x];
    assert multiset(o1) == multiset(o1[..n]) + multiset{x};
    assert x in o2 by { assert x in multiset(o2); }
    var j :| 0 <= j < |o2| && o2[j] == x;
    before, after := o2[..j], o2[j + 1..];
    RemoveAt(o2, j);
    Cancel(multiset(o1[..n]), multiset(before + after), x);
  }

  /** Taking one key out of the middle of a visit takes its diagnostic out of the multiset. */
  lemma DiagnosticsMoveOut(rules: map<string, RuleId>, f: ValidationField, structName: string,
    fieldMap: map<string, ValidationField>, before: seq<string>, x: string, after: seq<string>)
    requires KeysIn(before, f) && KeysIn(after, f) && x in f.rules
    ensures KeysIn(before + [x] + after, f) && KeysIn(before + after, f) && KeysIn([x], f)
    ensures multiset(DiagnosticsInOrder(rules, f, structName, fieldMap, before + [x] + after)) ==
      multiset(DiagnosticsInOrder(rules, f, structName, fieldMap, before + after)) +
      multiset(DiagnosticsInOrder(rules, f, structName, fieldMap, [x]))
  {
    assert KeysIn([x], f);
    DiagnosticsAppend(rules, f, structName, fieldMap, before, after);
    DiagnosticsAppend(rules, f, structName, fieldMap, before, [x]);
    DiagnosticsAppend(rules, f, structName, fieldMap, before + [x], after);
    var dB := DiagnosticsInOrder(rules, f, structName, fieldMap, before);
    var dA := DiagnosticsInOrder(rules, f, structName, fieldMap, after);
    var dX := DiagnosticsInOrder(rules, f, structName, fieldMap, [x]);
    assert multiset((dB + dX) + dA) == multiset(dB) + multiset(dX) + multiset(dA);
    assert multiset(dB + dA) == multiset(dB) + multiset(dA);
  }

  /** Multiset union cancels one element. */
  lemma Cancel(a: multiset<string>, b: multiset<string>, x: string)
    requires a + multiset{x} == b + multiset{x}
    ensures a == b
  {
    forall y ensures a[y] == b[y] {
      assert (a + multiset{x})[y] == a[y] + multiset{x}[y];
      assert (b + multiset{x})[y] == b[y] + multiset{x}[y];
    }
  }

  /** A sequence is its prefix, one element and its suffix, also as a multiset. */
  lemma RemoveAt(s: seq<string>, j: int)
    requires 0 <= j < |s|
    ensures s == s[..j] + [s[j]] + s[j + 1..]
    ensures multiset(s) == multiset(s[..j] + s[j + 1..]) + multiset{s[j]}
  {
    assert s == s[..j] + [s[j]] + s[j + 1..];
  }

  /** The diagnostics of a visit are those of all but the last key, then the last key's. */
  lemma DiagnosticsLast(rules: map<string, RuleId>, f: ValidationField, structName: string,
    fieldMap: map<string, ValidationField>, order: seq<string>)
    requires KeysIn(order, f) && order != []
    ensures KeysIn(order[..|order| - 1], f) && KeysIn([order[|order| - 1]], f)
    ensures DiagnosticsInOrder(rules, f, structName, fieldMap, order) ==
      DiagnosticsInOrder(rules, f, structName, fieldMap, order[..|order| - 1]) +
      DiagnosticsInOrder(rules, f, structName, fieldMap, [order[|order| - 1]])
  {
    var x := order[|order| - 1];
    assert KeysIn([x], f);
    assert [x][..0] == [];
    assert DiagnosticsInOrder(rules, f, structName, fieldMap, [x]) ==
      OptionalSeq(RuleDiagnostic(rules, f, structName, fieldMap, x, f.rules[x]));
  }

  /** Visiting one more key adds its decision at the end. */
  lemma DiagnosticsSnoc(rules: map<string, RuleId>, f: ValidationField, structName: string,
    fieldMap: map<string, ValidationField>, order: seq<string>, name: string)
    requires KeysIn(order, f) && name in f.rules
    ensures KeysIn(order + [name], f)
    ensures DiagnosticsInOrder(rules, f, structName, fieldMap, order + [name]) ==
      DiagnosticsInOrder(rules, f, structName, fieldMap, order) +
      OptionalSeq(RuleDiagnostic(rules, f, structName, fieldMap, name, f.rules[name]))
  {
    assert (order + [name])[..|order|] == order;
  }

  /** The bookkeeping of one step of a visit of `keys` that removes `name` from `remaining`. */
  lemma VisitStep(keys: set<string>, remaining: set<string>, order: seq<string>, name: string)
    requires remaining <= keys && name in remaining
    requires forall k :: k in order ==> k in keys && k !in remaining
    requires NoDuplicates(order) && multiset(order) == multiset(keys - remaining)
    requires |order| + |remaining| == |keys|
    ensures forall k :: k in order + [name] ==> k in keys && k !in remaining - {name}
    ensures NoDuplicates(order + [name])
    ensures multiset(order + [name]) == multiset(keys - (remaining - {name}))
    ensures |order + [name]| + |remaining - {name}| == |keys|
  {
    assert keys - (remaining - {name}) == (keys - remaining) + {name};
    assert name !in keys - remaining;
    assert multiset((keys - remaining) + {name}) == multiset(keys - remaining) + multiset{name};
  }

  /** The diagnostics of `ds` about rule key `name`, in order. */
  function About(ds: seq<CompilerError>, name: string): seq<CompilerError>
  {
    if ds == [] then []
    else
      var d := ds[|ds| - 1];
      About(ds[..|ds| - 1], name) + if d.rule == name then [d] else []
  }

  lemma {:induction false} AboutAppend(a: seq<CompilerError>, b: seq<CompilerError>, name: string)
    ensures About(a + b, name) == About(a, name) + About(b, name)
  {
    if b == [] {
      assert a + b == a;
    } else {
      var init := b[..|b| - 1];
      AboutAppend(a, init, name);
      assert (a + b)[..|a + b| - 1] == a + init;
    }
  }

  lemma {:induction false} AboutNone(ds: seq<CompilerError>, name: string)
    requires forall k :: 0 <= k < |ds| ==> ds[k].rule != name
    ensures About(ds, name) == []
  {
    if ds != [] {
      var init := ds[..|ds| - 1];
      assert forall k :: 0 <= k < |init| ==> init[k] == ds[k];
      AboutNone(init, name);
    }
  }

  lemma {:induction false} AboutAll(ds: seq<CompilerError>, name: string)
    requires forall k :: 0 <= k < |ds| ==> ds[k].rule == name
    ensures About(ds, name) == ds
  {
    if ds != [] {
      var init := ds[..|ds| - 1];
      assert forall k :: 0 <= k < |init| ==> init[k] == ds[k];
      AboutAll(init, name);
      LastSplit(ds);
    }
  }

  /** The decision for a key is a diagnostic about that key. */
  lemma RuleDiagnosticNamesRule(rules: map<string, RuleId>, f: ValidationField, structName: string,
    fieldMap: map<string, ValidationField>, name: string, value: string)
    ensures var d := RuleDiagnostic(rules, f, structName, fieldMap, name, value);
      d.Some? ==> d.value.rule == name
  {
  }

  /** When every key is visited once, the diagnostics about one key are exactly the decision
      taken for it: one diagnostic when it fails, none when it passes. So no key is reported
      twice and a failing key is never lost. */
  lemma {:induction false} DiagnosticsPerRule(rules: map<string, RuleId>, f: ValidationField,
    structName: string, fieldMap: map<string, ValidationField>, order: seq<string>, name: string)
    requires KeysIn(order, f) && NoDuplicates(order) && name in order
    ensures name in f.rules
    ensures About(DiagnosticsInOrder(rules, f, structName, fieldMap, order), name) ==
      OptionalSeq(RuleDiagnostic(rules, f, structName, fieldMap, name, f.rules[name]))
  {
    var n := |order| - 1;
    var init := order[..n];
    var last := order[n];
    NoDuplicatesInit(order);
    assert KeysIn(init, f);
    RuleDiagnosticNamesRule(rules, f, structName, fieldMap, last, f.rules[last]);
    if last == name {
      AboutUnvisited(rules, f, structName, fieldMap, init, name);
    } else {
      InInit(order, name);
      DiagnosticsPerRule(rules, f, structName, fieldMap, init, name);
    }
    AboutStep(DiagnosticsInOrder(rules, f, structName, fieldMap, init),
      OptionalSeq(RuleDiagnostic(rules, f, structName, fieldMap, last, f.rules[last])), last, name,
      OptionalSeq(RuleDiagnostic(rules, f, structName, fieldMap, name, f.rules[name])));
  }

  /** An element other than the last is in the prefix before it. */
  lemma InInit<T>(s: seq<T>, x: T)
    requires x in s && x != s[|s| - 1]
    ensures x in s[..|s| - 1]
  {
    LastSplit(s);
  }

  /** The diagnostics about `name` once `tail`, all about key `last`, is appended to `head`. */
  lemma AboutStep(head: seq<CompilerError>, tail: seq<CompilerError>, last: string, name: string,
    want: seq<CompilerError>)
    requires forall k :: 0 <= k < |tail| ==> tail[k].rule == last
    requires last == name ==> About(head, name) == [] && want == tail
    requires last != name ==> About(head, name) == want
    ensures About(head + tail, name) == want
  {
    AboutAppend(head, tail, name);
    if last == name {
      AboutAll(tail, name);
    } else {
      AboutNone(tail, name);
    }
  }

  /** A key not yet visited has no diagnostic about it. */
  lemma AboutUnvisited(rules: map<string, RuleId>, f: ValidationField, structName: string,
    fieldMap: map<string, ValidationField>, order: seq<string>, name: string)
    requires KeysIn(order, f) && name !in order
    ensures About(DiagnosticsInOrder(rules, f, structName, fieldMap, order), name) == []
  {
    var ds := DiagnosticsInOrder(rules, f, structName, fieldMap, order);
    DiagnosticsBound(rules, f, structName, fieldMap, order);
    assert forall k :: 0 <= k < |ds| ==> ds[k] in ds;
    AboutNone(ds, name);
  }

  /** Dropping the last element keeps the rest free of duplicates, and the last is not among them. */
  lemma NoDuplicatesInit<T>(s: seq<T>)
    requires NoDuplicates(s) && s != []
    ensures NoDuplicates(s[..|s| - 1]) && s[|s| - 1] !in s[..|s| - 1]
  {
    var n := |s| - 1;
    forall k | 0 <= k < n ensures s[..n][k] != s[n] { assert s[..n][k] == s[k]; }
  }

  /** The field map of `CheckStruct`: each Go field name bound to its field; a later field
      with the same name replaces an earlier one. */
  function FieldMapOf(fields: seq<ValidationField>): map<string, ValidationField>
  {
    if fields == [] then map[]
    else FieldMapOf(fields[..|fields| - 1])[fields[|fields| - 1].name := fields[|fields| - 1]]
  }

  /** A name is in the field map iff some field has it, and it leads to the last such field. */
  lemma {:induction false} FieldMapLastWins(fields: seq<ValidationField>, name: string)
    ensures name in FieldMapOf(fields) <==> exists i :: 0 <= i < |fields| && fields[i].name == name
    ensures name in FieldMapOf(fields) ==>
      exists i :: (0 <= i < |fields| && FieldMapOf(fields)[name] == fields[i] && fields[i].name == name &&
                   forall j :: i < j < |fields| ==> fields[j].name != name)
  {
    if fields != [] {
      var n := |fields| - 1;
      var init := fields[..n];
      var m := FieldMapOf(init);
      assert FieldMapOf(fields) == m[fields[n].name := fields[n]];
      if fields[n].name == name {
        assert FieldMapOf(fields)[name] == fields[n];
      } else {
        FieldMapLastWins(init, name);
        assert forall i :: 0 <= i < n ==> init[i] == fields[i];
        if name in m {
          var i :| (0 <= i < n && m[name] == init[i] && init[i].name == name &&
                    forall j :: i < j < n ==> init[j].name != name);
          assert FieldMapOf(fields)[name] == fields[i];
        }
      }
    }
  }

  /** Each order visits rule keys of its field. */
  predicate OrdersFit(fields: seq<ValidationField>, orders: seq<seq<string>>)
  {
    |orders| == |fields| && forall i :: 0 <= i < |fields| ==> KeysIn(orders[i], fields[i])
  }

  /** `CheckStruct`: the diagnostics of each field in declared order, concatenated. */
  function StructDiagnostics(rules: map<string, RuleId>, structName: string,
    fieldMap: map<string, ValidationField>, fields: seq<ValidationField>,
    orders: seq<seq<string>>): seq<CompilerError>
    requires OrdersFit(fields, orders)
  {
    if fields == [] then []
    else
      var n := |fields| - 1;
      StructDiagnostics(rules, structName, fieldMap, fields[..n], orders[..n]) +
        DiagnosticsInOrder(rules, fields[n], structName, fieldMap, orders[n])
  }

  /** The number of rule keys over all fields. */
  function TotalRules(fields: seq<ValidationField>): nat
  {
    if fields == [] then 0 else TotalRules(fields[..|fields| - 1]) + |fields[|fields| - 1].rules|
  }

  /** A struct gets at most one diagnostic per declared rule key, each about the struct, one
      of its fields and one of that field's rule keys. */
  lemma {:induction false} StructBound(rules: map<string, RuleId>, structName: string,
    fieldMap: map<string, ValidationField>, fields: seq<ValidationField>, orders: seq<seq<string>>)
    requires OrdersFit(fields, orders)
    requires forall i :: 0 <= i < |fields| ==> |orders[i]| == |fields[i].rules|
    ensures |StructDiagnostics(rules, structName, fieldMap, fields, orders)| <= TotalRules(fields)
    ensures forall d :: d in StructDiagnostics(rules, structName, fieldMap, fields, orders) ==>
      d.structName == structName &&
      exists i :: 0 <= i < |fields| && d.field == fields[i].name && d.rule in fields[i].rules
  {
    if fields != [] {
      var n := |fields| - 1;
      assert OrdersFit(fields[..n], orders[..n]);
      StructBound(rules, structName, fieldMap, fields[..n], orders[..n]);
      DiagnosticsBound(rules, fields[n], structName, fieldMap, orders[n]);
      forall d | d in StructDiagnostics(rules, structName, fieldMap, fields, orders)
        ensures exists i :: 0 <= i < |fields| && d.field == fields[i].name && d.rule in fields[i].rules
      {
        if d in StructDiagnostics(rules, structName, fieldMap, fields[..n], orders[..n]) {
          var i :| 0 <= i < n && d.field == fields[..n][i].name && d.rule in fields[..n][i].rules;
          assert fields[..n][i] == fields[i];
        } else {
          assert d.field == fields[n].name && d.rule in fields[n].rules;
        }
      }
    }
  }

  /** Whatever order each field's rules are visited in, a struct gets the same diagnostics up
      to permutation. */
  lemma {:induction false} StructPermutation(rules: map<string, RuleId>, structName: string,
    fieldMap: map<string, ValidationField>, fields: seq<ValidationField>,
    o1: seq<seq<string>>, o2: seq<seq<string>>)
    requires OrdersFit(fields, o1) && |o2| == |fields|
    requires forall i :: 0 <= i < |fields| ==> multiset(o1[i]) == multiset(o2[i])
    ensures OrdersFit(fields, o2)
    ensures multiset(StructDiagnostics(rules, structName, fieldMap, fields, o1)) ==
      multiset(StructDiagnostics(rules, structName, fieldMap, fields, o2))
  {
    forall i | 0 <= i < |fields| ensures KeysIn(o2[i], fields[i]) {
      DiagnosticsPermutation(rules, fields[i], structName, fieldMap, o1[i], o2[i]);
    }
    if fields != [] {
      var n := |fields| - 1;
      assert OrdersFit(fields[..n], o1[..n]);
      StructPermutation(rules, structName, fieldMap, fields[..n], o1[..n], o2[..n]);
      DiagnosticsPermutation(rules, fields[n], structName, fieldMap, o1[n], o2[n]);
    }
  }

  /** Extending the struct by one field adds that field's diagnostics at the end. */
  lemma StructSnoc(rules: map<string, RuleId>, structName: string,
    fieldMap: map<string, ValidationField>, fields: seq<ValidationField>, orders: seq<seq<string>>,
    f: ValidationField, order: seq<string>)
    requires OrdersFit(fields, orders) && KeysIn(order, f)
    ensures OrdersFit(fields + [f], orders + [order])
    ensures StructDiagnostics(rules, structName, fieldMap, fields + [f], orders + [order]) ==
      StructDiagnostics(rules, structName, fieldMap, fields, orders) +
      DiagnosticsInOrder(rules, f, structName, fieldMap, order)
  {
    assert (fields + [f])[..|fields|] == fields;
    assert (orders + [order])[..|orders|] == orders;
  }

  /** One step of `CheckStruct`'s field loop: field `i` joins the checked prefix. */
  lemma StructStep(rules: map<string, RuleId>, structName: string,
    fieldMap: map<string, ValidationField>, fields: seq<ValidationField>, i: int,
    orders: seq<seq<string>>, order: seq<string>)
    requires 0 <= i < |fields| && OrdersFit(fields[..i], orders) && VisitsOnce(order, fields[i])
    requires forall j :: 0 <= j < i ==> VisitsOnce(orders[j], fields[j])
    ensures OrdersFit(fields[..i + 1], orders + [order])
    ensures forall j :: 0 <= j < i + 1 ==> VisitsOnce((orders + [order])[j], fields[j])
    ensures StructDiagnostics(rules, structName, fieldMap, fields[..i + 1], orders + [order]) ==
      StructDiagnostics(rules, structName, fieldMap, fields[..i], orders) +
      DiagnosticsInOrder(rules, fields[i], structName, fieldMap, order)
  {
    StructSnoc(rules, structName, fieldMap, fields[..i], orders, fields[i], order);
    PrefixSnoc(fields, i);
  }

  /** `order` visits every rule key of `f` exactly once. */
  predicate VisitsOnce(order: seq<string>, f: ValidationField)
  {
    KeysIn(order, f) && NoDuplicates(order) && multiset(order) == multiset(f.rules.Keys) &&
    |order| == |f.rules|
  }

  /** `TypeChecker`: the checks run against one registry, which they only read. */
  class Checker {
    const registry: RuleRegistry

    constructor (registry: RuleRegistry)
      ensures this.registry == registry
    {
      this.registry := registry;
    }

    /** `checkField`: visits every rule key of `f` once, in an unspecified order `order`, and
        collects the decision for each. */
    method CheckField(f: ValidationField, structName: string, fieldMap: map<string, ValidationField>)
      returns (errors: seq<CompilerError>, ghost order: seq<string>)
      ensures VisitsOnce(order, f)
      ensures errors == DiagnosticsInOrder(registry.rules, f, structName, fieldMap, order)
    {
      var list := new ErrorList();
      ghost var rules := registry.rules;
      var remaining := f.rules.Keys;
      order := [];
      while remaining != {}
        invariant remaining <= f.rules.Keys
        invariant forall k :: k in order ==> k in f.rules.Keys && k !in remaining
        invariant NoDuplicates(order)
        invariant multiset(order) == multiset(f.rules.Keys - remaining)
        invariant |order| + |remaining| == |f.rules.Keys|
        invariant registry.rules == rules
        invariant list.items == DiagnosticsInOrder(rules, f, structName, fieldMap, order)
        decreases |remaining|
      {
        var ruleName :| ruleName in remaining;
        var ruleValue := f.rules[ruleName];
        DiagnosticsSnoc(rules, f, structName, fieldMap, order, ruleName);
        VisitStep(f.rules.Keys, remaining, order, ruleName);
        CheckRule(list, f, structName, fieldMap, ruleName, ruleValue);
        order := order + [ruleName];
        remaining := remaining - {ruleName};
      }
      errors := list.items;
    }

    /** The body of `checkField`'s loop for one rule key: adds the diagnostic for it, if any. */
    method CheckRule(list: ErrorList, f: ValidationField, structName: string,
      fieldMap: map<string, ValidationField>, ruleName: string, ruleValue: string)
      modifies list
      ensures list.items == old(list.items) +
        OptionalSeq(RuleDiagnostic(registry.rules, f, structName, fieldMap, ruleName, ruleValue))
    {
      var rule := registry.GetForTypeCheck(ruleName);
      var found: Option<CompilerError>;
      if rule.None? {
        found := Some(Diagnostic(Missing, "unknown validation rule '" + ruleName + "'", f, structName, ruleName));
      } else if !SupportsType(rule.value, f.fieldType) {
        found := Some(Diagnostic(Incompatible, "rule '" + ruleName + "' is not compatible with type '" +
          KindName(f.fieldType.kind) + "'", f, structName, ruleName));
      } else {
        found := ValidateRuleParams(ruleName, f, ruleValue, structName, fieldMap);
      }
      assert found == RuleDiagnostic(registry.rules, f, structName, fieldMap, ruleName, ruleValue);
      if found.Some? {
        ghost var before := list.items;
        list.Add(found.value);
        assert list.items == before + [found.value];
      }
    }

    /** `CheckStruct`: builds the field map, then concatenates the diagnostics of every field
        in declared order. */
    method CheckStruct(s: ValidationStruct) returns (errors: seq<CompilerError>, ghost orders: seq<seq<string>>)
      ensures OrdersFit(s.fields, orders)
      ensures forall i :: 0 <= i < |s.fields| ==> VisitsOnce(orders[i], s.fields[i])
      ensures errors == StructDiagnostics(registry.rules, s.name, FieldMapOf(s.fields), s.fields, orders)
    {
      var fieldMap: map<string, ValidationField> := map[];
      for i := 0 to |s.fields|
        invariant fieldMap == FieldMapOf(s.fields[..i])
      {
        assert s.fields[..i + 1][..i] == s.fields[..i];
        fieldMap := fieldMap[s.fields[i].name := s.fields[i]];
      }
      assert s.fields[..|s.fields|] == s.fields;
      errors := [];
      orders := [];
      for i := 0 to |s.fields|
        invariant OrdersFit(s.fields[..i], orders)
        invariant forall j :: 0 <= j < i ==> VisitsOnce(orders[j], s.fields[j])
        invariant errors == StructDiagnostics(registry.rules, s.name, fieldMap, s.fields[..i], orders)
      {
        var fieldErrors, order := CheckField(s.fields[i], s.name, fieldMap);
        StructStep(registry.rules, s.name, fieldMap, s.fields, i, orders, order);
        errors := errors + fieldErrors;
        orders := orders + [order];
      }
      assert s.fields[..|s.fields|] == s.fields;
    }
  }
}

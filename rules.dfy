/** The nine built-in validation rules (internal/rules/required.go, strings.go,
    comparison.go, email.go, string_secure.go): metadata, supported kinds and the
    code each one emits into a `CodeBuilder`. */
module Rules {
  import opened VTypes
  import opened TypeSets
  import opened Builder
  import opened GoStrings
  import opened Seqs

  /** The identity of a built-in rule (one per Go rule type). */
  datatype RuleId =
    | Required
    | MinLen | MaxLen | Len
    | GreaterThan | LessThan | EqualField
    | Email
    | EqualFieldSecure

  /** `Name()`: a key that can be written in a `validate` tag, in lower case. */
  function Name(r: RuleId): (n: string)
    ensures n != [] && forall i :: 0 <= i < |n| ==> 'a' <= n[i] <= 'z'
  {
    match r
    case Required => "required"
    case MinLen => "minlen"
    case MaxLen => "maxlen"
    case Len => "len"
    case GreaterThan => "gt"
    case LessThan => "lt"
    case EqualField => "eqfield"
    case Email => "email"
    case EqualFieldSecure => "eqfieldsecure"
  }

  /** `Aliases()`: only the two comparison rules have one, their inclusive form. */
  function Aliases(r: RuleId): (a: seq<string>)
    ensures a != [] <==> r == GreaterThan || r == LessThan
    ensures |a| <= 1 && Name(r) !in a
  {
    match r
    case GreaterThan => ["gte"]
    case LessThan => ["lte"]
    case _ => []
  }

  /** `Priority()`: lower runs first. `required` alone has the lowest priority, and the
      cross-field rules the highest. */
  function Priority(r: RuleId): (p: int)
    ensures 1 <= p <= 5
    ensures p == 1 <==> r == Required
    ensures p == 2 <==> r == MinLen || r == MaxLen || r == Len || r == Email
    ensures p == 3 <==> r == GreaterThan || r == LessThan
    ensures p == 5 <==> r == EqualField || r == EqualFieldSecure
  {
    match r
    case Required => 1
    case MinLen | MaxLen | Len | Email => 2
    case GreaterThan | LessThan => 3
    case EqualField | EqualFieldSecure => 5
  }

  /** `RequiredImports()`: at most the one package the secure comparison calls. */
  function RequiredImports(r: RuleId): (imports: seq<string>)
    ensures |imports| <= 1 && forall k :: 0 <= k < |imports| ==> imports[k] == "crypto/subtle"
  {
    if r == EqualFieldSecure then ["crypto/subtle"] else []
  }

  /** `SupportsType()`: every supported kind is one of `AllTypes`, so no rule takes an unknown
      kind or a struct. */
  function SupportsType(r: RuleId, ft: FieldType): (b: bool)
    ensures b ==> ft.kind in AllTypes
  {
    match r
    case Required => ft.kind in StringTypes || ft.kind in IntegerTypes
    case MinLen | MaxLen | Len | Email | EqualFieldSecure => ft.kind in StringTypes
    case GreaterThan | LessThan => ft.kind in IntegerTypes
    case EqualField => ft.kind in AllTypes
  }

  /** The registry keys of a rule: its aliases, then its name. */
  function Keys(r: RuleId): seq<string>
  {
    Aliases(r) + [Name(r)]
  }

  /** Only `eqfieldsecure` needs an import, and that import is "crypto/subtle". */
  lemma ImportsOnlyForSecureCompare(r: RuleId)
    ensures RequiredImports(r) != [] <==> r == EqualFieldSecure
    ensures RequiredImports(EqualFieldSecure) == ["crypto/subtle"]
  {
  }

  /** Support depends on the kind alone (pointer and slice flags are ignored), and no
      rule supports `Unknown` or `Struct`. */
  lemma SupportIgnoresWrappers(r: RuleId, ft: FieldType)
    ensures SupportsType(r, ft) == SupportsType(r, FieldType(ft.kind, false, false))
    ensures ft.kind == Unknown || ft.kind == Struct ==> !SupportsType(r, ft)
  {
  }

  /** The support table: required takes string and integers; minlen, maxlen, len, email and
      eqfieldsecure take string; gt and lt take integers; eqfield takes every primitive. */
  lemma SupportTable(r: RuleId, ft: FieldType)
    ensures r == Required ==> (SupportsType(r, ft) <==> ft.kind == String || IsIntegerKind(ft.kind))
    ensures r in {MinLen, MaxLen, Len, Email, EqualFieldSecure} ==> (SupportsType(r, ft) <==> ft.kind == String)
    ensures r in {GreaterThan, LessThan} ==> (SupportsType(r, ft) <==> IsIntegerKind(ft.kind))
    ensures r == EqualField ==> (SupportsType(r, ft) <==> ft.kind != Unknown && ft.kind != Struct)
  {
  }

  // ---------------------------------------------------------------------------
  // Emitted text

  /** One emitted line, with its depth relative to the builder's level at the call. */
  datatype Line = Line(depth: nat, text: string)

  /** The text the builder gains when `lines` are written starting at `level`. */
  function Render(level: nat, lines: seq<Line>): string
  {
    if lines == [] then ""
    else LineAt(level + lines[0].depth, lines[0].text) + Render(level, lines[1..])
  }

  lemma {:induction false} RenderAppend(level: nat, a: seq<Line>, b: seq<Line>)
    ensures Render(level, a + b) == Render(level, a) + Render(level, b)
  {
    if a == [] {
      assert a + b == b;
    } else {
      assert (a + b)[0] == a[0] && (a + b)[1..] == a[1..] + b;
      RenderAppend(level, a[1..], b);
    }
  }

  /** Rendering a leading line, then the rest. */
  lemma RenderCons(level: nat, line: Line, rest: seq<Line>)
    ensures Render(level, [line] + rest) == LineAt(level + line.depth, line.text) + Render(level, rest)
  {
    assert ([line] + rest)[0] == line && ([line] + rest)[1..] == rest;
  }

  function Quote(s: string): string
  {
    "\"" + s + "\""
  }

  /** The generated call that records one field error: JSON name, message expression and
      the offending value. */
  function FieldErrorCall(jsonName: string, message: string, name: string): string
  {
    "verr.AddFieldError(" + Quote(jsonName) + ", " + message + ", v." + name + ")"
  }

  /** An `if <cond> {` block around one field-error call. */
  function Check(cond: string, call: string): seq<Line>
  {
    [Line(0, "if " + cond + " {"), Line(1, call), Line(0, "}")]
  }

  /** A check whose message is a literal string. */
  function MessageCheck(f: ValidationField, cond: string, message: string): seq<Line>
  {
    Check(cond, FieldErrorCall(f.jsonName, Quote(message), f.name))
  }

  /** The rule keys whose presence in a field's rules triggers a check. */
  datatype Key = KMinLen | KMaxLen | KLen | KGt | KGte | KLt | KLte | KEqField | KEqFieldSecure

  function KeyName(k: Key): string
  {
    match k
    case KMinLen => "minlen"
    case KMaxLen => "maxlen"
    case KLen => "len"
    case KGt => "gt"
    case KGte => "gte"
    case KLt => "lt"
    case KLte => "lte"
    case KEqField => "eqfield"
    case KEqFieldSecure => "eqfieldsecure"
  }

  /** The message of the check for key `k` with parameter `param`. */
  function Message(k: Key, jsonName: string, param: string): string
  {
    match k
    case KMinLen => jsonName + " must be at least " + param + " characters"
    case KMaxLen => jsonName + " must be at most " + param + " characters"
    case KLen => jsonName + " must be exactly " + param + " characters"
    case KGt => jsonName + " must be greater than " + param
    case KGte => jsonName + " must be greater than or equal to " + param
    case KLt => jsonName + " must be less than " + param
    case KLte => jsonName + " must be less than or equal to " + param
    case KEqField | KEqFieldSecure => jsonName + " must match " + param
  }

  /** The Go condition under which the check for `k` reports an error. */
  function Condition(k: Key, name: string, param: string): string
  {
    match k
    case KMinLen => "len(v." + name + ") < " + param
    case KMaxLen => "len(v." + name + ") > " + param
    case KLen => "len(v." + name + ") != " + param
    case KGt => "v." + name + " <= " + param
    case KGte => "v." + name + " < " + param
    case KLt => "v." + name + " >= " + param
    case KLte => "v." + name + " > " + param
    case KEqField => "v." + name + " != v." + param
    case KEqFieldSecure => "subtle.ConstantTimeCompare([]byte(v." + name + "), []byte(v." + param + ")) == 0"
  }

  /** The check for `k` when the field carries that key, nothing otherwise. */
  function KeyedCheck(f: ValidationField, k: Key): seq<Line>
  {
    var key := KeyName(k);
    if key in f.rules
    then MessageCheck(f, Condition(k, f.name, f.rules[key]), Message(k, f.jsonName, f.rules[key]))
    else []
  }

  function RequiredLines(f: ValidationField): seq<Line>
  {
    var k := f.fieldType.kind;
    if k == String then MessageCheck(f, "v." + f.name + " == \"\"", f.jsonName + " is required")
    else if IsIntegerKind(k) then MessageCheck(f, "v." + f.name + " == 0", f.jsonName + " is required")
    else []
  }

  /** The email check calls the generated support package, which is always named `valgen`. */
  function EmailLines(f: ValidationField): seq<Line>
  {
    [Line(0, "err := valgen.ValidateEmail(v." + f.name + ")")]
      + Check("err != nil", FieldErrorCall(f.jsonName, "err.Error()", f.name))
  }

  /** Everything `Generate` writes for rule `r` on field `f`. */
  function Emission(r: RuleId, f: ValidationField): seq<Line>
  {
    match r
    case Required => RequiredLines(f)
    case MinLen => KeyedCheck(f, KMinLen)
    case MaxLen => KeyedCheck(f, KMaxLen)
    case Len => KeyedCheck(f, KLen)
    case GreaterThan => KeyedCheck(f, KGt) + KeyedCheck(f, KGte)
    case LessThan => KeyedCheck(f, KLt) + KeyedCheck(f, KLte)
    case EqualField => KeyedCheck(f, KEqField)
    case Email => EmailLines(f)
    case EqualFieldSecure => KeyedCheck(f, KEqFieldSecure)
  }

  // ---------------------------------------------------------------------------
  // Properties of the emitted text

  /** A keyed check is one three-line block when the key is present and nothing otherwise. */
  lemma KeyedCheckSize(f: ValidationField, k: Key)
    ensures |KeyedCheck(f, k)| == if KeyName(k) in f.rules then 3 else 0
  {
  }

  /** The check keys of a keyed rule, in the order `Generate` tests them. */
  function CheckKeys(r: RuleId): (ks: seq<Key>)
    requires r !in {Required, Email}
    ensures |ks| == |Keys(r)|
  {
    match r
    case MinLen => [KMinLen]
    case MaxLen => [KMaxLen]
    case Len => [KLen]
    case GreaterThan => [KGt, KGte]
    case LessThan => [KLt, KLte]
    case EqualField => [KEqField]
    case EqualFieldSecure => [KEqFieldSecure]
  }

  /** A keyed rule tests exactly its registry keys: its name and its aliases. */
  lemma CheckKeysAreKeys(r: RuleId)
    requires r !in {Required, Email}
    ensures forall k :: k in CheckKeys(r) <==> KeyName(k) in Keys(r)
  {
  }

  /** A keyed rule emits one three-line check per key the field carries, and so nothing at
      all exactly when the field carries none of its keys. */
  lemma KeyedEmission(r: RuleId, f: ValidationField)
    requires r !in {Required, Email}
    ensures |Emission(r, f)| == 3 * |set k | k in Keys(r) && k in f.rules|
    ensures Emission(r, f) == [] <==> forall k :: k in Keys(r) ==> k !in f.rules
  {
    match r
    case GreaterThan =>
      assert Keys(r) == [KeyName(KGte), KeyName(KGt)];
      Pair(f, KGt, KGte);
    case LessThan =>
      assert Keys(r) == [KeyName(KLte), KeyName(KLt)];
      Pair(f, KLt, KLte);
    case MinLen =>
      assert Keys(r) == [KeyName(KMinLen)];
      Single(f, KMinLen);
    case MaxLen =>
      assert Keys(r) == [KeyName(KMaxLen)];
      Single(f, KMaxLen);
    case Len =>
      assert Keys(r) == [KeyName(KLen)];
      Single(f, KLen);
    case EqualField =>
      assert Keys(r) == [KeyName(KEqField)];
      Single(f, KEqField);
    case EqualFieldSecure =>
      assert Keys(r) == [KeyName(KEqFieldSecure)];
      Single(f, KEqFieldSecure);
  }

  /** A one-key rule writes one three-line check when the field carries its key, and nothing
      otherwise. */
  lemma Single(f: ValidationField, k: Key)
    ensures |KeyedCheck(f, k)| == 3 * |set key | key in [KeyName(k)] && key in f.rules|
    ensures KeyedCheck(f, k) == [] <==> forall key :: key in [KeyName(k)] ==> key !in f.rules
  {
    KeyedCheckSize(f, k);
    var present := set key | key in [KeyName(k)] && key in f.rules;
    if KeyName(k) in f.rules { assert present == {KeyName(k)}; } else { assert present == {}; }
  }

  /** A two-key rule writes its strict check, then its inclusive one, each three lines long and
      present exactly when the field carries that key. */
  lemma Pair(f: ValidationField, strict: Key, inclusive: Key)
    requires KeyName(strict) != KeyName(inclusive)
    ensures |KeyedCheck(f, strict) + KeyedCheck(f, inclusive)| ==
      3 * |set key | key in [KeyName(inclusive), KeyName(strict)] && key in f.rules|
    ensures KeyedCheck(f, strict) + KeyedCheck(f, inclusive) == [] <==>
      forall key :: key in [KeyName(inclusive), KeyName(strict)] ==> key !in f.rules
  {
    KeyedCheckSize(f, strict);
    KeyedCheckSize(f, inclusive);
    var present := set key | key in [KeyName(inclusive), KeyName(strict)] && key in f.rules;
    var a, b := KeyName(strict), KeyName(inclusive);
    if a in f.rules && b in f.rules { assert present == {a, b}; }
    else if a in f.rules { assert present == {a}; }
    else if b in f.rules { assert present == {b}; }
    else { assert present == {}; }
  }

  /** `required` emits a check exactly when it supports the field's kind. */
  lemma RequiredEmitsWhenSupported(f: ValidationField)
    ensures Emission(Required, f) != [] <==> SupportsType(Required, f.fieldType)
    ensures |Emission(Required, f)| in {0, 3}
  {
    SupportTable(Required, f.fieldType);
  }

  /** `email` always emits its four lines, whatever the field's rules say. */
  lemma EmailAlwaysEmits(f: ValidationField)
    ensures |Emission(Email, f)| == 4
    ensures Emission(Email, f)[0].depth == 0 && Emission(Email, f)[2].depth == 1
  {
  }

  /** Every depth-1 line is a field-error call naming the field's JSON name and reporting
      the field's own value; every other line is a block opener, a block closer or the
      email call. */
  lemma ErrorLinesNameTheField(r: RuleId, f: ValidationField, i: nat)
    requires i < |Emission(r, f)|
    ensures Emission(r, f)[i].depth <= 1
    ensures Emission(r, f)[i].depth == 1 ==>
      exists m :: Emission(r, f)[i].text == FieldErrorCall(f.jsonName, m, f.name)
  {
    var e := Emission(r, f);
    if r == GreaterThan || r == LessThan {
      var a := KeyedCheck(f, if r == GreaterThan then KGt else KLt);
      if i < |a| {
        assert e[i] == a[i];
      } else {
        assert e[i] == KeyedCheck(f, if r == GreaterThan then KGte else KLte)[i - |a|];
      }
    }
  }

  /** What a rule emits reads only the field's names, kind and its own keys: two fields that
      agree on those get the same text, whatever other rules they carry. */
  lemma EmissionIsLocal(r: RuleId, f: ValidationField, g: ValidationField)
    requires f.name == g.name && f.jsonName == g.jsonName && f.fieldType.kind == g.fieldType.kind
    requires forall k :: k in Keys(r) ==> (k in f.rules <==> k in g.rules)
    requires forall k :: k in Keys(r) && k in f.rules ==> f.rules[k] == g.rules[k]
    ensures Emission(r, f) == Emission(r, g)
  {
    if r !in {Required, Email} {
      forall k | k in CheckKeys(r)
        ensures KeyedCheck(f, k) == KeyedCheck(g, k)
      {
        CheckKeysAreKeys(r);
        assert KeyName(k) in Keys(r);
      }
      match r
      case GreaterThan => assert KGt in CheckKeys(r) && KGte in CheckKeys(r);
      case LessThan => assert KLt in CheckKeys(r) && KLte in CheckKeys(r);
      case MinLen => assert KMinLen in CheckKeys(r);
      case MaxLen => assert KMaxLen in CheckKeys(r);
      case Len => assert KLen in CheckKeys(r);
      case EqualField => assert KEqField in CheckKeys(r);
      case EqualFieldSecure => assert KEqFieldSecure in CheckKeys(r);
    }
  }

  /** Rendered text that is not empty ends with a newline, so the next write starts on a line
      of its own. */
  lemma {:induction false} RenderLines(level: nat, lines: seq<Line>)
    requires lines != []
    ensures |Render(level, lines)| > 0 && Render(level, lines)[|Render(level, lines)| - 1] == '\n'
  {
    if |lines| == 1 {
      assert Render(level, lines) == LineAt(level + lines[0].depth, lines[0].text) + "";
    } else {
      RenderLines(level, lines[1..]);
    }
  }

  // ---------------------------------------------------------------------------
  // Generate, as the builder calls the rules make

  /** The shared shape: `Printf(header)`, `Indent`, `Printf(call)`, `Dedent`, `Writeln("}")`. */
  method EmitCheck(cb: CodeBuilder, cond: string, call: string)
    requires cb.Valid()
    modifies cb
    ensures cb.Valid() && cb.indentLevel == old(cb.indentLevel)
    ensures cb.content == old(cb.content) + Render(old(cb.indentLevel), Check(cond, call))
  {
    ghost var level: nat := cb.indentLevel;
    cb.Printf("if " + cond + " {");
    cb.Indent();
    cb.Printf(call);
    cb.Dedent();
    cb.Writeln("}");
    var lines := Check(cond, call);
    assert lines[1..][1..][1..] == [];
    assert Render(level, lines[1..][1..]) == LineAt(level, "}") + "";
    assert Render(level, lines[1..]) == LineAt(level + 1, call) + Render(level, lines[1..][1..]);
    assert Render(level, lines) == LineAt(level, "if " + cond + " {") + Render(level, lines[1..]);
  }

  /** Emits the check for `key` when the field carries it. */
  method GenerateKeyed(cb: CodeBuilder, f: ValidationField, k: Key)
    requires cb.Valid()
    modifies cb
    ensures cb.Valid() && cb.indentLevel == old(cb.indentLevel)
    ensures cb.content == old(cb.content) + Render(old(cb.indentLevel), KeyedCheck(f, k))
  {
    var key := KeyName(k);
    if key in f.rules {
      var param := f.rules[key];
      EmitCheck(cb, Condition(k, f.name, param),
        FieldErrorCall(f.jsonName, Quote(Message(k, f.jsonName, param)), f.name));
    }
  }

  /** `RequiredRule.Generate`. */
  method GenerateRequired(cb: CodeBuilder, f: ValidationField)
    requires cb.Valid()
    modifies cb
    ensures cb.Valid() && cb.indentLevel == old(cb.indentLevel)
    ensures cb.content == old(cb.content) + Render(old(cb.indentLevel), RequiredLines(f))
  {
    var k := f.fieldType.kind;
    var call := FieldErrorCall(f.jsonName, Quote(f.jsonName + " is required"), f.name);
    if k == String {
      EmitCheck(cb, "v." + f.name + " == \"\"", call);
    } else if IsIntegerKind(k) {
      EmitCheck(cb, "v." + f.name + " == 0", call);
    }
  }

  /** `EmailRule.Generate`: unconditional, whatever the field's rules say. */
  method GenerateEmail(cb: CodeBuilder, f: ValidationField)
    requires cb.Valid()
    modifies cb
    ensures cb.Valid() && cb.indentLevel == old(cb.indentLevel)
    ensures cb.content == old(cb.content) + Render(old(cb.indentLevel), EmailLines(f))
  {
    ghost var level: nat := cb.indentLevel;
    ghost var before := cb.content;
    var first := "err := valgen.ValidateEmail(v." + f.name + ")";
    var call := FieldErrorCall(f.jsonName, "err.Error()", f.name);
    cb.Printf(first);
    ghost var middle := cb.content;
    EmitCheck(cb, "err != nil", call);
    ghost var check := Check("err != nil", call);
    RenderCons(level, Line(0, first), check);
    assert EmailLines(f) == [Line(0, first)] + check;
    assert cb.content == middle + Render(level, check);
    AppendAssoc(before, LineAt(level, first), Render(level, check));
  }

  /** `Rule.Generate` for each built-in rule. The struct name is unused by every rule, and
      every rule returns a nil error. */
  method Generate(r: RuleId, cb: CodeBuilder, f: ValidationField, structName: string)
    returns (err: Option<string>)
    requires cb.Valid()
    modifies cb
    ensures err == None
    ensures cb.Valid() && cb.indentLevel == old(cb.indentLevel)
    ensures cb.content == old(cb.content) + Render(old(cb.indentLevel), Emission(r, f))
  {
    err := None;
    match r
    case Required => GenerateRequired(cb, f);
    case MinLen => GenerateKeyed(cb, f, KMinLen);
    case MaxLen => GenerateKeyed(cb, f, KMaxLen);
    case Len => GenerateKeyed(cb, f, KLen);
    case GreaterThan => GenerateOrdered(cb, f, KGt, KGte);
    case LessThan => GenerateOrdered(cb, f, KLt, KLte);
    case EqualField => GenerateKeyed(cb, f, KEqField);
    case Email => GenerateEmail(cb, f);
    case EqualFieldSecure => GenerateKeyed(cb, f, KEqFieldSecure);
  }

  /** `GreaterThanRule.Generate` and `LessThanRule.Generate`: the strict key's check first,
      then the inclusive key's, each only when present. */
  method GenerateOrdered(cb: CodeBuilder, f: ValidationField, strict: Key, inclusive: Key)
    requires cb.Valid()
    modifies cb
    ensures cb.Valid() && cb.indentLevel == old(cb.indentLevel)
    ensures cb.content == old(cb.content) + Render(old(cb.indentLevel), KeyedCheck(f, strict) + KeyedCheck(f, inclusive))
  {
    ghost var level: nat := cb.indentLevel;
    ghost var before := cb.content;
    ghost var a := KeyedCheck(f, strict);
    ghost var b := KeyedCheck(f, inclusive);
    GenerateKeyed(cb, f, strict);
    assert cb.content == before + Render(level, a);
    ghost var middle := cb.content;
    GenerateKeyed(cb, f, inclusive);
    assert cb.content == middle + Render(level, b);
    RenderAppend(level, a, b);
    AppendAssoc(before, Render(level, a), Render(level, b));
  }
}

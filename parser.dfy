/** The tag-parsing helpers of internal/parser/parser.go and the inclusion rule of
    `parseStruct`. The Go AST walk that feeds them is not modelled: a struct arrives as a list
    of fields, each with its names, optional raw tag literal and already classified type. */
module Parser {
  import opened VTypes
  import opened GoStrings
  import opened Seqs

  /** A key and its value, in the order they were read. */
  type Entry = (string, string)

  /** The map a sequence of writes `m[key] = value` builds from an empty map. */
  function MapOf(entries: seq<Entry>): map<string, string>
  {
    if entries == [] then map[]
    else
      var e := entries[|entries| - 1];
      MapOf(entries[..|entries| - 1])[e.0 := e.1]
  }

  lemma MapOfSnoc(entries: seq<Entry>, e: Entry)
    ensures MapOf(entries + [e]) == MapOf(entries)[e.0 := e.1]
  {
    assert (entries + [e])[..|entries|] == entries;
  }

  /** Appending an entry, if there is one, writes it into the map; appending nothing leaves the
      map as it was. */
  lemma MapOfOptional(before: seq<Entry>, after: seq<Entry>, e: Option<Entry>)
    requires after == before + if e.Some? then [e.value] else []
    ensures MapOf(after) == if e.Some? then MapOf(before)[e.value.0 := e.value.1] else MapOf(before)
  {
    if e.Some? {
      MapOfSnoc(before, e.value);
    } else {
      assert after == before;
    }
  }

  /** A key is bound iff some entry has it, and it is bound to the value of the last such
      entry: later duplicates overwrite earlier ones. */
  lemma {:induction false} MapOfLastWins(entries: seq<Entry>, k: string)
    ensures k in MapOf(entries) <==> exists i :: 0 <= i < |entries| && entries[i].0 == k
    ensures k in MapOf(entries) ==>
      exists i :: (0 <= i < |entries| && entries[i].0 == k && MapOf(entries)[k] == entries[i].1 &&
                   forall j :: i < j < |entries| ==> entries[j].0 != k)
  {
    if entries != [] {
      var n := |entries| - 1;
      var init := entries[..n];
      MapOfLastWins(init, k);
      if entries[n].0 != k && k in MapOf(init) {
        var i :| (0 <= i < n && init[i].0 == k && MapOf(init)[k] == init[i].1 &&
                  forall j :: i < j < n ==> init[j].0 != k);
        assert entries[i] == init[i];
      }
      if exists i :: 0 <= i < |entries| && entries[i].0 == k {
        var i :| 0 <= i < |entries| && entries[i].0 == k;
        if i < n { assert init[i] == entries[i]; }
      }
    }
  }

  // ---------------------------------------------------------------- parseStructTags

  /** What one whitespace-separated part of a struct tag contributes: nothing without a ':',
      otherwise the text before the first ':' as key and the rest as value, with one pair of
      surrounding double quotes removed. */
  function TagEntry(part: string): Option<Entry>
  {
    var colon := IndexOf(part, ':');
    if colon == -1 then None
    else
      var value := part[colon + 1..];
      if |value| >= 2 && value[0] == '"' && value[|value| - 1] == '"' then
        Some((part[..colon], value[1..|value| - 1]))
      else Some((part[..colon], value))
  }

  /** `part` is the key, a colon and the value, the value possibly in double quotes. */
  predicate Spells(part: string, e: Entry)
  {
    part == e.0 + ":" + e.1 || part == e.0 + ":\"" + e.1 + "\""
  }

  /** A part yields an entry iff it has a colon; the key never holds one, and the part spells
      the entry. */
  lemma TagEntryShape(part: string)
    ensures TagEntry(part).None? <==> ':' !in part
    ensures TagEntry(part).Some? ==> ':' !in TagEntry(part).value.0 && Spells(part, TagEntry(part).value)
  {
    if ':' in part {
      var colon := IndexOf(part, ':');
      var k, value := part[..colon], part[colon + 1..];
      assert part == k + ":" + value by {
        CutAt(part, colon);
      }
      if |value| >= 2 && value[0] == '"' && value[|value| - 1] == '"' {
        QuotedSpelling(k, value);
      }
    }
  }

  lemma QuotedSpelling(k: string, value: string)
    requires |value| >= 2 && value[0] == '"' && value[|value| - 1] == '"'
    ensures k + ":" + value == k + ":\"" + value[1..|value| - 1] + "\""
  {
    var v := value[1..|value| - 1];
    assert value == "\"" + v + "\"";
    assert ":" + value == ":\"" + v + "\"";
  }

  /** The usual `key:"value"` form reads back as the key and the value. */
  lemma TagEntryRoundTrip(k: string, v: string)
    requires ':' !in k
    ensures TagEntry(k + ":\"" + v + "\"") == Some((k, v))
  {
    var part := k + ":\"" + v + "\"";
    assert part == k + [':'] + ("\"" + v + "\"");
    IndexAfterPrefix(k, ':', "\"" + v + "\"");
    assert part[|k| + 1..] == "\"" + v + "\"";
    assert part[..|k|] == k;
  }

  /** The first `c` of `p + [c] + s` is the one after `p` when `p` has none. */
  lemma IndexAfterPrefix(p: string, c: char, s: string)
    requires c !in p
    ensures IndexOf(p + [c] + s, c) == |p|
  {
    var t := p + [c] + s;
    assert t[..|p|] == p;
    IndexOfUnique(t, c, |p|);
  }

  /** The entries of the parts, in order, skipping parts without a colon. */
  function TagEntries(parts: seq<string>): seq<Entry>
  {
    if parts == [] then []
    else
      var e := TagEntry(parts[|parts| - 1]);
      TagEntries(parts[..|parts| - 1]) + if e.Some? then [e.value] else []
  }

  lemma TagEntriesSnoc(parts: seq<string>, i: int)
    requires 0 <= i < |parts|
    ensures TagEntries(parts[..i + 1]) ==
      TagEntries(parts[..i]) + if TagEntry(parts[i]).Some? then [TagEntry(parts[i]).value] else []
  {
    assert parts[..i + 1][..i] == parts[..i];
  }

  /** The map `parseStructTags` returns for a tag literal without its backquotes. */
  function TagMap(tag: string): map<string, string>
  {
    MapOf(TagEntries(Fields(tag)))
  }

  /** One more part updates the tag map with its entry, if it has one. */
  lemma TagMapStep(parts: seq<string>, i: int)
    requires 0 <= i < |parts|
    ensures var e := TagEntry(parts[i]);
      MapOf(TagEntries(parts[..i + 1])) ==
        if e.Some? then MapOf(TagEntries(parts[..i]))[e.value.0 := e.value.1]
        else MapOf(TagEntries(parts[..i]))
  {
    TagEntriesSnoc(parts, i);
    MapOfOptional(TagEntries(parts[..i]), TagEntries(parts[..i + 1]), TagEntry(parts[i]));
  }

  /** The body of `parseStructTags`' loop for one part: the key before the first ':' and the
      value after it, without surrounding double quotes; nothing without a ':'. */
  method ReadTagPart(part: string) returns (found: bool, key: string, value: string)
    ensures found <==> TagEntry(part).Some?
    ensures found ==> TagEntry(part) == Some((key, value))
  {
    var colonIndex := IndexOf(part, ':');
    if colonIndex == -1 {
      return false, "", "";
    }
    key := part[..colonIndex];
    value := part[colonIndex + 1..];
    if |value| >= 2 && value[0] == '"' && value[|value| - 1] == '"' {
      value := value[1..|value| - 1];
    }
    found := true;
  }

  /** `parseStructTags`: splits the tag at white space and binds each `key:value` part, the
      last binding of a key winning. */
  method ParseStructTags(tag: string) returns (tags: map<string, string>)
    ensures tags == TagMap(tag)
  {
    tags := map[];
    var parts := Fields(tag);
    for i := 0 to |parts|
      invariant tags == MapOf(TagEntries(parts[..i]))
    {
      TagMapStep(parts, i);
      var found, key, value := ReadTagPart(parts[i]);
      if found {
        tags := tags[key := value];
      }
    }
    assert parts[..|parts|] == parts;
  }

  // ---------------------------------------------------------------- parseValidationRules

  /** What one comma-separated piece of a `validate` tag contributes once trimmed: nothing when
      empty, `key=value` split at the first '=', or a bare key with the empty value. */
  function RuleEntry(piece: string): Option<Entry>
  {
    var part := TrimSpace(piece);
    if part == "" then None
    else
      var eq := IndexOf(part, '=');
      if eq == -1 then Some((part, "")) else Some((part[..eq], part[eq + 1..]))
  }

  /** A piece yields an entry iff it is not blank. The key never holds '='; the value may. The
      trimmed piece is the key alone (with the empty value) or the key, '=' and the value. */
  lemma RuleEntryShape(piece: string)
    ensures RuleEntry(piece).None? <==> TrimSpace(piece) == ""
    ensures RuleEntry(piece).Some? ==>
      var (k, v) := RuleEntry(piece).value;
      '=' !in k &&
      (if '=' in TrimSpace(piece) then TrimSpace(piece) == k + "=" + v
       else TrimSpace(piece) == k && v == "")
  {
    var part := TrimSpace(piece);
    if part != "" {
      var eq := IndexOf(part, '=');
      if eq == -1 {
        assert RuleEntry(piece) == Some((part, ""));
      } else {
        var k, v := part[..eq], part[eq + 1..];
        assert RuleEntry(piece) == Some((k, v));
        CutAt(part, eq);
        assert part == k + "=" + v;
      }
    }
  }

  /** `key=value` reads back as the key and the value when the key has no '=' and neither end
      of the piece is white space; the value may itself contain '='. */
  lemma RuleEntryRoundTrip(k: string, v: string)
    requires k != [] && !IsSpace(k[0]) && '=' !in k
    requires v == [] || !IsSpace(v[|v| - 1])
    ensures RuleEntry(k + "=" + v) == Some((k, v))
  {
    var piece := k + "=" + v;
    assert piece == k + ['='] + v;
    assert piece[0] == k[0];
    assert piece[|piece| - 1] == if v == [] then '=' else v[|v| - 1];
    TrimSpaceUnchanged(piece);
    IndexAfterPrefix(k, '=', v);
    assert piece[..|k|] == k && piece[|k| + 1..] == v;
  }

  /** A bare rule name reads back with the empty value. */
  lemma BareRuleRoundTrip(k: string)
    requires k != [] && !IsSpace(k[0]) && !IsSpace(k[|k| - 1]) && '=' !in k
    ensures RuleEntry(k) == Some((k, ""))
  {
    TrimSpaceUnchanged(k);
  }

  /** The entries of the pieces, in order, skipping blank ones. */
  function RuleEntries(pieces: seq<string>): seq<Entry>
  {
    if pieces == [] then []
    else
      var e := RuleEntry(pieces[|pieces| - 1]);
      RuleEntries(pieces[..|pieces| - 1]) + if e.Some? then [e.value] else []
  }

  lemma RuleEntriesSnoc(pieces: seq<string>, i: int)
    requires 0 <= i < |pieces|
    ensures RuleEntries(pieces[..i + 1]) ==
      RuleEntries(pieces[..i]) + if RuleEntry(pieces[i]).Some? then [RuleEntry(pieces[i]).value] else []
  {
    assert pieces[..i + 1][..i] == pieces[..i];
  }

  /** The rule map `parseValidationRules` returns for a `validate` tag value. */
  function RulesOf(validateTag: string): map<string, string>
  {
    MapOf(RuleEntries(Split(validateTag, ',')))
  }

  /** One more piece updates the rule map with its entry, if it has one. */
  lemma RulesMapStep(pieces: seq<string>, i: int)
    requires 0 <= i < |pieces|
    ensures var e := RuleEntry(pieces[i]);
      MapOf(RuleEntries(pieces[..i + 1])) ==
        if e.Some? then MapOf(RuleEntries(pieces[..i]))[e.value.0 := e.value.1]
        else MapOf(RuleEntries(pieces[..i]))
  {
    RuleEntriesSnoc(pieces, i);
    MapOfOptional(RuleEntries(pieces[..i]), RuleEntries(pieces[..i + 1]), RuleEntry(pieces[i]));
  }

  /** The body of `parseValidationRules`' loop for one piece: nothing when blank once trimmed,
      otherwise the key and the value split at the first '=', or the bare key with "". */
  method ReadRulePiece(piece: string) returns (found: bool, key: string, value: string)
    ensures found <==> RuleEntry(piece).Some?
    ensures found ==> RuleEntry(piece) == Some((key, value))
  {
    var part := TrimSpace(piece);
    if part == "" {
      return false, "", "";
    }
    var eq := IndexOf(part, '=');
    if eq != -1 {
      return true, part[..eq], part[eq + 1..];
    }
    return true, part, "";
  }

  /** `parseValidationRules`: splits at ',' and binds each non-blank trimmed piece. */
  method ParseValidationRules(validateTag: string) returns (rules: map<string, string>)
    ensures rules == RulesOf(validateTag)
  {
    rules := map[];
    var parts := Split(validateTag, ',');
    for i := 0 to |parts|
      invariant rules == MapOf(RuleEntries(parts[..i]))
    {
      RulesMapStep(parts, i);
      var found, key, value := ReadRulePiece(parts[i]);
      if found {
        rules := rules[key := value];
      }
    }
    assert parts[..|parts|] == parts;
  }

  /** The text of a rule list written as `k=v` pieces joined by commas. */
  function RenderRules(entries: seq<Entry>): string
  {
    JoinWith(RenderPieces(entries), ',')
  }

  function RenderPieces(entries: seq<Entry>): (pieces: seq<string>)
    ensures |pieces| == |entries|
  {
    if entries == [] then []
    else
      var e := entries[|entries| - 1];
      RenderPieces(entries[..|entries| - 1]) + [e.0 + "=" + e.1]
  }

  /** A rule entry that survives being written as `k=v` and read back. */
  predicate WellFormedRule(e: Entry)
  {
    e.0 != [] && !IsSpace(e.0[0]) && '=' !in e.0 && ',' !in e.0 && ',' !in e.1 &&
    (e.1 == [] || !IsSpace(e.1[|e.1| - 1]))
  }

  /** Round trip: writing a list of well-formed rules as a `validate` tag and parsing it gives
      the map those rules build, the last duplicate winning; no rules give the empty tag and
      back the empty map. */
  lemma RulesRoundTrip(entries: seq<Entry>)
    requires forall e :: e in entries ==> WellFormedRule(e)
    ensures RulesOf(RenderRules(entries)) == MapOf(entries)
  {
    if entries == [] {
      assert RenderRules(entries) == "";
      assert Split("", ',') == [""];
      return;
    }
    var pieces := RenderPieces(entries);
    PiecesAvoidComma(entries);
    JoinSplit(pieces, ',');
    RuleEntriesOfPieces(entries);
  }

  lemma {:induction false} PiecesAvoidComma(entries: seq<Entry>)
    requires forall e :: e in entries ==> WellFormedRule(e)
    ensures forall k :: 0 <= k < |RenderPieces(entries)| ==> ',' !in RenderPieces(entries)[k]
  {
    if entries != [] {
      var n := |entries| - 1;
      var init, e := entries[..n], entries[n];
      assert forall x :: x in init ==> x in entries;
      PiecesAvoidComma(init);
      assert WellFormedRule(e);
      var p := e.0 + "=" + e.1;
      assert ',' !in p;
      assert RenderPieces(entries) == RenderPieces(init) + [p];
    }
  }

  lemma {:induction false} RuleEntriesOfPieces(entries: seq<Entry>)
    requires forall e :: e in entries ==> WellFormedRule(e)
    ensures RuleEntries(RenderPieces(entries)) == entries
  {
    if entries != [] {
      var n := |entries| - 1;
      var init, e := entries[..n], entries[n];
      WellFormedParts(entries);
      RuleEntriesOfPieces(init);
      var pieces := RenderPieces(entries);
      assert pieces == RenderPieces(init) + [e.0 + "=" + e.1];
      RuleEntryRoundTrip(e.0, e.1);
      RuleEntriesSnoc(pieces, n);
      assert pieces[..n] == RenderPieces(init);
      assert pieces[..n + 1] == pieces;
      LastSplit(entries);
    }
  }

  lemma WellFormedParts(entries: seq<Entry>)
    requires entries != [] && forall e :: e in entries ==> WellFormedRule(e)
    ensures forall e :: e in entries[..|entries| - 1] ==> WellFormedRule(e)
    ensures WellFormedRule(entries[|entries| - 1])
  {
    assert forall x :: x in entries[..|entries| - 1] ==> x in entries;
  }

  // ---------------------------------------------------------------- toSnakeCase

  /** The text `toSnakeCase` builds before lowering: a '_' before every upper-case ASCII
      letter except at the start. */
  function Underscored(s: string): string
  {
    if s == [] then []
    else
      var c := s[|s| - 1];
      Underscored(s[..|s| - 1]) + (if |s| > 1 && IsUpperAscii(c) then "_" else "") + [c]
  }

  /** `toSnakeCase`, with `strings.ToLower` restricted to ASCII. */
  function SnakeCase(s: string): string
  {
    ToLowerAscii(Underscored(s))
  }

  /** `toSnakeCase`: a loop over the characters appending into a builder, then lowering. */
  method ToSnakeCase(s: string) returns (r: string)
    ensures r == SnakeCase(s)
  {
    var result := "";
    for i := 0 to |s|
      invariant result == Underscored(s[..i])
    {
      assert s[..i + 1][..i] == s[..i];
      if i > 0 && 'A' <= s[i] <= 'Z' {
        result := result + "_";
      }
      result := result + [s[i]];
    }
    assert s[..|s|] == s;
    r := ToLowerAscii(result);
  }

  /** The snake-case name holds no upper-case ASCII letter. */
  lemma SnakeCaseIsLower(s: string)
    ensures forall k :: 0 <= k < |SnakeCase(s)| ==> !IsUpperAscii(SnakeCase(s)[k])
  {
  }

  /** Removing every `c` from a string. */
  function Without(s: string, c: char): (r: string)
    ensures c !in r
  {
    if s == [] then []
    else Without(s[..|s| - 1], c) + if s[|s| - 1] == c then [] else [s[|s| - 1]]
  }

  lemma WithoutSnoc(x: string, d: char, c: char)
    ensures Without(x + [d], c) == Without(x, c) + if d == c then [] else [d]
  {
    assert (x + [d])[..|x|] == x;
  }

  /** The underscores are the only insertion: for a name without '_' removing them gives back
      the name. */
  lemma {:induction false} UnderscoresOnlyInserted(s: string)
    requires '_' !in s
    ensures Without(Underscored(s), '_') == s
  {
    if s != [] {
      var n := |s| - 1;
      var c := s[n];
      var sep: string := if |s| > 1 && IsUpperAscii(c) then "_" else "";
      assert '_' !in s[..n];
      UnderscoresOnlyInserted(s[..n]);
      var w := Underscored(s[..n]);
      var u := w + sep;
      assert Underscored(s) == u + [c];
      assert c != '_' by { assert c == s[n]; }
      WithoutSnoc(u, c, '_');
      assert Without(u, '_') == Without(w, '_') by {
        if sep != [] {
          WithoutSnoc(w, '_', '_');
        } else {
          assert u == w;
        }
      }
      LastSplit(s);
    }
  }

  /** The number of upper-case ASCII letters after the first character. */
  function InnerCapitals(s: string): nat
  {
    if |s| <= 1 then 0
    else InnerCapitals(s[..|s| - 1]) + if IsUpperAscii(s[|s| - 1]) then 1 else 0
  }

  /** One '_' is added per inner capital, and nothing else changes length. */
  lemma {:induction false} SnakeCaseLength(s: string)
    ensures |SnakeCase(s)| == |s| + InnerCapitals(s)
  {
    UnderscoredLength(s);
  }

  lemma {:induction false} UnderscoredLength(s: string)
    ensures |Underscored(s)| == |s| + InnerCapitals(s)
  {
    if s != [] {
      UnderscoredLength(s[..|s| - 1]);
    }
  }

  /** A name whose only capital, if any, is its first letter is just lowered: "Pwd1" gives
      "pwd1". */
  lemma {:induction false} NoInnerCapitals(s: string)
    requires forall k :: 1 <= k < |s| ==> !IsUpperAscii(s[k])
    ensures Underscored(s) == s
    ensures SnakeCase(s) == ToLowerAscii(s)
  {
    if s != [] {
      var n := |s| - 1;
      NoInnerCapitals(s[..n]);
      assert s == s[..n] + [s[n]];
    }
  }

  // ---------------------------------------------------------------- getJSONName

  /** `getJSONName`: the part of the json tag before the first ',' unless it is empty or "-",
      otherwise the snake-case Go name. */
  function JsonName(tags: map<string, string>, fieldName: string): string
  {
    if "json" in tags && Split(tags["json"], ',')[0] != "" && Split(tags["json"], ',')[0] != "-" then
      Split(tags["json"], ',')[0]
    else SnakeCase(fieldName)
  }

  /** The JSON name overrides the Go name exactly when the json tag starts with a usable
      name; that name stops at the first ',' and holds none. */
  lemma JsonNameChoice(tags: map<string, string>, fieldName: string)
    ensures var j := if "json" in tags then IndexOf(tags["json"], ',') else -1;
      var first := if "json" in tags then (if j == -1 then tags["json"] else tags["json"][..j]) else "";
      && ("json" in tags && first != "" && first != "-" ==> JsonName(tags, fieldName) == first)
      && (("json" !in tags || first == "" || first == "-") ==> JsonName(tags, fieldName) == SnakeCase(fieldName))
      && ',' !in first
  {
    if "json" in tags {
      SplitPiecesAvoidSeparator(tags["json"], ',');
    }
  }

  /** `getJSONName` as it is called: a loop-free choice, then `toSnakeCase` when needed. */
  method GetJsonName(tags: map<string, string>, fieldName: string) returns (r: string)
    ensures r == JsonName(tags, fieldName)
  {
    if "json" in tags {
      var parts := Split(tags["json"], ',');
      if |parts| > 0 && parts[0] != "" && parts[0] != "-" {
        return parts[0];
      }
    }
    r := ToSnakeCase(fieldName);
  }

  // ---------------------------------------------------------------- inferTypeFromAST

  /** The AST shapes `inferTypeFromAST` distinguishes. */
  datatype TypeExpr = Ident(name: string) | Star(x: TypeExpr) | ArrayOf(elt: TypeExpr) | OtherExpr

  /** `inferTypeFromAST`: the primitive identifiers by name, through pointers and arrays. */
  function InferType(e: TypeExpr): (k: TypeKind)
    ensures k != Struct
  {
    match e
    case Ident(name) =>
      if name == "string" then String
      else if name == "int" then Int
      else if name == "int8" then Int8
      else if name == "int16" then Int16
      else if name == "int32" then Int32
      else if name == "int64" then Int64
      else if name == "uint" then Uint
      else if name == "uint8" then Uint8
      else if name == "uint16" then Uint16
      else if name == "uint32" then Uint32
      else if name == "uint64" then Uint64
      else if name == "float32" then Float32
      else if name == "float64" then Float64
      else if name == "bool" then Bool
      else Unknown
    case Star(x) => InferType(x)
    case ArrayOf(elt) => InferType(elt)
    case OtherExpr => Unknown
  }

  /** Round trip with `TypeKind.String()`: each kind from String to Bool is read back from its
      own name ... */
  lemma IdentOfKindName(k: TypeKind)
    requires k != Unknown && k != Struct
    ensures InferType(Ident(KindName(k))) == k
  {
  }

  /** ... and an identifier gets a kind only when it is that kind's name, so "byte", "rune",
      "struct" or a named type give Unknown. */
  lemma KindNameOfIdent(name: string)
    ensures InferType(Ident(name)) != Unknown ==> KindName(InferType(Ident(name))) == name
  {
  }

  /** The identifier under any number of pointer and array layers. */
  function Innermost(e: TypeExpr): TypeExpr
  {
    match e
    case Star(x) => Innermost(x)
    case ArrayOf(elt) => Innermost(elt)
    case _ => e
  }

  /** Pointers and arrays are seen through at every depth. */
  lemma {:induction false} InferThroughWrappers(e: TypeExpr)
    ensures InferType(e) == InferType(Innermost(e))
    ensures Innermost(e).Ident? || Innermost(e).OtherExpr?
  {
    match e
    case Star(x) => InferThroughWrappers(x);
    case ArrayOf(elt) => InferThroughWrappers(elt);
    case Ident(_) =>
    case OtherExpr =>
  }

  // ---------------------------------------------------------------- parseStruct

  /** One field of a struct declaration: its names (none for an embedded field), its raw tag
      literal if any, and its type as `extractFieldType` classified it. */
  datatype AstField = AstField(names: seq<string>, tag: Option<string>, fieldType: FieldType)

  /** The tag map of a field that has a tag. */
  function TagsOf(f: AstField): map<string, string>
    requires f.tag.Some?
  {
    TagMap(TrimChar(f.tag.value, '`'))
  }

  /** A field takes part in validation iff its tag has a `validate` key. */
  predicate Validated(f: AstField)
  {
    f.tag.Some? && "validate" in TagsOf(f)
  }

  /** The descriptor `parseStruct` makes for one declared name, given the field's type, its
      tag map and the rules of its `validate` key. */
  function Describe(fieldName: string, fieldType: FieldType, tags: map<string, string>,
                    rules: map<string, string>): ValidationField
  {
    ValidationField(fieldName, fieldType, JsonName(tags, fieldName), rules)
  }

  /** The descriptors of a field: one per declared name when it is validated, none otherwise. */
  function EntriesFor(f: AstField): seq<ValidationField>
  {
    if !Validated(f) then []
    else
      var tags := TagsOf(f);
      NamesEntries(f.names, f.fieldType, tags, RulesOf(tags["validate"]))
  }

  function NamesEntries(names: seq<string>, fieldType: FieldType, tags: map<string, string>,
                        rules: map<string, string>): (r: seq<ValidationField>)
    ensures |r| == |names|
  {
    if names == [] then []
    else NamesEntries(names[..|names| - 1], fieldType, tags, rules) + [Describe(names[|names| - 1], fieldType, tags, rules)]
  }

  lemma {:induction false} NamesEntriesAt(names: seq<string>, fieldType: FieldType, tags: map<string, string>,
                                          rules: map<string, string>, i: int)
    requires 0 <= i < |names|
    ensures NamesEntries(names, fieldType, tags, rules)[i] == Describe(names[i], fieldType, tags, rules)
  {
    var n := |names| - 1;
    if i < n {
      NamesEntriesAt(names[..n], fieldType, tags, rules, i);
      assert names[..n][i] == names[i];
    }
  }

  /** A validated field gives one descriptor per declared name, in order, with the field's
      type, the JSON name its tags give that name and the rules of its `validate` key; any
      other field gives none. */
  lemma EntriesForMeaning(f: AstField)
    ensures !Validated(f) ==> EntriesFor(f) == []
    ensures Validated(f) ==>
      var tags := TagsOf(f);
      && |EntriesFor(f)| == |f.names|
      && forall i :: 0 <= i < |f.names| ==>
           EntriesFor(f)[i] == ValidationField(f.names[i], f.fieldType, JsonName(tags, f.names[i]), RulesOf(tags["validate"]))
  {
    if Validated(f) {
      var tags := TagsOf(f);
      forall i | 0 <= i < |f.names|
        ensures EntriesFor(f)[i] == Describe(f.names[i], f.fieldType, tags, RulesOf(tags["validate"]))
      {
        NamesEntriesAt(f.names, f.fieldType, tags, RulesOf(tags["validate"]), i);
      }
    }
  }

  /** The descriptors of all fields, in declaration order. */
  function FieldsOf(fields: seq<AstField>): seq<ValidationField>
  {
    if fields == [] then []
    else FieldsOf(fields[..|fields| - 1]) + EntriesFor(fields[|fields| - 1])
  }

  /** The names of the validated fields, in declaration order. */
  function ValidatedNames(fields: seq<AstField>): seq<string>
  {
    if fields == [] then []
    else
      var f := fields[|fields| - 1];
      ValidatedNames(fields[..|fields| - 1]) + if Validated(f) then f.names else []
  }

  /** The Go names of a list of descriptors. */
  function Names(vfs: seq<ValidationField>): (r: seq<string>)
    ensures |r| == |vfs|
  {
    if vfs == [] then [] else Names(vfs[..|vfs| - 1]) + [vfs[|vfs| - 1].name]
  }

  lemma {:induction false} NamesAppend(a: seq<ValidationField>, b: seq<ValidationField>)
    ensures Names(a + b) == Names(a) + Names(b)
  {
    if b == [] {
      assert a + b == a;
    } else {
      var n := |b| - 1;
      NamesAppend(a, b[..n]);
      assert (a + b)[..|a + b| - 1] == a + b[..n];
    }
  }

  lemma {:induction false} NamesOfEntries(names: seq<string>, fieldType: FieldType, tags: map<string, string>,
                                          rules: map<string, string>)
    ensures Names(NamesEntries(names, fieldType, tags, rules)) == names
  {
    if names != [] {
      var n := |names| - 1;
      NamesOfEntries(names[..n], fieldType, tags, rules);
      var es := NamesEntries(names, fieldType, tags, rules);
      assert es[..n] == NamesEntries(names[..n], fieldType, tags, rules);
      LastSplit(names);
    }
  }

  /** There is one descriptor per declared name of a validated field, in declaration order. */
  lemma {:induction false} FieldsOfNames(fields: seq<AstField>)
    ensures Names(FieldsOf(fields)) == ValidatedNames(fields)
  {
    if fields != [] {
      var n := |fields| - 1;
      var init, f := fields[..n], fields[n];
      FieldsOfNames(init);
      NamesAppend(FieldsOf(init), EntriesFor(f));
      if Validated(f) {
        var tags := TagsOf(f);
        NamesOfEntries(f.names, f.fieldType, tags, RulesOf(tags["validate"]));
      }
    }
  }

  /** A descriptor built from field `f`: its type, JSON name and rules come from `f`. */
  predicate FromField(vf: ValidationField, f: AstField)
  {
    Validated(f) && vf.fieldType == f.fieldType && vf.jsonName == JsonName(TagsOf(f), vf.name) &&
    vf.rules == RulesOf(TagsOf(f)["validate"])
  }

  /** Each descriptor of a field is validated by it and carries its type, its JSON name and
      its rules. */
  lemma EntriesOrigin(f: AstField)
    ensures forall vf :: vf in EntriesFor(f) ==> FromField(vf, f)
  {
    EntriesForMeaning(f);
    forall vf | vf in EntriesFor(f) ensures FromField(vf, f) {
      var k :| 0 <= k < |EntriesFor(f)| && EntriesFor(f)[k] == vf;
    }
  }

  /** Every descriptor of the struct is one of the descriptors of some field, so
      `EntriesOrigin` applies to it. */
  lemma {:induction false} FieldsOfOrigin(fields: seq<AstField>)
    ensures forall vf :: vf in FieldsOf(fields) ==> exists j :: 0 <= j < |fields| && vf in EntriesFor(fields[j])
  {
    if fields != [] {
      var n := |fields| - 1;
      var init := fields[..n];
      FieldsOfOrigin(init);
      assert FieldsOf(fields) == FieldsOf(init) + EntriesFor(fields[n]);
      forall vf | vf in FieldsOf(fields) ensures exists j :: 0 <= j < |fields| && vf in EntriesFor(fields[j]) {
        if vf in FieldsOf(init) {
          var j :| 0 <= j < n && vf in EntriesFor(init[j]);
          assert init[j] == fields[j];
        }
      }
    }
  }

  /** Some field has a `validate` key. */
  predicate AnyValidated(fields: seq<AstField>)
  {
    exists i :: 0 <= i < |fields| && Validated(fields[i])
  }

  lemma AnyValidatedSnoc(fields: seq<AstField>, f: AstField)
    ensures AnyValidated(fields + [f]) <==> AnyValidated(fields) || Validated(f)
  {
    var all := fields + [f];
    assert all[|fields|] == f;
    assert forall i :: 0 <= i < |fields| ==> all[i] == fields[i];
  }

  /** What `parseStruct` returns: a descriptor iff some field has a `validate` key. */
  function StructOf(name: string, packageName: string, fields: seq<AstField>): Option<ValidationStruct>
  {
    if AnyValidated(fields) then
      Some(ValidationStruct(name, packageName, FieldsOf(fields)))
    else None
  }

  /** The inner loop of `parseStruct`: one descriptor per declared name. */
  method DescribeNames(names: seq<string>, fieldType: FieldType, tags: map<string, string>,
                       rules: map<string, string>) returns (added: seq<ValidationField>)
    ensures added == NamesEntries(names, fieldType, tags, rules)
  {
    added := [];
    for k := 0 to |names|
      invariant added == NamesEntries(names[..k], fieldType, tags, rules)
    {
      assert names[..k + 1][..k] == names[..k];
      var jsonName := GetJsonName(tags, names[k]);
      added := added + [ValidationField(names[k], fieldType, jsonName, rules)];
    }
    assert names[..|names|] == names;
  }

  /** One field extends the fields already parsed: its descriptors follow theirs, and the
      struct takes part in validation once any field does. */
  lemma ParseStructStep(fields: seq<AstField>, i: int)
    requires 0 <= i < |fields|
    ensures FieldsOf(fields[..i + 1]) == FieldsOf(fields[..i]) + EntriesFor(fields[i])
    ensures AnyValidated(fields[..i + 1]) <==> AnyValidated(fields[..i]) || Validated(fields[i])
  {
    PrefixSnoc(fields, i);
    AnyValidatedSnoc(fields[..i], fields[i]);
  }

  /** The body of `parseStruct`'s loop for one field: skips it without a tag, otherwise parses
      the tag and, when it has a `validate` key, describes each declared name. */
  method ParseField(field: AstField) returns (added: seq<ValidationField>, validated: bool)
    ensures validated == Validated(field)
    ensures added == EntriesFor(field)
  {
    if field.tag.None? {
      return [], false;
    }
    var tagValue := TrimChar(field.tag.value, '`');
    var tags := ParseStructTags(tagValue);
    if "validate" !in tags {
      return [], false;
    }
    var rules := ParseValidationRules(tags["validate"]);
    added := DescribeNames(field.names, field.fieldType, tags, rules);
    validated := true;
  }

  /** `parseStruct`: skips untagged fields, parses each tag and adds one descriptor per name
      of every field with a `validate` key. */
  method ParseStruct(name: string, packageName: string, fields: seq<AstField>)
    returns (r: Option<ValidationStruct>)
    ensures r == StructOf(name, packageName, fields)
  {
    var result: seq<ValidationField> := [];
    var hasValidation := false;
    for i := 0 to |fields|
      invariant result == FieldsOf(fields[..i])
      invariant hasValidation <==> AnyValidated(fields[..i])
    {
      ParseStructStep(fields, i);
      var added, validated := ParseField(fields[i]);
      if validated {
        hasValidation := true;
      }
      result := result + added;
    }
    assert fields[..|fields|] == fields;
    if !hasValidation {
      return None;
    }
    return Some(ValidationStruct(name, packageName, result));
  }
}

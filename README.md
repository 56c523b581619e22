# valforge core in Dafny

valforge is a `go generate` tool. It reads Go structs whose fields carry a `validate`
struct tag such as `validate:"required,minlen=3"`. It checks at generation time that every
rule fits the field it is on, then writes a `Validate()` method per struct. The tool is a
pipeline of five stages over one shared context:

1. **Parse** picks an input (input file, else package directory, else `$GOFILE`). It turns
   each tagged struct into a `ValidationStruct` and chooses the output file name.
2. **Type Check** checks every rule key of every field against the rule registry. It needs
   the rule to exist, to support the field's kind and to have a well-formed parameter. All
   diagnostics are collected, and the stage fails if there are any.
3. **Error Package** fills in the project root, module name and support-package name, then
   writes the support package.
4. **Generate** produces the code text.
5. **Write** writes it to the output file.

The pipeline stops at the first failing stage and wraps its error as
`stage <name> failed: ...`.

The project models:

- the type and diagnostic records (`VTypes`);
- the indenting `CodeBuilder` (`Builder`);
- the kind sets and the nine built-in rules, with the exact lines each rule's `Generate`
  emits (`TypeSets`, `Rules`);
- the registry and its built-in setup (`Registry`);
- the tag parsing and struct descriptor building of the parser (`Parser`), over the Go
  string helpers it uses (`GoStrings`);
- the type checker (`TypeChecker`);
- the stages (`Stages`) and the pipeline (`Valforge`).

State that Go updates in place is a Dafny `class`: the code builder, the registry, the
error list, the type checker, the context and the pipeline. Each method's postcondition
ties the new state to a specification function. The properties are lemmas about those
functions. The main ones:

- each rule emits exactly its checks;
- registration overwrites silently;
- the type checker reports each failing rule key exactly once, whatever order Go's map
  iteration takes;
- the pipeline never generates code after a failed type check;
- parsing a rendered `validate` tag gives back its rules.

Go's map iteration order has no fixed value. Where the source iterates a map (`checkField`,
`GetRequiredImports`, `GetAllForGeneration`), the model lets the method choose any order.
It returns that order as a ghost out-parameter, and the lemmas hold for every order.

Where a comment and the code disagree, the model follows the code. The comment on
`GenerationConfig.ValforgePackage` (internal/vtypes/types.go:93) says the default is
"valforge". The Error Package stage sets "valgen" (internal/pipeline/module_stage.go:34-36),
and so does the model (`Stages.DefaultValforgePackage`).

## Model

| member | source | states |
|---|---|---|
| VTypes.KindName | internal/vtypes/types.go:35-70 | every kind gets a non-empty name with no upper-case letter, and "unknown" is the rendering of `Unknown` alone |
| VTypes.KindNamesDistinct | internal/vtypes/types.go:35-70 | two kinds have the same name exactly when they are the same kind |
| VTypes.CompilerError.Error | internal/vtypes/types.go:119-121 | a diagnostic's text is its message, unchanged |
| VTypes.ErrorsMessage | internal/vtypes/types.go:126-134 | an empty list reads "no errors"; one error gives its message; more give the first message followed by " (and more)" |
| VTypes.HasErrors | internal/vtypes/types.go:140-142 | true exactly when the list is not empty |
| VTypes.ErrorList.constructor | internal/vtypes/types.go:124 | a new list is empty |
| VTypes.ErrorList.Add | internal/vtypes/types.go:136-138 | appends the error at the end; every earlier entry stays where it was |
| Builder.IndentationShape | internal/builder/builder.go:28-30 | indentation at level n is exactly 4n spaces |
| Builder.CodeBuilder.constructor | internal/builder/builder.go:15-19 | a new builder has empty content at level 0 |
| Builder.CodeBuilder.Write | internal/builder/builder.go:22-24 | appends the text verbatim; the level is unchanged |
| Builder.CodeBuilder.Writeln | internal/builder/builder.go:27-33 | appends the current indentation, the text and a newline; the level is unchanged |
| Builder.CodeBuilder.Printf | internal/builder/builder.go:36-38 | the same as `Writeln` of the formatted line |
| Builder.CodeBuilder.Indent | internal/builder/builder.go:41-43 | raises the level by one; the text is unchanged |
| Builder.CodeBuilder.Dedent | internal/builder/builder.go:46-50 | lowers the level by one, except at 0, where nothing changes; the level is never negative |
| Builder.CodeBuilder.Newline | internal/builder/builder.go:53-55 | appends a newline with no indentation |
| Builder.CodeBuilder.String | internal/builder/builder.go:58-60 | returns the accumulated text, character for character |
| Builder.IndentThenDedent | internal/builder/builder.go:41-50 | `Indent` then `Dedent` restores the level and leaves the text alone |
| Builder.DedentAtZero | internal/builder/builder.go:46-50 | on a fresh builder, `Dedent` keeps the level at 0 and writes nothing |
| TypeSets.Contains | internal/rules/interface.go:19-26 | the linear search returns true iff the kind is listed |
| TypeSets.IntegerTypesExactly | internal/rules/interface.go:30-33 | `IntegerTypes` holds exactly the ten signed and unsigned integer kinds |
| TypeSets.IntegerTypesDistinct | internal/rules/interface.go:30-33 | `IntegerTypes` has ten distinct entries |
| TypeSets.AllTypesExactly | internal/rules/interface.go:34-38 | `AllTypes` is string, the integers, float32, float64 and bool, so every kind except Unknown and Struct |
| TypeSets.AllTypesDistinct | internal/rules/interface.go:34-38 | `AllTypes` has 14 distinct entries |
| TypeSets.SetsNested | internal/rules/interface.go:28-38 | the string and integer sets are disjoint and both lie inside `AllTypes`; no set holds Unknown or Struct |
| Rules.Name | internal/rules/interface.go:9 | each rule's name, as its `Name()` returns it, is a non-empty lower-case word |
| Rules.Aliases | internal/rules/interface.go:10 | only `gt` and `lt` have an alias, one each, and no alias repeats its rule's name |
| Rules.Priority | internal/rules/interface.go:11 | the priorities of required.go:11, strings.go:11, 34, 57, email.go:11, comparison.go:11, 45, 78 and string_secure.go:11 lie in 1..5; `required` alone has 1; `minlen`, `maxlen`, `len` and `email` alone have 2; `gt` and `lt` alone have 3; `eqfield` and `eqfieldsecure` alone have 5 |
| Rules.RequiredImports | internal/rules/interface.go:13 | a rule declares at most one import, and it is "crypto/subtle" |
| Rules.SupportsType | internal/rules/interface.go:12 | a supported kind is always one of `AllTypes` |
| Rules.ImportsOnlyForSecureCompare | internal/rules/string_secure.go:12 | only `eqfieldsecure` declares an import, and that import is "crypto/subtle" |
| Rules.SupportIgnoresWrappers | internal/rules/required.go:14-16 | support depends only on the kind, not on the pointer or slice flags; no rule supports Unknown or Struct |
| Rules.SupportTable | internal/rules/comparison.go:15-17 | required takes string and the integers; minlen, maxlen, len, email and eqfieldsecure take string; gt and lt take the integers; eqfield takes every kind in `AllTypes` |
| Rules.RenderAppend | internal/builder/builder.go:27-33 | rendering two line lists one after the other is rendering their concatenation |
| Rules.RenderCons | internal/builder/builder.go:27-33 | rendering a list is rendering its first line at its depth, then the rest |
| Rules.CheckKeys | internal/rules/comparison.go:19-40 | a keyed rule tests as many keys as it has registry keys |
| Rules.CheckKeysAreKeys | internal/rules/comparison.go:19-40 | a keyed rule tests exactly its registry keys, its name and its aliases |
| Rules.KeyedCheckSize | internal/rules/strings.go:19-29 | the check for one key is one three-line block when the field carries the key, and nothing otherwise |
| Rules.KeyedEmission | internal/rules/comparison.go:19-96 | a keyed rule writes three lines per key the field carries, so nothing at all exactly when the field carries none of its keys |
| Rules.Single | internal/rules/strings.go:19-29 | a one-key rule writes three lines when the field carries its key and none otherwise, counted over the set of present keys |
| Rules.Pair | internal/rules/comparison.go:19-40 | a two-key rule writes its strict check, then its inclusive one, three lines for each of its two keys that is present |
| Rules.RequiredEmitsWhenSupported | internal/rules/required.go:18-39 | `required` writes a three-line check exactly when it supports the field's kind, and nothing for other kinds |
| Rules.EmailAlwaysEmits | internal/rules/email.go:19-29 | `email` writes its four lines whatever the field's rules say, with the error call inside the `if` |
| Rules.ErrorLinesNameTheField | internal/rules/comparison.go:19-96 | every indented line a rule writes is a field-error call that names the field's JSON name and passes the field's value; no line is deeper than one level |
| Rules.EmissionIsLocal | internal/rules/strings.go:19-75 | what a rule writes depends only on the field's names, its kind and the values of that rule's own keys |
| Rules.RenderLines | internal/builder/builder.go:27-33 | written lines that are not empty end with a newline, so the next write starts on a new line |
| Rules.EmitCheck | internal/rules/strings.go:21-26 | `Printf(if)`, `Indent`, `Printf(call)`, `Dedent`, `Writeln("}")` writes the three-line check and leaves the level where it was |
| Rules.GenerateKeyed | internal/rules/strings.go:19-29 | writes the check for the key when the field carries it, and nothing otherwise |
| Rules.GenerateRequired | internal/rules/required.go:18-39 | writes `== ""` for strings, `== 0` for the integer kinds, nothing for other kinds |
| Rules.GenerateEmail | internal/rules/email.go:19-29 | writes the `valgen.ValidateEmail` call and its error check unconditionally |
| Rules.GenerateOrdered | internal/rules/comparison.go:19-73 | the strict key's check comes first, then the inclusive key's, each only when present |
| Rules.Generate | internal/rules/interface.go:14 | each built-in rule's `Generate` appends exactly that rule's lines at the current level, leaves the level alone and returns no error |
| Registry.ImportsOfMeaning | internal/rules/registry.go:61-69 | an import is needed exactly when some field names a registered rule that declares it |
| Registry.BindAllMeaning | internal/rules/registry.go:18-24 | registration adds exactly the rule's keys, all bound to the rule, and leaves every other key alone; an earlier binding of those keys is overwritten without notice |
| Registry.RuleRegistry.constructor | internal/rules/registry.go:12-16 | a new registry has no keys |
| Registry.RuleRegistry.Register | internal/rules/registry.go:18-24 | binds each alias, then the name, to the rule, overwriting silently |
| Registry.RuleRegistry.Get | internal/rules/registry.go:26-29 | finds a rule iff the name is bound, and then it is the bound rule |
| Registry.RuleRegistry.GetForTypeCheck | internal/rules/registry.go:31-37 | the same lookup as `Get`: found iff bound, and then the bound rule |
| Registry.RuleRegistry.HasRule | internal/rules/registry.go:78-81 | true iff the name is bound, and so iff `GetForTypeCheck` finds a rule for it |
| Registry.RuleRegistry.LookupsAgree | internal/rules/registry.go:26-37 | `HasRule`, `Get` and `GetForTypeCheck` agree on every name |
| Registry.RuleRegistry.GetAllForGeneration | internal/rules/registry.go:43-56 | the copy has exactly the registry's keys, each bound to the same rule, whatever order the copy visits them in |
| Registry.RuleRegistry.GetRequiredImports | internal/rules/registry.go:58-76 | each import some field's registered rule declares appears exactly once, and nothing else appears; unregistered rule names add nothing |
| Registry.RuleRegistry.CollectFieldImports | internal/rules/registry.go:62-68 | for one field, adds exactly the imports of the registered rules its keys name, whatever order the keys are visited in |
| Registry.SetupRegistry | main.go:45-59 | the nine registrations build exactly the built-in key table |
| Registry.KeysOfOne | internal/rules/registry.go:18-24 | registering a rule without aliases binds only its name |
| Registry.KeysOfTwo | internal/rules/registry.go:18-24 | registering a rule with one alias binds the alias, then the name |
| Registry.BuiltinKeysDisjoint | main.go:47-57 | the nine built-in rules are all registered and share no key, so no built-in registration overwrites another |
| Registry.KeysAreNamesOf | internal/rules/comparison.go:10-13 | each key of a rule names that rule |
| Registry.BuiltinRulesExactly | main.go:45-59 | the built-in registry answers to exactly the names and aliases of the built-in rules, each leading to the rule that owns it |
| Registry.BuiltinRulesSize | main.go:45-59 | the built-in registry has 11 keys |
| Registry.BuiltinImports | internal/rules/registry.go:58-76 | with the built-in registry the only import ever needed is "crypto/subtle", and only when some field carries `eqfieldsecure` |
| TypeChecker.IsIntegerType | internal/typechecker/typechecker.go:196-204 | the switch accepts exactly the kinds of `IntegerTypes` |
| TypeChecker.ValidateRuleParams | internal/typechecker/typechecker.go:78-194 | a diagnostic names this field, struct and rule and has no position; rule names outside the four parameter cases are never refused |
| TypeChecker.ParamsAcceptedExactly | internal/typechecker/typechecker.go:78-194 | the parameter check passes exactly when the value fits the rule: an int64 on an integer field for comparisons, a non-negative int64 for lengths, and an existing field of the right kind for eqfield and eqfieldsecure |
| TypeChecker.ComparisonOutcome | internal/typechecker/typechecker.go:80-109 | gt, gte, lt and lte check an empty value first (Invalid), then a non-integer kind (Incompatible), then a value that is not a base-10 int64 (Invalid), each with its message |
| TypeChecker.LengthOutcome | internal/typechecker/typechecker.go:110-129 | minlen, maxlen and len check an empty value, then a value that is not a non-negative integer, both as Invalid and whatever the kind |
| TypeChecker.EqualFieldOutcome | internal/typechecker/typechecker.go:130-160 | eqfield: an empty value is Invalid, an unknown field is Missing, and a field of another kind is Incompatible with both kinds named |
| TypeChecker.SecureEqualOutcome | internal/typechecker/typechecker.go:161-191 | eqfieldsecure: the same chain, except that both fields must be strings |
| TypeChecker.RuleOutcome | internal/typechecker/typechecker.go:44-72 | a rule key passes iff it is registered, its rule supports the field's type and its parameter passes; an unknown rule is Missing and an unsupported kind is Incompatible, and neither reaches the parameter check |
| TypeChecker.IntegerCheckUnreachable | internal/typechecker/typechecker.go:91-99 | with the built-in registry, the integer-kind test inside the parameter check never fires, because support is checked first |
| TypeChecker.OptionalSeq | internal/typechecker/typechecker.go:70-72 | a rule adds at most one diagnostic |
| TypeChecker.DiagnosticsBound | internal/typechecker/typechecker.go:41-76 | at most one diagnostic per visited key, each about this field and struct and naming one of the visited keys |
| TypeChecker.DiagnosticsAppend | internal/typechecker/typechecker.go:44-73 | visiting one list of keys and then another collects the diagnostics of the first, then those of the second |
| TypeChecker.DiagnosticsPermutation | internal/typechecker/typechecker.go:44 | two visit orders of the same keys collect the same diagnostics up to permutation |
| TypeChecker.PickLast | internal/typechecker/typechecker.go:44 | in a permutation of a visit, the last key sits somewhere, and the rest is a permutation of the rest |
| TypeChecker.DiagnosticsMoveOut | internal/typechecker/typechecker.go:44-73 | taking one key out of a visit takes exactly its diagnostic out of the multiset |
| TypeChecker.DiagnosticsLast | internal/typechecker/typechecker.go:44-73 | a visit collects the diagnostics of all keys but the last, then the last key's |
| TypeChecker.DiagnosticsSnoc | internal/typechecker/typechecker.go:44-73 | visiting one more key adds its decision at the end |
| TypeChecker.VisitStep | internal/typechecker/typechecker.go:44 | one step of the map iteration visits one new key and leaves each key visited at most once |
| TypeChecker.AboutAppend | internal/typechecker/typechecker.go:35 | the diagnostics about one rule in a concatenation are those of each part |
| TypeChecker.AboutNone | internal/typechecker/typechecker.go:44-73 | a list with no diagnostic naming a rule has none about it |
| TypeChecker.AboutAll | internal/typechecker/typechecker.go:44-73 | a list whose diagnostics all name a rule is all about that rule |
| TypeChecker.RuleDiagnosticNamesRule | internal/typechecker/typechecker.go:47-72 | the diagnostic for a key names that key |
| TypeChecker.DiagnosticsPerRule | internal/typechecker/typechecker.go:41-76 | when every key is visited once, a key's diagnostics are exactly its own decision: a failing key is reported exactly once and a passing key never |
| TypeChecker.AboutUnvisited | internal/typechecker/typechecker.go:44-73 | a key not yet visited has no diagnostic |
| TypeChecker.AboutStep | internal/typechecker/typechecker.go:44-73 | the diagnostics about a key after one more key's decisions are appended |
| TypeChecker.NoDuplicatesInit | internal/typechecker/typechecker.go:44 | the keys visited before the last are distinct and do not include the last |
| TypeChecker.FieldMapLastWins | internal/typechecker/typechecker.go:28-31 | a name is in the field map iff some field has it, and it leads to the last such field |
| TypeChecker.StructBound | internal/typechecker/typechecker.go:24-39 | a struct gets at most one diagnostic per declared rule key, each about the struct, one of its fields and one of that field's keys |
| TypeChecker.StructPermutation | internal/typechecker/typechecker.go:33-36 | whatever order each field's keys are visited in, a struct gets the same diagnostics up to permutation |
| TypeChecker.StructSnoc | internal/typechecker/typechecker.go:33-36 | one more field adds that field's diagnostics at the end |
| TypeChecker.StructStep | internal/typechecker/typechecker.go:33-36 | one step of the field loop: field i joins the checked prefix, and its diagnostics follow the prefix's |
| TypeChecker.Checker.constructor | internal/typechecker/typechecker.go:16-22 | the checker keeps the registry it was given |
| TypeChecker.Checker.CheckField | internal/typechecker/typechecker.go:41-76 | visits every rule key of the field exactly once, in some order, and returns the decisions for that order |
| TypeChecker.Checker.CheckRule | internal/typechecker/typechecker.go:45-72 | one turn of the loop appends the key's diagnostic, if any, to the list |
| TypeChecker.Checker.CheckStruct | internal/typechecker/typechecker.go:24-39 | builds the field map, then returns each field's diagnostics in declaration order |
| Stages.Context.constructor | main.go:78-81 | a new context holds the configuration and the registry, with no structs, no output and no errors |
| Stages.InputPrecedence | internal/pipeline/stages.go:27-36 | there is no input iff the input file, the package path and GOFILE are all empty; a non-empty input file wins, then the package path |

| Stages.SelectedConfig | internal/pipeline/stages.go:31-33 | choosing the input changes only the input file, which records GOFILE when that was chosen |
| Stages.SelectionStable | internal/pipeline/stages.go:27-33 | choosing again after a choice picks the same input, whatever GOFILE then says |
| Stages.DefaultOutputInDirectory | internal/pipeline/stages.go:50-54 | "dir/name.go" gets "dir/name_validation.gen.go" |
| Stages.OutputBesideFile | internal/pipeline/stages.go:50-54 | an input file gets its output beside it, named after the file without its extension |
| Stages.SplitPath | internal/pipeline/stages.go:51-52 | a path inside a directory splits at its last '/' into that directory and the file |
| Stages.GoFile | internal/pipeline/stages.go:53 | "name.go" has extension ".go", and removing it gives "name" |
| Stages.DefaultOutputBareFile | internal/pipeline/stages.go:50-54 | a bare "name.go" gets "name_validation.gen.go" in the working directory |
| Stages.DefaultOutputForPackage | internal/pipeline/stages.go:55-57 | a package directory gets "validation.gen.go" inside it |
| Stages.DefaultOutputNotEmpty | internal/pipeline/stages.go:49-58 | the default output name is never empty |
| Stages.ParsedConfig | internal/pipeline/stages.go:46-58 | after a successful parse, the package name is recorded; the output file is defaulted only when none was given; nothing else changes |
| Stages.ParseStage | internal/pipeline/stages.go:20-61 | with no input, fails with "no input file or package specified"; returns a parse error unchanged; fails on an empty result; otherwise stores the structs and updates the configuration; the GOFILE choice is recorded even when parsing fails |
| Stages.ParseStageSucceeds | internal/pipeline/stages.go:38-58 | the stage succeeds iff the chosen input parses to at least one struct, and then an output file is set |
| Stages.TypeCheckStage | internal/pipeline/stages.go:67-80 | appends every struct's diagnostics to the context's errors in struct order, then fails iff the errors are not empty, with their combined message |
| Stages.CheckStructs | internal/pipeline/stages.go:70-73 | the loop checks the structs one by one, in order, and collects what each check reports |
| Stages.AllDiagnosticsSnoc | internal/pipeline/stages.go:70-73 | one more struct adds its diagnostics at the end |
| Stages.TypeCheckOrderIndependent | internal/pipeline/stages.go:67-80 | two runs that visit rule keys in different orders find the same diagnostics up to permutation, so the stage fails in one iff it fails in the other |
| Stages.PackageConfig | internal/pipeline/module_stage.go:17-36 | only the project root, module name and support-package name can change; given values are kept; a missing root is looked up from the input file's directory, or is "." with no input file or on a failed lookup; the module found is used only when none was given; the package name defaults to "valgen" |
| Stages.PackageConfigIdempotent | internal/pipeline/module_stage.go:17-36 | applying the defaults again changes nothing once a project root is set |
| Stages.ErrorPackageStage | internal/pipeline/module_stage.go:15-41 | sets the configuration to its defaulted form, then returns what writing the support package for that configuration returns; nothing else changes |
| Stages.GenerateStage | internal/pipeline/stages.go:86-96 | stores the generated text only when generation succeeds, and otherwise returns its error; nothing else changes |
| Stages.WriteStage | internal/pipeline/stages.go:102-111 | returns what writing the output text to the output file returns |
| Stages.Name | internal/pipeline/stages.go:18 | every stage has a non-empty name |
| Stages.NamesDistinct | internal/pipeline/stages.go:18-100 | no two stages share a name |
| Stages.RunStage | main.go:17-20 | running a stage has exactly the effect of that stage's own method on the context and on the result (`StageEffect`): Parse's outcome, the diagnostics Type Check appends and its combined message, the Error Package defaults and what `EnsurePackages` returns, the generated output or the generator's error, and what the write returns |
| Stages.StageFrames | internal/pipeline/stages.go:20-111 | each stage changes only its own part of the context: only Parse changes the structs, only Type Check the errors, only Generate the output, only Parse and Error Package the configuration; a Type Check fails iff the errors are not empty |
| Valforge.Pipeline.constructor | main.go:26-28 | a new pipeline has no stages |
| Valforge.Pipeline.AddStage | main.go:30-32 | appends the stage, so stages run in the order they were added |
| Valforge.Pipeline.Execute | main.go:34-43 | runs a prefix of the stages in order; all but the last succeeded; it stops exactly at the first failure, returns that failure wrapped as "stage <name> failed: ...", and returns no error iff every stage ran and succeeded; the recorded contexts run from the context before the call to the one after it, each step being the effect of the stage that ran with the result it returned |
| Valforge.RecordedSnoc | main.go:35-41 | one more stage run extends the record of contexts and results |
| Valforge.DefaultPipeline | main.go:72-76 | the stages are Parse, Type Check, Error Package, Generate, Write |
| Valforge.RunValforge | main.go:69-83 | the run uses the built-in registry and the default pipeline, starts from a context holding only the configuration, stops at the first failure, and its record ends at the final context |
| Valforge.RunDeterminedByResults | main.go:34-43 | which stages ran and the error returned are fixed by what the stages return |
| Valforge.TypeCheckFailureStopsRun | main.go:72-76 | a failed type check ends the run after two stages: no generation, no write, and the error names "Type Check" |
| Valforge.GenerationNeedsCleanCheck | main.go:72-76 | generation runs only after parse, type check and Error Package succeeded, and the write only after generation succeeded |
| Valforge.SuccessRanEverything | main.go:38-42 | a run with no error went through all five stages, each succeeding |
| Valforge.TypeCheckFailureKeepsOutput | main.go:34-43 | after a failed type check the output text is what it was before the run, diagnostics were recorded, and the run's error is their combined message under the "Type Check" name |
| Valforge.SuccessWritesGenerated | main.go:34-43 | a run with no error parsed at least one struct, recorded no diagnostics, and wrote the generator's text for the parsed structs to the output file Parse chose |
| Parser.MapOfSnoc | internal/parser/parser.go:321 | one more write `m[k] = v` updates that key |
| Parser.MapOfLastWins | internal/parser/parser.go:321 | a key is bound iff some entry has it, and it is bound to the value of the last such entry |
| Parser.MapOfOptional | internal/parser/parser.go:321 | writing an entry if there is one updates its key; writing nothing leaves the map alone |
| Parser.TagEntryShape | internal/parser/parser.go:309-321 | a tag part gives an entry iff it contains ':'; the key contains no ':', and the part is the key, ':' and the value, perhaps in double quotes |
| Parser.QuotedSpelling | internal/parser/parser.go:317-319 | a quoted value is its content between two double quotes |
| Parser.TagEntryRoundTrip | internal/parser/parser.go:309-321 | `key:"value"` reads back as the key and the value |
| Parser.IndexAfterPrefix | internal/parser/parser.go:309 | the first ':' after a key without one is the one ending the key |
| Parser.TagEntriesSnoc | internal/parser/parser.go:308-322 | one more part adds its entry, if any, at the end |
| Parser.TagMapStep | internal/parser/parser.go:308-322 | one more part writes its entry, if it has one, into the tag map |
| Parser.ReadTagPart | internal/parser/parser.go:309-320 | a part yields a key and value iff it has a ':', and they are the part's entry |
| Parser.ParseStructTags | internal/parser/parser.go:304-325 | splits the tag at white space and binds each `key:value` part, the last binding of a key winning |
| Parser.RuleEntryShape | internal/parser/parser.go:342-354 | a piece gives an entry iff it is not blank; the key contains no '=' but the value may; the trimmed piece is the key alone (empty value) or the key, '=' and the value |
| Parser.RuleEntryRoundTrip | internal/parser/parser.go:347-351 | `k=v` reads back as `(k, v)` when k has no '=' and neither end is white space; v may contain '=' |
| Parser.BareRuleRoundTrip | internal/parser/parser.go:352-354 | a bare rule name reads back with the empty value |
| Parser.RuleEntriesSnoc | internal/parser/parser.go:341-355 | one more piece adds its entry, if any, at the end |
| Parser.RulesMapStep | internal/parser/parser.go:341-355 | one more piece writes its entry, if it has one, into the rule map |
| Parser.ReadRulePiece | internal/parser/parser.go:342-354 | a piece yields a key and value iff it is not blank once trimmed, and they are the piece's entry |
| Parser.ParseValidationRules | internal/parser/parser.go:337-358 | splits at ',' and binds each non-blank trimmed piece, the last binding of a key winning |
| Parser.RenderPieces | internal/parser/parser.go:339 | one `k=v` piece per rule |
| Parser.RulesRoundTrip | internal/parser/parser.go:337-358 | writing a list of well-formed rules as a `validate` tag and parsing it gives the map those rules build; no rules give the empty map |
| Parser.PiecesAvoidComma | internal/parser/parser.go:339 | no piece of well-formed rules contains a comma |
| Parser.RuleEntriesOfPieces | internal/parser/parser.go:341-355 | reading back the pieces of well-formed rules gives the rules |
| Parser.WellFormedParts | internal/parser/parser.go:341-355 | a list of well-formed rules splits into well-formed parts |
| Parser.ToSnakeCase | internal/parser/parser.go:360-369 | the loop builds the snake-case name: '_' before every inner capital, then lower-cased |
| Parser.SnakeCaseIsLower | internal/parser/parser.go:368 | a snake-case name has no upper-case ASCII letter |
| Parser.Without | internal/parser/parser.go:364 | removing a character leaves none of it |
| Parser.WithoutSnoc | internal/parser/parser.go:362-367 | removal works character by character |
| Parser.UnderscoresOnlyInserted | internal/parser/parser.go:362-367 | for a name without '_', removing the underscores gives the name back |
| Parser.SnakeCaseLength | internal/parser/parser.go:360-369 | the snake-case name is one character longer per inner capital |
| Parser.UnderscoredLength | internal/parser/parser.go:362-367 | one '_' is inserted per inner capital |
| Parser.NoInnerCapitals | internal/parser/parser.go:360-369 | a name whose only capital is its first letter is just lower-cased |
| Parser.JsonNameChoice | internal/parser/parser.go:327-335 | the JSON name overrides the Go name exactly when the json tag starts with a name that is neither empty nor "-"; that name stops at the first ','; otherwise the snake-case Go name is used |
| Parser.GetJsonName | internal/parser/parser.go:327-335 | computes the JSON name as `JsonName` defines it |
| Parser.InferType | internal/parser/parser.go:216-258 | never infers Struct |
| Parser.IdentOfKindName | internal/parser/parser.go:218-247 | every kind from string to bool is read back from its own name |
| Parser.KindNameOfIdent | internal/parser/parser.go:218-250 | an identifier gets a kind only when it is that kind's name; anything else gives Unknown |
| Parser.InferThroughWrappers | internal/parser/parser.go:251-254 | pointers and arrays are seen through at every depth |
| Parser.NamesEntries | internal/parser/parser.go:147-155 | one descriptor per declared name |
| Parser.NamesEntriesAt | internal/parser/parser.go:147-155 | descriptor i is for name i, with the field's type, JSON name and rules |
| Parser.EntriesForMeaning | internal/parser/parser.go:138-156 | a field with a `validate` key gives one descriptor per declared name, in order; any other field gives none |
| Parser.Names | internal/parser/parser.go:150 | one name per descriptor |
| Parser.NamesAppend | internal/parser/parser.go:149 | the names of a concatenation are the concatenated names |
| Parser.NamesOfEntries | internal/parser/parser.go:147-155 | the descriptors of a field carry its declared names, in order |
| Parser.FieldsOfNames | internal/parser/parser.go:137-157 | the struct has one descriptor per declared name of each validated field, in declaration order |
| Parser.EntriesOrigin | internal/parser/parser.go:145-155 | each descriptor of a field has the field's type, JSON name and rules, and the field has a `validate` key |
| Parser.FieldsOfOrigin | internal/parser/parser.go:137-157 | every descriptor of the struct comes from one of its fields |
| Parser.AnyValidatedSnoc | internal/parser/parser.go:145-146 | `hasValidation` becomes true at the first field with a `validate` key and stays true |
| Parser.DescribeNames | internal/parser/parser.go:147-155 | the inner loop adds one descriptor per declared name |
| Parser.ParseStructStep | internal/parser/parser.go:137-157 | one more field adds its descriptors after the earlier ones, and the struct is validated once any field is |
| Parser.ParseField | internal/parser/parser.go:138-156 | one turn of the field loop yields the field's descriptors, and reports whether it has a `validate` key |
| Parser.ParseStruct | internal/parser/parser.go:133-168 | skips untagged fields, adds the descriptors of every field with a `validate` key, and returns a struct iff some field had one, even one with no names |
| GoStrings.IndexOf | internal/parser/parser.go:309 | the index of the first occurrence, or -1 iff there is none |
| GoStrings.IndexOfUnique | internal/parser/parser.go:309 | the first occurrence is the only position with none before it |
| GoStrings.Split | internal/parser/parser.go:339 | `strings.Split` always returns at least one piece |
| GoStrings.SplitPiecesAvoidSeparator | internal/parser/parser.go:329 | no piece contains the separator |
| GoStrings.SplitJoin | internal/parser/parser.go:339 | joining the pieces gives back the text |
| GoStrings.JoinSplit | internal/parser/parser.go:339 | splitting a join of pieces without the separator gives back the pieces |
| GoStrings.JoinCons | internal/parser/parser.go:339 | a join is the first piece, the separator, then the join of the rest |
| GoStrings.LeadingSpace | internal/parser/parser.go:342 | the length of the leading white-space run |
| GoStrings.TrailingSpace | internal/parser/parser.go:342 | the length of the trailing white-space run |
| GoStrings.TrimLeftSpace | internal/parser/parser.go:342 | removes exactly the leading white space |
| GoStrings.TrimRightSpace | internal/parser/parser.go:342 | removes exactly the trailing white space |
| GoStrings.TrimSpace | internal/parser/parser.go:342 | no white space is left at either end |
| GoStrings.TrimSpaceUnchanged | internal/parser/parser.go:342 | text with no white space at either end is left alone |
| GoStrings.Fields | internal/parser/parser.go:306 | `strings.Fields` gives no fields exactly when the text is all white space; FieldsExactly pins the fields |
| GoStrings.FieldsAreWords | internal/parser/parser.go:306 | every piece of `strings.Fields` is a non-empty run of non-space characters |
| GoStrings.FieldsExactly | internal/parser/parser.go:306 | the fields are exactly the maximal non-space runs in order: a list of words is the fields of `s` iff `s` is those words with white space around them and at least one white-space character between two of them |
| GoStrings.FieldsSeparated | internal/parser/parser.go:306 | `s` is its fields separated by white space |
| GoStrings.SeparatedAreFields | internal/parser/parser.go:306 | words that `s` separates are its fields |
| GoStrings.FieldsUnfold | internal/parser/parser.go:306 | the fields are the first word after the leading white space, then the fields of the rest |
| GoStrings.WordIsLeadingRun | internal/parser/parser.go:306 | a non-space prefix followed by white space or the end is the whole leading word |
| GoStrings.FieldsConcat | internal/parser/parser.go:306 | the fields put together are `s` with its white space removed |
| GoStrings.NonSpace | internal/parser/parser.go:306 | the reference filter: no white space is left |
| GoStrings.NonSpaceAppend | internal/parser/parser.go:306 | removing white space distributes over concatenation |
| GoStrings.NonSpaceOfSpaces | internal/parser/parser.go:306 | white space alone leaves nothing |
| GoStrings.NonSpaceOfWord | internal/parser/parser.go:306 | a word is left as it is |
| GoStrings.NonSpaceSkipsSpace | internal/parser/parser.go:306 | the leading white space contributes nothing |
| GoStrings.NonSpaceSkipsWord | internal/parser/parser.go:306 | the leading word is kept whole |
| GoStrings.WordLength | internal/parser/parser.go:306 | the length of the leading non-space run |
| GoStrings.LeadingRun | internal/parser/parser.go:142 | the exact length of the leading run of the character |
| GoStrings.TrailingRun | internal/parser/parser.go:142 | the exact length of the trailing run of the character |
| GoStrings.TrimChar | internal/parser/parser.go:142 | `strings.Trim` with one character removes exactly the leading run of it and the trailing run of it, and keeps the text between them; no such character is left at either end |
| GoStrings.ToLowerAscii | internal/parser/parser.go:368 | same length; each ASCII capital becomes its lower-case letter and every other character stays |
| GoStrings.ParseInt64 | internal/typechecker/typechecker.go:101 | a parsed value fits in an int64, and the text is neither empty nor a lone sign |
| GoStrings.ParseInt64Shape | internal/typechecker/typechecker.go:101 | an accepted text is an optional '+' or '-' followed by one or more decimal digits and nothing else |
| GoStrings.ParseInt64Value | internal/typechecker/typechecker.go:101 | a signed digit string gives its decimal value, negated after '-', exactly when that value fits in an int64, and is rejected otherwise |
| GoStrings.HasSuffix | internal/pipeline/stages.go:53 | `strings.HasSuffix` holds exactly when the text is some prefix followed by the suffix |
| GoStrings.TrimSuffix | internal/pipeline/stages.go:53 | when `s` ends with the suffix, the result followed by the suffix is `s`; otherwise the result is `s` |
| GoStrings.LastIndexOf | internal/pipeline/stages.go:51-52 | the index of the last occurrence, or -1 iff there is none |
| GoStrings.LastIndexOfUnique | internal/pipeline/stages.go:51-52 | the last occurrence is the only position with none after it |
| GoStrings.LastSeen | internal/pipeline/stages.go:51-53 | no occurrence of the character lies after the last one |
| GoStrings.Dir | internal/pipeline/stages.go:51 | `filepath.Dir` is "." for a path without '/', and otherwise "/" or a proper prefix of the path that is followed by '/' |
| GoStrings.Base | internal/pipeline/stages.go:52 | `filepath.Base` is ".", "/", or a suffix of the path that holds no '/' |
| GoStrings.Ext | internal/pipeline/stages.go:53 | the extension is empty exactly when the final path element has no '.'; otherwise it is the suffix of the path that starts at a '.' and holds no other '.' and no '/' |
| GoStrings.Join | internal/pipeline/stages.go:54-56 | the file name comes last, after the directory and one '/' between them (the directory's own trailing '/' when it has one), or alone for "" and "."; nothing else is added |

## Left out

- `ParseFile`, `ParsePackage`, the struct visitor, `extractFieldType` and `classifyType`
  (internal/parser/parser.go:31-131, 170-213, 260-302) call `go/parser`, `go/ast`, `go/types`
  and the importer. The stages get their result through the `Env.parseFile` and
  `Env.parsePackage` parameters, and `ParseStruct` takes fields whose type is already
  classified.
- The code generator (`internal/generator`) is not part of this model. `GenerateStage`
  calls it through `Env.generate`. The model does cover each rule's `Generate` and
  `Priority`.
- modulegen's `EnsurePackages` writes files; it is the `Env.ensurePackages` parameter.
  `FindProjectRoot` (internal/project/project.go) walks the file system; it is the
  `Env.findProjectRoot` parameter, with its error-path results ignored as the stage ignores
  them.
- The file creation and writing in `WriteStage` is the `Env.writeFile` parameter.
- `os.Getenv("GOFILE")` is the `Env.goFile` parameter.
- `parseFlags`, `GetVersion`, the progress and success lines printed by `Execute` and
  `main`, and `log.Fatal` are process glue. `RunValforge` starts after flag parsing.
- Go's map iteration order has no fixed value. The model leaves it open (ghost visit
  orders, `:|` choices) rather than fixing one, and proves its results for every order.
- `fmt.Sprintf` is not modelled. Messages and emitted lines are built by concatenation,
  which gives the same text for the `%s` and `%d` verbs the source uses.
- `strings.ToLower` is restricted to ASCII in `Parser.SnakeCase`: only the ASCII capitals
  are lowered and get an '_' prefix.
- `filepath.Dir`, `Base` and `Join` do not clean paths in this model. They split at the last
  '/' and join with '/', which matches Go on clean paths: the root "/" and paths without a
  trailing '/'. On other paths (trailing '/', doubled '/', "." or ".." elements) Go cleans first
  and the model does not.
- `strconv.Atoi` is modelled as `GoStrings.ParseInt64`, that is, for a 64-bit platform, where
  Go's `int` is 64 bits wide. On a 32-bit platform Go would reject values outside the int32
  range, which the model does not.
- `FieldType.GoType` and `Underlying` hold `go/types` values, which the model does not have.
- A `TypeKind` integer outside the declared constants, for which `String()` also returns
  "unknown", cannot occur in the model.
- `ErrorTypeDuplicate` is declared but nothing produces it. The model keeps the silent
  overwrite of `Register`.
- `GetAll` (internal/rules/registry.go:39-41) returns the map itself, which is the
  `rules` field.
- The run-time behaviour of the generated `Validate` methods and of the email checker is
  out of scope; the model covers only the text emitted for them.
- `Rules.Generate`: every rule's `Generate` returns a nil error in the source, so the
  model's error result is always `None`.
- `Parser.ParseStruct`: Go calls `extractFieldType` and `parseValidationRules` once per
  declared name of a field. Both are pure, so the model computes them once per field. The
  descriptors are the same.
- `Stages.ErrorPackageStage`: `EnsurePackages` receives the whole context in Go
  (internal/pipeline/module_stage.go:40), with its structs, output, errors and package
  options. modulegen is not part of this model, and the model assumes its result depends on
  the configuration alone. The context's package options are not modelled.
- `Registry.RuleRegistry.GetAllForGeneration`: the result map is narrowed to the
  `Generate` and `Priority` capability in Go. Here it holds the same rule identities.
- The Go `Stage` interface is the `Stages.StageId` datatype, and `RunStage` dispatches on it.

/** The pipeline stages of internal/pipeline/stages.go and module_stage.go, acting on the
    shared context of internal/vfcontext/vfcontext.go. What a stage asks of the outside world
    (the Go source parser, the GOFILE variable, the code generator, the supporting-package
    writer and the file system) is passed in as an `Env`. */
module Stages {
  import opened VTypes
  import opened GoStrings
  import opened Rules
  import opened Registry
  import opened TypeChecker
  import opened Seqs

  /** `GenerationConfig`. */
  datatype Config = Config(
    inputFile: string,
    packagePath: string,
    outputFile: string,
    packageName: string,
    valforgePackage: string,
    valforgePackagePath: string,
    moduleName: string,
    projectRoot: string,
    version: string)

  /** An operation of the outside world either yields a value or fails with an error message. */
  datatype Outcome<T> = Ok(value: T) | Fail(message: string)

  /** What `ParseFile` and `ParsePackage` return on success. */
  datatype Parsed = Parsed(structs: seq<ValidationStruct>, packageName: string)

  /** What `FindProjectRoot` returns on success: the directory holding go.mod and the module
      name declared there ("" when go.mod declares none). */
  datatype ProjectRoot = ProjectRoot(dir: string, moduleName: string)

  /** The world outside the model. */
  datatype Env = Env(
    goFile: string,                                             // os.Getenv("GOFILE")
    parseFile: string -> Outcome<Parsed>,                       // Parser.ParseFile
    parsePackage: string -> Outcome<Parsed>,                    // Parser.ParsePackage
    generate: (Config, seq<ValidationStruct>) -> Outcome<string>, // Generator.Generate
    findProjectRoot: string -> Outcome<ProjectRoot>,            // project.FindProjectRoot
    ensurePackages: Config -> Option<string>,                   // modulegen EnsurePackages
    writeFile: (string, string) -> Option<string>)              // os.Create + WriteString

  /** `vfcontext.Context`: the record every stage reads and updates. */
  class Context {
    var config: Config
    const registry: RuleRegistry
    var structs: seq<ValidationStruct>
    var output: string
    var errors: seq<CompilerError>

    constructor (config: Config, registry: RuleRegistry)
      ensures this.config == config && this.registry == registry
      ensures structs == [] && output == "" && errors == []
    {
      this.config := config;
      this.registry := registry;
      structs := [];
      output := "";
      errors := [];
    }
  }

  // ---------------------------------------------------------------- Parse

  /** Where `ParseStage` reads its structs from. */
  datatype Source = FromFile(path: string) | FromPackage(path: string)

  /** The input `ParseStage` picks: the input file, else the package directory, else the file
      named by GOFILE; none when all three are empty. */
  function InputSource(config: Config, goFile: string): Option<Source>
  {
    if config.inputFile != "" then Some(FromFile(config.inputFile))
    else if config.packagePath != "" then Some(FromPackage(config.packagePath))
    else if goFile != "" then Some(FromFile(goFile))
    else None
  }

  /** A non-empty input file wins over everything else, and a package directory over GOFILE;
      only with all three empty is there no input. */
  lemma InputPrecedence(config: Config, goFile: string)
    ensures InputSource(config, goFile).None? <==> config.inputFile == "" && config.packagePath == "" && goFile == ""
    ensures config.inputFile != "" ==>
      forall p, g :: InputSource(config.(packagePath := p), g) == Some(FromFile(config.inputFile))
    ensures config.inputFile == "" && config.packagePath != "" ==>
      forall g :: InputSource(config, g) == Some(FromPackage(config.packagePath))
  {
  }

  /** The configuration once the input is chosen: taking GOFILE records it as the input file. */
  function SelectedConfig(config: Config, goFile: string): (c: Config)
    ensures c.(inputFile := config.inputFile) == config
  {
    if config.inputFile == "" && config.packagePath == "" && goFile != "" then config.(inputFile := goFile)
    else config
  }

  /** Choosing again after a choice picks the same input, whatever GOFILE then says. */
  lemma SelectionStable(config: Config, goFile: string, later: string)
    requires InputSource(config, goFile).Some?
    ensures InputSource(SelectedConfig(config, goFile), later) == InputSource(config, goFile)
  {
  }

  function ParseWith(env: Env, src: Source): Outcome<Parsed>
  {
    match src
    case FromFile(path) => env.parseFile(path)
    case FromPackage(path) => env.parsePackage(path)
  }

  const NoInputMessage := "no input file or package specified"
  const NoStructsMessage := "no structs with validation tags found"
  const FileSuffix := "_validation.gen.go"
  const PackageFile := "validation.gen.go"

  /** The output file `ParseStage` chooses when none is given: next to the input file with
      "_validation.gen.go" in place of its extension, or "validation.gen.go" in the package
      directory. */
  function DefaultOutput(config: Config): string
  {
    if config.inputFile != "" then
      var base := Base(config.inputFile);
      Join(Dir(config.inputFile), TrimSuffix(base, Ext(base)) + FileSuffix)
    else Join(config.packagePath, PackageFile)
  }

  /** "dir/name.go" gives "dir/name_validation.gen.go". */
  lemma DefaultOutputInDirectory(config: Config, dir: string, name: string)
    requires dir != "" && dir != "." && dir[|dir| - 1] != '/' && '/' !in name
    requires config.inputFile == dir + "/" + name + ".go"
    ensures DefaultOutput(config) == dir + "/" + name + FileSuffix
  {
    GoFile(name);
    AppendAssoc(dir + "/", name, ".go");
    OutputBesideFile(config, dir, name + ".go");
    AppendAssoc(dir + "/", name, FileSuffix);
  }

  /** A file "dir/file" gets its output beside it, named after the file without extension. */
  lemma OutputBesideFile(config: Config, dir: string, file: string)
    requires dir != "" && dir != "." && dir[|dir| - 1] != '/' && file != "" && '/' !in file
    requires config.inputFile == dir + "/" + file
    ensures DefaultOutput(config) == dir + "/" + (TrimSuffix(file, Ext(file)) + FileSuffix)
  {
    SplitPath(dir, file);
  }

  /** A path in a directory is split at its last '/'. */
  lemma SplitPath(dir: string, file: string)
    requires dir != "" && file != "" && '/' !in file
    ensures Dir(dir + "/" + file) == dir && Base(dir + "/" + file) == file
  {
    var path := dir + "/" + file;
    assert path[|dir|] == '/' && path[|dir| + 1..] == file;
    LastIndexOfUnique(path, '/', |dir|);
    assert path[..|dir|] == dir;
  }

  /** "name.go" has no '/' when `name` has none, has extension ".go", and loses it to give
      `name` back. */
  lemma GoFile(name: string)
    requires '/' !in name
    ensures '/' !in name + ".go"
    ensures Ext(name + ".go") == ".go"
    ensures TrimSuffix(name + ".go", ".go") == name
  {
    var file := name + ".go";
    forall k | 0 <= k < |file| ensures file[k] != '/' {
      if k < |name| { assert file[k] == name[k]; }
    }
    assert file[|name|] == '.' && file[|name| + 1..] == "go";
    LastIndexOfUnique(file, '.', |name|);
    assert file[|name|..] == ".go";
    assert file[|file| - 3..] == ".go";
    assert file[..|file| - 3] == name;
  }

  /** A bare "name.go" gives "name_validation.gen.go" in the working directory. */
  lemma DefaultOutputBareFile(config: Config, name: string)
    requires '/' !in name && config.inputFile == name + ".go"
    ensures DefaultOutput(config) == name + FileSuffix
  {
    GoFile(name);
    var file := name + ".go";
    assert file[0..] == file;
  }

  /** A package directory gets "validation.gen.go" inside it. */
  lemma DefaultOutputForPackage(config: Config)
    requires config.inputFile == "" && config.packagePath != "" && config.packagePath != "."
    requires config.packagePath[|config.packagePath| - 1] != '/'
    ensures DefaultOutput(config) == config.packagePath + "/" + PackageFile
  {
  }

  /** The configuration after a successful parse: the package name recorded and the output
      file defaulted when none was given. */
  function ParsedConfig(config: Config, packageName: string): (c: Config)
    ensures c.packageName == packageName
    ensures c.outputFile == if config.outputFile == "" then DefaultOutput(config) else config.outputFile
    ensures c.(packageName := config.packageName, outputFile := config.outputFile) == config
  {
    var c := config.(packageName := packageName);
    if config.outputFile == "" then c.(outputFile := DefaultOutput(config)) else c
  }

  /** `ParseStage.Execute`. */
  method ParseStage(ctx: Context, env: Env) returns (err: Option<string>)
    modifies ctx
    ensures ctx.errors == old(ctx.errors) && ctx.output == old(ctx.output)
    ensures var src := InputSource(old(ctx.config), env.goFile);
      && (src.None? ==> err == Some(NoInputMessage) && ctx.config == old(ctx.config) && ctx.structs == old(ctx.structs))
      && (src.Some? ==> ParseStageOutcome(old(ctx.config), old(ctx.structs), env, src.value, err, ctx.config, ctx.structs))
  {
    var c := ctx.config;
    var res: Outcome<Parsed>;
    if c.inputFile != "" {
      res := env.parseFile(c.inputFile);
    } else if c.packagePath != "" {
      res := env.parsePackage(c.packagePath);
    } else if env.goFile != "" {
      c := c.(inputFile := env.goFile);
      ctx.config := c;
      res := env.parseFile(env.goFile);
    } else {
      return Some(NoInputMessage);
    }
    ghost var selected := c;
    assert selected == SelectedConfig(old(ctx.config), env.goFile);
    if res.Fail? {
      return Some(res.message);
    }
    if |res.value.structs| == 0 {
      return Some(NoStructsMessage);
    }
    ctx.structs := res.value.structs;
    c := c.(packageName := res.value.packageName);
    if c.outputFile == "" {
      if c.inputFile != "" {
        var dir := Dir(c.inputFile);
        var base := Base(c.inputFile);
        var name := TrimSuffix(base, Ext(base));
        c := c.(outputFile := Join(dir, name + FileSuffix));
      } else {
        c := c.(outputFile := Join(c.packagePath, PackageFile));
      }
    }
    assert c == ParsedConfig(selected, res.value.packageName);
    ctx.config := c;
    return None;
  }

  /** What `ParseStage` does once an input is chosen: a parse error is returned as it is, no
      structs is an error, and otherwise the structs and the completed configuration are
      stored. The GOFILE choice is recorded in the configuration even when parsing fails. */
  predicate ParseStageOutcome(config: Config, structs: seq<ValidationStruct>, env: Env, src: Source,
                              err: Option<string>, config': Config, structs': seq<ValidationStruct>)
  {
    var c := SelectedConfig(config, env.goFile);
    var res := ParseWith(env, src);
    && (res.Fail? ==> err == Some(res.message) && config' == c && structs' == structs)
    && (res.Ok? && res.value.structs == [] ==> err == Some(NoStructsMessage) && config' == c && structs' == structs)
    && (res.Ok? && res.value.structs != [] ==>
          err.None? && structs' == res.value.structs && config' == ParsedConfig(c, res.value.packageName))
  }

  /** `ParseStage` succeeds iff an input is chosen, it parses, and it has a struct with
      validation tags; then the output file is set. */
  lemma ParseStageSucceeds(config: Config, structs: seq<ValidationStruct>, env: Env, src: Source,
                           err: Option<string>, config': Config, structs': seq<ValidationStruct>)
    requires ParseStageOutcome(config, structs, env, src, err, config', structs')
    ensures err.None? <==> ParseWith(env, src).Ok? && ParseWith(env, src).value.structs != []
    ensures err.None? ==> structs' != [] && config'.outputFile != ""
  {
    var c := SelectedConfig(config, env.goFile);
    if err.None? && c.outputFile == "" {
      DefaultOutputNotEmpty(c);
    }
  }

  lemma DefaultOutputNotEmpty(config: Config)
    ensures DefaultOutput(config) != ""
  {
    if config.inputFile != "" {
      var base := Base(config.inputFile);
      var name := TrimSuffix(base, Ext(base)) + FileSuffix;
      assert |name| >= |FileSuffix| > 0;
      assert |Join(Dir(config.inputFile), name)| >= |name|;
    } else {
      assert |Join(config.packagePath, PackageFile)| >= |PackageFile|;
    }
  }

  // ---------------------------------------------------------------- Type Check

  /** The diagnostics of the structs, struct by struct, each checked with its own rule orders. */
  function AllDiagnostics(rules: map<string, RuleId>, structs: seq<ValidationStruct>,
                          orders: seq<seq<seq<string>>>): seq<CompilerError>
    requires AllOrdersFit(structs, orders)
  {
    if structs == [] then []
    else
      var n := |structs| - 1;
      var s := structs[n];
      AllDiagnostics(rules, structs[..n], orders[..n]) + StructDiagnostics(rules, s.name, FieldMapOf(s.fields), s.fields, orders[n])
  }

  predicate AllOrdersFit(structs: seq<ValidationStruct>, orders: seq<seq<seq<string>>>)
  {
    |orders| == |structs| && forall i :: 0 <= i < |structs| ==> OrdersFit(structs[i].fields, orders[i])
  }

  /** Every field of every struct is visited once per rule key. */
  predicate AllVisitOnce(structs: seq<ValidationStruct>, orders: seq<seq<seq<string>>>)
    requires AllOrdersFit(structs, orders)
  {
    forall i, j :: 0 <= i < |structs| && 0 <= j < |structs[i].fields| ==>
      VisitsOnce(orders[i][j], structs[i].fields[j])
  }

  /** `TypeCheckStage.Execute`: appends each struct's diagnostics to the context's errors in
      struct order, then fails iff the errors are not empty, with them as the message. */
  method TypeCheckStage(ctx: Context) returns (err: Option<string>, ghost orders: seq<seq<seq<string>>>)
    modifies ctx
    ensures ctx.config == old(ctx.config) && ctx.structs == old(ctx.structs) && ctx.output == old(ctx.output)
    ensures AllOrdersFit(ctx.structs, orders) && AllVisitOnce(ctx.structs, orders)
    ensures ctx.errors == old(ctx.errors) + AllDiagnostics(ctx.registry.rules, ctx.structs, orders)
    ensures err.Some? <==> HasErrors(ctx.errors)
    ensures err.Some? ==> err.value == ErrorsMessage(ctx.errors)
  {
    var tc := new Checker(ctx.registry);
    var errors;
    errors, orders := CheckStructs(tc, ctx.structs);
    ctx.errors := ctx.errors + errors;
    if HasErrors(ctx.errors) {
      return Some(ErrorsMessage(ctx.errors)), orders;
    }
    return None, orders;
  }

  /** The loop of `TypeCheckStage.Execute`: checks the structs one by one, in order, and
      collects what each check reports. */
  method CheckStructs(tc: Checker, structs: seq<ValidationStruct>)
    returns (errors: seq<CompilerError>, ghost orders: seq<seq<seq<string>>>)
    ensures AllOrdersFit(structs, orders) && AllVisitOnce(structs, orders)
    ensures errors == AllDiagnostics(tc.registry.rules, structs, orders)
  {
    errors, orders := [], [];
    for i := 0 to |structs|
      invariant AllOrdersFit(structs[..i], orders) && AllVisitOnce(structs[..i], orders)
      invariant errors == AllDiagnostics(tc.registry.rules, structs[..i], orders)
    {
      var found, o := tc.CheckStruct(structs[i]);
      AllDiagnosticsSnoc(tc.registry.rules, structs, orders, i, o);
      orders := orders + [o];
      errors := errors + found;
    }
    assert structs[..|structs|] == structs;
  }

  lemma AllDiagnosticsSnoc(rules: map<string, RuleId>, structs: seq<ValidationStruct>,
                           orders: seq<seq<seq<string>>>, i: int, o: seq<seq<string>>)
    requires 0 <= i < |structs| && AllOrdersFit(structs[..i], orders) && AllVisitOnce(structs[..i], orders)
    requires OrdersFit(structs[i].fields, o)
    requires forall j :: 0 <= j < |structs[i].fields| ==> VisitsOnce(o[j], structs[i].fields[j])
    ensures AllOrdersFit(structs[..i + 1], orders + [o]) && AllVisitOnce(structs[..i + 1], orders + [o])
    ensures AllDiagnostics(rules, structs[..i + 1], orders + [o]) ==
      AllDiagnostics(rules, structs[..i], orders) +
      StructDiagnostics(rules, structs[i].name, FieldMapOf(structs[i].fields), structs[i].fields, o)
  {
    var s', o' := structs[..i + 1], orders + [o];
    assert s'[..i] == structs[..i] && o'[..i] == orders;
  }

  /** Whether the stage fails does not depend on the order Go's map iteration visits rule keys
      in: any two runs find the same diagnostics, counted with multiplicity. */
  lemma {:induction false} TypeCheckOrderIndependent(rules: map<string, RuleId>, structs: seq<ValidationStruct>,
                                                     o1: seq<seq<seq<string>>>, o2: seq<seq<seq<string>>>)
    requires AllOrdersFit(structs, o1) && AllVisitOnce(structs, o1)
    requires AllOrdersFit(structs, o2) && AllVisitOnce(structs, o2)
    ensures multiset(AllDiagnostics(rules, structs, o1)) == multiset(AllDiagnostics(rules, structs, o2))
    ensures AllDiagnostics(rules, structs, o1) == [] <==> AllDiagnostics(rules, structs, o2) == []
  {
    if structs != [] {
      var n := |structs| - 1;
      var s := structs[n];
      assert AllOrdersFit(structs[..n], o1[..n]) && AllVisitOnce(structs[..n], o1[..n]);
      assert AllOrdersFit(structs[..n], o2[..n]) && AllVisitOnce(structs[..n], o2[..n]);
      TypeCheckOrderIndependent(rules, structs[..n], o1[..n], o2[..n]);
      forall j | 0 <= j < |s.fields| ensures multiset(o1[n][j]) == multiset(o2[n][j]) {
        assert VisitsOnce(o1[n][j], s.fields[j]) && VisitsOnce(o2[n][j], s.fields[j]);
      }
      StructPermutation(rules, s.name, FieldMapOf(s.fields), s.fields, o1[n], o2[n]);
    }
    EmptyIffNoElements(AllDiagnostics(rules, structs, o1), AllDiagnostics(rules, structs, o2));
  }

  lemma EmptyIffNoElements<T>(a: seq<T>, b: seq<T>)
    requires multiset(a) == multiset(b)
    ensures a == [] <==> b == []
  {
    assert |a| == |multiset(a)| && |b| == |multiset(b)|;
  }

  // ---------------------------------------------------------------- Error Package, Generate, Write

  /** The name of the supporting package when the configuration names none. */
  const DefaultValforgePackage := "valgen"

  /** The configuration the Error Package stage settles on before writing the supporting
      package. Only the project root, the module name and the package name can change; a
      project root or module name given in the configuration is kept; without a project root
      it is looked up from the input file's directory, falling back to "." when there is no
      input file or the lookup fails; the module name found is used only when none was given;
      the package name defaults to "valgen". */
  function PackageConfig(config: Config, env: Env): (c: Config)
    ensures c == config.(projectRoot := c.projectRoot, moduleName := c.moduleName,
                         valforgePackage := c.valforgePackage)
    ensures c.valforgePackage != ""
    ensures config.valforgePackage != "" ==> c.valforgePackage == config.valforgePackage
    ensures config.projectRoot != "" ==> c.projectRoot == config.projectRoot
    ensures config.moduleName != "" ==> c.moduleName == config.moduleName
    ensures config.projectRoot == "" && config.inputFile == "" ==> c.projectRoot == "."
    ensures config.projectRoot == "" && config.inputFile != "" ==>
      var found := env.findProjectRoot(Dir(config.inputFile));
      && (found.Fail? ==> c.projectRoot == "." && c.moduleName == config.moduleName)
      && (found.Ok? ==> c.projectRoot == found.value.dir &&
                        (config.moduleName == "" ==> c.moduleName == found.value.moduleName))
  {
    var rooted :=
      if config.projectRoot != "" then config
      else if config.inputFile == "" then config.(projectRoot := ".")
      else match env.findProjectRoot(Dir(config.inputFile))
        case Fail(_) => config.(projectRoot := ".")
        case Ok(found) =>
          config.(projectRoot := found.dir,
                  moduleName := if config.moduleName == "" then found.moduleName else config.moduleName);
    if rooted.valforgePackage == "" then rooted.(valforgePackage := DefaultValforgePackage) else rooted
  }

  /** Running the defaults again changes nothing once a project root has been settled, so a
      second Error Package stage over the same context writes the same package. */
  lemma PackageConfigIdempotent(config: Config, env: Env)
    requires PackageConfig(config, env).projectRoot != ""
    ensures PackageConfig(PackageConfig(config, env), env) == PackageConfig(config, env)
  {
  }

  /** `ValforgePackageStage.Execute`: fills in the configuration defaults, then asks for the
      supporting package to be written for the resulting configuration. */
  method ErrorPackageStage(ctx: Context, env: Env) returns (err: Option<string>)
    modifies ctx
    ensures ctx.config == PackageConfig(old(ctx.config), env)
    ensures ctx.structs == old(ctx.structs) && ctx.output == old(ctx.output) && ctx.errors == old(ctx.errors)
    ensures err == env.ensurePackages(ctx.config)
  {
    var c := ctx.config;
    if c.projectRoot == "" {
      if c.inputFile != "" {
        var found := env.findProjectRoot(Dir(c.inputFile));
        if found.Fail? {
          c := c.(projectRoot := ".");
        } else {
          c := c.(projectRoot := found.value.dir);
          if c.moduleName == "" {
            c := c.(moduleName := found.value.moduleName);
          }
        }
      } else {
        c := c.(projectRoot := ".");
      }
    }
    if c.valforgePackage == "" {
      c := c.(valforgePackage := DefaultValforgePackage);
    }
    ctx.config := c;
    err := env.ensurePackages(ctx.config);
  }

  /** `GenerateStage.Execute`: the generated text is stored only when generation succeeds. */
  method GenerateStage(ctx: Context, env: Env) returns (err: Option<string>)
    modifies ctx
    ensures ctx.config == old(ctx.config) && ctx.structs == old(ctx.structs) && ctx.errors == old(ctx.errors)
    ensures var res := env.generate(ctx.config, ctx.structs);
      && (res.Ok? ==> err.None? && ctx.output == res.value)
      && (res.Fail? ==> err == Some(res.message) && ctx.output == old(ctx.output))
  {
    var res := env.generate(ctx.config, ctx.structs);
    if res.Fail? {
      return Some(res.message);
    }
    ctx.output := res.value;
    return None;
  }

  /** `WriteStage.Execute`: writes the output text to the output file. */
  method WriteStage(ctx: Context, env: Env) returns (err: Option<string>)
    ensures err == env.writeFile(ctx.config.outputFile, ctx.output)
  {
    err := env.writeFile(ctx.config.outputFile, ctx.output);
  }

  // ---------------------------------------------------------------- stage dispatch

  /** The five stages. */
  datatype StageId = Parse | TypeCheck | ErrorPackage | Generate | Write

  /** `Stage.Name()`. */
  function Name(s: StageId): (n: string)
    ensures n != ""
  {
    match s
    case Parse => "Parse"
    case TypeCheck => "Type Check"
    case ErrorPackage => "Error Package"
    case Generate => "Generate"
    case Write => "Write"
  }

  /** Each stage has its own name. */
  lemma NamesDistinct(a: StageId, b: StageId)
    ensures Name(a) == Name(b) <==> a == b
  {
  }

  /** The part of the context the stages change. */
  datatype Snapshot = Snapshot(config: Config, structs: seq<ValidationStruct>, output: string,
                               errors: seq<CompilerError>)

  function Snap(ctx: Context): Snapshot
    reads ctx
  {
    Snapshot(ctx.config, ctx.structs, ctx.output, ctx.errors)
  }

  /** What stage `s` does to the context, from `before` to `after`, and what it returns, with
      the registry holding `rules`: the contract of each stage's own method. */
  ghost predicate StageEffect(s: StageId, rules: map<string, RuleId>, before: Snapshot, after: Snapshot,
                              env: Env, err: Option<string>)
  {
    match s
    case Parse =>
      && after.errors == before.errors && after.output == before.output
      && var src := InputSource(before.config, env.goFile);
      && (src.None? ==> err == Some(NoInputMessage) && after == before)
      && (src.Some? ==> ParseStageOutcome(before.config, before.structs, env, src.value, err,
                                          after.config, after.structs))
    case TypeCheck =>
      && after == before.(errors := after.errors)
      && (exists orders :: AllOrdersFit(before.structs, orders) && AllVisitOnce(before.structs, orders) &&
            after.errors == before.errors + AllDiagnostics(rules, before.structs, orders))
      && (err.Some? <==> HasErrors(after.errors))
      && (err.Some? ==> err.value == ErrorsMessage(after.errors))
    case ErrorPackage =>
      && after == before.(config := PackageConfig(before.config, env))
      && err == env.ensurePackages(after.config)
    case Generate =>
      var res := env.generate(before.config, before.structs);
      && (res.Ok? ==> err.None? && after == before.(output := res.value))
      && (res.Fail? ==> err == Some(res.message) && after == before)
    case Write =>
      after == before && err == env.writeFile(before.config.outputFile, before.output)
  }

  /** `Stage.Execute()`: runs the stage's own method. */
  method RunStage(s: StageId, ctx: Context, env: Env) returns (err: Option<string>)
    modifies ctx
    ensures StageEffect(s, ctx.registry.rules, old(Snap(ctx)), Snap(ctx), env, err)
  {
    match s
    case Parse => err := ParseStage(ctx, env);
    case TypeCheck =>
      ghost var orders;
      err, orders := TypeCheckStage(ctx);
    case ErrorPackage => err := ErrorPackageStage(ctx, env);
    case Generate => err := GenerateStage(ctx, env);
    case Write => err := WriteStage(ctx, env);
  }

  /** Only the Generate stage changes the output text, only Type Check the diagnostics and only
      Parse the structs; Type Check fails exactly when diagnostics are recorded. */
  lemma StageFrames(s: StageId, rules: map<string, RuleId>, before: Snapshot, after: Snapshot,
                    env: Env, err: Option<string>)
    requires StageEffect(s, rules, before, after, env, err)
    ensures s != Generate ==> after.output == before.output
    ensures s != TypeCheck ==> after.errors == before.errors
    ensures s != Parse ==> after.structs == before.structs
    ensures s == TypeCheck || s == Generate || s == Write ==> after.config == before.config
    ensures s == TypeCheck ==> (err.Some? <==> HasErrors(after.errors))
  {
  }
}

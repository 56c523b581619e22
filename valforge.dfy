/** The command of main.go: a pipeline of stages run in order over one context, stopping at
    the first stage that fails. Flag parsing, the progress and success lines printed to the
    terminal and `log.Fatal` are not modelled. */
module Valforge {
  import opened GoStrings
  import opened Registry
  import opened Stages
  import opened Seqs
  import opened VTypes
  import Rules

  /** The message `Execute` returns when stage `s` fails with `msg`. */
  function StageFailure(s: StageId, msg: string): string
  {
    "stage " + Name(s) + " failed: " + msg
  }

  /** What a run of `stages` looks like when it stops at the first failure: the stages that
      ran are a prefix of `stages`, taken in order, each with the result it returned; all but
      the last succeeded; the run ends early exactly when the last one failed, and then the
      error is that stage's failure wrapped with its name. `err` is None iff every stage ran and
      succeeded. */
  predicate StopsAtFirstFailure(stages: seq<StageId>, ran: seq<StageId>, results: seq<Option<string>>,
                                err: Option<string>)
  {
    && |results| == |ran| <= |stages| && ran == stages[..|ran|]
    && (forall i :: 0 <= i < |results| - 1 ==> results[i].None?)
    && (err.None? <==> (ran == stages && forall i :: 0 <= i < |results| ==> results[i].None?))
    && (err.Some? ==> ran != [] && results[|ran| - 1].Some? &&
                      err.value == StageFailure(ran[|ran| - 1], results[|ran| - 1].value))
  }

  /** Step `i` of a recorded run: stage `ran[i]` took the context from `states[i]` to
      `states[i + 1]` and returned `results[i]`. */
  ghost predicate StepAt(ran: seq<StageId>, results: seq<Option<string>>, states: seq<Snapshot>,
                         rules: map<string, Rules.RuleId>, env: Env, i: int)
    requires 0 <= i < |ran| && |results| == |ran| && |states| == |ran| + 1
  {
    StageEffect(ran[i], rules, states[i], states[i + 1], env, results[i])
  }

  /** `states` holds the context before each stage that ran and after the last one, and every
      step is the effect of the stage that ran, with the result it returned. */
  ghost predicate Recorded(ran: seq<StageId>, results: seq<Option<string>>, states: seq<Snapshot>,
                           rules: map<string, Rules.RuleId>, env: Env)
  {
    && |results| == |ran| && |states| == |ran| + 1
    && forall i :: 0 <= i < |ran| ==> StepAt(ran, results, states, rules, env, i)
  }

  /** One more stage run extends the record. */
  lemma RecordedSnoc(ran: seq<StageId>, results: seq<Option<string>>, states: seq<Snapshot>,
                     rules: map<string, Rules.RuleId>, env: Env, s: StageId, r: Option<string>, after: Snapshot)
    requires Recorded(ran, results, states, rules, env)
    requires StageEffect(s, rules, states[|ran|], after, env, r)
    ensures Recorded(ran + [s], results + [r], states + [after], rules, env)
  {
    forall i | 0 <= i < |ran| + 1 ensures StepAt(ran + [s], results + [r], states + [after], rules, env, i) {
      if i < |ran| {
        assert StepAt(ran, results, states, rules, env, i);
      }
    }
  }

  /** The `Pipeline` of main.go: its stages in the order they were added. */
  class Pipeline {
    var stages: seq<StageId>

    /** `New`. */
    constructor ()
      ensures stages == []
    {
      stages := [];
    }

    /** `AddStage`: appends, so stages run in the order they were added. */
    method AddStage(stage: StageId)
      modifies this
      ensures stages == old(stages) + [stage]
    {
      stages := stages + [stage];
    }

    /** `Execute`: runs the stages in order, stopping at the first that fails. `ran` lists the
        stages started, in the order their progress lines are printed, `results` what each
        returned, and `states` the context before each of them and after the last. */
    method Execute(ctx: Context, env: Env)
      returns (err: Option<string>, ghost ran: seq<StageId>, ghost results: seq<Option<string>>,
               ghost states: seq<Snapshot>)
      modifies ctx
      ensures StopsAtFirstFailure(stages, ran, results, err)
      ensures Recorded(ran, results, states, ctx.registry.rules, env)
      ensures states[0] == old(Snap(ctx)) && states[|ran|] == Snap(ctx)
    {
      ran, results, states := [], [], [Snap(ctx)];
      for i := 0 to |stages|
        invariant ran == stages[..i] && |results| == i
        invariant forall j :: 0 <= j < i ==> results[j].None?
        invariant Recorded(ran, results, states, ctx.registry.rules, env)
        invariant states[0] == old(Snap(ctx)) && states[i] == Snap(ctx)
      {
        var r := RunStage(stages[i], ctx, env);
        RecordedSnoc(ran, results, states, ctx.registry.rules, env, stages[i], r, Snap(ctx));
        PrefixSnoc(stages, i);
        ghost var before := results;
        ran, results, states := ran + [stages[i]], results + [r], states + [Snap(ctx)];
        assert forall j :: 0 <= j < i ==> results[j] == before[j];
        if r.Some? {
          assert results[i] == r;
          return Some(StageFailure(stages[i], r.value)), ran, results, states;
        }
      }
      assert stages[..|stages|] == stages;
      return None, ran, results, states;
    }
  }

  /** The order main.go adds the stages in. */
  const DefaultStages: seq<StageId> := [Parse, TypeCheck, ErrorPackage, Generate, Write]

  /** The pipeline main.go builds. */
  method DefaultPipeline() returns (p: Pipeline)
    ensures fresh(p) && p.stages == DefaultStages
  {
    p := new Pipeline();
    p.AddStage(Parse);
    p.AddStage(TypeCheck);
    p.AddStage(ErrorPackage);
    p.AddStage(Generate);
    p.AddStage(Write);
  }

  /** `main` after flag parsing: the built-in registry, the default pipeline and a fresh
      context for `config`. */
  method RunValforge(config: Config, env: Env)
    returns (ctx: Context, err: Option<string>, ghost ran: seq<StageId>, ghost results: seq<Option<string>>,
             ghost states: seq<Snapshot>)
    ensures fresh(ctx) && ctx.registry.rules == BuiltinRules
    ensures StopsAtFirstFailure(DefaultStages, ran, results, err)
    ensures Recorded(ran, results, states, BuiltinRules, env)
    ensures states[0] == Snapshot(config, [], "", []) && states[|ran|] == Snap(ctx)
  {
    var registry := SetupRegistry();
    var pipe := DefaultPipeline();
    ctx := new Context(config, registry);
    err, ran, results, states := pipe.Execute(ctx, env);
  }

  /** A run that stops at the first failure is fixed by what the stages return: the index of the
      first failure, if any, decides how many stages ran and what error comes back. */
  lemma RunDeterminedByResults(stages: seq<StageId>, ran: seq<StageId>,
    results: seq<Option<string>>, err: Option<string>, ran': seq<StageId>,
    results': seq<Option<string>>, err': Option<string>)
    requires StopsAtFirstFailure(stages, ran, results, err)
    requires StopsAtFirstFailure(stages, ran', results', err')
    requires forall i :: 0 <= i < |results| && i < |results'| ==> results[i] == results'[i]
    ensures ran == ran' && results == results' && err == err'
  {
    assert |results| == |results'|;
    assert results == results';
  }

  /** With main.go's stage order, a type-check failure ends the run: neither generation nor
      writing happens, and the error names the "Type Check" stage. */
  lemma TypeCheckFailureStopsRun(ran: seq<StageId>, results: seq<Option<string>>, err: Option<string>)
    requires StopsAtFirstFailure(DefaultStages, ran, results, err)
    requires |results| >= 2 && results[1].Some?
    ensures ran == [Parse, TypeCheck]
    ensures Generate !in ran && Write !in ran
    ensures err == Some(StageFailure(TypeCheck, results[1].value))
  {
    assert |ran| == 2;
    assert DefaultStages[..2] == [Parse, TypeCheck];
  }

  /** Generation only runs once parsing, type checking and the supporting package have all
      succeeded, and the file is only written after generation succeeded. */
  lemma GenerationNeedsCleanCheck(ran: seq<StageId>, results: seq<Option<string>>, err: Option<string>)
    requires StopsAtFirstFailure(DefaultStages, ran, results, err)
    ensures Generate in ran ==> |ran| >= 4 && results[0].None? && results[1].None? && results[2].None?
    ensures Write in ran ==> ran == DefaultStages && results[3].None?
  {
    if Generate in ran {
      var k :| 0 <= k < |ran| && ran[k] == Generate;
      assert DefaultStages[k] == Generate;
    }
    if Write in ran {
      var k :| 0 <= k < |ran| && ran[k] == Write;
      assert DefaultStages[k] == Write;
    }
  }

  /** A failed type check leaves no generated code behind: the output text is what it was before
      the run, the stage recorded diagnostics, and the run's error is their combined message
      under the "Type Check" name. */
  lemma TypeCheckFailureKeepsOutput(ran: seq<StageId>, results: seq<Option<string>>, err: Option<string>,
                                    states: seq<Snapshot>, rules: map<string, Rules.RuleId>, env: Env)
    requires StopsAtFirstFailure(DefaultStages, ran, results, err)
    requires Recorded(ran, results, states, rules, env)
    requires |results| >= 2 && results[1].Some?
    ensures |ran| == 2 && states[2].output == states[0].output
    ensures HasErrors(states[2].errors) && results[1] == Some(ErrorsMessage(states[2].errors))
    ensures err == Some(StageFailure(TypeCheck, ErrorsMessage(states[2].errors)))
  {
    TypeCheckFailureStopsRun(ran, results, err);
    assert StepAt(ran, results, states, rules, env, 0);
    assert StepAt(ran, results, states, rules, env, 1);
    StageFrames(Parse, rules, states[0], states[1], env, results[0]);
    StageFrames(TypeCheck, rules, states[1], states[2], env, results[1]);
  }

  /** A run that reports no error parsed at least one struct, found no diagnostics, and wrote the
      generator's text for the parsed structs to the output file Parse chose. */
  lemma SuccessWritesGenerated(ran: seq<StageId>, results: seq<Option<string>>, err: Option<string>,
                               states: seq<Snapshot>, rules: map<string, Rules.RuleId>, env: Env)
    requires StopsAtFirstFailure(DefaultStages, ran, results, err)
    requires Recorded(ran, results, states, rules, env)
    requires err.None?
    ensures |states| == 6
    ensures states[1].structs != [] && states[1].config.outputFile != ""
    ensures !HasErrors(states[2].errors)
    ensures states[5].structs == states[1].structs && states[5].config.outputFile == states[1].config.outputFile
    ensures env.generate(states[3].config, states[3].structs) == Ok(states[5].output)
    ensures env.writeFile(states[5].config.outputFile, states[5].output) == None
  {
    SuccessRanEverything(ran, results, err);
    assert StepAt(ran, results, states, rules, env, 0);
    assert StepAt(ran, results, states, rules, env, 1);
    assert StepAt(ran, results, states, rules, env, 2);
    assert StepAt(ran, results, states, rules, env, 3);
    assert StepAt(ran, results, states, rules, env, 4);
    var src := InputSource(states[0].config, env.goFile);
    assert src.Some?;
    ParseStageSucceeds(states[0].config, states[0].structs, env, src.value, results[0],
                       states[1].config, states[1].structs);
  }

  /** A run that reports no error went through all five stages. */
  lemma SuccessRanEverything(ran: seq<StageId>, results: seq<Option<string>>, err: Option<string>)
    requires StopsAtFirstFailure(DefaultStages, ran, results, err)
    requires err.None?
    ensures ran == [Parse, TypeCheck, ErrorPackage, Generate, Write]
    ensures forall i :: 0 <= i < 5 ==> results[i].None?
  {
  }
}

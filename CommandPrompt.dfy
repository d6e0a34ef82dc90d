/** A fluent builder for running a command with automated prompt answers
    (packages/cli/utils/commandPrompt.ts). */
module CommandPrompt {
  import opened Wrappers
  import opened CommandExecute

  /** What `execute` hands to `executeWithPrompts` besides the command. */
  datatype PromptOptions = PromptOptions(prompts: seq<PromptResponse>, debug: bool, cwd: Option<string>, env: Option<Env>)

  class CommandPromptBuilder {
    var command: string
    var args: seq<string>
    var prompts: seq<PromptResponse>
    var debugMode: bool
    var workingDir: Option<string>
    var env: Option<Env>

    /** `new CommandPromptBuilder(command, args)`: no prompts, debug off,
        no working directory or environment. */
    constructor (command: string, args: seq<string>)
      ensures this.command == command && this.args == args
      ensures prompts == [] && !debugMode && workingDir.None? && env.None?
    {
      this.command := command;
      this.args := args;
      prompts := [];
      debugMode := false;
      workingDir := None;
      env := None;
    }

    /** `addPrompt(pattern, response, endAfter)`: one prompt appended at the
        end; the builder itself is returned. */
    method AddPrompt(pattern: string, response: string, endAfter: bool) returns (self: CommandPromptBuilder)
      modifies this
      ensures self == this
      ensures prompts == old(prompts) + [PromptResponse(pattern, response, endAfter, None)]
      ensures command == old(command) && args == old(args)
      ensures debugMode == old(debugMode) && workingDir == old(workingDir) && env == old(env)
    {
      prompts := prompts + [PromptResponse(pattern, response, endAfter, None)];
      return this;
    }

    /** `addCustomPromptHandler(pattern, handler)`: one prompt appended whose
        answer is the handler's; its response is empty and it does not end
        stdin. */
    method AddCustomPromptHandler(pattern: string, handler: HandlerId) returns (self: CommandPromptBuilder)
      modifies this
      ensures self == this
      ensures prompts == old(prompts) + [PromptResponse(pattern, "", false, Some(handler))]
      ensures command == old(command) && args == old(args)
      ensures debugMode == old(debugMode) && workingDir == old(workingDir) && env == old(env)
    {
      prompts := prompts + [PromptResponse(pattern, "", false, Some(handler))];
      return this;
    }

    /** `withWorkingDir(cwd)`. */
    method WithWorkingDir(cwd: string) returns (self: CommandPromptBuilder)
      modifies this
      ensures self == this
      ensures workingDir == Some(cwd)
      ensures command == old(command) && args == old(args) && prompts == old(prompts)
      ensures debugMode == old(debugMode) && env == old(env)
    {
      workingDir := Some(cwd);
      return this;
    }

    /** `withEnv(env)`. */
    method WithEnv(e: Env) returns (self: CommandPromptBuilder)
      modifies this
      ensures self == this
      ensures env == Some(e)
      ensures command == old(command) && args == old(args) && prompts == old(prompts)
      ensures debugMode == old(debugMode) && workingDir == old(workingDir)
    {
      env := Some(e);
      return this;
    }

    /** `withDebug()`. */
    method WithDebug() returns (self: CommandPromptBuilder)
      modifies this
      ensures self == this
      ensures debugMode
      ensures command == old(command) && args == old(args) && prompts == old(prompts)
      ensures workingDir == old(workingDir) && env == old(env)
    {
      debugMode := true;
      return this;
    }

    /** The options `execute` passes: the prompts in insertion order, the
        debug flag, the working directory and the environment. */
    function Options(): PromptOptions
      reads this
    {
      PromptOptions(prompts, debugMode, workingDir, env)
    }

    /** `execute()`: the child is spawned with the builder's command,
        arguments, working directory and environment, writes `events` and
        exits with `code`; the builder's prompts answer it in order. */
    method Execute(events: seq<ChildEvent>, code: Option<int>)
      returns (child: Spawned, result: CommandResult, stdin: seq<StdinAction>)
      ensures child == Spawned(command, args, SpawnOptions(workingDir, env))
      ensures var st := Run(prompts, events);
              result == CommandResult(st.output, st.errorOutput, code) && stdin == st.actions
    {
      var options := Options();
      child, result, stdin :=
        ExecuteWithPrompts(command, args, options.prompts, SpawnOptions(options.cwd, options.env), events, code);
    }

    /** `CommandPromptBuilder.forNodeScript(scriptPath, ...args)`. */
    static method ForNodeScript(scriptPath: string, args: seq<string>) returns (b: CommandPromptBuilder)
      ensures fresh(b)
      ensures b.command == "node" && b.args == [scriptPath] + args
      ensures b.prompts == [] && !b.debugMode && b.workingDir.None? && b.env.None?
    {
      b := new CommandPromptBuilder("node", [scriptPath] + args);
    }

    /** `CommandPromptBuilder.forNpm(npmCommand, ...args)` on `platform`. */
    static method ForNpm(npmCommand: string, args: seq<string>, platform: string) returns (b: CommandPromptBuilder)
      ensures fresh(b)
      ensures b.command == (if platform == "win32" then "npm.cmd" else "npm")
      ensures b.args == [npmCommand] + args
      ensures b.prompts == [] && !b.debugMode && b.workingDir.None? && b.env.None?
    {
      b := new CommandPromptBuilder(NpmBinary(platform), [npmCommand] + args);
    }
  }

  /** The prompts `executeWithConfirmations` adds: one per confirmation, in
      order, each answered `y` when `yesForAll` and `n` otherwise. */
  function ConfirmationPrompts(confirmations: seq<string>, yesForAll: bool): (prompts: seq<PromptResponse>)
    ensures |prompts| == |confirmations|
    ensures forall i :: 0 <= i < |confirmations| ==>
              prompts[i] == PromptResponse(confirmations[i], if yesForAll then "y" else "n", false, None)
    decreases |confirmations|
  {
    if confirmations == [] then []
    else ConfirmationPrompts(confirmations[..|confirmations| - 1], yesForAll)
         + [PromptResponse(confirmations[|confirmations| - 1], if yesForAll then "y" else "n", false, None)]
  }

  /** `executeWithConfirmations(command, args, confirmations, yesForAll)`. */
  method ExecuteWithConfirmations(command: string, args: seq<string>, confirmations: seq<string>, yesForAll: bool,
                                  events: seq<ChildEvent>, code: Option<int>)
    returns (child: Spawned, result: CommandResult, stdin: seq<StdinAction>)
    ensures child == Spawned(command, args, SpawnOptions(None, None))
    ensures var st := Run(ConfirmationPrompts(confirmations, yesForAll), events);
            result == CommandResult(st.output, st.errorOutput, code) && stdin == st.actions
  {
    var builder := new CommandPromptBuilder(command, args);
    var i := 0;
    while i < |confirmations|
      invariant 0 <= i <= |confirmations|
      invariant builder.prompts == ConfirmationPrompts(confirmations[..i], yesForAll)
      invariant builder.command == command && builder.args == args
      invariant builder.workingDir.None? && builder.env.None?
    {
      assert confirmations[..i + 1][..i] == confirmations[..i];
      var _ := builder.AddPrompt(confirmations[i], if yesForAll then "y" else "n", false);
      i := i + 1;
    }
    assert confirmations[..i] == confirmations;
    child, result, stdin := builder.Execute(events, code);
  }

  /** Every answer a confirmation run writes is the same `y` (or `n`)
      line, and nothing else is done to stdin. */
  lemma {:induction false} ConfirmationAnswers(confirmations: seq<string>, yesForAll: bool, chunks: seq<string>)
    requires |chunks| <= |confirmations|
    ensures var answers := AnswersFor(ConfirmationPrompts(confirmations, yesForAll), chunks);
            && |answers| == |chunks|
            && forall i :: 0 <= i < |answers| ==> answers[i] == Write(if yesForAll then "y\n" else "n\n")
    decreases |chunks|
  {
    if chunks != [] {
      ConfirmationAnswers(confirmations, yesForAll, chunks[..|chunks| - 1]);
    }
  }
}

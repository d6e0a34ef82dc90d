/** Running a child process and answering its prompts
    (packages/cli/utils/commandExecute.ts). The child is seen through the
    chunks it writes to stdout and stderr, in the order they arrive, and its
    exit code; what is written to its stdin is recorded in order. */
module CommandExecute {
  import opened Wrappers
  import opened Text

  /** A custom prompt handler, named: the model records its calls. */
  type HandlerId = string

  /** A prompt to answer: a string pattern, the answer, whether stdin ends
      after answering, and an optional handler that answers instead. */
  datatype PromptResponse = PromptResponse(pattern: string, response: string, endAfter: bool, handler: Option<HandlerId>)

  /** A chunk of output from the child. */
  datatype ChildEvent = Stdout(chunk: string) | Stderr(chunk: string)

  /** What the stdout handler does to the child. */
  datatype StdinAction =
    | Write(text: string)                         // child.stdin.write(text)
    | EndStdin                                    // child.stdin.end()
    | CallHandler(handler: HandlerId, chunk: string) // handler(child, chunk)

  /** Environment variables. */
  type Env = map<string, string>

  /** The options `executeWithPrompts` passes on to `spawn` besides its
      pipes: everything but `prompts`, `debug` and `onComplete`. */
  datatype SpawnOptions = SpawnOptions(cwd: Option<string>, env: Option<Env>)

  /** A child process as `spawn` starts it. */
  datatype Spawned = Spawned(command: string, args: seq<string>, options: SpawnOptions)

  /** What the returned promise resolves to. */
  datatype CommandResult = CommandResult(stdout: string, stderr: string, code: Option<int>)

  /** The closure variables of `executeWithPrompts` (`output`, `errorOutput`,
      `promptNo`) and the actions taken on the child's stdin so far. */
  datatype SessionState = SessionState(output: string, errorOutput: string, promptNo: nat, actions: seq<StdinAction>)

  /** The state before any output. */
  const Start: SessionState := SessionState("", "", 0, [])

  /** What answering prompt `p` on `chunk` does to stdin. */
  function Answer(p: PromptResponse, chunk: string): seq<StdinAction> {
    (match p.handler
     case Some(h) => [CallHandler(h, chunk)]
     case None => [Write(p.response + "\n")])
    + (if p.endAfter then [EndStdin] else [])
  }

  /** The prompt waiting for an answer matches `chunk`. */
  predicate Matches(prompts: seq<PromptResponse>, promptNo: nat, chunk: string) {
    promptNo < |prompts| && Contains(chunk, prompts[promptNo].pattern)
  }

  /** The effect of one output event. A stdout chunk is appended to the
      output and, when it contains the pattern of the prompt waiting for an
      answer, that prompt is answered and the next one waits. */
  function Step(prompts: seq<PromptResponse>, st: SessionState, ev: ChildEvent): SessionState {
    match ev
    case Stderr(chunk) => st.(errorOutput := st.errorOutput + chunk)
    case Stdout(chunk) =>
      if Matches(prompts, st.promptNo, chunk) then
        SessionState(st.output + chunk, st.errorOutput, st.promptNo + 1,
                     st.actions + Answer(prompts[st.promptNo], chunk))
      else st.(output := st.output + chunk)
  }

  /** The state after `events`, in order. */
  function Run(prompts: seq<PromptResponse>, events: seq<ChildEvent>): SessionState
    decreases |events|
  {
    if events == [] then Start
    else Step(prompts, Run(prompts, events[..|events| - 1]), events[|events| - 1])
  }

  /** `executeWithPrompts(command, args, {prompts, ...spawnOptions})`: the
      child is spawned with the remaining options, writes `events` and exits
      with `code`. Returns the child, the resolved result and what was done
      to the child's stdin. */
  method ExecuteWithPrompts(command: string, args: seq<string>, prompts: seq<PromptResponse>,
                            spawnOptions: SpawnOptions, events: seq<ChildEvent>, code: Option<int>)
    returns (child: Spawned, result: CommandResult, stdin: seq<StdinAction>)
    ensures child == Spawned(command, args, spawnOptions)
    ensures var st := Run(prompts, events);
            result == CommandResult(st.output, st.errorOutput, code) && stdin == st.actions
  {
    child := Spawned(command, args, spawnOptions);
    var output := "";
    var errorOutput := "";
    var promptNo: nat := 0;
    stdin := [];
    var i := 0;
    while i < |events|
      invariant 0 <= i <= |events|
      invariant Run(prompts, events[..i]) == SessionState(output, errorOutput, promptNo, stdin)
    {
      assert events[..i + 1][..i] == events[..i];
      match events[i] {
        case Stdout(str) =>
          output := output + str;
          if promptNo < |prompts| {
            var currentPrompt := prompts[promptNo];
            var matched := Contains(str, currentPrompt.pattern);
            if matched {
              match currentPrompt.handler {
                case Some(h) =>
                  stdin := stdin + [CallHandler(h, str)];
                case None =>
                  stdin := stdin + [Write(currentPrompt.response + "\n")];
              }
              if currentPrompt.endAfter {
                stdin := stdin + [EndStdin];
              }
              promptNo := promptNo + 1;
            }
          }
        case Stderr(str) =>
          errorOutput := errorOutput + str;
      }
      i := i + 1;
    }
    assert events[..i] == events;
    result := CommandResult(output, errorOutput, code);
  }

  /** The stdout chunks, concatenated in order. */
  function StdoutText(events: seq<ChildEvent>): string
    decreases |events|
  {
    if events == [] then ""
    else StdoutText(events[..|events| - 1]) + (if events[|events| - 1].Stdout? then events[|events| - 1].chunk else "")
  }

  /** The stderr chunks, concatenated in order. */
  function StderrText(events: seq<ChildEvent>): string
    decreases |events|
  {
    if events == [] then ""
    else StderrText(events[..|events| - 1]) + (if events[|events| - 1].Stderr? then events[|events| - 1].chunk else "")
  }

  /** The resolved stdout and stderr are every chunk of each stream, in
      order; prompts never filter the output. */
  lemma {:induction false} OutputIsEveryChunk(prompts: seq<PromptResponse>, events: seq<ChildEvent>)
    ensures Run(prompts, events).output == StdoutText(events)
    ensures Run(prompts, events).errorOutput == StderrText(events)
    decreases |events|
  {
    if events != [] {
      OutputIsEveryChunk(prompts, events[..|events| - 1]);
    }
  }

  /** One event moves the cursor by at most one, and only a stdout chunk
      that contains the waiting prompt's pattern moves it. */
  lemma StepAdvance(prompts: seq<PromptResponse>, st: SessionState, ev: ChildEvent)
    requires st.promptNo <= |prompts|
    ensures var next := Step(prompts, st, ev);
            && (next.promptNo == st.promptNo || next.promptNo == st.promptNo + 1)
            && (next.promptNo == st.promptNo + 1 <==> ev.Stdout? && Matches(prompts, st.promptNo, ev.chunk))
            && next.promptNo <= |prompts|
            && (next.promptNo == st.promptNo ==> next.actions == st.actions)
  {
  }

  /** The answers given by prompts `0 .. n-1`, in order, each with the chunk
      that matched it. */
  predicate AnsweredInOrder(prompts: seq<PromptResponse>, actions: seq<StdinAction>, chunks: seq<string>)
  {
    |chunks| <= |prompts| && actions == AnswersFor(prompts, chunks)
  }

  /** The stdin actions of answering the first `|chunks|` prompts on `chunks`. */
  function AnswersFor(prompts: seq<PromptResponse>, chunks: seq<string>): seq<StdinAction>
    requires |chunks| <= |prompts|
    decreases |chunks|
  {
    if chunks == [] then []
    else AnswersFor(prompts, chunks[..|chunks| - 1]) + Answer(prompts[|chunks| - 1], chunks[|chunks| - 1])
  }

  /** The chunks that answered a prompt, in order. */
  function MatchedChunks(prompts: seq<PromptResponse>, events: seq<ChildEvent>): (chunks: seq<string>)
    ensures |chunks| == Run(prompts, events).promptNo
    ensures |chunks| <= |prompts|
    decreases |events|
  {
    if events == [] then []
    else
      var before := Run(prompts, events[..|events| - 1]);
      var ev := events[|events| - 1];
      var chunks := MatchedChunks(prompts, events[..|events| - 1]);
      if ev.Stdout? && Matches(prompts, before.promptNo, ev.chunk) then chunks + [ev.chunk] else chunks
  }

  /** The cursor never passes the end of the prompt list, and stdin receives
      exactly the answers of the prompts passed so far, in prompt order. */
  lemma {:induction false} PromptsAnsweredInOrder(prompts: seq<PromptResponse>, events: seq<ChildEvent>)
    ensures Run(prompts, events).promptNo <= |prompts|
    ensures AnsweredInOrder(prompts, Run(prompts, events).actions, MatchedChunks(prompts, events))
    decreases |events|
  {
    if events != [] {
      var init := events[..|events| - 1];
      PromptsAnsweredInOrder(prompts, init);
      var chunks := MatchedChunks(prompts, init);
      var ev := events[|events| - 1];
      if ev.Stdout? && Matches(prompts, Run(prompts, init).promptNo, ev.chunk) {
        var more := chunks + [ev.chunk];
        assert more[..|more| - 1] == chunks;
      }
    }
  }

  /** When no prompt but the last one ends stdin, the answers end stdin at
      most at their very end, and not at all before the last prompt. */
  lemma {:induction false} AnswersEndLast(prompts: seq<PromptResponse>, chunks: seq<string>)
    requires |chunks| <= |prompts|
    requires forall i :: 0 <= i < |prompts| - 1 ==> !prompts[i].endAfter
    ensures var a := AnswersFor(prompts, chunks);
            && (|chunks| < |prompts| ==> EndStdin !in a)
            && forall j :: 0 <= j < |a| - 1 ==> a[j] != EndStdin
    decreases |chunks|
  {
    if chunks != [] {
      AnswersEndLast(prompts, chunks[..|chunks| - 1]);
    }
  }

  /** When no prompt but the last one has `endAfter`, nothing is done to
      stdin after it has been ended. */
  lemma NoActionAfterEnd(prompts: seq<PromptResponse>, events: seq<ChildEvent>)
    requires forall i :: 0 <= i < |prompts| - 1 ==> !prompts[i].endAfter
    ensures var a := Run(prompts, events).actions;
            forall j :: 0 <= j < |a| - 1 ==> a[j] != EndStdin
  {
    PromptsAnsweredInOrder(prompts, events);
    AnswersEndLast(prompts, MatchedChunks(prompts, events));
  }

  /** Once every prompt has been answered, later output changes nothing on
      stdin. */
  lemma {:induction false} NoAnswersAfterLastPrompt(prompts: seq<PromptResponse>, events: seq<ChildEvent>, later: seq<ChildEvent>)
    requires Run(prompts, events).promptNo == |prompts|
    ensures Run(prompts, events + later).actions == Run(prompts, events).actions
    ensures Run(prompts, events + later).promptNo == |prompts|
    decreases |later|
  {
    if later != [] {
      var init := later[..|later| - 1];
      assert (events + later)[..|events + later| - 1] == events + init;
      NoAnswersAfterLastPrompt(prompts, events, init);
    } else {
      assert events + later == events;
    }
  }

  /** A prompt as `executeCliWithPrompts` receives it: `[pattern, response, endAfter?]`. */
  datatype PromptTuple = PromptTuple(pattern: string, response: string, endAfter: Option<bool>)

  /** The prompt list `executeCliWithPrompts` builds: one prompt per tuple,
      in order, `endAfter` defaulting to `false`, no handler. */
  function PromptsOfTuples(tuples: seq<PromptTuple>): (prompts: seq<PromptResponse>)
    ensures |prompts| == |tuples|
    ensures forall i :: 0 <= i < |tuples| ==>
              && prompts[i].pattern == tuples[i].pattern
              && prompts[i].response == tuples[i].response
              && (prompts[i].endAfter <==> tuples[i].endAfter == Some(true))
              && prompts[i].handler.None?
    decreases |tuples|
  {
    if tuples == [] then []
    else
      [PromptResponse(tuples[0].pattern, tuples[0].response, tuples[0].endAfter.GetOr(false), None)]
      + PromptsOfTuples(tuples[1..])
  }

  /** `executeCliWithPrompts(command, args, tuples, options)`. */
  method ExecuteCliWithPrompts(command: string, args: seq<string>, tuples: seq<PromptTuple>,
                               options: SpawnOptions, events: seq<ChildEvent>, code: Option<int>)
    returns (child: Spawned, result: CommandResult, stdin: seq<StdinAction>)
    ensures child == Spawned(command, args, options)
    ensures var st := Run(PromptsOfTuples(tuples), events);
            result == CommandResult(st.output, st.errorOutput, code) && stdin == st.actions
  {
    child, result, stdin := ExecuteWithPrompts(command, args, PromptsOfTuples(tuples), options, events, code);
  }

  /** The binary npm is started as. */
  function NpmBinary(platform: string): string {
    if platform == "win32" then "npm.cmd" else "npm"
  }

  /** A process to spawn: binary, arguments and string-valued options. */
  datatype Invocation = Invocation(binary: string, args: seq<string>, options: map<string, string>)

  /** `executeNpmCommand(command, cwd, options)`: npm with the command split
      on single spaces, in `cwd` unless the options name another. */
  function NpmInvocation(command: string, cwd: string, options: map<string, string>, platform: string): (inv: Invocation)
    ensures inv.binary == (if platform == "win32" then "npm.cmd" else "npm")
    ensures |inv.args| > 0 && Join(inv.args, ' ') == command
    ensures forall i :: 0 <= i < |inv.args| ==> ' ' !in inv.args[i]
    ensures "cwd" in inv.options && inv.options["cwd"] == (if "cwd" in options then options["cwd"] else cwd)
    ensures forall k :: k in options ==> k in inv.options && inv.options[k] == options[k]
    ensures inv.options.Keys == options.Keys + {"cwd"}
  {
    Invocation(NpmBinary(platform), Split(command, ' '), map["cwd" := cwd] + options)
  }

  /** The arguments are exactly the space-separated words: splitting undoes
      joining, so no argument is lost or merged. */
  lemma NpmArgumentsRoundTrip(words: seq<string>, cwd: string, options: map<string, string>, platform: string)
    requires |words| > 0 && forall i :: 0 <= i < |words| ==> ' ' !in words[i]
    ensures NpmInvocation(Join(words, ' '), cwd, options, platform).args == words
  {
    SplitJoin(words, ' ');
  }
}

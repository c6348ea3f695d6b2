/** The two-stage grading engine (`GradingEngine` in grading_engine.py):
    run the participant's prompt three times, then ask the evaluator once for
    a structured score and validate it.

    The LLM service is an oracle: `Env.script` holds, in call order, what each
    chat-completion call will answer (a completion, whose content may be
    None, or an error). The
    engine's side effects are recorded in the same value: every request it
    sends is appended to `sent` (so the k-th call gets `script[k]`) and every
    `time.sleep` is appended to `slept`, in milliseconds. */
module GradingEngine {
  import opened Wrappers
  import opened PyText
  import opened MasterPrompt

  // ---------------------------------------------------------------------
  // The LLM service and the clock
  // ---------------------------------------------------------------------

  datatype ChatMessage = ChatMessage(role: string, content: string)

  datatype Request = Request(model: string, messages: seq<ChatMessage>, temperature: real,
                             maxTokens: nat, jsonObject: bool)

  /** A completion's `message.content` is optional: the service may answer
      with no text, and the client then returns None. */
  datatype Reply = Completion(content: Option<string>) | CallError(message: string)

  datatype Env = Env(script: seq<Reply>, sent: seq<Request>, slept: seq<nat>)

  /** What a call past the end of the script answers. */
  const ExhaustedMessage := "no scripted reply"

  /** The answer to the call with index `k`. */
  function ReplyAt(script: seq<Reply>, k: nat): Reply {
    if k < |script| then script[k] else CallError(ExhaustedMessage)
  }

  /** The answers to the calls with indexes `from` up to `to` (exclusive). */
  function Window(script: seq<Reply>, from: nat, to: nat): (w: seq<Reply>)
    requires from <= to
    ensures |w| == to - from
    ensures forall i :: 0 <= i < |w| ==> w[i] == ReplyAt(script, from + i)
  {
    seq(to - from, i requires 0 <= i < to - from => ReplyAt(script, from + i))
  }

  function Send(env: Env, req: Request): Env {
    env.(sent := env.sent + [req])
  }

  function Sleep(env: Env, ms: nat): Env {
    env.(slept := env.slept + [ms])
  }

  /** The contents of the completions among `replies`, in order. */
  function Completions(replies: seq<Reply>): (texts: seq<Option<string>>)
    ensures |texts| <= |replies|
  {
    if replies == [] then []
    else (if replies[0].Completion? then [replies[0].content] else []) + Completions(replies[1..])
  }

  lemma {:induction false} CompletionsAppend(a: seq<Reply>, b: seq<Reply>)
    ensures Completions(a + b) == Completions(a) + Completions(b)
  {
    if a != [] {
      assert (a + b)[1..] == a[1..] + b;
      CompletionsAppend(a[1..], b);
    } else {
      assert a + b == b;
    }
  }

  /** Replies that are all errors but possibly the last have at most that
      one completion. */
  lemma {:induction false} CompletionsOfRun(w: seq<Reply>)
    requires forall i :: 0 <= i < |w| - 1 ==> w[i].CallError?
    ensures w == [] ==> Completions(w) == []
    ensures w != [] ==> Completions(w) == (if w[|w| - 1].Completion? then [w[|w| - 1].content] else [])
  {
    if |w| > 1 {
      CompletionsOfRun(w[1..]);
      assert w[1..][|w[1..]| - 1] == w[|w| - 1];
    }
  }

  lemma WindowSplit(script: seq<Reply>, a: nat, b: nat, c: nat)
    requires a <= b <= c
    ensures Window(script, a, c) == Window(script, a, b) + Window(script, b, c)
  {
  }

  /** `env'` continues `env`: the same script, and the requests sent before
      are still the first ones. */
  ghost predicate Extends(env: Env, env': Env) {
    && env'.script == env.script
    && |env.sent| <= |env'.sent|
    && env'.sent[..|env.sent|] == env.sent
  }

  /** Every request sent from `env` to `env'` is `req`. */
  ghost predicate SentOnly(env: Env, env': Env, req: Request)
    requires |env.sent| <= |env'.sent|
  {
    forall k :: |env.sent| <= k < |env'.sent| ==> env'.sent[k] == req
  }

  /** The replies to the calls made from `env` to `env'`. */
  ghost function Consumed(env: Env, env': Env): seq<Reply>
    requires |env.sent| <= |env'.sent|
  {
    Window(env.script, |env.sent|, |env'.sent|)
  }

  /** One call, possibly followed by sleeps. */
  lemma OneCall(env: Env, req: Request, env1: Env)
    requires env1.script == env.script && env1.sent == env.sent + [req]
    ensures Extends(env, env1) && SentOnly(env, env1, req)
    ensures Consumed(env, env1) == [ReplyAt(env.script, |env.sent|)]
  {
  }

  lemma Chain(env: Env, mid: Env, env': Env, req: Request)
    requires Extends(env, mid) && Extends(mid, env')
    requires SentOnly(env, mid, req) && SentOnly(mid, env', req)
    ensures Extends(env, env') && SentOnly(env, env', req)
    ensures Consumed(env, env') == Consumed(env, mid) + Consumed(mid, env')
  {
    assert env'.sent[..|env.sent|] == env'.sent[..|mid.sent|][..|env.sent|];
    forall k | |env.sent| <= k < |env'.sent|
      ensures env'.sent[k] == req
    {
      if k < |mid.sent| {
        assert env'.sent[k] == env'.sent[..|mid.sent|][k];
      }
    }
    WindowSplit(env.script, |env.sent|, |mid.sent|, |env'.sent|);
  }

  // ---------------------------------------------------------------------
  // Engine settings
  // ---------------------------------------------------------------------

  /** A grading engine; the only setting that varies is the model name. */
  datatype Engine = Engine(model: string)

  const DefaultModel := "gpt-4o-mini"
  const ExecutionTemperature: real := 0.1
  const GradingTemperature: real := 0.0
  const ExecutionMaxTokens: nat := 4000
  const GradingMaxTokens: nat := 2000

  /** The pause after each successful execution run (0.5 s). */
  const RateLimitPauseMs: nat := 500

  /** Retries of one execution call when the caller does not say otherwise. */
  const DefaultMaxRetries: int := 2

  /** Calls the evaluator loop makes at most. */
  const EvaluationAttempts: nat := 3

  const MaxRetriesMessage := "Max retries exceeded"
  const InvalidFormatMessage := "Invalid grading result format"
  const EvaluatorRole := "You are a professional evaluator for prompt engineering competitions. Evaluate submissions objectively and consistently according to the rubric."

  function Pow2(n: nat): (p: nat)
    ensures p >= 1
  {
    if n == 0 then 1 else 2 * Pow2(n - 1)
  }

  /** `time.sleep(2 ** retry)`, in milliseconds. */
  function BackoffMs(retry: nat): nat {
    1000 * Pow2(retry)
  }

  /** The backoff pauses after failed attempts `from`, `from + 1`, ... */
  function Backoffs(from: nat, count: nat): (b: seq<nat>)
    decreases count
    ensures |b| == count
    ensures forall i :: 0 <= i < count ==> b[i] == BackoffMs(from + i)
  {
    if count == 0 then [] else [BackoffMs(from)] + Backoffs(from + 1, count - 1)
  }

  function ExecutionRequest(engine: Engine, prompt: string): Request {
    Request(engine.model, [ChatMessage("user", prompt)], ExecutionTemperature, ExecutionMaxTokens, false)
  }

  function GradingRequest(engine: Engine, masterPrompt: string): Request {
    Request(engine.model, [ChatMessage("system", EvaluatorRole), ChatMessage("user", masterPrompt)],
            GradingTemperature, GradingMaxTokens, true)
  }

  /** A failed attempt `retry`, its backoff, then the later attempts: one
      more call with the same request before them, and one more backoff
      before theirs. */
  lemma RetryStep(env: Env, req: Request, retry: nat, env2: Env, env': Env)
    requires env2 == Sleep(Send(env, req), BackoffMs(retry))
    requires Extends(env2, env') && SentOnly(env2, env', req)
    requires |Consumed(env2, env')| >= 1
    requires env'.slept == env2.slept + Backoffs(retry + 1, Retried(|Consumed(env2, env')|))
    ensures Extends(env, env') && SentOnly(env, env', req)
    ensures Consumed(env, env') == [ReplyAt(env.script, |env.sent|)] + Consumed(env2, env')
    ensures env'.slept == env.slept + Backoffs(retry, Retried(|Consumed(env, env')|))
  {
    OneCall(env, req, env2);
    Chain(env, env2, env', req);
    var n2 := Retried(|Consumed(env2, env')|);
    assert Backoffs(retry, n2 + 1) == [BackoffMs(retry)] + Backoffs(retry + 1, n2);
    assert env'.slept == env.slept + ([BackoffMs(retry)] + Backoffs(retry + 1, n2));
  }

  // ---------------------------------------------------------------------
  // _execute_single_prompt: one run with bounded retries
  // ---------------------------------------------------------------------

  datatype RunResult = RunOk(output: Option<string>) | RunFailed(error: string)

  /** The retry loop of one run, from attempt `retry` on. */
  function SingleRunFrom(engine: Engine, prompt: string, maxRetries: int, retry: nat, env: Env): (RunResult, Env)
    decreases maxRetries + 1 - retry
  {
    if retry > maxRetries then (RunFailed(MaxRetriesMessage), env)
    else
      var env1 := Send(env, ExecutionRequest(engine, prompt));
      match ReplyAt(env.script, |env.sent|)
      case Completion(text) => (RunOk(text), env1)
      case CallError(message) =>
        if retry < maxRetries then
          SingleRunFrom(engine, prompt, maxRetries, retry + 1, Sleep(env1, BackoffMs(retry)))
        else (RunFailed(message), env1)
  }

  function SingleRun(engine: Engine, prompt: string, maxRetries: int, env: Env): (RunResult, Env) {
    SingleRunFrom(engine, prompt, maxRetries, 0, env)
  }

  /** The number of sleeps after `n` attempts: one after each but the last. */
  function Retried(n: nat): nat {
    if n == 0 then 0 else n - 1
  }

  /** What the replies `w` consumed from attempt `retry` on say about the
      run's result: all but the last were errors; a success returns the last
      reply's text; a failure made every attempt left and reports the last
      error; a negative budget makes no call. */
  ghost predicate RunOutcome(maxRetries: int, retry: nat, w: seq<Reply>, r: RunResult) {
    && (forall i :: 0 <= i < |w| - 1 ==> w[i].CallError?)
    && (retry > maxRetries ==> w == [] && r == RunFailed(MaxRetriesMessage))
    && (retry <= maxRetries ==> 1 <= |w| <= maxRetries + 1 - retry)
    && (r.RunOk? ==> |w| >= 1 && w[|w| - 1] == Completion(r.output))
    && (r.RunFailed? && retry <= maxRetries ==>
          |w| == maxRetries + 1 - retry && w[|w| - 1] == CallError(r.error))
  }

  lemma RunOutcomeRetry(maxRetries: int, retry: nat, reply: Reply, w: seq<Reply>, r: RunResult)
    requires reply.CallError? && retry < maxRetries
    requires RunOutcome(maxRetries, retry + 1, w, r)
    ensures RunOutcome(maxRetries, retry, [reply] + w, r)
  {
    var w' := [reply] + w;
    forall i | 0 <= i < |w'| - 1
      ensures w'[i].CallError?
    {
      if i > 0 {
        assert w'[i] == w[i - 1];
      }
    }
  }

  /** What one run does: every call sends the run's prompt, the replies
      consumed satisfy `RunOutcome`, and after each failed attempt `r` that
      is not the last it slept `2^r` seconds. */
  ghost predicate RunShape(engine: Engine, prompt: string, maxRetries: int, retry: nat,
                           env: Env, r: RunResult, env': Env)
  {
    && Extends(env, env')
    && SentOnly(env, env', ExecutionRequest(engine, prompt))
    && RunOutcome(maxRetries, retry, Consumed(env, env'), r)
    && env'.slept == env.slept + Backoffs(retry, Retried(|Consumed(env, env')|))
  }

  lemma {:induction false} SingleRunFromShape(engine: Engine, prompt: string, maxRetries: int, retry: nat, env: Env)
    ensures var (r, env') := SingleRunFrom(engine, prompt, maxRetries, retry, env);
            RunShape(engine, prompt, maxRetries, retry, env, r, env')
    decreases maxRetries + 1 - retry
  {
    var (r, env') := SingleRunFrom(engine, prompt, maxRetries, retry, env);
    if retry <= maxRetries {
      var req := ExecutionRequest(engine, prompt);
      var env1 := Send(env, req);
      var reply := ReplyAt(env.script, |env.sent|);
      if reply.CallError? && retry < maxRetries {
        var env2 := Sleep(env1, BackoffMs(retry));
        assert (r, env') == SingleRunFrom(engine, prompt, maxRetries, retry + 1, env2);
        SingleRunFromShape(engine, prompt, maxRetries, retry + 1, env2);
        RetryStep(env, req, retry, env2, env');
        RunOutcomeRetry(maxRetries, retry, reply, Consumed(env2, env'), r);
      } else {
        OneCall(env, req, env1);
      }
    }
  }

  /** `_execute_single_prompt`: at most `maxRetries + 1` calls, the first
      completion wins, and the failure path reports the last error. */
  lemma SingleRunShape(engine: Engine, prompt: string, maxRetries: int, env: Env)
    ensures var (r, env') := SingleRun(engine, prompt, maxRetries, env);
            RunShape(engine, prompt, maxRetries, 0, env, r, env')
  {
    SingleRunFromShape(engine, prompt, maxRetries, 0, env);
  }

  /** The retry loop of `_execute_single_prompt`. */
  method ExecuteSinglePrompt(engine: Engine, prompt: string, maxRetries: int, env: Env)
    returns (r: RunResult, env': Env)
    ensures (r, env') == SingleRun(engine, prompt, maxRetries, env)
  {
    env' := env;
    var retry: nat := 0;
    while retry <= maxRetries
      invariant retry <= maxRetries + 1 || retry == 0
      invariant SingleRunFrom(engine, prompt, maxRetries, retry, env') == SingleRun(engine, prompt, maxRetries, env)
      decreases maxRetries + 1 - retry
    {
      var reply := ReplyAt(env'.script, |env'.sent|);
      env' := Send(env', ExecutionRequest(engine, prompt));
      match reply
      case Completion(text) =>
        return RunOk(text), env';
      case CallError(message) =>
        if retry < maxRetries {
          env' := Sleep(env', BackoffMs(retry));
          retry := retry + 1;
        } else {
          return RunFailed(message), env';
        }
    }
    r := RunFailed(MaxRetriesMessage);
  }

  // ---------------------------------------------------------------------
  // execute_prompt_3_times
  // ---------------------------------------------------------------------

  /** The text sent for each run: the prompt, with the assignment input appended
      under an "[Input Data]" heading when there is a non-empty input. */
  function FullPrompt(prompt: string, input: Option<string>): (full: string)
    ensures Truthy(input) ==> full == prompt + "\n\n[Input Data]\n" + input.value
    ensures !Truthy(input) ==> full == prompt
  {
    if Truthy(input) then prompt + "\n\n[Input Data]\n" + input.value else prompt
  }

  datatype ExecResult = ExecOk(outputs: seq<Option<string>>) | ExecFailed(error: string)

  function ExecutionFailure(run: nat, error: string): string {
    "Execution " + NatToString(run) + " failed: " + error
  }

  /** The loop over the three runs, from run index `attempt` on, with the
      outputs collected so far. */
  function RunsFrom(engine: Engine, full: string, maxRetries: int, attempt: nat,
                    outputs: seq<Option<string>>, env: Env): (ExecResult, Env)
    requires attempt <= 3
    decreases 3 - attempt
  {
    if attempt == 3 then (ExecOk(outputs), env)
    else
      var (r, env1) := SingleRun(engine, full, maxRetries, env);
      match r
      case RunFailed(e) => (ExecFailed(ExecutionFailure(attempt + 1, e)), env1)
      case RunOk(o) =>
        RunsFrom(engine, full, maxRetries, attempt + 1, outputs + [o], Sleep(env1, RateLimitPauseMs))
  }

  function ExecuteThree(engine: Engine, prompt: string, input: Option<string>, maxRetries: int, env: Env)
    : (ExecResult, Env)
  {
    RunsFrom(engine, FullPrompt(prompt, input), maxRetries, 0, [], env)
  }

  /** What the replies `w` consumed by the runs from `attempt` on say about
      the result: a success returns the outputs so far followed by every
      completion received, one per remaining run; a failure names the run
      that failed (one more than the runs that succeeded), and the last
      reply is that run's last error, so no later run was started. */
  ghost predicate ExecOutcome(maxRetries: int, attempt: nat, outputs: seq<Option<string>>, w: seq<Reply>, x: ExecResult) {
    var got := Completions(w);
    && (x.ExecOk? ==> |got| == 3 - attempt && x.outputs == outputs + got)
    && (x.ExecFailed? ==>
          && |got| < 3 - attempt
          && (maxRetries < 0 ==> w == [] && x.error == ExecutionFailure(attempt + 1, MaxRetriesMessage))
          && (maxRetries >= 0 ==>
                && w != [] && w[|w| - 1].CallError?
                && x.error == ExecutionFailure(attempt + |got| + 1, w[|w| - 1].message)))
  }

  /** What the three runs do: every call sends the full prompt and the
      replies consumed satisfy `ExecOutcome`. */
  ghost predicate ExecShape(engine: Engine, full: string, maxRetries: int, attempt: nat,
                            outputs: seq<Option<string>>, env: Env, x: ExecResult, env': Env)
  {
    && Extends(env, env')
    && SentOnly(env, env', ExecutionRequest(engine, full))
    && ExecOutcome(maxRetries, attempt, outputs, Consumed(env, env'), x)
  }

  lemma {:induction false} RunsFromShape(engine: Engine, full: string, maxRetries: int, attempt: nat,
                                         outputs: seq<Option<string>>, env: Env)
    requires attempt <= 3
    ensures var (x, env') := RunsFrom(engine, full, maxRetries, attempt, outputs, env);
            ExecShape(engine, full, maxRetries, attempt, outputs, env, x, env')
    decreases 3 - attempt
  {
    var (x, env') := RunsFrom(engine, full, maxRetries, attempt, outputs, env);
    if attempt == 3 {
      assert Consumed(env, env') == [];
    } else {
      var req := ExecutionRequest(engine, full);
      var (r, env1) := SingleRun(engine, full, maxRetries, env);
      SingleRunShape(engine, full, maxRetries, env);
      var w1 := Consumed(env, env1);
      if r.RunOk? {
        var env2 := Sleep(env1, RateLimitPauseMs);
        assert (x, env') == RunsFrom(engine, full, maxRetries, attempt + 1, outputs + [r.output], env2);
        RunsFromShape(engine, full, maxRetries, attempt + 1, outputs + [r.output], env2);
        var w3 := Consumed(env2, env');
        assert Consumed(env1, env') == w3;
        Chain(env, env1, env', req);
        ExecOutcomeStep(maxRetries, attempt, outputs, w1, w3, r, x);
      } else {
        assert (x, env') == (ExecFailed(ExecutionFailure(attempt + 1, r.error)), env1);
        ExecOutcomeFailed(maxRetries, attempt, outputs, w1, r);
      }
    }
  }

  /** A successful run followed by the later runs: its one completion
      comes first among the outputs. */
  lemma ExecOutcomeStep(maxRetries: int, attempt: nat, outputs: seq<Option<string>>, w1: seq<Reply>, w3: seq<Reply>,
                        r: RunResult, x: ExecResult)
    requires attempt < 3 && r.RunOk?
    requires RunOutcome(maxRetries, 0, w1, r)
    requires ExecOutcome(maxRetries, attempt + 1, outputs + [r.output], w3, x)
    ensures ExecOutcome(maxRetries, attempt, outputs, w1 + w3, x)
  {
    CompletionsOfRun(w1);
    CompletionsAppend(w1, w3);
    assert Completions(w1) == [r.output];
    if x.ExecOk? {
      assert outputs + [r.output] + Completions(w3) == outputs + ([r.output] + Completions(w3));
    } else if maxRetries >= 0 {
      assert (w1 + w3)[|w1 + w3| - 1] == w3[|w3| - 1];
    }
  }

  /** A failed run ends the loop: no completion, and its last error. */
  lemma ExecOutcomeFailed(maxRetries: int, attempt: nat, outputs: seq<Option<string>>, w1: seq<Reply>, r: RunResult)
    requires attempt < 3 && r.RunFailed?
    requires RunOutcome(maxRetries, 0, w1, r)
    ensures ExecOutcome(maxRetries, attempt, outputs, w1, ExecFailed(ExecutionFailure(attempt + 1, r.error)))
  {
    CompletionsOfRun(w1);
  }

  /** `execute_prompt_3_times`: exactly three outputs in call order, or the
      failure of the first run that failed and nothing after it. */
  lemma ExecuteThreeShape(engine: Engine, prompt: string, input: Option<string>, maxRetries: int, env: Env)
    ensures var (x, env') := ExecuteThree(engine, prompt, input, maxRetries, env);
            ExecShape(engine, FullPrompt(prompt, input), maxRetries, 0, [], env, x, env')
  {
    RunsFromShape(engine, FullPrompt(prompt, input), maxRetries, 0, [], env);
  }

  /** The loop of `execute_prompt_3_times`, appending each output. */
  method ExecutePromptThreeTimes(engine: Engine, prompt: string, input: Option<string>, maxRetries: int, env: Env)
    returns (x: ExecResult, env': Env)
    ensures (x, env') == ExecuteThree(engine, prompt, input, maxRetries, env)
  {
    var outputs: seq<Option<string>> := [];
    var full := if Truthy(input) then prompt + "\n\n[Input Data]\n" + input.value else prompt;
    env' := env;
    for attempt := 0 to 3
      invariant RunsFrom(engine, full, maxRetries, attempt, outputs, env') == ExecuteThree(engine, prompt, input, maxRetries, env)
    {
      var r;
      r, env' := ExecuteSinglePrompt(engine, full, maxRetries, env');
      if r.RunFailed? {
        return ExecFailed(ExecutionFailure(attempt + 1, r.error)), env';
      }
      outputs := outputs + [r.output];
      env' := Sleep(env', RateLimitPauseMs);
    }
    x := ExecOk(outputs);
  }

  // ---------------------------------------------------------------------
  // Parsed evaluator answers and _validate_grading_result
  // ---------------------------------------------------------------------

  /** A Python float. `json.loads` reads `NaN`, `Infinity` and `-Infinity`
      as floats too. A finite float is kept as the exact real it denotes. */
  datatype Double = Finite(value: real) | NaN | Infinity(negative: bool)

  /** A value as `json.loads` returns it: integers and floats stay apart,
      as Python keeps `int` and `float` apart. */
  datatype JsonValue =
    | JNull
    | JBool(b: bool)
    | JInt(i: int)
    | JFloat(f: Double)
    | JString(s: string)
    | JArray(items: seq<JsonValue>)
    | JObject(fields: map<string, JsonValue>)

  type JsonObject = map<string, JsonValue>

  /** The result of `json.loads` on the evaluator's text. */
  datatype Parsed = Parsed(obj: JsonObject) | Unparseable(message: string)

  /** The outcome of validation: True, False, or an exception raised inside
      it (a comparison with a value that is not a number). */
  datatype Check = Accepted | Rejected | Raised(message: string)

  /** The eight keys a grading result must have. */
  predicate HasRequiredKeys(result: JsonObject) {
    && "accuracy_score" in result && "accuracy_feedback" in result
    && "clarity_score" in result && "clarity_feedback" in result
    && "consistency_score" in result && "consistency_feedback" in result
    && "total_score" in result && "overall_feedback" in result
  }

  /** The value Python compares and adds: numbers, and booleans as 0 and 1. */
  function AsNumber(v: JsonValue): Option<Double> {
    match v
    case JInt(i) => Some(Finite(i as real))
    case JFloat(f) => Some(f)
    case JBool(b) => Some(Finite(if b then 1.0 else 0.0))
    case _ => None
  }

  function TypeName(v: JsonValue): string {
    match v
    case JNull => "NoneType"
    case JBool(_) => "bool"
    case JInt(_) => "int"
    case JFloat(_) => "float"
    case JString(_) => "str"
    case JArray(_) => "list"
    case JObject(_) => "dict"
  }

  /** `0 <= x <= hi` on a number: every comparison with NaN is False, and
      no infinity lies between two finite bounds. */
  predicate InRange(x: Double, hi: real) {
    x.Finite? && 0.0 <= x.value <= hi
  }

  /** `0 <= v <= hi`, which raises TypeError when `v` is not a number. */
  function CheckRange(v: JsonValue, hi: real): Check {
    match AsNumber(v)
    case None => Raised("'<=' not supported between instances of 'int' and '" + TypeName(v) + "'")
    case Some(x) => if InRange(x, hi) then Accepted else Rejected
  }

  function Abs(x: real): real {
    if x < 0.0 then -x else x
  }

  /** `abs(total - expected) > 0.1` for a finite `expected`: NaN minus
      anything is NaN, and NaN > 0.1 is False; an infinite total stays
      infinite and exceeds the tolerance. */
  predicate ExceedsTolerance(total: Double, expected: real) {
    match total
    case Finite(t) => Abs(t - expected) > 0.1
    case NaN => false
    case Infinity(_) => true
  }

  /** All eight keys, and three numeric sub-scores within 0..50, 0..30 and
      0..20. */
  ghost predicate ScoresInRange(result: JsonObject) {
    && HasRequiredKeys(result)
    && AsNumber(result["accuracy_score"]).Some? && InRange(AsNumber(result["accuracy_score"]).value, 50.0)
    && AsNumber(result["clarity_score"]).Some? && InRange(AsNumber(result["clarity_score"]).value, 30.0)
    && AsNumber(result["consistency_score"]).Some? && InRange(AsNumber(result["consistency_score"]).value, 20.0)
  }

  /** The sum of the three sub-scores of a result whose scores are in range. */
  ghost function SubScoreSum(result: JsonObject): real
    requires ScoresInRange(result)
  {
    AsNumber(result["accuracy_score"]).value.value + AsNumber(result["clarity_score"]).value.value
    + AsNumber(result["consistency_score"]).value.value
  }

  /** The total is a finite number within 0.1 of the sum of the sub-scores. */
  ghost predicate TotalConsistent(result: JsonObject)
    requires ScoresInRange(result)
  {
    && AsNumber(result["total_score"]).Some? && AsNumber(result["total_score"]).value.Finite?
    && Abs(AsNumber(result["total_score"]).value.value - SubScoreSum(result)) <= 0.1
  }

  /** A well-formed score, as the rubric means it: bounded sub-scores and a
      total that agrees with their sum. */
  ghost predicate WellFormedGrade(result: JsonObject) {
    ScoresInRange(result) && TotalConsistent(result)
  }

  /** What the validation as written lets through: a well-formed score, or
      bounded sub-scores with a NaN total. */
  ghost predicate PassesValidation(result: JsonObject) {
    ScoresInRange(result) && (AsNumber(result["total_score"]) == Some(NaN) || TotalConsistent(result))
  }

  /** `_validate_grading_result`: checks in the source's order, the first
      one that fails decides. */
  function ValidateGradingResult(result: JsonObject): (c: Check)
    ensures c == Accepted <==> PassesValidation(result)
    ensures !HasRequiredKeys(result) ==> c == Rejected
    ensures c.Raised? ==> HasRequiredKeys(result)
  {
    if !HasRequiredKeys(result) then Rejected
    else
      var acc := CheckRange(result["accuracy_score"], 50.0);
      if acc != Accepted then acc
      else
        var cla := CheckRange(result["clarity_score"], 30.0);
        if cla != Accepted then cla
        else
          var con := CheckRange(result["consistency_score"], 20.0);
          if con != Accepted then con
          else
            var expected := AsNumber(result["accuracy_score"]).value.value
                            + AsNumber(result["clarity_score"]).value.value
                            + AsNumber(result["consistency_score"]).value.value;
            var total := result["total_score"];
            match AsNumber(total)
            case None =>
              Raised("unsupported operand type(s) for -: '" + TypeName(total) + "' and '"
                     + SumTypeName(result) + "'")
            case Some(t) => if ExceedsTolerance(t, expected) then Rejected else Accepted
  }

  /** The Python type of `accuracy + clarity + consistency`: float as soon
      as one of them is a float. */
  function SumTypeName(result: JsonObject): string
    requires HasRequiredKeys(result)
  {
    if result["accuracy_score"].JFloat? || result["clarity_score"].JFloat? || result["consistency_score"].JFloat?
    then "float" else "int"
  }

  /** The empty dictionary is rejected. */
  lemma EmptyResultRejected()
    ensures ValidateGradingResult(map[]) == Rejected
  {
    var empty: JsonObject := map[];
    assert "accuracy_score" !in empty;
  }

  /** An accepted result has sub-scores within their bounds, and a total
      that is NaN or within 0.1 of their sum. */
  lemma AcceptedScoresInBounds(result: JsonObject)
    requires ValidateGradingResult(result) == Accepted
    ensures HasRequiredKeys(result)
    ensures var a := AsNumber(result["accuracy_score"]);
            var c := AsNumber(result["clarity_score"]);
            var s := AsNumber(result["consistency_score"]);
            var t := AsNumber(result["total_score"]);
            && a.Some? && c.Some? && s.Some? && t.Some?
            && a.value.Finite? && c.value.Finite? && s.value.Finite?
            && 0.0 <= a.value.value <= 50.0 && 0.0 <= c.value.value <= 30.0 && 0.0 <= s.value.value <= 20.0
            && (t.value.NaN? || (t.value.Finite? &&
                 -0.1 <= t.value.value - (a.value.value + c.value.value + s.value.value) <= 0.1))
  {
  }

  /** With integer scores the check is exact: a result with all eight keys
      is accepted exactly when the sub-scores are in range and the total
      equals their sum. */
  lemma IntegerScoresExact(result: JsonObject)
    requires HasRequiredKeys(result)
    requires result["accuracy_score"].JInt? && result["clarity_score"].JInt?
    requires result["consistency_score"].JInt? && result["total_score"].JInt?
    ensures var a := result["accuracy_score"].i;
            var c := result["clarity_score"].i;
            var s := result["consistency_score"].i;
            (ValidateGradingResult(result) == Accepted) <==>
            (0 <= a <= 50 && 0 <= c <= 30 && 0 <= s <= 20 && result["total_score"].i == a + c + s)
  {
    var a := result["accuracy_score"].i;
    var c := result["clarity_score"].i;
    var s := result["consistency_score"].i;
    var d := result["total_score"].i - (a + c + s);
    assert Abs(d as real) > 0.1 <==> d != 0;
  }

  /** A NaN total passes: the subtraction gives NaN and `NaN > 0.1` is
      False, so a score whose total is not a number is accepted although
      it is not well-formed. */
  lemma NaNTotalAccepted(result: JsonObject)
    requires ScoresInRange(result) && result["total_score"] == JFloat(NaN)
    ensures ValidateGradingResult(result) == Accepted
    ensures !WellFormedGrade(result)
  {
  }

  /** The evaluator's answer with a NaN total that validation accepts. */
  function NaNTotalExample(): JsonObject {
    map["accuracy_score" := JInt(50), "accuracy_feedback" := JString("ok"),
        "clarity_score" := JInt(30), "clarity_feedback" := JString("ok"),
        "consistency_score" := JInt(20), "consistency_feedback" := JString("ok"),
        "total_score" := JFloat(NaN), "overall_feedback" := JString("ok")]
  }

  lemma NaNTotalExampleAccepted()
    ensures ValidateGradingResult(NaNTotalExample()) == Accepted
    ensures !WellFormedGrade(NaNTotalExample())
  {
    NaNTotalAccepted(NaNTotalExample());
  }

  /** The validation as intended: the same checks, and a total that must be
      a finite number (`math.isfinite(total)`) before it is compared. */
  function ValidateGradingResultFinite(result: JsonObject): (c: Check)
    ensures c == Accepted <==> WellFormedGrade(result)
    ensures !HasRequiredKeys(result) ==> c == Rejected
  {
    var c := ValidateGradingResult(result);
    if c == Accepted && AsNumber(result["total_score"]) == Some(NaN) then Rejected else c
  }

  // ---------------------------------------------------------------------
  // evaluate_outputs
  // ---------------------------------------------------------------------

  /** What one evaluator call came to. */
  datatype Attempt = Graded(result: JsonObject) | Invalid | Thrown(message: string)

  /** What `json.loads(None)` raises. */
  const LoadsNoneMessage := "the JSON object must be str, bytes or bytearray, not NoneType"

  function AttemptOutcome(reply: Reply, parse: string -> Parsed): Attempt {
    match reply
    case CallError(m) => Thrown(m)
    case Completion(None) => Thrown(LoadsNoneMessage)
    case Completion(Some(text)) =>
      match parse(text)
      case Unparseable(m) => Thrown(m)
      case Parsed(obj) =>
        match ValidateGradingResult(obj)
        case Accepted => Graded(obj)
        case Rejected => Invalid
        case Raised(m) => Thrown(m)
  }

  datatype EvalResult = EvalOk(result: JsonObject) | EvalFailed(error: string)

  function GradingFailure(message: string): string {
    "Grading failed: " + message
  }

  /** The evaluator loop from attempt `retry` on. */
  function EvalFrom(engine: Engine, masterPrompt: string, parse: string -> Parsed, retry: nat, env: Env)
    : (EvalResult, Env)
    requires retry < EvaluationAttempts
    decreases EvaluationAttempts - retry
  {
    var env1 := Send(env, GradingRequest(engine, masterPrompt));
    match AttemptOutcome(ReplyAt(env.script, |env.sent|), parse)
    case Graded(obj) => (EvalOk(obj), env1)
    case Invalid => (EvalFailed(InvalidFormatMessage), env1)
    case Thrown(m) =>
      if retry < EvaluationAttempts - 1 then EvalFrom(engine, masterPrompt, parse, retry + 1, Sleep(env1, BackoffMs(retry)))
      else (EvalFailed(GradingFailure(m)), env1)
  }

  function Evaluate(engine: Engine, participantPrompt: string, outputs: seq<string>, golden: Option<string>,
                    requirements: Option<string>, assignmentName: string, parse: string -> Parsed, env: Env)
    : (EvalResult, Env)
    requires |outputs| >= 3
  {
    EvalFrom(engine, BuildMasterPrompt(participantPrompt, outputs, golden, requirements, assignmentName), parse, 0, env)
  }

  /** What the replies `w` to the evaluator calls from attempt `retry` on
      say about the result: one call at least and no more than the attempts
      left; all attempts but the last threw (call error, unparseable text or
      a TypeError in validation); the last one decides: an accepted score
      is returned, a parsed but invalid one fails at once, and an exception
      on the last attempt left fails with its message. */
  ghost predicate EvalOutcome(parse: string -> Parsed, retry: nat, w: seq<Reply>, e: EvalResult) {
    && 1 <= |w| <= EvaluationAttempts - retry
    && (forall i :: 0 <= i < |w| - 1 ==> AttemptOutcome(w[i], parse).Thrown?)
    && var last := AttemptOutcome(w[|w| - 1], parse);
    && (e.EvalOk? <==> last.Graded?)
    && (e.EvalOk? ==> last == Graded(e.result))
    && (e == EvalFailed(InvalidFormatMessage) <==> last.Invalid?)
    && (last.Thrown? ==> |w| == EvaluationAttempts - retry && e == EvalFailed(GradingFailure(last.message)))
  }

  lemma InvalidIsNotGradingFailure(m: string)
    ensures InvalidFormatMessage != GradingFailure(m)
  {
    assert InvalidFormatMessage[0] != GradingFailure(m)[0];
  }

  lemma EvalOutcomeRetry(parse: string -> Parsed, retry: nat, reply: Reply, w: seq<Reply>, e: EvalResult)
    requires AttemptOutcome(reply, parse).Thrown? && retry < EvaluationAttempts - 1
    requires EvalOutcome(parse, retry + 1, w, e)
    ensures EvalOutcome(parse, retry, [reply] + w, e)
  {
    var w' := [reply] + w;
    assert w'[|w'| - 1] == w[|w| - 1];
    forall i | 0 <= i < |w'| - 1
      ensures AttemptOutcome(w'[i], parse).Thrown?
    {
      if i > 0 {
        assert w'[i] == w[i - 1];
      }
    }
  }

  /** What the evaluator loop does: every call sends the same grading
      request, the replies consumed satisfy `EvalOutcome`, and after each
      exception `r` that is retried it slept `2^r` seconds. */
  ghost predicate EvalShape(engine: Engine, masterPrompt: string, parse: string -> Parsed, retry: nat,
                            env: Env, e: EvalResult, env': Env)
  {
    && Extends(env, env')
    && SentOnly(env, env', GradingRequest(engine, masterPrompt))
    && EvalOutcome(parse, retry, Consumed(env, env'), e)
    && env'.slept == env.slept + Backoffs(retry, Retried(|Consumed(env, env')|))
  }

  lemma {:induction false} EvalFromShape(engine: Engine, masterPrompt: string, parse: string -> Parsed, retry: nat, env: Env)
    requires retry < EvaluationAttempts
    ensures var (e, env') := EvalFrom(engine, masterPrompt, parse, retry, env);
            EvalShape(engine, masterPrompt, parse, retry, env, e, env')
    decreases EvaluationAttempts - retry
  {
    var (e, env') := EvalFrom(engine, masterPrompt, parse, retry, env);
    var req := GradingRequest(engine, masterPrompt);
    var env1 := Send(env, req);
    var reply := ReplyAt(env.script, |env.sent|);
    var first := AttemptOutcome(reply, parse);
    if first.Thrown? && retry < EvaluationAttempts - 1 {
      var env2 := Sleep(env1, BackoffMs(retry));
      assert (e, env') == EvalFrom(engine, masterPrompt, parse, retry + 1, env2);
      EvalFromShape(engine, masterPrompt, parse, retry + 1, env2);
      RetryStep(env, req, retry, env2, env');
      EvalOutcomeRetry(parse, retry, reply, Consumed(env2, env'), e);
    } else {
      OneCall(env, req, env1);
      EvalOutcomeLast(parse, retry, reply, e);
    }
  }

  /** An attempt that ends the loop decides the result on its own. */
  lemma EvalOutcomeLast(parse: string -> Parsed, retry: nat, reply: Reply, e: EvalResult)
    requires retry < EvaluationAttempts
    requires AttemptOutcome(reply, parse).Thrown? ==> retry == EvaluationAttempts - 1
    requires e == match AttemptOutcome(reply, parse)
                  case Graded(obj) => EvalOk(obj)
                  case Invalid => EvalFailed(InvalidFormatMessage)
                  case Thrown(m) => EvalFailed(GradingFailure(m))
    ensures EvalOutcome(parse, retry, [reply], e)
  {
    if AttemptOutcome(reply, parse).Thrown? {
      InvalidIsNotGradingFailure(AttemptOutcome(reply, parse).message);
    }
  }

  /** `evaluate_outputs`: one to three calls; an accepted result passed
      validation; a parsed but invalid result ends the loop at once. */
  lemma EvaluateShape(engine: Engine, participantPrompt: string, outputs: seq<string>, golden: Option<string>,
                      requirements: Option<string>, assignmentName: string, parse: string -> Parsed, env: Env)
    requires |outputs| >= 3
    ensures var (e, env') := Evaluate(engine, participantPrompt, outputs, golden, requirements, assignmentName, parse, env);
            EvalShape(engine, BuildMasterPrompt(participantPrompt, outputs, golden, requirements, assignmentName),
                      parse, 0, env, e, env')
  {
    EvalFromShape(engine, BuildMasterPrompt(participantPrompt, outputs, golden, requirements, assignmentName), parse, 0, env);
  }

  /** A parsed but invalid first answer is not retried: one call, and the
      "Invalid grading result format" failure. */
  lemma InvalidResultNotRetried(engine: Engine, participantPrompt: string, outputs: seq<string>, golden: Option<string>,
                                requirements: Option<string>, assignmentName: string, parse: string -> Parsed, env: Env)
    requires |outputs| >= 3
    requires AttemptOutcome(ReplyAt(env.script, |env.sent|), parse) == Invalid
    ensures var (e, env') := Evaluate(engine, participantPrompt, outputs, golden, requirements, assignmentName, parse, env);
            e == EvalFailed(InvalidFormatMessage) && |env'.sent| == |env.sent| + 1 && env'.slept == env.slept
  {
  }

  /** An accepted evaluation result always passes validation: bounded
      sub-scores, and a total within 0.1 of their sum or NaN. */
  lemma EvaluationAcceptsOnlyValid(engine: Engine, participantPrompt: string, outputs: seq<string>,
                                        golden: Option<string>, requirements: Option<string>, assignmentName: string,
                                        parse: string -> Parsed, env: Env)
    requires |outputs| >= 3
    ensures var (e, _) := Evaluate(engine, participantPrompt, outputs, golden, requirements, assignmentName, parse, env);
            e.EvalOk? ==> PassesValidation(e.result)
  {
    var masterPrompt := BuildMasterPrompt(participantPrompt, outputs, golden, requirements, assignmentName);
    EvalFromAcceptsOnlyValid(engine, masterPrompt, parse, env);
  }

  lemma EvalFromAcceptsOnlyValid(engine: Engine, masterPrompt: string, parse: string -> Parsed, env: Env)
    ensures var (e, _) := EvalFrom(engine, masterPrompt, parse, 0, env);
            e.EvalOk? ==> PassesValidation(e.result)
  {
    var (e, env') := EvalFrom(engine, masterPrompt, parse, 0, env);
    EvalFromShape(engine, masterPrompt, parse, 0, env);
    if e.EvalOk? {
      var w := Consumed(env, env');
      assert AttemptOutcome(w[|w| - 1], parse) == Graded(e.result);
    }
  }

  /** The retry loop of `evaluate_outputs`. */
  method EvaluateOutputs(engine: Engine, participantPrompt: string, outputs: seq<string>, golden: Option<string>,
                         requirements: Option<string>, assignmentName: string, parse: string -> Parsed, env: Env)
    returns (e: EvalResult, env': Env)
    requires |outputs| >= 3
    ensures (e, env') == Evaluate(engine, participantPrompt, outputs, golden, requirements, assignmentName, parse, env)
  {
    var masterPrompt := BuildMasterPrompt(participantPrompt, outputs, golden, requirements, assignmentName);
    e, env' := EvaluationLoop(engine, masterPrompt, parse, env);
  }

  /** The retry loop of `evaluate_outputs` on the built master prompt. */
  method EvaluationLoop(engine: Engine, masterPrompt: string, parse: string -> Parsed, env: Env)
    returns (e: EvalResult, env': Env)
    ensures (e, env') == EvalFrom(engine, masterPrompt, parse, 0, env)
  {
    env' := env;
    var retry: nat := 0;
    while retry < EvaluationAttempts
      invariant retry < EvaluationAttempts
      invariant EvalFrom(engine, masterPrompt, parse, retry, env') == EvalFrom(engine, masterPrompt, parse, 0, env)
      decreases EvaluationAttempts - retry
    {
      var reply := ReplyAt(env'.script, |env'.sent|);
      env' := Send(env', GradingRequest(engine, masterPrompt));
      var outcome := AttemptOutcome(reply, parse);
      match outcome
      case Graded(obj) =>
        return EvalOk(obj), env';
      case Invalid =>
        return EvalFailed(InvalidFormatMessage), env';
      case Thrown(m) =>
        if retry < EvaluationAttempts - 1 {
          env' := Sleep(env', BackoffMs(retry));
          retry := retry + 1;
        } else {
          return EvalFailed(GradingFailure(m)), env';
        }
    }
    e := EvalFailed(MaxRetriesMessage);
  }

  // ---------------------------------------------------------------------
  // grade_submission
  // ---------------------------------------------------------------------

  /** `(success, grading_result, outputs, error)`. */
  datatype Grading = Grading(success: bool, result: JsonObject, outputs: seq<string>, error: Option<string>)

  /** What `grade_submission` comes to: the tuple it returns, or the
      exception it lets escape. */
  datatype GradeOutcome = Returned(grading: Grading) | GradeRaised(message: string)

  /** What slicing a None output raises while the master prompt is built. */
  const NoneSubscriptMessage := "'NoneType' object is not subscriptable"

  /** The outputs as texts, when every one of them has text. */
  function AllTexts(outs: seq<Option<string>>): (texts: Option<seq<string>>)
    ensures texts.Some? <==> forall i :: 0 <= i < |outs| ==> outs[i].Some?
    ensures texts.Some? ==> |texts.value| == |outs| && forall i :: 0 <= i < |outs| ==> outs[i] == Some(texts.value[i])
  {
    if forall i :: 0 <= i < |outs| ==> outs[i].Some? then Some(seq(|outs|, i requires 0 <= i < |outs| => outs[i].value))
    else None
  }

  /** Execution succeeded, but some run's reply carried no text. */
  ghost predicate RunWithoutText(engine: Engine, participantPrompt: string, input: Option<string>, env: Env) {
    var (x, _) := ExecuteThree(engine, participantPrompt, input, DefaultMaxRetries, env);
    x.ExecOk? && exists i :: 0 <= i < |x.outputs| && x.outputs[i].None?
  }

  /** `grade_submission` once execution has produced the three outputs
      `outs`. Building the master prompt slices every output, which raises
      on a None output before any evaluator call (outside the evaluator's
      `try`); otherwise the evaluation decides, and the outputs are kept
      whether it succeeds or fails. */
  function GradeExecuted(engine: Engine, participantPrompt: string, outs: seq<Option<string>>, golden: Option<string>,
                         requirements: Option<string>, assignmentName: string, parse: string -> Parsed, envX: Env)
    : (r: (GradeOutcome, Env))
    requires |outs| == 3
    ensures r.0.GradeRaised? <==> exists i :: 0 <= i < |outs| && outs[i].None?
    ensures r.0.GradeRaised? ==> r.0.message == NoneSubscriptMessage && r.1 == envX
    ensures r.0.Returned? ==>
      var texts := AllTexts(outs).value;
      var (e, envE) := Evaluate(engine, participantPrompt, texts, golden, requirements, assignmentName, parse, envX);
      && r.1 == envE && r.0.grading.outputs == texts
      && (r.0.grading.success <==> e.EvalOk?)
      && (e.EvalOk? ==> r.0.grading.result == e.result && r.0.grading.error == None)
      && (e.EvalFailed? ==> r.0.grading.result == map[] && r.0.grading.error == Some(e.error))
    ensures r.0.Returned? && r.0.grading.success ==> PassesValidation(r.0.grading.result)
  {
    match AllTexts(outs)
    case None => (GradeRaised(NoneSubscriptMessage), envX)
    case Some(texts) =>
      var (e, envE) := Evaluate(engine, participantPrompt, texts, golden, requirements, assignmentName, parse, envX);
      EvaluationAcceptsOnlyValid(engine, participantPrompt, texts, golden, requirements, assignmentName, parse, envX);
      match e
      case EvalFailed(err) => (Returned(Grading(false, map[], texts, Some(err))), envE)
      case EvalOk(result) => (Returned(Grading(true, result, texts, None)), envE)
  }

  /** What `grade_submission` returns and does: execution, then evaluation
      of the three outputs when execution succeeded. */
  function Grade(engine: Engine, participantPrompt: string, input: Option<string>, golden: Option<string>,
                 requirements: Option<string>, assignmentName: string, parse: string -> Parsed, env: Env)
    : (GradeOutcome, Env)
  {
    var (x, envX) := ExecuteThree(engine, participantPrompt, input, DefaultMaxRetries, env);
    match x
    case ExecFailed(err) => (Returned(Grading(false, map[], [], Some(err))), envX)
    case ExecOk(outs) =>
      ExecuteThreeShape(engine, participantPrompt, input, DefaultMaxRetries, env);
      GradeExecuted(engine, participantPrompt, outs, golden, requirements, assignmentName, parse, envX)
  }

  /** `grade_submission`: execution, then evaluation, all or nothing. */
  method GradeSubmission(engine: Engine, participantPrompt: string, input: Option<string>, golden: Option<string>,
                         requirements: Option<string>, assignmentName: string, parse: string -> Parsed, env: Env)
    returns (g: GradeOutcome, env': Env)
    ensures (g, env') == Grade(engine, participantPrompt, input, golden, requirements, assignmentName, parse, env)
    ensures var (x, envX) := ExecuteThree(engine, participantPrompt, input, DefaultMaxRetries, env);
      && (x.ExecFailed? ==>
            // the evaluator is never called: every request sent was an execution request
            && g == Returned(Grading(false, map[], [], Some(x.error))) && env' == envX
            && forall k :: |env.sent| <= k < |env'.sent| ==>
                 env'.sent[k] == ExecutionRequest(engine, FullPrompt(participantPrompt, input)))
      && (x.ExecOk? ==>
            && |x.outputs| == 3
            && (g, env') == GradeExecuted(engine, participantPrompt, x.outputs, golden, requirements,
                                          assignmentName, parse, envX))
    ensures g.GradeRaised? <==> RunWithoutText(engine, participantPrompt, input, env)
    ensures g.GradeRaised? ==> g.message == NoneSubscriptMessage
    ensures g.Returned? && g.grading.success ==>
              |g.grading.outputs| == 3 && PassesValidation(g.grading.result) && g.grading.error == None
    ensures g.Returned? && !g.grading.success ==> g.grading.result == map[] && g.grading.error.Some?
  {
    ExecuteThreeShape(engine, participantPrompt, input, DefaultMaxRetries, env);
    var x, envX := ExecutePromptThreeTimes(engine, participantPrompt, input, DefaultMaxRetries, env);
    if x.ExecFailed? {
      return Returned(Grading(false, map[], [], Some(x.error))), envX;
    }
    g, env' := GradeOutputs(engine, participantPrompt, x.outputs, golden, requirements, assignmentName, parse, envX);
  }

  /** The part of `grade_submission` after a successful execution. */
  method GradeOutputs(engine: Engine, participantPrompt: string, outs: seq<Option<string>>, golden: Option<string>,
                      requirements: Option<string>, assignmentName: string, parse: string -> Parsed, envX: Env)
    returns (g: GradeOutcome, env': Env)
    requires |outs| == 3
    ensures (g, env') == GradeExecuted(engine, participantPrompt, outs, golden, requirements, assignmentName, parse, envX)
  {
    var texts := AllTexts(outs);
    if texts.None? {
      return GradeRaised(NoneSubscriptMessage), envX;
    }
    var e;
    e, env' := EvaluateOutputs(engine, participantPrompt, texts.value, golden, requirements, assignmentName, parse, envX);
    if e.EvalFailed? {
      return Returned(Grading(false, map[], texts.value, Some(e.error))), env';
    }
    g := Returned(Grading(true, e.result, texts.value, None));
  }
}

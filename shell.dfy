/**
 * do_shell: the environment a command handler runs in, built from the handler's
 * keyword arguments, and how the command's return code is judged.
 */
module Shell {
  import opened Outcomes

  /** The values that reach do_shell as keyword arguments or inside a mapping argument. */
  datatype Value =
    | Text(s: string)
    | Flag(b: bool)
    | NoneValue
    | Opaque(repr: string)   // any other object, known only by its str()

  /** Python's str(). */
  function Str(v: Value): string {
    match v
    case Text(s) => s
    case Flag(b) => if b then "True" else "False"
    case NoneValue => "None"
    case Opaque(repr) => repr
  }

  /** One keyword argument, classified as the loop of do_shell classifies it. */
  datatype Arg =
    | CallableArg                          // callable(value): skipped
    | MappingArg(entries: map<string, Value>)  // has a callable keys(): merged with update()
    | ScalarArg(value: Value)              // anything else: stored as str(value)

  datatype Keyword = Keyword(name: string, arg: Arg)

  /**
   * What Python guarantees of **kwargs: the names are distinct and neither names one of
   * do_shell's own parameters.
   */
  predicate WellFormedKeywords(kwargs: seq<Keyword>) {
    && (forall i, j :: 0 <= i < j < |kwargs| ==> kwargs[i].name != kwargs[j].name)
    && (forall i :: 0 <= i < |kwargs| ==> kwargs[i].name != "context" && kwargs[i].name != "command")
  }

  /** One round of the loop: the new child_env after looking at one keyword argument. */
  function Contribute(env: map<string, Value>, kw: Keyword): map<string, Value> {
    match kw.arg
    case CallableArg => env
    case MappingArg(entries) => env + entries
    case ScalarArg(v) => env[kw.name := Text(Str(v))]
  }

  /** child_env after the loop has seen `kwargs`, in dictionary order. */
  function ChildEnv(context: string, kwargs: seq<Keyword>): map<string, Value> {
    if kwargs == [] then map["context" := Text(context)]
    else Contribute(ChildEnv(context, kwargs[..|kwargs| - 1]), kwargs[|kwargs| - 1])
  }

  /** Whether a keyword argument sets the entry `k` of child_env. */
  predicate Writes(kw: Keyword, k: string) {
    match kw.arg
    case CallableArg => false
    case MappingArg(entries) => k in entries
    case ScalarArg(_) => k == kw.name
  }

  /** The value a keyword argument gives the entry `k`. */
  function Written(kw: Keyword, k: string): Value
    requires Writes(kw, k)
  {
    match kw.arg
    case MappingArg(entries) => entries[k]
    case ScalarArg(v) => Text(Str(v))
  }

  /** The last keyword argument, in iteration order, that sets `k`. */
  function LastWriter(kwargs: seq<Keyword>, k: string): (r: Option<nat>)
    ensures r.None? <==> forall j :: 0 <= j < |kwargs| ==> !Writes(kwargs[j], k)
    ensures r.Some? ==> r.value < |kwargs| && Writes(kwargs[r.value], k)
    ensures r.Some? ==> forall j :: r.value < j < |kwargs| ==> !Writes(kwargs[j], k)
  {
    if kwargs == [] then None
    else if Writes(kwargs[|kwargs| - 1], k) then Some(|kwargs| - 1)
    else LastWriter(kwargs[..|kwargs| - 1], k)
  }

  /**
   * Every entry of child_env: "context" starts it, every argument that sets a key
   * leaves it there, and the value is that of the last argument to set it (a later
   * mapping overrides an earlier entry, "context" included).
   */
  lemma {:induction false} ChildEnvEntry(context: string, kwargs: seq<Keyword>, k: string)
    ensures k in ChildEnv(context, kwargs) <==> k == "context" || LastWriter(kwargs, k).Some?
    ensures LastWriter(kwargs, k).Some? ==>
      ChildEnv(context, kwargs)[k] == Written(kwargs[LastWriter(kwargs, k).value], k)
    ensures LastWriter(kwargs, k).None? && k == "context" ==> ChildEnv(context, kwargs)[k] == Text(context)
  {
    if kwargs != [] {
      var init := kwargs[..|kwargs| - 1];
      ChildEnvEntry(context, init, k);
      if !Writes(kwargs[|kwargs| - 1], k) {
        assert LastWriter(kwargs, k) == LastWriter(init, k);
        if LastWriter(init, k).Some? {
          assert kwargs[LastWriter(init, k).value] == init[LastWriter(init, k).value];
        }
      }
    }
  }

  /**
   * Without mapping arguments, every plain argument appears as its str() under its
   * own name and a callable argument adds no key.
   */
  lemma PlainArgumentsStringified(context: string, kwargs: seq<Keyword>, j: nat)
    requires WellFormedKeywords(kwargs)
    requires forall l :: 0 <= l < |kwargs| ==> !kwargs[l].arg.MappingArg?
    requires j < |kwargs|
    ensures "context" in ChildEnv(context, kwargs) && ChildEnv(context, kwargs)["context"] == Text(context)
    ensures kwargs[j].arg.ScalarArg? ==>
      kwargs[j].name in ChildEnv(context, kwargs)
      && ChildEnv(context, kwargs)[kwargs[j].name] == Text(Str(kwargs[j].arg.value))
    ensures kwargs[j].arg.CallableArg? ==> kwargs[j].name !in ChildEnv(context, kwargs)
  {
    ChildEnvEntry(context, kwargs, "context");
    ChildEnvEntry(context, kwargs, kwargs[j].name);
  }

  /** What subprocess.call did: returned a code, or raised OSError. */
  datatype CallResult = Exited(returnCode: int) | LaunchFailed

  /** How do_shell judges the command. */
  datatype ShellOutcome =
    | Succeeded
    | KilledBySignal(signal: nat)
    | Failed(returnCode: nat)
    | LaunchError          // OSError caught and logged
    | FormatTypeError      // TypeError escaping do_shell

  /** The three-way judgement of a return code: 0 is success, -N is signal N, anything else an error. */
  function ClassifyReturnCode(rc: int): (r: ShellOutcome)
    ensures r.Succeeded? || r.KilledBySignal? || r.Failed?
    ensures r.Succeeded? <==> rc == 0
    ensures r.KilledBySignal? <==> rc < 0
    ensures r.Failed? <==> rc > 0
  {
    if rc == 0 then Succeeded
    else if rc < 0 then KilledBySignal(-rc)
    else Failed(rc)
  }

  /** The return code a judgement stands for. */
  function ReturnCodeOf(outcome: ShellOutcome): int
    requires outcome.Succeeded? || outcome.KilledBySignal? || outcome.Failed?
  {
    match outcome
    case Succeeded => 0
    case KilledBySignal(signal) => -(signal as int)
    case Failed(code) => code
  }

  /** The judgement loses nothing: the signal number and the error code give back the return code. */
  lemma ClassifyReturnCodeRoundTrip(rc: int)
    ensures ReturnCodeOf(ClassifyReturnCode(rc)) == rc
  {
  }

  /**
   * The outcome of the call, with the OSError handler logging as it evidently means to.
   * ClassifyCallAsWritten is the handler as it stands.
   */
  function ClassifyCall(result: CallResult): (r: ShellOutcome)
    ensures result.LaunchFailed? <==> r == LaunchError
    ensures result.Exited? ==> r == ClassifyReturnCode(result.returnCode)
  {
    match result
    case Exited(rc) => ClassifyReturnCode(rc)
    case LaunchFailed => LaunchError
  }

  /**
   * As written, the OSError handler formats one "%s" with two arguments, so the
   * handler itself raises TypeError and the exception leaves do_shell.
   */
  function ClassifyCallAsWritten(result: CallResult): (r: ShellOutcome)
    ensures result.LaunchFailed? <==> r == FormatTypeError
  {
    match result
    case Exited(rc) => ClassifyReturnCode(rc)
    case LaunchFailed => FormatTypeError
  }

  /** The two differ exactly when the command cannot be launched. */
  lemma LaunchFailureEscapes(result: CallResult)
    ensures ClassifyCallAsWritten(result) != ClassifyCall(result) <==> result.LaunchFailed?
  {
  }

  /**
   * do_shell: build child_env from the keyword arguments, run the command through
   * `run` (subprocess.call with that environment) and judge the result.
   */
  method DoShell(command: string, context: string, kwargs: seq<Keyword>,
                 run: (string, map<string, Value>) -> CallResult)
    returns (childEnv: map<string, Value>, outcome: ShellOutcome)
    ensures childEnv == ChildEnv(context, kwargs)
    ensures outcome == ClassifyCall(run(command, childEnv))
  {
    childEnv := map["context" := Text(context)];
    for i := 0 to |kwargs|
      invariant childEnv == ChildEnv(context, kwargs[..i])
    {
      assert kwargs[..i + 1][..i] == kwargs[..i];
      var kw := kwargs[i];
      match kw.arg {
        case CallableArg =>
        case MappingArg(entries) =>
          childEnv := childEnv + entries;
        case ScalarArg(v) =>
          childEnv := childEnv[kw.name := Text(Str(v))];
      }
    }
    assert kwargs[..|kwargs|] == kwargs;
    outcome := ClassifyCall(run(command, childEnv));
  }
}

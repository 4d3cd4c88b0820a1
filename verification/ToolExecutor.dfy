/** `_execute` of `tools/executor.py`: a write tool is kept only after a safe success. */
module ToolExecutor {
  import opened Outcomes

  datatype ToolOutcome = Success | NotFound | Denied | InvalidArguments | ExecutionFailure | Timeout

  /** The tool, with which of the four operations it has, and everything that can happen to
      one call of it. */
  datatype Script = Script(
    argumentsSafe: bool, resolveError: Option<string>, schemaOk: bool,
    readOnly: bool, hasPrepare: bool, hasCommit: bool, hasRollback: bool, hasCompensate: bool, prepare: Step,
    execution: Execution, commit: Step, recoveryOk: bool)

  datatype Execution = Returns(outcome: ToolOutcome, error: Option<string>, safe: bool, fits: bool)
                     | TimesOut | Cancelled | Rejects(code: string) | Raises
  datatype Step = Done | StepRaises | StepCancelled

  datatype Effect = Prepare | Execute | Commit(done: bool) | Recover(rolledBack: bool, ok: bool)

  /** What `register` asks of a write tool: a whole transaction, or a compensation. */
  predicate Registered(script: Script) {
    script.readOnly || (script.hasPrepare && script.hasCommit && script.hasRollback) || script.hasCompensate
  }

  /** `None` is the cancellation that is raised again. */
  datatype ToolResult = ToolResult(outcome: ToolOutcome, error: Option<string>)

  function CountCommits(es: seq<Effect>): nat {
    if es == [] then 0 else CountCommits(es[..|es| - 1]) + (if es[|es| - 1] == Commit(true) then 1 else 0)
  }

  function CountRecoveries(es: seq<Effect>): nat {
    if es == [] then 0 else CountRecoveries(es[..|es| - 1]) + (if es[|es| - 1].Recover? then 1 else 0)
  }

  /** How a call ends before its tool runs: an error code, or a cancellation inside `prepare`. */
  datatype Refusal = Code(code: string) | CancelledEarly

  function OutcomeFor(code: string): ToolOutcome {
    if code == "TOOL_NOT_FOUND" then NotFound else if code == "TOOL_DENIED" || code == "TOOL_DISABLED" then Denied else InvalidArguments
  }

  // ---------------------------------------------------------------- what a call must do

  /** The tool is run at all: nothing before it fails. */
  predicate Runs(script: Script) {
    && script.argumentsSafe && script.resolveError.None? && script.schemaOk
    && (script.readOnly || !script.hasPrepare || script.prepare.Done?)
  }

  /** The tool says that it succeeded, and its result passes both checks. */
  predicate Accepted(script: Script) {
    script.execution.Returns? && script.execution.outcome.Success? && script.execution.safe && script.execution.fits
  }

  /** The success holds: a commit, where there is one to make, goes through. */
  predicate Holds(script: Script) {
    Accepted(script) && (script.readOnly || !script.hasCommit || script.commit.Done?)
  }

  /** Prepare, execute, commit what was accepted, and undo a write that does not hold. */
  function EffectsOf(script: Script): seq<Effect> {
    if !Runs(script) then []
    else
      (if !script.readOnly && script.hasPrepare then [Prepare] else []) + [Execute]
      + (if !script.readOnly && script.hasCommit && Accepted(script) then [Commit(script.commit.Done?)] else [])
      + (if !script.readOnly && !Holds(script) then [Recover(script.hasRollback, script.recoveryOk)] else [])
  }

  /** Why a call that is not run is not run. */
  function EarlyResult(script: Script): Option<ToolResult> {
    if !script.argumentsSafe then Some(ToolResult(InvalidArguments, Some("CREDENTIAL_REJECTED")))
    else if script.resolveError.Some? then
      var code := script.resolveError.value;
      Some(ToolResult(if code == "TOOL_NOT_FOUND" then NotFound else if code in ["TOOL_DENIED", "TOOL_DISABLED"] then Denied else InvalidArguments, Some(code)))
    else if !script.schemaOk then Some(ToolResult(InvalidArguments, Some("TOOL_ARGUMENTS_INVALID")))
    else if script.prepare.StepCancelled? then None
    else Some(ToolResult(InvalidArguments, Some("TOOL_PREPARE_FAILED")))
  }

  /** Why a call that was run fails, apart from its undo. */
  function Failure(script: Script): Option<ToolResult> {
    match script.execution
    case TimesOut => Some(ToolResult(Timeout, Some("TOOL_TIMEOUT")))
    case Raises => Some(ToolResult(ExecutionFailure, Some("TOOL_EXECUTION_FAILED")))
    case Rejects(code) =>
      Some(ToolResult(if code == "TOOL_NOT_FOUND" then NotFound else if code in ["TOOL_DENIED", "TOOL_DISABLED"] then Denied else InvalidArguments, Some(code)))
    case Cancelled => None
    case Returns(outcome, error, safe, fits) =>
      if !safe then Some(ToolResult(InvalidArguments, Some("CREDENTIAL_REJECTED")))
      else if !fits then Some(ToolResult(ExecutionFailure, Some("TOOL_RESULT_TOO_LARGE")))
      else if !outcome.Success? then Some(ToolResult(outcome, error))
      else if script.commit.StepCancelled? then None
      else Some(ToolResult(ExecutionFailure, Some("TOOL_EXECUTION_FAILED")))
  }

  /** What the caller gets; an undo that fails replaces the error code. */
  function ResultOf(script: Script): Option<ToolResult> {
    if !Runs(script) then EarlyResult(script)
    else if Holds(script) then Some(ToolResult(Success, script.execution.error))
    else if Failure(script).None? then None
    else Some(ToolResult(Failure(script).value.outcome,
                         if !script.readOnly && !script.recoveryOk then Some("TOOL_ROLLBACK_FAILED") else Failure(script).value.error))
  }

  /** Both counts of the effects of a call. */
  lemma {:induction false} Counted(es: seq<Effect>, e: Effect)
    ensures CountCommits(es + [e]) == CountCommits(es) + (if e == Commit(true) then 1 else 0)
    ensures CountRecoveries(es + [e]) == CountRecoveries(es) + (if e.Recover? then 1 else 0)
  {
    assert (es + [e])[..|es|] == es;
  }

  lemma {:induction false} CountedIf(es: seq<Effect>, present: bool, e: Effect)
    ensures var all := es + if present then [e] else [];
            && CountCommits(all) == CountCommits(es) + (if present && e == Commit(true) then 1 else 0)
            && CountRecoveries(all) == CountRecoveries(es) + (if present && e.Recover? then 1 else 0)
  {
    Counted(es, e);
    assert es + [] == es;
  }

  lemma {:induction false} EffectsCounted(script: Script)
    ensures var es, write := EffectsOf(script), !script.readOnly;
            && CountCommits(es) == (if Runs(script) && write && script.hasCommit && Accepted(script) && script.commit.Done? then 1 else 0)
            && CountRecoveries(es) == (if Runs(script) && write && !Holds(script) then 1 else 0)
  {
    var write := !script.readOnly;
    var undo := Recover(script.hasRollback, script.recoveryOk);
    CountedIf([], write && script.hasPrepare, Prepare);
    var a := [] + if write && script.hasPrepare then [Prepare] else [];
    Counted(a, Execute);
    CountedIf(a + [Execute], write && script.hasCommit && Accepted(script), Commit(script.commit.Done?));
    var b := a + [Execute] + if write && script.hasCommit && Accepted(script) then [Commit(script.commit.Done?)] else [];
    CountedIf(b, write && !Holds(script), undo);
  }

  /** For a write tool that was prepared, exactly one of "committed" and "recovery attempted"
      happens (for a tool without `commit`, "not recovered" takes the place of the first); it is
      committed only after a success that passed the size and credential checks; success is
      returned exactly when the effect was kept; a read-only call has neither; and what is not
      run has no effect at all. */
  lemma {:induction false} CommittedOrUndone(script: Script)
    ensures var es, r := EffectsOf(script), ResultOf(script);
            var commits, recoveries := CountCommits(es), CountRecoveries(es);
            && commits <= 1 && recoveries <= 1 && (script.readOnly ==> commits == 0 && recoveries == 0)
            && (!script.readOnly && Execute in es ==>
                  && (script.hasCommit ==> commits + recoveries == 1)
                  && (r.Some? && r.value.outcome.Success? <==> recoveries == 0 && (script.hasCommit ==> commits == 1)))
            && ((exists e | e in es :: e.Commit?) ==> Accepted(script))
            && (Execute in es <==> Runs(script))
            && (Execute !in es ==> es == [] && !(r.Some? && r.value.outcome.Success?))
  {
    EffectsCounted(script);
    if Runs(script) {
      assert EffectsOf(script)[if !script.readOnly && script.hasPrepare then 1 else 0] == Execute;
    }
  }

  /** A write is undone by its rollback if it has one, else by its compensation, which it then has. */
  lemma {:induction false} UndoneBy(script: Script, e: Effect)
    requires Registered(script) && e in EffectsOf(script) && e.Recover?
    ensures e.rolledBack == script.hasRollback && (script.hasRollback || script.hasCompensate)
  {
  }

  class Run {
    const script: Script
    var writeStarted: bool
    var effects: seq<Effect>

    constructor (script: Script)
      requires Registered(script)
      ensures this.script == script && !writeStarted && effects == []
    {
      this.script := script;
      writeStarted, effects := false, [];
    }

    /** `recover_write`: at most one undo, and only of a write that has started; by `rollback`
        if the tool has one, else by `compensate`. */
    method RecoverWrite() returns (error: Option<string>)
      modifies this`effects
      ensures if !script.readOnly && writeStarted then
                effects == old(effects) + [Recover(script.hasRollback, script.recoveryOk)]
                && error == if script.recoveryOk then None else Some("TOOL_ROLLBACK_FAILED")
              else effects == old(effects) && error.None?
    {
      if script.readOnly || !writeStarted {
        return None;
      }
      effects := effects + [Recover(script.hasRollback, script.recoveryOk)];
      return if script.recoveryOk then None else Some("TOOL_ROLLBACK_FAILED");
    }

    method Fail(outcome: ToolOutcome, code: string) returns (r: Option<ToolResult>)
      modifies this`effects
      ensures effects == old(effects) + if !script.readOnly && writeStarted then [Recover(script.hasRollback, script.recoveryOk)] else []
      ensures r == Some(ToolResult(outcome, Some(if !script.readOnly && writeStarted && !script.recoveryOk then "TOOL_ROLLBACK_FAILED" else code)))
    {
      var error := RecoverWrite();
      return Some(ToolResult(outcome, if error.Some? then error else Some(code)));
    }

    /** Up to and including `prepare`. A call that is refused or cancelled here ends without an
        effect that could be undone: a write has started only once `prepare` is through. */
    method Admit() returns (refused: Option<Refusal>)
      requires effects == [] && !writeStarted
      modifies this
      ensures refused.None? <==> Runs(script)
      ensures if refused.Some? then !writeStarted && effects == []
              else (writeStarted <==> !script.readOnly) && effects == if !script.readOnly && script.hasPrepare then [Prepare] else []
      ensures refused.Some? ==> EarlyResult(script) == if refused.value.CancelledEarly? then None
                                                       else Some(ToolResult(OutcomeFor(refused.value.code), Some(refused.value.code)))
    {
      if !script.argumentsSafe {
        return Some(Code("CREDENTIAL_REJECTED"));
      }
      if script.resolveError.Some? {
        return Some(Code(script.resolveError.value));
      }
      if !script.schemaOk {
        return Some(Code("TOOL_ARGUMENTS_INVALID"));
      }
      if !script.readOnly {
        if script.hasPrepare {
          if !script.prepare.Done? {
            return Some(if script.prepare.StepCancelled? then CancelledEarly else Code("TOOL_PREPARE_FAILED"));
          }
          effects := effects + [Prepare];
        }
        writeStarted := true;
      }
      return None;
    }

    /** The whole call: its effects in order, and its result. */
    method RunTool() returns (r: Option<ToolResult>)
      requires effects == [] && !writeStarted
      modifies this
      ensures r == ResultOf(script) && effects == EffectsOf(script)
    {
      var refused := Admit();
      if refused.Some? {
        r := Refuse(refused.value);
      } else {
        r := ExecuteTool();
      }
    }

    method Refuse(refused: Refusal) returns (r: Option<ToolResult>)
      requires effects == [] && !writeStarted
      modifies this`effects
      ensures r == if refused.CancelledEarly? then None else Some(ToolResult(OutcomeFor(refused.code), Some(refused.code)))
      ensures effects == []
    {
      match refused {
        case CancelledEarly =>
          var _ := RecoverWrite();
          r := None;
        case Code(code) => r := Fail(OutcomeFor(code), code);
      }
    }

    /** The tool itself, once a write has started. */
    method ExecuteTool() returns (r: Option<ToolResult>)
      requires Runs(script) && (writeStarted <==> !script.readOnly)
      requires effects == if !script.readOnly && script.hasPrepare then [Prepare] else []
      modifies this
      ensures r == ResultOf(script) && effects == EffectsOf(script)
    {
      effects := effects + [Execute];
      match script.execution {
        case TimesOut => r := Fail(Timeout, "TOOL_TIMEOUT");
        case Raises => r := Fail(ExecutionFailure, "TOOL_EXECUTION_FAILED");
        case Rejects(code) => r := Fail(OutcomeFor(code), code);
        case Cancelled =>
          var _ := RecoverWrite();
          r := None;
        case Returns(outcome, error, safe, fits) => r := Settle(outcome, error, safe, fits);
      }
    }

    /** After the tool returned: the checks, then the commit. */
    method Settle(outcome: ToolOutcome, error: Option<string>, safe: bool, fits: bool) returns (r: Option<ToolResult>)
      requires Runs(script) && (writeStarted <==> !script.readOnly) && script.execution == Returns(outcome, error, safe, fits)
      modifies this
      ensures r == ResultOf(script)
      ensures effects == old(effects)
              + (if !script.readOnly && script.hasCommit && Accepted(script) then [Commit(script.commit.Done?)] else [])
              + (if !script.readOnly && !Holds(script) then [Recover(script.hasRollback, script.recoveryOk)] else [])
    {
      if !safe {
        r := Fail(InvalidArguments, "CREDENTIAL_REJECTED");
        return;
      }
      if !fits {
        r := Fail(ExecutionFailure, "TOOL_RESULT_TOO_LARGE");
        return;
      }
      if !outcome.Success? {
        var recovery := RecoverWrite();
        return Some(ToolResult(outcome, if recovery.Some? then recovery else error));
      }
      if !script.readOnly && script.hasCommit {
        effects := effects + [Commit(script.commit.Done?)];
        match script.commit {
          case StepRaises =>
            r := Fail(ExecutionFailure, "TOOL_EXECUTION_FAILED");
            return;
          case StepCancelled =>
            var _ := RecoverWrite();
            return None;
          case Done => writeStarted := false;
        }
      }
      return Some(ToolResult(Success, error));
    }
  }
}

/**
 * `executeJunosCommand`: one non-interactive command over a fresh SSH
 * connection. The SSH library is replaced by its answers, given as input;
 * what the operation does with the connection is recorded as effects.
 */
module Command {
  import opened Options
  import opened JsString
  import opened Messages
  import opened Classifier

  const NoMoreSuffix := " | no-more"
  const DefaultCommandTimeout := 5000
  const StderrPrefix := "executeJunosCommand Error: "

  /** How the device answers `execCommand`: it throws, or yields both output streams. */
  datatype ExecAnswer = ExecFails(message: string) | ExecResult(stdout: string, stderr: string)

  /** The SSH library's answers for one call: an optional `connect` failure message, then the exec answer. */
  datatype ExecScript = ExecScript(connectError: Option<string>, exec: ExecAnswer)

  /** The result of an operation together with the effects it had, in order. */
  datatype Run<+T> = Run(outcome: Outcome<T>, effects: seq<Effect>)

  /** The command text actually sent: the caller's command, then the pagination-suppression suffix. */
  function NoMoreCommand(cmd: string): (c: string)
    ensures |c| == |cmd| + |NoMoreSuffix|
    ensures c[..|cmd|] == cmd && c[|cmd|..] == NoMoreSuffix
  {
    cmd + NoMoreSuffix
  }

  /**
   * `executeJunosCommand(address, port, username, password, cmd, timeout)`.
   * The session is disposed on every path; the only command ever executed is
   * `cmd + " | no-more"`; the call succeeds exactly when the connection and
   * the command succeed with empty stderr, and then returns stdout; every
   * failure is a classified `{status, message, data}` object whose `data` is
   * the message of the error that was caught.
   */
  function ExecuteJunosCommand(ep: Endpoint, cmd: string, timeout: Option<int>, answers: ExecScript): (run: Run<Reply>)
    ensures DisposedOnceAtEnd(run.effects)
    ensures run.effects[0] == Connect(OptionsFor(ep, timeout.GetOr(DefaultCommandTimeout), None))
    ensures forall i :: 0 <= i < |run.effects| && run.effects[i].ExecCommand?
                        ==> run.effects[i].command == cmd + NoMoreSuffix
    ensures ExecCommand(cmd + NoMoreSuffix) in run.effects <==> answers.connectError.None?
    ensures run.outcome.Returned?
            <==> answers.connectError.None? && answers.exec.ExecResult? && answers.exec.stderr == ""
    ensures run.outcome.Returned?
            ==> run.outcome.value == Reply(Success, CommandSuccessText, answers.exec.stdout)
    ensures run.outcome.Threw? ==> run.outcome.error.Classified? && run.outcome.error.data.Some?
                                   && Verdict(run.outcome.error.status, run.outcome.error.message)
                                      == Classify(run.outcome.error.data.value)
    ensures answers.connectError.Some? ==> run.outcome.Threw?
                                           && run.outcome.error.data == answers.connectError
    ensures answers.connectError.None? && answers.exec.ExecFails?
            ==> run.outcome.Threw? && run.outcome.error.data == Some(answers.exec.message)
    ensures answers.connectError.None? && answers.exec.ExecResult? && answers.exec.stderr != ""
            ==> run.outcome.Threw? && run.outcome.error.data == Some(StderrPrefix + answers.exec.stderr)
  {
    var connect := Connect(OptionsFor(ep, timeout.GetOr(DefaultCommandTimeout), None));
    match answers.connectError
    case Some(m) =>
      Run(Threw(ClassifyExecuteError(Raised(m))), [connect, Dispose])
    case None =>
      var effects := [connect, ExecCommand(NoMoreCommand(cmd)), Dispose];
      match answers.exec
      case ExecFails(m) =>
        Run(Threw(ClassifyExecuteError(Raised(m))), effects)
      case ExecResult(stdout, stderr) =>
        if stderr != "" then
          Run(Threw(ClassifyExecuteError(Raised(StderrPrefix + stderr))), effects)
        else
          Run(Returned(Reply(Success, CommandSuccessText, stdout)), effects)
  }
}

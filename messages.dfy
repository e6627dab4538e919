/**
 * The closed vocabulary of the device module: the `StatusMessages` and
 * `ErrorMessages` tables, the values its operations return or throw, and the
 * effects they have on the SSH connection, the shell channel and the timer.
 */
module Messages {
  import opened Options

  /** Keys of the `StatusMessages` table: every outcome an operation can report. */
  datatype Status =
    | Success
    | AuthenticationFailed
    | Unreachable
    | Timeout
    | CommitFailed
    | NoRpcReply
    | InactivityTimeout
  {
    /** The status string the table assigns; never empty, so a thrown object's `status` is always truthy. */
    function Label(): (l: string)
      ensures l != ""
    {
      match this
      case Success => "success"
      case AuthenticationFailed => "authentication failed"
      case Unreachable => "unreachable"
      case Timeout => "timeout"
      case CommitFailed => "commit_failed"
      case NoRpcReply => "no_rpc_reply"
      case InactivityTimeout => "inactivity_timeout"
    }
  }

  // The `ErrorMessages` table.
  const AuthenticationFailedText := "Authentication failed. Check your username and password."
  const TimeoutText := "Connection timed out"
  const UnreachableText := "Unable to connect to host"
  const CommitErrorText := "Commit error"
  const CommitNoSuccessText := "Commit did not return success"
  const NoRpcReplyText := "No RPC reply found in the response"
  const InactivityTimeoutText := "Session closed due to inactivity"

  // Success messages written inline in the operations.
  const CommandSuccessText := "Command executed successfully"
  const CommitSuccessText := "Configuration committed successfully"

  /** A `{status, message, data}` object returned on success. */
  datatype Reply = Reply(status: Status, message: string, data: string)

  /** What a `throw` raises: an `Error` (only a message) or a plain object carrying its own status. */
  datatype Thrown =
    | Raised(message: string)
    | Classified(status: Status, message: string, data: Option<string>)

  /** An async operation either resolves with a value or rejects with a thrown value. */
  datatype Outcome<+T> = Returned(value: T) | Threw(error: Thrown)

  /** The device a call talks to; supplied afresh on every call. */
  datatype Endpoint = Endpoint(address: string, port: int, username: string, password: string)

  /** The option object passed to `ssh.connect`; `timeout` is absent when the caller does not set it. */
  datatype ConnectOptions = ConnectOptions(
    host: string, port: int, username: string, password: string,
    readyTimeout: int, timeout: Option<int>)

  /** One observable step an operation takes on the connection, its shell or its timer, in order. */
  datatype Effect =
    | Connect(options: ConnectOptions)
    | ExecCommand(command: string)
    | RequestShell
    | ShellWrite(text: string)
    | ShellEnd
    | ArmTimer(delay: int)
    | ClearTimer
    | Dispose

  /** The options both operations connect with, built from the endpoint. */
  function OptionsFor(ep: Endpoint, readyTimeout: int, timeout: Option<int>): (o: ConnectOptions)
    ensures o.host == ep.address && o.port == ep.port
    ensures o.username == ep.username && o.password == ep.password
    ensures o.readyTimeout == readyTimeout && o.timeout == timeout
  {
    ConnectOptions(ep.address, ep.port, ep.username, ep.password, readyTimeout, timeout)
  }

  /** The effect log is closed by exactly one `Dispose`, its last entry. */
  predicate DisposedOnceAtEnd(effects: seq<Effect>) {
    |effects| > 0 && effects[|effects| - 1] == Dispose && Dispose !in effects[..|effects| - 1]
  }
}

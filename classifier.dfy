/**
 * The error classifier written out in both `catch` blocks of the device
 * module: a failure message is mapped to a status and a user-facing message.
 */
module Classifier {
  import opened Options
  import opened JsString
  import opened Messages

  /** Text the SSH library puts in the message when every authentication method was refused. */
  const AuthFailureMarker := "All configured authentication methods failed"
  /** Text the SSH library puts in the message when the handshake did not finish in time. */
  const HandshakeTimeoutMarker := "Timed out while waiting for handshake"

  /** A status together with its user-facing message. */
  datatype Verdict = Verdict(status: Status, message: string)

  /**
   * The classifier of `executeJunosCommand`: authentication failure is checked
   * first, then the handshake timeout; anything else counts as unreachable.
   */
  function Classify(message: string): (v: Verdict)
    ensures v.status in {AuthenticationFailed, Timeout, Unreachable}
    ensures v == Verdict(AuthenticationFailed, AuthenticationFailedText)
            <==> Includes(message, AuthFailureMarker)
    ensures v == Verdict(Timeout, TimeoutText)
            <==> !Includes(message, AuthFailureMarker) && Includes(message, HandshakeTimeoutMarker)
    ensures v == Verdict(Unreachable, UnreachableText)
            <==> !Includes(message, AuthFailureMarker) && !Includes(message, HandshakeTimeoutMarker)
  {
    if Includes(message, AuthFailureMarker) then Verdict(AuthenticationFailed, AuthenticationFailedText)
    else if Includes(message, HandshakeTimeoutMarker) then Verdict(Timeout, TimeoutText)
    else Verdict(Unreachable, UnreachableText)
  }

  /** The object `executeJunosCommand` throws for a caught error: the verdict plus the original message as `data`. */
  function ClassifyExecuteError(e: Thrown): (r: Thrown)
    ensures r.Classified? && r.data == Some(e.message)
    ensures Verdict(r.status, r.message) == Classify(e.message)
  {
    var v := Classify(e.message);
    Classified(v.status, v.message, Some(e.message))
  }

  /**
   * The `catch` block of `commitJunosSetConfig`: it adds the inactivity
   * sentinel, which must match exactly, and re-throws an object that already
   * carries a status unchanged; every object it builds itself has no `data`.
   * The source tests `error.status` for truthiness: a thrown object's status
   * is one of the status strings, none of them empty (`Status.Label`), and a
   * plain `Error` has none, so the test holds exactly for `Classified` values.
   */
  function ReclassifyCommitError(e: Thrown): (r: Thrown)
    ensures r.Classified?
    ensures Includes(e.message, AuthFailureMarker)
            ==> r == Classified(AuthenticationFailed, AuthenticationFailedText, None)
    ensures !Includes(e.message, AuthFailureMarker) && Includes(e.message, HandshakeTimeoutMarker)
            ==> r == Classified(Timeout, TimeoutText, None)
    ensures !Includes(e.message, AuthFailureMarker) && !Includes(e.message, HandshakeTimeoutMarker)
            && e.message == InactivityTimeoutText
            ==> r == Classified(InactivityTimeout, InactivityTimeoutText, None)
    ensures !Includes(e.message, AuthFailureMarker) && !Includes(e.message, HandshakeTimeoutMarker)
            && e.message != InactivityTimeoutText
            ==> r == if e.Classified? then e else Classified(Unreachable, UnreachableText, None)
  {
    if Includes(e.message, AuthFailureMarker) then
      Classified(AuthenticationFailed, AuthenticationFailedText, None)
    else if Includes(e.message, HandshakeTimeoutMarker) then
      Classified(Timeout, TimeoutText, None)
    else if e.message == InactivityTimeoutText then
      Classified(InactivityTimeout, InactivityTimeoutText, None)
    else if e.Classified? then
      e
    else
      Classified(Unreachable, UnreachableText, None)
  }

  /**
   * Both catch blocks classify a plain error message alike (apart from the
   * inactivity sentinel, which only the commit block knows): the same text
   * gets the same status and message from either operation.
   */
  lemma ClassificationAgrees(message: string)
    requires message != InactivityTimeoutText
    ensures var r := ReclassifyCommitError(Raised(message));
            Verdict(r.status, r.message) == Classify(message) && r.data == None
  {
  }

  /** An inactivity status comes only from a message that is exactly the sentinel, or from an object already carrying it. */
  lemma InactivityOnlyFromSentinel(e: Thrown)
    requires ReclassifyCommitError(e).status == InactivityTimeout
    ensures e.message == InactivityTimeoutText || (e.Classified? && e.status == InactivityTimeout)
  {
  }
}

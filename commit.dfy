/**
 * `commitJunosSetConfig`: drives an interactive shell through an exclusive
 * edit, a commit and the exits, buffers what the shell streams back, and
 * decides the outcome from the first `<rpc-reply>` fragment in the output.
 *
 * The SSH library is replaced by its answers: whether `connect` and
 * `requestShell` fail, and the sequence of shell events that follows the
 * writes. The XML parser is a function parameter.
 */
module Commit {
  import opened Options
  import opened JsString
  import opened Messages
  import opened Classifier
  import opened ReplyTree

  const DefaultCommitTimeout := 60000
  const DefaultInactivityTimeout := 30000

  const EditHeader := "edit exclusive private\n"
  const CommitTrailer := "\ncommit | display xml\nexit\n\n\n"
  const ExitTranscript := "exit\n\n\n"
  const CommitSuccessMarker := "<commit-success/>"

  /**
   * The first write: enter exclusive private edit mode, the configuration
   * verbatim, commit with XML output, exit, and blank lines as terminators.
   */
  function CommitTranscript(config: string): (t: string)
    ensures |t| == |EditHeader| + |config| + |CommitTrailer|
    ensures t[..|EditHeader|] == EditHeader
    ensures t[|EditHeader|..|EditHeader| + |config|] == config
    ensures t[|EditHeader| + |config|..] == CommitTrailer
  {
    EditHeader + config + CommitTrailer
  }

  // ---------------------------------------------------------------------------
  // Outcome decision on the buffered output

  // Messages of the TypeErrors the lookup chain `result['rpc-reply']['commit-results']`,
  // `error[0].message[0].trim()` raises when a link is missing.
  const ReadCommitResultsFault := "Cannot read properties of undefined (reading 'commit-results')"
  const ReadIndexFault := "Cannot read properties of undefined (reading '0')"
  const TrimFault := "error[0].message[0].trim is not a function"

  /** What the error-node lookup finds in a parsed reply. */
  datatype ErrorProbe = NoCommitError | CommitErrorNode(message: string) | ProbeFault(message: string)

  /** `commitResults[0]['xnm:error'][0]`, when `commit-results` and its error node are both present. */
  function ErrorNode(reply: Node): Option<Node>
  {
    match Child(reply, "commit-results")
    case None => None
    case Some(results) => Child(results, "xnm:error")
  }

  /**
   * The error-node lookup: without an error node there is no commit error;
   * with one, its trimmed `message` text is the error; a lookup that reaches
   * an undefined value, or a message that is not text, raises a TypeError.
   */
  function ProbeCommitError(doc: Document): (p: ErrorProbe)
    ensures p == NoCommitError <==> doc.rootName == "rpc-reply" && ErrorNode(doc.root).None?
    ensures p.CommitErrorNode? <==> (&& doc.rootName == "rpc-reply" && ErrorNode(doc.root).Some?
                                     && Child(ErrorNode(doc.root).value, "message").Some?
                                     && Child(ErrorNode(doc.root).value, "message").value.Text?)
    ensures p.CommitErrorNode? ==> p.message == Trim(Child(ErrorNode(doc.root).value, "message").value.text)
    ensures p.ProbeFault? ==> p.message == ReadCommitResultsFault || p.message == ReadIndexFault
                              || p.message == TrimFault
  {
    match Root(doc, "rpc-reply")
    case None => ProbeFault(ReadCommitResultsFault)
    case Some(reply) =>
      match ErrorNode(reply)
      case None => NoCommitError
      case Some(err) =>
        match Child(err, "message")
        case None => ProbeFault(ReadIndexFault)
        case Some(Text(t)) => CommitErrorNode(Trim(t))
        case Some(Element(_)) => ProbeFault(TrimFault)
  }

  /**
   * The decision once the shell has closed cleanly: no fragment means no
   * reply, with the whole buffer as data; an error node in the parsed
   * fragment is a commit error, and is checked before the success marker;
   * for a fragment that parses without an error node the marker in its text
   * decides between success and "did not return success"; a parse error or
   * a lookup that faults is thrown as raised.
   */
  function DecideCommit(data: string, parser: string -> Parsed): (r: Outcome<Reply>)
    ensures MatchRpcReply(data).None? ==> r == Threw(Classified(NoRpcReply, NoRpcReplyText, Some(data)))
    ensures r.Returned? <==> && MatchRpcReply(data).Some?
                             && parser(MatchRpcReply(data).value).Parsed?
                             && ProbeCommitError(parser(MatchRpcReply(data).value).doc) == NoCommitError
                             && Includes(MatchRpcReply(data).value, CommitSuccessMarker)
    ensures r.Returned? ==> r.value == Reply(Success, CommitSuccessText, MatchRpcReply(data).value)
    ensures MatchRpcReply(data).Some? && parser(MatchRpcReply(data).value).Parsed?
            && ProbeCommitError(parser(MatchRpcReply(data).value).doc).CommitErrorNode?
            ==> r == Threw(Classified(CommitFailed, CommitErrorText,
                                      Some(ProbeCommitError(parser(MatchRpcReply(data).value).doc).message)))
    ensures MatchRpcReply(data).Some? && parser(MatchRpcReply(data).value).Parsed?
            && ProbeCommitError(parser(MatchRpcReply(data).value).doc) == NoCommitError
            && !Includes(MatchRpcReply(data).value, CommitSuccessMarker)
            ==> r == Threw(Classified(CommitFailed, CommitNoSuccessText, Some(MatchRpcReply(data).value)))
    ensures MatchRpcReply(data).Some? && parser(MatchRpcReply(data).value).Malformed?
            ==> r == Threw(Raised(parser(MatchRpcReply(data).value).message))
    ensures MatchRpcReply(data).Some? && parser(MatchRpcReply(data).value).Parsed?
            && ProbeCommitError(parser(MatchRpcReply(data).value).doc).ProbeFault?
            ==> r == Threw(Raised(ProbeCommitError(parser(MatchRpcReply(data).value).doc).message))
  {
    match MatchRpcReply(data)
    case None => Threw(Classified(NoRpcReply, NoRpcReplyText, Some(data)))
    case Some(fragment) =>
      match parser(fragment)
      case Malformed(m) => Threw(Raised(m))
      case Parsed(doc) =>
        match ProbeCommitError(doc)
        case ProbeFault(m) => Threw(Raised(m))
        case CommitErrorNode(m) => Threw(Classified(CommitFailed, CommitErrorText, Some(m)))
        case NoCommitError =>
          if Includes(fragment, CommitSuccessMarker) then
            Returned(Reply(Success, CommitSuccessText, fragment))
          else
            Threw(Classified(CommitFailed, CommitNoSuccessText, Some(fragment)))
  }

  /** The `catch` block of the commit call, applied to what the `try` block produced. */
  function Catch(o: Outcome<Reply>): (r: Outcome<Reply>)
    ensures o.Returned? ==> r == o
    ensures o.Threw? ==> r == Threw(ReclassifyCommitError(o.error))
  {
    match o
    case Returned(_) => o
    case Threw(e) => Threw(ReclassifyCommitError(e))
  }

  /** None of the fixed messages the decision throws mentions a connection failure or is the sentinel. */
  lemma FixedMessagesAreNotConnectionFailures(m: string)
    requires m in {CommitErrorText, CommitNoSuccessText, NoRpcReplyText}
    ensures !Includes(m, AuthFailureMarker) && !Includes(m, HandshakeTimeoutMarker)
    ensures m != InactivityTimeoutText
  {
    assert |m| < |HandshakeTimeoutMarker| < |AuthFailureMarker|;
    forall k: nat ensures !OccursAt(m, AuthFailureMarker, k) && !OccursAt(m, HandshakeTimeoutMarker, k) {
    }
  }

  /**
   * The objects the decision throws with their own status (no reply, commit
   * error, commit without success) leave the catch block unchanged.
   */
  lemma DecisionSurvivesCatch(data: string, parser: string -> Parsed)
    requires DecideCommit(data, parser).Threw? && DecideCommit(data, parser).error.Classified?
    ensures Catch(DecideCommit(data, parser)) == DecideCommit(data, parser)
  {
    var e := DecideCommit(data, parser).error;
    FixedMessagesAreNotConnectionFailures(e.message);
  }

  // ---------------------------------------------------------------------------
  // The shell session

  /**
   * What happens on the shell once the writes are done, in arrival order:
   * a chunk on either stream, the inactivity timer going off, the shell
   * closing or ending.
   */
  datatype ShellEvent = Data(chunk: string) | Stderr(chunk: string) | Fire | Close | End

  /** How the wait for the shell settles. */
  datatype Settlement = Resolved | Rejected(message: string)

  /** The SSH library's answers to one commit call. */
  datatype CommitScript = CommitScript(connectError: Option<string>, shellError: Option<string>, events: seq<ShellEvent>)

  /** `resetInactivityTimer`: clear the pending timer, if one was ever set, then arm a new one. */
  function Rearm(timerSet: bool, delay: int): seq<Effect> {
    (if timerSet then [ClearTimer] else []) + [ArmTimer(delay)]
  }

  /**
   * The state `commitJunosSetConfig` keeps while the shell runs: the two
   * buffers, whether `inactivityTimer` holds a timer and whether that timer
   * is still pending, the shell, timer and connection operations so far,
   * and whether the wait has settled.
   */
  class CommitSession {
    const inactivityTimeout: int
    var data: string
    var stderr: string
    var timerSet: bool
    var timerPending: bool
    var actions: seq<Effect>
    var settled: Option<Settlement>

    constructor (inactivityTimeout: int)
      ensures this.inactivityTimeout == inactivityTimeout
      ensures data == "" && stderr == "" && !timerSet && !timerPending && actions == [] && settled == None
    {
      this.inactivityTimeout := inactivityTimeout;
      data, stderr, timerSet, timerPending := "", "", false, false;
      actions, settled := [], None;
    }

    /** Restart the inactivity timer. */
    method ResetInactivityTimer()
      modifies this
      ensures actions == old(actions) + Rearm(old(timerSet), inactivityTimeout) && timerSet && timerPending
      ensures data == old(data) && stderr == old(stderr) && settled == old(settled)
    {
      actions := actions + Rearm(timerSet, inactivityTimeout);
      timerSet, timerPending := true, true;
    }

    /** The two writes, with the timer armed between them. */
    method SendTranscript(config: string)
      modifies this
      ensures actions == old(actions) + [ShellWrite(CommitTranscript(config))]
                         + Rearm(old(timerSet), inactivityTimeout) + [ShellWrite(ExitTranscript)]
      ensures timerSet && timerPending
      ensures data == old(data) && stderr == old(stderr) && settled == old(settled)
    {
      actions := actions + [ShellWrite(CommitTranscript(config))];
      ResetInactivityTimer();
      actions := actions + [ShellWrite(ExitTranscript)];
    }

    /** A chunk on the output stream: appended to `data`, and the timer restarts. */
    method OnData(chunk: string)
      modifies this
      ensures data == old(data) + chunk && stderr == old(stderr)
      ensures actions == old(actions) + Rearm(old(timerSet), inactivityTimeout) && timerSet && timerPending
      ensures settled == old(settled)
    {
      data := data + chunk;
      ResetInactivityTimer();
    }

    /** A chunk on the error stream: appended to `stderr`, and the timer restarts. */
    method OnStderr(chunk: string)
      modifies this
      ensures stderr == old(stderr) + chunk && data == old(data)
      ensures actions == old(actions) + Rearm(old(timerSet), inactivityTimeout) && timerSet && timerPending
      ensures settled == old(settled)
    {
      stderr := stderr + chunk;
      ResetInactivityTimer();
    }

    /**
     * The inactivity timer went off: the callback ends the shell and
     * disposes the connection. The error it then throws escapes the callback
     * and settles nothing. A timer that is not pending cannot go off.
     */
    method OnTimeout()
      modifies this
      ensures actions == old(actions) + (if old(timerPending) then [ShellEnd, Dispose] else [])
      ensures !timerPending
      ensures data == old(data) && stderr == old(stderr) && timerSet == old(timerSet) && settled == old(settled)
    {
      if timerPending {
        actions := actions + [ShellEnd, Dispose];
        timerPending := false;
      }
    }

    /**
     * The shell closed: the timer is cleared and, unless the wait has
     * settled already, it rejects with the error text when there is any and
     * resolves otherwise.
     */
    method OnClose()
      modifies this
      ensures actions == old(actions) + [ClearTimer] && !timerPending
      ensures settled == if old(settled).Some? then old(settled)
                         else Some(if stderr != "" then Rejected(stderr) else Resolved)
      ensures data == old(data) && stderr == old(stderr) && timerSet == old(timerSet)
    {
      actions, timerPending := actions + [ClearTimer], false;
      if settled.None? {
        settled := Some(if stderr != "" then Rejected(stderr) else Resolved);
      }
    }

    /** The shell ended: the wait resolves, unless it has settled already. */
    method OnEnd()
      modifies this
      ensures settled == if old(settled).Some? then old(settled) else Some(Resolved)
      ensures data == old(data) && stderr == old(stderr) && timerSet == old(timerSet)
      ensures actions == old(actions) && timerPending == old(timerPending)
    {
      if settled.None? {
        settled := Some(Resolved);
      }
    }
  }

  // ---------------------------------------------------------------------------
  // The call as a whole, as a function of the answers

  predicate Settles(e: ShellEvent) {
    e.Close? || e.End?
  }

  /** The index of the first event that settles the wait, at or after `from`. */
  function FirstSettlingFrom(events: seq<ShellEvent>, from: nat): (r: Option<nat>)
    ensures r.Some? ==> from <= r.value < |events| && Settles(events[r.value])
    ensures r.Some? ==> forall k :: from <= k < r.value ==> !Settles(events[k])
    ensures r.None? ==> forall k :: from <= k < |events| ==> !Settles(events[k])
    decreases |events| - from
  {
    if from >= |events| then None
    else if Settles(events[from]) then Some(from)
    else FirstSettlingFrom(events, from + 1)
  }

  function FirstSettling(events: seq<ShellEvent>): Option<nat> {
    FirstSettlingFrom(events, 0)
  }

  /** What one event adds to the output buffer. */
  function DataChunk(e: ShellEvent): string {
    if e.Data? then e.chunk else ""
  }

  /** What one event adds to the error buffer. */
  function StderrChunk(e: ShellEvent): string {
    if e.Stderr? then e.chunk else ""
  }

  /**
   * Whether the timer is pending when event `m` arrives: the writes armed
   * it, every chunk re-arms it, and going off spends it.
   */
  predicate PendingBefore(events: seq<ShellEvent>, m: nat)
    requires m <= |events|
  {
    m == 0 || !events[m - 1].Fire?
  }

  /**
   * What event `m` adds to the log, the timer being set by then: a chunk
   * clears and re-arms the timer; the pending timer going off ends the shell
   * and disposes the connection; the settling events are logged apart.
   */
  function EventEffect(events: seq<ShellEvent>, m: nat, delay: int): seq<Effect>
    requires m < |events|
  {
    match events[m]
    case Data(_) => Rearm(true, delay)
    case Stderr(_) => Rearm(true, delay)
    case Fire => if PendingBefore(events, m) then [ShellEnd, Dispose] else []
    case Close => []
    case End => []
  }

  /** The output buffer after the first `n` events, starting from `data`: chunks appended in arrival order. */
  function DataAfter(data: string, events: seq<ShellEvent>, n: nat): string
    requires n <= |events|
  {
    if n == 0 then data else DataAfter(data, events, n - 1) + DataChunk(events[n - 1])
  }

  /** The error buffer after the first `n` events, starting from `stderr`. */
  function StderrAfter(stderr: string, events: seq<ShellEvent>, n: nat): string
    requires n <= |events|
  {
    if n == 0 then stderr else StderrAfter(stderr, events, n - 1) + StderrChunk(events[n - 1])
  }

  /** The shell and timer log after the first `n` events, starting from `actions`. */
  function ActionsAfter(actions: seq<Effect>, events: seq<ShellEvent>, n: nat, delay: int): seq<Effect>
    requires n <= |events|
  {
    if n == 0 then actions else ActionsAfter(actions, events, n - 1, delay) + EventEffect(events, n - 1, delay)
  }

  /** The writes and the first arming of the timer. */
  function ShellPrologue(config: string, delay: int): seq<Effect> {
    [ShellWrite(CommitTranscript(config)), ArmTimer(delay), ShellWrite(ExitTranscript)]
  }

  /** What the settling event does to the timer: `close` clears it, `end` does not. */
  function Closing(e: ShellEvent): seq<Effect> {
    if e.Close? then [ClearTimer] else []
  }

  /** How the settling event settles the wait, given the error text buffered before it. */
  function SettlementAt(e: ShellEvent, stderr: string): Settlement {
    if e.Close? && stderr != "" then Rejected(stderr) else Resolved
  }

  /** What the `try` block produces once the wait has settled. */
  function AfterWait(s: Settlement, data: string, parser: string -> Parsed): Outcome<Reply> {
    match s
    case Rejected(m) => Threw(Raised(m))
    case Resolved => DecideCommit(data, parser)
  }

  /** A commit call either finishes, with an outcome, or is still waiting for the shell when its answers run out. */
  datatype CommitRun = Finished(outcome: Outcome<Reply>, effects: seq<Effect>) | Pending(effects: seq<Effect>)

  function ConnectFor(ep: Endpoint, timeout: Option<int>): Effect {
    var t := timeout.GetOr(DefaultCommitTimeout);
    Connect(OptionsFor(ep, t, Some(t)))
  }

  /**
   * The log of a commit call whose shell opened: connect, open the shell,
   * the writes and the first arming, what the events before the settling one
   * did (timer resets and the timer's callbacks), and, if the wait settles,
   * the clearing of the timer and the disposal in `finally`.
   */
  function ShellLog(connect: Effect, config: string, delay: int, events: seq<ShellEvent>): seq<Effect> {
    var started := [connect, RequestShell];
    var prologue := ShellPrologue(config, delay);
    match FirstSettling(events)
    case None => started + ActionsAfter(prologue, events, |events|, delay)
    case Some(n) => started + (ActionsAfter(prologue, events, n, delay) + Closing(events[n])) + [ClearTimer, Dispose]
  }

  /** The reference definition of `commitJunosSetConfig`, step by step over the answers. */
  function CommitSpec(ep: Endpoint, config: string, timeout: Option<int>, inactivityTimeout: Option<int>,
                      answers: CommitScript, parser: string -> Parsed): CommitRun
  {
    var delay := inactivityTimeout.GetOr(DefaultInactivityTimeout);
    var connect := ConnectFor(ep, timeout);
    if answers.connectError.Some? then
      Finished(Catch(Threw(Raised(answers.connectError.value))), [connect, Dispose])
    else if answers.shellError.Some? then
      Finished(Catch(Threw(Raised(answers.shellError.value))), [connect, RequestShell, Dispose])
    else
      var events := answers.events;
      var log := ShellLog(connect, config, delay, events);
      match FirstSettling(events)
      case None => Pending(log)
      case Some(n) =>
        var s := SettlementAt(events[n], StderrAfter("", events, n));
        Finished(Catch(AfterWait(s, DataAfter("", events, n), parser)), log)
  }

  /**
   * The event loop's part: the shell's events and the timer's going off
   * reach the session's handlers one at a time, in arrival order, until one
   * of them settles the wait.
   */
  method DeliverEvents(session: CommitSession, events: seq<ShellEvent>)
    requires session.timerSet && session.timerPending && session.settled.None?
    modifies session
    ensures session.timerSet
    ensures FirstSettling(events).None? ==>
              && session.settled.None?
              && session.data == DataAfter(old(session.data), events, |events|)
              && session.stderr == StderrAfter(old(session.stderr), events, |events|)
              && session.actions == ActionsAfter(old(session.actions), events, |events|, session.inactivityTimeout)
    ensures FirstSettling(events).Some? ==>
              var n := FirstSettling(events).value;
              && session.settled == Some(SettlementAt(events[n], StderrAfter(old(session.stderr), events, n)))
              && session.data == DataAfter(old(session.data), events, n)
              && session.stderr == StderrAfter(old(session.stderr), events, n)
              && session.actions == ActionsAfter(old(session.actions), events, n, session.inactivityTimeout)
                                    + Closing(events[n])
  {
    var delay := session.inactivityTimeout;
    var i := 0;
    while i < |events| && !Settles(events[i])
      invariant 0 <= i <= |events|
      invariant FirstSettling(events) == FirstSettlingFrom(events, i)
      invariant session.timerSet && session.settled.None?
      invariant session.timerPending == PendingBefore(events, i)
      invariant session.data == DataAfter(old(session.data), events, i)
      invariant session.stderr == StderrAfter(old(session.stderr), events, i)
      invariant session.actions == ActionsAfter(old(session.actions), events, i, delay)
    {
      match events[i] {
        case Data(c) => session.OnData(c);
        case Stderr(c) => session.OnStderr(c);
        case Fire => session.OnTimeout();
      }
      i := i + 1;
    }
    if i < |events| {
      assert FirstSettling(events) == Some(i);
      if events[i].Close? {
        session.OnClose();
      } else {
        session.OnEnd();
      }
    }
  }

  /**
   * `commitJunosSetConfig(address, port, username, password, config, timeout,
   * inactivityTimeout)`, proved to behave as its reference definition.
   */
  method CommitJunosSetConfig(ep: Endpoint, config: string, timeout: Option<int>, inactivityTimeout: Option<int>,
                              answers: CommitScript, parser: string -> Parsed)
    returns (run: CommitRun)
    ensures run == CommitSpec(ep, config, timeout, inactivityTimeout, answers, parser)
  {
    var delay := inactivityTimeout.GetOr(DefaultInactivityTimeout);
    var connect := ConnectFor(ep, timeout);
    if answers.connectError.Some? {
      return Finished(Catch(Threw(Raised(answers.connectError.value))), [connect, Dispose]);
    }
    if answers.shellError.Some? {
      return Finished(Catch(Threw(Raised(answers.shellError.value))), [connect, RequestShell, Dispose]);
    }
    var session := new CommitSession(delay);
    session.SendTranscript(config);
    assert session.actions == ShellPrologue(config, delay);
    var events := answers.events;
    DeliverEvents(session, events);
    var started := [connect, RequestShell];
    if session.settled.None? {
      return Pending(started + session.actions);
    }
    var outcome := Catch(AfterWait(session.settled.value, session.data, parser));
    run := Finished(outcome, started + session.actions + [ClearTimer, Dispose]);
  }
}

/** Properties of the commit call, proved about its reference definition. */
module CommitProperties {
  import opened Options
  import opened JsString
  import opened Messages
  import opened Classifier
  import opened ReplyTree
  import opened Commit

  /** The buffers start empty and grow by appending: the chunks end up in arrival order after whatever was there. */
  lemma {:induction false} BuffersAppendInArrivalOrder(data: string, stderr: string, events: seq<ShellEvent>, n: nat)
    requires n <= |events|
    ensures DataAfter(data, events, n) == data + DataAfter("", events, n)
    ensures StderrAfter(stderr, events, n) == stderr + StderrAfter("", events, n)
  {
    if n > 0 {
      BuffersAppendInArrivalOrder(data, stderr, events, n - 1);
    }
  }

  /** A later event never changes what the earlier ones put in the buffers. */
  lemma {:induction false} BuffersArePrefixes(events: seq<ShellEvent>, m: nat, n: nat)
    requires m <= n <= |events|
    ensures DataAfter("", events, m) <= DataAfter("", events, n)
    ensures StderrAfter("", events, m) <= StderrAfter("", events, n)
  {
    if m < n {
      BuffersArePrefixes(events, m, n - 1);
    }
  }

  /** How many of the first `n` events are chunks (of either stream). */
  function ChunkCount(events: seq<ShellEvent>, n: nat): nat
    requires n <= |events|
  {
    if n == 0 then 0 else ChunkCount(events, n - 1) + (if events[n - 1].Data? || events[n - 1].Stderr? then 1 else 0)
  }

  /** Whether event `m` is the pending inactivity timer going off. */
  predicate Fires(events: seq<ShellEvent>, m: nat)
    requires m < |events|
  {
    events[m].Fire? && PendingBefore(events, m)
  }

  /** How many times the inactivity timer's callback runs during the first `n` events. */
  function Firings(events: seq<ShellEvent>, n: nat): nat
    requires n <= |events|
  {
    if n == 0 then 0 else Firings(events, n - 1) + (if Fires(events, n - 1) then 1 else 0)
  }

  /** `count` resets of the inactivity timer: each clears the pending timer and arms a new one. */
  function TimerResets(count: nat, delay: int): seq<Effect> {
    if count == 0 then [] else TimerResets(count - 1, delay) + [ClearTimer, ArmTimer(delay)]
  }

  /** The events only add to the log: what was logged before them stays in front. */
  lemma {:induction false} EventsAppendToLog(prologue: seq<Effect>, events: seq<ShellEvent>, n: nat, delay: int)
    requires n <= |events|
    ensures ActionsAfter(prologue, events, n, delay) == prologue + ActionsAfter([], events, n, delay)
  {
    if n > 0 {
      EventsAppendToLog(prologue, events, n - 1, delay);
      var c := EventEffect(events, n - 1, delay);
      assert (prologue + ActionsAfter([], events, n - 1, delay)) + c
             == prologue + (ActionsAfter([], events, n - 1, delay) + c);
    }
  }

  /**
   * While the timer never goes off, every chunk, of either stream, resets
   * the timer once, and nothing else is logged.
   */
  lemma {:induction false} QuietWaitResetsTheTimer(events: seq<ShellEvent>, n: nat, delay: int)
    requires n <= |events| && Firings(events, n) == 0
    ensures ActionsAfter([], events, n, delay) == TimerResets(ChunkCount(events, n), delay)
  {
    if n > 0 {
      QuietWaitResetsTheTimer(events, n - 1, delay);
      assert Rearm(true, delay) == [ClearTimer, ArmTimer(delay)];
    }
  }

  /** The events before the settling one only clear and arm the timer, end the shell and dispose. */
  lemma {:induction false} WaitLogEntries(events: seq<ShellEvent>, n: nat, delay: int)
    requires n <= |events|
    ensures forall e :: e in ActionsAfter([], events, n, delay)
                        ==> e == ClearTimer || e == ArmTimer(delay) || e == ShellEnd || e == Dispose
  {
    if n > 0 {
      WaitLogEntries(events, n - 1, delay);
    }
  }

  /** How many entries of `log` are `x`. */
  function Count(log: seq<Effect>, x: Effect): nat
  {
    if |log| == 0 then 0 else (if log[0] == x then 1 else 0) + Count(log[1..], x)
  }

  /** A log split in two counts the effect `x` as its two parts together do. */
  lemma {:induction false} CountSplits(a: seq<Effect>, b: seq<Effect>, x: Effect)
    ensures Count(a + b, x) == Count(a, x) + Count(b, x)
  {
    if |a| == 0 {
      assert a + b == b;
    } else {
      assert (a + b)[1..] == a[1..] + b;
      CountSplits(a[1..], b, x);
    }
  }

  /** A log counts no `x` exactly when `x` is not in it. */
  lemma {:induction false} CountZero(log: seq<Effect>, x: Effect)
    ensures Count(log, x) == 0 <==> x !in log
  {
    if |log| > 0 {
      CountZero(log[1..], x);
      assert log == [log[0]] + log[1..];
    }
  }

  /** A two-entry log counts each entry that is `x`. */
  lemma CountPair(a: Effect, b: Effect, x: Effect)
    ensures Count([a, b], x) == (if a == x then 1 else 0) + (if b == x then 1 else 0)
  {
    assert [a, b][1..] == [b];
    assert Count([a, b], x) == (if a == x then 1 else 0) + Count([b], x);
    assert [b][1..] == [];
    assert Count([b], x) == (if b == x then 1 else 0) + Count([], x);
  }

  /** A chunk clears and arms the timer once; no other event does either. */
  lemma EventResetCounts(events: seq<ShellEvent>, m: nat, delay: int)
    requires m < |events|
    ensures Count(EventEffect(events, m, delay), ClearTimer) == if events[m].Data? || events[m].Stderr? then 1 else 0
    ensures Count(EventEffect(events, m, delay), ArmTimer(delay)) == if events[m].Data? || events[m].Stderr? then 1 else 0
  {
    if events[m].Data? || events[m].Stderr? {
      assert EventEffect(events, m, delay) == [ClearTimer, ArmTimer(delay)];
      CountPair(ClearTimer, ArmTimer(delay), ClearTimer);
      CountPair(ClearTimer, ArmTimer(delay), ArmTimer(delay));
    } else if Fires(events, m) {
      assert EventEffect(events, m, delay) == [ShellEnd, Dispose];
      CountPair(ShellEnd, Dispose, ClearTimer);
      CountPair(ShellEnd, Dispose, ArmTimer(delay));
    } else {
      assert EventEffect(events, m, delay) == [];
    }
  }

  /** The pending timer going off ends the shell and disposes once; no other event does either. */
  lemma EventFiringCounts(events: seq<ShellEvent>, m: nat, delay: int)
    requires m < |events|
    ensures Count(EventEffect(events, m, delay), ShellEnd) == if Fires(events, m) then 1 else 0
    ensures Count(EventEffect(events, m, delay), Dispose) == if Fires(events, m) then 1 else 0
  {
    if events[m].Data? || events[m].Stderr? {
      assert EventEffect(events, m, delay) == [ClearTimer, ArmTimer(delay)];
      CountPair(ClearTimer, ArmTimer(delay), ShellEnd);
      CountPair(ClearTimer, ArmTimer(delay), Dispose);
    } else if Fires(events, m) {
      assert EventEffect(events, m, delay) == [ShellEnd, Dispose];
      CountPair(ShellEnd, Dispose, ShellEnd);
      CountPair(ShellEnd, Dispose, Dispose);
    } else {
      assert EventEffect(events, m, delay) == [];
    }
  }

  /** Event `n - 1` adds one clearing and one arming to the log if it is a chunk, none otherwise. */
  lemma ResetStep(events: seq<ShellEvent>, n: nat, delay: int, x: Effect)
    requires 0 < n <= |events| && (x == ClearTimer || x == ArmTimer(delay))
    ensures Count(ActionsAfter([], events, n, delay), x)
            == Count(ActionsAfter([], events, n - 1, delay), x) + if events[n - 1].Data? || events[n - 1].Stderr? then 1 else 0
  {
    var before, step := ActionsAfter([], events, n - 1, delay), EventEffect(events, n - 1, delay);
    assert ActionsAfter([], events, n, delay) == before + step;
    EventResetCounts(events, n - 1, delay);
    CountSplits(before, step, x);
  }

  /** Event `n - 1` adds one end of the shell and one disposal to the log if the timer goes off then, none otherwise. */
  lemma FiringStep(events: seq<ShellEvent>, n: nat, delay: int, x: Effect)
    requires 0 < n <= |events| && (x == ShellEnd || x == Dispose)
    ensures Count(ActionsAfter([], events, n, delay), x)
            == Count(ActionsAfter([], events, n - 1, delay), x) + if Fires(events, n - 1) then 1 else 0
  {
    var before, step := ActionsAfter([], events, n - 1, delay), EventEffect(events, n - 1, delay);
    assert ActionsAfter([], events, n, delay) == before + step;
    EventFiringCounts(events, n - 1, delay);
    CountSplits(before, step, x);
  }

  /** The timer's part of that log: one clearing and one arming per chunk. */
  lemma {:induction false} WaitLogResetCounts(events: seq<ShellEvent>, n: nat, delay: int)
    requires n <= |events|
    ensures Count(ActionsAfter([], events, n, delay), ClearTimer) == ChunkCount(events, n)
    ensures Count(ActionsAfter([], events, n, delay), ArmTimer(delay)) == ChunkCount(events, n)
  {
    if n > 0 {
      WaitLogResetCounts(events, n - 1, delay);
      ResetStep(events, n, delay, ClearTimer);
      ResetStep(events, n, delay, ArmTimer(delay));
    }
  }

  /** The callback's part of that log: one end of the shell and one disposal per time the timer goes off. */
  lemma {:induction false} WaitLogFiringCounts(events: seq<ShellEvent>, n: nat, delay: int)
    requires n <= |events|
    ensures Count(ActionsAfter([], events, n, delay), ShellEnd) == Firings(events, n)
    ensures Count(ActionsAfter([], events, n, delay), Dispose) == Firings(events, n)
  {
    if n > 0 {
      WaitLogFiringCounts(events, n - 1, delay);
      FiringStep(events, n, delay, ShellEnd);
      FiringStep(events, n, delay, Dispose);
    }
  }

  /** The answers under which the shell was opened and the wait settled at event `n`. */
  predicate SettledAt(answers: CommitScript, n: nat) {
    answers.connectError.None? && answers.shellError.None? && FirstSettling(answers.events) == Some(n)
  }

  /** How many events the commit call waits through: all of them, or those before the settling one. */
  function EventsSeen(events: seq<ShellEvent>): (n: nat)
    ensures n <= |events|
  {
    match FirstSettling(events)
    case None => |events|
    case Some(n) => n
  }

  /** What the events the call waits through add to the log. */
  function WaitLog(events: seq<ShellEvent>, delay: int): seq<Effect> {
    ActionsAfter([], events, EventsSeen(events), delay)
  }

  /** What follows the wait in a log: nothing while waiting, the clearing and the disposal once settled. */
  function LogTail(events: seq<ShellEvent>): seq<Effect> {
    match FirstSettling(events)
    case None => []
    case Some(n) => Closing(events[n]) + [ClearTimer, Dispose]
  }

  /** The log as far as the writes: connect, open the shell, write the transcript, arm the timer, write the extra exit. */
  function ShellFront(connect: Effect, config: string, delay: int): (front: seq<Effect>)
    ensures front == [connect, RequestShell, ShellWrite(CommitTranscript(config)), ArmTimer(delay), ShellWrite(ExitTranscript)]
  {
    [connect, RequestShell] + ShellPrologue(config, delay)
  }

  /**
   * The shape of the log once the shell is open: the writes with the timer
   * armed between them; then what the waited-through events do; then, if
   * the wait settles, the clearing of the timer (by `close` and again in
   * `finally`) and the disposal.
   */
  lemma ShellLogShape(connect: Effect, config: string, delay: int, events: seq<ShellEvent>)
    ensures ShellLog(connect, config, delay, events) == ShellFront(connect, config, delay) + WaitLog(events, delay) + LogTail(events)
  {
    var n := EventsSeen(events);
    var prologue := ShellPrologue(config, delay);
    var wait := WaitLog(events, delay);
    EventsAppendToLog(prologue, events, n, delay);
    var started := [connect, RequestShell];
    match FirstSettling(events)
    case None =>
      assert ShellLog(connect, config, delay, events) == started + (prologue + wait);
    case Some(m) =>
      var closing := Closing(events[m]);
      assert ShellLog(connect, config, delay, events) == started + ((prologue + wait) + closing) + [ClearTimer, Dispose];
      Regroup(started, prologue, wait, closing, [ClearTimer, Dispose]);
  }

  lemma Regroup<T>(a: seq<T>, b: seq<T>, c: seq<T>, d: seq<T>, e: seq<T>)
    ensures a + ((b + c) + d) + e == (a + b) + c + (d + e)
  {
  }

  /**
   * The commit call's log has that shape whenever the shell opened; while
   * the timer never goes off, the wait logs exactly one timer reset per chunk.
   */
  lemma CommitEffectLog(ep: Endpoint, config: string, timeout: Option<int>, inactivityTimeout: Option<int>,
                        answers: CommitScript, parser: string -> Parsed)
    requires answers.connectError.None? && answers.shellError.None?
    ensures var delay := inactivityTimeout.GetOr(DefaultInactivityTimeout);
            CommitSpec(ep, config, timeout, inactivityTimeout, answers, parser).effects
            == ShellFront(ConnectFor(ep, timeout), config, delay) + WaitLog(answers.events, delay) + LogTail(answers.events)
    ensures var delay := inactivityTimeout.GetOr(DefaultInactivityTimeout);
            var seen := EventsSeen(answers.events);
            Firings(answers.events, seen) == 0
            ==> WaitLog(answers.events, delay) == TimerResets(ChunkCount(answers.events, seen), delay)
  {
    var delay := inactivityTimeout.GetOr(DefaultInactivityTimeout);
    var seen := EventsSeen(answers.events);
    ShellLogShape(ConnectFor(ep, timeout), config, delay, answers.events);
    if Firings(answers.events, seen) == 0 {
      QuietWaitResetsTheTimer(answers.events, seen, delay);
    }
  }

  /** Only the two transcript writes reach the shell: nothing after them writes again. */
  lemma ShellLogWritesTwice(connect: Effect, config: string, delay: int, events: seq<ShellEvent>)
    requires !connect.ShellWrite?
    ensures var log := ShellLog(connect, config, delay, events);
            && |log| >= 5
            && log[2] == ShellWrite(CommitTranscript(config))
            && log[4] == ShellWrite(ExitTranscript)
            && forall e :: e in log[5..] ==> !e.ShellWrite?
  {
    var log := ShellLog(connect, config, delay, events);
    var front := ShellFront(connect, config, delay);
    var rest := WaitLog(events, delay) + LogTail(events);
    ShellLogShape(connect, config, delay, events);
    WaitLogEntries(events, EventsSeen(events), delay);
    assert log == front + rest;
    assert log[5..] == rest;
  }

  /** The tail disposes once if the wait settled, and never ends the shell. */
  lemma LogTailCounts(events: seq<ShellEvent>)
    ensures Count(LogTail(events), Dispose) == if FirstSettling(events).Some? then 1 else 0
    ensures Count(LogTail(events), ShellEnd) == 0
  {
    if FirstSettling(events).Some? {
      var closing := Closing(events[FirstSettling(events).value]);
      assert Dispose !in closing && ShellEnd !in closing;
      CountZero(closing, Dispose);
      CountZero(closing, ShellEnd);
      CountPair(ClearTimer, Dispose, Dispose);
      CountPair(ClearTimer, Dispose, ShellEnd);
      CountSplits(closing, [ClearTimer, Dispose], Dispose);
      CountSplits(closing, [ClearTimer, Dispose], ShellEnd);
    }
  }

  /**
   * The disposals in a log: one per time the timer went off, plus the one
   * in `finally` once the wait settles; and as many ends of the shell as
   * times the timer went off.
   */
  lemma ShellLogCounts(connect: Effect, config: string, delay: int, events: seq<ShellEvent>)
    requires connect.Connect?
    ensures Count(ShellLog(connect, config, delay, events), Dispose)
            == Firings(events, EventsSeen(events)) + if FirstSettling(events).Some? then 1 else 0
    ensures Count(ShellLog(connect, config, delay, events), ShellEnd) == Firings(events, EventsSeen(events))
  {
    var front := ShellFront(connect, config, delay);
    var wait := WaitLog(events, delay);
    var tail := LogTail(events);
    ShellLogShape(connect, config, delay, events);
    WaitLogFiringCounts(events, EventsSeen(events), delay);
    LogTailCounts(events);
    assert Dispose !in front && ShellEnd !in front;
    CountZero(front, Dispose);
    CountZero(front, ShellEnd);
    CountSplits(front, wait, Dispose);
    CountSplits(front, wait, ShellEnd);
    CountSplits(front + wait, tail, Dispose);
    CountSplits(front + wait, tail, ShellEnd);
  }

  /** Once the wait settles, the disposal in `finally` is the log's last step. */
  lemma ShellLogEndsWithDispose(connect: Effect, config: string, delay: int, events: seq<ShellEvent>)
    requires FirstSettling(events).Some?
    ensures |ShellLog(connect, config, delay, events)| > 0
    ensures ShellLog(connect, config, delay, events)[|ShellLog(connect, config, delay, events)| - 1] == Dispose
  {
  }

  /**
   * Disposal: once the wait settles the log ends with the disposal in
   * `finally`; every other disposal is the timer callback's, as many as
   * times the timer went off, each with an end of the shell. While the timer
   * never goes off, a settled call disposes exactly once, as its last step,
   * and a waiting one not at all.
   */
  lemma ShellLogDisposal(connect: Effect, config: string, delay: int, events: seq<ShellEvent>)
    requires connect.Connect?
    ensures var log := ShellLog(connect, config, delay, events);
            FirstSettling(events).Some? ==>
              && log[|log| - 1] == Dispose
              && Count(log, Dispose) == Firings(events, EventsSeen(events)) + 1
    ensures FirstSettling(events).None? ==>
              Count(ShellLog(connect, config, delay, events), Dispose) == Firings(events, |events|)
    ensures Count(ShellLog(connect, config, delay, events), ShellEnd) == Firings(events, EventsSeen(events))
    ensures Firings(events, EventsSeen(events)) == 0 ==>
              && (FirstSettling(events).Some? ==> DisposedOnceAtEnd(ShellLog(connect, config, delay, events)))
              && (FirstSettling(events).None? ==> Dispose !in ShellLog(connect, config, delay, events))
  {
    ShellLogCounts(connect, config, delay, events);
    var log := ShellLog(connect, config, delay, events);
    if FirstSettling(events).Some? {
      ShellLogEndsWithDispose(connect, config, delay, events);
      var body := log[..|log| - 1];
      assert log == body + [Dispose];
      assert [Dispose][1..] == [];
      CountSplits(body, [Dispose], Dispose);
      CountZero(body, Dispose);
    } else {
      CountZero(log, Dispose);
    }
  }

  /** The commit call writes only the transcript and the extra exit, once it has a shell. */
  lemma CommitWritesTwice(ep: Endpoint, config: string, timeout: Option<int>, inactivityTimeout: Option<int>,
                          answers: CommitScript, parser: string -> Parsed)
    requires answers.connectError.None? && answers.shellError.None?
    ensures var effects := CommitSpec(ep, config, timeout, inactivityTimeout, answers, parser).effects;
            && |effects| >= 5
            && effects[2] == ShellWrite(CommitTranscript(config))
            && effects[4] == ShellWrite(ExitTranscript)
            && forall e :: e in effects[5..] ==> !e.ShellWrite?
  {
    ShellLogWritesTwice(ConnectFor(ep, timeout), config, inactivityTimeout.GetOr(DefaultInactivityTimeout), answers.events);
  }

  /** How many times the inactivity timer goes off during a commit call: never, unless the shell opened. */
  function TimerFirings(answers: CommitScript): nat {
    if answers.connectError.None? && answers.shellError.None? then
      Firings(answers.events, EventsSeen(answers.events))
    else 0
  }

  /**
   * Every finished commit call ends with the disposal in `finally`; every
   * other disposal, in a finished call or a waiting one, is the inactivity
   * timer's callback, which also ends the shell.
   */
  lemma CommitDisposal(ep: Endpoint, config: string, timeout: Option<int>, inactivityTimeout: Option<int>,
                       answers: CommitScript, parser: string -> Parsed)
    ensures var run := CommitSpec(ep, config, timeout, inactivityTimeout, answers, parser);
            && (run.Finished? ==> && run.effects[|run.effects| - 1] == Dispose
                                  && Count(run.effects, Dispose) == TimerFirings(answers) + 1)
            && (run.Pending? ==> Count(run.effects, Dispose) == TimerFirings(answers))
            && Count(run.effects, ShellEnd) == TimerFirings(answers)
  {
    if answers.connectError.None? && answers.shellError.None? {
      ShellLogDisposal(ConnectFor(ep, timeout), config, inactivityTimeout.GetOr(DefaultInactivityTimeout), answers.events);
    } else {
      var connect := ConnectFor(ep, timeout);
      DisposedAfter([connect]);
      DisposedAfter([connect, RequestShell]);
    }
  }

  /**
   * A commit call whose inactivity timer never goes off disposes its
   * session exactly once, as its last step, if it finishes, and not at all
   * while it waits.
   */
  lemma QuietCommitDisposal(ep: Endpoint, config: string, timeout: Option<int>, inactivityTimeout: Option<int>,
                            answers: CommitScript, parser: string -> Parsed)
    requires TimerFirings(answers) == 0
    ensures var run := CommitSpec(ep, config, timeout, inactivityTimeout, answers, parser);
            && (run.Finished? ==> DisposedOnceAtEnd(run.effects))
            && (run.Pending? ==> Dispose !in run.effects)
  {
    if answers.connectError.None? && answers.shellError.None? {
      ShellLogDisposal(ConnectFor(ep, timeout), config, inactivityTimeout.GetOr(DefaultInactivityTimeout), answers.events);
    } else {
      var connect := ConnectFor(ep, timeout);
      DisposedAfter([connect]);
      DisposedAfter([connect, RequestShell]);
    }
  }

  /** A log that neither disposes nor ends the shell, followed by one disposal, disposes exactly once. */
  lemma DisposedAfter(body: seq<Effect>)
    requires Dispose !in body && ShellEnd !in body
    ensures Count(body + [Dispose], Dispose) == 1 && Count(body + [Dispose], ShellEnd) == 0
    ensures DisposedOnceAtEnd(body + [Dispose])
  {
    CountZero(body, Dispose);
    CountZero(body, ShellEnd);
    assert [Dispose][1..] == [];
    CountSplits(body, [Dispose], Dispose);
    CountSplits(body, [Dispose], ShellEnd);
    assert (body + [Dispose])[..|body|] == body;
  }

  /** A close with buffered error text rejects: the call fails with that text reclassified, never with success. */
  lemma StderrOnCloseRejects(ep: Endpoint, config: string, timeout: Option<int>, inactivityTimeout: Option<int>,
                             answers: CommitScript, parser: string -> Parsed, n: nat)
    requires SettledAt(answers, n) && answers.events[n].Close? && StderrAfter("", answers.events, n) != ""
    ensures CommitSpec(ep, config, timeout, inactivityTimeout, answers, parser).outcome
            == Threw(ReclassifyCommitError(Raised(StderrAfter("", answers.events, n))))
  {
  }

  /** A clean finish without any `<rpc-reply>` fragment fails as no reply, carrying the whole output buffer. */
  lemma NoReplyCarriesBuffer(ep: Endpoint, config: string, timeout: Option<int>, inactivityTimeout: Option<int>,
                             answers: CommitScript, parser: string -> Parsed, n: nat)
    requires SettledAt(answers, n)
    requires SettlementAt(answers.events[n], StderrAfter("", answers.events, n)) == Resolved
    requires forall i, j :: !ReplyAt(DataAfter("", answers.events, n), i, j)
    ensures CommitSpec(ep, config, timeout, inactivityTimeout, answers, parser).outcome
            == Threw(Classified(NoRpcReply, NoRpcReplyText, Some(DataAfter("", answers.events, n))))
  {
    DecisionSurvivesCatch(DataAfter("", answers.events, n), parser);
  }

  /**
   * The tie-break: an error node in the reply's commit results makes the
   * call fail with the trimmed error message, even when the fragment also
   * holds the success marker.
   */
  lemma CommitErrorBeatsSuccessMarker(ep: Endpoint, config: string, timeout: Option<int>,
                                      inactivityTimeout: Option<int>, answers: CommitScript,
                                      parser: string -> Parsed, n: nat, doc: Document, text: string)
    requires SettledAt(answers, n)
    requires SettlementAt(answers.events[n], StderrAfter("", answers.events, n)) == Resolved
    requires MatchRpcReply(DataAfter("", answers.events, n)).Some?
    requires parser(MatchRpcReply(DataAfter("", answers.events, n)).value) == Parsed(doc)
    requires doc.rootName == "rpc-reply" && ErrorNode(doc.root).Some?
    requires Child(ErrorNode(doc.root).value, "message") == Some(Text(text))
    ensures CommitSpec(ep, config, timeout, inactivityTimeout, answers, parser).outcome
            == Threw(Classified(CommitFailed, CommitErrorText, Some(Trim(text))))
  {
    DecisionSurvivesCatch(DataAfter("", answers.events, n), parser);
  }

  /**
   * Success needs everything: an open shell, a clean finish, a reply
   * fragment that parses without an error node, and the success marker in
   * it; the call then resolves with the fragment.
   */
  lemma CommitSuccessIff(ep: Endpoint, config: string, timeout: Option<int>, inactivityTimeout: Option<int>,
                         answers: CommitScript, parser: string -> Parsed)
    ensures var run := CommitSpec(ep, config, timeout, inactivityTimeout, answers, parser);
            (run.Finished? && run.outcome.Returned?)
            <==> exists n: nat :: && SettledAt(answers, n)
                                  && SettlementAt(answers.events[n], StderrAfter("", answers.events, n)) == Resolved
                                  && DecideCommit(DataAfter("", answers.events, n), parser).Returned?
    ensures var run := CommitSpec(ep, config, timeout, inactivityTimeout, answers, parser);
            run.Finished? && run.outcome.Returned? ==>
              var n := FirstSettling(answers.events).value;
              var fragment := MatchRpcReply(DataAfter("", answers.events, n));
              && fragment.Some?
              && run.outcome.value == Reply(Success, CommitSuccessText, fragment.value)
              && Includes(fragment.value, CommitSuccessMarker)
  {
    var run := CommitSpec(ep, config, timeout, inactivityTimeout, answers, parser);
    if run.Finished? && run.outcome.Returned? {
      var n := FirstSettling(answers.events).value;
      assert SettledAt(answers, n);
    }
  }

  /**
   * `inactivity_timeout` is reported only when some error that reached the
   * catch block had exactly the sentinel text as its message: a connection
   * or shell failure, the buffered error text, or a parse error. The
   * error the inactivity timer's callback throws never reaches it.
   */
  lemma InactivityNeedsSentinelMessage(ep: Endpoint, config: string, timeout: Option<int>,
                                       inactivityTimeout: Option<int>, answers: CommitScript,
                                       parser: string -> Parsed)
    requires CommitSpec(ep, config, timeout, inactivityTimeout, answers, parser).Finished?
    requires CommitSpec(ep, config, timeout, inactivityTimeout, answers, parser).outcome.Threw?
    requires CommitSpec(ep, config, timeout, inactivityTimeout, answers, parser).outcome.error.status
             == InactivityTimeout
    ensures || answers.connectError == Some(InactivityTimeoutText)
            || (answers.connectError.None? && answers.shellError == Some(InactivityTimeoutText))
            || (exists n: nat :: && SettledAt(answers, n)
                                 && (|| SettlementAt(answers.events[n], StderrAfter("", answers.events, n))
                                        == Rejected(InactivityTimeoutText)
                                     || (&& MatchRpcReply(DataAfter("", answers.events, n)).Some?
                                         && parser(MatchRpcReply(DataAfter("", answers.events, n)).value)
                                            == Malformed(InactivityTimeoutText))))
  {
    if answers.connectError.None? && answers.shellError.None? {
      var n := FirstSettling(answers.events).value;
      assert SettledAt(answers, n);
      var data := DataAfter("", answers.events, n);
      var s := SettlementAt(answers.events[n], StderrAfter("", answers.events, n));
      var tried := AfterWait(s, data, parser);
      InactivityOnlyFromSentinel(tried.error);
      if tried.error.Classified? {
        FixedMessagesAreNotConnectionFailures(tried.error.message);
      } else if s == Resolved {
        var fragment := MatchRpcReply(data).value;
        if parser(fragment).Parsed? {
          assert false;
        }
      }
    }
  }
}

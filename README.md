# Junos device operations of jccm, modelled in Dafny

jccm (Juniper Cloud Connection Manager) talks to Junos devices over SSH via
its device module `jccm/src/Services/Device.js`. This project models the
module's three operations and the decision logic around them:

- `executeJunosCommand` runs one command with the pagination suffix
  ` | no-more`. It rejects when stderr is non-empty and classifies every
  failure into a `{status, message, data}` object.
- `getDeviceFacts` runs `show system information | display xml` and reads
  five facts from the parsed reply. It returns all five or throws a single
  parse error.
- `commitJunosSetConfig` opens an interactive shell. It writes the
  `edit exclusive private` / configuration / `commit | display xml` / `exit`
  transcript, then a second `exit`. It buffers the output and error streams
  and restarts an inactivity timer on every chunk; if the timer goes off, its
  callback ends the shell and disposes the connection. It waits for `close` or
  `end`, cuts the first `<rpc-reply ...</rpc-reply>` fragment out of the
  output, and decides between success, commit error, commit without success
  and no reply. A catch block then reclassifies connection failures and the
  inactivity sentinel.

What stands in for the outside world:

- The SSH library (`node-ssh`) is replaced by its answers, given as input:
  - whether `connect` fails, and with which message;
  - what `execCommand` yields, or whether `requestShell` fails;
  - for the shell, the sequence of events that follows the writes: `data`
    and `stderr` chunks, the inactivity timer going off, `close` and `end`,
    in arrival order.
- The connection options, the command, the shell writes, the timer
  operations and `dispose` are recorded in order as an effect log.
- The XML parser (`xml2js`) is a function parameter from text to a parsed
  document or a parse error. A document is the tree xml2js builds by
  default: a text-only element is its text, and any other element maps each
  child tag to a non-empty list of children.
- A thrown `Error` carries only a message. A thrown plain object carries a
  status, a message and optionally data.
- A commit call either finishes with an outcome or, when no `close` or
  `end` is among its answers, is still waiting: its promise is pending when
  the answers run out. The inactivity timer's callback ends the shell and
  disposes the connection, but settles nothing, so a waiting call may
  already have been disposed, and a call that finishes after its timer went
  off disposes again in `finally`.
- The event loop is a method that hands the events to a `CommitSession`
  object one at a time. That object's fields are the two buffers, the timer
  slot and whether its timer is still pending, the shell/timer/connection
  log and the settlement. The method is proved to
  agree with a reference function of the answers, `Commit.CommitSpec`. The
  properties of the commit call are proved about that function.

Files:

- `options.dfy`: the `Option` type.
- `js_string.dfy`: `includes`, the substring search behind it and behind
  the reply match, and `trim`.
- `messages.dfy`: the status and message tables, and the values and effects
  of the module.
- `classifier.dfy`: both catch blocks.
- `reply_tree.dfy`: the parsed-reply tree and the `<rpc-reply>` match.
- `command.dfy`: `executeJunosCommand`.
- `facts.dfy`: `getDeviceFacts`.
- `commit.dfy`: `commitJunosSetConfig`, its session class, its reference
  definition and its properties.

## Model

| member | source | states |
|---|---|---|
| `Messages.Status.Label` | jccm/src/Services/Device.js:4-12 | each status has its table string; none is empty, so a thrown object's `status` is always truthy |
| `Messages.OptionsFor` | jccm/src/Services/Device.js:29-35 | the connect options carry the caller's host, port, user and password, plus the given ready timeout and optional socket timeout |
| `JsString.Includes` | jccm/src/Services/Device.js:52 | `s.includes(p)` holds exactly when `p` occurs at some index of `s` |
| `JsString.FindFrom` | jccm/src/Services/Device.js:185 | the first occurrence at or after `from`, with no earlier one; none means no occurrence at all |
| `JsString.Trim` | jccm/src/Services/Device.js:176 | the result is a slice of the input; everything cut away is ECMAScript whitespace; the result neither starts nor ends with whitespace |
| `JsString.TrimIdempotent` | jccm/src/Services/Device.js:176 | trimming twice is trimming once |
| `Classifier.Classify` | jccm/src/Services/Device.js:49-58 | authentication failure iff the message holds the authentication marker, even if it also holds the handshake text; timeout iff only the handshake text; unreachable iff neither |
| `Classifier.ClassifyExecuteError` | jccm/src/Services/Device.js:48-61 | the thrown object has the classifier's status and message, and the caught message as `data` |
| `Classifier.ReclassifyCommitError` | jccm/src/Services/Device.js:205-223 | in order: authentication, handshake timeout, then the exact inactivity sentinel; then an object that already has a status is re-thrown unchanged, and anything else is unreachable; an object it builds itself has no `data` |
| `Classifier.ClassificationAgrees` | jccm/src/Services/Device.js:206-214 | apart from the sentinel, the commit catch block gives a plain error the same status and message as the command catch block |
| `Classifier.InactivityOnlyFromSentinel` | jccm/src/Services/Device.js:215-217 | an inactivity status needs a message exactly equal to the sentinel, or an object that already carried that status |
| `ReplyTree.Child` | jccm/src/Services/Device.js:79 | `node[key][0]` is defined exactly when the node is an element holding `key`, and is then the first child under `key` |
| `ReplyTree.Root` | jccm/src/Services/Device.js:76 | `parsed[name]` is defined exactly when the root element has that name, and is then the root's value |
| `ReplyTree.FindRpcReply` | jccm/src/Services/Device.js:166 | no match iff no opening tag is followed by a closing tag; otherwise the match starts at the leftmost opening tag and ends with the first closing tag after it (lazy repetition) |
| `ReplyTree.MatchRpcReply` | jccm/src/Services/Device.js:166 | no text iff no opening tag is followed by a closing tag; otherwise the text of the span `FindRpcReply` locates (leftmost opening tag through the first closing tag after it), which starts with `<rpc-reply` and ends with `</rpc-reply>` |
| `ReplyTree.FindRpcReplyAt` | jccm/src/Services/Device.js:166 | an opening tag with none before it, together with the first closing tag after it, is exactly the match |
| `ReplyTree.MatchFindsEmbeddedReply` | jccm/src/Services/Device.js:166 | a reply fragment embedded in shell noise that holds no other tags is exactly what the match returns |
| `Command.NoMoreCommand` | jccm/src/Services/Device.js:25 | the command sent is the caller's command followed by the no-more pagination suffix |
| `Command.ExecuteJunosCommand` | jccm/src/Services/Device.js:24-65 | the session is disposed exactly once, as the last step; the only command run is the command with the no-more suffix, and it runs iff the connection succeeds; the call succeeds iff connect and exec succeed with empty stderr, returning stdout; every failure is classified and carries the caught message; a non-empty stderr gives data `"executeJunosCommand Error: " + stderr` |
| `Facts.SystemInformation` | jccm/src/Services/Device.js:76 | `parsedResult['rpc-reply']['system-information'][0]` is defined exactly when that chain of keys is present |
| `Facts.ExtractFacts` | jccm/src/Services/Device.js:76-85 | a record exists iff the block holds all five keys, never a partial one; each fact is element `[0]` under its key, and the status is success |
| `Facts.ExtractFactsRoundTrip` | jccm/src/Services/Device.js:76-87 | facts written into a reply are read back unchanged |
| `Facts.MissingFactFails` | jccm/src/Services/Device.js:78-91 | lacking any one of the five keys, no record is produced |
| `Facts.GetDeviceFacts` | jccm/src/Services/Device.js:67-96 | a failure of the command is propagated as thrown; after success, a parse error or a missing key becomes the single `getDeviceFacts: Error parsing XML` error, and otherwise the extracted record is returned; the session is disposed once, at the end |
| `Commit.CommitTranscript` | jccm/src/Services/Device.js:107 | the first write is `edit exclusive private\n`, then the configuration verbatim, then a newline, the commit-with-XML-output command, `exit` and three newlines |
| `Commit.ProbeCommitError` | jccm/src/Services/Device.js:172-176 | no commit error iff the reply has no `commit-results` error node; a commit error iff the node has a text `message`, which is then the trimmed text; any other shape raises one of the engine's TypeErrors |
| `Commit.DecideCommit` | jccm/src/Services/Device.js:166-204 | no fragment gives no reply with the whole buffer as data; an error node gives a commit error with its message; success iff there is an error-free fragment that holds `<commit-success/>`, returning the fragment; an error-free fragment without the marker gives "did not return success"; a parse error, or a lookup that faults, is thrown as a plain error with its message |
| `Commit.Catch` | jccm/src/Services/Device.js:205-223 | a success passes through, and every thrown value is reclassified |
| `Commit.FixedMessagesAreNotConnectionFailures` | jccm/src/Services/Device.js:18-21 | the commit error, no-success and no-reply texts contain neither connection marker and are not the sentinel |
| `Commit.DecisionSurvivesCatch` | jccm/src/Services/Device.js:218-219 | the status-carrying objects the decision throws leave the catch block unchanged |
| `Commit.CommitSession.constructor` | jccm/src/Services/Device.js:109-124 | empty buffers, no timer, none pending, nothing logged, not settled |
| `Commit.CommitSession.ResetInactivityTimer` | jccm/src/Services/Device.js:126-135 | clears the timer if one was ever set, then arms a new one, which is pending; nothing else changes |
| `Commit.CommitSession.OnTimeout` | jccm/src/Services/Device.js:130-134 | a pending timer going off ends the shell and disposes the connection, and is spent; it changes neither the buffers nor the settlement; a timer that is not pending does nothing |
| `Commit.CommitSession.SendTranscript` | jccm/src/Services/Device.js:147-149 | writes the transcript, re-arms the timer, then writes `exit\n\n\n` |
| `Commit.CommitSession.OnData` | jccm/src/Services/Device.js:138-141 | appends the chunk to the output buffer and re-arms the timer |
| `Commit.CommitSession.OnStderr` | jccm/src/Services/Device.js:142-145 | appends the chunk to the error buffer and re-arms the timer |
| `Commit.CommitSession.OnClose` | jccm/src/Services/Device.js:152-159 | clears the timer, which is then not pending; an unsettled wait rejects with the error text if there is any and resolves otherwise |
| `Commit.CommitSession.OnEnd` | jccm/src/Services/Device.js:161-163 | an unsettled wait resolves, whatever is buffered |
| `Commit.FirstSettlingFrom` | jccm/src/Services/Device.js:151-164 | the first `close` or `end` event at or after a position, with only chunks and timer firings before it |
| `Commit.DeliverEvents` | jccm/src/Services/Device.js:130-164 | after the events up to the first settling one, the output buffer, the error buffer and the log are those of the reference functions, whether or not the wait settled, and the settlement is the one that event causes |
| `Commit.CommitJunosSetConfig` | jccm/src/Services/Device.js:98-230 | the imperative run through the session agrees with the reference definition `CommitSpec` on every answer |
| `CommitProperties.BuffersAppendInArrivalOrder` | jccm/src/Services/Device.js:139-143 | each buffer is its starting contents followed by the chunks of its stream in arrival order |
| `CommitProperties.BuffersArePrefixes` | jccm/src/Services/Device.js:139-143 | a later event never changes what earlier events buffered |
| `CommitProperties.QuietWaitResetsTheTimer` | jccm/src/Services/Device.js:126-145 | while the timer never goes off, the events' log is exactly one clear-and-re-arm per chunk, of either stream |
| `CommitProperties.WaitLogEntries` | jccm/src/Services/Device.js:126-145 | the events before the settling one only clear and arm the timer, end the shell and dispose |
| `CommitProperties.WaitLogResetCounts` | jccm/src/Services/Device.js:126-145 | their log clears the timer once and arms it once per chunk, of either stream |
| `CommitProperties.WaitLogFiringCounts` | jccm/src/Services/Device.js:130-134 | their log ends the shell once and disposes once per time the pending timer goes off |
| `CommitProperties.ShellLogShape` | jccm/src/Services/Device.js:113-164 | the log is: connect, shell, transcript write, arm, exit write, then what the waited-through events log, then `close`'s clear, the final clear and dispose |
| `CommitProperties.CommitEffectLog` | jccm/src/Services/Device.js:112-229 | once the shell opens, the commit call's whole log has that shape; while the timer never goes off, the middle part is one reset per chunk |
| `CommitProperties.ShellLogWritesTwice` | jccm/src/Services/Device.js:147-149 | the third and fifth entries are the two writes, and nothing after them writes to the shell |
| `CommitProperties.CommitWritesTwice` | jccm/src/Services/Device.js:147-149 | the commit call writes the transcript, then the extra exit, and nothing else |
| `CommitProperties.ShellLogCounts` | jccm/src/Services/Device.js:130-229 | the log disposes once per firing of the timer plus once in `finally` if the wait settled, and ends the shell once per firing |
| `CommitProperties.ShellLogDisposal` | jccm/src/Services/Device.js:130-229 | a settled wait ends the log with a dispose, and the log disposes once more per firing of the timer; an unsettled one disposes once per firing; the shell is ended once per firing; without a firing, a settled log disposes only at its end and an unsettled one never |
| `CommitProperties.CommitDisposal` | jccm/src/Services/Device.js:130-229 | every finished commit call ends with a dispose, and disposes once more per time its timer went off; a waiting one disposes once per firing; the shell is ended once per firing |
| `CommitProperties.QuietCommitDisposal` | jccm/src/Services/Device.js:224-229 | a commit call whose timer never goes off disposes exactly once, as its last step, if it finishes, and never while it waits |
| `CommitProperties.StderrOnCloseRejects` | jccm/src/Services/Device.js:152-156 | a close with buffered error text fails the call with that text, reclassified |
| `CommitProperties.NoReplyCarriesBuffer` | jccm/src/Services/Device.js:198-203 | a clean finish with no reply fragment fails as no reply, with the whole output buffer as data |
| `CommitProperties.CommitErrorBeatsSuccessMarker` | jccm/src/Services/Device.js:172-185 | an error node fails the call as a commit error with the trimmed message, even if the fragment holds the success marker |
| `CommitProperties.CommitSuccessIff` | jccm/src/Services/Device.js:185-190 | the call succeeds iff the shell opened, the wait resolved and the decision succeeded; then it returns the fragment, which holds the success marker |
| `CommitProperties.InactivityNeedsSentinelMessage` | jccm/src/Services/Device.js:215-217 | `inactivity_timeout` is reported only when a connection failure, a shell failure, the buffered error text or a parse error is exactly the sentinel text; the error the timer's callback throws never reaches the catch block |

## Left out

- The SSH transport is given as input, not performed. This covers `connect`,
  `execCommand`, `requestShell`, `dispose`, `shell.write` and `shell.end`,
  and how long anything takes. The effect log only records what is asked of
  the transport.
- XML parsing is a parameter. The tree does not model xml2js attributes
  (`$`), mixed content (`_`) or parser options. Parse errors are opaque
  messages.
- The inactivity timer's callback (`jccm/src/Services/Device.js:130-134`)
  throws outside the surrounding `try`. What the host process then does
  with that uncaught exception is left out: the model carries on with the
  later answers, as a host that reports the exception and keeps running
  would. The events that ending the shell and disposing provoke (a later
  `end` or `close`, if any) are inputs, like every other event.
- Events after the wait settles are not delivered. Later chunks cannot
  change the outcome: the fragment is cut out in the continuation, and the
  buffers are read only after the wait. The model also takes it that the
  timer does not go off between the settlement and `finally`, which holds
  when the parse completes without yielding to timer callbacks.
- An `end` event resolves the wait even when error text was buffered, as
  the code does. A description of the module that rejects whenever stderr
  is non-empty is true only of `close`.
- `getDeviceFacts` keeps the `else throw result` branch of line 94 as
  written. It is unreachable because `executeJunosCommand` only ever
  returns a success.
- JavaScript strings are sequences of UTF-16 code units. The model uses
  Dafny characters, so a surrogate pair counts as one character, not two.
  No text the module tests for contains one.
- `console.log` and `console.error` output is left out.
- The timer slot is modelled by two flags, one for whether
  `inactivityTimer` holds a timer and one for whether that timer is still
  pending, rather than by a timer handle. Clearing a timer that has already
  fired is logged just like clearing a pending one, because `clearTimeout`
  accepts both.
- The React UI files, the NeDB/Electron store and the webpack
  configurations are outside the model.

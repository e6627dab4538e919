/**
 * `getDeviceFacts`: runs `show system information | display xml` through
 * `executeJunosCommand` and flattens the parsed reply into five facts.
 */
module Facts {
  import opened Options
  import opened Messages
  import opened ReplyTree
  import opened Command

  const FactsCommand := "show system information | display xml"
  const FactsParseErrorText := "getDeviceFacts: Error parsing XML"

  /** The record `getDeviceFacts` resolves with: five values taken from the reply, and `status: 'success'`. */
  datatype DeviceFacts = DeviceFacts(
    hardwareModel: Node, osName: Node, osVersion: Node, serialNumber: Node, hostName: Node,
    status: Status)

  /** `parsedResult['rpc-reply']['system-information'][0]`, when that chain of lookups is defined. */
  function SystemInformation(doc: Document): (r: Option<Node>)
    ensures r.Some? <==> doc.rootName == "rpc-reply" && doc.root.Element?
                         && "system-information" in doc.root.fields
    ensures r.Some? ==> r.value == doc.root.fields["system-information"].first
  {
    match Root(doc, "rpc-reply")
    case None => None
    case Some(reply) => Child(reply, "system-information")
  }

  /** The five keys read from the system-information block, in the order the record lists them. */
  const FactKeys := ["hardware-model", "os-name", "os-version", "serial-number", "host-name"]

  /**
   * Field extraction: all or nothing. The record exists exactly when the
   * system-information block exists and holds every one of the five keys;
   * each fact is then the first child under its key.
   */
  function ExtractFacts(doc: Document): (r: Option<DeviceFacts>)
    ensures r.Some? <==> SystemInformation(doc).Some?
                         && forall k :: 0 <= k < |FactKeys| ==> Child(SystemInformation(doc).value, FactKeys[k]).Some?
    ensures r.Some? ==> var si := SystemInformation(doc).value;
                        && Child(si, "hardware-model") == Some(r.value.hardwareModel)
                        && Child(si, "os-name") == Some(r.value.osName)
                        && Child(si, "os-version") == Some(r.value.osVersion)
                        && Child(si, "serial-number") == Some(r.value.serialNumber)
                        && Child(si, "host-name") == Some(r.value.hostName)
                        && r.value.status == Success
  {
    match SystemInformation(doc)
    case None => None
    case Some(si) =>
      var hardwareModel := Child(si, "hardware-model");
      var osName := Child(si, "os-name");
      var osVersion := Child(si, "os-version");
      var serialNumber := Child(si, "serial-number");
      var hostName := Child(si, "host-name");
      if hardwareModel.Some? && osName.Some? && osVersion.Some? && serialNumber.Some? && hostName.Some? then
        Some(DeviceFacts(hardwareModel.value, osName.value, osVersion.value, serialNumber.value, hostName.value, Success))
      else
        assert FactKeys[0] == "hardware-model" && FactKeys[1] == "os-name" && FactKeys[2] == "os-version";
        assert FactKeys[3] == "serial-number" && FactKeys[4] == "host-name";
        None
  }

  /** A `show system information` reply carrying the given facts, as the parser would hand it over. */
  function FactsReply(f: DeviceFacts): (doc: Document)
    ensures doc.rootName == "rpc-reply"
  {
    var one := (n: Node) => Children(n, []);
    Document("rpc-reply", Element(map[
      "system-information" := one(Element(map[
        "hardware-model" := one(f.hardwareModel),
        "os-name" := one(f.osName),
        "os-version" := one(f.osVersion),
        "serial-number" := one(f.serialNumber),
        "host-name" := one(f.hostName)]))]))
  }

  /** What is read back from a reply is what the reply carries. */
  lemma ExtractFactsRoundTrip(f: DeviceFacts)
    requires f.status == Success
    ensures ExtractFacts(FactsReply(f)) == Some(f)
  {
    var si := SystemInformation(FactsReply(f)).value;
    assert forall k :: 0 <= k < |FactKeys| ==> FactKeys[k] in si.fields;
  }

  /** Lacking any one key, the reply yields no record at all, never a partial one. */
  lemma MissingFactFails(doc: Document, k: nat)
    requires SystemInformation(doc).Some? && k < |FactKeys|
    requires Child(SystemInformation(doc).value, FactKeys[k]).None?
    ensures ExtractFacts(doc) == None
  {
  }

  /**
   * `getDeviceFacts(address, port, username, password, timeout)`: a failure
   * of the command is propagated exactly as thrown; once the command has
   * succeeded, any parse or lookup failure becomes the single parse error,
   * and otherwise the call resolves with the extracted record.
   */
  function GetDeviceFacts(ep: Endpoint, timeout: Option<int>, answers: ExecScript, parser: string -> Parsed)
    : (run: Run<DeviceFacts>)
    ensures var exec := ExecuteJunosCommand(ep, FactsCommand, timeout, answers);
            && run.effects == exec.effects
            && (exec.outcome.Threw? ==> run.outcome == Threw(exec.outcome.error))
            && (exec.outcome.Returned? ==>
                  match parser(exec.outcome.value.data)
                  case Malformed(_) => run.outcome == Threw(Raised(FactsParseErrorText))
                  case Parsed(doc) =>
                    run.outcome == if ExtractFacts(doc).Some? then Returned(ExtractFacts(doc).value)
                                   else Threw(Raised(FactsParseErrorText)))
    ensures run.outcome.Returned? ==> run.outcome.value.status == Success
    ensures ExecCommand(FactsCommand + NoMoreSuffix) in run.effects <==> answers.connectError.None?
    ensures DisposedOnceAtEnd(run.effects)
  {
    var exec := ExecuteJunosCommand(ep, FactsCommand, timeout, answers);
    match exec.outcome
    case Threw(e) => Run(Threw(e), exec.effects)
    case Returned(result) =>
      if result.status == Success then
        var facts := match parser(result.data)
                     case Malformed(_) => None
                     case Parsed(doc) => ExtractFacts(doc);
        match facts
        case Some(f) => Run(Returned(f), exec.effects)
        case None => Run(Threw(Raised(FactsParseErrorText)), exec.effects)
      else
        Run(Threw(Classified(result.status, result.message, Some(result.data))), exec.effects)
  }
}

/**
 * The flow invocation as the chat controller sees it: the request it builds,
 * the two ways the call can end, and the walk that pulls the assistant's
 * reply out of the nested response.
 */
module FlowResponse {
  import opened JsValues

  /** The per-node overrides sent with every run: each node id maps to `{}`. */
  const TweakNodes: seq<string> := [
    "ChatInput-Uwwvb", "ParseData-4Sb3V", "Prompt-ZgxaM", "SplitText-nOYZS",
    "ChatOutput-5quGo", "AstraDB-uQPjR", "AstraDB-0uLmd", "File-7PLSY",
    "AzureOpenAIEmbeddings-Lp3gW", "AzureOpenAIEmbeddings-7xuTF",
    "GoogleGenerativeAIModel-Sf9GG", "DuckDuckGoSearch-j8oGC", "Agent-0fISA"
  ]

  function Tweaks(): Json {
    JObj(map id | id in TweakNodes :: JObj(map[]))
  }

  /** The arguments of one `runFlow` call, apart from the flow and workspace ids. */
  datatype FlowRequest = FlowRequest(
    inputValue: string,
    inputType: string,
    outputType: string,
    tweaks: Json,
    stream: bool)

  /** The request for one chat turn carries the user's text exactly as typed. */
  function RequestFor(input: string): (r: FlowRequest)
    ensures r.inputValue == input && r.inputType == "chat" && r.outputType == "chat"
    ensures !r.stream && r.tweaks.JObj? && r.tweaks.members.Keys == set id | id in TweakNodes
    ensures forall id :: id in r.tweaks.members ==> r.tweaks.members[id] == JObj(map[])
  {
    FlowRequest(input, "chat", "chat", Tweaks(), false)
  }

  /** How the awaited call ended: it threw, or it resolved to a value. */
  datatype FlowOutcome = Raised | Returned(response: JsValue)

  /**
   * What the controller does with the outcome: append nothing, append the
   * reply text, append a reply whose text is `undefined`, or fall back to
   * the error message because something in the `try` block threw.
   */
  datatype Extraction = NoReply | Reply(text: Json) | MissingText | Threw

  /** The steps after `response.outputs`: `[0].outputs[0].outputs.message.message.text`. */
  const ReplyPath: seq<Key> := [
    Index(0), Name("outputs"), Index(0), Name("outputs"),
    Name("message"), Name("message"), Name("text")
  ]

  /** The whole path `outputs[0].outputs[0].outputs.message.message.text`. */
  const FullPath: seq<Key> := [Name("outputs")] + ReplyPath

  /** `response && response.outputs`: the guard in front of the walk. */
  predicate HasOutputs(response: JsValue) {
    Truthy(response) && Truthy(Get(response, Name("outputs")).value)
  }

  /**
   * The guarded extraction chain run on a resolved response. Nothing is
   * extracted iff the response or its `outputs` is falsy; past that guard the
   * chain ends exactly as the unguarded walk of the full path
   * `outputs[0].outputs[0].outputs.message.message.text` does.
   */
  function Extract(response: JsValue): (r: Extraction)
    ensures r == NoReply <==> !HasOutputs(response)
    ensures HasOutputs(response) ==> (r == Threw <==> Walk(response, FullPath).TypeError?)
    ensures HasOutputs(response) ==> (r == MissingText <==> Walk(response, FullPath) == Ok(Undefined))
    ensures forall text ::
      (HasOutputs(response) && Walk(response, FullPath) == Ok(Val(text))) <==> r == Reply(text)
  {
    WalkAppend(response, [Name("outputs")], ReplyPath);
    if !Truthy(response) then NoReply
    else
      var outputs := Get(response, Name("outputs")).value;
      assert Walk(response, [Name("outputs")]) == Ok(outputs) by {
        assert [Name("outputs")][1..] == [];
      }
      if !Truthy(outputs) then NoReply
      else
        match Walk(outputs, ReplyPath)
        case TypeError => Threw
        case Ok(Undefined) => MissingText
        case Ok(Val(text)) => Reply(text)
  }

  /**
   * A raised call and a throwing walk end in the same place. The fallback is
   * taken iff the call threw or the walk threw behind the guard; nothing is
   * appended iff the call returned and the guard failed; a reply carries the
   * value the walk reached.
   */
  function Settle(outcome: FlowOutcome): (r: Extraction)
    ensures r == Threw <==>
      outcome.Raised? || (HasOutputs(outcome.response) && Walk(outcome.response, FullPath).TypeError?)
    ensures r == NoReply <==> outcome.Returned? && !HasOutputs(outcome.response)
    ensures forall text :: r == Reply(text) <==>
      outcome.Returned? && HasOutputs(outcome.response) && Walk(outcome.response, FullPath) == Ok(Val(text))
  {
    match outcome
    case Raised => Threw
    case Returned(response) => Extract(response)
  }

  /** `{outputs:[{outputs:[{outputs:{message:{message:{text}}}}]}]}`. */
  function WellFormed(text: string): Json {
    var message := JObj(map["message" := JObj(map["text" := JStr(text)])]);
    var component := JObj(map["outputs" := JObj(map["message" := message])]);
    var run := JObj(map["outputs" := JArr([component])]);
    JObj(map["outputs" := JArr([run])])
  }

  /** The last four steps of the path, from one component of a well-formed response. */
  lemma WalkComponent(text: string)
    ensures
      var message := JObj(map["message" := JObj(map["text" := JStr(text)])]);
      Walk(Val(JObj(map["outputs" := JObj(map["message" := message])])), ReplyPath[3..])
        == Ok(Val(JStr(text)))
  {
    var t := Ok(Val(JStr(text)));
    var inner := JObj(map["text" := JStr(text)]);
    var message := JObj(map["message" := inner]);
    var outputs := JObj(map["message" := message]);
    assert Walk(Val(inner), [Name("text")]) == t;
    assert Walk(Val(message), [Name("message"), Name("text")]) == t;
    assert Walk(Val(outputs), ReplyPath[4..]) == t;
  }

  /** The full path through a well-formed response reaches its text. */
  lemma WalkWellFormed(text: string)
    ensures Walk(Val(WellFormed(text)), FullPath) == Ok(Val(JStr(text)))
  {
    var t := Ok(Val(JStr(text)));
    var message := JObj(map["message" := JObj(map["text" := JStr(text)])]);
    var component := JObj(map["outputs" := JObj(map["message" := message])]);
    var run := JObj(map["outputs" := JArr([component])]);
    WalkComponent(text);
    assert Walk(Val(JArr([component])), ReplyPath[2..]) == t;
    assert Walk(Val(run), ReplyPath[1..]) == t;
    assert Walk(Val(JArr([run])), ReplyPath) == t;
    assert FullPath[1..] == ReplyPath;
  }

  /** A well-formed response yields its text, whatever the text is. */
  lemma ExtractWellFormed(text: string)
    ensures Extract(Val(WellFormed(text))) == Reply(JStr(text))
  {
    WalkWellFormed(text);
    assert HasOutputs(Val(WellFormed(text)));
  }

  /** `{outputs: []}` passes the guard, and `[][0].outputs` then throws. */
  lemma ExtractEmptyOutputsThrows()
    ensures Extract(Val(JObj(map["outputs" := JArr([])]))) == Threw
  {
  }
}

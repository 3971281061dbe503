/** The cause-family ladder for empty turns (packages/provider-codex/src/empty-turn-classifier.ts). */
module EmptyTurnClassifier {
  import opened Util

  datatype CauseFamily =
    | WsTruncation | WsNoFrames | ServerEmptyOutputWithReasoning | ServerIncomplete | ServerFailed | Unclassified

  datatype RecoveryAction =
    | RetryOnceThenSoftFail | SynthesizeFromDeltas | PassThroughToRunloopNudge | LogAndContinue

  datatype SuspectParam = ReasoningEffort | IncludeEncryptedReasoning

  datatype TerminalType = ResponseCompleted | ResponseIncomplete | ResponseFailed | ErrorEvent

  datatype RequestShape = RequestShape(hasReasoningEffort: bool, includeFields: seq<string>)

  datatype Snapshot = Snapshot(
    wsFrameCount: nat,
    terminalEventReceived: bool,
    terminalEventType: Option<TerminalType>,
    shape: RequestShape,
    retryAttempted: bool)

  datatype Classification = Classification(cause: CauseFamily, action: RecoveryAction, suspects: seq<SuspectParam>)

  function Suspects(shape: RequestShape): seq<SuspectParam> {
    (if shape.hasReasoningEffort then [ReasoningEffort] else []) +
    (if "reasoning.encrypted_content" in shape.includeFields then [IncludeEncryptedReasoning] else [])
  }

  function ClassifyInner(s: Snapshot): Classification {
    if s.terminalEventReceived && (s.terminalEventType == Some(ResponseFailed) || s.terminalEventType == Some(ErrorEvent)) then
      Classification(ServerFailed, PassThroughToRunloopNudge, [])
    else if s.terminalEventReceived && s.terminalEventType == Some(ResponseIncomplete) then
      Classification(ServerIncomplete, PassThroughToRunloopNudge, [])
    else if s.terminalEventReceived && s.terminalEventType == Some(ResponseCompleted) && Suspects(s.shape) != [] then
      Classification(ServerEmptyOutputWithReasoning, PassThroughToRunloopNudge, Suspects(s.shape))
    else if s.wsFrameCount == 0 then
      Classification(WsNoFrames, RetryOnceThenSoftFail, [])
    else if !s.terminalEventReceived then
      Classification(WsTruncation, RetryOnceThenSoftFail, [])
    else
      Classification(Unclassified, PassThroughToRunloopNudge, [])
  }

  function Classify(s: Snapshot): Classification {
    var result := ClassifyInner(s);
    if s.retryAttempted && result.action == RetryOnceThenSoftFail
    then result.(action := PassThroughToRunloopNudge)
    else result
  }

  /** A snapshot the socket layer can produce: a terminal event is itself a frame. */
  predicate Consistent(s: Snapshot) {
    s.terminalEventReceived ==> s.wsFrameCount > 0
  }

  /** Of the four actions only two are ever chosen, and a retry exactly on a first attempt cut short. */
  lemma RetryExactlyWhenCutShort(s: Snapshot)
    requires Consistent(s)
    ensures Classify(s).action == RetryOnceThenSoftFail <==> !s.retryAttempted && !s.terminalEventReceived
    ensures Classify(s).action == RetryOnceThenSoftFail || Classify(s).action == PassThroughToRunloopNudge
    ensures Classify(s).suspects != [] <==> Classify(s).cause == ServerEmptyOutputWithReasoning
  {
  }
}

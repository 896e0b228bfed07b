/**
 * The stream event vocabulary: content blocks, the parts they assemble into, the events a
 * consumer sees, and the response that ends a stream.
 */
module StreamTypes {
  import opened Wrappers
  import JsonValues

  type BlockId = string

  type Json = JsonValues.Json

  datatype ToolCallKind = Function | Custom

  datatype BlockKind =
    | Text
    | Reasoning
    | ToolCall(callId: string, name: Option<string>, callKind: ToolCallKind)
    | Opaque(opaqueKind: string)

  /** The kind of content a delta carries. */
  datatype Shape = TextShape | ReasoningShape | ToolCallShape

  predicate Matches(shape: Shape, kind: BlockKind) {
    match shape
    case TextShape => kind.Text?
    case ReasoningShape => kind.Reasoning?
    case ToolCallShape => kind.ToolCall?
  }

  /** Kinds a delta or a repair never turns into one another. */
  predicate SameShape(a: BlockKind, b: BlockKind) {
    && (a.Text? <==> b.Text?)
    && (a.Reasoning? <==> b.Reasoning?)
    && (a.ToolCall? <==> b.ToolCall?)
  }

  /** A tool's input. Function arguments keep their raw text; parsing it is not modelled. */
  datatype ToolInput = FunctionInput(raw: string) | CustomInput(raw: string) {

    /** A function call that streamed no argument text reads as the empty object. */
    static function FromWire(kind: ToolCallKind, raw: string): ToolInput {
      match kind
      case Function => FunctionInput(if raw == "" then "{}" else raw)
      case Custom => CustomInput(raw)
    }
  }

  datatype Part =
    | TextPart(text: string)
    | ReasoningPart(text: string, signature: Option<string>, origin: Option<string>, redacted: bool)
    | ToolCallPart(callId: string, name: string, input: ToolInput, metadata: map<string, Json>)
    | OpaquePart(opaqueKind: string, data: Json)

  datatype TokenCounts = TokenCounts(input: nat, output: nat, reasoning: nat, cacheRead: nat, cacheWrite: nat)

  datatype FinishReason = Stop | Length | ToolCalls | ContentFilter | Error | Incomplete | Other(code: string)

  /** A `truncated_tool_call` warning; its message names the reason and the tool. */
  datatype Warning = TruncatedToolCall(reason: FinishReason, tool: string)

  datatype Response = Response(
    provider: string,
    model: string,
    id: Option<string>,
    content: seq<Part>,
    suppressed: seq<Part>,
    finishReason: FinishReason,
    usage: TokenCounts,
    cost: Option<nat>,
    warnings: seq<Warning>,
    raw: Option<Json>)

  datatype Event =
    | Started(responseId: Option<string>)
    | BlockStart(id: BlockId, kind: BlockKind)
    | TextDelta(id: BlockId, payload: string)
    | ReasoningDelta(id: BlockId, payload: string)
    | ToolCallDelta(id: BlockId, payload: string)
    | BlockEnd(id: BlockId, part: Part)
    | Usage(usage: TokenCounts)
    | RateLimits(headers: map<string, string>)
    | Ended(response: Response)
  {
    predicate IsDelta() {
      TextDelta? || ReasoningDelta? || ToolCallDelta?
    }

    /** Whether this event belongs to block `block`. */
    predicate About(block: BlockId) {
      (BlockStart? || IsDelta() || BlockEnd?) && id == block
    }

    function DeltaShape(): Shape
      requires IsDelta()
    {
      if TextDelta? then TextShape else if ReasoningDelta? then ReasoningShape else ToolCallShape
    }
  }

  // ---------------------------------------------------------------------------------------------
  // Unfinished turns
  // ---------------------------------------------------------------------------------------------

  predicate Unfinished(reason: FinishReason) {
    reason.Length? || reason.Incomplete?
  }

  /** The parts of one sort, in order: the tool calls, or everything else. */
  function Sift(parts: seq<Part>, toolCalls: bool): seq<Part> {
    if parts == [] then []
    else (if parts[0].ToolCallPart? == toolCalls then [parts[0]] else []) + Sift(parts[1..], toolCalls)
  }

  function WarningsFor(reason: FinishReason, calls: seq<Part>): seq<Warning>
    requires forall part <- calls :: part.ToolCallPart?
  {
    seq(|calls|, i requires 0 <= i < |calls| => assert calls[i] in calls; TruncatedToolCall(reason, calls[i].name))
  }

  lemma {:induction false} SiftSorts(parts: seq<Part>, toolCalls: bool)
    ensures forall part <- Sift(parts, toolCalls) :: part.ToolCallPart? == toolCalls
    ensures multiset(Sift(parts, true)) + multiset(Sift(parts, false)) == multiset(parts)
  {
    if parts != [] {
      SiftSorts(parts[1..], toolCalls);
      assert parts == [parts[0]] + parts[1..];
    }
  }

  /** Withholds every tool call of an unfinished turn from execution. */
  function Suppress(response: Response): Response {
    if !Unfinished(response.finishReason) then response
    else
      SiftSorts(response.content, true);
      var calls := Sift(response.content, true);
      response.(
        content := Sift(response.content, false),
        suppressed := response.suppressed + calls,
        warnings := response.warnings + WarningsFor(response.finishReason, calls))
  }

  /**
   * Suppression loses no part, leaves no tool call to execute in an unfinished turn, warns once per
   * withheld call, touches nothing in a finished turn, and a second application changes nothing.
   */
  lemma SuppressWithholdsExactlyTheCalls(response: Response)
    ensures var after := Suppress(response);
            && multiset(after.content) + multiset(after.suppressed) ==
               multiset(response.content) + multiset(response.suppressed)
            && (Unfinished(response.finishReason) ==> forall part <- after.content :: !part.ToolCallPart?)
            && (!Unfinished(response.finishReason) ==> after == response)
            && |after.warnings| - |response.warnings| == |after.suppressed| - |response.suppressed|
            && Suppress(after) == after
  {
    if Unfinished(response.finishReason) {
      SiftSorts(response.content, true);
      SiftSorts(response.content, false);
      SiftAgain(response.content);
      var after := Suppress(response);
      assert Sift(after.content, true) == [];
      assert after.suppressed + [] == after.suppressed;
      assert after.warnings + [] == after.warnings;
    }
  }

  lemma {:induction false} SiftAgain(parts: seq<Part>)
    ensures Sift(Sift(parts, false), true) == []
    ensures Sift(Sift(parts, false), false) == Sift(parts, false)
  {
    if parts != [] {
      SiftAgain(parts[1..]);
      var rest := Sift(parts[1..], false);
      if parts[0].ToolCallPart? {
        assert Sift(parts, false) == rest;
      } else {
        var kept := Sift(parts, false);
        assert kept == [parts[0]] + rest && kept[1..] == rest;
        assert Sift(kept, true) == [] + Sift(rest, true);
      }
    }
  }
}

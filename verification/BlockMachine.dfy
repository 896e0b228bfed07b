/**
 * One content block of a stream, as the calls that name its id see it.
 *
 * A block absent from the assembler is `None`; a call may open it, append to it, close it, or
 * remove it. The machine also returns the events the call produces and, when the block closes
 * into the response, the part it contributes.
 */
module BlockMachine {
  import opened Wrappers
  import opened StreamTypes
  import JsonValues

  datatype Block = Block(
    id: BlockId,
    kind: BlockKind,
    open: bool,
    announced: bool,
    buffer: string,
    signature: Option<string>,
    signatureOrigin: Option<string>,
    redacted: bool,
    opaqueData: Option<Json>,
    metadata: map<string, Json>)
  {
    static function New(id: BlockId, kind: BlockKind, origin: Option<string>, announced: bool): Block {
      Block(id, kind, true, announced, "", None, origin, false, None, map[])
    }

    function IntoPart(): Part {
      match kind
      case Text => TextPart(buffer)
      case Reasoning =>
        ReasoningPart(buffer, signature, if signature.Some? then signatureOrigin else None, redacted)
      case ToolCall(callId, name, callKind) =>
        ToolCallPart(callId, name.GetOr(""), ToolInput.FromWire(callKind, buffer), metadata)
      case Opaque(opaqueKind) =>
        OpaquePart(opaqueKind, opaqueData.GetOr(JsonValues.Null))
    }

    /** Text appended from now on reaches the final part only, never a live event. */
    predicate Sealed() {
      kind.Reasoning? && redacted
    }
  }

  /** The calls that name one block. */
  datatype BlockCall =
    | Start(kind: BlockKind)
    | AddText(text: string)
    | AddReasoning(text: string)
    | AddArguments(text: string)
    | Signature(signature: string)
    | RepairIdentity(kind: BlockKind)
    | Reconcile(kind: BlockKind, content: string)
    | SetRedacted
    | SetOpaqueData(data: Json)
    | AddMetadata(namespace: string, value: Json)
    | End
    | Discard

  /** The block after a call, the events, and the part that joins the response content. */
  datatype Outcome = Outcome(block: Option<Block>, events: seq<Event>, part: Option<Part>)

  /** The kind a call opens an unknown block with; `None` for a call that opens nothing. */
  function LatchKind(id: BlockId, call: BlockCall): Option<BlockKind> {
    match call
    case Start(kind) => Some(kind)
    case AddText(_) => Some(Text)
    case AddReasoning(_) | Signature(_) | SetRedacted => Some(Reasoning)
    case AddArguments(_) | AddMetadata(_, _) => Some(ToolCall(id, None, Function))
    case Reconcile(kind, _) => Some(kind)
    case SetOpaqueData(_) => Some(Opaque(id))
    case RepairIdentity(_) | End | Discard => None
  }

  /** The delta event that shows `text` on block `id`, when its kind has one and it is not sealed. */
  function Shown(b: Block, text: string): seq<Event> {
    match b.kind
    case Text => [TextDelta(b.id, text)]
    case Reasoning => if b.redacted then [] else [ReasoningDelta(b.id, text)]
    case ToolCall(_, _, _) => [ToolCallDelta(b.id, text)]
    case Opaque(_) => []
  }

  /** Appends a delta of one shape, or drops it when the block holds another kind of content. */
  function Append(b: Block, shape: Shape, text: string): Outcome {
    if Matches(shape, b.kind)
    then Outcome(Some(b.(buffer := b.buffer + text)), Shown(b, text), None)
    else Outcome(Some(b), [], None)
  }

  /** What a call does to an open block. */
  function CallOpen(b: Block, call: BlockCall): Outcome {
    match call
    case Start(_) => Outcome(Some(b), [], None)
    case AddText(text) => Append(b, TextShape, text)
    case AddReasoning(text) => Append(b, ReasoningShape, text)
    case AddArguments(text) => Append(b, ToolCallShape, text)
    case Signature(signature) => Outcome(Some(b.(signature := Some(signature))), [], None)
    case RepairIdentity(kind) =>
      Outcome(Some(if b.kind.ToolCall? && kind.ToolCall? then b.(kind := kind) else b), [], None)
    case Reconcile(_, content) =>
      if b.kind.Opaque? || b.buffer == content then Outcome(Some(b), [], None)
      else Outcome(Some(b.(buffer := content)),
                   if b.buffer <= content then Shown(b, content[|b.buffer|..]) else [],
                   None)
    case SetRedacted => Outcome(Some(b.(redacted := true)), [], None)
    case SetOpaqueData(data) => Outcome(Some(b.(opaqueData := Some(data))), [], None)
    case AddMetadata(namespace, value) =>
      Outcome(Some(b.(metadata := b.metadata[namespace := value])), [], None)
    case End =>
      var closed := b.(open := false);
      Outcome(Some(closed), [BlockEnd(b.id, closed.IntoPart())], Some(closed.IntoPart()))
    case Discard => Outcome(None, [BlockEnd(b.id, b.IntoPart())], None)
  }

  /** One call on the block with id `id`, present or not. */
  function CallBlock(id: BlockId, origin: Option<string>, b: Option<Block>, call: BlockCall): Outcome {
    match b
    case Some(block) => if block.open then CallOpen(block, call) else Outcome(b, [], None)
    case None =>
      match LatchKind(id, call)
      case None => Outcome(None, [], None)
      case Some(kind) =>
        var r := CallOpen(Block.New(id, kind, origin, call.Start?), call);
        r.(events := [BlockStart(id, kind)] + r.events)
  }
}

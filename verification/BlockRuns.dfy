/**
 * What every run of calls on one block keeps: the deltas shown so far agree with the buffer the
 * end part is built from, a sealed block stays silent, and reconciliation converges.
 */
module BlockRuns {
  import opened Wrappers
  import opened StreamTypes
  import opened BlockMachine
  import JsonValues

  /** The block after a run of calls, every event, and every part that joined the response. */
  datatype Trail = Trail(block: Option<Block>, events: seq<Event>, parts: seq<Part>)

  function PartOf(outcome: Outcome): seq<Part> {
    if outcome.part.Some? then [outcome.part.value] else []
  }

  function RunBlock(id: BlockId, origin: Option<string>, b: Option<Block>, calls: seq<BlockCall>): Trail
    decreases |calls|
  {
    if calls == [] then Trail(b, [], [])
    else
      var first := CallBlock(id, origin, b, calls[0]);
      var rest := RunBlock(id, origin, first.block, calls[1..]);
      Trail(rest.block, first.events + rest.events, PartOf(first) + rest.parts)
  }

  lemma {:induction false} RunBlockConcat(
    id: BlockId, origin: Option<string>, b: Option<Block>, first: seq<BlockCall>, second: seq<BlockCall>)
    ensures var head := RunBlock(id, origin, b, first);
            var tail := RunBlock(id, origin, head.block, second);
            RunBlock(id, origin, b, first + second) ==
            Trail(tail.block, head.events + tail.events, head.parts + tail.parts)
    decreases |first|
  {
    hide CallBlock;
    if first == [] {
      assert first + second == second;
    } else {
      assert (first + second)[1..] == first[1..] + second;
      RunBlockConcat(id, origin, CallBlock(id, origin, b, first[0]).block, first[1..], second);
    }
  }

  // ---------------------------------------------------------------------------------------------
  // Deltas and the buffer
  // ---------------------------------------------------------------------------------------------

  /**
   * What a consumer of the events has assembled: the delta text since the last start. This reads
   * only the events.
   */
  function Heard(text: string, events: seq<Event>): string
    decreases |events|
  {
    if events == [] then text
    else
      var event := events[0];
      Heard(if event.BlockStart? then "" else if event.IsDelta() then text + event.payload else text, events[1..])
  }

  /** A reconciliation that replaces the buffer outright, without an event. */
  predicate Garbles(b: Block, call: BlockCall) {
    b.open && call.Reconcile? && !b.kind.Opaque? && !(b.buffer <= call.content)
  }

  /** A block beside what its consumer heard, and whether its buffer was ever replaced outright. */
  datatype Witness = Witness(block: Option<Block>, heard: string, garbled: bool)

  function Observe(id: BlockId, origin: Option<string>, w: Witness, call: BlockCall): Witness {
    var r := CallBlock(id, origin, w.block, call);
    Witness(r.block, Heard(w.heard, r.events),
            w.block.Some? && (w.garbled || Garbles(w.block.value, call)))
  }

  function ObserveAll(id: BlockId, origin: Option<string>, w: Witness, calls: seq<BlockCall>): Witness
    decreases |calls|
  {
    if calls == [] then w else ObserveAll(id, origin, Observe(id, origin, w, calls[0]), calls[1..])
  }

  /** Agreement between the buffer and the deltas, and an opaque block's empty buffer. */
  predicate Agrees(w: Witness) {
    w.block.Some? && w.block.value.open ==>
      && (w.block.value.kind.Opaque? ==> w.block.value.buffer == "")
      && (!w.garbled ==> w.heard <= w.block.value.buffer)
      && (!w.garbled && !w.block.value.Sealed() ==> w.heard == w.block.value.buffer)
  }

  lemma HeardAfterStart(text: string, id: BlockId, kind: BlockKind, events: seq<Event>)
    ensures Heard(text, [BlockStart(id, kind)] + events) == Heard("", events)
  {}

  lemma ShownIsHeard(b: Block, text: string, heard: string)
    ensures Heard(heard, Shown(b, text)) == if b.Sealed() || b.kind.Opaque? then heard else heard + text
  {}

  lemma OpenCallAgrees(b: Block, heard: string, garbled: bool, call: BlockCall)
    requires b.open && Agrees(Witness(Some(b), heard, garbled))
    ensures var r := CallOpen(b, call);
            Agrees(Witness(r.block, Heard(heard, r.events), garbled || Garbles(b, call)))
  {
    hide Append, Agrees, Block.IntoPart;
    match call
    case AddText(text) => AppendAgrees(b, heard, garbled, TextShape, text);
    case AddReasoning(text) => AppendAgrees(b, heard, garbled, ReasoningShape, text);
    case AddArguments(text) => AppendAgrees(b, heard, garbled, ToolCallShape, text);
    case Reconcile(_, _) => ReconcileAgrees(b, heard, garbled, call);
    case _ => OtherCallAgrees(b, heard, garbled, call);
  }

  lemma AppendAgrees(b: Block, heard: string, garbled: bool, shape: Shape, text: string)
    requires b.open && Agrees(Witness(Some(b), heard, garbled))
    ensures var r := Append(b, shape, text);
            Agrees(Witness(r.block, Heard(heard, r.events), garbled))
  {
    ShownIsHeard(b, text, heard);
    hide Shown;
  }

  lemma ReconcileAgrees(b: Block, heard: string, garbled: bool, call: BlockCall)
    requires b.open && call.Reconcile? && Agrees(Witness(Some(b), heard, garbled))
    ensures var r := CallOpen(b, call);
            Agrees(Witness(r.block, Heard(heard, r.events), garbled || Garbles(b, call)))
  {
    if b.buffer <= call.content {
      ShownIsHeard(b, call.content[|b.buffer|..], heard);
    }
    hide Shown;
  }

  lemma OtherCallAgrees(b: Block, heard: string, garbled: bool, call: BlockCall)
    requires b.open && !DeliversContent(call)
    requires Agrees(Witness(Some(b), heard, garbled))
    ensures var r := CallOpen(b, call);
            Agrees(Witness(r.block, Heard(heard, r.events), garbled))
  {
    hide Block.IntoPart;
  }

  lemma ObserveAgrees(id: BlockId, origin: Option<string>, w: Witness, call: BlockCall)
    requires Agrees(w)
    ensures Agrees(Observe(id, origin, w, call))
  {
    hide CallOpen, Shown;
    match w.block
    case Some(b) =>
      if b.open {
        OpenCallAgrees(b, w.heard, w.garbled, call);
      }
    case None =>
      if LatchKind(id, call).Some? {
        var kind := LatchKind(id, call).value;
        var newborn := Block.New(id, kind, origin, call.Start?);
        assert !Garbles(newborn, call);
        OpenCallAgrees(newborn, "", false, call);
        HeardAfterStart(w.heard, id, kind, CallOpen(newborn, call).events);
      }
  }

  /** The agreement holds after any calls, from the moment the id is first used. */
  lemma {:induction false} DeltasAgreeWithBuffer(
    id: BlockId, origin: Option<string>, w: Witness, calls: seq<BlockCall>)
    requires Agrees(w)
    ensures Agrees(ObserveAll(id, origin, w, calls))
    decreases |calls|
  {
    if calls != [] {
      ObserveAgrees(id, origin, w, calls[0]);
      DeltasAgreeWithBuffer(id, origin, Observe(id, origin, w, calls[0]), calls[1..]);
    }
  }

  /** The text the assembled part carries for the block's content. */
  function ContentOf(part: Part): string {
    match part
    case TextPart(text) => text
    case ReasoningPart(text, _, _, _) => text
    case ToolCallPart(_, _, input, _) => input.raw
    case OpaquePart(_, _) => ""
  }

  /**
   * The part an open block would become carries the text its consumer heard, unless a reconciliation
   * replaced the buffer or the block is sealed reasoning. The one other difference is a function
   * call without arguments, which reads as `{}`.
   */
  lemma PartIsWhatWasHeard(b: Block, heard: string, garbled: bool)
    requires b.open && Agrees(Witness(Some(b), heard, garbled))
    ensures var content := ContentOf(b.(open := false).IntoPart());
            && (!garbled && !b.Sealed() && heard != "" ==> content == heard)
            && (!garbled ==> heard <= content)
  {}

  // ---------------------------------------------------------------------------------------------
  // The part, read off the calls
  // ---------------------------------------------------------------------------------------------

  /**
   * The content the calls leave a block of `kind` with: the deltas of its own kind in order after
   * `before`, or after the last reconciliation, which states the whole content so far.
   */
  function Fed(calls: seq<BlockCall>, kind: BlockKind, before: string): string {
    if calls == [] then before
    else
      var last := calls[|calls| - 1];
      if last.Reconcile? && !kind.Opaque? then last.content
      else Fed(calls[..|calls| - 1], kind, before) + FedBy(last, kind)
  }

  /** The text one delta delivers to a block of `kind`. */
  function FedBy(call: BlockCall, kind: BlockKind): string {
    match call
    case AddText(text) => if kind.Text? then text else ""
    case AddReasoning(text) => if kind.Reasoning? then text else ""
    case AddArguments(text) => if kind.ToolCall? then text else ""
    case _ => ""
  }

  function LastSignature(calls: seq<BlockCall>, before: Option<string>): Option<string> {
    if calls == [] then before
    else if calls[|calls| - 1].Signature? then Some(calls[|calls| - 1].signature)
    else LastSignature(calls[..|calls| - 1], before)
  }

  function LastOpaqueData(calls: seq<BlockCall>, before: Option<Json>): Option<Json> {
    if calls == [] then before
    else if calls[|calls| - 1].SetOpaqueData? then Some(calls[|calls| - 1].data)
    else LastOpaqueData(calls[..|calls| - 1], before)
  }

  /** The last tool identity a repair names, for a block that is a tool call. */
  function LastIdentity(calls: seq<BlockCall>, before: BlockKind): BlockKind {
    if calls == [] || !before.ToolCall? then before
    else if calls[|calls| - 1].RepairIdentity? && calls[|calls| - 1].kind.ToolCall? then calls[|calls| - 1].kind
    else LastIdentity(calls[..|calls| - 1], before)
  }

  /** The last value recorded under a metadata namespace. */
  function LastMetadata(calls: seq<BlockCall>, before: map<string, Json>): map<string, Json> {
    if calls == [] then before
    else
      var last := calls[|calls| - 1];
      var rest := LastMetadata(calls[..|calls| - 1], before);
      if last.AddMetadata? then rest[last.namespace := last.value] else rest
  }

  lemma {:induction false} LastIdentityKeepsShape(calls: seq<BlockCall>, before: BlockKind)
    ensures SameShape(LastIdentity(calls, before), before)
  {
    if calls != [] {
      LastIdentityKeepsShape(calls[..|calls| - 1], before);
    }
  }

  /**
   * While a block stays open, its content is the last reconciled whole and the deltas of its own kind
   * since, in order; the latest signature, opaque payload and identity win, redaction sticks, and
   * nothing else changes.
   */
  lemma {:induction false} OpenBlockReplaysItsCalls(
    id: BlockId, origin: Option<string>, b: Block, calls: seq<BlockCall>)
    requires b.open
    requires forall call <- calls :: !call.End? && !call.Discard?
    ensures RunBlock(id, origin, Some(b), calls).block ==
            Some(b.(kind := LastIdentity(calls, b.kind),
                    buffer := Fed(calls, b.kind, b.buffer),
                    signature := LastSignature(calls, b.signature),
                    redacted := b.redacted || SetRedacted in calls,
                    opaqueData := LastOpaqueData(calls, b.opaqueData),
                    metadata := LastMetadata(calls, b.metadata)))
    decreases |calls|
  {
    if calls != [] {
      var front, last := calls[..|calls| - 1], calls[|calls| - 1];
      assert calls == front + [last];
      assert [last][1..] == [];
      OpenBlockReplaysItsCalls(id, origin, b, front);
      RunBlockConcat(id, origin, Some(b), front, [last]);
      LastIdentityKeepsShape(front, b.kind);
      var before := RunBlock(id, origin, Some(b), front).block.value;
      assert RunBlock(id, origin, Some(before), [last]).block == CallOpen(before, last).block;
      OneReplayedCall(b, front, last, before);
    }
  }

  lemma OneReplayedCall(b: Block, front: seq<BlockCall>, last: BlockCall, before: Block)
    requires b.open && !last.End? && !last.Discard?
    requires SameShape(LastIdentity(front, b.kind), b.kind)
    requires before == b.(kind := LastIdentity(front, b.kind),
                          buffer := Fed(front, b.kind, b.buffer),
                          signature := LastSignature(front, b.signature),
                          redacted := b.redacted || SetRedacted in front,
                          opaqueData := LastOpaqueData(front, b.opaqueData),
                          metadata := LastMetadata(front, b.metadata))
    ensures var calls := front + [last];
            CallOpen(before, last).block ==
            Some(b.(kind := LastIdentity(calls, b.kind),
                    buffer := Fed(calls, b.kind, b.buffer),
                    signature := LastSignature(calls, b.signature),
                    redacted := b.redacted || SetRedacted in calls,
                    opaqueData := LastOpaqueData(calls, b.opaqueData),
                    metadata := LastMetadata(calls, b.metadata)))
  {
    LatestCall(front, last, b);
    hide Fed;
    hide LastSignature;
    hide LastOpaqueData;
    hide LastIdentity;
    hide LastMetadata;
    assert before.buffer + "" == before.buffer;
  }

  /** Each reading of the calls, one call later. */
  lemma LatestCall(front: seq<BlockCall>, last: BlockCall, b: Block)
    ensures var calls := front + [last];
            && Fed(calls, b.kind, b.buffer) ==
               (if last.Reconcile? && !b.kind.Opaque? then last.content
                else Fed(front, b.kind, b.buffer) + FedBy(last, b.kind))
            && LastSignature(calls, b.signature) ==
               (if last.Signature? then Some(last.signature) else LastSignature(front, b.signature))
            && LastOpaqueData(calls, b.opaqueData) ==
               (if last.SetOpaqueData? then Some(last.data) else LastOpaqueData(front, b.opaqueData))
            && LastIdentity(calls, b.kind) ==
               (if b.kind.ToolCall? && last.RepairIdentity? && last.kind.ToolCall? then last.kind
                else LastIdentity(front, b.kind))
            && LastMetadata(calls, b.metadata) ==
               (if last.AddMetadata? then LastMetadata(front, b.metadata)[last.namespace := last.value]
                else LastMetadata(front, b.metadata))
            && (SetRedacted in calls <==> SetRedacted in front || last == SetRedacted)
  {}

  // ---------------------------------------------------------------------------------------------
  // The first call and the last
  // ---------------------------------------------------------------------------------------------

  /**
   * The block an unused id gets from its first call, and what that call shows: the kind each call
   * stands for, with its own payload already in place. A repair, an end or a discard opens nothing.
   */
  lemma FirstCallOpens(id: BlockId, origin: Option<string>, call: BlockCall)
    ensures
      var r := CallBlock(id, origin, None, call);
      match call
      case Start(kind) =>
        r == Outcome(Some(Block(id, kind, true, true, "", None, origin, false, None, map[])), [BlockStart(id, kind)], None)
      case AddText(text) =>
        r == Outcome(Some(Block(id, BlockKind.Text, true, false, text, None, origin, false, None, map[])),
                     [BlockStart(id, BlockKind.Text), TextDelta(id, text)], None)
      case AddReasoning(text) =>
        r == Outcome(Some(Block(id, BlockKind.Reasoning, true, false, text, None, origin, false, None, map[])),
                     [BlockStart(id, BlockKind.Reasoning), ReasoningDelta(id, text)], None)
      case AddArguments(text) =>
        r == Outcome(Some(Block(id, ToolCall(id, None, Function), true, false, text, None, origin, false, None, map[])),
                     [BlockStart(id, ToolCall(id, None, Function)), ToolCallDelta(id, text)], None)
      case Signature(signature) =>
        r == Outcome(Some(Block(id, BlockKind.Reasoning, true, false, "", Some(signature), origin, false, None, map[])),
                     [BlockStart(id, BlockKind.Reasoning)], None)
      case SetRedacted =>
        r == Outcome(Some(Block(id, BlockKind.Reasoning, true, false, "", None, origin, true, None, map[])),
                     [BlockStart(id, BlockKind.Reasoning)], None)
      case SetOpaqueData(data) =>
        r == Outcome(Some(Block(id, Opaque(id), true, false, "", None, origin, false, Some(data), map[])),
                     [BlockStart(id, Opaque(id))], None)
      case AddMetadata(namespace, value) =>
        r == Outcome(Some(Block(id, ToolCall(id, None, Function), true, false, "", None, origin, false, None,
                                map[namespace := value])),
                     [BlockStart(id, ToolCall(id, None, Function))], None)
      case Reconcile(kind, whole) =>
        && r.block == Some(Block(id, kind, true, false, if kind.Opaque? then "" else whole, None, origin, false, None, map[]))
        && r.part == None
        && r.events == [BlockStart(id, kind)] +
                       (if whole == "" || kind.Opaque? then []
                        else if kind.Text? then [TextDelta(id, whole)]
                        else if kind.Reasoning? then [ReasoningDelta(id, whole)]
                        else [ToolCallDelta(id, whole)])
      case RepairIdentity(_) => r == Outcome(None, [], None)
      case End => r == Outcome(None, [], None)
      case Discard => r == Outcome(None, [], None)
  {
    assert "" + (if call.AddText? || call.AddReasoning? || call.AddArguments? then call.text else "") ==
           (if call.AddText? || call.AddReasoning? || call.AddArguments? then call.text else "");
    if call.Reconcile? {
      assert call.content[0..] == call.content;
    }
  }

  /** What ending an open block gives, kind by kind; discarding it shows the same part and keeps none. */
  lemma EndGivesThePartOfItsKind(id: BlockId, origin: Option<string>, b: Block)
    requires b.open && b.id == id
    ensures
      var ended, discarded := CallBlock(id, origin, Some(b), End), CallBlock(id, origin, Some(b), Discard);
      && ended.block == Some(b.(open := false)) && ended.part.Some? && ended.events == [BlockEnd(id, ended.part.value)]
      && discarded == Outcome(None, ended.events, None)
      && match b.kind
         case Text => ended.part.value == TextPart(b.buffer)
         case Reasoning =>
           ended.part.value == ReasoningPart(b.buffer, b.signature,
                                             if b.signature.None? then None else b.signatureOrigin, b.redacted)
         case ToolCall(callId, name, Function) =>
           ended.part.value == ToolCallPart(callId, if name.None? then "" else name.value,
                                            FunctionInput(if b.buffer == "" then "{}" else b.buffer), b.metadata)
         case ToolCall(callId, name, Custom) =>
           ended.part.value == ToolCallPart(callId, if name.None? then "" else name.value, CustomInput(b.buffer), b.metadata)
         case Opaque(kind) =>
           ended.part.value == OpaquePart(kind, if b.opaqueData.None? then JsonValues.Null else b.opaqueData.value)
  {}

  // ---------------------------------------------------------------------------------------------
  // Sealed reasoning
  // ---------------------------------------------------------------------------------------------

  predicate NoDelta(events: seq<Event>) {
    forall k :: 0 <= k < |events| ==> !events[k].IsDelta()
  }

  lemma SealedCallIsSilent(id: BlockId, origin: Option<string>, b: Block, call: BlockCall)
    requires b.Sealed() && call != Discard
    ensures var r := CallBlock(id, origin, Some(b), call);
            NoDelta(r.events) && r.block.Some? && r.block.value.Sealed()
  {}

  /** Once a reasoning block is redacted, no call shows any of its text until it is discarded. */
  lemma {:induction false} SealedBlockStaysSilent(
    id: BlockId, origin: Option<string>, b: Block, calls: seq<BlockCall>)
    requires b.Sealed()
    requires Discard !in calls
    ensures NoDelta(RunBlock(id, origin, Some(b), calls).events)
    ensures var after := RunBlock(id, origin, Some(b), calls).block; after.Some? && after.value.Sealed()
    decreases |calls|
  {
    if calls != [] {
      hide CallBlock;
      SealedCallIsSilent(id, origin, b, calls[0]);
      SealedBlockStaysSilent(id, origin, CallBlock(id, origin, Some(b), calls[0]).block.value, calls[1..]);
    }
  }

  // ---------------------------------------------------------------------------------------------
  // Reconciliation
  // ---------------------------------------------------------------------------------------------

  /** Calls that only deliver content, in any shape and in any pieces. */
  predicate DeliversContent(call: BlockCall) {
    call.AddText? || call.AddReasoning? || call.AddArguments? || call.Reconcile?
  }

  lemma ContentCallMovesTheBuffer(id: BlockId, origin: Option<string>, b: Block, call: BlockCall)
    requires b.open && DeliversContent(call)
    ensures var r := CallBlock(id, origin, Some(b), call);
            && r.block.Some? && r.part.None?
            && r.block.value == b.(buffer := r.block.value.buffer)
  {}

  lemma {:induction false} ContentOnlyMovesTheBuffer(
    id: BlockId, origin: Option<string>, b: Block, calls: seq<BlockCall>)
    requires b.open
    requires forall call <- calls :: DeliversContent(call)
    ensures var after := RunBlock(id, origin, Some(b), calls);
            && after.block.Some? && after.parts == []
            && after.block.value == b.(buffer := after.block.value.buffer)
    decreases |calls|
  {
    if calls != [] {
      hide CallBlock;
      assert calls[0] in calls;
      ContentCallMovesTheBuffer(id, origin, b, calls[0]);
      ContentOnlyMovesTheBuffer(id, origin, CallBlock(id, origin, Some(b), calls[0]).block.value, calls[1..]);
    }
  }

  /**
   * Whatever fragments arrived, a reconciliation followed by the end yields the part of the block
   * whose buffer is exactly the authoritative content.
   */
  lemma ReconcileConverges(
    id: BlockId, origin: Option<string>, b: Block, fragments: seq<BlockCall>, kind: BlockKind, whole: string)
    requires b.open && !b.kind.Opaque?
    requires forall call <- fragments :: DeliversContent(call)
    ensures var closed := b.(buffer := whole, open := false);
            var after := RunBlock(id, origin, Some(b), fragments + [Reconcile(kind, whole), End]);
            && after.block == Some(closed)
            && after.parts == [closed.IntoPart()]
  {
    ContentOnlyMovesTheBuffer(id, origin, b, fragments);
    RunBlockConcat(id, origin, Some(b), fragments, [Reconcile(kind, whole), End]);
    var settled := RunBlock(id, origin, Some(b), fragments);
    ReconciledAndEnded(id, origin, settled.block.value, kind, whole);
    assert settled.parts + [b.(buffer := whole, open := false).IntoPart()] ==
           [b.(buffer := whole, open := false).IntoPart()];
    hide RunBlock;
  }

  lemma ReconciledAndEnded(id: BlockId, origin: Option<string>, b: Block, kind: BlockKind, whole: string)
    requires b.open && !b.kind.Opaque?
    ensures var closed := b.(buffer := whole, open := false);
            var after := RunBlock(id, origin, Some(b), [Reconcile(kind, whole), End]);
            after.block == Some(closed) && after.parts == [closed.IntoPart()]
  {
    var reconciled := b.(buffer := whole);
    assert CallBlock(id, origin, Some(b), Reconcile(kind, whole)).block == Some(reconciled);
    assert [Reconcile(kind, whole), End][1..] == [End];
    assert [End][1..] == [];
  }

  /**
   * A reconciliation that is the first call of an id opens the block with the kind it names, and
   * its content is delivered as an ordinary delta.
   */
  lemma ReconcileOpensUnknownBlock(id: BlockId, origin: Option<string>, kind: BlockKind, whole: string)
    ensures var r := CallBlock(id, origin, None, Reconcile(kind, whole));
            && r.block.Some? && r.block.value.open && r.block.value.kind == kind
            && r.events != [] && r.events[0] == BlockStart(id, kind)
            && (kind.Opaque? ==> r.block.value.buffer == "" && |r.events| == 1)
            && (!kind.Opaque? ==> r.block.value.buffer == whole && Heard("", r.events) == whole)
  {
    var newborn := Block.New(id, kind, origin, false);
    HeardAfterStart("", id, kind, CallOpen(newborn, Reconcile(kind, whole)).events);
    ShownIsHeard(newborn, whole, "");
  }

  /**
   * When nothing was replaced and the block is not sealed, a reconciliation that extends the buffer
   * leaves the consumer with the whole content too.
   */
  lemma ReconcileShowsTheTail(
    id: BlockId, origin: Option<string>, calls: seq<BlockCall>, kind: BlockKind, whole: string)
    ensures var w := ObserveAll(id, origin, Witness(None, "", false), calls);
            var after := Observe(id, origin, w, Reconcile(kind, whole));
            w.block.Some? && w.block.value.open && !w.garbled && !w.block.value.kind.Opaque?
            && !w.block.value.Sealed() && w.block.value.buffer <= whole ==>
              after.heard == whole && after.block.value.buffer == whole && !after.garbled
  {
    var w := ObserveAll(id, origin, Witness(None, "", false), calls);
    DeltasAgreeWithBuffer(id, origin, Witness(None, "", false), calls);
    ObserveAgrees(id, origin, w, Reconcile(kind, whole));
  }
}

/** How the fragments a provider streams become the parts of its response, in whatever run they are scattered. */
module AssemblerParts {
  import opened Wrappers
  import opened Sequences
  import opened StreamTypes
  import opened BlockMachine
  import opened BlockRuns
  import opened AssemblerModel
  import opened AssemblerRuns

  /** The calls that name `id`, in order. */
  function CallsOn(calls: seq<Call>, id: BlockId): seq<BlockCall> {
    if calls == [] then []
    else (if calls[0].OnBlock? && calls[0].id == id then [calls[0].call] else []) + CallsOn(calls[1..], id)
  }

  function Joined(fragments: seq<string>): string {
    if fragments == [] then "" else fragments[0] + Joined(fragments[1..])
  }

  lemma {:induction false} UncompletedCallsAreProjected(calls: seq<Call>, id: BlockId)
    requires Complete !in calls
    ensures Project(calls, id, false) == CallsOn(calls, id)
  {
    if calls != [] {
      UncompletedCallsAreProjected(calls[1..], id);
      assert calls[0] in calls;
    }
  }

  /** An uncompleted run and then an end, as the block it ends sees it. */
  lemma RunThenEnd(provider: string, model: string, signatures: Option<string>, calls: seq<Call>, id: BlockId, b: Block)
    requires Complete !in calls
    requires b.open && RunBlock(id, signatures, None, CallsOn(calls, id)).block == Some(b)
    ensures
      var s := Ledger.New(provider, model, signatures);
      var before, after := Run(s, calls), Run(s, calls + [OnBlock(id, End)]);
      var part := b.(open := false).IntoPart();
      && EventsAbout(id, after.events) == RunBlock(id, signatures, None, CallsOn(calls, id)).events + [BlockEnd(id, part)]
      && after.ledger.parts == before.ledger.parts + [part]
  {
    var s := Ledger.New(provider, model, signatures);
    UncompletedCallsAreProjected(calls, id);
    BlocksDoNotInterfere(s, calls, id);
    RunKeepsValid(s, calls);
    RunSnoc(s, calls, OnBlock(id, End));
    var before := Run(s, calls);
    EndingOpenBlock(before.ledger, id);
    hide Run, RunBlock, CallsOn, Project;
    EventsAboutConcat(id, before.events, [BlockEnd(id, b.(open := false).IntoPart())]);
    EventsAboutAll(id, [BlockEnd(id, b.(open := false).IntoPart())]);
  }

  function TextCalls(fragments: seq<string>): seq<BlockCall> {
    seq(|fragments|, i requires 0 <= i < |fragments| => AddText(fragments[i]))
  }

  function ReasoningCalls(fragments: seq<string>): seq<BlockCall> {
    seq(|fragments|, i requires 0 <= i < |fragments| => AddReasoning(fragments[i]))
  }

  function ArgumentCalls(fragments: seq<string>): seq<BlockCall> {
    seq(|fragments|, i requires 0 <= i < |fragments| => AddArguments(fragments[i]))
  }

  function TextDeltas(id: BlockId, fragments: seq<string>): seq<Event> {
    seq(|fragments|, i requires 0 <= i < |fragments| => TextDelta(id, fragments[i]))
  }

  function ReasoningDeltas(id: BlockId, fragments: seq<string>): seq<Event> {
    seq(|fragments|, i requires 0 <= i < |fragments| => ReasoningDelta(id, fragments[i]))
  }

  function ToolCallDeltas(id: BlockId, fragments: seq<string>): seq<Event> {
    seq(|fragments|, i requires 0 <= i < |fragments| => ToolCallDelta(id, fragments[i]))
  }

  lemma {:induction false} TextFragmentsAppend(id: BlockId, origin: Option<string>, b: Block, fragments: seq<string>)
    requires b.open && b.kind.Text? && b.id == id
    ensures RunBlock(id, origin, Some(b), TextCalls(fragments)) ==
            Trail(Some(b.(buffer := b.buffer + Joined(fragments))),
                  TextDeltas(id, fragments), [])
    decreases |fragments|
  {
    if fragments == [] {
      assert b.buffer + "" == b.buffer;
    } else {
      var first, rest := fragments[0], fragments[1..];
      var next := b.(buffer := b.buffer + first);
      assert CallBlock(id, origin, Some(b), AddText(first)) == Outcome(Some(next), [TextDelta(id, first)], None);
      hide CallBlock;
      assert TextCalls(fragments)[0] == AddText(first) && TextCalls(fragments)[1..] == TextCalls(rest);
      assert TextDeltas(id, fragments) == [TextDelta(id, first)] + TextDeltas(id, rest);
      hide TextCalls, TextDeltas;
      TextFragmentsAppend(id, origin, next, rest);
      Associates(b.buffer, first, Joined(rest));
    }
  }

  lemma {:induction false} ReasoningFragmentsAppend(id: BlockId, origin: Option<string>, b: Block, fragments: seq<string>)
    requires b.open && b.kind.Reasoning? && !b.redacted && b.id == id
    ensures RunBlock(id, origin, Some(b), ReasoningCalls(fragments)) ==
            Trail(Some(b.(buffer := b.buffer + Joined(fragments))),
                  ReasoningDeltas(id, fragments), [])
    decreases |fragments|
  {
    if fragments == [] {
      assert b.buffer + "" == b.buffer;
    } else {
      var first, rest := fragments[0], fragments[1..];
      var next := b.(buffer := b.buffer + first);
      assert CallBlock(id, origin, Some(b), AddReasoning(first)) == Outcome(Some(next), [ReasoningDelta(id, first)], None);
      hide CallBlock;
      assert ReasoningCalls(fragments)[0] == AddReasoning(first) && ReasoningCalls(fragments)[1..] == ReasoningCalls(rest);
      assert ReasoningDeltas(id, fragments) == [ReasoningDelta(id, first)] + ReasoningDeltas(id, rest);
      hide ReasoningCalls, ReasoningDeltas;
      ReasoningFragmentsAppend(id, origin, next, rest);
      Associates(b.buffer, first, Joined(rest));
    }
  }

  lemma {:induction false} ArgumentFragmentsAppend(id: BlockId, origin: Option<string>, b: Block, fragments: seq<string>)
    requires b.open && b.kind.ToolCall? && b.id == id
    ensures RunBlock(id, origin, Some(b), ArgumentCalls(fragments)) ==
            Trail(Some(b.(buffer := b.buffer + Joined(fragments))),
                  ToolCallDeltas(id, fragments), [])
    decreases |fragments|
  {
    if fragments == [] {
      assert b.buffer + "" == b.buffer;
    } else {
      var first, rest := fragments[0], fragments[1..];
      var next := b.(buffer := b.buffer + first);
      assert CallBlock(id, origin, Some(b), AddArguments(first)) == Outcome(Some(next), [ToolCallDelta(id, first)], None);
      hide CallBlock;
      assert ArgumentCalls(fragments)[0] == AddArguments(first) && ArgumentCalls(fragments)[1..] == ArgumentCalls(rest);
      assert ToolCallDeltas(id, fragments) == [ToolCallDelta(id, first)] + ToolCallDeltas(id, rest);
      hide ArgumentCalls, ToolCallDeltas;
      ArgumentFragmentsAppend(id, origin, next, rest);
      Associates(b.buffer, first, Joined(rest));
    }
  }

  /** A first call that leaves its block open, and then others. */
  lemma FirstThenRest(id: BlockId, origin: Option<string>, first: BlockCall, b: Block, events: seq<Event>, rest: seq<BlockCall>)
    requires CallBlock(id, origin, None, first) == Outcome(Some(b), events, None)
    ensures
      var after := RunBlock(id, origin, Some(b), rest);
      RunBlock(id, origin, None, [first] + rest) == Trail(after.block, events + after.events, after.parts)
  {
    assert ([first] + rest)[1..] == rest;
    assert [] + RunBlock(id, origin, Some(b), rest).parts == RunBlock(id, origin, Some(b), rest).parts;
  }

  lemma TextRunIs(id: BlockId, origin: Option<string>, fragments: seq<string>)
    requires fragments != []
    ensures RunBlock(id, origin, None, TextCalls(fragments)) ==
            Trail(Some(Block(id, Text, true, false, Joined(fragments), None, origin, false, None, map[])),
                  [BlockStart(id, Text)] + TextDeltas(id, fragments), [])
  {
    var first, rest := fragments[0], fragments[1..];
    var b := Block(id, Text, true, false, first, None, origin, false, None, map[]);
    assert TextCalls(fragments) == [AddText(first)] + TextCalls(rest);
    assert TextDeltas(id, fragments) == [TextDelta(id, first)] + TextDeltas(id, rest);
    FirstCallOpens(id, origin, AddText(first));
    TextFragmentsAppend(id, origin, b, rest);
    hide TextCalls, TextDeltas, RunBlock, CallBlock;
    FirstThenRest(id, origin, AddText(first), b, [BlockStart(id, Text), TextDelta(id, first)], TextCalls(rest));
    assert [BlockStart(id, Text), TextDelta(id, first)] == [BlockStart(id, Text)] + [TextDelta(id, first)];
    Associates([BlockStart(id, Text)], [TextDelta(id, first)], TextDeltas(id, rest));
  }

  lemma ReasoningRunIs(id: BlockId, origin: Option<string>, fragments: seq<string>)
    requires fragments != []
    ensures RunBlock(id, origin, None, ReasoningCalls(fragments)) ==
            Trail(Some(Block(id, Reasoning, true, false, Joined(fragments), None, origin, false, None, map[])),
                  [BlockStart(id, Reasoning)] + ReasoningDeltas(id, fragments), [])
  {
    var first, rest := fragments[0], fragments[1..];
    var b := Block(id, Reasoning, true, false, first, None, origin, false, None, map[]);
    assert ReasoningCalls(fragments) == [AddReasoning(first)] + ReasoningCalls(rest);
    assert ReasoningDeltas(id, fragments) == [ReasoningDelta(id, first)] + ReasoningDeltas(id, rest);
    FirstCallOpens(id, origin, AddReasoning(first));
    ReasoningFragmentsAppend(id, origin, b, rest);
    hide ReasoningCalls, ReasoningDeltas, RunBlock, CallBlock;
    FirstThenRest(id, origin, AddReasoning(first), b, [BlockStart(id, Reasoning), ReasoningDelta(id, first)], ReasoningCalls(rest));
    assert [BlockStart(id, Reasoning), ReasoningDelta(id, first)] == [BlockStart(id, Reasoning)] + [ReasoningDelta(id, first)];
    Associates([BlockStart(id, Reasoning)], [ReasoningDelta(id, first)], ReasoningDeltas(id, rest));
  }

  /**
   * Text fragments for an id nothing else names, in whatever run of other calls they are scattered:
   * ending the block shows a text block, each fragment in turn, and one text part of all of them.
   */
  lemma TextFragmentsBecomeText(
    provider: string, model: string, signatures: Option<string>, calls: seq<Call>, id: BlockId, fragments: seq<string>)
    requires Complete !in calls && fragments != [] && CallsOn(calls, id) == TextCalls(fragments)
    ensures
      var s := Ledger.New(provider, model, signatures);
      var after := Run(s, calls + [OnBlock(id, End)]);
      && EventsAbout(id, after.events) ==
         [BlockStart(id, Text)]
         + TextDeltas(id, fragments)
         + [BlockEnd(id, TextPart(Joined(fragments)))]
      && after.ledger.parts == Run(s, calls).ledger.parts + [TextPart(Joined(fragments))]
  {
    TextRunIs(id, signatures, fragments);
    var b := Block(id, Text, true, false, Joined(fragments), None, signatures, false, None, map[]);
    hide TextCalls, TextDeltas, Run, RunBlock, CallsOn;
    RunThenEnd(provider, model, signatures, calls, id, b);
  }

  /**
   * Reasoning fragments for an id nothing else names, then a signature: ending the block shows a
   * reasoning block, each fragment in turn, and one part of all of them with that signature and the
   * assembler's origin.
   */
  lemma ReasoningFragmentsBecomeReasoning(
    provider: string, model: string, signatures: Option<string>, calls: seq<Call>, id: BlockId,
    fragments: seq<string>, signature: string)
    requires Complete !in calls && fragments != []
    requires CallsOn(calls, id) == ReasoningCalls(fragments) + [Signature(signature)]
    ensures
      var s := Ledger.New(provider, model, signatures);
      var after := Run(s, calls + [OnBlock(id, End)]);
      var part := ReasoningPart(Joined(fragments), Some(signature), signatures, false);
      && EventsAbout(id, after.events) ==
         [BlockStart(id, Reasoning)]
         + ReasoningDeltas(id, fragments)
         + [BlockEnd(id, part)]
      && after.ledger.parts == Run(s, calls).ledger.parts + [part]
  {
    ReasoningRunIs(id, signatures, fragments);
    var b := Block(id, Reasoning, true, false, Joined(fragments), None, signatures, false, None, map[]);
    RunBlockConcat(id, signatures, None, ReasoningCalls(fragments), [Signature(signature)]);
    RunOne(id, signatures, Some(b), Signature(signature));
    hide ReasoningCalls, ReasoningDeltas, Run, RunBlock, CallsOn;
    assert [BlockStart(id, Reasoning)] + ReasoningDeltas(id, fragments) + []
        == [BlockStart(id, Reasoning)] + ReasoningDeltas(id, fragments);
    RunThenEnd(provider, model, signatures, calls, id, b.(signature := Some(signature)));
  }

  /**
   * An announced tool call and its argument fragments: ending the block shows it as announced, each
   * fragment in turn, and one call with that name whose input is all of them, or `{}` for a function
   * that got none.
   */
  lemma ArgumentFragmentsBecomeACall(
    provider: string, model: string, signatures: Option<string>, calls: seq<Call>, id: BlockId,
    callId: string, name: string, custom: bool, fragments: seq<string>)
    requires Complete !in calls
    requires CallsOn(calls, id) ==
             [Start(ToolCall(callId, Some(name), if custom then Custom else Function))] + ArgumentCalls(fragments)
    ensures
      var s := Ledger.New(provider, model, signatures);
      var after := Run(s, calls + [OnBlock(id, End)]);
      var input := if custom then CustomInput(Joined(fragments))
                   else FunctionInput(if Joined(fragments) == "" then "{}" else Joined(fragments));
      var part := ToolCallPart(callId, name, input, map[]);
      && EventsAbout(id, after.events) ==
         [BlockStart(id, ToolCall(callId, Some(name), if custom then Custom else Function))]
         + ToolCallDeltas(id, fragments)
         + [BlockEnd(id, part)]
      && after.ledger.parts == Run(s, calls).ledger.parts + [part]
  {
    var kind := ToolCall(callId, Some(name), if custom then Custom else Function);
    var b := Block(id, kind, true, true, "", None, signatures, false, None, map[]);
    FirstCallOpens(id, signatures, Start(kind));
    FirstThenRest(id, signatures, Start(kind), b, [BlockStart(id, kind)], ArgumentCalls(fragments));
    ArgumentFragmentsAppend(id, signatures, b, fragments);
    assert "" + Joined(fragments) == Joined(fragments);
    RunThenEnd(provider, model, signatures, calls, id, b.(buffer := Joined(fragments)));
    hide Run, RunBlock, EventsAbout, CallsOn;
  }
}

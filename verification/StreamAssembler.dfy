/**
 * The assembler as the codecs use it: a list of blocks searched by position and updated in place.
 * Every method is proved to take the step of the keyed ledger in AssemblerModel.
 */
module StreamAssembler {
  import opened Wrappers
  import opened StreamTypes
  import opened BlockMachine
  import opened BlockRuns
  import opened AssemblerModel

  ghost predicate DistinctIds(blocks: seq<Block>) {
    forall i, j :: 0 <= i < j < |blocks| ==> blocks[i].id != blocks[j].id
  }

  ghost function Ids(blocks: seq<Block>): seq<BlockId> {
    seq(|blocks|, i requires 0 <= i < |blocks| => blocks[i].id)
  }

  ghost function Table(blocks: seq<Block>): map<BlockId, Block> {
    if blocks == [] then map[]
    else
      var last := blocks[|blocks| - 1];
      Table(blocks[..|blocks| - 1])[last.id := last]
  }

  lemma {:induction false} TableHolds(blocks: seq<Block>)
    requires DistinctIds(blocks)
    ensures forall i :: 0 <= i < |blocks| ==> blocks[i].id in Table(blocks) && Table(blocks)[blocks[i].id] == blocks[i]
    ensures forall id :: id in Table(blocks) <==> id in Ids(blocks)
  {
    if blocks != [] {
      var front := blocks[..|blocks| - 1];
      TableHolds(front);
      assert forall i :: 0 <= i < |front| ==> blocks[i] == front[i];
      assert Ids(blocks) == Ids(front) + [blocks[|blocks| - 1].id];
    }
  }

  lemma TableUpdate(blocks: seq<Block>, i: nat, b: Block)
    requires DistinctIds(blocks) && i < |blocks| && b.id == blocks[i].id
    ensures var after := blocks[i := b];
            && DistinctIds(after) && Ids(after) == Ids(blocks)
            && Table(after) == Table(blocks)[b.id := b]
  {
    var after := blocks[i := b];
    assert Ids(after) == Ids(blocks);
    assert DistinctIds(after) by {
      forall j, k | 0 <= j < k < |after| ensures after[j].id != after[k].id {
        assert after[j].id == blocks[j].id && after[k].id == blocks[k].id;
      }
    }
    TableHolds(blocks);
    TableHolds(after);
    forall id | id in Table(blocks)
      ensures Table(after)[id] == Table(blocks)[b.id := b][id]
    {
      var k :| 0 <= k < |Ids(blocks)| && Ids(blocks)[k] == id;
      assert after[k].id == id;
      assert Table(after)[id] == after[k];
    }
  }

  lemma TableAppend(blocks: seq<Block>, b: Block)
    requires DistinctIds(blocks) && b.id !in Table(blocks)
    ensures var after := blocks + [b];
            && DistinctIds(after) && Ids(after) == Ids(blocks) + [b.id]
            && Table(after) == Table(blocks)[b.id := b]
  {
    var after := blocks + [b];
    assert after[..|blocks|] == blocks;
    assert Table(after) == Table(blocks)[b.id := b];
    TableHolds(blocks);
    hide Table;
    assert forall i :: 0 <= i < |blocks| ==> blocks[i].id != b.id;
    assert Ids(after) == Ids(blocks) + [b.id];
  }

  lemma RemainingIds(blocks: seq<Block>, i: nat)
    requires DistinctIds(blocks) && i < |blocks|
    ensures var after := blocks[..i] + blocks[i + 1..];
            && DistinctIds(after) && Ids(after) == Without(Ids(blocks), blocks[i].id)
            && (forall k :: 0 <= k < |after| ==> after[k] == blocks[if k < i then k else k + 1])
  {
    var after := blocks[..i] + blocks[i + 1..];
    WithoutAt(Ids(blocks), i);
    hide Without;
    assert forall k :: 0 <= k < |after| ==> after[k] == blocks[if k < i then k else k + 1];
    assert Ids(after) == Ids(blocks)[..i] + Ids(blocks)[i + 1..];
  }

  lemma TableRemove(blocks: seq<Block>, i: nat)
    requires DistinctIds(blocks) && i < |blocks|
    ensures var after := blocks[..i] + blocks[i + 1..];
            && DistinctIds(after) && Ids(after) == Without(Ids(blocks), blocks[i].id)
            && Table(after) == Table(blocks) - {blocks[i].id}
  {
    var after := blocks[..i] + blocks[i + 1..];
    var t := Table(blocks) - {blocks[i].id};
    RemainingIds(blocks, i);
    TableHolds(blocks);
    WithoutRemoves(Ids(blocks), blocks[i].id);
    hide Table, Without;
    forall k | 0 <= k < |after|
      ensures after[k].id in t && t[after[k].id] == after[k]
    {
      assert blocks[if k < i then k else k + 1] == after[k];
    }
    TableIs(after, t);
  }

  /** The table of some blocks is the one map that holds each of them and nothing else. */
  lemma TableIs(blocks: seq<Block>, t: map<BlockId, Block>)
    requires DistinctIds(blocks)
    requires forall k :: 0 <= k < |blocks| ==> blocks[k].id in t && t[blocks[k].id] == blocks[k]
    requires forall id <- t :: id in Ids(blocks)
    ensures Table(blocks) == t
  {
    TableHolds(blocks);
    hide Table;
    forall id | id in Ids(blocks)
      ensures id in t && Table(blocks)[id] == t[id]
    {
      var k :| 0 <= k < |blocks| && Ids(blocks)[k] == id;
    }
  }

  /** The ledger once `id` is known: unchanged, or with a newborn block of `kind`. */
  ghost function Latched(s: Ledger, id: BlockId, kind: BlockKind, announced: bool): Ledger {
    if id in s.table then s
    else s.(order := s.order + [id], table := s.table[id := Block.New(id, kind, s.signatures, announced)])
  }

  function LatchEvents(known: bool, id: BlockId, kind: BlockKind): seq<Event> {
    if known then [] else [BlockStart(id, kind)]
  }

  /** A call that may open its block is that opening, then the call on the open block. */
  lemma LatchThenCall(s: Ledger, id: BlockId, call: BlockCall)
    requires LatchKind(id, call).Some?
    ensures var kind := LatchKind(id, call).value;
            var known := Latched(s, id, kind, call.Start?);
            var start := LatchEvents(id in s.table, id, kind);
            if known.IsOpen(id) then
              var r := CallOpen(known.table[id], call);
              r.block.Some? &&
              TouchBlock(s, id, call) == Step(known.(table := known.table[id := r.block.value]), start + r.events)
            else
              start == [] && TouchBlock(s, id, call) == Step(known, [])
  {}

  class StreamAssembler {
    const provider: string
    const model: string
    const signatures: Option<string>
    var blocks: seq<Block>
    var parts: seq<Part>
    var usage: TokenCounts
    var finishReason: Option<FinishReason>
    var responseId: Option<string>
    var cost: Option<nat>
    var warnings: seq<Warning>
    var raw: Option<Json>
    var begun: bool
    var completed: bool

    /** No two blocks, open or closed, share an id. */
    ghost predicate Valid()
      reads this
    {
      DistinctIds(blocks)
    }

    ghost function View(): Ledger
      requires Valid()
      reads this
    {
      Ledger(provider, model, signatures, Ids(blocks), Table(blocks), parts, usage, finishReason,
             responseId, cost, warnings, raw, begun, completed)
    }

    constructor (provider: string, model: string, signatures: Option<string>)
      ensures Valid() && View() == Ledger.New(provider, model, signatures)
    {
      this.provider := provider;
      this.model := model;
      this.signatures := signatures;
      blocks, parts, warnings := [], [], [];
      usage := TokenCounts(0, 0, 0, 0, 0);
      finishReason, responseId, cost, raw := None, None, None, None;
      begun, completed := false, false;
      new;
      assert Ids(blocks) == [];
    }

    // -------------------------------------------------------------------------------------------
    // Finding and opening blocks
    // -------------------------------------------------------------------------------------------

    /** The position of a block, open or closed. */
    method Find(id: BlockId) returns (index: Option<nat>)
      requires Valid()
      ensures index.Some? <==> id in View().table
      ensures index.Some? ==> index.value < |blocks| && blocks[index.value].id == id
      ensures index.Some? ==> View().table[id] == blocks[index.value]
    {
      for i := 0 to |blocks|
        invariant forall k :: 0 <= k < i ==> blocks[k].id != id
      {
        if blocks[i].id == id {
          TableHolds(blocks);
          return Some(i);
        }
      }
      TableHolds(blocks);
      return None;
    }

    /** The position of the open block for an id. */
    method FindOpen(id: BlockId) returns (index: Option<nat>)
      requires Valid()
      ensures index.Some? <==> View().IsOpen(id)
      ensures index.Some? ==> index.value < |blocks| && blocks[index.value].id == id
      ensures index.Some? ==> View().table[id] == blocks[index.value]
    {
      index := Find(id);
      if index.Some? && !blocks[index.value].open {
        index := None;
      }
    }

    /** Opens a block and returns its start event, or nothing when the id already exists. */
    method OpenBlockWith(id: BlockId, kind: BlockKind, announced: bool) returns (events: seq<Event>)
      requires Valid()
      modifies this`blocks
      ensures Valid() && View() == Latched(old(View()), id, kind, announced)
      ensures events == LatchEvents(id in old(View()).table, id, kind)
    {
      var index := Find(id);
      if index.Some? {
        return [];
      }
      TableAppend(blocks, Block.New(id, kind, signatures, announced));
      blocks := blocks + [Block.New(id, kind, signatures, announced)];
      events := [BlockStart(id, kind)];
    }

    /** Replaces the block at a position by another with the same id. */
    method Update(i: nat, b: Block)
      requires Valid() && i < |blocks| && b.id == blocks[i].id
      modifies this`blocks
      ensures Valid() && View() == old(View()).(table := old(View()).table[b.id := b])
    {
      TableUpdate(blocks, i, b);
      blocks := blocks[i := b];
    }

    // -------------------------------------------------------------------------------------------
    // Block calls
    // -------------------------------------------------------------------------------------------

    method Start(id: BlockId, kind: BlockKind) returns (events: seq<Event>)
      requires Valid()
      modifies this
      ensures Valid() && Step(View(), events) == TouchBlock(old(View()), id, BlockCall.Start(kind))
    {
      LatchThenCall(View(), id, BlockCall.Start(kind));
      hide TouchBlock;
      events := OpenBlockWith(id, kind, true);
      assert View().table[id := View().table[id]] == View().table;
    }

    method Text(id: BlockId, text: string) returns (events: seq<Event>)
      requires Valid()
      modifies this
      ensures Valid() && Step(View(), events) == TouchBlock(old(View()), id, BlockCall.AddText(text))
    {
      LatchThenCall(View(), id, BlockCall.AddText(text));
      hide TouchBlock;
      events := OpenBlockWith(id, BlockKind.Text, false);
      var index := FindOpen(id);
      if index.None? || !Matches(TextShape, blocks[index.value].kind) {
        return;
      }
      var b := blocks[index.value];
      Update(index.value, b.(buffer := b.buffer + text));
      events := events + [TextDelta(id, text)];
    }

    method Reasoning(id: BlockId, text: string) returns (events: seq<Event>)
      requires Valid()
      modifies this
      ensures Valid() && Step(View(), events) == TouchBlock(old(View()), id, BlockCall.AddReasoning(text))
    {
      LatchThenCall(View(), id, BlockCall.AddReasoning(text));
      hide TouchBlock;
      events := OpenBlockWith(id, BlockKind.Reasoning, false);
      var index := FindOpen(id);
      if index.None? || !Matches(ReasoningShape, blocks[index.value].kind) {
        return;
      }
      var b := blocks[index.value];
      Update(index.value, b.(buffer := b.buffer + text));
      if !b.redacted {
        events := events + [ReasoningDelta(id, text)];
      }
    }

    method Arguments(id: BlockId, chunk: string) returns (events: seq<Event>)
      requires Valid()
      modifies this
      ensures Valid() && Step(View(), events) == TouchBlock(old(View()), id, BlockCall.AddArguments(chunk))
    {
      LatchThenCall(View(), id, BlockCall.AddArguments(chunk));
      hide TouchBlock;
      events := OpenBlockWith(id, BlockKind.ToolCall(id, None, Function), false);
      var index := FindOpen(id);
      if index.None? || !Matches(ToolCallShape, blocks[index.value].kind) {
        return;
      }
      var b := blocks[index.value];
      Update(index.value, b.(buffer := b.buffer + chunk));
      events := events + [ToolCallDelta(id, chunk)];
    }

    method Signature(id: BlockId, signature: string) returns (events: seq<Event>)
      requires Valid()
      modifies this
      ensures Valid() && Step(View(), events) == TouchBlock(old(View()), id, BlockCall.Signature(signature))
    {
      LatchThenCall(View(), id, BlockCall.Signature(signature));
      hide TouchBlock;
      events := OpenBlockWith(id, BlockKind.Reasoning, false);
      var index := FindOpen(id);
      if index.None? {
        return;
      }
      Update(index.value, blocks[index.value].(signature := Some(signature)));
    }

    method RepairToolIdentity(id: BlockId, identity: BlockKind)
      requires Valid()
      modifies this
      ensures Valid()
      ensures Step(View(), []) == TouchBlock(old(View()), id, BlockCall.RepairIdentity(identity))
    {
      assert parts + [] == parts;
      var index := FindOpen(id);
      if index.None? {
        TableHolds(blocks);
        IgnoredCall(View(), id, BlockCall.RepairIdentity(identity));
        return;
      }
      assert View().table[id := View().table[id]] == View().table;
      var b := blocks[index.value];
      if b.kind.ToolCall? && identity.ToolCall? {
        Update(index.value, b.(kind := identity));
      }
    }

    /** Sends what an open block has not shown through the delta method of its kind. */
    method ShowMissing(id: BlockId, i: nat, missing: string) returns (events: seq<Event>)
      requires Valid() && i < |blocks| && blocks[i].id == id && blocks[i].open
      modifies this
      ensures Valid()
      ensures var b := old(blocks[i]);
              if b.kind.Opaque? then View() == old(View()) && events == []
              else
                && View() == old(View()).(table := old(View()).table[id := b.(buffer := b.buffer + missing)])
                && events == Shown(b, missing)
    {
      ghost var s := View();
      var b := blocks[i];
      TableHolds(blocks);
      assert id in s.table && s.table[id] == b;
      events := [];
      match b.kind {
        case Text =>
          LatchThenCall(s, id, BlockCall.AddText(missing));
          hide TouchBlock;
          events := this.Text(id, missing);
        case Reasoning =>
          LatchThenCall(s, id, BlockCall.AddReasoning(missing));
          hide TouchBlock;
          events := this.Reasoning(id, missing);
        case ToolCall(_, _, _) =>
          LatchThenCall(s, id, BlockCall.AddArguments(missing));
          hide TouchBlock;
          events := this.Arguments(id, missing);
        case Opaque(_) =>
      }
    }

    method Reconcile(id: BlockId, kind: BlockKind, content: string) returns (events: seq<Event>)
      requires Valid()
      modifies this
      ensures Valid() && Step(View(), events) == TouchBlock(old(View()), id, BlockCall.Reconcile(kind, content))
    {
      LatchThenCall(View(), id, BlockCall.Reconcile(kind, content));
      hide TouchBlock;
      events := OpenBlockWith(id, kind, false);
      var index := Find(id);
      assert View().table[id := View().table[id]] == View().table;
      var b := blocks[index.value];
      if !b.open || b.buffer == content {
        return;
      }
      if b.buffer <= content {
        var missing := content[|b.buffer|..];
        assert b.buffer + missing == content;
        var more := ShowMissing(id, index.value, missing);
        events := events + more;
        return;
      }
      if b.kind.Opaque? {
        return;
      }
      Update(index.value, b.(buffer := content));
    }

    method SetRedacted(id: BlockId) returns (events: seq<Event>)
      requires Valid()
      modifies this
      ensures Valid() && Step(View(), events) == TouchBlock(old(View()), id, BlockCall.SetRedacted)
    {
      LatchThenCall(View(), id, BlockCall.SetRedacted);
      hide TouchBlock;
      events := OpenBlockWith(id, BlockKind.Reasoning, false);
      var index := FindOpen(id);
      if index.None? {
        return;
      }
      Update(index.value, blocks[index.value].(redacted := true));
    }

    method SetOpaqueData(id: BlockId, data: Json) returns (events: seq<Event>)
      requires Valid()
      modifies this
      ensures Valid() && Step(View(), events) == TouchBlock(old(View()), id, BlockCall.SetOpaqueData(data))
    {
      LatchThenCall(View(), id, BlockCall.SetOpaqueData(data));
      hide TouchBlock;
      events := OpenBlockWith(id, BlockKind.Opaque(id), false);
      var index := FindOpen(id);
      if index.None? {
        return;
      }
      Update(index.value, blocks[index.value].(opaqueData := Some(data)));
    }

    method ProviderMetadata(id: BlockId, namespace: string, value: Json) returns (events: seq<Event>)
      requires Valid()
      modifies this
      ensures Valid() && Step(View(), events) == TouchBlock(old(View()), id, BlockCall.AddMetadata(namespace, value))
    {
      LatchThenCall(View(), id, BlockCall.AddMetadata(namespace, value));
      hide TouchBlock;
      events := OpenBlockWith(id, BlockKind.ToolCall(id, None, Function), false);
      var index := FindOpen(id);
      if index.None? {
        return;
      }
      var b := blocks[index.value];
      Update(index.value, b.(metadata := b.metadata[namespace := value]));
    }

    method End(id: BlockId) returns (events: seq<Event>)
      requires Valid()
      modifies this
      ensures Valid() && Step(View(), events) == TouchBlock(old(View()), id, BlockCall.End)
    {
      assert parts + [] == parts;
      var index := Find(id);
      if index.None? || !blocks[index.value].open {
        TableHolds(blocks);
        IgnoredCall(View(), id, BlockCall.End);
        return [];
      }
      EndingOpenBlock(View(), id);
      hide TouchBlock;
      var closed := blocks[index.value].(open := false);
      Update(index.value, closed);
      var part := closed.IntoPart();
      parts := parts + [part];
      events := [BlockEnd(id, part)];
    }

    method Discard(id: BlockId) returns (events: seq<Event>)
      requires Valid()
      modifies this
      ensures Valid() && Step(View(), events) == TouchBlock(old(View()), id, BlockCall.Discard)
    {
      assert parts + [] == parts;
      var index := Find(id);
      if index.None? || !blocks[index.value].open {
        TableHolds(blocks);
        IgnoredCall(View(), id, BlockCall.Discard);
        return [];
      }
      var i := index.value;
      var part := blocks[i].IntoPart();
      TableRemove(blocks, i);
      blocks := blocks[..i] + blocks[i + 1..];
      events := [BlockEnd(id, part)];
    }

    // -------------------------------------------------------------------------------------------
    // Stream-level calls
    // -------------------------------------------------------------------------------------------

    method Started(id: Option<string>) returns (event: Option<Event>)
      requires Valid()
      modifies this
      ensures Valid()
      ensures Step(View(), if event.Some? then [event.value] else []) == Take(old(View()), Begin(id))
    {
      if begun {
        return None;
      }
      begun := true;
      responseId := id;
      return Some(Event.Started(id));
    }

    method SetUsage(counts: TokenCounts) returns (event: Event)
      requires Valid()
      modifies this
      ensures Valid() && Step(View(), [event]) == Take(old(View()), Call.SetUsage(counts))
    {
      usage := counts;
      event := Usage(counts);
    }

    method MergeUsage(update: TokenCounts -> TokenCounts) returns (event: Event)
      requires Valid()
      modifies this
      ensures Valid() && Step(View(), [event]) == Take(old(View()), Call.MergeUsage(update))
    {
      usage := update(usage);
      event := Usage(usage);
    }

    method SetFinishReason(reason: FinishReason)
      requires Valid()
      modifies this
      ensures Valid() && Step(View(), []) == Take(old(View()), Call.SetFinishReason(reason))
    {
      finishReason := Some(reason);
    }

    method SetId(id: string)
      requires Valid()
      modifies this
      ensures Valid() && Step(View(), []) == Take(old(View()), Call.SetId(id))
    {
      responseId := Some(id);
    }

    method SetRaw(document: Json)
      requires Valid()
      modifies this
      ensures Valid() && Step(View(), []) == Take(old(View()), Call.SetRaw(document))
    {
      raw := Some(document);
    }

    method SetCost(micros: nat)
      requires Valid()
      modifies this
      ensures Valid() && Step(View(), []) == Take(old(View()), Call.SetCost(micros))
    {
      cost := Some(micros);
    }

    /** The ids of the open blocks, in the order they were opened. */
    method OpenBlockIds() returns (open: seq<BlockId>)
      requires Valid()
      ensures open == OpenIds(View(), View().order)
    {
      ghost var s := View();
      TableHolds(blocks);
      open := [];
      for k := 0 to |blocks|
        invariant open == OpenIds(s, s.order[..k])
      {
        OpenIdsSnoc(s, s.order[..k], blocks[k].id);
        assert s.order[..k + 1] == s.order[..k] + [blocks[k].id];
        if blocks[k].open {
          open := open + [blocks[k].id];
        }
      }
      assert s.order[..|blocks|] == s.order;
    }

    /** Ends each named block in turn. */
    method EndEach(ids: seq<BlockId>) returns (events: seq<Event>)
      requires Valid()
      modifies this
      ensures Valid() && Step(View(), events) == EndAll(old(View()), ids)
    {
      hide TouchBlock;
      events := [];
      for k := 0 to |ids|
        invariant Valid()
        invariant Step(View(), events) == EndAll(old(View()), ids[..k])
      {
        EndAllSnoc(old(View()), ids[..k], ids[k]);
        assert ids[..k + 1] == ids[..k] + [ids[k]];
        var ended := this.End(ids[k]);
        events := events + ended;
      }
      assert ids[..|ids|] == ids;
    }

    /** Closes every open block in the order they were opened, then ends the stream once. */
    method Complete() returns (events: seq<Event>)
      requires Valid()
      modifies this
      ensures Valid() && Step(View(), events) == Take(old(View()), Call.Complete)
    {
      if completed {
        return [];
      }
      hide EndAll;
      hide Suppress;
      var open := OpenBlockIds();
      completed := true;
      events := EndEach(open);
      var response := Response(provider, model, responseId, parts, [], finishReason.GetOr(Incomplete),
                               usage, cost, warnings, raw);
      response := Suppress(response);
      events := events + [Ended(response)];
    }

    // -------------------------------------------------------------------------------------------
    // Whole runs
    // -------------------------------------------------------------------------------------------

    /** One call, whatever it is. */
    method TakeCall(call: Call) returns (events: seq<Event>)
      requires Valid()
      modifies this
      ensures Valid() && Step(View(), events) == Take(old(View()), call)
    {
      events := [];
      match call
      case OnBlock(id, blockCall) => events := TouchWith(id, blockCall);
      case Begin(id) =>
        var event := Started(id);
        events := if event.Some? then [event.value] else [];
      case SetUsage(counts) =>
        var event := this.SetUsage(counts);
        events := [event];
      case MergeUsage(update) =>
        var event := this.MergeUsage(update);
        events := [event];
      case SetFinishReason(reason) => this.SetFinishReason(reason);
      case SetId(id) => this.SetId(id);
      case SetRaw(document) => this.SetRaw(document);
      case SetCost(micros) => this.SetCost(micros);
      case Complete => events := this.Complete();
    }

    /** One call on one block. */
    method TouchWith(id: BlockId, call: BlockCall) returns (events: seq<Event>)
      requires Valid()
      modifies this
      ensures Valid() && Step(View(), events) == TouchBlock(old(View()), id, call)
    {
      hide TouchBlock;
      events := [];
      match call
      case Start(kind) => events := this.Start(id, kind);
      case AddText(text) => events := this.Text(id, text);
      case AddReasoning(text) => events := this.Reasoning(id, text);
      case AddArguments(text) => events := this.Arguments(id, text);
      case Signature(signature) => events := this.Signature(id, signature);
      case RepairIdentity(kind) => RepairToolIdentity(id, kind);
      case Reconcile(kind, content) => events := this.Reconcile(id, kind, content);
      case SetRedacted => events := this.SetRedacted(id);
      case SetOpaqueData(data) => events := this.SetOpaqueData(id, data);
      case AddMetadata(namespace, value) => events := ProviderMetadata(id, namespace, value);
      case End => events := this.End(id);
      case Discard => events := this.Discard(id);
    }

    /** Any list of calls: the object's events and final state are those of the run the theorems are about. */
    method TakeAll(calls: seq<Call>) returns (events: seq<Event>)
      requires Valid()
      modifies this
      ensures Valid() && Step(View(), events) == Run(old(View()), calls)
    {
      hide Take;
      events := [];
      assert calls[..0] == [];
      for k := 0 to |calls|
        invariant Valid()
        invariant Step(View(), events) == Run(old(View()), calls[..k])
      {
        RunSnoc(old(View()), calls[..k], calls[k]);
        assert calls[..k + 1] == calls[..k] + [calls[k]];
        var more := TakeCall(calls[k]);
        events := events + more;
      }
      assert calls[..|calls|] == calls;
    }

    // -------------------------------------------------------------------------------------------
    // Queries
    // -------------------------------------------------------------------------------------------

    /** Whether an explicit start opened `id` as a tool call. */
    method AnnouncedToolCall(id: BlockId) returns (announced: bool)
      requires Valid()
      ensures announced <==> id in View().table && View().table[id].announced && View().table[id].kind.ToolCall?
    {
      var index := Find(id);
      announced := index.Some? && blocks[index.value].announced && blocks[index.value].kind.ToolCall?;
    }

    /** Whether any block, open or closed, is a tool call. */
    method HasToolCall() returns (found: bool)
      requires Valid()
      ensures found <==> exists id <- View().table :: View().table[id].kind.ToolCall?
    {
      for i := 0 to |blocks|
        invariant forall k :: 0 <= k < i ==> !blocks[k].kind.ToolCall?
      {
        if blocks[i].kind.ToolCall? {
          TableHolds(blocks);
          assert View().table[blocks[i].id].kind.ToolCall?;
          return true;
        }
      }
      TableHolds(blocks);
      forall id | id in View().table
        ensures !View().table[id].kind.ToolCall?
      {
        var k :| 0 <= k < |Ids(blocks)| && Ids(blocks)[k] == id;
        assert View().table[id] == blocks[k];
      }
      return false;
    }
  }

  lemma {:induction false} OpenIdsSnoc(s: Ledger, ids: seq<BlockId>, last: BlockId)
    ensures OpenIds(s, ids + [last]) == OpenIds(s, ids) + (if s.IsOpen(last) then [last] else [])
  {
    if ids == [] {
      assert [last][1..] == [];
      assert ids + [last] == [last];
    } else {
      assert (ids + [last])[1..] == ids[1..] + [last];
      OpenIdsSnoc(s, ids[1..], last);
    }
  }

  lemma {:induction false} EndAllSnoc(s: Ledger, ids: seq<BlockId>, last: BlockId)
    ensures var head := EndAll(s, ids);
            var tail := TouchBlock(head.ledger, last, BlockCall.End);
            EndAll(s, ids + [last]) == Step(tail.ledger, head.events + tail.events)
    decreases |ids|
  {
    hide TouchBlock;
    if ids == [] {
      assert [last][1..] == [];
      assert ids + [last] == [last];
      assert TouchBlock(s, last, BlockCall.End).events + [] == TouchBlock(s, last, BlockCall.End).events;
    } else {
      assert (ids + [last])[1..] == ids[1..] + [last];
      EndAllSnoc(TouchBlock(s, ids[0], BlockCall.End).ledger, ids[1..], last);
    }
  }
}

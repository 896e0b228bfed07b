/**
 * The stream assembler as a ledger of blocks keyed by id, and the step each call takes.
 *
 * `order` lists the known ids in the order they were opened. Lookups go through the map, so this
 * model has no notion of position; the class in StreamAssembler is proved against it.
 */
module AssemblerModel {
  import opened Wrappers
  import opened Sequences
  import opened StreamTypes
  import opened BlockMachine
  import opened BlockRuns

  datatype Ledger = Ledger(
    provider: string,
    model: string,
    signatures: Option<string>,
    order: seq<BlockId>,
    table: map<BlockId, Block>,
    parts: seq<Part>,
    usage: TokenCounts,
    finishReason: Option<FinishReason>,
    responseId: Option<string>,
    cost: Option<nat>,
    warnings: seq<Warning>,
    raw: Option<Json>,
    started: bool,
    completed: bool)
  {
    static function New(provider: string, model: string, signatures: Option<string>): Ledger {
      Ledger(provider, model, signatures, [], map[], [], TokenCounts(0, 0, 0, 0, 0),
             None, None, None, [], None, false, false)
    }

    function Lookup(id: BlockId): Option<Block> {
      if id in table then Some(table[id]) else None
    }

    predicate IsOpen(id: BlockId) {
      id in table && table[id].open
    }

    ghost predicate Valid() {
      && Distinct(order)
      && (forall id :: id in order <==> id in table)
      && (forall id <- table :: table[id].id == id)
    }
  }

  datatype Call =
    | OnBlock(id: BlockId, call: BlockCall)
    | Begin(responseId: Option<string>)
    | SetUsage(usage: TokenCounts)
    | MergeUsage(update: TokenCounts -> TokenCounts)
    | SetFinishReason(reason: FinishReason)
    | SetId(newId: string)
    | SetRaw(raw: Json)
    | SetCost(cost: nat)
    | Complete

  datatype Step = Step(ledger: Ledger, events: seq<Event>)

  /** `order` without the first occurrence of `id`. */
  function Without(order: seq<BlockId>, id: BlockId): seq<BlockId> {
    if order == [] then []
    else if order[0] == id then order[1..]
    else [order[0]] + Without(order[1..], id)
  }

  /** The ledger after one block's outcome. */
  function Record(s: Ledger, id: BlockId, r: Outcome): Ledger {
    match r.block
    case Some(b) =>
      s.(order := if id in s.table then s.order else s.order + [id],
         table := s.table[id := b],
         parts := s.parts + PartOf(r))
    case None =>
      s.(order := Without(s.order, id), table := s.table - {id}, parts := s.parts + PartOf(r))
  }

  function TouchBlock(s: Ledger, id: BlockId, call: BlockCall): Step {
    var r := CallBlock(id, s.signatures, s.Lookup(id), call);
    Step(Record(s, id, r), r.events)
  }

  function OpenIds(s: Ledger, order: seq<BlockId>): seq<BlockId> {
    if order == [] then []
    else (if s.IsOpen(order[0]) then [order[0]] else []) + OpenIds(s, order[1..])
  }

  /** Ends the blocks named in `ids`, in that order. */
  function EndAll(s: Ledger, ids: seq<BlockId>): Step
    decreases |ids|
  {
    if ids == [] then Step(s, [])
    else
      var first := TouchBlock(s, ids[0], End);
      var rest := EndAll(first.ledger, ids[1..]);
      Step(rest.ledger, first.events + rest.events)
  }

  /** The response an ended stream carries, before unfinished tool calls are withheld. */
  function Assembled(s: Ledger): Response {
    Response(s.provider, s.model, s.responseId, s.parts, [], s.finishReason.GetOr(Incomplete),
             s.usage, s.cost, s.warnings, s.raw)
  }

  function Finish(s: Ledger): Step {
    if s.completed then Step(s, [])
    else
      var closed := EndAll(s.(completed := true), OpenIds(s, s.order));
      Step(closed.ledger, closed.events + [Ended(Suppress(Assembled(closed.ledger)))])
  }

  function Take(s: Ledger, call: Call): Step {
    match call
    case OnBlock(id, blockCall) => TouchBlock(s, id, blockCall)
    case Begin(responseId) =>
      if s.started then Step(s, [])
      else Step(s.(started := true, responseId := responseId), [Started(responseId)])
    case SetUsage(usage) => Step(s.(usage := usage), [Usage(usage)])
    case MergeUsage(update) => Step(s.(usage := update(s.usage)), [Usage(update(s.usage))])
    case SetFinishReason(reason) => Step(s.(finishReason := Some(reason)), [])
    case SetId(id) => Step(s.(responseId := Some(id)), [])
    case SetRaw(raw) => Step(s.(raw := Some(raw)), [])
    case SetCost(cost) => Step(s.(cost := Some(cost)), [])
    case Complete => Finish(s)
  }

  function Run(s: Ledger, calls: seq<Call>): Step
    decreases |calls|
  {
    if calls == [] then Step(s, [])
    else
      var first := Take(s, calls[0]);
      var rest := Run(first.ledger, calls[1..]);
      Step(rest.ledger, first.events + rest.events)
  }

  /** A run of one more call is the run, then the call. */
  lemma {:induction false} RunSnoc(s: Ledger, calls: seq<Call>, last: Call)
    ensures var before := Run(s, calls);
            var done := Take(before.ledger, last);
            Run(s, calls + [last]) == Step(done.ledger, before.events + done.events)
    decreases |calls|
  {
    hide Take;
    if calls == [] {
      assert [last][1..] == [];
      assert calls + [last] == [last];
      assert Take(s, last).events + [] == Take(s, last).events;
    } else {
      assert (calls + [last])[1..] == calls[1..] + [last];
      RunSnoc(Take(s, calls[0]).ledger, calls[1..], last);
    }
  }

  // ---------------------------------------------------------------------------------------------
  // Every step keeps the ledger valid
  // ---------------------------------------------------------------------------------------------

  lemma {:induction false} WithoutRemoves(order: seq<BlockId>, id: BlockId)
    requires Distinct(order)
    ensures var rest := Without(order, id);
            && Distinct(rest)
            && (forall other :: other in rest <==> other in order && other != id)
  {
    if order != [] {
      var tail := order[1..];
      assert order == [order[0]] + tail;
      assert order[0] !in tail;
      if order[0] != id {
        WithoutRemoves(tail, id);
        assert forall other :: other in order <==> other == order[0] || other in tail;
      }
    }
  }

  lemma {:induction false} WithoutAt(ids: seq<BlockId>, i: nat)
    requires i < |ids| && Distinct(ids)
    ensures Without(ids, ids[i]) == ids[..i] + ids[i + 1..]
  {
    if i > 0 {
      WithoutAt(ids[1..], i - 1);
    }
  }

  lemma {:induction false} WithoutAbsent(order: seq<BlockId>, id: BlockId)
    requires id !in order
    ensures Without(order, id) == order
  {
    if order != [] {
      WithoutAbsent(order[1..], id);
    }
  }

  /** Repairs, ends and discards of an unknown or closed block change nothing. */
  lemma IgnoredCall(s: Ledger, id: BlockId, call: BlockCall)
    requires id in s.order ==> id in s.table
    requires !s.IsOpen(id) && LatchKind(id, call).None?
    ensures TouchBlock(s, id, call) == Step(s, [])
  {
    assert s.parts + [] == s.parts;
    if id in s.table {
      assert s.table[id := s.table[id]] == s.table;
    } else {
      WithoutAbsent(s.order, id);
      assert s.table - {id} == s.table;
    }
  }

  lemma BlockKeepsItsId(id: BlockId, origin: Option<string>, b: Option<Block>, call: BlockCall)
    requires b.Some? ==> b.value.id == id
    ensures var r := CallBlock(id, origin, b, call);
            && (r.block.Some? ==> r.block.value.id == id)
            && (forall event <- r.events :: event.About(id))
  {}

  /** What ending an open block does to the ledger. */
  lemma EndingOpenBlock(s: Ledger, id: BlockId)
    requires s.IsOpen(id) && s.table[id].id == id
    ensures var closed := s.table[id].(open := false);
            TouchBlock(s, id, End) ==
            Step(s.(table := s.table[id := closed], parts := s.parts + [closed.IntoPart()]),
                 [BlockEnd(id, closed.IntoPart())])
  {}

  lemma DistinctSnoc(order: seq<BlockId>, id: BlockId)
    requires Distinct(order) && id !in order
    ensures Distinct(order + [id])
    ensures forall other :: other in order + [id] <==> other in order || other == id
  {}

  lemma RecordTouchesOneBlock(s: Ledger, id: BlockId, r: Outcome)
    ensures var t := Record(s, id, r);
            && t == s.(order := t.order, table := t.table, parts := s.parts + PartOf(r))
            && t.Lookup(id) == r.block
            && (forall other :: other != id ==> t.Lookup(other) == s.Lookup(other))
  {
    hide Without, PartOf;
  }

  lemma RecordKeepsValid(s: Ledger, id: BlockId, r: Outcome)
    requires s.Valid() && (r.block.Some? ==> r.block.value.id == id)
    ensures Record(s, id, r).Valid()
  {
    hide Distinct, Without, PartOf;
    WithoutRemoves(s.order, id);
    if id !in s.table {
      DistinctSnoc(s.order, id);
    }
  }

  lemma TouchKeepsValid(s: Ledger, id: BlockId, call: BlockCall)
    requires s.Valid()
    ensures TouchBlock(s, id, call).ledger.Valid()
  {
    BlockKeepsItsId(id, s.signatures, s.Lookup(id), call);
    hide CallBlock, Record, Ledger.Valid;
    RecordKeepsValid(s, id, CallBlock(id, s.signatures, s.Lookup(id), call));
  }

  lemma {:induction false} EndAllKeepsValid(s: Ledger, ids: seq<BlockId>)
    requires s.Valid()
    ensures EndAll(s, ids).ledger.Valid()
    decreases |ids|
  {
    if ids != [] {
      TouchKeepsValid(s, ids[0], End);
      EndAllKeepsValid(TouchBlock(s, ids[0], End).ledger, ids[1..]);
    }
  }

  lemma TakeKeepsValid(s: Ledger, call: Call)
    requires s.Valid()
    ensures Take(s, call).ledger.Valid()
  {
    match call
    case OnBlock(id, blockCall) => TouchKeepsValid(s, id, blockCall);
    case Complete =>
      if !s.completed {
        EndAllKeepsValid(s.(completed := true), OpenIds(s, s.order));
      }
    case _ =>
  }

  lemma {:induction false} RunKeepsValid(s: Ledger, calls: seq<Call>)
    requires s.Valid()
    ensures Run(s, calls).ledger.Valid()
    decreases |calls|
  {
    if calls != [] {
      TakeKeepsValid(s, calls[0]);
      RunKeepsValid(Take(s, calls[0]).ledger, calls[1..]);
    }
  }
}

/**
 * Whole runs of the assembler: calls for different blocks never interfere, and each block's
 * events form start, delta and end groups.
 */
module AssemblerRuns {
  import opened Wrappers
  import opened Sequences
  import opened StreamTypes
  import opened BlockMachine
  import opened BlockRuns
  import opened AssemblerModel

  // ---------------------------------------------------------------------------------------------
  // Non-interference
  // ---------------------------------------------------------------------------------------------

  function EventsAbout(id: BlockId, events: seq<Event>): seq<Event> {
    if events == [] then []
    else (if events[0].About(id) then [events[0]] else []) + EventsAbout(id, events[1..])
  }

  lemma {:induction false} EventsAboutConcat(id: BlockId, first: seq<Event>, second: seq<Event>)
    ensures EventsAbout(id, first + second) == EventsAbout(id, first) + EventsAbout(id, second)
  {
    if first == [] {
      assert first + second == second;
    } else {
      var head := if first[0].About(id) then [first[0]] else [];
      HeadAndTail(first, second);
      EventsAboutConcat(id, first[1..], second);
      Associates(head, EventsAbout(id, first[1..]), EventsAbout(id, second));
    }
  }

  lemma {:induction false} EventsAboutAll(id: BlockId, events: seq<Event>)
    requires forall event <- events :: event.About(id)
    ensures EventsAbout(id, events) == events
  {
    if events != [] {
      EventsAboutAll(id, events[1..]);
    }
  }

  lemma {:induction false} EventsAboutNone(id: BlockId, other: BlockId, events: seq<Event>)
    requires id != other
    requires forall event <- events :: event.About(other)
    ensures EventsAbout(id, events) == []
  {
    if events != [] {
      assert events[0] in events;
      EventsAboutNone(id, other, events[1..]);
    }
  }

  /** One call of `touched`, as the block `id` sees it. */
  lemma TouchSeenBy(s: Ledger, touched: BlockId, call: BlockCall, id: BlockId)
    requires s.Valid()
    ensures var r := CallBlock(id, s.signatures, s.Lookup(id), call);
            var after := TouchBlock(s, touched, call);
            && after.ledger.signatures == s.signatures
            && after.ledger.completed == s.completed
            && (touched == id ==> after.ledger.Lookup(id) == r.block && EventsAbout(id, after.events) == r.events)
            && (touched != id ==> after.ledger.Lookup(id) == s.Lookup(id) && EventsAbout(id, after.events) == [])
  {
    BlockKeepsItsId(touched, s.signatures, s.Lookup(touched), call);
    RecordTouchesOneBlock(s, touched, CallBlock(touched, s.signatures, s.Lookup(touched), call));
    hide CallBlock, Record, Ledger.Valid;
    var events := TouchBlock(s, touched, call).events;
    if touched == id {
      EventsAboutAll(id, events);
    } else {
      EventsAboutNone(id, touched, events);
    }
  }

  lemma {:induction false} EndAllSeenBy(s: Ledger, ids: seq<BlockId>, id: BlockId)
    requires s.Valid() && Distinct(ids)
    ensures var r := CallBlock(id, s.signatures, s.Lookup(id), End);
            var after := EndAll(s, ids);
            && after.ledger.signatures == s.signatures
            && after.ledger.completed == s.completed
            && (id in ids ==> after.ledger.Lookup(id) == r.block && EventsAbout(id, after.events) == r.events)
            && (id !in ids ==> after.ledger.Lookup(id) == s.Lookup(id) && EventsAbout(id, after.events) == [])
    decreases |ids|
  {
    if ids != [] {
      hide CallBlock, TouchBlock;
      var first := TouchBlock(s, ids[0], End);
      TouchSeenBy(s, ids[0], End, id);
      TouchKeepsValid(s, ids[0], End);
      EndAllSeenBy(first.ledger, ids[1..], id);
      EventsAboutConcat(id, first.events, EndAll(first.ledger, ids[1..]).events);
      assert ids == [ids[0]] + ids[1..];
    }
  }

  lemma {:induction false} OpenIdsAre(s: Ledger, order: seq<BlockId>)
    requires Distinct(order)
    ensures Distinct(OpenIds(s, order))
    ensures forall id :: id in OpenIds(s, order) <==> id in order && s.IsOpen(id)
  {
    if order != [] {
      assert order == [order[0]] + order[1..];
      OpenIdsAre(s, order[1..]);
    }
  }

  /** The calls of a run that reach one block; the first completion reaches every block as an end. */
  function Project(calls: seq<Call>, id: BlockId, completed: bool): seq<BlockCall> {
    if calls == [] then []
    else
      var rest := Project(calls[1..], id, completed || calls[0].Complete?);
      match calls[0]
      case OnBlock(named, call) => if named == id then [call] + rest else rest
      case Complete => if completed then rest else [End] + rest
      case _ => rest
  }

  lemma TakeSeenBy(s: Ledger, call: Call, id: BlockId)
    requires s.Valid()
    ensures var after := Take(s, call);
            var local := RunBlock(id, s.signatures, s.Lookup(id), Project([call], id, s.completed));
            && after.ledger.signatures == s.signatures
            && after.ledger.completed == (s.completed || call.Complete?)
            && after.ledger.Lookup(id) == local.block
            && EventsAbout(id, after.events) == local.events
  {
    hide CallBlock;
    hide Finish;
    match call
    case OnBlock(named, blockCall) =>
      TouchSeenBy(s, named, blockCall, id);
      if named == id {
        RunOne(id, s.signatures, s.Lookup(id), blockCall);
      }
    case Complete =>
      FinishSeenBy(s, id);
      RunOne(id, s.signatures, s.Lookup(id), End);
    case _ =>
  }

  /** The first completion, as one block sees it, is an end of that block. */
  lemma FinishSeenBy(s: Ledger, id: BlockId)
    requires s.Valid()
    ensures var r := CallBlock(id, s.signatures, s.Lookup(id), End);
            var after := Finish(s);
            && after.ledger.signatures == s.signatures
            && after.ledger.completed
            && (s.completed ==> after == Step(s, []))
            && (!s.completed ==> after.ledger.Lookup(id) == r.block && EventsAbout(id, after.events) == r.events)
  {
    if !s.completed {
      EndOfClosedBlock(id, s.signatures, s.Lookup(id));
      hide CallBlock;
      var entered := s.(completed := true);
      var ids := OpenIds(s, s.order);
      OpenIdsAre(s, s.order);
      EndAllSeenBy(entered, ids, id);
      var closed := EndAll(entered, ids);
      EventsAboutConcat(id, closed.events, [Ended(Suppress(Assembled(closed.ledger)))]);
    }
  }

  lemma RunOne(id: BlockId, origin: Option<string>, b: Option<Block>, call: BlockCall)
    ensures var r := CallBlock(id, origin, b, call);
            RunBlock(id, origin, b, [call]) == Trail(r.block, r.events, PartOf(r))
  {}

  lemma EndOfClosedBlock(id: BlockId, origin: Option<string>, b: Option<Block>)
    ensures b.None? || !b.value.open ==> CallBlock(id, origin, b, End) == Outcome(b, [], None)
  {}

  lemma {:induction false} ProjectCons(calls: seq<Call>, id: BlockId, completed: bool)
    requires calls != []
    ensures Project(calls, id, completed) ==
            Project([calls[0]], id, completed) + Project(calls[1..], id, completed || calls[0].Complete?)
  {}

  /**
   * In any run, however the calls interleave, one block's events and its final state are exactly
   * those of the calls that name it, taken alone.
   */
  lemma {:induction false} BlocksDoNotInterfere(s: Ledger, calls: seq<Call>, id: BlockId)
    requires s.Valid()
    ensures var all := Run(s, calls);
            var alone := RunBlock(id, s.signatures, s.Lookup(id), Project(calls, id, s.completed));
            && all.ledger.Lookup(id) == alone.block
            && EventsAbout(id, all.events) == alone.events
    decreases |calls|
  {
    if calls != [] {
      hide CallBlock;
      hide Take;
      var first := Take(s, calls[0]);
      TakeSeenBy(s, calls[0], id);
      TakeKeepsValid(s, calls[0]);
      BlocksDoNotInterfere(first.ledger, calls[1..], id);
      EventsAboutConcat(id, first.events, Run(first.ledger, calls[1..]).events);
      ProjectCons(calls, id, s.completed);
      RunBlockConcat(id, s.signatures, s.Lookup(id), Project([calls[0]], id, s.completed),
                     Project(calls[1..], id, first.ledger.completed));
    }
  }

  // ---------------------------------------------------------------------------------------------
  // Start, delta and end groups
  // ---------------------------------------------------------------------------------------------

  /** A reader of one block's events: between groups, inside one, or at a broken rule. */
  datatype Group = Between | Inside(kind: BlockKind) | Broken

  function ReadEvent(group: Group, event: Event): Group {
    match group
    case Broken => Broken
    case Between => if event.BlockStart? then Inside(event.kind) else Broken
    case Inside(kind) =>
      if event.BlockEnd? then Between
      else if event.IsDelta() && Matches(event.DeltaShape(), kind) then group
      else Broken
  }

  function Read(group: Group, events: seq<Event>): Group
    decreases |events|
  {
    if events == [] then group else Read(ReadEvent(group, events[0]), events[1..])
  }

  predicate Reads(group: Group, b: Option<Block>) {
    if b.Some? && b.value.open then group.Inside? && SameShape(group.kind, b.value.kind)
    else group.Between?
  }

  lemma {:induction false} ReadConcat(group: Group, first: seq<Event>, second: seq<Event>)
    ensures Read(group, first + second) == Read(Read(group, first), second)
    decreases |first|
  {
    if first == [] {
      assert first + second == second;
    } else {
      assert (first + second)[1..] == first[1..] + second;
      ReadConcat(ReadEvent(group, first[0]), first[1..], second);
    }
  }

  lemma OpenCallReads(group: Group, b: Block, call: BlockCall)
    requires b.open && Reads(group, Some(b))
    ensures var r := CallOpen(b, call); Reads(Read(group, r.events), r.block)
  {}

  lemma CallReads(group: Group, id: BlockId, origin: Option<string>, b: Option<Block>, call: BlockCall)
    requires Reads(group, b)
    ensures var r := CallBlock(id, origin, b, call); Reads(Read(group, r.events), r.block)
  {
    match b
    case Some(block) =>
      if block.open {
        OpenCallReads(group, block, call);
      }
    case None =>
      if LatchKind(id, call).Some? {
        var kind := LatchKind(id, call).value;
        var newborn := Block.New(id, kind, origin, call.Start?);
        OpenCallReads(Inside(kind), newborn, call);
        var tail := CallOpen(newborn, call).events;
        assert ([BlockStart(id, kind)] + tail)[1..] == tail;
      }
  }

  lemma {:induction false} RunBlockReads(
    group: Group, id: BlockId, origin: Option<string>, b: Option<Block>, calls: seq<BlockCall>)
    requires Reads(group, b)
    ensures var r := RunBlock(id, origin, b, calls); Reads(Read(group, r.events), r.block)
    decreases |calls|
  {
    if calls != [] {
      hide CallBlock;
      var first := CallBlock(id, origin, b, calls[0]);
      CallReads(group, id, origin, b, calls[0]);
      RunBlockReads(Read(group, first.events), id, origin, first.block, calls[1..]);
      ReadConcat(group, first.events, RunBlock(id, origin, first.block, calls[1..]).events);
    }
  }

  /**
   * For every run from a new assembler, the events of every block form groups of one start, deltas
   * of that start's kind, and one end; only the last group may be unfinished, and it is unfinished
   * exactly when the block is open.
   */
  lemma EventsFormGroups(provider: string, model: string, signatures: Option<string>, calls: seq<Call>, id: BlockId)
    ensures var all := Run(Ledger.New(provider, model, signatures), calls);
            Reads(Read(Between, EventsAbout(id, all.events)), all.ledger.Lookup(id))
  {
    var s := Ledger.New(provider, model, signatures);
    BlocksDoNotInterfere(s, calls, id);
    RunBlockReads(Between, id, signatures, None, Project(calls, id, false));
  }

  function CountStarts(events: seq<Event>): nat {
    if events == [] then 0 else (if events[0].BlockStart? then 1 else 0) + CountStarts(events[1..])
  }

  function CountEnds(events: seq<Event>): nat {
    if events == [] then 0 else (if events[0].BlockEnd? then 1 else 0) + CountEnds(events[1..])
  }

  lemma {:induction false} CountsConcat(first: seq<Event>, second: seq<Event>)
    ensures CountStarts(first + second) == CountStarts(first) + CountStarts(second)
    ensures CountEnds(first + second) == CountEnds(first) + CountEnds(second)
  {
    if first == [] {
      assert first + second == second;
    } else {
      assert (first + second)[1..] == first[1..] + second;
      CountsConcat(first[1..], second);
    }
  }

  lemma CallCounts(id: BlockId, origin: Option<string>, b: Option<Block>, call: BlockCall)
    requires call != Discard
    ensures var r := CallBlock(id, origin, b, call);
            && CountStarts(r.events) == (if b.None? && r.block.Some? then 1 else 0)
            && CountEnds(r.events) == (if b.Some? && b.value.open && call.End? then 1 else 0)
            && (b.Some? ==> r.block.Some?)
            && (r.block.Some? && !r.block.value.open ==> b.Some? && (call.End? || !b.value.open))
            && (r.block.Some? && r.block.value.open ==> b.None? || (b.value.open && !call.End?))
  {
    match b
    case Some(block) =>
      if block.open {
        OpenCallCounts(block, call);
      }
    case None =>
      if LatchKind(id, call).Some? {
        var kind := LatchKind(id, call).value;
        var newborn := Block.New(id, kind, origin, call.Start?);
        OpenCallCounts(newborn, call);
        hide CallOpen;
        CountsConcat([BlockStart(id, kind)], CallOpen(newborn, call).events);
        assert [BlockStart(id, kind)][1..] == [];
      }
  }

  lemma OpenCallCounts(b: Block, call: BlockCall)
    requires b.open && call != Discard
    ensures var r := CallOpen(b, call);
            && CountStarts(r.events) == 0
            && CountEnds(r.events) == (if call.End? then 1 else 0)
            && r.block.Some? && r.block.value.open == !call.End?
  {
    hide Block.IntoPart;
  }

  lemma {:induction false} RunBlockCounts(id: BlockId, origin: Option<string>, b: Option<Block>, calls: seq<BlockCall>)
    requires Discard !in calls
    ensures var r := RunBlock(id, origin, b, calls);
            && CountStarts(r.events) == (if b.None? && r.block.Some? then 1 else 0)
            && CountEnds(r.events) == (if r.block.Some? && !r.block.value.open && (b.None? || b.value.open) then 1 else 0)
            && (b.Some? ==> r.block.Some?)
            && (b.Some? && !b.value.open ==> r.block == b)
    decreases |calls|
  {
    if calls != [] {
      var first := CallBlock(id, origin, b, calls[0]);
      assert b.Some? && !b.value.open ==> first.block == b;
      hide CallBlock;
      CallCounts(id, origin, b, calls[0]);
      RunBlockCounts(id, origin, first.block, calls[1..]);
      CountsConcat(first.events, RunBlock(id, origin, first.block, calls[1..]).events);
    }
  }

  lemma {:induction false} ProjectDiscards(calls: seq<Call>, id: BlockId, completed: bool)
    requires OnBlock(id, Discard) !in calls
    ensures Discard !in Project(calls, id, completed)
  {
    if calls != [] {
      ProjectDiscards(calls[1..], id, completed || calls[0].Complete?);
      assert calls[0] in calls;
    }
  }

  /**
   * A block that is never discarded starts at most once and ends at most once in any run, however
   * often the provider repeats itself: once each, exactly when it is known and when it is closed.
   */
  lemma OneStartOneEnd(provider: string, model: string, signatures: Option<string>, calls: seq<Call>, id: BlockId)
    requires OnBlock(id, Discard) !in calls
    ensures var all := Run(Ledger.New(provider, model, signatures), calls);
            var events := EventsAbout(id, all.events);
            && CountStarts(events) == (if all.ledger.Lookup(id).Some? then 1 else 0)
            && CountEnds(events) == (if all.ledger.Lookup(id).Some? && !all.ledger.IsOpen(id) then 1 else 0)
  {
    BlocksDoNotInterfere(Ledger.New(provider, model, signatures), calls, id);
    ProjectDiscards(calls, id, false);
    RunBlockCounts(id, signatures, None, Project(calls, id, false));
  }
}

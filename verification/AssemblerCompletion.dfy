/**
 * What completion delivers: the response content is the parts of the blocks that ended, in the
 * order of their end events, each block once, and nothing follows on a known block.
 */
module AssemblerCompletion {
  import opened Wrappers
  import opened Sequences
  import opened StreamTypes
  import opened BlockMachine
  import opened BlockRuns
  import opened AssemblerModel
  import opened AssemblerRuns

  /** One end event that counts: the block and the part it carried. */
  datatype Entry = Entry(id: BlockId, part: Part)

  function Ends(events: seq<Event>): seq<Entry> {
    if events == [] then []
    else (if events[0].BlockEnd? then [Entry(events[0].id, events[0].part)] else []) + Ends(events[1..])
  }

  lemma {:induction false} EndsConcat(first: seq<Event>, second: seq<Event>)
    ensures Ends(first + second) == Ends(first) + Ends(second)
  {
    if first == [] {
      assert first + second == second;
    } else {
      var head := if first[0].BlockEnd? then [Entry(first[0].id, first[0].part)] else [];
      HeadAndTail(first, second);
      EndsConcat(first[1..], second);
      Associates(head, Ends(first[1..]), Ends(second));
    }
  }

  /** The end events of one step, unless the call discards its block. */
  function Kept(call: Call, events: seq<Event>): seq<Entry> {
    if call.OnBlock? && call.call.Discard? then [] else Ends(events)
  }

  /** The end events of a run in event order, leaving out discarded blocks. */
  function KeptEnds(s: Ledger, calls: seq<Call>): seq<Entry>
    decreases |calls|
  {
    if calls == [] then []
    else
      var first := Take(s, calls[0]);
      Kept(calls[0], first.events) + KeptEnds(first.ledger, calls[1..])
  }

  function Parts(log: seq<Entry>): seq<Part> {
    seq(|log|, i requires 0 <= i < |log| => log[i].part)
  }

  predicate Logged(log: seq<Entry>, id: BlockId) {
    exists k :: 0 <= k < |log| && log[k].id == id
  }

  /** The log names every closed block once, with its part, and the ledger's parts are the log's. */
  ghost predicate Accounted(s: Ledger, log: seq<Entry>) {
    && s.Valid()
    && (forall i, j :: 0 <= i < j < |log| ==> log[i].id != log[j].id)
    && (forall id :: Logged(log, id) <==> id in s.table && !s.table[id].open)
    && (forall k :: 0 <= k < |log| ==> log[k].id in s.table && log[k].part == s.table[log[k].id].IntoPart())
    && s.parts == Parts(log)
  }

  /** What one call can do to a block, as far as closing is concerned. */
  lemma CallCloses(id: BlockId, origin: Option<string>, b: Option<Block>, call: BlockCall)
    requires b.Some? ==> b.value.id == id
    ensures var r := CallBlock(id, origin, b, call);
            && (b.Some? && !b.value.open ==> r == Outcome(b, [], None))
            && (b.Some? && b.value.open && call.End? ==>
                  r.block == Some(b.value.(open := false))
                  && r.part == Some(r.block.value.IntoPart()) && r.events == [BlockEnd(id, r.part.value)])
            && (b.Some? && b.value.open && call.Discard? ==> r.block.None? && r.part.None?)
            && (b.None? && (call.End? || call.Discard?) ==> r == Outcome(None, [], None))
            && (!call.End? && !call.Discard? ==>
                  r.part.None? && Ends(r.events) == [] && (r.block.Some? ==> r.block.value.open || b == r.block)
                  && (b.Some? ==> r.block.Some?))
  {
    hide CallOpen, Block.IntoPart;
    match b
    case Some(block) =>
      if block.open {
        OpenCallCloses(block, call);
      }
    case None =>
      if LatchKind(id, call).Some? {
        var kind := LatchKind(id, call).value;
        var newborn := Block.New(id, kind, origin, call.Start?);
        OpenCallCloses(newborn, call);
        EndsConcat([BlockStart(id, kind)], CallOpen(newborn, call).events);
      }
  }

  lemma OpenCallCloses(b: Block, call: BlockCall)
    requires b.open
    ensures var r := CallOpen(b, call);
            var closed := b.(open := false);
            && (call.End? ==> r == Outcome(Some(closed), [BlockEnd(b.id, closed.IntoPart())], Some(closed.IntoPart())))
            && (call.Discard? ==> r.block.None? && r.part.None?)
            && (!call.End? && !call.Discard? ==>
                  r.part.None? && Ends(r.events) == [] && r.block.Some? && r.block.value.open)
  {
    hide Block.IntoPart;
  }

  lemma LogGrows(log: seq<Entry>, entry: Entry)
    ensures Parts(log + [entry]) == Parts(log) + [entry.part]
    ensures forall id :: Logged(log + [entry], id) <==> Logged(log, id) || id == entry.id
  {
    var grown := log + [entry];
    forall id | Logged(log, id) || id == entry.id
      ensures Logged(grown, id)
    {
      if Logged(log, id) {
        var k :| 0 <= k < |log| && log[k].id == id;
        assert grown[k].id == id;
      } else {
        assert grown[|log|].id == id;
      }
    }
  }

  /** Closing an open block adds its part and its log entry together. */
  lemma ClosingAccounts(s: Ledger, log: seq<Entry>, id: BlockId, t: Ledger)
    requires Accounted(s, log) && s.IsOpen(id) && t.Valid()
    requires t.table == s.table[id := s.table[id].(open := false)]
    requires t.parts == s.parts + [t.table[id].IntoPart()]
    ensures Accounted(t, log + [Entry(id, t.table[id].IntoPart())])
  {
    LogGrows(log, Entry(id, t.table[id].IntoPart()));
    assert !Logged(log, id);
    assert forall k :: 0 <= k < |log| ==> Logged(log, log[k].id);
  }

  /** A step that closes nothing keeps the log. */
  lemma OtherStepAccounts(s: Ledger, log: seq<Entry>, id: BlockId, t: Ledger)
    requires Accounted(s, log) && t.Valid() && t.parts == s.parts
    requires forall other :: other != id ==> t.Lookup(other) == s.Lookup(other)
    requires t.Lookup(id) == s.Lookup(id) ||
             ((s.Lookup(id).None? || s.IsOpen(id)) && (t.Lookup(id).None? || t.IsOpen(id)))
    ensures Accounted(t, log)
  {
    assert forall k :: 0 <= k < |log| ==> Logged(log, log[k].id);
    forall other
      ensures Logged(log, other) <==> other in t.table && !t.table[other].open
    {
      assert t.Lookup(other) == s.Lookup(other) || other == id;
    }
    forall k | 0 <= k < |log|
      ensures log[k].id in t.table && log[k].part == t.table[log[k].id].IntoPart()
    {
      assert t.Lookup(log[k].id) == s.Lookup(log[k].id);
    }
  }

  lemma TouchWithoutEnd(s: Ledger, id: BlockId, call: BlockCall)
    requires s.Valid() && !(s.IsOpen(id) && call.End?)
    ensures var after := TouchBlock(s, id, call);
            && after.ledger.parts == s.parts
            && (forall other :: other != id ==> after.ledger.Lookup(other) == s.Lookup(other))
            && (after.ledger.Lookup(id) == s.Lookup(id) ||
                ((s.Lookup(id).None? || s.IsOpen(id)) && (after.ledger.Lookup(id).None? || after.ledger.IsOpen(id))))
            && Kept(OnBlock(id, call), after.events) == []
  {
    CallCloses(id, s.signatures, s.Lookup(id), call);
    RecordTouchesOneBlock(s, id, CallBlock(id, s.signatures, s.Lookup(id), call));
    hide CallBlock, Record, Block.IntoPart, Ledger.Valid;
    assert s.parts + [] == s.parts;
  }

  lemma TouchAccounts(s: Ledger, log: seq<Entry>, id: BlockId, call: BlockCall)
    requires Accounted(s, log)
    ensures var after := TouchBlock(s, id, call);
            Accounted(after.ledger, log + Kept(OnBlock(id, call), after.events))
  {
    TouchKeepsValid(s, id, call);
    var after := TouchBlock(s, id, call);
    if s.IsOpen(id) && call.End? {
      EndingOpenBlock(s, id);
      hide TouchBlock;
      ClosingAccounts(s, log, id, after.ledger);
      assert Ends(after.events) == [Entry(id, after.ledger.table[id].IntoPart())];
    } else {
      TouchWithoutEnd(s, id, call);
      hide TouchBlock;
      assert log + [] == log;
      OtherStepAccounts(s, log, id, after.ledger);
    }
  }

  lemma {:induction false} EndAllAccounts(s: Ledger, log: seq<Entry>, ids: seq<BlockId>)
    requires Accounted(s, log)
    ensures var after := EndAll(s, ids); Accounted(after.ledger, log + Ends(after.events))
    decreases |ids|
  {
    hide TouchBlock;
    hide Accounted;
    if ids == [] {
      assert log + [] == log;
    } else {
      var first := TouchBlock(s, ids[0], End);
      TouchAccounts(s, log, ids[0], End);
      var rest := EndAll(first.ledger, ids[1..]);
      EndAllAccounts(first.ledger, log + Ends(first.events), ids[1..]);
      EndsConcat(first.events, rest.events);
      assert log + (Ends(first.events) + Ends(rest.events)) == log + Ends(first.events) + Ends(rest.events);
    }
  }

  lemma FinishAccounts(s: Ledger, log: seq<Entry>)
    requires Accounted(s, log)
    ensures var after := Finish(s); Accounted(after.ledger, log + Ends(after.events))
  {
    if s.completed {
      assert log + [] == log;
    } else {
      var entered := s.(completed := true);
      assert Accounted(entered, log);
      var ids := OpenIds(s, s.order);
      EndAllAccounts(entered, log, ids);
      var closed := EndAll(entered, ids);
      EndsConcat(closed.events, [Ended(Suppress(Assembled(closed.ledger)))]);
      assert Ends([Ended(Suppress(Assembled(closed.ledger)))]) == [];
      assert Ends(closed.events) + [] == Ends(closed.events);
    }
  }

  lemma TakeAccounts(s: Ledger, log: seq<Entry>, call: Call)
    requires Accounted(s, log)
    ensures var after := Take(s, call);
            Accounted(after.ledger, log + Kept(call, after.events))
  {
    match call
    case OnBlock(id, blockCall) => TouchAccounts(s, log, id, blockCall);
    case Complete => FinishAccounts(s, log);
    case _ =>
      assert |Take(s, call).events| <= 1;
      assert Ends(Take(s, call).events) == [];
      assert log + [] == log;
  }

  /**
   * Conservation: after any run, the assembled parts are the parts of the kept end events in event
   * order, and those events name every closed block exactly once.
   */
  lemma {:induction false} RunAccounts(s: Ledger, log: seq<Entry>, calls: seq<Call>)
    requires Accounted(s, log)
    ensures Accounted(Run(s, calls).ledger, log + KeptEnds(s, calls))
    decreases |calls|
  {
    hide Take;
    hide Accounted;
    if calls == [] {
      assert log + [] == log;
    } else {
      TakeAccounts(s, log, calls[0]);
      var first := Take(s, calls[0]);
      var kept := Kept(calls[0], first.events);
      RunAccounts(first.ledger, log + kept, calls[1..]);
      assert log + (kept + KeptEnds(first.ledger, calls[1..])) == log + kept + KeptEnds(first.ledger, calls[1..]);
    }
  }

  lemma NewIsAccounted(provider: string, model: string, signatures: Option<string>)
    ensures Accounted(Ledger.New(provider, model, signatures), [])
  {}

  lemma EndTouchesOneBlock(s: Ledger, id: BlockId)
    requires s.Valid() && id in s.table
    ensures var after := TouchBlock(s, id, End).ledger;
            && after.table.Keys == s.table.Keys && !after.IsOpen(id)
            && (forall other :: other != id ==> after.Lookup(other) == s.Lookup(other))
            && after == s.(table := after.table, parts := after.parts)
  {}

  lemma {:induction false} EndAllClosesAll(s: Ledger, ids: seq<BlockId>)
    requires s.Valid() && (forall id <- ids :: id in s.table)
    ensures var after := EndAll(s, ids).ledger;
            && after.table.Keys == s.table.Keys
            && (forall id <- ids :: !after.IsOpen(id))
            && (forall id :: !s.IsOpen(id) ==> !after.IsOpen(id))
            && after == s.(table := after.table, parts := after.parts)
    decreases |ids|
  {
    if ids != [] {
      hide TouchBlock, Ledger.Valid;
      assert ids == [ids[0]] + ids[1..];
      EndTouchesOneBlock(s, ids[0]);
      var first := TouchBlock(s, ids[0], End).ledger;
      TouchKeepsValid(s, ids[0], End);
      EndAllClosesAll(first, ids[1..]);
      forall id | !s.IsOpen(id)
        ensures !first.IsOpen(id)
      {
        assert id != ids[0] ==> first.Lookup(id) == s.Lookup(id);
      }
    }
  }

  lemma FinishClosesAll(s: Ledger)
    requires s.Valid() && !s.completed
    ensures var done := Finish(s);
            && (forall id :: !done.ledger.IsOpen(id))
            && done.ledger.table.Keys == s.table.Keys
            && done.events != []
            && done.events[|done.events| - 1] == Ended(Suppress(Assembled(s).(content := done.ledger.parts)))
            && Finish(done.ledger) == Step(done.ledger, [])
  {
    var entered := s.(completed := true);
    var ids := OpenIds(s, s.order);
    OpenIdsAre(s, s.order);
    EndAllClosesAll(entered, ids);
    var closed := EndAll(entered, ids);
    hide EndAll;
    hide OpenIds;
    forall id
      ensures !closed.ledger.IsOpen(id)
    {
      if s.IsOpen(id) {
        assert id in ids;
      } else {
        assert !entered.IsOpen(id);
      }
    }
    assert Assembled(closed.ledger) == Assembled(s).(content := closed.ledger.parts);
  }

  /**
   * The first completion of any run from a new assembler closes every block and ends the stream
   * with one event, whose response carries exactly the parts of the blocks that ended and were not
   * discarded, one part a block, in the order of their end events, before unfinished tool calls
   * are withheld. A second completion does nothing.
   */
  lemma CompletionConservesBlocks(provider: string, model: string, signatures: Option<string>, calls: seq<Call>)
    requires Complete !in calls
    ensures var s := Ledger.New(provider, model, signatures);
            var before := Run(s, calls).ledger;
            var done := Finish(before);
            var log := KeptEnds(s, calls + [Complete]);
            && Run(s, calls + [Complete]) == Step(done.ledger, Run(s, calls).events + done.events)
            && (forall id :: !done.ledger.IsOpen(id))
            && done.events != []
            && done.events[|done.events| - 1] == Ended(Suppress(Assembled(before).(content := Parts(log))))
            && (forall i, j :: 0 <= i < j < |log| ==> log[i].id != log[j].id)
            && (forall id :: Logged(log, id) <==> id in before.table)
            && Finish(done.ledger) == Step(done.ledger, [])
  {
    hide Finish;
    var s := Ledger.New(provider, model, signatures);
    var before := Run(s, calls).ledger;
    RunKeepsValid(s, calls);
    RunNotCompleted(s, calls);
    RunSnoc(s, calls, Complete);
    FinishClosesAll(before);
    NewIsAccounted(provider, model, signatures);
    RunAccounts(s, [], calls + [Complete]);
    var log := KeptEnds(s, calls + [Complete]);
    assert [] + log == log;
    assert Take(before, Complete) == Finish(before);
    hide Run, Take, KeptEnds, Ledger.Valid, Accounted, Parts, Suppress;
    AllClosedIsAllLogged(Finish(before).ledger, log);
  }

  /** Once every block is closed, the log names every block. */
  lemma AllClosedIsAllLogged(s: Ledger, log: seq<Entry>)
    requires Accounted(s, log) && forall id :: !s.IsOpen(id)
    ensures s.parts == Parts(log)
    ensures forall i, j :: 0 <= i < j < |log| ==> log[i].id != log[j].id
    ensures forall id :: Logged(log, id) <==> id in s.table
  {
    forall id
      ensures Logged(log, id) <==> id in s.table
    {
      assert !s.IsOpen(id);
    }
  }

  lemma TakeCompletes(s: Ledger, call: Call)
    requires s.Valid()
    ensures Take(s, call).ledger.completed == (s.completed || call.Complete?)
  {
    TakeSeenBy(s, call, "");
  }

  lemma {:induction false} RunNotCompleted(s: Ledger, calls: seq<Call>)
    requires s.Valid()
    ensures Run(s, calls).ledger.completed == (s.completed || Complete in calls)
    decreases |calls|
  {
    if calls != [] {
      hide Take, Ledger.Valid;
      TakeCompletes(s, calls[0]);
      TakeKeepsValid(s, calls[0]);
      RunNotCompleted(Take(s, calls[0]).ledger, calls[1..]);
      assert calls == [calls[0]] + calls[1..];
    }
  }

  function CountEnded(events: seq<Event>): nat {
    if events == [] then 0 else (if events[0].Ended? then 1 else 0) + CountEnded(events[1..])
  }

  lemma {:induction false} CountEndedConcat(first: seq<Event>, second: seq<Event>)
    ensures CountEnded(first + second) == CountEnded(first) + CountEnded(second)
  {
    if first == [] {
      assert first + second == second;
    } else {
      assert (first + second)[1..] == first[1..] + second;
      CountEndedConcat(first[1..], second);
    }
  }

  lemma {:induction false} BlockEventsAreNotTerminal(id: BlockId, events: seq<Event>)
    requires forall event <- events :: event.About(id)
    ensures CountEnded(events) == 0
  {
    if events != [] {
      assert events[0] in events;
      BlockEventsAreNotTerminal(id, events[1..]);
    }
  }

  lemma {:induction false} EndAllIsNotTerminal(s: Ledger, ids: seq<BlockId>)
    requires s.Valid()
    ensures CountEnded(EndAll(s, ids).events) == 0
    decreases |ids|
  {
    if ids != [] {
      var first := TouchBlock(s, ids[0], End);
      BlockKeepsItsId(ids[0], s.signatures, s.Lookup(ids[0]), End);
      BlockEventsAreNotTerminal(ids[0], first.events);
      TouchKeepsValid(s, ids[0], End);
      hide CallBlock;
      EndAllIsNotTerminal(first.ledger, ids[1..]);
      CountEndedConcat(first.events, EndAll(first.ledger, ids[1..]).events);
    }
  }

  lemma TakeIsTerminal(s: Ledger, call: Call)
    requires s.Valid()
    ensures CountEnded(Take(s, call).events) == (if !s.completed && call.Complete? then 1 else 0)
  {
    match call
    case OnBlock(id, blockCall) =>
      BlockKeepsItsId(id, s.signatures, s.Lookup(id), blockCall);
      hide CallBlock;
      BlockEventsAreNotTerminal(id, TouchBlock(s, id, blockCall).events);
    case Complete =>
      if !s.completed {
        var entered := s.(completed := true);
        var closed := EndAll(entered, OpenIds(s, s.order));
        EndAllIsNotTerminal(entered, OpenIds(s, s.order));
        hide EndAll, Suppress;
        CountEndedConcat(closed.events, [Ended(Suppress(Assembled(closed.ledger)))]);
      }
    case _ =>
  }

  /** Any run ends the stream once if it completes and never otherwise, whatever else it calls. */
  lemma {:induction false} AtMostOneTerminal(s: Ledger, calls: seq<Call>)
    requires s.Valid()
    ensures CountEnded(Run(s, calls).events) == (if !s.completed && Complete in calls then 1 else 0)
    decreases |calls|
  {
    if calls != [] {
      hide Take, Ledger.Valid;
      var first := Take(s, calls[0]);
      TakeKeepsValid(s, calls[0]);
      TakeCompletes(s, calls[0]);
      TakeIsTerminal(s, calls[0]);
      AtMostOneTerminal(first.ledger, calls[1..]);
      CountEndedConcat(first.events, Run(first.ledger, calls[1..]).events);
      assert calls == [calls[0]] + calls[1..];
    }
  }

  /** A closed block answers no call: nothing is emitted and nothing changes. */
  lemma ClosedBlockIsSilent(s: Ledger, id: BlockId, call: BlockCall)
    requires s.Valid() && id in s.table && !s.IsOpen(id)
    ensures Take(s, OnBlock(id, call)) == Step(s, [])
  {}

  lemma {:induction false} ClosedBlockStaysSilent(id: BlockId, origin: Option<string>, b: Block, calls: seq<BlockCall>)
    requires !b.open
    ensures RunBlock(id, origin, Some(b), calls) == Trail(Some(b), [], [])
    decreases |calls|
  {
    if calls != [] {
      ClosedBlockStaysSilent(id, origin, b, calls[1..]);
    }
  }

  /**
   * After completion, no later run, however long and whatever it calls, emits anything about a block
   * the assembler knew then or changes that block.
   */
  lemma KnownBlocksAreSilentAfterCompletion(
    provider: string, model: string, signatures: Option<string>, calls: seq<Call>, id: BlockId, later: seq<Call>)
    requires Complete !in calls
    ensures var s := Run(Ledger.New(provider, model, signatures), calls + [Complete]).ledger;
            id in s.table ==>
              && EventsAbout(id, Run(s, later).events) == []
              && Run(s, later).ledger.Lookup(id) == s.Lookup(id)
  {
    var start := Ledger.New(provider, model, signatures);
    CompletionConservesBlocks(provider, model, signatures, calls);
    RunKeepsValid(start, calls + [Complete]);
    var s := Run(start, calls + [Complete]).ledger;
    hide Run;
    if id in s.table {
      assert !s.IsOpen(id);
      BlocksDoNotInterfere(s, later, id);
      ClosedBlockStaysSilent(id, s.signatures, s.table[id], Project(later, id, s.completed));
    }
  }
}

/**
 * When a run of the assembler satisfies the documented stream contract, as judged by the
 * independent scanner of StreamContract.
 *
 * The assembler itself does not keep two rules: an id whose block was discarded can be grown
 * again, and a call after completion can still emit. Both are decided before the call from what
 * the assembler knows and the ids discarded so far, and they are the only ways to break a rule.
 */
module AssemblerContract {
  import opened Wrappers
  import opened StreamTypes
  import opened StreamContract
  import opened BlockMachine
  import opened BlockRuns
  import opened AssemblerModel
  import opened AssemblerRuns
  import opened AssemblerCompletion

  /** A call a careful codec may make: it emits nothing late and reopens no discarded id. */
  predicate Allowed(s: Ledger, gone: set<BlockId>, call: Call) {
    match call
    case OnBlock(id, blockCall) =>
      id in s.table || LatchKind(id, blockCall).None? || (!s.completed && id !in gone)
    case Begin(_) => s.started || !s.completed
    case SetUsage(_) | MergeUsage(_) => !s.completed
    case _ => true
  }

  /** The ids discarded once `call` was made. */
  function GoneAfter(s: Ledger, gone: set<BlockId>, call: Call): set<BlockId> {
    if call.OnBlock? && call.call.Discard? && s.IsOpen(call.id) then gone + {call.id} else gone
  }

  predicate AllAllowed(s: Ledger, gone: set<BlockId>, calls: seq<Call>)
    decreases |calls|
  {
    calls == [] ||
    (Allowed(s, gone, calls[0]) && AllAllowed(Take(s, calls[0]).ledger, GoneAfter(s, gone, calls[0]), calls[1..]))
  }

  /** What the scanner remembers, in the assembler's terms. */
  ghost predicate Tied(scan: Scan, s: Ledger, gone: set<BlockId>) {
    && scan.terminated == s.completed
    && scan.started == s.started
    && (forall id :: id in scan.open <==> s.IsOpen(id))
    && (forall id <- scan.open :: SameShape(scan.open[id], s.table[id].kind))
    && (forall id :: id in scan.closed <==> id in gone || (id in s.table && !s.IsOpen(id)))
    && (s.completed ==> scan.open == map[])
    && (forall id <- gone :: id !in s.table)
  }

  /** What one call on an open block does to the scanner. */
  lemma OpenCallScans(scan: Scan, b: Block, call: BlockCall)
    requires b.open && !scan.terminated && b.id in scan.open && SameShape(scan.open[b.id], b.kind)
    ensures var r := CallOpen(b, call);
            if call.End? || call.Discard? then
              CheckAll(scan, r.events) == Some(scan.(open := scan.open - {b.id}, closed := scan.closed + {b.id}))
            else
              CheckAll(scan, r.events) == Some(scan) && r.block.Some? && r.block.value.open
              && SameShape(scan.open[b.id], r.block.value.kind)
  {}

  lemma TouchScansOpen(scan: Scan, s: Ledger, gone: set<BlockId>, id: BlockId, call: BlockCall)
    requires Tied(scan, s, gone) && s.IsOpen(id) && s.table[id].id == id
    ensures var after := TouchBlock(s, id, call);
            var next := CheckAll(scan, after.events);
            next.Some? && Tied(next.value, after.ledger, GoneAfter(s, gone, OnBlock(id, call)))
  {
    OpenCallScans(scan, s.table[id], call);
    NextCallOnOpenBlock(s, id, call);
    var after := TouchBlock(s, id, call);
    var r := CallOpen(s.table[id], call);
    hide TouchBlock, CallOpen, CheckAll, Tied, SameShape;
    assert id in scan.open && SameShape(scan.open[id], s.table[id].kind) by { OpenIsTied(scan, s, gone, id); }
    TiedAfterCall(scan, s, gone, id, after.ledger, r.block);
  }

  lemma OpenIsTied(scan: Scan, s: Ledger, gone: set<BlockId>, id: BlockId)
    requires Tied(scan, s, gone) && s.IsOpen(id)
    ensures id in scan.open && SameShape(scan.open[id], s.table[id].kind) && !s.completed && !scan.terminated
  {}

  /** The tie survives an open block changing without closing, closing, or being removed. */
  lemma TiedAfterCall(scan: Scan, s: Ledger, gone: set<BlockId>, id: BlockId, t: Ledger, b: Option<Block>)
    requires Tied(scan, s, gone) && s.IsOpen(id)
    requires t.started == s.started && t.completed == s.completed
    requires t.table == if b.Some? then s.table[id := b.value] else s.table - {id}
    requires b.Some? ==> SameShape(b.value.kind, s.table[id].kind)
    ensures var closed := scan.(open := scan.open - {id}, closed := scan.closed + {id});
            if b.Some? && b.value.open then Tied(scan, t, gone)
            else if b.Some? then Tied(closed, t, gone)
            else Tied(closed, t, gone + {id})
  {}

  /** A call on an open block acts on that block alone: it stays open unless the call ends or removes it. */
  lemma NextCallOnOpenBlock(s: Ledger, id: BlockId, call: BlockCall)
    requires s.IsOpen(id)
    ensures var r := CallOpen(s.table[id], call);
            var after := TouchBlock(s, id, call);
            && after.events == r.events
            && (r.block.None? <==> call.Discard?)
            && (r.block.Some? ==> (r.block.value.open <==> !call.End?))
            && (r.block.Some? ==> SameShape(r.block.value.kind, s.table[id].kind))
            && after.ledger.table == (if r.block.Some? then s.table[id := r.block.value] else s.table - {id})
            && after.ledger.started == s.started && after.ledger.completed == s.completed
  {}

  /** A call that opens a block is accepted exactly when the stream runs and the id was never used. */
  lemma TouchScansNew(scan: Scan, s: Ledger, gone: set<BlockId>, id: BlockId, call: BlockCall)
    requires Tied(scan, s, gone) && id !in s.table && LatchKind(id, call).Some?
    ensures var after := TouchBlock(s, id, call);
            var next := CheckAll(scan, after.events);
            if !s.completed && id !in gone
            then next.Some? && Tied(next.value, after.ledger, gone)
            else next.None?
  {
    var kind := LatchKind(id, call).value;
    var newborn := Block.New(id, kind, s.signatures, call.Start?);
    var r := CallOpen(newborn, call);
    var after := TouchBlock(s, id, call);
    FirstCallOnNewBlock(s, id, call);
    hide TouchBlock, CallOpen;
    assert after.events[0] == BlockStart(id, kind) && after.events[1..] == r.events;
    if !s.completed && id !in gone {
      var grown := scan.(open := scan.open[id := kind]);
      assert Check(scan, after.events[0]) == Some(grown);
      OpenCallScans(grown, newborn, call);
      hide CheckAll;
      TiedAfterStart(scan, s, gone, id, after.ledger, kind);
    }
  }

  lemma TiedAfterStart(scan: Scan, s: Ledger, gone: set<BlockId>, id: BlockId, t: Ledger, kind: BlockKind)
    requires Tied(scan, s, gone) && id !in s.table && id !in gone && !s.completed
    requires t.started == s.started && t.completed == s.completed && t.IsOpen(id)
    requires t.table == s.table[id := t.table[id]] && SameShape(kind, t.table[id].kind)
    ensures Tied(scan.(open := scan.open[id := kind]), t, gone)
  {}

  /** A call that opens a block announces it, then acts on the newborn block and leaves it open. */
  lemma FirstCallOnNewBlock(s: Ledger, id: BlockId, call: BlockCall)
    requires id !in s.table && LatchKind(id, call).Some?
    ensures var kind := LatchKind(id, call).value;
            var r := CallOpen(Block.New(id, kind, s.signatures, call.Start?), call);
            var after := TouchBlock(s, id, call);
            && r.block.Some? && r.block.value.open
            && after.events == [BlockStart(id, kind)] + r.events
            && after.ledger.table == s.table[id := r.block.value]
            && after.ledger.started == s.started && after.ledger.completed == s.completed
  {}

  /** The scanner accepts the events of one call exactly when the call is allowed. */
  lemma TouchScans(scan: Scan, s: Ledger, gone: set<BlockId>, id: BlockId, call: BlockCall)
    requires s.Valid() && Tied(scan, s, gone)
    ensures var after := TouchBlock(s, id, call);
            var next := CheckAll(scan, after.events);
            if Allowed(s, gone, OnBlock(id, call))
            then next.Some? && Tied(next.value, after.ledger, GoneAfter(s, gone, OnBlock(id, call)))
            else next.None?
  {
    if s.IsOpen(id) {
      TouchScansOpen(scan, s, gone, id, call);
    } else if id in s.table {
      ClosedBlockIsSilent(s, id, call);
    } else if LatchKind(id, call).Some? {
      TouchScansNew(scan, s, gone, id, call);
    } else {
      IgnoredCall(s, id, call);
    }
  }

  lemma {:induction false} EndAllScans(scan: Scan, s: Ledger, gone: set<BlockId>, ids: seq<BlockId>)
    requires s.Valid() && Tied(scan, s, gone)
    requires forall id <- ids :: id in s.table
    ensures var after := EndAll(s, ids);
            var next := CheckAll(scan, after.events);
            next.Some? && Tied(next.value, after.ledger, gone)
    decreases |ids|
  {
    if ids != [] {
      var first := TouchBlock(s, ids[0], End);
      assert ids[0] in ids;
      TouchScans(scan, s, gone, ids[0], End);
      TouchKeepsValid(s, ids[0], End);
      EndTouchesOneBlock(s, ids[0]);
      hide TouchBlock;
      hide Tied;
      var next := CheckAll(scan, first.events).value;
      EndAllScans(next, first.ledger, gone, ids[1..]);
      CheckAllConcat(scan, first.events, EndAll(first.ledger, ids[1..]).events);
    }
  }

  lemma FinishScans(scan: Scan, s: Ledger, gone: set<BlockId>)
    requires s.Valid() && Tied(scan, s, gone)
    ensures var after := Finish(s);
            var next := CheckAll(scan, after.events);
            next.Some? && Tied(next.value, after.ledger, gone)
  {
    if !s.completed {
      var ids := OpenIds(s, s.order);
      OpenIdsAre(s, s.order);
      EndAllScans(scan, s, gone, ids);
      EndAllIgnoresCompletion(s, ids);
      FinishClosesAll(s);
      var closed := EndAll(s, ids);
      var ended := Ended(Suppress(Assembled(Finish(s).ledger)));
      var next := CheckAll(scan, closed.events).value;
      assert forall id :: Finish(s).ledger.IsOpen(id) == closed.ledger.IsOpen(id);
      EndAllClosesAll(s, ids);
      CheckAllConcat(scan, closed.events, [ended]);
      assert next.open == map[];
      assert [ended][1..] == [];
    }
  }

  /** Ending blocks does not look at the completion flag. */
  lemma {:induction false} EndAllIgnoresCompletion(s: Ledger, ids: seq<BlockId>)
    ensures var plain := EndAll(s, ids);
            EndAll(s.(completed := true), ids) == Step(plain.ledger.(completed := true), plain.events)
    decreases |ids|
  {
    if ids != [] {
      var first := TouchBlock(s, ids[0], End);
      assert TouchBlock(s.(completed := true), ids[0], End) == Step(first.ledger.(completed := true), first.events);
      hide TouchBlock;
      EndAllIgnoresCompletion(first.ledger, ids[1..]);
    }
  }

  lemma TakeScans(scan: Scan, s: Ledger, gone: set<BlockId>, call: Call)
    requires s.Valid() && Tied(scan, s, gone)
    ensures var after := Take(s, call);
            var next := CheckAll(scan, after.events);
            if Allowed(s, gone, call)
            then next.Some? && Tied(next.value, after.ledger, GoneAfter(s, gone, call))
            else next.None?
  {
    match call
    case OnBlock(id, blockCall) => TouchScans(scan, s, gone, id, blockCall);
    case Complete => FinishScans(scan, s, gone);
    case Begin(responseId) => CheckOne(scan, Started(responseId));
    case SetUsage(usage) => CheckOne(scan, Usage(usage));
    case MergeUsage(update) => CheckOne(scan, Usage(update(s.usage)));
    case _ =>
  }

  lemma CheckOne(scan: Scan, event: Event)
    ensures CheckAll(scan, [event]) == Check(scan, event)
  {}

  /** From any state, the contract holds of a run exactly when every call in it was allowed. */
  lemma {:induction false} RunScans(scan: Scan, s: Ledger, gone: set<BlockId>, calls: seq<Call>)
    requires s.Valid() && Tied(scan, s, gone)
    ensures var next := CheckAll(scan, Run(s, calls).events);
            && (next.Some? <==> AllAllowed(s, gone, calls))
            && (next.Some? ==> next.value.terminated == Run(s, calls).ledger.completed
                               && (forall id :: id in next.value.open <==> Run(s, calls).ledger.IsOpen(id)))
    decreases |calls|
  {
    if calls != [] {
      var first := Take(s, calls[0]);
      TakeScans(scan, s, gone, calls[0]);
      TakeKeepsValid(s, calls[0]);
      hide Take;
      hide Allowed;
      CheckAllConcat(scan, first.events, Run(first.ledger, calls[1..]).events);
      if Allowed(s, gone, calls[0]) {
        RunScans(CheckAll(scan, first.events).value, first.ledger, GoneAfter(s, gone, calls[0]), calls[1..]);
      }
    }
  }

  /**
   * The stream contract holds of a run of a new assembler if and only if no call in it opens a
   * discarded id again or emits after completion; a run that also completes is a whole accepted
   * stream.
   */
  lemma ContractHoldsExactlyWhenAllowed(
    provider: string, model: string, signatures: Option<string>, calls: seq<Call>)
    ensures var s := Ledger.New(provider, model, signatures);
            && (Unbroken(Run(s, calls).events) <==> AllAllowed(s, {}, calls))
            && (Complete in calls ==> (Accepts(Run(s, calls).events) <==> AllAllowed(s, {}, calls)))
  {
    var s := Ledger.New(provider, model, signatures);
    RunScans(FRESH, s, {}, calls);
    RunNotCompleted(s, calls);
  }

  /**
   * A run cut short by an error is an accepted stream if and only if its calls were allowed and it had
   * not completed; blocks may be left open then.
   */
  lemma FailedRunsAreAcceptedExactly(
    provider: string, model: string, signatures: Option<string>, calls: seq<Call>)
    ensures var s := Ledger.New(provider, model, signatures);
            AcceptsItems(Events(Run(s, calls).events) + [Failure]) <==> AllAllowed(s, {}, calls) && Complete !in calls
  {
    var s := Ledger.New(provider, model, signatures);
    RunScans(FRESH, s, {}, calls);
    RunNotCompleted(s, calls);
    FailedStreamsAreAccepted(Run(s, calls).events, []);
    assert Events(Run(s, calls).events) + [Failure] + [] == Events(Run(s, calls).events) + [Failure];
  }

  /** No discard and no earlier completion: the calls a simple codec makes. */
  lemma {:induction false} PlainCallsAreAllowed(s: Ledger, calls: seq<Call>)
    requires s.Valid() && !s.completed
    requires Complete !in calls
    requires forall call <- calls :: !(call.OnBlock? && call.call.Discard?)
    ensures AllAllowed(s, {}, calls + [Complete])
    decreases |calls|
  {
    if calls == [] {
      assert calls + [Complete] == [Complete];
      assert [Complete][1..] == [];
    } else {
      assert calls[0] in calls;
      assert (calls + [Complete])[1..] == calls[1..] + [Complete];
      TakeCompletes(s, calls[0]);
      TakeKeepsValid(s, calls[0]);
      hide Take;
      PlainCallsAreAllowed(Take(s, calls[0]).ledger, calls[1..]);
    }
  }

  /** Any calls at all without a discard, followed by one completion, make an accepted stream. */
  lemma PlainRunsAreAccepted(provider: string, model: string, signatures: Option<string>, calls: seq<Call>)
    requires Complete !in calls
    requires forall call <- calls :: !(call.OnBlock? && call.call.Discard?)
    ensures Accepts(Run(Ledger.New(provider, model, signatures), calls + [Complete]).events)
  {
    PlainCallsAreAllowed(Ledger.New(provider, model, signatures), calls);
    ContractHoldsExactlyWhenAllowed(provider, model, signatures, calls + [Complete]);
  }

  /** The two rules the assembler leaves to its codec, each broken by a short run. */
  lemma ReopeningAndLateCallsBreakTheContract(provider: string, model: string, id: BlockId, text: string)
    ensures var s := Ledger.New(provider, model, None);
            && !Unbroken(Run(s, [OnBlock(id, AddText(text)), OnBlock(id, Discard), OnBlock(id, AddText(text))]).events)
            && !Unbroken(Run(s, [Complete, OnBlock(id, AddText(text))]).events)
  {
    var s := Ledger.New(provider, model, None);
    var append := OnBlock(id, AddText(text));
    ContractHoldsExactlyWhenAllowed(provider, model, None, [append, OnBlock(id, Discard), append]);
    ContractHoldsExactlyWhenAllowed(provider, model, None, [Complete, append]);
    ReopeningIsNotAllowed(s, id, text);
    LateCallIsNotAllowed(s, id, text);
    hide Run, AllAllowed;
  }

  lemma ReopeningIsNotAllowed(s: Ledger, id: BlockId, text: string)
    requires id !in s.table
    ensures !AllAllowed(s, {}, [OnBlock(id, AddText(text)), OnBlock(id, Discard), OnBlock(id, AddText(text))])
  {
    var append, discard := OnBlock(id, AddText(text)), OnBlock(id, Discard);
    var grown := Take(s, append).ledger;
    var discarded := Take(grown, discard).ledger;
    assert grown.IsOpen(id) && id !in discarded.table && GoneAfter(grown, {}, discard) == {id};
    hide Take;
    assert [append, discard, append][1..] == [discard, append];
    assert [discard, append][1..] == [append];
    assert !AllAllowed(discarded, {id}, [append]);
  }

  lemma LateCallIsNotAllowed(s: Ledger, id: BlockId, text: string)
    requires s.Valid() && !s.completed && id !in s.table
    ensures !AllAllowed(s, {}, [Complete, OnBlock(id, AddText(text))])
  {
    FinishClosesAll(s);
    TakeCompletes(s, Complete);
    assert id !in Take(s, Complete).ledger.table;
    hide Take;
    assert [Complete, OnBlock(id, AddText(text))][1..] == [OnBlock(id, AddText(text))];
  }
}

/**
 * What a consumer of a whole run has heard of each block, against the buffer the block's part is
 * built from: the one-block results of BlockRuns, carried to every reachable state of the assembler
 * and to the events its runs emit.
 */
module AssemblerBuffers {
  import opened Wrappers
  import opened Sequences
  import opened StreamTypes
  import opened BlockMachine
  import opened BlockRuns
  import opened AssemblerModel
  import opened AssemblerRuns
  import opened AssemblerCompletion

  const UNSEEN: Witness := Witness(None, "", false)

  /** What the events of a run let a consumer assemble of a block since its last start. */
  function HeardOf(id: BlockId, events: seq<Event>): string {
    Heard("", EventsAbout(id, events))
  }

  /** Whether a reconciliation in the run replaced the buffer of the block's present opening outright. */
  function Garbled(signatures: Option<string>, calls: seq<Call>, id: BlockId): bool {
    ObserveAll(id, signatures, UNSEEN, Project(calls, id, false)).garbled
  }

  lemma {:induction false} HeardConcat(text: string, first: seq<Event>, second: seq<Event>)
    ensures Heard(text, first + second) == Heard(Heard(text, first), second)
    decreases |first|
  {
    if first == [] {
      assert first + second == second;
    } else {
      var event := first[0];
      HeadAndTail(first, second);
      HeardConcat(if event.BlockStart? then "" else if event.IsDelta() then text + event.payload else text,
                  first[1..], second);
    }
  }

  /** Observing calls one by one sees the block and hears the events their run gives. */
  lemma {:induction false} ObservingIsRunning(id: BlockId, origin: Option<string>, w: Witness, calls: seq<BlockCall>)
    ensures var seen := ObserveAll(id, origin, w, calls);
            var run := RunBlock(id, origin, w.block, calls);
            seen.block == run.block && seen.heard == Heard(w.heard, run.events)
    decreases |calls|
  {
    if calls != [] {
      hide CallBlock;
      var first := CallBlock(id, origin, w.block, calls[0]);
      ObservingIsRunning(id, origin, Observe(id, origin, w, calls[0]), calls[1..]);
      HeardConcat(w.heard, first.events, RunBlock(id, origin, first.block, calls[1..]).events);
    }
  }

  lemma {:induction false} OnlyReconcilesGarble(id: BlockId, origin: Option<string>, w: Witness, calls: seq<BlockCall>)
    requires !w.garbled && forall call <- calls :: !call.Reconcile?
    ensures !ObserveAll(id, origin, w, calls).garbled
    decreases |calls|
  {
    if calls != [] {
      assert calls[0] in calls;
      OnlyReconcilesGarble(id, origin, Observe(id, origin, w, calls[0]), calls[1..]);
    }
  }

  lemma {:induction false} ProjectedReconciles(calls: seq<Call>, id: BlockId, completed: bool)
    requires forall call <- calls :: !(call.OnBlock? && call.id == id && call.call.Reconcile?)
    ensures forall call <- Project(calls, id, completed) :: !call.Reconcile?
  {
    if calls != [] {
      assert calls[0] in calls;
      ProjectedReconciles(calls[1..], id, completed || calls[0].Complete?);
    }
  }

  /** The witness of a block's own calls is the block the run leaves and what its consumer heard. */
  lemma RunIsObserved(provider: string, model: string, signatures: Option<string>, calls: seq<Call>, id: BlockId)
    ensures var all := Run(Ledger.New(provider, model, signatures), calls);
            && all.ledger.signatures == signatures
            && ObserveAll(id, signatures, UNSEEN, Project(calls, id, false)) ==
               Witness(all.ledger.Lookup(id), HeardOf(id, all.events), Garbled(signatures, calls, id))
  {
    var s := Ledger.New(provider, model, signatures);
    BlocksDoNotInterfere(s, calls, id);
    SignaturesStay(s, calls);
    ObservingIsRunning(id, signatures, UNSEEN, Project(calls, id, false));
  }

  lemma {:induction false} SignaturesStay(s: Ledger, calls: seq<Call>)
    requires s.Valid()
    ensures Run(s, calls).ledger.signatures == s.signatures
    decreases |calls|
  {
    if calls != [] {
      TakeSeenBy(s, calls[0], "");
      TakeKeepsValid(s, calls[0]);
      hide Take;
      SignaturesStay(Take(s, calls[0]).ledger, calls[1..]);
    }
  }

  /**
   * In every state any run reaches, what a consumer heard of an open block is a prefix of the block's
   * buffer, and the whole of it unless the block is sealed reasoning; an opaque block's buffer is
   * empty. Only a reconciliation that replaced the buffer outright breaks the agreement, so a run
   * that never reconciles the block keeps it.
   */
  lemma RunDeltasAgreeWithBuffers(
    provider: string, model: string, signatures: Option<string>, calls: seq<Call>, id: BlockId)
    ensures var all := Run(Ledger.New(provider, model, signatures), calls);
            var garbled := Garbled(signatures, calls, id);
            && Agrees(Witness(all.ledger.Lookup(id), HeardOf(id, all.events), garbled))
            && ((forall call <- calls :: !(call.OnBlock? && call.id == id && call.call.Reconcile?)) ==> !garbled)
  {
    var mine := Project(calls, id, false);
    RunIsObserved(provider, model, signatures, calls, id);
    DeltasAgreeWithBuffer(id, signatures, UNSEEN, mine);
    if forall call <- calls :: !(call.OnBlock? && call.id == id && call.call.Reconcile?) {
      ProjectedReconciles(calls, id, false);
      OnlyReconcilesGarble(id, signatures, UNSEEN, mine);
    }
  }

  /**
   * Whenever a run ends an open block, by an end or by completion, the end event and the response
   * carry one part, whose content is the text the run's deltas showed of that block, unless it was
   * garbled or sealed. The one other difference is a function call that streamed no arguments.
   */
  lemma RunEndPartsCarryWhatWasHeard(
    provider: string, model: string, signatures: Option<string>, calls: seq<Call>, id: BlockId)
    ensures var all := Run(Ledger.New(provider, model, signatures), calls);
            var garbled, heard := Garbled(signatures, calls, id), HeardOf(id, all.events);
            all.ledger.IsOpen(id) ==>
              var b := all.ledger.table[id];
              var part := b.(open := false).IntoPart();
              var ended := Take(all.ledger, OnBlock(id, End));
              && ended.events == [BlockEnd(id, part)]
              && ended.ledger.parts == all.ledger.parts + [part]
              && (!all.ledger.completed ==> EventsAbout(id, Take(all.ledger, Complete).events) == [BlockEnd(id, part)])
              && (!garbled ==> heard <= ContentOf(part))
              && (!garbled && !b.Sealed() && heard != "" ==> ContentOf(part) == heard)
  {
    var s := Ledger.New(provider, model, signatures);
    var all := Run(s, calls);
    RunIsObserved(provider, model, signatures, calls, id);
    DeltasAgreeWithBuffer(id, signatures, UNSEEN, Project(calls, id, false));
    RunKeepsValid(s, calls);
    hide Run, Take, ObserveAll, HeardOf, Project, ContentOf, Agrees;
    if all.ledger.IsOpen(id) {
      EndGivesThePart(all.ledger, id);
      PartIsWhatWasHeard(all.ledger.table[id], HeardOf(id, all.events), Garbled(signatures, calls, id));
    }
  }

  lemma EndGivesThePart(s: Ledger, id: BlockId)
    requires s.Valid() && s.IsOpen(id)
    ensures var part := s.table[id].(open := false).IntoPart();
            var ended := Take(s, OnBlock(id, End));
            && ended.events == [BlockEnd(id, part)]
            && ended.ledger.parts == s.parts + [part]
            && (!s.completed ==> EventsAbout(id, Take(s, Complete).events) == [BlockEnd(id, part)])
  {
    EndingOpenBlock(s, id);
    FinishSeenBy(s, id);
  }

  /**
   * In any run, reconciling an open block that extends what the consumer heard leaves the consumer
   * with exactly the whole content, and the block's buffer as well.
   */
  lemma RunReconcileShowsTheTail(
    provider: string, model: string, signatures: Option<string>, calls: seq<Call>,
    id: BlockId, kind: BlockKind, whole: string)
    ensures var s := Ledger.New(provider, model, signatures);
            var before := Run(s, calls);
            var after := Run(s, calls + [OnBlock(id, Reconcile(kind, whole))]);
            before.ledger.IsOpen(id) && !Garbled(signatures, calls, id)
            && !before.ledger.table[id].kind.Opaque? && !before.ledger.table[id].Sealed()
            && HeardOf(id, before.events) <= whole ==>
              && HeardOf(id, after.events) == whole
              && after.ledger.IsOpen(id) && after.ledger.table[id].buffer == whole
  {
    var s := Ledger.New(provider, model, signatures);
    var before := Run(s, calls);
    var call := Reconcile(kind, whole);
    var touched := TouchBlock(before.ledger, id, call);
    RunIsObserved(provider, model, signatures, calls, id);
    DeltasAgreeWithBuffer(id, signatures, UNSEEN, Project(calls, id, false));
    ReconcileShowsTheTail(id, signatures, Project(calls, id, false), kind, whole);
    RunKeepsValid(s, calls);
    RunSnoc(s, calls, OnBlock(id, call));
    TouchSeenBy(before.ledger, id, call, id);
    ReconcileLeavesOpen(id, signatures, before.ledger.Lookup(id), kind, whole);
    EventsAboutConcat(id, before.events, touched.events);
    HeardConcat("", EventsAbout(id, before.events), EventsAbout(id, touched.events));
    hide Run, ObserveAll, TouchBlock, CallBlock, Heard, EventsAbout, Project;
  }

  lemma ReconcileLeavesOpen(id: BlockId, origin: Option<string>, b: Option<Block>, kind: BlockKind, whole: string)
    ensures b.Some? && b.value.open ==>
      var r := CallBlock(id, origin, b, Reconcile(kind, whole)); r.block.Some? && r.block.value.open
  {}

  /**
   * However a run's fragments were split or lost, reconciling an open block and ending it gives the
   * block with exactly the authoritative content, and appends exactly its part to the response.
   */
  lemma RunReconcileConverges(
    provider: string, model: string, signatures: Option<string>, calls: seq<Call>,
    id: BlockId, kind: BlockKind, whole: string)
    ensures var s := Ledger.New(provider, model, signatures);
            var before := Run(s, calls).ledger;
            var after := Run(s, calls + [OnBlock(id, Reconcile(kind, whole))] + [OnBlock(id, End)]).ledger;
            before.IsOpen(id) && !before.table[id].kind.Opaque? ==>
              var closed := before.table[id].(buffer := whole, open := false);
              && after.Lookup(id) == Some(closed)
              && after.parts == before.parts + [closed.IntoPart()]
  {
    var s := Ledger.New(provider, model, signatures);
    var before := Run(s, calls).ledger;
    var call := Reconcile(kind, whole);
    RunKeepsValid(s, calls);
    RunSnoc(s, calls, OnBlock(id, call));
    RunSnoc(s, calls + [OnBlock(id, call)], OnBlock(id, End));
    hide Run;
    if before.IsOpen(id) && !before.table[id].kind.Opaque? {
      ReconciledLedger(before, id, kind, whole);
      EndingOpenBlock(TouchBlock(before, id, call).ledger, id);
    }
  }

  lemma ReconciledLedger(s: Ledger, id: BlockId, kind: BlockKind, whole: string)
    requires s.Valid() && s.IsOpen(id) && !s.table[id].kind.Opaque?
    ensures var after := TouchBlock(s, id, Reconcile(kind, whole)).ledger;
            && after.IsOpen(id) && after.table[id] == s.table[id].(buffer := whole)
            && after.parts == s.parts
  {}
}

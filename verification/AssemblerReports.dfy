/** What a run reports beside its blocks, read off its calls alone, and every field of the response that ends it. */
module AssemblerReports {
  import opened Wrappers
  import opened Sequences
  import opened Sorting
  import opened StreamTypes
  import opened BlockMachine
  import opened BlockRuns
  import opened AssemblerModel
  import opened AssemblerRuns
  import opened AssemblerCompletion

  // ---------------------------------------------------------------------------------------------
  // What the calls report
  // ---------------------------------------------------------------------------------------------

  /** Whether the stream was started. */
  predicate Begun(calls: seq<Call>) {
    exists i :: 0 <= i < |calls| && calls[i].Begin?
  }

  /** The last id a call sets, counting the first start's. */
  function LastId(calls: seq<Call>): Option<string> {
    if calls == [] then None
    else
      var front, last := calls[..|calls| - 1], calls[|calls| - 1];
      if last.SetId? then Some(last.newId)
      else if last.Begin? && !Begun(front) then last.responseId
      else LastId(front)
  }

  /** The last usage snapshot, later updates applied. */
  function LastUsage(calls: seq<Call>): TokenCounts {
    if calls == [] then TokenCounts(0, 0, 0, 0, 0)
    else
      var front, last := calls[..|calls| - 1], calls[|calls| - 1];
      if last.SetUsage? then last.usage
      else if last.MergeUsage? then last.update(LastUsage(front))
      else LastUsage(front)
  }

  function LastReason(calls: seq<Call>): Option<FinishReason> {
    if calls == [] then None
    else if calls[|calls| - 1].SetFinishReason? then Some(calls[|calls| - 1].reason)
    else LastReason(calls[..|calls| - 1])
  }

  function LastCost(calls: seq<Call>): Option<nat> {
    if calls == [] then None
    else if calls[|calls| - 1].SetCost? then Some(calls[|calls| - 1].cost)
    else LastCost(calls[..|calls| - 1])
  }

  function LastRaw(calls: seq<Call>): Option<Json> {
    if calls == [] then None
    else if calls[|calls| - 1].SetRaw? then Some(calls[|calls| - 1].raw)
    else LastRaw(calls[..|calls| - 1])
  }

  /** What one more call announces, as a reading of the calls so far. */
  function AnnouncedBy(front: seq<Call>, last: Call): seq<Event> {
    match last
    case Begin(responseId) => if !Begun(front) then [Event.Started(responseId)] else []
    case SetUsage(usage) => [Usage(usage)]
    case MergeUsage(update) => [Usage(update(LastUsage(front)))]
    case _ => []
  }

  /** What the calls announce beside any block: the first start, and each usage snapshot as it then is. */
  function Announced(calls: seq<Call>): seq<Event> {
    if calls == [] then []
    else
      Announced(calls[..|calls| - 1]) + AnnouncedBy(calls[..|calls| - 1], calls[|calls| - 1])
  }

  predicate BesideBlocks(event: Event) {
    event.Started? || event.Usage? || event.RateLimits?
  }

  /** The ledger's fields beside its blocks, as the calls left them. */
  ghost predicate Remembers(s: Ledger, provider: string, model: string, calls: seq<Call>) {
    && s.provider == provider && s.model == model
    && s.responseId == LastId(calls)
    && s.usage == LastUsage(calls)
    && s.finishReason == LastReason(calls)
    && s.cost == LastCost(calls)
    && s.raw == LastRaw(calls)
    && s.warnings == []
    && (s.started <==> Begun(calls))
  }

  lemma {:induction false} BlockEventsAreNotBeside(id: BlockId, events: seq<Event>)
    requires forall event <- events :: event.About(id)
    ensures Filter(events, BesideBlocks) == []
  {
    if events != [] {
      assert events[0] in events;
      BlockEventsAreNotBeside(id, events[1..]);
    }
  }

  lemma {:induction false} FilterSplits<T>(xs: seq<T>, ys: seq<T>, keep: T -> bool)
    ensures Filter(xs + ys, keep) == Filter(xs, keep) + Filter(ys, keep)
  {
    if xs == [] {
      assert xs + ys == ys;
    } else {
      HeadAndTail(xs, ys);
      FilterSplits(xs[1..], ys, keep);
      Associates(if keep(xs[0]) then [xs[0]] else [], Filter(xs[1..], keep), Filter(ys, keep));
    }
  }

  /** A call on a block leaves the rest of the ledger alone and announces nothing beside blocks. */
  lemma BlockCallIsBeside(s: Ledger, id: BlockId, call: BlockCall)
    requires s.Valid()
    ensures
      var after := TouchBlock(s, id, call);
      && after.ledger == s.(order := after.ledger.order, table := after.ledger.table, parts := after.ledger.parts)
      && Filter(after.events, BesideBlocks) == []
  {
    BlockKeepsItsId(id, s.signatures, s.Lookup(id), call);
    RecordTouchesOneBlock(s, id, CallBlock(id, s.signatures, s.Lookup(id), call));
    hide CallBlock, Record;
    BlockEventsAreNotBeside(id, TouchBlock(s, id, call).events);
  }

  lemma BegunNext(front: seq<Call>, last: Call)
    ensures Begun(front + [last]) <==> last.Begin? || Begun(front)
  {
    var all := front + [last];
    assert forall i :: 0 <= i < |front| ==> all[i] == front[i];
    assert all[|front|] == last;
  }

  /** One more call, while the stream runs. */
  lemma OneMoreCall(s: Ledger, provider: string, model: string, front: seq<Call>, last: Call)
    requires s.Valid() && Remembers(s, provider, model, front) && !last.Complete?
    ensures Remembers(Take(s, last).ledger, provider, model, front + [last])
    ensures Filter(Take(s, last).events, BesideBlocks) == AnnouncedBy(front, last)
  {
    BegunNext(front, last);
    ReadingsNext(front, last);
    if last.OnBlock? {
      BlockCallIsBeside(s, last.id, last.call);
    }
    hide TouchBlock, Begun, Ledger.Valid, LastId, LastUsage, LastReason, LastCost, LastRaw;
  }

  /** Each reading of the calls, one call later. */
  lemma ReadingsNext(front: seq<Call>, last: Call)
    ensures
      var all := front + [last];
      && LastId(all) == (if last.SetId? then Some(last.newId)
                         else if last.Begin? && !Begun(front) then last.responseId else LastId(front))
      && LastUsage(all) == (if last.SetUsage? then last.usage
                            else if last.MergeUsage? then last.update(LastUsage(front)) else LastUsage(front))
      && LastReason(all) == (if last.SetFinishReason? then Some(last.reason) else LastReason(front))
      && LastCost(all) == (if last.SetCost? then Some(last.cost) else LastCost(front))
      && LastRaw(all) == (if last.SetRaw? then Some(last.raw) else LastRaw(front))
  {
    var all := front + [last];
    assert all[..|front|] == front && all[|front|] == last;
  }

  lemma {:induction false} RunRemembers(provider: string, model: string, signatures: Option<string>, calls: seq<Call>)
    requires Complete !in calls
    ensures
      var all := Run(Ledger.New(provider, model, signatures), calls);
      && Remembers(all.ledger, provider, model, calls)
      && Filter(all.events, BesideBlocks) == Announced(calls)
  {
    var s := Ledger.New(provider, model, signatures);
    if calls != [] {
      var front, last := calls[..|calls| - 1], calls[|calls| - 1];
      assert calls == front + [last];
      RunRemembers(provider, model, signatures, front);
      RunSnoc(s, front, last);
      RunKeepsValid(s, front);
      hide Run, Take, Remembers, LastUsage, AnnouncedBy;
      var before := Run(s, front);
      OneMoreCall(before.ledger, provider, model, front, last);
      FilterSplits(before.events, Take(before.ledger, last).events, BesideBlocks);
    }
  }

  /**
   * Beside its blocks' events, an uncompleted run announces exactly its first start with its id, and
   * after every usage call the snapshot as it then stands.
   */
  lemma RunAnnouncesItsCalls(provider: string, model: string, signatures: Option<string>, calls: seq<Call>)
    requires Complete !in calls
    ensures Filter(Run(Ledger.New(provider, model, signatures), calls).events, BesideBlocks) == Announced(calls)
  {
    RunRemembers(provider, model, signatures, calls);
  }

  // ---------------------------------------------------------------------------------------------
  // The response
  // ---------------------------------------------------------------------------------------------

  predicate IsToolCall(part: Part) {
    part.ToolCallPart?
  }

  predicate IsNotToolCall(part: Part) {
    !part.ToolCallPart?
  }

  lemma {:induction false} SiftIsFilter(parts: seq<Part>)
    ensures Sift(parts, true) == Filter(parts, IsToolCall)
    ensures Sift(parts, false) == Filter(parts, IsNotToolCall)
  {
    if parts != [] {
      SiftIsFilter(parts[1..]);
    }
  }

  /** What becomes of the parts: a turn cut by length or incomplete withholds its tool calls, any other keeps all. */
  predicate Delivers(r: Response, kept: seq<Part>) {
    if r.finishReason == FinishReason.Length || r.finishReason == FinishReason.Incomplete then
      && r.content == Filter(kept, IsNotToolCall)
      && r.suppressed == Filter(kept, IsToolCall)
      && |r.warnings| == |r.suppressed|
      && forall i :: 0 <= i < |r.warnings| ==>
           && r.suppressed[i].ToolCallPart?
           && r.warnings[i] == TruncatedToolCall(r.finishReason, r.suppressed[i].name)
    else r.content == kept && r.suppressed == [] && r.warnings == []
  }

  /**
   * The response that ends a run is for the assembler's route and reports what the calls last set; a
   * finish reason no call set is `Incomplete`. A turn that ended by length or incomplete keeps the
   * ended blocks' parts that are no tool calls, in order, and withholds the tool calls, in order, each
   * with a warning that names it; any other turn keeps every part and warns of nothing.
   */
  lemma CompletedRunReports(provider: string, model: string, signatures: Option<string>, calls: seq<Call>)
    requires Complete !in calls
    ensures
      var s := Ledger.New(provider, model, signatures);
      var events := Run(s, calls + [Complete]).events;
      var kept := Parts(KeptEnds(s, calls + [Complete]));
      && events != [] && events[|events| - 1].Ended?
      && var r := events[|events| - 1].response;
         && r.provider == provider && r.model == model
         && r.id == LastId(calls) && r.usage == LastUsage(calls)
         && r.cost == LastCost(calls) && r.raw == LastRaw(calls)
         && r.finishReason == (if LastReason(calls).Some? then LastReason(calls).value else FinishReason.Incomplete)
         && Delivers(r, kept)
  {
    var s := Ledger.New(provider, model, signatures);
    CompletionConservesBlocks(provider, model, signatures, calls);
    RunRemembers(provider, model, signatures, calls);
    var before := Run(s, calls).ledger;
    var kept := Parts(KeptEnds(s, calls + [Complete]));
    SuppressDelivers(Assembled(before).(content := kept));
    var events := Run(s, calls + [Complete]).events;
    assert events[|events| - 1] == Finish(before).events[|Finish(before).events| - 1];
    hide Run, Finish, KeptEnds, Suppress, Delivers;
  }

  lemma SuppressDelivers(response: Response)
    requires response.suppressed == [] && response.warnings == []
    ensures
      var r := Suppress(response);
      && r == response.(content := r.content, suppressed := r.suppressed, warnings := r.warnings)
      && Delivers(r, response.content)
  {
    SiftSorts(response.content, true);
    SiftIsFilter(response.content);
    hide Sift, Filter;
    var calls := Sift(response.content, true);
    assert forall i :: 0 <= i < |calls| ==> calls[i] in calls;
    assert response.suppressed + calls == calls;
    if Unfinished(response.finishReason) {
      var warnings := WarningsFor(response.finishReason, calls);
      assert response.warnings + warnings == warnings;
      assert Suppress(response) == response.(content := Sift(response.content, false), suppressed := calls, warnings := warnings);
    }
  }
}

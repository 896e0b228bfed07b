/**
 * The invariants documented for stream events, written as the scanner the stream tests apply
 * to a whole event sequence. It knows nothing about how events are produced.
 */
module StreamContract {
  import opened Wrappers
  import opened StreamTypes

  /** What the scanner remembers between two events. */
  datatype Scan = Scan(started: bool, open: map<BlockId, BlockKind>, closed: set<BlockId>, terminated: bool)

  const FRESH := Scan(false, map[], {}, false)

  /** The scanner after `event`, or `None` when `event` breaks a rule. */
  function Check(scan: Scan, event: Event): Option<Scan> {
    if scan.terminated then None
    else match event
      case Started(_) =>
        if scan.started then None else Some(scan.(started := true))
      case BlockStart(id, kind) =>
        if id in scan.open || id in scan.closed then None
        else Some(scan.(open := scan.open[id := kind]))
      case BlockEnd(id, _) =>
        if id !in scan.open then None
        else Some(scan.(open := scan.open - {id}, closed := scan.closed + {id}))
      case Usage(_) | RateLimits(_) => Some(scan)
      case Ended(_) =>
        if scan.open != map[] then None else Some(scan.(terminated := true))
      case _ =>
        if event.id in scan.open && Matches(event.DeltaShape(), scan.open[event.id]) then Some(scan) else None
  }

  function CheckAll(scan: Scan, events: seq<Event>): Option<Scan>
    decreases |events|
  {
    if events == [] then Some(scan)
    else match Check(scan, events[0])
      case None => None
      case Some(next) => CheckAll(next, events[1..])
  }

  /** No event so far breaks a rule. */
  predicate Unbroken(events: seq<Event>) {
    CheckAll(FRESH, events).Some?
  }

  /** A whole stream: no rule broken, and every block closed unless a terminal event was seen. */
  predicate Accepts(events: seq<Event>) {
    var scan := CheckAll(FRESH, events);
    scan.Some? && (scan.value.terminated || scan.value.open == map[])
  }

  // ---------------------------------------------------------------------------------------------
  // Streams that fail
  // ---------------------------------------------------------------------------------------------

  /** What a stream yields: an event, or the error that ends it. */
  datatype Item = Good(event: Event) | Failure

  /** An error ends the stream whatever is open; nothing may follow it. */
  function CheckItem(scan: Scan, item: Item): Option<Scan> {
    match item
    case Good(event) => Check(scan, event)
    case Failure => if scan.terminated then None else Some(scan.(terminated := true))
  }

  function CheckItems(scan: Scan, items: seq<Item>): Option<Scan>
    decreases |items|
  {
    if items == [] then Some(scan)
    else match CheckItem(scan, items[0])
      case None => None
      case Some(next) => CheckItems(next, items[1..])
  }

  predicate AcceptsItems(items: seq<Item>) {
    var scan := CheckItems(FRESH, items);
    scan.Some? && (scan.value.terminated || scan.value.open == map[])
  }

  function Events(events: seq<Event>): seq<Item> {
    seq(|events|, i requires 0 <= i < |events| => Good(events[i]))
  }

  lemma {:induction false} GoodItemsAreEvents(scan: Scan, events: seq<Event>, rest: seq<Item>)
    ensures CheckItems(scan, Events(events) + rest) ==
            match CheckAll(scan, events)
            case None => None
            case Some(next) => CheckItems(next, rest)
    decreases |events|
  {
    var items := Events(events) + rest;
    if events == [] {
      assert items == rest;
    } else {
      assert items[0] == Good(events[0]) && items[1..] == Events(events[1..]) + rest;
      match Check(scan, events[0])
      case None =>
      case Some(next) => GoodItemsAreEvents(next, events[1..], rest);
    }
  }

  /**
   * A stream that fails is accepted exactly when its events so far broke no rule and none of them was
   * the terminal one; nothing may follow the failure.
   */
  lemma FailedStreamsAreAccepted(events: seq<Event>, later: seq<Item>)
    ensures AcceptsItems(Events(events) + [Failure] + later) <==>
            later == [] && CheckAll(FRESH, events).Some? && !CheckAll(FRESH, events).value.terminated
    ensures AcceptsItems(Events(events)) <==> Accepts(events)
  {
    assert Events(events) + [Failure] + later == Events(events) + ([Failure] + later);
    assert ([Failure] + later)[1..] == later;
    GoodItemsAreEvents(FRESH, events, [Failure] + later);
    assert Events(events) + [] == Events(events);
    GoodItemsAreEvents(FRESH, events, []);
  }

  lemma {:induction false} CheckAllConcat(scan: Scan, first: seq<Event>, second: seq<Event>)
    ensures CheckAll(scan, first + second) ==
            match CheckAll(scan, first)
            case None => None
            case Some(next) => CheckAll(next, second)
    decreases |first|
  {
    if first == [] {
      assert first + second == second;
    } else {
      assert (first + second)[1..] == first[1..] + second;
      match Check(scan, first[0])
      case None =>
      case Some(next) => CheckAllConcat(next, first[1..], second);
    }
  }

  // ---------------------------------------------------------------------------------------------
  // The rules themselves
  // ---------------------------------------------------------------------------------------------

  predicate IsStart(event: Event, id: BlockId) {
    event.BlockStart? && event.id == id
  }

  predicate IsEnd(event: Event, id: BlockId) {
    event.BlockEnd? && event.id == id
  }

  predicate HasStart(events: seq<Event>, id: BlockId) {
    exists i :: 0 <= i < |events| && IsStart(events[i], id)
  }

  predicate HasEnd(events: seq<Event>, id: BlockId) {
    exists i :: 0 <= i < |events| && IsEnd(events[i], id)
  }

  predicate HasStarted(events: seq<Event>) {
    exists i :: 0 <= i < |events| && events[i].Started?
  }

  predicate HasEnded(events: seq<Event>) {
    exists i :: 0 <= i < |events| && events[i].Ended?
  }

  /** Some start of the event's block so far has the kind of content the delta carries. */
  predicate DeltaFits(before: seq<Event>, delta: Event)
    requires delta.IsDelta()
  {
    exists i :: 0 <= i < |before| && IsStart(before[i], delta.id)
                && (delta.TextDelta? ==> before[i].kind.Text?)
                && (delta.ReasoningDelta? ==> before[i].kind.Reasoning?)
                && (delta.ToolCallDelta? ==> before[i].kind.ToolCall?)
  }

  /** The documented rules for one event, given the events before it. */
  ghost predicate MayFollow(before: seq<Event>, event: Event) {
    && !HasEnded(before)
    && match event
       case Started(_) => !HasStarted(before)
       case BlockStart(id, _) => !HasStart(before, id)
       case BlockEnd(id, _) => HasStart(before, id) && !HasEnd(before, id)
       case Ended(_) => forall id :: HasStart(before, id) ==> HasEnd(before, id)
       case Usage(_) => true
       case RateLimits(_) => true
       case _ => DeltaFits(before, event) && !HasEnd(before, event.id)
  }

  ghost predicate Lawful(events: seq<Event>) {
    forall j :: 0 <= j < |events| ==> MayFollow(events[..j], events[j])
  }

  /** What the scanner remembers, as a reading of the events so far. */
  ghost predicate Recalls(scan: Scan, events: seq<Event>) {
    && (scan.started <==> HasStarted(events))
    && (scan.terminated <==> HasEnded(events))
    && (forall id :: id in scan.open <==> HasStart(events, id) && !HasEnd(events, id))
    && (forall id :: id in scan.closed <==> HasEnd(events, id))
    && (forall id :: HasEnd(events, id) ==> HasStart(events, id))
    && (forall i :: 0 <= i < |events| && events[i].BlockStart? && events[i].id in scan.open ==>
          scan.open[events[i].id] == events[i].kind)
  }

  lemma OneMoreEvent(events: seq<Event>, last: Event)
    ensures
      var all := events + [last];
      && (HasStarted(all) <==> HasStarted(events) || last.Started?)
      && (HasEnded(all) <==> HasEnded(events) || last.Ended?)
      && (forall id :: HasStart(all, id) <==> HasStart(events, id) || IsStart(last, id))
      && (forall id :: HasEnd(all, id) <==> HasEnd(events, id) || IsEnd(last, id))
  {
    var all := events + [last];
    assert all[|events|] == last;
    assert forall i :: 0 <= i < |events| ==> all[i] == events[i];
  }

  lemma DeltaFitsTheOpenKind(scan: Scan, events: seq<Event>, delta: Event)
    requires Recalls(scan, events) && delta.IsDelta()
    ensures delta.id in scan.open && Matches(delta.DeltaShape(), scan.open[delta.id]) <==>
            DeltaFits(events, delta) && !HasEnd(events, delta.id)
  {
    if delta.id in scan.open {
      var i :| 0 <= i < |events| && IsStart(events[i], delta.id);
      assert scan.open[delta.id] == events[i].kind;
    }
  }

  /** The scanner takes one more event exactly when the rules let it follow, and keeps its account of them. */
  lemma CheckIsMayFollow(scan: Scan, events: seq<Event>, event: Event)
    requires Recalls(scan, events)
    ensures Check(scan, event).Some? <==> MayFollow(events, event)
    ensures Check(scan, event).Some? ==> Recalls(Check(scan, event).value, events + [event])
  {
    OneMoreEvent(events, event);
    if event.IsDelta() {
      DeltaFitsTheOpenKind(scan, events, event);
    }
    hide HasStart, HasEnd, HasStarted, HasEnded, DeltaFits;
    if event.Ended? {
      assert scan.open == map[] <==> forall id :: id !in scan.open;
    }
  }

  lemma {:induction false} ScanIsLawful(events: seq<Event>)
    ensures CheckAll(FRESH, events).Some? <==> Lawful(events)
    ensures CheckAll(FRESH, events).Some? ==> Recalls(CheckAll(FRESH, events).value, events)
  {
    if events != [] {
      var front, last := events[..|events| - 1], events[|events| - 1];
      assert events == front + [last];
      ScanIsLawful(front);
      CheckAllConcat(FRESH, front, [last]);
      assert Lawful(events) <==> Lawful(front) && MayFollow(front, last) by { LawfulNext(front, last); }
      if CheckAll(FRESH, front).Some? {
        var scan := CheckAll(FRESH, front).value;
        CheckIsMayFollow(scan, front, last);
        hide Check, Recalls, Lawful, MayFollow;
        assert CheckAll(scan, [last]) == Check(scan, last) by { CheckLast(scan, last); }
      }
    }
  }

  lemma CheckLast(scan: Scan, event: Event)
    ensures CheckAll(scan, [event]) == Check(scan, event)
  {}

  lemma LawfulNext(events: seq<Event>, last: Event)
    ensures Lawful(events + [last]) <==> Lawful(events) && MayFollow(events, last)
  {
    hide MayFollow;
    var all := events + [last];
    assert all[..|events|] == events && all[|events|] == last;
    assert forall j :: 0 <= j < |events| ==> all[..j] == events[..j] && all[j] == events[j];
  }

  /**
   * The scanner is the documented rules, event by event: one start of the stream at most; a block
   * starts once, before any of its deltas, which carry its kind of content, and ends once, after them;
   * the terminal event comes once every block has ended, and nothing after it. A whole stream also
   * ends every block it started, or has its terminal event.
   */
  lemma ScannerIsTheRules(events: seq<Event>)
    ensures Unbroken(events) <==> Lawful(events)
    ensures Accepts(events) <==>
            Lawful(events) && (HasEnded(events) || forall id :: HasStart(events, id) ==> HasEnd(events, id))
  {
    ScanIsLawful(events);
    hide HasStart, HasEnd, HasStarted, HasEnded, Lawful, Check, CheckAll;
    if CheckAll(FRESH, events).Some? {
      var scan := CheckAll(FRESH, events).value;
      assert scan.open == map[] <==> forall id :: id !in scan.open;
    }
  }
}

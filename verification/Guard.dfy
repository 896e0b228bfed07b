/**
 * Call guards: the token and deadline snapshotted at one call boundary, and what reaches a caller
 * through any number of nested boundaries.
 *
 * Time is read where the source reads it: each guard has its own reading at each poll. A token counts
 * as cancelled at a reading once a wait on it would return there.
 */
module Guards {
  import opened Wrappers
  import opened Sequences
  import StreamTypes

  datatype Guard = Guard(token: nat, deadline: Option<int>)

  datatype Failure = Cancelled | Expired | TimeoutTooLarge | EndedEarly | Downstream(code: nat)

  /** The clock and the cancelled tokens as one guard sees them. */
  datatype Reading = Reading(now: int, cancelled: set<nat>)

  /** Neither cancelled nor expired. */
  predicate IsOpen(g: Guard, at: Reading) {
    g.token !in at.cancelled && (g.deadline.Some? ==> at.now < g.deadline.value)
  }

  /** The clock only advances and a cancelled token stays cancelled. */
  predicate Later(a: Reading, b: Reading) {
    a.now <= b.now && a.cancelled <= b.cancelled
  }

  // ---------------------------------------------------------------------------------------------
  // One guard
  // ---------------------------------------------------------------------------------------------

  function Check(g: Guard, at: Reading): Result<(), Failure> {
    if g.token in at.cancelled then Err(Cancelled)
    else if g.deadline.Some? && at.now >= g.deadline.value then Err(Expired)
    else Ok(())
  }

  /** Tightens the deadline; fails when the clock cannot express the new one. */
  function WithTimeout(g: Guard, now: int, timeout: nat, latest: int): Result<Guard, Failure> {
    if now + timeout > latest then Err(TimeoutTooLarge)
    else
      var deadline := now + timeout;
      Ok(g.(deadline := Some(if g.deadline.Some? && g.deadline.value < deadline then g.deadline.value else deadline)))
  }

  /** Whether a retry after `delay` could still run: two readings of the clock, as the source takes them. */
  function PermitsRetryAfter(g: Guard, checked: Reading, now: int, delay: nat, latest: int): bool {
    Check(g, checked).Ok? && (g.deadline.Some? ==> now + delay <= latest && now + delay < g.deadline.value)
  }

  /** The deadline a call gets from its request's timeout, or else the client's default. */
  function PrepareDeadline(g: Guard, timeout: Option<nat>, byDefault: Option<nat>, now: int, latest: int)
    : Result<Option<int>, Failure>
  {
    match timeout.Or(byDefault)
    case None => Ok(g.deadline)
    case Some(t) =>
      match WithTimeout(g, now, t, latest)
      case Ok(tightened) => Ok(tightened.deadline)
      case Err(e) => Err(e)
  }

  /** A timeout never extends a deadline and never cuts it shorter than asked: at every later moment the guard is open exactly when both limits are. */
  lemma TimeoutsOnlyTighten(g: Guard, now: int, timeout: nat, latest: int, at: Reading)
    ensures WithTimeout(g, now, timeout, latest).Err? <==> now + timeout > latest
    ensures WithTimeout(g, now, timeout, latest).Ok? ==>
      (IsOpen(WithTimeout(g, now, timeout, latest).value, at) <==> IsOpen(g, at) && at.now < now + timeout)
  {}

  /** Preparing a call keeps the context's own deadline and adds the request's timeout, or the default when it has none. */
  lemma PreparedDeadlinesOnlyTighten(g: Guard, timeout: Option<nat>, byDefault: Option<nat>, now: int, latest: int, at: Reading)
    requires PrepareDeadline(g, timeout, byDefault, now, latest).Ok?
    ensures
      var prepared := g.(deadline := PrepareDeadline(g, timeout, byDefault, now, latest).value);
      IsOpen(prepared, at) <==>
        && IsOpen(g, at)
        && (timeout.Some? ==> at.now < now + timeout.value)
        && (timeout.None? && byDefault.Some? ==> at.now < now + byDefault.value)
  {}

  /**
   * What the answer is worth to a caller about to wait. After a yes, a retry that starts by the end of
   * its delay with its token uncancelled passes the guard. After a no, none that starts at the end of
   * its delay or later can, at any moment the clock can show. So the answer is yes exactly when the
   * guard can still be open at the end of the delay, or when it has no deadline to outlast.
   */
  lemma RetryPermissionIsExact(g: Guard, checked: Reading, now: int, delay: nat, latest: int)
    requires checked.now <= now
    ensures PermitsRetryAfter(g, checked, now, delay, latest) ==>
      forall at: Reading :: at.now <= now + delay && g.token !in at.cancelled ==> IsOpen(g, at)
    ensures !PermitsRetryAfter(g, checked, now, delay, latest) ==>
      forall at: Reading :: Later(checked, at) && now + delay <= at.now <= latest ==> !IsOpen(g, at)
    ensures now + delay <= latest || g.deadline.Some? ==>
      (PermitsRetryAfter(g, checked, now, delay, latest) <==>
       exists at: Reading :: Later(checked, at) && now + delay <= at.now <= latest && IsOpen(g, at))
  {
    var due := Reading(now + delay, checked.cancelled);
    assert Later(checked, due);
    if PermitsRetryAfter(g, checked, now, delay, latest) {
      assert IsOpen(g, due);
    }
  }

  // ---------------------------------------------------------------------------------------------
  // Polling through nested boundaries
  // ---------------------------------------------------------------------------------------------

  datatype Polled<T> = Pending | Ready(value: T) | Failed(failure: Failure)

  /** The readings one guard takes in one poll: on entry when this is its first poll, and in the race itself. */
  datatype Visit = Visit(entry: Option<Reading>, race: Reading)

  /** Racing cancellation, then the deadline, then the guarded future, in that order. */
  function PollGuarded<T>(g: Guard, visit: Visit, inner: Polled<T>): Polled<T> {
    if visit.entry.Some? && Check(g, visit.entry.value).Err? then Failed(Check(g, visit.entry.value).error)
    else if Check(g, visit.race).Err? then Failed(Check(g, visit.race).error)
    else inner
  }

  /** Whether the guarded future is polled at all. */
  predicate Passes(g: Guard, visit: Visit) {
    (visit.entry.Some? ==> IsOpen(g, visit.entry.value)) && IsOpen(g, visit.race)
  }

  /** What a middleware does at one poll: answer by itself, or poll what it encloses and rework the result. */
  datatype Conduct<!T> = Answers(result: Polled<T>) | Forwards(rework: Polled<T> -> Polled<T>)

  /** One boundary: the guard retained for it, its readings at this poll, and the middleware inside it. */
  datatype Layer<!T> = Layer(guard: Guard, visit: Visit, conduct: Conduct<T>)

  /** One poll of the whole stack, outermost boundary first. */
  function PollStack<T>(layers: seq<Layer<T>>, endpoint: Polled<T>): Polled<T> {
    if layers == [] then endpoint
    else
      var layer := layers[0];
      PollGuarded(layer.guard, layer.visit,
                  match layer.conduct
                  case Answers(result) => result
                  case Forwards(rework) => rework(PollStack(layers[1..], endpoint)))
  }

  lemma PassesIsCheck(g: Guard, visit: Visit)
    ensures Passes(g, visit) <==>
      (visit.entry.Some? ==> Check(g, visit.entry.value).Ok?) && Check(g, visit.race).Ok?
  {}

  /**
   * Nothing inside a closed boundary reaches the caller: whatever its middleware does at this poll,
   * whatever deeper boundaries there are and whatever the endpoint would say, the result is the same.
   */
  lemma {:induction false} ClosedGuardsHideTheirInside<T>(
    outer: seq<Layer<T>>, g: Guard, visit: Visit, c1: Conduct<T>, c2: Conduct<T>,
    inside1: seq<Layer<T>>, inside2: seq<Layer<T>>, a: Polled<T>, b: Polled<T>)
    requires !Passes(g, visit)
    ensures PollStack(outer + ([Layer(g, visit, c1)] + inside1), a) ==
            PollStack(outer + ([Layer(g, visit, c2)] + inside2), b)
  {
    var first, second := [Layer(g, visit, c1)] + inside1, [Layer(g, visit, c2)] + inside2;
    if outer == [] {
      PassesIsCheck(g, visit);
      assert [] + first == first && [] + second == second;
    } else {
      HeadAndTail(outer, first);
      HeadAndTail(outer, second);
      ClosedGuardsHideTheirInside(outer[1..], g, visit, c1, c2, inside1, inside2, a, b);
    }
  }

  /**
   * Two polls that differ only in what some boundary's middleware, its inside or the endpoint do can
   * only come out differently when that boundary's guard and every guard around it are open, each at
   * its own reading.
   */
  lemma EnclosingGuardsAreOpen<T>(
    outer: seq<Layer<T>>, g: Guard, visit: Visit, c1: Conduct<T>, c2: Conduct<T>,
    inside1: seq<Layer<T>>, inside2: seq<Layer<T>>, a: Polled<T>, b: Polled<T>)
    requires PollStack(outer + ([Layer(g, visit, c1)] + inside1), a) !=
             PollStack(outer + ([Layer(g, visit, c2)] + inside2), b)
    ensures Passes(g, visit)
    ensures forall i :: 0 <= i < |outer| ==> Passes(outer[i].guard, outer[i].visit)
  {
    if !Passes(g, visit) {
      ClosedGuardsHideTheirInside(outer, g, visit, c1, c2, inside1, inside2, a, b);
    }
    var first, second := [Layer(g, visit, c1)] + inside1, [Layer(g, visit, c2)] + inside2;
    forall i | 0 <= i < |outer|
      ensures Passes(outer[i].guard, outer[i].visit)
    {
      if !Passes(outer[i].guard, outer[i].visit) {
        var closed := outer[i];
        assert outer == outer[..i] + ([closed] + outer[i + 1..]);
        Regroup(outer[..i], [closed], outer[i + 1..], first);
        Regroup(outer[..i], [closed], outer[i + 1..], second);
        ClosedGuardsHideTheirInside(outer[..i], closed.guard, closed.visit, closed.conduct, closed.conduct,
                                    outer[i + 1..] + first, outer[i + 1..] + second, a, b);
      }
    }
  }

  lemma Regroup<T>(a: seq<T>, b: seq<T>, c: seq<T>, d: seq<T>)
    ensures (a + (b + c)) + d == a + (b + (c + d))
  {}

  /** When some enclosing guard is closed, the endpoint is not polled: the result is the same whatever it would say. */
  lemma ClosedGuardsHideTheEndpoint<T>(layers: seq<Layer<T>>, a: Polled<T>, b: Polled<T>, d: nat)
    requires d < |layers| && !Passes(layers[d].guard, layers[d].visit)
    ensures PollStack(layers, a) == PollStack(layers, b)
  {
    var closed := layers[d];
    assert layers == layers[..d] + ([closed] + layers[d + 1..]);
    ClosedGuardsHideTheirInside(layers[..d], closed.guard, closed.visit, closed.conduct, closed.conduct,
                                layers[d + 1..], layers[d + 1..], a, b);
  }

  // ---------------------------------------------------------------------------------------------
  // Plain stacks behave as one tight guard
  // ---------------------------------------------------------------------------------------------

  /** A boundary whose middleware hands results through unchanged. */
  datatype Boundary = Boundary(guard: Guard, visit: Visit)

  function PollPlain<T>(boundaries: seq<Boundary>, endpoint: Polled<T>): Polled<T> {
    if boundaries == [] then endpoint
    else PollGuarded(boundaries[0].guard, boundaries[0].visit, PollPlain(boundaries[1..], endpoint))
  }

  function PlainLayer<T>(b: Boundary): Layer<T> {
    Layer(b.guard, b.visit, Forwards((p: Polled<T>) => p))
  }

  lemma {:induction false} PlainStacksArePolledPlainly<T>(boundaries: seq<Boundary>, endpoint: Polled<T>)
    ensures PollStack(seq(|boundaries|, i requires 0 <= i < |boundaries| => PlainLayer<T>(boundaries[i])), endpoint) ==
            PollPlain(boundaries, endpoint)
  {
    if boundaries != [] {
      var rest := boundaries[1..];
      var layers := seq(|boundaries|, i requires 0 <= i < |boundaries| => PlainLayer<T>(boundaries[i]));
      assert layers[1..] == seq(|rest|, i requires 0 <= i < |rest| => PlainLayer<T>(rest[i]));
      PlainStacksArePolledPlainly(rest, endpoint);
    }
  }

  /** A result comes through exactly when every guard is open; otherwise the outermost closed guard decides the failure. */
  lemma {:induction false} PlainResult<T>(boundaries: seq<Boundary>, endpoint: Polled<T>)
    ensures (forall i :: 0 <= i < |boundaries| ==> Passes(boundaries[i].guard, boundaries[i].visit)) ==>
      PollPlain(boundaries, endpoint) == endpoint
    ensures forall i ::
      0 <= i < |boundaries| && !Passes(boundaries[i].guard, boundaries[i].visit)
      && (forall k :: 0 <= k < i ==> Passes(boundaries[k].guard, boundaries[k].visit)) ==>
        PollPlain(boundaries, endpoint) == PollGuarded<T>(boundaries[i].guard, boundaries[i].visit, Pending)
        && (PollPlain(boundaries, endpoint) == Failed(Cancelled) || PollPlain(boundaries, endpoint) == Failed(Expired))
  {
    if boundaries != [] && Passes(boundaries[0].guard, boundaries[0].visit) {
      PassesIsCheck(boundaries[0].guard, boundaries[0].visit);
      PlainResult(boundaries[1..], endpoint);
    }
    hide PollPlain, PollGuarded, Passes;
    forall i | 0 <= i < |boundaries| && !Passes(boundaries[i].guard, boundaries[i].visit)
               && (forall k :: 0 <= k < i ==> Passes(boundaries[k].guard, boundaries[k].visit))
      ensures PollPlain(boundaries, endpoint) == PollGuarded<T>(boundaries[i].guard, boundaries[i].visit, Pending)
      ensures PollPlain(boundaries, endpoint) == Failed(Cancelled) || PollPlain(boundaries, endpoint) == Failed(Expired)
    {
      PlainFailure(boundaries, endpoint, i);
    }
  }

  lemma {:induction false} PlainFailure<T>(boundaries: seq<Boundary>, endpoint: Polled<T>, i: nat)
    requires i < |boundaries| && !Passes(boundaries[i].guard, boundaries[i].visit)
    requires forall k :: 0 <= k < i ==> Passes(boundaries[k].guard, boundaries[k].visit)
    ensures PollPlain(boundaries, endpoint) == PollGuarded<T>(boundaries[i].guard, boundaries[i].visit, Pending)
    ensures PollPlain(boundaries, endpoint) == Failed(Cancelled) || PollPlain(boundaries, endpoint) == Failed(Expired)
  {
    PassesIsCheck(boundaries[0].guard, boundaries[0].visit);
    if i > 0 {
      var rest := boundaries[1..];
      assert forall k :: 0 <= k < i ==> rest[k] == boundaries[k + 1];
      PlainFailure(rest, endpoint, i - 1);
      assert Passes(boundaries[0].guard, boundaries[0].visit);
    }
  }

  /**
   * The outermost closed guard gives the reason, and cancellation comes before expiry there, even
   * though an inner guard may be closed for another reason and the endpoint may be ready.
   */
  lemma OutermostClosedGuardDecides<T>(boundaries: seq<Boundary>, at: Reading, endpoint: Polled<T>, i: nat)
    requires i < |boundaries| && forall k :: 0 <= k < |boundaries| ==> boundaries[k].visit == Visit(None, at)
    requires !IsOpen(boundaries[i].guard, at) && forall k :: 0 <= k < i ==> IsOpen(boundaries[k].guard, at)
    ensures PollPlain(boundaries, endpoint) ==
            Failed(if boundaries[i].guard.token in at.cancelled then Cancelled else Expired)
  {
    hide PollPlain;
    PlainFailure(boundaries, endpoint, i);
    assert forall k :: 0 <= k <= i ==> (Passes(boundaries[k].guard, boundaries[k].visit) <==> IsOpen(boundaries[k].guard, at));
  }

  function Tokens(guards: seq<Guard>): set<nat> {
    set i | 0 <= i < |guards| :: guards[i].token
  }

  /** The earliest of all the deadlines. */
  function Earliest(guards: seq<Guard>): Option<int> {
    if guards == [] then None
    else
      var rest := Earliest(guards[1..]);
      if guards[0].deadline.None? then rest
      else if rest.Some? && rest.value < guards[0].deadline.value then rest
      else guards[0].deadline
  }

  function GuardsOf(boundaries: seq<Boundary>): seq<Guard> {
    seq(|boundaries|, i requires 0 <= i < |boundaries| => boundaries[i].guard)
  }

  lemma {:induction false} EarliestDecides(guards: seq<Guard>, now: int)
    ensures (Earliest(guards).Some? ==> now < Earliest(guards).value) <==>
      forall i :: 0 <= i < |guards| ==> guards[i].deadline.Some? ==> now < guards[i].deadline.value
  {
    if guards != [] {
      EarliestDecides(guards[1..], now);
      assert guards == [guards[0]] + guards[1..];
    }
  }

  /**
   * However each layer rewrote its deadline or token, a stack read at one moment lets a result through
   * exactly when no snapshotted token is cancelled and the moment is before the earliest snapshotted
   * deadline: an inner rewrite never undoes an outer limit.
   */
  lemma NestedGuardsOnlyTighten<T>(boundaries: seq<Boundary>, at: Reading, endpoint: Polled<T>)
    requires forall i :: 0 <= i < |boundaries| ==> boundaries[i].visit == Visit(None, at)
    ensures
      var guards := GuardsOf(boundaries);
      PollPlain(boundaries, endpoint).Ready? <==>
        && endpoint.Ready?
        && Tokens(guards) !! at.cancelled
        && (Earliest(guards).Some? ==> at.now < Earliest(guards).value)
    ensures PollPlain(boundaries, endpoint).Ready? ==> PollPlain(boundaries, endpoint) == endpoint
  {
    AllPassExactly(boundaries, at);
    hide Passes, Tokens, Earliest, GuardsOf, PollPlain;
    if forall i :: 0 <= i < |boundaries| ==> Passes(boundaries[i].guard, boundaries[i].visit) {
      PlainResult(boundaries, endpoint);
    } else {
      var i := FirstClosed(boundaries);
      PlainFailure(boundaries, endpoint, i);
    }
  }

  lemma AllPassExactly(boundaries: seq<Boundary>, at: Reading)
    requires forall i :: 0 <= i < |boundaries| ==> boundaries[i].visit == Visit(None, at)
    ensures
      var guards := GuardsOf(boundaries);
      (forall i :: 0 <= i < |boundaries| ==> Passes(boundaries[i].guard, boundaries[i].visit)) <==>
        Tokens(guards) !! at.cancelled && (Earliest(guards).Some? ==> at.now < Earliest(guards).value)
  {
    hide IsOpen, Tokens, Earliest;
    var guards := GuardsOf(boundaries);
    AllOpenExactly(guards, at);
    forall i | 0 <= i < |guards|
      ensures Passes(boundaries[i].guard, boundaries[i].visit) <==> IsOpen(guards[i], at)
    {}
  }

  /** All guards are open exactly when none of their tokens is cancelled and the earliest deadline is ahead. */
  lemma AllOpenExactly(guards: seq<Guard>, at: Reading)
    ensures (forall i :: 0 <= i < |guards| ==> IsOpen(guards[i], at)) <==>
      Tokens(guards) !! at.cancelled && (Earliest(guards).Some? ==> at.now < Earliest(guards).value)
  {
    EarliestDecides(guards, at.now);
    hide Earliest;
    forall i | 0 <= i < |guards|
      ensures guards[i].token in Tokens(guards)
    {}
    if forall i :: 0 <= i < |guards| ==> IsOpen(guards[i], at) {
      forall t | t in Tokens(guards)
        ensures t !in at.cancelled
      {
        var i :| 0 <= i < |guards| && guards[i].token == t;
        assert IsOpen(guards[i], at);
      }
    }
  }

  lemma FirstClosed(boundaries: seq<Boundary>) returns (i: nat)
    requires exists k :: 0 <= k < |boundaries| && !Passes(boundaries[k].guard, boundaries[k].visit)
    ensures i < |boundaries| && !Passes(boundaries[i].guard, boundaries[i].visit)
    ensures forall k :: 0 <= k < i ==> Passes(boundaries[k].guard, boundaries[k].visit)
  {
    i := 0;
    while Passes(boundaries[i].guard, boundaries[i].visit)
      invariant i < |boundaries|
      invariant forall k :: 0 <= k < i ==> Passes(boundaries[k].guard, boundaries[k].visit)
      decreases |boundaries| - i
    {
      i := i + 1;
    }
  }

  // ---------------------------------------------------------------------------------------------
  // Streams: many polls
  // ---------------------------------------------------------------------------------------------

  /** One poll of a stream: nothing yet, an event, the end, or a failure. */
  type PolledItem = Polled<Option<StreamTypes.Event>>

  /** An item after which a stream gives no more: the terminal event, a failure, or the end itself. */
  predicate Terminal(item: PolledItem) {
    match item
    case Pending => false
    case Ready(event) => event.None? || event.value.Ended?
    case Failed(_) => true
  }

  /** A stream that ends without its terminal event has failed. */
  function Reported(item: PolledItem): PolledItem {
    if item == Ready(None) then Failed(EndedEarly) else item
  }

  /** A response stream's answer and whether it still holds what it wraps, which a terminal item releases. */
  datatype Answer = Answer(item: PolledItem, live: bool)

  function PollResponse(live: bool, wrapped: PolledItem): Answer {
    if !live then Answer(Ready(None), false) else Answer(Reported(wrapped), !Terminal(wrapped))
  }

  /** A nested stream's answer and which of its response streams, outermost first, are live. */
  datatype NestedAnswer = NestedAnswer(item: PolledItem, live: seq<bool>)

  /**
   * One poll of a response stream guarded at every boundary, each boundary wrapping the guarded stream
   * in a response stream of its own; the innermost one wraps `source`. A released stream polls nothing,
   * and what a closed guard keeps from being polled keeps its state.
   */
  function PollNested(boundaries: seq<Boundary>, live: seq<bool>, source: PolledItem): NestedAnswer
    requires |live| == |boundaries| + 1
  {
    if !live[0] then NestedAnswer(Ready(None), live)
    else if boundaries == [] then
      var answer := PollResponse(true, source);
      NestedAnswer(answer.item, [answer.live])
    else
      var b := boundaries[0];
      var inside :=
        if Passes(b.guard, b.visit) then PollNested(boundaries[1..], live[1..], source)
        else NestedAnswer(Pending, live[1..]);
      var answer := PollResponse(true, PollGuarded(b.guard, b.visit, inside.item));
      NestedAnswer(answer.item, [answer.live] + inside.live)
  }

  /** The guards retained around one stream, and every guard's readings at every poll. */
  datatype Watched = Watched(guards: seq<Guard>, visits: seq<seq<Visit>>)

  predicate Wellformed(w: Watched) {
    forall k :: 0 <= k < |w.visits| ==> |w.visits[k]| == |w.guards|
  }

  function BoundariesAt(w: Watched, k: nat): seq<Boundary>
    requires Wellformed(w) && k < |w.visits|
  {
    seq(|w.guards|, i requires 0 <= i < |w.guards| => Boundary(w.guards[i], w.visits[k][i]))
  }

  function AllLive(n: nat): seq<bool> {
    seq(n, i requires 0 <= i < n => true)
  }

  /** Which streams are live before poll `k`, when `source[j]` is what the source says if poll `j` reaches it. */
  function LiveBefore(w: Watched, source: seq<PolledItem>, k: nat): (live: seq<bool>)
    requires Wellformed(w) && k <= |w.visits| == |source|
    ensures |live| == |w.guards| + 1
  {
    if k == 0 then AllLive(|w.guards| + 1)
    else
      var before := LiveBefore(w, source, k - 1);
      NestedLength(BoundariesAt(w, k - 1), before, source[k - 1]);
      PollNested(BoundariesAt(w, k - 1), before, source[k - 1]).live
  }

  /** What poll `k` of the guarded stream gives its caller. */
  function PollEvent(w: Watched, source: seq<PolledItem>, k: nat): PolledItem
    requires Wellformed(w) && k < |w.visits| == |source|
  {
    PollNested(BoundariesAt(w, k), LiveBefore(w, source, k), source[k]).item
  }

  lemma {:induction false} NestedLength(boundaries: seq<Boundary>, live: seq<bool>, source: PolledItem)
    requires |live| == |boundaries| + 1
    ensures |PollNested(boundaries, live, source).live| == |live|
  {
    if boundaries != [] {
      NestedLength(boundaries[1..], live[1..], source);
    }
  }

  predicate OpenAt(w: Watched, k: nat)
    requires Wellformed(w) && k < |w.visits|
  {
    forall i :: 0 <= i < |w.guards| ==> Passes(w.guards[i], w.visits[k][i])
  }

  lemma AllLiveTail(n: nat)
    ensures AllLive(n + 1) == [true] + AllLive(n) && AllLive(n + 1)[1..] == AllLive(n)
  {}

  /** With every stream live and every guard open, a poll passes the source through. */
  lemma {:induction false} OpenPoll(boundaries: seq<Boundary>, source: PolledItem)
    requires forall i :: 0 <= i < |boundaries| ==> Passes(boundaries[i].guard, boundaries[i].visit)
    ensures
      var answer := PollNested(boundaries, AllLive(|boundaries| + 1), source);
      && |answer.live| == |boundaries| + 1
      && answer.item == Reported(source)
      && (Terminal(source) ==> !answer.live[0])
      && (!Terminal(source) ==> answer.live == AllLive(|boundaries| + 1))
  {
    AllLiveTail(|boundaries|);
    if boundaries != [] {
      var first, rest := boundaries[0], boundaries[1..];
      PassesIsCheck(first.guard, first.visit);
      OpenPoll(rest, source);
      hide AllLive;
    }
  }

  /** With every stream live, a poll gives up at the outermost closed guard and releases the outside. */
  lemma {:induction false} ClosedPoll(boundaries: seq<Boundary>, source: PolledItem, i: nat)
    requires i < |boundaries| && !Passes(boundaries[i].guard, boundaries[i].visit)
    requires forall k :: 0 <= k < i ==> Passes(boundaries[k].guard, boundaries[k].visit)
    ensures
      var answer := PollNested(boundaries, AllLive(|boundaries| + 1), source);
      && |answer.live| == |boundaries| + 1
      && answer.item == Failed(WhyClosed(boundaries[i].guard, boundaries[i].visit))
      && !answer.live[0]
  {
    var first, rest := boundaries[0], boundaries[1..];
    AllLiveTail(|boundaries|);
    PassesIsCheck(first.guard, first.visit);
    if i > 0 {
      assert forall k :: 0 <= k < i ==> rest[k] == boundaries[k + 1];
      ClosedPoll(rest, source, i - 1);
      hide AllLive, WhyClosed;
      assert Passes(first.guard, first.visit);
    } else {
      AllLiveTail(|rest|);
    }
  }

  /** The poll that ends a guarded stream: its item, and nothing live on the outside after it. */
  lemma LastPoll(w: Watched, k: nat, source: PolledItem)
    requires Wellformed(w) && k < |w.visits| && (!OpenAt(w, k) || Terminal(source))
    ensures
      var answer := PollNested(BoundariesAt(w, k), AllLive(|w.guards| + 1), source);
      && |answer.live| == |w.guards| + 1 && !answer.live[0]
      && (OpenAt(w, k) ==> answer.item == Reported(source))
      && (!OpenAt(w, k) ==>
            exists i :: IsOutermostClosed(w, k, i) && answer.item == Failed(WhyClosed(w.guards[i], w.visits[k][i])))
  {
    hide PollNested;
    var boundaries := BoundariesAt(w, k);
    if OpenAt(w, k) {
      OpenPoll(boundaries, source);
    } else {
      var c :| 0 <= c < |w.guards| && !Passes(w.guards[c], w.visits[k][c]);
      assert !Passes(boundaries[c].guard, boundaries[c].visit);
      var i := FirstClosed(boundaries);
      assert forall j :: 0 <= j <= i ==> boundaries[j] == Boundary(w.guards[j], w.visits[k][j]);
      assert IsOutermostClosed(w, k, i);
      ClosedPoll(boundaries, source, i);
    }
  }

  /** Why a closed guard is closed: cancellation before expiry, and the entry reading before the race. */
  function WhyClosed(g: Guard, visit: Visit): Failure
    requires !Passes(g, visit)
  {
    var closing := if visit.entry.Some? && !IsOpen(g, visit.entry.value) then visit.entry.value else visit.race;
    if g.token in closing.cancelled then Cancelled else Expired
  }

  predicate IsOutermostClosed(w: Watched, k: nat, i: int)
    requires Wellformed(w) && k < |w.visits|
  {
    0 <= i < |w.guards| && !Passes(w.guards[i], w.visits[k][i])
    && forall j :: 0 <= j < i ==> Passes(w.guards[j], w.visits[k][j])
  }

  /**
   * A stream under any number of guards is its source, poll for poll, up to the first poll at which
   * some guard is closed or the source gives a terminal item. That poll gives exactly one terminal
   * item: the outermost closed guard's reason when one is closed, and otherwise the source's own, an
   * end without the terminal event being reported as a failure. Every later poll gives the end.
   */
  lemma GuardedStreamIsAPrefix(w: Watched, source: seq<PolledItem>) returns (cut: nat)
    requires Wellformed(w) && |source| == |w.visits|
    ensures cut <= |source|
    ensures forall k :: 0 <= k < cut ==> OpenAt(w, k) && !Terminal(source[k]) && PollEvent(w, source, k) == source[k]
    ensures cut < |source| ==>
      && (OpenAt(w, cut) ==> Terminal(source[cut]) && PollEvent(w, source, cut) == Reported(source[cut]))
      && (!OpenAt(w, cut) ==>
            exists i :: IsOutermostClosed(w, cut, i)
                        && PollEvent(w, source, cut) == Failed(WhyClosed(w.guards[i], w.visits[cut][i])))
    ensures forall k :: cut < k < |source| ==> PollEvent(w, source, k) == Ready(None)
  {
    hide PollNested, AllLive, Terminal, WhyClosed, OpenAt, PollEvent, LiveBefore;
    cut := 0;
    assert LiveBefore(w, source, 0) == AllLive(|w.guards| + 1) by { NothingReleasedYet(w, source); }
    while cut < |source| && OpenAt(w, cut) && !Terminal(source[cut])
      invariant cut <= |source| && LiveBefore(w, source, cut) == AllLive(|w.guards| + 1)
      invariant forall k :: 0 <= k < cut ==> OpenAt(w, k) && !Terminal(source[k]) && PollEvent(w, source, k) == source[k]
    {
      LivePoll(w, source, cut);
      cut := cut + 1;
    }
    if cut < |source| {
      LastPoll(w, cut, source[cut]);
      PollIs(w, source, cut);
      forall k | cut < k < |source|
        ensures PollEvent(w, source, k) == Ready(None)
      {
        ReleasedForGood(w, source, cut + 1, k);
        ReleasedPoll(w, source, k);
      }
    }
  }

  /** Nothing yet, or an event other than the terminal one. */
  predicate GoesOn(item: PolledItem) {
    item.Pending? || (item.Ready? && item.value.Some? && !item.value.value.Ended?)
  }

  lemma TerminalIs(item: PolledItem)
    ensures Terminal(item) <==> !GoesOn(item)
    ensures Reported(item) == if item == Ready(None) then Failed(EndedEarly) else item
  {}

  /**
   * While every guard is open and the source goes on, the caller gets the source's own items. The poll
   * that stops this gives an open stream's last item, a failure or the terminal event as it is and a bare
   * end as the failure that the stream ended early; under a closed guard it gives a cancellation or an
   * expiry. All later polls give the bare end.
   */
  lemma GuardedStreamEndsOnce(w: Watched, source: seq<PolledItem>) returns (cut: nat)
    requires Wellformed(w) && |source| == |w.visits|
    ensures cut <= |source|
    ensures forall k :: 0 <= k < cut ==> OpenAt(w, k) && GoesOn(source[k]) && PollEvent(w, source, k) == source[k]
    ensures cut < |source| && OpenAt(w, cut) ==>
      && !GoesOn(source[cut])
      && PollEvent(w, source, cut) == if source[cut] == Ready(None) then Failed(EndedEarly) else source[cut]
    ensures cut < |source| && !OpenAt(w, cut) ==>
      PollEvent(w, source, cut) == Failed(Cancelled) || PollEvent(w, source, cut) == Failed(Expired)
    ensures forall k :: cut < k < |source| ==> PollEvent(w, source, k) == Ready(None)
  {
    hide OpenAt, PollEvent, Terminal, GoesOn, Reported;
    cut := GuardedStreamIsAPrefix(w, source);
    forall k | 0 <= k < |source|
      ensures Terminal(source[k]) <==> !GoesOn(source[k])
      ensures Reported(source[k]) == if source[k] == Ready(None) then Failed(EndedEarly) else source[k]
    {
      TerminalIs(source[k]);
    }
  }

  lemma NothingReleasedYet(w: Watched, source: seq<PolledItem>)
    requires Wellformed(w) && |source| == |w.visits|
    ensures LiveBefore(w, source, 0) == AllLive(|w.guards| + 1)
  {}

  lemma PollIs(w: Watched, source: seq<PolledItem>, k: nat)
    requires Wellformed(w) && k < |w.visits| == |source|
    ensures
      var answer := PollNested(BoundariesAt(w, k), LiveBefore(w, source, k), source[k]);
      PollEvent(w, source, k) == answer.item && LiveBefore(w, source, k + 1) == answer.live
  {}

  /** While every stream is live, an open poll that is not the last gives the source's item and releases nothing. */
  lemma LivePoll(w: Watched, source: seq<PolledItem>, k: nat)
    requires Wellformed(w) && k < |w.visits| == |source|
    requires LiveBefore(w, source, k) == AllLive(|w.guards| + 1) && OpenAt(w, k) && !Terminal(source[k])
    ensures PollEvent(w, source, k) == source[k]
    ensures LiveBefore(w, source, k + 1) == AllLive(|w.guards| + 1)
  {
    NotTheEnd(source[k]);
    PollIs(w, source, k);
    OpenPoll(BoundariesAt(w, k), source[k]);
    hide PollNested, AllLive, LiveBefore, Reported;
  }

  lemma NotTheEnd(item: PolledItem)
    requires !Terminal(item)
    ensures Reported(item) == item
  {}

  lemma ReleasedPoll(w: Watched, source: seq<PolledItem>, k: nat)
    requires Wellformed(w) && k < |w.visits| == |source| && !LiveBefore(w, source, k)[0]
    ensures PollEvent(w, source, k) == Ready(None)
  {}

  /** A released stream stays released. */
  lemma {:induction false} ReleasedForGood(w: Watched, source: seq<PolledItem>, k: nat, l: nat)
    requires Wellformed(w) && |source| == |w.visits| && k <= l <= |source|
    requires !LiveBefore(w, source, k)[0]
    ensures !LiveBefore(w, source, l)[0]
  {
    if k < l {
      ReleasedForGood(w, source, k, l - 1);
    }
  }
}

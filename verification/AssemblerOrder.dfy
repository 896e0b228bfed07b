/** The order in which a completion ends the blocks still open: that of their last starts. */
module AssemblerOrder {
  import opened Wrappers
  import opened Sequences
  import opened StreamTypes
  import opened StreamContract
  import opened BlockMachine
  import opened BlockRuns
  import opened AssemblerModel
  import opened AssemblerRuns
  import opened AssemblerCompletion

  /** Where a block was last started. */
  predicate LastStarted(events: seq<Event>, id: BlockId, k: nat) {
    k < |events| && IsStart(events[k], id) && forall m :: k < m < |events| ==> !IsStart(events[m], id)
  }

  /** The ids stand in the order their blocks were last started. */
  ghost predicate InOpeningOrder(ids: seq<BlockId>, events: seq<Event>) {
    && (forall id <- ids :: exists k: nat :: LastStarted(events, id, k))
    && forall i, j, k: nat, l: nat ::
         0 <= i < j < |ids| && LastStarted(events, ids[i], k) && LastStarted(events, ids[j], l) ==> k < l
  }

  predicate NoStart(events: seq<Event>) {
    forall i :: 0 <= i < |events| ==> !events[i].BlockStart?
  }

  lemma LastStartStays(events: seq<Event>, more: seq<Event>, id: BlockId, k: nat)
    requires forall i :: 0 <= i < |more| ==> !IsStart(more[i], id)
    ensures LastStarted(events + more, id, k) <==> LastStarted(events, id, k)
  {
    var all := events + more;
    assert forall i :: 0 <= i < |events| ==> all[i] == events[i];
    assert forall i :: 0 <= i < |more| ==> all[|events| + i] == more[i];
  }

  /** What one call on a block does to the order: nothing, a new id at the end with its start, or one id less. */
  lemma OrderAfterTouch(s: Ledger, id: BlockId, call: BlockCall)
    requires s.Valid()
    ensures
      var after := TouchBlock(s, id, call);
      || (NoStart(after.events) && (after.ledger.order == s.order || after.ledger.order == Without(s.order, id)))
      || (id !in s.order && after.ledger.order == s.order + [id]
          && after.events != [] && IsStart(after.events[0], id) && NoStart(after.events[1..]))
  {
    if id in s.table {
      KnownBlockStartsNothing(id, s.signatures, s.table[id], call);
    } else if LatchKind(id, call).Some? {
      FirstCallStartsOnce(id, s.signatures, call);
    } else {
      IgnoredCall(s, id, call);
    }
    hide CallBlock, Without, IsStart, NoStart;
  }

  lemma KnownBlockStartsNothing(id: BlockId, origin: Option<string>, b: Block, call: BlockCall)
    ensures NoStart(CallBlock(id, origin, Some(b), call).events)
  {
    hide Block.IntoPart;
  }

  lemma FirstCallStartsOnce(id: BlockId, origin: Option<string>, call: BlockCall)
    requires LatchKind(id, call).Some?
    ensures
      var r := CallBlock(id, origin, None, call);
      r.block.Some? && r.events != [] && IsStart(r.events[0], id) && NoStart(r.events[1..])
  {
    FirstCallOpens(id, origin, call);
    hide CallBlock;
  }

  lemma OrderKept(order: seq<BlockId>, events: seq<Event>, more: seq<Event>)
    requires InOpeningOrder(order, events) && NoStart(more)
    ensures InOpeningOrder(order, events + more)
  {
    forall id, k: nat
      ensures LastStarted(events + more, id, k) <==> LastStarted(events, id, k)
    {
      LastStartStays(events, more, id, k);
    }
    hide LastStarted;
  }

  lemma OneRemovedKeepsOrder(order: seq<BlockId>, events: seq<Event>, i: nat)
    requires InOpeningOrder(order, events) && i < |order|
    ensures InOpeningOrder(order[..i] + order[i + 1..], events)
  {
    hide LastStarted;
    var rest := order[..i] + order[i + 1..];
    forall id | id in rest
      ensures id in order
    {}
    forall a, b, k: nat, l: nat | 0 <= a < b < |rest| && LastStarted(events, rest[a], k) && LastStarted(events, rest[b], l)
      ensures k < l
    {
      var x, y := if a < i then a else a + 1, if b < i then b else b + 1;
      assert rest[a] == order[x] && rest[b] == order[y];
    }
  }

  lemma OrderWithout(order: seq<BlockId>, events: seq<Event>, id: BlockId)
    requires InOpeningOrder(order, events) && Distinct(order)
    ensures InOpeningOrder(Without(order, id), events)
  {
    hide InOpeningOrder;
    if id in order {
      var i :| 0 <= i < |order| && order[i] == id;
      WithoutAt(order, i);
      OneRemovedKeepsOrder(order, events, i);
    } else {
      WithoutAbsent(order, id);
    }
  }

  lemma OrderGrows(order: seq<BlockId>, events: seq<Event>, id: BlockId, more: seq<Event>)
    requires InOpeningOrder(order, events) && id !in order
    requires more != [] && IsStart(more[0], id) && NoStart(more[1..])
    ensures InOpeningOrder(order + [id], events + more)
  {
    var ids, all := order + [id], events + more;
    assert forall i :: 1 <= i < |more| ==> more[i] == more[1..][i - 1];
    forall other, k: nat | other in order
      ensures LastStarted(all, other, k) <==> LastStarted(events, other, k)
    {
      LastStartStays(events, more, other, k);
    }
    assert all[|events|] == more[0] && forall m :: |events| < m < |all| ==> !all[m].BlockStart? by {
      assert forall m :: |events| < m < |all| ==> all[m] == more[m - |events|];
    }
    assert LastStarted(all, id, |events|);
    assert forall k: nat :: LastStarted(all, id, k) ==> k == |events|;
    assert forall other, k: nat :: LastStarted(events, other, k) ==> k < |events|;
    hide LastStarted;
    assert forall i :: 0 <= i < |order| ==> ids[i] == order[i] && ids[i] in order;
  }

  lemma {:induction false} RunOpensInOrder(provider: string, model: string, signatures: Option<string>, calls: seq<Call>)
    requires Complete !in calls
    ensures
      var all := Run(Ledger.New(provider, model, signatures), calls);
      InOpeningOrder(all.ledger.order, all.events)
  {
    var s := Ledger.New(provider, model, signatures);
    if calls != [] {
      var front, last := calls[..|calls| - 1], calls[|calls| - 1];
      assert calls == front + [last];
      RunOpensInOrder(provider, model, signatures, front);
      RunKeepsValid(s, front);
      RunSnoc(s, front, last);
      hide Run, InOpeningOrder;
      StepOpensInOrder(Run(s, front).ledger, Run(s, front).events, last);
    }
  }

  lemma StepOpensInOrder(s: Ledger, events: seq<Event>, call: Call)
    requires s.Valid() && InOpeningOrder(s.order, events) && !call.Complete?
    ensures InOpeningOrder(Take(s, call).ledger.order, events + Take(s, call).events)
  {
    var after := Take(s, call);
    if call.OnBlock? {
      OrderAfterTouch(s, call.id, call.call);
      hide TouchBlock, InOpeningOrder, IsStart;
      if NoStart(after.events) {
        if after.ledger.order != s.order {
          OrderWithout(s.order, events, call.id);
        }
        OrderKept(after.ledger.order, events, after.events);
      } else {
        OrderGrows(s.order, events, call.id, after.events);
      }
    } else {
      OrderKept(s.order, events, after.events);
    }
  }

  lemma {:induction false} OpenIdsKeepOrder(s: Ledger, order: seq<BlockId>, events: seq<Event>)
    requires InOpeningOrder(order, events) && Distinct(order)
    ensures InOpeningOrder(OpenIds(s, order), events)
  {
    if order != [] {
      var rest := order[1..];
      assert order == [order[0]] + rest;
      OneRemovedKeepsOrder(order, events, 0);
      assert order[..0] + order[1..] == rest;
      assert Distinct(rest) by { assert forall i :: 0 <= i < |rest| ==> rest[i] == order[i + 1]; }
      OpenIdsKeepOrder(s, rest, events);
      OpenIdsAre(s, rest);
      if s.IsOpen(order[0]) {
        HeadKeepsOrder(order, events, OpenIds(s, rest));
      }
    }
  }

  lemma HeadKeepsOrder(order: seq<BlockId>, events: seq<Event>, open: seq<BlockId>)
    requires order != [] && InOpeningOrder(order, events) && InOpeningOrder(open, events)
    requires forall id <- open :: id in order[1..]
    ensures InOpeningOrder([order[0]] + open, events)
  {
    hide LastStarted;
    var ids := [order[0]] + open;
    assert forall id :: id in ids <==> id == order[0] || id in open;
    assert order[0] in order;
    forall i, j, k: nat, l: nat | 0 <= i < j < |ids| && LastStarted(events, ids[i], k) && LastStarted(events, ids[j], l)
      ensures k < l
    {
      assert ids[j] == open[j - 1] && open[j - 1] in open;
      if i == 0 {
        var m :| 0 <= m < |order| - 1 && order[1..][m] == open[j - 1];
        assert order[m + 1] == ids[j];
      } else {
        assert ids[i] == open[i - 1];
      }
    }
  }

  /** The ids of the ends among some events. */
  function EndIds(events: seq<Event>): seq<BlockId> {
    if events == [] then []
    else (if events[0].BlockEnd? then [events[0].id] else []) + EndIds(events[1..])
  }

  lemma {:induction false} EndIdsConcat(first: seq<Event>, second: seq<Event>)
    ensures EndIds(first + second) == EndIds(first) + EndIds(second)
  {
    if first == [] {
      assert first + second == second;
    } else {
      HeadAndTail(first, second);
      EndIdsConcat(first[1..], second);
      Associates(if first[0].BlockEnd? then [first[0].id] else [], EndIds(first[1..]), EndIds(second));
    }
  }

  lemma {:induction false} EndAllEndsEach(s: Ledger, ids: seq<BlockId>)
    requires s.Valid() && Distinct(ids) && forall id <- ids :: s.IsOpen(id)
    ensures EndIds(EndAll(s, ids).events) == ids
    decreases |ids|
  {
    if ids != [] {
      assert ids == [ids[0]] + ids[1..];
      forall id | id in ids[1..]
        ensures id != ids[0] && s.IsOpen(id)
      {
        var k :| 0 <= k < |ids| - 1 && ids[1..][k] == id;
        assert ids[0] != ids[k + 1] && ids[k + 1] in ids;
      }
      assert Distinct(ids[1..]) by { assert forall k :: 0 <= k < |ids| - 1 ==> ids[1..][k] == ids[k + 1]; }
      var first := TouchBlock(s, ids[0], End);
      EndingOpenBlock(s, ids[0]);
      TouchKeepsValid(s, ids[0], End);
      hide TouchBlock, Ledger.Valid, Distinct;
      assert forall id <- ids[1..] :: first.ledger.IsOpen(id);
      EndAllEndsEach(first.ledger, ids[1..]);
      EndIdsConcat(first.events, EndAll(first.ledger, ids[1..]).events);
      assert EndIds(first.events) == [ids[0]] + EndIds(first.events[1..]);
    }
  }

  /**
   * The completion of any run ends exactly the blocks then open, each once, in the order they were last
   * started.
   */
  lemma CompletionEndsInOpeningOrder(provider: string, model: string, signatures: Option<string>, calls: seq<Call>)
    requires Complete !in calls
    ensures
      var before := Run(Ledger.New(provider, model, signatures), calls);
      var ends := EndIds(Finish(before.ledger).events);
      && Distinct(ends)
      && (forall id :: id in ends <==> before.ledger.IsOpen(id))
      && InOpeningOrder(ends, before.events)
  {
    var s := Ledger.New(provider, model, signatures);
    RunOpensInOrder(provider, model, signatures, calls);
    RunKeepsValid(s, calls);
    RunNotCompleted(s, calls);
    var before := Run(s, calls);
    hide Run, InOpeningOrder;
    FinishEndsTheOpen(before.ledger);
    OpenIdsAre(before.ledger, before.ledger.order);
    OpenIdsKeepOrder(before.ledger, before.ledger.order, before.events);
  }

  lemma FinishEndsTheOpen(s: Ledger)
    requires s.Valid() && !s.completed
    ensures EndIds(Finish(s).events) == OpenIds(s, s.order)
    ensures forall id :: s.IsOpen(id) ==> id in s.order
  {
    var entered := s.(completed := true);
    var ids := OpenIds(s, s.order);
    OpenIdsAre(s, s.order);
    EndAllEndsEach(entered, ids);
    var closed := EndAll(entered, ids);
    hide EndAll, OpenIds, Suppress;
    var ended := [Ended(Suppress(Assembled(closed.ledger)))];
    EndIdsConcat(closed.events, ended);
    assert EndIds(ended) == [] + EndIds(ended[1..]);
  }
}

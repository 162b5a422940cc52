/** The operation manager: the active table keyed by correlation id, the FIFO
    waiting queue, the retry-pending list and the cached total count, and the
    methods that queue, dispatch, time out, retry and abandon requests. */
module OperationManagement {
  import opened Wrappers
  import opened OperationItems
  import opened ManagerInvariant
  import Sorting

  /** What `checkNotNull` throws for a missing channel. */
  datatype NullPointerException = NullPointerException(message: string)

  /** The sweep over the active items in checkTimeoutsAndRetry: the items to retry
      and the items that timed out, each in the order the sweep meets them. */
  method SweepActive(values: seq<OperationItem>, sweep: Sweep) returns (retryOperations: seq<OperationItem>, removeOperations: seq<OperationItem>)
    ensures retryOperations == Marked(values, MarkedForRetry, sweep)
    ensures removeOperations == Marked(values, TimedOut, sweep)
  {
    retryOperations := [];
    removeOperations := [];
    for i := 0 to |values|
      invariant retryOperations == Marked(values[..i], MarkedForRetry, sweep)
      invariant removeOperations == Marked(values[..i], TimedOut, sweep)
    {
      var item := values[i];
      assert values[..i + 1][..i] == values[..i] && values[..i + 1][i] == item;
      if sweep.connection.Some? && item.connectionId != sweep.connection {
        retryOperations := retryOperations + [item];
      } else if item.timeout != 0 && IsElapsed(item.lastUpdated, sweep.settings.operationTimeout, sweep.now) {
        if sweep.settings.failOnNoServerResponse {
          removeOperations := removeOperations + [item];
        } else {
          retryOperations := retryOperations + [item];
        }
      }
    }
    assert values[..|values|] == values;
  }

  /** No item is both retried and timed out by one sweep, and among the distinct
      items of a table no correlation id is in both lists. */
  lemma SweepDisjoint(values: seq<OperationItem>, sweep: Sweep)
    requires DistinctIds(values)
    ensures IdsOf(Marked(values, TimedOut, sweep)) !! IdsOf(Marked(values, MarkedForRetry, sweep))
  {
    var t := Marked(values, TimedOut, sweep);
    var m := Marked(values, MarkedForRetry, sweep);
    MarkedMembers(values, TimedOut, sweep);
    MarkedMembers(values, MarkedForRetry, sweep);
    forall x | x in IdsOf(t) ensures x !in IdsOf(m) {
      var i :| 0 <= i < |t| && t[i].correlationId == x;
      assert t[i] in values;
      var a :| 0 <= a < |values| && values[a] == t[i];
      forall j | 0 <= j < |m| ensures m[j].correlationId != x {
        assert m[j] in values;
        var b :| 0 <= b < |values| && values[b] == m[j];
        assert a != b;
      }
    }
  }

  /** Items drawn from the values of a table carry ids the table holds. */
  lemma TableMembers(values: seq<OperationItem>, ops: seq<OperationItem>, m: map<CorrelationId, OperationItem>)
    requires forall i :: 0 <= i < |values| ==> values[i].correlationId in m
    requires forall x :: x in ops ==> x in values
    ensures forall j :: 0 <= j < |ops| ==> ops[j].correlationId in m
  {
    forall j | 0 <= j < |ops| ensures ops[j].correlationId in m {
      assert ops[j] in values;
    }
  }

  /** The items to retry are still in the table once the timed-out ones are gone. */
  lemma RetriesStillHeld(retry: seq<OperationItem>, remove: seq<OperationItem>, m: map<CorrelationId, OperationItem>)
    requires forall j :: 0 <= j < |retry| ==> retry[j].correlationId in m
    requires IdsOf(remove) !! IdsOf(retry)
    ensures forall j :: 0 <= j < |retry| ==> retry[j].correlationId in m - IdsOf(remove)
  {
    forall j | 0 <= j < |retry| ensures retry[j].correlationId !in IdsOf(remove) {
      assert retry[j].correlationId in IdsOf(retry);
    }
  }

  /** What checkTimeoutsAndRetry relies on about one sweep over the values of a
      table: the timed-out items are in the table; the items to retry are distinct
      and still in it once the timed-out ones are removed. */
  lemma SweepSplits(values: seq<OperationItem>, sweep: Sweep, m: map<CorrelationId, OperationItem>)
    requires Enumerates(values, m)
    ensures var timedOut := Marked(values, TimedOut, sweep);
      forall j :: 0 <= j < |timedOut| ==> timedOut[j].correlationId in m
    ensures var retried := Marked(values, MarkedForRetry, sweep);
      DistinctIds(retried) &&
      forall j :: 0 <= j < |retried| ==> retried[j].correlationId in m - IdsOf(Marked(values, TimedOut, sweep))
  {
    MarkedMembers(values, TimedOut, sweep);
    MarkedMembers(values, MarkedForRetry, sweep);
    TableMembers(values, Marked(values, TimedOut, sweep), m);
    TableMembers(values, Marked(values, MarkedForRetry, sweep), m);
    SweepDisjoint(values, sweep);
    MarkedDistinct(values, MarkedForRetry, sweep);
    RetriesStillHeld(Marked(values, MarkedForRetry, sweep), Marked(values, TimedOut, sweep), m);
  }

  /** The retry pass renews every parked item exactly once: each one is sent again
      with one more retry under an id at or past the supply's position, and none of
      the renewed items goes past its retry ceiling. */
  lemma RetryPassRenews(pending: seq<OperationItem>, order: (OperationItem, OperationItem) -> bool, first: nat, x: OperationItem)
    requires x in pending
    ensures var r := Renewed(Sorting.SortBy(pending, order), first);
      exists i :: 0 <= i < |r| && r[i] == x.(correlationId := first + i, retryCount := x.retryCount + 1)
  {
    var sorted := Sorting.SortBy(pending, order);
    assert x in multiset(pending);
    assert x in multiset(sorted);
    var i :| 0 <= i < |sorted| && sorted[i] == x;
    var r := Renewed(sorted, first);
    assert 0 <= i < |r| && r[i] == x.(correlationId := first + i, retryCount := x.retryCount + 1);
    assert Renewed(Sorting.SortBy(pending, order), first) == r;
  }

  /** Items parked below their ceiling stay within it after the increment: the
      i-th renewed item takes an id at or past the supply's position and its retry
      count does not exceed a non-negative maximum. */
  lemma RetryPassWithinCeiling(pending: seq<OperationItem>, order: (OperationItem, OperationItem) -> bool, first: nat, i: nat)
    requires BelowCeiling(pending) && i < |pending|
    ensures var r := Renewed(Sorting.SortBy(pending, order), first);
      i < |r| && first <= r[i].correlationId && (r[i].maxRetries < 0 || r[i].retryCount <= r[i].maxRetries)
  {
    var sorted := Sorting.SortBy(pending, order);
    assert |multiset(sorted)| == |multiset(pending)|;
    assert sorted[i] in multiset(sorted);
    assert sorted[i] in multiset(pending);
    assert !Exhausted(sorted[i]);
  }

  class OperationManager {
    var activeOperations: map<CorrelationId, OperationItem>
    var waitingOperations: seq<OperationItem>
    var retryPendingOperations: seq<OperationItem>
    var totalOperationCount: int

    const settings: Settings
    /** The natural order of items that `sorted()` follows; which key it compares is
        not part of this model. */
    const order: (OperationItem, OperationItem) -> bool

    /** The fresh-id supply standing for UUID.randomUUID(): it stays above every id
        the manager tracks or has sent. */
    var nextId: nat
    /** Every package written with `writeAndFlush`, in order. */
    ghost var sent: seq<TcpPackage>
    /** Every `fail` the manager called on an operation, in order. */
    ghost var failures: seq<Failure>

    /** The manager's invariant: the table is keyed by each item's own current id and
        holds only items that were sent; it never exceeds the concurrency cap; items
        waiting for a retry are below their retry ceiling; and the id supply is
        ahead of every id tracked or sent. */
    ghost predicate Valid()
      reads this
    {
      Keyed(activeOperations) &&
      |activeOperations| <= Max(0, settings.maxConcurrentOperations) &&
      BelowCeiling(retryPendingOperations) &&
      IdsBelow(activeOperations, waitingOperations, retryPendingOperations, sent, nextId)
    }

    /** `id` is none of the ids the manager tracks or has written to a channel. */
    ghost predicate Fresh(id: CorrelationId)
      reads this
    {
      id !in activeOperations &&
      (forall i :: 0 <= i < |waitingOperations| ==> waitingOperations[i].correlationId != id) &&
      (forall i :: 0 <= i < |retryPendingOperations| ==> retryPendingOperations[i].correlationId != id) &&
      (forall i :: 0 <= i < |sent| ==> sent[i].correlationId != id)
    }

    /** The cached count agrees with the active table and the waiting queue. */
    ghost predicate CountCurrent()
      reads this
    {
      totalOperationCount == |activeOperations| + |waitingOperations|
    }

    constructor (settings: Settings, order: (OperationItem, OperationItem) -> bool)
      ensures Valid() && CountCurrent()
      ensures this.settings == settings && this.order == order
      ensures activeOperations == map[] && waitingOperations == [] && retryPendingOperations == []
      ensures totalOperationCount == 0 && sent == [] && failures == []
    {
      this.settings := settings;
      this.order := order;
      activeOperations := map[];
      waitingOperations := [];
      retryPendingOperations := [];
      totalOperationCount := 0;
      nextId := 0;
      sent := [];
      failures := [];
    }

    /** getActiveOperation: the item tracked under `correlationId`, if any. */
    function GetActiveOperation(correlationId: CorrelationId): (r: Option<OperationItem>)
      reads this
      requires Valid()
      ensures r.Some? <==> correlationId in activeOperations
      ensures r.Some? ==> r.value == activeOperations[correlationId] && r.value.correlationId == correlationId
      ensures r.Some? ==> r.value.connectionId.Some?
    {
      if correlationId in activeOperations then Some(activeOperations[correlationId]) else None
    }

    /** totalOperationCount: the cached count, which is the number of active and
        waiting items whenever it is current. */
    function TotalOperationCount(): (r: int)
      reads this
      ensures CountCurrent() ==> r == |activeOperations| + |waitingOperations|
    {
      totalOperationCount
    }

    /** The values of the active table, in the table's unspecified iteration order. */
    method ActiveValues() returns (values: seq<OperationItem>)
      requires Valid()
      ensures Enumerates(values, activeOperations)
    {
      values := [];
      IdsOfEmpty();
      var remaining := activeOperations.Keys;
      while remaining != {}
        invariant remaining <= activeOperations.Keys
        invariant forall i :: 0 <= i < |values| ==>
          values[i].correlationId in activeOperations &&
          activeOperations[values[i].correlationId] == values[i] &&
          values[i].correlationId !in remaining
        invariant forall k :: k in activeOperations && k !in remaining ==> k in IdsOf(values)
        invariant IdsOf(values) !! remaining
        invariant DistinctIds(values)
        decreases remaining
      {
        var k :| k in remaining;
        DistinctSnoc(values, activeOperations[k]);
        IdsOfSnoc(values, activeOperations[k]);
        values := values + [activeOperations[k]];
        remaining := remaining - {k};
      }
    }

    /** cleanUp: fails every tracked item (active ones in the table's iteration
        order, then the waiting ones, then the retry-pending ones) with a
        connection-closed error, and empties everything. */
    method CleanUp(cause: string) returns (ghost snapshot: seq<OperationItem>)
      requires Valid()
      modifies this
      ensures Valid() && CountCurrent()
      ensures activeOperations == map[] && waitingOperations == [] && retryPendingOperations == []
      ensures totalOperationCount == 0
      ensures Enumerates(snapshot, old(activeOperations))
      ensures failures == old(failures) +
        ConnectionClosedFailures(snapshot + old(waitingOperations) + old(retryPendingOperations), cause)
      ensures sent == old(sent) && nextId == old(nextId)
    {
      snapshot := [];
      IdsOfEmpty();
      if activeOperations != map[] || waitingOperations != [] || retryPendingOperations != [] {
        var values := ActiveValues();
        snapshot := values;
        failures := failures + ConnectionClosedFailures(values + waitingOperations + retryPendingOperations, cause);
      } else {
        assert ConnectionClosedFailures(snapshot + waitingOperations + retryPendingOperations, cause) == [];
      }
      activeOperations := map[];
      waitingOperations := [];
      retryPendingOperations := [];
      totalOperationCount := 0;
    }

    /** checkTimeoutsAndRetry: sweeps the active items in the table's iteration
        order; fails and removes the timed-out ones; and, when a channel is given,
        takes out the ones to retry (failing those at their retry ceiling), sends
        every parked item again in the natural order under a fresh id with one more
        retry, and drains the waiting queue. Without a channel the items marked for
        retry stay where they are. */
    method CheckTimeoutsAndRetry(connection: Option<ChannelId>, now: int) returns (ghost snapshot: seq<OperationItem>, ghost renewed: seq<OperationItem>)
      requires Valid()
      modifies this
      ensures Valid()
      ensures Enumerates(snapshot, old(activeOperations))
      ensures var sweep := Sweep(connection, now, settings);
        failures == old(failures) + TimeoutFailures(Marked(snapshot, TimedOut, sweep)) +
          (if connection.Some? then LimitFailures(Marked(snapshot, MarkedForRetry, sweep)) else [])
      ensures var timedOut := Marked(snapshot, TimedOut, Sweep(connection, now, settings));
        connection.None? ==>
          activeOperations == old(activeOperations) - IdsOf(timedOut) &&
          waitingOperations == old(waitingOperations) && retryPendingOperations == old(retryPendingOperations) &&
          totalOperationCount == (if timedOut == [] then old(totalOperationCount) else |activeOperations| + |waitingOperations|) &&
          sent == old(sent) && nextId == old(nextId) && renewed == []
      ensures var sweep := Sweep(connection, now, settings);
        var timedOut := Marked(snapshot, TimedOut, sweep);
        var retried := Marked(snapshot, MarkedForRetry, sweep);
        connection.Some? ==>
          renewed == Renewed(Sorting.SortBy(old(retryPendingOperations) + Retained(retried), order), old(nextId)) &&
          var d := Drain(old(activeOperations) - IdsOf(timedOut) - IdsOf(retried), old(waitingOperations) + renewed,
                         settings.maxConcurrentOperations, connection.value, now);
          activeOperations == d.active && waitingOperations == d.waiting && sent == old(sent) + d.sent &&
          retryPendingOperations == [] && CountCurrent() && nextId == old(nextId) + |renewed|
      ensures forall i :: 0 <= i < |renewed| ==> old(Fresh(renewed[i].correlationId))
    {
      var retryOperations;
      snapshot, retryOperations := SweepTimeouts(connection, now);
      renewed := [];
      if connection.Some? {
        renewed := RetryAndDispatch(retryOperations, connection.value, now);
      }
    }

    /** The sweep of checkTimeoutsAndRetry: classifies the active items in the
        table's iteration order, fails and removes the timed-out ones, and returns
        the ones to retry. */
    method SweepTimeouts(connection: Option<ChannelId>, now: int) returns (ghost snapshot: seq<OperationItem>, retryOperations: seq<OperationItem>)
      requires Valid()
      modifies this
      ensures Valid()
      ensures Enumerates(snapshot, old(activeOperations))
      ensures retryOperations == Marked(snapshot, MarkedForRetry, Sweep(connection, now, settings))
      ensures var timedOut := Marked(snapshot, TimedOut, Sweep(connection, now, settings));
        activeOperations == old(activeOperations) - IdsOf(timedOut) &&
        failures == old(failures) + TimeoutFailures(timedOut) &&
        totalOperationCount == (if timedOut == [] then old(totalOperationCount) else |activeOperations| + |waitingOperations|)
      ensures DistinctIds(retryOperations) && forall j :: 0 <= j < |retryOperations| ==> retryOperations[j].correlationId in activeOperations
      ensures waitingOperations == old(waitingOperations) && retryPendingOperations == old(retryPendingOperations)
      ensures sent == old(sent) && nextId == old(nextId)
    {
      var values := ActiveValues();
      snapshot := values;
      var sweep := Sweep(connection, now, settings);
      var removeOperations;
      retryOperations, removeOperations := SweepActive(values, sweep);
      failures := failures + TimeoutFailures(removeOperations);
      SweepSplits(values, sweep, activeOperations);
      RemoveOperations(removeOperations);
    }

    /** The part of checkTimeoutsAndRetry that runs when a channel is given: the
        items of `ops`, distinct items of the table, are taken out and failed or
        parked; the parked items are sent again; the waiting queue is drained. */
    method RetryAndDispatch(ops: seq<OperationItem>, channel: ChannelId, now: int) returns (ghost renewed: seq<OperationItem>)
      requires Valid()
      requires DistinctIds(ops) && forall j :: 0 <= j < |ops| ==> ops[j].correlationId in activeOperations
      modifies this
      ensures Valid() && CountCurrent()
      ensures renewed == Renewed(Sorting.SortBy(old(retryPendingOperations) + Retained(ops), order), old(nextId))
      ensures var d := Drain(old(activeOperations) - IdsOf(ops), old(waitingOperations) + renewed,
                             settings.maxConcurrentOperations, channel, now);
        activeOperations == d.active && waitingOperations == d.waiting && sent == old(sent) + d.sent
      ensures retryPendingOperations == [] && failures == old(failures) + LimitFailures(ops)
      ensures nextId == old(nextId) + |renewed|
    {
      ScheduleRetries(ops);
      renewed := [];
      if retryPendingOperations != [] {
        renewed := RetryPendingOperations(channel, now);
        DrainSettles(old(activeOperations) - IdsOf(ops), old(waitingOperations) + renewed, settings.maxConcurrentOperations, channel, now);
      } else {
        assert Sorting.SortBy(old(retryPendingOperations) + Retained(ops), order) == [];
        assert old(waitingOperations) + renewed == old(waitingOperations);
      }
      var thrown := ScheduleWaitingOperations(Some(channel), now);
    }

    /** removeOperation: drops the table entry under the item's current id, if
        there is one, and then refreshes the count. */
    method RemoveOperation(item: OperationItem) returns (removed: bool)
      requires Valid()
      modifies this
      ensures Valid()
      ensures removed <==> item.correlationId in old(activeOperations)
      ensures activeOperations == old(activeOperations) - {item.correlationId}
      ensures totalOperationCount == if removed then |activeOperations| + |waitingOperations| else old(totalOperationCount)
      ensures waitingOperations == old(waitingOperations) && retryPendingOperations == old(retryPendingOperations)
      ensures nextId == old(nextId) && sent == old(sent) && failures == old(failures)
    {
      RemoveKeeps(activeOperations, waitingOperations, retryPendingOperations, sent, nextId, item.correlationId);
      if item.correlationId !in activeOperations {
        removed := false;
      } else {
        activeOperations := activeOperations - {item.correlationId};
        totalOperationCount := |activeOperations| + |waitingOperations|;
        removed := true;
      }
    }

    /** scheduleOperationRetry: takes the item out of the table; if it was there,
        either fails it because its retry ceiling is reached or parks it for a retry. */
    method ScheduleOperationRetry(item: OperationItem)
      requires Valid()
      modifies this
      ensures Valid()
      ensures activeOperations == old(activeOperations) - {item.correlationId}
      ensures var removed := item.correlationId in old(activeOperations);
        retryPendingOperations == old(retryPendingOperations) + (if removed && !Exhausted(item) then [item] else []) &&
        failures == old(failures) + (if removed && Exhausted(item) then [Failure(item.operation, RetriesLimitReached(item.retryCount))] else []) &&
        totalOperationCount == if removed then |activeOperations| + |waitingOperations| else old(totalOperationCount)
      ensures waitingOperations == old(waitingOperations)
      ensures nextId == old(nextId) && sent == old(sent)
    {
      ghost var active0 := activeOperations;
      var removed := RemoveOperation(item);
      if removed {
        if Exhausted(item) {
          failures := failures + [Failure(item.operation, RetriesLimitReached(item.retryCount))];
        } else {
          RetryKeeps(active0, waitingOperations, retryPendingOperations, sent, nextId, item);
          retryPendingOperations := retryPendingOperations + [item];
        }
      }
    }

    /** removeOperations.forEach(this::removeOperation) in checkTimeoutsAndRetry:
        every item of `ops` is in the table, so the count is refreshed. */
    method RemoveOperations(ops: seq<OperationItem>)
      requires Valid()
      requires forall j :: 0 <= j < |ops| ==> ops[j].correlationId in activeOperations
      modifies this
      ensures Valid()
      ensures activeOperations == old(activeOperations) - IdsOf(ops)
      ensures totalOperationCount == if ops == [] then old(totalOperationCount) else |activeOperations| + |waitingOperations|
      ensures waitingOperations == old(waitingOperations) && retryPendingOperations == old(retryPendingOperations)
      ensures nextId == old(nextId) && sent == old(sent) && failures == old(failures)
    {
      ghost var a0 := activeOperations;
      for i := 0 to |ops|
        invariant Valid()
        invariant activeOperations == Without(a0, ops[..i])
        invariant i == 0 ==> totalOperationCount == old(totalOperationCount)
        invariant i > 0 ==> CountCurrent()
        invariant waitingOperations == old(waitingOperations) && retryPendingOperations == old(retryPendingOperations)
        invariant nextId == old(nextId) && sent == old(sent) && failures == old(failures)
      {
        WithoutStep(a0, ops, i);
        var removed := RemoveOperation(ops[i]);
      }
      assert ops[..|ops|] == ops;
      WithoutIds(a0, ops);
    }

    /** retryOperations.forEach(this::scheduleOperationRetry) in
        checkTimeoutsAndRetry: the items of `ops` are distinct items of the table,
        so each is taken out and then failed or parked, in order. */
    method ScheduleRetries(ops: seq<OperationItem>)
      requires Valid()
      requires DistinctIds(ops) && forall j :: 0 <= j < |ops| ==> ops[j].correlationId in activeOperations
      modifies this
      ensures Valid()
      ensures activeOperations == old(activeOperations) - IdsOf(ops)
      ensures retryPendingOperations == old(retryPendingOperations) + Retained(ops)
      ensures failures == old(failures) + LimitFailures(ops)
      ensures totalOperationCount == if ops == [] then old(totalOperationCount) else |activeOperations| + |waitingOperations|
      ensures waitingOperations == old(waitingOperations)
      ensures nextId == old(nextId) && sent == old(sent)
    {
      ghost var a0 := activeOperations;
      ghost var r0 := retryPendingOperations;
      ghost var f0 := failures;
      for i := 0 to |ops|
        invariant Valid()
        invariant activeOperations == Without(a0, ops[..i])
        invariant retryPendingOperations == r0 + Retained(ops[..i])
        invariant failures == f0 + LimitFailures(ops[..i])
        invariant i == 0 ==> totalOperationCount == old(totalOperationCount)
        invariant i > 0 ==> CountCurrent()
        invariant waitingOperations == old(waitingOperations)
        invariant nextId == old(nextId) && sent == old(sent)
      {
        WithoutStep(a0, ops, i);
        NextStillHeld(a0, ops, i);
        RetainedSnoc(ops[..i], ops[i]);
        LimitFailuresSnoc(ops[..i], ops[i]);
        ScheduleOperationRetry(ops[i]);
        ConcatAssoc(r0, Retained(ops[..i]), if Exhausted(ops[i]) then [] else [ops[i]]);
        ConcatAssoc(f0, LimitFailures(ops[..i]),
                    if Exhausted(ops[i]) then [Failure(ops[i].operation, RetriesLimitReached(ops[i].retryCount))] else []);
      }
      assert ops[..|ops|] == ops;
      WithoutIds(a0, ops);
    }

    /** UUID.randomUUID(): an id the manager neither tracks nor has sent. */
    function NewCorrelationId(): (id: CorrelationId)
      reads this
      requires Valid()
      ensures Fresh(id)
    {
      nextId
    }

    /** The retry pass of checkTimeoutsAndRetry, reached when items are parked:
        every parked item, in the natural order, takes a fresh id and one more retry
        and is scheduled on the channel; then the parked list is cleared. */
    method RetryPendingOperations(connection: ChannelId, now: int) returns (ghost renewed: seq<OperationItem>)
      requires Valid() && retryPendingOperations != []
      modifies this
      ensures Valid() && CountCurrent()
      ensures renewed == Renewed(Sorting.SortBy(old(retryPendingOperations), order), old(nextId))
      ensures var d := Drain(old(activeOperations), old(waitingOperations) + renewed, settings.maxConcurrentOperations, connection, now);
        activeOperations == d.active && waitingOperations == d.waiting && sent == old(sent) + d.sent
      ensures retryPendingOperations == [] && failures == old(failures)
      ensures nextId == old(nextId) + |renewed|
    {
      var sorted := Sorting.SortBy(retryPendingOperations, order);
      renewed := Renewed(sorted, nextId);
      ghost var cap := settings.maxConcurrentOperations;
      ghost var whole := Drain(activeOperations, waitingOperations + renewed, cap, connection, now);
      ghost var s0 := sent;
      ghost var first := nextId;
      assert renewed[0..] == renewed;
      for i := 0 to |sorted|
        invariant Valid()
        invariant nextId == first + i
        invariant var d := Drain(activeOperations, waitingOperations + renewed[i..], cap, connection, now);
          d.active == whole.active && d.waiting == whole.waiting && sent + d.sent == s0 + whole.sent
        invariant i > 0 ==> (|activeOperations| >= cap || waitingOperations == []) && CountCurrent()
        invariant retryPendingOperations == old(retryPendingOperations) && failures == old(failures)
      {
        ghost var w := waitingOperations;
        ghost var sentBefore := sent;
        SplitHead(w, renewed, i);
        DrainResumes(activeOperations, w + [renewed[i]], renewed[i + 1..], cap, connection, now);
        DrainRespectsCap(activeOperations, w + [renewed[i]], cap, connection, now);
        ghost var d := Drain(activeOperations, w + [renewed[i]], cap, connection, now);
        ghost var e := Drain(d.active, d.waiting + renewed[i + 1..], cap, connection, now);
        var next := Reschedule(sorted[i], connection, now);
        assert next == renewed[i];
        ConcatAssoc(sentBefore, d.sent, e.sent);
      }
      assert waitingOperations + renewed[|sorted|..] == waitingOperations;
      DrainStops(activeOperations, waitingOperations, cap, connection, now);
      ClearRetries();
    }

    /** retryPendingOperations.clear(). */
    method ClearRetries()
      requires Valid()
      modifies this
      ensures Valid() && retryPendingOperations == []
      ensures activeOperations == old(activeOperations) && waitingOperations == old(waitingOperations)
      ensures totalOperationCount == old(totalOperationCount) && nextId == old(nextId)
      ensures sent == old(sent) && failures == old(failures)
    {
      retryPendingOperations := [];
    }

    /** One retried item: it takes a fresh correlation id and one more retry, and is
        scheduled on the channel. */
    method Reschedule(item: OperationItem, connection: ChannelId, now: int) returns (next: OperationItem)
      requires Valid()
      modifies this
      ensures Valid() && CountCurrent()
      ensures next == item.(correlationId := old(nextId), retryCount := item.retryCount + 1)
      ensures old(Fresh(next.correlationId))
      ensures var d := Drain(old(activeOperations), old(waitingOperations) + [next], settings.maxConcurrentOperations, connection, now);
        activeOperations == d.active && waitingOperations == d.waiting && sent == old(sent) + d.sent
      ensures nextId == old(nextId) + 1
      ensures retryPendingOperations == old(retryPendingOperations) && failures == old(failures)
    {
      var id := NewCorrelationId();
      next := item.(correlationId := id, retryCount := item.retryCount + 1);
      var thrown := ScheduleOperation(next, Some(connection), now);
    }

    /** enqueueOperation: appends to the waiting queue and nothing more: it neither
        dispatches nor refreshes the count. */
    method EnqueueOperation(item: OperationItem)
      requires Valid()
      modifies this
      ensures Valid()
      ensures waitingOperations == old(waitingOperations) + [item]
      ensures activeOperations == old(activeOperations) && retryPendingOperations == old(retryPendingOperations)
      ensures totalOperationCount == old(totalOperationCount)
      ensures sent == old(sent) && failures == old(failures)
    {
      Offer(item);
    }

    /** `offer` on the waiting queue; the id supply moves past the item's id. */
    method Offer(item: OperationItem)
      requires Valid()
      modifies this
      ensures Valid()
      ensures waitingOperations == old(waitingOperations) + [item]
      ensures activeOperations == old(activeOperations) && retryPendingOperations == old(retryPendingOperations)
      ensures totalOperationCount == old(totalOperationCount)
      ensures nextId == Bumped(old(nextId), item.correlationId)
      ensures sent == old(sent) && failures == old(failures)
    {
      OfferKeeps(activeOperations, waitingOperations, retryPendingOperations, sent, nextId, item);
      nextId := Bumped(nextId, item.correlationId);
      waitingOperations := waitingOperations + [item];
    }

    /** scheduleOperation: appends to the waiting queue and drains it; a missing
        channel is refused before anything changes. */
    method ScheduleOperation(item: OperationItem, connection: Option<ChannelId>, now: int) returns (thrown: Option<NullPointerException>)
      requires Valid()
      modifies this
      ensures Valid()
      ensures thrown.Some? <==> connection.None?
      ensures connection.None? ==>
        activeOperations == old(activeOperations) && waitingOperations == old(waitingOperations) &&
        totalOperationCount == old(totalOperationCount) && nextId == old(nextId) && sent == old(sent)
      ensures connection.Some? ==>
        var d := Drain(old(activeOperations), old(waitingOperations) + [item], settings.maxConcurrentOperations, connection.value, now);
        activeOperations == d.active && waitingOperations == d.waiting && sent == old(sent) + d.sent &&
        CountCurrent() && nextId == Bumped(old(nextId), item.correlationId)
      ensures retryPendingOperations == old(retryPendingOperations) && failures == old(failures)
    {
      if connection.None? {
        return Some(NullPointerException("connection is null"));
      }
      Offer(item);
      thrown := ScheduleWaitingOperations(connection, now);
    }

    /** scheduleWaitingOperations: while fewer items than the cap are active, polls
        the head of the waiting queue and sends it on the channel; then refreshes
        the count. A missing channel is refused before anything changes. */
    method ScheduleWaitingOperations(connection: Option<ChannelId>, now: int) returns (thrown: Option<NullPointerException>)
      requires Valid()
      modifies this
      ensures Valid()
      ensures thrown.Some? <==> connection.None?
      ensures connection.None? ==>
        activeOperations == old(activeOperations) && waitingOperations == old(waitingOperations) &&
        totalOperationCount == old(totalOperationCount) && sent == old(sent)
      ensures connection.Some? ==>
        var d := Drain(old(activeOperations), old(waitingOperations), settings.maxConcurrentOperations, connection.value, now);
        activeOperations == d.active && waitingOperations == d.waiting && sent == old(sent) + d.sent && CountCurrent()
      ensures retryPendingOperations == old(retryPendingOperations) && failures == old(failures)
      ensures nextId == old(nextId)
    {
      if connection.None? {
        return Some(NullPointerException("connection is null"));
      }
      thrown := None;
      Dispatch(connection.value, now);
      totalOperationCount := |activeOperations| + |waitingOperations|;
    }

    /** The loop of scheduleWaitingOperations: while fewer items than the cap are
        active, polls the head of the waiting queue and sends it; stops at the cap or
        when the queue is empty. */
    method Dispatch(channel: ChannelId, now: int)
      requires Valid()
      modifies this
      ensures Valid()
      ensures var d := Drain(old(activeOperations), old(waitingOperations), settings.maxConcurrentOperations, channel, now);
        activeOperations == d.active && waitingOperations == d.waiting && sent == old(sent) + d.sent
      ensures retryPendingOperations == old(retryPendingOperations) && failures == old(failures)
      ensures totalOperationCount == old(totalOperationCount) && nextId == old(nextId)
    {
      ghost var d0 := Drain(activeOperations, waitingOperations, settings.maxConcurrentOperations, channel, now);
      ghost var sent0 := sent;
      while |activeOperations| < settings.maxConcurrentOperations
        invariant Valid()
        invariant var d := Drain(activeOperations, waitingOperations, settings.maxConcurrentOperations, channel, now);
          d.active == d0.active && d.waiting == d0.waiting && sent + d.sent == sent0 + d0.sent
        invariant retryPendingOperations == old(retryPendingOperations) && failures == old(failures)
        invariant totalOperationCount == old(totalOperationCount) && nextId == old(nextId)
        decreases |waitingOperations|
      {
        if waitingOperations != [] {
          DrainStep(activeOperations, waitingOperations, settings.maxConcurrentOperations, channel, now);
        }
        ghost var before := sent;
        var item := Poll();
        if item.None? {
          break;
        }
        Send(item.value, channel, now);
        ghost var pkg := TcpPackage(channel, item.value.correlationId, item.value.operation);
        ghost var rest := Drain(activeOperations, waitingOperations, settings.maxConcurrentOperations, channel, now);
        ConcatAssoc(before, [pkg], rest.sent);
      }
      DrainStops(activeOperations, waitingOperations, settings.maxConcurrentOperations, channel, now);
    }

    /** `poll` on the waiting queue: removes and returns its head, or returns
        nothing when it is empty. */
    method Poll() returns (item: Option<OperationItem>)
      requires Valid()
      modifies this
      ensures Valid()
      ensures old(waitingOperations) == [] ==> item.None? && waitingOperations == []
      ensures old(waitingOperations) != [] ==>
        item == Some(old(waitingOperations)[0]) && waitingOperations == old(waitingOperations)[1..] &&
        item.value.correlationId < nextId
      ensures activeOperations == old(activeOperations) && retryPendingOperations == old(retryPendingOperations)
      ensures totalOperationCount == old(totalOperationCount) && sent == old(sent) && failures == old(failures)
      ensures nextId == old(nextId)
    {
      if waitingOperations == [] {
        return None;
      }
      item := Some(waitingOperations[0]);
      PollKeeps(activeOperations, waitingOperations, retryPendingOperations, sent, nextId);
      waitingOperations := waitingOperations[1..];
    }

    /** send: stamps the item with the channel and the time, keys it in the table
        by its current correlation id, and writes one package carrying that id. */
    method Send(item: OperationItem, channel: ChannelId, now: int)
      requires Valid()
      requires item.correlationId < nextId
      requires |activeOperations| < settings.maxConcurrentOperations
      modifies this
      ensures Valid()
      ensures activeOperations == old(activeOperations)[item.correlationId := Stamp(item, channel, now)]
      ensures sent == old(sent) + [TcpPackage(channel, item.correlationId, item.operation)]
      ensures waitingOperations == old(waitingOperations) && retryPendingOperations == old(retryPendingOperations)
      ensures totalOperationCount == old(totalOperationCount) && failures == old(failures)
      ensures nextId == old(nextId)
    {
      var p := TcpPackage(channel, item.correlationId, item.operation);
      SendKeeps(activeOperations, waitingOperations, retryPendingOperations, sent, nextId, item, channel, now, p);
      activeOperations := activeOperations[item.correlationId := Stamp(item, channel, now)];
      sent := sent + [p];
    }
  }
}

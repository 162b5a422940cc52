/** The invariant the operation manager keeps over its table, queue and
    retry-pending list, and lemmas that each of its updates preserves it. */
module ManagerInvariant {
  import opened OperationItems

  /** Every entry of the table sits under its item's own correlation id and was
      sent on some channel. */
  ghost predicate Keyed(active: map<CorrelationId, OperationItem>) {
    forall k :: k in active ==> active[k].correlationId == k && active[k].connectionId.Some?
  }

  /** Every item waiting for a retry is below its retry ceiling. */
  ghost predicate BelowCeiling(retry: seq<OperationItem>) {
    forall i :: 0 <= i < |retry| ==> !Exhausted(retry[i])
  }

  /** The id supply is ahead of every correlation id the manager tracks and of
      every id it has written to a channel, so the next id it hands out is new. */
  ghost predicate IdsBelow(active: map<CorrelationId, OperationItem>, waiting: seq<OperationItem>, retry: seq<OperationItem>,
                           log: seq<TcpPackage>, next: nat) {
    (forall k :: k in active ==> k < next) &&
    (forall i :: 0 <= i < |waiting| ==> waiting[i].correlationId < next) &&
    (forall i :: 0 <= i < |retry| ==> retry[i].correlationId < next) &&
    (forall i :: 0 <= i < |log| ==> log[i].correlationId < next)
  }

  /** The id supply after admitting `id`: moved past it if it was not already. */
  function Bumped(next: nat, id: CorrelationId): (r: nat)
    ensures id < r && next <= r
    ensures id < next ==> r == next
  {
    if next <= id then id + 1 else next
  }

  lemma SendKeeps(active: map<CorrelationId, OperationItem>, waiting: seq<OperationItem>, retry: seq<OperationItem>,
                  log: seq<TcpPackage>, next: nat, item: OperationItem, channel: ChannelId, now: int, p: TcpPackage)
    requires Keyed(active) && IdsBelow(active, waiting, retry, log, next)
    requires item.correlationId < next && p.correlationId == item.correlationId
    ensures Keyed(active[item.correlationId := Stamp(item, channel, now)])
    ensures IdsBelow(active[item.correlationId := Stamp(item, channel, now)], waiting, retry, log + [p], next)
  {
    assert forall i :: 0 <= i < |log| ==> (log + [p])[i] == log[i];
  }

  lemma OfferKeeps(active: map<CorrelationId, OperationItem>, waiting: seq<OperationItem>, retry: seq<OperationItem>,
                   log: seq<TcpPackage>, next: nat, item: OperationItem)
    requires IdsBelow(active, waiting, retry, log, next)
    ensures IdsBelow(active, waiting + [item], retry, log, Bumped(next, item.correlationId))
  {
    assert forall i :: 0 <= i < |waiting| ==> (waiting + [item])[i] == waiting[i];
  }

  lemma PollKeeps(active: map<CorrelationId, OperationItem>, waiting: seq<OperationItem>, retry: seq<OperationItem>,
                  log: seq<TcpPackage>, next: nat)
    requires waiting != [] && IdsBelow(active, waiting, retry, log, next)
    ensures IdsBelow(active, waiting[1..], retry, log, next) && waiting[0].correlationId < next
  {
    assert forall i :: 0 <= i < |waiting[1..]| ==> waiting[1..][i] == waiting[i + 1];
  }

  lemma RemoveKeeps(active: map<CorrelationId, OperationItem>, waiting: seq<OperationItem>, retry: seq<OperationItem>,
                    log: seq<TcpPackage>, next: nat, id: CorrelationId)
    requires Keyed(active) && IdsBelow(active, waiting, retry, log, next)
    ensures Keyed(active - {id}) && IdsBelow(active - {id}, waiting, retry, log, next)
    ensures |active - {id}| <= |active|
  {
    if id in active {
      assert active == (active - {id})[id := active[id]];
    } else {
      assert active - {id} == active;
    }
  }

  lemma RetryKeeps(active: map<CorrelationId, OperationItem>, waiting: seq<OperationItem>, retry: seq<OperationItem>,
                   log: seq<TcpPackage>, next: nat, item: OperationItem)
    requires IdsBelow(active, waiting, retry, log, next) && BelowCeiling(retry)
    requires item.correlationId in active && !Exhausted(item)
    ensures IdsBelow(active - {item.correlationId}, waiting, retry + [item], log, next)
    ensures BelowCeiling(retry + [item])
  {
    assert forall i :: 0 <= i < |retry| ==> (retry + [item])[i] == retry[i];
  }

  /** The table after removing the entries of `ops`, one after the other. */
  function Without(m: map<CorrelationId, OperationItem>, ops: seq<OperationItem>): map<CorrelationId, OperationItem>
    decreases |ops|
  {
    if ops == [] then m else Without(m, ops[..|ops| - 1]) - {ops[|ops| - 1].correlationId}
  }

  lemma WithoutStep(m: map<CorrelationId, OperationItem>, ops: seq<OperationItem>, i: nat)
    requires i < |ops|
    ensures Without(m, ops[..i + 1]) == Without(m, ops[..i]) - {ops[i].correlationId}
    ensures ops[..i + 1] == ops[..i] + [ops[i]]
  {
    assert ops[..i + 1][..i] == ops[..i];
  }

  /** Removing the entries one by one removes exactly their ids from the table. */
  lemma {:induction false} WithoutIds(m: map<CorrelationId, OperationItem>, ops: seq<OperationItem>)
    ensures Without(m, ops) == m - IdsOf(ops)
    decreases |ops|
  {
    if ops == [] {
      IdsOfEmpty();
      assert m - {} == m;
    } else {
      var init := ops[..|ops| - 1];
      var last := ops[|ops| - 1];
      WithoutIds(m, init);
      assert ops == init + [last];
      IdsOfSnoc(init, last);
      assert (m - IdsOf(init)) - {last.correlationId} == m - (IdsOf(init) + {last.correlationId});
    }
  }

  /** An entry whose id none of `ops` carries is still in the table. */
  lemma {:induction false} WithoutKeeps(m: map<CorrelationId, OperationItem>, ops: seq<OperationItem>, k: CorrelationId)
    requires k in m && forall j :: 0 <= j < |ops| ==> ops[j].correlationId != k
    ensures k in Without(m, ops)
    decreases |ops|
  {
    if ops != [] {
      var init := ops[..|ops| - 1];
      forall j | 0 <= j < |init| ensures init[j].correlationId != k {
        assert init[j] == ops[j];
      }
      WithoutKeeps(m, init, k);
    }
  }

  /** The next item of a list of distinct items of a table is still in the table
      once the items before it are removed. */
  lemma NextStillHeld(m: map<CorrelationId, OperationItem>, ops: seq<OperationItem>, i: nat)
    requires i < |ops| && DistinctIds(ops) && ops[i].correlationId in m
    ensures ops[i].correlationId in Without(m, ops[..i])
  {
    forall j | 0 <= j < |ops[..i]| ensures ops[..i][j].correlationId != ops[i].correlationId {
      assert ops[..i][j] == ops[j];
    }
    WithoutKeeps(m, ops[..i], ops[i].correlationId);
  }

  lemma SplitHead<T>(w: seq<T>, r: seq<T>, i: nat)
    requires i < |r|
    ensures w + r[i..] == (w + [r[i]]) + r[i + 1..]
  {
    assert r[i..] == [r[i]] + r[i + 1..];
  }

  lemma ConcatAssoc<T>(a: seq<T>, b: seq<T>, c: seq<T>)
    ensures (a + b) + c == a + (b + c)
  {
  }
}

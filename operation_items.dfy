/** The manager's bookkeeping record for one request, and the pure functions that
    specify what the manager does with such records: the timeout sweep's verdict on
    an item, the retry ceiling, draining the waiting queue, renewing items for a
    retry. */
module OperationItems {
  import opened Wrappers

  /** A correlation id; the source uses random 128-bit UUIDs. */
  type CorrelationId = nat
  /** The identity of a network channel. */
  type ChannelId = nat
  /** The identity of the Operation object an item owns, and so of its future. */
  type OperationRef = nat

  /** One request as the manager tracks it. `connectionId` is the channel it was last
      sent on (none before its first send); `timeout` is only ever tested for zero. */
  datatype OperationItem = OperationItem(
    operation: OperationRef,
    correlationId: CorrelationId,
    connectionId: Option<ChannelId>,
    lastUpdated: int,
    timeout: int,
    retryCount: int,
    maxRetries: int)

  /** The settings the manager reads. */
  datatype Settings = Settings(operationTimeout: int, maxConcurrentOperations: int, failOnNoServerResponse: bool)

  /** A package written to a channel: the channel, the correlation id it carries and
      the operation whose request it holds. */
  datatype TcpPackage = TcpPackage(channel: ChannelId, correlationId: CorrelationId, operation: OperationRef)

  /** The errors the manager fails an operation's future with. */
  datatype ManagerError =
    | ConnectionClosed(cause: string)
    | OperationTimeout
    | RetriesLimitReached(retryCount: int)

  /** One call of `fail` on an operation. */
  datatype Failure = Failure(operation: OperationRef, error: ManagerError)

  function Max(a: int, b: int): int { if a < b then b else a }

  // ---------------------------------------------------------------------------
  // Sets and sequences of items

  function IdsOf(s: seq<OperationItem>): set<CorrelationId> {
    set i | 0 <= i < |s| :: s[i].correlationId
  }

  ghost predicate DistinctIds(s: seq<OperationItem>) {
    forall i, j :: 0 <= i < j < |s| ==> s[i].correlationId != s[j].correlationId
  }

  lemma IdsOfAppend(a: seq<OperationItem>, b: seq<OperationItem>)
    ensures IdsOf(a + b) == IdsOf(a) + IdsOf(b)
  {
    forall x | x in IdsOf(a + b) ensures x in IdsOf(a) + IdsOf(b) {
      var i :| 0 <= i < |a + b| && (a + b)[i].correlationId == x;
      if i >= |a| { assert b[i - |a|].correlationId == x; }
    }
    forall x | x in IdsOf(a) ensures x in IdsOf(a + b) {
      var i :| 0 <= i < |a| && a[i].correlationId == x;
      assert (a + b)[i] == a[i];
    }
    forall x | x in IdsOf(b) ensures x in IdsOf(a + b) {
      var i :| 0 <= i < |b| && b[i].correlationId == x;
      assert (a + b)[|a| + i] == b[i];
    }
  }

  lemma IdsOfCons(s: seq<OperationItem>)
    requires s != []
    ensures IdsOf(s) == {s[0].correlationId} + IdsOf(s[1..])
  {
    assert s == [s[0]] + s[1..];
    IdsOfAppend([s[0]], s[1..]);
    assert IdsOf([s[0]]) == {s[0].correlationId};
  }

  lemma IdsOfSnoc(s: seq<OperationItem>, x: OperationItem)
    ensures IdsOf(s + [x]) == IdsOf(s) + {x.correlationId}
  {
    IdsOfAppend(s, [x]);
    IdsOfSingleton(x);
  }

  lemma IdsOfSingleton(x: OperationItem)
    ensures IdsOf([x]) == {x.correlationId}
  {
    assert [x][0] == x;
  }

  /** Appending an item whose id is new keeps the ids distinct. */
  lemma DistinctSnoc(s: seq<OperationItem>, x: OperationItem)
    requires DistinctIds(s) && x.correlationId !in IdsOf(s)
    ensures DistinctIds(s + [x])
  {
    forall i, j | 0 <= i < j < |s + [x]| ensures (s + [x])[i].correlationId != (s + [x])[j].correlationId {
      if j == |s| {
        assert (s + [x])[i] == s[i];
      } else {
        assert (s + [x])[i] == s[i] && (s + [x])[j] == s[j];
      }
    }
  }

  /** Distinct ids are as many as the items carrying them. */
  lemma {:induction false} DistinctCard(s: seq<OperationItem>)
    requires DistinctIds(s)
    ensures |IdsOf(s)| == |s|
  {
    if s == [] {
      IdsOfEmpty();
    } else {
      TailDistinct(s);
      DistinctCard(s[1..]);
      IdsOfCons(s);
    }
  }

  /** `s` lists the entries of the table `m`, one for each key, in some order: the
      order in which iterating over the table's values meets them. */
  ghost predicate Enumerates(s: seq<OperationItem>, m: map<CorrelationId, OperationItem>) {
    (forall i :: 0 <= i < |s| ==> s[i].correlationId in m && m[s[i].correlationId] == s[i]) &&
    (forall k :: k in m ==> k in IdsOf(s)) &&
    DistinctIds(s)
  }

  /** An enumeration of a table has as many items as the table has entries, and
      its ids are exactly the table's keys. */
  lemma EnumerationSize(s: seq<OperationItem>, m: map<CorrelationId, OperationItem>)
    requires Enumerates(s, m)
    ensures IdsOf(s) == m.Keys && |s| == |m|
  {
    forall x | x in IdsOf(s) ensures x in m {
      var i :| 0 <= i < |s| && s[i].correlationId == x;
    }
    DistinctCard(s);
    assert |m.Keys| == |m|;
  }

  lemma IdsOfEmpty()
    ensures IdsOf([]) == {}
  {
  }

  // ---------------------------------------------------------------------------
  // The timeout sweep

  /** The connection and clock one sweep runs against. */
  datatype Sweep = Sweep(connection: Option<ChannelId>, now: int, settings: Settings)

  /** What the sweep does with an active item. */
  datatype Mark = Untouched | MarkedForRetry | TimedOut

  /** `duration` has passed since `since`. */
  predicate IsElapsed(since: int, duration: int, now: int) {
    now - since > duration
  }

  /** The sweep's verdict on one active item: an item sent on another channel than
      the live one is retried; otherwise an item with a non-zero timeout whose last
      send is older than the configured operation timeout is failed or retried, as
      the no-response policy says; anything else is left alone. */
  function Classify(item: OperationItem, sweep: Sweep): Mark {
    if Stale(item, sweep) then MarkedForRetry
    else if Overdue(item, sweep) then
      (if sweep.settings.failOnNoServerResponse then TimedOut else MarkedForRetry)
    else Untouched
  }

  /** The item was sent on another channel than the live one. */
  predicate Stale(item: OperationItem, sweep: Sweep) {
    sweep.connection.Some? && item.connectionId != sweep.connection
  }

  /** The item has a non-zero timeout and got no response within the configured
      operation timeout. */
  predicate Overdue(item: OperationItem, sweep: Sweep) {
    item.timeout != 0 && IsElapsed(item.lastUpdated, sweep.settings.operationTimeout, sweep.now)
  }

  /** The items of `s` given `mark`, in the order of `s`. */
  function Marked(s: seq<OperationItem>, mark: Mark, sweep: Sweep): seq<OperationItem> {
    if s == [] then []
    else
      var last := s[|s| - 1];
      Marked(s[..|s| - 1], mark, sweep) + (if Classify(last, sweep) == mark then [last] else [])
  }

  /** The marked items are exactly the items of `s` given that mark. */
  lemma {:induction false} MarkedMembers(s: seq<OperationItem>, mark: Mark, sweep: Sweep)
    ensures forall x :: x in Marked(s, mark, sweep) <==> x in s && Classify(x, sweep) == mark
  {
    if s != [] {
      var last := s[|s| - 1];
      assert s == s[..|s| - 1] + [last];
      MarkedMembers(s[..|s| - 1], mark, sweep);
    }
  }

  /** The sweep's two lists: the timed-out items are the overdue ones on the live
      channel when the no-response policy fails them; the items to retry are the
      stale ones and, when the policy does not fail them, the overdue ones. */
  lemma SweepVerdicts(s: seq<OperationItem>, sweep: Sweep)
    ensures forall x :: x in Marked(s, TimedOut, sweep) <==>
      x in s && !Stale(x, sweep) && Overdue(x, sweep) && sweep.settings.failOnNoServerResponse
    ensures forall x :: x in Marked(s, MarkedForRetry, sweep) <==>
      x in s && (Stale(x, sweep) || (Overdue(x, sweep) && !sweep.settings.failOnNoServerResponse))
  {
    MarkedMembers(s, TimedOut, sweep);
    MarkedMembers(s, MarkedForRetry, sweep);
  }

  /** An item on the live channel (or any item when there is no channel) whose
      timeout is zero is neither failed nor retried by the sweep; without a channel
      nothing is stale, so only overdue items are in either list. */
  lemma SweepSpares(s: seq<OperationItem>, sweep: Sweep, x: OperationItem)
    requires !Stale(x, sweep) && x.timeout == 0
    ensures x !in Marked(s, TimedOut, sweep) && x !in Marked(s, MarkedForRetry, sweep)
  {
    SweepVerdicts(s, sweep);
  }

  lemma {:induction false} MarkedDistinct(s: seq<OperationItem>, mark: Mark, sweep: Sweep)
    requires DistinctIds(s)
    ensures DistinctIds(Marked(s, mark, sweep))
    ensures IdsOf(Marked(s, mark, sweep)) <= IdsOf(s)
  {
    if s != [] {
      var init := s[..|s| - 1];
      var last := s[|s| - 1];
      assert s == init + [last];
      MarkedDistinct(init, mark, sweep);
      MarkedMembers(init, mark, sweep);
      var m := Marked(init, mark, sweep);
      forall i | 0 <= i < |m| ensures m[i].correlationId != last.correlationId {
        assert m[i] in init;
        var k :| 0 <= k < |init| && init[k] == m[i];
        assert s[k] == m[i];
      }
      IdsOfAppend(init, [last]);
      IdsOfAppend(m, if Classify(last, sweep) == mark then [last] else []);
      assert IdsOf([last]) == {last.correlationId};
    }
  }

  /** A failure with OperationTimeout for each item of `s`. */
  function TimeoutFailures(s: seq<OperationItem>): seq<Failure> {
    seq(|s|, i requires 0 <= i < |s| => Failure(s[i].operation, OperationTimeout))
  }

  /** A failure with ConnectionClosed for each item of `s`. */
  function ConnectionClosedFailures(s: seq<OperationItem>, cause: string): seq<Failure> {
    seq(|s|, i requires 0 <= i < |s| => Failure(s[i].operation, ConnectionClosed(cause)))
  }

  // ---------------------------------------------------------------------------
  // The retry ceiling

  /** The ceiling is reached: a non-negative maximum that the retries so far already
      meet. It is tested before the retry count is increased. */
  predicate Exhausted(item: OperationItem) {
    item.maxRetries >= 0 && item.retryCount >= item.maxRetries
  }

  /** The items of `s` that may be retried again, in order. */
  function Retained(s: seq<OperationItem>): seq<OperationItem> {
    if s == [] then []
    else
      var last := s[|s| - 1];
      Retained(s[..|s| - 1]) + (if Exhausted(last) then [] else [last])
  }

  /** The retained items are exactly the items of `s` below their ceiling. */
  lemma {:induction false} RetainedMembers(s: seq<OperationItem>)
    ensures forall x :: x in Retained(s) <==> x in s && !Exhausted(x)
  {
    if s != [] {
      var last := s[|s| - 1];
      assert s == s[..|s| - 1] + [last];
      RetainedMembers(s[..|s| - 1]);
    }
  }

  /** A failure with RetriesLimitReached for each item of `s` at its ceiling, in order. */
  function LimitFailures(s: seq<OperationItem>): seq<Failure> {
    if s == [] then []
    else
      var last := s[|s| - 1];
      LimitFailures(s[..|s| - 1]) +
        (if Exhausted(last) then [Failure(last.operation, RetriesLimitReached(last.retryCount))] else [])
  }

  /** The limit failures are exactly one per item of `s` at its ceiling. */
  lemma {:induction false} LimitFailuresMembers(s: seq<OperationItem>)
    ensures forall f :: f in LimitFailures(s) <==>
      exists x :: x in s && Exhausted(x) && f == Failure(x.operation, RetriesLimitReached(x.retryCount))
  {
    if s != [] {
      var last := s[|s| - 1];
      assert s == s[..|s| - 1] + [last];
      LimitFailuresMembers(s[..|s| - 1]);
    }
  }

  /** Each item taken out for a retry is either failed at its ceiling or kept for
      the retry pass. */
  lemma RetryOutcome(s: seq<OperationItem>, x: OperationItem)
    requires x in s
    ensures Exhausted(x) ==> Failure(x.operation, RetriesLimitReached(x.retryCount)) in LimitFailures(s)
    ensures !Exhausted(x) ==> x in Retained(s)
  {
    RetainedMembers(s);
    LimitFailuresMembers(s);
  }

  lemma RetainedSnoc(s: seq<OperationItem>, x: OperationItem)
    ensures Retained(s + [x]) == Retained(s) + (if Exhausted(x) then [] else [x])
  {
    assert (s + [x])[..|s + [x]| - 1] == s;
  }

  lemma LimitFailuresSnoc(s: seq<OperationItem>, x: OperationItem)
    ensures LimitFailures(s + [x]) == LimitFailures(s) + (if Exhausted(x) then [Failure(x.operation, RetriesLimitReached(x.retryCount))] else [])
  {
    assert (s + [x])[..|s + [x]| - 1] == s;
  }

  /** Each item of `s` prepared for its next attempt: the i-th takes the fresh id
      `first + i` and one more retry; nothing else about it changes. */
  function Renewed(s: seq<OperationItem>, first: nat): seq<OperationItem> {
    seq(|s|, i requires 0 <= i < |s| => s[i].(correlationId := first + i, retryCount := s[i].retryCount + 1))
  }

  // ---------------------------------------------------------------------------
  // Draining the waiting queue

  /** An item as `send` leaves it: stamped with the channel and the time. */
  function Stamp(item: OperationItem, channel: ChannelId, now: int): (r: OperationItem)
    ensures r.connectionId == Some(channel) && r.lastUpdated == now
    ensures r.(connectionId := item.connectionId, lastUpdated := item.lastUpdated) == item
  {
    item.(connectionId := Some(channel), lastUpdated := now)
  }

  /** The packages sending `s` on `channel` writes, in order. */
  function Packages(s: seq<OperationItem>, channel: ChannelId): seq<TcpPackage> {
    seq(|s|, i requires 0 <= i < |s| => TcpPackage(channel, s[i].correlationId, s[i].operation))
  }

  /** The state a drain leaves, and what it wrote. */
  datatype Drained = Drained(active: map<CorrelationId, OperationItem>, waiting: seq<OperationItem>, sent: seq<TcpPackage>)

  /** Draining the waiting queue against `channel`: while fewer than `cap` items are
      active, the head of the queue is stamped, keyed by its correlation id and sent.
      The queue is served in order and what is left is its tail; the packages of
      the dispatched items are written in queue order. */
  function Drain(active: map<CorrelationId, OperationItem>, waiting: seq<OperationItem>, cap: int, channel: ChannelId, now: int): (r: Drained)
    ensures |r.waiting| <= |waiting|
    decreases |waiting|
  {
    if |active| < cap && waiting != [] then
      var item := Stamp(waiting[0], channel, now);
      var rest := Drain(active[item.correlationId := item], waiting[1..], cap, channel, now);
      Drained(rest.active, rest.waiting, [TcpPackage(channel, item.correlationId, item.operation)] + rest.sent)
    else
      assert waiting[..0] == [];
      Drained(active, waiting, [])
  }

  /** One step of a drain: the head is sent, and the rest is a drain of the tail. */
  lemma DrainStep(active: map<CorrelationId, OperationItem>, waiting: seq<OperationItem>, cap: int, channel: ChannelId, now: int)
    requires |active| < cap && waiting != []
    ensures var d := Drain(active, waiting, cap, channel, now);
      var rest := Drain(active[waiting[0].correlationId := Stamp(waiting[0], channel, now)], waiting[1..], cap, channel, now);
      d.active == rest.active && d.waiting == rest.waiting &&
      d.sent == [TcpPackage(channel, waiting[0].correlationId, waiting[0].operation)] + rest.sent
  {
  }

  /** A drain that cannot start changes nothing. */
  lemma DrainStops(active: map<CorrelationId, OperationItem>, waiting: seq<OperationItem>, cap: int, channel: ChannelId, now: int)
    requires |active| >= cap || waiting == []
    ensures Drain(active, waiting, cap, channel, now) == Drained(active, waiting, [])
  {
  }

  /** The items a drain dispatched: the head of the queue it left behind. */
  function Dispatched(waiting: seq<OperationItem>, d: Drained): seq<OperationItem>
    requires |d.waiting| <= |waiting|
  {
    waiting[..|waiting| - |d.waiting|]
  }

  /** A drain serves the queue in order: what it leaves is the queue's tail, and the
      packages it writes are those of the dispatched head, in queue order. */
  lemma {:induction false} DrainServesInOrder(active: map<CorrelationId, OperationItem>, waiting: seq<OperationItem>, cap: int, channel: ChannelId, now: int)
    ensures var r := Drain(active, waiting, cap, channel, now);
      r.waiting == waiting[|waiting| - |r.waiting|..] &&
      r.sent == Packages(Dispatched(waiting, r), channel)
    decreases |waiting|
  {
    var r := Drain(active, waiting, cap, channel, now);
    if |active| < cap && waiting != [] {
      var item := Stamp(waiting[0], channel, now);
      var active' := active[item.correlationId := item];
      DrainServesInOrder(active', waiting[1..], cap, channel, now);
      var rest := Drain(active', waiting[1..], cap, channel, now);
      assert Dispatched(waiting, r) == [waiting[0]] + Dispatched(waiting[1..], rest);
    } else {
      assert Dispatched(waiting, r) == [];
    }
  }

  /** A drain stops only when the queue is empty or the cap is reached, and never
      makes the active table larger than the cap (or than it was). */
  lemma {:induction false} DrainRespectsCap(active: map<CorrelationId, OperationItem>, waiting: seq<OperationItem>, cap: int, channel: ChannelId, now: int)
    ensures var r := Drain(active, waiting, cap, channel, now);
      (r.waiting == [] || |r.active| >= cap) && |r.active| <= Max(|active|, cap)
    decreases |waiting|
  {
    if |active| < cap && waiting != [] {
      var item := Stamp(waiting[0], channel, now);
      DrainRespectsCap(active[item.correlationId := item], waiting[1..], cap, channel, now);
    }
  }

  /** One step of a drain seen through the items it dispatched: the head, then
      what the drain of the tail dispatched. */
  lemma DispatchedStep(active: map<CorrelationId, OperationItem>, waiting: seq<OperationItem>, cap: int, channel: ChannelId, now: int)
    requires |active| < cap && waiting != []
    ensures var r := Drain(active, waiting, cap, channel, now);
      var rest := Drain(active[waiting[0].correlationId := Stamp(waiting[0], channel, now)], waiting[1..], cap, channel, now);
      r.active == rest.active && r.waiting == rest.waiting &&
      Dispatched(waiting, r) == [waiting[0]] + Dispatched(waiting[1..], rest)
  {
    var rest := Drain(active[waiting[0].correlationId := Stamp(waiting[0], channel, now)], waiting[1..], cap, channel, now);
    assert waiting[..|waiting| - |rest.waiting|] == [waiting[0]] + waiting[1..][..|waiting[1..]| - |rest.waiting|];
  }

  /** The keys of the table a drain leaves: the old keys plus the dispatched
      items' ids. */
  lemma {:induction false} DrainKeys(active: map<CorrelationId, OperationItem>, waiting: seq<OperationItem>, cap: int, channel: ChannelId, now: int)
    ensures var r := Drain(active, waiting, cap, channel, now);
      forall k :: k in r.active <==> k in active || k in IdsOf(Dispatched(waiting, r))
    decreases |waiting|
  {
    var r := Drain(active, waiting, cap, channel, now);
    if |active| < cap && waiting != [] {
      var item := Stamp(waiting[0], channel, now);
      var active' := active[item.correlationId := item];
      var rest := Drain(active', waiting[1..], cap, channel, now);
      DispatchedStep(active, waiting, cap, channel, now);
      DrainKeys(active', waiting[1..], cap, channel, now);
      var sent := Dispatched(waiting, r);
      IdsOfCons(sent);
      assert sent[1..] == Dispatched(waiting[1..], rest);
    } else {
      DrainStops(active, waiting, cap, channel, now);
      assert Dispatched(waiting, r) == [];
      IdsOfEmpty();
    }
  }

  lemma TailDistinct(s: seq<OperationItem>)
    requires s != [] && DistinctIds(s)
    ensures DistinctIds(s[1..]) && s[0].correlationId !in IdsOf(s[1..])
  {
    forall i, j | 0 <= i < j < |s[1..]| ensures s[1..][i].correlationId != s[1..][j].correlationId {
      assert s[1..][i] == s[i + 1] && s[1..][j] == s[j + 1];
    }
  }

  /** With distinct ids in the queue, every dispatched item ends up in the table,
      stamped, under its own id. */
  lemma {:induction false} DrainStamps(active: map<CorrelationId, OperationItem>, waiting: seq<OperationItem>, cap: int, channel: ChannelId, now: int)
    requires DistinctIds(waiting)
    ensures var r := Drain(active, waiting, cap, channel, now);
      var sent := Dispatched(waiting, r);
      forall i :: 0 <= i < |sent| ==> sent[i].correlationId in r.active && r.active[sent[i].correlationId] == Stamp(sent[i], channel, now)
    decreases |waiting|
  {
    var r := Drain(active, waiting, cap, channel, now);
    var sent := Dispatched(waiting, r);
    if |active| < cap && waiting != [] {
      var item := Stamp(waiting[0], channel, now);
      var active' := active[item.correlationId := item];
      DrainStep(active, waiting, cap, channel, now);
      TailDistinct(waiting);
      DrainStamps(active', waiting[1..], cap, channel, now);
      var rest := Drain(active', waiting[1..], cap, channel, now);
      var sent' := Dispatched(waiting[1..], rest);
      IdsOfPrefix(waiting[1..], |waiting[1..]| - |rest.waiting|);
      DrainKeeps(active', waiting[1..], cap, channel, now, item.correlationId);
      assert sent == [waiting[0]] + sent';
      forall i | 0 <= i < |sent| ensures sent[i].correlationId in r.active && r.active[sent[i].correlationId] == Stamp(sent[i], channel, now) {
        if i > 0 {
          assert sent[i] == sent'[i - 1];
        }
      }
    } else {
      DrainStops(active, waiting, cap, channel, now);
      assert sent == [];
    }
  }

  /** An entry that no dispatched item replaced survives a drain unchanged. */
  lemma {:induction false} DrainKeeps(active: map<CorrelationId, OperationItem>, waiting: seq<OperationItem>, cap: int, channel: ChannelId, now: int, k: CorrelationId)
    requires k in active && k !in IdsOf(Dispatched(waiting, Drain(active, waiting, cap, channel, now)))
    ensures var r := Drain(active, waiting, cap, channel, now);
      k in r.active && r.active[k] == active[k]
    decreases |waiting|
  {
    if |active| < cap && waiting != [] {
      var item := Stamp(waiting[0], channel, now);
      var active' := active[item.correlationId := item];
      DispatchedStep(active, waiting, cap, channel, now);
      IdsOfCons(Dispatched(waiting, Drain(active, waiting, cap, channel, now)));
      DrainKeeps(active', waiting[1..], cap, channel, now, k);
    } else {
      DrainStops(active, waiting, cap, channel, now);
    }
  }

  lemma IdsOfPrefix(s: seq<OperationItem>, n: nat)
    requires n <= |s|
    ensures IdsOf(s[..n]) <= IdsOf(s)
  {
    forall x | x in IdsOf(s[..n]) ensures x in IdsOf(s) {
      var j :| 0 <= j < n && s[..n][j].correlationId == x;
      assert s[j] == s[..n][j];
    }
  }

  /** Draining is the same whether the queue is drained, extended and drained again,
      or extended first and drained once: the manager's drain after every retried
      item adds up to one drain of the whole queue. */
  lemma {:induction false} DrainResumes(active: map<CorrelationId, OperationItem>, waiting: seq<OperationItem>, more: seq<OperationItem>, cap: int, channel: ChannelId, now: int)
    ensures var d := Drain(active, waiting, cap, channel, now);
      var e := Drain(d.active, d.waiting + more, cap, channel, now);
      var whole := Drain(active, waiting + more, cap, channel, now);
      e.active == whole.active && e.waiting == whole.waiting && d.sent + e.sent == whole.sent
    decreases |waiting|
  {
    var d := Drain(active, waiting, cap, channel, now);
    if |active| < cap && waiting != [] {
      var item := Stamp(waiting[0], channel, now);
      var active' := active[item.correlationId := item];
      assert (waiting + more)[0] == waiting[0];
      assert (waiting + more)[1..] == waiting[1..] + more;
      DrainResumes(active', waiting[1..], more, cap, channel, now);
      var rest := Drain(active', waiting[1..], cap, channel, now);
      assert d == Drained(rest.active, rest.waiting, [TcpPackage(channel, item.correlationId, item.operation)] + rest.sent);
    } else {
      assert d == Drained(active, waiting, []);
    }
  }

  /** A drained queue drains no further. */
  lemma DrainSettles(active: map<CorrelationId, OperationItem>, waiting: seq<OperationItem>, cap: int, channel: ChannelId, now: int)
    ensures var d := Drain(active, waiting, cap, channel, now);
      Drain(d.active, d.waiting, cap, channel, now) == Drained(d.active, d.waiting, [])
  {
    var d := Drain(active, waiting, cap, channel, now);
    DrainResumes(active, waiting, [], cap, channel, now);
    assert waiting + [] == waiting && d.waiting + [] == d.waiting;
    var e := Drain(d.active, d.waiting, cap, channel, now);
    assert d.sent + e.sent == d.sent;
    assert |e.sent| == 0;
  }
}

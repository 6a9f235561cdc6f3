/**
 * The two global waiting queues (fast and slow) of order ids, with the display
 * queue numbers handed out as prefix + (largest suffix in the queue + 1).
 */
module QueueService {
  import opened Common
  import opened Entities
  import opened Seqs
  import opened Decimal
  import opened OrderCacheService

  const FAST_QUEUE_KEY: string := "queue:fast"
  const SLOW_QUEUE_KEY: string := "queue:slow"

  /** getQueueKey: mode 1 selects the fast queue, every other mode the slow one. */
  function GetQueueKey(mode: int): (key: string)
    ensures key == FAST_QUEUE_KEY <==> mode == FAST
    ensures key == FAST_QUEUE_KEY || key == SLOW_QUEUE_KEY
  {
    if mode == FAST then FAST_QUEUE_KEY else SLOW_QUEUE_KEY
  }

  /** A mode whose queue is the other one. */
  function OtherMode(mode: int): (m: int)
    ensures GetQueueKey(m) != GetQueueKey(mode)
  {
    if mode == FAST then 0 else FAST
  }

  /** String.startsWith. */
  predicate StartsWith(s: string, prefix: string) {
    |prefix| <= |s| && s[..|prefix|] == prefix
  }

  /**
   * The number a queued id contributes under `prefix`: the parsed suffix of its
   * cached order's queue number; None when the order is not cached, has no
   * number, has another prefix, or its suffix is not an `int`.
   */
  function SuffixOf(orders: map<string, Order>, id: string, prefix: string): Option<int> {
    if id in orders && orders[id].queueNo.Some? && StartsWith(orders[id].queueNo.value, prefix)
    then ParseInt(orders[id].queueNo.value[|prefix|..])
    else None
  }

  /** The largest suffix under `prefix` among the queued ids, 0 when there is none. */
  function MaxSuffix(ids: seq<string>, orders: map<string, Order>, prefix: string): (m: int)
    ensures 0 <= m <= INT_MAX
    ensures forall i :: 0 <= i < |ids| && SuffixOf(orders, ids[i], prefix).Some? ==>
      SuffixOf(orders, ids[i], prefix).value <= m
  {
    if ids == [] then 0
    else
      var m := MaxSuffix(ids[..|ids| - 1], orders, prefix);
      var s := SuffixOf(orders, ids[|ids| - 1], prefix);
      assert forall i :: 0 <= i < |ids| - 1 ==> ids[..|ids| - 1][i] == ids[i];
      if s.Some? && s.value > m then s.value else m
  }

  /** The maximum is 0 or the suffix of some queued id. */
  lemma {:induction false} MaxSuffixAttained(ids: seq<string>, orders: map<string, Order>, prefix: string)
    ensures var m := MaxSuffix(ids, orders, prefix);
            m == 0 || exists i :: 0 <= i < |ids| && SuffixOf(orders, ids[i], prefix) == Some(m)
  {
    if ids != [] {
      var init := ids[..|ids| - 1];
      MaxSuffixAttained(init, orders, prefix);
      var m := MaxSuffix(init, orders, prefix);
      if m != 0 && MaxSuffix(ids, orders, prefix) == m {
        var i :| 0 <= i < |init| && SuffixOf(orders, init[i], prefix) == Some(m);
        assert ids[i] == init[i];
      }
    }
  }

  /** Extending the scanned prefix of the queue by one id. */
  lemma MaxSuffixStep(ids: seq<string>, i: int, orders: map<string, Order>, prefix: string)
    requires 0 <= i < |ids|
    ensures var s := SuffixOf(orders, ids[i], prefix);
            var m := MaxSuffix(ids[..i], orders, prefix);
            MaxSuffix(ids[..i + 1], orders, prefix) == if s.Some? && s.value > m then s.value else m
  {
    assert ids[..i + 1][..i] == ids[..i];
  }

  /** `prefix + (maxNo + 1)` as written, with Java's 32-bit `int` addition. */
  function NextQueueNoAsWritten(prefix: string, maxNo: int): (r: string)
    ensures StartsWith(r, prefix) && |r| > |prefix|
  {
    prefix + IntToString(Wrap32(maxNo + 1))
  }

  /** At the largest `int` the addition wraps: the new number is the smallest `int`, not a larger one. */
  lemma QueueNoWrapsAtIntMax(prefix: string)
    ensures StartsWith(NextQueueNoAsWritten(prefix, INT_MAX), prefix)
    ensures ParseInt(NextQueueNoAsWritten(prefix, INT_MAX)[|prefix|..]) == Some(INT_MIN)
    ensures INT_MIN < INT_MAX
  {
    var r := NextQueueNoAsWritten(prefix, INT_MAX);
    assert Wrap32(INT_MAX + 1) == INT_MIN;
    assert r[|prefix|..] == IntToString(INT_MIN);
    ParseRoundTrip(INT_MIN);
  }

  /** `prefix + (maxNo + 1)` without wrap-around: the number the code evidently means. */
  function NextQueueNo(prefix: string, maxNo: nat): (r: string)
    ensures StartsWith(r, prefix) && |r| > |prefix|
  {
    prefix + NatToString(maxNo + 1)
  }

  /** The text of a next number splits into the prefix and the decimal digits of maxNo + 1. */
  lemma NextQueueNoParts(prefix: string, maxNo: nat)
    ensures StartsWith(NextQueueNo(prefix, maxNo), prefix)
    ensures NextQueueNo(prefix, maxNo)[|prefix|..] == NatToString(maxNo + 1)
  {
    var r := NextQueueNo(prefix, maxNo);
    assert r[..|prefix|] == prefix;
    assert r[|prefix|..] == NatToString(maxNo + 1);
  }

  /**
   * The assigned number carries the prefix and a suffix whose value exceeds every
   * suffix already queued under that prefix; below the `int` limit it parses back.
   */
  lemma NextQueueNoExceeds(prefix: string, ids: seq<string>, orders: map<string, Order>)
    ensures var m := MaxSuffix(ids, orders, prefix);
            var r := NextQueueNo(prefix, m);
            && StartsWith(r, prefix)
            && AllDigits(r[|prefix|..])
            && DigitsValue(r[|prefix|..]) == m + 1
            && (forall i :: 0 <= i < |ids| && SuffixOf(orders, ids[i], prefix).Some? ==>
                  SuffixOf(orders, ids[i], prefix).value < DigitsValue(r[|prefix|..]))
            && (m < INT_MAX ==> ParseInt(r[|prefix|..]) == Some(m + 1))
  {
    var m := MaxSuffix(ids, orders, prefix);
    NextQueueNoParts(prefix, m);
    DigitsRoundTrip(m + 1);
    if m < INT_MAX {
      ParseRoundTrip(m + 1);
    }
  }

  /** The queue number a released order gets is under RF (fast) or RT (slow). */
  function ReleasePrefix(mode: int): string {
    if mode == FAST then "RF" else "RT"
  }

  /** The ids of `ids` that have a cached order, in order. */
  function Found(ids: seq<string>, orders: map<string, Order>): (r: seq<string>)
    ensures forall id :: id in r <==> id in ids && id in orders
    ensures |r| <= |ids|
  {
    if ids == [] then []
    else
      var rest := Found(ids[..|ids| - 1], orders);
      assert ids == ids[..|ids| - 1] + [ids[|ids| - 1]];
      if ids[|ids| - 1] in orders then rest + [ids[|ids| - 1]] else rest
  }

  /** `after` is `before` moved back to waiting with a fresh number under `prefix`. */
  ghost predicate Released(before: Order, after: Order, prefix: string) {
    && after.queueNo.Some?
    && StartsWith(after.queueNo.value, prefix)
    && after == before.(status := WAITING, stationId := None, queueNo := after.queueNo)
  }

  /** One mode's queue together with the order cache. */
  datatype QueueState = QueueState(queue: seq<string>, orders: map<string, Order>)

  /** One pass of the release loop: a cached order is renumbered, reset to waiting and pushed at the head. */
  function ReleaseOne(st: QueueState, id: string, prefix: string): (r: QueueState)
    ensures r.orders.Keys == st.orders.Keys
    ensures id !in st.orders ==> r == st
    ensures id in st.orders ==> r.queue == [id] + st.queue && Released(st.orders[id], r.orders[id], prefix)
    ensures id in st.orders ==> r.orders == st.orders[id := r.orders[id]]
  {
    if id !in st.orders then st
    else
      var no := NextQueueNo(prefix, MaxSuffix(st.queue, st.orders, prefix));
      QueueState([id] + st.queue, st.orders[id := st.orders[id].(queueNo := Some(no), status := WAITING, stationId := None)])
  }

  /** The release loop over `ids`, first to last. */
  function ReleaseAll(ids: seq<string>, st: QueueState, prefix: string): QueueState {
    if ids == [] then st
    else ReleaseOne(ReleaseAll(ids[..|ids| - 1], st, prefix), ids[|ids| - 1], prefix)
  }

  /** The suffixes the release loop hands out, in release order. */
  function ReleaseNumbers(ids: seq<string>, st: QueueState, prefix: string): (ns: seq<nat>)
    ensures forall k :: 0 <= k < |ns| ==> ns[k] >= 1
  {
    if ids == [] then []
    else
      var mid := ReleaseAll(ids[..|ids| - 1], st, prefix);
      ReleaseNumbers(ids[..|ids| - 1], st, prefix)
        + if ids[|ids| - 1] in mid.orders then [MaxSuffix(mid.queue, mid.orders, prefix) + 1] else []
  }

  /** Releasing never adds or drops a cached order. */
  lemma {:induction false} ReleaseAllKeys(ids: seq<string>, st: QueueState, prefix: string)
    ensures ReleaseAll(ids, st, prefix).orders.Keys == st.orders.Keys
  {
    if ids != [] {
      ReleaseAllKeys(ids[..|ids| - 1], st, prefix);
    }
  }

  /** Every order stays stored under its own id. */
  lemma {:induction false} ReleaseAllIds(ids: seq<string>, st: QueueState, prefix: string)
    requires KeyedById(st.orders)
    ensures KeyedById(ReleaseAll(ids, st, prefix).orders)
  {
    if ids != [] {
      ReleaseAllIds(ids[..|ids| - 1], st, prefix);
      var mid := ReleaseAll(ids[..|ids| - 1], st, prefix);
      var last := ids[|ids| - 1];
    }
  }

  /** The released ids that were cached end up at the head in reverse order. */
  lemma {:induction false} ReleaseAllQueue(ids: seq<string>, st: QueueState, prefix: string)
    ensures ReleaseAll(ids, st, prefix).queue == Reverse(Found(ids, st.orders)) + st.queue
  {
    if ids != [] {
      var init := ids[..|ids| - 1];
      var last := ids[|ids| - 1];
      ReleaseAllQueue(init, st, prefix);
      ReleaseAllKeys(init, st, prefix);
      var f := Found(init, st.orders);
      if last in st.orders {
        assert Found(ids, st.orders) == f + [last];
        assert (f + [last])[..|f|] == f;
        assert Reverse(f + [last]) == [last] + Reverse(f);
      }
    }
  }

  /** Orders whose id is not listed are left as they were. */
  lemma {:induction false} ReleaseAllUntouched(ids: seq<string>, st: QueueState, prefix: string, id: string)
    requires id in st.orders && id !in ids
    ensures id in ReleaseAll(ids, st, prefix).orders
    ensures ReleaseAll(ids, st, prefix).orders[id] == st.orders[id]
  {
    if ids != [] {
      var init := ids[..|ids| - 1];
      assert forall j :: 0 <= j < |init| ==> init[j] == ids[j];
      ReleaseAllUntouched(init, st, prefix, id);
    }
  }

  /** A listed cached order is waiting, at no station, numbered under the prefix; nothing else about it changes. */
  lemma {:induction false} ReleaseAllReleased(ids: seq<string>, st: QueueState, prefix: string, id: string)
    requires id in st.orders && id in ids
    ensures id in ReleaseAll(ids, st, prefix).orders
    ensures Released(st.orders[id], ReleaseAll(ids, st, prefix).orders[id], prefix)
  {
    var init := ids[..|ids| - 1];
    var last := ids[|ids| - 1];
    ReleaseAllKeys(init, st, prefix);
    var mid := ReleaseAll(init, st, prefix);
    if id == last {
      var m := MaxSuffix(mid.queue, mid.orders, prefix);
      NextQueueNoParts(prefix, m);
      if id in init {
        ReleaseAllReleased(init, st, prefix, id);
      } else {
        ReleaseAllUntouched(init, st, prefix, id);
      }
    } else {
      assert id in init by {
        var j :| 0 <= j < |ids| && ids[j] == id;
        assert j < |ids| - 1 && init[j] == id;
      }
      ReleaseAllReleased(init, st, prefix, id);
    }
  }

  /** After a release that handed out a number, the head of the queue holds the last number handed out. */
  lemma {:induction false} ReleaseAllHead(ids: seq<string>, st: QueueState, prefix: string)
    ensures |ReleaseNumbers(ids, st, prefix)| == |Found(ids, st.orders)|
    ensures var r := ReleaseAll(ids, st, prefix);
            var ns := ReleaseNumbers(ids, st, prefix);
            |ns| > 0 ==>
              |r.queue| > 0 && r.queue[0] in r.orders
              && r.orders[r.queue[0]].queueNo == Some(NextQueueNo(prefix, ns[|ns| - 1] - 1))
  {
    if ids != [] {
      var init := ids[..|ids| - 1];
      ReleaseAllHead(init, st, prefix);
      ReleaseAllKeys(init, st, prefix);
    }
  }

  /**
   * The numbers handed out grow strictly from one release to the next, as long
   * as the previous one is still an `int` (past it the suffix no longer parses).
   */
  lemma {:induction false} ReleaseNumbersIncrease(ids: seq<string>, st: QueueState, prefix: string)
    ensures var ns := ReleaseNumbers(ids, st, prefix);
            forall k :: 0 < k < |ns| && ns[k - 1] <= INT_MAX ==> ns[k - 1] < ns[k]
  {
    if ids != [] {
      var init := ids[..|ids| - 1];
      ReleaseNumbersIncrease(init, st, prefix);
      var ns0 := ReleaseNumbers(init, st, prefix);
      var ns := ReleaseNumbers(ids, st, prefix);
      var mid := ReleaseAll(init, st, prefix);
      if |ns| > |ns0| && |ns0| > 0 && ns0[|ns0| - 1] <= INT_MAX {
        var n := ns0[|ns0| - 1];
        ReleaseAllHead(init, st, prefix);
        assert |mid.queue| > 0 && mid.queue[0] in mid.orders;
        assert mid.orders[mid.queue[0]].queueNo == Some(NextQueueNo(prefix, n - 1));
        LastReleasedCounts(mid.queue, mid.orders, prefix, n);
        assert ns[|ns0|] == MaxSuffix(mid.queue, mid.orders, prefix) + 1;
      }
      assert forall k :: 0 <= k < |ns0| ==> ns[k] == ns0[k];
    }
  }

  class WaitingQueues {
    var fast: seq<string>
    var slow: seq<string>

    constructor ()
      ensures fast == [] && slow == []
    {
      fast, slow := [], [];
    }

    /** getAllOrderIdsInQueue: the ids in a mode's queue, head first. */
    function Members(mode: int): seq<string>
      reads this
    {
      if GetQueueKey(mode) == FAST_QUEUE_KEY then fast else slow
    }

    /** assignQueueNoWithLock: reads the queue and the cache and changes neither. */
    method AssignQueueNoWithLock(mode: int, prefix: string, cache: OrderCache) returns (queueNo: string)
      ensures queueNo == NextQueueNo(prefix, MaxSuffix(Members(mode), cache.orders, prefix))
    {
      var maxNo := 0;
      var orderIds := Members(mode);
      var i := 0;
      assert orderIds[..0] == [];
      while i < |orderIds|
        invariant 0 <= i <= |orderIds|
        invariant maxNo == MaxSuffix(orderIds[..i], cache.orders, prefix)
      {
        ghost var suffix := SuffixOf(cache.orders, orderIds[i], prefix);
        ghost var prev := maxNo;
        var order := cache.GetOrder(Some(orderIds[i]));
        if order.Some? {
          var q := order.value.queueNo;
          if q.Some? && StartsWith(q.value, prefix) {
            var no := ParseInt(q.value[|prefix|..]);
            assert no == suffix;
            if no.Some? && no.value > maxNo {
              maxNo := no.value;
            }
          }
        }
        assert maxNo == if suffix.Some? && suffix.value > prev then suffix.value else prev;
        MaxSuffixStep(orderIds, i, cache.orders, prefix);
        assert maxNo == MaxSuffix(orderIds[..i + 1], cache.orders, prefix);
        i := i + 1;
      }
      assert orderIds[..i] == orderIds;
      queueNo := NextQueueNo(prefix, maxNo);
    }

    /** addOrderToQueueWithLock: appends at the tail of the mode's queue. */
    method AddOrderToQueueWithLock(mode: int, orderId: string)
      modifies this
      ensures Members(mode) == old(Members(mode)) + [orderId]
      ensures Members(OtherMode(mode)) == old(Members(OtherMode(mode)))
    {
      if GetQueueKey(mode) == FAST_QUEUE_KEY {
        fast := fast + [orderId];
      } else {
        slow := slow + [orderId];
      }
    }

    /** addOrderToQueueHeadWithLock: prepends at the head of the mode's queue. */
    method AddOrderToQueueHeadWithLock(mode: int, orderId: string)
      modifies this
      ensures Members(mode) == [orderId] + old(Members(mode))
      ensures Members(OtherMode(mode)) == old(Members(OtherMode(mode)))
    {
      if GetQueueKey(mode) == FAST_QUEUE_KEY {
        fast := [orderId] + fast;
      } else {
        slow := [orderId] + slow;
      }
    }

    /** removeOrderFromQueueWithLock: drops every occurrence of the id (LREM count 0). */
    method RemoveOrderFromQueueWithLock(mode: int, orderId: string)
      modifies this
      ensures Members(mode) == RemoveAll(old(Members(mode)), orderId)
      ensures Members(OtherMode(mode)) == old(Members(OtherMode(mode)))
    {
      if GetQueueKey(mode) == FAST_QUEUE_KEY {
        fast := RemoveAll(fast, orderId);
      } else {
        slow := RemoveAll(slow, orderId);
      }
    }

    /**
     * releaseOrdersToQueueHead: every listed id with a cached order goes back to
     * waiting (status 3, no station) with a fresh RF/RT number and is pushed at
     * the head; the other queue is untouched.
     */
    method ReleaseOrdersToQueueHead(orderIds: seq<string>, mode: int, cache: OrderCache)
      requires cache.Valid()
      modifies this, cache
      ensures cache.Valid()
      ensures QueueState(Members(mode), cache.orders)
        == ReleaseAll(orderIds, QueueState(old(Members(mode)), old(cache.orders)), ReleasePrefix(mode))
      ensures Members(OtherMode(mode)) == old(Members(OtherMode(mode)))
    {
      if |orderIds| == 0 {
        return;
      }
      var prefix := ReleasePrefix(mode);
      ghost var st0 := QueueState(Members(mode), cache.orders);
      ghost var other0 := Members(OtherMode(mode));
      var i := 0;
      while i < |orderIds|
        invariant 0 <= i <= |orderIds|
        invariant cache.Valid()
        invariant QueueState(Members(mode), cache.orders) == ReleaseAll(orderIds[..i], st0, prefix)
        invariant Members(OtherMode(mode)) == other0
      {
        assert orderIds[..i + 1][..i] == orderIds[..i];
        ReleaseStep(orderIds[i], mode, prefix, cache);
        i := i + 1;
      }
      assert orderIds[..i] == orderIds;
    }

    /** One pass of the release loop on the stores. */
    method ReleaseStep(orderId: string, mode: int, prefix: string, cache: OrderCache)
      requires cache.Valid()
      modifies this, cache
      ensures cache.Valid()
      ensures QueueState(Members(mode), cache.orders) == ReleaseOne(old(QueueState(Members(mode), cache.orders)), orderId, prefix)
      ensures Members(OtherMode(mode)) == old(Members(OtherMode(mode)))
    {
      var order := cache.GetOrder(Some(orderId));
      if order.Some? {
        var newQueueNo := AssignQueueNoWithLock(mode, prefix, cache);
        var updated := order.value.(queueNo := Some(newQueueNo), status := WAITING, stationId := None);
        cache.SaveOrder(Some(updated));
        AddOrderToQueueHeadWithLock(mode, orderId);
      }
    }
  }

  /** The id at the head of the queue, numbered n under the prefix, bounds the maximum from below. */
  lemma LastReleasedCounts(queue: seq<string>, orders: map<string, Order>, prefix: string, n: nat)
    requires 1 <= n <= INT_MAX
    requires |queue| > 0 && queue[0] in orders && orders[queue[0]].queueNo == Some(NextQueueNo(prefix, n - 1))
    ensures MaxSuffix(queue, orders, prefix) >= n
  {
    NextQueueNoParts(prefix, n - 1);
    ParseRoundTrip(n);
    assert SuffixOf(orders, queue[0], prefix) == Some(n);
  }
}

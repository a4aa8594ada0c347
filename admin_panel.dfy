/** The operator console: the status transition table, new-order detection
    between two fetches of the order list, the reconciliation of a status
    update into the list, the dashboard counters and the "time ago" buckets. */
module AdminPanel {
  import opened Orders

  // ---------------------------------------------------------------------------
  // Status transition table
  // ---------------------------------------------------------------------------

  /** The statuses an operator may pick next, per status, as the table spells them. */
  function StatusFlow(st: Status): seq<string>
  {
    match st
    case Pending => ["confirmed", "cancelled"]
    case Confirmed => ["preparing", "cancelled"]
    case Preparing => ["ready", "cancelled"]
    case Ready => ["out-for-delivery", "cancelled"]
    case OutForDelivery => ["delivered"]
    case Delivered => []
    case Cancelled => []
  }

  /** The options offered for an order's current status: the table's entry,
      or the empty list for a string the table does not know. */
  function StatusOptions(currentStatus: string): (r: seq<string>)
    ensures Parse(currentStatus).None? ==> r == []
    ensures forall t :: t in r ==> Parse(t).Some?
    ensures currentStatus !in r
    ensures r == [] <==> currentStatus !in {"pending", "confirmed", "preparing", "ready", "out-for-delivery"}
  {
    match Parse(currentStatus)
    case None => []
    case Some(st) => StatusFlow(st)
  }

  /** `cancelled` is offered exactly from the four statuses before dispatch. */
  lemma CancelOffered(s: string)
    ensures "cancelled" in StatusOptions(s) <==> s in {"pending", "confirmed", "preparing", "ready"}
  {
  }

  /** The options other than cancelling. */
  function ForwardOptions(s: string): (r: seq<string>)
    ensures forall t :: t in r <==> t in StatusOptions(s) && t != "cancelled"
  {
    if StatusOptions(s) == [] then []
    else [StatusOptions(s)[0]]
  }

  /** Every non-terminal status offers exactly one way forward; terminal and
      unknown statuses offer none. */
  lemma UniqueForwardOption(s: string)
    ensures |ForwardOptions(s)| == (if StatusOptions(s) == [] then 0 else 1)
    ensures StatusOptions(s) != [] ==> StatusOptions(s)[0] != "cancelled"
    ensures forall i :: 1 <= i < |StatusOptions(s)| ==> StatusOptions(s)[i] == "cancelled"
  {
  }

  // ---------------------------------------------------------------------------
  // New-order detection
  // ---------------------------------------------------------------------------

  /** The orders a fetch reports as new: nothing on the first load (count 0),
      otherwise the leading `|currentOrders| - lastOrderCount` entries of a list
      the server sends newest first. */
  function NewOrders(currentOrders: seq<Order>, lastOrderCount: nat): (r: seq<Order>)
    ensures r <= currentOrders
    ensures lastOrderCount == 0 ==> r == []
    ensures |currentOrders| <= lastOrderCount ==> r == []
    ensures 0 < lastOrderCount < |currentOrders| ==> |r| == |currentOrders| - lastOrderCount
  {
    if lastOrderCount == 0 then []
    else
      var newOrderCount := |currentOrders| - lastOrderCount;
      if newOrderCount > 0 then currentOrders[..newOrderCount] else []
  }

  /** When the server puts the orders placed since the last fetch in front of
      the list it sent last time, exactly those orders are reported. */
  lemma {:induction false} PrependedOrdersDetected(placed: seq<Order>, seen: seq<Order>)
    requires seen != []
    ensures NewOrders(placed + seen, |seen|) == placed
  {
    if placed != [] {
      assert (placed + seen)[..|placed|] == placed;
    }
  }

  /** The detection is positional: if one order disappears while another
      appears, the length is unchanged and nothing is reported. */
  lemma {:induction false} ReplacementGoesUnnoticed(gone: Order, placed: Order, kept: seq<Order>)
    ensures NewOrders([placed] + kept, |kept + [gone]|) == []
  {
  }

  /** The `lastOrderCount` a closure created at mount time sees. */
  const MountTimeCount: nat := 0

  /** A second order placed after a first load of one order: the current
      count reports it, the mount-time count does not. */
  lemma {:induction false} StaleCountMissesNewOrder(first: Order, second: Order)
    ensures NewOrders([second, first], |[first]|) == [second]
    ensures NewOrders([second, first], MountTimeCount) == []
  {
    PrependedOrdersDetected([second], [first]);
  }

  // ---------------------------------------------------------------------------
  // Reconciling one order returned by a status update
  // ---------------------------------------------------------------------------

  /** The list with every entry whose id is `orderId` replaced by `updated`. */
  function ReplaceById(orders: seq<Order>, orderId: string, updated: Order): (r: seq<Order>)
    ensures |r| == |orders|
    ensures forall i :: 0 <= i < |orders| && orders[i].id == orderId ==> r[i] == updated
    ensures forall i :: 0 <= i < |orders| && orders[i].id != orderId ==> r[i] == orders[i]
    decreases |orders|
  {
    if orders == [] then []
    else [if orders[0].id == orderId then updated else orders[0]] + ReplaceById(orders[1..], orderId, updated)
  }

  /** Applying the same server answer twice changes nothing more. */
  lemma ReplaceByIdIdempotent(orders: seq<Order>, orderId: string, updated: Order)
    ensures ReplaceById(ReplaceById(orders, orderId, updated), orderId, updated)
         == ReplaceById(orders, orderId, updated)
  {
  }

  /** An answer for an id the list does not hold leaves the list as it is. */
  lemma ReplaceAbsentId(orders: seq<Order>, orderId: string, updated: Order)
    requires forall o :: o in orders ==> o.id != orderId
    ensures ReplaceById(orders, orderId, updated) == orders
  {
  }

  // ---------------------------------------------------------------------------
  // Dashboard counters
  // ---------------------------------------------------------------------------

  /** The orders whose status is one of `statuses`, in list order. */
  function WithStatus(orders: seq<Order>, statuses: set<string>): (r: seq<Order>)
    ensures |r| <= |orders|
    ensures forall o :: o in r ==> o in orders && o.status in statuses
    ensures forall o :: o in orders && o.status in statuses ==> o in r
    ensures forall o :: multiset(r)[o] == (if o.status in statuses then multiset(orders)[o] else 0)
    decreases |orders|
  {
    if orders == [] then []
    else
      assert orders == [orders[0]] + orders[1..];
      var rest := WithStatus(orders[1..], statuses);
      if orders[0].status in statuses then [orders[0]] + rest else rest
  }

  /** The positions of the list holding an order whose status is one of `statuses`. */
  function StatusPositions(orders: seq<Order>, statuses: set<string>): set<int>
  {
    set i | 0 <= i < |orders| && orders[i].status in statuses
  }

  /** Filtering distributes over concatenation. */
  lemma {:induction false} WithStatusAppend(a: seq<Order>, b: seq<Order>, statuses: set<string>)
    ensures WithStatus(a + b, statuses) == WithStatus(a, statuses) + WithStatus(b, statuses)
    decreases |a|
  {
    if a == [] {
      assert a + b == b;
    } else {
      assert (a + b)[0] == a[0];
      assert (a + b)[1..] == a[1..] + b;
      WithStatusAppend(a[1..], b, statuses);
    }
  }

  /** A filter is exactly as long as the number of positions it keeps. */
  lemma {:induction false} WithStatusCountsPositions(orders: seq<Order>, statuses: set<string>)
    ensures |WithStatus(orders, statuses)| == |StatusPositions(orders, statuses)|
    decreases |orders|
  {
    if orders == [] {
      assert StatusPositions(orders, statuses) == {};
    } else {
      var front, last := orders[..|orders| - 1], orders[|orders| - 1];
      assert orders == front + [last];
      WithStatusAppend(front, [last], statuses);
      assert [last][1..] == [];
      WithStatusCountsPositions(front, statuses);
      PositionsOfAppended(front, last, statuses);
    }
  }

  /** Appending one order adds its position exactly when its status is kept. */
  lemma PositionsOfAppended(front: seq<Order>, last: Order, statuses: set<string>)
    ensures |StatusPositions(front + [last], statuses)|
         == |StatusPositions(front, statuses)| + (if last.status in statuses then 1 else 0)
  {
    var before := StatusPositions(front, statuses);
    var after := StatusPositions(front + [last], statuses);
    var added: set<int> := if last.status in statuses then {|front|} else {};
    forall i | i in after
      ensures i in before + added
    {
      if i < |front| {
        assert (front + [last])[i] == front[i];
      }
    }
    forall i | i in before + added
      ensures i in after
    {
      if i < |front| {
        assert (front + [last])[i] == front[i];
      }
    }
    assert after == before + added;
    assert |front| !in before;
  }

  const InProgressStatuses: set<string> := {"preparing", "ready", "out-for-delivery"}

  /** `pendingOrders`: the pending orders, whose number is the notification
      badge's count; the dropdown panel lists the first five of them. */
  function PendingOrders(orders: seq<Order>): (r: seq<Order>)
    ensures forall o :: o in r <==> o in orders && o.status == "pending"
    ensures forall o :: multiset(r)[o] == (if o.status == "pending" then multiset(orders)[o] else 0)
    ensures |r| == |StatusPositions(orders, {"pending"})|
  {
    WithStatusCountsPositions(orders, {"pending"});
    WithStatus(orders, {"pending"})
  }

  /** The "in progress" counter: orders being prepared, ready or on their way. */
  function InProgressCount(orders: seq<Order>): (n: nat)
    ensures n == |StatusPositions(orders, InProgressStatuses)|
    ensures n <= |orders|
  {
    WithStatusCountsPositions(orders, InProgressStatuses);
    |WithStatus(orders, InProgressStatuses)|
  }

  /** The "delivered" counter. */
  function DeliveredCount(orders: seq<Order>): (n: nat)
    ensures n == |StatusPositions(orders, {"delivered"})|
    ensures n <= |orders|
  {
    WithStatusCountsPositions(orders, {"delivered"});
    |WithStatus(orders, {"delivered"})|
  }

  /** Filtering by two disjoint status sets splits the filter by their union. */
  lemma {:induction false} WithStatusDisjointUnion(orders: seq<Order>, a: set<string>, b: set<string>)
    requires a !! b
    ensures |WithStatus(orders, a)| + |WithStatus(orders, b)| == |WithStatus(orders, a + b)|
    decreases |orders|
  {
    if orders != [] {
      WithStatusDisjointUnion(orders[1..], a, b);
    }
  }

  /** The three counters never add up to more orders than there are. */
  lemma CountersBounded(orders: seq<Order>)
    ensures |PendingOrders(orders)| + InProgressCount(orders) + DeliveredCount(orders) <= |orders|
  {
    WithStatusDisjointUnion(orders, {"pending"}, InProgressStatuses);
    WithStatusDisjointUnion(orders, {"pending"} + InProgressStatuses, {"delivered"});
  }

  // ---------------------------------------------------------------------------
  // "Time ago" buckets
  // ---------------------------------------------------------------------------

  datatype TimeAgo = JustNow | MinutesAgo(minutes: int) | HoursAgo(hours: int) | DaysAgo(days: int)

  /** The bucket for an order created `elapsedMs` milliseconds ago. Whole
      seconds are the floor of the milliseconds over 1000 (Dafny's division by
      a positive constant floors, as `Math.floor` does). */
  function TimeAgoOf(elapsedMs: int): (r: TimeAgo)
    ensures var secs := elapsedMs / 1000;
      && (r.JustNow? <==> secs < 60)
      && (r.MinutesAgo? ==> 1 <= r.minutes < 60 && r.minutes * 60 <= secs < (r.minutes + 1) * 60)
      && (r.HoursAgo? ==> 1 <= r.hours < 24 && r.hours * 3600 <= secs < (r.hours + 1) * 3600)
      && (r.DaysAgo? ==> 1 <= r.days && r.days * 86400 <= secs < (r.days + 1) * 86400)
  {
    var diffInSeconds := elapsedMs / 1000;
    if diffInSeconds < 60 then JustNow
    else if diffInSeconds < 3600 then MinutesAgo(diffInSeconds / 60)
    else if diffInSeconds < 86400 then HoursAgo(diffInSeconds / 3600)
    else DaysAgo(diffInSeconds / 86400)
  }

  // ---------------------------------------------------------------------------
  // The console's state
  // ---------------------------------------------------------------------------

  /** The toast the console shows last. */
  datatype Notice = NoNotice | NewOrdersReceived(count: nat) | StatusUpdated(status: string) | LoadFailed | UpdateFailed

  const LoadFailedText: string := "Failed to load orders"

  class AdminConsole {
    var orders: seq<Order>
    var loading: bool
    var updating: Option<string>
    var error: string
    var newOrders: seq<string>
    var lastOrderCount: nat
    var notice: Notice

    /** The remembered count is always the length of the list on screen. */
    ghost predicate Valid()
      reads this
    {
      lastOrderCount == |orders|
    }

    constructor ()
      ensures Valid()
      ensures orders == [] && loading && updating == None && error == ""
      ensures newOrders == [] && lastOrderCount == 0 && notice == NoNotice
    {
      orders := [];
      loading := true;
      updating := None;
      error := "";
      newOrders := [];
      lastOrderCount := 0;
      notice := NoNotice;
    }

    /** One run of the fetch, with `seenCount` the `lastOrderCount` visible to
        the closure that runs it. */
    method RunFetch(response: Response<seq<Order>>, seenCount: nat)
      requires Valid()
      modifies this
      ensures Valid()
      ensures !loading && updating == old(updating)
      ensures response.Ok? ==>
        var arrived := NewOrders(response.data, seenCount);
        && orders == response.data && lastOrderCount == |response.data| && error == ""
        && newOrders == (if arrived == [] then old(newOrders) else IdsOf(arrived))
        && notice == (if arrived == [] then old(notice) else NewOrdersReceived(|arrived|))
      ensures response.Failed? ==>
        && orders == old(orders) && lastOrderCount == old(lastOrderCount)
        && error != "" && error == (if response.message != "" then response.message else LoadFailedText)
        && newOrders == old(newOrders) && notice == LoadFailed
    {
      loading := true;
      error := "";
      match response {
        case Ok(currentOrders) =>
          var arrived := NewOrders(currentOrders, seenCount);
          if |arrived| > 0 {
            notice := NewOrdersReceived(|arrived|);
            newOrders := IdsOf(arrived);
          }
          orders := currentOrders;
          lastOrderCount := |currentOrders|;
        case Failed(message) =>
          error := if message != "" then message else LoadFailedText;
          notice := LoadFailed;
      }
      loading := false;
    }

    /** A fetch run by the closure of the current render (the mount call, the
        header's Refresh button and the "Try Again" button): new orders are judged against the count
        remembered from the previous successful fetch. */
    method FetchOrders(response: Response<seq<Order>>)
      requires Valid()
      modifies this
      ensures Valid()
      ensures !loading && updating == old(updating)
      ensures response.Ok? ==>
        var arrived := NewOrders(response.data, old(|orders|));
        && orders == response.data && lastOrderCount == |response.data| && error == ""
        && newOrders == (if arrived == [] then old(newOrders) else IdsOf(arrived))
        && notice == (if arrived == [] then old(notice) else NewOrdersReceived(|arrived|))
      ensures response.Failed? ==>
        && orders == old(orders) && lastOrderCount == old(lastOrderCount)
        && error != "" && error == (if response.message != "" then response.message else LoadFailedText)
        && newOrders == old(newOrders) && notice == LoadFailed
    {
      RunFetch(response, lastOrderCount);
    }

    /** A tick of the 30-second interval as written: the interval holds the
        fetch closure of the first render, whose count is still 0, so a
        successful poll replaces the list but never reports new orders. */
    method PollTickAsWritten(response: Response<seq<Order>>)
      requires Valid()
      modifies this
      ensures Valid()
      ensures !loading && updating == old(updating)
      ensures newOrders == old(newOrders)
      ensures response.Ok? ==>
        orders == response.data && lastOrderCount == |response.data| && error == "" && notice == old(notice)
      ensures response.Failed? ==>
        && orders == old(orders) && lastOrderCount == old(lastOrderCount) && notice == LoadFailed
        && error != "" && error == (if response.message != "" then response.message else LoadFailedText)
    {
      RunFetch(response, MountTimeCount);
    }

    /** Asks the server to move `orderId` to `newStatus`; on success the
        server's copy replaces the entry with that id. The `updating` marker
        names the order while the request is out and is cleared either way. */
    method UpdateOrderStatus(orderId: string, newStatus: string, response: Response<Order>)
      requires Valid()
      modifies this
      ensures Valid()
      ensures updating == None
      ensures |orders| == |old(orders)|
      ensures response.Ok? ==>
        orders == ReplaceById(old(orders), orderId, response.data) && notice == StatusUpdated(newStatus)
      ensures response.Failed? ==> orders == old(orders) && notice == UpdateFailed
      ensures lastOrderCount == old(lastOrderCount) && loading == old(loading)
      ensures error == old(error) && newOrders == old(newOrders)
    {
      updating := Some(orderId);
      match response {
        case Ok(updated) =>
          orders := ReplaceById(orders, orderId, updated);
          notice := StatusUpdated(newStatus);
        case Failed(_) =>
          notice := UpdateFailed;
      }
      updating := None;
    }
  }
}

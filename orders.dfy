/** The vocabulary both order pages share: the orders API's records and outcomes,
    and the closed set of order statuses the back end uses. */
module Orders {

  datatype Option<T> = None | Some(value: T)

  /** The outcome of one call to the orders API: the response body, or a
      failure carrying the error's message (possibly empty). */
  datatype Response<T> = Ok(data: T) | Failed(message: string)

  /** An order as the orders API returns it. `id` is the record's `_id`;
      `status` is whatever string the server sent. The fields the pages only
      display (order number, items, customer, amounts, dates) are not part
      of this model; an order's age reaches it only as elapsed time. */
  datatype Order = Order(id: string, status: string)

  /** The seven order statuses. */
  datatype Status = Pending | Confirmed | Preparing | Ready | OutForDelivery | Delivered | Cancelled

  /** The wire spelling of a status. */
  function Name(st: Status): string
  {
    match st
    case Pending => "pending"
    case Confirmed => "confirmed"
    case Preparing => "preparing"
    case Ready => "ready"
    case OutForDelivery => "out-for-delivery"
    case Delivered => "delivered"
    case Cancelled => "cancelled"
  }

  /** Reads a status string; `None` for any string that is not one of the seven names. */
  function Parse(s: string): (r: Option<Status>)
    ensures r.Some? ==> Name(r.value) == s
    ensures r.None? ==> forall st :: Name(st) != s
  {
    if s == "pending" then Some(Pending)
    else if s == "confirmed" then Some(Confirmed)
    else if s == "preparing" then Some(Preparing)
    else if s == "ready" then Some(Ready)
    else if s == "out-for-delivery" then Some(OutForDelivery)
    else if s == "delivered" then Some(Delivered)
    else if s == "cancelled" then Some(Cancelled)
    else None
  }

  /** Parsing inverts naming: every status reads back as itself. */
  lemma ParseName(st: Status)
    ensures Parse(Name(st)) == Some(st)
  {
  }

  /** The ids of a list of orders, in list order. */
  function IdsOf(orders: seq<Order>): (ids: seq<string>)
    ensures |ids| == |orders|
    ensures forall i :: 0 <= i < |orders| ==> ids[i] == orders[i].id
  {
    seq(|orders|, i requires 0 <= i < |orders| => orders[i].id)
  }
}

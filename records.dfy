/** The records the aggregation reads from the store, as immutable values.
    Money is in integer cents. */
module Records {
  import opened Wrappers

  /** The closed set of subscription statuses. */
  datatype Status = Pending | Active | OnHold | PendingCancel | Cancelled | Switched | Expired

  /** A signup or renewal order: its total and its creation timestamp, if any. */
  datatype Order = Order(total: int, created: Option<int>)

  /** A subscription as the store resolves it. Dates are what the
      subscription's date accessor returns (`None` when unset); `parent` is
      the signup order if it resolves; `renewalOrders` holds one lookup
      result per related renewal-order id. */
  datatype Subscription = Subscription(
    status: Status,
    customer: int,
    start: int,
    nextPayment: Option<int>,
    end: Option<int>,
    cancelled: Option<int>,
    parent: Option<Order>,
    renewalOrders: seq<Option<Order>>)

  /** A membership post: its status is active or not, the membership plan it
      belongs to (its parent post), its owner, its creation timestamp and
      its end date, if any. */
  datatype MembershipPost = MembershipPost(
    id: int,
    active: bool,
    parent: int,
    owner: int,
    created: int,
    endDate: Option<int>)

  /** The subscription date accessor's value: 0 when the date is unset. */
  function GetTime(t: Option<int>): (r: int)
    ensures t.None? ==> r == 0
    ensures t.Some? ==> r == t.value
  {
    t.GetOr(0)
  }

  /** The creation timestamp of an order, 0 when it has no creation date. */
  function CreatedTs(o: Order): (r: int)
    ensures o.created.None? ==> r == 0
    ensures o.created.Some? ==> r == o.created.value
  {
    o.created.GetOr(0)
  }
}

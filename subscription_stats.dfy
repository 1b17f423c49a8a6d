/** The aggregation engine for one month window: one pass over all
    subscriptions that counts active and pending-cancel subscriptions, new
    subscriptions with their signup total, cancellations, endings, and
    renewal orders with their total. */
module SubscriptionStats {
  import opened Wrappers
  import opened Calendar
  import opened Records

  /** The end of a subscription's paid access: the next payment if set,
      else the end date if set, else the end of the queried window (an
      open-ended subscription covers the whole month). A timestamp of 0
      reads as unset. */
  function AccessEnd(s: Subscription, w: Window): int {
    var nextPayment := GetTime(s.nextPayment);
    var accessEnd := if nextPayment != 0 then nextPayment else GetTime(s.end);
    if accessEnd == 0 then w.endTs else accessEnd
  }

  /** The access window [start, access end] overlaps the month window. */
  predicate Overlaps(s: Subscription, w: Window) {
    s.start <= w.endTs && AccessEnd(s, w) >= w.startTs
  }

  /** Started in `w`: the start time lies in the window. */
  predicate StartsIn(s: Subscription, w: Window) {
    InWindow(s.start, w)
  }

  /** Cancelled in `w`: an unset or zero cancellation time is falsy and
      never counts. */
  predicate CancelledIn(s: Subscription, w: Window)
    ensures CancelledIn(s, w) ==> s.cancelled.Some? && s.cancelled.value != 0
  {
    GetTime(s.cancelled) != 0 && InWindow(GetTime(s.cancelled), w)
  }

  /** Ended in `w`: an unset or zero end time is falsy and never counts. */
  predicate EndedIn(s: Subscription, w: Window)
    ensures EndedIn(s, w) ==> s.end.Some? && s.end.value != 0
  {
    GetTime(s.end) != 0 && InWindow(GetTime(s.end), w)
  }

  /** The per-subscription counts of the report. */
  datatype Measure = ActiveCount | PendingCancelCount | NewCount | CancellationCount | EndedCount

  /** Whether subscription `s` adds one to measure `e` in window `w`. Status
      is the subscription's current status. */
  predicate Counts(e: Measure, s: Subscription, w: Window) {
    match e
    case ActiveCount => Overlaps(s, w) && s.status == Active
    case PendingCancelCount => Overlaps(s, w) && s.status == PendingCancel
    case NewCount => StartsIn(s, w)
    case CancellationCount => CancelledIn(s, w)
    case EndedCount => EndedIn(s, w)
  }

  /** The resolved subscriptions that measure `e` counts, in store order;
      ids that do not resolve are skipped. */
  function Matching(e: Measure, subs: seq<Option<Subscription>>, w: Window): seq<Subscription> {
    if subs == [] then []
    else
      var last := subs[|subs| - 1];
      Matching(e, subs[..|subs| - 1], w)
      + (if last.Some? && Counts(e, last.value, w) then [last.value] else [])
  }

  /** The resolved subscriptions whose access window overlaps `w`. */
  function Overlapping(subs: seq<Option<Subscription>>, w: Window): seq<Subscription> {
    if subs == [] then []
    else
      var last := subs[|subs| - 1];
      Overlapping(subs[..|subs| - 1], w)
      + (if last.Some? && Overlaps(last.value, w) then [last.value] else [])
  }

  /** The subscriptions that resolve. */
  function Resolved(subs: seq<Option<Subscription>>): seq<Option<Subscription>> {
    if subs == [] then []
    else
      var last := subs[|subs| - 1];
      Resolved(subs[..|subs| - 1]) + (if last.Some? then [last] else [])
  }

  /** Total of the signup order, 0 when there is none. */
  function ParentTotal(s: Subscription): int {
    if s.parent.Some? then s.parent.value.total else 0
  }

  function SumParentTotals(ss: seq<Subscription>): int {
    if ss == [] then 0 else SumParentTotals(ss[..|ss| - 1]) + ParentTotal(ss[|ss| - 1])
  }

  /** The signup total: signup-order totals of the subscriptions new in `w`. */
  function SignupTotal(subs: seq<Option<Subscription>>, w: Window): int {
    SumParentTotals(Matching(NewCount, subs, w))
  }

  /** The resolved orders created inside `w` (an order without a creation
      date counts as created at 0). */
  function OrdersIn(orders: seq<Option<Order>>, w: Window): seq<Order> {
    if orders == [] then []
    else
      var last := orders[|orders| - 1];
      OrdersIn(orders[..|orders| - 1], w)
      + (if last.Some? && InWindow(CreatedTs(last.value), w) then [last.value] else [])
  }

  /** The renewal orders of all resolved subscriptions created inside `w`. */
  function RenewalsIn(subs: seq<Option<Subscription>>, w: Window): seq<Order> {
    if subs == [] then []
    else
      var last := subs[|subs| - 1];
      RenewalsIn(subs[..|subs| - 1], w)
      + (if last.Some? then OrdersIn(last.value.renewalOrders, w) else [])
  }

  function TotalOf(orders: seq<Order>): int {
    if orders == [] then 0 else TotalOf(orders[..|orders| - 1]) + orders[|orders| - 1].total
  }

  /** The statistics of one month. */
  datatype Stats = Stats(
    active: nat,
    pendingCancel: nat,
    newSubscriptions: nat,
    renewals: nat,
    cancellations: nat,
    ended: nat,
    signupTotal: int,
    renewalTotal: int,
    subscriptionTotal: int)

  /** What the statistics of window `w` are, field by field. */
  function StatsOf(subs: seq<Option<Subscription>>, w: Window): Stats {
    var signup := SignupTotal(subs, w);
    var renewal := TotalOf(RenewalsIn(subs, w));
    Stats(
      |Matching(ActiveCount, subs, w)|,
      |Matching(PendingCancelCount, subs, w)|,
      |Matching(NewCount, subs, w)|,
      |RenewalsIn(subs, w)|,
      |Matching(CancellationCount, subs, w)|,
      |Matching(EndedCount, subs, w)|,
      signup,
      renewal,
      signup + renewal)
  }

  /** The counters and the signup total hold the values for prefix `p`. */
  predicate Tallied(st: Stats, p: seq<Option<Subscription>>, w: Window) {
    && st.active == |Matching(ActiveCount, p, w)|
    && st.pendingCancel == |Matching(PendingCancelCount, p, w)|
    && st.newSubscriptions == |Matching(NewCount, p, w)|
    && st.cancellations == |Matching(CancellationCount, p, w)|
    && st.ended == |Matching(EndedCount, p, w)|
    && st.signupTotal == SignupTotal(p, w)
  }

  lemma {:induction false} TotalOfAppend(a: seq<Order>, b: seq<Order>)
    ensures TotalOf(a + b) == TotalOf(a) + TotalOf(b)
    decreases |b|
  {
    if b == [] {
      assert a + b == a;
    } else {
      assert (a + b)[..|a + b| - 1] == a + b[..|b| - 1];
      TotalOfAppend(a, b[..|b| - 1]);
    }
  }

  lemma MatchingStep(e: Measure, subs: seq<Option<Subscription>>, i: int, w: Window)
    requires 0 <= i < |subs|
    ensures |Matching(e, subs[..i + 1], w)|
            == |Matching(e, subs[..i], w)| + (if subs[i].Some? && Counts(e, subs[i].value, w) then 1 else 0)
  {
    assert subs[..i + 1][..i] == subs[..i];
  }

  lemma RenewalsStep(subs: seq<Option<Subscription>>, i: int, w: Window)
    requires 0 <= i < |subs|
    ensures |RenewalsIn(subs[..i + 1], w)|
            == |RenewalsIn(subs[..i], w)| + (if subs[i].Some? then |OrdersIn(subs[i].value.renewalOrders, w)| else 0)
    ensures TotalOf(RenewalsIn(subs[..i + 1], w))
            == TotalOf(RenewalsIn(subs[..i], w))
               + (if subs[i].Some? then TotalOf(OrdersIn(subs[i].value.renewalOrders, w)) else 0)
  {
    assert subs[..i + 1][..i] == subs[..i];
    var before := RenewalsIn(subs[..i], w);
    if subs[i].Some? {
      TotalOfAppend(before, OrdersIn(subs[i].value.renewalOrders, w));
    } else {
      assert before + [] == before;
    }
  }

  lemma OrdersStep(orders: seq<Option<Order>>, j: int, w: Window)
    requires 0 <= j < |orders|
    ensures |OrdersIn(orders[..j + 1], w)|
            == |OrdersIn(orders[..j], w)|
               + (if orders[j].Some? && InWindow(CreatedTs(orders[j].value), w) then 1 else 0)
    ensures TotalOf(OrdersIn(orders[..j + 1], w))
            == TotalOf(OrdersIn(orders[..j], w))
               + (if orders[j].Some? && InWindow(CreatedTs(orders[j].value), w) then orders[j].value.total else 0)
  {
    assert orders[..j + 1][..j] == orders[..j];
    var counted := OrdersIn(orders[..j], w);
    if orders[j].Some? && InWindow(CreatedTs(orders[j].value), w) {
      assert (counted + [orders[j].value])[..|counted|] == counted;
    } else {
      assert counted + [] == counted;
    }
  }

  lemma SignupStep(subs: seq<Option<Subscription>>, i: int, w: Window)
    requires 0 <= i < |subs|
    ensures SignupTotal(subs[..i + 1], w)
            == SignupTotal(subs[..i], w)
               + (if subs[i].Some? && StartsIn(subs[i].value, w) then ParentTotal(subs[i].value) else 0)
  {
    assert subs[..i + 1][..i] == subs[..i];
    var started := Matching(NewCount, subs[..i], w);
    if subs[i].Some? && StartsIn(subs[i].value, w) {
      assert (started + [subs[i].value])[..|started|] == started;
    } else {
      assert started + [] == started;
    }
  }

  /** The per-subscription part of the pass: the overlap test for the
      active and pending-cancel counts, the new-subscription count with its
      signup order, and the cancellation and end counts. */
  method TallySubscription(st: Stats, s: Subscription, w: Window) returns (r: Stats)
    ensures r.active == st.active + (if Counts(ActiveCount, s, w) then 1 else 0)
    ensures r.pendingCancel == st.pendingCancel + (if Counts(PendingCancelCount, s, w) then 1 else 0)
    ensures r.newSubscriptions == st.newSubscriptions + (if Counts(NewCount, s, w) then 1 else 0)
    ensures r.signupTotal == st.signupTotal + (if Counts(NewCount, s, w) then ParentTotal(s) else 0)
    ensures r.cancellations == st.cancellations + (if Counts(CancellationCount, s, w) then 1 else 0)
    ensures r.ended == st.ended + (if Counts(EndedCount, s, w) then 1 else 0)
    ensures r.renewals == st.renewals && r.renewalTotal == st.renewalTotal
    ensures r.subscriptionTotal == st.subscriptionTotal
  {
    r := st;
    if Overlaps(s, w) {
      if s.status == Active {
        r := r.(active := r.active + 1);
      }
      if s.status == PendingCancel {
        r := r.(pendingCancel := r.pendingCancel + 1);
      }
    }
    if StartsIn(s, w) {
      r := r.(newSubscriptions := r.newSubscriptions + 1);
      if s.parent.Some? {
        r := r.(signupTotal := r.signupTotal + s.parent.value.total);
      }
    }
    if CancelledIn(s, w) {
      r := r.(cancellations := r.cancellations + 1);
    }
    if EndedIn(s, w) {
      r := r.(ended := r.ended + 1);
    }
  }

  /** The nested pass over one subscription's renewal orders: each order
      that resolves and was created inside the window adds one renewal and
      its total. */
  method TallyRenewals(st: Stats, orders: seq<Option<Order>>, w: Window) returns (r: Stats)
    ensures r == st.(renewals := st.renewals + |OrdersIn(orders, w)|,
                     renewalTotal := st.renewalTotal + TotalOf(OrdersIn(orders, w)))
  {
    r := st;
    var j := 0;
    while j < |orders|
      invariant j <= |orders|
      invariant r == st.(renewals := st.renewals + |OrdersIn(orders[..j], w)|,
                         renewalTotal := st.renewalTotal + TotalOf(OrdersIn(orders[..j], w)))
    {
      OrdersStep(orders, j, w);
      var order := orders[j];
      if order.Some? {
        var orderTs := CreatedTs(order.value);
        if InWindow(orderTs, w) {
          r := r.(renewals := r.renewals + 1, renewalTotal := r.renewalTotal + order.value.total);
        }
      }
      j := j + 1;
    }
    assert orders[..j] == orders;
  }

  /** One pass over all subscription ids of the store, accumulating the
      month's statistics; ids that do not resolve are skipped, and the
      combined total is set after the pass. */
  method GetSubscriptionStats(subs: seq<Option<Subscription>>, w: Window) returns (st: Stats)
    ensures st == StatsOf(subs, w)
    ensures st.subscriptionTotal == st.signupTotal + st.renewalTotal
  {
    st := Stats(0, 0, 0, 0, 0, 0, 0, 0, 0);
    var i := 0;
    while i < |subs|
      invariant i <= |subs|
      invariant Tallied(st, subs[..i], w)
      invariant st.renewals == |RenewalsIn(subs[..i], w)|
      invariant st.renewalTotal == TotalOf(RenewalsIn(subs[..i], w))
      invariant st.subscriptionTotal == 0
    {
      MatchingStep(ActiveCount, subs, i, w);
      MatchingStep(PendingCancelCount, subs, i, w);
      MatchingStep(NewCount, subs, i, w);
      MatchingStep(CancellationCount, subs, i, w);
      MatchingStep(EndedCount, subs, i, w);
      SignupStep(subs, i, w);
      RenewalsStep(subs, i, w);
      if subs[i].Some? {
        var s := subs[i].value;
        st := TallySubscription(st, s, w);
        st := TallyRenewals(st, s.renewalOrders, w);
      }
      i := i + 1;
    }
    assert subs[..i] == subs;
    st := st.(subscriptionTotal := st.signupTotal + st.renewalTotal);
  }

  /** The ids the unused counting routine queries: those whose status is
      active or pending-cancel. An id that does not resolve is skipped by
      the pass either way, so it is kept here. */
  function SelectActiveOrPending(subs: seq<Option<Subscription>>): seq<Option<Subscription>> {
    if subs == [] then []
    else
      var last := subs[|subs| - 1];
      SelectActiveOrPending(subs[..|subs| - 1])
      + (if last.None? || last.value.status == Active || last.value.status == PendingCancel then [last] else [])
  }

  /** The unused counting routine: the overlap test over the active and
      pending-cancel ids only. It yields the same two numbers as the full
      pass. */
  method GetSubscriptionCounts(subs: seq<Option<Subscription>>, w: Window)
    returns (active: nat, pendingCancel: nat)
    ensures active == StatsOf(subs, w).active
    ensures pendingCancel == StatsOf(subs, w).pendingCancel
  {
    var ids := SelectActiveOrPending(subs);
    active, pendingCancel := 0, 0;
    var i := 0;
    while i < |ids|
      invariant i <= |ids|
      invariant active == |Matching(ActiveCount, ids[..i], w)|
      invariant pendingCancel == |Matching(PendingCancelCount, ids[..i], w)|
    {
      MatchingStep(ActiveCount, ids, i, w);
      MatchingStep(PendingCancelCount, ids, i, w);
      if ids[i].Some? {
        var s := ids[i].value;
        if Overlaps(s, w) {
          if s.status == Active {
            active := active + 1;
          }
          if s.status == PendingCancel {
            pendingCancel := pendingCancel + 1;
          }
        }
      }
      i := i + 1;
    }
    assert ids[..i] == ids;
    SelectionKeepsCounts(subs, w);
  }

  lemma MatchingAppend(e: Measure, subs: seq<Option<Subscription>>, x: Option<Subscription>, w: Window)
    ensures Matching(e, subs + [x], w)
            == Matching(e, subs, w) + (if x.Some? && Counts(e, x.value, w) then [x.value] else [])
  {
    assert (subs + [x])[..|subs|] == subs;
  }

  lemma RenewalsAppend(subs: seq<Option<Subscription>>, x: Option<Subscription>, w: Window)
    ensures RenewalsIn(subs + [x], w)
            == RenewalsIn(subs, w) + (if x.Some? then OrdersIn(x.value.renewalOrders, w) else [])
  {
    assert (subs + [x])[..|subs|] == subs;
  }

  /** Restricting the pass to active and pending-cancel ids changes neither
      the active nor the pending-cancel subscriptions it counts. */
  lemma {:induction false} SelectionKeepsCounts(subs: seq<Option<Subscription>>, w: Window)
    ensures Matching(ActiveCount, SelectActiveOrPending(subs), w) == Matching(ActiveCount, subs, w)
    ensures Matching(PendingCancelCount, SelectActiveOrPending(subs), w) == Matching(PendingCancelCount, subs, w)
  {
    if subs != [] {
      var prefix, last := subs[..|subs| - 1], subs[|subs| - 1];
      SelectionKeepsCounts(prefix, w);
      var kept := SelectActiveOrPending(prefix);
      assert subs == prefix + [last];
      MatchingAppend(ActiveCount, prefix, last, w);
      MatchingAppend(PendingCancelCount, prefix, last, w);
      if last.None? || last.value.status == Active || last.value.status == PendingCancel {
        MatchingAppend(ActiveCount, kept, last, w);
        MatchingAppend(PendingCancelCount, kept, last, w);
      } else {
        assert SelectActiveOrPending(subs) == kept + [];
        assert kept + [] == kept;
        assert Matching(ActiveCount, prefix, w) + [] == Matching(ActiveCount, prefix, w);
        assert Matching(PendingCancelCount, prefix, w) + [] == Matching(PendingCancelCount, prefix, w);
      }
    }
  }

  /** A subscription is among those measure `e` counts exactly when its id
      resolves to it and `e`'s test holds for it. */
  lemma {:induction false} MatchingExactly(e: Measure, subs: seq<Option<Subscription>>, w: Window, s: Subscription)
    ensures s in Matching(e, subs, w) <==> Some(s) in subs && Counts(e, s, w)
  {
    if subs != [] {
      var prefix := subs[..|subs| - 1];
      MatchingExactly(e, prefix, w, s);
      assert subs == prefix + [subs[|subs| - 1]];
    }
  }

  /** The ids of the store that measure `e` counts. */
  function CountedIds(e: Measure, subs: seq<Option<Subscription>>, w: Window): set<int> {
    set i | 0 <= i < |subs| && subs[i].Some? && Counts(e, subs[i].value, w)
  }

  /** Each count is the number of ids whose subscription resolves and passes
      the measure's test: every such id adds exactly one. */
  lemma {:induction false} CountIsNumberOfCountedIds(e: Measure, subs: seq<Option<Subscription>>, w: Window)
    ensures |Matching(e, subs, w)| == |CountedIds(e, subs, w)|
  {
    if subs != [] {
      var n := |subs| - 1;
      var prefix := subs[..n];
      CountIsNumberOfCountedIds(e, prefix, w);
      if subs[n].Some? && Counts(e, subs[n].value, w) {
        assert CountedIds(e, subs, w) == CountedIds(e, prefix, w) + {n};
      } else {
        assert CountedIds(e, subs, w) == CountedIds(e, prefix, w);
      }
    }
  }

  /** Active and pending-cancel are exclusive statuses, so together they
      never exceed the number of overlapping subscriptions. */
  lemma {:induction false} ActivePlusPendingAtMostOverlapping(subs: seq<Option<Subscription>>, w: Window)
    ensures |Matching(ActiveCount, subs, w)| + |Matching(PendingCancelCount, subs, w)| <= |Overlapping(subs, w)|
  {
    if subs != [] {
      ActivePlusPendingAtMostOverlapping(subs[..|subs| - 1], w);
    }
  }

  /** No count exceeds the number of subscriptions that resolve. */
  lemma {:induction false} CountAtMostResolved(e: Measure, subs: seq<Option<Subscription>>, w: Window)
    ensures |Matching(e, subs, w)| <= |Resolved(subs)|
  {
    if subs != [] {
      CountAtMostResolved(e, subs[..|subs| - 1], w);
    }
  }

  lemma {:induction false} ResolvedKeepsMatching(e: Measure, subs: seq<Option<Subscription>>, w: Window)
    ensures Matching(e, Resolved(subs), w) == Matching(e, subs, w)
  {
    if subs != [] {
      var prefix, last := subs[..|subs| - 1], subs[|subs| - 1];
      ResolvedKeepsMatching(e, prefix, w);
      assert subs == prefix + [last];
      MatchingAppend(e, prefix, last, w);
      if last.Some? {
        MatchingAppend(e, Resolved(prefix), last, w);
      } else {
        assert Resolved(subs) == Resolved(prefix) + [] == Resolved(prefix);
        assert Matching(e, prefix, w) + [] == Matching(e, prefix, w);
      }
    }
  }

  lemma {:induction false} ResolvedKeepsRenewals(subs: seq<Option<Subscription>>, w: Window)
    ensures RenewalsIn(Resolved(subs), w) == RenewalsIn(subs, w)
  {
    if subs != [] {
      var prefix, last := subs[..|subs| - 1], subs[|subs| - 1];
      ResolvedKeepsRenewals(prefix, w);
      assert subs == prefix + [last];
      RenewalsAppend(prefix, last, w);
      if last.Some? {
        RenewalsAppend(Resolved(prefix), last, w);
      } else {
        assert Resolved(subs) == Resolved(prefix) + [] == Resolved(prefix);
        assert RenewalsIn(prefix, w) + [] == RenewalsIn(prefix, w);
      }
    }
  }

  /** Ids that do not resolve change no accumulator: the statistics of the
      store are those of its resolvable subscriptions alone. */
  lemma UnresolvedIdsSkipped(subs: seq<Option<Subscription>>, w: Window)
    ensures StatsOf(Resolved(subs), w) == StatsOf(subs, w)
  {
    forall e: Measure
      ensures Matching(e, Resolved(subs), w) == Matching(e, subs, w)
    {
      ResolvedKeepsMatching(e, subs, w);
    }
    ResolvedKeepsRenewals(subs, w);
  }

  /** An open-ended subscription (no next payment, no end date) that is
      active and starts on or before the end of a month is counted as
      active in that month. */
  lemma OpenEndedCountedEveryMonth(subs: seq<Option<Subscription>>, s: Subscription, ym: YearMonth)
    requires Some(s) in subs && s.status == Active
    requires s.nextPayment == None && s.end == None
    requires s.start <= MonthWindow(ym).endTs
    ensures s in Matching(ActiveCount, subs, MonthWindow(ym))
  {
    MatchingExactly(ActiveCount, subs, MonthWindow(ym), s);
  }

  /** A subscription whose start and set access end both fall in month `a`
      overlaps month `b` exactly when `b` is `a`. */
  lemma BoundedAccessOnlyInItsMonth(s: Subscription, a: YearMonth, b: YearMonth)
    requires GetTime(s.nextPayment) != 0 || GetTime(s.end) != 0
    requires InWindow(s.start, MonthWindow(a)) && InWindow(AccessEnd(s, MonthWindow(a)), MonthWindow(a))
    ensures Overlaps(s, MonthWindow(b)) <==> a == b
  {
    assert AccessEnd(s, MonthWindow(b)) == AccessEnd(s, MonthWindow(a));
    if MonthIndex(a) < MonthIndex(b) {
      MonthWindowsOrdered(a, b);
    } else if MonthIndex(b) < MonthIndex(a) {
      MonthWindowsOrdered(b, a);
    } else {
      MonthIndexInjective(a, b);
    }
  }

  /** A subscription is new (and adds its signup total) in at most one month. */
  lemma NewInAtMostOneMonth(s: Subscription, a: YearMonth, b: YearMonth)
    requires Counts(NewCount, s, MonthWindow(a)) && Counts(NewCount, s, MonthWindow(b))
    ensures a == b
  {
    InstantInOneMonth(s.start, a, b);
  }

  /** The statistics of a single subscription: each count is one exactly
      when its own test holds, so the tests are independent (one
      subscription can, for instance, add to both the cancellation and the
      end count). */
  lemma SingleSubscriptionStats(s: Subscription, w: Window)
    ensures var st := StatsOf([Some(s)], w);
      && st.active == (if Overlaps(s, w) && s.status == Active then 1 else 0)
      && st.pendingCancel == (if Overlaps(s, w) && s.status == PendingCancel then 1 else 0)
      && st.newSubscriptions == (if StartsIn(s, w) then 1 else 0)
      && st.signupTotal == (if StartsIn(s, w) then ParentTotal(s) else 0)
      && st.cancellations == (if CancelledIn(s, w) then 1 else 0)
      && st.ended == (if EndedIn(s, w) then 1 else 0)
      && st.renewals == |OrdersIn(s.renewalOrders, w)|
      && st.renewalTotal == TotalOf(OrdersIn(s.renewalOrders, w))
  {
    MatchingSingle(ActiveCount, s, w);
    MatchingSingle(PendingCancelCount, s, w);
    MatchingSingle(NewCount, s, w);
    MatchingSingle(CancellationCount, s, w);
    MatchingSingle(EndedCount, s, w);
    RenewalsSingle(s, w);
    assert [s][..0] == [];
    assert SumParentTotals([s]) == ParentTotal(s);
    assert SumParentTotals([]) == 0;
  }

  lemma MatchingSingle(e: Measure, s: Subscription, w: Window)
    ensures Matching(e, [Some(s)], w) == if Counts(e, s, w) then [s] else []
  {
    assert [Some(s)][..0] == [];
  }

  lemma RenewalsSingle(s: Subscription, w: Window)
    ensures RenewalsIn([Some(s)], w) == OrdersIn(s.renewalOrders, w)
  {
    assert [Some(s)][..0] == [];
  }

  /** A renewal order is counted exactly when it resolves and its creation
      timestamp lies in the window. */
  lemma {:induction false} OrdersInExactly(orders: seq<Option<Order>>, w: Window, o: Order)
    ensures o in OrdersIn(orders, w) <==> Some(o) in orders && InWindow(CreatedTs(o), w)
  {
    if orders != [] {
      var prefix := orders[..|orders| - 1];
      OrdersInExactly(prefix, w, o);
      assert orders == prefix + [orders[|orders| - 1]];
    }
  }

  /** A renewal order without a creation date counts as created at epoch 0:
      it is counted in the report of January 1970 and of no other month. */
  lemma UndatedRenewalOnlyInJanuary1970(o: Order, ym: YearMonth)
    requires o.created == None
    ensures o in OrdersIn([Some(o)], MonthWindow(ym)) <==> ym == YearMonth(1970, 1)
  {
    OrdersInExactly([Some(o)], MonthWindow(ym), o);
    EpochZeroOnlyInJanuary1970(ym);
  }

  /** One active subscription that starts inside the month, with its next
      payment after the month, a signup order of 4999 cents and no renewal
      orders, gives active 1, new 1, signup and combined total 4999. */
  lemma SingleSignupScenario(s: Subscription, w: Window)
    requires s.status == Active && InWindow(s.start, w)
    requires s.nextPayment.Some? && s.nextPayment.value > w.endTs
    requires s.end == None && s.cancelled == None
    requires s.parent.Some? && s.parent.value.total == 4999 && s.renewalOrders == []
    ensures StatsOf([Some(s)], w) == Stats(1, 0, 1, 0, 0, 0, 4999, 0, 4999)
  {
    SingleSubscriptionStats(s, w);
    assert Overlaps(s, w);
    assert OrdersIn(s.renewalOrders, w) == [];
  }
}

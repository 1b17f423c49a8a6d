/** The monthly count of club members who hold no live subscription: active
    memberships of the club plan whose lifetime touches the month, less
    those whose owner has an active, pending-cancel or on-hold
    subscription. */
module ClubMembers {
  import opened Wrappers
  import opened Calendar
  import opened Records

  /** The post id of the club's membership plan. */
  const CLUB_PARENT_ID: int := 13981

  /** The subscription statuses that keep an owner out of the count. */
  predicate IsHeldStatus(st: Status) {
    st == Active || st == PendingCancel || st == OnHold
  }

  /** Whether some resolved subscription of `owner` is in a held status. */
  predicate HasHeldSubscription(subs: seq<Option<Subscription>>, owner: int) {
    exists i :: 0 <= i < |subs| && subs[i].Some? && subs[i].value.customer == owner
                 && IsHeldStatus(subs[i].value.status)
  }

  /** The store's active membership posts of plan `parentId`, in store order. */
  function SelectClubMemberships(posts: seq<MembershipPost>, parentId: int): seq<MembershipPost> {
    if posts == [] then []
    else
      var last := posts[|posts| - 1];
      SelectClubMemberships(posts[..|posts| - 1], parentId)
      + (if last.active && last.parent == parentId then [last] else [])
  }

  /** Whether membership `m` is counted for window `w`: it was created no
      later than the window's end, it has no end date or ends no earlier
      than the window's start, and its owner holds no live subscription. */
  predicate CountsAsClubMember(m: MembershipPost, w: Window, subs: seq<Option<Subscription>>) {
    && m.created <= w.endTs
    && (m.endDate.None? || m.endDate.value >= w.startTs)
    && !HasHeldSubscription(subs, m.owner)
  }

  /** The memberships of `ms` that are counted for `w`, in order. */
  function Counted(ms: seq<MembershipPost>, w: Window, subs: seq<Option<Subscription>>): seq<MembershipPost> {
    if ms == [] then []
    else
      var last := ms[|ms| - 1];
      Counted(ms[..|ms| - 1], w, subs)
      + (if CountsAsClubMember(last, w, subs) then [last] else [])
  }

  /** The club-member count of window `w` over the membership posts `posts`
      of plan `parentId`: one pass over the selected memberships that skips
      those created after the window, those ended before it, and those whose
      owner holds a live subscription. */
  method GetClubMemberCount(posts: seq<MembershipPost>, parentId: int,
                            subs: seq<Option<Subscription>>, w: Window)
    returns (count: nat)
    ensures count == |Counted(SelectClubMemberships(posts, parentId), w, subs)|
  {
    var memberships := SelectClubMemberships(posts, parentId);
    count := 0;
    var i := 0;
    while i < |memberships|
      invariant 0 <= i <= |memberships|
      invariant count == |Counted(memberships[..i], w, subs)|
    {
      var m := memberships[i];
      assert memberships[..i + 1][..i] == memberships[..i];
      i := i + 1;
      if m.created > w.endTs {
        continue;
      }
      if m.endDate.Some? && m.endDate.value < w.startTs {
        continue;
      }
      var hasSub := HasHeldSubscription(subs, m.owner);
      if !hasSub {
        count := count + 1;
      }
    }
    assert memberships[..i] == memberships;
  }

  /** The club-member count of a month's window for the club's plan. */
  method GetClubMemberCountForMonth(posts: seq<MembershipPost>, subs: seq<Option<Subscription>>,
                                    ym: YearMonth)
    returns (count: nat)
    ensures count == |Counted(SelectClubMemberships(posts, CLUB_PARENT_ID), MonthWindow(ym), subs)|
  {
    count := GetClubMemberCount(posts, CLUB_PARENT_ID, subs, MonthWindow(ym));
  }

  /** The selection keeps exactly the active posts of the plan. */
  lemma {:induction false} SelectClubMembershipsExactly(posts: seq<MembershipPost>, parentId: int,
                                                       m: MembershipPost)
    ensures m in SelectClubMemberships(posts, parentId)
            <==> m in posts && m.active && m.parent == parentId
  {
    if posts != [] {
      var prefix := posts[..|posts| - 1];
      SelectClubMembershipsExactly(prefix, parentId, m);
      assert posts == prefix + [posts[|posts| - 1]];
    }
  }

  /** A membership is counted exactly when it is in `ms` and passes the
      window and subscription tests. */
  lemma {:induction false} CountedExactly(ms: seq<MembershipPost>, w: Window,
                                          subs: seq<Option<Subscription>>, m: MembershipPost)
    ensures m in Counted(ms, w, subs) <==> m in ms && CountsAsClubMember(m, w, subs)
  {
    if ms != [] {
      var prefix := ms[..|ms| - 1];
      CountedExactly(prefix, w, subs, m);
      assert ms == prefix + [ms[|ms| - 1]];
    }
  }

  /** The count never exceeds the number of memberships considered. */
  lemma {:induction false} CountedAtMost(ms: seq<MembershipPost>, w: Window, subs: seq<Option<Subscription>>)
    ensures |Counted(ms, w, subs)| <= |ms|
  {
    if ms != [] {
      CountedAtMost(ms[..|ms| - 1], w, subs);
    }
  }

  /** Nor the number of active posts of the plan, nor the number of posts. */
  lemma {:induction false} SelectedAtMost(posts: seq<MembershipPost>, parentId: int)
    ensures |SelectClubMemberships(posts, parentId)| <= |posts|
  {
    if posts != [] {
      SelectedAtMost(posts[..|posts| - 1], parentId);
    }
  }

  /** The owner of a live subscription is never counted as a club member,
      in any month. */
  lemma SubscriberNeverClubMember(posts: seq<MembershipPost>, subs: seq<Option<Subscription>>,
                                  w: Window, i: int, m: MembershipPost)
    requires 0 <= i < |subs| && subs[i].Some? && IsHeldStatus(subs[i].value.status)
    requires m.owner == subs[i].value.customer
    ensures m !in Counted(SelectClubMemberships(posts, CLUB_PARENT_ID), w, subs)
  {
    CountedExactly(SelectClubMemberships(posts, CLUB_PARENT_ID), w, subs, m);
  }

  /** A membership of another plan, or one that is not active, is never
      counted. */
  lemma OtherPlanNeverCounted(posts: seq<MembershipPost>, subs: seq<Option<Subscription>>,
                              w: Window, m: MembershipPost)
    requires !m.active || m.parent != CLUB_PARENT_ID
    ensures m !in Counted(SelectClubMemberships(posts, CLUB_PARENT_ID), w, subs)
  {
    SelectClubMembershipsExactly(posts, CLUB_PARENT_ID, m);
    CountedExactly(SelectClubMemberships(posts, CLUB_PARENT_ID), w, subs, m);
  }

  /** An open-ended membership created by the end of a month is counted in
      that month and every later one, as long as its owner holds no live
      subscription. */
  lemma OpenMembershipCountedFromThenOn(posts: seq<MembershipPost>, subs: seq<Option<Subscription>>,
                                        m: MembershipPost, a: YearMonth, b: YearMonth)
    requires m in posts && m.active && m.parent == CLUB_PARENT_ID && m.endDate.None?
    requires !HasHeldSubscription(subs, m.owner)
    requires m.created <= MonthWindow(a).endTs && MonthIndex(a) <= MonthIndex(b)
    ensures m in Counted(SelectClubMemberships(posts, CLUB_PARENT_ID), MonthWindow(b), subs)
  {
    if MonthIndex(a) < MonthIndex(b) {
      MonthWindowsOrdered(a, b);
    } else {
      MonthIndexInjective(a, b);
    }
    SelectClubMembershipsExactly(posts, CLUB_PARENT_ID, m);
    CountedExactly(SelectClubMemberships(posts, CLUB_PARENT_ID), MonthWindow(b), subs, m);
  }
}

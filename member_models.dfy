/**
 * The membership queries of Member (ggongsul/member/models.py). Each is a pure
 * function of the member's Subscription rows, its Membership row (None when the
 * member has none) and the current time.
 */
module MemberModels {
  import opened Wrappers
  import opened Schema
  import Text
  import Clock

  /** has_membership_benefits: some subscription ends strictly after now. */
  predicate HasMembershipBenefits(subs: seq<Subscription>, now: int)
  {
    exists i :: 0 <= i < |subs| && subs[i].endedAt > now
  }

  /** is_membership_activated: False without a Membership row, else its is_active. */
  predicate IsMembershipActivated(membership: Option<MembershipRow>)
  {
    match membership
    case None => false
    case Some(row) => row.isActive
  }

  /**
   * subscriptions.latest("ended_at"): the index of a subscription with the greatest
   * ended_at (the first one among equals).
   */
  function LatestIndex(subs: seq<Subscription>): (k: nat)
    requires |subs| > 0
    ensures k < |subs|
    ensures forall j :: 0 <= j < |subs| ==> subs[j].endedAt <= subs[k].endedAt
  {
    if |subs| == 1 then 0
    else
      var k := LatestIndex(subs[..|subs| - 1]);
      if subs[|subs| - 1].endedAt > subs[k].endedAt then |subs| - 1 else k
  }

  /**
   * active_subscription: the latest-ending subscription, or None when there is none
   * or it ended strictly before now.
   */
  function ActiveSubscription(subs: seq<Subscription>, now: int): Option<Subscription>
  {
    if subs == [] then None
    else
      var sub := subs[LatestIndex(subs)];
      if sub.endedAt < now then None else Some(sub)
  }

  /** The error next_membership_payment raises. */
  datatype NextPaymentError = ActiveWithoutSubscription

  /**
   * next_membership_payment: None without a membership or with an inactive one;
   * raises when the membership is active but no subscription is active; otherwise
   * the active subscription's ended_at.
   */
  function NextMembershipPayment(membership: Option<MembershipRow>, subs: seq<Subscription>, now: int)
    : Result<Option<int>, NextPaymentError>
  {
    if membership.None? || !membership.value.isActive then Success(None)
    else
      match ActiveSubscription(subs, now)
      case None => Failure(ActiveWithoutSubscription)
      case Some(sub) => Success(Some(sub.endedAt))
  }

  /**
   * total_membership_days: 0 without a membership, with an inactive one or with no
   * activation time; otherwise the whole days (rounded down) since last activation.
   */
  function TotalMembershipDays(membership: Option<MembershipRow>, now: int): int
  {
    if membership.None? || !membership.value.isActive || membership.value.lastActivatedAt.None? then 0
    else Clock.WholeDays(now - membership.value.lastActivatedAt.value)
  }

  /** total_visitation_cnt: the number of the member's Visitation rows. */
  function TotalVisitationCnt(memberId: nat, visitations: seq<Visitation>): nat
  {
    |VisitationsOf(memberId, visitations)|
  }

  /** billing_key: "ggongsul-" followed by the member id in decimal. */
  function BillingKey(memberId: nat): string
  {
    "ggongsul-" + Text.NatToString(memberId)
  }

  // ---- Properties ----

  /**
   * active_subscription returns a subscription of the member with the greatest
   * ended_at, not ending before now; it returns None only when every subscription
   * ended before now.
   */
  lemma ActiveSubscriptionSpec(subs: seq<Subscription>, now: int)
    ensures var r := ActiveSubscription(subs, now);
            && (r.Some? ==> r.value in subs && r.value.endedAt >= now
                            && forall j :: 0 <= j < |subs| ==> subs[j].endedAt <= r.value.endedAt)
            && (r.None? <==> forall j :: 0 <= j < |subs| ==> subs[j].endedAt < now)
  {
    if subs != [] {
      var k := LatestIndex(subs);
      if subs[k].endedAt < now {
        assert forall j :: 0 <= j < |subs| ==> subs[j].endedAt < now;
      } else {
        assert !(subs[k].endedAt < now);
      }
    }
  }

  /**
   * Benefits exist exactly when the active subscription ends strictly after now.
   */
  lemma BenefitsIffActiveEndsAfterNow(subs: seq<Subscription>, now: int)
    ensures HasMembershipBenefits(subs, now)
        <==> (ActiveSubscription(subs, now).Some? && ActiveSubscription(subs, now).value.endedAt > now)
  {
    ActiveSubscriptionSpec(subs, now);
    if HasMembershipBenefits(subs, now) {
      var i :| 0 <= i < |subs| && subs[i].endedAt > now;
      assert !(subs[i].endedAt < now);
    }
    if ActiveSubscription(subs, now).Some? && ActiveSubscription(subs, now).value.endedAt > now {
      var k := LatestIndex(subs);
      assert subs[k].endedAt > now;
    }
  }

  /**
   * The two checks disagree at the boundary: a subscription ending exactly now is
   * still returned by active_subscription although has_membership_benefits is False.
   */
  lemma EndingNowIsActiveWithoutBenefits(now: int)
    ensures var subs := [Subscription(now - Clock.Days(30), now, 30)];
            && ActiveSubscription(subs, now) == Some(subs[0])
            && !HasMembershipBenefits(subs, now)
  {
  }

  /**
   * For an active membership, next_membership_payment fails exactly when every
   * subscription ended before now, and otherwise is the greatest ended_at.
   */
  lemma NextPaymentOfActiveMembership(membership: Option<MembershipRow>, subs: seq<Subscription>, now: int)
    requires IsMembershipActivated(membership)
    ensures var r := NextMembershipPayment(membership, subs, now);
            && (r.Failure? <==> forall j :: 0 <= j < |subs| ==> subs[j].endedAt < now)
            && (r.Success? ==> r.value.Some? && r.value.value >= now
                               && exists i :: 0 <= i < |subs| && subs[i].endedAt == r.value.value)
            && (r.Success? ==> forall j :: 0 <= j < |subs| ==> subs[j].endedAt <= r.value.value)
  {
    ActiveSubscriptionSpec(subs, now);
    if subs != [] {
      var k := LatestIndex(subs);
      assert 0 <= k < |subs|;
    }
  }

  /** Without an activated membership there is no next payment, and no error. */
  lemma NoNextPaymentUnlessActivated(membership: Option<MembershipRow>, subs: seq<Subscription>, now: int)
    requires !IsMembershipActivated(membership)
    ensures NextMembershipPayment(membership, subs, now) == Success(None)
  {
  }

  /**
   * total_membership_days counts the whole days d with d days <= now - last
   * activation < d + 1 days, and is 0 whenever the membership is absent, inactive
   * or was never activated.
   */
  lemma TotalMembershipDaysSpec(membership: Option<MembershipRow>, now: int)
    ensures var d := TotalMembershipDays(membership, now);
            if membership.Some? && membership.value.isActive && membership.value.lastActivatedAt.Some?
            then Clock.Days(d) <= now - membership.value.lastActivatedAt.value < Clock.Days(d + 1)
            else d == 0
  {
  }

  /** Distinct members have distinct billing keys. */
  lemma BillingKeyInjective(a: nat, b: nat)
    requires BillingKey(a) == BillingKey(b)
    ensures a == b
  {
    var p := "ggongsul-";
    assert Text.NatToString(a) == BillingKey(a)[|p|..];
    assert Text.NatToString(b) == BillingKey(b)[|p|..];
    Text.NatToStringInjective(a, b);
  }

  /** total_visitation_cnt counts exactly the visitations recorded for the member. */
  lemma TotalVisitationCntCounts(memberId: nat, visitations: seq<Visitation>, v: Visitation)
    ensures TotalVisitationCnt(memberId, visitations) <= |visitations|
    ensures TotalVisitationCnt(memberId, visitations + [v])
         == TotalVisitationCnt(memberId, visitations) + (if v.member == Some(memberId) then 1 else 0)
  {
    var rows := visitations + [v];
    assert rows[..|rows| - 1] == visitations;
  }
}

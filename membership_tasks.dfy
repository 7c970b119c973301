/**
 * check_expire_membership (ggongsul/membership/tasks.py): the daily sweep that
 * counts the active memberships, dispatches a renewal for each member whose next
 * payment falls before tomorrow's midnight, and reports both counts to Slack.
 *
 * renew_subscription.delay(member.id) is an asynchronous job whose body is not part
 * of this model; the sweep's dispatches are returned as the sequence of member ids.
 */
module MembershipTasks {
  import opened Wrappers
  import opened Schema
  import Text
  import Clock
  import MemberModels
  import CommonUtils

  /** What the sweep sees of a Member: its flag, its Membership row and its subscriptions. */
  datatype MemberRecord = MemberRecord(id: nat, isActive: bool, membership: Option<MembershipRow>, subscriptions: seq<Subscription>)

  /** Member.objects.filter(is_active=True, membership__is_active=True). */
  predicate InSweep(m: MemberRecord)
  {
    m.isActive && m.membership.Some? && m.membership.value.isActive
  }

  /**
   * The comparison `member.next_membership_payment() >= tomorrow` raises when the
   * lookup raises or (unreachably, for a member in the sweep) returns None.
   */
  predicate LookupRaises(m: MemberRecord, now: int)
  {
    var next := MemberModels.NextMembershipPayment(m.membership, m.subscriptions, now);
    next.Failure? || next.value.None?
  }

  /** A renewal is due: the next payment falls strictly before tomorrow. */
  predicate Due(m: MemberRecord, now: int, tomorrow: int)
  {
    var next := MemberModels.NextMembershipPayment(m.membership, m.subscriptions, now);
    next.Success? && next.value.Some? && next.value.value < tomorrow
  }

  /** The sweep's counters and dispatches after a prefix of the members; raised stops it. */
  datatype SweepState = SweepState(total: nat, dispatched: seq<nat>, raised: bool)

  function Sweep(members: seq<MemberRecord>, now: int, tomorrow: int): SweepState
  {
    if members == [] then SweepState(0, [], false)
    else
      var s := Sweep(members[..|members| - 1], now, tomorrow);
      var m := members[|members| - 1];
      if s.raised || !InSweep(m) then s
      else if LookupRaises(m, now) then SweepState(s.total + 1, s.dispatched, true)
      else if Due(m, now, tomorrow) then SweepState(s.total + 1, s.dispatched + [m.id], false)
      else SweepState(s.total + 1, s.dispatched, false)
  }

  /** The number of members the filtered query yields. */
  function CountInSweep(members: seq<MemberRecord>): (n: nat)
    ensures n <= |members|
  {
    if members == [] then 0
    else CountInSweep(members[..|members| - 1]) + (if InSweep(members[|members| - 1]) then 1 else 0)
  }

  /** The Slack summary: an INFO message with both counters, in this order. */
  function Summary(total: nat, renew: nat): CommonUtils.SlackSend
  {
    CommonUtils.SlackMessage("Check Expire Membership", Some("successfully done!"),
                             Some(CommonUtils.FieldDict([("total membership count", Text.NatToString(total)),
                                                         ("renew subscription count", Text.NatToString(renew))])),
                             None, CommonUtils.Level(CommonUtils.Info), None)
  }

  /** The error that ends a sweep early: the member whose next payment could not be found. */
  datatype SweepError = NoActiveSubscription(memberId: nat)

  /**
   * check_expire_membership, run at now over all members (in query order). Returns
   * the ids it dispatched renewals for, and the summary it sends, or the error
   * that stopped the sweep (then no summary is sent).
   */
  method CheckExpireMembership(members: seq<MemberRecord>, now: int)
    returns (dispatched: seq<nat>, r: Result<CommonUtils.SlackSend, SweepError>)
    ensures var s := Sweep(members, now, Clock.Tomorrow(now));
            && dispatched == s.dispatched
            && (r.Failure? <==> s.raised)
            && (r.Success? ==> r.value == Summary(s.total, |s.dispatched|))
  {
    var tomorrow := Clock.Tomorrow(now);
    var totalMembershipCnt := 0;
    var renewCnt := 0;
    dispatched := [];
    var i := 0;
    while i < |members|
      invariant 0 <= i <= |members|
      invariant Sweep(members[..i], now, tomorrow) == SweepState(totalMembershipCnt, dispatched, false)
      invariant renewCnt == |dispatched|
    {
      var m := members[i];
      assert members[..i + 1][..i] == members[..i];
      if m.isActive && m.membership.Some? && m.membership.value.isActive {
        totalMembershipCnt := totalMembershipCnt + 1;
        var next := MemberModels.NextMembershipPayment(m.membership, m.subscriptions, now);
        if next.Failure? || next.value.None? {
          SweepStopsAfterRaise(members, i + 1, now, tomorrow);
          assert members[..|members|] == members;
          return dispatched, Failure(NoActiveSubscription(m.id));
        }
        if next.value.value < tomorrow {
          dispatched := dispatched + [m.id];
          renewCnt := renewCnt + 1;
        }
      }
      i := i + 1;
    }
    assert members[..|members|] == members;
    var sent := CommonUtils.SendSlackMsg("Check Expire Membership", Some("successfully done!"),
                                         Some(CommonUtils.FieldDict([("total membership count", Text.NatToString(totalMembershipCnt)),
                                                                     ("renew subscription count", Text.NatToString(renewCnt))])),
                                         None, CommonUtils.Level(CommonUtils.Info), None);
    r := Success(sent);
  }

  /** Once the sweep has raised, later members change nothing. */
  lemma {:induction false} SweepStopsAfterRaise(members: seq<MemberRecord>, k: nat, now: int, tomorrow: int)
    requires k <= |members| && Sweep(members[..k], now, tomorrow).raised
    ensures Sweep(members, now, tomorrow) == Sweep(members[..k], now, tomorrow)
    decreases |members| - k
  {
    if k < |members| {
      assert members[..k + 1][..k] == members[..k];
      SweepStopsAfterRaise(members, k + 1, now, tomorrow);
    } else {
      assert members[..k] == members;
    }
  }

  /**
   * The counters: renew_cnt never exceeds total_membership_cnt, which never exceeds
   * the number of members; a completed sweep counts exactly the members the query
   * yields.
   */
  lemma {:induction false} SweepCounts(members: seq<MemberRecord>, now: int, tomorrow: int)
    ensures var s := Sweep(members, now, tomorrow);
            && |s.dispatched| <= s.total <= CountInSweep(members)
            && (!s.raised ==> s.total == CountInSweep(members))
  {
    if members != [] {
      SweepCounts(members[..|members| - 1], now, tomorrow);
    }
  }

  /**
   * A completed sweep dispatches a renewal for a member of the query exactly when
   * its next payment is before tomorrow, and for nobody else.
   */
  lemma {:induction false} SweepDispatchesDue(members: seq<MemberRecord>, now: int, tomorrow: int)
    ensures var s := Sweep(members, now, tomorrow);
            && (forall id :: id in s.dispatched ==>
                  exists i :: 0 <= i < |members| && members[i].id == id && InSweep(members[i]) && Due(members[i], now, tomorrow))
            && (!s.raised ==> forall i :: 0 <= i < |members| && InSweep(members[i]) && Due(members[i], now, tomorrow)
                                ==> members[i].id in s.dispatched)
  {
    if members != [] {
      var init := members[..|members| - 1];
      SweepDispatchesDue(init, now, tomorrow);
      var s0 := Sweep(init, now, tomorrow);
      var s := Sweep(members, now, tomorrow);
      forall id | id in s.dispatched
        ensures exists i :: 0 <= i < |members| && members[i].id == id && InSweep(members[i]) && Due(members[i], now, tomorrow)
      {
        if id in s0.dispatched {
          var i :| 0 <= i < |init| && init[i].id == id && InSweep(init[i]) && Due(init[i], now, tomorrow);
          assert members[i] == init[i];
        } else {
          assert members[|members| - 1].id == id;
        }
      }
      if !s.raised {
        assert !s0.raised;
        forall i | 0 <= i < |members| && InSweep(members[i]) && Due(members[i], now, tomorrow)
          ensures members[i].id in s.dispatched
        {
          if i < |init| {
            assert init[i] == members[i];
          }
        }
      }
    }
  }

  /** With distinct member ids, no member is dispatched twice in one sweep. */
  lemma {:induction false} SweepDispatchesOnce(members: seq<MemberRecord>, now: int, tomorrow: int)
    requires forall i, j :: 0 <= i < j < |members| ==> members[i].id != members[j].id
    ensures var d := Sweep(members, now, tomorrow).dispatched;
            forall i, j :: 0 <= i < j < |d| ==> d[i] != d[j]
  {
    if members != [] {
      var init := members[..|members| - 1];
      SweepDispatchesOnce(init, now, tomorrow);
      SweepDispatchesDue(init, now, tomorrow);
      var d0 := Sweep(init, now, tomorrow).dispatched;
      var last := members[|members| - 1];
      forall i | 0 <= i < |d0|
        ensures d0[i] != last.id
      {
        assert d0[i] in d0;
        var k :| 0 <= k < |init| && init[k].id == d0[i] && InSweep(init[k]) && Due(init[k], now, tomorrow);
        assert members[k] == init[k];
      }
    }
  }

  /**
   * The sweep stops exactly when some member of the query, among those before any
   * earlier stop, has an active membership but every subscription ended before now.
   */
  lemma {:induction false} SweepRaisesOnStaleMembership(members: seq<MemberRecord>, now: int, tomorrow: int)
    ensures Sweep(members, now, tomorrow).raised
        <==> exists i :: 0 <= i < |members| && InSweep(members[i])
                         && forall j :: 0 <= j < |members[i].subscriptions| ==> members[i].subscriptions[j].endedAt < now
  {
    if members != [] {
      var init := members[..|members| - 1];
      var m := members[|members| - 1];
      SweepRaisesOnStaleMembership(init, now, tomorrow);
      if InSweep(m) {
        MemberModels.NextPaymentOfActiveMembership(m.membership, m.subscriptions, now);
      }
      if exists i :: 0 <= i < |init| && InSweep(init[i])
                     && forall j :: 0 <= j < |init[i].subscriptions| ==> init[i].subscriptions[j].endedAt < now {
        var i :| 0 <= i < |init| && InSweep(init[i])
                 && forall j :: 0 <= j < |init[i].subscriptions| ==> init[i].subscriptions[j].endedAt < now;
        assert members[i] == init[i];
      }
      if exists i :: 0 <= i < |members| && InSweep(members[i])
                     && forall j :: 0 <= j < |members[i].subscriptions| ==> members[i].subscriptions[j].endedAt < now {
        var i :| 0 <= i < |members| && InSweep(members[i])
                 && forall j :: 0 <= j < |members[i].subscriptions| ==> members[i].subscriptions[j].endedAt < now;
        if i < |init| {
          assert init[i] == members[i];
        }
      }
    }
  }

  /**
   * The summary is one INFO message to the info webhook, carrying the final
   * total_membership_cnt and renew_cnt as its two fields.
   */
  lemma SummaryCarriesCounters(total: nat, renew: nat)
    ensures var m := Summary(total, renew);
            && m.webhook == CommonUtils.InfoWebhook && |m.attachments| == 1
            && m.attachments[0].title == "Check Expire Membership"
            && m.attachments[0].color == "good"
            && m.attachments[0].fields == Some([CommonUtils.Field("total membership count", Text.NatToString(total), true),
                                                CommonUtils.Field("renew subscription count", Text.NatToString(renew), true)])
  {
    var m := Summary(total, renew);
    var es := [("total membership count", Text.NatToString(total)),
               ("renew subscription count", Text.NatToString(renew))];
    CommonUtils.SlackMessageSpec("Check Expire Membership", Some("successfully done!"), Some(CommonUtils.FieldDict(es)),
                                 None, CommonUtils.Level(CommonUtils.Info), None);
    var fs := m.attachments[0].fields.value;
    assert fs[0] == CommonUtils.Field(es[0].0, es[0].1, true);
    assert fs[1] == CommonUtils.Field(es[1].0, es[1].1, true);
    assert fs == [fs[0], fs[1]];
  }
}

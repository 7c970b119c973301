/**
 * SubscribeSerializer.validate and UnsubscribeSerializer.validate
 * (ggongsul/membership/serializers.py): the request-level gates in front of
 * process_subscribe and process_unsubscribe.
 *
 * The gates call is_membership_activated and is_billing_key_exist as predicates.
 * As written, lines 16, 19 and 30 test the bound methods themselves, which are
 * always truthy; the *AsWritten functions below record that reading.
 */
module MembershipSerializers {
  import opened Wrappers
  import opened Schema
  import Text
  import MemberModels
  import opened MembershipModels

  /** The ValidationError messages of the gates. */
  datatype Rejection = AlreadySubscribed | NoBillingKey | NotSubscribed

  /** Why validate did not return "okay": a gate rejected, or the operation raised. */
  datatype ValidateError = Rejected(reason: Rejection) | Raised(error: MembershipError)

  /** member.membership as is_membership_activated sees it: None without a row. */
  function RowOf(m: Membership?): Option<MembershipRow>
    reads m
  {
    if m == null then None else Some(m.Row())
  }

  /**
   * The subscribe gate: an activated membership is rejected first; then a member
   * without a billing key.
   */
  function SubscribeGate(activated: bool, billingKeyExists: bool): (r: Outcome<Rejection>)
    ensures r == Pass <==> !activated && billingKeyExists
    ensures activated ==> r == Fail(AlreadySubscribed)
    ensures !activated && !billingKeyExists ==> r == Fail(NoBillingKey)
  {
    if activated then Fail(AlreadySubscribed)
    else if !billingKeyExists then Fail(NoBillingKey)
    else Pass
  }

  /** Lines 16 and 19 as written: the bound method is truthy, `not` of it is False. */
  function SubscribeGateAsWritten(activated: bool, billingKeyExists: bool): Outcome<Rejection>
  {
    SubscribeGate(true, true)
  }

  /** As written, every subscribe request is rejected, including a first subscription. */
  lemma SubscribeAsWrittenRejectsEveryone(activated: bool, billingKeyExists: bool)
    ensures SubscribeGateAsWritten(activated, billingKeyExists) == Fail(AlreadySubscribed)
    ensures SubscribeGate(false, true) == Pass
  {
  }

  /** The unsubscribe gate: only an activated membership may unsubscribe. */
  function UnsubscribeGate(activated: bool): (r: Outcome<Rejection>)
    ensures r == Pass <==> activated
    ensures !activated ==> r == Fail(NotSubscribed)
  {
    if !activated then Fail(NotSubscribed) else Pass
  }

  /** Line 30 as written: `not` of a bound method is False, so the gate never rejects. */
  function UnsubscribeGateAsWritten(activated: bool): Outcome<Rejection>
  {
    UnsubscribeGate(true)
  }

  /**
   * As written, a member without an activated membership passes the gate (and,
   * without a membership row, then fails on member.membership).
   */
  lemma UnsubscribeAsWrittenAdmitsInactive()
    ensures UnsubscribeGateAsWritten(false) == Pass
    ensures UnsubscribeGate(false) == Fail(NotSubscribed)
  {
  }

  /**
   * SubscribeSerializer.validate: a rejected request changes nothing; an accepted
   * one gets or creates the member's Membership (a new row is inactive, never
   * activated, and survives a failed charge), runs process_subscribe on it and
   * answers "okay" when that succeeds.
   */
  method ValidateSubscribe(memberId: nat, membership: Membership?, ledger: Ledger, billingKeyExists: bool,
                           now: nat, tokenHex: string, charge: ChargeRequest -> ChargeResponse)
    returns (m: Membership?, r: Result<string, ValidateError>)
    requires ledger.Valid()
    requires membership != null ==> membership.memberId == memberId
    requires |tokenHex| == 6 && Text.AllLowerHex(tokenHex)
    modifies membership, ledger
    ensures ledger.Valid()
    ensures var gate := SubscribeGate(MemberModels.IsMembershipActivated(old(RowOf(membership))), billingKeyExists);
            && (gate.Fail? ==> r == Failure(Rejected(gate.error)) && m == membership
                               && (membership != null ==> unchanged(membership)) && unchanged(ledger))
            && (gate.Pass? ==> m != null && m.memberId == memberId
                               && (membership != null ==> m == membership)
                               && (membership == null ==> fresh(m) && m.lastDeactivatedAt == None))
    ensures var gate := SubscribeGate(MemberModels.IsMembershipActivated(old(RowOf(membership))), billingKeyExists);
            var last := if membership == null then None else old(membership.lastActivatedAt);
            var plan := PlanSubscribe(MemberModels.HasMembershipBenefits(old(ledger.subscriptions), now), last);
            gate.Pass? ==>
              && (r.Failure? <==> plan == PaidPeriod && charge(SubscribeCharge(memberId, now, tokenHex)).ChargeRefused?)
              && (r.Success? ==> r.value == "okay" && m.isActive && m.lastActivatedAt == Some(now))
              && (r.Failure? ==> r.error == Raised(GatewayRefused) && !m.isActive && m.lastActivatedAt == last
                                 && ledger.subscriptions == old(ledger.subscriptions)
                                 && ledger.payments == old(ledger.payments))
              && (r.Success? ==> ledger.subscriptions == old(ledger.subscriptions)
                                   + (if plan == KeepBenefits then [] else [CreateSubscription(now, None, None)]))
              && (r.Success? && plan != PaidPeriod ==> ledger.payments == old(ledger.payments))
              && (r.Success? && plan == PaidPeriod ==>
                    && |ledger.payments| == |old(ledger.payments)| + 1
                    && ledger.payments[..|old(ledger.payments)|] == old(ledger.payments)
                    && fresh(ledger.payments[|old(ledger.payments)|])
                    && ledger.payments[|old(ledger.payments)|].impUid
                       == charge(SubscribeCharge(memberId, now, tokenHex)).impUid
                    && NewPayment(ledger.payments[|old(ledger.payments)|], |old(ledger.subscriptions)|,
                                  MEMBERSHIP_PRICE, now, tokenHex))
  {
    var gate := SubscribeGate(MemberModels.IsMembershipActivated(RowOf(membership)), billingKeyExists);
    if gate.Fail? {
      return membership, Failure(Rejected(gate.error));
    }
    if membership == null {
      m := new Membership(memberId);
    } else {
      m := membership;
    }
    var done := m.ProcessSubscribe(ledger, now, tokenHex, charge);
    if done.Fail? {
      return m, Failure(Raised(done.error));
    }
    r := Success("okay");
  }

  /**
   * UnsubscribeSerializer.validate: a member without an activated membership is
   * rejected and nothing changes; otherwise process_unsubscribe runs and the
   * answer is "okay" when it succeeds.
   */
  method ValidateUnsubscribe(membership: Membership?, ledger: Ledger, now: int, cancel: CancelRequest -> CancelResponse)
    returns (r: Result<string, ValidateError>)
    requires ledger.Valid()
    modifies membership, ledger.payments
    ensures unchanged(ledger)
    ensures !MemberModels.IsMembershipActivated(old(RowOf(membership))) ==>
              r == Failure(Rejected(NotSubscribed)) && (membership != null ==> unchanged(membership))
              && forall i :: 0 <= i < |ledger.payments| ==> unchanged(ledger.payments[i])
    ensures MemberModels.IsMembershipActivated(old(RowOf(membership))) ==>
              && membership != null
              && (r.Success? ==> r.value == "okay" && !membership.isActive && membership.lastDeactivatedAt == Some(now))
              && (r.Failure? ==> r.error.Raised? && membership.isActive
                                 && membership.lastDeactivatedAt == old(membership.lastDeactivatedAt))
              && (r.Failure? <==> ledger.subscriptions == []
                                  || var t := RefundTarget(ledger.subscriptions, ledger.payments, now);
                                     t.Some? && cancel(RefundRequest(ledger.payments[t.value])).CancelRefused?)
    ensures var t := RefundTarget(ledger.subscriptions, ledger.payments, now);
            MemberModels.IsMembershipActivated(old(RowOf(membership))) ==>
              && (forall i :: 0 <= i < |ledger.payments| && t != Some(i) ==>
                    ledger.payments[i].canceledAt == old(ledger.payments[i].canceledAt)
                    && ledger.payments[i].canceledAmount == old(ledger.payments[i].canceledAmount))
              && (t.Some? && r.Success? ==>
                    ledger.payments[t.value].canceledAt == Some(now)
                    && ledger.payments[t.value].canceledAmount
                       == cancel(RefundRequest(ledger.payments[t.value])).cancelAmount)
              && (t.Some? && r.Failure? ==>
                    ledger.payments[t.value].canceledAt == old(ledger.payments[t.value].canceledAt)
                    && ledger.payments[t.value].canceledAmount == old(ledger.payments[t.value].canceledAmount))
  {
    if UnsubscribeGate(MemberModels.IsMembershipActivated(RowOf(membership))).Fail? {
      return Failure(Rejected(NotSubscribed));
    }
    var done := membership.ProcessUnsubscribe(ledger, now, cancel);
    if done.Fail? {
      return Failure(Raised(done.error));
    }
    r := Success("okay");
  }
}

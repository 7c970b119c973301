/**
 * The membership lifecycle (ggongsul/membership/models.py): Subscription periods,
 * Payment records charged through the payment gateway, and the Membership row
 * that subscribe and unsubscribe update.
 *
 * The gateway (IMPHelper) is an oracle: a function from the request the code
 * sends to the answer the gateway gives, where a refused or failed call is the
 * ChargeRefused / CancelRefused answer. The random payment-uid suffix
 * (secrets.token_hex(3)) is a parameter.
 */
module MembershipModels {
  import opened Wrappers
  import opened Schema
  import Text
  import Clock
  import MemberModels

  const MEMBERSHIP_PRICE: int := 4900
  const DEFAULT_VALIDITY_DAYS: int := 30
  const REFUND_VALIDITY_DAYS: int := 7
  /** Payment.PaymentType.KAKAOPAY */
  const KAKAOPAY: int := 1
  const SUBSCRIBE_PAYMENT_NAME: string := "꽁술 멤버십 구독 결제"
  const UNSUBSCRIBE_REFUND_REASON: string := "멤버십 구독 취소 환불 정책에 따른 환불"

  // ---- Subscription ----

  /** `validity_days if validity_days else DEFAULT_VALIDITY_DAYS`: None and 0 are falsy. */
  function EffectiveValidityDays(validityDays: Option<int>): int
  {
    if validityDays.Some? && validityDays.value != 0 then validityDays.value else DEFAULT_VALIDITY_DAYS
  }

  /**
   * Subscription.create_subscription as intended: an explicit ended_at is stored
   * as given; otherwise the period lasts the effective number of days from
   * started_at, with no rounding to the end of a day. An absent validity_days
   * leaves the column to its default of 30 days, so the row can be stored.
   */
  function CreateSubscription(startedAt: int, validityDays: Option<int>, endedAt: Option<int>): (r: Subscription)
    ensures r.startedAt == startedAt
    ensures r.validityDays == if validityDays.Some? then validityDays.value else DEFAULT_VALIDITY_DAYS
    ensures endedAt.Some? ==> r.endedAt == endedAt.value
    ensures endedAt.None? && (validityDays.None? || validityDays == Some(0))
            ==> r.endedAt == startedAt + Clock.Days(30)
    ensures endedAt.None? && validityDays.Some? && validityDays.value != 0
            ==> r.endedAt == startedAt + Clock.Days(validityDays.value)
  {
    var end := if endedAt.Some? then endedAt.value
               else startedAt + Clock.Days(EffectiveValidityDays(validityDays));
    var days := if validityDays.Some? then validityDays.value else DEFAULT_VALIDITY_DAYS;
    Subscription(startedAt, end, days)
  }

  /**
   * A period created without an explicit end, from the default or a positive day
   * count, is non-empty and lasts exactly the days its row records.
   */
  lemma CreatedPeriodEndsAfterStart(startedAt: int, validityDays: Option<int>)
    requires validityDays.None? || validityDays.value > 0
    ensures CreateSubscription(startedAt, validityDays, None).endedAt > startedAt
    ensures var r := CreateSubscription(startedAt, validityDays, None);
            r.endedAt - r.startedAt == Clock.Days(r.validityDays)
  {
  }

  /** Why the database refuses to store a row. */
  datatype RowError = NotNullValidityDays   // "NOT NULL constraint failed: validity_days"

  /**
   * Subscription.create_subscription as written: validity_days=validity_days is
   * passed to objects.create even when it is None, which overrides the field
   * default, and the NOT NULL column refuses the row.
   */
  function CreateSubscriptionAsWritten(startedAt: int, validityDays: Option<int>, endedAt: Option<int>)
    : Result<Subscription, RowError>
  {
    if validityDays.None? then Failure(NotNullValidityDays)
    else Success(CreateSubscription(startedAt, validityDays, endedAt))
  }

  /**
   * As written, process_subscribe (which passes no validity_days) cannot store the
   * period it opens, and transaction.atomic undoes the whole call; the intended
   * creation stores a 30-day row whose recorded days match its length.
   */
  lemma OpenedPeriodRefusedAsWritten(now: int)
    ensures CreateSubscriptionAsWritten(now, None, None) == Failure(NotNullValidityDays)
    ensures var r := CreateSubscription(now, None, None);
            r.validityDays == DEFAULT_VALIDITY_DAYS && r.endedAt == now + Clock.Days(r.validityDays)
  {
  }

  /** Subscription.is_in_refund_validity_days: now is at most 7 days after started_at. */
  predicate IsInRefundValidityDays(sub: Subscription, now: int)
  {
    now <= sub.startedAt + Clock.Days(REFUND_VALIDITY_DAYS)
  }

  /**
   * The refund window is closed at its end: a subscription is refundable up to and
   * including the instant 7 * 86400 seconds after it started, and not a second later.
   */
  lemma RefundWindowBoundary(sub: Subscription)
    ensures IsInRefundValidityDays(sub, sub.startedAt + 604800)
    ensures !IsInRefundValidityDays(sub, sub.startedAt + 604801)
    ensures forall now :: now <= sub.startedAt ==> IsInRefundValidityDays(sub, now)
  {
  }

  /**
   * subscriptions.latest("-ended_at"): ordering by descending ended_at and then
   * taking the latest selects the SMALLEST ended_at (the first one among equals).
   */
  function EarliestEndingIndex(subs: seq<Subscription>): (k: nat)
    requires |subs| > 0
    ensures k < |subs|
    ensures forall j :: 0 <= j < |subs| ==> subs[k].endedAt <= subs[j].endedAt
  {
    if |subs| == 1 then 0
    else
      var k := EarliestEndingIndex(subs[..|subs| - 1]);
      if subs[|subs| - 1].endedAt < subs[k].endedAt then |subs| - 1 else k
  }

  // ---- Payment ----

  /** "ggongsul-" + strftime('%y%m%d%H%M%S') + "-" + secrets.token_hex(3). */
  function PaymentUid(now: nat, tokenHex: string): (r: string)
    requires |tokenHex| == 6 && Text.AllLowerHex(tokenHex)
    ensures |r| == 28 && |r| <= 64
    ensures r[..9] == "ggongsul-" && r[9..21] == Clock.Strftime12(now) && r[21] == '-'
    ensures r[22..] == tokenHex && Text.AllLowerHex(r[22..])
  {
    var stamp := Clock.Strftime12(now);
    var r := "ggongsul-" + stamp + "-" + tokenHex;
    assert r[9..21] == stamp;
    r
  }

  /** The request make_payment sends, and the gateway's answer. */
  datatype ChargeRequest = ChargeRequest(customerUid: string, merchantUid: string, amount: int, name: string)
  datatype ChargeResponse = Charged(impUid: string) | ChargeRefused

  /** The request cancel_payment sends (amount None: cancel in full), and the answer. */
  datatype CancelRequest = CancelRequest(impUid: string, merchantUid: string, amount: Option<int>, reason: Option<string>)
  datatype CancelResponse = Canceled(cancelAmount: int) | CancelRefused

  /** What the membership operations raise: a gateway failure, or no subscription to consult. */
  datatype MembershipError = GatewayRefused | NoSubscription

  /**
   * A Payment row. subscription is the position, in the member's ledger, of the
   * Subscription it pays for (the one-to-one foreign key).
   */
  class Payment {
    const subscription: nat
    const paymentUid: string
    const paymentType: int
    const impUid: string
    const amount: int
    const paidAt: int
    var canceledAmount: int
    var canceledAt: Option<int>

    constructor (subscription: nat, paymentUid: string, impUid: string, amount: int, paidAt: int)
      ensures this.subscription == subscription && this.paymentUid == paymentUid
      ensures this.impUid == impUid && this.amount == amount && this.paidAt == paidAt
      ensures paymentType == KAKAOPAY && canceledAmount == 0 && canceledAt == None
    {
      this.subscription := subscription;
      this.paymentUid := paymentUid;
      this.paymentType := KAKAOPAY;
      this.impUid := impUid;
      this.amount := amount;
      this.paidAt := paidAt;
      canceledAmount := 0;
      canceledAt := None;
    }

    /**
     * Payment.create_payment: charge the billing key under a fresh payment uid;
     * the row exists only if the gateway charged, paid now, for the given amount
     * and with nothing canceled.
     */
    static method CreatePayment(subscription: nat, name: string, amount: int, billingKey: string,
                                now: nat, tokenHex: string, charge: ChargeRequest -> ChargeResponse)
      returns (r: Result<Payment, MembershipError>)
      requires |tokenHex| == 6 && Text.AllLowerHex(tokenHex)
      ensures var resp := charge(ChargeRequest(billingKey, PaymentUid(now, tokenHex), amount, name));
              && (r.Success? <==> resp.Charged?)
              && (r.Failure? ==> r.error == GatewayRefused)
              && (r.Success? ==> fresh(r.value) && r.value.impUid == resp.impUid)
    ensures r.Success? ==> NewPayment(r.value, subscription, amount, now, tokenHex)
    {
      var uid := PaymentUid(now, tokenHex);
      var resp := charge(ChargeRequest(billingKey, uid, amount, name));
      if resp.ChargeRefused? {
        return Failure(GatewayRefused);
      }
      var p := new Payment(subscription, uid, resp.impUid, amount, now);
      r := Success(p);
    }

    /**
     * Payment.cancel_payment: ask the gateway to cancel in full; on success record
     * now and the amount the gateway reports; on failure change nothing.
     */
    method CancelPayment(reason: Option<string>, now: int, cancel: CancelRequest -> CancelResponse)
      returns (r: Outcome<MembershipError>)
      modifies this
      ensures var resp := cancel(CancelRequest(impUid, paymentUid, None, reason));
              && (r.Pass? <==> resp.Canceled?)
              && (r.Fail? ==> r.error == GatewayRefused)
              && (r.Pass? ==> canceledAt == Some(now) && canceledAmount == resp.cancelAmount)
              && (r.Fail? ==> canceledAt == old(canceledAt) && canceledAmount == old(canceledAmount))
    {
      var resp := cancel(CancelRequest(impUid, paymentUid, None, reason));
      if resp.CancelRefused? {
        return Fail(GatewayRefused);
      }
      canceledAt := Some(now);
      canceledAmount := resp.cancelAmount;
      r := Pass;
    }
  }

  /** A payment as create_payment leaves it: paid now, nothing canceled. */
  ghost predicate NewPayment(p: Payment, subscription: nat, amount: int, now: nat, tokenHex: string)
    reads p
    requires |tokenHex| == 6 && Text.AllLowerHex(tokenHex)
  {
    && p.subscription == subscription && p.amount == amount && p.paidAt == now
    && p.paymentUid == PaymentUid(now, tokenHex) && p.paymentType == KAKAOPAY
    && p.canceledAmount == 0 && p.canceledAt == None
  }

  /** The position of the payment for subscription k (hasattr(subscription, "payment")). */
  function PaymentIndex(payments: seq<Payment>, k: nat): (r: Option<nat>)
    ensures r.Some? ==> r.value < |payments| && payments[r.value].subscription == k
    ensures r.None? ==> forall i :: 0 <= i < |payments| ==> payments[i].subscription != k
  {
    if payments == [] then None
    else if payments[|payments| - 1].subscription == k then Some(|payments| - 1)
    else PaymentIndex(payments[..|payments| - 1], k)
  }

  // ---- The member's rows ----

  /**
   * The member's Subscription rows and the Payment rows that reference them. Every
   * payment points at an existing subscription, and no subscription has two payments.
   */
  class Ledger {
    var subscriptions: seq<Subscription>
    var payments: seq<Payment>

    ghost predicate Valid()
      reads this
    {
      && (forall i :: 0 <= i < |payments| ==> payments[i].subscription < |subscriptions|)
      && (forall i, j :: 0 <= i < j < |payments| ==> payments[i].subscription != payments[j].subscription)
    }

    constructor ()
      ensures Valid() && subscriptions == [] && payments == []
    {
      subscriptions := [];
      payments := [];
    }
  }

  // ---- Membership ----

  /** Which branch process_subscribe takes. */
  datatype SubscribePlan =
    | KeepBenefits   // benefits remain: only reactivate
    | FreePeriod     // first activation ever: a new period without payment
    | PaidPeriod     // a new period, charged MEMBERSHIP_PRICE

  function PlanSubscribe(hasBenefits: bool, lastActivatedAt: Option<int>): (p: SubscribePlan)
    ensures p == KeepBenefits <==> hasBenefits
    ensures p == FreePeriod <==> !hasBenefits && lastActivatedAt.None?
    ensures p == PaidPeriod <==> !hasBenefits && lastActivatedAt.Some?
  {
    if hasBenefits then KeepBenefits
    else if lastActivatedAt.None? then FreePeriod
    else PaidPeriod
  }

  /**
   * The branch as written at line 47: `self.member.has_membership_benefits` is a
   * bound method that is never called, and a bound method is always truthy.
   */
  function PlanSubscribeAsWritten(lastActivatedAt: Option<int>): SubscribePlan
  {
    PlanSubscribe(true, lastActivatedAt)
  }

  /**
   * As written, subscribe never opens a period: even a member subscribing for the
   * first time, with no subscription at all, gets no benefit period, where the
   * evident intent grants a free one.
   */
  lemma SubscribeAsWrittenNeverOpensPeriod(lastActivatedAt: Option<int>, now: int)
    ensures PlanSubscribeAsWritten(lastActivatedAt) == KeepBenefits
    ensures PlanSubscribe(MemberModels.HasMembershipBenefits([], now), None) == FreePeriod
  {
  }

  /**
   * The period process_subscribe stores for a plan, with create_subscription as
   * written: nothing for KeepBenefits, otherwise a row created without
   * validity_days. A Failure aborts the transaction, charge and payment included.
   */
  function SubscribePeriodAsWritten(plan: SubscribePlan, now: int): Result<Option<Subscription>, RowError>
  {
    if plan == KeepBenefits then Success(None)
    else
      match CreateSubscriptionAsWritten(now, None, None)
      case Success(sub) => Success(Some(sub))
      case Failure(e) => Failure(e)
  }

  /**
   * With create_subscription as written, a subscribe that would open a period,
   * free or paid, never completes: only KeepBenefits succeeds. The intended
   * creation opens the 30-day period for both.
   */
  lemma PeriodPlansFailAsWritten(plan: SubscribePlan, now: int)
    ensures SubscribePeriodAsWritten(plan, now).Success? <==> plan == KeepBenefits
    ensures plan != KeepBenefits ==> SubscribePeriodAsWritten(plan, now) == Failure(NotNullValidityDays)
    ensures plan != KeepBenefits ==> CreateSubscription(now, None, None).endedAt == now + Clock.Days(DEFAULT_VALIDITY_DAYS)
  {
    OpenedPeriodRefusedAsWritten(now);
  }

  /** The charge process_subscribe asks for. */
  function SubscribeCharge(memberId: nat, now: nat, tokenHex: string): ChargeRequest
    requires |tokenHex| == 6 && Text.AllLowerHex(tokenHex)
  {
    ChargeRequest(MemberModels.BillingKey(memberId), PaymentUid(now, tokenHex), MEMBERSHIP_PRICE, SUBSCRIBE_PAYMENT_NAME)
  }

  /**
   * The payment process_unsubscribe cancels, as a position in payments: the one
   * for the earliest-ending subscription, when that subscription is still inside
   * its refund window and has a payment.
   */
  function RefundTarget(subs: seq<Subscription>, payments: seq<Payment>, now: int): (t: Option<nat>)
    ensures t.Some? ==> t.value < |payments|
  {
    if subs == [] then None
    else
      var k := EarliestEndingIndex(subs);
      if IsInRefundValidityDays(subs[k], now) then PaymentIndex(payments, k) else None
  }

  /** The cancel request process_unsubscribe sends for a payment. */
  function RefundRequest(p: Payment): CancelRequest
  {
    CancelRequest(p.impUid, p.paymentUid, None, Some(UNSUBSCRIBE_REFUND_REASON))
  }

  /** A Membership row, one per member. */
  class Membership {
    const memberId: nat
    var isActive: bool
    var lastActivatedAt: Option<int>
    var lastDeactivatedAt: Option<int>

    /** The row get_or_create makes: inactive, never activated or deactivated. */
    constructor (memberId: nat)
      ensures this.memberId == memberId && !isActive
      ensures lastActivatedAt == None && lastDeactivatedAt == None
    {
      this.memberId := memberId;
      isActive := false;
      lastActivatedAt := None;
      lastDeactivatedAt := None;
    }

    function Row(): MembershipRow
      reads this
    {
      MembershipRow(isActive, lastActivatedAt)
    }

    /**
     * Membership.process_subscribe, atomic. With benefits remaining it only
     * reactivates. Otherwise it opens a 30-day period starting now; unless this is
     * the first activation ever it charges MEMBERSHIP_PRICE for that period, and a
     * refused charge rolls everything back.
     */
    method ProcessSubscribe(ledger: Ledger, now: nat, tokenHex: string, charge: ChargeRequest -> ChargeResponse)
      returns (r: Outcome<MembershipError>)
      requires ledger.Valid()
      requires |tokenHex| == 6 && Text.AllLowerHex(tokenHex)
      modifies this, ledger
      ensures ledger.Valid()
      ensures lastDeactivatedAt == old(lastDeactivatedAt)
      ensures var plan := PlanSubscribe(MemberModels.HasMembershipBenefits(old(ledger.subscriptions), now), old(lastActivatedAt));
              var resp := charge(SubscribeCharge(memberId, now, tokenHex));
              && (r.Fail? <==> plan == PaidPeriod && resp.ChargeRefused?)
              && (r.Fail? ==> r.error == GatewayRefused)
              && (r.Fail? ==> isActive == old(isActive) && lastActivatedAt == old(lastActivatedAt)
                              && ledger.subscriptions == old(ledger.subscriptions)
                              && ledger.payments == old(ledger.payments))
              && (r.Pass? ==> isActive && lastActivatedAt == Some(now))
              && (r.Pass? ==> ledger.subscriptions == old(ledger.subscriptions)
                                + (if plan == KeepBenefits then [] else [CreateSubscription(now, None, None)]))
              && (r.Pass? && plan != PaidPeriod ==> ledger.payments == old(ledger.payments))
              && (r.Pass? && plan == PaidPeriod ==>
                    && |ledger.payments| == |old(ledger.payments)| + 1
                    && ledger.payments[..|old(ledger.payments)|] == old(ledger.payments)
                    && fresh(ledger.payments[|old(ledger.payments)|])
                    && ledger.payments[|old(ledger.payments)|].impUid == resp.impUid
                    && NewPayment(ledger.payments[|old(ledger.payments)|], |old(ledger.subscriptions)|,
                                  MEMBERSHIP_PRICE, now, tokenHex))
    {
      if MemberModels.HasMembershipBenefits(ledger.subscriptions, now) {
        isActive := true;
        lastActivatedAt := Some(now);
        return Pass;
      }
      // inside transaction.atomic: a failed charge undoes the new subscription
      var saved := ledger.subscriptions;
      var k := |ledger.subscriptions|;
      ledger.subscriptions := ledger.subscriptions + [CreateSubscription(now, None, None)];
      if lastActivatedAt.Some? {
        var p := Payment.CreatePayment(k, SUBSCRIBE_PAYMENT_NAME, MEMBERSHIP_PRICE,
                                       MemberModels.BillingKey(memberId), now, tokenHex, charge);
        if p.Failure? {
          ledger.subscriptions := saved;
          return Fail(p.error);
        }
        ledger.payments := ledger.payments + [p.value];
      }
      isActive := true;
      lastActivatedAt := Some(now);
      r := Pass;
    }

    /**
     * Membership.process_unsubscribe: consult the subscription latest("-ended_at")
     * selects (the earliest-ending one); if it is inside its refund window and has
     * a payment, cancel that payment; then deactivate. Raises, changing nothing,
     * when the member has no subscription or the gateway refuses the cancellation.
     */
    method ProcessUnsubscribe(ledger: Ledger, now: int, cancel: CancelRequest -> CancelResponse)
      returns (r: Outcome<MembershipError>)
      requires ledger.Valid()
      modifies this, ledger.payments
      ensures unchanged(ledger)
      ensures lastActivatedAt == old(lastActivatedAt)
      ensures ledger.subscriptions == [] ==> r == Fail(NoSubscription)
      ensures var t := RefundTarget(ledger.subscriptions, ledger.payments, now);
              && (r.Fail? <==> ledger.subscriptions == []
                               || (t.Some? && cancel(RefundRequest(ledger.payments[t.value])).CancelRefused?))
              && (r.Pass? ==> !isActive && lastDeactivatedAt == Some(now))
              && (r.Fail? ==> isActive == old(isActive) && lastDeactivatedAt == old(lastDeactivatedAt))
              && (forall i :: 0 <= i < |ledger.payments| && t != Some(i) ==>
                    ledger.payments[i].canceledAt == old(ledger.payments[i].canceledAt)
                    && ledger.payments[i].canceledAmount == old(ledger.payments[i].canceledAmount))
              && (t.Some? && r.Pass? ==>
                    ledger.payments[t.value].canceledAt == Some(now)
                    && ledger.payments[t.value].canceledAmount
                       == cancel(RefundRequest(ledger.payments[t.value])).cancelAmount)
              && (t.Some? && r.Fail? ==>
                    ledger.payments[t.value].canceledAt == old(ledger.payments[t.value].canceledAt)
                    && ledger.payments[t.value].canceledAmount == old(ledger.payments[t.value].canceledAmount))
    {
      if ledger.subscriptions == [] {
        return Fail(NoSubscription);
      }
      var t := RefundTarget(ledger.subscriptions, ledger.payments, now);
      if t.Some? {
        var p := ledger.payments[t.value];
        var c := p.CancelPayment(Some(UNSUBSCRIBE_REFUND_REASON), now, cancel);
        if c.Fail? {
          return c;
        }
      }
      isActive := false;
      lastDeactivatedAt := Some(now);
      r := Pass;
    }
  }
}

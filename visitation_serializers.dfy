/**
 * VisitationSerializer.validate (ggongsul/visitation/serializers.py): a member
 * certifies a visit to a partner with the partner's certification number, at
 * most once per partner per calendar day.
 */
module VisitationSerializers {
  import opened Wrappers
  import opened Schema
  import Clock

  /** The ValidationError messages, in the order the checks run. */
  datatype Rejection = InactivePartner | CertMismatch | AlreadyVisitedToday

  /**
   * The attrs dict validate receives and updates in place: member (set from the
   * request), partner and the write-only cert_num (required, so present on entry).
   */
  class VisitationAttrs {
    var member: Option<nat>
    const partner: Partner
    var certNum: Option<string>

    constructor (partner: Partner, certNum: string)
      ensures this.partner == partner && this.certNum == Some(certNum) && member == None
    {
      this.partner := partner;
      this.certNum := Some(certNum);
      member := None;
    }
  }

  /**
   * The once-a-day rule: the member has a visitation to the partner created
   * strictly after today's midnight.
   */
  predicate VisitedToday(memberId: nat, partner: Partner, visitations: seq<Visitation>, now: int)
  {
    exists v :: v in VisitationsOf(memberId, visitations)
                && v.partner == Some(partner.id) && v.createdOn > Clock.StartOfDay(now)
  }

  /** The verdict of the three checks, the first failing one reported. */
  function Verdict(memberId: nat, partner: Partner, certNum: string, visitations: seq<Visitation>, now: int)
    : (r: Outcome<Rejection>)
    ensures r == Pass <==> partner.isActive && partner.certNum == certNum && !VisitedToday(memberId, partner, visitations, now)
    ensures !partner.isActive ==> r == Fail(InactivePartner)
    ensures partner.isActive && partner.certNum != certNum ==> r == Fail(CertMismatch)
    ensures r == Fail(AlreadyVisitedToday) <==>
              partner.isActive && partner.certNum == certNum && VisitedToday(memberId, partner, visitations, now)
  {
    if !partner.isActive then Fail(InactivePartner)
    else if partner.certNum != certNum then Fail(CertMismatch)
    else if VisitedToday(memberId, partner, visitations, now) then Fail(AlreadyVisitedToday)
    else Pass
  }

  /**
   * VisitationSerializer.validate for the requesting member at time now: member
   * is always set to the requesting user; cert_num is deleted once it matched,
   * so the accepted attrs carry member and partner but no cert_num.
   */
  method Validate(attrs: VisitationAttrs, user: nat, visitations: seq<Visitation>, now: int)
    returns (r: Outcome<Rejection>)
    requires attrs.certNum.Some?
    modifies attrs
    ensures r == Verdict(user, attrs.partner, old(attrs.certNum.value), visitations, now)
    ensures attrs.member == Some(user)
    ensures r == Pass ==> attrs.certNum == None
    ensures (r == Fail(InactivePartner) || r == Fail(CertMismatch)) ==> attrs.certNum == old(attrs.certNum)
    ensures r == Fail(AlreadyVisitedToday) ==> attrs.certNum == None
  {
    attrs.member := Some(user);
    var partner := attrs.partner;
    if !partner.isActive {
      return Fail(InactivePartner);
    }
    var certNum := attrs.certNum.value;
    if partner.certNum != certNum {
      return Fail(CertMismatch);
    }
    attrs.certNum := None;
    var todayDatetime := Clock.StartOfDay(now);
    if exists v :: v in VisitationsOf(user, visitations) && v.partner == Some(partner.id) && v.createdOn > todayDatetime {
      return Fail(AlreadyVisitedToday);
    }
    r := Pass;
  }

  /**
   * For visits that are not in the future, the rule blocks exactly the visits of
   * today after 00:00:00: a visit made at midnight itself, or on an earlier day,
   * does not block.
   */
  lemma SameDayBoundary(createdOn: int, now: int)
    requires createdOn <= now
    ensures createdOn > Clock.StartOfDay(now)
        <==> Clock.StartOfDay(createdOn) == Clock.StartOfDay(now) && createdOn % Clock.DAY != 0
  {
    var m := Clock.StartOfDay(now);
    var c := Clock.StartOfDay(createdOn);
    if createdOn > m {
      assert m <= c by {
        if c < m {
          assert c + Clock.DAY <= m by { MidnightsApart(c, m); }
        }
      }
      assert c <= m by {
        if m < c {
          MidnightsApart(m, c);
        }
      }
    }
  }

  /** Two different midnights are at least a day apart. */
  lemma MidnightsApart(a: int, b: int)
    requires a % Clock.DAY == 0 && b % Clock.DAY == 0 && a < b
    ensures a + Clock.DAY <= b
  {
    var qa := a / Clock.DAY;
    var qb := b / Clock.DAY;
    assert a == qa * Clock.DAY && b == qb * Clock.DAY;
    assert qa < qb;
  }

  /** A member may visit different partners on the same day, and the same partner again the next day. */
  lemma OncePerPartnerPerDay(memberId: nat, p: Partner, q: Partner, now: int)
    requires p.id != q.id
    ensures !VisitedToday(memberId, q, [Visitation(Some(memberId), Some(p.id), now)], now)
    ensures !VisitedToday(memberId, p, [Visitation(Some(memberId), Some(p.id), now)], now + Clock.DAY)
  {
    var v := Visitation(Some(memberId), Some(p.id), now);
    var rows := [v];
    assert forall w :: w in VisitationsOf(memberId, rows) ==> w == v;
    assert Clock.StartOfDay(now + Clock.DAY) > now;
  }
}

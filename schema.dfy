/**
 * Rows of the database tables that several apps read. Objects the source updates
 * in place (Membership, Payment, Post, Comment) are classes in their own modules.
 */
module Schema {
  import opened Wrappers

  /**
   * A Subscription row: one benefit period [startedAt, endedAt). validity_days is
   * a NOT NULL column, so a stored row always has a number of days.
   */
  datatype Subscription = Subscription(startedAt: int, endedAt: int, validityDays: int)

  /** The fields of a Membership row that the member-side queries read. */
  datatype MembershipRow = MembershipRow(isActive: bool, lastActivatedAt: Option<int>)

  /** A Visitation row; both foreign keys are nullable (SET_NULL). */
  datatype Visitation = Visitation(member: Option<nat>, partner: Option<nat>, createdOn: int)

  /**
   * The fields of a Partner the visitation check reads. certNum is read by the
   * visitation serializer although ggongsul/partner/models.py declares no such field.
   */
  datatype Partner = Partner(id: nat, isActive: bool, certNum: string)

  /** member.visitations: the rows whose member is the given id, in table order. */
  function VisitationsOf(memberId: nat, rows: seq<Visitation>): (r: seq<Visitation>)
    ensures |r| <= |rows|
    ensures forall v :: v in r <==> v in rows && v.member == Some(memberId)
  {
    if rows == [] then []
    else
      var init := VisitationsOf(memberId, rows[..|rows| - 1]);
      var last := rows[|rows| - 1];
      assert rows == rows[..|rows| - 1] + [last];
      if last.member == Some(memberId) then init + [last] else init
  }
}

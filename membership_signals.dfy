/**
 * send_slack_alert (ggongsul/membership/signals.py), the pre_save receiver of
 * Membership: whether saving a membership announces a new member. The message
 * itself is sent on a separate thread, which is not part of this model.
 */
module MembershipSignals {
  import opened Wrappers

  /**
   * isActive is the value being saved; stored is the is_active of the row already
   * in the database, None when the instance has no id yet (a new row).
   */
  function ShouldAlert(isActive: bool, stored: Option<bool>): (alert: bool)
    ensures alert <==> isActive && (stored == None || stored == Some(false))
  {
    if !isActive then false
    else if stored.Some? then
      // `previous.is_active is False and instance.is_active is True`
      !stored.value && isActive
    else true
  }

  /**
   * The decision's cases: an inactive save never alerts; a new active row alerts;
   * an existing row alerts only on the change from inactive to active, so saving
   * an already active membership again never alerts.
   */
  lemma AlertCases(stored: Option<bool>)
    ensures !ShouldAlert(false, stored)
    ensures ShouldAlert(true, None)
    ensures ShouldAlert(true, Some(false))
    ensures !ShouldAlert(true, Some(true))
  {
  }

  /**
   * Saving the same state twice in a row alerts at most once: after an alerting
   * save the stored value is active, and the next save of an active row is silent.
   */
  lemma AlertsOncePerActivation(stored: Option<bool>, isActive: bool)
    requires ShouldAlert(isActive, stored)
    ensures !ShouldAlert(isActive, Some(isActive))
  {
  }
}

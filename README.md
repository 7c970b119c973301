# ggongsul membership lifecycle and rule functions, in Dafny

ggongsul is a Django backend for a bar-membership service. Members subscribe to
a monthly membership. Members certify visits to partner bars. Members review
partners and post in a small community board. This project models the core of
that backend and proves properties of the model:

- **The membership state machine** (`MembershipModels`, `MemberModels`):
  - subscribe: keep remaining benefits, or open a free first period, or open a
    paid period charged through the payment gateway, all or nothing;
  - unsubscribe, with the refund of the consulted subscription when it is inside
    its 7-day refund window;
  - subscription windows, payment uids, payment creation and cancellation;
  - the member-side queries (benefits, active subscription, next payment, days
    of membership, billing key).
- **The services around it**:
  - the daily renewal sweep (`MembershipTasks`);
  - the subscribe and unsubscribe request gates (`MembershipSerializers`);
  - the "membership activated" Slack alert decision (`MembershipSignals`);
  - Slack message construction and routing (`CommonUtils`).
- **The small rule functions**:
  - `validate_dict_key` (`CoreValidators`);
  - the member filter and the lat/lng check (`CoreFilters`);
  - retry with exponential backoff, the exception-to-status mapping and password
    scrubbing in logs (`CoreDecorators`);
  - first-match action permissions and the membership-benefits permission
    (`CorePermissions`);
  - the once-a-day visit rule (`VisitationSerializers`);
  - review-image reuse and the pk/URL field (`ReviewSerializers`);
  - rating choices (`ReviewModels`);
  - the community's soft delete, like toggle and counts (`CommunityModels`,
    `CommunityViews`);
  - the partner secret-token retry (`PartnerModels`);
  - upload renaming (`Uploads`).

Time is an integer count of seconds since the epoch in UTC, with a day of 86400
seconds (`Clock`). `timezone.now()` is a parameter. The payment gateway
(IMPHelper) is an oracle from a charge or cancel request to a response, and the
response may be a refusal. Random uuids and tokens are parameters, or a draw
function for the token loop. Rows that the code mutates are classes with
`modifies` clauses:
- `Membership`;
- `Payment`;
- the member's `Ledger` of subscriptions and payments;
- `Post` and `Comment`;
- the attention table;
- the visitation serializer's attrs;
- request objects.

Rows that are only read are datatypes (`Schema`).

Three details of the subscription code shape the model:
- a new subscription lasts `DEFAULT_VALIDITY_DAYS` = 30 days from the moment it
  starts, with no rounding to the end of the day (ggongsul/membership/models.py:88,119-122);
- `process_unsubscribe` refunds the payment of the subscription it consults when
  that subscription is inside its refund window (ggongsul/membership/models.py:76-80);
- the subscription it consults is the one `latest("-ended_at")` selects, which is
  the one with the smallest `ended_at` (ggongsul/membership/models.py:74).

Several call sites test a bound method without calling it, which Python always
treats as true. The model uses the evidently intended call, and models each
literal reading beside it (see Findings).

## Model

| member | source | states |
|---|---|---|
| `MembershipModels.CreateSubscription` | ggongsul/membership/models.py:111-128 | An explicit ended_at is stored unchanged. Otherwise ended_at = started_at + d days, with d = validity_days when it is non-zero and 30 when it is 0 or absent. The stored validity_days is the argument, or the column default 30 when the argument is absent, so the NOT NULL row can be stored. |
| `MembershipModels.CreatedPeriodEndsAfterStart` | ggongsul/membership/models.py:119-122 | With absent or positive validity_days, the computed ended_at is strictly after started_at, and ended_at - started_at is exactly the stored number of days. |
| `MembershipModels.OpenedPeriodRefusedAsWritten` | ggongsul/membership/models.py:123-127 | As written, a period created without validity_days is refused by the NOT NULL column. The corrected creation stores a 30-day row whose length matches its recorded days. |
| `MembershipModels.PeriodPlansFailAsWritten` | ggongsul/membership/models.py:53-55 | As written, only the keep-benefits branch of subscribe completes. The free and paid branches fail on the row insert, and the corrected creation opens a 30-day period for both. |
| `MembershipModels.RefundWindowBoundary` | ggongsul/membership/models.py:130-136 | The refund window is inclusive: inside at exactly started_at + 7 days, outside one second later, and inside at every time up to started_at. |
| `MembershipModels.EarliestEndingIndex` | ggongsul/membership/models.py:74 | The subscription `latest("-ended_at")` consults has an ended_at no greater than any other subscription's. |
| `MembershipModels.PaymentUid` | ggongsul/membership/models.py:177-179 | The payment uid is 28 characters, within max_length 64: "ggongsul-", the 12-digit UTC stamp of now (`Clock.Strftime12(now)`), "-", then the 6 hex digits of the token. |
| `MembershipModels.Payment.constructor` | ggongsul/membership/models.py:184-191 | A new payment row is of type KAKAOPAY, has the given subscription, uid, imp_uid, amount and paid_at, canceled_amount 0 and no canceled_at. |
| `MembershipModels.Payment.CreatePayment` | ggongsul/membership/models.py:171-191 | A row exists exactly when the gateway charged the billing key under the new uid. It carries the gateway's imp_uid, paid_at = now, the amount and nothing canceled. A refusal is an error and creates nothing. |
| `MembershipModels.Payment.CancelPayment` | ggongsul/membership/models.py:193-200 | Asks a full cancel of imp_uid/payment_uid with the reason. On success canceled_at = now and canceled_amount = the gateway's cancel_amount. On refusal nothing changes. |
| `MembershipModels.PaymentIndex` | ggongsul/membership/models.py:143-149 | Finds the payment attached to a subscription (one-to-one), or reports that it has none. |
| `MembershipModels.PlanSubscribe` | ggongsul/membership/models.py:47-66 | Remaining benefits keep them, iff benefits. A free period opens iff no benefits and never activated. A paid period opens iff no benefits and activated before. |
| `MembershipModels.SubscribeAsWrittenNeverOpensPeriod` | ggongsul/membership/models.py:47 | The literal reading always takes the keep-benefits branch, even for a member with no subscription, for whom the intended plan opens a free period. |
| `MembershipModels.RefundTarget` | ggongsul/membership/models.py:74-79 | The payment unsubscribe cancels, if any, is an existing payment. |
| `MembershipModels.Membership.constructor` | ggongsul/membership/models.py:23-33 | The membership get_or_create makes is inactive and was never activated or deactivated. |
| `MembershipModels.Membership.ProcessSubscribe` | ggongsul/membership/models.py:43-70 | With benefits: only is_active = true and last_activated_at = now. Otherwise exactly one 30-day subscription starting now is appended, plus a 4900 payment linked to it iff last_activated_at was set. A refused charge fails and leaves membership, subscriptions and payments as they were. The ledger invariant (one payment per subscription) is kept. |
| `MembershipModels.Membership.ProcessUnsubscribe` | ggongsul/membership/models.py:72-84 | No subscription: it raises and changes nothing. Otherwise it cancels exactly the refund target's payment, if any; a refused cancel raises with the membership unchanged. Success sets is_active = false and last_deactivated_at = now. No other payment and no subscription changes. |
| `MemberModels.LatestIndex` | ggongsul/member/models.py:66 | `latest("ended_at")` picks a subscription whose ended_at is at least every other's. |
| `MemberModels.ActiveSubscriptionSpec` | ggongsul/member/models.py:63-72 | active_subscription is a subscription with the greatest ended_at, not ending before now. It is None iff every subscription ended before now. |
| `MemberModels.BenefitsIffActiveEndsAfterNow` | ggongsul/member/models.py:44-46 | Benefits remain iff some subscription ends strictly after now, which holds iff the active subscription ends after now. |
| `MemberModels.EndingNowIsActiveWithoutBenefits` | ggongsul/member/models.py:70-72 | A subscription ending exactly now is still the active subscription although it gives no benefits. |
| `MemberModels.NextPaymentOfActiveMembership` | ggongsul/member/models.py:74-83 | For an active membership it raises iff every subscription ended before now. Otherwise it is the greatest ended_at, which is at least now. |
| `MemberModels.NoNextPaymentUnlessActivated` | ggongsul/member/models.py:74-78 | With no membership row or an inactive one there is no next payment and no error. |
| `MemberModels.TotalMembershipDaysSpec` | ggongsul/member/models.py:85-93 | 0 without an active, once-activated membership. Otherwise the floored whole days since last_activated_at. |
| `MemberModels.BillingKeyInjective` | ggongsul/member/models.py:98-100 | "ggongsul-" + id: distinct members have distinct billing keys. |
| `MemberModels.TotalVisitationCntCounts` | ggongsul/member/models.py:95-96 | Counts the member's visitations: one more for each of the member's, none for others', never more than all rows. |
| `Clock.Tomorrow` | ggongsul/membership/tasks.py:14-16 | A midnight strictly after now and at most one day later. |
| `Clock.TomorrowIsNextMidnight` | ggongsul/membership/tasks.py:15 | No midnight lies strictly between now and tomorrow. |
| `Clock.StartOfDay` | ggongsul/visitation/serializers.py:34-36 | Today's midnight: at most now, less than a day before it, and a whole number of days. |
| `Clock.WholeDays` | ggongsul/member/models.py:93 | timedelta.days: d whole days with d days <= s < d + 1 days. |
| `Clock.Strftime12` | ggongsul/membership/models.py:178 | `%y%m%d%H%M%S` is 12 decimal digits whose pairs read as t's year within its century, month, day, hour, minute and second. |
| `Clock.ToCivil` | ggongsul/membership/models.py:178 | The UTC date and time of t: the whole days of t are the days of the years since 1970, the days of the months before the month, and day - 1. The day lies within its month, and hour, minute and second make up the rest of t. |
| `Clock.StampExamples` | ggongsul/membership/models.py:178 | The epoch stamps as "700101000000", and day 59 of 1970 at 13:05:09 is 1 March 1970. |
| `Uploads.UploadPathShape` | ggongsul/member/models.py:26-31 | The path is sub_path, a separator when sub_path lacks one, the first 10 hex digits of the uuid, ".", and the extension. The extension is the text after the last "." (all of a filename without "."), and the instance is not used. |
| `Uploads.NameJoin` | ggongsul/review/models.py:19-24 | Joining sub_path with "<10-digit uid>.<ext>" keeps sub_path, adds a separator only when needed, and ends with the uid, ".", and the extension. |
| `Uploads.OwnedUploadPathShape` | ggongsul/partner/models.py:21-26 | For a sub_path ending in "/", the path is sub_path + "<owner id>/<uid>.<ext>", with an extension that contains no ".". |
| `Uploads.RelativeJoin` | ggongsul/community/models.py:18-23 | Joining a "/"-terminated sub_path with "<member id>/<uid>.<ext>" is plain concatenation, since the id starts with a digit. |
| `MembershipTasks.CountInSweep` | ggongsul/membership/tasks.py:20-21 | The number of members the sweep query yields (active member, active membership). |
| `MembershipTasks.CheckExpireMembership` | ggongsul/membership/tasks.py:13-36 | The loop's counters and dispatches equal the sweep specification with threshold tomorrow. It sends one INFO summary with both counters iff no member's next-payment lookup raised. |
| `MembershipTasks.SweepStopsAfterRaise` | ggongsul/membership/tasks.py:20-26 | Once a member's lookup raises, later members change nothing. |
| `MembershipTasks.SweepCounts` | ggongsul/membership/tasks.py:17-26 | renew_cnt <= total_membership_cnt <= members in the query, and a completed sweep counts every one of them. |
| `MembershipTasks.SweepDispatchesDue` | ggongsul/membership/tasks.py:22-26 | Every dispatched id is a queried member whose next payment is before tomorrow. After a completed sweep every such member was dispatched. |
| `MembershipTasks.SweepDispatchesOnce` | ggongsul/membership/tasks.py:20-26 | With distinct member ids no id is dispatched twice. |
| `MembershipTasks.SweepRaisesOnStaleMembership` | ggongsul/membership/tasks.py:22 | The sweep stops iff a queried member has an active membership but every subscription ended before now. |
| `MembershipTasks.SummaryCarriesCounters` | ggongsul/membership/tasks.py:28-36 | The summary goes to the info webhook, titled "Check Expire Membership", with the two counters as its two fields in order. |
| `MembershipSerializers.SubscribeGate` | ggongsul/membership/serializers.py:14-20 | Accepted iff not activated and a billing key exists. An activated membership is rejected first, and a missing key only after that. |
| `MembershipSerializers.SubscribeAsWrittenRejectsEveryone` | ggongsul/membership/serializers.py:16 | The literal reading rejects every member as already subscribed, including one the intended gate accepts. |
| `MembershipSerializers.UnsubscribeGate` | ggongsul/membership/serializers.py:28-31 | Accepted iff the membership is activated. |
| `MembershipSerializers.UnsubscribeAsWrittenAdmitsInactive` | ggongsul/membership/serializers.py:30 | The literal reading lets an unsubscribed member through, where the intended gate rejects. |
| `MembershipSerializers.ValidateSubscribe` | ggongsul/membership/serializers.py:13-24 | A rejection changes nothing. Otherwise it gets or creates the membership, runs process_subscribe on it, and answers okay exactly when that succeeds. On success the ledger gains one 30-day subscription unless benefits remained, plus one new payment for it exactly on the paid plan. On failure the ledger is as it was. |
| `MembershipSerializers.ValidateUnsubscribe` | ggongsul/membership/serializers.py:27-34 | A rejection changes nothing. Otherwise it runs process_unsubscribe and answers okay exactly when that succeeds. Only the refund target's payment can be canceled: on success it is canceled at now for the gateway's amount, on failure it is unchanged. Every other payment keeps its canceled fields. |
| `MembershipSignals.ShouldAlert` | ggongsul/membership/signals.py:14-22 | Alert iff the saved membership is active and is new or was stored inactive. |
| `MembershipSignals.AlertCases` | ggongsul/membership/signals.py:15-22 | Inactive: never. New and active: alert. Inactive to active: alert. Active to active: no alert. |
| `MembershipSignals.AlertsOncePerActivation` | ggongsul/membership/signals.py:19-22 | Saving again after an alert does not alert again. |
| `PartnerModels.FirstFreeDraw` | ggongsul/partner/models.py:74-82 | The first of the 7 candidates not already held, with every earlier one held; or none when all 7 are held. |
| `PartnerModels.CreatePartnerDetail` | ggongsul/partner/models.py:72-85 | Stores the first free candidate, a 32-hex token not held before, after drawing at most 7 tokens. Only secret_token is set, and every other field passes through. When all 7 collide it raises CommError and stores nothing. |
| `PartnerModels.FailsOnlyWhenAllTaken` | ggongsul/partner/models.py:75-82 | If any of the 7 candidates is free, a token is found, no later than that candidate. |
| `CoreValidators.RequiredMessageInjective` | ggongsul/core/validators.py:12 | "<k> is required!" names its key: different keys give different messages. |
| `CoreValidators.MissingKeyMessages` | ggongsul/core/validators.py:9-12 | One message per key, at most; empty iff every key is present; a message is present iff it names a missing key. |
| `CoreValidators.MissingKeys` | ggongsul/core/validators.py:10-11 | The keys absent from the dict, and only those. |
| `CoreValidators.ValidateDictKey` | ggongsul/core/validators.py:6-17 | Raises iff some key is missing, with the full message list. Otherwise it returns the values in keys order; an empty keys gives an empty list. |
| `CoreValidators.OneMessagePerMissingKey` | ggongsul/core/validators.py:9-12 | The i-th message names the i-th missing key, in keys order, and there are as many messages as missing keys. |
| `CoreFilters.MemberFilter` | ggongsul/core/filters.py:14-15 | Keeps exactly the rows whose member is the requesting user. |
| `CoreFilters.MemberFilterIdempotent` | ggongsul/core/filters.py:14-15 | Filtering twice equals filtering once. |
| `CoreFilters.RemoveFirstDot` | ggongsul/core/filters.py:23-24 | `replace(".", "", 1)`: unchanged without a dot. With one, it is the text before the first dot followed by the text after it. |
| `CoreFilters.CoordinateOkIff` | ggongsul/core/filters.py:22-29 | A coordinate passes iff it has only digits and dots, at most one dot, and at least one digit. |
| `CoreFilters.NegativeCoordinateRejected` | ggongsul/core/filters.py:22-28 | Every coordinate with a leading "-" is rejected. |
| `CoreFilters.CoordinateExamples` | ggongsul/core/filters.py:23-24 | "37.5", "127" and "5." pass; "1.2.3", "." and "" fail. |
| `CoreFilters.DistanceParams` | ggongsul/core/filters.py:19-33 | A missing lat or lng fails before any numeric check, with the validate_dict_key messages: "lat is required!" if lat is missing, then "lng is required!" if lng is missing. Otherwise it fails iff a coordinate does not pass. On success the radius is the view's distance_num_km, or 5. |
| `CoreDecorators.RunFromSpec` | ggongsul/core/decorators.py:84-94 | From attempt i: the outcome is the first non-timeout attempt's, or "max retry over" after attempt 5. Sleeps of 2^j follow exactly the timed-out attempts, and calls = sleeps + (1 if an attempt decided). |
| `CoreDecorators.ExponentialBackoffRetry` | ggongsul/core/decorators.py:78-96 | The loop's outcome, call count and sleeps equal the retry specification from attempt 0. |
| `CoreDecorators.SumOfPowers` | ggongsul/core/decorators.py:90 | Sleeping 2^0 .. 2^(n-1) seconds sums to 2^n - 1. |
| `CoreDecorators.TotalSleepAtMost63` | ggongsul/core/decorators.py:85-90 | At most 6 calls and at most 63 seconds of sleep. |
| `CoreDecorators.FirstNonTimeoutDecides` | ggongsul/core/decorators.py:85-93 | If attempts 0..k-1 time out and attempt k does not, there are k + 1 calls. Attempt k's result is returned, or its exception re-raised. |
| `CoreDecorators.ApiStatusResponse` | ggongsul/core/decorators.py:40-73 | A normal return is a 200 response carrying the result. An error is an HttpResponse with its mapped status: its message for the known kinds, the fixed server-error message otherwise. |
| `CoreDecorators.ErrorStatusClasses` | ggongsul/core/decorators.py:47-73 | ValidationError/InvalidArgumentError → 400, PasswordMismatch/NotAuthError → 403, IntegrityError → 404, NotAllowedError → 406, anything else → 500. |
| `CoreDecorators.PrintArgs` | ggongsul/core/decorators.py:26-37 | One log line per argument; a request is logged as its data without "password". A plain dict loses "password" in place, and a QueryDict's data is left as it was. |
| `CorePermissions.FirstMatch` | ggongsul/core/permissions.py:10-11 | The first mapping entry, in order, whose action list contains the action, or none. |
| `CorePermissions.ActionBasedPermission` | ggongsul/core/permissions.py:9-13 | Allowed iff some entry lists the action, no earlier entry does, and that entry's class allows. An empty mapping or no listing entry denies. |
| `CorePermissions.EarlierEntryWins` | ggongsul/core/permissions.py:10-12 | The verdict is the first listing entry's class verdict, whatever later entries say. |
| `CorePermissions.HasMembershipBenefitsPermission` | ggongsul/core/permissions.py:16-22 | Allowed iff the user is present, authenticated and has benefits. |
| `CorePermissions.PermissionAsWrittenIgnoresBenefits` | ggongsul/core/permissions.py:21 | The literal reading admits an authenticated user without benefits, whom the intended check refuses. |
| `CommonUtils.SendSlackMsg` | ggongsul/common/utils.py:24-63 | Performs exactly one send, the message the Slack message specification describes. |
| `CommonUtils.SlackMessageSpec` | ggongsul/common/utils.py:33-63 | An explicit client is used whatever the level; otherwise "good" goes to the info webhook and every other level to the error webhook. Given attachments are sent as-is under the title. Otherwise one attachment is built: title, color = level value, text iff truthy, one short field per dict entry in order or a list kept as-is. |
| `CommonUtils.LevelFormsAgree` | ggongsul/common/utils.py:33-34 | An enum level and its value string give the same message. |
| `VisitationSerializers.Verdict` | ggongsul/visitation/serializers.py:24-40 | Accepted iff the partner is active, the cert_num matches, and there is no visit to that partner after today's midnight. Failures are reported in that order. |
| `VisitationSerializers.Validate` | ggongsul/visitation/serializers.py:19-42 | Returns the verdict; member is always set to the requesting user. cert_num is deleted once it matched, so accepted attrs have none; it stays after an inactive-partner or mismatch rejection. |
| `VisitationSerializers.SameDayBoundary` | ggongsul/visitation/serializers.py:34-40 | A past visit blocks iff it is on today's date and not at exactly 00:00:00. |
| `VisitationSerializers.OncePerPartnerPerDay` | ggongsul/visitation/serializers.py:37-40 | Today's visit to one partner does not block another partner, nor the same partner a day later. |
| `ReviewSerializers.PkText` | ggongsul/review/serializers.py:28 | A non-negative integer pk is shown as decimal text that reads back as the pk. |
| `ReviewSerializers.ToInternalValue` | ggongsul/review/serializers.py:23-30 | A number, boolean (as 0 or 1) or digit string naming an image returns it. One naming none is does_not_exist, carrying the pk as sent. Null is always does_not_exist ("None"). Non-numeric text or another type is incorrect_type. |
| `ReviewSerializers.NullAndBoolPks` | ggongsul/review/serializers.py:26-28 | Null is does_not_exist, never incorrect_type. A boolean pk finds exactly what its integer finds. |
| `ReviewSerializers.PkRoundTrip` | ggongsul/review/serializers.py:23-33 | An image read back by its id, as a number or as text, is that image, and its representation is its URL. |
| `ReviewSerializers.MissingPkIsDoesNotExist` | ggongsul/review/serializers.py:26-28 | An unknown id is does_not_exist, never incorrect_type. |
| `ReviewSerializers.FirstAttached` | ggongsul/review/serializers.py:43-44 | The first image in list order already attached to a review, with none attached before it; none iff no image is attached. |
| `ReviewSerializers.AttachedMessageInjective` | ggongsul/review/serializers.py:45-47 | The error message names the image: different ids give different messages. |
| `ReviewSerializers.Validate` | ggongsul/review/serializers.py:41-49 | Attrs without images, as a partial update that omits them gives, end in the KeyError of `attrs["images"]`, and only they do. Otherwise it is accepted iff no image is attached to a review (an empty list included), returning the attrs unchanged, and else fails with the message naming the first attached image. |
| `ReviewModels.Stars` | ggongsul/review/models.py:29-33 | The label of choice n is n stars. |
| `ReviewModels.RatingLabel` | ggongsul/review/models.py:50-52 | A rating_score is accepted iff it is one of the choices 1..5, and it is labelled with that many stars. |
| `ReviewModels.RatingLabelInjective` | ggongsul/review/models.py:28-33 | Different choices have different labels. |
| `CommunityModels.Post.constructor` | ggongsul/community/models.py:47-48 | A new post is not deleted and has no deleted_on. |
| `CommunityModels.Post.ShortBody` | ggongsul/community/models.py:70-71 | short_body is the whole body, character for character, not shortened. |
| `CommunityModels.Comment.constructor` | ggongsul/community/models.py:92-93 | A new comment is not deleted and has no deleted_on. |
| `CommunityModels.LiveCount` | ggongsul/community/models.py:67-68 | The number of positions holding a live (not deleted) comment of the post, at most the number of rows. |
| `CommunityModels.TotalCommentCnt` | ggongsul/community/models.py:67 | total_comment_cnt is the number of the post's comments that are not deleted, at most all comments. |
| `CommunityModels.LiveCountAppend` | ggongsul/community/models.py:68 | A new row adds one to its post's count iff it is a live comment of that post. |
| `CommunityModels.LiveCountAfterDelete` | ggongsul/community/models.py:68 | Soft-deleting a row lowers its post's count by one if it was live; every other post's count stays. |
| `CommunityModels.LiveAttentions` | ggongsul/community/models.py:65 | The post's attentions with is_deleted false, and only those. |
| `CommunityModels.TotalAttentionCnt` | ggongsul/community/models.py:64-65 | total_attention_cnt counts the post's non-deleted attentions, at most all attentions. |
| `CommunityModels.AttentionCntCountsMembers` | ggongsul/community/models.py:131-134 | With at most one attention per (post, member), the count is the number of members with a live attention. |
| `CommunityModels.OneCommentPerMemberAsWritten` | ggongsul/community/models.py:84-89 | As declared (one-to-one), a member whose only comment is deleted still cannot comment on any post. |
| `CommunityModels.AddComment` | ggongsul/community/models.py:77-89 | As intended (many per member), a new comment is appended and adds one to its post's count iff it is live. |
| `CommunityViews.PostQueryset` | ggongsul/community/views.py:27 | Every post in the listing is a non-deleted post, and every non-deleted post is listed. |
| `CommunityViews.CommentQueryset` | ggongsul/community/views.py:81 | Every comment in the listing is a non-deleted comment, and every non-deleted comment is listed. |
| `CommunityViews.PerformDestroyPost` | ggongsul/community/views.py:56-60 | is_deleted = true and deleted_on = now, and the post is kept. The listing loses exactly that post. |
| `CommunityViews.PerformDestroyComment` | ggongsul/community/views.py:96-100 | is_deleted = true and deleted_on = now; only that row changes. The listing loses exactly it, and its post's count drops by one if it was live. |
| `CommunityViews.Tap` | ggongsul/community/views.py:67-71 | The first tap creates a live attention without toggling it. A later tap flips is_deleted. No other attention changes. |
| `CommunityViews.TapTwiceRestores` | ggongsul/community/views.py:69-71 | Two taps on an existing attention restore it. |
| `CommunityViews.TapSequence` | ggongsul/community/views.py:67-71 | Taps on a new (post, member) go live, deleted, live. |
| `CommunityViews.LiveAfterTap` | ggongsul/community/views.py:70 | A tap removes the key from, or adds it to, its post's live set and leaves other posts' sets alone. |
| `CommunityViews.TapCount` | ggongsul/community/views.py:62-73 | A tap moves the post's attention count by exactly one: down when un-liking, up otherwise. Other posts keep their counts. |
| `CommunityViews.AttentionTable.TabAttention` | ggongsul/community/views.py:62-73 | A deleted post is not found and nothing changes; otherwise the member's attention is tapped. |
| `CommunityViews.PostPermissionClasses` | ggongsul/community/views.py:37-43 | IsObjectOwnerMember iff the action is destroy or update; otherwise IsAuthenticatedOrReadOnly. |
| `CommunityViews.CommentPermissionClasses` | ggongsul/community/views.py:85-89 | The same choice, written as a membership test. |
| `CommunityViews.SamePermissionChoice` | ggongsul/community/views.py:85-89 | Posts and comments choose alike for every action; partial_update is not owner-only. |
| `CommunityViews.OwnerOnlyPermissionClasses` | ggongsul/community/views.py:37-43 | The intended choice: owner-only iff the action is destroy, update or partial_update. |
| `CommunityViews.PartialUpdateOpenToAnyMember` | ggongsul/community/views.py:37-43 | As written, partial_update only needs an authenticated user, where the owner-only intent refuses it; for every other action the two choices agree. |

## Left out

- The HTTP clients (IMPHelper, Kakao login, JWT) are network or library code. The gateway is an oracle from request to response, and a response may be a refusal.
- `renew_subscription`, which the sweep dispatches, is not defined by the Membership model, so a dispatch is recorded as the member id only.
- The haversine distance and ordering in DistanceFilterBackend are floating point SQL and are not modelled.
- Slack delivery, logging, threads in signals, Celery, and `transaction.atomic` locking are left out. Atomicity is modelled as "a refused charge leaves no change".
- Real sleeping is a recorded list of durations.
- Time zones: every time is UTC seconds, and `replace(hour=0, …)` is the UTC midnight.
- ggongsul/core/exceptions.py is not part of this model. The exception kinds that `api_status_response` catches are treated as unrelated classes.
- membership/serializers.py imports `MemberShip`, a name membership/models.py does not define. The model assumes `Membership` was meant.
- The Partner model shown has no `cert_num` field, which the visitation serializer reads. The model gives Partner one.
- As written, create_subscription passes validity_days=None to the NOT NULL column whenever its caller omits it, and process_subscribe always omits it. So every subscribe that opens a period, free or paid, fails with an integrity error and its transaction is rolled back. `MembershipModels.CreateSubscriptionAsWritten` models that failure; the rest of the model uses the corrected `MembershipModels.CreateSubscription` (see Findings). The database error itself is modelled only as `RowError`.
- The signal's `Membership.objects.get` for a saved id whose row is gone is not modelled. The stored value is an `Option<bool>`, and None means a new row.
- `MembershipTasks.CheckExpireMembership`: one `now` serves the whole sweep. Time passing between members is not modelled.
- `CoreFilters.CoordinateOkIff`: `str.isnumeric` is modelled on ASCII digits only. Python also accepts other Unicode numeric characters.
- `ReviewSerializers.ToInternalValue`: text that `int()` would also accept (a sign, surrounding spaces, underscores) counts as incorrect_type here. A float pk, which Django truncates, is an "other type".
- `PartnerModels.CreatePartnerDetail`: obj_data values are strings. The row creation after the token is set (`super().create`) is not modelled.
- `CoreDecorators.PrintArgs`: a QueryDict is flattened to a plain map, so multiple values per key are not modelled.
- `MembershipModels.RefundTarget`: its own contract only bounds the index. Which payment it names is stated by `MembershipModels.Membership.ProcessUnsubscribe` and `MembershipModels.EarliestEndingIndex`.
- Uniqueness of `payment_uid` across payments depends on the random token and is not modelled.
- The listings' paging, ordering filters and serializer choice in the community and review views are not modelled.

## Findings

| source | as written | input that shows it | evidently intended | confidence | as-written member | corrected member |
|---|---|---|---|---|---|---|
| ggongsul/membership/models.py:47 | `has_membership_benefits` is tested without being called, so the bound method is always truthy | any member, e.g. one with no subscription: subscribe only reactivates and opens no period | call the predicate and open a period when no benefits remain | high, not executed | `MembershipModels.SubscribeAsWrittenNeverOpensPeriod` | `MembershipModels.PlanSubscribe` |
| ggongsul/membership/models.py:113-127 | validity_days=None is passed to objects.create, which overrides the field default of 30 and violates NOT NULL | any subscribe that opens a period (a member without benefits, first or later subscription) | omit None so that the column default 30 is stored | high, not executed | `MembershipModels.PeriodPlansFailAsWritten` | `MembershipModels.CreateSubscription` |
| ggongsul/membership/serializers.py:16 | `is_membership_activated` is tested without being called, so every subscribe is rejected as already subscribed (the billing-key test at line 19 has the same defect and is never reached) | a member with no membership and a billing key | call both predicates: reject activated members, then members without a key | high, not executed | `MembershipSerializers.SubscribeAsWrittenRejectsEveryone` | `MembershipSerializers.SubscribeGate` |
| ggongsul/membership/serializers.py:30 | `not` of the bound method is always False, so unsubscribe never rejects | a member whose membership is inactive | reject members whose membership is not activated | high, not executed | `MembershipSerializers.UnsubscribeAsWrittenAdmitsInactive` | `MembershipSerializers.UnsubscribeGate` |
| ggongsul/core/permissions.py:21 | `has_membership_benefits` is not called, so the last conjunct is always truthy | an authenticated user without benefits is admitted | require benefits | high, not executed | `CorePermissions.PermissionAsWrittenIgnoresBenefits` | `CorePermissions.HasMembershipBenefitsPermission` |
| ggongsul/community/views.py:37-43 | only destroy and update are owner-only, so partial_update falls to IsAuthenticatedOrReadOnly (the same at lines 85-89 for comments) | any authenticated member sends PATCH to another member's post or comment | partial_update owner-only like update | medium, not executed | `CommunityViews.PartialUpdateOpenToAnyMember` | `CommunityViews.OwnerOnlyPermissionClasses` |
| ggongsul/community/models.py:84-89 | `Comment.member` is one-to-one, so a member can own one comment row ever, and soft delete keeps the row | a member who commented once, then deleted it, comments on another post | a foreign key (the related name is "comments"), allowing many comments per member | medium, not executed | `CommunityModels.OneCommentPerMemberAsWritten` | `CommunityModels.AddComment` |

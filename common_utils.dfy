/**
 * send_slack_msg (ggongsul/common/utils.py): choose the webhook and build the one
 * message it sends. The webhook call itself is the value returned; its retries
 * belong to exponential_backoff_retry (module CoreDecorators).
 */
module CommonUtils {
  import opened Wrappers

  /** SlackAlertLevel (ggongsul/common/enums.py) and its values. */
  datatype SlackAlertLevel = Info | Warning | Danger

  function LevelValue(l: SlackAlertLevel): string
  {
    match l
    case Info => "good"
    case Warning => "warning"
    case Danger => "danger"
  }

  /** alert_level is either a SlackAlertLevel member or a plain string. */
  datatype AlertLevel = Level(level: SlackAlertLevel) | LevelText(text: string)

  function AlertLevelValue(a: AlertLevel): string
  {
    match a
    case Level(l) => LevelValue(l)
    case LevelText(s) => s
  }

  /** The client a message goes to: the one passed in (by handle), or a configured webhook. */
  datatype Webhook = Given(handle: nat) | InfoWebhook | ErrorWebhook

  /** One entry of an attachment's "fields" list. */
  datatype Field = Field(title: string, value: string, short: bool)

  /**
   * The fields argument: a list passed through as it is, or a dict whose keys and
   * values are given already rendered by str(), in iteration order.
   */
  datatype Fields = FieldList(items: seq<Field>) | FieldDict(entries: seq<(string, string)>)

  datatype Attachment = Attachment(title: string, color: string, text: Option<string>, fields: Option<seq<Field>>)

  /** One call of slack.send. */
  datatype SlackSend = SlackSend(webhook: Webhook, text: Option<string>, attachments: seq<Attachment>)

  /** Python truthiness of the optional arguments. */
  predicate TextTruthy(text: Option<string>) { text.Some? && text.value != "" }

  predicate FieldsTruthy(fields: Option<Fields>)
  {
    match fields
    case None => false
    case Some(FieldList(items)) => items != []
    case Some(FieldDict(entries)) => entries != []
  }

  predicate AttachmentsTruthy(attachments: Option<seq<Attachment>>) { attachments.Some? && attachments.value != [] }

  function Route(slackClient: Option<nat>, level: string): Webhook
  {
    if slackClient.Some? then Given(slackClient.value)
    else if level == LevelValue(Info) then InfoWebhook
    else ErrorWebhook
  }

  /** The "fields" entry of a built attachment. */
  function FieldEntries(fields: Fields): seq<Field>
  {
    match fields
    case FieldList(items) => items
    case FieldDict(entries) => seq(|entries|, i requires 0 <= i < |entries| => Field(entries[i].0, entries[i].1, true))
  }

  /** The message send_slack_msg sends, as one expression. */
  function SlackMessage(title: string, text: Option<string>, fields: Option<Fields>, attachments: Option<seq<Attachment>>,
                        alertLevel: AlertLevel, slackClient: Option<nat>): SlackSend
  {
    var level := AlertLevelValue(alertLevel);
    var slack := Route(slackClient, level);
    if AttachmentsTruthy(attachments) then SlackSend(slack, Some(title), attachments.value)
    else
      SlackSend(slack, None, [Attachment(title, level,
                                         if TextTruthy(text) then text else None,
                                         if FieldsTruthy(fields) then Some(FieldEntries(fields.value)) else None)])
  }

  /**
   * send_slack_msg: normalise the level, pick the client, then either forward the
   * given attachments or build one attachment key by key.
   */
  method SendSlackMsg(title: string, text: Option<string>, fields: Option<Fields>, attachments: Option<seq<Attachment>>,
                      alertLevel: AlertLevel, slackClient: Option<nat>)
    returns (sent: SlackSend)
    ensures sent == SlackMessage(title, text, fields, attachments, alertLevel, slackClient)
  {
    var level := AlertLevelValue(alertLevel);
    var slack: Webhook;
    if slackClient.Some? {
      slack := Given(slackClient.value);
    } else if level == LevelValue(Info) {
      slack := InfoWebhook;
    } else {
      slack := ErrorWebhook;
    }
    if attachments.Some? && attachments.value != [] {
      return SlackSend(slack, Some(title), attachments.value);
    }
    var attachment := Attachment(title, level, None, None);
    if text.Some? && text.value != "" {
      attachment := attachment.(text := text);
    }
    if fields.Some? {
      match fields.value {
        case FieldList(items) =>
          if items != [] {
            attachment := attachment.(fields := Some(items));
          }
        case FieldDict(entries) =>
          if entries != [] {
            attachment := attachment.(fields := Some(FieldEntries(fields.value)));
          }
      }
    }
    sent := SlackSend(slack, None, [attachment]);
  }

  /**
   * What send_slack_msg promises: an explicit client wins; otherwise "good" goes to
   * the info webhook and every other level to the error webhook. Given attachments
   * are forwarded as they are under the title; otherwise exactly one attachment is
   * built, titled, coloured by the level, with the text only when non-empty and one
   * short field per dict entry in order (a list of fields is kept as it is).
   */
  lemma SlackMessageSpec(title: string, text: Option<string>, fields: Option<Fields>, attachments: Option<seq<Attachment>>,
                         alertLevel: AlertLevel, slackClient: Option<nat>)
    ensures var m := SlackMessage(title, text, fields, attachments, alertLevel, slackClient);
            && (slackClient.Some? ==> m.webhook == Given(slackClient.value))
            && (slackClient.None? ==> m.webhook in {InfoWebhook, ErrorWebhook})
            && (slackClient.None? ==> (m.webhook == InfoWebhook <==> AlertLevelValue(alertLevel) == "good"))
            && (AttachmentsTruthy(attachments) ==> m.text == Some(title) && m.attachments == attachments.value)
            && (!AttachmentsTruthy(attachments) ==>
                  && m.text == None && |m.attachments| == 1
                  && m.attachments[0].title == title
                  && m.attachments[0].color == AlertLevelValue(alertLevel)
                  && (m.attachments[0].text.Some? <==> TextTruthy(text))
                  && (TextTruthy(text) ==> m.attachments[0].text == text)
                  && (m.attachments[0].fields.Some? <==> FieldsTruthy(fields))
                  && (fields.Some? && fields.value.FieldList? && FieldsTruthy(fields) ==>
                        m.attachments[0].fields == Some(fields.value.items))
                  && (fields.Some? && fields.value.FieldDict? && FieldsTruthy(fields) ==>
                        var es := fields.value.entries;
                        var fs := m.attachments[0].fields.value;
                        |fs| == |es| && forall i :: 0 <= i < |es| ==> fs[i] == Field(es[i].0, es[i].1, true)))
  {
  }

  /** A level given as the enum member and as its value string route and colour alike. */
  lemma LevelFormsAgree(l: SlackAlertLevel, title: string, text: Option<string>, fields: Option<Fields>,
                        attachments: Option<seq<Attachment>>, slackClient: Option<nat>)
    ensures SlackMessage(title, text, fields, attachments, Level(l), slackClient)
         == SlackMessage(title, text, fields, attachments, LevelText(LevelValue(l)), slackClient)
  {
  }
}

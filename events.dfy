/** How the two real-time events, `issue:status` and `issue:updated`, are turned into a
    notification: a message and a severity. */
module Events {
  import opened Js

  /** The notification kinds the front end knows. */
  datatype Severity = Success | Error | Warning | Info

  /** What a handler hands to the notification system. */
  datatype Notice = Notice(message: string, severity: Severity)

  /** The payload of a real-time event; any field may be missing. */
  datatype StatusEvent = StatusEvent(status: Option<string>, title: Option<string>, message: Option<string>)

  /** The object literal the `issue:status` handler indexes with the event's status. */
  const SeverityTable: map<string, Severity> :=
    map["approved" := Success, "rejected" := Error, "on-hold" := Warning,
        "in-progress" := Info, "resolved" := Success]

  /** `{...}[data.status] || 'info'`: a total mapping, `info` for any status not in the table
      (including `pending` and a missing status). */
  function StatusSeverity(status: Option<string>): (r: Severity)
    ensures r == Success <==> status == Some("approved") || status == Some("resolved")
    ensures r == Error <==> status == Some("rejected")
    ensures r == Warning <==> status == Some("on-hold")
    ensures r == Info <==> !(status.Some? && status.value in {"approved", "resolved", "rejected", "on-hold"})
  {
    if status.Some? && status.value in SeverityTable then SeverityTable[status.value] else Info
  }

  const StatusLead := "Your \""
  const StatusLink := "\" report has been "
  const DefaultStatusTitle := "Your issue"

  /** The template `Your "${issueTitle}" report has been ${data.status}`. */
  function StatusText(title: string, status: string): string
  {
    StatusLead + title + StatusLink + status
  }

  const UpdateLead := "\""
  const UpdateLink := "\" status updated to "
  const DefaultUpdateTitle := "Issue"

  /** The template `"${issueTitle}" status updated to ${data.status}`. */
  function UpdateText(title: string, status: string): string
  {
    UpdateLead + title + UpdateLink + status
  }

  /** `m` is `lead`, then `title`, then `link`, then `status`, read slot by slot. */
  predicate Slots(m: string, lead: string, title: string, link: string, status: string)
  {
    var a, b, c := |lead|, |lead| + |title|, |lead| + |title| + |link|;
    && |m| == c + |status|
    && m[..a] == lead
    && m[a..b] == title
    && m[b..c] == link
    && m[c..] == status
  }

  /** The text the `issue:status` handler shows and the severity it shows it with. */
  function OnStatus(ev: StatusEvent): (n: Notice)
    ensures n.severity == StatusSeverity(ev.status)
    ensures n.message != ""
    ensures Truthy(ev.message) ==> n.message == ev.message.value
    ensures !Truthy(ev.message) ==>
      Slots(n.message, StatusLead, OrElse(ev.title, DefaultStatusTitle), StatusLink, Interpolate(ev.status))
  {
    var title := OrElse(ev.title, DefaultStatusTitle);
    var text := StatusText(title, Interpolate(ev.status));
    Notice(OrElse(ev.message, text), StatusSeverity(ev.status))
  }

  /** The text the `issue:updated` handler shows; its severity never depends on the status. */
  function OnUpdate(ev: StatusEvent): (n: Notice)
    ensures n.severity == Info
    ensures n.message != ""
    ensures Truthy(ev.message) ==> n.message == ev.message.value
    ensures !Truthy(ev.message) ==>
      Slots(n.message, UpdateLead, OrElse(ev.title, DefaultUpdateTitle), UpdateLink, Interpolate(ev.status))
  {
    var title := OrElse(ev.title, DefaultUpdateTitle);
    var text := UpdateText(title, Interpolate(ev.status));
    Notice(OrElse(ev.message, text), Info)
  }

  /** Helper for `OnStatusTitleRecoverable`: one text filled twice from the same lead and
      link, with statuses of equal length, was filled with the same title and status. */
  lemma SlotsDetermine(m: string, lead: string, link: string, t1: string, s1: string, t2: string, s2: string)
    requires Slots(m, lead, t1, link, s1) && Slots(m, lead, t2, link, s2)
    requires |s1| == |s2|
    ensures t1 == t2 && s1 == s2
  {
    assert |t1| == |t2|;
  }

  /** A synthesised `issue:status` text names the title it was built from and ends with
      the status; so two events with the same status and no message of their own, whose
      texts coincide, carry the same title (or the same default). */
  lemma OnStatusTitleRecoverable(e1: StatusEvent, e2: StatusEvent)
    requires !Truthy(e1.message) && !Truthy(e2.message) && e1.status == e2.status
    requires OnStatus(e1).message == OnStatus(e2).message
    ensures OrElse(e1.title, DefaultStatusTitle) == OrElse(e2.title, DefaultStatusTitle)
  {
    var m := OnStatus(e1).message;
    SlotsDetermine(m, StatusLead, StatusLink,
                   OrElse(e1.title, DefaultStatusTitle), Interpolate(e1.status),
                   OrElse(e2.title, DefaultStatusTitle), Interpolate(e2.status));
  }
}

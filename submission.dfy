/** The report form's submit handler: the required-field check, the request body it
    builds, how the server's answer is read, and what the form looks like afterwards.
    The request itself is not modelled; its result is an input. */
module Submission {
  import opened Js
  import opened Events
  import opened Notifications

  /** The form's controls as the submit handler reads them: text values, and the value of
      the checked priority radio, `None` when none is checked. */
  datatype Draft = Draft(title: string, description: string, category: string,
                         latitude: string, longitude: string, priority: Option<string>,
                         address: string)

  /** The JSON object posted to the server. Latitude and longitude are kept as the text
      the numbers are parsed from. */
  datatype Body = Body(title: string, description: string, category: string,
                       latitude: string, longitude: string, priority: string,
                       address: string)

  const MissingFields := "Please fill in all required fields and set your location"
  const Submitted := "Report submitted successfully! You will be notified of status updates."
  const FailurePrefix := "Failed to submit report: "
  const UnknownError := "Unknown error"
  const NetworkError := "Network error. Please try again."
  const DefaultPriority := "medium"

  /** The body to send, or `None` when a required field is empty: title and description
      after trimming, category, latitude and longitude as they are. */
  function Prepare(d: Draft): (r: Option<Body>)
    ensures r.None? <==>
      Blank(d.title) || Blank(d.description) || d.category == "" || d.latitude == "" || d.longitude == ""
    ensures r.Some? ==> r.value.title == Trim(d.title) && r.value.title != ""
    ensures r.Some? ==> r.value.description == Trim(d.description) && r.value.description != ""
    ensures r.Some? ==> r.value.category == d.category && r.value.latitude == d.latitude
                        && r.value.longitude == d.longitude && r.value.address == d.address
    ensures r.Some? && Truthy(d.priority) ==> r.value.priority == d.priority.value
    ensures r.Some? && !Truthy(d.priority) ==> r.value.priority == DefaultPriority
  {
    var title := Trim(d.title);
    var description := Trim(d.description);
    if title == "" || description == "" || d.category == "" || d.latitude == "" || d.longitude == "" then
      None
    else
      Some(Body(title, description, d.category, d.latitude, d.longitude,
                OrElse(d.priority, DefaultPriority), d.address))
  }

  /** The parsed response body: `null`, or any other JSON value, whose `message` property
      may be a string or missing. */
  datatype Json = JsonNull | JsonValue(message: Option<string>)

  /** What awaiting `fetch` and `res.json()` produced: a response whose body parsed, or a
      failure of either (network error, body that is not JSON). */
  datatype Reply = Response(ok: bool, json: Json) | NoResponse

  /** The three ways a sent report ends. */
  datatype Outcome = Accepted | ServerErr(message: Option<string>) | TransportErr

  /** A non-ok response whose body is `null` fails when the handler reads `json.message`,
      and lands in the same `catch` as a network failure. */
  function Classify(reply: Reply): (o: Outcome)
    ensures o.Accepted? <==> reply.Response? && reply.ok
    ensures o.ServerErr? <==> reply.Response? && !reply.ok && reply.json.JsonValue?
    ensures o.ServerErr? ==> o.message == reply.json.message
    ensures o.TransportErr? <==> reply.NoResponse? || (!reply.ok && reply.json.JsonNull?)
  {
    match reply
    case NoResponse => TransportErr
    case Response(ok, json) =>
      if ok then Accepted
      else if json.JsonNull? then TransportErr
      else ServerErr(json.message)
  }

  /** The notification each outcome publishes. */
  function OutcomeNotice(o: Outcome): (n: Notice)
    ensures n.severity == Success <==> o.Accepted?
    ensures !o.Accepted? ==> n.severity == Error
    ensures o.Accepted? ==> n.message == Submitted
    ensures o.TransportErr? ==> n.message == NetworkError
    ensures o.ServerErr? ==>
      && |FailurePrefix| < |n.message|
      && n.message[..|FailurePrefix|] == FailurePrefix
      && n.message[|FailurePrefix|..] == (if Truthy(o.message) then o.message.value else UnknownError)
  {
    match o
    case Accepted => Notice(Submitted, Success)
    case ServerErr(m) =>
      var reason := OrElse(m, UnknownError);
      assert (FailurePrefix + reason)[|FailurePrefix|..] == reason;
      Notice(FailurePrefix + reason, Error)
    case TransportErr => Notice(NetworkError, Error)
  }

  /** A non-ok answer `{message: "duplicate"}` is reported with that message and is not
      an acceptance, so the draft stays. */
  lemma DuplicateReported()
    ensures Classify(Response(false, JsonValue(Some("duplicate")))) == ServerErr(Some("duplicate"))
    ensures OutcomeNotice(ServerErr(Some("duplicate"))).message[|FailurePrefix|..] == "duplicate"
  {
  }

  /** The report form. */
  class ReportForm {
    /** The values the form's markup gives its controls, which `reset()` restores. */
    const defaults: Draft
    /** The current values of the controls and of the location text. */
    var fields: Draft
    /** The markup of the image preview. */
    var preview: string

    constructor (defaults: Draft)
      ensures this.defaults == defaults && fields == defaults && preview == ""
    {
      this.defaults := defaults;
      fields := defaults;
      preview := "";
    }

    /** After an accepted report: `reset()` restores title, description, category and
        priority; the handler then empties the preview, the location text and the
        coordinates explicitly. */
    method Clear()
      modifies this`fields, this`preview
      ensures fields == Draft(defaults.title, defaults.description, defaults.category,
                              "", "", defaults.priority, "")
      ensures preview == ""
    {
      fields := Draft(defaults.title, defaults.description, defaults.category,
                      fields.latitude, fields.longitude, defaults.priority, fields.address);
      preview := "";
      fields := fields.(address := "");
      fields := fields.(latitude := "", longitude := "");
    }
  }

  /** The submit handler, with `reply` standing for what the request would produce. It
      returns the body it sends (`None`: nothing is sent) and whether the reports list is
      refreshed. */
  method Submit(form: ReportForm, center: NotificationCenter, reply: Reply)
      returns (sent: Option<Body>, refresh: bool)
    requires center.Valid()
    modifies form, center
    ensures center.Valid()
    ensures sent == Prepare(old(form.fields))
    ensures sent.None? ==> center.log == old(center.log) + [Notice(MissingFields, Error)]
    ensures sent.Some? ==> center.log == old(center.log) + [OutcomeNotice(Classify(reply))]
    ensures var n := if sent.None? then Notice(MissingFields, Error) else OutcomeNotice(Classify(reply));
      && (center.hasList ==>
            && |center.entries| == |old(center.entries)| + 1
            && center.entries[0].notice == n
            && center.entries[1..] == old(center.entries))
      && (!center.hasList ==> center.entries == old(center.entries))
      && (center.hasToast ==> center.toast == Some(n) && center.toastVisible)
    ensures center.hasList ==> center.entries[0].id !in old(center.expiring)
                               && center.expiring == old(center.expiring) + {center.entries[0].id}
    ensures !center.hasList ==> center.expiring == old(center.expiring)
    ensures center.hasToast ==> center.toastTimers == old(center.toastTimers) + 1
    ensures !center.hasToast ==> center.toast == old(center.toast)
                                 && center.toastVisible == old(center.toastVisible)
                                 && center.toastTimers == old(center.toastTimers)
    ensures refresh <==> sent.Some? && Classify(reply).Accepted?
    ensures refresh ==> form.fields == Draft(form.defaults.title, form.defaults.description,
                                             form.defaults.category, "", "",
                                             form.defaults.priority, "")
                        && form.preview == ""
    ensures !refresh ==> form.fields == old(form.fields) && form.preview == old(form.preview)
  {
    sent := Prepare(form.fields);
    refresh := false;
    if sent.None? {
      var _ := center.Publish(Notice(MissingFields, Error));
      return;
    }
    var outcome := Classify(reply);
    var _ := center.Publish(OutcomeNotice(outcome));
    if outcome.Accepted? {
      form.Clear();
      refresh := true;
    }
  }
}

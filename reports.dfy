/** The reports list: how a snapshot of public reports becomes what the list shows. */
module Reports {
  import opened Js
  import opened Events

  /** One report as the listing returns it; any field may be missing. `address` is
      `location?.address`, missing when the location or its address is. */
  datatype Issue = Issue(title: Option<string>, status: Option<string>, category: Option<string>,
                         priority: Option<string>, address: Option<string>)

  /** What fetching and parsing the listing produced. `Unavailable`: the request failed,
      the body was not JSON, or it was `null`. Otherwise the `issues` property, `None` when
      it is missing or falsy, whose elements are `None` when they are `null`. */
  datatype Snapshot = Unavailable | Payload(issues: Option<seq<Option<Issue>>>)

  /** The badge colours of the list. */
  datatype Colour = Yellow | Green | Red | Gray | Blue | Purple

  const StatusColours: map<string, Colour> :=
    map["pending" := Yellow, "approved" := Green, "rejected" := Red,
        "on-hold" := Gray, "in-progress" := Blue, "resolved" := Purple]

  const PriorityColours: map<string, Colour> :=
    map["low" := Green, "medium" := Yellow, "high" := Red]

  /** The status badge colour: a total mapping, gray for any status not in the table. */
  function StatusColour(status: Option<string>): (c: Colour)
    ensures c == Yellow <==> status == Some("pending")
    ensures c == Green <==> status == Some("approved")
    ensures c == Red <==> status == Some("rejected")
    ensures c == Blue <==> status == Some("in-progress")
    ensures c == Purple <==> status == Some("resolved")
    ensures c == Gray <==>
      !(status.Some? && status.value in {"pending", "approved", "rejected", "in-progress", "resolved"})
  {
    if status.Some? && status.value in StatusColours then StatusColours[status.value] else Gray
  }

  /** The priority colour: a total mapping, gray for any priority not in the table. */
  function PriorityColour(priority: Option<string>): (c: Colour)
    ensures c == Green <==> priority == Some("low")
    ensures c == Yellow <==> priority == Some("medium")
    ensures c == Red <==> priority == Some("high")
    ensures c == Gray <==> !(priority.Some? && priority.value in {"low", "medium", "high"})
  {
    if priority.Some? && priority.value in PriorityColours then PriorityColours[priority.value] else Gray
  }

  const NoLocation := "Location not specified"

  /** What one row shows. */
  datatype Row = Row(title: string, status: string, statusColour: Colour, category: string,
                     priority: string, priorityColour: Colour, place: string)

  /** The list's content: whatever the page's markup put there, one of the two
      placeholders, or rows. */
  datatype View = Static | NoReports | LoadFailed | Rows(rows: seq<Row>)

  const MaxRows := 10

  /** The row of one report. Its place is never empty. */
  function RowOf(i: Issue): (r: Row)
    ensures r.place != ""
    ensures !Truthy(i.address) ==> r.place == NoLocation
    ensures Truthy(i.address) ==> r.place == i.address.value
    ensures r.statusColour == StatusColour(i.status) && r.priorityColour == PriorityColour(i.priority)
  {
    Row(Interpolate(i.title), Interpolate(i.status), StatusColour(i.status), Interpolate(i.category),
        Interpolate(i.priority), PriorityColour(i.priority), OrElse(i.address, NoLocation))
  }

  /** The rows of `items` in order, or `None` when one of them is `null`: reading a field
      of it throws. */
  function RowsOf(items: seq<Option<Issue>>): (r: Option<seq<Row>>)
    ensures r.Some? <==> forall k :: 0 <= k < |items| ==> items[k].Some?
    ensures r.Some? ==> |r.value| == |items|
    ensures r.Some? ==> forall k :: 0 <= k < |items| ==> r.value[k] == RowOf(items[k].value)
  {
    if items == [] then Some([])
    else if items[0].None? then None
    else
      var rest := RowsOf(items[1..]);
      if rest.None? then None
      else
        Some([RowOf(items[0].value)] + rest.value)
  }

  /** The first `MaxRows` entries, as `slice(0, 10)` takes them. */
  function Shown(items: seq<Option<Issue>>): (r: seq<Option<Issue>>)
    ensures |r| == if |items| < MaxRows then |items| else MaxRows
    ensures r == items[..|r|]
  {
    if |items| < MaxRows then items else items[..MaxRows]
  }

  /** What the list shows for a snapshot. */
  function Render(s: Snapshot): (v: View)
    ensures v != Static
    ensures v == NoReports <==> s.Payload? && (s.issues.None? || s.issues.value == [])
    ensures v == LoadFailed <==>
      s.Unavailable? ||
      (s.issues.Some? && exists k :: 0 <= k < |Shown(s.issues.value)| && Shown(s.issues.value)[k].None?)
    ensures v.Rows? ==> s.Payload? && s.issues.Some? && s.issues.value != []
    ensures v.Rows? ==> |v.rows| == |Shown(s.issues.value)|
    ensures v.Rows? ==> forall k :: 0 <= k < |v.rows| ==> v.rows[k] == RowOf(s.issues.value[k].value)
  {
    match s
    case Unavailable => LoadFailed
    case Payload(issues) =>
      if issues.None? || issues.value == [] then NoReports
      else
        var rows := RowsOf(Shown(issues.value));
        if rows.None? then LoadFailed else Rows(rows.value)
  }

  /** Nothing after the tenth report affects the list. */
  lemma RenderIgnoresTail(items: seq<Option<Issue>>, more: seq<Option<Issue>>)
    requires |items| >= MaxRows
    ensures Render(Payload(Some(items + more))) == Render(Payload(Some(items)))
  {
    assert Shown(items + more) == Shown(items);
  }

  /** Fifteen well-formed reports show as exactly their first ten. */
  lemma FifteenShowTen(items: seq<Issue>)
    requires |items| == 15
    ensures var v := Render(Payload(Some(seq(15, k requires 0 <= k < 15 => Some(items[k])))));
      v.Rows? && |v.rows| == 10 && forall k :: 0 <= k < 10 ==> v.rows[k] == RowOf(items[k])
  {
    var wrapped := seq(15, k requires 0 <= k < 15 => Some(items[k]));
    assert forall k :: 0 <= k < |Shown(wrapped)| ==> Shown(wrapped)[k] == Some(items[k]);
  }

  /** A status that severity and badge treat alike: a rejection is red and an error; an
      approval or resolution is a success in green or purple. */
  lemma SeverityAgreesWithColour(status: Option<string>)
    ensures StatusSeverity(status) == Error <==> StatusColour(status) == Red
    ensures StatusSeverity(status) == Success <==> StatusColour(status) in {Green, Purple}
  {
  }

  /** The list element; `present` is whether the page has one. */
  class ReportsPanel {
    const present: bool
    var view: View

    constructor (present: bool)
      ensures this.present == present && view == Static
    {
      this.present := present;
      view := Static;
    }

    /** `loadMyReports` once the snapshot is in: empties the list, then shows a
        placeholder or appends one row per shown report; a `null` report stops the loop
        and the failure placeholder replaces what was appended. Without a list element
        nothing happens. */
    method Refresh(s: Snapshot)
      modifies this`view
      ensures view == if present then Render(s) else old(view)
    {
      if !present {
        return;
      }
      if s.Unavailable? {
        view := LoadFailed;
        return;
      }
      view := Rows([]);
      if s.issues.None? || |s.issues.value| == 0 {
        view := NoReports;
        return;
      }
      var shown := Shown(s.issues.value);
      var rows: seq<Row> := [];
      var i := 0;
      while i < |shown|
        invariant 0 <= i <= |shown|
        invariant forall k :: 0 <= k < i ==> shown[k].Some?
        invariant |rows| == i
        invariant forall k :: 0 <= k < i ==> rows[k] == RowOf(shown[k].value)
        invariant view == Rows(rows)
      {
        if shown[i].None? {
          view := LoadFailed;
          return;
        }
        rows := rows + [RowOf(shown[i].value)];
        view := Rows(rows);
        i := i + 1;
      }
    }
  }
}

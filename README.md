# VoiceUp front end: the rules behind what the page shows

A Dafny model of the decision rules in the citizen issue-reporting front end
(`app.js`). The file is mostly DOM glue. What it decides, modelled here:

- **Event normalisation** (`Events`): the `issue:status` and `issue:updated` real-time events each become a notice, which is a message plus a severity.
  - Severity comes from a total table with an `info` default.
  - The message is the event's own message when it is truthy. Otherwise it is a template with a default title.
- **Notification centre** (`Notifications`): a class holding the visible list, most recent first, and the single toast slot.
  - Publishing puts a new element at the head and overwrites the toast.
  - The dismiss button removes an element at once.
  - Removal and toast-hide timers are explicit events that the caller fires.
  - An expiry timer removes its element only while it is still attached.
- **Report submission** (`Submission`):
  - The required-field check runs on the trimmed title and description, and on category, latitude and longitude as they are.
  - The request body gets a priority default of `medium`.
  - The server's answer is classified as accepted, server error or transport error.
  - The published notice depends on that class. The form is cleared only on acceptance.
- **Reports list** (`Reports`):
  - A pure `Render` function maps a snapshot to what the list shows: one of two placeholders, or at most ten rows in source order.
  - Status and priority colours are total tables with a gray default. The place falls back to `Location not specified`.
  - A `ReportsPanel` class whose `Refresh` method runs the source's append loop and is proved to agree with `Render`.
- `Js` holds the JavaScript value rules used throughout:
  - `undefined` is `None`.
  - A string is truthy when it is present and non-empty.
  - `${undefined}` interpolates as the word `undefined`.
  - `String.prototype.trim` is modelled over the ECMAScript whitespace and line-terminator characters.

Network requests, timers and the socket transport are not run. Their results are inputs:
- a `Reply` for the submission request;
- a `Snapshot` for the reports listing;
- a `StatusEvent` for a real-time message;
- a call to `Expire` or `HideToast` for a timer firing.

Five behaviours of `app.js` worth knowing:
- the notification list has no size bound;
- a non-ok reply whose body is `null` shows the network-error text, because reading `json.message` throws inside the `try`;
- an ok reply whose body is not JSON, such as an empty 201 or 204, also shows the network-error text and keeps the draft, because `res.json()` throws before `res.ok` is tested (a `NoResponse` reply, classified as a transport error);
- the reports listing never tests `res.ok`, so a failed listing whose JSON error body has no `issues` shows `No reports found`, not `Failed to load reports`;
- a `null` entry among the first ten reports makes the whole list show `Failed to load reports`.

## Model

| member | source | states |
|---|---|---|
| `Js.Trim` | app.js:155-156 | `trim()` gives the empty string exactly when every character is ECMAScript whitespace; a non-empty result neither starts nor ends with whitespace |
| `Js.TrimIsInfix` | app.js:155-156 | the trimmed text is the contiguous piece of the input that starts after the leading whitespace, and everything before and after it is whitespace |
| `Js.TrimIdempotent` | app.js:155-156 | trimming an already trimmed value changes nothing |
| `Events.StatusSeverity` | app.js:8-14 | `approved`/`resolved` give success, `rejected` error, `on-hold` warning, and every other status (including `in-progress`, `pending`, unknown and missing) gives info: both directions of each case |
| `Events.OnStatus` | app.js:7-19 | severity is the table's; the message is never empty, is `data.message` when truthy, and otherwise reads slot by slot as `Your "`, the title or `Your issue`, `" report has been `, the status |
| `Events.OnUpdate` | app.js:24-28 | severity is always info; the message is never empty, is `data.message` when truthy, and otherwise reads `"`, the title or `Issue`, `" status updated to `, the status |
| `Events.OnStatusTitleRecoverable` | app.js:16-17 | two message-less status events with the same status whose texts coincide name the same title |
| `Notifications.ToneOf` | app.js:45-50 | the colour family of an entry and of the toast: green exactly for success, red exactly for error, yellow exactly for warning, blue exactly for info |
| `Notifications.IconOf` | app.js:52-57 | every severity has a non-empty icon |
| `Notifications.IconsDistinct` | app.js:52-57 | different severities have different icons |
| `Notifications.Without` | app.js:77-79 | detaching an element removes exactly the entries with its identity and keeps the others; detaching an element that is not attached changes nothing |
| `Notifications.WithoutAt` | app.js:77-79 | with distinct identities, removing the element at index k leaves the entries before and after k in order |
| `Notifications.WithoutCount` | app.js:77-79 | a removal takes away one entry when the element is attached and none otherwise: never a double removal |
| `Notifications.WithoutDistinct` | app.js:77-79 | removing keeps element identities distinct |
| `Notifications.PublishThenRemove` | app.js:73-79 | publishing an element and removing it restores the list it was published into |
| `Notifications.NotificationCenter.Publish` | app.js:43-85 | the new element, with a fresh identity, goes at the head and the existing entries keep their order; its expiry timer is scheduled; the toast slot holds this notice and shows it, with one more hide timer; without a list or a toast that part is unchanged |
| `Notifications.NotificationCenter.Dismiss` | app.js:65 | the element is detached at once and the list shrinks by exactly one; its timer remains scheduled |
| `Notifications.NotificationCenter.Expire` | app.js:76-80 | removes the element only if it is still attached, so after a dismissal it leaves the list unchanged; the timer is consumed |
| `Notifications.NotificationCenter.HideToast` | app.js:102-104 | any pending hide timer hides the toast, whichever publish scheduled it |
| `Notifications.DismissThenExpire` | app.js:65-80 | publish, dismiss and a late expiry leave the list as it was before the publish |
| `Notifications.ToastLastWriteWins` | app.js:91-104 | after two publishes the toast holds the second notice, and the first hide timer hides it |
| `Submission.Prepare` | app.js:155-175 | no body exactly when the title or description is blank or category, latitude or longitude is empty; otherwise the body carries the trimmed (non-empty) title and description, the other fields unchanged, and the checked priority or `medium` |
| `Submission.Classify` | app.js:177-196 | accepted exactly for an ok response; server error exactly for a non-ok response with a non-null body, carrying its `message`; transport error for a failed request or a non-ok `null` body |
| `Submission.OutcomeNotice` | app.js:185-198 | success severity exactly on acceptance and error otherwise; a server error reads `Failed to submit report: ` followed by the server message or `Unknown error`; a transport error reads the fixed network-error text |
| `Submission.DuplicateReported` | app.js:193-195 | a non-ok `{message: "duplicate"}` answer is a server error whose notice ends in `duplicate` |
| `Submission.ReportForm.Clear` | app.js:187-191 | title, description, category and priority return to the form's defaults; coordinates, location text and preview become empty |
| `Submission.Submit` | app.js:151-200 | if validation fails, one missing-fields error is published, nothing is sent, the form is unchanged and nothing is refreshed; otherwise the prepared body is sent and exactly one outcome notice is published; that one notice is the new head of the list, the rest of the list unchanged, and it fills and shows the toast; the form is cleared and the list refreshed exactly on acceptance; with a list, the new entry's identity is fresh and only its expiry timer is added to the pending ones, and with a toast exactly one hide timer is added, so timers pending before the call (including a dismissed entry's) stay pending |
| `Reports.StatusColour` | app.js:223-230 | pending yellow, approved green, rejected red, in-progress blue, resolved purple, and gray for on-hold and every other or missing status: both directions |
| `Reports.PriorityColour` | app.js:232-236 | low green, medium yellow, high red, and gray for every other or missing priority: both directions |
| `Reports.RowOf` | app.js:238-251 | a row's place is the report's address when truthy and `Location not specified` otherwise, never empty; its badges follow the two colour tables |
| `Reports.RowsOf` | app.js:219-254 | rows exist exactly when no entry is `null`; then there is one row per entry, in order |
| `Reports.Shown` | app.js:219 | `slice(0, 10)`: the first min(n, 10) entries |
| `Reports.Render` | app.js:204-258 | the `No reports found` placeholder exactly for a missing or empty `issues`; the `Failed to load reports` placeholder exactly for an unavailable snapshot or a `null` among the shown entries; otherwise min(n, 10) rows, the k-th being the k-th report's |
| `Reports.RenderIgnoresTail` | app.js:219 | reports after the tenth never change the list |
| `Reports.FifteenShowTen` | app.js:219 | fifteen reports show as exactly their first ten rows |
| `Reports.SeverityAgreesWithColour` | app.js:223-230 | a status is an error notice exactly when its badge is red, and a success exactly when its badge is green or purple |
| `Reports.ReportsPanel.Refresh` | app.js:204-258 | the loop that empties the list and appends rows leaves exactly `Render(snapshot)`; without a list element nothing changes |

## Left out

- Socket.IO connection and subscription, `fetch` and `res.json()` are network I/O. They enter only as the `StatusEvent`, `Reply` and `Snapshot` inputs.
- The socket handlers call `showNotification` and `loadMyReports`, which are declared inside the `DOMContentLoaded` callback and are not in the handlers' scope. The model gives only the notice each handler computes (`OnStatus`, `OnUpdate`), not that call wiring or the list refresh the handlers request.
- `setTimeout` durations (10 s for a list entry, 5 s for the toast, 2 s for the location button) are wall-clock time. Timers are the explicit events `Expire` and `HideToast`.
- DOM creation, `innerHTML` markup, CSS class strings beyond the colour choice, the timestamp and `toLocaleString`/`toLocaleDateString` are presentation and locale formatting. A `Row` keeps the shown texts and the two colours.
- The mobile menu toggle is pure UI.
- The `console.error` logging in the submit handler's and the reports listing's `catch` blocks (app.js:197, app.js:256) is console output with no visible effect on the page.
- Geolocation, and the `parseFloat`/`toFixed` applied to coordinates, involve a device API and floating point.
- MediaRecorder audio capture, its MIME-type fallback chain, Blob URLs and stream release are device APIs with browser callbacks.
- The interleaving of asynchronous handlers, such as two refreshes in flight where the later answer wins, is left out: each operation is modelled as one atomic step.
- `Submission.Prepare`: latitude and longitude stay as the text the location handler writes into the latitude and longitude inputs, because the body's `parseFloat` values are floating point.
- `Events.StatusSeverity`, `Reports.StatusColour` and `Reports.PriorityColour`: a status or priority that names an inherited object property (`toString`, `constructor`, ...) is treated as absent from the table.
  - In JavaScript the lookup returns that non-string property value.
  - For severity the visible effect is the same as info.
  - For a badge it puts a non-colour class string on the element.
- `Events.OnStatus`, `Events.OnUpdate` and `Reports.RowOf`: fields are strings or missing (`undefined`).
  - A present `null`, which interpolates as `null`, is not distinguished.
  - Non-string values such as numbers, which interpolate as their decimal text, are not distinguished either.
- `Submission.Classify`: a JSON body is either `null` or a value whose `message` is a string or missing. A non-string `message` is not distinguished.
- `Reports.Render`: an `issues` property that is truthy but not an array is not modelled. Neither is a non-null entry that is not an object, which would render as a row of `undefined` fields.
- `Submission.Submit`: assumes the form's inputs, `locationAddress` and `imagePreview` are on the page, since the handler reads them without checking.
  - Without an input read at app.js:155-159, or without `locationAddress` (app.js:174), the handler throws before its `try`: nothing is published and nothing is sent.
  - Without `imagePreview`, app.js:188 throws after the success notice and the form reset: the `catch` then also publishes the network-error notice, the coordinates and location text stay, and the list is not refreshed.
- `Js.Trim`: strings are sequences of Unicode scalar values, not of UTF-16 code units.

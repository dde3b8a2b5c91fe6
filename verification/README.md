# Subscription tracker core, in Dafny

This project models the subscription-lifecycle logic of a small React
subscription tracker (`src/App.js`). The app keeps a list of subscription
records. Each record has an `id`, a customer `name`, a `service`, a `startDate`
and an `endDate`. From the number of days left until `endDate`, the app
labels each record Expired, Expiring Soon or Active. It shows notifications
for records that are expiring soon or expired, and a badge with their count.
Users add records through a form, delete records by id, and search the list by
name or service.

The component is lifted out as pure functions over `seq<Record>`:

- `Status` covers the status badge (`getStatus`). `Classify` maps a signed day
  count to a status, and `Label` gives the text shown on the badge.
- `Store` covers the record and form datatypes. `Submit` models `handleSubmit`:
  it validates the form, appends the new record and builds the spreadsheet
  row. `Delete` models `handleDelete`.
- `Notifications` covers `expiringUsers`, `expiredUsers` and
  `totalNotifications`.
- `Search` covers `filteredUsers`.
- `Text` covers ASCII `toLowerCase` and `includes`. `Includes` is a scanning
  method, proved equal to the predicate `Contains`.
- `Seqs` holds the order-preserving `Filter` (JavaScript's `Array.filter`),
  `Count` and the subsequence relation that every view is built from.

The number of days left is not computed from dates. The views take it as a
parameter `days: Record -> int`: the whole days until the record's end date,
negative once that date has passed. The record id is the caller-supplied
`now`, which stands for `Date.now()`. The sheet timestamp is a
caller-supplied string.

Three facts about the code shape the model:

- `service` is a plain string with no enumeration in the code. The form fills
  it from a three-option select (src/App.js:219-229) whose default is
  "Diamond Plan ($100)" (src/App.js:13, 108); the model accepts any string.
- `handleDelete` returns nothing; it only replaces the list.
- Nothing keeps ids unique. Two records added in the same millisecond share
  an id, and deleting that id removes both.

## Model

| member | source | states |
|---|---|---|
| Seqs.Filter | src/App.js:121-124 | the result holds exactly the elements satisfying the predicate, with their multiplicities, as an order-preserving subsequence, and its length is their count; when every element satisfies it the list is returned whole (the same `filter` also serves src/App.js:116, 126 and 130-133) |
| Status.Classify | src/App.js:43-48 | exhaustive and exclusive over the integers: Expired iff days < 0, Expiring Soon iff 0 <= days <= 3, Active iff days > 3 |
| Status.ClassifyBoundaries | src/App.js:45-47 | day -1 is Expired, days 0 and 3 are Expiring Soon, day 4 is Active |
| Status.ClassifyMonotone | src/App.js:45-47 | fewer days left never gives a less urgent status |
| Status.Label | src/App.js:45-47 | the badge reads "Expired" exactly for Expired, "Expiring Soon" exactly for Expiring Soon, and "Active" exactly for Active |
| Status.LabelInjective | src/App.js:45-47 | the three badge labels are distinct, so a label identifies its status |
| Store.Submit | src/App.js:79-101 | a form with an empty name or end date is rejected and the list is unchanged; otherwise the list grows by one, earlier records keep their positions, and the last record has id `now` and the form's name, service, start and end date; the sheet row carries the same fields and status "Active" |
| Store.Delete | src/App.js:113-118 | afterwards no record has the id; a record with another id is kept with the same multiplicity and relative order; the list is unchanged iff no record had the id |
| Store.DeleteIdempotent | src/App.js:116 | deleting an id twice equals deleting it once |
| Store.DeleteCommutes | src/App.js:116 | two deletions give the same list in either order |
| Store.SubmitThenDelete | src/App.js:85-116 | deleting the id of a just-added record restores the previous list when no earlier record had that id |
| Store.SubmitThenDeleteCollision | src/App.js:86 | when an earlier record shares the clock-time id, deleting that id also removes the earlier record |
| Notifications.ExpiringUsers | src/App.js:121-124 | a record is listed iff it is in the list and its status is Expiring Soon; the result is an order-preserving subsequence that keeps multiplicities; its length is the number of such records |
| Notifications.ExpiredUsers | src/App.js:126 | a record is listed iff it is in the list and its status is Expired; the result is an order-preserving subsequence that keeps multiplicities; its length is the number of such records |
| Notifications.TotalNotifications | src/App.js:128 | the count is the number of records that are not Active, never more than the list length, and zero iff every record is Active |
| Notifications.NotificationsPartition | src/App.js:121-128 | the expiring and expired views are disjoint and together hold exactly the records that are not Active |
| Notifications.NotificationsAfterSubmit | src/App.js:121-128 | an add raises the count by one exactly when the new record is not Active; a rejected form leaves the count alone |
| Notifications.NotificationsAfterDelete | src/App.js:121-128 | a deletion never raises the count |
| Notifications.ThreeRecordScenario | src/App.js:121-128 | with records one day past, zero days and ten days from their end dates, the expired view is the first, the expiring view is the second, and the count is two |
| Notifications.SeparateReadingsOverlap | src/App.js:121-128 | when the expiring view reads day 0 and the expired view reads day -1 for the same record, the record is in both lists and counted twice |
| Search.Filtered | src/App.js:130-133 | a record is shown iff the lower-cased term occurs in its lower-cased name or service; the result is an order-preserving subsequence that keeps multiplicities |
| Search.SearchEmptyTerm | src/App.js:130-133 | an empty term shows the whole list, in order |
| Search.SearchCaseInsensitive | src/App.js:130-133 | terms that lower-case to the same string show the same records |
| Search.SearchRefines | src/App.js:130-133 | when the old term occurs in the new one, the new result is the old result searched again |
| Text.Lower | src/App.js:131-132 | same length; each character is replaced by its lower-case form, so 'A'..'Z' become 'a'..'z' and every other character is unchanged |
| Text.LowerIgnoresCase | src/App.js:131-132 | strings that differ only in the ASCII case of their letters lower-case to the same string |
| Text.LowerIdempotent | src/App.js:131-132 | lower-casing twice equals lower-casing once |
| Text.Includes | src/App.js:131-132 | scanning start positions returns true iff the term occurs in the string |
| Text.ContainsTrivial | src/App.js:131-132 | the empty string occurs in every string, and every string occurs in itself |
| Text.ContainsTransitive | src/App.js:131-132 | if s contains t and t contains w, then s contains w |

## Left out

- `calculateDaysLeft` (src/App.js:35-41) reads the wall clock and rounds a floating-point millisecond difference up with `Math.ceil`. The model takes the resulting day count as the parameter `days`.
- Loading and saving the list in `localStorage` with `JSON.parse`/`JSON.stringify` (src/App.js:21-32) is browser storage and serialisation. The load also has no handling for a malformed payload.
- `saveToGoogleSheet` (src/App.js:55-77) POSTs the row with `mode: 'no-cors'` (src/App.js:65), so its HTTP response is opaque. `handleSubmit` awaits the call (src/App.js:103) and ignores its result; the list was already replaced at src/App.js:91. A placeholder URL or a caught network error only alerts (src/App.js:56-58, 72-75) and changes no list state. Only the row is modelled (`Store.SheetRow`); the request, its wait and the alerts are not.
- The form's own browser validation is not modelled. The `required` attributes and `type="date"` inputs (src/App.js:210, 224, 237-242, 248-253) stop a submission with an empty field before `handleSubmit` runs, and they keep `endDate` a parseable date, so `calculateDaysLeft` never yields NaN and an integer `days` loses nothing. `Store.Submit` models `handleSubmit` alone, so it accepts an empty `startDate`, as that function does.
- `alert` and `window.confirm` are user prompts. `Store.Delete` is the confirmed branch of `handleDelete`, and a cancelled prompt leaves the list as it was.
- React wiring and presentation are not modelled: `useState`/`useEffect`, `handleInputChange`, the `isSubmitting` spinner, the form reset and switch back to the dashboard after an add (src/App.js:105-110), and all rendering (src/App.js:135-350).
- Each view reads the clock separately: `calculateDaysLeft` calls `new Date()` on every call (src/App.js:36), once per record in `expiringUsers` (src/App.js:122) and again in `expiredUsers` (src/App.js:126). The model gives all views one reading `days`. A record whose count moves from 0 to -1 between the two filters lands in both lists and is counted twice; `Notifications.SeparateReadingsOverlap` shows this, and `Notifications.NotificationsPartition` holds only for a single reading.
- The colour and icon that `getStatus` returns next to the label are styling only.
- Text.Lower: lower-cases ASCII letters only. JavaScript's `toLowerCase` also folds non-ASCII letters, which would need Unicode case tables.

# Kimai timer panel — verified model

A Dafny model of the data-shaping core of the Kimai VS Code extension's
timer panel (`KimaiTimerViewProvider` in `src/extension.ts`): how a span of
time becomes the "Hh Mm" duration of a timer card and the "H:MM:SS" clock of
the status bar, how projects are grouped by customer for the panel's script,
how each timer card resolves its project and activity names, escapes its
description and labels its duration, and how the script's
`updateProjectOptions` / `updateActivitiesOptions` refill the Project and
Activity selects when the user picks a client or a project.

Modules, one per concept:

| file | module | what it holds |
|---|---|---|
| `wrappers.dfy` | `Wrappers` | `Option`, for JavaScript's `null` |
| `kimai_types.dfy` | `KimaiTypes` | customer, project, activity and timesheet records |
| `decimal.dfy` | `Decimal` | the decimal text of integers, reading it back, `padStart` |
| `js_array.dfy` | `JsArray` | `Array.prototype.filter` and `find` |
| `duration.dfy` | `Duration` | `_formatDuration` and the status-bar clock |
| `status_bar.dfy` | `StatusBar` | the status-bar text after a refresh |
| `lookups.dfy` | `Lookups` | name lookups, description escaping, duration label |
| `customer_table.dfy` | `CustomerTable` | the `projectsByCustomer` table and `Object.values(...).flat()` |
| `option_filter.dfy` | `OptionFilter` | the option lists the two script functions produce |
| `merged_view.dfy` | `MergedView` | the structure of the page `_getMergedHtml` renders |
| `webview_script.dfy` | `WebviewScript` | the selects as objects and the script's handlers as methods |

Modelling choices:

- Instants are integer milliseconds (what `new Date(...).getTime()` and
  `Date.now()` yield). `Math.floor(x / b)` with a positive divisor is Dafny's
  `/`. JavaScript's `%` keeps the sign of the dividend, so it is written
  out (`Duration.JsRem`). Spans where the end comes before the start are
  therefore modelled as the code computes them. A running timer whose begin
  lies one millisecond ahead of the local clock shows the clock "-1:-1:-1".
  A recorded timesheet whose end lies one millisecond before its begin shows
  the duration "-1h -1m" (`Duration.NegativeSpanShowsMinusOne`).
- Ids are natural numbers. The script receives `projectsByCustomer` as a
  JavaScript object whose keys are these ids. `Object.values` visits such
  integer keys in ascending order, not in insertion order. So the "no client
  selected" list is modelled in ascending customer-id order
  (`CustomerTable.SortedKeys`).
- `src/types.ts` types `KimaiTimesheetEntry.project` as `number` and gives
  `KimaiActivity` no `project` field. The code compares the first with
  `null` and filters on the second. The model follows the code: both are
  `Option<nat>`. A timesheet's `end` is `Option<int>`. Its `description` is
  `Option<string>`, because the code only tests it for truthiness.
- An `<option>` is its value and text. The empty value `""` of the
  placeholders is `None`; `Some(id)` stands for the value `${id}`.
  `Number(value)` gives the id back (`Decimal.NatToDecimalRoundTrip`).
- A `<select>` is a class (`WebviewScript.SelectElement`) holding its options and the
  selected index. Clearing it removes every option, and the first option
  appended to an empty select becomes the selected one. That is why, after
  `updateProjectOptions`, the project the Activity select is filtered for
  is the first new project option.
  A pick fires the select's `onchange` only when it changes the
  selection, so picking the option already selected refills nothing.
- The page first renders the Project and Activity selects from the full
  project and activity lists. The script's handlers refill them from the
  customer table and the activity filter. The two can differ: a project whose
  customer is not in the customer list is offered only at first, and the
  first Activity list is not filtered for the project shown
  (`MergedView.FirstRenderedProjectsUnfiltered`,
  `MergedView.FirstRenderedActivitiesUnfiltered`).
- The page is modelled by its structure (`MergedView.Panel`): which cards
  and options appear, in which order, with which text. The markup around
  them is not modelled.

## Model

| member | source | states |
|---|---|---|
| `Duration.FloorDiv` | src/extension.ts:506 | `Math.floor(a / b)` is the largest q with q·b ≤ a |
| `Duration.JsRem` | src/extension.ts:509 | `%` keeps the dividend's sign: in [0, b) for a ≥ 0, in (−b, 0] for a < 0; and a − r is a multiple of b |
| `Duration.DurationParts` | src/extension.ts:503-509 | for end ≥ start, hours ≥ 0, 0 ≤ minutes < 60, and hours·3600 s + minutes·60 s ≤ span < that + 60 s |
| `Duration.FormatDuration` | src/extension.ts:503-512 | "{hours}h {minutes}m" ends in "m"; what it says about the span is stated by `Duration.FormatDurationMeaning` |
| `Duration.FormatDurationMeaning` | src/extension.ts:503-512 | any span of h whole hours and m < 60 whole minutes (plus under a minute) prints as the digits of h, "h ", the digits of m, "m" |
| `Duration.TwoHoursThirtyFiveMinutes` | src/test/extension.test.ts:50-57 | a span of 2 h 35 min plus any slack under a minute prints "2h 35m" |
| `Duration.ClockPartsOf` | src/extension.ts:706-709 | for elapsed ≥ 0, minutes and seconds are in [0, 60) and h·3600 + m·60 + s is the whole seconds elapsed |
| `Duration.ClockString` | src/extension.ts:706-713 | the "H:MM:SS" text holds ":"; its reading is stated by `Duration.ClockStringReadsBack` |
| `Duration.ClockTextReads` | src/extension.ts:711-713 | for m, s < 60 the clock text is the unpadded hours, ":", two minute digits, ":", two second digits, each reading back as its number |
| `Duration.ClockStringReadsBack` | src/extension.ts:706-715 | for elapsed ≥ 0 the clock reads "H:MM:SS" with MM, SS two digits < 60, H without a leading zero, and H·3600 + MM·60 + SS = ⌊elapsed / 1000⌋ |
| `Duration.NegativeSpanShowsMinusOne` | src/extension.ts:704-713 | a running timer that begins 1 ms in the future shows the clock "-1:-1:-1"; a timesheet ending 1 ms before its begin shows the duration "-1h -1m" |
| `StatusBar.StatusBarText` | src/extension.ts:186-192 | the status bar shows "Idle" exactly when no timer is active; otherwise the clock of the first (latest) active timer |
| `Decimal.NatToDecimal` | src/extension.ts:511 | `${n}` is a non-empty digit string without leading zero, one character exactly when n < 10 |
| `Decimal.IntToDecimal` | src/extension.ts:711 | `${n}` starts with "-" exactly when n < 0, followed by the digits of −n |
| `Decimal.NatToDecimalRoundTrip` | src/extension.ts:480 | `Number` of the printed id gives the id back, so an option's value identifies its project |
| `Decimal.NatToDecimalInjective` | src/extension.ts:431 | two ids with the same option value are the same id |
| `Decimal.PadStart` | src/extension.ts:711-713 | `padStart` gives a string of at least the width that ends with the input and is filled on the left |
| `Decimal.TwoDigits` | src/extension.ts:711-713 | a number below 100 padded to width 2 with "0" is exactly two digits reading back as the number |
| `JsArray.Filter` | src/extension.ts:218 | `filter` keeps exactly the elements that pass, and only those |
| `JsArray.FilterCount` | src/extension.ts:218 | `filter` keeps each passing element as often as it occurs and drops the others entirely |
| `JsArray.FilterDrops` | src/extension.ts:218 | an element that fails the test makes the filtered array strictly shorter |
| `JsArray.FilterAppend` | src/extension.ts:479-486 | `filter` distributes over concatenation: original order is kept |
| `JsArray.FindIndex` | src/extension.ts:229 | `find` gives the first matching element, or nothing exactly when none matches |
| `Lookups.ProjectName` | src/extension.ts:227-231 | "No Project" without a project; "Unknown Project" when no project has the id; else the first matching project's name |
| `Lookups.ActivityName` | src/extension.ts:241-242 | the first matching activity's name, or "" when no activity has the id |
| `Lookups.EscapeQuotes` | src/extension.ts:250 | the escaped text has no `"`, is unchanged when it had none, and is never shorter |
| `Lookups.EscapeQuotesRoundTrip` | src/extension.ts:290 | decoding `&quot;` gives back the description whenever it holds no `&` |
| `Lookups.EntityInDescriptionShowsAsQuote` | src/extension.ts:290 | only `"` is escaped, so a description holding the text `&quot;` shows as a single `"` |
| `Lookups.SafeDescription` | src/extension.ts:289-291 | the safe description is "" exactly for an absent or empty description, and never holds `"` |
| `Lookups.DurationLabel` | src/extension.ts:286-288 | "(ongoing)" exactly when the entry has no end; otherwise the formatted duration from begin to end |
| `CustomerTable.ProjectsByCustomer` | src/extension.ts:217-220 | the table has exactly the customer ids as keys, each holding `ProjectsOf` that customer; `CustomerTable.BuildProjectsByCustomer` is proved equal to it |
| `CustomerTable.ProjectsOf` | src/extension.ts:218 | a customer's list holds only that customer's projects, and every one of them |
| `CustomerTable.ProjectsOfCount` | src/extension.ts:218 | a customer's list holds each of its projects exactly as often as the project list does |
| `CustomerTable.ProjectsOfAppend` | src/extension.ts:218 | a customer's list keeps the projects' original order |
| `CustomerTable.BuildProjectsByCustomer` | src/extension.ts:217-220 | the reduce yields one key per customer id and no other, each holding that customer's projects |
| `CustomerTable.SortedKeys` | src/extension.ts:420 | `Object.values` visits the integer keys in strictly ascending order, each key once |
| `CustomerTable.AllProjects` | src/extension.ts:420 | every listed project comes from one of the table's lists; `CustomerTable.AllProjectsCount` states how often |
| `CustomerTable.ValuesOfCount` | src/extension.ts:420 | concatenating the lists of distinct keys holds each project as often as listed when its customer is a key, else never |
| `CustomerTable.AllProjectsCount` | src/extension.ts:420 | with no client selected, each project of a known customer is listed as often as it occurs; a project of an unknown customer never is |
| `CustomerTable.AllProjectsMembers` | src/extension.ts:420 | a project is in the no-client list exactly when it is in the project list and its customer is known |
| `CustomerTable.AllProjectsLength` | src/extension.ts:420 | the no-client list is as long as the projects whose customer is known |
| `OptionFilter.ProjectItems` | src/extension.ts:276-278 | one option per project, in order, valued by the project's id and labelled by its name |
| `OptionFilter.ActivityItems` | src/extension.ts:279-281 | one option per activity, in order, valued by the activity's id and labelled by its name |
| `OptionFilter.ActivityItemsAppend` | src/extension.ts:479-486 | the options of two activity lists are the options of each, one after the other |
| `OptionFilter.ProjectOptions` | src/extension.ts:410-459 | the Project select is never left empty, and holds only the placeholder or options with a project id; `OptionFilter.ProjectOptionsForClient` and `OptionFilter.ProjectOptionsForNoClient` state which |
| `OptionFilter.ActivityOptions` | src/extension.ts:461-487 | the placeholder alone without a selected project; otherwise only options with an activity id; `OptionFilter.ActivityOptionsMeaning` states which |
| `OptionFilter.ActivitiesFor` | src/extension.ts:479-480 | an activity is offered for project p exactly when its project is p or null |
| `OptionFilter.ActivitiesForAppend` | src/extension.ts:479-486 | the offered activities keep their original order |
| `OptionFilter.ProjectOptionsForNoClient` | src/extension.ts:418-435 | with no client: only "No Projects available" exactly when no project has a known customer, else one option per listed project |
| `OptionFilter.ProjectOptionsForClient` | src/extension.ts:441-458 | with a client: only "No Projects available" when it has no projects, else its projects in order; the first of them becomes selected |
| `OptionFilter.ActivityOptionsMeaning` | src/extension.ts:464-486 | only "No Activities available" exactly when no project is selected; else an activity is listed exactly when it belongs to that project or to none |
| `OptionFilter.ActivityOptionsAppend` | src/extension.ts:479-486 | the listed activities keep the order of the activity list |
| `OptionFilter.ActivityOptionsCanBeEmpty` | src/extension.ts:478-486 | for a selected project the Activity select is left empty, with no placeholder, exactly when no activity belongs to that project or to none |
| `OptionFilter.ClientWithoutProjectsHasNoActivities` | src/extension.ts:443-458 | choosing a client without projects leaves both selects on their placeholders |
| `MergedView.DescriptionRulesAgree` | src/extension.ts:246-253 | the active card's test (`description` truthy) and the recent card's (`safeDescription !== ""`) show the same quote-free text for the same entries |
| `MergedView.ActiveCardOf` | src/extension.ts:226-267 | the card stops its own timesheet, shows its tags, and shows a quote-free description exactly when the description is truthy |
| `MergedView.RecentCardOf` | src/extension.ts:285-321 | the card carries its index and tags, reads "(ongoing)" exactly when there is no end, and shows a quote-free description exactly when it is truthy |
| `MergedView.ActiveSectionOf` | src/extension.ts:223-270 | "No active timers." exactly when the active list is empty; else one card per timer, in order, each stopping its own timesheet |
| `MergedView.RecentCards` | src/extension.ts:284-323 | one card per recent timesheet, in order, numbered from 0, reading "(ongoing)" exactly when it has no end |
| `MergedView.ClientOptions` | src/extension.ts:273-275 | "Select Client" (value "") first, then one option per customer, in order |
| `MergedView.ActiveAndRecentCardsAgree` | src/extension.ts:292-296 | an active and a recent card of the same timesheet show the same project, activity, description and tags |
| `MergedView.MergedPanel` | src/extension.ts:207-499 | "No active timers." exactly when nothing runs, one recent card per timesheet, a table keyed by the customer ids, and the Client select on "" |
| `MergedView.MergedPanelInitialSelects` | src/extension.ts:273-281 | the first-rendered page starts on "Select Client"; its Project and Activity selects list every project and activity, in order, and start on the first project |
| `MergedView.FirstRenderedProjectsUnfiltered` | src/extension.ts:276-278 | when a project's customer is not in the customer list, the first-rendered Project select differs from the one a reset to "Select Client" shows |
| `MergedView.FirstRenderedActivitiesUnfiltered` | src/extension.ts:279-281 | when an activity belongs to a project other than the one first selected, the first-rendered Activity select differs from the script's list for that project |
| `WebviewScript.SelectElement.constructor` | src/extension.ts:345-358 | a declared select holds its options with the first one selected |
| `WebviewScript.SelectElement.Clear` | src/extension.ts:416 | `innerHTML = ''` leaves the select without options |
| `WebviewScript.SelectElement.Append` | src/extension.ts:433 | `appendChild` adds the option at the end; the first option of an empty select becomes selected |
| `WebviewScript.SelectElement.Value` | src/extension.ts:413 | a select whose first option is selected reads as that option's value; an empty select reads as "" |
| `WebviewScript.SelectElement.Choose` | src/extension.ts:345 | picking option i selects it and leaves the options unchanged |
| `WebviewScript.PanelScript.constructor` | src/extension.ts:372-374 | the script starts with the page's table, activities and initial select options, each select on its first option |
| `WebviewScript.PanelScript.AppendProjects` | src/extension.ts:452-457 | the `forEach` appends one option per project, in order |
| `WebviewScript.PanelScript.AppendOfferedActivities` | src/extension.ts:479-486 | the `forEach` appends one option per offered activity, in order |
| `WebviewScript.PanelScript.UpdateActivitiesOptions` | src/extension.ts:461-487 | the Activity select ends up holding exactly the options `ActivityOptions` gives for the selected project |
| `WebviewScript.PanelScript.UpdateProjectOptions` | src/extension.ts:410-459 | the Project select ends up holding `ProjectOptions` for the selected client, and the Activity select the options for its first project; both are on their first option |
| `WebviewScript.PanelScript.ChooseClient` | src/extension.ts:345 | picking client option i selects it; when that changes the selection, the Project and Activity selects are refilled for that client, each on its first option; picking the selected option again leaves them unchanged |
| `WebviewScript.PanelScript.ChooseProject` | src/extension.ts:351 | picking project option i selects it; when that changes the selection, the Activity select is refilled for that project, on its first option; picking the selected option again leaves it unchanged |

## Left out

- Extension activation, command registration, the webview message dispatch and deactivation (src/extension.ts:12-81, 92-106, 789-796): wiring into the editor's plugin API.
- Every `fetch`, the parallel fetch of the six resources, the HTTP status checks and the API-token storage (`_refreshWebview`, `_startTimer`, `_stopTimerById`): network input and output and secret storage. Their results enter the model as parameters.
- `setInterval` / `clearInterval`, the status-bar item object, `updateStatusBar` and the module globals that hold them: timers and editor UI objects. Only the text the clock shows at a given instant is modelled.
- Parsing of timestamp strings, `Date.now()` and `toISOString()`: the clock and date parsing. Instants enter as integer milliseconds.
- The literal HTML and CSS (`_commonStyles`, `_getLoadingHtml`, `_getSetupHtml`, the markup of the cards), `JSON.stringify` of the script's tables, the `start`, `stopTimer` and `toggleDetails` script functions and the tag-toggle button: static markup and DOM side effects. The page is modelled by its structure.
- `Number` arithmetic beyond 2^53 and ids outside the array-index range: ids and spans are unbounded integers, and every id counts as an array-index key of the table object.
- `Duration.ClockStringReadsBack`: states the clock's read-back only for non-negative elapsed times; for negative ones the code prints fields such as "-1", and only that one case is stated (`Duration.NegativeSpanShowsMinusOne`).
- `Lookups.EscapeQuotesRoundTrip`: states the round trip of the `&quot;` entity only, and only for descriptions without `&`, because the code escapes nothing but `"`; `Lookups.EntityInDescriptionShowsAsQuote` shows a description that does not survive it. The page reads `<` and `&` in a description as HTML, so a description such as `<b>x</b>` shows as markup and not as its text; this HTML reading is not modelled. Project, activity and customer names and tags are not escaped at all and are read as HTML in the same way.

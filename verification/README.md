# Support ticket system: statistics, classification and intake workflow

This project models, in Dafny, the parts of a support-ticket application that hold real logic. Everything else in the application is user-interface glue.

- **The ticket view set** (`backend/tickets/views.py`):
  - the `stats` action: the total count, the open count, the mean tickets per creation day, and the per-priority and per-category breakdowns, zero-filled;
  - the `classify` action: a guard chain, a clean-up of the language model's reply, and a fixed fallback suggestion;
  - the list endpoint's declared ordering (newest first) and its filter fields.
- **The intake form** (`frontend/src/components/TicketForm.jsx`): the form data and the `loading` and `classifying` flags, changed by the field-edit, blur and submit handlers.
- **The ticket list** (`frontend/src/components/TicketList.jsx`): the filter state, the request parameters built from it, the fetch's effect on the list, and the status and priority display strings.

A ticket has a category, a priority and a status, and each is a closed enumeration: `billing/technical/account/general`, `low/medium/high/critical` and `open/in_progress/resolved/closed`. The store is a sequence of tickets. The creation day is an abstract integer.

Files:

- `wrappers.dfy`: `Option`.
- `tickets.dfy`: the ticket record and its enumerations.
- `ticket_stats.dfy`: the stats action.
- `ticket_query.dfy`: the list endpoint's declared semantics.
- `classify.dfy`: the classify action.
- `ticket_form.dfy`: the intake form, as the class `IntakeForm`.
- `ticket_list.dfy`: the ticket list, as the class `TicketListView`.

Each asynchronous handler is split into two methods:

- a `Begin…` method, up to the request;
- a `Finish…` method, which receives the request's outcome as a parameter.

### Behaviour of the code worth knowing

- **A late classify response.** It overwrites category and priority, even if the user set them while the request was in flight (`TicketForm.jsx:25-29`). `LateSuggestionOverwritesUserChoice` shows this. Nothing coalesces or cancels a classify request that is still in flight.
- **The average per day.** It is the mean of the per-date ticket counts (`views.py:27-34`): the number of tickets divided by the number of distinct creation days. Days without tickets do not count, and an empty store gives 0.
- **A failed classification.** Once a description and an API key are present, every failure of the model call or of the JSON parse is answered with 200 and `general`/`medium` plus a warning (`views.py:98-105`). The request is refused with 400 only when the description is missing, and with 503 only when the key is missing.
- **Ties in the ordering.** The list is ordered by `-created_at` only (`views.py:15`). The order of tickets with equal creation times is not fixed.

## Model

| member | source | states |
|---|---|---|
| Tickets.ChoicesComplete | frontend/src/components/TicketForm.jsx:58-59 | every category and every priority (and every status, `TicketList.jsx:74-77`) is listed, each exactly once |
| TicketStats.CountOf | backend/tickets/views.py:24 | a per-value count never exceeds the store size, and it is 0 exactly when no ticket has the value |
| TicketStats.OpenCountAll | backend/tickets/views.py:23-24 | open_tickets ≤ total_tickets, with equality exactly when every ticket's status is open |
| TicketStats.GroupCounts | backend/tickets/views.py:37-42 | the grouped dict has one key per value that occurs in the store, and each key holds that value's count, which is between 1 and the store size |
| TicketStats.SetDefaults | backend/tickets/views.py:45-48 | the setdefault loop: the keys become the observed keys plus every choice; an observed count is never overwritten; only added keys hold 0 |
| TicketStats.ZeroFilledHoldsCounts | backend/tickets/views.py:37-48 | after zero-filling the observed counts, every choice holds its true count, including 0 for a value absent from the store |
| TicketStats.CountsSumToTotal | backend/tickets/views.py:37-42 | when the choices list each value once, the per-value counts add up to the number of tickets |
| TicketStats.BreakdownSumsToTotal | backend/tickets/views.py:37-48 | a breakdown holding each choice's count sums to total_tickets |
| TicketStats.Breakdown | backend/tickets/views.py:37-48 | one breakdown: its keys are the observed values plus all choices, each choice maps to its count, and the values sum to the store size |
| TicketStats.Tally | backend/tickets/views.py:27-30 | counting one more ticket adds at most one row |
| TicketStats.TallyAddsDay | backend/tickets/views.py:27-30 | grouping one more ticket by date adds a row exactly when its date was new |
| TicketStats.TallyCounts | backend/tickets/views.py:27-30 | grouping one more ticket raises that date's count and the total by one, and no other date's count changes |
| TicketStats.TallyKeepsCountsPositive | backend/tickets/views.py:27-30 | the grouping never produces an empty row |
| TicketStats.DailyCounts | backend/tickets/views.py:27-30 | the per-date grouping has at most one row per ticket, and it has no rows exactly when the store is empty |
| TicketStats.DailyCountsOneRowPerDay | backend/tickets/views.py:27-30 | the per-date rows cover exactly the distinct creation days, one row each |
| TicketStats.DailyCountsCountTickets | backend/tickets/views.py:27-30 | each date's row holds the number of tickets created that day, and the rows together hold every ticket |
| TicketStats.DailyCountsPositive | backend/tickets/views.py:27-30 | every per-date count is at least 1 |
| TicketStats.AvgPerDay | backend/tickets/views.py:27-34 | the average is never negative, and it is 0 (the `or 0`) exactly when the store is empty |
| TicketStats.AvgIsTicketsOverDays | backend/tickets/views.py:27-34 | the mean of the per-date counts is total ÷ number of distinct days; it is 0 for an empty store and at least 1 otherwise |
| TicketStats.Stats | backend/tickets/views.py:22-56 | the stats response: total = store size; open = number of open tickets ≤ total; average as above; every priority and category is a key holding its count; each breakdown sums to the total |
| TicketQuery.Matches | backend/tickets/views.py:17-19 | a query with no filter and no search term matches every ticket |
| TicketQuery.Select | backend/tickets/views.py:17-19 | the filter keeps each matching ticket as often as it is stored, drops every other one, and with no constraint keeps the store |
| TicketQuery.NewestFirstOrdersAllPairs | backend/tickets/views.py:15 | newest-first order compares every pair of positions, not only neighbours |
| TicketQuery.Insert | backend/tickets/views.py:15 | inserting a ticket into a newest-first list keeps it newest first and adds exactly that ticket |
| TicketQuery.SortNewestFirst | backend/tickets/views.py:15 | `order_by('-created_at')` yields a newest-first permutation of its input |
| TicketQuery.List | backend/tickets/views.py:15-19 | the list endpoint returns newest first exactly the matching tickets of the store, with their multiplicities |
| TicketQuery.UnfilteredListsWholeStore | backend/tickets/views.py:15 | with no constraint, the endpoint returns every stored ticket |
| Classify.RemoveAll | backend/tickets/views.py:93 | `replace(pat, '')` never lengthens the text; RemoveAllOfFree and RemoveAllStep fix its result on every text |
| Classify.RemoveAllOfFree | backend/tickets/views.py:93 | text in which the pattern does not occur is left unchanged |
| Classify.RemoveAllPlainPrefix | backend/tickets/views.py:93 | text before the first occurrence of the pattern is kept unchanged and in front of the rest's result |
| Classify.RemoveAllStep | backend/tickets/views.py:93 | in `x + pat + y` with no occurrence starting inside `x`, `x` is kept, that occurrence is dropped and the scan resumes on `y` |
| Classify.RemoveAllKeepsPlainPrefix | backend/tickets/views.py:93 | removing a fence pattern keeps, unchanged and in front, all text before the first backtick |
| Classify.RemoveFencesLeavesNone | backend/tickets/views.py:93 | after `replace('```', '')` the text contains no "```", even where the remaining pieces join |
| Classify.NoFenceAtFront | backend/tickets/views.py:93 | keeping a first character that does not begin a fence cannot form a fence at the front |
| Classify.TrimStart | backend/tickets/views.py:93 | left strip: the result is a suffix that does not start with whitespace, and only whitespace was removed |
| Classify.TrimEnd | backend/tickets/views.py:93 | right strip: the result is a prefix that does not end with whitespace, and only whitespace was removed |
| Classify.Strip | backend/tickets/views.py:93 | `strip()` removes whitespace, and only whitespace, from both ends; the result neither starts nor ends with whitespace, and already-stripped text is unchanged |
| Classify.Clean | backend/tickets/views.py:93 | the cleaned reply is no longer than the reply and has no surrounding whitespace |
| Classify.CleanUnwrapsJsonBlock | backend/tickets/views.py:93 | a reply wrapped as "```json" + body + "```", with no backtick in the body, cleans to the stripped body |
| Classify.CleanRemovesFencesAndSpace | backend/tickets/views.py:93 | the cleaned reply contains no "```" and has no surrounding whitespace |
| Classify.CleanIsIdempotent | backend/tickets/views.py:93 | cleaning an already-cleaned reply changes nothing |
| Classify.ClassifyRequest | backend/tickets/views.py:59-105 | 400 exactly when the description is missing or empty; 503 exactly when the description is present and the key is missing or empty; a reply that parses is returned as parsed, unvalidated; every other failure gives exactly general/medium with the warning |
| Classify.GuardsPrecedeModelCall | backend/tickets/views.py:60-66 | a request refused by a guard (400 or 503) does not depend on the model's reply |
| Classify.PassedGuardsAnswerOk | backend/tickets/views.py:81-105 | once both guards pass, the answer is 200 whether the call succeeds or fails |
| TicketForm.FormData.With | frontend/src/components/TicketForm.jsx:15-17 | an edit sets the named field to the new value and leaves the other three unchanged |
| TicketForm.ShouldClassify | frontend/src/components/TicketForm.jsx:20 | the blur guard: a form it lets through would, if submitted as is, be sent as general/low |
| TicketForm.OrElse | frontend/src/components/TicketForm.jsx:27-28 | `v \|\| fallback`: a non-empty value is kept; a missing or empty one is replaced by the fallback |
| TicketForm.ApplySuggestion | frontend/src/components/TicketForm.jsx:25-29 | category becomes the suggestion or 'general', priority the suggestion or 'medium'; title and description are kept; both fields are non-empty afterwards |
| TicketForm.WithDefaults | frontend/src/components/TicketForm.jsx:42-46 | the payload keeps title and description; category is the current one or 'general', priority the current one or 'low'; neither is empty |
| TicketForm.Received | frontend/src/components/TicketForm.jsx:24-28 | a classify answer reaches the form as a suggestion exactly when its status is 200; the fallback's category and priority are passed on; from a parsed object, each of `suggested_category` and `suggested_priority` is passed on exactly when it is a key, with its value |
| TicketForm.SuggestionSurvivesSubmit | frontend/src/components/TicketForm.jsx:25-46 | after a suggestion is applied, the submit payload is exactly the form |
| TicketForm.DefaultsAreIdempotent | frontend/src/components/TicketForm.jsx:42-46 | defaulting twice is defaulting once, and a form with both fields set is sent as is |
| TicketForm.FallbackPrioritiesDiffer | frontend/src/components/TicketForm.jsx:28-45 | a response without a priority gives 'medium', while a submit with no priority sends 'low' |
| TicketForm.FailedModelCallReachesForm | frontend/src/components/TicketForm.jsx:24-29 | when the model call fails, the backend's fallback sets the form to general/medium; a 503 leaves the form as it was |
| TicketForm.LateSuggestionOverwritesUserChoice | frontend/src/components/TicketForm.jsx:25-29 | a priority the user chose while the request was in flight is overwritten by the response |
| TicketForm.ClassifiedSubmission | frontend/src/components/TicketForm.jsx:19-47 | filling title and description, then a technical/high answer, makes the submit send technical/high |
| TicketForm.IntakeForm.constructor | frontend/src/components/TicketForm.jsx:6-13 | all four fields start empty and both flags false |
| TicketForm.IntakeForm.HandleChange | frontend/src/components/TicketForm.jsx:15-17 | only the edited field changes |
| TicketForm.IntakeForm.BeginClassify | frontend/src/components/TicketForm.jsx:19-24 | the request is sent exactly when the description is non-empty and category and priority are both empty; it carries the description and raises `classifying`; otherwise nothing changes |
| TicketForm.IntakeForm.FinishClassify | frontend/src/components/TicketForm.jsx:25-34 | a response is applied to the current form; a failure leaves the form unchanged; `classifying` is false either way |
| TicketForm.IntakeForm.BeginSubmit | frontend/src/components/TicketForm.jsx:37-47 | only with a non-empty title and description (the `required` inputs of lines 73 and 91), raises `loading` and sends the defaulted form |
| TicketForm.IntakeForm.FinishSubmit | frontend/src/components/TicketForm.jsx:47-55 | success clears all four fields and calls the listener, if any, once; failure keeps the form; `loading` is false either way |
| TicketList.Filters.With | frontend/src/components/TicketList.jsx:37-39 | a filter change sets only the named filter |
| TicketList.Params | frontend/src/components/TicketList.jsx:18-22 | a filter's key is in the params exactly when its value is non-empty, and then maps to that same value; no other key appears |
| TicketList.InitialFiltersSendNoParams | frontend/src/components/TicketList.jsx:8-22 | the initial all-empty filters produce empty params |
| TicketList.StatusClass | frontend/src/components/TicketList.jsx:41-46 | each status s maps to "status-" + s |
| TicketList.FirstIndex | frontend/src/components/TicketList.jsx:135 | the position of the first occurrence of a character, or the length of the text when it does not occur |
| TicketList.ReplaceFirst | frontend/src/components/TicketList.jsx:135 | `replace('_', ' ')` changes only the first underscore and keeps every other character |
| TicketList.StatusLabel | frontend/src/components/TicketList.jsx:135 | 'in_progress' is shown as 'in progress'; every other status is shown as its wire name |
| TicketList.ReplaceFirstAbsent | frontend/src/components/TicketList.jsx:135 | text without an underscore is shown unchanged |
| TicketList.InProgressLabel | frontend/src/components/TicketList.jsx:135 | replacing the first underscore of 'in_progress' gives 'in progress' |
| TicketList.Upper | frontend/src/components/TicketList.jsx:130 | upper-casing keeps the length and upper-cases each ASCII letter |
| TicketList.PriorityLabel | frontend/src/components/TicketList.jsx:130 | the priorities are shown as LOW, MEDIUM, HIGH and CRITICAL |
| TicketList.TicketListView.constructor | frontend/src/components/TicketList.jsx:6-13 | no tickets, `loading` true, all filters empty |
| TicketList.TicketListView.HandleFilterChange | frontend/src/components/TicketList.jsx:37-39 | only the named filter changes |
| TicketList.TicketListView.BeginFetch | frontend/src/components/TicketList.jsx:15-24 | raises `loading` and sends the params built from the current filters |
| TicketList.TicketListView.FinishFetch | frontend/src/components/TicketList.jsx:24-30 | a response replaces the list; a failure keeps it; `loading` is false either way |

## Left out

- The language-model client call, the prompt text and `json.loads` (`views.py:68-95`) are not modelled. `ClassifyRequest` takes the reply text as an optional parameter (absent when the call raises or the reply text is missing). It takes the JSON parser as a function parameter.
- `round(avg_tickets, 1)` is not modelled, because it is floating-point rounding. `AvgPerDay` is the exact rational mean.
- The time-zone behaviour of `TruncDate` is not modelled. A ticket carries an abstract creation timestamp (for ordering) and an abstract creation day (for grouping), and the model does not relate the two.
- The internals of the Django filter and search backends are not modelled:
  - a filter value arrives already parsed into its enumeration, so the answer to a value outside the choices is not modelled;
  - the search string is one term, matched case-insensitively on ASCII letters only, so the splitting of the search string into terms is not modelled;
  - database collation is not modelled.
- The `TicketSerializer`, the `Ticket` model and the create endpoint's validation are not part of this model; they are not shown. The status lifecycle is also out.
- `SortNewestFirst`: the relative order of tickets with equal timestamps is not stated, because the source does not fix it.
- `BeginSubmit`: the `maxLength={200}` limit on the title input (`TicketForm.jsx:74`) is not modelled. The browser enforces it while typing, and the model places no bound on the title.
- `ClassifyRequest`: a description or key that is present but is not a string is not modelled. Python truthiness is modelled only for absent and string values.
- `Received`: a suggestion value that is not a string is not modelled. The model reads string values only.
- `Upper`: only ASCII letters are upper-cased. JavaScript's full Unicode case mapping is not modelled.
- React rendering and the effect that refetches when the filters or the refresh trigger change are not modelled. Neither are the disabled submit button, the priority colours, `alert`, `console.error` and the backend's `print`.
- Interleavings of the blur and submit handlers are not modelled. Each handler's two halves are separate steps that can be called in any order. No race guard is added, because the code has none.
- `frontend/src/components/StatsDashboard.jsx` and `frontend/src/App.jsx` are not part of this model. They are rendering and a refresh counter.

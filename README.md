# CRM dashboard rules, modelled in Dafny

This project models the logic of a React CRM dashboard once the markup is stripped away. It covers the rules that decide which leads are counted, filtered, merged, aggregated and flagged, and the small state machines of its forms and providers:

- **Pipeline analysis.** The eight-condition conjunctive filter over pipeline items. The per-stage aggregate behind the bar and pie charts: count, value or prorated measure, reduced with sum, avg, min or max from the JavaScript seeds 0, +Infinity and -Infinity. The stage-by-employee pivot table.
- **Leads analysis chart.** The chain of conditional filters, one per search field, and the helpers that swap or clear the date bounds and clear every filter.
- **Delayed leads.** The active-status and "more than seven whole days" rule, the note categoriser, phone masking, the row projection, the stage-name list read from settings, the per-stage button counts and the list shown for a selected button.
- **The two dashboards.**
  - Shared by both: the employee-and-date lead filter, the headline statistics, the rounded card percentages, the stage normalisation with keyword default colours and icons, the hex colour reader, the year substitution in chart labels and the "Show More" quick-number header.
  - The `features/` dashboard only: the merge of two stored lead lists by `id`, and the four fixed cards.
  - The `pages/` dashboard only: one card per configured stage.
- **Stage and status settings page.** Its own keyword defaults, the per-name lead counters, and case-insensitive add (prepend) and remove.
- **User creation page.** Field updates, the department change that resets an invalid team, permission toggles, validation and the submit payload. The department-to-teams table it reads is also modelled.
- **Application state provider.** The subscription-active rule, the module access check and `setProfile`.
- **Active-campaigns card.** The segments, the active total, the open-rate average and the status colour and caption.
- **Active-users card, both versions.** Relative "last seen" text, the active and inactive counts, the list height rule and the `HH:MM` fallback.

Values are Dafny datatypes. A missing JSON field is `None`, and a present but empty text is `Some("")`. Components that update state in place are modelled as classes: the user form, the settings page and the provider. Loops that fill a dictionary are methods with loop invariants: the aggregate, the stage counters, the merge by id, the toggle and the error collection. Each such method is proved against a function that specifies it.

Timestamps are integers of milliseconds, and a calendar day is `ms / 86400000`. `new Date(text)` and `parseFloat(text)` are parameters returning `Option`, where `None` stands for an invalid date or `NaN`. "Now" is a parameter too.

The model follows the code, including these consequences:
- In both filter engines, a value bound that is set but does not parse as a number makes every comparison with `NaN` false. It therefore excludes every item, rather than being ignored (`Pipeline.UnparsableValueBoundExcludesAll`, `LeadsAnalysis.KeptMeans`).
- The pipeline's date bounds compare the date texts as strings, not as dates.
- In the leads analysis chart, an item whose date is missing or invalid fails any date bound that is set.

## Model

| member | source | states |
|---|---|---|
| Text.Contains | src/components/DelayLeads.jsx:101 | `includes` holds exactly when the needle occurs at some index of the text |
| Text.LowerIdempotent | src/components/DelayLeads.jsx:100 | lowercasing twice is lowercasing once |
| Text.TrimShape | src/pages/Dashboard.jsx:235 | the trimmed text neither starts nor ends with whitespace and is the slice of the input left after dropping whitespace-only ends |
| Text.TrimBlank | src/pages/Dashboard.jsx:235 | a text trims to empty exactly when it is all whitespace |
| Text.TrimIdempotent | src/pages/Dashboard.jsx:255 | trimming a trimmed text changes nothing |
| Text.TrimPadded | src/pages/Dashboard.jsx:255 | padding a trimmed non-empty word with spaces and trimming gives the word back |
| Text.NatToStringRoundTrip | src/components/ActiveUsersChart.jsx:137 | `String(n)` of a natural number reads back as `n` |
| Text.PadStart2 | src/components/ActiveUsersChart.jsx:137 | `padStart(2, '0')` keeps texts of length 2 or more and left-fills shorter ones with zeros to length 2, ending in the original text |
| Leads.FirstText | src/pages/Dashboard.jsx:255 | `a \|\| b \|\| ''` is empty exactly when both are empty, and otherwise is one of them |
| Leads.LastAction | src/components/DelayLeads.jsx:110 | the last action is `lastContact` when truthy, else `createdAt` |
| Leads.ReadArray | src/components/DelayLeads.jsx:24-34 | a missing key, a parse failure or a non-array value reads as the empty list; an array reads as itself |
| Leads.InDayRangeBetween | src/components/DelayLeads.jsx:144-162 | with both bounds valid, the range test is exactly `from_day <= day <= to_day` |
| Leads.InDayRangeInvertedAndSameDay | src/components/DelayLeads.jsx:149-160 | inverted bounds exclude every valid date; equal bounds keep exactly that day |
| Leads.InDayRangeDayGranular | src/components/DelayLeads.jsx:150 | two timestamps of the same day are treated alike |
| Leads.InDayRangeFailOpen | src/components/DelayLeads.jsx:146-148 | no truthy bound, or an unparseable date, passes |
| AdvancedFilters.ClearedIsBlank | src/components/PipelineAnalysis.jsx:132-142 | after clearing, every one of the seven fields is empty |
| AdvancedFilters.Update | src/components/PipelineAnalysis.jsx:125-130 | `updateAdvancedFilter(key, value)` sets that field and leaves the other six unchanged |
| AdvancedFilters.UpdateCommutes | src/components/PipelineAnalysis.jsx:125-130 | updates of two different fields commute, and writing a field's own value back changes nothing |
| AdvancedFilters.SwapDates | src/components/LeadsAnalysisChart.jsx:89-95 | `swapDates` exchanges the two date bounds and leaves the other fields unchanged |
| AdvancedFilters.SwapDatesInvolution | src/components/LeadsAnalysisChart.jsx:89-95 | swapping twice is the identity |
| AdvancedFilters.ClearDateRange | src/components/LeadsAnalysisChart.jsx:81-87 | `clearDateRange` empties the two date bounds only |
| AdvancedFilters.ClearDateRangeAbsorbs | src/components/LeadsAnalysisChart.jsx:81-95 | clearing the range is idempotent, and a swap after it changes nothing |
| Pipeline.LexLeRefl | src/components/PipelineAnalysis.jsx:176-177 | a date text lies within a range bounded by itself on either side |
| Pipeline.LexLeAntisym | src/components/PipelineAnalysis.jsx:176-177 | two date texts each at most the other are equal |
| Pipeline.LexLeTrans | src/components/PipelineAnalysis.jsx:176-177 | string comparison of date texts is transitive |
| Pipeline.LexLeTotal | src/components/PipelineAnalysis.jsx:176-177 | any two date texts are comparable |
| Pipeline.FilteredData | src/components/PipelineAnalysis.jsx:158-182 | the filtered data is an order-preserving subsequence of the input, every kept item meets all eight conditions, and every input item meeting them is kept as often as it occurs in the input |
| Pipeline.FilteredDataUnfiltered | src/components/PipelineAnalysis.jsx:159-181 | with no query and no advanced filter, the data comes back unchanged and in order |
| Pipeline.FilteredDataKept | src/components/PipelineAnalysis.jsx:161-180 | a kept item has the exact employee and stage, contains the lead-name text and the query (over stage or lead name) ignoring case, and lies within inclusive value and date bounds |
| Pipeline.BoundsInclusive | src/components/PipelineAnalysis.jsx:172-177 | an item exactly on a value bound or a date bound passes that filter |
| Pipeline.UnparsableValueBoundExcludesAll | src/components/PipelineAnalysis.jsx:172-173 | a set value bound that parses to `NaN` excludes every item |
| Pipeline.TotalCount | src/components/PipelineAnalysis.jsx:191-192 | the count measure adds up to the number of items |
| Pipeline.ReduceAdditive | src/components/PipelineAnalysis.jsx:190-197 | sum and avg reduce to the seed plus the plain total of the measure |
| Pipeline.ReduceMin | src/components/PipelineAnalysis.jsx:190-197 | min from +Infinity is finite for a non-empty list, at most every item and attained by one; it stays +Infinity only for an empty list |
| Pipeline.ReduceMax | src/components/PipelineAnalysis.jsx:190-197 | the mirror image of min for max and -Infinity |
| Pipeline.ReduceFinite | src/components/PipelineAnalysis.jsx:197 | the reduction is finite unless it is min or max over an empty group |
| Pipeline.AggregatedData | src/components/PipelineAnalysis.jsx:185-205 | the `forEach` loop fills exactly one entry per stage label, each the stage's aggregate |
| Pipeline.StageCountAndEmpty | src/components/PipelineAnalysis.jsx:186-202 | count with sum is the number of filtered items in the stage; an empty stage gives 0 for sum and avg and keeps the infinite seed for min and max |
| Pipeline.StageSumAvg | src/components/PipelineAnalysis.jsx:199-202 | sum is the group total, and avg is the group total divided by the group size |
| Pipeline.StageMinMax | src/components/PipelineAnalysis.jsx:190-197 | for a non-empty stage, min and max are finite, attained by a member and bound every member |
| Pipeline.PivotRows | src/components/PipelineAnalysis.jsx:277-299 | one row per stage label, in order, with one value per employee and a total equal to the sum of its values |
| Pipeline.PivotRowsAt | src/components/PipelineAnalysis.jsx:278-294 | row `i` holds the cells of stage `i` for each employee |
| Pipeline.EmptyStageSeedVersusPivot | src/components/PipelineAnalysis.jsx:288-293 | for an empty stage, the bar aggregate keeps ±Infinity while each pivot cell shows 0 |
| Pipeline.PivotCellSumAvg | src/components/PipelineAnalysis.jsx:280-293 | a sum cell is the cell total, and a non-empty avg cell is the cell mean |
| Pipeline.PivotCellCount | src/components/PipelineAnalysis.jsx:280-288 | a count/sum cell is the number of items of that stage and employee |
| Pipeline.RowValuesCount | src/components/PipelineAnalysis.jsx:279-296 | the count/sum row values add up to the per-employee counts of the stage |
| Pipeline.PivotCountTotal | src/components/PipelineAnalysis.jsx:296 | with distinct employee labels, a count/sum row total is the number of the stage's items handled by a listed employee |
| DelayLeads.KeepNamed | src/components/DelayLeads.jsx:87-89 | the names are exactly `map` then `filter(Boolean)`: the entry names with the empty and missing ones dropped, in entry order and with repeats kept; the result holds exactly the non-empty names of the entries |
| DelayLeads.StageNames | src/components/DelayLeads.jsx:83-95 | a non-empty stored array gives its named entries; anything else gives the five default names |
| DelayLeads.KeepNamedPlain | src/components/DelayLeads.jsx:86-89 | a stored list of non-empty strings is used as it is |
| DelayLeads.KeepNamedNone | src/components/DelayLeads.jsx:86-89 | a non-empty array with no usable name gives no names, not the defaults |
| DelayLeads.DeriveCategory | src/components/DelayLeads.jsx:99-105 | the first matching rule decides: meeting, then reschedule, then no answer, else follow-up |
| DelayLeads.DeriveCategoryIgnoresCase | src/components/DelayLeads.jsx:100 | the category ignores letter case |
| DelayLeads.ArabicMeetingNote | src/components/DelayLeads.jsx:101 | a note containing the Arabic word for "meeting" is a meeting follow-up |
| DelayLeads.SampleNoteCategories | src/components/DelayLeads.jsx:99-102 | the first sample note is a meeting follow-up, and so is the third, a rescheduling note that mentions the meeting |
| DelayLeads.IsDelayedCharacterised | src/components/DelayLeads.jsx:107-116 | delayed exactly when the status is one of new, qualified or in-progress, the last action parses, and at least 8 full days have passed |
| DelayLeads.IsDelayedMonotone | src/components/DelayLeads.jsx:113-115 | once delayed, a lead stays delayed at every later time |
| DelayLeads.MaskPhone | src/components/DelayLeads.jsx:136 | no phone gives `''`; otherwise `(`, the first up to three characters, then `*****)` |
| DelayLeads.MaskPhoneRevealsAtMostThree | src/components/DelayLeads.jsx:136 | the mask is at most 10 characters and shows only a prefix of the number |
| DelayLeads.DelayRows | src/components/DelayLeads.jsx:119-141 | the rows' leads are exactly the delayed input leads, in input order and with repeats kept (an order-preserving subsequence of the input); every row is the projection of its lead, and every delayed lead has a row |
| DelayLeads.Project | src/components/DelayLeads.jsx:121-140 | a row keeps its lead and the lead's name; its mobile is the masked phone (`(`, the first three characters, `*****)`, per MaskPhone's contract), empty exactly when the lead has no phone and at most 10 characters; the stage date is the last action; the last comment is the notes or `''`, empty exactly when there are no notes; and the category is that of the notes |
| DelayLeads.AllLeads | src/components/DelayLeads.jsx:80 | stored leads when storage gives some, else the sample leads |
| DelayLeads.FindIgnoreCase | src/components/DelayLeads.jsx:170 | `find` returns the first name equal to the key ignoring case, or nothing when none is |
| DelayLeads.MatchKey | src/components/DelayLeads.jsx:169-171 | a row is credited to a truthy stage name matching its status ignoring case |
| DelayLeads.StageCounts | src/components/DelayLeads.jsx:165-174 | the loop yields exactly the stage names as keys, each holding the number of ranged rows credited to it |
| DelayLeads.StageCountsTotal | src/components/DelayLeads.jsx:165-174 | over distinct names, the counts add up to the number of ranged rows matching some name, hence at most the number of ranged rows |
| DelayLeads.FilteredLeads | src/components/DelayLeads.jsx:177-183 | an order-preserving subsequence of the in-range rows: all of them without a selection; with one, exactly the in-range rows whose lowercased status equals the lowercased selection, in order and with repeats kept |
| DelayLeads.ButtonCountMatchesList | src/components/DelayLeads.jsx:165-183 | with names distinct ignoring case, a button's count equals the length of the list shown after clicking it |
| StageDefs.DefaultIcon | src/features/Dashboard/Dashboard.jsx:57-65 | the icon follows the first keyword found in the lowercased name, in the order convert, progress, lost, new, qual, one clause per keyword, with a chart icon when none occurs |
| StageDefs.DefaultColor | src/features/Dashboard/Dashboard.jsx:66-74 | the colour follows the same keywords in the same order, one clause per keyword, with blue when none occurs |
| StageDefs.IconDeterminesColor | src/features/Dashboard/Dashboard.jsx:57-74 | names given the same default icon are given the same default colour |
| StageDefs.DefaultsIgnoreCase | src/features/Dashboard/Dashboard.jsx:58-67 | the defaults ignore letter case |
| StageDefs.Normalize | src/features/Dashboard/Dashboard.jsx:157-170 | a non-array or unparseable setting gives no stages; a list starting with a string and holding no object gives each element's name with its defaults; any other list without a null gives each element read in the object form; a non-empty result has one definition per element |
| StageDefs.NormalizeLegacy | src/features/Dashboard/Dashboard.jsx:161-162 | a list of names becomes one definition per name, in order, with default colour and icon |
| StageDefs.NormalizeRecords | src/features/Dashboard/Dashboard.jsx:163 | object entries keep their own truthy name, colour and icon, and defaults fill the rest |
| StageDefs.NormalizeThrows | src/features/Dashboard/Dashboard.jsx:158-169 | a list whose first entry is a string and a later one an object, or whose first entry is not a string and a later one `null`, throws inside the `try` and gives no stages |
| StageDefs.SixDigits | src/features/Dashboard/Dashboard.jsx:176-177 | a three-digit colour expands by doubling each digit, giving six hex digits |
| StageDefs.RgbOf | src/features/Dashboard/Dashboard.jsx:173-182 | every component of a hex colour lies in 0..255 |
| StageDefs.ByteSplit | src/features/Dashboard/Dashboard.jsx:179-181 | shifting and masking a 24-bit number recovers its three bytes |
| StageDefs.HexValueSix | src/features/Dashboard/Dashboard.jsx:178 | six hex digits parsed as one number are three bytes, most significant first |
| StageDefs.HexToRgb | src/features/Dashboard/Dashboard.jsx:174-186 | `hexToRgb` gives the pairwise reading of the colour's six digits |
| StageDefs.HexColorIgnoresCase | src/pages/Dashboard.jsx:175 | the hex-colour test ignores letter case, and a colour stands for the same components in either case |
| StageDefs.ShortHexEqualsLong | src/pages/Dashboard.jsx:176-186 | a three-digit colour reads the same as its doubled six-digit form |
| StageDefs.CardLookOf | src/pages/Dashboard.jsx:546-549 | a card is tinted exactly when its colour is a valid hex colour, and then with that colour's components; otherwise it takes the preset the colour names, and blue when it names none |
| ChartLabels.FirstYear | src/features/Dashboard/Dashboard.jsx:123 | finds the leftmost stand-alone four-digit number, or reports that there is none |
| ChartLabels.ReplaceYear | src/features/Dashboard/Dashboard.jsx:119-125 | the first stand-alone four-digit number is replaced by the selected year, and the rest of the label is untouched |
| ChartLabels.ReplaceYearTwice | src/features/Dashboard/Dashboard.jsx:123 | changing the year twice equals choosing the last year directly |
| ChartLabels.ReplaceYearInLabel | src/pages/Dashboard.jsx:125 | "April 2025" becomes "April " followed by the selected year |
| QuickNumbers.MaxInitialStages | src/pages/Dashboard.jsx:41 | three stages from 1024 pixels on, two below |
| QuickNumbers.Toggle | src/pages/Dashboard.jsx:496-506 | the button flips the desktop flag on desktop and the other flag elsewhere |
| QuickNumbers.LabelMatchesList | src/pages/Dashboard.jsx:509-518 | the button label and the stage list read the same flag at every width, and one click flips it |
| QuickNumbers.DisplayedStages | src/pages/Dashboard.jsx:514-519 | all stages when expanded, otherwise the first `maxInitialStages` of them, always as a prefix |
| QuickNumbers.DisplayedWhenButtonHidden | src/pages/Dashboard.jsx:496-519 | with the button hidden nothing is cut; shown and collapsed, exactly the first two or three stages show |
| DashboardLeads.FilterLeads | src/pages/Dashboard.jsx:235-257 | the leads of the selected employee whose last action is in range, in stored order, and every such lead as often as it is stored |
| DashboardLeads.FilterLeadsSplits | src/pages/Dashboard.jsx:254-257 | the combined filter equals the employee filter and the date filter applied in either order |
| DashboardLeads.FilterLeadsUnconstrained | src/pages/Dashboard.jsx:235-237 | with no employee and no truthy date bound every lead is kept |
| DashboardLeads.BlankEmployeeHidesManager | src/pages/Dashboard.jsx:235 | a blank but non-empty employee choice hides the manager choice and disables the employee filter |
| DashboardLeads.SelectionMatchesPaddedAssignee | src/features/Dashboard/Dashboard.jsx:302 | an assignee padded with spaces matches its trimmed selection |
| DashboardLeads.Stats | src/pages/Dashboard.jsx:286-291 | the headline numbers are the list size and the number of new, duplicate, in-progress and cold-call leads, each at most the total |
| DashboardLeads.StatsAdditive | src/features/Dashboard/Dashboard.jsx:329-334 | the statistics of two lists put together are the sums of theirs |
| DashboardLeads.NewAndPendingDisjoint | src/pages/Dashboard.jsx:288-290 | when stage and status agree, no lead is counted both new and in progress |
| DashboardLeads.Percent | src/pages/Dashboard.jsx:554 | the percentage is 0 without leads, otherwise the exact ratio `count/total*100` rounded to the nearest integer (halves up), and at most 100; the code rounds a double instead (see "## Left out") |
| DashboardLeads.PercentMonotone | src/pages/Dashboard.jsx:554 | the percentage grows with the count |
| DashboardLeads.PercentEnds | src/features/Dashboard/Dashboard.jsx:603 | the whole list is 100 percent, and none of it is 0 percent |
| DashboardLeads.CardOf | src/features/Dashboard/Dashboard.jsx:603-630 | a card's count is the number of leads meeting its rule, and its percent is that count's rounded share |
| FeaturesDashboard.KeyAt | src/features/Dashboard/Dashboard.jsx:280 | a record is keyed by its id, or by a fresh key when it has none |
| FeaturesDashboard.MergeById | src/features/Dashboard/Dashboard.jsx:278-281 | the map loop gives one entry per key, in first-insertion order, each holding the last record stored under that key; its keys and records are exactly `MergedKeys` and `Merged` |
| FeaturesDashboard.MergeByIdRecords | src/features/Dashboard/Dashboard.jsx:279-281 | after the merge no id repeats, records without an id all survive, and the last record of every id survives |
| FeaturesDashboard.MergedKeysOrder | src/features/Dashboard/Dashboard.jsx:279-281 | the keys of the merge are distinct, cover every stored record, and follow the order of their first occurrence |
| FeaturesDashboard.Survivors | src/features/Dashboard/Dashboard.jsx:278-281 | every merged record is a survivor (a stored record no later record shares a key with); no id is repeated; every record without an id and every record that is the last under its key is included |
| FeaturesDashboard.FilteredSurvivors | src/features/Dashboard/Dashboard.jsx:278-305 | the employee-and-date filter of the merged records keeps only survivors, keeps ids apart, and keeps every survivor it accepts |
| FeaturesDashboard.AllLeads | src/features/Dashboard/Dashboard.jsx:269-305 | the result is exactly the employee-and-date filter of the merged records, so it is fixed in content, order and length; every lead shown is a survivor of the merge that the filter accepts; no id is shown twice; every survivor (no id, or last with its id) is shown when the filter accepts it |
| FeaturesDashboard.FixedCards | src/features/Dashboard/Dashboard.jsx:565-633 | four cards in the order new, duplicate, pending, follow-up, each counting exactly the leads its rule accepts, with the rounded percentage of all leads; counts are at most all leads and percents at most 100 |
| FeaturesDashboard.FixedCardsCoverStats | src/features/Dashboard/Dashboard.jsx:565-568 | the new card equals the statistic; the duplicate and pending cards count at least as many as the statistics, and pending equals its statistic when no lead has status `pending` |
| PagesDashboard.AllLeads | src/pages/Dashboard.jsx:229-262 | leads come from the stored array only (none when missing or not an array), through the employee-and-date filter, as a subsequence |
| PagesDashboard.StagePrecedence | src/pages/Dashboard.jsx:553 | a non-empty stage decides the card, ignoring case; the status counts only when the stage is empty |
| PagesDashboard.StageCard | src/pages/Dashboard.jsx:553-554 | a stage card counts the leads on that stage, at most all of them, with a percent of at most 100 |
| PagesDashboard.StageCards | src/pages/Dashboard.jsx:546-554 | one card per displayed stage, in order |
| PagesDashboard.StageCardsTotal | src/pages/Dashboard.jsx:546-554 | with stage names distinct ignoring case, the cards together count at most all leads |
| StageSettings.DefaultColor | src/pages/LeadsStagesStatus.jsx:6-14 | the colour follows the first keyword found, in the order new, qual, progress, convert-or-won, lost, one clause per keyword, with `#2563eb` when none occurs |
| StageSettings.DefaultIcon | src/pages/LeadsStagesStatus.jsx:16-24 | the icon follows the same keywords in the same order, one clause per keyword, with a chart icon when none occurs |
| StageSettings.BlankDefaults | src/pages/LeadsStagesStatus.jsx:41-49 | the empty name gets the fallback colour and icon |
| StageSettings.IconDeterminesColor | src/pages/LeadsStagesStatus.jsx:6-24 | names given the same icon are given the same colour |
| StageSettings.DefaultsDifferFromDashboards | src/pages/LeadsStagesStatus.jsx:6-24 | a name with both "new" and "convert" gets different defaults here and on the dashboards |
| StageSettings.ExistsIff | src/pages/LeadsStagesStatus.jsx:104 | `some` holds exactly when an entry has the name ignoring case |
| StageSettings.Added | src/pages/LeadsStagesStatus.jsx:100-109 | a blank or present name (ignoring case) leaves the list unchanged; a fresh one is prepended as a new entry, with the old entries following unchanged |
| StageSettings.Removed | src/pages/LeadsStagesStatus.jsx:111-114 | removal keeps exactly the entries of another name ignoring case, in order, each as often as in the list, and none of that name |
| StageSettings.AddedKeepsDistinct | src/pages/LeadsStagesStatus.jsx:104-106 | an add never introduces a case-insensitive duplicate |
| StageSettings.RemovedIdempotent | src/pages/LeadsStagesStatus.jsx:111-114 | removing twice is removing once, and afterwards the name is gone |
| StageSettings.RemovedAbsent | src/pages/LeadsStagesStatus.jsx:111-114 | removing an absent name changes nothing |
| StageSettings.AddThenRemove | src/pages/LeadsStagesStatus.jsx:100-114 | adding a fresh name and removing it restores the list |
| StageSettings.CountByName | src/pages/LeadsStagesStatus.jsx:62-84 | the counters have exactly the lowercased entry names as keys, each holding the number of leads with that key |
| StageSettings.ZeroCounts | src/pages/LeadsStagesStatus.jsx:65 | the initial counters have exactly the lowercased entry names as keys, all at 0 |
| StageSettings.CountsBounded | src/pages/LeadsStagesStatus.jsx:62-72 | with distinct names, the counts add up to at most the number of leads |
| StageSettings.Typed | src/pages/LeadsStagesStatus.jsx:41-49 | typing a different name sets the colour and icon to that name's defaults and keeps the Arabic name; setting the current name again leaves the form as it was |
| StageSettings.Edited | src/pages/LeadsStagesStatus.jsx:143-146 | typing into the Arabic-name, colour or icon input sets that field and leaves the other three |
| StageSettings.EditedThenTyped | src/pages/LeadsStagesStatus.jsx:41-44 | a hand-edited colour or icon lasts only until the name changes, which brings back the new name's defaults |
| StageSettings.DefaultsIgnoreCaseAgree | src/pages/LeadsStagesStatus.jsx:7-17 | names equal ignoring case get the same defaults |
| StageSettings.SubmitShape | src/pages/LeadsStagesStatus.jsx:100-109 | submitting stores the add's result; the form clears when the list grew and is kept otherwise |
| StageSettings.SettingsPage.constructor | src/pages/LeadsStagesStatus.jsx:31-39 | both panels start with their list and a blank form |
| StageSettings.SettingsPage.TypeStageName | src/pages/LeadsStagesStatus.jsx:41-44 | typing a stage name updates only the stage form |
| StageSettings.SettingsPage.TypeStatusName | src/pages/LeadsStagesStatus.jsx:46-49 | typing a status name updates only the status form |
| StageSettings.SettingsPage.EditStageField | src/pages/LeadsStagesStatus.jsx:144-146 | typing into a stage form input other than the name updates only that field of the stage form |
| StageSettings.SettingsPage.EditStatusField | src/pages/LeadsStagesStatus.jsx:186-188 | typing into a status form input other than the name updates only that field of the status form |
| StageSettings.SettingsPage.AddStage | src/pages/LeadsStagesStatus.jsx:100-109 | `handleAddStage` submits the stage panel and leaves the status panel |
| StageSettings.SettingsPage.AddStatus | src/pages/LeadsStagesStatus.jsx:116-125 | `handleAddStatus` submits the status panel and leaves the stage panel |
| StageSettings.SettingsPage.RemoveStage | src/pages/LeadsStagesStatus.jsx:111-114 | `handleRemoveStage` removes from the stage list only |
| StageSettings.SettingsPage.RemoveStatus | src/pages/LeadsStagesStatus.jsx:127-130 | `handleRemoveStatus` removes from the status list only |
| LeadsAnalysis.KeptIff | src/components/LeadsAnalysisChart.jsx:151-203 | an item gets through the chain exactly when it passes every running link |
| LeadsAnalysis.ChainLink | src/components/LeadsAnalysisChart.jsx:155-200 | filtering the result of the first `n` links by link `n`, when its field is set, gives the result of `n + 1` links |
| LeadsAnalysis.ApplyLink | src/components/LeadsAnalysisChart.jsx:155-200 | one conditional step narrows the running result exactly as the next link prescribes |
| LeadsAnalysis.ApplyFilters | src/components/LeadsAnalysisChart.jsx:151-203 | the chain keeps exactly the items passing every running link, in input order |
| LeadsAnalysis.KeptIsSubsequence | src/components/LeadsAnalysisChart.jsx:151-203 | the result is an order-preserving subsequence of the input |
| LeadsAnalysis.NoCriteriaKeepsAll | src/components/LeadsAnalysisChart.jsx:151-202 | with no search term and no advanced filter the input comes back unchanged |
| LeadsAnalysis.KeptMeans | src/components/LeadsAnalysisChart.jsx:155-200 | a kept item contains the search term in label, lead name or employee ignoring case, has the exact employee and stage, and lies within inclusive date and value bounds |
| LeadsAnalysis.KeptWhen | src/components/LeadsAnalysisChart.jsx:155-200 | an item meeting every running condition is kept |
| LeadsAnalysis.SearchNeedsAField | src/components/LeadsAnalysisChart.jsx:155-160 | an item with none of the three searched fields never matches a search term |
| LeadsAnalysis.LinksCommute | src/components/LeadsAnalysisChart.jsx:163-200 | any two links applied in either order keep the same items in the same order |
| LeadsAnalysis.ClearAll | src/components/LeadsAnalysisChart.jsx:205-216 | `clearAllFilters` empties the search term and all seven fields |
| LeadsAnalysis.ClearAllShowsEverything | src/components/LeadsAnalysisChart.jsx:205-216 | after clearing, the chart shows all of its data |
| OrgStructure.TeamsForDept | src/data/orgStructure.js:16-18 | no teams for an empty or unknown name; a known department's own team list otherwise |
| OrgStructure.DepartmentsHaveTeams | src/data/orgStructure.js:4-14 | every listed department has a non-empty team list, and the team table lists no other department |
| OrgStructure.TeamsIffDepartment | src/data/orgStructure.js:4-18 | a name has teams exactly when it names a listed department |
| UserCreate.With | src/pages/UserManagementUserCreate.jsx:44-46 | `updateField` changes exactly the named field |
| UserCreate.WithDepartment | src/pages/UserManagementUserCreate.jsx:153-158 | the department is replaced; the team is kept when the new department offers it and cleared otherwise; nothing else changes |
| UserCreate.UnknownDepartmentClearsTeam | src/pages/UserManagementUserCreate.jsx:155-157 | choosing a name that is not a department clears the team |
| UserCreate.WithDepartmentIdempotent | src/pages/UserManagementUserCreate.jsx:153-158 | choosing the same department again changes nothing more |
| UserCreate.Dedup | src/pages/UserManagementUserCreate.jsx:50 | building a set keeps each entry once, with the same members, in the order of the list |
| UserCreate.DedupDistinct | src/pages/UserManagementUserCreate.jsx:50 | a list without repeats passes through the set unchanged |
| UserCreate.Toggled | src/pages/UserManagementUserCreate.jsx:48-55 | the permission is removed when present and added when absent, the group has no repeats, and other permissions keep their membership; an added permission goes last after the set of the list, and a removal keeps the order of that set |
| UserCreate.ToggleMembership | src/pages/UserManagementUserCreate.jsx:50-53 | the set-building loop followed by `delete` or `add` computes the toggle |
| UserCreate.ToggleTwiceRestores | src/pages/UserManagementUserCreate.jsx:48-55 | toggling an absent permission twice restores the group exactly |
| UserCreate.ToggleTwiceMovesToEnd | src/pages/UserManagementUserCreate.jsx:48-55 | toggling a present permission twice keeps the same permissions, with that one moved to the end |
| UserCreate.CollectErrors | src/pages/UserManagementUserCreate.jsx:57-62 | the errors are exactly the blank name, email and role, and the short password when no invite is sent |
| UserCreate.ValidIff | src/pages/UserManagementUserCreate.jsx:57-64 | there are no errors exactly when name, email and role are non-blank and, without an invite, the password has at least 8 characters |
| UserCreate.InitialFormErrors | src/pages/UserManagementUserCreate.jsx:27-62 | the untouched form fails on name, email and role, and not on the password |
| UserCreate.UserCreatePage.constructor | src/pages/UserManagementUserCreate.jsx:27-40 | the page starts with the initial form, no permissions and no errors |
| UserCreate.UserCreatePage.UpdateField | src/pages/UserManagementUserCreate.jsx:44-46 | a text field update changes that field only |
| UserCreate.UserCreatePage.UpdateSendInvite | src/pages/UserManagementUserCreate.jsx:44-46 | the invite checkbox changes that flag only |
| UserCreate.UserCreatePage.SelectDepartment | src/pages/UserManagementUserCreate.jsx:153-158 | the department change applies the team reset rule to the form |
| UserCreate.UserCreatePage.TogglePerm | src/pages/UserManagementUserCreate.jsx:48-55 | only the named group's list changes, to its toggle |
| UserCreate.UserCreatePage.Validate | src/pages/UserManagementUserCreate.jsx:57-65 | records exactly the failing fields and reports success exactly when there are none |
| UserCreate.UserCreatePage.Submit | src/pages/UserManagementUserCreate.jsx:67-74 | a payload is produced exactly when validation passes, and carries the permissions exactly for the Custom role |
| AppState.IsSubscriptionActive | src/providers/AppStateProvider.jsx:13-19 | active exactly when there is a subscription whose status reads "active" in any case and which either has no end date or has one that parses and is at or after now |
| AppState.ExpiryIsFinal | src/providers/AppStateProvider.jsx:18 | a subscription inactive at some moment stays inactive later |
| AppState.EndDateInclusive | src/providers/AppStateProvider.jsx:18 | the end date itself still counts as active |
| AppState.StatusIgnoresCase | src/providers/AppStateProvider.jsx:15-16 | only the letter case of the status is ignored |
| AppState.ModulesOf | src/providers/AppStateProvider.jsx:26 | a non-array module list installs no modules, and an array installs itself |
| AppState.NonArrayGrantsNothing | src/providers/AppStateProvider.jsx:51-54 | a payload without a module array grants access to nothing |
| AppState.CanAccessOnlyEnabled | src/providers/AppStateProvider.jsx:51-54 | the empty key is never granted, a granted key is an enabled module, and enabling more modules never revokes access |
| AppState.AppStateProvider.constructor | src/providers/AppStateProvider.jsx:8-11 | the provider starts with no user, company, subscription or modules |
| AppState.AppStateProvider.SetProfile | src/providers/AppStateProvider.jsx:21-27 | a missing payload changes nothing; otherwise the four parts are replaced and the active flag is recomputed |
| Campaigns.AllSegments | src/components/ActiveCampaignsCard.jsx:11-16 | given segments are used as they are, even an empty list; otherwise the three defaults |
| Campaigns.DisplaySegments | src/components/ActiveCampaignsCard.jsx:18-20 | all segments while paused ones are shown, otherwise exactly those not captioned Paused, in order |
| Campaigns.TotalActiveAppend | src/components/ActiveCampaignsCard.jsx:22-24 | the active total is additive over a split segment list |
| Campaigns.TotalActiveAtMostSum | src/components/ActiveCampaignsCard.jsx:22-24 | with non-negative values, the active total lies between 0 and the sum of all values |
| Campaigns.DefaultTotalActive | src/components/ActiveCampaignsCard.jsx:11-24 | the default segments give 17 active campaigns |
| Campaigns.TotalActive | src/components/ActiveCampaignsCard.jsx:22-24 | the active total is the sum over all segments less the values of the segments captioned neither On Track nor At Risk, and 0 when there are none of those |
| Campaigns.ActiveTop | src/components/ActiveCampaignsCard.jsx:32 | exactly the campaigns not marked paused, in order |
| Campaigns.AvgOpenRate | src/components/ActiveCampaignsCard.jsx:33 | the average is the mean open rate rounded half up, and is missing (`NaN`) without campaigns |
| Campaigns.AvgOpenRateWithin | src/components/ActiveCampaignsCard.jsx:33 | the average lies within the range of the averaged rates |
| Campaigns.DefaultAvgOpenRate | src/components/ActiveCampaignsCard.jsx:26-33 | the listed campaigns average 25 in either language |
| Campaigns.StatusColor | src/components/ActiveCampaignsCard.jsx:37-41 | emerald exactly for `onTrack`, amber exactly for `atRisk`, red exactly for every other status |
| Campaigns.StatusCaption | src/components/ActiveCampaignsCard.jsx:43-47 | one of the three captions: On Track for `onTrack`, At Risk for `atRisk`, Paused for every other status |
| Campaigns.ColorMatchesCaption | src/components/ActiveCampaignsCard.jsx:37-47 | colour and caption agree, and every status other than the two named ones is red and captioned Paused |
| Campaigns.UnknownStatusRunsButReadsPaused | src/components/ActiveCampaignsCard.jsx:32-47 | any campaign whose status is none of the three known ones is kept among the running campaigns of any list holding it, and so counts in the average, yet its badge is red and captioned Paused |
| ActiveUsers.DataUsers | src/features/Dashboard/components/ActiveUsersChart.jsx:156 | the given users when there are some, else the default users |
| ActiveUsers.JsRem | src/features/Dashboard/components/ActiveUsersChart.jsx:176 | the remainder takes the sign of the dividend |
| ActiveUsers.Split | src/features/Dashboard/components/ActiveUsersChart.jsx:173-176 | for a past time, `hours*60 + rem` is the whole minutes elapsed, with `hours >= 0` and `0 <= rem < 60`; for a future time, hours are negative and the remainder lies in (-60, 0] |
| ActiveUsers.HoursShownIff | src/features/Dashboard/components/ActiveUsersChart.jsx:177-182 | the hours form is used exactly from one full hour on |
| ActiveUsers.RelativeUnderAnHour | src/features/Dashboard/components/ActiveUsersChart.jsx:172-183 | under an hour ago, the text is the whole minutes elapsed: "N min ago" in English and the minutes form in Arabic |
| ActiveUsers.RelativeHoursAgo | src/features/Dashboard/components/ActiveUsersChart.jsx:172-183 | from an hour ago on, the text shows the whole hours and the minutes left over, in the English and the Arabic form |
| ActiveUsers.RelativeFuture | src/components/ActiveUsersChart.jsx:142-153 | a future last-seen time still takes the minutes form in both languages ("... min ago" and its Arabic text), with a count of zero or less |
| ActiveUsers.ActiveCount | src/components/ActiveUsersChart.jsx:156-157 | the active count is at most the total |
| ActiveUsers.InactiveCount | src/features/Dashboard/components/ActiveUsersChart.jsx:288 | the footer's `total - active` is the number of inactive users |
| ActiveUsers.ContentMaxH | src/features/Dashboard/components/ActiveUsersChart.jsx:37-43 | the content height is card less header and footer; no room reads as not measured |
| ActiveUsers.ListMaxHeight | src/features/Dashboard/components/ActiveUsersChart.jsx:223 | room for every row with at most three users; otherwise the measured height, or three rows |
| ActiveUsers.UnmeasuredListAtMostThreeRows | src/features/Dashboard/components/ActiveUsersChart.jsx:223 | before measuring, the list is never taller than three rows |
| ActiveUsers.Pad2 | src/components/ActiveUsersChart.jsx:137 | a number below 100, padded, is two digits that read back as it |
| ActiveUsers.FormatHMFallbackReadsBack | src/components/ActiveUsersChart.jsx:133-140 | the fallback clock text is `HH:MM`, and both halves read back as the hours and minutes |

## Left out

- Rendering: JSX, class strings, chart.js dataset and option objects, icons, tooltips, modals and theme. This is presentation, not behaviour.
- Translation: `t(...)` is the identity on keys, or a parameter such as the campaign captions.
- Browser storage and events: `localStorage` reads are the `StorageValue` input (missing, unparsable, non-array, array). Writes, the `storage` and `leadsDataUpdated` listeners and the refresh trigger are not modelled.
- The network: `login`, `fetchCompanyInfo`, the token bootstrap and device saving in the provider are asynchronous calls into code outside this model.
- Real date handling: `new Date`, local-time `setHours` and the quick-range setters `setDateRange`, `setCurrentMonth` and `setCurrentYear` read the clock and the time zone. Dates are millisecond integers and days are UTC day numbers.
- DashboardLeads.Percent: the model rounds the exact ratio `100 * count / total`. The code rounds the IEEE-754 double product `(count / total) * 100`, which can fall just below one half. For 23 leads out of 40 the product is 57.49999999999999, so the code shows 57 where the model gives 58. The same happens for 46/80, 69/120, 92/160, 115/200, 29/200, 57/200 and 113/200 among totals up to 200. This affects the card percentages of both dashboards, which take their value from this function.
- Floating point: values and measures are exact reals, and `NaN` item values are not modelled. Also left out are `toFixed` displays, the click and conversion averages of the campaign card, chart heights and `Intl` formatting.
- Pipeline: `applyYearToLabel` (`toLocaleDateString`), the line-chart series and the `|| 0` in the bar and pie datasets are rendering.
- Leads analysis chart: the choice of `data` or a sample series is not modelled.
- Delayed leads: a `null` element of the stored lead array is not modelled (the code reads `lead?.status`). The tooltip, the lead modal, the scroll rule and the call, WhatsApp and mail hand-offs are left out as well.
- FeaturesDashboard.MergeById: the random key of an id-less record is modelled as its position, a key no other record has. Two such records never collide, which holds with overwhelming probability only. Spreading a stored value that is not an array (this `parse` has no array check) is not modelled: the merge takes the list of records.
- StageDefs.Normalize: the case where the stored value is a string rather than an array is covered only through the non-array case.
- StageDefs.Normalize: a `null` element of a legacy list keeps `name: null` in the code; the model writes `''` for its name. Its colour and icon are the defaults of `''` either way. A number element is not modelled.
- StageDefs.HexToRgb: the `catch` branch is not modelled, because it requires a valid hex colour, as the only caller does.
- StageSettings.Typed: setting the name it already has no longer promises that name's defaults. React runs no effect for an unchanged value, so a colour or icon edited by hand is kept.
- StageSettings: the lists come from a hook that is not part of this model, and saving writes to storage. An object entry with an empty name makes `(s.name || s).toLowerCase()` throw; entries are either strings or named objects here. JavaScript's `in` also finds inherited keys such as `constructor`, which the map model does not.
- UserCreate: the permission table and role lists are rendering data. Navigation, `alert` and `console.log` after submit are left out. The error texts are `UserCreate.Message`. Password length counts characters, not UTF-16 code units.
- AppState.AppStateProvider.SetProfile: the memoised active flag is recomputed at every `setProfile` with a payload, with "now" passed in. React recomputes it only when the subscription object changes, so keeping the same object keeps an older result; the flag also goes stale as time passes, which the model shares.
- Text.Lower: case folding covers ASCII letters only. Arabic text, which has no case, is unaffected either way; other scripts with case are not modelled.
- Text.Trim: whitespace is a fixed set of common space characters, not the full Unicode set that `trim` removes.
- ActiveUsers: `Intl.DateTimeFormat` is left out, and only the fallback of `formatHM` is modelled. The `components/` version's fixed list height of six rows of 72 pixels is a constant. `Array.isArray(dataUsers)` always holds for the arrays modelled here.
- PipelineAnalysis takes no props, so it ignores the employee, `dateFrom` and `dateTo` values the dashboards pass it. DelayLeads ignores only `selectedEmployee`. Its `dateFrom` and `dateTo` are the dashboard's date range: they are the `from` and `to` parameters of `DelayLeads.Ranged` and `DelayLeads.FilteredLeads`, and `DelayLeads.StageCounts` counts the rows `Ranged` keeps.

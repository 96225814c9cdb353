# Media asset manager — the state updaters, in Dafny

The system is a Next.js front end for a media asset manager. Its pages include the
asset library, ingest, onboarding queue, QC, delivery packages, encoding, highlight reels,
dubbing, workflows, trash, review, tagging, subtitles and user administration. There is no
back end. Each page keeps records in React state, and timers stand in for background
work. The behaviour that matters is the set of `prev => next` updaters inside the event
handlers, plus a few pure helpers: filters, formatters and lookups.

This project models those updaters as pure functions over immutable datatypes and proves
what they promise:
- guards that turn a handler into a no-op;
- "only the record with this id changes";
- subsequence and permutation results;
- toggles that restore the original list when applied twice;
- progressions that never go backwards, for templates of at most ten steps;
- the formatters' arithmetic.

Random ids and the clock are parameters: a fresh id, `now`, or a function from position to
id. Each `setTimeout` callback is an event that is applied in order.

Modules (one per source file, plus three shared ones):

| module | models |
|---|---|
| `Wrappers` | `Option` |
| `Text` | `trim`, ASCII `toLowerCase`/`toUpperCase`, `includes`, `replace`, `split('.').pop()`, `padStart`, number printing, string `<` |
| `Lists` | `filter`, the remove-or-append toggle, `map` over matching ids, subsequences |
| `Types` | the records and string-literal unions of `src/types/index.ts` |
| `Auth` | `hasPermission` |
| `Navigation` | the sidebar table, its permission filter and the active-link test |
| `Library` | the asset library's filter/sort effect and its selection helpers |
| `FlowWorks`, `EncodeX`, `LinguaX`, `Delivery`, `Highlights`, `Onboard`, `Ingest` | the job and workflow pages |
| `Qc` | the QC report and its overall verdict |
| `Restore` | the trash page |
| `Subtitles`, `Tagging`, `Review` | per-asset editing |
| `Permissions` | user administration |

## Model

| member | source | states |
|---|---|---|
| Types.ParseRole | src/types/index.ts:5 | A role literal parses exactly when it is one of admin, editor, viewer, and it parses to the role that prints as it |
| Types.ParseResource | src/types/index.ts:15 | A resource literal is one of assets, users, settings; any other string is rejected |
| Types.ParseAction | src/types/index.ts:16 | An action literal is one of create, read, update, delete; any other string is rejected |
| Types.ParseFileType | src/types/index.ts:23 | A file type is one of video, audio, image, document; any other string is rejected |
| Types.ParseAssetStatus | src/types/index.ts:34 | An asset status is one of uploading, processing, ready, error, deleted; any other string is rejected |
| Types.ParseUploadStatus | src/types/index.ts:93 | An upload status is one of uploading, processing, completed, error; any other string is rejected |
| Types.ParseSortBy | src/types/index.ts:76 | The sort field is one of name, uploadedAt, fileSize, duration; any other string is rejected |
| Types.ParseSortOrder | src/types/index.ts:77 | The sort order is asc or desc; any other string is rejected |
| Types.LiteralsRoundTrip | src/types/index.ts:5-93 | Printing any enumeration value and parsing it back yields the same value, for all eight unions |
| Types.ReplaceAsset | src/app/assets/subtitles/page.tsx:190 | Replacing the selected asset in the list keeps the length, replaces every entry with its id and leaves every other entry unchanged |
| Text.TrimStart | src/app/assets/subtitles/page.tsx:171 | Trimming the front drops exactly a leading run of whitespace and stops at a non-whitespace character |
| Text.TrimEnd | src/app/assets/subtitles/page.tsx:171 | Trimming the back drops exactly a trailing run of whitespace and stops at a non-whitespace character |
| Text.BlankIffAllWhitespace | src/app/assets/review/page.tsx:220 | `!s.trim()` holds exactly when every character of `s` is whitespace, so the empty string is blank |
| Text.Lower | src/app/assets/library/page.tsx:125-129 | Lower-casing keeps the length and maps each character through the ASCII lower-case map |
| Text.Upper | src/app/assets/subtitles/page.tsx:256 | Upper-casing keeps the length and maps each character through the ASCII upper-case map |
| Text.IndexOf | src/app/assets/encodex/page.tsx:266 | The search finds a position exactly when the pattern occurs, and the position found is the first occurrence |
| Text.ReplaceFirst | src/app/assets/encodex/page.tsx:266 | Without an occurrence the string is unchanged; otherwise the first occurrence, and only it, is replaced |
| Text.ReplaceAtFirst | src/app/assets/encodex/page.tsx:266 | Given the first occurrence at k, the result is the prefix before k, the replacement, then the rest after the pattern |
| Text.AfterLastDot | src/app/assets/ingest/page.tsx:118 | `split('.').pop()` is a dot-free suffix of the name, preceded by a dot whenever it is shorter than the name |
| Text.NoDotKeepsWholeName | src/app/assets/ingest/page.tsx:118 | A name without a dot is its own last segment |
| Text.AfterLastDotOfDotted | src/app/assets/ingest/page.tsx:118 | For `stem.ext` with a dot-free `ext`, the last segment is `ext`, whatever dots the stem holds |
| Text.PadStart | src/app/assets/restore/page.tsx:263 | Padding leaves a long enough string alone; otherwise it reaches the width by prefixing the pad character, and the string stays at the end |
| Text.NatToString | src/app/assets/restore/page.tsx:263 | A number prints as a non-empty run of digits, with a leading zero only for 0 itself |
| Text.IntToString | src/app/assets/onboard/page.tsx:216-220 | An integer prints as digits, with a leading minus sign exactly when it is negative |
| Text.NatToStringRoundTrip | src/app/assets/restore/page.tsx:263 | Reading the printed digits back gives the number |
| Text.NatToStringInjective | src/app/assets/restore/page.tsx:263 | Two numbers that print the same are equal |
| Text.LeadingZeroIgnored | src/app/assets/restore/page.tsx:263 | A zero put in front of a digit string does not change its value, which is what makes the padded seconds readable |
| Text.ShortNumeral | src/app/assets/restore/page.tsx:263 | Numbers below 100 print in at most two digits, so padding to two is enough for seconds |
| Text.StrLessIrreflexive | src/app/assets/library/page.tsx:174-178 | String `<` never relates a string to itself |
| Text.StrLessTransitive | src/app/assets/library/page.tsx:174-178 | String `<` is transitive |
| Text.StrLessTotal | src/app/assets/library/page.tsx:174-178 | Of two different strings, one is `<` the other |
| Lists.RemoveAll | src/app/assets/library/page.tsx:190-192 | `filter(y => y !== x)` removes every occurrence of x and keeps every other element as often as the input holds it; the list shortens exactly when x was present |
| Lists.ToggleFlipsMembership | src/app/assets/library/page.tsx:188-195 | The remove-or-append toggle flips the membership of its value and of no other value |
| Lists.ToggleTwiceRestores | src/app/assets/library/page.tsx:188-195 | Toggling an absent value twice gives back the original list |
| Lists.CheckThenUncheck | src/app/assets/delivery/page.tsx:394-399 | Checking an unchecked box and unchecking it again gives back the original list |
| Lists.FilterTwice | src/app/assets/library/page.tsx:121-149 | Two filters in a row keep, in order, exactly the elements that pass both, each as often as the input holds it |
| Lists.FilterCounts | src/app/assets/library/page.tsx:121-149 | A `filter` keeps every passing element exactly as often as the input holds it, and no failing element |
| Lists.FilterDropsAppended | src/app/assets/subtitles/page.tsx:225-235 | Filtering away a just-appended element that fails the test, from a list whose elements all pass, gives back the list |
| Lists.FilterIdempotent | src/app/assets/subtitles/page.tsx:228-231 | Filtering again with the same test changes nothing |
| Lists.Find | src/app/assets/delivery/page.tsx:242 | `find` returns an element that passes the test with none passing before it, and returns nothing exactly when no element passes |
| Lists.SetChecked | src/app/assets/linguax/page.tsx:403-408 | Checking a box appends its value; unchecking removes every occurrence of it and keeps every other element, in order and as often as before |
| Auth.AnyGrants | src/contexts/AuthContext.tsx:73-77 | `permissions.some(...)` is true exactly when some permission has the given resource and action |
| Auth.HasPermission | src/contexts/AuthContext.tsx:70-78 | With no user the answer is false; otherwise it is true exactly when one of the user's permissions matches both resource and action |
| Auth.ResourceAloneDoesNotGrant | src/contexts/AuthContext.tsx:74-76 | A permission on the right resource with another action grants nothing |
| Auth.HasPermissionMonotone | src/contexts/AuthContext.tsx:73-77 | When every permission of one user is also a permission of another, each access granted to the first is granted to the second |
| Auth.HasPermissionOrderIrrelevant | src/contexts/AuthContext.tsx:73-77 | Reordering or permuting a user's permissions does not change any answer |
| Navigation.FilterItems | src/components/layout/Navigation.tsx:59-64 | The filter keeps an order-preserving subsequence: every non-admin item, and each admin item exactly when the user may read users |
| Navigation.OnlyPermissionsIsAdmin | src/components/layout/Navigation.tsx:27-43 | The table has fifteen entries, and only the last one, Permissions, is an admin route |
| Navigation.SizeWithLastAdmin | src/components/layout/Navigation.tsx:59-64 | In a table whose only admin route is its last entry, the filter keeps everything or drops exactly that entry |
| Navigation.FilteredNavigationSize | src/components/layout/Navigation.tsx:27-64 | A user who may read users sees fifteen entries; anyone else, including nobody signed in, sees fourteen |
| Navigation.AtMostOneActive | src/components/layout/Navigation.tsx:84 | The active test is exact equality with the href, and no two entries share an href, so at most one entry is active |
| Library.FilterAssets | src/app/assets/library/page.tsx:121-149 | The filtered list is a subsequence of the assets, holds each asset that passes all four tests as often as the input does and no other, and is the whole input when no filter is active |
| Library.FourStages | src/app/assets/library/page.tsx:121-149 | The four successive filter stages only remove assets, and together they keep exactly the assets that pass query, file type, status and tags, each as often as the input holds it |
| Library.TestsAgree | src/app/assets/library/page.tsx:124-148 | Passing all filters is the conjunction of the four stage tests |
| Library.InactiveFiltersKeepAll | src/app/assets/library/page.tsx:124-148 | With an empty query and empty filter lists, every asset is kept in its original order |
| Library.KeyLessIrreflexive | src/app/assets/library/page.tsx:154-178 | The key order never relates a sort key to itself |
| Library.KeyLessTransitive | src/app/assets/library/page.tsx:154-178 | The key order is transitive |
| Library.KeyLessTotal | src/app/assets/library/page.tsx:154-178 | Of two different sort keys, one is below the other |
| Library.NotLessTransitive | src/app/assets/library/page.tsx:154-178 | "Not below" is transitive, so ties can be placed consistently |
| Library.Compare | src/app/assets/library/page.tsx:174-178 | The comparator never returns 0; in asc order it returns 1 exactly when b's key is below a's, in desc order exactly when a's key is below b's |
| Library.SwapAllowed | src/app/assets/library/page.tsx:174-178 | When a may not precede b, b may precede a |
| Library.MayPrecedeTransitive | src/app/assets/library/page.tsx:174-178 | The "may precede" relation is transitive |
| Library.SortAssets | src/app/assets/library/page.tsx:151-179 | Sorting returns a permutation of its input that is ordered by the chosen key and direction |
| Library.DistinctKeysStrictlyOrdered | src/app/assets/library/page.tsx:174-178 | In a sorted list, two assets with different keys appear with strictly increasing keys (asc) or strictly decreasing keys (desc) |
| Library.VisibleAssets | src/app/assets/library/page.tsx:120-182 | The visible list holds each asset that passes the filters exactly as often as the input does and no other, ordered by the sort settings |
| Library.SetQuery | src/app/assets/library/page.tsx:184-186 | Searching sets the query and leaves every other filter field unchanged |
| Library.ToggleFileType | src/app/assets/library/page.tsx:188-195 | The file-type toggle appends an absent type at the end, removes every occurrence of a present one keeping the other types in order and with their counts, flips membership of that type only, and touches no other field |
| Library.ToggleStatus | src/app/assets/library/page.tsx:197-204 | The status toggle appends an absent status at the end, removes every occurrence of a present one keeping the other statuses in order and with their counts, flips membership of that status only, and touches no other field |
| Library.ToggleFileTypeTwice | src/app/assets/library/page.tsx:188-195 | Clicking an unselected file type twice restores the filters |
| Library.ToggleStatusTwice | src/app/assets/library/page.tsx:197-204 | Clicking an unselected status twice restores the filters |
| Library.ToggleSelection | src/app/assets/library/page.tsx:206-212 | Selecting an asset removes every occurrence of its id if present, keeping the other ids in order and with their counts, and appends it at the end otherwise; no other id changes membership |
| Library.ToggleSelectionTwice | src/app/assets/library/page.tsx:206-212 | Selecting an unselected asset twice restores the selection |
| Library.Ids | src/app/assets/library/page.tsx:218 | The id list has one entry per asset, in order |
| Library.SelectAll | src/app/assets/library/page.tsx:214-220 | Select-all clears the selection when its length equals the visible count, and otherwise selects exactly the visible ids in order |
| FlowWorks.Instantiate | src/app/assets/flowworks/page.tsx:345-356 | A new workflow has the template's steps in order, all pending, progress 0, status running and the asset's id |
| FlowWorks.StartWorkflow | src/app/assets/flowworks/page.tsx:335-360 | Starting is a no-op without an asset, a template id or a known template; otherwise exactly one workflow is prepended |
| FlowWorks.Apply | src/app/assets/flowworks/page.tsx:363-396 | The start callback sets progress 10 and marks the first template step running, by id, leaving every other step as it was; completion i marks the step with template step i's id completed with start `now-(n-i)·60000` and end `now`, marks the next template step running, leaves the other steps as they were, and sets progress (i+1)/n·100 and the current step to i+1, or to none after the last; name, start time and estimated completion are kept |
| FlowWorks.ApplyToList | src/app/assets/flowworks/page.tsx:364-365 | Each callback changes only the workflow with the new workflow's id |
| FlowWorks.DependenciesNeverRead | src/app/assets/flowworks/page.tsx:377-395 | Two templates with the same step ids drive every callback identically, whatever their dependency lists say |
| FlowWorks.StartIsStageZero | src/app/assets/flowworks/page.tsx:362-372 | On a freshly built workflow with distinct step ids, the start callback marks the first step running and leaves every other step pending |
| FlowWorks.CompletionAdvances | src/app/assets/flowworks/page.tsx:377-396 | From the stage where steps before i are completed and step i runs, completing step i reaches the next stage |
| FlowWorks.StagesAdvance | src/app/assets/flowworks/page.tsx:363-396 | After the start callback and k completions, the first k steps are completed, step k runs and the rest are pending |
| FlowWorks.NextStage | src/app/assets/flowworks/page.tsx:377-396 | One more completion callback after stage k-1 yields stage k: the first k steps completed, step k running, the rest pending |
| FlowWorks.RunToEnd | src/app/assets/flowworks/page.tsx:377-396 | After all n completions every step is completed and progress is 100 with no current step, yet the status is still running |
| FlowWorks.FullProgress | src/app/assets/flowworks/page.tsx:391 | The last completion's progress formula gives exactly 100 |
| FlowWorks.FirstCompletionAfterStart | src/app/assets/flowworks/page.tsx:370-391 | Progress does not drop from the start callback's 10 to the first completion exactly when the template has at most ten steps |
| FlowWorks.ProgressBounded | src/app/assets/flowworks/page.tsx:391 | Completion progress is positive, grows with every step, and never exceeds 100 |
| FlowWorks.ShareGrows | src/app/assets/flowworks/page.tsx:391 | The share (i+1)/n·100 is positive, strictly increasing in i, and at most 100 while i+1 <= n |
| EncodeX.ProfileIdsDistinct | src/app/assets/encodex/page.tsx:66-139 | No two encoding profiles share an id |
| EncodeX.KnownProfileFound | src/app/assets/encodex/page.tsx:226 | Every profile of the list is found by its own id |
| EncodeX.OutputUrl | src/app/assets/encodex/page.tsx:266 | The URL is `/encodex/outputs/` plus the filename with its first `.mp4` replaced by `-<profile>.mp4`; a filename without `.mp4` is kept as is |
| EncodeX.OutputUrlOfPlainName | src/app/assets/encodex/page.tsx:266 | For a dot-free stem, `stem.mp4` becomes `stem-<profile>.mp4` |
| EncodeX.NewJob | src/app/assets/encodex/page.tsx:233-242 | A new job is queued at progress 0 for the selected asset and profile, with no output and no completion time |
| EncodeX.StartEncoding | src/app/assets/encodex/page.tsx:223-244 | Starting is a no-op without an asset, a profile id or a known profile; otherwise the new job is prepended and the profile selection cleared |
| EncodeX.Apply | src/app/assets/encodex/page.tsx:247-269 | The three callbacks set processing at 25, then 75, then completed at 100 with the completion time and the output URL; identity fields never change |
| EncodeX.ApplyToList | src/app/assets/encodex/page.tsx:248-262 | Each callback changes only the job with the new job's id |
| EncodeX.JobRunsToCompletion | src/app/assets/encodex/page.tsx:233-269 | Through the three callbacks a job goes queued, processing, processing, completed with strictly rising progress ending at 100 |
| LinguaX.LanguageFlag | src/app/assets/linguax/page.tsx:322-325 | An unknown code shows the globe; a known code with a flag shows that flag; the result is never empty |
| LinguaX.KnownCodesShowTheirFlag | src/app/assets/linguax/page.tsx:87-100 | Every listed language shows its own flag and never the globe |
| LinguaX.KnownLanguageFound | src/app/assets/linguax/page.tsx:323 | Every language of the table is found by its own code |
| LinguaX.NewTrack | src/app/assets/linguax/page.tsx:237-245 | A new track carries the given id, has no url yet, and is generating at progress 0 with the first voice option's name, gender and accent |
| LinguaX.Tracks | src/app/assets/linguax/page.tsx:237-245 | One track per selected language other than `en`, in selection order; every non-English selection gets a track and every track's language was selected |
| LinguaX.NewProject | src/app/assets/linguax/page.tsx:232-250 | The project takes the asset's id and name, the selected languages, status transcribing and no subtitles, and one generating track per non-English language in selection order |
| LinguaX.CreateProject | src/app/assets/linguax/page.tsx:225-253 | Creation is a no-op without an asset or with no languages; otherwise the project is prepended and the selection resets to `en` |
| LinguaX.EnglishOnlyHasNoTracks | src/app/assets/linguax/page.tsx:237 | Selecting only English produces a project with no dubbing tracks |
| LinguaX.PhaseAfter | src/app/assets/linguax/page.tsx:257-273 | The k-th callback sets the k-th phase after transcribing |
| LinguaX.SetStatus | src/app/assets/linguax/page.tsx:257-273 | Each status callback changes only the project with the new project's id, and only its status |
| LinguaX.PhasesAdvance | src/app/assets/linguax/page.tsx:252-273 | The three status callbacks take the just-created project through translating, dubbing and completed, each of higher rank, and leave every other project unchanged |
| LinguaX.SetStatusKeepsTail | src/app/assets/linguax/page.tsx:258-260 | A status update for an id none of the later projects has leaves them all unchanged |
| Delivery.FormatEntry | src/app/assets/delivery/page.tsx:242-252 | A known id copies name, platform, resolution, bitrate and codec from the catalog; an unknown id gets empty strings and platform OTT; every entry is processing at 0 |
| Delivery.NewPackage | src/app/assets/delivery/page.tsx:238-256 | The package has one format entry per selected id, in order, and is processing |
| Delivery.PackageIdsAreSelection | src/app/assets/delivery/page.tsx:241-253 | The ids of the package's formats are exactly the ticked ids, in order |
| Delivery.KnownFormatCopied | src/app/assets/delivery/page.tsx:61-125 | Every catalog format is copied field for field when its id is ticked |
| Delivery.CatalogIdsDistinct | src/app/assets/delivery/page.tsx:61-125 | No two catalog formats share an id |
| Delivery.CreatePackage | src/app/assets/delivery/page.tsx:231-262 | Creation is a no-op without an asset or with no formats; otherwise the package is prepended and the format selection cleared |
| Highlights.NewReel | src/app/assets/highlights/page.tsx:201-210 | A new reel is generating with no highlights, the settings' duration and the asset's name |
| Highlights.GenerateReel | src/app/assets/highlights/page.tsx:194-213 | Generation is a no-op without an asset; otherwise the new reel is prepended |
| Highlights.GeneratedHighlights | src/app/assets/highlights/page.tsx:217-257 | Completion supplies three highlights, each stamped with the completion time and with confidence at least 0.8 |
| Highlights.CompleteReel | src/app/assets/highlights/page.tsx:259-266 | The completion callback makes only the reel with the id ready, with the generated highlights |
| Highlights.CompletedReelListed | src/app/assets/highlights/page.tsx:259-266 | After completion the new reel is listed exactly when the selected asset's id is "1" |
| Highlights.ConfidenceBand | src/app/assets/highlights/page.tsx:317-322 | Confidence of at least 0.9 is green, at least 0.8 blue, at least 0.7 yellow, anything lower red |
| Highlights.BandMonotone | src/app/assets/highlights/page.tsx:317-322 | A higher confidence never gets a worse band |
| Highlights.ListedReels | src/app/assets/highlights/page.tsx:500 | A reel is listed exactly when it has a highlight and the selected asset's id is "1"; the listing keeps the reels' order and each listed reel's count |
| Highlights.NothingListedElsewhere | src/app/assets/highlights/page.tsx:500 | For any selected asset other than "1" nothing is listed |
| Highlights.GeneratingReelHidden | src/app/assets/highlights/page.tsx:500 | A reel that is still generating is never listed |
| Highlights.ParsedOr | src/app/assets/highlights/page.tsx:404 | `parseInt(v) \|\| d` is the parsed number unless it is NaN or 0, which fall back to d |
| Highlights.SetDuration | src/app/assets/highlights/page.tsx:404 | The duration input stores the parsed number, or 30 for NaN or 0, and changes no other setting |
| Highlights.SetMaxHighlights | src/app/assets/highlights/page.tsx:433 | The maximum input stores the parsed number, or 10 for NaN or 0, and changes no other setting |
| Highlights.FallbackOnlyForFalsy | src/app/assets/highlights/page.tsx:404 | The fallback comes out exactly when the input is NaN, 0 or the fallback itself |
| Qc.Overall | src/app/assets/qc/page.tsx:222-223 | Failed exactly when some result failed; warning exactly when none failed and some warned; passed exactly when all passed, including no results |
| Qc.OverallIsMaximum | src/app/assets/qc/page.tsx:222-223 | The verdict is the most severe status among the results, ordered passed < warning < failed |
| Qc.AddingNeverLowers | src/app/assets/qc/page.tsx:222-223 | Adding a result never lowers the verdict and never leaves it below the new result |
| Qc.RunResults | src/app/assets/qc/page.tsx:171-220 | A run produces the six fixed results, each stamped with the run time |
| Qc.RunQualityCheck | src/app/assets/qc/page.tsx:164-234 | Without an asset the report is unchanged; otherwise it carries the asset's id, its duration or 0, the six results and their verdict |
| Qc.ChecksIgnored | src/app/assets/qc/page.tsx:56-63 | The report does not depend on which checks are ticked |
| Qc.EveryRunFails | src/app/assets/qc/page.tsx:171-223 | Because one fixed result fails, every run's verdict is failed |
| Onboard.RetryJob | src/app/assets/onboard/page.tsx:202-208 | Retry sets the matching job to processing at 0 with no error and keeps every other field of it; other jobs are unchanged; retry is then not offered for it |
| Onboard.RetryIdempotent | src/app/assets/onboard/page.tsx:202-208 | Retrying the same job twice is the same as retrying once |
| Onboard.CountWith | src/app/assets/onboard/page.tsx:255-297 | A per-status count never exceeds the number of jobs |
| Onboard.CountersCoverQueue | src/app/assets/onboard/page.tsx:255-297 | The pending, processing, completed and error counts add up to the number of jobs |
| Onboard.JsRem | src/app/assets/onboard/page.tsx:213 | JavaScript `%` with a positive divisor: the remainder has the dividend's sign and is smaller than the divisor in size |
| Onboard.ElapsedSeconds | src/app/assets/onboard/page.tsx:213 | The seconds part lies in -60..59, and is non-negative for non-negative times |
| Onboard.ElapsedRecomposes | src/app/assets/onboard/page.tsx:212-214 | For non-negative times, minutes·60 + seconds is the elapsed whole seconds, with seconds below 60 |
| Onboard.TimeElapsed | src/app/assets/onboard/page.tsx:210-221 | The label is "Xm Ys" when minutes are positive, otherwise "Ys" |
| Onboard.MinutesShownIff | src/app/assets/onboard/page.tsx:216-220 | The label mentions minutes exactly when the minute count is positive |
| Ingest.NewUpload | src/app/assets/ingest/page.tsx:52-58 | A new upload is uploading at 0 with no error |
| Ingest.HandleFiles | src/app/assets/ingest/page.tsx:51-60 | Adding files appends one new upload per file, in order, after the existing uploads, and sets the uploading flag |
| Ingest.Apply | src/app/assets/ingest/page.tsx:68-110 | Each progress callback changes only the upload with the file id; the final check clears the uploading flag exactly when every upload is completed or failed |
| Ingest.UploadProgresses | src/app/assets/ingest/page.tsx:69-98 | An upload goes 25, 50, 75 while uploading, then 100 |
| Ingest.FlagKeptWhileUnsettled | src/app/assets/ingest/page.tsx:102-107 | While some upload is unsettled the uploading flag stays set |
| Ingest.RemoveUpload | src/app/assets/ingest/page.tsx:113-115 | Removal drops every upload with the file id and keeps each other upload, in order and as often as before |
| Ingest.RemoveUploadIdempotent | src/app/assets/ingest/page.tsx:113-115 | Removing the same file id twice is the same as once |
| Ingest.ClearCompleted | src/app/assets/ingest/page.tsx:240-243 | "Clear Completed" empties the whole list, not only the completed uploads |
| Ingest.Extension | src/app/assets/ingest/page.tsx:118 | The extension is the lower-cased text after the last dot; a name without a dot is used whole |
| Ingest.NoDotMeansWholeName | src/app/assets/ingest/page.tsx:118 | A name without a dot is its own last segment |
| Ingest.ExtensionOfDotted | src/app/assets/ingest/page.tsx:118 | For `stem.ext` the extension is `ext` lower-cased |
| Ingest.Classify | src/app/assets/ingest/page.tsx:120-128 | Video, image and audio extensions are checked in that order; anything else is a document |
| Restore.SelectAsset | src/app/assets/restore/page.tsx:124-130 | Selecting removes every occurrence of the id if present, keeping the other ids in order and with their counts, and appends it at the end otherwise; the trash is unchanged |
| Restore.SelectAll | src/app/assets/restore/page.tsx:132-138 | Select-all clears the selection when it is as long as the trash, and otherwise selects exactly the trash's ids in order |
| Restore.SelectAllTwice | src/app/assets/restore/page.tsx:132-138 | From an empty selection, select-all twice returns to an empty selection |
| Restore.RestoreSelected | src/app/assets/restore/page.tsx:140-152 | With nothing selected restore is a no-op; otherwise exactly the selected assets leave the trash, the rest stay in order, and the selection is cleared |
| Restore.RestoreCount | src/app/assets/restore/page.tsx:140-152 | The assets left in the trash plus the assets restored make up the whole trash |
| Restore.PermanentDelete | src/app/assets/restore/page.tsx:154-161 | Deletion removes every asset with the id, keeps each other asset in order and as often as before, and leaves the selection as it was |
| Restore.StaleSelectionClears | src/app/assets/restore/page.tsx:132-161 | After a selected asset is deleted for good its id stays selected, so select-all on the remaining unselected asset clears the selection instead of selecting it |
| Restore.TimeAgo | src/app/assets/restore/page.tsx:163-177 | Days if the floored day count is positive, else hours if positive, else minutes |
| Restore.TimeAgoUnits | src/app/assets/restore/page.tsx:163-177 | At least a day shows days, at least an hour shows hours, anything shorter shows minutes |
| Restore.UnderAMinute | src/app/assets/restore/page.tsx:171-175 | Under a minute the label is "0 minute ago", because the plural needs a count above 1 |
| Restore.DurationShown | src/app/assets/restore/page.tsx:262-264 | No duration shows nothing, a duration of 0 shows the bare text "0", and any other duration shows its m:ss label |
| Restore.ZeroDurationShownBare | src/app/assets/restore/page.tsx:262-264 | A zero duration shows "0" although its label would be "0:00" |
| Restore.DurationLabelRoundTrip | src/app/assets/restore/page.tsx:263 | The m:ss label has two-digit seconds, and reading its two parts back gives the duration |
| Subtitles.AddSubtitle | src/app/assets/subtitles/page.tsx:170-193 | Without an asset, content or language nothing changes; otherwise exactly one subtitle for the asset is appended, the asset is replaced in the list and the form is reset |
| Subtitles.EditSubtitle | src/app/assets/subtitles/page.tsx:195-204 | Editing loads the subtitle's language, content and times into the form and opens it |
| Subtitles.UpdateSubtitle | src/app/assets/subtitles/page.tsx:206-223 | Without an asset, an edited subtitle, content or language nothing changes; otherwise only subtitles with the edited id take the form's values, the count is kept, and the form closes |
| Subtitles.EditThenSaveKeepsContent | src/app/assets/subtitles/page.tsx:195-223 | Editing a subtitle and saving the form unchanged keeps its text and times |
| Subtitles.DeleteSubtitle | src/app/assets/subtitles/page.tsx:225-235 | Deletion removes every subtitle with the id, keeps each other subtitle in order and as often as before, and replaces only the selected asset in the list |
| Subtitles.DeleteIdempotent | src/app/assets/subtitles/page.tsx:228-231 | Deleting the same id twice is the same as once |
| Subtitles.AddThenDelete | src/app/assets/subtitles/page.tsx:170-235 | Adding a subtitle under a fresh id and deleting that id gives back the asset |
| Subtitles.CurrentSubtitle | src/app/assets/subtitles/page.tsx:237-242 | No asset means no current subtitle; otherwise it is the first subtitle with start ≤ t ≤ end, and there is none exactly when no subtitle covers t |
| Subtitles.InvertedNeverCurrent | src/app/assets/subtitles/page.tsx:239-241 | A subtitle that ends before it starts is never current |
| Subtitles.LookupName | src/app/assets/subtitles/page.tsx:245-255 | The table lookup returns a name paired with the code, and finds nothing exactly when the code is absent |
| Subtitles.LanguageName | src/app/assets/subtitles/page.tsx:244-257 | A listed code gets its name; any other code is shown upper-cased |
| Subtitles.KnownLanguageNames | src/app/assets/subtitles/page.tsx:244-257 | Each of the nine codes maps to its name, and an unlisted code comes out upper-cased |
| Tagging.IsTagApplied | src/app/assets/tagging/page.tsx:190-192 | A tag is applied exactly when the selected asset has a tag with its id; with no selection nothing is applied |
| Tagging.AddTag | src/app/assets/tagging/page.tsx:132-142 | Without a selection nothing changes; otherwise the tag is appended without a duplicate check, the asset is replaced in the list, and the tag is then applied |
| Tagging.RemoveTag | src/app/assets/tagging/page.tsx:144-154 | Removal drops every tag with the id and keeps each other tag in order and as often as before; afterwards the tag is not applied |
| Tagging.ClickTag | src/app/assets/tagging/page.tsx:343 | Clicking an available tag flips whether it is applied |
| Tagging.ClickKeepsIdsDistinct | src/app/assets/tagging/page.tsx:343 | Clicking never creates two tags with the same id on an asset |
| Tagging.ClickTwiceRestores | src/app/assets/tagging/page.tsx:343 | Clicking an unapplied tag twice gives back the asset |
| Tagging.CategoryOrDefault | src/app/assets/tagging/page.tsx:163 | The category is the form's when given, otherwise a non-empty default |
| Tagging.CreateNewTag | src/app/assets/tagging/page.tsx:156-169 | A blank name changes nothing; otherwise the tag joins the available tags, is appended to the selected asset's tags with that asset replaced in the list (nothing else changes without a selection), and the form resets |
| Review.NewComment | src/app/assets/review/page.tsx:222-232 | A new comment has the text and current time, no likes, not liked and no replies |
| Review.AttachReply | src/app/assets/review/page.tsx:234-240 | A reply is appended to the replies of the top-level comment with the target id; every other comment is unchanged |
| Review.AddComment | src/app/assets/review/page.tsx:219-244 | Blank text or no asset changes nothing; without a target the comment is prepended; with a target it becomes a reply, the top-level count is kept and the target is cleared |
| Review.ReplyAddsOne | src/app/assets/review/page.tsx:234-240 | A reply to a comment that exists once adds exactly one comment to the thread |
| Review.TotalUnchanged | src/app/assets/review/page.tsx:234-240 | A reply whose target is not a top-level comment is dropped |
| Review.NewThreadAddsOne | src/app/assets/review/page.tsx:241-243 | A new top-level comment adds exactly one comment to the thread |
| Review.Like | src/app/assets/review/page.tsx:251-256 | Liking flips liked and moves the count by +1 or -1 accordingly; nothing else changes |
| Review.LikeTwice | src/app/assets/review/page.tsx:251-256 | Liking twice restores the comment |
| Review.LikeComment | src/app/assets/review/page.tsx:248-259 | Only top-level comments with the id are toggled; ids and replies are kept |
| Review.LikeCommentTwice | src/app/assets/review/page.tsx:248-259 | Liking the same id twice restores the list |
| Review.LikingAReplyChangesNothing | src/app/assets/review/page.tsx:579 | Liking a reply's id leaves the thread unchanged |
| Permissions.CatalogIdsDistinct | src/app/admin/permissions/page.tsx:38-49 | No two catalog permissions share an id |
| Permissions.Granted | src/app/admin/permissions/page.tsx:122 | The granted permissions are the catalog entries whose ids were ticked, in catalog order |
| Permissions.GrantedBySetOfIds | src/app/admin/permissions/page.tsx:122 | Only the set of ticked ids matters: order, repetition and unknown ids make no difference |
| Permissions.TogglePermission | src/app/admin/permissions/page.tsx:166-173 | The toggle appends an unticked id at the end, removes every occurrence of a ticked one keeping the other ids in order and with their counts, flips membership of that id only, and touches no other field |
| Permissions.TogglePermissionTwice | src/app/admin/permissions/page.tsx:166-173 | Toggling an unticked permission twice restores the form |
| Permissions.AddUser | src/app/admin/permissions/page.tsx:114-130 | A blank name or email changes nothing; otherwise one user is appended at the end and the form resets to a viewer with no permissions |
| Permissions.Ids | src/app/admin/permissions/page.tsx:138 | The id list has one entry per permission, in order |
| Permissions.EditUser | src/app/admin/permissions/page.tsx:132-141 | Editing loads the user's name, email, role and permission ids into the form |
| Permissions.Updated | src/app/admin/permissions/page.tsx:146-155 | The updated user keeps its id and creation time, takes the form's name, email and role, gets the catalog permissions whose ids are ticked, and is stamped with now |
| Permissions.UpdateUser | src/app/admin/permissions/page.tsx:143-158 | Without a selected user, name or email nothing changes; otherwise only users with the selected id are replaced, and the selection and form clear |
| Permissions.EditThenUpdateKeepsPermissions | src/app/admin/permissions/page.tsx:138-151 | Editing and saving unchanged keeps the same permission set when all of them come from the catalog |
| Permissions.DeleteUser | src/app/admin/permissions/page.tsx:161-164 | Once confirmed, every user with the id is removed and each other user stays, in order and as often as before; unconfirmed, nothing changes |
| Permissions.AddThenDeleteUser | src/app/admin/permissions/page.tsx:114-164 | Adding a user under a fresh id and deleting that id restores the user list |

## Left out

- There is no processing engine. Workflow steps declare `dependencies`, but nothing reads them. Execution walks the step array by index, and the model does the same (`FlowWorks.DependenciesNeverRead`).
- Library.SortAssets: the comparator never returns 0, so it is inconsistent for assets with equal keys, and ECMAScript then leaves the order implementation-defined. The model fixes one order sorted by key and promises nothing about how assets with equal keys are placed among themselves.
- FlowWorks.RunToEnd: the workflow status stays running after the last step, as the code leaves it. Nothing marks it completed.
- FlowWorks.FirstCompletionAfterStart: for a template of more than ten steps, progress drops from 10 to 100/n at the first completion, as the code computes it; the three built-in templates have 5, 3 and 3 steps, and templates are a parameter of the model.
- FlowWorks.StartWorkflow: a template with no steps cannot come from the fixed template list. If one did, the code would throw at the start callback and `isStarting` would stay set. The model stops at setting the flag.
- Timers are not modelled as time. Each `setTimeout` callback is an event, applied in the order the delays schedule it.
- Restore.RestoreSelected, LinguaX.CreateProject, Delivery.CreatePackage, EncodeX.StartEncoding, FlowWorks.StartWorkflow: each is modelled as if its delayed callback ran at the click, with the values the closure captured at the click. Input made during the delay is not modelled; the code overwrites or resets it. For example, a box ticked during the trash's 2-second restore wait is neither restored nor left selected.
- Text.ReplaceFirst: `$` patterns in the replacement (`$&`, `$$`, `` $` ``, `$'`) are not interpreted. The only caller passes `-<profile id>.mp4`, and the catalog's profile ids contain no `$`.
- `Math.random` ids, `new Date()` and `Date.now()` are parameters.
- `window.confirm` is a `confirmed` flag (user deletion) or the confirmed branch only (permanent delete in the trash).
- Floating point:
  - Workflow progress and highlight confidence use exact rationals.
  - Subtitle times are `real`.
  - Rounding is not modelled.
- Text:
  - `toLowerCase`/`toUpperCase` are ASCII-only.
  - String `<` compares code points, not UTF-16 units.
  - `trim` strips the ECMAScript WhiteSpace and LineTerminator code points; the model lists them explicitly.
- `parseInt` is an optional integer parameter (`None` for NaN).
- `encodeURIComponent`, locale date formatting and `toFixed` are not modelled.
- Subtitles.LanguageName: the lookup in the source is a plain object index, so a code such as `constructor` would hit an inherited property. The model treats only the nine listed codes as known.
- Restore.DurationShown: durations are whole seconds (`nat`); fractional durations are not modelled.
- Restore.PermanentDelete: the deleted id stays in the selection if it was selected, as in the code.
- Review.AddComment: a reply whose target is not a top-level comment is silently dropped, as in the code (`Review.TotalUnchanged`).
- Ingest.Extension: the optional chaining after `pop()` never fires, because `split` always yields at least one segment. The model has no undefined case.
- Mock data loading in each page's mount effect is not modelled. Neither are the loading flags and search-query URL parameters.
- The video player (`src/components/player/AdvancedVideoPlayer.tsx`) is not part of this model, because it drives a DOM element with floating-point time. The same goes for the dashboard (display-only arithmetic on constants) and `Layout.tsx`. Also excluded: the session API route and login/logout/session fetching, which are redirects and network calls.
- JSX rendering, icons, CSS-class helpers and the navigation search box are not modelled. The review page's metadata listing is not modelled either. All of these are presentation only.
- `SearchFilters.uploadedBy` and `dateRange` are carried in the datatype, but the library effect never reads them, so no operation uses them.

# Go rate limiters, codecs and validators, modelled in Dafny

This project models the core of a collection of small Go programs. Most of
them are per-user admission controllers, and the rest are the string and
byte utilities around them:

- **Admission control**
  - a fixed-window counter with a per-request override of the limit (`FixedWindow`);
  - the same counter whose limit is scaled by 1.2 after an admission and by 0.8 after a rejection (`AdaptiveLimit`);
  - a burst limiter that counts calls less than a second apart (`BurstLimiter`);
  - a rate counter that is reset after an interval (`IntervalLimiter`);
  - two sliding windows whose decision uses an exponentially weighted moving average (EWMA) of the observed rate (`EwmaWindow`, `RecordingWindow`).

  The last two share the pruning and averaging of `SlidingWindow`.
- **Around them**
  - a query-string parser (`QueryParse`) and a query-parameter bag (`QueryParams`);
  - a retry loop with typed errors (`Retry`);
  - an XML tag balancer (`TagBalance`);
  - a workload rebalancer (`Workforce`);
  - two byte codecs (`ChunkCodec`, `StreamCodec`);
  - user/log/template formatting (`UserFormat`);
  - SQL escaping of quotes and backslashes (`SqlEscape`);
  - a command guard (`CommandGuard`).

How the Go code maps onto Dafny:

- Shared pieces of Go's `strings` and `strconv` are in `GoStrings`, `[]byte` is in `Bytes`, and durations are in `Clock`.
- Time is an integer count of nanoseconds, given to every operation as `now`. The zero time is 0.
- A limiter's pure state is a datatype stepped by a function such as `Check` or `Step`. The properties are lemmas about those functions.
- The Go structs that are updated in place are classes. Each method's `ensures` ties the new fields to the step function. The per-user registries are classes holding a `map` from user id to limiter object.
- Things Go leaves to the runtime are explicit parameters:
  - the order in which a `map` is iterated;
  - callbacks and executors;
  - the order in which channel results arrive.

## Model

| member | source | states |
|---|---|---|
| FixedWindow.Check | 493819/ideal1.go:41-57 | a due reset (more than the window length elapsed since the last reset) restarts the count at `now`; the request is admitted iff the restarted count is below the limit; an admission counts one more request, a rejection inside the window changes nothing; the count never passes the limit once within it |
| FixedWindow.Run | 493819/ideal1.go:41-57 | one decision per request time, limit and window length unchanged |
| FixedWindow.RunAppend | 493819/ideal1.go:41-57 | running two batches of requests one after the other equals running them together |
| FixedWindow.RunKeepsWithinLimit | 493819/ideal1.go:52-56 | a counter within its limit stays within it after any sequence of requests |
| FixedWindow.RunInsideWindow | 493819/ideal1.go:46-56 | inside one window the i-th request is admitted exactly when the count before it plus i is below the limit, and the window start does not move |
| FixedWindow.WindowBound | 493819/ideal1.go:52-56 | a fresh window never admits more requests than the limit |
| FixedWindow.BoundaryScenario | 493819/ideal1.go:46-56 | with limit 5 and a 10 s window, five requests pass, the sixth is refused, and a request just after the window passes again |
| FixedWindow.ParseOverride | 493819/ideal1.go:69-77 | the override query parameter is used only when it parses as a positive integer |
| FixedWindow.OverrideOfDecimal | 493819/ideal1.go:71-72 | the decimal text of n overrides the limit with n exactly when n > 0 |
| FixedWindow.RateLimiter.constructor | 493819/ideal1.go:31-35 | a new limiter starts a window at creation with no requests |
| FixedWindow.RateLimiter.IsAllowed | 493819/ideal1.go:41-57 | the answer and the new fields are those of `Check` |
| FixedWindow.UserLimits.constructor | 493819/ideal1.go:19 | the registry starts empty |
| FixedWindow.UserLimits.GetRateLimiter | 493819/ideal1.go:24-38 | an existing user's limiter is returned unchanged; an unknown user gets a fresh limiter added, other entries untouched |
| FixedWindow.UserLimits.RateLimitHandler | 493819/ideal1.go:60-86 | an empty user id is answered 400 with nothing changed; otherwise 200 or 429 exactly as `Check` decides on the (possibly overridden) limiter, other users' limiters unchanged |
| SlidingWindow.Prune | 493819/ideal3.go:42-48 | the kept timestamps are original ones that lie in the window |
| SlidingWindow.PruneAppend | 493819/ideal3.go:42-48 | pruning distributes over concatenation |
| SlidingWindow.PruneKeepsInWindow | 493819/ideal3.go:42-48 | no timestamp inside the window is dropped |
| SlidingWindow.PruneIdempotent | 493819/ideal3.go:42-48 | pruning twice equals pruning once |
| SlidingWindow.PruneAllInWindow | 493819/ideal3.go:42-48 | a history entirely inside the window is left as it is |
| SlidingWindow.PruneAscending | 493819/ideal3.go:42-48 | pruning keeps timestamps in ascending order |
| SlidingWindow.PruneBounded | 493819/ideal3.go:42-48 | an upper bound on all timestamps survives pruning |
| SlidingWindow.AscendingAppend | 493819/ideal3.go:59 | appending a time no earlier than every recorded one keeps the history ascending |
| SlidingWindow.Rate | 493819/ideal3.go:51-52 | the observed rate is non-negative and zero for an empty window |
| SlidingWindow.EwmaBetween | 493819/ideal3.go:55 | the smoothed rate lies between the sample and the previous estimate |
| SlidingWindow.EwmaConverges | 493819/ideal3.go:55 | after n equal samples the distance to the sample has shrunk by (1-alpha)^n |
| SlidingWindow.EwmaProgression | 493819/ideal3.go:55 | with alpha 0.5 and samples of 10 the estimate goes 5, 7.5, 8.75 |
| Clock.Seconds | 493819/ideal3.go:52 | a positive duration is a positive number of seconds, and one second is 1.0 |
| EwmaWindow.Step | 493819/ideal3.go:31-65 | the first call is admitted and only sets the last-request time; later calls prune, update the EWMA with the observed rate and are admitted iff the new estimate is at most the base limit; only admitted calls are recorded and move the last-request time |
| EwmaWindow.StepKeepsGood | 493819/ideal3.go:36-62 | the history stays ascending, bounded by the last request, inside the window, and the estimate stays non-negative |
| EwmaWindow.DynamicSlidingWindow.constructor | 493819/ideal3.go:22-28 | a new window has the given settings, no history and a zero estimate |
| EwmaWindow.DynamicSlidingWindow.Allow | 493819/ideal3.go:31-65 | the answer and the new state are those of `Step` |
| EwmaWindow.DynamicRateLimiter.constructor | 493819/ideal3.go:74-78 | the registry starts empty |
| EwmaWindow.DynamicRateLimiter.Allow | 493819/ideal3.go:81-92 | the user's window (created with the fixed settings when missing) takes one `Step`; every other user's window is unchanged |
| RecordingWindow.Step | 493819/a3.go:34-68 | as in the EWMA window, but against the target limit, and every call after the first, admitted or not, is recorded and moves the last-request time |
| RecordingWindow.StepKeepsGood | 493819/a3.go:41-66 | the history invariant is kept and the newest entry is the call's own time |
| RecordingWindow.EveryCallRecorded | 493819/a3.go:65-66 | with all history in the window, the call is appended whatever the decision |
| RecordingWindow.DynamicSlidingWindow.constructor | 493819/a3.go:24-31 | a new window has the given settings and no history |
| RecordingWindow.DynamicSlidingWindow.Allow | 493819/a3.go:34-68 | the answer and the new state are those of `Step` |
| RecordingWindow.DynamicRateLimiter.constructor | 493819/a3.go:80-88 | the registry starts empty with the given settings |
| RecordingWindow.DynamicRateLimiter.Allow | 493819/a3.go:91-102 | the user's window (created with the limiter's settings when missing) takes one `Step`; other users are unchanged |
| BurstLimiter.Step | 493819/b1.go:30-55 | a new user is admitted with count 1; a call more than a second after the previous one restarts the count; otherwise the count grows; the call is admitted iff the count is at most limit + burst; the last-check time is always the call's |
| BurstLimiter.Run | 493819/b1.go:30-55 | one decision per call |
| BurstLimiter.RunCloseTogether | 493819/b1.go:44-52 | calls at most a second apart are admitted exactly while the running count stays within limit + burst |
| BurstLimiter.NewUserCloseTogether | 493819/b1.go:35-52 | a new user's i-th close call is admitted iff it is the first (i == 0), whatever limit + burst is, or i + 1 <= limit + burst |
| BurstLimiter.SeventhCallRejected | 493819/b1.go:52-57 | with the server's limit 5 and burst 1, six simultaneous calls pass and the seventh is refused |
| BurstLimiter.PauseRestarts | 493819/b1.go:44-46 | after a pause of more than a second the call is admitted with count 1 |
| BurstLimiter.UserLimit.constructor | 493819/b1.go:36-39 | a new entry holds the given time and count |
| BurstLimiter.UserRateLimiter.constructor | 493819/b1.go:22-28 | the registry starts empty with the given limit and burst |
| BurstLimiter.UserRateLimiter.Allow | 493819/b1.go:30-55 | the answer and the user's new entry are those of `Step`; other users are unchanged |
| IntervalLimiter.Text | 493819/ideal2.go:52-60 | the success text, and the exceeded text naming the interval |
| IntervalLimiter.TextsDiffer | 493819/ideal2.go:52-60 | a success message is never an exceeded message |
| IntervalLimiter.Step | 493819/ideal2.go:41-61 | success iff the rate (reset to zero once the interval has passed) is below the maximum; success counts one more; a refusal resets the clock to `now` |
| IntervalLimiter.StepKeepsBounded | 493819/ideal2.go:33-56 | the rate never passes the maximum |
| IntervalLimiter.Run | 493819/ideal2.go:41-61 | one reply per request |
| IntervalLimiter.RunWithinInterval | 493819/ideal2.go:43-56 | inside one interval the i-th request succeeds iff the rate plus i is below the maximum |
| IntervalLimiter.HalfSecondScenario | 493819/ideal2.go:65-78 | requests every half second from creation: ten succeed, then the eleventh is refused with the one-minute interval |
| IntervalLimiter.ExceededReportsInterval | 493819/ideal2.go:52 | every refusal reports the configured interval |
| IntervalLimiter.RateLimiter.constructor | 493819/ideal2.go:20-29 | a new limiter starts with zero rate at creation time and an empty history |
| IntervalLimiter.RateLimiter.CheckLimit | 493819/ideal2.go:32-38 | true iff the current rate is below the maximum |
| IntervalLimiter.RateLimiter.Request | 493819/ideal2.go:41-61 | the reply and new state are those of `Step`; the other fields are unchanged |
| AdaptiveLimit.Truncate | 493819/a2.go:73-75 | conversion to int truncates toward zero |
| AdaptiveLimit.Scale | 493819/a2.go:68-76 | a non-negative limit stays non-negative; scaling after an admission never lowers it, scaling after a rejection never raises it |
| AdaptiveLimit.Adjust | 493819/a2.go:68-86 | only the maximum changes, to its scaled value; count, reset time and window length are kept |
| AdaptiveLimit.Handle | 493819/a2.go:98-124 | the status is 200 or 429; the window length is kept; a non-negative limit (after the override) does not drop on a 200 and does not rise on a 429 |
| AdaptiveLimit.ZeroStaysZero | 493819/a2.go:73-75 | a zero limit stays zero after any adjustment |
| AdaptiveLimit.SmallNeverGrows | 493819/a2.go:73 | a limit of at most 4 does not grow on admission (1.2 times it truncates back) |
| AdaptiveLimit.LargeGrows | 493819/a2.go:73 | a limit of 5 or more grows on admission |
| AdaptiveLimit.RejectionShrinks | 493819/a2.go:75 | a positive limit shrinks on rejection and stays non-negative |
| AdaptiveLimit.HandleKeepsLimitNonNegative | 493819/a2.go:98-124 | a non-negative limit stays non-negative |
| AdaptiveLimit.ZeroLimitRejectsForever | 493819/a2.go:114-124 | without an override, a zero limit refuses every request and stays zero |
| AdaptiveLimit.SmallLimitNeverGrows | 493819/a2.go:117-124 | without an override, a limit of at most 4 never increases |
| AdaptiveLimit.HandleAll | 493819/a2.go:89-127 | one status per handler call of a user |
| AdaptiveLimit.ZeroLimitRejectsAll | 493819/a2.go:114-124 | once a user's limit is 0, every later call without an override is answered 429 and the limit stays 0 |
| AdaptiveLimit.SmallLimitStaysSmall | 493819/a2.go:114-124 | without overrides, a limit of at most 4 is never exceeded again over any run of calls, and never becomes negative |
| AdaptiveLimit.AdjustLimit | 493819/a2.go:68-86 | the limiter's new fields are the scaled ones |
| AdaptiveLimit.RateLimitHandler | 493819/a2.go:89-127 | an empty user id is answered 400; otherwise the status and new limiter are those of `Handle`, and other users are unchanged |
| TagBalance.Closes | 494003/ideal2/ideal2.go:88-90 | one closing tag per open tag, innermost first |
| TagBalance.CorrectBalanced | 494003/ideal2/ideal2.go:56-93 | the corrected output is always properly nested and closes every tag |
| TagBalance.Feed | 494003/ideal2/ideal2.go:64-84 | once stopped nothing changes; otherwise at most one event is appended to those written and the stack grows or shrinks by at most one |
| TagBalance.Scan | 494003/ideal2/ideal2.go:60-85 | no more events are written, and no more tags are left open, than there are tokens |
| TagBalance.StopsAtError | 494003/ideal2/ideal2.go:65-68 | a decoder error ends the scan; nothing after it is read |
| TagBalance.MismatchSkipped | 494003/ideal2/ideal2.go:78-81 | an end tag not matching the innermost open tag is dropped |
| TagBalance.StartPushed | 494003/ideal2/ideal2.go:71-73 | a start tag is copied and pushed |
| TagBalance.MatchingEndPopped | 494003/ideal2/ideal2.go:74-77 | a matching end tag is copied and popped |
| TagBalance.CharDataCopied | 494003/ideal2/ideal2.go:82-83 | character data is copied and the stack is untouched |
| TagBalance.BalancedUnchanged | 494003/ideal2/ideal2.go:64-90 | the items of an already balanced, attribute-free event sequence come out as that same event sequence |
| TagBalance.CorrectIdempotent | 494003/ideal2/ideal2.go:56-93 | correcting the items of a corrected event sequence gives the same event sequence |
| TagBalance.ScanTokens | 494003/ideal2/ideal2.go:60-85 | the token loop leaves the open-tag stack and the copied text of `Scan` |
| TagBalance.ScanNext | 494003/ideal2/ideal2.go:60-85 | scanning one more token feeds it to the state reached on the earlier tokens |
| TagBalance.RenderSnoc | 494003/ideal2/ideal2.go:60-90 | writing one more event appends its text to what was written |
| TagBalance.ClosesStep | 494003/ideal2/ideal2.go:88-90 | closing one more, outer, tag appends its close event after the inner ones |
| TagBalance.CloseOneMore | 494003/ideal2/ideal2.go:88-90 | one more iteration of the closing loop appends the next outer close tag |
| TagBalance.CloseOpenTags | 494003/ideal2/ideal2.go:88-90 | appends the closing tags of the stack, innermost first |
| TagBalance.AutoCorrectMissingTags | 494003/ideal2/ideal2.go:56-93 | the output is the rendering of the corrected event sequence |
| CommandGuard.ProcessCommand | 493793/ideal2_test.go:17-28 | empty and ';'/'&' commands are refused with their messages and never executed; any other command is executed once and its error returned |
| CommandGuard.RefusedIffUnsafe | 493793/ideal2_test.go:18-25 | a command is refused without being executed exactly when it is empty or holds ';' or '&' |
| CommandGuard.TestTable | 493793/ideal2.go:34-37 | the four cases of the test table give the expected error and execution |
| QueryParse.ParseEachSpec | 493999/a1/a1.go:55-70 | for any per-filter parser: success iff every raw filter parses, the results in input order; otherwise the error names a filter that does not parse and every earlier one parses |
| QueryParse.ParsedFiltersSpec | 493999/a1/a1.go:55-70 | success iff every raw filter has three comma-separated parts, filters in order; otherwise the error names the first bad one |
| QueryParse.ParseEachFirstBad | 493999/a1/a1.go:57-61 | when every filter before position k parses and the one at k does not, the error names the one at k |
| QueryParse.ParseEachAllGood | 493999/a1/a1.go:62-69 | when every filter parses, the result is exactly the parsed filters in order |
| QueryParse.FirstBadFilter | 493999/a1/a1.go:57-61 | the first malformed filter is the one reported |
| QueryParse.AllGoodFilters | 493999/a1/a1.go:62-69 | well-formed filters parse to their fields, in order |
| QueryParse.ParseFilters | 493999/a1/a1.go:55-70 | the loop computes `ParsedFilters`: the first malformed filter's error, or every filter in order |
| QueryParse.ParseSort | 493999/a1/a1.go:72-84 | success iff there is one value with exactly two comma-separated parts |
| QueryParse.ParsePagination | 493999/a1/a1.go:86-106 | success iff one value of two parts that both parse as integers, which become page and page size |
| QueryParse.Parse | 493999/a1/a1.go:38-53 | filters, then sort, then pagination; the first error wins |
| QueryParse.SortRequired | 493999/a1/a1.go:73 | a query without a sort value is refused |
| QueryParse.FilterRoundTrip | 493999/a1/a1.go:58-66 | a filter's key, value and operator, each free of commas and of surrounding spaces, joined by commas parse back to that filter |
| QueryParse.FiltersRoundTrip | 493999/a1/a1.go:55-70 | rendered filters parse back to the same list |
| QueryParse.SortRoundTrip | 493999/a1/a1.go:76-83 | a rendered sort parses back to itself |
| QueryParse.PaginationRoundTrip | 493999/a1/a1.go:90-105 | rendered 64-bit page numbers parse back to themselves |
| QueryParse.ParseEncode | 493999/a1/a1.go:38-53 | parsing the query string of a query gives the query back |
| QueryParse.TwoPartFilterRefused | 493999/a1/a1.go:58-61 | a filter with only two parts is refused |
| QueryParse.QueryParameters.constructor | 493999/a1/a1.go:12-16 | a new value has no filters, sort or pagination |
| QueryParse.QueryParameters.ParseQuery | 493999/a1/a1.go:38-53 | no error iff `Parse` succeeds; the fields are set up to the failing stage and left as they were after it |
| QueryParams.ParseInt | 493999/b1/b1.go:55-61 | the parsed integer, or the default when the text is not one |
| QueryParams.ClassifyAll | 493999/b1/b1.go:28-41 | the first loop collects no filters |
| QueryParams.ClassifyAllFields | 493999/b1/b1.go:28-37 | each predefined field takes the first value of the last case variant met in iteration order; the page fields fall back to their defaults |
| QueryParams.ClassifyAllExtras | 493999/b1/b1.go:38-41 | exactly the non-predefined keys go into the extra parameters, values kept |
| QueryParams.CollectFiltersExact | 493999/b1/b1.go:45-50 | exactly the keys with the filter prefix become filters, prefix removed, values kept |
| QueryParams.ClassifyValues | 493999/b1/b1.go:28-41 | the first loop computes `ClassifyAll` over the keys in iteration order |
| QueryParams.CollectFilterValues | 493999/b1/b1.go:45-50 | the second loop computes `CollectFilters` over the keys in iteration order |
| QueryParams.NewQueryParams | 493999/b1/b1.go:21-53 | the loop computes `New` |
| QueryParams.FilterKeyNotSpecial | 493999/b1/b1.go:38-48 | a filter key is never a predefined field |
| QueryParams.NewFilters | 493999/b1/b1.go:38-50 | filters are exactly the prefixed keys, and each is also kept as an extra parameter |
| QueryParams.NewExtras | 493999/b1/b1.go:38-41 | extras are exactly the non-predefined keys with their values |
| QueryParams.PageDefaults | 493999/b1/b1.go:34-35 | a missing page is 0 and an unparsable page is the default 1 |
| QueryParams.CaseVariantsDependOnOrder | 493999/b1/b1.go:28-35 | with both "page" and "PAGE" present the result depends on iteration order |
| QueryParams.AddParam | 493999/b1/b1.go:84-88 | a non-empty value is appended to its key, an empty one is skipped; other keys are untouched |
| QueryParams.AddValues | 493999/b1/b1.go:73-75 | the non-empty values are appended in order; other keys are untouched |
| QueryParams.AddPredefined | 493999/b1/b1.go:66-69 | the sort field and order are appended when non-empty, the page and page size always as decimal text; every other key is untouched |
| QueryParams.AddFiltersOtherKeys | 493999/b1/b1.go:72-76 | adding filters touches only prefixed keys |
| QueryParams.AddFiltersFields | 493999/b1/b1.go:72-76 | each filter's non-empty values are appended under its prefixed key |
| QueryParams.AddExtras | 493999/b1/b1.go:79-81 | each extra key is replaced by its values; other keys are untouched |
| QueryParams.AppendValues | 493999/b1/b1.go:73-75 | the loop computes `AddValues` |
| QueryParams.AddFiltersNext | 493999/b1/b1.go:72-76 | one more filter field appends that field's values under its prefixed key to what the earlier fields produced |
| QueryParams.AppendFilters | 493999/b1/b1.go:72-76 | the loop computes `AddFilters` |
| QueryParams.ReplaceExtras | 493999/b1/b1.go:79-81 | the loop computes `AddExtras` |
| QueryParams.ApplyToQuery | 493999/b1/b1.go:64-82 | the loops compute `Apply` |
| QueryParams.FilterKeyNotPredefined | 493999/b1/b1.go:66-74 | a prefixed filter key never collides with a predefined field |
| QueryParams.ApplyAddsPage | 493999/b1/b1.go:68 | the page number's decimal text is appended under "page" |
| QueryParams.ApplyReplacesExtras | 493999/b1/b1.go:79-81 | an extra key ends with exactly the extra values |
| QueryParams.RoundTripOtherKeys | 493999/b1/b1.go:38-81 | parsing then applying to an empty query gives every non-predefined key its values back |
| Retry.Message | 493785/ideal3/ideal3.go:17-31 | each error kind's message is its prefix followed by its payload; a processing error's text after the prefix is its message, followed by " (cause: " + the cause's message + ")" exactly when it has a cause |
| Retry.TimeoutAndProcessingDiffer | 493785/ideal3/ideal3.go:17-31 | timeout and processing messages never coincide |
| Retry.WrappedTimeoutIsPermanent | 493785/ideal3/ideal3.go:89-95 | a timeout wrapped in a processing error is not retried |
| Retry.RetryFrom | 493785/ideal3/ideal3.go:36-85 | all calls before the last timed out; a settled last call gives its result; otherwise the retry limit error after all tries |
| Retry.Retry | 493785/ideal3/ideal3.go:34-86 | at most maxRetries + 1 calls; the result is the first non-timeout outcome, or the retry-limit error |
| Retry.FirstSuccessReturns | 493785/ideal3/ideal3.go:47-56 | a first call that succeeds ends the loop after one call |
| Retry.LimitIffAllTimedOut | 493785/ideal3/ideal3.go:84-85 | the retry-limit error comes back iff every allowed call timed out |
| Retry.ProcessItemWithRetry | 493785/ideal3/ideal3.go:34-86 | the loop computes `Retry` |
| Retry.Process | 493785/ideal3/ideal3.go:98-111 | the trace names one item per call |
| Retry.ProcessInOrder | 493785/ideal3/ideal3.go:102-109 | items are tried in order |
| Retry.ProcessTriesEvery | 493785/ideal3/ideal3.go:102-109 | every item is tried, between one and maxRetries + 1 times each (its count in the trace), and the total number of calls lies between the number of items and that times maxRetries + 1 |
| Retry.ProcessCallsBounded | 493785/ideal3/ideal3.go:102-109 | every item appears in the trace, and the total number of calls lies between the number of items and that times maxRetries + 1 |
| Retry.ProcessCountsEach | 493785/ideal3/ideal3.go:102-109 | each item occurs in the trace between one and maxRetries + 1 times |
| Retry.ProcessItems | 493785/ideal3/ideal3.go:98-111 | the loop never fails and follows `Process` |
| Retry.ExampleOutcomes | 493785/ideal3/ideal3.go:114-128 | the example's three items end in retry limit, bad format and success |
| Workforce.Add | 494120/ideal1.go:30-32 | the employee is stored under their id, others untouched |
| Workforce.Evaluate | 494120/ideal1.go:36-47 | only the performance changes; it is the workload-adjusted score clamped to 0..10 |
| Workforce.MidWorkloadKeepsScore | 494120/ideal1.go:37-46 | a workload of 3..8 leaves an in-range score unchanged |
| Workforce.Move | 494120/ideal1.go:59-60 | one task moves from one employee to another, nothing else changes |
| Workforce.MoveBalances | 494120/ideal1.go:55-60 | a move keeps the total workload and lowers the total overload by one |
| Workforce.FirstBelow | 494120/ideal1.go:57-65 | the first employee in iteration order with fewer than 5 tasks, or none |
| Workforce.Step | 494120/ideal1.go:55-66 | an employee above 8 tasks gives one to the first one below 5, when there is one |
| Workforce.Pass | 494120/ideal1.go:54-67 | a pass keeps the staff set and changes nothing when it reassigns nothing |
| Workforce.PassBalances | 494120/ideal1.go:54-67 | a pass keeps the total workload and a reassigning pass lowers the overload |
| Workforce.Optimize | 494120/ideal1.go:51-72 | the staff set is kept |
| Workforce.OptimizeKeepsTotal | 494120/ideal1.go:51-72 | rebalancing keeps the total workload |
| Workforce.OptimizeKeepsDetails | 494120/ideal1.go:51-72 | rebalancing changes only workloads |
| Workforce.PassKeepsDetails | 494120/ideal1.go:54-67 | a pass changes only workloads |
| Workforce.QuietPass | 494120/ideal1.go:68-70 | a pass with no reassignment found no overloaded employee with a target |
| Workforce.OptimizeBalanced | 494120/ideal1.go:52-70 | at the end no employee has more than 8 tasks while another has fewer than 5 |
| Workforce.ExampleRebalance | 494120/ideal1.go:97-105 | in the example Bob hands one task to Charlie and nothing else moves |
| Workforce.Workforce.constructor | 494120/ideal1.go:23-27 | a new workforce is empty |
| Workforce.Workforce.AddEmployee | 494120/ideal1.go:30-32 | the new map is `Add` of the old |
| Workforce.Workforce.EvaluatePerformance | 494120/ideal1.go:35-48 | every employee is replaced by `Evaluate` of them |
| Workforce.Workforce.RunPass | 494120/ideal1.go:53-67 | the loop computes `Pass` |
| Workforce.Workforce.FindTarget | 494120/ideal1.go:57-65 | the loop computes `FirstBelow` |
| Workforce.Workforce.OptimizeResources | 494120/ideal1.go:51-72 | the loop computes `Optimize` |
| ChunkCodec.Encode | 493873/ideal2.go:39-41 | exactly the suffix "_encoded" is appended |
| ChunkCodec.Decode | 493873/ideal2.go:44-46 | exactly the last 8 bytes are dropped |
| ChunkCodec.DecodeEncode | 493873/ideal2.go:39-46 | decode undoes encode |
| ChunkCodec.EncodeDecode | 493873/ideal2.go:39-46 | encode undoes decode on a chunk ending in the suffix |
| ChunkCodec.DecodeIgnoresTrailer | 493873/ideal2.go:45 | decode drops any 8 trailing bytes, whatever they are |
| ChunkCodec.Data.constructor | 493873/ideal2.go:21-24 | the pool's new chunk is 1024 zero bytes |
| ChunkCodec.Data.EncodeChunk | 493873/ideal2.go:39-41 | the chunk becomes `Encode` of the old one |
| ChunkCodec.Data.DecodeChunk | 493873/ideal2.go:44-46 | the chunk becomes `Decode` of the old one |
| ChunkCodec.Data.Reset | 493873/ideal2.go:33-36 | returning to the pool empties the chunk |
| ChunkCodec.ProcessSerial | 493873/ideal2.go:55-81 | the serial branch prints "raw data" and leaves the chunk empty |
| StreamCodec.EncodeData | 493873/a2.go:17-21 | the prefix "encoded:" then the data |
| StreamCodec.DecodeData | 493873/a2.go:24-28 | everything after the first 8 bytes |
| StreamCodec.DecodeEncode | 493873/a2.go:17-28 | decode undoes encode |
| StreamCodec.EncodeDecode | 493873/a2.go:17-28 | encode undoes decode on data starting with the prefix |
| StreamCodec.ChunkRanges | 493873/a2.go:49-58 | one range per worker; together they partition the stream; all but the last are len/numWorkers long |
| StreamCodec.Results | 493873/a2.go:33-39 | at most one result per item |
| StreamCodec.NoErrorKeepsAll | 493873/a2.go:33-39 | a callback that never fails gives one result per item, in arrival order |
| StreamCodec.DecodeEachRoundTrip | 493873/a2.go:17-28 | decoding each encoded result gives the items back in arrival order |
| StreamCodec.ConcatenatedDecodeKeepsPrefixes | 493873/a2.go:128-132 | decoding the concatenated output as one buffer keeps the inner prefixes |
| StreamCodec.TwoItemsDecodedAsOne | 493873/a2.go:128-132 | for any two items, decoding their concatenated encoding as one buffer yields the first item, the prefix, then the second, which differs from the two items concatenated |
| UserFormat.FormatUserDetails | 493958/ideal1.go:18-28 | missing name or email, then non-positive age, are errors; otherwise the four detail lines joined by newlines |
| UserFormat.FormatUserDetailsInjective | 493958/ideal1.go:26 | users without newlines in name and email are recovered from their details |
| UserFormat.Level | 493958/ideal1.go:32-35 | the trimmed upper-cased level when it is INFO, WARN or ERROR, otherwise INFO |
| UserFormat.LevelIdempotent | 493958/ideal1.go:32-35 | normalising a normalised level changes nothing |
| UserFormat.KnownLevelFixed | 493958/ideal1.go:32-35 | the three level words are their own normal form |
| UserFormat.LowerInfoExample | 493958/ideal1.go:66 | "info" becomes INFO |
| UserFormat.PaddedWarnExample | 493958/ideal1.go:32-35 | surrounding white space is trimmed |
| UserFormat.UnknownLevelExample | 493958/ideal1.go:33-34 | an unknown level falls back to INFO |
| UserFormat.LogFormattedMessage | 493958/ideal1.go:31-37 | the bracketed level, a space, then the message unchanged |
| UserFormat.LogFormattedMessageInjective | 493958/ideal1.go:36 | the level and message are recovered from the log line |
| UserFormat.HandleDynamicFormatting | 493958/ideal1.go:40-54 | an empty template and one without '%' are refused; otherwise the formatted text |
| UserFormat.NoPlaceholderExample | 493958/ideal1.go:78 | the example template without placeholders is refused |
| SqlEscape.EscapeSQL | 493779/ideal1.go:23-27 | the result is the rune-by-rune escape `Escaped`: each quote doubled, each backslash doubled, every other rune kept |
| SqlEscape.TwoPassesAreOnePass | 493779/ideal1.go:24-25 | the two replacement passes, quotes first, equal one rune-by-rune pass |
| SqlEscape.EscapedLength | 493779/ideal1.go:24-25 | each quote and backslash adds one rune |
| SqlEscape.EscapeSQLLength | 493779/ideal1.go:24-25 | the result is longer by the number of quotes and backslashes |
| SqlEscape.EscapeSQLUnchangedIff | 493779/ideal1.go:24-25 | the input is unchanged iff it has no quote and no backslash |
| SqlEscape.UnescapeEscapeSQL | 493779/ideal1.go:24-25 | the original text is read back from the escaped text |
| SqlEscape.EscapeSQLExample | 493779/ideal1.go:24-25 | O'Brien\ becomes O''Brien\\ |
| SqlEscape.ReplaceAllAppend | 493779/ideal1.go:24-25 | replacement distributes over concatenation |
| GoStrings.Atoi | 493999/a1/a1.go:94 | a parsed value lies in the 64-bit range; the text is non-empty and starts with a digit or a sign |
| GoStrings.Itoa | 493999/b1/b1.go:68 | non-empty decimal text, a leading '-' exactly for negative numbers, ending in a digit |
| GoStrings.ToLower | 493999/b1/b1.go:29 | the same length, each rune lower-cased |
| GoStrings.ToUpper | 493958/ideal1.go:32 | the same length, each rune upper-cased |
| GoStrings.ReplaceAll | 493779/ideal1.go:24-25 | each occurrence of the rune adds the length of the replacement less one |
| GoStrings.AtoiItoa | 493999/b1/b1.go:56-68 | every 64-bit integer's decimal text parses back to it |
| GoStrings.SplitJoin | 493999/a1/a1.go:58 | splitting a join of separator-free parts gives the parts back |
| GoStrings.Split | 493999/a1/a1.go:58 | one more part than separators, none holding the separator, joining back to the input |
| GoStrings.Trim | 493999/a1/a1.go:63 | a middle slice of the input with only cut runes removed from the ends |
| GoStrings.TrimPrefix | 493999/b1/b1.go:47 | the prefix is removed when present, otherwise the input is returned |

## Left out

- Time, logging, HTTP, sleeps and mutexes are not modelled.
  - Each limiter method is one atomic step; the mutexes only make it so.
  - Handlers return their status instead of writing a response.
  - `fmt` printing and `log` calls are not modelled.
- Map iteration order and the order channel results arrive in are parameters.
  - Every order is allowed, so `StreamCodec` over-approximates the goroutine interleavings. The order of items within one worker is not enforced.
- The code puts no minimum or maximum bound and no cooldown on the adaptive limit. `AdaptiveLimit.LargeGrows` shows that, with the unbounded integers and exact reals of the model, every admission raises a limit of 5 or more. Go's `int(float64(m)*1.2)` (493819/a2.go:73) stops being exact above 2^53 and overflows `int` after a few hundred admissions; neither is modelled (see the 64-bit line below).
- Several behaviours look unintended, but the model follows the code as written:
  - 493819/a2.go:15 is a statement at package level, which is not valid Go; it only sets the log level, so the model leaves it out.
  - In 493819/b1.go a steady stream of calls less than a second apart never resets the count, so the user stays blocked.
  - In 493819/ideal2.go the interval is measured from creation or from the last refusal, not from the last reset.
- Floating point is `real`: there is no rounding, NaN or infinity.
  - `SlidingWindow.Rate` requires a positive elapsed time. Go divides float64 values there (493819/ideal3.go:52, 493819/a3.go:56) and does not panic. An elapsed time of 0 gives +Inf, or NaN when no request is in the window. From then on the EWMA stays +Inf or NaN, and that user is refused on every later call. A clock that goes backwards gives a negative rate.
  - For that reason the model does not capture the Inf/NaN lock-out, nor a clock that goes backwards: every call after the first must come strictly later than the previous request (`CanStep`).
  - `EwmaWindow.Step` requires `CanStep`: a call after the first must be strictly later than the last request.
  - `EwmaWindow.DynamicSlidingWindow.Allow` requires `CanStep`, as `EwmaWindow.Step` does.
  - `EwmaWindow.DynamicRateLimiter.Allow` requires `CanStep` for a user who already has a window.
  - `RecordingWindow.Step` requires `CanStep`: once initialized, a call must be strictly later than the previous one.
  - `RecordingWindow.DynamicSlidingWindow.Allow` requires `CanStep`, as `RecordingWindow.Step` does.
  - `RecordingWindow.DynamicRateLimiter.Allow` requires `CanStep` for a user who already has a window.
- The `%v` rendering of a duration is the parameter `durationText`.
- `GoStrings.Atoi` and `GoStrings.Itoa` are exact only within the 64-bit range. Go's int arithmetic overflow is not modelled elsewhere.
- Case mapping covers only runes whose upper or lower case is ASCII. This is exact for the comparisons with ASCII words that the code makes.
- `TagBalance` reads the XML decoder's output as a sequence of tokens ending at the first error. The decoder's own strictness, attributes' rendering and namespaces are not modelled.
- `TagBalance` works on decoded tokens and events, not on document text. Go writes decoded character data back without escaping it (494003/ideal2/ideal2.go:82-83), so a document holding `&lt;` or `&amp;` does not come back as itself. Adjacent text runs merge, and comments, processing instructions and directives are dropped. `TagBalance.BalancedUnchanged` and `TagBalance.CorrectIdempotent` therefore speak of event sequences, not of documents.
- `QueryParams.ApplyToQuery` mutates the caller's `url.Values` in Go; the model returns the new map.
- `QueryParams.NewQueryParams` requires every value list of a predefined key to be non-empty, because Go indexes `[0]` and panics otherwise.
- `QueryParse.QueryParameters.ParseQuery` models the nil filters Go leaves after an error as the empty list.
- `ChunkCodec.Decode` and `StreamCodec.DecodeData` require at least 8 bytes, because Go's slice expression panics on shorter input.
- `StreamCodec.ChunkRanges` requires a non-zero worker count, because Go divides by zero.
- `StreamCodec.ProcessStream` takes an arrival order of every stream position and is not tied to `ChunkRanges`. It cannot express a negative worker count, for which Go starts no worker and returns an empty result (493873/a2.go:49-58); `ChunkRanges` alone covers that case.
- In 493873/ideal2.go, `sync.Pool` and `Get` are not modelled, nor the capacity that `Chunk[:0]` keeps. The parallel branch of `processData`, which races on one chunk, is not modelled either.
- `UserFormat.HandleDynamicFormatting`: `fmt.Sprintf` is the parameter `format`, and its panic recovery is not modelled.
- `Retry.ExampleCallback` does not model the example's panic on the item "unexpected".
- The following are not modelled:
  - the `main` functions, which print only;
  - `PredictFutureNeeds` and `DisplayWorkforce` in 494120/ideal1.go, which print only;
  - `sanitizeHTML` and `ServeHTTP` in 493779/ideal1.go, which are HTTP plumbing.

## Findings

| source | as written | input that shows it | evidently intended | confidence | as-written member | corrected member |
|---|---|---|---|---|---|---|
| 493873/a2.go:128-132 | main decodes the concatenation of all encoded results as one buffer, so only the first "encoded:" prefix is removed | the stream ["data-0", "data-1"] decodes to "data-0encoded:data-1" | decode each encoded result separately, giving "data-0" and "data-1" back | not executed | StreamCodec.ConcatenatedDecodeKeepsPrefixes | StreamCodec.DecodeEachRoundTrip |

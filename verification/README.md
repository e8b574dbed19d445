# Brain Dumpster core, modelled in Dafny

Brain Dumpster is an iOS task and voice-note app with a premium subscription.
This project models its core logic as pure Dafny functions and proves properties of that logic.

- **Receipt verification on the server.** The `/verify-receipt` handler checks its input. It posts the receipt to Apple's verifyReceipt service, production first, with a single sandbox retry on status 21007. It resolves which premium purchase is active and maps the outcome to an HTTP status. It also decides whether the result is saved for the user.
- **Receipt verification on the client.** The client posts to the backend and retries with backoff. The retry budget and the delays come from `BackendConfig`.
- **StoreKit entitlement scan.** The scan over current entitlements decides premium status, the governing product and the expiry. A product can be looked up by id or by plan name.
- **The streak tracker.** Recording a completion, loading the saved streak, milestones, and the emoji and message shown for a streak.
- **The task lists.** Decoding tasks and sorting them into open, overdue and completed lists. Deleting, toggling, deleting a reminder, and undoing a deletion. The daily progress count.
- **The calendar screens.** The month grid, the day name, month navigation, the per-day task density and the heat-map buckets. Also the widget's month grid and the task-list height.
- **The meeting recording model.** Formatting the duration, counting speakers and tasks, decoding a stored recording with its defaults, and the sentiment emoji.
- **Helpers in the API client.** Spacing out reminder suggestions to be at least 30 seconds apart. Choosing the audio MIME type. The user-facing error texts. Identity of reminder suggestions.
- **The subscription-management screen.** Reading the status response, naming tiers and plans, and deciding which controls the screen shows.
- **The VoiceOver labels and the notification copy templates.**

Time is a parameter: `now` is in milliseconds or seconds, and `today` is a day number. Anything that talks to the outside world is a function parameter (an oracle):

- Apple's service;
- the HTTP attempt outcomes;
- date parsing and formatting;
- the hash function;
- the time-of-day extractor.

Strings are `seq<char>`. Python's `str.lower` and Swift's `lowercased()` are modelled as ASCII lower-casing (`Strings.Lower`). Swift's `/` and `%` truncate toward zero, and `SwiftArith` writes that out where a negative operand can occur.

Files, one module each:

| file | models |
|---|---|
| `wrappers.dfy` | `Option` |
| `strings.dfy` | lower-casing, decimal rendering, `%02d`, substring search, `replacingOccurrences`, `components(separatedBy:)` |
| `arith.dfy` | Swift's truncating division |
| `apple_receipt.dfy` | `receipt_validation_endpoint.py` |
| `receipt_retry.dfy` | `ReceiptValidationService.swift`, `BackendConfig.swift` |
| `store_entitlements.dfy` | `NativeStoreManager.swift` |
| `streak.dfy` | `StreakManager.swift` |
| `task_lists.dfy` | `Models.swift` |
| `calendar_grid.dfy` | `CalendarDetailView.swift`, the calendar widget in `ContentView.swift` |
| `content_view.dfy` | the rest of `ContentView.swift` that is modelled |
| `recording.dfy` | `Models/Recording.swift` |
| `api_helpers.dfy` | `BraindumpsterAPI.swift` |
| `subscription.dfy` | `SubscriptionManagementView.swift` |
| `accessibility.dfy` | `AccessibilityHelpers.swift` |
| `notification_copy.dfy` | `NotificationCopyGuide.swift` |

Behaviour of the code worth noting:

- **Missing bundle id in Apple's receipt.** A receipt with no `bundle_id` counts as a mismatch.
- **First match wins.** The first qualifying purchase in list order is selected, even when a lifetime purchase comes later.
- **"No purchases found".** This message appears only when both `in_app` and `latest_receipt_info` are empty. If there are purchases but none is premium, the message is "No active subscriptions".
- **Environment default.** The environment defaults to "Production" even when the sandbox answered.
- **Client's bundle id.** The handler checks it only when it is present and non-empty.
- **Plan comparison.** The subscription screen shows it according to the `status` field, not the `tier` field.

## Model

| member | source | states |
|---|---|---|
| AppleReceipt.FindActivePremium | receipt_validation_endpoint.py:260-300 | A product is found exactly when some purchase is a premium product that is lifetime or expires strictly after now. It is the first such purchase in list order. A lifetime product carries no expiry. A subscription's expiry lies after now. |
| AppleReceipt.FirstStop | receipt_validation_endpoint.py:266-298 | The index returned is the first entry at which the scan ends, by qualifying or by raising. Every earlier entry is passed over. No index means no entry ends the scan. |
| AppleReceipt.FirstStopAt | receipt_validation_endpoint.py:266-298 | Any entry that ends the scan with none before it is the one the scan finds. |
| AppleReceipt.Selected | receipt_validation_endpoint.py:275-295 | The reported product is the purchase's own id. The lifetime product, and only it, carries no expiry; any other carries the purchase's own `expires_date_ms`. |
| AppleReceipt.ParseAppleResponse | receipt_validation_endpoint.py:206-257 | An unreadable receipt section or purchase list, a scan that raises, or an unusable environment on a premium result raises. Otherwise success holds exactly when the bundle id is the app's own, and a failure is "Bundle ID mismatch". A premium result carries the product and expiry the scan selects from `in_app` then `latest_receipt_info`, the lower-cased environment, and "Receipt verified successfully"; the scan finding a product makes the result premium. A non-premium success says "No purchases found" exactly for empty lists and "No active subscriptions" exactly when entries exist but none ends the scan. |
| AppleReceipt.Failed | receipt_validation_endpoint.py:188-195 | An error result is neither successful nor premium and names no product. |
| AppleReceipt.StatusMessage | receipt_validation_endpoint.py:31-43 | A listed status gets its table message; any other, including a missing one, gets "Unknown error (status N)" or "(status None)". |
| AppleReceipt.Finish | receipt_validation_endpoint.py:184-195 | A status-0 answer gives exactly what parsing the receipt gives. Any other status fails with that status's message, is not premium and names no product. A crash, a success or a premium result therefore come only from status 0. |
| AppleReceipt.VerifyWithApple | receipt_validation_endpoint.py:159-203 | Production is always called first, with the shared secret and exclude-old-transactions. Sandbox is called exactly when production answers 21007, with the same request. The result comes from the last call. |
| AppleReceipt.HandleVerifyReceipt | receipt_validation_endpoint.py:81-156 | Refused bodies get 400 with the refusal message and no upstream call; a body of the wrong type gets 500 "Internal server error". Apple is called exactly when the checks pass, and a returned outcome is the response body unchanged. The status is 200 exactly on success. A timeout gives 504 "Request timed out"; a crash gives 500 "Internal server error". A record is saved exactly for a premium success with a truthy user id, with that result's product, expiry and environment. |
| AppleReceipt.Precheck | receipt_validation_endpoint.py:85-123 | "Missing request body" exactly for a missing or falsy body. A body that is not an object raises. In an object, a falsy receipt is "Missing receipt data" and a truthy receipt that is not a string raises. A going-ahead body has a non-empty string receipt and no foreign truthy bundle id. Only the three refusal messages occur. |
| AppleReceipt.NullReceiptData | receipt_validation_endpoint.py:87-107 | `{"receiptData": null}` is refused as "Missing receipt data"; an empty object as "Missing request body". |
| AppleReceipt.WrongTypesRaise | receipt_validation_endpoint.py:95-113 | A truthy non-string receipt, or device info that is not an object, ends in 500 "Internal server error" with no upstream call. |
| AppleReceipt.ClientBundleCheck | receipt_validation_endpoint.py:116-123 | A foreign bundle id sent by the client is refused with 400 "Invalid bundle ID" before any upstream call. An absent or empty one lets the request through. |
| AppleReceipt.ExpiryIsStrict | receipt_validation_endpoint.py:284-289 | A subscription expiring exactly now is not active; one expiring a millisecond later is. |
| AppleReceipt.SkippedEntries | receipt_validation_endpoint.py:267-285 | Entries with no product id, a non-premium product, or a subscription without an expiry are skipped. |
| AppleReceipt.NonQualifyingPrefixIgnored | receipt_validation_endpoint.py:276-295 | Prepending purchases that do not qualify does not change which purchase is selected. |
| AppleReceipt.ActiveIffSomeQualifies | receipt_validation_endpoint.py:260-300 | Without entries that raise, the scan finds a product exactly when some purchase qualifies, and never raises. |
| AppleReceipt.FirstStopSkipsPrefix | receipt_validation_endpoint.py:266-298 | Entries that do not end the scan, put in front, shift the index where it ends by their number and change nothing else. |
| AppleReceipt.LifetimeBeatsInactive | receipt_validation_endpoint.py:276-281 | A lifetime purchase is selected when no other purchase is active. |
| AppleReceipt.EarlierActiveSubscriptionWins | receipt_validation_endpoint.py:276-295 | An active subscription listed before a lifetime purchase is selected instead of the lifetime one. |
| AppleReceipt.FirstOfTwoActiveWins | receipt_validation_endpoint.py:276-295 | Of two active purchases, the one listed first wins, in either order. |
| AppleReceipt.BundleMismatchIsFatal | receipt_validation_endpoint.py:218-224 | A foreign bundle id fails with "Bundle ID mismatch", is not premium, and names no product. |
| AppleReceipt.EmptyPurchasesSucceed | receipt_validation_endpoint.py:226-238 | A matching receipt whose purchase lists are absent or empty succeeds, is not premium, and says "No purchases found". |
| AppleReceipt.OnlyForeignPurchases | receipt_validation_endpoint.py:240-257 | Purchases present but none ending the scan: success, not premium, and "No active subscriptions". |
| AppleReceipt.InAppBeforeLatest | receipt_validation_endpoint.py:226-229 | When the first `in_app` entry that ends the scan qualifies, it is the one reported, whatever `latest_receipt_info` holds. |
| AppleReceipt.NoRedirectLoop | receipt_validation_endpoint.py:173-195 | A second 21007 from sandbox is not followed again. The result fails with that status's message after exactly two calls. |
| AppleReceipt.SandboxFallbackResolves | receipt_validation_endpoint.py:173-187 | A sandbox receipt is resolved from the sandbox's answer. |
| AppleReceipt.RejectedStatusMessage | receipt_validation_endpoint.py:31-43 | A non-zero status fails with its table message, or with "Unknown error (status N)" for a code not in the table. |
| AppleReceipt.TimeoutDoesNotFallBack | receipt_validation_endpoint.py:197-199 | A production timeout raises after one call, with no sandbox attempt. |
| AppleReceipt.UnusableEnvironmentOnPremium | receipt_validation_endpoint.py:212-251 | A premium result whose environment is null or not a string raises at the lower-casing. |
| AppleReceipt.MonthlyExample | receipt_validation_endpoint.py:81-156 | An active monthly receipt for a known user yields 200, a premium body with the "production" environment, and a saved record. |
| AppleReceipt.LifetimeExample | receipt_validation_endpoint.py:81-156 | A lifetime purchase in a sandbox receipt yields 200 and premium with no expiry. Nothing is saved without a user id. |
| AppleReceipt.UnauthenticatedExample | receipt_validation_endpoint.py:185-195 | Status 21003 yields 400 with "The receipt could not be authenticated". |
| ReceiptRetry.SendVerificationRequest | ReceiptValidationService.swift:162-232 | A 2xx response decodes or throws. A 400–599 response is a server error with its status and body. Other statuses, and responses that are not HTTP, are invalid. A missing token is a network error. Transport errors are rethrown. |
| ReceiptRetry.DelayIndex | ReceiptValidationService.swift:129 | The delay index is the attempt's own index, clamped to the last delay. |
| ReceiptRetry.DelayAfter | BackendConfig.swift:22-25 | The wait after attempt n is the n-th delay, and the last one from then on. |
| ReceiptRetry.VerifyWithRetry | ReceiptValidationService.swift:123-142 | Attempts are numbered consecutively and each retry waits its scheduled delay. At most `maxRetryAttempts + 1` attempts are made. Every attempt but the last was a rejection that may be retried. The result is the last attempt's decoded response, its transport error as a network error, or its rejection, which may not be retried. |
| ReceiptRetry.VerifyReceipt | ReceiptValidationService.swift:89-118 | Without a receipt, nothing is sent. Otherwise there are 1 to 3 attempts, numbered from 1, with the delays [2, 4] in order. Every attempt but the last was rejected with a retryable error. The verdict is the last attempt's: its response, its thrown error as a network error, or its non-retryable error. |
| ReceiptRetry.RetryableErrors | ReceiptValidationService.swift:144-158 | Within the budget, exactly 5xx server errors, timeouts and network errors are retried. |
| ReceiptRetry.NoRetryPastBudget | ReceiptValidationService.swift:145-147 | Past `maxRetryAttempts`, nothing is retried. |
| ReceiptRetry.HttpRetriedIffServerError | ReceiptValidationService.swift:201-230 | A non-2xx HTTP response is retried exactly when its status is 500–599. |
| ReceiptRetry.DelaySchedule | BackendConfig.swift:22-25 | The first retry waits 2 s; later retries wait 4 s. |
| ReceiptRetry.TransportErrorsAreNotRetried | ReceiptValidationService.swift:123-142 | A thrown transport error ends the run after one attempt, as a network error. |
| ReceiptRetry.PersistentServerError | ReceiptValidationService.swift:123-158 | A server that keeps answering 5xx sees three attempts, with waits of 2 s and 4 s, then its error. |
| ReceiptRetry.NeverTimeoutOrMaxRetries | ReceiptValidationService.swift:50-73 | The retry loop never reports `timeout` or `maxRetriesExceeded`. |
| StoreEntitlements.CheckVerified | NativeStoreManager.swift:318-326 | A verified result yields its transaction; an unverified one yields none. |
| StoreEntitlements.Step | NativeStoreManager.swift:240-270 | An unverified result changes nothing. A verified one adds its id. A lifetime one becomes current and clears the date. A dated one takes over only when no date is tracked or its date is strictly later; otherwise date and product stay. |
| StoreEntitlements.Scan | NativeStoreManager.swift:237-271 | Whenever a date is tracked, a product is too, and the current product is always one of the purchased ids. |
| StoreEntitlements.UpdatePurchaseStatus | NativeStoreManager.swift:228-283 | The purchased ids are exactly the verified transactions' products. Premium holds exactly when one is verified. An expiry is the governing dated transaction's expiry, with its product. Without an expiry, no dated transaction follows the last lifetime one, whose product is current. Nothing verified means no product and no expiry. |
| StoreEntitlements.PurchasedIdsExact | NativeStoreManager.swift:237-271 | The scan collects exactly the verified products. |
| StoreEntitlements.PremiumIffVerified | NativeStoreManager.swift:273-274 | The purchased set is non-empty exactly when some transaction is verified. |
| StoreEntitlements.ScanMatchesReference | NativeStoreManager.swift:232-276 | The in-order scan agrees with the declarative definition of the governing transaction: the latest expiry after the last lifetime purchase. |
| StoreEntitlements.AfterLastSnocOther | NativeStoreManager.swift:232-276 | A new entitlement that is not lifetime keeps every earlier entry's position relative to the last lifetime purchase, and is itself after it. |
| StoreEntitlements.StepUnverified | NativeStoreManager.swift:266-270 | An unverified entitlement keeps the scan in agreement with the reference. |
| StoreEntitlements.StepLifetime | NativeStoreManager.swift:252-256 | A lifetime entitlement keeps the scan in agreement with the reference. |
| StoreEntitlements.StepDated | NativeStoreManager.swift:247-251 | A dated entitlement keeps the scan in agreement with the reference. |
| StoreEntitlements.DatedStep | NativeStoreManager.swift:247-251 | A dated entitlement either takes over product and expiry or leaves both. One that does not expire later leaves the product. |
| StoreEntitlements.LifetimeStep | NativeStoreManager.swift:252-256 | A lifetime entitlement becomes current and clears the expiry. |
| StoreEntitlements.OrderDependence | NativeStoreManager.swift:232-276 | Whichever of a lifetime and a subscription comes last governs, so the outcome depends on the entitlement order. |
| StoreEntitlements.UnverifiedIgnored | NativeStoreManager.swift:266-270 | Appending an unverified entitlement changes nothing. |
| StoreEntitlements.FirstWhere | NativeStoreManager.swift:329-343 | Returns the first product satisfying the predicate, or reports that none does. |
| StoreEntitlements.ProductFor | NativeStoreManager.swift:329-331 | Looks a product up by id and returns the first with that id; absent exactly when no product has it. |
| StoreEntitlements.ProductContaining | NativeStoreManager.swift:333-343 | Returns the first listed product whose id contains the plan name; absent exactly when none does. |
| Streak.MilestoneFor | StreakManager.swift:140-193 | There is a milestone exactly for 3, 7, 14, 30, 60 and 100 days, and it names that day count. |
| Streak.AllMilestones | StreakManager.swift:195-197 | One milestone per milestone day, in order, each equal to the lookup's. |
| Streak.CheckForMilestone | StreakManager.swift:57-63 | The counters are untouched. A milestone day raises the celebration with that milestone; any other day changes nothing. |
| Streak.RecordTaskCompletion | StreakManager.swift:23-55 | A second completion on the same day changes nothing. After yesterday the streak grows by one; after a gap it restarts at 1. The longest streak is raised to the current one. A milestone day raises the celebration. |
| Streak.LoadStreak | StreakManager.swift:74-91 | The longest streak and the last day are loaded as saved. The current streak is reset to 0 exactly when more than one day has passed since the last completion. |
| Streak.StreakMessage | StreakManager.swift:109-128 | Every streak other than 0, 1, 2, 3, 7, 14 and 30 reads "N days strong! Keep going". |
| Streak.RecordKeepsValid | StreakManager.swift:23-55 | Recording keeps 0 ≤ current ≤ longest, never lowers the longest streak, and leaves a streak of at least 1 on a new day. |
| Streak.RecordIdempotent | StreakManager.swift:26-32 | Recording twice on the same day is the same as recording once. |
| Streak.LoadKeepsValid | StreakManager.swift:74-91 | A consistent saved streak loads into a consistent state. |
| Streak.ConsecutiveDaysExtend | StreakManager.swift:33-36 | k consecutive days after yesterday raise the streak by k. |
| Streak.ConsecutiveDaysAfterGap | StreakManager.swift:37-46 | k consecutive days after a gap give a streak of exactly k. |
| Streak.RestartAfterGap | StreakManager.swift:37-46 | After a gap, or with no earlier completion, a completion starts a new streak of one on that day. |
| Streak.RecordAllLastDay | StreakManager.swift:26-46 | After any non-empty sequence of completions, the last completion day is the last day recorded. |
| Streak.RecordAllKeepsValid | StreakManager.swift:23-55 | Any sequence of completions keeps the streak consistent and never lowers the longest streak. |
| Streak.WeekMilestone | StreakManager.swift:150-157 | Seven consecutive days from scratch give a streak of seven and raise the one-week milestone. |
| Streak.EmojiByBucket | StreakManager.swift:94-107 | Two streaks show the same emoji exactly when they fall in the same range. |
| TaskLists.ConvertReminders | Models.swift:147-154 | Every stored reminder is converted, in order. |
| TaskLists.ConvertReminder | Models.swift:146-154 | Id, time and message are copied. A reminder is sent exactly when its stored flag is true; a missing flag reads as unsent. |
| TaskLists.UnsentCount | Models.swift:157 | The count is 0 exactly when every reminder was sent, and equals the number of reminders exactly when none was. |
| TaskLists.UnsentCountAppend | Models.swift:157 | The count of two lists together is the sum of their counts; one reminder counts 1 exactly when it is unsent. |
| TaskLists.FromModel | Models.swift:142-172 | Identity, title, description, priority and due date are copied. A task is completed exactly when its status lower-cases to "completed". The category defaults. Stored reminders are converted one by one, and none are kept when the list is missing. The notification count is the unsent count. The time is the due date's extracted time, or empty when there is no due date or it cannot be read. |
| TaskLists.IsTaskOverdue | Models.swift:231-253 | A task is overdue exactly when its parseable due date is before now and it is not completed. |
| TaskLists.FirstParse | Models.swift:242-250 | The date is read by the first format that accepts the string; none when no format does. |
| TaskLists.FirstFormatDecides | Models.swift:231-253 | The first format that accepts the due date decides whether the task is overdue; later formats are not consulted. |
| TaskLists.OverdueStaysOverdue | Models.swift:231-253 | A task overdue now is still overdue at any later time. |
| TaskLists.Partition | Models.swift:268-276 | The split with one clock reading shared by both filters (the corrected `fetchTasks`, see Findings). The three lists together hold each fetched task exactly as often as the fetch does: completed ones, open overdue ones, and open ones that are not overdue. |
| TaskLists.PartitionAppend | Models.swift:268-276 | The split of two fetched lists together is the concatenation of their splits, list by list, so each list keeps the fetched order. |
| TaskLists.PartitionSingleton | Models.swift:268-276 | A single task lands in exactly the list its flag and due date call for. |
| TaskLists.Keep | Models.swift:268-276 | `filter` keeps exactly the elements that pass, and never lengthens the list. |
| TaskLists.KeepMultiset | Models.swift:268-276 | `filter` keeps every passing element as often as it occurs and drops every other. |
| TaskLists.KeepLength | Models.swift:268-276 | Nothing is dropped exactly when everything passes, and then the list is unchanged; the result is empty exactly when nothing passes. |
| TaskLists.KeepAppend | Models.swift:268-276 | Filtering a concatenation is concatenating the filtered parts. |
| TaskLists.KeepSingleton | Models.swift:268-276 | One element is kept exactly when it passes. |
| TaskLists.SplitThree | Models.swift:268-276 | Two nested filters with complementary tests split a list into three parts that hold each element as often as the list. |
| TaskLists.PartitionDisjoint | Models.swift:268-276 | Every fetched task is in exactly one list. |
| TaskLists.DailyProgress | Models.swift:217-221 | The completed count is the completed list's length and never exceeds the total. |
| TaskLists.ProgressCountsFetched | Models.swift:217-221 | After a fetch with one clock reading, the total is the number of fetched tasks. |
| TaskLists.FetchSplit | Models.swift:231-276 | `fetchTasks` as written, with the overdue filter reading the clock at `now1` and the active filter at `now2`. The completed list holds exactly the fetched completed tasks. The overdue list holds exactly the fetched tasks overdue at `now1`. The active list holds exactly the fetched open tasks not overdue at `now2`. |
| TaskLists.KeepSame | Models.swift:272-275 | Filters with pointwise equal tests keep the same elements. |
| TaskLists.FetchSplitOneClock | Models.swift:272-275 | When both filters see the same instant, the as-written split is `Partition`. |
| TaskLists.FetchSplitAppend | Models.swift:272-275 | The as-written split of two lists together is the concatenation of their splits, list by list. |
| TaskLists.FetchSplitSingleton | Models.swift:231-276 | A completed task goes to the completed list. An open task goes to the overdue list when overdue at the first reading, and independently to the active list when not overdue at the second. |
| TaskLists.FetchSplitDrops | Models.swift:231-276 | An open task falling due between the two readings is in no list, and the progress total misses it. |
| TaskLists.FetchSplitDoubles | Models.swift:231-276 | If the clock steps back between the readings, an open task falling due in between is in both the active and the overdue list, and the progress total counts it twice. |
| TaskLists.FetchSplitDropExample | Models.swift:231-276 | A task due at 100, split with readings 100 and 101, is lost; with the single reading 100 it is active. |
| TaskLists.FetchSplitSorted | Models.swift:231-276 | When the clock does not step back, no task is both active and overdue, completed tasks are in neither, overdue tasks are still overdue at the second reading, and a fetched task is in some list exactly when it is not an open task falling due between the readings. |
| TaskLists.FetchSplitCount | Models.swift:231-276 | When the clock does not step back, the progress total after the as-written fetch is the number of fetched tasks minus the open ones falling due between the readings. |
| TaskLists.RemoveId | Models.swift:297-299 | Entries with the id are dropped, every other entry is kept as often as it occurs, and a missing id leaves the list unchanged. |
| TaskLists.RemoveIdAppend | Models.swift:297-299 | Removing from two lists together is removing from each, in order; one entry is dropped exactly when it has the id. |
| TaskLists.DeleteTask | Models.swift:296-299 | Each of the three lists loses exactly the entries with the id and keeps every other entry, in order. |
| TaskLists.DeleteTaskKeepsSorted | Models.swift:296-299 | Deleting keeps each task in the list its state belongs to. |
| TaskLists.FirstIndexOf | Models.swift:318 | Returns the first index with the id, or reports that none has it. |
| TaskLists.RemoveReminder | Models.swift:319 | Reminders with the id are dropped; every other reminder is kept as often as it occurs. |
| TaskLists.RemoveReminderAppend | Models.swift:319 | Removing from two reminder lists together is removing from each, in order. |
| TaskLists.DeleteReminder | Models.swift:316-323 | Only the first open task with the id changes. Its reminders lose exactly those with the reminder id and keep the rest, in order, and its notification count is recounted. Other tasks and the other lists are untouched. |
| TaskLists.DeleteReminderKeepsSorted | Models.swift:316-323 | Deleting a reminder keeps every task in its list. |
| TaskLists.ToggleTaskComplete | Models.swift:340-366 | Completing removes exactly the entries with the task's id from the open and overdue lists, keeping the others in order, and appends it completed. Reopening does the same to the completed list and appends it to the overdue list or the open list, according to its due date. |
| TaskLists.ToggleKeepsSorted | Models.swift:340-366 | Toggling keeps each task in the list its state belongs to. |
| TaskLists.CompletedLeavesOpenLists | Models.swift:353-359 | A completed task is in neither open list and appears completed. |
| CalendarGrid.GridRows | CalendarDetailView.swift:121-144 | Rows of seven that hold the leading blanks, the days 1..n and the trailing blanks. Day d is at row (start+d-1)/7, column (start+d-1)%7. |
| CalendarGrid.CalendarDays | CalendarDetailView.swift:112-144 | Each 2025 month's grid starts on its tabulated weekday and places every day in its cell. |
| CalendarGrid.GridCells | CalendarDetailView.swift:121-144 | In a grid laid out that way, each day sits at its row and column. |
| CalendarGrid.ClosePartialWeek | CalendarDetailView.swift:137-141 | Padding the last partial week with blanks completes a well-formed grid. |
| CalendarGrid.FlattenIndex | CalendarDetailView.swift:121-144 | Cell (i, j) of a grid of weeks is entry 7i+j of the flattened grid. |
| CalendarGrid.DayName | CalendarDetailView.swift:157-164 | A selected day names the weekday of its column. A negative truncated remainder gives no name. |
| CalendarGrid.DayNameMatchesColumn | CalendarDetailView.swift:157-164 | Every day of the month names the weekday of the grid column it sits in. |
| CalendarGrid.PreviousMonth | CalendarDetailView.swift:166-175 | Steps back one month, wrapping January to the previous December, and resets the selected day to 1. |
| CalendarGrid.NextMonth | CalendarDetailView.swift:177-186 | Steps forward one month, wrapping December to the next January, and resets the selected day to 1. |
| CalendarGrid.NavigationKeepsMonthInRange | CalendarDetailView.swift:166-186 | Navigation keeps the month index within 0..11. |
| CalendarGrid.NavigationRoundTrip | CalendarDetailView.swift:166-186 | Next then previous, or previous then next, returns to the same month and year. |
| CalendarGrid.IterateShape | CalendarDetailView.swift:177-186 | n steps forward land on month (m+n) mod 12 of year y+(m+n) div 12. |
| CalendarGrid.StepsOverYears | CalendarDetailView.swift:177-186 | Twelve steps forward per year reach the same month, that many years later. |
| CalendarGrid.TaskEvents | CalendarDetailView.swift:50-73 | A task contributes its due date first, then every reminder time in order. |
| CalendarGrid.EventsComplete | CalendarDetailView.swift:50-73 | Every due date and every reminder time of the tasks is an event, and every event is one of some task's. |
| CalendarGrid.EventsAppend | CalendarDetailView.swift:50-73 | The events of two task lists together are the first list's followed by the second's. |
| CalendarGrid.CountOn | CalendarDetailView.swift:46-75 | A day's count is positive exactly when some date falls on it in the shown month. |
| CalendarGrid.Density | CalendarDetailView.swift:46-75 | The density map holds exactly the days with a date, each with its count. |
| CalendarGrid.DaysWithTasks | CalendarDetailView.swift:15-43 | A day is marked exactly when some due date or reminder falls on it in the shown month. |
| CalendarGrid.MarkedIffDense | CalendarDetailView.swift:15-75 | A day is marked exactly when the density map holds it with a positive count. |
| CalendarGrid.HeatmapColor | CalendarDetailView.swift:78-91 | A day is clear exactly when the density map lacks it. |
| CalendarGrid.HeatBuckets | CalendarDetailView.swift:78-91 | 0 tasks is clear, 1–2 light, 3–4 medium, 5 or more dark. |
| CalendarGrid.WidgetStartDay | ContentView.swift:880-914 | Converts the calendar's weekday (Sunday = 1) to a Monday-first column in 0..6. |
| CalendarGrid.WidgetCalendarDays | ContentView.swift:880-914 | Without a month there is no grid. Otherwise rows of seven hold the blanks, the days and the trailing blanks. |
| ContentView.CalculateTaskListHeight | ContentView.swift:1112-1136 | The height is the sum of the card heights. It is at least 100 per task, and 0 for no tasks. |
| ContentView.AppendRaisesHeight | ContentView.swift:1112-1136 | Each extra task adds at least one card height. |
| ContentView.ExpandRaisesHeight | ContentView.swift:1112-1136 | Expanding a task never shrinks the list. |
| ContentView.HeightAtLeastCards | ContentView.swift:1112-1136 | The list is 100 per task, exactly 100 when nothing is expanded. |
| ContentView.GreetingName | ContentView.swift:404-406 | The first word of the display name: a prefix without a space, followed by a space or the end of the name. "there" without a name. |
| ContentView.Greeting | ContentView.swift:404-418 | "Good morning" from 5 to 11, "Good afternoon" to 16, "Good evening" to 20, "Still up" otherwise. The name follows the opening, and the hour's emoji closes the greeting. |
| ContentView.OpeningsDiffer | ContentView.swift:408-418 | The four openings are told apart by their start, whatever follows. |
| ContentView.GreetingNameFirstWord | ContentView.swift:404-406 | A name with a space is greeted by the part before it; a single word by itself. |
| ContentView.HandleTaskDeletion | ContentView.swift:334-366 | Each list loses exactly the entries with the task's id and keeps the others, in order. The task is kept for undo. |
| ContentView.UndoDelete | ContentView.swift:368-390 | The kept task returns to the completed list, the overdue list or the open list, according to its state; then nothing is kept. |
| ContentView.UndoKeepsSorted | ContentView.swift:334-390 | Delete then undo keeps every task in the list its state belongs to. |
| ContentView.UndoRestores | ContentView.swift:334-390 | Delete then undo leaves every other task where it was and puts the task back in its own list. |
| Recording.Split | Models/Recording.swift:47-57 | Hours, minutes and seconds recompose the duration. For a non-negative duration, minutes and seconds are below 60. |
| Recording.DurationFormatted | Models/Recording.swift:47-57 | The label of a non-negative duration reads back as that duration. |
| Recording.DurationRoundTrip | Models/Recording.swift:47-57 | The duration label reads back to the duration. It has three fields from an hour up, two below. |
| Recording.LabelReadsBack | Models/Recording.swift:51-56 | Every clock reading reads back from its label. |
| Recording.LongLabel | Models/Recording.swift:52-53 | From one hour on, the three colon-separated fields are the hours and the two-digit minutes and seconds, and the label reads back to its seconds. |
| Recording.ShortLabel | Models/Recording.swift:54-55 | Below one hour, the two fields are the minutes and the two-digit seconds, and the label reads back to its seconds. |
| Recording.Speakers | Models/Recording.swift:59-61 | The speakers are exactly those named in the transcript. There is at least one for a non-empty transcript. |
| Recording.SpeakerCount | Models/Recording.swift:59-61 | The count is 0 exactly for an empty transcript and never exceeds the number of segments. |
| Recording.OneVoice | Models/Recording.swift:59-61 | A transcript spoken by one person counts one speaker. |
| Recording.StoredTaskCount | Models/Recording.swift:63-103 | The task count of a stored recording is the length of its action-item list, and 0 while that list is missing. |
| Recording.Decode | Models/Recording.swift:68-103 | Fields are copied. The AI flag is set only by an explicit true. Missing lists decode as empty. |
| Recording.ProcessingRecordingIsEmpty | Models/Recording.swift:68-103 | A recording still without transcript or action items counts no speakers and no tasks. |
| Recording.Emoji | Models/Recording.swift:202-211 | Positive and negative are recognised regardless of case. Anything else, or no sentiment, is neutral. |
| Recording.EmojiIgnoresCase | Models/Recording.swift:202-211 | The emoji does not depend on the sentiment's case. |
| BraindumpsterApi.SortByTime | BraindumpsterAPI.swift:932-934 | The result is a permutation of the reminders, ordered by time string. |
| BraindumpsterApi.Insert | BraindumpsterAPI.swift:932-934 | Inserting into a sorted list keeps it sorted and adds exactly that reminder. |
| BraindumpsterApi.StrLessTrans | BraindumpsterAPI.swift:932-934 | The string order used by the sort is transitive. |
| BraindumpsterApi.StrLessTotal | BraindumpsterAPI.swift:932-934 | Any two distinct strings are ordered one way or the other. |
| BraindumpsterApi.Step | BraindumpsterAPI.swift:957-988 | Message and type are kept. When both times parse and the reminder is less than 30 s after the previous one, it moves to the previous time plus 30 s; otherwise it is unchanged. |
| BraindumpsterApi.Spread | BraindumpsterAPI.swift:950-988 | The first reminder is kept; each later one is adjusted against the already adjusted one before it. |
| BraindumpsterApi.AdjustReminderTimes | BraindumpsterAPI.swift:928-992 | Zero or one reminder is returned as given. Otherwise the sorted reminders come back with their messages and types, the first unchanged. |
| BraindumpsterApi.SpreadSpacing | BraindumpsterAPI.swift:972-988 | With a parser that reads back the formatter, consecutive parseable adjusted reminders are at least 30 s apart. The formatter writes `yyyy-MM-dd HH:mm:ss` in the device's time zone with no offset, so in the repeated hour after a daylight-saving fall-back it does not read back, and the spacing is then not promised. |
| BraindumpsterApi.WellSpacedUnchanged | BraindumpsterAPI.swift:972-988 | Reminders already 30 s apart are left as they are. |
| BraindumpsterApi.MimeType | BraindumpsterAPI.swift:994-1009 | A known audio extension, in any case, names its own type. Anything else is audio/m4a. |
| BraindumpsterApi.MimeTypeCaseInsensitive | BraindumpsterAPI.swift:994-1009 | The type ignores the extension's case and is always one of the four audio types. |
| BraindumpsterApi.ErrorDescription | BraindumpsterAPI.swift:1421-1467 | Unauthorized and HTTP 401 read as an expired session, an invalid response as a weird response. Server messages mentioning "internal" or "500" are softened; others are shown. HTTP 400, 403, 404 and 429 have their own texts, 5xx gives the coffee-break text, and any other code the unexpected-error text. A network error reads as offline exactly when it mentions internet, offline or network, as too slow exactly when it otherwise mentions timeout, and as unreachable otherwise. |
| BraindumpsterApi.FriendlyTitle | BraindumpsterAPI.swift:1469-1483 | Each title belongs to exactly one kind of error. HTTP errors are "Server Issues" from 500 up and "Something's Wrong" below. |
| BraindumpsterApi.HttpErrorTexts | BraindumpsterAPI.swift:1421-1483 | HTTP 401 reads as "unauthorized". The title is "Server Issues" exactly from 500 up, and never the unauthorized title. |
| BraindumpsterApi.PlainServerMessageShown | BraindumpsterAPI.swift:1434-1439 | A server message that does not mention internal or 500 is shown as sent. |
| BraindumpsterApi.IdentityByTime | BraindumpsterAPI.swift:1160-1166 | Reminder equality compares times only. It is an equivalence, equal reminders hash alike, and message and type do not matter. |
| Subscription.AsBool | SubscriptionManagementView.swift:443-447 | A JSON boolean reads as itself. A number reads as a boolean exactly when it is 0 or 1. Nothing else reads. |
| Subscription.LoadSubscription | SubscriptionManagementView.swift:431-508 | A subscription is shown exactly when is_premium or is_active is true. The tier falls back to current_tier, then "unknown". Inactive, renewing and "unknown" status are the defaults. The dates are parsed when present. |
| Subscription.PremiumOnlyDefaults | SubscriptionManagementView.swift:443-494 | A response that only says premium gets every default. |
| Subscription.TierPrecedence | SubscriptionManagementView.swift:443 | `tier` wins over `current_tier`. |
| Subscription.TextualFlagsIgnored | SubscriptionManagementView.swift:444-456 | Flags sent as text are not true, so no subscription is shown. |
| Subscription.ProductIdToTier | SubscriptionManagementView.swift:387-396 | The tier is "yearly", "monthly" or "lifetime", from the first of those the id contains, in that order; otherwise "unknown". |
| Subscription.StoreProductTiers | SubscriptionManagementView.swift:387-396 | Each of the store's three product ids maps to its own tier. |
| Subscription.PlanDisplayName | SubscriptionManagementView.swift:408-419 | The three tiers get their own names; anything else is "Premium". |
| Subscription.GenericPlanName | SubscriptionManagementView.swift:387-419 | A product gets the generic name exactly when its id names no tier. |
| Subscription.ControlsAgree | SubscriptionManagementView.swift:36-173 | Cancel is offered only with the auto-renew row and renewal on. A lifetime tier gets neither. The plans can still show for a lifetime tier whose status differs. |
| Subscription.CancelFromResponse | SubscriptionManagementView.swift:173 | Cancel shows exactly when the response marks the plan active, does not turn renewal off, and the tier is not lifetime. |
| Accessibility.TwelveHour | AccessibilityHelpers.swift:125-129 | PM exactly from noon. The displayed hour is 1..12. |
| Accessibility.TwelveHourRoundTrip | AccessibilityHelpers.swift:125-129 | The 12-hour reading gives back every hour of the day. |
| Accessibility.TimeValue | AccessibilityHelpers.swift:125-129 | The label ends " PM" exactly from noon and " AM" before. Every time of day reads back from its label. |
| Accessibility.CountPhrasePlural | AccessibilityHelpers.swift:114-122 | "no tasks" exactly for zero. Singular exactly for one. |
| Accessibility.CalendarDayLabel | AccessibilityHelpers.swift:114-122 | The label opens with month and day and closes with the count. It closes with "1 task" exactly for one task and with "no tasks" for none. |
| Accessibility.StreakLabel | AccessibilityHelpers.swift:93-101 | The label opens with the current streak's sentence and closes with the longest streak. |
| Accessibility.StreakOpeningCases | AccessibilityHelpers.swift:93-101 | "No active streak" exactly at 0, the singular exactly at 1, otherwise "N day streak. You're on fire!". |
| Accessibility.ProgressLabel | AccessibilityHelpers.swift:104-111 | "No tasks today" exactly with no tasks. Otherwise the label opens with the counts and closes with the percentage. |
| Accessibility.TaskLabel | AccessibilityHelpers.swift:83-90 | The label opens with the title and closes with priority and status. It ends in "Completed" exactly for a completed task. |
| Accessibility.DueDateInserted | AccessibilityHelpers.swift:83-90 | A due date adds "due D at T" after the title and changes nothing else. |
| NotificationCopy.TemplateActions | NotificationCopyGuide.swift:32-183 | There are twenty templates. A template opens its task exactly when it is one of the five task templates, and the premium screen exactly when it is the trial ending; all others open the dashboard. |
| NotificationCopy.ActionId | NotificationCopyGuide.swift:32-183 | The identifiers are "open_task", "open_dashboard" and "open_premium", one per action. |
| NotificationCopy.Placeholder | NotificationCopyGuide.swift:197-199 | A key's placeholder is the key between braces. |
| NotificationCopy.Format | NotificationCopyGuide.swift:193-203 | No replacements leave title and body as written. A single replacement replaces every occurrence of its placeholder in both title and body (every occurrence in the sense of `Strings.ReplaceAllJoin`). |
| NotificationCopy.Substitute | NotificationCopyGuide.swift:196-200 | No pairs leave the text unchanged; one pair replaces every occurrence of its placeholder (in the sense of `Strings.ReplaceAllJoin`). |
| NotificationCopy.SubstituteAppend | NotificationCopyGuide.swift:196-200 | Replacing with two dictionaries' pairs in turn is replacing with their concatenation. |
| Strings.ReplaceAll | NotificationCopyGuide.swift:198-199 | A text without the pattern, or a replacement equal to the pattern, leaves the text unchanged. A replacement of the pattern's length keeps the length. A leading occurrence becomes the replacement. |
| Strings.ReplaceAllStep | NotificationCopyGuide.swift:198-199 | A character other than the pattern's first is copied and the scan moves one place on. |
| Strings.ReplaceAllSkip | NotificationCopyGuide.swift:198-199 | A prefix without the pattern's first character is copied unchanged, and the scan carries on after it. |
| Strings.ReplaceAllHead | NotificationCopyGuide.swift:198-199 | An occurrence at the head becomes the replacement, and the scan carries on after it. |
| Strings.ReplaceAllJoin | NotificationCopyGuide.swift:198-199 | Every occurrence is replaced: pieces free of the pattern's first character, joined by the pattern, come out joined by the replacement, however many pieces there are. |
| NotificationCopy.FormatTreatsFieldsAlike | NotificationCopyGuide.swift:193-203 | Title and body get the same replacements. |
| NotificationCopy.SubstituteAbsent | NotificationCopyGuide.swift:197-200 | A text containing no key's placeholder comes back unchanged. |
| NotificationCopy.NoBraceNoChange | NotificationCopyGuide.swift:197-200 | A text without "{" comes back unchanged. |
| NotificationCopy.LeadingPlaceholderFilled | NotificationCopyGuide.swift:193-203 | A body opening with the only placeholder gets the value in its place. |
| NotificationCopy.TaskDueSoonFilled | NotificationCopyGuide.swift:32-36 | The due-soon reminder names the task in its body and keeps its title. |

## Left out

- Flask routing, logging, the SHA-256 receipt hash and `require_auth`: I/O and diagnostics. The model takes the request body as already decoded. The hash's `receipt_data.encode()` (receipt_validation_endpoint.py:110) raises for a string holding an unpaired surrogate, such as a JSON `"\ud800"`, and the request then ends in a 500. A Dafny `string` cannot hold such a character, so that path is not modelled.
- `save_subscription_status`: a stub whose only effect is a log line. The model records the arguments it receives.
- The real HTTP transport and JSON parsing of Apple's answer. They are an oracle returning a timeout, a failure or a decoded payload. A JSON body that fails to parse is a failure.
- `getReceiptData`, `refreshReceipt`, the device and app version fields, the auth token lookup, and `Task.sleep`. They are device and network I/O. The retry delays are recorded, not slept.
- StoreKit itself: `loadProducts`, `purchase`, `restorePurchases` and the transaction listener. The entitlement scan takes the verification results as a list, in the order StoreKit yields them.
- The date parsing and formatting of every screen (ISO 8601, `DateFormatter`, `Calendar` components). These are oracles passed as parameters, and time is an integer.
- `Models.swift`'s `formatReminderTime`, `isReminderUpcoming`, `snoozeTask` and the network calls inside delete and toggle. These are formatting and persistence. The model keeps the local list updates.
- The streak update inside `toggleTaskComplete`, and the saving of streaks. Saving is persistence; the streak logic itself is in the streak module.
- Swift's sort stability. `sorted(by:)` does not promise a stable order. The model uses a stable insertion sort. Reminders that tie under the sort have the same time string, so every sorted order gives the same sequence of times. The spacing property is proved for the model's order only.
- The iteration order of the replacement dictionary in `format(replacements:)`. It is a parameter: the sequence of key/value pairs.
- SwiftUI views, colours, haptics and `accessibleX` modifiers. They are presentation only.
- `notificationLabel` and the announcement helpers in `AccessibilityHelpers.swift`. They are fixed strings or UI posting.
- `cancelSubscription`, `restorePurchases` and `switchPlan` in the subscription screen: network calls.
- Unicode case mapping. Lower-casing is modelled for ASCII letters only.
- Accessibility.ProgressLabel: the percentage is a parameter standing for the floating-point computation `Int(Double(completed) / Double(total) * 100)`. Only the label's structure is stated, not the percentage's value.
- Recording.DurationFormatted: the stored duration is a `Double` truncated to whole seconds. The model starts from whole seconds.
- Streak.StreakMessage: only the default message for the other day counts is stated. The fixed texts for 0, 1, 2, 3, 7, 14 and 30 days are written out in the function but not repeated in its contract.
- ReceiptRetry.VerifyReceipt: the receipt's bytes are not inspected; only their presence matters to the retry loop.
- AppleReceipt.Selected: the expiry is kept in milliseconds. The ISO-8601 string the endpoint builds with `utcfromtimestamp(...).isoformat()` is formatting, and that call's date-range limits, which raise for out-of-range values, are not modelled.
- AppleReceipt.FirstStop: the current time is an integer number of milliseconds. The endpoint's microsecond clock and its float division by 1000 are not modelled.
- AppleReceipt.Finish: the status is an integer or missing. A status of another JSON type, and `in_app` or `latest_receipt_info` given as strings (which Python would concatenate), are not modelled.
- TaskLists.Partition: reads the clock once for both filters. `fetchTasks` reads it on every `isTaskOverdue` call, so it can lose a task that falls due between the overdue filter and the active filter (see Findings). `FetchSplit` models the two readings. Within one filter every task also gets its own reading; the model gives each filter a single instant.
- AppleReceipt.HandleVerifyReceipt: a request whose body is not JSON is not modelled, since whether `request.json` then gives `None` or raises depends on the Flask version; the model starts from a decoded body or none. Float JSON numbers are not modelled.

## Findings

| source | as written | input that shows it | evidently intended | confidence | as-written member | corrected member |
|---|---|---|---|---|---|---|
| Models.swift:247-275 | `isTaskOverdue` calls `Date()` itself, so the overdue filter and the active filter each read the clock | an open task due at a time `d` that the clock passes between the two filters, e.g. due 100 with readings 100 and 101 | each fetched task is in exactly one list, so the progress total counts every task | not executed | TaskLists.FetchSplitDrops | TaskLists.ProgressCountsFetched |

# Activity scoring, trails board and form helpers of the survey app

This project is a Dafny model of six small parts of a mobile survey and assessment app. Each part has its proofs.

- **Activity summary** (`activity_summary.dfy`). This is the effect the summary screen runs whenever the responses change:
  - it gives a score and a maximum score to each answered item;
  - it builds cumulative scores per compute rule, keyed by the rule's normalised variable name;
  - it collects the feedback messages whose trigger expression holds, together with the follow-up activities they name;
  - it merges new follow-up activities into the stored `<activity id>/nextActivity` list.
- **Trails board** (`trails_board.dfy`). This is the trail-making task. The user draws one line per gesture from target to target. A line counts only when it joins target `currentIndex` to target `currentIndex + 1`. The component's state and instance fields are a Dafny class. Each gesture handler is a method, and a specification function on the state value says what the method computes. The lemmas on those functions state what a gesture does. The module also covers:
  - the chunking of lines into polyline strings;
  - the result it saves, rescaled to percentages;
  - the colour rule for the targets.
- **Notification utilities** (`notifications.dfy`):
  - mapping stored notifications to trigger notifications;
  - the strict date filter;
  - `splitArray`, with its argument checks and its splice on a copy;
  - the boolean mutex object.
- **Screen** (`screen.dfy`):
  - when an answer counts as given;
  - the first-match table that picks a widget from the input type;
  - the scroll lock held by the slider and drawing widgets.
- **Change-password validator** (`change_password.dfy`): two fields, each required once the other is filled in.
- **Text entry** (`text_entry.dfy`):
  - the hook state;
  - the platform-dependent style;
  - the guarded height update;
  - the keyboard choice.

Shared modules:

- `js.dfy` holds the parts of JavaScript the code relies on:
  - truthiness and `null`/`undefined`;
  - `trim`, `\s` replacement, `includes` and `join`.
- `filtering.dfy` holds the "loop and push when a condition holds" shape, with its lemmas.
- `wrappers.dfy` holds `Option` and `Result`.

Some things become parameters, for three reasons:

- Calls into code that is not part of this model: `getScoreFromResponse`, `getMaxScore` and `evaluateScore`; the expr-eval parser and its evaluation; JavaScript's number-to-string conversion. These are fields of `ActivitySummary.Externals` or function parameters such as `pointText` and `scale`.
- Clock readings (`Date.now()`) are parameters named `now`.
- The platform (`Platform.OS`) is a parameter named `os`.

## Model

| member | source | states |
|---|---|---|
| Js.ValueAt | app/scenes/ActivitySummary/index.js:115 | `responses[i]` is the i-th response inside the array and a falsy `undefined` past its end |
| Js.TrimStart | app/scenes/ActivitySummary/index.js:126 | the leading half of `trim()`: leading whitespace is removed one character at a time; TrimStartRemovesLeading states the result |
| Js.TrimEnd | app/scenes/ActivitySummary/index.js:126 | the trailing half of `trim()`: trailing whitespace is removed one character at a time; TrimEndRemovesTrailing states the result |
| Js.Trim | app/scenes/ActivitySummary/index.js:126 | `trim()` as both halves; TrimRemovesOuterWhitespace, TrimKeepsChars and TrimOfTrimmed state the result |
| Js.ReplaceWhitespace | app/scenes/ActivitySummary/index.js:126 | `replace(/\s/g, rep)`: every whitespace character becomes `rep`; ReplaceSingle and ReplaceConcat pin the result down |
| Js.Join | app/widgets/ABTrails/TrailsBoard.js:29 | `join(sep)`: the parts with `sep` between consecutive parts; JoinBase and JoinSnoc pin the result down |
| Js.TrimStartRemovesLeading | app/scenes/ActivitySummary/index.js:126 | the start-trimmed string is a suffix of the input, everything removed is whitespace, and it does not start with whitespace |
| Js.TrimEndRemovesTrailing | app/scenes/ActivitySummary/index.js:126 | the end-trimmed string is a prefix of the input, everything removed is whitespace, and it does not end with whitespace |
| Js.TrimRemovesOuterWhitespace | app/scenes/ActivitySummary/index.js:126 | `trim()` returns the factor of the input obtained by removing whitespace only, from both ends, and that factor neither starts nor ends with whitespace |
| Js.TrimKeepsChars | app/scenes/ActivitySummary/index.js:126 | trimming adds no character |
| Js.TrimOfTrimmed | app/scenes/ActivitySummary/index.js:142 | trimming a string with no outer whitespace changes nothing |
| Js.ReplaceSingle | app/scenes/ActivitySummary/index.js:126 | a single character becomes `rep` exactly when it is whitespace, and is kept otherwise |
| Js.ReplaceConcat | app/scenes/ActivitySummary/index.js:126 | the replacement works character by character: replacing in a concatenation concatenates the replaced parts |
| Js.ReplaceLeavesNoWhitespace | app/scenes/ActivitySummary/index.js:126 | `replace(/\s/g, rep)` with a whitespace-free `rep` leaves no whitespace |
| Js.ReplaceKeepsChars | app/scenes/ActivitySummary/index.js:126 | every character after the replacement comes from the input or from `rep` |
| Js.ReplaceWithoutWhitespace | app/scenes/ActivitySummary/index.js:142 | replacing whitespace in a string that has none changes nothing |
| Js.JoinBase | app/widgets/ABTrails/TrailsBoard.js:29 | joining no parts gives `''`, and joining one part gives that part |
| Js.JoinSnoc | app/widgets/ABTrails/TrailsBoard.js:29 | appending a part to a non-empty list appends the separator and then the part |
| Js.Includes | app/widgets/TextEntry.js:54 | `s.includes(sub)` holds exactly when `sub` occurs in `s` at some position |
| Js.IncludesFrom | app/widgets/TextEntry.js:54 | the search from a position holds exactly when `sub` occurs at that position or later |
| Filtering.IndicesExactly | app/scenes/ActivitySummary/index.js:113-121 | the kept indices are exactly the indices satisfying the condition, each once, in increasing order |
| Filtering.FilterMapOfIndices | app/scenes/ActivitySummary/index.js:113-121 | what the loop pushes is the pushed value at each kept index, in order |
| ActivitySummary.CollectScores | app/scenes/ActivitySummary/index.js:113-121 | the loop yields one score and one maximum score per item whose item and response are both truthy, in item order, and every such item is scored |
| ActivitySummary.NormaliseName | app/scenes/ActivitySummary/index.js:126 | the key `trim().replace(/\s/g, '__')` of a variable name; NormaliseJoinsWords, NormaliseExample, NormalisedNameHasNoWhitespace and NormaliseIdempotent state what it returns |
| ActivitySummary.NormaliseJoinsWords | app/scenes/ActivitySummary/index.js:126 | two whitespace-free words around one whitespace character are keyed as the words joined by `__` |
| ActivitySummary.NormaliseExample | app/scenes/ActivitySummary/index.js:126 | the name `Total Score` is keyed `Total__Score` |
| ActivitySummary.NormalisedNameHasNoWhitespace | app/scenes/ActivitySummary/index.js:142 | a normalised variable name has no whitespace, and its characters come from the name or are `_` |
| ActivitySummary.NormaliseIdempotent | app/scenes/ActivitySummary/index.js:142 | normalising a normalised name changes nothing |
| ActivitySummary.DisplayCategory | app/scenes/ActivitySummary/index.js:180 | the displayed category has the same length, each `_` becomes a space, every other character is kept, and no `_` remains |
| ActivitySummary.DisplayConcat | app/scenes/ActivitySummary/index.js:180 | displaying a concatenation concatenates the displays |
| ActivitySummary.DisplayOfReplaced | app/scenes/ActivitySummary/index.js:180 | for a name without `_`, the `__` written for each whitespace character is displayed as two spaces |
| ActivitySummary.DisplayOfNormalisedName | app/scenes/ActivitySummary/index.js:180 | a category built from a name without `_` is displayed as the trimmed name with two spaces per whitespace character |
| ActivitySummary.RuleKeys | app/scenes/ActivitySummary/index.js:123-135 | the key set holds exactly the normalised names of the compute rules |
| ActivitySummary.Cumulate | app/scenes/ActivitySummary/index.js:123-128 | the reduce over the compute rules yields a map whose keys are exactly the rules' normalised names |
| ActivitySummary.CumulateLastWins | app/scenes/ActivitySummary/index.js:123-128 | a key holds the value of the last rule with that normalised name |
| ActivitySummary.ComparisonIndex | app/scenes/ActivitySummary/index.js:141 | the split point is the first `<` or `>`, or the end when there is none |
| ActivitySummary.ComparisonIndexOfConcat | app/scenes/ActivitySummary/index.js:141 | a comparison-free prefix followed by a comparison splits at the end of the prefix |
| ActivitySummary.RebuiltSplitsAtCategory | app/scenes/ActivitySummary/index.js:141-143 | the parsed text splits at the category, keeps the original operator and right-hand side, and has the same category |
| ActivitySummary.RebuildIdempotent | app/scenes/ActivitySummary/index.js:141-143 | rebuilding an already rebuilt expression changes nothing |
| ActivitySummary.Round | app/scenes/ActivitySummary/index.js:146 | `Math.round` gives the nearest integer, with halves rounded up |
| ActivitySummary.VariableScore | app/scenes/ActivitySummary/index.js:145-147 | percentage mode gives the rounded percentage of the cumulative maximum, `NaN` when that maximum is non-zero but the score is missing, or 0 when that maximum is missing or zero; otherwise it gives the cumulative score, or `undefined` for an unknown category |
| ActivitySummary.PercentageInRange | app/scenes/ActivitySummary/index.js:146 | a score between 0 and its maximum gives a percentage between 0 and 100 |
| ActivitySummary.SeventyPercent | app/scenes/ActivitySummary/index.js:146 | 7 of a maximum of 10 is bound as 70 |
| ActivitySummary.FirstComputeFrom | app/scenes/ActivitySummary/index.js:152 | the search returns the first rule at or after the start whose trimmed name matches, and `None` only when no rule there matches |
| ActivitySummary.FindCompute | app/scenes/ActivitySummary/index.js:152 | `find` returns the first compute rule whose trimmed name equals the trimmed variable name, or `undefined` when none does |
| ActivitySummary.ReportFor | app/scenes/ActivitySummary/index.js:152-159 | the report has the category, the message, the bound score with `%` appended in percentage mode, and the matching compute rule |
| ActivitySummary.OnMessage | app/scenes/ActivitySummary/index.js:149-160 | the callback appends one report and, when the message names one, the follow-up activity, exactly when the trigger holds |
| ActivitySummary.SelectStep | app/scenes/ActivitySummary/index.js:139-161 | one more message extends the collected reports and follow-up activities exactly as the callback does |
| ActivitySummary.SelectMessages | app/scenes/ActivitySummary/index.js:139-161 | the `forEach` collects the reports of the firing rules and their follow-up activities, in rule order |
| ActivitySummary.ReportsFollowFiringRules | app/scenes/ActivitySummary/index.js:149-159 | the k-th report belongs to the k-th firing rule, and every firing rule has a report |
| ActivitySummary.NextActivitiesFollowFiringRules | app/scenes/ActivitySummary/index.js:150 | the collected follow-up activities are exactly the non-empty `nextActivity` values of the firing rules, in order |
| ActivitySummary.Difference | app/scenes/ActivitySummary/index.js:164 | `_.difference(a, b)` holds exactly the elements of `a` that are not in `b` |
| ActivitySummary.DifferenceSnoc | app/scenes/ActivitySummary/index.js:164 | appending an element to `a` appends it to the difference exactly when it is not in `b` |
| ActivitySummary.DifferenceCons | app/scenes/ActivitySummary/index.js:164 | the difference keeps `a`'s order: its first element leads the result exactly when it is not in `b`, ahead of the difference of the rest |
| ActivitySummary.DifferenceCounts | app/scenes/ActivitySummary/index.js:163-166 | the difference keeps repetitions: an element outside `b` occurs as often as in `a`, so repeated new ids are all appended, and an element of `b` does not occur |
| ActivitySummary.MergeNextActivities | app/scenes/ActivitySummary/index.js:163-171 | with a stored list, the write is the stored list followed by the new ids, and there is no write when nothing is new; without a stored list, the triggered ids are written; the stored list is kept as a prefix and every triggered id ends up in the written list |
| ActivitySummary.MergeExamples | app/scenes/ActivitySummary/index.js:163-171 | merging `[b, c]` into `[a, b]` writes `[a, b, c]`, and merging `[a, b]` into `[a, b]` writes nothing |
| ActivitySummary.Summarize | app/scenes/ActivitySummary/index.js:105-174 | the effect sets the reports of the firing rules, computed from the cumulative maps keyed by the rule names, and writes the merged follow-up list |
| TrailsBoard.LastHit | app/widgets/ABTrails/TrailsBoard.js:80-89 | the start test picks the last target within the radius, and finds none only when no target is within the radius |
| TrailsBoard.Snap | app/widgets/ABTrails/TrailsBoard.js:133-141 | the release loop as a fold over the targets, each tested against the point left by the previous ones; SnapMisses, SnapKeepsHit and SnapEndsOnTarget state the result |
| TrailsBoard.SnapMisses | app/widgets/ABTrails/TrailsBoard.js:133-141 | the release loop ends without a hit exactly when no target is within the radius of the release point, and the point then stays where it was |
| TrailsBoard.SnapKeepsHit | app/widgets/ABTrails/TrailsBoard.js:133-141 | once the end point has snapped to a target, it stays snapped |
| TrailsBoard.SnapEndsOnTarget | app/widgets/ABTrails/TrailsBoard.js:133-141 | a snapped end point is the centre of a target, carries that target's order, and no later target is within the radius of it |
| TrailsBoard.TargetColour | app/widgets/ABTrails/TrailsBoard.js:229-235 | a target is failed exactly when its order is among the incorrect points, passed exactly when it is not failed and its index is below `currentIndex`, and pending otherwise |
| TrailsBoard.Save | app/widgets/ABTrails/TrailsBoard.js:202-214 | `save` keeps every line and point in order, rescales only the coordinates, and returns the given index |
| TrailsBoard.ChunkCount | app/widgets/ABTrails/TrailsBoard.js:26 | a line of n points gives ceil(n / chunkSize) chunks, and none when it is empty |
| TrailsBoard.ChunkAt | app/widgets/ABTrails/TrailsBoard.js:26-27 | chunk k is the slice of at most chunkSize + 1 points starting at k·chunkSize, and it is never empty |
| TrailsBoard.ChunksOverlap | app/widgets/ABTrails/TrailsBoard.js:26-27 | a chunk followed by another is full, and its last point is the next chunk's first |
| TrailsBoard.RenderedChunkSize | app/widgets/ABTrails/TrailsBoard.js:308 | each rendered chunk holds between 1 and 51 points |
| TrailsBoard.AllChunksConcat | app/widgets/ABTrails/TrailsBoard.js:24-31 | the chunks follow line order |
| TrailsBoard.EmptyLineNoChunks | app/widgets/ABTrails/TrailsBoard.js:25-26 | a line without points contributes nothing |
| TrailsBoard.Render | app/widgets/ABTrails/TrailsBoard.js:29 | one string per chunk, each being that chunk's points joined with spaces |
| TrailsBoard.RenderConcat | app/widgets/ABTrails/TrailsBoard.js:24-31 | rendering a concatenation of chunk lists concatenates the renderings |
| TrailsBoard.ChunkedPointStr | app/widgets/ABTrails/TrailsBoard.js:22-33 | `chunkedPointStr` returns the rendered chunks of every line, in line order and then chunk order |
| TrailsBoard.LineChunkTexts | app/widgets/ABTrails/TrailsBoard.js:25-30 | the inner loop yields the rendered chunks of one line, in order |
| TrailsBoard.WithoutLatest | app/widgets/ABTrails/TrailsBoard.js:110-112 | the pop removes the last point exactly when there is more than one |
| TrailsBoard.WrongOrders | app/widgets/ABTrails/TrailsBoard.js:147-151 | the incorrect points hold one entry per wrong order and nothing else, so they are empty exactly when both orders are right; a wrong start order comes first and a wrong end order comes last |
| TrailsBoard.IncorrectOrders | app/widgets/ABTrails/TrailsBoard.js:148-151 | the two conditional pushes build the incorrect orders |
| TrailsBoard.StartLineSpec | app/widgets/ABTrails/TrailsBoard.js:71-96 | the state `startLine` leaves; StartLineAppendsOneLine, StartLineMissKeepsLines and StoppedIgnoresGestures state it |
| TrailsBoard.MovePointSpec | app/widgets/ABTrails/TrailsBoard.js:98-116 | the state `movePoint` leaves; MovePointKeepsStartAndLatest and MovePointIdle state it |
| TrailsBoard.ReleaseLineSpec | app/widgets/ABTrails/TrailsBoard.js:118-169 | the state, saved result and error `releaseLine` leaves; ReleaseAcceptsIff, ReleaseAccepted and ReleaseRejected state them |
| TrailsBoard.JudgeSpec | app/widgets/ABTrails/TrailsBoard.js:143-168 | the second half of `releaseLine`, once the end point is known: accept and save, or reject and report the wrong orders |
| TrailsBoard.StartLineAppendsOneLine | app/widgets/ABTrails/TrailsBoard.js:80-95 | when allowed and a target is hit, the gesture appends one single-point line at the centre of the last hit target, with that target's order |
| TrailsBoard.StartLineMissKeepsLines | app/widgets/ABTrails/TrailsBoard.js:91-95 | when allowed and nothing is hit, only `isValid` becomes false |
| TrailsBoard.MovePointKeepsStartAndLatest | app/widgets/ABTrails/TrailsBoard.js:106-115 | a valid move keeps the current line at its start point plus the latest point and touches no other line |
| TrailsBoard.MovePointIdle | app/widgets/ABTrails/TrailsBoard.js:100-106 | a move when not allowed, with no lines, or while not valid changes nothing |
| TrailsBoard.ReleaseAcceptsIff | app/widgets/ABTrails/TrailsBoard.js:147-165 | a release saves a result exactly when it snapped to a target, the line starts at `currentIndex`, and the target's order is `currentIndex + 1` |
| TrailsBoard.ReleaseAccepted | app/widgets/ABTrails/TrailsBoard.js:143-165 | an accepted line is its start point plus the snapped end point; the index advances by one; the incorrect points are cleared; the saved result holds the new lines; no error is reported |
| TrailsBoard.ReleaseRejected | app/widgets/ABTrails/TrailsBoard.js:143-168 | a rejected line keeps only its start point; the index is unchanged; `isValid` becomes false; the incorrect points list the wrong orders; an error is reported exactly when there are some |
| TrailsBoard.ColoursAfterAcceptance | app/widgets/ABTrails/TrailsBoard.js:229-235 | after an accepted line, the targets up to the old index are passed and the rest are pending |
| TrailsBoard.ColoursAfterRejection | app/widgets/ABTrails/TrailsBoard.js:229-235 | after a rejected line, the targets with wrong orders are failed |
| TrailsBoard.StoppedIgnoresGestures | app/widgets/ABTrails/TrailsBoard.js:74 | once stopped, start, move and release change nothing |
| TrailsBoard.StartLineKeepsLinesWellFormed | app/widgets/ABTrails/TrailsBoard.js:92-95 | starting keeps every line at a start point with an order, plus at most one point |
| TrailsBoard.MovePointKeepsLinesWellFormed | app/widgets/ABTrails/TrailsBoard.js:110-113 | moving keeps every line well formed |
| TrailsBoard.ReleaseLineKeepsLinesWellFormed | app/widgets/ABTrails/TrailsBoard.js:143-161 | releasing keeps every line well formed |
| TrailsBoard.Board.constructor | app/widgets/ABTrails/TrailsBoard.js:36-62 | the board starts with no lines, no incorrect points, index 1, not valid, allowed, and coordinates 0 |
| TrailsBoard.Board.Mount | app/widgets/ABTrails/TrailsBoard.js:64-69 | the index becomes the prop, or 1 by default, and nothing else changes |
| TrailsBoard.Board.StartLine | app/widgets/ABTrails/TrailsBoard.js:71-96 | the new state is `StartLineSpec` of the old one |
| TrailsBoard.Board.MovePoint | app/widgets/ABTrails/TrailsBoard.js:98-116 | the new state is `MovePointSpec` of the old one |
| TrailsBoard.Board.ReleaseLine | app/widgets/ABTrails/TrailsBoard.js:118-169 | the new state, the saved result and the error are those of `ReleaseLineSpec` |
| TrailsBoard.Board.SnapToTargets | app/widgets/ABTrails/TrailsBoard.js:133-141 | the loop moves the last point as `Snap` does and changes nothing else |
| TrailsBoard.Board.Judge | app/widgets/ABTrails/TrailsBoard.js:143-168 | the state after the pop and the judgement is that of `JudgeSpec` |
| TrailsBoard.Board.DropMovingPoint | app/widgets/ABTrails/TrailsBoard.js:143-145 | the current line loses its moving point, and nothing else changes |
| TrailsBoard.Board.Reset | app/widgets/ABTrails/TrailsBoard.js:189-191 | the lines are cleared, and nothing else changes |
| TrailsBoard.Board.Start | app/widgets/ABTrails/TrailsBoard.js:193-196 | the lines are cleared and gestures are allowed |
| TrailsBoard.Board.Stop | app/widgets/ABTrails/TrailsBoard.js:198-200 | gestures are no longer allowed, and nothing else changes |
| Notifications.MapToTriggerNotifications | app/features/notifications/utils.js:3-24 | one trigger per notification, in order; title, body, id and fire date are copied; every entry is local, has type `schedule-event-alert`, and has `activityFlowId` equal to `activityId` |
| Notifications.MapDistributes | app/features/notifications/utils.js:4 | mapping works entry by entry, so it preserves order across concatenation |
| Notifications.FilterNotificationsByDate | app/features/notifications/utils.js:27-33 | the filter throws `date is required` exactly when the date is missing or zero |
| Notifications.FilterKeepsLaterInOrder | app/features/notifications/utils.js:30-32 | the filter keeps exactly the notifications scheduled strictly after the date, in their original order |
| Notifications.FilteredTriggersFireLater | app/features/notifications/utils.js:3-32 | filtering then mapping yields only triggers that fire after the date |
| Notifications.Truncate | app/features/notifications/utils.js:41 | the splice count is truncated toward zero |
| Notifications.DeleteCount | app/features/notifications/utils.js:41 | splice never removes more elements than the array has |
| Notifications.DeleteCountOfInteger | app/features/notifications/utils.js:41 | for a positive integer n, splice removes min(n, length) elements |
| Notifications.DeleteCountBelowOne | app/features/notifications/utils.js:41 | a count below one removes nothing |
| Notifications.SplitArray | app/features/notifications/utils.js:35-44 | a falsy size (0 included) throws `required`, and a size that is not a number throws `must be number`; otherwise left followed by right is the input, and left has the splice count of elements |
| Notifications.Mutex.constructor | app/features/notifications/utils.js:46-48 | a new mutex is not busy |
| Notifications.Mutex.SetBusy | app/features/notifications/utils.js:49-51 | after `setBusy` the mutex is busy, whatever it was before, so the call is idempotent |
| Notifications.Mutex.IsBusy | app/features/notifications/utils.js:55-57 | `isBusy` reports exactly whether the mutex is held |
| Notifications.Mutex.Release | app/features/notifications/utils.js:52-54 | after `release` the mutex is free, whatever it was before, so the call is idempotent |
| Screen.WidgetFor | app/components/screen/index.js:57-214 | the chain of tests in source order chooses the widget, and an input type without a branch gives WidgetError; the dispatch lemmas below state each branch |
| Screen.DirectWidgets | app/components/screen/index.js:80-190 | slider, timeRange, date, text, audioStimulus, visual-stimulus-response and drawing each give their own widget, and nothing else gives it |
| Screen.IsValid | app/components/screen/index.js:43-48 | a markdown message is always valid; any other screen is valid exactly when the answer is neither `null` nor `undefined` |
| Screen.FalsyAnswersAreValid | app/components/screen/index.js:47 | `0`, `''` and `false` are falsy yet count as answers, and `null` and `undefined` do not |
| Screen.RadioDispatch | app/components/screen/index.js:60-79 | a radio input with `multipleChoice === true` is a MultiSelect even with an item list; otherwise it is a Radio exactly when it has an item list, and a WidgetError when it has none |
| Screen.RequiredConstraints | app/components/screen/index.js:107-143 | `select` gives Select exactly when it has an item list, `audioImageRecord` gives AudioImageRecord exactly when it has an image, and each gives WidgetError otherwise |
| Screen.AudioRecordersShared | app/components/screen/index.js:125-133 | AudioRecord is chosen exactly for `audioRecord` and `audioPassageRecord` |
| Screen.CameraShared | app/components/screen/index.js:154-170 | Camera is chosen exactly for `photo` and `video`, with the video flag only for `video` |
| Screen.TableInputShared | app/components/screen/index.js:191-209 | TableInput is chosen exactly for `tableCounter` and `tableText`, with free entry only for `tableText` |
| Screen.FallbackWidgets | app/components/screen/index.js:210-213 | no widget is rendered exactly for a markdown message, and WidgetError is chosen exactly for an unknown type or a radio, select or audio-image input missing what it needs |
| Screen.NoWidgetNeedsNoAnswer | app/components/screen/index.js:43-46 | a screen that renders no widget is valid whatever the answer |
| Screen.ScreenView.constructor | app/components/screen/index.js:50-55 | scrolling starts enabled |
| Screen.ScreenView.Press | app/components/screen/index.js:85 | pressing the slider or the drawing board disables scrolling; other widgets leave it unchanged |
| Screen.ScreenView.Release | app/components/screen/index.js:86 | releasing the slider or the drawing board enables scrolling; other widgets leave it unchanged |
| ChangePassword.Validate | app/scenes/ChangePassword/ChangePasswordForm.js:9-20 | the old password is reported missing exactly when only the new one is filled in, and the new password exactly when only the old one is; each comes with its message, and no other key appears |
| ChangePassword.NoErrorsWhenBothOrNeither | app/scenes/ChangePassword/ChangePasswordForm.js:12-17 | with both fields filled in, or neither, there are no errors |
| ChangePassword.OnlyNewPasswordGiven | app/scenes/ChangePassword/ChangePasswordForm.js:12-14 | with only the new password filled in, the only error is `oldPassword: 'Please enter your old password'` |
| ChangePassword.OnlyOldPasswordGiven | app/scenes/ChangePassword/ChangePasswordForm.js:15-17 | with only the old password filled in, the only error is `password: 'Please enter a new password'` |
| ChangePassword.NeverBothErrors | app/scenes/ChangePassword/ChangePasswordForm.js:10-19 | at most one error is ever reported |
| TextEntry.MinHeight | app/widgets/TextEntry.js:15 | the minimum height is 45 on Android and 28 otherwise |
| TextEntry.NewStyle | app/widgets/TextEntry.js:12-26 | the maximum height of 100 applies only on iOS while focused, and the underline only on iOS |
| TextEntry.HeightAfter | app/widgets/TextEntry.js:28-36 | the height changes only when the content height differs and reaches the minimum; it then becomes the minimum for empty text and the content height otherwise, never below the minimum |
| TextEntry.HeightAfterSettles | app/widgets/TextEntry.js:28-36 | a repeated content-size event changes nothing more, for empty and non-empty text alike |
| TextEntry.KeyboardType | app/widgets/TextEntry.js:54 | the keyboard is numeric exactly when `valueType` is present and contains `integer`, and default otherwise |
| TextEntry.TextEntryState.constructor | app/widgets/TextEntry.js:7-10 | the text starts as the `value` prop (`''` by default), the height at 36, not focused |
| TextEntry.TextEntryState.UpdateHeight | app/widgets/TextEntry.js:28-36 | the new height is `HeightAfter` of the old one; text and focus are unchanged |
| TextEntry.TextEntryState.SetText | app/widgets/TextEntry.js:51 | `onChangeText` replaces the text and nothing else |
| TextEntry.TextEntryState.SetFocused | app/widgets/TextEntry.js:57-58 | focus and blur set the focus flag and nothing else |
| TextEntry.TextEntryState.OnEndEditing | app/widgets/TextEntry.js:38-40 | `onChange` receives the current text |

## Left out

- Rendering, styles, JSX, PDF export, i18n strings and the `onPress`/`onRelease`/`onError()`/`onResult` callbacks are not modelled. `ReleaseLine` returns the values it would pass to `onResult` and `onError`; the other handlers' callbacks have no parameters that matter here.
- `TrailsBoard.onLayout` (lines 171-187) is not modelled. It only rescales lines given as props once the layout is known. As a result, every line in the model comes from `StartLine`, so its start point carries an order. This is the `ValidState` invariant, which `ReleaseLineSpec` requires.
- `save` divides by the measured width. The rescaling is the parameter `scale` of `Save` and `ReleaseLine`, and the width itself is not modelled.
- Floating-point arithmetic is modelled with reals. There is no rounding, no `Infinity` and no `-0`, and `NaN` is a value only where the code can produce it (a percentage whose score is missing).
- The distance test `Math.sqrt(dx² + dy²) <= r` is written as `r >= 0 && dx² + dy² <= r²`. This is the same condition over the reals.
- Updates in place: `movePoint` and `releaseLine` pop and push on the point arrays held in React state, and `setState` is asynchronous. The model treats each handler as one synchronous state change, on values, and does not model the aliasing between `lines` in state and the arrays it mutates.
- `TrailsBoard.ChunkedPointStr` requires a positive chunk size. With 0 the source's inner loop never advances. The component always passes 50.
- The whole expression language (the `expr-eval` parser, `evaluateScore`) is a parameter. A parse or evaluation error inside the `async` callback only rejects that callback's promise, so the model treats it as a falsy result. Because the callbacks run synchronously up to their first `await` and contain none, the order of the pushes is the order of the rules, as modelled.
- `getScoreFromResponse` and `getMaxScore` are parameters, and so is the conversion of the bound score to a string.
- ActivitySummary.VariableScore looks categories up in Dafny maps, which have no inherited keys. The source's plain objects inherit from `Object.prototype`: for a category such as `toString` that no compute rule defines, `cumulativeMaxScores[category]` is a function. That function is truthy, so the source gives a `NaN` percentage and, in raw mode, the function itself. The model gives 0 and `undefined`.
- `parseAppletEvents(applet)` (line 111) is computed and then never used, so it is not modelled.
- Notifications.FilterNotificationsByDate treats `date` and `scheduledAt` as numeric timestamps (`date` may be absent). Comparisons against strings, `Date` or moment objects, and `NaN`, are not modelled.
- Notifications.SplitArray does not model `Infinity` as a size: sizes are finite numbers.
- ChangePassword.Validate treats each field as an optional string, as the form provides. A non-string value with a `length` property is not modelled.
- TextEntry.TextEntryState: the `value` prop is read once, at mount (as `useState` does); later changes of the prop are ignored, as in the source.
- `Platform.OS` is a string parameter. Width, font size, border colour and `KeyboardAvoidingView` behaviour are layout-only and are not modelled.

## Notes on the code

Three behaviours of the code are easy to miss; the model follows the code:

- a response is skipped when it is falsy, not only when it is `null`;
- the compute rule attached to a report is found by comparing trimmed names, not normalised names;
- follow-up activities that are new but repeated are all appended, because `_.difference` keeps repetitions from its first argument.

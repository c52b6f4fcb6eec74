# PimsouClass whiteboard core, in Dafny

PimsouClass is a classroom whiteboard written in React and TypeScript. A teacher places widgets on a canvas and drags them around. The widgets are:

- an instruction box (*consigne*);
- a countdown timer (*chronomètre*);
- a group maker (*groupe*);
- an image widget and a video widget.

This project models the sequential logic under those widgets and proves what the code promises about it. The JSX around the logic is not modelled.

| file | module | what it models |
|---|---|---|
| `wrappers.dfy` | `Wrappers` | `Option`, standing for `null`, `undefined` and `NaN` |
| `keyboard.dfy` | `Keyboard` | the keys the text fields react to |
| `js_string.dfy` | `JsString` | the ECMAScript built-ins the code uses: `trim`, `parseInt`, `Number.prototype.toString`, `padStart` |
| `dnd_kit.dfy` | `DndKit` | the canvas: position store, seeding from children, drag-end commit, body-bound clamp modifier, width style |
| `groupe.dfy` | `Groupe` | balanced split of a shuffled selection, moving a student between groups, selection toggles, group-size field, the tool's state |
| `chronometre.dfy` | `Chronometre` | countdown tick, `MM:SS` display, colour thresholds, quick buttons, minutes editor, the timer's state |
| `app_context.dfy` | `AppContext` | the global instruction state and its four actions, and `useApp` |
| `consigne.dfy` | `Consigne` | instruction submit, reset, toggles, slider-to-width mapping |
| `video_url.dfy` | `VideoUrl` | the four id extractors as explicit scans, the direct-file test, `detectVideoType` |
| `media.dfy` | `Media` | what both media widgets share: the file descriptor, the caption bar, the caption-saving rule |
| `picture.dfy` | `Picture` | the image widget's state machine and render selection |
| `video.dfy` | `Video` | the video widget's state machine, submit decision and render selection |

How the source maps onto Dafny:

- **State.** A component whose handlers update React state is a `class`. Its state variables are fields, and each handler is a method with a `modifies` clause. Each method states the whole new state.
- **Pure logic.** A record transformer or a pure helper is a `function`.
- **Asynchronous callbacks.** The `FileReader`, image-probe and `<video>`-probe callbacks are separate event methods, e.g. `OnProbeLoad`. A value the closure captured is a parameter of the event method.
- **The shuffle.** It is an input: any permutation of the selection.
- **Regular expressions.** Each one is written out as a leftmost-first scan with the same backtracking outcome. Examples: greedy runs, alternatives tried in order, the greedy `.*` backing off to the last `v=`.
- **Pixels** are integers.

Where an operation's contract is stated against a specification function, lemmas prove what the source promises about that function:

- the balanced split is unique, keeps every selected student, and gives group sizes that differ by at most one;
- the timer display reads back as minutes and seconds;
- classification is ordered;
- captions stay well formed.

## Model

| member | source | states |
|---|---|---|
| DndKit.InitialElements | src/components/DndKitWrapper.tsx:248-257 | the filter-and-map yields no more elements than there are children; which elements, with which positions, is stated by `InitialElementsMembers` and `SeededLastChildWins` |
| DndKit.InitialElementsMembers | src/components/DndKitWrapper.tsx:248-257 | the elements are exactly the children that are component elements with an `id`, each with its `initialPosition` or (0, 0) |
| DndKit.SeedKeys | src/components/DndKitWrapper.tsx:55-61 | the reduce stores exactly the ids of the elements |
| DndKit.SeedLastWins | src/components/DndKitWrapper.tsx:55-61 | for a repeated id the last element's position is stored |
| DndKit.SeededKeys | src/components/DndKitWrapper.tsx:248-259 | the seeded store's keys are exactly the ids of the id-carrying children |
| DndKit.SeededLastChildWins | src/components/DndKitWrapper.tsx:55-61 | in the children's own terms: an id-carrying child with no later id-carrying child of the same id seeds its `initialPosition`, or (0, 0) when it has none, so for a repeated id the last child wins |
| DndKit.StoredPosition | src/components/DndKitWrapper.tsx:70-72 | `getPosition` is the stored value when present and (0, 0) otherwise; it never fails |
| DndKit.Upsert | src/components/DndKitWrapper.tsx:63-68 | `updatePosition` makes `get(id) == p`, adds `id` to the keys and leaves every other key's value unchanged |
| DndKit.CommittedPosition | src/components/DndKitWrapper.tsx:299-303 | the committed position is the current one (origin if unstored) plus the delta, each coordinate clamped at 0 |
| DndKit.DragCommitEffect | src/components/DndKitWrapper.tsx:295-306 | after a drag end the active id holds the clamped sum, both coordinates non-negative, and no other id is added, removed or changed |
| DndKit.DragCommitExact | src/components/DndKitWrapper.tsx:299-305 | a drag that stays in the non-negative quadrant moves the widget by exactly the delta |
| DndKit.RenderedPosition | src/components/DndKitWrapper.tsx:190 | a draggable renders at its stored position, or at its own `initialPosition` when the store lacks its id |
| DndKit.UnseededFirstDragJumps | src/components/DndKitWrapper.tsx:299 | for an unseeded id with a non-origin initial position, the first drag does not land where the rendered widget was dragged to |
| DndKit.AppSeed | src/App.tsx:23-59 | the application's canvas seeds exactly `item-2`, `item-1` and `item-3`; `picture-item` and `video-item` are never seeded |
| DndKit.PictureFirstDrag | src/components/tools/Picture.tsx:150-152 | the image widget renders at (700, 200), but its first drag by (50, -20) commits (50, 0) |
| DndKit.DragScenario | src/components/DndKitWrapper.tsx:299-303 | a seeded widget at (300, 100) dragged by (50, -20) lands at (350, 80); dragged by (-400, -200) it lands at the origin |
| DndKit.Clamp | src/components/DndKitWrapper.tsx:231-238 | `min(max(v, lo), hi)` lies in `[lo, hi]` when that interval is non-empty, is `v` inside it, and is `hi` when the interval is empty |
| DndKit.RestrictToBodyBounds | src/components/DndKitWrapper.tsx:222-225 | without a node rectangle or a window rectangle the transform passes through; the scale fields are always kept |
| DndKit.ClampedNodeInsideBody | src/components/DndKitWrapper.tsx:229-239 | when the node fits, the clamped x lies in `[body.left - node.left, body.right - node.right]` (likewise y), so the moved node stays inside the body |
| DndKit.InRangeUnchanged | src/components/DndKitWrapper.tsx:229-239 | a translation that already keeps the node inside the body is unchanged |
| DndKit.RestrictIdempotent | src/components/DndKitWrapper.tsx:222-240 | clamping twice is clamping once |
| DndKit.WidthPolicy | src/components/DndKitWrapper.tsx:116-128 | auto-resize gives fit-content between the bounds; else a non-empty `width` is used; else the bounds only |
| DndKit.Canvas.constructor | src/components/DndKitWrapper.tsx:243-259 | on mount the store is seeded once from the children and nothing is dragged |
| DndKit.Canvas.UpdatePosition | src/components/DndKitWrapper.tsx:63-68 | the store becomes the upsert, so `GetPosition(id) == p` |
| DndKit.Canvas.HandleDragStart | src/components/DndKitWrapper.tsx:278-292 | the active id is remembered along with the first id-carrying child that has it; the store does not change |
| DndKit.Canvas.HandleDragEnd | src/components/DndKitWrapper.tsx:295-310 | with an active id and a delta the store becomes `DragCommit`, otherwise it stays as it was; the drag state returns to idle |
| DndKit.FindChild | src/components/DndKitWrapper.tsx:283-289 | the child found is the first id-carrying child with that id; none is found only when no such child exists |
| Groupe.CeilDiv | src/components/tools/Groupe.tsx:162 | `Math.ceil(n / t)`: zero exactly for no students, and `(g - 1) * t < n <= g * t` otherwise |
| Groupe.CreateGroups | src/components/tools/Groupe.tsx:155-185 | the loop builds the balanced split: `ceil(n/t)` groups, consecutive slices whose concatenation is the shuffled list, group `i` of size `n/g + (i < n%g ? 1 : 0)` |
| Groupe.GroupCountMinimal | src/components/tools/Groupe.tsx:162-177 | a balanced split of a non-empty selection has every group between 1 and `t` students, and one group fewer could not hold all the students |
| Groupe.GroupSizesBalanced | src/components/tools/Groupe.tsx:162-177 | every group of a non-empty selection has 1 to `t` students, and sizes are non-increasing and differ by at most one |
| Groupe.BalancedSplitUnique | src/components/tools/Groupe.tsx:170-181 | the balanced split of a list at a size is unique |
| Groupe.BalancedSplitKeepsSelection | src/components/tools/Groupe.tsx:157-181 | when the shuffle is a permutation of the selection, the groups hold exactly the selected students (as a multiset) |
| Groupe.RemoveById | src/components/tools/Groupe.tsx:142-144 | the filter keeps exactly the students with a different id, each as often as in the group and in the group's order (a subsequence) |
| Groupe.RemoveByIdUnique | src/components/tools/Groupe.tsx:142-144 | a student that occurs once in its group, with no other student sharing its id, is removed as exactly one copy |
| Groupe.MoveStudent | src/components/tools/Groupe.tsx:129-152 | an absent or equal target leaves the groups as they were; otherwise the source group is filtered by id, the student is appended to the target, and every other group is unchanged |
| Groupe.MoveStudentKeepsStudents | src/components/tools/Groupe.tsx:139-152 | moving a student that is unique in its source group loses and duplicates nobody: the students, as a multiset, are preserved |
| Groupe.Toggle | src/components/tools/Groupe.tsx:353-362 | an unselected student is appended at the end; a selected id is filtered out with `RemoveById`; so the id's selected status flips and no other student changes |
| Groupe.ToggleTwice | src/components/tools/Groupe.tsx:353-362 | toggling an unselected student twice restores the selection exactly |
| Groupe.SelectAll | src/components/tools/Groupe.tsx:194-200 | select-all clears the selection when its length equals the roster's and otherwise copies the roster |
| Groupe.SelectAllMarks | src/components/tools/Groupe.tsx:190-200 | select-all from a full selection leaves nothing selected and the combo box prompting; from any other selection it sets the all-selected mark, clears the partial mark, and the box reads "Tous sélectionnés" for a non-empty roster |
| Groupe.SelectionLabel | src/components/tools/Groupe.tsx:311-317 | the combo-box label for no, all or some selected students, plural from two on |
| Groupe.ParseGroupSize | src/components/tools/Groupe.tsx:206-214 | a positive parsed integer becomes the size, an empty field clears it, anything else keeps the current size |
| Groupe.ParseGroupSizeTyped | src/components/tools/Groupe.tsx:206-214 | typing a positive number sets exactly it, `""` clears, `"0"` keeps the current size |
| Groupe.GroupMaker.constructor | src/components/tools/Groupe.tsx:110-115 | initial state: nothing selected, no size, no groups, selection screen |
| Groupe.GroupMaker.ChooseStudent | src/components/tools/Groupe.tsx:353-362 | the selection becomes `Toggle` of the old one; nothing else changes |
| Groupe.GroupMaker.HandleSelectAll | src/components/tools/Groupe.tsx:194-200 | the selection becomes `SelectAll` of the old one; nothing else changes |
| Groupe.GroupMaker.HandleGroupSize | src/components/tools/Groupe.tsx:206-214 | the size becomes `ParseGroupSize` of the field; a set size stays positive |
| Groupe.GroupMaker.HandleCreateClick | src/components/tools/Groupe.tsx:396-402 | with a size and a non-empty selection the groups become the balanced split of the shuffle, holding exactly the selection, and the groups screen shows; otherwise nothing changes |
| Groupe.GroupMaker.HandleResetClick | src/components/tools/Groupe.tsx:275-280 | the screen flips, and with a size set the groups are re-split from a fresh shuffle |
| Groupe.GroupMaker.HandleDragStart | src/components/tools/Groupe.tsx:118-122 | the dragged student is remembered |
| Groupe.GroupMaker.HandleDragEnd | src/components/tools/Groupe.tsx:125-153 | the drag state is cleared; with a drop target and groups the groups become `MoveStudent`, otherwise they stay as they were |
| Chronometre.Tick | src/components/tools/Chronometre.tsx:28-34 | the last second gives time 0 and stops the timer; any other second counts down by one; time never goes negative |
| Chronometre.CountdownReachesZero | src/components/tools/Chronometre.tsx:25-48 | a countdown started at `t > 0` shows `t - k` after `k < t` seconds and is stopped at 0 after exactly `t` seconds |
| Chronometre.StoppedStaysStopped | src/components/tools/Chronometre.tsx:26-41 | once the interval is disarmed the clock stays as it is |
| Chronometre.DefaultCountdown | src/components/tools/Chronometre.tsx:14-48 | the default five minutes show 1 s left after 299 s, and 0 (stopped) from 300 s on |
| Chronometre.TruncRem | src/components/tools/Chronometre.tsx:52 | JavaScript's `%`: the remainder takes the dividend's sign |
| Chronometre.FormatTimeReadsBack | src/components/tools/Chronometre.tsx:50-56 | for a non-negative time the digits before the colon are the whole minutes, the two digits after it the seconds below 60, and `m * 60 + ss == s` |
| Chronometre.FormatTimeWidth | src/components/tools/Chronometre.tsx:50-56 | below 100 minutes the display is exactly five characters |
| Chronometre.FormatWholeMinutes | src/components/tools/Chronometre.tsx:50-56 | whole minutes below ten show as `0M:00` |
| Chronometre.FormatNegativeTime | src/components/tools/Chronometre.tsx:50-56 | a negative time that is not a whole number of minutes shows floored negative minutes and seconds with their own minus sign |
| Chronometre.ColorOf | src/components/tools/Chronometre.tsx:118-123 | `getTimerColor` on the exact ratio agrees with the integer cross-multiplied thresholds for every reset value, the zero reset value included |
| Chronometre.RatioCompare | src/components/tools/Chronometre.tsx:119-121 | `time / initialTime > 1/2` (or `> 1/4`) is `2 * time > initialTime` (or `4 * time > initialTime`), with the comparison reversed for a negative reset value |
| Chronometre.ColorMonotone | src/components/tools/Chronometre.tsx:118-123 | with a positive reset value the colour only darkens as time runs out |
| Chronometre.ColorAtEnds | src/components/tools/Chronometre.tsx:118-123 | a just-reset timer is in the first colour and an elapsed one in the last |
| Chronometre.AddTime | src/components/tools/Chronometre.tsx:67-72 | the net effect of `addTime`: stopped at 0 gives the amount itself, otherwise `max(0, time + amount)` |
| Chronometre.QuickButtonsExact | src/components/tools/Chronometre.tsx:242-290 | each quick add adds exactly its amount to a non-negative time, and an enabled subtract removes exactly its amount, never going below 0 |
| Chronometre.StartEnabledArms | src/components/tools/Chronometre.tsx:204 | from a stopped, non-negative time the start button is enabled exactly when starting arms the countdown |
| Chronometre.SavedTime | src/components/tools/Chronometre.tsx:83-86 | the saved time is a whole number of minutes, and 0 when the draft is not a number |
| Chronometre.EditRoundsToMinutes | src/components/tools/Chronometre.tsx:75-86 | opening the editor and saving at once rounds the time down to whole minutes |
| Chronometre.SavedNegativeMinutes | src/components/tools/Chronometre.tsx:84-85 | a draft `-n` saves the negative time `-60 n` |
| Chronometre.SavedEmptyDraft | src/components/tools/Chronometre.tsx:84 | an empty draft saves 0 |
| Chronometre.QuickButtonsAfterToggleControls | src/components/tools/Chronometre.tsx:106-111 | hiding the controls keeps the quick buttons' flag; showing them hides the quick buttons |
| Chronometre.Timer.constructor | src/components/tools/Chronometre.tsx:14-20 | five minutes, stopped, not editing, controls and quick buttons shown |
| Chronometre.Timer.Second | src/components/tools/Chronometre.tsx:25-35 | an armed second applies `Tick`; a disarmed one changes nothing |
| Chronometre.Timer.ToggleTimer | src/components/tools/Chronometre.tsx:58-60 | only the running flag flips |
| Chronometre.Timer.ResetTimer | src/components/tools/Chronometre.tsx:62-65 | stops the timer and restores the reset value, which is unchanged |
| Chronometre.Timer.HandleAddTime | src/components/tools/Chronometre.tsx:67-72 | the time becomes `AddTime` of the old state |
| Chronometre.Timer.StartEditingTime | src/components/tools/Chronometre.tsx:74-81 | the editor opens holding the printed whole minutes of the time |
| Chronometre.Timer.SetTempTime | src/components/tools/Chronometre.tsx:141 | the draft becomes the typed value |
| Chronometre.Timer.SaveTime | src/components/tools/Chronometre.tsx:83-90 | the time and the reset value both become `SavedTime` of the draft; the editor closes with an empty draft |
| Chronometre.Timer.CancelEditingTime | src/components/tools/Chronometre.tsx:92-95 | the editor closes with an empty draft; the time is kept |
| Chronometre.Timer.HandleTimeKeyPress | src/components/tools/Chronometre.tsx:97-104 | Enter saves, Escape cancels, any other key changes nothing |
| Chronometre.Timer.ToggleControls | src/components/tools/Chronometre.tsx:106-111 | the controls flip; showing them hides the quick buttons |
| Chronometre.Timer.ToggleQuickButtons | src/components/tools/Chronometre.tsx:113-115 | only the quick buttons' flag flips |
| AppContext.SetConsigne | src/context/AppContext.tsx:32-38 | stores the text; it becomes visible exactly when non-empty; the theme is kept |
| AppContext.ToggleConsigneVisibility | src/context/AppContext.tsx:40-45 | flips the visibility and nothing else |
| AppContext.ResetConsigne | src/context/AppContext.tsx:47-53 | clears and hides the text, keeping the theme |
| AppContext.SetTheme | src/context/AppContext.tsx:55-60 | changes only the theme |
| AppContext.UseApp | src/context/AppContext.tsx:78-84 | outside a provider `useApp` throws its message; inside one it returns the provider's state |
| AppContext.ToggleTwiceIsIdentity | src/context/AppContext.tsx:40-45 | toggling twice is the identity |
| AppContext.ResetAbsorbs | src/context/AppContext.tsx:47-53 | reset is idempotent and forgets an earlier set or toggle |
| AppContext.ResetRestoresInitial | src/context/AppContext.tsx:19-23 | after a reset, text and visibility are those of the initial state |
| AppContext.ThemeCommutes | src/context/AppContext.tsx:32-60 | a theme change commutes with every instruction action |
| Consigne.BoxWidth | src/components/tools/Consigne.tsx:47 | the width in pixels equals `200 + (s / 100) * 1000` exactly |
| Consigne.BoxWidthRange | src/components/tools/Consigne.tsx:143-148 | over the slider's range 10..100 the box is 300 to 1200 pixels wide and grows with the slider |
| Consigne.SubmitShowsInstruction | src/components/tools/Consigne.tsx:22-28 | submitting non-blank text leads to display mode showing the trimmed text |
| Consigne.ResetLeavesDisplayMode | src/components/tools/Consigne.tsx:30-33 | after a reset the form is shown again |
| Consigne.ConsigneBox.constructor | src/components/tools/Consigne.tsx:17-20 | empty input, slider hidden, buttons shown, slider at 50 |
| Consigne.ConsigneBox.SetInputValue | src/components/tools/Consigne.tsx:173 | the input becomes the typed text |
| Consigne.ConsigneBox.HandleSubmit | src/components/tools/Consigne.tsx:22-28 | non-blank input becomes the trimmed instruction and the input clears; blank input changes nothing |
| Consigne.ConsigneBox.HandleReset | src/components/tools/Consigne.tsx:30-33 | resets the global instruction and clears the input |
| Consigne.ConsigneBox.HandleToggleSlider | src/components/tools/Consigne.tsx:35-37 | only the slider flag flips |
| Consigne.ConsigneBox.HandleToggleButtons | src/components/tools/Consigne.tsx:39-44 | the buttons flip; showing them again closes the slider |
| Consigne.ConsigneBox.SetSliderValue | src/components/tools/Consigne.tsx:143-147 | the slider takes a value in its range |
| Consigne.ConsigneBox.Width | src/components/tools/Consigne.tsx:47 | the displayed width stays within 300..1200 pixels |
| VideoUrl.RunLength | src/components/tools/Video.tsx:22 | a greedy run takes every class character from `q` on and stops at the first character outside the class |
| VideoUrl.FirstAlt | src/components/tools/Video.tsx:22 | alternatives are tried in order: the first that matches (with an id character after it) is taken |
| VideoUrl.Search | src/components/tools/Video.tsx:22 | the search finds the leftmost position where an alternative matches, or proves there is none |
| VideoUrl.MatchAlternatives | src/components/tools/Video.tsx:27-28 | a capture is non-empty and made of class characters |
| VideoUrl.MatchAlternativesNone | src/components/tools/Video.tsx:27-29 | there is no capture exactly when no alternative matches anywhere |
| VideoUrl.CaptureIsMaximal | src/components/tools/Video.tsx:22 | the captured id follows its alternative and is maximal: it ends at the URL's end or before a non-class character |
| VideoUrl.LastVParam | src/components/tools/Video.tsx:23 | the greedy `.*` backs off to the last `v=` that is followed by an id character |
| VideoUrl.SearchWatch | src/components/tools/Video.tsx:23 | the leftmost watch-query match and its last `v=`, or proof that the pattern matches nowhere |
| VideoUrl.MatchWatchQueryNone | src/components/tools/Video.tsx:23 | the second YouTube pattern has no capture exactly when it matches nowhere |
| VideoUrl.YouTubeId | src/components/tools/Video.tsx:20-31 | the YouTube id is non-empty and free of `&`, newline, `?` and `#` |
| VideoUrl.GetYouTubeVideoId | src/components/tools/Video.tsx:20-31 | the loop over the two patterns returns exactly `YouTubeId`: the first pattern's capture, else the second's, else none |
| VideoUrl.VimeoId | src/components/tools/Video.tsx:33-36 | the Vimeo id is a non-empty digit run |
| VideoUrl.DailymotionId | src/components/tools/Video.tsx:38-41 | the Dailymotion id is a non-empty run without `_` |
| VideoUrl.TwitchId | src/components/tools/Video.tsx:43-46 | the Twitch id is a non-empty digit run |
| VideoUrl.VimeoPrefersVideoPath | src/components/tools/Video.tsx:34 | at the leftmost match `vimeo.com/video/` with digits is preferred to `vimeo.com/` |
| VideoUrl.ExtensionFits | src/components/tools/Video.tsx:92 | truthy exactly when one of the five extensions, in any case, is spelled at the position, trying them in order |
| VideoUrl.DirectFrom | src/components/tools/Video.tsx:92 | the direct pattern matches at some position from `i` on |
| VideoUrl.IsDirectVideoUrl | src/components/tools/Video.tsx:92 | truthy exactly when a dot, an extension in any case and an optional query end the URL |
| VideoUrl.DirectBySuffix | src/components/tools/Video.tsx:92 | a URL ending in `.ext`, or in `.ext?query`, is a direct video |
| VideoUrl.DirectIgnoresCase | src/components/tools/Video.tsx:92 | an upper-case extension counts |
| VideoUrl.DetectVideoType | src/components/tools/Video.tsx:48-104 | the result's URL is the trimmed input, and only platform kinds carry an embed URL |
| VideoUrl.Classify | src/components/tools/Video.tsx:51-103 | the result's URL is its input, and an embed URL is present exactly for platform kinds |
| VideoUrl.ClassificationOrder | src/components/tools/Video.tsx:51-103 | YouTube, Vimeo, Dailymotion and Twitch are tried in order, each embed URL is built from its own id, and an unrecognised URL is direct exactly when the extension test passes |
| VideoUrl.DetectIgnoresSurroundingSpace | src/components/tools/Video.tsx:49 | surrounding white space never changes the classification |
| VideoUrl.ShortLinkId | src/components/tools/Video.tsx:20-31 | the id of `youtu.be/<id>` is `<id>` |
| VideoUrl.ShortLinkClassified | src/components/tools/Video.tsx:52-59 | `youtu.be/<id>` is YouTube with embed URL `https://www.youtube.com/embed/<id>?enablejsapi=1&rel=0` |
| Media.SavedCaption | src/components/tools/Video.tsx:258-264 | a blank draft keeps the caption; otherwise the trimmed, non-empty draft replaces it |
| Media.SavedCaptionIsCaption | src/components/tools/Picture.tsx:127-133 | saving keeps the caption non-empty with no white space at either end |
| Media.EditUnchangedKeepsCaption | src/components/tools/Picture.tsx:117-133 | opening the editor and saving at once changes nothing |
| Picture.ViewOf | src/components/tools/Picture.tsx:175-272 | loading first, then the image when a URL is set without error, else the placeholder, whose label reads the load error when the error is set |
| Picture.PictureWidget.constructor | src/components/tools/Picture.tsx:26-33 | no image, caption "Image", nothing loading, editing or failed |
| Picture.PictureWidget.SetUrlInput | src/components/tools/Picture.tsx:326 | the URL field takes the typed text |
| Picture.PictureWidget.HandleImageUpload | src/components/tools/Picture.tsx:49-66 | a reader starts exactly for an `image/` file; nothing else changes |
| Picture.PictureWidget.OnFileRead | src/components/tools/Picture.tsx:53-58 | a non-empty result becomes the image and ends loading; the error flag is untouched |
| Picture.PictureWidget.OnFileReadError | src/components/tools/Picture.tsx:59-62 | sets the error and ends loading |
| Picture.PictureWidget.HandleUrlSubmit | src/components/tools/Picture.tsx:69-88 | a blank field does nothing; otherwise loading starts, the error clears and the trimmed URL is probed |
| Picture.PictureWidget.OnProbeLoad | src/components/tools/Picture.tsx:76-81 | the probed URL becomes the image; the box closes and empties; loading ends; the remove button shows exactly for a non-empty URL |
| Picture.PictureWidget.OnProbeError | src/components/tools/Picture.tsx:82-85 | sets the error and ends loading; the image URL is kept |
| Picture.PictureWidget.HandleUrlKeyPress | src/components/tools/Picture.tsx:90-99 | Enter submits; Escape hides the box and clears the input and the error; other keys change nothing |
| Picture.PictureWidget.ToggleUrlInput | src/components/tools/Picture.tsx:105-109 | flips the box and clears the input and the error |
| Picture.PictureWidget.RemoveImage | src/components/tools/Picture.tsx:111-115 | clears the URL, the error and loading, so the placeholder shows and the remove button is hidden |
| Picture.PictureWidget.StartEditingCaption | src/components/tools/Picture.tsx:117-125 | the draft starts as the caption |
| Picture.PictureWidget.SetTempCaption | src/components/tools/Picture.tsx:189 | the draft takes the typed text |
| Picture.PictureWidget.SaveCaption | src/components/tools/Picture.tsx:127-133 | the caption becomes `SavedCaption`; editing ends with an empty draft |
| Picture.PictureWidget.CancelEditingCaption | src/components/tools/Picture.tsx:135-138 | editing ends with an empty draft; the caption is kept |
| Picture.PictureWidget.HandleCaptionKeyPress | src/components/tools/Picture.tsx:140-147 | Enter saves, Escape cancels, other keys change nothing |
| Picture.UploadAfterFailedUrl | src/components/tools/Picture.tsx:53-85 | after a failed URL probe a successful file read still shows the placeholder with the load-error label |
| Picture.SubmitThenLoadShowsImage | src/components/tools/Picture.tsx:69-81 | a successful submit shows the trimmed URL as the image |
| Video.SubmitUrl | src/components/tools/Video.tsx:181-219 | blank input is ignored; otherwise the trimmed input is classified, and only a direct file is probed before use |
| Video.ViewOf | src/components/tools/Video.tsx:304-522 | loading first; then an embed for platform videos and a player for the others (an open button only for direct files); else the placeholder; the kind badge shows only for a shown non-file video |
| Video.VideoWidget.constructor | src/components/tools/Video.tsx:124-133 | no video, caption "Vidéo", nothing loading, failed, playing or muted |
| Video.VideoWidget.SetUrlInput | src/components/tools/Video.tsx:575 | the URL field takes the typed text |
| Video.VideoWidget.HandleVideoUpload | src/components/tools/Video.tsx:150-179 | a reader starts exactly for a `video/` file of at most 100 MiB, which sets loading and clears the error; anything else changes nothing |
| Video.VideoWidget.OnReaderLoad | src/components/tools/Video.tsx:162-170 | a non-empty result becomes a `file` video and ends loading |
| Video.VideoWidget.OnReaderError | src/components/tools/Video.tsx:171-174 | sets the error and ends loading |
| Video.VideoWidget.HandleUrlSubmit | src/components/tools/Video.tsx:181-219 | as `SubmitUrl` decides: nothing; or the video is adopted at once, with the box closed and emptied; or loading starts and the direct file is probed |
| Video.VideoWidget.OnProbeLoaded | src/components/tools/Video.tsx:200-205 | the probed video is adopted; the box closes and empties; loading ends; the remove button shows |
| Video.VideoWidget.OnProbeError | src/components/tools/Video.tsx:206-209 | sets the error and ends loading |
| Video.VideoWidget.HandleUrlKeyPress | src/components/tools/Video.tsx:221-230 | Enter has exactly the effect of `HandleUrlSubmit` for each `SubmitUrl` outcome; Escape hides the box and clears the input and the error; other keys change nothing |
| Video.VideoWidget.ToggleUrlInput | src/components/tools/Video.tsx:236-240 | flips the box and clears the input and the error |
| Video.VideoWidget.RemoveVideo | src/components/tools/Video.tsx:242-247 | clears the video, the error, loading and playing, so the placeholder shows and the remove button is hidden |
| Video.VideoWidget.TogglePlayPause | src/components/tools/Video.tsx:280-289 | flips playing only when the `<video>` element exists |
| Video.VideoWidget.ToggleMute | src/components/tools/Video.tsx:291-296 | flips muting only when the `<video>` element exists |
| Video.VideoWidget.OnMediaPlaying | src/components/tools/Video.tsx:347-348 | the play and pause events set the playing flag |
| Video.VideoWidget.OnMediaError | src/components/tools/Video.tsx:349 | the element's error event sets the error, which shows the placeholder |
| Video.VideoWidget.StartEditingCaption | src/components/tools/Video.tsx:249-256 | the draft starts as the caption |
| Video.VideoWidget.SetTempCaption | src/components/tools/Video.tsx:435 | the draft takes the typed text |
| Video.VideoWidget.SaveCaption | src/components/tools/Video.tsx:258-264 | the caption becomes `SavedCaption`; editing ends with an empty draft |
| Video.VideoWidget.CancelEditingCaption | src/components/tools/Video.tsx:266-269 | editing ends with an empty draft; the caption is kept |
| Video.VideoWidget.HandleCaptionKeyPress | src/components/tools/Video.tsx:271-278 | Enter saves, Escape cancels, other keys change nothing |
| Video.SubmitShortLink | src/components/tools/Video.tsx:181-195 | submitting a `youtu.be/<id>` link embeds the id's embed URL at once, with the YouTube badge |
| JsString.Trim | src/components/tools/Consigne.tsx:24-25 | `trim` is the slice of its input left after cutting off an all-white-space prefix and suffix; it is empty exactly for blank input, and otherwise neither starts nor ends with white space |
| JsString.TrimIdempotent | src/components/tools/Video.tsx:49 | trimming twice is trimming once |
| JsString.NatToString | src/components/tools/Chronometre.tsx:53-55 | `toString` of a non-negative integer: decimal digits without a leading zero, denoting the number |
| JsString.PadStart | src/components/tools/Chronometre.tsx:53-55 | `padStart` keeps the string at the end and fills the front up to the length |
| JsString.ParseIntToString | src/components/tools/Chronometre.tsx:75-84 | `parseInt` reads back what `toString` printed |

## Left out

- JSX, Tailwind classes, icons and `tailwind.config.ts` are presentation only and are not modelled.
- The dnd-kit sensors and their activation constraints, `CSS.Translate`, the `z-index` while dragging and the React context plumbing are not modelled. They belong to the gesture library and its wiring.
- `lodash.shuffle` is randomness. The shuffled list is an input, required to be a permutation of the selection.
- `src/hooks/useUsers.ts` is a network fetch, so the roster is an input of the group maker. The loading and error screens of `Groupe.tsx` that depend on the fetch are not modelled.
- `FileReader`, the `Image` and `<video>` probes, `alert`, `window.open`, the clipboard and the `setTimeout` focus calls are browser I/O. The callbacks are event methods. `window.location.hostname` is a parameter. `play()`, `pause()` and `muted` on the media element are effects outside the model; only the flags are kept.
- `setInterval` timing is modelled as one `Second` step at a time. `src/components/ui/clock.tsx` is wall-clock and locale formatting and is not part of this model.
- No floating point anywhere:
  - pixels and drag deltas are integers, the DOM rectangles included;
  - the timer colour uses the exact ratio, which agrees with IEEE doubles for times below 2^53;
  - Consigne's width is the exact integer, so the printed `px` string for a fractional float is not modelled.
- React batching is not modelled. Each handler applies its updates in order; for `addTime` the contract states the net effect of the two queued updates.
- The `react-resizable` size and its min/max constraints are not modelled. The widgets' `size` and `isResizing` state is left out with them.
- `src/components/AddTools.tsx` is not part of this model. Its only logic is a list append, and `src/App.tsx:17` renders it without `setActiveTools`, so the append never runs.
- `src/components/NeobrutalistForm.tsx` is not part of this model. It only forwards to the AppContext actions, and `src/App.tsx` does not render it.
- `src/main.tsx` and `src/components/ui/image-card.tsx` are composition only and are not part of this model. `src/App.tsx` is cited only for the canvas children it seeds.
- The `open` state of the group maker's popover is not modelled: it only shows and hides the roster list.
- Strings are sequences of characters, not UTF-16 code units. `Number.prototype.toString` is modelled for integers only; its exponent form for very large numbers is not modelled.
- JsString.ParseInt: `Infinity`, and digits beyond 2^53 (which lose precision), are not modelled; the result is the exact integer, `None` standing for `NaN`, and `-0` is 0.
- DndKit.Canvas.constructor: the store is seeded once, when the canvas mounts, as the `useState` initialiser does. Children mounted later are not added.
- Chronometre.SavedTime: its contract states only that the result is a whole number of minutes and 0 for a non-number. What it gives for printed minutes, for a negative draft and for an empty draft is stated by `EditRoundsToMinutes`, `SavedNegativeMinutes` and `SavedEmptyDraft`.
- Chronometre.FormatTimeReadsBack: the read-back holds for non-negative times. Negative times are covered separately: `FormatNegativeTime` states their display.

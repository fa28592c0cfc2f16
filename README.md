# Soundboard: a Dafny model of the app's state machines

This project models the logic of a React Native soundboard app. The app holds
boards of groups, each group holds recorded sounds, and pressing a sound plays
it. The model covers:

- **The soundboard screen.** This is the registry of playing sounds
  (`activeSounds`, a sound id mapped to a live audio handle), the sound-name
  filter that builds the sectioned list, and the bottom sheet that selects a
  group or a sound for deletion.
- **The recorder screen.** This is the recording session, playback of the last
  recording, the sound's name with the Save switch it drives, and the two
  duration formatters.
- **The Redux slices for groups and boards.** These are the reducers over
  `{pending, data, error}` and the actions `getGroups`/`getBoards` dispatch.
  It also includes the fold of the flat LEFT JOIN rows into groups and the
  flattening through `Object.keys`, whose order follows
  OrdinaryOwnPropertyKeys (section 10.1.11.1 of ECMAScript 2023): array-index
  keys ascending, then the other keys in creation order.
- **The two name-entry dialogs** (new group and new board).

The audio capability (expo-av) and the SQLite database are opaque calls. Each
becomes a parameter of type `Call<T>`, which either returns a value or throws
with a message, or a boolean success flag when nothing is returned. The
handlers mutate component state step by step, so they are class methods with
`modifies` frames. The reducers, the filter and the formatters are
functions. The grouping transform keeps its loops: `Groups.CollectRows` folds
the rows into a memo, `Groups.Flatten` lists the memo in key order, and
`Groups.GroupRows` runs both and is proved equal to the reference function
`Groups.GroupsOf`.

An async handler whose awaited call throws without a `catch` stops at that
call, and the state updates after it do not happen. This applies to the
soundboard's play, stop, finish and delete handlers. The recorder's handlers
catch their errors. A failing recording start or stop, or a failing playback
stop, changes nothing. This includes the `TypeError` thrown by `x!.method()`
when `x` is undefined. Playback start is the exception: it stores the loaded
sound before it awaits `playAsync`, so a failing `playAsync` keeps the loaded
sound.

Files: `effects.dfy` (`Option`, `Call`), `text.dfy` (JavaScript `trim`,
`indexOf`, decimal rendering), `groups.dfy`, `boards.dfy`, `soundboard.dfy`,
`recorder.dfy`, `modals.dfy`.

## Model

| member | source | states |
|---|---|---|
| Text.IsWhitespace | components/modals/NewGroupModal.tsx:28 | the characters `trim()` removes: ECMAScript's WhiteSpace and LineTerminator code points |
| Text.Trim | components/modals/NewGroupModal.tsx:28 | `trim()` returns a string that neither starts nor ends with whitespace |
| Text.TrimExact | components/modals/NewGroupModal.tsx:28 | `trim()` returns the infix of the input that starts where the leading whitespace ends, with only whitespace before and after it |
| Text.TrimUnique | components/modals/NewGroupModal.tsx:28 | any infix with only whitespace around it that neither starts nor ends with whitespace is the result of `trim()`, so `trim()` is fully determined |
| Text.TrimStart | components/modals/NewGroupModal.tsx:28 | drops exactly the leading whitespace: the result is a suffix, everything dropped is whitespace, and the result does not start with whitespace |
| Text.TrimEnd | components/modals/NewGroupModal.tsx:28 | drops exactly the trailing whitespace: the result is a prefix, everything dropped is whitespace, and the result does not end with whitespace |
| Text.HasText | screens/Recorder/index.tsx:58 | the test `name.trim().length > 0`, read as "some character is not whitespace"; `HasTextIsTrimNonEmpty` proves the two equal |
| Text.HasTextIsTrimNonEmpty | components/modals/NewGroupModal.tsx:27-29 | `HasText(s)` holds exactly when `s.trim().length > 0`, for every string |
| Text.HasTextIffNonWhitespace | components/modals/NewGroupModal.tsx:27-29 | `HasText` holds exactly when the name has a character that is not whitespace |
| Text.TrimNonEmptyIffNonWhitespace | components/modals/NewGroupModal.tsx:27-29 | `name.trim().length > 0` holds exactly when the name has a character that is not whitespace |
| Text.IndexOf | screens/Soundboard/index.tsx:194 | `indexOf` returns -1 exactly when the needle occurs nowhere; otherwise it returns an occurrence with no earlier one |
| Text.IndexOfFindsSubstring | screens/Soundboard/index.tsx:194 | the filter's test `indexOf(filter) > -1` holds exactly when the filter is a substring of the name |
| Text.ShowNat | screens/Recorder/index.tsx:164 | a number inside a template string is one or more digits with no leading zero, and a single digit exactly when it is below 10 |
| Text.ParseShowNat | screens/Recorder/index.tsx:164 | reading back the rendered digits gives the number |
| Text.ShowParseCanonical | screens/Recorder/index.tsx:164 | a digit string without leading zeros is the rendering of the number it reads as, so a number has exactly one such rendering |
| Groups.Reducer | state/ducks/groups.ts:51-79 | an undefined state starts from `{pending: true, data: [], error: undefined}`; LOADING sets only `pending`; SUCCESS clears `pending` and replaces `data`, keeping `error`; ERROR clears `pending` and sets `error`, keeping `data`; any other action returns the state |
| Groups.ReplaySnoc | state/ducks/groups.ts:57-79 | dispatching one more action is one more reducer step |
| Groups.ReplayData | state/ducks/groups.ts:64-75 | after any sequence of actions, `data` is the payload of the last SUCCESS, or the starting data if there was none |
| Groups.ErrorIsSticky | state/ducks/groups.ts:64-69 | once `error` is set, no action clears it, including a later SUCCESS |
| Groups.FirstNameIsFirstRow | state/ducks/groups.ts:119-125 | a group's name comes from the first row with its id |
| Groups.FirstNameSnoc | state/ducks/groups.ts:119-125 | a later row never renames a group that already exists |
| Groups.FirstSeenDistinctCovers | state/ducks/groups.ts:119-125 | the group ids in creation order have no repeats and are exactly the ids of the rows |
| Groups.SoundsOfAbsent | state/ducks/groups.ts:127-133 | a group id no row mentions has no sounds |
| Groups.SoundTotalAppend | state/ducks/groups.ts:127-133 | counting sounds group by group adds up over concatenated id lists |
| Groups.SoundTotalPermutation | state/ducks/groups.ts:139-144 | the group-by-group sound count does not depend on the order of the groups |
| Groups.SoundTotalSnoc | state/ducks/groups.ts:127-133 | a row adds one sound to the total if its sound id is non-null, and none otherwise |
| Groups.SoundTotalFirstSeen | state/ducks/groups.ts:127-133 | counted once per group, the sounds are exactly the rows with a non-null sound id |
| Groups.Insert | state/ducks/groups.ts:139 | inserting a key adds exactly that key to the list |
| Groups.InsertElements | state/ducks/groups.ts:139 | every element after an insertion is the inserted key or was already in the list |
| Groups.InsertAscending | state/ducks/groups.ts:139 | inserting into an ascending key list keeps it ascending |
| Groups.SortAscending | state/ducks/groups.ts:139 | the array-index keys are put in ascending order, and are a permutation of those created |
| Groups.IndexKeys | state/ducks/groups.ts:139 | the keys selected for ascending order are all array indices (0 to 2^32 - 2) |
| Groups.OtherKeys | state/ducks/groups.ts:139 | the keys kept for creation order are none of them array indices |
| Groups.OtherKeysAppend | state/ducks/groups.ts:139 | selecting the non-index keys distributes over concatenation, so it keeps their order |
| Groups.OtherKeysInCreationOrder | state/ducks/groups.ts:139 | of two non-index keys, the one created first is listed first |
| Groups.AllIndexKeys | state/ducks/groups.ts:139 | when every key is an array index, no key is left for creation order |
| Groups.SplitKeys | state/ducks/groups.ts:139 | array-index keys and the other keys together are exactly the created keys |
| Groups.OwnKeys | state/ducks/groups.ts:139 | `Object.keys(memo)` lists each created key once: array-index keys first, in ascending order, then the other keys in creation order; distinct keys stay distinct |
| Groups.GroupsOf | state/ducks/groups.ts:118-144 | the reference grouping: one group per key of the memo in `Object.keys` order, as many as there are distinct `rowId`s |
| Groups.GroupsOfOnePerId | state/ducks/groups.ts:118-144 | the result has exactly one group per distinct `rowId` of the rows |
| Groups.GroupsOfContents | state/ducks/groups.ts:118-136 | each group holds the sounds of the rows with its id, in row order, and is named by the first such row |
| Groups.FirstIndex | state/ducks/groups.ts:119-125 | every group id of the rows has a first row |
| Groups.GroupsOfSoundCount | state/ducks/groups.ts:127-133 | the total number of sounds over all groups equals the number of rows with a non-null `soundId` |
| Groups.TotalSoundsByIds | state/ducks/groups.ts:139-144 | a list of groups holding the sounds of the listed ids has the group-by-group total of those ids |
| Groups.GroupsOfAscending | state/ducks/groups.ts:139-144 | when every `rowId` is an array index, the groups come out in strictly ascending id order |
| Groups.StepFacts | state/ducks/groups.ts:118-136 | one more row adds its id to the ids seen, appends it to the creation order only on first sight, appends its sound only to its own group, and names only a new group |
| Groups.MemoStep | state/ducks/groups.ts:119-133 | one step of the fold creates the row's group if it is missing and otherwise keeps the memo's keys |
| Groups.MemoStepMatches | state/ducks/groups.ts:118-136 | one step of the fold keeps the memo equal to the reference reading of the rows seen so far |
| Groups.CollectRows | state/ducks/groups.ts:118-136 | the loop's memo has one entry per row id, holding the group named by its first row with the sounds of its rows in row order; keys are created in first-seen order |
| Groups.Flatten | state/ducks/groups.ts:139-144 | the loop lists, for each key in order, the group stored under it |
| Groups.GroupRows | state/ducks/groups.ts:118-144 | the fold followed by the flattening yields exactly the reference grouping of the rows |
| Groups.GetGroups | state/ducks/groups.ts:97-151 | dispatches LOADING(true), then SUCCESS with the grouped rows, or ERROR with the thrown message |
| Groups.FetchSettles | state/ducks/groups.ts:97-151 | after a fetch the slice is not pending, and shows the grouped rows or records the error |
| Boards.Reducer | state/ducks/boards.ts:46-73 | an undefined state starts from `{pending: true, data: [], error: undefined}`; LOADING sets only `pending`; SUCCESS clears `pending` and replaces `data`, keeping `error`; ERROR clears `pending` and sets `error`, keeping `data`; any other action returns the state |
| Boards.GetBoards | state/ducks/boards.ts:92-108 | dispatches LOADING(true), then SUCCESS with the rows, or ERROR with the thrown message |
| Boards.FetchSettles | state/ducks/boards.ts:92-108 | after a fetch the slice is not pending, and shows the boards or records the error |
| Soundboard.FilterSounds | screens/Soundboard/index.tsx:194 | the filtered sounds are exactly those whose name contains the filter, and no more than there were |
| Soundboard.FilterSoundsAppend | screens/Soundboard/index.tsx:194 | filtering keeps the original order: it distributes over concatenation |
| Soundboard.EmptyFilterKeepsAll | screens/Soundboard/index.tsx:194 | filtering with the empty string keeps every sound |
| Soundboard.GroupData | screens/Soundboard/index.tsx:191-195 | one section per group in group order, with the group's name and id; an empty filter keeps all sounds, otherwise exactly those whose name contains the filter |
| Soundboard.FindGroup | screens/Soundboard/index.tsx:179 | `groups.find` returns nothing exactly when no group has the id, and otherwise the first group with it |
| Soundboard.Screen.constructor | screens/Soundboard/index.tsx:31-34 | no sound is playing, nothing is selected, the sheet is hidden |
| Soundboard.Screen.PlaySound | screens/Soundboard/index.tsx:95-111 | a sound already playing loads nothing and leaves the registry alone; otherwise its clip is loaded, and the handle is registered under its id only if the load returns, with every other entry kept |
| Soundboard.Screen.StopPlayback | screens/Soundboard/index.tsx:113-123 | a sound not playing is left alone; otherwise stop then unload are called, and only that id's entry is cleared, only if both return |
| Soundboard.Screen.PlaybackStatusUpdate | screens/Soundboard/index.tsx:82-93 | a `didJustFinish` status unloads the sound's handle and clears only its entry, unless the unload throws; any other status changes nothing |
| Soundboard.Screen.SelectGroup | screens/Soundboard/index.tsx:125-128 | remembers the group and shows the sheet |
| Soundboard.Screen.SelectSound | screens/Soundboard/index.tsx:130-133 | remembers the sound and shows the sheet |
| Soundboard.Screen.DeleteItem | screens/Soundboard/index.tsx:135-149 | removes the selected sound in preference to the selected group, clears that selection and refetches only if the removal returns; hides the sheet unless the removal throws |
| Soundboard.Screen.CancelSheet | screens/Soundboard/index.tsx:151-154 | clears the selected sound and hides the sheet, keeping the selected group |
| Soundboard.PlayTwice | screens/Soundboard/index.tsx:95-111 | pressing a sound twice loads it once and keeps the first handle |
| Soundboard.PlayToEnd | screens/Soundboard/index.tsx:82-111 | a clip that finishes leaves the registry and can be played again |
| Soundboard.FailedCalls | screens/Soundboard/index.tsx:95-123 | a throwing load registers nothing; a throwing stop keeps the entry |
| Soundboard.CancelKeepsGroup | screens/Soundboard/index.tsx:125-154 | after a cancel the group stays selected, and a later delete of a selected sound removes the sound |
| Recorder.HasPlayableUri | screens/Recorder/index.tsx:69 | `lastRecording?.getURI()` is truthy: a recording exists and its URI is neither null nor empty |
| Recorder.Screen.constructor | screens/Recorder/index.tsx:21-28 | empty name, Save disabled, every handle and status undefined |
| Recorder.Screen.NameChange | screens/Recorder/index.tsx:52-64 | the name becomes the text; Save is enabled exactly when the trimmed text is non-empty and a last recording exists |
| Recorder.Screen.StartRecording | screens/Recorder/index.tsx:126-143 | the recording becomes current only when the start call returns; a throw changes nothing |
| Recorder.Screen.StopRecording | screens/Recorder/index.tsx:145-156 | a successful stop makes the current recording the last one, clears it, and sets Save to "the trimmed name is non-empty"; a throw, or no current recording, changes nothing |
| Recorder.Screen.ToggleRecording | screens/Recorder/index.tsx:109-115 | stops when a recording is current and starts otherwise, with the outcomes above |
| Recorder.Screen.StatusChange | screens/Recorder/index.tsx:117-124 | a final status becomes the last status and clears the live one; any other status replaces the live one and keeps the last |
| Recorder.Screen.StartPlayback | screens/Recorder/index.tsx:82-96 | the sound is kept once its load returns, whatever play then does; a throwing load changes nothing |
| Recorder.Screen.StopPlayback | screens/Recorder/index.tsx:98-107 | the sound is forgotten only when stop and unload both return; a throw, or no sound, changes nothing |
| Recorder.Screen.TogglePlayback | screens/Recorder/index.tsx:66-72 | stops when a playback status is held; otherwise starts the last recording's URI if it has one; otherwise does nothing |
| Recorder.Screen.PlaybackStatusChange | screens/Recorder/index.tsx:74-80 | the playback status is held exactly when the latest event is playing |
| Recorder.RecordThenName | screens/Recorder/index.tsx:52-156 | record, stop, then a name with text: the recording is the last one, none is current, and Save is enabled |
| Recorder.StatusEvents | screens/Recorder/index.tsx:117-124 | a progress event then a final event leave the final one as the last status and no live status |
| Recorder.NameThenRecord | screens/Recorder/index.tsx:52-156 | a name typed before recording leaves Save disabled, and so does a failed stop; a successful stop enables it |
| Recorder.ToggleWithoutRecording | screens/Recorder/index.tsx:66-72 | with no recording the playback toggle requests nothing and keeps no sound |
| Recorder.ClockOf | screens/Recorder/index.tsx:158-162 | seconds are ⌊t/1000⌋ mod 60 and minutes are ⌊t/60000⌋ mod 60, both below 60, and together they give the whole seconds modulo an hour |
| Recorder.FormatDuration | screens/Recorder/index.tsx:158-165 | the text ends in " seconds"; the minutes clause is omitted when the minutes are 0, and the text is then exactly the rendered seconds and " seconds" |
| Recorder.FormatDurationReadsBack | screens/Recorder/index.tsx:158-165 | `formatDuration`'s text reads back as exactly the duration's minutes and seconds, under a reader that accepts numbers only without leading zeros and the minutes clause only for minutes above 0 |
| Recorder.ParseDurationDetermines | screens/Recorder/index.tsx:158-165 | only one text reads back as a given clock: "M minutes, S seconds" when the minutes are above 0 and "S seconds" otherwise, with both numbers as `${n}` renders them; with the read-back lemma this fixes `formatDuration`'s text for every duration |
| Recorder.PadAsWritten | screens/Recorder/index.tsx:173 | the `< 9` padding as written: digits that read back as the number, one character wide exactly when the number is 9, and two characters wide for every other number below 100 (so 0 gives "00") |
| Recorder.FormatDurationShortAsWritten | screens/Recorder/index.tsx:167-174 | `formatDurationShort` as written: minutes, a colon, then seconds; each field reads back as its component; the minutes field is one digit wide exactly when the minutes are 9, and the seconds field is one digit wide when the seconds are 9 and two digits wide otherwise |
| Recorder.NineSecondsUnpadded | screens/Recorder/index.tsx:173 | as written, 9000 ms shows as "00:9", and corrected it shows as "00:09" |
| Recorder.Pad2 | screens/Recorder/index.tsx:173 | two-digit zero padding reads back as the number |
| Recorder.FormatDurationShort | screens/Recorder/index.tsx:167-174 | corrected: always "MM:SS", and the two fields read back as the minutes and the seconds |
| Recorder.ShortFormatsDifferOnlyAtNine | screens/Recorder/index.tsx:173 | the as-written and corrected formatters agree exactly when neither component is 9 |
| NewGroupModal.Modal.constructor | components/modals/NewGroupModal.tsx:14-15 | empty name, Save disabled |
| NewGroupModal.Modal.ChangeName | components/modals/NewGroupModal.tsx:17-20 | the name becomes the value; Save is enabled exactly when the trimmed value is non-empty |
| NewGroupModal.Modal.Submit | components/modals/NewGroupModal.tsx:22-25 | submits the current name, clears the field, and leaves Save unchanged |
| NewGroupModal.TypeThenSubmit | components/modals/NewGroupModal.tsx:17-29 | typing a name and submitting submits it and clears the field, and Save stays enabled exactly when the name had a non-whitespace character |
| NewGroupModal.TypeThenClear | components/modals/NewGroupModal.tsx:17-29 | clearing the field disables Save |
| NewBoardModal.Modal.constructor | components/modals/NewBoardModal.tsx:14-15 | empty name, Save disabled |
| NewBoardModal.Modal.ChangeName | components/modals/NewBoardModal.tsx:17-20 | as written: the name becomes the value, but Save reflects the name held before the change |
| NewBoardModal.Modal.ChangeNameIntended | components/modals/NewBoardModal.tsx:17-20 | corrected: Save is enabled exactly when the trimmed new value is non-empty |
| NewBoardModal.Modal.Submit | components/modals/NewBoardModal.tsx:22-25 | submits the current name, clears the field, and leaves Save unchanged |
| NewBoardModal.TypeThenClear | components/modals/NewBoardModal.tsx:17-29 | as written, typing a first name leaves Save disabled, and clearing it afterwards enables Save with an empty name |
| NewBoardModal.TypeThenClearIntended | components/modals/NewBoardModal.tsx:17-29 | corrected, Save is enabled after typing a name with text and disabled once the field is cleared |
| NewBoardModal.TypeThenSubmit | components/modals/NewBoardModal.tsx:17-25 | typing a name and submitting submits it and clears the field |

## Left out

- The audio capability (expo-av) is not modelled. Creating, stopping and unloading sounds, recordings, permissions and the audio mode are each one opaque call that returns or throws. Playback status callbacks are inputs to the handlers.
- SQLite access (hooks/useDatabase.ts) and the SQL text of `getGroups`/`getBoards` are not modelled. The query result is an input: a row sequence or a thrown message.
- Rendering, navigation (`setOptions`, `setParams`, `navigate`, `goBack`), theming, the store wiring and the Home screens are not part of this model.
- The recorder's `handleSave` (`addSound`, refetch, navigate back) is not modelled, because it is database I/O and navigation.
- The soundboard's new-group dialog handlers and `handleAddSound` are not modelled, because they are database I/O and navigation.
- Async interleaving and React's closure semantics are not modelled. Each handler runs atomically over the current state.
- Soundboard.Screen.PlaybackStatusUpdate: models the finish handler as reading the current `activeSounds`. In the app the status callback is created at screens/Soundboard/index.tsx:101, in a render where `item.id` had no active sound yet, and it keeps that render's `activeSounds`. So the `unloadAsync` call at screens/Soundboard/index.tsx:86 finds no handle and the sound is never unloaded. The following `setActiveSounds` also writes back that old snapshot of the other entries. The model's unload on finish is what the handler evidently intends, not what the app does.
- State setters are treated as immediate writes, not batched re-renders.
- Soundboard.Screen: `activeSounds[id] = undefined` is modelled as removing the key. The code tests only truthiness, so the two are indistinguishable to it.
- Text.IndexOf: counts positions in code points, while JavaScript's `indexOf` counts UTF-16 code units, so the two differ for names with characters outside the Basic Multilingual Plane. The app only tests the result against -1, and that test agrees in both.
- Soundboard.Screen.DeleteItem: when the database removal throws, the sheet stays visible, because the code has no `catch` and the final hide is never reached.
- Recorder.Screen.StopRecording: a failed stop keeps the current recording and session, as the code's `catch` does.
- Recorder: the microphone's single-instance rule and the recording's duration bookkeeping are not part of this model. The screen stores the status events it receives and nothing more.
- Text.Trim: its own contract states only that the result neither starts nor ends with whitespace. Where the result sits in the input is stated by the lemmas `TrimExact` and `TrimUnique`, which together determine it. This keeps the quantified facts out of every proof that mentions a name.
- Text.HasText is defined character by character ("some character is not whitespace"), not as `trim().length > 0`. `HasTextIsTrimNonEmpty` proves the two equal for every string, so the forms' Save rule is unchanged.
- Durations are non-negative integer milliseconds, not JavaScript floats. The playback slider values are display-only and are left out.
- Groups.OwnKeys: group ids are integers. String keys that are not integers cannot arise from SQLite row ids.
- Group, sound and board ids are JavaScript numbers read from SQLite, but the model uses unbounded integers. It assumes every id is an exact integer, with |id| at most 2^53 - 1. Above that, distinct ids would collapse to the same number, and grouping by `rowId` would merge their groups. Autoincrement row ids do not reach that range.

## Findings

| source | as written | input that shows it | evidently intended | confidence | as-written member | corrected member |
|---|---|---|---|---|---|---|
| screens/Recorder/index.tsx:173 | `formatDurationShort` pads a component with "0" only when it is below 9 | 9000 ms shows as "00:9" (also 9 minutes shows as "9:..") | pad every component below 10, always "MM:SS" | high; not executed | Recorder.NineSecondsUnpadded | Recorder.FormatDurationShort |
| components/modals/NewBoardModal.tsx:19 | `handleBoardNameChange` computes Save from `boardName`, the name before the change | type "a" into the empty field: Save stays disabled; then clear the field: Save is enabled with an empty name | compute Save from the new value, as the new-group dialog does | high; not executed | NewBoardModal.TypeThenClear | NewBoardModal.TypeThenClearIntended |

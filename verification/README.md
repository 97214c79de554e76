# AlphabetFlatList letter synchronisation, modelled in Dafny

`AlphabetFlatList` (react-native-alphabetflatlist, `index.js`) shows a data
list next to a column of letter buttons `A`..`Z` and `#`. The two are kept in
step in both directions:

- pressing a letter scrolls the data list to the first item whose key is
  that letter, and selects the letter once the scroll has settled;
- scrolling the data list selects the letter of the item at the top.

This project models that synchronisation and proves what it promises.

- `keys.dfy`, module `Keys`: data items, the `matchFieldName` selector and
  key derivation. The key is the first character of the item, or of the
  configured field, upper-cased. It also holds `findIndex`, the first-match
  search of a press, and the warnings that search emits.
- `markers.dfy`, module `Markers`: the marker list, built as the source
  builds it (`'abcdefghijklmnopqrstuvwxyz#'` upper-cased and split). It proves
  the list is exactly `A`..`Z` then `#`, without duplicates.
- `selection.dfy`, module `Selection`: the state machine as functions on a
  `Snapshot` (selected letter, pending updates, issued outputs).
  - `Press` models `onPressLetter`, `Visible` models `onViewableItemsChanged`.
  - `InteractionManager.runAfterInteractions` becomes a FIFO queue of pending
    letter assignments; `Settle` runs them in order.
  - The lemmas state the properties of these transitions, with worked scenarios.
  - `Run` handles any trace of presses, visibility events and settles. Its
    lemmas show the invariant holds in every reachable state, and that only
    presses scroll or call the callback.
- `component.dfy`, module `Component`: the component as a class.
  - Fields: `alphabetList`, `selectedLetter`, the pending queue, and logs of
    scroll commands, callback calls and warnings.
  - Methods: `OnPressLetter`, `OnViewableItemsChanged` and `Settle`. Each
    ensures the new state is the matching `Selection` transition of the old
    state, and keeps the invariant that the selection is a marker.
  - The two style setters, returning which style entries they combine, with
    the lemma that exactly one marker is drawn selected.

Behaviour of `index.js` worth knowing:

- `#` is not a catch-all. An item whose key is a digit (or any other
  character that is neither `A`..`Z` nor `#`) matches no marker. A visibility
  event with such an item on top changes nothing (`DigitItemMatchesNoMarker`
  for digits, `VisibleQueuesIff` with `IsMarkerIff` for any non-marker key).
- The `onPressLetter` callback is called at once during the press, before
  the deferred selection update runs (`PressWithMatch`: the callback is
  logged while the selection is still the old one).
- Deferred updates are not cancelled by newer ones. Every queued update
  runs, in order, so the last one queued is the one that stays
  (`SettleSelectsLast`).
- The guard of the visibility transition compares the letter with the
  selection already in effect, not with the pending updates. A visibility
  event that arrives between a press and the settle, with a different top
  letter, is queued after the pressed letter and wins
  (`VisibleDuringScrollOverridesPress`).
- The callback is read from the top-level `onPressLetter` prop
  (`index.js:90`), although the prop types declare it inside
  `alphabetListProps` (`index.js:32`). `Props.hasOnPressLetter` stands for the
  top-level prop.

## Model

| member | source | states |
|---|---|---|
| `Keys.Upper` | index.js:78 | ASCII `toUpperCase`: the result is never a lower-case letter, a lower-case letter maps to the upper-case letter at the same alphabet position, every other character is kept |
| `Keys.KeySource` | index.js:71-77 | the key source is absent exactly when a field name is configured and the item lacks that field or has it empty; otherwise it is a non-empty string: the field value, or the item itself when no field name is configured |
| `Keys.KeyOf` | index.js:138-146 | the derived key is absent exactly in the missing-field case; otherwise it is the first character of the item (no field name) or of the configured field, upper-cased, and so never a lower-case letter |
| `Keys.FindIndex` | index.js:70 | `findIndex`: the result is -1 or a valid index whose element satisfies the predicate; no element before it satisfies the predicate, and none at all does when the result is -1 |
| `Keys.Matches` | index.js:70-79 | the `findIndex` callback of a press: an item lacking the configured field never matches, a matched letter is never lower-case, and without a field name a string item matches exactly its upper-cased initial (both directions); `MatchIndex` states the search built on it |
| `Keys.MatchIndex` | index.js:70-79 | the press search returns the least index whose key equals the pressed letter; every earlier item has another key or lacks the field; the result is -1 exactly when no item matches, including for empty data |
| `Keys.MissingFieldIndices` | index.js:71-75 | the indices below `n` of items lacking the configured field, strictly ascending, each exactly once; none when no field name is configured |
| `Keys.PressWarnings` | index.js:71-75 | a press warns about exactly the items it visits (up to and including the match, or all items) that lack the configured field, listed in strictly ascending order so each is warned about once; never when no field name is configured |
| `Markers.UpperAll` | index.js:59 | upper-casing a string keeps its length, leaves no lower-case letter, upper-cases each letter in place and keeps every other character |
| `Markers.AlphabetList` | index.js:59 | the marker list has 27 entries |
| `Markers.AlphabetListAt` | index.js:59 | position `i` < 26 holds the letter `A` + i, and position 26 holds `#` |
| `Markers.AlphabetListExact` | index.js:59-62 | the marker list is exactly `ABCDEFGHIJKLMNOPQRSTUVWXYZ#`, and its first element, the initial selection, is `A` |
| `Markers.AlphabetListDistinct` | index.js:59 | no marker occurs twice |
| `Markers.IsMarker` | index.js:147-149 | the marker lookup succeeds only for a member of the marker list; `IsMarkerIff` gives the converse and the exact set |
| `Markers.IsMarkerIff` | index.js:147-150 | the marker lookup of a visibility event succeeds exactly for `A`..`Z` and `#`, that is exactly for members of the list |
| `Selection.Initial` | index.js:57-63 | after construction `A` is selected, it is a marker, nothing is queued, and no scroll, callback or warning has happened |
| `Selection.Press` | index.js:66-91 | a press never changes the selection directly; it queues the pressed letter or nothing, and queues it exactly when some item matches; it never takes back a warning. `PressWithMatch`, `PressWithoutMatch` and `MissingFieldSkipped` give the full outputs |
| `Selection.Visible` | index.js:131-157 | a visibility event never changes the selection, scrolls or callbacks; it either leaves the queue alone or appends one letter that is a marker other than the current selection. `VisibleQueuesIff` gives the exact condition |
| `Selection.Settle` | index.js:87-89 | settling runs every deferred update in order: the queue is emptied, the last queued letter is selected (the old selection stays when nothing was queued), and the logs are unchanged; `SettleSelectsLast` proves this of the in-order drain `ApplyAll` |
| `Selection.SettleSelectsLast` | index.js:87-89 | running the queued updates in order leaves the last queued letter selected, or the selection unchanged when nothing was queued |
| `Selection.PressWithoutMatch` | index.js:80 | a press that matches no item is a no-op apart from its warnings: no scroll, nothing queued, no callback, selection unchanged; with empty data it changes nothing at all |
| `Selection.PressWithMatch` | index.js:71-90 | a press whose first match is item `k` issues exactly one scroll to `k` with view position 0.1, animated; queues the letter; calls the callback once with the letter if it is given; warns once per visited item lacking the field; leaves the selection alone until settle, after which the letter is selected |
| `Selection.MissingFieldSkipped` | index.js:70-85 | an item lacking the field that comes before the first match is warned about, the press's warning count grows, and the scan still finds and scrolls to that match |
| `Selection.VisibleOnlyQueues` | index.js:131-157 | a visibility event never scrolls, never calls the callback and never changes the selection directly; it warns exactly once when the top item lacks the configured field, and otherwise not at all |
| `Selection.VisibleQueuesIff` | index.js:131-157 | a visibility event queues the top item's letter exactly when there is a top item, it has the field, its letter is a marker, and that letter differs from the selection; otherwise the queue is unchanged |
| `Selection.VisibleThenSettle` | index.js:150-155 | a queued visible letter is the selection after settle |
| `Selection.PressKeepsInv` | index.js:118 | a press of a marker keeps the selection and every queued letter within the marker list |
| `Selection.VisibleKeepsInv` | index.js:146-155 | a visibility event keeps the selection and every queued letter within the marker list |
| `Selection.SettleKeepsInv` | index.js:87-89 | settling keeps the selection within the marker list |
| `Selection.ExactlyOneSelected` | index.js:93-113 | while the selection is a marker, exactly one position of the marker list passes the "is selected" test of the style setters |
| `Selection.PressSettleVisibleStable` | index.js:131-157 | after a matched press and a settle, a visibility event for the scrolled-to item changes neither selection nor queue, so the pressed letter stays selected |
| `Selection.VisibleDuringScrollOverridesPress` | index.js:150-155 | a visibility event between a press and its settle, showing another letter than the selection, queues after the pressed letter and is the selection after settle |
| `Selection.RunKeepsInv` | index.js:66-157 | over any trace of presses on markers, visibility events and settles, the selection and every queued letter stay within the marker list |
| `Selection.OnlyPressesScroll` | index.js:66-157 | over any trace, scroll commands and callback calls are only appended, at most one of each per press, so visibility events and settles never scroll or call back |
| `Selection.ReachableOneSelected` | index.js:93-113 | in every state reachable from construction, exactly one marker is drawn selected |
| `Selection.DigitItemMatchesNoMarker` | index.js:143-150 | an item whose key source (the item, or its configured field) starts with a digit derives that digit, which is not a marker; no marker press matches it, and a visibility event with it on top leaves the state unchanged |
| `Selection.HashKeyIff` | index.js:77-78 | an item derives the key `#` exactly when its key source starts with `#` |
| `Selection.KeyIgnoresCase` | index.js:77-78 | with or without a field name, an item whose key source starts with a lower-case letter derives the same key as one starting with its upper-case form, and the two match the same presses |
| `Selection.PressScenario` | index.js:66-91 | with items Apple, Banana, Cherry a press on `B` scrolls to index 1, keeps `A` until settle, then selects `B` |
| `Selection.VisibleScenario` | index.js:131-157 | with Cherry on top and `A` selected, `C` is queued without a scroll and is selected after settle |
| `Selection.MissingFieldScenario` | index.js:70-80 | with `matchFieldName` "name" an item `{name: "Apple"}` matches `A` at index 0; an item without the field causes one warning and no match |
| `Component.AlphabetFlatList.constructor` | index.js:57-64 | the marker list is `A`..`Z` then `#`, `A` is selected, nothing is queued or issued |
| `Component.AlphabetFlatList.OnPressLetter` | index.js:66-91 | the new state is the press transition of the old one, and the selection stays a marker |
| `Component.AlphabetFlatList.OnViewableItemsChanged` | index.js:131-157 | the new state is the visibility transition of the old one, and the selection stays a marker |
| `Component.AlphabetFlatList.Settle` | index.js:87-89 | draining the queue in order gives the settle transition of the old state |
| `Component.AlphabetFlatList.AlphabetTextStyle` | index.js:93-102 | the text style array is either the selected pair (sheet and prop override) or the plain pair; the selected pair goes exactly to the letter equal to `selectedLetter`, which is a letter of the marker list |
| `Component.AlphabetFlatList.AlphabetButtonStyle` | index.js:104-113 | the button style array always starts with the sheet's button style, followed by the selected or the plain prop override; the selected override goes exactly to the letter equal to `selectedLetter`, which is a letter of the marker list |
| `Component.AlphabetFlatList.OneMarkerDrawnSelected` | index.js:93-113 | exactly one button of the alphabet list gets the selected text styles, namely the one whose letter is `selectedLetter`, and the same button, and only it, gets the selected button override |

## Left out

- Rendering: `render`, `renderAlphabetItem` and the values in the style
  sheet. The style setters return which entries they combine (`StyleRef`),
  not the style values themselves.
- Prop plumbing: `propTypes`, `defaultProps`, `keyExtractor`,
  `alphabetKeyExtractor`, `viewabilityConfig` and `getItemLayout`. Which
  items count as visible is decided by FlatList, an external library. The
  visible items are an input, and their `index` is carried but unused, as
  in the source.
- Timing of `InteractionManager`: the model has no asynchrony. A deferred
  update is an entry in the pending queue, and `Settle` runs all of them.
  A settle that runs only some of the queued updates is not modelled.
- Scroll animation and virtualisation: a scroll is a recorded
  `ScrollCommand` and nothing else. The `_mainList` reference being unset
  before mounting is not modelled.
- `console.warn`: only the number of calls is kept, not the message.
- Case mapping beyond ASCII: only `a`..`z` are upper-cased. `item[0]` is a
  whole character here, not a UTF-16 code unit.
- `matchFieldName === true`, non-string field values, and string
  properties read through a field name. A plain-string item read through a
  field name counts as lacking the field.
- `matchFieldName` given as the empty string behaves like no field name, as
  in JavaScript. That case is modelled (`UsesField`).
- Component.AlphabetFlatList.OnPressLetter: requires every data item to be
  readable (`PropsDefined`). The source only reads the items up to the first
  match, so a later unreadable item would not crash it. Reading an empty
  string item, or a record, without a field name crashes the source; those
  crash paths are not modelled.
- Component.AlphabetFlatList.OnPressLetter: requires the pressed letter to be
  a marker. In the source each button is bound to its own marker, so no other
  letter reaches the handler.
- Component.AlphabetFlatList.OnViewableItemsChanged: requires the top visible
  item to be readable (`TopDefined`), for the same crash paths.
- The callback's own effects are outside the model; only its calls are
  recorded.

# Collection-point screen of the Ecoleta mobile app, in Dafny

The mobile app's points screen (`mobile/src/pages/Points/index.tsx`) shows
recycling collection points on a map and a row of category chips. The user
taps chips to filter by category. This project models that screen's state
and the category-selection toggle, and proves what they promise.

- `selection.dfy`, module `Selection`: the toggle behind a chip tap
  (`handleSelectItem`). It is built from `findIndex` and `filter` as pure
  functions on `seq<int>`. The module also holds lemmas about membership,
  order, duplicates, length, double taps and runs of taps.
- `points_screen.dfy`, module `PointsPage`: the screen as a class
  `PointsScreen`. Its four React state fields are `items`, `selectedItems`,
  `initialPosition` (named `initilPosition` in the source) and `points`.
  There is one method per event that overwrites them: categories loaded,
  permission answered, points loaded and chip tapped. The module also has
  the derived render facts: which chips are highlighted, and whether the
  map and markers are shown.

The class keeps two ghost fields that the app does not have.
`requests` logs every `GET /points` request the screen's effect issues. The
effect runs on mount and again whenever `selectedItems` is replaced.
`located` records that a granted permission stored a position. The class
invariant `Valid()` promises four things:
- `selectedItems` never holds a duplicate.
- The position stays at `[0, 0]` until permission is granted.
- Every request carries the route's city and state.
- The latest request carries the current selection.

Network responses, the permission status and the device coordinates are
method parameters. Coordinates are `real` values. Only the latitude is ever
compared, against 0.

Three behaviours of the code are worth knowing:
- The selection is a list, not a set. A tap removes every occurrence of a
  present id (`filter`) or appends an absent one at the end, so order is
  observable and a double tap on a selected id moves it to the end
  (`ToggleTwicePresent`).
- The categories request has no rejection handler, so a failure is an event
  that never arrives, and no method models it.
- The map gate is `initilPosition[0] !== 0`, so a device reporting latitude
  exactly 0 is never shown the map, even with permission granted
  (`LoadPosition`). Inside the gate, `loadingEnabled={initilPosition[0] === 0}`
  is always false.

## Model

| member | source | states |
|---|---|---|
| `Selection.FindIndex` | mobile/src/pages/Points/index.tsx:81 | the result is -1 exactly when the id is absent; otherwise it is the index of the first occurrence |
| `Selection.RemoveAll` | mobile/src/pages/Points/index.tsx:84 | the filtered list has no occurrence of the id, keeps exactly the other ids as members, and is no longer than the input |
| `Selection.Toggle` | mobile/src/pages/Points/index.tsx:80-89 | after a tap the id is a member exactly when it was not before; every other id keeps its membership; the list always changes, so the points effect always re-runs |
| `Selection.RemoveAllIsSubsequence` | mobile/src/pages/Points/index.tsx:84 | the filtered list is a subsequence of the input: the remaining elements keep their order |
| `Selection.RemoveAllMultiset` | mobile/src/pages/Points/index.tsx:84 | the filtered list holds every other element as many times as the input did, and the id not at all |
| `Selection.RemoveAllUnique` | mobile/src/pages/Points/index.tsx:84 | any order-preserving subsequence with exactly those elements equals the filtered list, so filtering is fully characterised |
| `Selection.RemoveAllAbsent` | mobile/src/pages/Points/index.tsx:84 | filtering out an id that is absent returns the list unchanged |
| `Selection.RemoveAllConcat` | mobile/src/pages/Points/index.tsx:84 | filtering a concatenation filters each part |
| `Selection.RemoveAllNoDuplicates` | mobile/src/pages/Points/index.tsx:84 | on a duplicate-free list, filtering keeps it duplicate-free and shortens it by one exactly when the id was present |
| `Selection.ToggleOthersUnchanged` | mobile/src/pages/Points/index.tsx:80-89 | once the tapped id is erased from both, the new selection equals the old one: no other id changes membership, multiplicity or relative order |
| `Selection.ToggleAbsentAppends` | mobile/src/pages/Points/index.tsx:86-88 | tapping an absent id gives the old list with the id appended at the end |
| `Selection.TogglePresentRemoves` | mobile/src/pages/Points/index.tsx:83-85 | tapping a present id removes every occurrence of it; the rest is an order-preserving subsequence holding all other elements |
| `Selection.ToggleNoDuplicates` | mobile/src/pages/Points/index.tsx:80-89 | on a duplicate-free selection a tap keeps it duplicate-free and changes its length by exactly one, down when present and up when absent |
| `Selection.ToggleTwiceAbsent` | mobile/src/pages/Points/index.tsx:86-88 | tapping an absent id twice restores the original list exactly |
| `Selection.ToggleTwicePresent` | mobile/src/pages/Points/index.tsx:83-88 | tapping a present id twice restores the same members, with the id moved to the end; on a duplicate-free list the multiset is restored |
| `Selection.ToggleAllParity` | mobile/src/pages/Points/index.tsx:80-89 | after any run of taps an id is selected iff its initial membership differs from the parity of its tap count |
| `Selection.ToggleAllNoDuplicates` | mobile/src/pages/Points/index.tsx:80-89 | a selection that starts empty (line 37) and changes only by taps never contains a duplicate |
| `Selection.ToggleAll` | mobile/src/pages/Points/index.tsx:80-89 | defines the selection after a run of taps, one `handleSelectItem` per id in order; each tap adds at most one element, and `ToggleAllParity` (membership by tap-count parity, so an id never tapped keeps its membership) and `ToggleAllNoDuplicates` pin down the rest |
| `PointsPage.PointsQuery` | mobile/src/pages/Points/index.tsx:70-74 | defines the points request's parameters: city and uf from the route, `items` the selection; `PointsScreen.Valid`'s last-request clause ties it to the current selection |
| `PointsPage.ShowsMap` | mobile/src/pages/Points/index.tsx:108 | defines the map gate, a non-zero stored latitude; it is never open at the initial position `[0, 0]` |
| `PointsPage.PointsScreen.Valid` | mobile/src/pages/Points/index.tsx:37-78 | the screen invariant: the selection has no duplicates, the position is `[0, 0]` until a permission is granted, every issued request carries the route's city and uf, and the latest carries the current selection; under it the map is shown only after a grant |
| `PointsPage.PointsScreen.MapShown` | mobile/src/pages/Points/index.tsx:108 | whether the map is rendered; true only away from the initial position; `LoadPosition` states how it changes |
| `PointsPage.PointsScreen.Markers` | mobile/src/pages/Points/index.tsx:108-133 | the rendered markers: exactly the points while the map is shown, and none otherwise |
| `PointsPage.PointsScreen.ChipSelected` | mobile/src/pages/Points/index.tsx:146 | whether a category's chip is highlighted; it agrees with the `selected` flag of that category's rendered chip |
| `PointsPage.PointsScreen.Chips` | mobile/src/pages/Points/index.tsx:140-153 | the rendered chips: one per category in order, with its id and title, highlighted iff its id is in `selectedItems` (from `ChipsOf`) |
| `PointsPage.ChipsOf` | mobile/src/pages/Points/index.tsx:140-153 | one chip per category in received order, with its id, title and icon; a chip is highlighted iff its id is in the selection (line 146) |
| `PointsPage.PointsScreen.constructor` | mobile/src/pages/Points/index.tsx:36-39 | on mount, categories, selection and points are empty and the position is `[0, 0]`; the points effect issues one request with the route's region and the empty selection |
| `PointsPage.PointsScreen.ItemsLoaded` | mobile/src/pages/Points/index.tsx:42-46 | the categories response replaces the category list wholesale; nothing else changes |
| `PointsPage.PointsScreen.LoadPosition` | mobile/src/pages/Points/index.tsx:48-67 | a status other than "granted" leaves the state unchanged; "granted" stores the coordinates; afterwards the map is shown iff the stored latitude is non-zero, and only once a position was granted |
| `PointsPage.PointsScreen.PointsLoaded` | mobile/src/pages/Points/index.tsx:69-78 | a points response replaces the previous points wholesale; nothing else changes |
| `PointsPage.PointsScreen.HandleSelectItem` | mobile/src/pages/Points/index.tsx:80-89 | the selection becomes its toggle; the chip's highlight flips; the length moves by one; exactly one new request is issued, with the route's city and state and the new selection; nothing else changes |
| `PointsPage.DeniedPermission` | mobile/src/pages/Points/index.tsx:52-55 | after a refused permission the map is not rendered and no marker is shown, whatever the device would report |
| `PointsPage.LampChip` | mobile/src/pages/Points/index.tsx:140-148 | with one category loaded, its chip starts unselected, one tap selects it, a second tap unselects it; the two requests carry `[1]` and then `[]` |

## Left out

- The HTTP client (`api.get`), its `.then` callbacks and the axios service are not modelled. Responses only arrive as arguments of `ItemsLoaded` and `PointsLoaded`. A failed request is an event that never arrives.
- How the selection is serialised into the query string is not modelled. That belongs to the HTTP library; the model keeps the request's parameters as a record.
- The order in which overlapping points requests complete is not modelled. `PointsLoaded` accepts any response at any time, and the screen does not know which request the response answers.
- `Location.requestPermissionsAsync`, `Location.getCurrentPositionAsync` and `Alert.alert` are device APIs. Only their outcomes (a status string and a position) are modelled. The alert on refusal is not.
- The model allows the permission answer to arrive any number of times. The screen receives it once per mount.
- Navigation (`goBack`, navigating to the detail screen), map, marker, SVG and emoji rendering, and the style sheet are not modelled. They are user-interface code.
- Ids are modelled as mathematical integers. NaN, -0 and non-integer ids are not modelled.
- `getCurrentPositionAsync` can fail after the permission is granted. That failure is also an event that never arrives: `LoadPosition` is not called, and the state keeps its `[0, 0]` position.
- Coordinates are opaque `real` values. Floating-point behaviour (NaN, negative zero) is not modelled.
- `server/src/database/migrations/00_create_points.ts` is a static schema declaration with no logic of its own. It is not part of this model.

# Presentation state of a terminal music player, in Dafny

This project models the UI-state core of `spotify_player`
(`spotify_player/src/state/ui.rs`): the state the renderer reads and the input
handler changes on every key press. It has five parts:

- **The artist focus ring** (`Focus`). `ArtistFocusState` is a three-state ring:
  TopTracks → Albums → RelatedArtists → TopTracks. `next` and `previous` walk it.
  `Ring` and `Position` give a reference definition as an ordered list with
  index arithmetic. The transition table is proved to follow it.
- **The window** (`Window`). `WindowState` is `Unknown`, a playlist or album
  track table, or the artist view. The artist view has three independent
  cursors and a focus.
  - `select`/`selected` go to the cursor that the variant picks and, for the
    artist view, the cursor that the focus picks.
  - `next`/`previous` move the focus of the artist view and leave every other
    window alone.
  - `get_track_table_state` gives out a mutable handle. It is modelled as a read
    (`TrackTableState`) plus a write-back (`WithTrackTableState`).
- **The popup** (`Popup`). `PopupState` has seven variants. Four of them show a
  list and own a list cursor. `get_list_state(_mut)`, `list_selected` and
  `list_select` are modelled the same way as the window's handle.
- **The search filter** (`Search`):
  - `query_match` folds `&` over the query split on `' '`, testing
    `str::contains` for each piece. The Rust `&` evaluates both sides, unlike
    `&&`; `contains` has no side effects, so the value is the same.
  - `get_search_filtered_items` keeps the items whose lower-cased display text
    matches the query of an open search popup.
- **The aggregate** (`UI`). Class `UIState` has all fields of the Rust struct except
  `progress_bar_rect`.
  - `Default` is `UIState::default()`.
  - The in-place updates `window.select`, `window.next`, `window.previous` and
    `popup.list_select` are methods. Each one changes only its own field, and
    each is proved against the pure function of the same name in `Window` or
    `Popup`.
  - `SearchFilteredItems` reads the popup.

The widget library's `ListState` and `TableState` are represented by their
selected row only (`Tui`). Identifiers of type `usize` are `nat`.

Points where the model follows the code closely:

- `query_match` splits on the space character only, not on all whitespace, so
  a tab stays inside a token.
- `get_search_filtered_items` lower-cases the item text but not the query. A
  query token with an upper-case letter therefore matches nothing
  (`Search.UppercaseTokenMatchesNothing`, `UI.UppercaseQueryFindsNothing`).
- This file has no page push or pop operations; it only declares the `page`
  and `history` fields and their default.

## Model

| member | source | states |
|---|---|---|
| Focus.ArtistFocusState.Next | spotify_player/src/state/ui.rs:211-235 | `next` moves one place forward on the ring (position + 1 modulo 3) and never stays put |
| Focus.ArtistFocusState.Previous | spotify_player/src/state/ui.rs:219-235 | `previous` moves one place back on the ring (position + 2 modulo 3) and never stays put |
| Focus.PreviousUndoesNext | spotify_player/src/state/ui.rs:208-235 | `previous` after `next` and `next` after `previous` both return the starting focus |
| Focus.AdvanceFollowsRing | spotify_player/src/state/ui.rs:230-235 | n calls of `next` move n places along TopTracks, Albums, RelatedArtists, wrapping around |
| Focus.AdvanceReturnsIff | spotify_player/src/state/ui.rs:230-235 | n calls of `next` return to the start exactly when n is a multiple of 3, so three calls are the identity |
| Focus.PreviousIsTwoSteps | spotify_player/src/state/ui.rs:208-235 | one `previous` equals two `next`s |
| Window.TrackTableState | spotify_player/src/state/ui.rs:150-157 | the track table handle is absent exactly for `Unknown`; for the artist view it is the top-tracks table whatever the focus |
| Window.WithTrackTableState | spotify_player/src/state/ui.rs:150-157 | writing through the handle sets that table only; variant, focus and the other artist cursors stay; `Unknown` is unchanged |
| Window.TrackTableLens | spotify_player/src/state/ui.rs:150-157 | writing back what the handle read changes nothing; a write is read back; writing twice is writing once |
| Window.Selected | spotify_player/src/state/ui.rs:179-191 | `selected` is none for `Unknown`, the table's selection for playlist/album, and the focused pane's selection for the artist view |
| Window.Select | spotify_player/src/state/ui.rs:160-176 | after `select(id)`, `selected` reports `id` (none for `Unknown`, which is unchanged); variant and focus stay; in the artist view the unfocused panes keep their cursors |
| Window.Next | spotify_player/src/state/ui.rs:194-199 | non-artist windows are unchanged; the artist view moves its focus forward and keeps all three cursors |
| Window.Previous | spotify_player/src/state/ui.rs:201-205 | non-artist windows are unchanged; the artist view moves its focus back and keeps all three cursors |
| Window.NextPreviousInverse | spotify_player/src/state/ui.rs:194-206 | window `previous` undoes window `next` and vice versa, for every variant |
| Window.NextThriceIsIdentity | spotify_player/src/state/ui.rs:194-206 | three window `next`s, or three `previous`es, give back the same window |
| Window.SelectThenSelected | spotify_player/src/state/ui.rs:160-191 | for playlist, album and artist windows, `select(id)` then `selected()` gives `id`, for a position and for none |
| Window.FocusRevealsOwnCursor | spotify_player/src/state/ui.rs:165-189 | after a selection in the artist view, moving the focus shows that pane's own earlier selection; moving back shows the new one |
| Window.SelectedReadsTrackTable | spotify_player/src/state/ui.rs:150-191 | for playlist and album windows, and for the artist view focused on top tracks, `selected` is the track table handle's selection |
| Window.SelectLastWins | spotify_player/src/state/ui.rs:160-176 | of two successive selections only the last one counts |
| Popup.GetListState | spotify_player/src/state/ui.rs:110-118 | a list cursor exists exactly for the device, playlist, artist and theme lists, and it is the cursor that popup stores |
| Popup.WithListState | spotify_player/src/state/ui.rs:121-129 | writing through the mutable list handle sets the cursor and keeps the variant, query and items; a popup without a list is unchanged |
| Popup.ListStateLens | spotify_player/src/state/ui.rs:110-129 | writing back what the list handle read changes nothing; writing twice is writing once |
| Popup.ListSelected | spotify_player/src/state/ui.rs:132-137 | `list_selected` is none without a list, else the list cursor's selection |
| Popup.ListSelect | spotify_player/src/state/ui.rs:140-145 | after `list_select(id)`, `list_selected` reports `id` for the four list popups and none otherwise; the variant and the artist/theme items are never modified; other popups are unchanged |
| Popup.ListSelectThenSelected | spotify_player/src/state/ui.rs:131-145 | round trip `list_select(id)` then `list_selected()` gives `id` for every list popup |
| Popup.ListSelectLaws | spotify_player/src/state/ui.rs:131-145 | re-selecting the current selection changes nothing; of two selections the last wins |
| Search.ToLower | spotify_player/src/state/ui.rs:84 | lower-casing a character leaves no upper-case letter, shifts `A`-`Z` to `a`-`z` and keeps everything else |
| Search.Lowercase | spotify_player/src/state/ui.rs:84 | lower-casing keeps the length, works character by character and leaves no upper-case letter |
| Search.LowercaseIdempotent | spotify_player/src/state/ui.rs:84 | lower-casing twice equals lower-casing once |
| Search.Split | spotify_player/src/state/ui.rs:72 | `split(' ')` yields at least one piece, no piece holds a space, and joining the pieces with spaces gives the query back |
| Search.SplitJoin | spotify_player/src/state/ui.rs:72 | splitting undoes joining for pieces without the separator |
| Search.JoinInjective | spotify_player/src/state/ui.rs:72 | separator-free pieces are determined by their join, so the split is unique |
| Search.SplitAtSeparator | spotify_player/src/state/ui.rs:72 | the split of `a + " " + b` is the split of `a` followed by the split of `b` |
| Search.Contains | spotify_player/src/state/ui.rs:73 | `str::contains` as a scan from the left: a prefix is found, and a token longer than the text is not; `ContainsIff` gives the result exactly |
| Search.ContainsIff | spotify_player/src/state/ui.rs:73 | `contains` holds exactly when the token occurs at some position of the text |
| Search.AbsentCharacterNotContained | spotify_player/src/state/ui.rs:73 | a token holding a character the text lacks is not contained in it |
| Search.NoUpperContainsNoUpper | spotify_player/src/state/ui.rs:73 | text without upper-case letters contains no token that has one |
| Search.MatchFold | spotify_player/src/state/ui.rs:71-73 | the `&` fold: when true, the start value held and every token is contained; `MatchFoldAll` gives the converse |
| Search.MatchFoldAll | spotify_player/src/state/ui.rs:71-73 | the fold starting from `acc` is true exactly when `acc` holds and every token is contained |
| Search.QueryMatch | spotify_player/src/state/ui.rs:70-74 | `query_match` holds exactly when every space-separated token of the query is contained in the text |
| Search.EmptyQueryMatchesAll | spotify_player/src/state/ui.rs:70-74 | the empty query matches every text |
| Search.OnlyNonEmptyTokensMatter | spotify_player/src/state/ui.rs:70-74 | only the non-empty tokens constrain a match; empty tokens from repeated, leading or trailing spaces do not |
| Search.QueryConjunction | spotify_player/src/state/ui.rs:70-74 | `q1 q2` matches exactly when both `q1` and `q2` match, so token order does not matter and a leading space changes nothing |
| Search.UppercaseTokenMatchesNothing | spotify_player/src/state/ui.rs:70-84 | a query token with an upper-case letter matches no lower-cased text |
| Search.QueryMatchOccurs | spotify_player/src/state/ui.rs:70-74 | a text matches a query exactly when every space-separated token of the query occurs in it at some position |
| Search.Matcher | spotify_player/src/state/ui.rs:84 | the filter's test accepts an item exactly when every space-separated token of the query occurs at some position of the item's lower-cased display text |
| Search.Filter | spotify_player/src/state/ui.rs:82-85 | the filter returns no more items than it gets, only accepted items, and every accepted item |
| Search.FilterSelectsInOrder | spotify_player/src/state/ui.rs:82-85 | the result is the items at exactly the accepted positions, in increasing order, so it is an order-preserving sub-sequence |
| Search.FilterAppend | spotify_player/src/state/ui.rs:82-85 | filtering a concatenation concatenates the filtered parts |
| Search.FilterIdempotent | spotify_player/src/state/ui.rs:82-85 | filtering the result again changes nothing |
| Search.FilterAcceptingAll | spotify_player/src/state/ui.rs:82-85 | a test that accepts every item returns the items unchanged |
| Search.FilterRejectingAll | spotify_player/src/state/ui.rs:82-85 | a test that rejects every item returns nothing |
| UI.UIState.Default | spotify_player/src/state/ui.rs:91-105 | the default state is running, with the default theme, no pending keys, the default page, a history of exactly that one page, no popup and an `Unknown` window |
| UI.UIState.WindowSelect | spotify_player/src/state/ui.rs:160-176 | `window.select(id)` changes only the window field, to `Window.Select` of its old value, and keeps the history invariant `Valid` |
| UI.UIState.WindowNext | spotify_player/src/state/ui.rs:194-199 | `window.next()` changes only the window field, to `Window.Next` of its old value, and keeps the history invariant `Valid` |
| UI.UIState.WindowPrevious | spotify_player/src/state/ui.rs:201-205 | `window.previous()` changes only the window field, to `Window.Previous` of its old value, and keeps the history invariant `Valid` |
| UI.UIState.PopupListSelect | spotify_player/src/state/ui.rs:140-145 | `popup.list_select(id)` changes only the popup field, to `Popup.ListSelect` of its old value, and keeps the history invariant `Valid` |
| UI.UIState.SearchFilteredItems | spotify_player/src/state/ui.rs:77-88 | without a search popup all items come back in order; with one the result is the matching items, in order, and every matching item |
| UI.UppercaseQueryFindsNothing | spotify_player/src/state/ui.rs:77-88 | with a search query holding an upper-case token, no item is kept |
| UI.EmptyQueryKeepsAll | spotify_player/src/state/ui.rs:77-88 | with an empty search query all items come back in order |
| UI.SingleTokenExample | spotify_player/src/state/ui.rs:77-88 | query `punk` over "Daft Punk", "Gorillaz", "Punk Rock" keeps "Daft Punk" and "Punk Rock" |
| UI.TwoTokenExample | spotify_player/src/state/ui.rs:77-88 | query `abbey road` over "Abbey Road", "Road Trip", "Abbey Lane" keeps only "Abbey Road" |

## Left out

- The `UIStateGuard` alias (ui.rs line 5) and the locking discipline. That is concurrency, not logic of this file.
- Page and history navigation (push, pop). This file only declares the `page` and `history` fields and their default. `UIState.Valid` states the history invariant that the default establishes and that the window and popup updates keep.
- `progress_bar_rect` (layout geometry) is not modelled.
- The theme and artist types are type parameters. The default theme (`config::Theme::default()`) is an argument of the constructor. `KeySequence` is a sequence of an uninterpreted key type.
- `ListState` and `TableState` hold only the selected row. Scroll offsets and other widget internals are left out.
- `usize` is modelled as unbounded `nat`. No index here is computed, so the 64-bit bound does not matter.
- `to_lowercase` is ASCII lower-casing. Unicode case mapping (which can change a string's length) is not modelled.
- `Display`/`to_string` is a `display` function passed to the filter. The formatting of artists and themes is not modelled.
- `get_search_filtered_items` returns references. The model returns the items themselves, in the same order.
- Search.Matcher and UI.UIState.SearchFilteredItems take item types without heap references (`T(!new)`), so that the matcher's contract can quantify over items. The filtered items are plain values here.
- `get_list_state_mut` and `get_track_table_state` return mutable borrows. The model reads the cursor and writes it back with `WithListState` and `WithTrackTableState`. A borrow that outlives one update is not modelled.
- Rendering, key handling and the fetching of popup item lists happen outside this file.

/** The popup drawn over the window: none, the command help, the search box
    with its query, or one of four lists, each with its own cursor (the artist
    and theme lists also hold the items they show). */
module Popup {
  import opened Tui

  datatype PopupState<Artist, Theme> =
    | None
    | CommandHelp
    | ContextSearch(query: string)
    | PlaylistList(playlists: ListState)
    | DeviceList(devices: ListState)
    | ArtistList(artists: seq<Artist>, artistsState: ListState)
    | ThemeList(themes: seq<Theme>, themesState: ListState)

  /** The popups that show a list, and so own a list cursor. */
  predicate IsList<Artist, Theme>(p: PopupState<Artist, Theme>)
  {
    p.PlaylistList? || p.DeviceList? || p.ArtistList? || p.ThemeList?
  }

  /** The popup has the same variant and, where it holds items, the same items. */
  ghost predicate SameShape<Artist, Theme>(p: PopupState<Artist, Theme>, p': PopupState<Artist, Theme>)
  {
    && p.None? == p'.None?
    && p.CommandHelp? == p'.CommandHelp?
    && p.ContextSearch? == p'.ContextSearch?
    && p.PlaylistList? == p'.PlaylistList?
    && p.DeviceList? == p'.DeviceList?
    && p.ArtistList? == p'.ArtistList?
    && p.ThemeList? == p'.ThemeList?
    && (p.ContextSearch? ==> p.query == p'.query)
    && (p.ArtistList? ==> p.artists == p'.artists)
    && (p.ThemeList? ==> p.themes == p'.themes)
  }

  /** The cursor of the current list popup; none for the help, the search box
      and the absence of a popup. */
  function GetListState<Artist, Theme>(p: PopupState<Artist, Theme>): (r: Option<ListState>)
    ensures r.Some? <==> IsList(p)
    ensures p.DeviceList? ==> r == Some(p.devices)
    ensures p.PlaylistList? ==> r == Some(p.playlists)
    ensures p.ArtistList? ==> r == Some(p.artistsState)
    ensures p.ThemeList? ==> r == Some(p.themesState)
  {
    match p
    case DeviceList(state) => Some(state)
    case PlaylistList(state) => Some(state)
    case ArtistList(_, state) => Some(state)
    case ThemeList(_, state) => Some(state)
    case _ => Option.None
  }

  /** Writing a cursor back through the mutable handle of `get_list_state_mut`:
      the new cursor is read back, the variant and its items stay, and a popup
      without a list is left as it is. */
  function WithListState<Artist, Theme>(p: PopupState<Artist, Theme>, s: ListState): (r: PopupState<Artist, Theme>)
    ensures IsList(p) ==> GetListState(r) == Some(s)
    ensures !IsList(p) ==> r == p
    ensures SameShape(p, r)
  {
    match p
    case DeviceList(_) => DeviceList(s)
    case PlaylistList(_) => PlaylistList(s)
    case ArtistList(artists, _) => ArtistList(artists, s)
    case ThemeList(themes, _) => ThemeList(themes, s)
    case _ => p
  }

  /** The mutable handle and its write-back form a lens. */
  lemma ListStateLens<Artist, Theme>(p: PopupState<Artist, Theme>, s: ListState)
    ensures IsList(p) ==> WithListState(p, GetListState(p).value) == p
    ensures WithListState(WithListState(p, s), s) == WithListState(p, s)
  {
  }

  /** The selected position in the current list popup: none when the popup has no list. */
  function ListSelected<Artist, Theme>(p: PopupState<Artist, Theme>): (r: Option<nat>)
    ensures !IsList(p) ==> r.None?
    ensures IsList(p) ==> r == GetListState(p).value.selected
  {
    match GetListState(p)
    case None => Option.None
    case Some(state) => state.selected
  }

  /** Selecting a position in the current list popup: `list_selected` then
      reports it; the variant and the items it shows are untouched, and a popup
      without a list is left as it is. */
  function ListSelect<Artist, Theme>(p: PopupState<Artist, Theme>, id: Option<nat>): (r: PopupState<Artist, Theme>)
    ensures ListSelected(r) == if IsList(p) then id else Option.None
    ensures SameShape(p, r)
    ensures !IsList(p) ==> r == p
  {
    match GetListState(p)
    case None => p
    case Some(state) => WithListState(p, state.Select(id))
  }

  /** Round trip for the four list popups, for a position and for none. */
  lemma ListSelectThenSelected<Artist, Theme>(p: PopupState<Artist, Theme>, id: Option<nat>)
    requires IsList(p)
    ensures ListSelected(ListSelect(p, id)) == id
  {
  }

  /** Selecting what is already selected changes nothing; of two selections the last wins. */
  lemma ListSelectLaws<Artist, Theme>(p: PopupState<Artist, Theme>, a: Option<nat>, b: Option<nat>)
    ensures ListSelect(p, ListSelected(p)) == p
    ensures ListSelect(ListSelect(p, a), b) == ListSelect(p, b)
  {
    if IsList(p) {
      ListStateLens(p, GetListState(p).value);
    }
  }
}

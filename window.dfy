/** The main content window: nothing yet, a playlist's or an album's track
    table, or the composite artist view with three independent cursors and a
    focus that decides which of them selection commands reach. */
module Window {
  import opened Tui
  import opened Focus

  datatype WindowState =
    | Unknown
    | Playlist(tracks: TableState)
    | Album(tracks: TableState)
    | Artist(topTracks: TableState, albums: ListState, relatedArtists: ListState, focus: ArtistFocusState)

  /** The selection held by the artist view's cursor for pane `f`, whatever the current focus. */
  function PaneSelection(w: WindowState, f: ArtistFocusState): Option<nat>
    requires w.Artist?
  {
    match f
    case TopTracks => w.topTracks.selected
    case Albums => w.albums.selected
    case RelatedArtists => w.relatedArtists.selected
  }

  /** The window has the same variant and, for the artist view, the same focus. */
  predicate SameRoute(w: WindowState, w': WindowState)
  {
    && w.Unknown? == w'.Unknown?
    && w.Playlist? == w'.Playlist?
    && w.Album? == w'.Album?
    && w.Artist? == w'.Artist?
    && (w.Artist? ==> w.focus == w'.focus)
  }

  /** The track table the renderer drives: absent only for `Unknown`; for the
      artist view it is the top-tracks table, whatever the focus. */
  function TrackTableState(w: WindowState): (r: Option<TableState>)
    ensures r.None? <==> w.Unknown?
    ensures w.Artist? ==> r == Some(w.topTracks)
    ensures w.Playlist? || w.Album? ==> r == Some(w.tracks)
  {
    match w
    case Unknown => None
    case Playlist(state) => Some(state)
    case Album(state) => Some(state)
    case Artist(topTracks, _, _, _) => Some(topTracks)
  }

  /** Writing a table cursor back through the mutable handle of
      `get_track_table_state`: only that table changes. */
  function WithTrackTableState(w: WindowState, t: TableState): (r: WindowState)
    ensures w.Unknown? ==> r == w
    ensures !w.Unknown? ==> TrackTableState(r) == Some(t)
    ensures SameRoute(w, r)
    ensures w.Artist? ==> r.albums == w.albums && r.relatedArtists == w.relatedArtists
  {
    match w
    case Unknown => w
    case Playlist(_) => Playlist(t)
    case Album(_) => Album(t)
    case Artist(_, albums, relatedArtists, focus) => Artist(t, albums, relatedArtists, focus)
  }

  /** The handle and its write-back form a lens: writing back what was read
      changes nothing, and a write is read back. */
  lemma TrackTableLens(w: WindowState, t: TableState)
    ensures !w.Unknown? ==> WithTrackTableState(w, TrackTableState(w).value) == w
    ensures TrackTableState(WithTrackTableState(w, t)) == if w.Unknown? then None else Some(t)
    ensures WithTrackTableState(WithTrackTableState(w, t), t) == WithTrackTableState(w, t)
  {
  }

  /** The selected position in the window: the single table's cursor, or the
      cursor of the focused artist pane; nothing for `Unknown`. */
  function Selected(w: WindowState): (r: Option<nat>)
    ensures w.Unknown? ==> r.None?
    ensures w.Playlist? || w.Album? ==> r == w.tracks.selected
    ensures w.Artist? ==> r == PaneSelection(w, w.focus)
  {
    match w
    case Unknown => None
    case Playlist(state) => state.selected
    case Album(state) => state.selected
    case Artist(topTracks, albums, relatedArtists, focus) =>
      match focus
      case TopTracks => topTracks.selected
      case Albums => albums.selected
      case RelatedArtists => relatedArtists.selected
  }

  /** Selecting a position: `selected` then reports it (nothing for `Unknown`,
      which is left as it is); the variant and the focus stay, and in the
      artist view every pane but the focused one keeps its cursor. */
  function Select(w: WindowState, id: Option<nat>): (r: WindowState)
    ensures Selected(r) == if w.Unknown? then None else id
    ensures SameRoute(w, r)
    ensures w.Unknown? ==> r == w
    ensures w.Artist? ==> forall f :: f != w.focus ==> PaneSelection(r, f) == PaneSelection(w, f)
  {
    match w
    case Unknown => w
    case Playlist(state) => Playlist(state.Select(id))
    case Album(state) => Album(state.Select(id))
    case Artist(topTracks, albums, relatedArtists, focus) =>
      match focus
      case TopTracks => Artist(topTracks.Select(id), albums, relatedArtists, focus)
      case Albums => Artist(topTracks, albums.Select(id), relatedArtists, focus)
      case RelatedArtists => Artist(topTracks, albums, relatedArtists.Select(id), focus)
  }

  /** `Focusable::next` on the window: only the artist view has a focus to move;
      its three cursors are untouched. */
  function Next(w: WindowState): (r: WindowState)
    ensures !w.Artist? ==> r == w
    ensures w.Artist? ==> r.Artist? && r.focus == w.focus.Next()
    ensures w.Artist? ==> r.topTracks == w.topTracks && r.albums == w.albums && r.relatedArtists == w.relatedArtists
  {
    if w.Artist? then w.(focus := w.focus.Next()) else w
  }

  /** `Focusable::previous` on the window, the mirror image of `Next`. */
  function Previous(w: WindowState): (r: WindowState)
    ensures !w.Artist? ==> r == w
    ensures w.Artist? ==> r.Artist? && r.focus == w.focus.Previous()
    ensures w.Artist? ==> r.topTracks == w.topTracks && r.albums == w.albums && r.relatedArtists == w.relatedArtists
  {
    if w.Artist? then w.(focus := w.focus.Previous()) else w
  }

  /** `Previous` undoes `Next` and vice versa, on every window. */
  lemma NextPreviousInverse(w: WindowState)
    ensures Previous(Next(w)) == w
    ensures Next(Previous(w)) == w
  {
    if w.Artist? {
      PreviousUndoesNext(w.focus);
    }
  }

  /** Three focus moves bring every window back to where it was. */
  lemma NextThriceIsIdentity(w: WindowState)
    ensures Next(Next(Next(w))) == w
    ensures Previous(Previous(Previous(w))) == w
  {
  }

  /** Round trip: what is selected is what `selected` reports, for a position and for none. */
  lemma SelectThenSelected(w: WindowState, id: Option<nat>)
    requires !w.Unknown?
    ensures Selected(Select(w, id)) == id
  {
  }

  /** Cursor independence in the artist view: after a selection, moving the
      focus on shows that pane's own earlier selection, unaffected by it; moving
      back shows the new selection again. */
  lemma FocusRevealsOwnCursor(w: WindowState, id: Option<nat>)
    requires w.Artist?
    ensures Selected(Next(Select(w, id))) == Selected(Next(w))
    ensures Selected(Previous(Select(w, id))) == Selected(Previous(w))
    ensures Selected(Previous(Next(Select(w, id)))) == id
  {
    var r := Select(w, id);
    assert PaneSelection(r, w.focus.Next()) == PaneSelection(w, w.focus.Next());
    assert PaneSelection(r, w.focus.Previous()) == PaneSelection(w, w.focus.Previous());
    NextPreviousInverse(r);
  }

  /** The track table handle and `selected` agree for the single-table views
      and for the artist view focused on its top tracks. */
  lemma SelectedReadsTrackTable(w: WindowState)
    requires w.Playlist? || w.Album? || (w.Artist? && w.focus == TopTracks)
    ensures Selected(w) == TrackTableState(w).value.selected
  {
  }

  /** Selecting twice keeps only the last selection. */
  lemma SelectLastWins(w: WindowState, a: Option<nat>, b: Option<nat>)
    ensures Select(Select(w, a), b) == Select(w, b)
  {
  }
}

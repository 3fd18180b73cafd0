/** The aggregate UI state: running flag, theme, pending keys, the page and
    its history, the popup and the window. */
module UI {
  import opened Tui
  import opened Focus
  import opened Window
  import Popup
  import opened Search

  /** Where in the app's navigation the user is. */
  datatype PageState = Default | Browse(contextId: string)

  class UIState<Artist, Theme, Key> {
    var isRunning: bool
    var theme: Theme
    var inputKeySequence: seq<Key>
    var page: PageState
    var history: seq<PageState>
    var popup: Popup.PopupState<Artist, Theme>
    var window: WindowState

    /** The navigation history is never empty and starts at the default page. */
    ghost predicate Valid()
      reads this
    {
      |history| > 0 && history[0] == PageState.Default
    }

    /** `UIState::default()`: running, the given default theme, no pending
        keys, the default page with a one-entry history, no popup and no window
        content yet. */
    constructor Default(defaultTheme: Theme)
      ensures Valid()
      ensures isRunning && theme == defaultTheme && inputKeySequence == []
      ensures page == PageState.Default && history == [PageState.Default]
      ensures popup == Popup.PopupState.None && window == Unknown
    {
      isRunning := true;
      theme := defaultTheme;
      inputKeySequence := [];
      page := PageState.Default;
      history := [PageState.Default];
      popup := Popup.PopupState.None;
      window := Unknown;
    }

    /** `window.select(id)`, updating the routed cursor in place. */
    method WindowSelect(id: Option<nat>)
      modifies this`window
      ensures window == Window.Select(old(window), id)
      ensures Valid() <==> old(Valid())
    {
      match window {
        case Unknown =>
        case Playlist(state) =>
          window := Playlist(state.Select(id));
        case Album(state) =>
          window := Album(state.Select(id));
        case Artist(topTracks, albums, relatedArtists, focus) =>
          match focus {
            case TopTracks =>
              window := Artist(topTracks.Select(id), albums, relatedArtists, focus);
            case Albums =>
              window := Artist(topTracks, albums.Select(id), relatedArtists, focus);
            case RelatedArtists =>
              window := Artist(topTracks, albums, relatedArtists.Select(id), focus);
          }
      }
    }

    /** `window.next()`: moves the artist view's focus on; other windows stay. */
    method WindowNext()
      modifies this`window
      ensures window == Window.Next(old(window))
      ensures Valid() <==> old(Valid())
    {
      if window.Artist? {
        window := window.(focus := window.focus.Next());
      }
    }

    /** `window.previous()`: moves the artist view's focus back; other windows stay. */
    method WindowPrevious()
      modifies this`window
      ensures window == Window.Previous(old(window))
      ensures Valid() <==> old(Valid())
    {
      if window.Artist? {
        window := window.(focus := window.focus.Previous());
      }
    }

    /** `popup.list_select(id)`: through the mutable list handle, when there is one. */
    method PopupListSelect(id: Option<nat>)
      modifies this`popup
      ensures popup == Popup.ListSelect(old(popup), id)
      ensures Valid() <==> old(Valid())
    {
      var handle := Popup.GetListState(popup);
      match handle {
        case None =>
        case Some(state) =>
          popup := Popup.WithListState(popup, state.Select(id));
      }
    }

    /** `get_search_filtered_items`: with the search box open, the items whose
        lower-cased display text contains every token of its query, in their
        order; otherwise all items, in their order. */
    function SearchFilteredItems<T(!new)>(items: seq<T>, display: T -> string): (r: seq<T>)
      reads this
      ensures !popup.ContextSearch? ==> r == items
      ensures popup.ContextSearch? ==>
        forall x :: x in r ==> x in items && QueryMatch(Lowercase(display(x)), popup.query)
      ensures popup.ContextSearch? ==>
        forall x :: x in items && QueryMatch(Lowercase(display(x)), popup.query) ==> x in r
      ensures popup.ContextSearch? ==>
        exists idx :: SelectsInOrder(r, items, idx, Matcher(display, popup.query))
    {
      match popup
      case ContextSearch(query) =>
        FilterSelectsInOrder(items, Matcher(display, query));
        Filter(items, Matcher(display, query))
      case _ => items
    }
  }

  /** A search query token with an upper-case letter filters everything out:
      the items are lower-cased, the query is not. */
  lemma UppercaseQueryFindsNothing<Artist, Theme, Key, T(!new)>(
    ui: UIState<Artist, Theme, Key>, items: seq<T>, display: T -> string, t: string, j: int)
    requires ui.popup.ContextSearch? && t in Split(ui.popup.query, ' ')
    requires 0 <= j < |t| && IsUpper(t[j])
    ensures ui.SearchFilteredItems(items, display) == []
  {
    forall x | x in items
      ensures !Matcher(display, ui.popup.query)(x)
    {
      UppercaseTokenMatchesNothing(display(x), ui.popup.query, t, j);
    }
    FilterRejectingAll(items, Matcher(display, ui.popup.query));
  }

  /** An empty search box keeps every item, in order. */
  lemma EmptyQueryKeepsAll<Artist, Theme, Key, T(!new)>(
    ui: UIState<Artist, Theme, Key>, items: seq<T>, display: T -> string)
    requires ui.popup == Popup.PopupState.ContextSearch("")
    ensures ui.SearchFilteredItems(items, display) == items
  {
    forall x | x in items
      ensures Matcher(display, "")(x)
    {
      EmptyQueryMatchesAll(Lowercase(display(x)));
    }
    FilterAcceptingAll(items, Matcher(display, ""));
  }

  /** `Display` of a string: the string itself. */
  function ShowString(s: string): string
  {
    s
  }

  /** A single-token query matches text in which the token occurs. */
  lemma SingleTokenMatch(s: string, token: string, i: int)
    requires ' ' !in token && OccursAt(s, token, i)
    ensures QueryMatch(s, token)
  {
    SplitPiece(token, ' ');
    OccurrenceFound(s, token, i);
  }

  /** A query fails on text that lacks one character of one of its tokens. */
  lemma TokenCharacterMissing(s: string, query: string, token: string, j: int)
    requires token in Split(query, ' ') && 0 <= j < |token| && token[j] !in s
    ensures !QueryMatch(s, query)
  {
    AbsentCharacterNotContained(s, token, j);
  }

  /** Lower-casing of a literal, in a context of its own. */
  lemma LowercaseExample(s: string, lower: string)
    requires |s| == |lower| && forall i :: 0 <= i < |s| ==> ToLower(s[i]) == lower[i]
    ensures Lowercase(s) == lower
  {
  }

  lemma DaftPunkMatches()
    ensures QueryMatch(Lowercase("Daft Punk"), "punk")
  {
    LowercaseExample("Daft Punk", "daft punk");
    SingleTokenMatch("daft punk", "punk", 5);
  }

  lemma GorillazDoesNotMatch()
    ensures !QueryMatch(Lowercase("Gorillaz"), "punk")
  {
    LowercaseExample("Gorillaz", "gorillaz");
    SplitPiece("punk", ' ');
    TokenCharacterMissing("gorillaz", "punk", "punk", 0);
  }

  lemma PunkRockMatches()
    ensures QueryMatch(Lowercase("Punk Rock"), "punk")
  {
    LowercaseExample("Punk Rock", "punk rock");
    SingleTokenMatch("punk rock", "punk", 0);
  }

  lemma AbbeyRoadTokens()
    ensures Split("abbey road", ' ') == ["abbey", "road"]
  {
    assert Join(["abbey", "road"], ' ') == "abbey road";
    SplitJoin(["abbey", "road"], ' ');
  }

  /** A query of two tokens matches text containing both. */
  lemma TwoTokenMatch(s: string, query: string, t1: string, t2: string)
    requires Split(query, ' ') == [t1, t2]
    ensures QueryMatch(s, query) <==> Contains(s, t1) && Contains(s, t2)
  {
  }

  lemma AbbeyRoadMatches()
    ensures QueryMatch(Lowercase("Abbey Road"), "abbey road")
  {
    var s := Lowercase("Abbey Road");
    LowercaseExample("Abbey Road", "abbey road");
    OccurrenceFound("abbey road", "abbey", 0);
    OccurrenceFound("abbey road", "road", 6);
    AbbeyRoadTokens();
    TwoTokenMatch(s, "abbey road", "abbey", "road");
  }

  lemma RoadTripDoesNotMatch()
    ensures !QueryMatch(Lowercase("Road Trip"), "abbey road")
  {
    var s := Lowercase("Road Trip");
    LowercaseExample("Road Trip", "road trip");
    AbsentCharacterNotContained("road trip", "abbey", 1);
    AbbeyRoadTokens();
    TwoTokenMatch(s, "abbey road", "abbey", "road");
  }

  lemma AbbeyLaneDoesNotMatch()
    ensures !QueryMatch(Lowercase("Abbey Lane"), "abbey road")
  {
    var s := Lowercase("Abbey Lane");
    LowercaseExample("Abbey Lane", "abbey lane");
    AbsentCharacterNotContained("abbey lane", "road", 0);
    AbbeyRoadTokens();
    TwoTokenMatch(s, "abbey road", "abbey", "road");
  }

  /** Query "punk" over ["Daft Punk", "Gorillaz", "Punk Rock"] keeps the first and the last. */
  lemma SingleTokenExample<Artist, Theme, Key>(ui: UIState<Artist, Theme, Key>, items: seq<string>)
    requires ui.popup == Popup.PopupState.ContextSearch("punk")
    requires items == ["Daft Punk", "Gorillaz", "Punk Rock"]
    ensures ui.SearchFilteredItems(items, ShowString) == [items[0], items[2]]
  {
    var keep := Matcher(ShowString, "punk");
    DaftPunkMatches();
    GorillazDoesNotMatch();
    PunkRockMatches();
    MatcherApplies(ShowString, "punk", items[0]);
    MatcherApplies(ShowString, "punk", items[1]);
    MatcherApplies(ShowString, "punk", items[2]);
    assert keep(items[0]) && !keep(items[1]) && keep(items[2]);
    FilterOfThree(items[0], items[1], items[2], keep);
    assert items == [items[0], items[1], items[2]];
  }

  /** Query "abbey road" over ["Abbey Road", "Road Trip", "Abbey Lane"] keeps only "Abbey Road". */
  lemma TwoTokenExample<Artist, Theme, Key>(ui: UIState<Artist, Theme, Key>, items: seq<string>)
    requires ui.popup == Popup.PopupState.ContextSearch("abbey road")
    requires items == ["Abbey Road", "Road Trip", "Abbey Lane"]
    ensures ui.SearchFilteredItems(items, ShowString) == [items[0]]
  {
    var keep := Matcher(ShowString, "abbey road");
    AbbeyRoadMatches();
    RoadTripDoesNotMatch();
    AbbeyLaneDoesNotMatch();
    MatcherApplies(ShowString, "abbey road", items[0]);
    MatcherApplies(ShowString, "abbey road", items[1]);
    MatcherApplies(ShowString, "abbey road", items[2]);
    assert keep(items[0]) && !keep(items[1]) && !keep(items[2]);
    FilterOfThree(items[0], items[1], items[2], keep);
    assert items == [items[0], items[1], items[2]];
  }
}

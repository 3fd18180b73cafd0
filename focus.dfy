/** The focus ring of the artist window: which of its three panes receives
    selection and focus-navigation commands. */
module Focus {

  datatype ArtistFocusState = TopTracks | Albums | RelatedArtists {

    /** The successor on the ring, as the transition table lists it. */
    function Next(): (r: ArtistFocusState)
      ensures Position(r) == (Position(this) + 1) % |Ring|
      ensures r != this
    {
      match this
      case TopTracks => Albums
      case Albums => RelatedArtists
      case RelatedArtists => TopTracks
    }

    /** The predecessor on the ring: the same table read backwards. */
    function Previous(): (r: ArtistFocusState)
      ensures Position(r) == (Position(this) + |Ring| - 1) % |Ring|
      ensures r != this
    {
      match this
      case Albums => TopTracks
      case RelatedArtists => Albums
      case TopTracks => RelatedArtists
    }
  }

  /** Reference definition of the ring: the foci in cyclic order. */
  const Ring: seq<ArtistFocusState> := [TopTracks, Albums, RelatedArtists]

  function Position(f: ArtistFocusState): (i: nat)
    ensures i < |Ring| && Ring[i] == f
  {
    match f
    case TopTracks => 0
    case Albums => 1
    case RelatedArtists => 2
  }

  lemma PreviousUndoesNext(f: ArtistFocusState)
    ensures f.Next().Previous() == f
    ensures f.Previous().Next() == f
  {
  }

  /** `n` steps of `next` from `f`. */
  function Advance(f: ArtistFocusState, n: nat): ArtistFocusState
  {
    if n == 0 then f else Advance(f, n - 1).Next()
  }

  /** Walking the ring `n` steps moves `n` places along `Ring`, modulo its length. */
  lemma {:induction false} AdvanceFollowsRing(f: ArtistFocusState, n: nat)
    ensures Position(Advance(f, n)) == (Position(f) + n) % |Ring|
  {
    if n > 0 {
      AdvanceFollowsRing(f, n - 1);
    }
  }

  /** The ring has period exactly three: `n` steps come back to the start iff
      `n` is a multiple of three (in particular three calls of `next` are the identity). */
  lemma AdvanceReturnsIff(f: ArtistFocusState, n: nat)
    ensures Advance(f, n) == f <==> n % 3 == 0
  {
    AdvanceFollowsRing(f, n);
  }

  /** One step back is two steps forward. */
  lemma PreviousIsTwoSteps(f: ArtistFocusState)
    ensures f.Previous() == Advance(f, 2)
  {
    AdvanceFollowsRing(f, 2);
  }
}

/** The search results page: its searching / results / modal flags, the text
    search effect, the two recognition handlers, "Nova Busca", and the photo
    selection with its checkout link. */
module SearchPage {
  import opened Wrappers
  import opened Strings
  import opened Types
  import opened Selection
  import opened RecognitionService

  /** `searchParams.get('mode') || 'text'`. */
  function SearchMode(modeParam: Option<string>): (mode: string)
    ensures Present(modeParam) ==> mode == modeParam.value
    ensures !Present(modeParam) ==> mode == "text"
  {
    if Present(modeParam) then modeParam.value else "text"
  }

  /** The eight mock photos a text search for `query` produces. */
  function TextResults(query: string): (ps: seq<Photo>)
    ensures |ps| == 8
  {
    MockPhotos(8, "Resultado para \"" + query + "\" ")
  }

  class SearchPage {
    const mode: string
    const query: string
    var photos: seq<Photo>
    var isSearching: bool
    var selected: seq<Photo>
    var showResults: bool
    var modalOpen: bool

    /** The selection never holds two photos with the same id. */
    ghost predicate Valid()
      reads this
    {
      IdsDistinct(selected)
    }

    /** Initial state for the URL parameters `mode` and `q`: the recognition modal
        starts open in facial mode. */
    constructor (modeParam: Option<string>, queryParam: Option<string>)
      ensures Valid()
      ensures mode == SearchMode(modeParam)
      ensures query == (if Present(queryParam) then queryParam.value else "")
      ensures photos == [] && !isSearching && selected == [] && !showResults
      ensures modalOpen == (mode == "facial")
    {
      mode := SearchMode(modeParam);
      query := if Present(queryParam) then queryParam.value else "";
      photos, isSearching, selected, showResults := [], false, [], false;
      modalOpen := SearchMode(modeParam) == "facial";
    }

    /** The text-search effect: a non-empty query in text mode starts a search. */
    method StartTextSearch()
      requires Valid()
      modifies this
      ensures Valid()
      ensures isSearching == (old(isSearching) || (query != "" && mode == "text"))
      ensures photos == old(photos) && selected == old(selected)
      ensures showResults == old(showResults) && modalOpen == old(modalOpen)
    {
      if query != "" && mode == "text" {
        isSearching := true;
      }
    }

    /** The text search's timer firing: its eight results are shown. The timer is
        only set by the effect, so the page is in text mode with a query. */
    method FinishTextSearch()
      requires Valid()
      requires query != "" && mode == "text"
      modifies this
      ensures Valid()
      ensures photos == TextResults(query) && !isSearching && showResults
      ensures ResultsVisible() && |photos| == 8
      ensures selected == old(selected) && modalOpen == old(modalOpen)
    {
      photos := TextResults(query);
      isSearching := false;
      showResults := true;
    }

    /** `handleFacialRecognitionCapture`: the modal closes and the image is recognised.
        `draw` is the service's random draw, or None when recognition fails; on
        failure the previous results stay as they were. */
    method HandleFacialRecognitionCapture(image: string, draw: Option<real>)
      requires Valid()
      requires draw.Some? ==> 0.0 <= draw.value < 1.0
      modifies this
      ensures Valid()
      ensures !modalOpen && !isSearching
      ensures draw.Some? ==> photos == RecognizeFace(image, draw.value) && showResults
      ensures draw.Some? ==> ResultsVisible() && 4 <= |photos| <= 11
      ensures draw.None? ==> photos == old(photos) && showResults == old(showResults)
      ensures ResultsVisible() <==> draw.Some? || old(showResults)
      ensures selected == old(selected)
    {
      modalOpen := false;
      // `setIsSearching(true)`: the overlay is on only while the call is pending,
      // which the model does not observe.
      isSearching := true;
      if draw.Some? {
        photos := RecognizeFace(image, draw.value);
        showResults := true;
      }
      isSearching := false;
    }

    /** `handleImageUpload`: the file is read as base64 (`encoded`, None when the
        read fails) and then recognised; the modal flag is not touched. */
    method HandleImageUpload(encoded: Option<string>, draw: real)
      requires Valid()
      requires 0.0 <= draw < 1.0
      modifies this
      ensures Valid()
      ensures !isSearching && modalOpen == old(modalOpen)
      ensures encoded.Some? ==> photos == RecognizeFace(encoded.value, draw) && showResults
      ensures encoded.Some? ==> ResultsVisible() && 4 <= |photos| <= 11
      ensures encoded.None? ==> photos == old(photos) && showResults == old(showResults)
      ensures ResultsVisible() <==> encoded.Some? || old(showResults)
      ensures selected == old(selected)
    {
      // `setIsSearching(true)`: the overlay is on only while the read and the call
      // are pending, which the model does not observe.
      isSearching := true;
      if encoded.Some? {
        photos := RecognizeFace(encoded.value, draw);
        showResults := true;
      }
      isSearching := false;
    }

    /** "Nova Busca": hide the results and reopen the modal; results and selection stay. */
    method NewSearch()
      requires Valid()
      modifies this
      ensures Valid()
      ensures !showResults && modalOpen && !ResultsVisible()
      ensures photos == old(photos) && selected == old(selected) && isSearching == old(isSearching)
    {
      showResults := false;
      modalOpen := true;
    }

    /** The modal's `onClose`. */
    method CloseModal()
      requires Valid()
      modifies this
      ensures Valid()
      ensures !modalOpen
      ensures photos == old(photos) && selected == old(selected)
      ensures isSearching == old(isSearching) && showResults == old(showResults)
    {
      modalOpen := false;
    }

    /** `handleSelectPhoto`. */
    method SelectPhoto(photo: Photo)
      requires Valid()
      modifies this
      ensures Valid()
      ensures selected == Toggle(old(selected), photo)
      ensures photos == old(photos) && isSearching == old(isSearching)
      ensures showResults == old(showResults) && modalOpen == old(modalOpen)
    {
      ToggleKeepsIdsDistinct(selected, photo);
      selected := Toggle(selected, photo);
    }

    /** `handleCheckout`: the link the page navigates to. */
    method Checkout() returns (target: string)
      ensures target == CheckoutTarget(selected)
    {
      target := CheckoutPrefix + Join(Ids(selected), ',');
    }

    /** The results block (count, grid, summary bar) is rendered only when results
        are on and no search runs. */
    predicate ResultsVisible()
      reads this
    {
      showResults && !isSearching
    }
  }
}

/** The header's search bar: a text search that navigates only for a term with
    content, and the facial-search button. */
module SearchBar {
  import opened Wrappers
  import opened Strings

  const SearchPrefix := "/search?q="
  const FacialSearchTarget := "/search?mode=facial"

  class SearchBar {
    var searchTerm: string

    constructor()
      ensures searchTerm == ""
    {
      searchTerm := "";
    }

    /** The input's `onChange`. */
    method SetSearchTerm(value: string)
      modifies this
      ensures searchTerm == value
    {
      searchTerm := value;
    }

    /** `handleSearch`: the navigation target, if any. `encode` stands for
        `encodeURIComponent`. The stored term is left as typed. */
    method HandleSearch(encode: string -> string) returns (target: Option<string>)
      ensures target.None? <==> AllWhitespace(searchTerm)
      ensures target.Some? ==> target.value == SearchPrefix + encode(Trim(searchTerm))
    {
      var trimmed := Trim(searchTerm);
      TrimSpec(searchTerm);
      if trimmed != "" {
        target := Some(SearchPrefix + encode(trimmed));
      } else {
        target := None;
      }
    }

    /** `handleFileUpload`: always the facial search, whatever the term. */
    method HandleFileUpload() returns (target: string)
      ensures target == FacialSearchTarget
    {
      target := FacialSearchTarget;
    }
  }
}

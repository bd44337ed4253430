/** The search box of the header: typing a query, submitting it with Enter, the
    results panel and the mobile search bar. */
module Header {
  import opened Text
  import opened Records
  import opened Collections

  /** A video matches a query when its lower-cased title or lower-cased channel name
      contains the lower-cased query. The query is not trimmed. */
  predicate MatchesQuery(v: Video, query: string) {
    Contains(Lower(v.title), Lower(query)) || Contains(Lower(v.channelName), Lower(query))
  }

  function Matching(query: string): Video -> bool {
    (v: Video) => MatchesQuery(v, query)
  }

  /** The search results: the matching videos in catalogue order. */
  function SearchVideos(videos: seq<Video>, query: string): (r: seq<Video>)
    ensures forall v :: v in r <==> v in videos && MatchesQuery(v, query)
    ensures |r| <= |videos|
  {
    Filter(videos, Matching(query))
  }

  /** The search ignores letter case: a query and its lower-cased form find the same
      videos. */
  lemma {:induction false} SearchIgnoresCase(videos: seq<Video>, query: string)
    ensures SearchVideos(videos, Lower(query)) == SearchVideos(videos, query)
  {
    LowerIdempotent(query);
    FilterAgree(videos, Matching(Lower(query)), Matching(query));
  }

  /** A video is found by its own title, whatever the case the title is typed in. */
  lemma {:induction false} TitleFindsVideo(videos: seq<Video>, v: Video)
    requires v in videos
    ensures v in SearchVideos(videos, v.title)
  {
    assert OccursAt(Lower(v.title), Lower(v.title), 0);
  }

  /** The query is not trimmed: "cats " does not find a video titled "cats" on a channel
      whose name is shorter than the query. */
  lemma UntrimmedQueryMisses(v: Video)
    requires v.title == "cats" && |v.channelName| < 5
    ensures SearchVideos([v], "cats ") == []
  {
    assert !MatchesQuery(v, "cats ");
    assert [v][1..] == [];
  }

  /** The state of the search box. */
  class SearchBox {
    const videos: seq<Video>
    var searchQuery: string
    var searchResults: seq<Video>
    var isResultsOpen: bool
    var isMobileSearchVisible: bool

    /** The results come from the catalogue. */
    ghost predicate Valid()
      reads this
    {
      forall v :: v in searchResults ==> v in videos
    }

    constructor(catalogue: seq<Video>)
      ensures Valid() && videos == catalogue
      ensures searchQuery == "" && searchResults == [] && !isResultsOpen && !isMobileSearchVisible
    {
      videos := catalogue;
      searchQuery := "";
      searchResults := [];
      isResultsOpen := false;
      isMobileSearchVisible := false;
    }

    /** `handleSearchChange`: the query follows the input, and a query that is blank
        after trimming closes the results panel; otherwise the panel is left alone. */
    method SearchChange(value: string)
      modifies this`searchQuery, this`isResultsOpen
      ensures searchQuery == value
      ensures isResultsOpen == (old(isResultsOpen) && !Blank(value))
    {
      searchQuery := value;
      if Trim(value) == [] {
        isResultsOpen := false;
      }
    }

    /** `handleSearchSubmit`: on Enter with a query that is not blank, the results are
        the matching videos and the panel opens; any other key, or a blank query,
        changes nothing. */
    method SearchSubmit(key: string)
      requires Valid()
      modifies this`searchResults, this`isResultsOpen
      ensures Valid()
      ensures key == "Enter" && !Blank(searchQuery) ==>
        searchResults == SearchVideos(videos, searchQuery) && isResultsOpen
      ensures !(key == "Enter" && !Blank(searchQuery)) ==>
        searchResults == old(searchResults) && isResultsOpen == old(isResultsOpen)
    {
      if key == "Enter" && Trim(searchQuery) != [] {
        searchResults := SearchVideos(videos, searchQuery);
        isResultsOpen := true;
      }
    }

    /** `handleResultClick` after the selection is handed to the application: the
        query and the results are cleared, the panel closes and the mobile search bar
        is hidden. */
    method ResultClick()
      modifies this`searchQuery, this`searchResults, this`isResultsOpen, this`isMobileSearchVisible
      ensures Valid()
      ensures searchQuery == "" && searchResults == [] && !isResultsOpen && !isMobileSearchVisible
    {
      searchQuery := "";
      searchResults := [];
      isResultsOpen := false;
      if isMobileSearchVisible {
        isMobileSearchVisible := false;
      }
    }

    /** The search button of the narrow layout opens the mobile search bar. */
    method OpenMobileSearch()
      modifies this`isMobileSearchVisible
      ensures isMobileSearchVisible
    {
      isMobileSearchVisible := true;
    }

    /** The back arrow of the mobile search bar closes it. */
    method CloseMobileSearch()
      modifies this`isMobileSearchVisible
      ensures !isMobileSearchVisible
    {
      isMobileSearchVisible := false;
    }

    /** A mouse press outside the search area closes the results panel. */
    method ClickOutside()
      modifies this`isResultsOpen
      ensures !isResultsOpen
    {
      isResultsOpen := false;
    }
  }
}

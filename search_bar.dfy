/**
 * The header's search box and its dropdown of up to six results, with a
 * keyboard cursor over them. The 300 ms debounce is not modelled as time:
 * typing a non-blank query only changes the text, and `Settle` is the
 * moment the pending search completes.
 */
module SearchBar {
  import opened Strings
  import opened SearchData
  import opened SearchEngine

  /** The keys `handleKeyDown` tells apart; every other key is `Other`. */
  datatype Key = ArrowDown | ArrowUp | Enter | Escape | Other

  /** ArrowDown: one step down, stopping at the last result. */
  function CursorDown(i: int, n: nat): (r: int)
    ensures -1 <= i < n ==> -1 <= r < n
    ensures -1 <= i < n - 1 ==> r == i + 1
    ensures i >= n - 1 ==> r == i
  {
    if i < n - 1 then i + 1 else i
  }

  /** ArrowUp: one step up, stopping at -1, which selects nothing. */
  function CursorUp(i: int): (r: int)
    ensures i >= -1 ==> r >= -1
    ensures r <= i && (i > -1 <==> r == i - 1)
  {
    if i > -1 then i - 1 else i
  }

  /** Down then up comes back, except at the last result, where down does not move. */
  lemma UpUndoesDown(i: int, n: nat)
    requires -1 <= i < n - 1
    ensures CursorUp(CursorDown(i, n)) == i
  {
  }

  /** The cursor after `k` presses of ArrowDown. */
  function DownTimes(i: int, n: nat, k: nat): int {
    if k == 0 then i else CursorDown(DownTimes(i, n, k - 1), n)
  }

  /** From no selection, `k` presses of ArrowDown select result `k - 1`, or the last one. */
  lemma {:induction false} DownFromNone(n: nat, k: nat)
    ensures DownTimes(-1, n, k) == (if k < n then k else n) - 1
  {
    if k > 0 {
      DownFromNone(n, k - 1);
    }
  }

  /** `!query.trim()`: the query is empty or all white space. */
  predicate Blank(q: string) {
    forall i :: 0 <= i < |q| ==> IsJsSpace(q[i])
  }

  /** `Blank` is exactly the test the search engine makes before searching. */
  lemma BlankIsTrimEmpty(q: string)
    ensures Blank(q) <==> Trim(q) == []
  {
    TrimEmptyIff(q);
  }

  class SearchBox {
    /** `searchDocuments` over the site's index and synonym table. */
    const search: (string, nat) -> seq<SearchDocument>
    var query: string
    var results: seq<SearchDocument>
    var isOpen: bool
    var selectedIndex: int
    /** The addresses the box has sent the router to, oldest first. */
    var visited: seq<string>

    /**
     * The cursor is -1 (nothing selected) or a result; it may point past
     * the results only once they have been cleared with the dropdown
     * closed, and a new search resets it before the dropdown can reopen.
     */
    ghost predicate Valid()
      reads this
    {
      && (forall q :: |search(q, 6)| <= 6)
      && -1 <= selectedIndex
      && (isOpen || results != [] ==> selectedIndex < |results|)
    }

    constructor (index: seq<SearchDocument>, syn: seq<(string, string)>)
      ensures forall q, n :: search(q, n) == SearchDocuments(index, q, syn, n)
      ensures Valid()
      ensures query == "" && results == [] && !isOpen && selectedIndex == -1 && visited == []
    {
      search := (q: string, n: nat) => SearchDocuments(index, q, syn, n);
      query := "";
      results := [];
      isOpen := false;
      selectedIndex := -1;
      visited := [];
      new;
      forall q ensures |search(q, 6)| <= 6 {
        ResultsBound(index, q, syn, 6);
      }
    }

    /**
     * Typing: the text changes; a blank query at once clears the results
     * and closes the dropdown, a non-blank one waits for `Settle`.
     */
    method SetQuery(q: string)
      requires Valid()
      modifies this
      ensures Valid() && query == q && selectedIndex == old(selectedIndex) && visited == old(visited)
      ensures Blank(q) ==> results == [] && !isOpen
      ensures !Blank(q) ==> results == old(results) && isOpen == old(isOpen)
    {
      query := q;
      if Blank(q) {
        results := [];
        isOpen := false;
      }
    }

    /** The debounced search completes: up to six results, the dropdown open, nothing selected. */
    method Settle()
      requires Valid() && !Blank(query)
      modifies this
      ensures Valid() && isOpen && selectedIndex == -1
      ensures results == search(query, 6) && |results| <= 6
      ensures query == old(query) && visited == old(visited)
    {
      results := search(query, 6);
      isOpen := true;
      selectedIndex := -1;
    }

    /** Focusing the box reopens the dropdown when there are results. */
    method Focus()
      requires Valid()
      modifies this
      ensures Valid() && isOpen == (old(isOpen) || results != [])
      ensures query == old(query) && results == old(results)
      ensures selectedIndex == old(selectedIndex) && visited == old(visited)
    {
      if |results| > 0 {
        isOpen := true;
      }
    }

    /** A mouse press outside the box closes the dropdown. */
    method ClickOutside()
      requires Valid()
      modifies this
      ensures Valid() && !isOpen
      ensures query == old(query) && results == old(results)
      ensures selectedIndex == old(selectedIndex) && visited == old(visited)
    {
      isOpen := false;
    }

    /** The clear button: empties the text, which clears the results, and closes the dropdown. */
    method Clear()
      requires Valid()
      modifies this
      ensures Valid() && query == "" && results == [] && !isOpen
      ensures selectedIndex == old(selectedIndex) && visited == old(visited)
    {
      query := "";
      isOpen := false;
      results := [];
    }

    /** The mouse over result `i` selects it. */
    method Hover(i: int)
      requires Valid() && isOpen && 0 <= i < |results|
      modifies this
      ensures Valid() && selectedIndex == i
      ensures query == old(query) && results == old(results) && isOpen && visited == old(visited)
    {
      selectedIndex := i;
    }

    /** `handleSelect`: go to the address, close the dropdown and empty the text. */
    method Select(url: string)
      requires Valid()
      modifies this
      ensures Valid() && visited == old(visited) + [url]
      ensures query == "" && results == [] && !isOpen && selectedIndex == old(selectedIndex)
    {
      isOpen := false;
      query := "";
      results := [];
      visited := visited + [url];
    }

    /**
     * `handleSearchAll`: close the dropdown; with a non-blank query, go to
     * the search page for it (`encode` is `encodeURIComponent`) and empty
     * the text.
     */
    method SearchAll(encode: string -> string)
      requires Valid()
      modifies this
      ensures Valid() && !isOpen && selectedIndex == old(selectedIndex)
      ensures !Blank(old(query)) ==>
        visited == old(visited) + ["/search?q=" + encode(old(query))] && query == "" && results == []
      ensures Blank(old(query)) ==> visited == old(visited) && query == old(query) && results == old(results)
    {
      isOpen := false;
      if !Blank(query) {
        visited := visited + ["/search?q=" + encode(query)];
        query := "";
        results := [];
      }
    }

    /**
     * `handleKeyDown`. With the dropdown closed every key is ignored. The
     * arrows move the cursor within the results; Enter goes to the
     * selected result, or else to the search page for a non-blank query;
     * Escape only closes the dropdown.
     */
    method KeyDown(key: Key, encode: string -> string)
      requires Valid()
      modifies this
      ensures Valid()
      ensures !old(isOpen) || key == Other ==>
        && query == old(query) && results == old(results) && isOpen == old(isOpen)
        && selectedIndex == old(selectedIndex) && visited == old(visited)
      ensures old(isOpen) && key == ArrowDown ==>
        && selectedIndex == CursorDown(old(selectedIndex), |results|)
        && query == old(query) && results == old(results) && isOpen && visited == old(visited)
      ensures old(isOpen) && key == ArrowUp ==>
        && selectedIndex == CursorUp(old(selectedIndex))
        && query == old(query) && results == old(results) && isOpen && visited == old(visited)
      ensures old(isOpen) && key == Escape ==>
        && !isOpen
        && query == old(query) && results == old(results)
        && selectedIndex == old(selectedIndex) && visited == old(visited)
      ensures old(isOpen) && key == Enter && 0 <= old(selectedIndex) < |old(results)| ==>
        && visited == old(visited) + [old(results)[old(selectedIndex)].url]
        && query == "" && results == [] && !isOpen
      ensures old(isOpen) && key == Enter && !(0 <= old(selectedIndex) < |old(results)|) ==>
        if !Blank(old(query)) then
          && visited == old(visited) + ["/search?q=" + encode(old(query))]
          && query == "" && results == [] && !isOpen
        else
          && query == old(query) && results == old(results) && isOpen
          && selectedIndex == old(selectedIndex) && visited == old(visited)
    {
      if !isOpen {
        return;
      }
      match key {
        case ArrowDown =>
          selectedIndex := CursorDown(selectedIndex, |results|);
        case ArrowUp =>
          selectedIndex := CursorUp(selectedIndex);
        case Enter =>
          if 0 <= selectedIndex < |results| {
            Select(results[selectedIndex].url);
          } else if !Blank(query) {
            SearchAll(encode);
          }
        case Escape =>
          isOpen := false;
        case Other =>
      }
    }
  }
}

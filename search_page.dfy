/**
 * The search results page: it loads up to 50 results for the query in the
 * address, counts them per document type, shows one filter button per
 * type that has results, and lists the results of the chosen type.
 */
module SearchPage {
  import opened Strings
  import opened SearchData
  import opened SearchEngine

  /** The filter buttons: every result, or those of one type. */
  datatype Filter = All | Only(docType: DocType)

  /** How many of the results are of type `t`. */
  function CountType(rs: seq<SearchDocument>, t: DocType): nat
    decreases |rs|
  {
    if rs == [] then 0
    else CountType(rs[..|rs| - 1], t) + (if rs[|rs| - 1].docType == t then 1 else 0)
  }

  /** `results.filter(r => r.type === t)`. */
  function OfType(rs: seq<SearchDocument>, t: DocType): seq<SearchDocument>
    decreases |rs|
  {
    if rs == [] then []
    else OfType(rs[..|rs| - 1], t) + (if rs[|rs| - 1].docType == t then [rs[|rs| - 1]] else [])
  }

  /** `filteredResults`: everything under "All", else the results of the chosen type. */
  function Filtered(rs: seq<SearchDocument>, f: Filter): (r: seq<SearchDocument>)
    ensures f == All ==> r == rs
  {
    match f
    case All => rs
    case Only(t) => OfType(rs, t)
  }

  /**
   * Filtering by a type keeps exactly the results of that type, as many
   * as the count says.
   */
  lemma {:induction false} OfTypeSpec(rs: seq<SearchDocument>, t: DocType)
    ensures |OfType(rs, t)| == CountType(rs, t)
    ensures forall d :: d in OfType(rs, t) <==> d in rs && d.docType == t
    decreases |rs|
  {
    if rs != [] {
      var init := rs[..|rs| - 1];
      OfTypeSpec(init, t);
      assert rs == init + [rs[|rs| - 1]];
    }
  }

  /**
   * Filtering keeps the results' order: the filtered list of two runs of
   * results is the filtered first run followed by the filtered second.
   */
  lemma {:induction false} OfTypeConcat(a: seq<SearchDocument>, b: seq<SearchDocument>, t: DocType)
    ensures OfType(a + b, t) == OfType(a, t) + OfType(b, t)
    decreases |b|
  {
    if b == [] {
      assert a + b == a;
    } else {
      var init := b[..|b| - 1];
      assert (a + b)[..|a + b| - 1] == a + init;
      OfTypeConcat(a, init, t);
    }
  }

  /** Choosing the same filter twice shows the same list. */
  lemma {:induction false} OfTypeIdempotent(rs: seq<SearchDocument>, t: DocType)
    ensures OfType(OfType(rs, t), t) == OfType(rs, t)
    decreases |rs|
  {
    if rs != [] {
      var init := rs[..|rs| - 1];
      OfTypeIdempotent(init, t);
      var last := if rs[|rs| - 1].docType == t then [rs[|rs| - 1]] else [];
      OfTypeConcat(OfType(init, t), last, t);
    }
  }

  /** The per-type counts add up to the number of results. */
  lemma {:induction false} CountsSum(rs: seq<SearchDocument>)
    ensures CountType(rs, Calculator) + CountType(rs, Service) + CountType(rs, Knowledge)
      + CountType(rs, Blog) + CountType(rs, Page) == |rs|
    decreases |rs|
  {
    if rs != [] {
      CountsSum(rs[..|rs| - 1]);
    }
  }

  /** `counts[type] || 0`: a type no result has reads as 0. */
  function Lookup(counts: map<Filter, nat>, f: Filter): nat {
    if f in counts then counts[f] else 0
  }

  /** The buttons in the order the page lists them. */
  const ButtonOrder: seq<Filter> := [All, Only(Calculator), Only(Service), Only(Knowledge), Only(Blog), Only(Page)]

  /** The buttons of `fs` that are drawn: "All" always, a type only when it has results. */
  function Keep(fs: seq<Filter>, counts: map<Filter, nat>): (r: seq<Filter>)
    ensures forall f :: f in r <==> f in fs && (f == All || Lookup(counts, f) > 0)
  {
    if fs == [] then []
    else (if fs[0] == All || Lookup(counts, fs[0]) > 0 then [fs[0]] else []) + Keep(fs[1..], counts)
  }

  /** The filter bar drawn from the counts. */
  function Buttons(counts: map<Filter, nat>): seq<Filter> {
    Keep(ButtonOrder, counts)
  }

  class SearchResults {
    var query: string
    var results: seq<SearchDocument>
    var isLoading: bool
    var filter: Filter

    /** The page opens on the query in the address, loading, with no results and the "All" filter. */
    constructor (q: string)
      ensures query == q && results == [] && isLoading && filter == All
    {
      query := q;
      results := [];
      isLoading := true;
      filter := All;
    }

    /**
     * The effect run when the query changes: a blank query clears the
     * results without searching; otherwise up to 50 results are fetched.
     * The filter is kept.
     */
    method Load(q: string, index: seq<SearchDocument>, syn: seq<(string, string)>)
      modifies this
      ensures query == q && !isLoading && filter == old(filter)
      ensures Trim(q) == [] ==> results == []
      ensures Trim(q) != [] ==> results == SearchDocuments(index, q, syn, 50)
      ensures |results| <= 50 && forall d :: d in results ==> d in index && Score(d, q, syn) > 0
    {
      query := q;
      isLoading := true;
      if Trim(q) != [] {
        ResultsBound(index, q, syn, 50);
        results := SearchDocuments(index, q, syn, 50);
      } else {
        results := [];
      }
      isLoading := false;
    }

    /** A filter button. */
    method SetFilter(f: Filter)
      modifies this
      ensures filter == f && query == old(query) && results == old(results) && isLoading == old(isLoading)
    {
      filter := f;
    }

    /** The list on screen. */
    function Shown(): seq<SearchDocument>
      reads this
    {
      Filtered(results, filter)
    }

    /**
     * The `counts` reduce: starting from `{ All: 0 }`, each result adds one
     * to its type and one to "All".
     */
    method Counts() returns (counts: map<Filter, nat>)
      ensures Lookup(counts, All) == |results|
      ensures forall t :: Lookup(counts, Only(t)) == CountType(results, t)
    {
      counts := map[All := 0];
      var i := 0;
      while i < |results|
        invariant 0 <= i <= |results|
        invariant Lookup(counts, All) == i
        invariant forall t :: Lookup(counts, Only(t)) == CountType(results[..i], t)
      {
        var key := Only(results[i].docType);
        counts := counts[key := Lookup(counts, key) + 1];
        counts := counts[All := Lookup(counts, All) + 1];
        assert results[..i + 1][..i] == results[..i];
        i := i + 1;
      }
      assert results[..i] == results;
    }
  }

  /**
   * With the counts of the results, a button is drawn exactly for "All"
   * and for each type that has a result, and a button's badge is the
   * length of the list it shows.
   */
  lemma ButtonsShown(rs: seq<SearchDocument>, counts: map<Filter, nat>)
    requires Lookup(counts, All) == |rs|
    requires forall t :: Lookup(counts, Only(t)) == CountType(rs, t)
    ensures forall f :: f in Buttons(counts) <==> f == All || CountType(rs, f.docType) > 0
    ensures forall f :: f in Buttons(counts) ==> Lookup(counts, f) == |Filtered(rs, f)|
  {
    forall f | f in Buttons(counts)
      ensures Lookup(counts, f) == |Filtered(rs, f)|
    {
      if f.Only? {
        OfTypeSpec(rs, f.docType);
      }
    }
  }
}

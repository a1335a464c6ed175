/**
 * The site's search index: six fixed pages followed by one document per
 * calculator, per service, per knowledge-bank item (bulletins, utilities,
 * acts, rules and forms; useful links are never indexed) and per blog post,
 * and the synonym table used to widen queries.
 */
module SearchData {
  import opened Wrappers
  import opened Strings
  import opened Content

  datatype DocType = Calculator | Service | Knowledge | Blog | Page

  datatype SearchDocument = SearchDocument(
    id: string,
    docType: DocType,
    title: string,
    description: string,
    url: string,
    keywords: seq<string>)

  /** The content collections the index is built from. */
  datatype Sources = Sources(
    calculators: seq<KnowledgeItem>,
    categories: seq<ServiceCategory>,
    bulletins: seq<KnowledgeItem>,
    utilities: seq<KnowledgeItem>,
    acts: seq<KnowledgeItem>,
    rules: seq<KnowledgeItem>,
    forms: seq<KnowledgeItem>,
    blogPosts: seq<BlogPost>)

  /** The six site pages at the head of the index. */
  const Pages: seq<SearchDocument> := [
    SearchDocument("page_home", Page, "Home", "S.A.M.P.N. & Associates Chartered Accountants", "/",
      ["home", "sampn", "ca firm", "kolkata", "puri"]),
    SearchDocument("page_about", Page, "About Us", "Learn about our firm, partners, and the sectors we serve.", "/about",
      ["about us", "firm profile", "partners", "history"]),
    SearchDocument("page_services", Page, "Our Services", "Explore our audit, taxation, and advisory services.", "/services",
      ["services", "audit", "tax", "advisory", "compliance"]),
    SearchDocument("page_knowledge", Page, "Knowledge Bank", "Resources, calculators, bulletins, and updates.", "/knowledge",
      ["knowledge bank", "resources", "updates", "tax rules"]),
    SearchDocument("page_calculators", Page, "Financial Calculators Hub", "Suite of financial and tax calculators for India.",
      "/knowledge/calculators", ["calculators", "financial tools", "tax calculators", "emi", "sip"]),
    SearchDocument("page_contact", Page, "Contact Us", "Get in touch with our team in Kolkata and Puri.", "/contact",
      ["contact", "address", "phone", "email", "location", "reach us"])
  ]

  function CalculatorDoc(item: KnowledgeItem): SearchDocument {
    SearchDocument("calc_" + item.slug, Calculator, item.title, item.description,
      "/knowledge/calculators/" + item.slug, [ToLower(item.title)] + Split(item.title, ' '))
  }

  /** A service's own keywords when the record has them, the fallback only when it has none. */
  function ServiceDoc(cat: ServiceCategory, svc: Service): SearchDocument {
    SearchDocument("service_" + svc.slug, DocType.Service, svc.title, svc.shortDescription,
      "/services/" + cat.slug + "/" + svc.slug,
      svc.keywords.GetOr([ToLower(svc.title), ToLower(cat.title)]))
  }

  datatype Sectioned = Sectioned(item: KnowledgeItem, section: string)

  function KnowledgeDoc(k: Sectioned): SearchDocument {
    SearchDocument("know_" + k.item.slug, Knowledge, k.item.title, k.item.description,
      "/knowledge/" + k.section + "/" + k.item.slug, [ToLower(k.item.title), k.section])
  }

  function BlogDoc(post: BlogPost): SearchDocument {
    SearchDocument("blog_" + post.slug, Blog, post.title, post.excerpt,
      "/knowledge/bulletins/" + post.slug, post.keywords.GetOr([ToLower(post.category)]))
  }

  function Tag(items: seq<KnowledgeItem>, section: string): (r: seq<Sectioned>)
    ensures |r| == |items|
    ensures forall i :: 0 <= i < |items| ==> r[i] == Sectioned(items[i], section)
  {
    seq(|items|, i requires 0 <= i < |items| => Sectioned(items[i], section))
  }

  /** The knowledge-bank items that are indexed, each with its section name. */
  function KnowledgeEntries(src: Sources): seq<Sectioned> {
    Tag(src.bulletins, "bulletins") + Tag(src.utilities, "utilities") + Tag(src.acts, "acts")
    + Tag(src.rules, "rules") + Tag(src.forms, "forms")
  }

  function CalculatorDocs(items: seq<KnowledgeItem>): (r: seq<SearchDocument>)
    ensures |r| == |items| && forall i :: 0 <= i < |items| ==> r[i] == CalculatorDoc(items[i])
  {
    seq(|items|, i requires 0 <= i < |items| => CalculatorDoc(items[i]))
  }

  function ServiceDocs(cats: seq<ServiceCategory>): (r: seq<SearchDocument>)
    ensures var pairs := ServicePairs(cats);
      |r| == |pairs| && forall i :: 0 <= i < |pairs| ==> r[i] == ServiceDoc(pairs[i].0, pairs[i].1)
  {
    var pairs := ServicePairs(cats);
    seq(|pairs|, i requires 0 <= i < |pairs| => ServiceDoc(pairs[i].0, pairs[i].1))
  }

  function KnowledgeDocs(ks: seq<Sectioned>): (r: seq<SearchDocument>)
    ensures |r| == |ks| && forall i :: 0 <= i < |ks| ==> r[i] == KnowledgeDoc(ks[i])
  {
    seq(|ks|, i requires 0 <= i < |ks| => KnowledgeDoc(ks[i]))
  }

  function BlogDocs(posts: seq<BlogPost>): (r: seq<SearchDocument>)
    ensures |r| == |posts| && forall i :: 0 <= i < |posts| ==> r[i] == BlogDoc(posts[i])
  {
    seq(|posts|, i requires 0 <= i < |posts| => BlogDoc(posts[i]))
  }

  /** `searchIndex`: pages, calculators, services, knowledge items, blog posts. */
  function BuildIndex(src: Sources): seq<SearchDocument> {
    Pages + CalculatorDocs(src.calculators) + ServiceDocs(src.categories)
    + KnowledgeDocs(KnowledgeEntries(src)) + BlogDocs(src.blogPosts)
  }

  /** The synonym table: 15 informal term / canonical phrase pairs, in declaration order. */
  const Synonyms: seq<(string, string)> := [
    ("itr", "income tax"),
    ("gst", "goods and services tax"),
    ("roi", "return on investment"),
    ("hr", "hra exemption"),
    ("rent", "hra exemption"),
    ("ppf", "80c"),
    ("elss", "80c"),
    ("fd", "fixed deposit"),
    ("rd", "recurring deposit"),
    ("ltcg", "capital gains"),
    ("stcg", "capital gains"),
    ("home loan", "emi"),
    ("car loan", "emi"),
    ("mutual fund", "sip"),
    ("mf", "sip")
  ]

  // ---------------------------------------------------------------------
  // Properties of the index

  /**
   * Where each source lands in the index, and the document it becomes. The
   * order (pages, calculators, services, knowledge items, blog posts) is the
   * order that breaks ties between equal search scores.
   */
  lemma IndexLayout(src: Sources)
    ensures LaidOut(BuildIndex(src), Pages, src)
  {
  }

  /**
   * `idx` is `pages`, then one document per calculator, per service, per
   * knowledge entry and per blog post of `src`, in that order.
   */
  predicate LaidOut(idx: seq<SearchDocument>, pages: seq<SearchDocument>, src: Sources) {
    var c := |pages|;
    var s := c + |src.calculators|;
    var k := s + |ServicePairs(src.categories)|;
    var b := k + |KnowledgeEntries(src)|;
    && |idx| == b + |src.blogPosts|
    && idx[..c] == pages
    && (forall j :: 0 <= j < |src.calculators| ==> idx[c + j] == CalculatorDoc(src.calculators[j]))
    && (forall j :: 0 <= j < |ServicePairs(src.categories)| ==>
          idx[s + j] == ServiceDoc(ServicePairs(src.categories)[j].0, ServicePairs(src.categories)[j].1))
    && (forall j :: 0 <= j < |KnowledgeEntries(src)| ==> idx[k + j] == KnowledgeDoc(KnowledgeEntries(src)[j]))
    && (forall j :: 0 <= j < |src.blogPosts| ==> idx[b + j] == BlogDoc(src.blogPosts[j]))
  }

  /** A calculator entry's keywords are its lower-cased title followed by the title's words. */
  lemma CalculatorEntry(item: KnowledgeItem)
    ensures var d := CalculatorDoc(item);
      && d.id == "calc_" + item.slug && d.docType == Calculator
      && d.url == "/knowledge/calculators/" + item.slug
      && d.keywords[0] == ToLower(item.title)
      && d.keywords[1..] == Split(item.title, ' ')
      && |d.keywords| == CountChar(item.title, ' ') + 2
  {
    SplitLength(item.title, ' ');
  }

  /** The fallback keywords are used exactly when the service has none of its own. */
  lemma ServiceKeywords(cat: ServiceCategory, svc: Service)
    ensures svc.keywords.Some? ==> ServiceDoc(cat, svc).keywords == svc.keywords.value
    ensures svc.keywords.None? ==> ServiceDoc(cat, svc).keywords == [ToLower(svc.title), ToLower(cat.title)]
  {
  }

  /** Every knowledge entry comes from one of the five indexed sections and carries that section. */
  lemma KnowledgeEntrySections(src: Sources)
    ensures forall e :: e in KnowledgeEntries(src) ==>
      && e.section in ["bulletins", "utilities", "acts", "rules", "forms"]
      && KnowledgeDoc(e).url == "/knowledge/" + e.section + "/" + e.item.slug
      && KnowledgeDoc(e).keywords == [ToLower(e.item.title), e.section]
    ensures |KnowledgeEntries(src)| ==
      |src.bulletins| + |src.utilities| + |src.acts| + |src.rules| + |src.forms|
  {
  }

  // ---------------------------------------------------------------------
  // Unique identifiers

  predicate DistinctIds(docs: seq<SearchDocument>) {
    forall i, j :: 0 <= i < j < |docs| ==> docs[i].id != docs[j].id
  }

  /** Every id is non-empty and starts with a character from `first`. */
  predicate IdsStartIn(docs: seq<SearchDocument>, first: set<char>) {
    forall i :: 0 <= i < |docs| ==> |docs[i].id| > 0 && docs[i].id[0] in first
  }

  lemma DistinctConcat(a: seq<SearchDocument>, b: seq<SearchDocument>, fa: set<char>, fb: set<char>)
    requires DistinctIds(a) && DistinctIds(b) && IdsStartIn(a, fa) && IdsStartIn(b, fb) && fa !! fb
    ensures DistinctIds(a + b) && IdsStartIn(a + b, fa + fb)
  {
    var ab := a + b;
    forall i, j | 0 <= i < j < |ab| ensures ab[i].id != ab[j].id {
      if i < |a| && j >= |a| {
        assert ab[i].id[0] in fa && ab[j].id[0] in fb;
      }
    }
  }

  /** Prefixing distinct slugs with the same text gives distinct ids. */
  lemma PrefixInjective(p: string, x: string, y: string)
    requires p + x == p + y
    ensures x == y
  {
    assert x == (p + x)[|p|..];
  }

  lemma CalculatorIds(items: seq<KnowledgeItem>)
    requires DistinctSlugs(items)
    ensures DistinctIds(CalculatorDocs(items)) && IdsStartIn(CalculatorDocs(items), {'c'})
  {
    var docs := CalculatorDocs(items);
    forall i, j | 0 <= i < j < |docs| ensures docs[i].id != docs[j].id {
      if docs[i].id == docs[j].id {
        PrefixInjective("calc_", items[i].slug, items[j].slug);
      }
    }
  }

  lemma ServiceIds(cats: seq<ServiceCategory>)
    requires DistinctServiceSlugs(cats)
    ensures DistinctIds(ServiceDocs(cats)) && IdsStartIn(ServiceDocs(cats), {'s'})
  {
    var docs := ServiceDocs(cats);
    var pairs := ServicePairs(cats);
    forall i, j | 0 <= i < j < |docs| ensures docs[i].id != docs[j].id {
      if docs[i].id == docs[j].id {
        PrefixInjective("service_", pairs[i].1.slug, pairs[j].1.slug);
      }
    }
  }

  lemma KnowledgeIds(src: Sources)
    requires DistinctSlugs(src.bulletins + src.utilities + src.acts + src.rules + src.forms)
    ensures DistinctIds(KnowledgeDocs(KnowledgeEntries(src)))
    ensures IdsStartIn(KnowledgeDocs(KnowledgeEntries(src)), {'k'})
  {
    var ks := KnowledgeEntries(src);
    var docs := KnowledgeDocs(ks);
    var items := src.bulletins + src.utilities + src.acts + src.rules + src.forms;
    assert forall i :: 0 <= i < |ks| ==> ks[i].item == items[i];
    forall i, j | 0 <= i < j < |docs| ensures docs[i].id != docs[j].id {
      if docs[i].id == docs[j].id {
        PrefixInjective("know_", items[i].slug, items[j].slug);
      }
    }
  }

  lemma BlogIds(posts: seq<BlogPost>)
    requires DistinctPostSlugs(posts)
    ensures DistinctIds(BlogDocs(posts)) && IdsStartIn(BlogDocs(posts), {'b'})
  {
    var docs := BlogDocs(posts);
    forall i, j | 0 <= i < j < |docs| ensures docs[i].id != docs[j].id {
      if docs[i].id == docs[j].id {
        PrefixInjective("blog_", posts[i].slug, posts[j].slug);
      }
    }
  }

  /** The fixed pages have distinct ids, each starting with `p`. */
  lemma PageIds()
    ensures DistinctIds(Pages) && IdsStartIn(Pages, {'p'})
  {
    forall i, j | 0 <= i < j < |Pages| ensures Pages[i].id != Pages[j].id {
      assert Pages[i].id[5] != Pages[j].id[5] || Pages[i].id[6] != Pages[j].id[6];
    }
  }

  /**
   * Ids are unique across the whole index whenever slugs are unique within
   * each source: the prefixes page_, calc_, service_, know_ and blog_ begin
   * with five different letters.
   */
  lemma IndexIdsUnique(src: Sources)
    requires DistinctSlugs(src.calculators)
    requires DistinctServiceSlugs(src.categories)
    requires DistinctSlugs(src.bulletins + src.utilities + src.acts + src.rules + src.forms)
    requires DistinctPostSlugs(src.blogPosts)
    ensures DistinctIds(BuildIndex(src))
  {
    var pages := Pages;
    var calcs := CalculatorDocs(src.calculators);
    var svcs := ServiceDocs(src.categories);
    var know := KnowledgeDocs(KnowledgeEntries(src));
    var blog := BlogDocs(src.blogPosts);
    PageIds();
    CalculatorIds(src.calculators);
    ServiceIds(src.categories);
    KnowledgeIds(src);
    BlogIds(src.blogPosts);
    DistinctConcat(pages, calcs, {'p'}, {'c'});
    DistinctConcat(pages + calcs, svcs, {'p', 'c'}, {'s'});
    DistinctConcat(pages + calcs + svcs, know, {'p', 'c', 's'}, {'k'});
    DistinctConcat(pages + calcs + svcs + know, blog, {'p', 'c', 's', 'k'}, {'b'});
  }
}

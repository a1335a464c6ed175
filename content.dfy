/**
 * The shapes of the static content the site is built from (services,
 * knowledge-bank items, blog posts). The records themselves are fixture
 * data supplied by the callers; only the fields the modelled code reads
 * are kept.
 */
module Content {
  import opened Wrappers

  /** A calculator, bulletin, utility, act, rule or form of the knowledge bank. */
  datatype KnowledgeItem = KnowledgeItem(slug: string, title: string, description: string)

  /** `keywords` is `None` when the record leaves the field out. */
  datatype Service = Service(slug: string, title: string, shortDescription: string, keywords: Option<seq<string>>)

  datatype ServiceCategory = ServiceCategory(slug: string, title: string, services: seq<Service>)

  datatype BlogPost = BlogPost(slug: string, title: string, excerpt: string, category: string, keywords: Option<seq<string>>)

  /**
   * Every service paired with its category, in category order then service
   * order: the traversal of nested `for` loops and of `flatMap`.
   */
  function ServicePairs(cats: seq<ServiceCategory>): seq<(ServiceCategory, Service)>
    decreases |cats|
  {
    if cats == [] then []
    else seq(|cats[0].services|, j requires 0 <= j < |cats[0].services| => (cats[0], cats[0].services[j]))
         + ServicePairs(cats[1..])
  }

  /** Total number of services over all categories. */
  function ServiceCount(cats: seq<ServiceCategory>): nat
    decreases |cats|
  {
    if cats == [] then 0 else |cats[0].services| + ServiceCount(cats[1..])
  }

  lemma {:induction false} ServicePairsLength(cats: seq<ServiceCategory>)
    ensures |ServicePairs(cats)| == ServiceCount(cats)
    decreases |cats|
  {
    if cats != [] {
      ServicePairsLength(cats[1..]);
    }
  }

  predicate DistinctSlugs(items: seq<KnowledgeItem>) {
    forall i, j :: 0 <= i < j < |items| ==> items[i].slug != items[j].slug
  }

  /** No two services, over all categories, share a slug. */
  predicate DistinctServiceSlugs(cats: seq<ServiceCategory>) {
    var pairs := ServicePairs(cats);
    forall i, j :: 0 <= i < j < |pairs| ==> pairs[i].1.slug != pairs[j].1.slug
  }

  predicate DistinctPostSlugs(posts: seq<BlogPost>) {
    forall i, j :: 0 <= i < j < |posts| ==> posts[i].slug != posts[j].slug
  }
}

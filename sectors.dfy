/**
 * The sectors page links each sector's related services by slug. Two
 * lookups walk the service catalogue, category by category and service by
 * service, and stop at the first service with the slug: one gives its
 * title, the other the path of its page.
 */
module Sectors {
  import opened Wrappers
  import opened Content

  /** True when some service of some category has the slug. */
  predicate Listed(cats: seq<ServiceCategory>, slug: string) {
    exists c, j :: 0 <= c < |cats| && 0 <= j < |cats[c].services| && cats[c].services[j].slug == slug
  }

  /** The first service of one category with the slug, as its index. */
  function FindInCategory(services: seq<Service>, slug: string): (r: Option<nat>)
    ensures r == None <==> forall j :: 0 <= j < |services| ==> services[j].slug != slug
    ensures r.Some? ==> r.value < |services| && services[r.value].slug == slug
    ensures r.Some? ==> forall j :: 0 <= j < r.value ==> services[j].slug != slug
    decreases |services|
  {
    if services == [] then None
    else if services[0].slug == slug then Some(0)
    else match FindInCategory(services[1..], slug)
      case None => None
      case Some(j) => Some(j + 1)
  }

  /**
   * The nested loops with early return: the category and service index of
   * the first service with the slug, in category order and then service
   * order; nothing when no service has it.
   */
  function FindService(cats: seq<ServiceCategory>, slug: string): (r: Option<(nat, nat)>)
    ensures r == None <==> !Listed(cats, slug)
    ensures r.Some? ==> r.value.0 < |cats| && r.value.1 < |cats[r.value.0].services|
    ensures r.Some? ==> cats[r.value.0].services[r.value.1].slug == slug
    ensures r.Some? ==> forall c, j :: 0 <= c < r.value.0 && 0 <= j < |cats[c].services| ==>
      cats[c].services[j].slug != slug
    ensures r.Some? ==> forall j :: 0 <= j < r.value.1 ==> cats[r.value.0].services[j].slug != slug
    decreases |cats|
  {
    if cats == [] then None
    else match FindInCategory(cats[0].services, slug)
      case Some(j) => Some((0, j))
      case None =>
        match FindService(cats[1..], slug)
        case None => None
        case Some(p) => Some((p.0 + 1, p.1))
  }

  /** `findServiceTitle`: the title of the first service with the slug, or the slug itself. */
  function FindServiceTitle(cats: seq<ServiceCategory>, slug: string): (t: string)
    ensures !Listed(cats, slug) ==> t == slug
    ensures Listed(cats, slug) ==> exists c, j :: (
      && 0 <= c < |cats| && 0 <= j < |cats[c].services|
      && FindService(cats, slug) == Some((c, j)) && t == cats[c].services[j].title)
  {
    match FindService(cats, slug)
    case None => slug
    case Some(p) => cats[p.0].services[p.1].title
  }

  /** `findServiceHref`: the page of the first service with the slug, or the services index. */
  function FindServiceHref(cats: seq<ServiceCategory>, slug: string): (h: string)
    ensures !Listed(cats, slug) ==> h == "/services"
    ensures Listed(cats, slug) ==> exists c, j :: (
      && 0 <= c < |cats| && 0 <= j < |cats[c].services|
      && FindService(cats, slug) == Some((c, j))
      && h == "/services/" + cats[c].slug + "/" + slug)
  {
    match FindService(cats, slug)
    case None => "/services"
    case Some(p) => "/services/" + cats[p.0].slug + "/" + cats[p.0].services[p.1].slug
  }

  /**
   * The two lookups agree: the link falls back to the services index
   * exactly when no service has the slug, and otherwise the title and the
   * link describe the same service.
   */
  lemma LookupsAgree(cats: seq<ServiceCategory>, slug: string)
    ensures FindServiceHref(cats, slug) == "/services" <==> !Listed(cats, slug)
    ensures Listed(cats, slug) ==> exists c, j :: (
      && 0 <= c < |cats| && 0 <= j < |cats[c].services|
      && cats[c].services[j].slug == slug
      && FindServiceTitle(cats, slug) == cats[c].services[j].title
      && FindServiceHref(cats, slug) == "/services/" + cats[c].slug + "/" + slug)
  {
    if Listed(cats, slug) {
      var h := FindServiceHref(cats, slug);
      var c, j :| 0 <= c < |cats| && 0 <= j < |cats[c].services|
        && FindService(cats, slug) == Some((c, j)) && h == "/services/" + cats[c].slug + "/" + slug;
      assert h[..10] == "/services/";
      assert |h| > |"/services"|;
    }
  }

  /** An unknown slug is shown as itself and links to the services index; nothing fails. */
  lemma UnknownSlug(cats: seq<ServiceCategory>, slug: string)
    requires forall c, j :: 0 <= c < |cats| && 0 <= j < |cats[c].services| ==> cats[c].services[j].slug != slug
    ensures FindServiceTitle(cats, slug) == slug && FindServiceHref(cats, slug) == "/services"
  {
  }
}

/**
 * The sitemap: the fixed pages, then every service category followed by
 * its services, then every bulletin and blog post, each with its absolute
 * url and a crawl priority.
 */
module Sitemap {
  import opened Strings
  import opened Content

  /** The fixed pages, as paths under the site's url; "" is the home page. */
  const StaticRoutes: seq<string> := [
    "", "/about", "/about/firm", "/about/partners", "/about/sectors",
    "/services", "/knowledge", "/knowledge/calculators", "/knowledge/calculators/gst-calculator",
    "/knowledge/calculators/hra-exemption", "/knowledge/calculators/simple-interest",
    "/knowledge/calculators/sip", "/knowledge/calculators/income-tax",
    "/knowledge/calculators/corporate-tax", "/knowledge/calculators/tds",
    "/knowledge/calculators/capital-gains", "/knowledge/calculators/fd-rd",
    "/knowledge/calculators/basic",
    "/knowledge/bulletins", "/knowledge/utilities", "/knowledge/links",
    "/knowledge/acts", "/knowledge/rules", "/knowledge/forms",
    "/query", "/careers", "/contact", "/privacy-policy", "/disclaimer"
  ]

  lemma StaticRouteCount()
    ensures |StaticRoutes| == 29 && StaticRoutes[0] == ""
  {
  }

  datatype Entry = Entry(url: string, priority: real)

  /** 1 for the home page, 0.8 for a route of at most two `/`-pieces, 0.6 below that. */
  function Priority(route: string): (p: real)
    ensures p == 1.0 <==> route == ""
    ensures route != "" ==> (p == 0.8 <==> |Split(route, '/')| <= 2)
    ensures p == 1.0 || p == 0.8 || p == 0.6
  {
    if route == "" then 1.0 else if |Split(route, '/')| <= 2 then 0.8 else 0.6
  }

  /**
   * For a path `/name`, the rule reads: 0.8 for a top-level page, 0.6 for a
   * page nested under another.
   */
  lemma PriorityByDepth(rest: string)
    ensures '/' !in rest ==> Priority("/" + rest) == 0.8
    ensures '/' in rest ==> Priority("/" + rest) == 0.6
  {
    var route := "/" + rest;
    assert route[0] == '/' && route[1..] == rest;
    SplitLength(route, '/');
    CountCharZero(rest, '/');
  }

  function StaticEntries(base: string): (r: seq<Entry>)
    ensures |r| == |StaticRoutes|
    ensures forall i :: 0 <= i < |r| ==>
      r[i].url == base + StaticRoutes[i] && r[i].priority == Priority(StaticRoutes[i])
  {
    seq(|StaticRoutes|, i requires 0 <= i < |StaticRoutes| =>
      Entry(base + StaticRoutes[i], Priority(StaticRoutes[i])))
  }

  /** One category's page at 0.7, followed by one 0.6 entry per service, in order. */
  function CategoryEntries(base: string, cat: ServiceCategory): (r: seq<Entry>)
    ensures |r| == 1 + |cat.services|
    ensures r[0] == Entry(base + "/services/" + cat.slug, 0.7)
    ensures forall j :: 0 <= j < |cat.services| ==>
      r[j + 1] == Entry(base + "/services/" + cat.slug + "/" + cat.services[j].slug, 0.6)
  {
    [Entry(base + "/services/" + cat.slug, 0.7)]
      + seq(|cat.services|, j requires 0 <= j < |cat.services| =>
          Entry(base + "/services/" + cat.slug + "/" + cat.services[j].slug, 0.6))
  }

  function ServiceEntries(base: string, cats: seq<ServiceCategory>): seq<Entry>
    decreases |cats|
  {
    if cats == [] then [] else CategoryEntries(base, cats[0]) + ServiceEntries(base, cats[1..])
  }

  /** Each category brings one entry of its own and one per service. */
  lemma {:induction false} ServiceEntriesLength(base: string, cats: seq<ServiceCategory>)
    ensures |ServiceEntries(base, cats)| == |cats| + ServiceCount(cats)
    decreases |cats|
  {
    if cats != [] {
      ServiceEntriesLength(base, cats[1..]);
    }
  }

  /** Every service entry is a category page at 0.7 or a service page at 0.6. */
  lemma {:induction false} ServicePriorities(base: string, cats: seq<ServiceCategory>)
    ensures forall e :: e in ServiceEntries(base, cats) ==> e.priority == 0.7 || e.priority == 0.6
    decreases |cats|
  {
    if cats != [] {
      ServicePriorities(base, cats[1..]);
      var head := CategoryEntries(base, cats[0]);
      forall e: Entry | e in head
        ensures e.priority == 0.7 || e.priority == 0.6
      {
        var k :| 0 <= k < |head| && head[k] == e;
        if k > 0 {
          assert head[(k - 1) + 1] == e;
        }
      }
    }
  }

  /** Bulletins, then blog posts, each at 0.5 under `/knowledge/bulletins/`. */
  function BulletinEntries(base: string, bulletins: seq<KnowledgeItem>, posts: seq<BlogPost>): (r: seq<Entry>)
    ensures |r| == |bulletins| + |posts|
    ensures forall i :: 0 <= i < |bulletins| ==>
      r[i] == Entry(base + "/knowledge/bulletins/" + bulletins[i].slug, 0.5)
    ensures forall i :: 0 <= i < |posts| ==>
      r[|bulletins| + i] == Entry(base + "/knowledge/bulletins/" + posts[i].slug, 0.5)
  {
    var slugs := seq(|bulletins|, i requires 0 <= i < |bulletins| => bulletins[i].slug)
               + seq(|posts|, i requires 0 <= i < |posts| => posts[i].slug);
    seq(|slugs|, i requires 0 <= i < |slugs| => Entry(base + "/knowledge/bulletins/" + slugs[i], 0.5))
  }

  /** The whole sitemap. */
  function Sitemap(base: string, cats: seq<ServiceCategory>, bulletins: seq<KnowledgeItem>,
                   posts: seq<BlogPost>): seq<Entry>
  {
    StaticEntries(base) + ServiceEntries(base, cats) + BulletinEntries(base, bulletins, posts)
  }

  /**
   * The sitemap lists 29 fixed pages, one entry per category and per
   * service, and one per bulletin and post, in that order.
   */
  lemma SitemapShape(base: string, cats: seq<ServiceCategory>, bulletins: seq<KnowledgeItem>,
                     posts: seq<BlogPost>)
    ensures var m := Sitemap(base, cats, bulletins, posts);
      var s := 29 + |cats| + ServiceCount(cats);
      && |m| == s + |bulletins| + |posts|
      && m[..29] == StaticEntries(base)
      && m[29..s] == ServiceEntries(base, cats)
      && m[s..] == BulletinEntries(base, bulletins, posts)
  {
    StaticRouteCount();
    ServiceEntriesLength(base, cats);
    var a, b, c := StaticEntries(base), ServiceEntries(base, cats), BulletinEntries(base, bulletins, posts);
    assert (a + b + c)[..|a|] == a;
    assert (a + b + c)[|a|..|a| + |b|] == b;
    assert (a + b + c)[|a| + |b|..] == c;
  }

  /** Every priority in the sitemap lies in the rule's range: 1 for home, never below 0.5. */
  lemma SitemapPriorities(base: string, cats: seq<ServiceCategory>, bulletins: seq<KnowledgeItem>,
                          posts: seq<BlogPost>)
    ensures forall e :: e in Sitemap(base, cats, bulletins, posts) ==> 0.5 <= e.priority <= 1.0
    ensures Sitemap(base, cats, bulletins, posts)[0] == Entry(base, 1.0)
  {
    ServicePriorities(base, cats);
    var a, b, c := StaticEntries(base), ServiceEntries(base, cats), BulletinEntries(base, bulletins, posts);
    forall e: Entry | e in a + b + c
      ensures 0.5 <= e.priority <= 1.0
    {
      if e in a {
        var k :| 0 <= k < |a| && a[k] == e;
      } else if e in c {
        var k :| 0 <= k < |c| && c[k] == e;
        if k >= |bulletins| {
          assert c[|bulletins| + (k - |bulletins|)] == e;
        }
      }
    }
    assert base + "" == base;
  }
}

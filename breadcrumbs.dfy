/**
 * The breadcrumb trail shown at the top of inner pages: a Home link, then
 * the given items, of which all but the last may be links; and the
 * breadcrumb list it publishes as structured data.
 */
module Breadcrumbs {
  import opened Wrappers
  import JsonLd

  /** A trail item: its label (`label` is a keyword in Dafny) and, optionally, the path it links to. */
  datatype BreadcrumbItem = BreadcrumbItem(labelText: string, href: Option<string>)

  /** JavaScript truthiness of the optional path: present and non-empty. */
  predicate HasHref(item: BreadcrumbItem) {
    item.href.Some? && item.href.value != ""
  }

  /** An item's absolute url: the site's url followed by its path, or the site's url alone. */
  function ItemUrl(base: string, item: BreadcrumbItem): (u: string)
    ensures HasHref(item) ==> u == base + item.href.value
    ensures !HasHref(item) ==> u == base
  {
    if HasHref(item) then base + item.href.value else base
  }

  /** The structured-data list: Home at the site's url, then one entry per item, in order. */
  function SchemaItems(base: string, items: seq<BreadcrumbItem>): (r: seq<JsonLd.Crumb>)
    ensures |r| == |items| + 1
    ensures r[0] == JsonLd.Crumb("Home", base)
    ensures forall i :: 0 <= i < |items| ==> r[i + 1] == JsonLd.Crumb(items[i].labelText, ItemUrl(base, items[i]))
  {
    [JsonLd.Crumb("Home", base)]
      + seq(|items|, i requires 0 <= i < |items| => JsonLd.Crumb(items[i].labelText, ItemUrl(base, items[i])))
  }

  /**
   * The published list numbers Home as 1 and item `i` as `i + 2`, and
   * every item's url starts with the site's url.
   */
  lemma PublishedList(base: string, items: seq<BreadcrumbItem>)
    ensures var l := JsonLd.BreadcrumbSchema(SchemaItems(base, items));
      && |l| == |items| + 1
      && l[0] == JsonLd.ListItem(1, "Home", base)
      && (forall i :: 0 <= i < |items| ==> l[i + 1].position == i + 2 && l[i + 1].name == items[i].labelText)
      && (forall i :: 0 <= i < |l| ==> l[i].item[..|base|] == base)
  {
    var s := SchemaItems(base, items);
    var l := JsonLd.BreadcrumbSchema(s);
    forall i | 0 <= i < |l|
      ensures l[i].item[..|base|] == base
    {
      if i > 0 {
        assert s[(i - 1) + 1] == JsonLd.Crumb(items[i - 1].labelText, ItemUrl(base, items[i - 1]));
      }
    }
  }

  /** One rendered crumb: its text and the path it links to, if it is a link. */
  datatype TrailEntry = TrailEntry(text: string, link: Option<string>)

  /** Item `i` is a link exactly when it has a path and is not the last item. */
  predicate IsLink(items: seq<BreadcrumbItem>, i: nat)
    requires i < |items|
  {
    HasHref(items[i]) && i < |items| - 1
  }

  /** The rendered trail: the Home link to `/`, then each item as a link or as plain text. */
  function Rendered(items: seq<BreadcrumbItem>): (r: seq<TrailEntry>)
    ensures |r| == |items| + 1
    ensures r[0] == TrailEntry("Home", Some("/"))
    ensures forall i :: 0 <= i < |items| ==> r[i + 1].text == items[i].labelText
    ensures forall i :: 0 <= i < |items| ==> (r[i + 1].link.Some? <==> IsLink(items, i))
    ensures forall i :: 0 <= i < |items| && IsLink(items, i) ==> r[i + 1].link == items[i].href
  {
    [TrailEntry("Home", Some("/"))]
      + seq(|items|, i requires 0 <= i < |items| =>
          TrailEntry(items[i].labelText, if IsLink(items, i) then items[i].href else None))
  }

  /** The current page, the last item, is never a link, whatever its path. */
  lemma LastNeverLink(items: seq<BreadcrumbItem>)
    requires items != []
    ensures Rendered(items)[|items|].link == None
  {
    assert !IsLink(items, |items| - 1);
  }

  /**
   * The rendered trail and the published list agree: same length, same
   * texts in the same order.
   */
  lemma RenderedMatchesSchema(base: string, items: seq<BreadcrumbItem>)
    ensures var r, s := Rendered(items), SchemaItems(base, items);
      |r| == |s| && forall i :: 0 <= i < |r| ==> r[i].text == s[i].name
  {
    var r, s := Rendered(items), SchemaItems(base, items);
    forall i | 0 <= i < |r|
      ensures r[i].text == s[i].name
    {
      if i > 0 {
        assert r[(i - 1) + 1].text == items[i - 1].labelText;
        assert s[(i - 1) + 1].name == items[i - 1].labelText;
      }
    }
  }
}

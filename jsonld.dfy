/**
 * The structured-data (JSON-LD) builders of the site: the escaping that
 * lets serialized JSON sit inside an HTML `<script>` element, and the
 * schema.org objects for the organization, one office, a person, an FAQ
 * page and a breadcrumb trail.
 *
 * The fixed `@context` and `@type` tags of each object are constants and
 * are not carried in the model's records.
 */
module JsonLd {
  import opened Wrappers
  import opened Strings

  /** The six characters backslash, `u`, `0`, `0`, `3`, `c`: the JSON escape of `<`. */
  const LtEscape: string := "\\u003c"

  /**
   * Replaces every `<` by its JSON escape, so that no `</script>` can close
   * the element early.
   */
  function SanitizeJsonLd(json: string): (r: string)
    ensures '<' !in r
    ensures |r| == |json| + 5 * CountChar(json, '<')
  {
    ReplaceAllCharLength(json, '<', LtEscape);
    ReplaceAllChar(json, '<', LtEscape)
  }

  /**
   * The escaping works character by character and keeps the order: the
   * escape of a concatenation is the concatenation of the escapes.
   */
  lemma SanitizeAppend(a: string, b: string)
    ensures SanitizeJsonLd(a + b) == SanitizeJsonLd(a) + SanitizeJsonLd(b)
  {
    ReplaceAllCharAppend(a, b, '<', LtEscape);
  }

  /** A `<` becomes its escape; any other character is kept as it is. */
  lemma SanitizeChar(c: char)
    ensures SanitizeJsonLd([c]) == if c == '<' then LtEscape else [c]
  {
    ReplaceAllCharSingle(c, '<', LtEscape);
  }

  /** Text without `<` passes through unchanged. */
  lemma SanitizeNoLt(json: string)
    requires '<' !in json
    ensures SanitizeJsonLd(json) == json
  {
    ReplaceAllCharAbsent(json, '<', LtEscape);
  }

  /**
   * `buildJsonLd`: serialize, then escape. The serializer is a parameter;
   * whatever it produces, the text placed in the page holds no `<`.
   */
  function BuildJsonLd<T>(stringify: T -> string, data: T): (r: string)
    ensures '<' !in r
    ensures |r| >= |stringify(data)|
  {
    SanitizeJsonLd(stringify(data))
  }

  // ---------------------------------------------------------------------
  // site configuration

  datatype Address = Address(id: string, line1: string, line2: string, city: string, state: string,
                             country: string, phone: string, email: string, lat: real, lng: real)

  datatype SiteConfig = SiteConfig(name: string, url: string, description: string,
                                   phones: seq<string>, emails: seq<string>, social: seq<string>,
                                   addresses: seq<Address>)

  /** The first element of a list; `undefined` for an empty one. */
  function First(xs: seq<string>): (r: Option<string>)
    ensures r == None <==> xs == []
    ensures xs != [] ==> r == Some(xs[0])
  {
    if xs == [] then None else Some(xs[0])
  }

  // ---------------------------------------------------------------------
  // organization

  datatype PostalAddress = PostalAddress(streetAddress: string, locality: string, region: string,
                                         country: string)

  function StreetAddress(a: Address): string {
    a.line1 + ", " + a.line2
  }

  function PostalOf(a: Address): (p: PostalAddress)
    ensures p.locality == a.city && p.region == a.state && p.country == a.country
    ensures p.streetAddress == StreetAddress(a)
  {
    PostalAddress(StreetAddress(a), a.city, a.state, a.country)
  }

  datatype Organization = Organization(name: string, url: string, logo: string, description: string,
                                       telephone: Option<string>, email: Option<string>,
                                       sameAs: seq<string>, address: seq<PostalAddress>)

  /**
   * The organization: the site's name, url and description, its first
   * phone and email, its social profiles, and one postal address per
   * configured office, in order.
   */
  function OrganizationSchema(site: SiteConfig): (o: Organization)
    ensures o.name == site.name && o.url == site.url && o.description == site.description
    ensures o.logo == site.url + "/assets/logo.svg"
    ensures o.telephone == First(site.phones) && o.email == First(site.emails)
    ensures o.sameAs == site.social
    ensures |o.address| == |site.addresses|
    ensures forall i :: 0 <= i < |o.address| ==>
      o.address[i].locality == site.addresses[i].city && o.address[i] == PostalOf(site.addresses[i])
  {
    Organization(site.name, site.url, site.url + "/assets/logo.svg", site.description,
                 First(site.phones), First(site.emails), site.social,
                 seq(|site.addresses|, i requires 0 <= i < |site.addresses| => PostalOf(site.addresses[i])))
  }

  // ---------------------------------------------------------------------
  // one office

  /** `addresses.find(a => a.id === id)`, as the index of the first match. */
  function FindAddress(addrs: seq<Address>, id: string): (r: Option<nat>)
    ensures r == None <==> forall i :: 0 <= i < |addrs| ==> addrs[i].id != id
    ensures r.Some? ==> r.value < |addrs| && addrs[r.value].id == id
    ensures r.Some? ==> forall i :: 0 <= i < r.value ==> addrs[i].id != id
    decreases |addrs|
  {
    if addrs == [] then None
    else if addrs[0].id == id then Some(0)
    else match FindAddress(addrs[1..], id)
      case None => None
      case Some(k) => Some(k + 1)
  }

  const OpeningDays: seq<string> := ["Monday", "Tuesday", "Wednesday", "Thursday", "Friday", "Saturday"]

  datatype LocalBusiness = LocalBusiness(name: string, url: string, telephone: string, email: string,
                                         address: PostalAddress, latitude: real, longitude: real,
                                         dayOfWeek: seq<string>, opens: string, closes: string)

  /**
   * The office with the given id as an accounting service, or nothing
   * (`null`) when no office has that id. Its name is the site's name, an
   * en dash and the office's city.
   */
  function LocalBusinessSchema(site: SiteConfig, officeId: string): (r: Option<LocalBusiness>)
    ensures r == None <==> forall i :: 0 <= i < |site.addresses| ==> site.addresses[i].id != officeId
    ensures r.Some? ==> exists i :: (
      && 0 <= i < |site.addresses| && site.addresses[i].id == officeId
      && (forall j :: 0 <= j < i ==> site.addresses[j].id != officeId)
      && r.value.name == site.name + " \U{2013} " + site.addresses[i].city
      && r.value.address == PostalOf(site.addresses[i])
      && r.value.telephone == site.addresses[i].phone && r.value.email == site.addresses[i].email)
    ensures r.Some? ==> r.value.url == site.url && r.value.opens == "10:00" && r.value.closes == "18:00"
    ensures r.Some? ==> |r.value.dayOfWeek| == 6 && "Sunday" !in r.value.dayOfWeek
  {
    match FindAddress(site.addresses, officeId)
    case None => None
    case Some(i) =>
      var office := site.addresses[i];
      Some(LocalBusiness(site.name + " \U{2013} " + office.city, site.url, office.phone, office.email,
                         PostalOf(office), office.lat, office.lng, OpeningDays, "10:00", "18:00"))
  }

  // ---------------------------------------------------------------------
  // person

  datatype Person = Person(name: string, designation: string, email: string,
                           qualifications: seq<string>, url: Option<string>, image: Option<string>)

  datatype PersonLd = PersonLd(name: string, jobTitle: string, email: string, worksFor: string,
                               url: string, image: Option<string>, hasCredential: seq<string>)

  /** JavaScript truthiness of an optional string: present and non-empty. */
  predicate Given(s: Option<string>) {
    s.Some? && s.value != ""
  }

  /**
   * A partner as a person: their own url when one is given, the site's url
   * otherwise; an image url under the site only when an image is given;
   * one credential per qualification, in order.
   */
  function PersonSchema(site: SiteConfig, person: Person): (r: PersonLd)
    ensures r.name == person.name && r.jobTitle == person.designation && r.email == person.email
    ensures r.worksFor == site.name
    ensures Given(person.url) ==> r.url == person.url.value
    ensures !Given(person.url) ==> r.url == site.url
    ensures r.image == None <==> !Given(person.image)
    ensures r.image.Some? ==> r.image.value == site.url + person.image.value
    ensures r.hasCredential == person.qualifications
  {
    PersonLd(person.name, person.designation, person.email, site.name,
             if Given(person.url) then person.url.value else site.url,
             if Given(person.image) then Some(site.url + person.image.value) else None,
             person.qualifications)
  }

  // ---------------------------------------------------------------------
  // FAQ page

  datatype Faq = Faq(question: string, answer: string)

  datatype Question = Question(name: string, acceptedAnswer: string)

  function FaqSchema(faqs: seq<Faq>): (r: seq<Question>)
    ensures |r| == |faqs|
    ensures forall i :: 0 <= i < |r| ==> r[i].name == faqs[i].question && r[i].acceptedAnswer == faqs[i].answer
  {
    seq(|faqs|, i requires 0 <= i < |faqs| => Question(faqs[i].question, faqs[i].answer))
  }

  /** Reading the questions back gives the FAQ list: nothing is lost, added or reordered. */
  lemma FaqRoundTrip(faqs: seq<Faq>)
    ensures var r := FaqSchema(faqs);
      seq(|r|, i requires 0 <= i < |r| => Faq(r[i].name, r[i].acceptedAnswer)) == faqs
  {
  }

  // ---------------------------------------------------------------------
  // breadcrumb list

  datatype Crumb = Crumb(name: string, url: string)

  datatype ListItem = ListItem(position: nat, name: string, item: string)

  /** One list item per crumb, in order, numbered from 1. */
  function BreadcrumbSchema(items: seq<Crumb>): (r: seq<ListItem>)
    ensures |r| == |items|
    ensures forall i :: 0 <= i < |r| ==> r[i].position == i + 1
    ensures forall i :: 0 <= i < |r| ==> r[i].name == items[i].name && r[i].item == items[i].url
  {
    seq(|items|, i requires 0 <= i < |items| => ListItem(i + 1, items[i].name, items[i].url))
  }

  /** Positions are consecutive: the list is numbered 1, 2, ..., n with no gap or repeat. */
  lemma BreadcrumbPositions(items: seq<Crumb>)
    ensures var r := BreadcrumbSchema(items);
      (|r| > 0 ==> r[0].position == 1 && r[|r| - 1].position == |r|)
      && forall i, j :: 0 <= i < j < |r| ==> r[i].position < r[j].position
  {
  }

  /** Stripping the positions gives the crumbs back. */
  lemma BreadcrumbRoundTrip(items: seq<Crumb>)
    ensures var r := BreadcrumbSchema(items);
      seq(|r|, i requires 0 <= i < |r| => Crumb(r[i].name, r[i].item)) == items
  {
  }
}

/** The site header: the rotating announcement bar and the product search,
    whose suggestion list holds the catalog entries whose title contains the
    query, ignoring letter case, and is emptied for a blank query, on picking
    a suggestion and on a click outside the search box. */
module Navbar {
  import opened JsBuiltins

  /** The fields of a catalog product the search reads and shows. */
  datatype CatalogItem = CatalogItem(id: int, title: string, image: string)

  const Announcements: seq<string> := [
    "Shop your way - Get the best one!",
    "Free shipping on every order \U{2014} delivered across India!",
    "Enjoy hassle-free returns and exchanges"
  ]

  /** The interval callback `(prev + 1) % announcements.length`. */
  function NextAnnouncement(prev: nat): (next: nat)
    requires prev < |Announcements|
    ensures next < |Announcements|
    ensures next != prev
    ensures next == if prev + 1 == |Announcements| then 0 else prev + 1
  {
    (prev + 1) % |Announcements|
  }

  /** Three ticks bring the bar back to where it was, after showing each of
      the other two announcements once. */
  lemma AnnouncementCycle(i: nat)
    requires i < |Announcements|
    ensures var j := NextAnnouncement(i);
      var k := NextAnnouncement(j);
      && NextAnnouncement(k) == i
      && {i, j, k} == {0, 1, 2}
  {
  }

  /** The filter callback: the lower-cased title contains `lowerQuery`. */
  function TitleMatches(lowerQuery: string): (matches: CatalogItem -> bool)
    ensures forall p :: matches(p) ==> |lowerQuery| <= |p.title|
    ensures lowerQuery == "" ==> forall p :: matches(p)
  {
    (p: CatalogItem) => Includes(Lower(p.title), lowerQuery)
  }

  /** The list the search effect stores for `searchQuery`. */
  function SearchResults(query: string, catalog: seq<CatalogItem>): (r: seq<CatalogItem>)
    ensures IsBlank(query) ==> r == []
    ensures !IsBlank(query) ==> forall p ::
      p in r <==> p in catalog && Includes(Lower(p.title), Lower(query))
    ensures !IsBlank(query) ==> forall p :: p in catalog ==>
      multiset(r)[p] == if Includes(Lower(p.title), Lower(query)) then multiset(catalog)[p] else 0
    ensures IsSubsequence(r, catalog)
  {
    TrimEmptyIffBlank(query);
    if Trim(query) == [] then
      EmptyIsSubsequence(catalog);
      []
    else
      FilterIsSubsequence(catalog, TitleMatches(Lower(query)));
      Filter(catalog, TitleMatches(Lower(query)))
  }

  /** `toLowerCase` folds only letters, so it never turns whitespace into
      something else or the reverse. */
  lemma LowerKeepsBlank(q: string)
    ensures IsBlank(Lower(q)) <==> IsBlank(q)
  {
    if !IsBlank(q) {
      var i :| 0 <= i < |q| && !IsWhitespace(q[i]);
      assert !IsWhitespace(Lower(q)[i]);
    }
  }

  /** Two queries that differ only in letter case give the same suggestions. */
  lemma SearchIgnoresCase(q1: string, q2: string, catalog: seq<CatalogItem>)
    requires Lower(q1) == Lower(q2)
    ensures SearchResults(q1, catalog) == SearchResults(q2, catalog)
  {
    LowerKeepsBlank(q1);
    LowerKeepsBlank(q2);
    TrimEmptyIffBlank(q1);
    TrimEmptyIffBlank(q2);
  }

  /** Only the blank test trims the query: a leading space is part of the
      text searched for, so " kurta" does not find a product titled "Kurta". */
  lemma LeadingSpaceIsSearched()
    ensures SearchResults(" kurta", [CatalogItem(1, "Kurta", "k.jpg")]) == []
  {
    var item := CatalogItem(1, "Kurta", "k.jpg");
    assert !IsWhitespace(" kurta"[1]);
    assert Lower(" kurta") == " kurta";
    assert Lower("Kurta") == "kurta";
    IncludesAt("kurta", " kurta");
    assert item !in SearchResults(" kurta", [item]);
  }

  /** The header's search and announcement state. */
  class Header {
    var currentIndex: nat
    var searchQuery: string
    var filteredProducts: seq<CatalogItem>
    const catalog: seq<CatalogItem>

    /** Every effect has run: the bar shows a real announcement and the
        suggestions are those of the current query. */
    ghost predicate Valid()
      reads this
    {
      currentIndex < |Announcements| &&
      filteredProducts == SearchResults(searchQuery, catalog)
    }

    constructor (catalog: seq<CatalogItem>)
      ensures this.catalog == catalog
      ensures currentIndex == 0 && searchQuery == "" && filteredProducts == []
      ensures Valid()
    {
      this.catalog := catalog;
      currentIndex := 0;
      searchQuery := "";
      filteredProducts := [];
    }

    /** The announcement interval firing. */
    method RotateAnnouncement()
      requires Valid()
      modifies this
      ensures currentIndex == NextAnnouncement(old(currentIndex))
      ensures searchQuery == old(searchQuery) && filteredProducts == old(filteredProducts)
      ensures Valid()
    {
      currentIndex := NextAnnouncement(currentIndex);
    }

    /** Typing into the search box, followed by the search effect. */
    method SetSearchQuery(query: string)
      requires Valid()
      modifies this
      ensures searchQuery == query
      ensures filteredProducts == SearchResults(query, catalog)
      ensures currentIndex == old(currentIndex)
      ensures Valid()
    {
      searchQuery := query;
      if Trim(searchQuery) == [] {
        filteredProducts := [];
      } else {
        filteredProducts := Filter(catalog, TitleMatches(Lower(searchQuery)));
      }
    }

    /** Clicking a suggestion: the list closes and the query is cleared. */
    method SelectResult()
      requires Valid()
      modifies this
      ensures searchQuery == "" && filteredProducts == []
      ensures currentIndex == old(currentIndex)
      ensures Valid()
    {
      filteredProducts := [];
      searchQuery := "";
    }

    /** A mousedown on the document; one outside the search box clears the
        query and the list. */
    method MouseDown(outside: bool)
      requires Valid()
      modifies this
      ensures outside ==> searchQuery == "" && filteredProducts == []
      ensures !outside ==> searchQuery == old(searchQuery) && filteredProducts == old(filteredProducts)
      ensures currentIndex == old(currentIndex)
      ensures Valid()
    {
      if outside {
        filteredProducts := [];
        searchQuery := "";
      }
    }
  }
}

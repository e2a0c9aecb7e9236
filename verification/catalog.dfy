/**
 * The shop's catalog query (`allCategories` and `filteredAndSortedProducts` in
 * App.tsx): a search mode and a facet mode, both order-preserving filters.
 */
module Catalog {
  import Wrappers
  import opened Types
  import opened Text
  import opened Seqs

  /** The category sentinel that disables the category facet. */
  const AllCategories: string := "All"

  /** The filter state the shop starts with: every category, at most $200, any rating. */
  const DefaultFilters := FilterState(AllCategories, 20000, 0)

  /** Search mode's test: the lower-cased name or description contains the lower-cased query. */
  predicate MatchesSearch(p: Product, query: string)
  {
    Contains(Lower(p.name), Lower(query)) || Contains(Lower(p.description), Lower(query))
  }

  /** Facet mode's test, all three facets at once. */
  predicate MatchesFacets(p: Product, f: FilterState)
  {
    && (f.category == AllCategories || p.category == f.category)
    && p.priceCents <= f.priceCents
    && (f.ratingTenths > 0 ==> p.ratingTenths >= f.ratingTenths)
  }

  /** The tests of the three facet stages. */
  function InCategory(c: string): Product -> bool
  {
    (p: Product) => p.category == c
  }

  function AtMostPrice(maxCents: int): Product -> bool
  {
    (p: Product) => p.priceCents <= maxCents
  }

  function AtLeastRating(minTenths: int): Product -> bool
  {
    (p: Product) => p.ratingTenths >= minTenths
  }

  /** The facet stages, applied one after the other as the shop applies them. */
  function FacetStages(products: seq<Product>, f: FilterState): seq<Product>
  {
    var byCategory := if f.category != AllCategories then Filter(InCategory(f.category), products) else products;
    var byPrice := Filter(AtMostPrice(f.priceCents), byCategory);
    if f.ratingTenths > 0 then Filter(AtLeastRating(f.ratingTenths), byPrice) else byPrice
  }

  /**
   * The products the shop lists. A non-empty query (not trimmed) selects search
   * mode and ignores the facets; otherwise the facet stages apply. The sort key
   * is accepted but never reorders anything.
   */
  function Query(products: seq<Product>, query: string, f: FilterState, sortBy: SortKey): (r: seq<Product>)
    ensures query != "" ==> forall p :: p in r <==> p in products && MatchesSearch(p, query)
    ensures query == "" ==> forall p :: p in r <==> p in products && MatchesFacets(p, f)
    ensures IsSubsequence(r, products)
  {
    if query != "" then
      Filter(p => MatchesSearch(p, query), products)
    else
      FacetStagesAreOneFilter(products, f);
      FacetStages(products, f)
  }

  /** The chained facet stages equal one filter by `MatchesFacets`. */
  lemma FacetStagesAreOneFilter(products: seq<Product>, f: FilterState)
    ensures FacetStages(products, f) == Filter(p => MatchesFacets(p, f), products)
  {
    var matches := (p: Product) => MatchesFacets(p, f);
    var cat := (p: Product) => f.category == AllCategories || p.category == f.category;
    var catPrice := (p: Product) => cat(p) && p.priceCents <= f.priceCents;
    var byCategory := if f.category != AllCategories then Filter(InCategory(f.category), products) else products;
    if f.category != AllCategories {
      FilterExtensional(InCategory(f.category), cat, products);
    } else {
      FilterKeepsAll(cat, products);
    }
    assert byCategory == Filter(cat, products);
    FilterFilter(AtMostPrice(f.priceCents), cat, catPrice, products);
    var byPrice := Filter(AtMostPrice(f.priceCents), byCategory);
    assert byPrice == Filter(catPrice, products);
    if f.ratingTenths > 0 {
      FilterFilter(AtLeastRating(f.ratingTenths), catPrice, matches, products);
    } else {
      FilterExtensional(catPrice, matches, products);
    }
  }

  /** The query keeps each listed product as many times as the catalog holds it, or drops it entirely. */
  lemma QueryMultiplicity(products: seq<Product>, query: string, f: FilterState, sortBy: SortKey, p: Product)
    ensures multiset(Query(products, query, f, sortBy))[p]
         == if (if query != "" then MatchesSearch(p, query) else MatchesFacets(p, f)) then multiset(products)[p] else 0
  {
    if query != "" {
      FilterMultiplicity(q => MatchesSearch(q, query), products, p);
    } else {
      FacetStagesAreOneFilter(products, f);
      FilterMultiplicity(q => MatchesFacets(q, f), products, p);
    }
  }

  /** In search mode the facets and the sort key make no difference. */
  lemma SearchIgnoresFacets(products: seq<Product>, query: string, f1: FilterState, f2: FilterState, k1: SortKey, k2: SortKey)
    requires query != ""
    ensures Query(products, query, f1, k1) == Query(products, query, f2, k2)
  {
  }

  /** With no query, every category, a ceiling above every price and no rating floor, every product is listed in order. */
  lemma UnconstrainedQueryListsAll(products: seq<Product>, f: FilterState, sortBy: SortKey)
    requires f.category == AllCategories && f.ratingTenths == 0
    requires forall p :: p in products ==> p.priceCents <= f.priceCents
    ensures Query(products, "", f, sortBy) == products
  {
    FacetStagesAreOneFilter(products, f);
    FilterKeepsAll(p => MatchesFacets(p, f), products);
  }

  /** `products.map(p => p.category)`. */
  function Categories(products: seq<Product>): seq<string>
  {
    seq(|products|, i requires 0 <= i < |products| => products[i].category)
  }

  /** The category selector's options: "All" and then each category of the seed catalog once, in first-seen order. */
  function CategoryOptions(seedProducts: seq<Product>): (r: seq<string>)
    ensures |r| > 0 && r[0] == AllCategories
    ensures forall c :: c in r[1..] <==> exists p :: p in seedProducts && p.category == c
    ensures NoDuplicates(r[1..])
    ensures InFirstSeenOrder(r[1..], Categories(seedProducts))
  {
    var cats := Categories(seedProducts);
    assert forall c :: c in cats <==> exists p :: p in seedProducts && p.category == c by {
      forall c | c in cats ensures exists p :: p in seedProducts && p.category == c {
        var i :| 0 <= i < |cats| && cats[i] == c;
        assert seedProducts[i] in seedProducts;
      }
      forall c | exists p :: p in seedProducts && p.category == c ensures c in cats {
        var p :| p in seedProducts && p.category == c;
        var i :| 0 <= i < |seedProducts| && seedProducts[i] == p;
        assert cats[i] == c;
      }
    }
    var r := [AllCategories] + Distinct(cats);
    assert r[1..] == Distinct(cats);
    r
  }

  /** Position `k` holds the first product with this id. */
  predicate FirstWithId(products: seq<Product>, k: int, id: int)
  {
    0 <= k < |products| && products[k].id == id && forall j :: 0 <= j < k ==> products[j].id != id
  }

  /** `products.find(p => p.id === id)`: the first product with that id, if any. */
  function FindProduct(products: seq<Product>, id: int): (r: Wrappers.Option<Product>)
    ensures r.None? <==> forall p :: p in products ==> p.id != id
    ensures r.Some? ==> exists k :: FirstWithId(products, k, id) && products[k] == r.value
  {
    if |products| == 0 then Wrappers.None
    else if products[0].id == id then
      assert FirstWithId(products, 0, id);
      Wrappers.Some(products[0])
    else
      var r := FindProduct(products[1..], id);
      assert forall p :: p in products ==> p == products[0] || p in products[1..];
      if r.Some? then
        var k :| FirstWithId(products[1..], k, id) && products[1..][k] == r.value;
        assert FirstWithId(products, k + 1, id);
        r
      else r
  }
}

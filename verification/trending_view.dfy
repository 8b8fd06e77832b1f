/**
  The home page's trending grid (`components/TrendingProducts.tsx`): the
  public trending links give an ordered list of product ids, the product
  list is filtered to those ids and sorted by each id's position.
 */
module TrendingView {
  import opened Types
  import opened Lists
  import opened Decimal
  import CmsService
  import CmsLaws
  import Api

  /** The product ids of the links, in link order. */
  function LinkIds(links: seq<TrendingProduct>): (ids: seq<string>)
    ensures |ids| == |links|
    ensures forall i :: 0 <= i < |links| ==> ids[i] == links[i].productId
  {
    if |links| == 0 then [] else [links[0].productId] + LinkIds(links[1..])
  }

  lemma {:induction false} LinkIdsMembers(links: seq<TrendingProduct>, productId: string)
    ensures productId in LinkIds(links) <==> exists i :: 0 <= i < |links| && links[i].productId == productId
  {
    var ids := LinkIds(links);
    if productId in ids {
      var k :| 0 <= k < |ids| && ids[k] == productId;
      assert links[k].productId == productId;
    }
  }

  /** The ids the page asks for: those of the enabled links, in display order. */
  function TrendingIds(c: CMSContent): (ids: seq<string>)
    ensures var links := CmsService.GetTrendingProducts(c);
            |ids| == |links| && forall i :: 0 <= i < |ids| ==> ids[i] == links[i].productId
  {
    LinkIds(CmsService.GetTrendingProducts(c))
  }

  /** An id is asked for exactly when some enabled link carries it. */
  lemma TrendingIdsAreEnabledLinks(c: CMSContent, productId: string)
    ensures productId in TrendingIds(c) <==>
            exists i :: 0 <= i < |c.trendingProducts| && c.trendingProducts[i].enabled
                        && c.trendingProducts[i].productId == productId
  {
    var s, v := c.trendingProducts, CmsService.GetTrendingProducts(c);
    LinkIdsMembers(v, productId);
    if productId in TrendingIds(c) {
      var k :| 0 <= k < |v| && v[k].productId == productId;
      assert v[k] in s;
    }
    if exists i :: 0 <= i < |s| && s[i].enabled && s[i].productId == productId {
      var i :| 0 <= i < |s| && s[i].enabled && s[i].productId == productId;
      assert s[i] in multiset(s);
      assert CmsService.TrendingEnabled(s[i]);
      assert s[i] in multiset(v);
      var k :| 0 <= k < |v| && v[k] == s[i];
    }
  }

  function Listed(ids: seq<string>): Product -> bool { (p: Product) => p.id in ids }

  /** `ids.indexOf(p.id)`, the sort key. */
  function Rank(ids: seq<string>): Product -> int { (p: Product) => IndexOf(ids, p.id) }

  /**
    `products.filter(p => ids.includes(p.id))` sorted by `ids.indexOf(p.id)`:
    every product whose id is listed, as often as it is stored, and nothing
    else, so ids with no product drop out; ordered by the position of the
    id, products under the same id in storage order.
   */
  function Join(ids: seq<string>, products: seq<Product>): (r: seq<Product>)
    ensures forall x :: multiset(r)[x] == if x.id in ids then multiset(products)[x] else 0
    ensures forall i :: 0 <= i < |r| ==> r[i].id in ids && r[i] in products
    ensures forall i, j :: 0 <= i < j < |r| ==> IndexOf(ids, r[i].id) <= IndexOf(ids, r[j].id)
    ensures forall k :: WithKey(r, Rank(ids), k) == WithKey(Filter(products, Listed(ids)), Rank(ids), k)
  {
    JoinFacts(ids, products);
    FilterSortBy(products, Listed(ids), Rank(ids))
  }

  lemma JoinFacts(ids: seq<string>, products: seq<Product>)
    ensures var r := FilterSortBy(products, Listed(ids), Rank(ids));
            && (forall x :: multiset(r)[x] == if x.id in ids then multiset(products)[x] else 0)
            && (forall i :: 0 <= i < |r| ==> r[i].id in ids && r[i] in products)
            && (forall i, j :: 0 <= i < j < |r| ==> IndexOf(ids, r[i].id) <= IndexOf(ids, r[j].id))
  {
    var listed, rank := Listed(ids), Rank(ids);
    var r := FilterSortBy(products, listed, rank);
    forall x: Product ensures multiset(r)[x] == if x.id in ids then multiset(products)[x] else 0 {
      assert listed(x) == (x.id in ids);
    }
    forall i | 0 <= i < |r| ensures r[i].id in ids && r[i] in products {
      assert listed(r[i]);
    }
    forall i, j | 0 <= i < j < |r| ensures IndexOf(ids, r[i].id) <= IndexOf(ids, r[j].id) {
      assert rank(r[i]) <= rank(r[j]);
    }
  }

  /** What the grid shows once loaded. */
  function TrendingGrid(c: CMSContent, products: seq<Product>): (r: seq<Product>)
    ensures forall i :: 0 <= i < |r| ==> r[i] in products && r[i].id in TrendingIds(c)
    ensures forall i, j :: 0 <= i < j < |r| ==> IndexOf(TrendingIds(c), r[i].id) <= IndexOf(TrendingIds(c), r[j].id)
  {
    Join(TrendingIds(c), products)
  }

  /** A stored product is shown exactly when an enabled link carries its id. */
  lemma ShownIffLinked(c: CMSContent, products: seq<Product>, p: Product)
    ensures p in TrendingGrid(c, products) <==>
            p in products &&
            exists i :: 0 <= i < |c.trendingProducts| && c.trendingProducts[i].enabled
                        && c.trendingProducts[i].productId == p.id
  {
    var r := TrendingGrid(c, products);
    TrendingIdsAreEnabledLinks(c, p.id);
    assert p in r <==> p in multiset(r);
    assert p in products <==> p in multiset(products);
  }

  /** The skeleton placeholder stands in for a grid while loading or empty. */
  predicate ShowsPlaceholder(loading: bool, shown: seq<Product>): (r: bool)
    ensures loading ==> r
    ensures !loading ==> (r <==> shown == [])
  {
    loading || |shown| == 0
  }

  /** Once loaded, the placeholder shows exactly when no stored product has
      an enabled link. */
  lemma PlaceholderIffNothingLinked(c: CMSContent, products: seq<Product>)
    ensures ShowsPlaceholder(false, TrendingGrid(c, products)) <==>
            forall p :: p in products ==> p.id !in TrendingIds(c)
  {
    var r := TrendingGrid(c, products);
    if |r| > 0 {
      assert r[0] in products && r[0].id in TrendingIds(c);
    }
    if exists p :: p in products && p.id in TrendingIds(c) {
      var p :| p in products && p.id in TrendingIds(c);
      assert p in multiset(products);
      assert p in multiset(r);
    }
  }

  /** When the first `n` products carry the listed ids in list order and no
      later product carries a listed id, the join is those `n` products. */
  lemma JoinOfListedPrefix(ids: seq<string>, s: seq<Product>, n: int)
    requires 0 <= n <= |s|
    requires forall i :: 0 <= i < n ==> IndexOf(ids, s[i].id) == i
    requires forall i :: n <= i < |s| ==> s[i].id !in ids
    ensures Join(ids, s) == s[..n]
  {
    var listed, rank := Listed(ids), Rank(ids);
    assert forall i :: 0 <= i < n ==> listed(s[i]);
    FilterPrefix(s, listed, n);
    var front := s[..n];
    assert forall i :: 0 <= i < |front| ==> rank(front[i]) == i;
    SortBySorted(front, rank);
    assert Join(ids, s) == SortBy(Filter(s, listed), rank);
  }

  /** The seeded links ask for products "1" to "4", in that order. */
  lemma SeededIds(t0: Timestamp)
    ensures TrendingIds(CmsService.Initial(t0)) == ["1", "2", "3", "4"]
  {
    CmsLaws.InitialTrendingListed(t0);
    SeedLinkIds(t0);
  }

  lemma SeedLinkIds(t0: Timestamp)
    ensures LinkIds(CmsService.SeedTrending(t0)) == ["1", "2", "3", "4"]
  {
    var ids := LinkIds(CmsService.SeedTrending(t0));
    assert ids[0] == "1" && ids[1] == "2" && ids[2] == "3" && ids[3] == "4";
  }

  /** The ids of the sample products, as text. */
  lemma SampleIdTexts()
    ensures var s := Api.SampleProducts();
            && s[0].id == "1" && s[1].id == "2" && s[2].id == "3" && s[3].id == "4"
            && s[4].id == "5" && s[5].id == "6" && s[6].id == "7" && s[7].id == "8"
  {
  }

  /** Asked for "1" to "4", the grid over the samples is their first four. */
  lemma SampleGrid(ids: seq<string>)
    requires ids == ["1", "2", "3", "4"]
    ensures Join(ids, Api.SampleProducts()) == Api.SampleProducts()[..4]
  {
    var s := Api.SampleProducts();
    SampleIdTexts();
    assert IndexOf(ids, "1") == 0 && IndexOf(ids, "2") == 1 && IndexOf(ids, "3") == 2 && IndexOf(ids, "4") == 3;
    assert forall i :: 0 <= i < 4 ==> IndexOf(ids, s[i].id) == i;
    assert forall i :: 4 <= i < |s| ==> s[i].id !in ids;
    JoinOfListedPrefix(ids, s, 4);
  }

  /** With the seeded content and the sample products, the home page shows
      samples 1 to 4, in the order of their links. */
  lemma SeededGrid(t0: Timestamp)
    ensures TrendingGrid(CmsService.Initial(t0), Api.SampleProducts()) == Api.SampleProducts()[..4]
  {
    SeededIds(t0);
    SampleGrid(TrendingIds(CmsService.Initial(t0)));
  }
}

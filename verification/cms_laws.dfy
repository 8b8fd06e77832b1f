/**
  Properties of the content store that relate several calls: idempotence of
  the trending add, freshness of minted ids, the singleton lifecycle, and the
  add / list / delete round trip of a review.
 */
module CmsLaws {
  import opened Wrappers
  import opened Types
  import opened Lists
  import opened Decimal
  import opened CmsService

  /** The links stored for one product id, in storage order. */
  function LinksFor(s: seq<TrendingProduct>, productId: string): seq<TrendingProduct> {
    Filter(s, HasProductId(productId))
  }

  /** The invariant the trending add is meant to keep: one link per product. */
  ghost predicate OneLinkPerProduct(s: seq<TrendingProduct>) {
    forall i, j :: 0 <= i < j < |s| ==> s[i].productId != s[j].productId
  }

  /**
    With at most one link for `productId` beforehand, `addTrendingProduct`
    leaves exactly one: the record it returns.
   */
  lemma AddTrendingLeavesOneLink(c: CMSContent, productId: string, now: Timestamp)
    requires |LinksFor(c.trendingProducts, productId)| <= 1
    ensures var (c', added) := AddTrendingProduct(c, productId, now);
            LinksFor(c'.trendingProducts, productId) == [added]
  {
    var s, p := c.trendingProducts, HasProductId(productId);
    var (c', added) := AddTrendingProduct(c, productId, now);
    if Any(s, p) {
      var i :| IsFirst(s, p, i) && added == s[i].(enabled := true, updatedAt := now)
               && c' == c.(trendingProducts := s[i := added]);
      var s' := s[i := added];
      FilterAround(s, p, i);
      FilterAround(s', p, i);
      assert s'[..i] == s[..i] && s'[i + 1..] == s[i + 1..];
      assert [s[i]][1..] == [] && [added][1..] == [];
    } else {
      FilterNonePass(s, p);
      FilterConcat(s, [added], p);
      assert [added][1..] == [];
    }
  }

  /** Adding the same product twice leaves one enabled link for it. */
  lemma AddTrendingTwice(c: CMSContent, productId: string, t1: Timestamp, t2: Timestamp)
    requires |LinksFor(c.trendingProducts, productId)| <= 1
    ensures var c1 := AddTrendingProduct(c, productId, t1).0;
            var (c2, again) := AddTrendingProduct(c1, productId, t2);
            LinksFor(c2.trendingProducts, productId) == [again] && again.enabled
  {
    var c1 := AddTrendingProduct(c, productId, t1).0;
    AddTrendingLeavesOneLink(c, productId, t1);
    AddTrendingLeavesOneLink(c1, productId, t2);
  }

  /** An update whose patch keeps the product id keeps one link per product. */
  lemma UpdateTrendingKeepsOneLinkPerProduct(c: CMSContent, productId: string, patch: TrendingPatch, now: Timestamp)
    requires OneLinkPerProduct(c.trendingProducts)
    requires patch.productId.GetOr(productId) == productId
    ensures OneLinkPerProduct(UpdateTrendingProduct(c, productId, patch, now).0.trendingProducts)
  {
    var s := c.trendingProducts;
    var (c', updated) := UpdateTrendingProduct(c, productId, patch, now);
    if updated.Some? {
      var i :| IsFirst(s, HasProductId(productId), i) && updated.value == patch.ApplyTo(s[i]).(updatedAt := now)
               && c' == c.(trendingProducts := s[i := updated.value]);
      assert forall j :: 0 <= j < |s| ==> c'.trendingProducts[j].productId == s[j].productId;
    }
  }

  /** The links of products "1" and "2", one each. */
  const TwoLinks := CMSContent([], [], [TrendingProduct("1", 1, true, 0, 0), TrendingProduct("2", 2, true, 0, 0)], None, None, [])

  /**
    One link per product is not an invariant of the store: an update whose
    patch carries another product's id gives that product a second link, and
    the trending add, which touches only the first link, leaves both.
   */
  lemma UpdateCanDuplicateLink()
    ensures OneLinkPerProduct(TwoLinks.trendingProducts)
    ensures var c1 := UpdateTrendingProduct(TwoLinks, "2", TrendingPatch(Some("1"), None, None, None, None), 5).0;
            var c2 := AddTrendingProduct(AddTrendingProduct(c1, "1", 6).0, "1", 7).0;
            && !OneLinkPerProduct(c1.trendingProducts)
            && |LinksFor(c2.trendingProducts, "1")| == 2
  {
    var s := TwoLinks.trendingProducts;
    var c1 := UpdateTrendingProduct(TwoLinks, "2", TrendingPatch(Some("1"), None, None, None, None), 5).0;
    assert IsFirst(s, HasProductId("2"), 1);
    assert c1.trendingProducts == [s[0], TrendingProduct("1", 2, true, 0, 5)];
    var a1 := AddTrendingProduct(c1, "1", 6).0;
    assert IsFirst(c1.trendingProducts, HasProductId("1"), 0);
    assert a1.trendingProducts == [TrendingProduct("1", 1, true, 0, 6), TrendingProduct("1", 2, true, 0, 5)];
    var c2 := AddTrendingProduct(a1, "1", 7).0;
    assert IsFirst(a1.trendingProducts, HasProductId("1"), 0);
    var s2 := c2.trendingProducts;
    assert s2 == [TrendingProduct("1", 1, true, 0, 7), TrendingProduct("1", 2, true, 0, 5)];
    FilterAllPass(s2, HasProductId("1"));
    assert |LinksFor(s2, "1")| == 2;
    assert c1.trendingProducts[0].productId == c1.trendingProducts[1].productId;
  }

  /** Two adds of the same product at the same instant act like one. */
  lemma AddTrendingIdempotent(c: CMSContent, productId: string, now: Timestamp)
    ensures var c1 := AddTrendingProduct(c, productId, now).0;
            AddTrendingProduct(c1, productId, now).0 == c1
  {
    var s, p := c.trendingProducts, HasProductId(productId);
    var (c1, added) := AddTrendingProduct(c, productId, now);
    var s1 := c1.trendingProducts;
    var i: int;
    if Any(s, p) {
      i :| IsFirst(s, p, i) && added == s[i].(enabled := true, updatedAt := now)
           && c1 == c.(trendingProducts := s[i := added]);
      assert IsFirst(s1, p, i);
    } else {
      i := |s|;
      assert s1 == s + [added];
      assert IsFirst(s1, p, i);
    }
    assert s1[i] == added;
    var (c2, again) := AddTrendingProduct(c1, productId, now);
    var j :| IsFirst(s1, p, j) && again == s1[j].(enabled := true, updatedAt := now)
             && c2 == c1.(trendingProducts := s1[j := again]);
    IsFirstUnique(s1, p, i, j);
    assert s1[j := again] == s1;
  }

  /** The trending add never creates a second link for a product. */
  lemma AddTrendingKeepsOneLinkPerProduct(c: CMSContent, productId: string, now: Timestamp)
    requires OneLinkPerProduct(c.trendingProducts)
    ensures OneLinkPerProduct(AddTrendingProduct(c, productId, now).0.trendingProducts)
  {
    var s, p := c.trendingProducts, HasProductId(productId);
    if !Any(s, p) {
      var s' := AddTrendingProduct(c, productId, now).0.trendingProducts;
      assert forall i :: 0 <= i < |s| ==> s'[i] == s[i] && s[i].productId != productId;
    }
  }

  /* ----------------------------------------------------------------------
     Minted ids
     ---------------------------------------------------------------------- */

  /** `id` is what the store minted for `prefix` at some earlier instant. */
  ghost predicate MintedBefore(id: string, prefix: string, now: Timestamp) {
    exists t: nat :: t < now && id == Stamped(prefix, t)
  }

  /**
    Ids are unique only as long as the clock moves: if every stored banner id
    was minted before `now`, the new id is new, and afterwards every id was
    minted before any later instant.
   */
  lemma AddBannerIdIsFresh(c: CMSContent, b: Banner, now: Timestamp)
    requires forall i :: 0 <= i < |c.banners| ==> MintedBefore(c.banners[i].id, BannerPrefix, now)
    ensures var (c', added) := AddBanner(c, b, now);
            && !Any(c.banners, BannerHasId(added.id))
            && forall i :: 0 <= i < |c'.banners| ==> MintedBefore(c'.banners[i].id, BannerPrefix, now + 1)
  {
    var (c', added) := AddBanner(c, b, now);
    forall i | 0 <= i < |c.banners|
      ensures c.banners[i].id != added.id
    {
      var t: nat :| t < now && c.banners[i].id == Stamped(BannerPrefix, t);
      if c.banners[i].id == added.id {
        StampedInjective(BannerPrefix, t, now);
      }
    }
  }

  lemma AddReviewIdIsFresh(c: CMSContent, rv: Review, now: Timestamp)
    requires forall i :: 0 <= i < |c.reviews| ==> MintedBefore(c.reviews[i].id, ReviewPrefix, now)
    ensures var (c', added) := AddReview(c, rv, now);
            && !Any(c.reviews, ReviewHasId(added.id))
            && forall i :: 0 <= i < |c'.reviews| ==> MintedBefore(c'.reviews[i].id, ReviewPrefix, now + 1)
  {
    var (c', added) := AddReview(c, rv, now);
    forall i | 0 <= i < |c.reviews|
      ensures c.reviews[i].id != added.id
    {
      var t: nat :| t < now && c.reviews[i].id == Stamped(ReviewPrefix, t);
      if c.reviews[i].id == added.id {
        StampedInjective(ReviewPrefix, t, now);
      }
    }
  }

  lemma AddCategoryIdIsFresh(c: CMSContent, cat: CategoryContent, now: Timestamp)
    requires forall i :: 0 <= i < |c.categories| ==> MintedBefore(c.categories[i].id, CategoryPrefix, now)
    ensures var (c', added) := AddCategory(c, cat, now);
            && !Any(c.categories, CategoryHasId(added.id))
            && forall i :: 0 <= i < |c'.categories| ==> MintedBefore(c'.categories[i].id, CategoryPrefix, now + 1)
  {
    var (c', added) := AddCategory(c, cat, now);
    forall i | 0 <= i < |c.categories|
      ensures c.categories[i].id != added.id
    {
      var t: nat :| t < now && c.categories[i].id == Stamped(CategoryPrefix, t);
      if c.categories[i].id == added.id {
        StampedInjective(CategoryPrefix, t, now);
      }
    }
  }

  /**
    The seeded ids `banner-1`, `cat-1` to `cat-3` and `review-1` (the lists
    `Initial` starts from) have the
    shape of minted ids (instants 1 to 3), so the freshness lemmas apply to
    the seeded store from instant 4 on.
   */
  lemma SeededBannerIdsLookMinted(t0: Timestamp, now: Timestamp)
    requires now > 1
    ensures forall i :: 0 <= i < |SeedBanners(t0)| ==> MintedBefore(SeedBanners(t0)[i].id, BannerPrefix, now)
  {
    var s := SeedBanners(t0);
    SeedStamps();
    forall i | 0 <= i < |s| ensures MintedBefore(s[i].id, BannerPrefix, now) {
      assert s[i].id == Stamped(BannerPrefix, 1);
    }
  }

  lemma SeededCategoryIdsLookMinted(t0: Timestamp, now: Timestamp)
    requires now > 3
    ensures forall i :: 0 <= i < |SeedCategories(t0)| ==> MintedBefore(SeedCategories(t0)[i].id, CategoryPrefix, now)
  {
    var s := SeedCategories(t0);
    SeedStamps();
    forall i | 0 <= i < |s| ensures MintedBefore(s[i].id, CategoryPrefix, now) {
      assert s[i].id == Stamped(CategoryPrefix, i + 1);
    }
  }

  lemma SeededReviewIdsLookMinted(t0: Timestamp, now: Timestamp)
    requires now > 1
    ensures forall i :: 0 <= i < |SeedReviews(t0)| ==> MintedBefore(SeedReviews(t0)[i].id, ReviewPrefix, now)
  {
    var s := SeedReviews(t0);
    SeedStamps();
    forall i | 0 <= i < |s| ensures MintedBefore(s[i].id, ReviewPrefix, now) {
      assert s[i].id == Stamped(ReviewPrefix, 1);
    }
  }

  /** Every seeded record is enabled and already in display order, so each
      public read of the initial content shows all of it, as seeded. */
  lemma InitialReadsShowAll(t0: Timestamp)
    ensures var c := Initial(t0);
            && GetBanners(c) == c.banners && GetCategories(c) == c.categories
            && GetTrendingProducts(c) == c.trendingProducts && GetReviews(c) == c.reviews
            && GetAboutContent(c) == c.aboutContent && GetContactContent(c) == c.contactContent
  {
    SeedBannersListed(t0);
    SeedCategoriesListed(t0);
    SeedTrendingListed(t0);
    SeedReviewsListed(t0);
  }

  lemma InitialTrendingListed(t0: Timestamp)
    ensures GetTrendingProducts(Initial(t0)) == SeedTrending(t0)
  {
    SeedTrendingListed(t0);
  }

  lemma SeedBannersListed(t0: Timestamp)
    ensures FilterSortBy(SeedBanners(t0), BannerEnabled, BannerOrder) == SeedBanners(t0)
  {
    FilterSortByIdentity(SeedBanners(t0), BannerEnabled, BannerOrder);
  }

  lemma SeedCategoriesListed(t0: Timestamp)
    ensures FilterSortBy(SeedCategories(t0), CategoryEnabled, CategoryOrder) == SeedCategories(t0)
  {
    FilterSortByIdentity(SeedCategories(t0), CategoryEnabled, CategoryOrder);
  }

  lemma SeedTrendingListed(t0: Timestamp)
    ensures FilterSortBy(SeedTrending(t0), TrendingEnabled, TrendingOrder) == SeedTrending(t0)
  {
    FilterSortByIdentity(SeedTrending(t0), TrendingEnabled, TrendingOrder);
  }

  lemma SeedReviewsListed(t0: Timestamp)
    ensures Filter(SeedReviews(t0), ReviewEnabled) == SeedReviews(t0)
  {
    FilterAllPass(SeedReviews(t0), ReviewEnabled);
  }

  /** The seeded trending links are one per product. */
  lemma SeededLinksOnePerProduct(t0: Timestamp)
    ensures OneLinkPerProduct(SeedTrending(t0))
  {
    var s := SeedTrending(t0);
    assert |s| == 4;
    forall i, j | 0 <= i < j < |s|
      ensures s[i].productId != s[j].productId
    {
      assert s[i].productId[0] != s[j].productId[0];
    }
  }

  lemma SeedStamps()
    ensures Stamped(BannerPrefix, 1) == "banner-1"
    ensures Stamped(CategoryPrefix, 1) == "cat-1"
    ensures Stamped(CategoryPrefix, 2) == "cat-2"
    ensures Stamped(CategoryPrefix, 3) == "cat-3"
    ensures Stamped(ReviewPrefix, 1) == "review-1"
  {
    assert NatToString(1) == "1" && NatToString(2) == "2" && NatToString(3) == "3";
  }

  /* ----------------------------------------------------------------------
     Round trips
     ---------------------------------------------------------------------- */

  /**
    Add an enabled review, list the reviews, delete it by the id it was
    given, list again, delete again.
   */
  lemma ReviewLifecycle(c: CMSContent, rv: Review, now: Timestamp)
    requires rv.enabled
    ensures var (c1, added) := AddReview(c, rv, now);
            var (c2, removed) := DeleteReview(c1, added.id);
            && added in GetReviews(c1)
            && removed
            && added !in GetReviews(c2)
            && !DeleteReview(c2, added.id).1
  {
    var (c1, added) := AddReview(c, rv, now);
    assert c1.reviews[|c1.reviews| - 1] == added;
    FilterCounts(c1.reviews, ReviewEnabled);
    assert Any(c1.reviews, ReviewHasId(added.id));
    var (c2, removed) := DeleteReview(c1, added.id);
    FilterCounts(c2.reviews, ReviewEnabled);
  }

  /** The first update of a missing contact record creates it from the
      defaults (enabled unless the patch says otherwise), and the public
      read then returns exactly that record. */
  lemma ContactCreatedOnFirstUpdate(c: CMSContent, patch: ContactPatch, now: Timestamp)
    requires c.contactContent.None?
    ensures var (c1, created) := UpdateContactContent(c, patch, now);
            && created.id == patch.id.GetOr("contact-1")
            && created.address == patch.address.GetOr("")
            && created.email == patch.email.GetOr("")
            && created.createdAt == patch.createdAt.GetOr(now)
            && created.updatedAt == now
            && created.enabled == patch.enabled.GetOr(true)
            && GetContactContent(c1) == (if created.enabled then Some(created) else None)
  {
  }

  /** Likewise for the about record, whose default title is "About Us". */
  lemma AboutCreatedOnFirstUpdate(c: CMSContent, patch: AboutPatch, now: Timestamp)
    requires c.aboutContent.None?
    ensures var (c1, created) := UpdateAboutContent(c, patch, now);
            && created.id == patch.id.GetOr("about-1")
            && created.title == patch.title.GetOr("About Us")
            && created.bulletPoints == patch.bulletPoints.GetOr([])
            && created.updatedAt == now
            && created.enabled == patch.enabled.GetOr(true)
            && GetAboutContent(c1) == (if created.enabled then Some(created) else None)
  {
  }

  /**
    A record updated under an id that the patch leaves alone (or sets to the
    same id) is what a lookup by that id returns afterwards.
   */
  lemma UpdateThenGetBanner(c: CMSContent, id: string, patch: BannerPatch, now: Timestamp)
    requires patch.id.GetOr(id) == id
    ensures var (c1, updated) := UpdateBanner(c, id, patch, now);
            GetBanner(c1, id) == updated
  {
    var (c1, updated) := UpdateBanner(c, id, patch, now);
    if updated.Some? {
      var i :| IsFirst(c.banners, BannerHasId(id), i) && updated.value == patch.ApplyTo(c.banners[i]).(updatedAt := now)
               && c1 == c.(banners := c.banners[i := updated.value]);
      FindAfterReplaceFirst(c.banners, BannerHasId(id), i, updated.value);
    }
  }

  lemma UpdateThenGetCategory(c: CMSContent, id: string, patch: CategoryPatch, now: Timestamp)
    requires patch.id.GetOr(id) == id
    ensures var (c1, updated) := UpdateCategory(c, id, patch, now);
            GetCategory(c1, id) == updated
  {
    var (c1, updated) := UpdateCategory(c, id, patch, now);
    if updated.Some? {
      var i :| IsFirst(c.categories, CategoryHasId(id), i) && updated.value == patch.ApplyTo(c.categories[i]).(updatedAt := now)
               && c1 == c.(categories := c.categories[i := updated.value]);
      FindAfterReplaceFirst(c.categories, CategoryHasId(id), i, updated.value);
    }
  }

  lemma UpdateThenGetReview(c: CMSContent, id: string, patch: ReviewPatch, now: Timestamp)
    requires patch.id.GetOr(id) == id
    ensures var (c1, updated) := UpdateReview(c, id, patch, now);
            GetReview(c1, id) == updated
  {
    var (c1, updated) := UpdateReview(c, id, patch, now);
    if updated.Some? {
      var i :| IsFirst(c.reviews, ReviewHasId(id), i) && updated.value == patch.ApplyTo(c.reviews[i]).(updatedAt := now)
               && c1 == c.(reviews := c.reviews[i := updated.value]);
      FindAfterReplaceFirst(c.reviews, ReviewHasId(id), i, updated.value);
    }
  }
}

/**
  The in-memory content store (`services/cmsService.ts`).

  The module-level `cmsContent` object becomes a `CMSContent` value; every
  operation takes the current content and returns the new content together
  with what the TypeScript method returns. The clock (`Date.now()` and
  `new Date().toISOString()`) is the parameter `now`.
 */
module CmsService {
  import opened Wrappers
  import opened Types
  import opened Lists
  import opened Decimal

  /* ----------------------------------------------------------------------
     Keys, flags and orders of the records
     ---------------------------------------------------------------------- */

  function BannerHasId(id: string): Banner -> bool { (b: Banner) => b.id == id }
  function CategoryHasId(id: string): CategoryContent -> bool { (c: CategoryContent) => c.id == id }
  function ReviewHasId(id: string): Review -> bool { (r: Review) => r.id == id }
  function HasProductId(productId: string): TrendingProduct -> bool { (t: TrendingProduct) => t.productId == productId }

  const BannerEnabled: Banner -> bool := (b: Banner) => b.enabled
  const CategoryEnabled: CategoryContent -> bool := (c: CategoryContent) => c.enabled
  const TrendingEnabled: TrendingProduct -> bool := (t: TrendingProduct) => t.enabled
  const ReviewEnabled: Review -> bool := (r: Review) => r.enabled

  const BannerOrder: Banner -> int := (b: Banner) => b.displayOrder
  const CategoryOrder: CategoryContent -> int := (c: CategoryContent) => c.displayOrder
  const TrendingOrder: TrendingProduct -> int := (t: TrendingProduct) => t.displayOrder

  /** Id prefixes of the kinds whose ids the store mints. */
  const BannerPrefix := "banner-"
  const CategoryPrefix := "cat-"
  const ReviewPrefix := "review-"

  /* ----------------------------------------------------------------------
     The seeded content
     ---------------------------------------------------------------------- */

  /** The content the module starts with; `t0` is the instant it loads. */
  function Initial(t0: Timestamp): (c: CMSContent)
    ensures c.aboutContent.Some? && c.contactContent.Some?
    ensures |c.banners| == 1 && |c.categories| == 3 && |c.trendingProducts| == 4 && |c.reviews| == 1
  {
    CMSContent(SeedBanners(t0), SeedCategories(t0), SeedTrending(t0),
               Some(SeedAbout(t0)), Some(SeedContact(t0)), SeedReviews(t0))
  }

  /* The longer texts of the seeded records. */
  const SeedBannerTitle := "Timeless Beauty, Crafted for You"
  const SeedBannerSubtitle :=
    "Experience the finest collection of Hallmark Gold, Diamond & Polki Jadau Jewellery in Pali."
  const SeedBannerImage :=
    "https://images.unsplash.com/photo-1602751584552-8ba43dcb13be?q=80&w=2000&auto=format&fit=crop"
  const SeedGoldImage := "https://images.unsplash.com/photo-1601121141461-9d6647bca1ed?q=80&w=800"
  const SeedSilverImage := "https://images.unsplash.com/photo-1569397288884-4d43d6738fbd?q=80&w=800"
  const SeedBridalImage := "https://images.unsplash.com/photo-1543294001-f7cd5d7fb516?q=80&w=800"
  const SeedAboutDescription :=
    "For over 30 years, Ratannam Gold has been crafting timeless jewelry pieces that celebrate life's most precious moments."
  const SeedAboutImage :=
    "https://images.unsplash.com/photo-1581044777552-2176120200c3?q=80&w=800&auto=format&fit=crop"
  const SeedAboutFeatures: seq<string> := ["Quality Craftsmanship", "Trusted Legacy", "Timeless Designs"]
  const SeedAddress := "123 Jewelry Street, Pali, Rajasthan 306401"
  const SeedHours := "Monday - Saturday: 10:00 AM - 8:00 PM\nSunday: 11:00 AM - 6:00 PM"
  const SeedMapEmbedUrl: string :=
    "https://www.google.com/maps/embed?pb=!1m18!1m12!1m3!1d3567.234567890123!2d73.3398456!3d25.7678901!2m3!1f0!2f0!3f0!3m2!1i1024!2i768!4f13.1!3m3!1m2!1s0x396f17568e55e555%3A0x8e6a0c8f0c0f0c0f!2sPali%2C%20Rajasthan%2C%20India!5e0!3m2!1sen!2sin!4v1234567890123!5m2!1sen!2sin"
  const SeedReviewComment :=
    "The quality of gold and the intricacy of design at Ratannam is unmatched in Pali. Truly a luxury experience."

  function SeedBanners(t0: Timestamp): (r: seq<Banner>)
    ensures |r| == 1 && r[0].id == "banner-1" && r[0].enabled && r[0].displayOrder == 1
    ensures r[0].createdAt == t0 && r[0].updatedAt == t0
  {
    [Banner("banner-1", SeedBannerTitle, SeedBannerSubtitle, SeedBannerImage,
            "Explore Collection", "/products", true, 1, t0, t0)]
  }

  function SeedCategories(t0: Timestamp): (r: seq<CategoryContent>)
    ensures |r| == 3
    ensures forall i :: 0 <= i < |r| ==> r[i].enabled && r[i].displayOrder == i + 1 && r[i].createdAt == t0
  {
    [CategoryContent("cat-1", "Gold Jewellery", SeedGoldImage, true, 1, t0, t0),
     CategoryContent("cat-2", "Silver Artifacts", SeedSilverImage, true, 2, t0, t0),
     CategoryContent("cat-3", "Bridal Sets", SeedBridalImage, true, 3, t0, t0)]
  }

  function SeedTrending(t0: Timestamp): (r: seq<TrendingProduct>)
    ensures |r| == 4
    ensures forall i :: 0 <= i < |r| ==> r[i].enabled && r[i].displayOrder == i + 1 && r[i].createdAt == t0
  {
    [TrendingProduct("1", 1, true, t0, t0),
     TrendingProduct("2", 2, true, t0, t0),
     TrendingProduct("3", 3, true, t0, t0),
     TrendingProduct("4", 4, true, t0, t0)]
  }

  function SeedAbout(t0: Timestamp): (r: AboutContent)
    ensures r.id == "about-1" && r.enabled && |r.bulletPoints| == 3 && r.createdAt == t0
  {
    AboutContent("about-1", "Our Story", SeedAboutDescription, SeedAboutImage, SeedAboutFeatures, true, t0, t0)
  }

  function SeedContact(t0: Timestamp): (r: ContactContent)
    ensures r.id == "contact-1" && r.enabled && r.phone == r.whatsapp && r.createdAt == t0
  {
    ContactContent("contact-1", SeedAddress, "info@ratannamgold.com", "+91 98765 43210", "+91 98765 43210",
                   SeedHours, SeedMapEmbedUrl, true, t0, t0)
  }

  function SeedReviews(t0: Timestamp): (r: seq<Review>)
    ensures |r| == 1 && r[0].id == "review-1" && r[0].enabled && r[0].rating == 5 && r[0].createdAt == t0
  {
    [Review("review-1", "Priya Sharma", SeedReviewComment, 5, "Loyal Customer", true, t0, t0)]
  }

  /* ----------------------------------------------------------------------
     Public reads
     ---------------------------------------------------------------------- */

  /** The public list reads keep the enabled records and sort them by
      `displayOrder`; records of equal order stay in storage order. */
  function GetBanners(c: CMSContent): (r: seq<Banner>)
    ensures IsFilterSort(r, c.banners, BannerEnabled, BannerOrder)
    ensures forall i :: 0 <= i < |r| ==> r[i].enabled && r[i] in c.banners
  {
    FilterSortBy(c.banners, BannerEnabled, BannerOrder)
  }

  function GetCategories(c: CMSContent): (r: seq<CategoryContent>)
    ensures IsFilterSort(r, c.categories, CategoryEnabled, CategoryOrder)
    ensures forall i :: 0 <= i < |r| ==> r[i].enabled && r[i] in c.categories
  {
    FilterSortBy(c.categories, CategoryEnabled, CategoryOrder)
  }

  function GetTrendingProducts(c: CMSContent): (r: seq<TrendingProduct>)
    ensures IsFilterSort(r, c.trendingProducts, TrendingEnabled, TrendingOrder)
    ensures forall i :: 0 <= i < |r| ==> r[i].enabled && r[i] in c.trendingProducts
  {
    FilterSortBy(c.trendingProducts, TrendingEnabled, TrendingOrder)
  }

  /** Reviews are not sorted: the enabled ones, in storage order. */
  function GetReviews(c: CMSContent): (r: seq<Review>)
    ensures IsSelection(r, c.reviews, ReviewEnabled)
    ensures forall i :: 0 <= i < |r| ==> r[i].enabled
  {
    FilterIsSelection(c.reviews, ReviewEnabled);
    Filter(c.reviews, ReviewEnabled)
  }

  /** Lookup by id ignores `enabled`: the first record with that id. */
  function GetBanner(c: CMSContent, id: string): (r: Option<Banner>)
    ensures r.None? <==> !Any(c.banners, BannerHasId(id))
    ensures r.Some? ==> exists i :: IsFirst(c.banners, BannerHasId(id), i) && c.banners[i] == r.value
  {
    Find(c.banners, BannerHasId(id))
  }

  function GetCategory(c: CMSContent, id: string): (r: Option<CategoryContent>)
    ensures r.None? <==> !Any(c.categories, CategoryHasId(id))
    ensures r.Some? ==> exists i :: IsFirst(c.categories, CategoryHasId(id), i) && c.categories[i] == r.value
  {
    Find(c.categories, CategoryHasId(id))
  }

  function GetReview(c: CMSContent, id: string): (r: Option<Review>)
    ensures r.None? <==> !Any(c.reviews, ReviewHasId(id))
    ensures r.Some? ==> exists i :: IsFirst(c.reviews, ReviewHasId(id), i) && c.reviews[i] == r.value
  {
    Find(c.reviews, ReviewHasId(id))
  }

  /** A singleton is public only while it exists and is enabled. */
  function GetAboutContent(c: CMSContent): (r: Option<AboutContent>)
    ensures r.Some? <==> c.aboutContent.Some? && c.aboutContent.value.enabled
    ensures r.Some? ==> r == c.aboutContent
  {
    if c.aboutContent.Some? && c.aboutContent.value.enabled then c.aboutContent else None
  }

  function GetContactContent(c: CMSContent): (r: Option<ContactContent>)
    ensures r.Some? <==> c.contactContent.Some? && c.contactContent.value.enabled
    ensures r.Some? ==> r == c.contactContent
  {
    if c.contactContent.Some? && c.contactContent.value.enabled then c.contactContent else None
  }

  /* ----------------------------------------------------------------------
     add: a fresh id from the clock, both timestamps set to now, appended
     ---------------------------------------------------------------------- */

  function AddBanner(c: CMSContent, b: Banner, now: Timestamp): (r: (CMSContent, Banner))
    ensures r.1.id == Stamped(BannerPrefix, now) && r.1.createdAt == now && r.1.updatedAt == now
    ensures r.1.(id := b.id, createdAt := b.createdAt, updatedAt := b.updatedAt) == b
    ensures r.0 == c.(banners := c.banners + [r.1])
  {
    var added := b.(id := Stamped(BannerPrefix, now), createdAt := now, updatedAt := now);
    (c.(banners := c.banners + [added]), added)
  }

  function AddCategory(c: CMSContent, cat: CategoryContent, now: Timestamp): (r: (CMSContent, CategoryContent))
    ensures r.1.id == Stamped(CategoryPrefix, now) && r.1.createdAt == now && r.1.updatedAt == now
    ensures r.1.(id := cat.id, createdAt := cat.createdAt, updatedAt := cat.updatedAt) == cat
    ensures r.0 == c.(categories := c.categories + [r.1])
  {
    var added := cat.(id := Stamped(CategoryPrefix, now), createdAt := now, updatedAt := now);
    (c.(categories := c.categories + [added]), added)
  }

  function AddReview(c: CMSContent, rv: Review, now: Timestamp): (r: (CMSContent, Review))
    ensures r.1.id == Stamped(ReviewPrefix, now) && r.1.createdAt == now && r.1.updatedAt == now
    ensures r.1.(id := rv.id, createdAt := rv.createdAt, updatedAt := rv.updatedAt) == rv
    ensures r.0 == c.(reviews := c.reviews + [r.1])
  {
    var added := rv.(id := Stamped(ReviewPrefix, now), createdAt := now, updatedAt := now);
    (c.(reviews := c.reviews + [added]), added)
  }

  /* ----------------------------------------------------------------------
     update: shallow merge onto the first match, updatedAt forced to now
     ---------------------------------------------------------------------- */

  function UpdateBanner(c: CMSContent, id: string, patch: BannerPatch, now: Timestamp): (r: (CMSContent, Option<Banner>))
    ensures r.1.None? <==> !Any(c.banners, BannerHasId(id))
    ensures r.1.None? ==> r.0 == c
    ensures r.1.Some? ==> r.1.value.updatedAt == now
    ensures r.1.Some? ==> exists i ::
              && IsFirst(c.banners, BannerHasId(id), i)
              && r.1.value == patch.ApplyTo(c.banners[i]).(updatedAt := now)
              && r.0 == c.(banners := c.banners[i := r.1.value])
  {
    match FirstIndex(c.banners, BannerHasId(id))
    case None => (c, None)
    case Some(i) =>
      var merged := patch.ApplyTo(c.banners[i]).(updatedAt := now);
      (c.(banners := c.banners[i := merged]), Some(merged))
  }

  function UpdateCategory(c: CMSContent, id: string, patch: CategoryPatch, now: Timestamp): (r: (CMSContent, Option<CategoryContent>))
    ensures r.1.None? <==> !Any(c.categories, CategoryHasId(id))
    ensures r.1.None? ==> r.0 == c
    ensures r.1.Some? ==> r.1.value.updatedAt == now
    ensures r.1.Some? ==> exists i ::
              && IsFirst(c.categories, CategoryHasId(id), i)
              && r.1.value == patch.ApplyTo(c.categories[i]).(updatedAt := now)
              && r.0 == c.(categories := c.categories[i := r.1.value])
  {
    match FirstIndex(c.categories, CategoryHasId(id))
    case None => (c, None)
    case Some(i) =>
      var merged := patch.ApplyTo(c.categories[i]).(updatedAt := now);
      (c.(categories := c.categories[i := merged]), Some(merged))
  }

  /** Trending links are updated by `productId`, the key they are stored under. */
  function UpdateTrendingProduct(c: CMSContent, productId: string, patch: TrendingPatch, now: Timestamp): (r: (CMSContent, Option<TrendingProduct>))
    ensures r.1.None? <==> !Any(c.trendingProducts, HasProductId(productId))
    ensures r.1.None? ==> r.0 == c
    ensures r.1.Some? ==> r.1.value.updatedAt == now
    ensures r.1.Some? ==> exists i ::
              && IsFirst(c.trendingProducts, HasProductId(productId), i)
              && r.1.value == patch.ApplyTo(c.trendingProducts[i]).(updatedAt := now)
              && r.0 == c.(trendingProducts := c.trendingProducts[i := r.1.value])
  {
    match FirstIndex(c.trendingProducts, HasProductId(productId))
    case None => (c, None)
    case Some(i) =>
      var merged := patch.ApplyTo(c.trendingProducts[i]).(updatedAt := now);
      (c.(trendingProducts := c.trendingProducts[i := merged]), Some(merged))
  }

  function UpdateReview(c: CMSContent, id: string, patch: ReviewPatch, now: Timestamp): (r: (CMSContent, Option<Review>))
    ensures r.1.None? <==> !Any(c.reviews, ReviewHasId(id))
    ensures r.1.None? ==> r.0 == c
    ensures r.1.Some? ==> r.1.value.updatedAt == now
    ensures r.1.Some? ==> exists i ::
              && IsFirst(c.reviews, ReviewHasId(id), i)
              && r.1.value == patch.ApplyTo(c.reviews[i]).(updatedAt := now)
              && r.0 == c.(reviews := c.reviews[i := r.1.value])
  {
    match FirstIndex(c.reviews, ReviewHasId(id))
    case None => (c, None)
    case Some(i) =>
      var merged := patch.ApplyTo(c.reviews[i]).(updatedAt := now);
      (c.(reviews := c.reviews[i := merged]), Some(merged))
  }

  /* ----------------------------------------------------------------------
     delete: filter out every match, report whether the list shrank
     ---------------------------------------------------------------------- */

  function DeleteBanner(c: CMSContent, id: string): (r: (CMSContent, bool))
    ensures r.1 <==> Any(c.banners, BannerHasId(id))
    ensures IsSelection(r.0.banners, c.banners, Not(BannerHasId(id)))
    ensures !Any(r.0.banners, BannerHasId(id))
    ensures r.0 == c.(banners := r.0.banners)
    ensures !r.1 ==> r.0 == c
  {
    var kept := Filter(c.banners, Not(BannerHasId(id)));
    RemovalFacts(c.banners, BannerHasId(id));
    (c.(banners := kept), |kept| != |c.banners|)
  }

  function DeleteCategory(c: CMSContent, id: string): (r: (CMSContent, bool))
    ensures r.1 <==> Any(c.categories, CategoryHasId(id))
    ensures IsSelection(r.0.categories, c.categories, Not(CategoryHasId(id)))
    ensures !Any(r.0.categories, CategoryHasId(id))
    ensures r.0 == c.(categories := r.0.categories)
    ensures !r.1 ==> r.0 == c
  {
    var kept := Filter(c.categories, Not(CategoryHasId(id)));
    RemovalFacts(c.categories, CategoryHasId(id));
    (c.(categories := kept), |kept| != |c.categories|)
  }

  function RemoveTrendingProduct(c: CMSContent, productId: string): (r: (CMSContent, bool))
    ensures r.1 <==> Any(c.trendingProducts, HasProductId(productId))
    ensures IsSelection(r.0.trendingProducts, c.trendingProducts, Not(HasProductId(productId)))
    ensures !Any(r.0.trendingProducts, HasProductId(productId))
    ensures r.0 == c.(trendingProducts := r.0.trendingProducts)
    ensures !r.1 ==> r.0 == c
  {
    var kept := Filter(c.trendingProducts, Not(HasProductId(productId)));
    RemovalFacts(c.trendingProducts, HasProductId(productId));
    (c.(trendingProducts := kept), |kept| != |c.trendingProducts|)
  }

  function DeleteReview(c: CMSContent, id: string): (r: (CMSContent, bool))
    ensures r.1 <==> Any(c.reviews, ReviewHasId(id))
    ensures IsSelection(r.0.reviews, c.reviews, Not(ReviewHasId(id)))
    ensures !Any(r.0.reviews, ReviewHasId(id))
    ensures r.0 == c.(reviews := r.0.reviews)
    ensures !r.1 ==> r.0 == c
  {
    var kept := Filter(c.reviews, Not(ReviewHasId(id)));
    RemovalFacts(c.reviews, ReviewHasId(id));
    (c.(reviews := kept), |kept| != |c.reviews|)
  }

  /* ----------------------------------------------------------------------
     trending add: re-enable an existing link, or append a new one
     ---------------------------------------------------------------------- */

  function AddTrendingProduct(c: CMSContent, productId: string, now: Timestamp): (r: (CMSContent, TrendingProduct))
    ensures r.1.productId == productId && r.1.enabled && r.1.updatedAt == now
    ensures Any(c.trendingProducts, HasProductId(productId)) ==>
              exists i ::
                && IsFirst(c.trendingProducts, HasProductId(productId), i)
                && r.1 == c.trendingProducts[i].(enabled := true, updatedAt := now)
                && r.0 == c.(trendingProducts := c.trendingProducts[i := r.1])
    ensures !Any(c.trendingProducts, HasProductId(productId)) ==>
              && r.1 == TrendingProduct(productId, |c.trendingProducts| + 1, true, now, now)
              && r.0 == c.(trendingProducts := c.trendingProducts + [r.1])
  {
    match FirstIndex(c.trendingProducts, HasProductId(productId))
    case Some(i) =>
      var enabled := c.trendingProducts[i].(enabled := true, updatedAt := now);
      (c.(trendingProducts := c.trendingProducts[i := enabled]), enabled)
    case None =>
      var added := TrendingProduct(productId, |c.trendingProducts| + 1, true, now, now);
      (c.(trendingProducts := c.trendingProducts + [added]), added)
  }

  /* ----------------------------------------------------------------------
     singletons: created with defaults on first update, then merged
     ---------------------------------------------------------------------- */

  function DefaultAbout(now: Timestamp): AboutContent {
    AboutContent("about-1", "About Us", "", "", [], true, now, now)
  }

  function DefaultContact(now: Timestamp): ContactContent {
    ContactContent("contact-1", "", "", "", "", "", "", true, now, now)
  }

  /** Never returns null: an absent singleton is first created from the
      defaults, then the patch is merged and `updatedAt` set. */
  function UpdateAboutContent(c: CMSContent, patch: AboutPatch, now: Timestamp): (r: (CMSContent, AboutContent))
    ensures r.0 == c.(aboutContent := Some(r.1))
    ensures r.1.updatedAt == now
    ensures c.aboutContent.Some? ==> r.1 == patch.ApplyTo(c.aboutContent.value).(updatedAt := now)
    ensures c.aboutContent.None? ==> r.1 == patch.ApplyTo(DefaultAbout(now)).(updatedAt := now)
  {
    var base := if c.aboutContent.Some? then c.aboutContent.value else DefaultAbout(now);
    var merged := patch.ApplyTo(base).(updatedAt := now);
    (c.(aboutContent := Some(merged)), merged)
  }

  function UpdateContactContent(c: CMSContent, patch: ContactPatch, now: Timestamp): (r: (CMSContent, ContactContent))
    ensures r.0 == c.(contactContent := Some(r.1))
    ensures r.1.updatedAt == now
    ensures c.contactContent.Some? ==> r.1 == patch.ApplyTo(c.contactContent.value).(updatedAt := now)
    ensures c.contactContent.None? ==> r.1 == patch.ApplyTo(DefaultContact(now)).(updatedAt := now)
  {
    var base := if c.contactContent.Some? then c.contactContent.value else DefaultContact(now);
    var merged := patch.ApplyTo(base).(updatedAt := now);
    (c.(contactContent := Some(merged)), merged)
  }
}

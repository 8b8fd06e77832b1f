/**
  The storefront's data layer (`services/api.ts`): a product list and a rates
  record kept in `localStorage` under two keys, and a forwarding layer over
  the content store.

  `localStorage` together with its JSON round trip is a `Storage` value whose
  fields are `None` while the key is absent; a stored empty list is
  `Some([])`, which the seeding check treats as present. The Promise and
  `setTimeout` wrapping is dropped: every call is synchronous.
 */
module Api {
  import opened Wrappers
  import opened Types
  import opened Lists
  import opened Decimal
  import CmsService

  datatype Storage = Storage(products: Option<seq<Product>>, rates: Option<GoldRates>)

  /** Nothing stored under either key. */
  const EmptyStorage := Storage(None, None)

  function ProductHasId(id: string): Product -> bool { (p: Product) => p.id == id }

  /* ----------------------------------------------------------------------
     Seeding, done once when the module loads
     ---------------------------------------------------------------------- */

  const NecklaceImage := "https://images.unsplash.com/photo-1602745587407-68946c0fa3d7?w=400&h=500&fit=crop"
  const BanglesImage := "https://images.unsplash.com/photo-1618508782591-9e82d593e010?w=400&h=500&fit=crop"
  const RingImage := "https://images.unsplash.com/photo-1531078700948-d82e3e0c09d2?w=400&h=500&fit=crop"
  const EarringsImage := "https://images.unsplash.com/photo-1611854786443-9b7bc934e4a2?w=400&h=500&fit=crop"

  function SampleProducts(): (r: seq<Product>)
    ensures |r| == 8
    ensures forall i :: 0 <= i < |r| ==> (r[i].featured <==> i < 4) && r[i].price > 0 && r[i].discount >= 0
  {
    [Product("1", "Gold Necklace", "Beautiful gold necklace", 50000, Gold, NecklaceImage, true, true, 5),
     Product("2", "Silver Bangles", "Elegant silver bangles", 8000, Silver, BanglesImage, true, true, 10),
     Product("3", "Diamond Ring", "Sparkling diamond ring", 120000, Diamond, RingImage, true, false, 0),
     Product("4", "Artificial Earrings", "Designer artificial earrings", 1500, Artificial, EarringsImage, true, true, 15),
     Product("5", "Gold Bracelet", "Classic gold bracelet", 35000, Gold, EarringsImage, false, true, 8),
     Product("6", "Silver Chain", "Traditional silver chain", 12000, Silver, BanglesImage, false, true, 0),
     Product("7", "Pearl Necklace", "Elegant pearl necklace", 25000, Diamond, RingImage, false, false, 12),
     Product("8", "Gold Studs", "Simple gold studs", 8000, Gold, NecklaceImage, false, true, 0)]
  }

  /**
    The samples are written only when the products key is absent; a stored
    list, even an empty one, is left alone, and so is the rates key.
   */
  function Seed(st: Storage): (r: Storage)
    ensures r.products.Some?
    ensures r.rates == st.rates
    ensures st.products.Some? ==> r == st
    ensures st.products.None? ==> r.products == Some(SampleProducts())
  {
    if st.products.None? then st.(products := Some(SampleProducts())) else st
  }

  /** Loading the module twice seeds at most once. */
  lemma SeedIdempotent(st: Storage)
    ensures Seed(Seed(st)) == Seed(st)
  {
  }

  /** The sample ids are the numerals 1 to 8, in order, so they are distinct. */
  lemma SampleIds()
    ensures |SampleProducts()| == 8
    ensures forall i :: 0 <= i < 8 ==> SampleProducts()[i].id == NatToString(i + 1)
    ensures forall i, j :: 0 <= i < j < |SampleProducts()| ==> SampleProducts()[i].id != SampleProducts()[j].id
  {
    var s := SampleProducts();
    forall i | 0 <= i < 8 ensures s[i].id == NatToString(i + 1) {
      assert NatToString(i + 1) == [DigitChar(i + 1)];
    }
    forall i, j | 0 <= i < j < |s| ensures s[i].id != s[j].id {
      if s[i].id == s[j].id { NatToStringInjective(i + 1, j + 1); }
    }
  }

  /* ----------------------------------------------------------------------
     Products
     ---------------------------------------------------------------------- */

  /** The stored list, or the empty list when the key is absent. */
  function GetProducts(st: Storage): (r: seq<Product>)
    ensures st.products.Some? ==> r == st.products.value
    ensures st.products.None? ==> r == []
  {
    st.products.GetOr([])
  }

  /** The first product with that id; `enabled`-style flags play no part. */
  function GetProduct(st: Storage, id: string): (r: Option<Product>)
    ensures r.None? <==> !Any(GetProducts(st), ProductHasId(id))
    ensures r.Some? ==> exists i :: IsFirst(GetProducts(st), ProductHasId(id), i) && GetProducts(st)[i] == r.value
  {
    Find(GetProducts(st), ProductHasId(id))
  }

  /**
    The new product takes the clock's numeral as its id, overriding any id
    the caller passed, and is appended; the list is written back even when
    the key was absent.
   */
  function AddProduct(st: Storage, p: Product, now: Timestamp): (r: (Storage, Product))
    ensures r.1.id == NatToString(now) && r.1.(id := p.id) == p
    ensures r.0 == st.(products := Some(GetProducts(st) + [r.1]))
  {
    var added := p.(id := NatToString(now));
    (st.(products := Some(GetProducts(st) + [added])), added)
  }

  /**
    Shallow merge onto the first product with that id, without any
    timestamp; an unknown id answers `None` and writes nothing, so an
    absent key stays absent.
   */
  function UpdateProduct(st: Storage, id: string, patch: ProductPatch): (r: (Storage, Option<Product>))
    ensures r.1.None? <==> !Any(GetProducts(st), ProductHasId(id))
    ensures r.1.None? ==> r.0 == st
    ensures r.1.Some? ==> exists i ::
              && IsFirst(GetProducts(st), ProductHasId(id), i)
              && r.1.value == patch.ApplyTo(GetProducts(st)[i])
              && r.0 == st.(products := Some(GetProducts(st)[i := r.1.value]))
  {
    var list := GetProducts(st);
    match FirstIndex(list, ProductHasId(id))
    case None => (st, None)
    case Some(i) =>
      var merged := patch.ApplyTo(list[i]);
      (st.(products := Some(list[i := merged])), Some(merged))
  }

  /**
    Removes every product with that id. Storage is rewritten, and the answer
    is `true`, exactly when that shortened the list.
   */
  function DeleteProduct(st: Storage, id: string): (r: (Storage, bool))
    ensures r.1 <==> Any(GetProducts(st), ProductHasId(id))
    ensures !r.1 ==> r.0 == st
    ensures r.0.rates == st.rates
    ensures r.1 ==> r.0.products.Some?
    ensures IsSelection(GetProducts(r.0), GetProducts(st), Not(ProductHasId(id)))
    ensures !Any(GetProducts(r.0), ProductHasId(id))
  {
    var list := GetProducts(st);
    var kept := Filter(list, Not(ProductHasId(id)));
    RemovalFacts(list, ProductHasId(id));
    if |kept| != |list| then (st.(products := Some(kept)), true) else (st, false)
  }

  /**
    A product added at an instant whose numeral no stored product carries
    is found under its new id, and deleting it restores the list.
   */
  lemma AddProductRoundTrip(st: Storage, p: Product, now: Timestamp)
    requires !Any(GetProducts(st), ProductHasId(NatToString(now)))
    ensures var (st1, added) := AddProduct(st, p, now);
            && GetProduct(st1, added.id) == Some(added)
            && DeleteProduct(st1, added.id).1
            && GetProducts(DeleteProduct(st1, added.id).0) == GetProducts(st)
  {
    var (st1, added) := AddProduct(st, p, now);
    var list, pred := GetProducts(st), ProductHasId(added.id);
    assert GetProducts(st1) == list + [added];
    assert IsFirst(GetProducts(st1), pred, |list|);
    FilterConcat(list, [added], Not(pred));
    FilterAllPass(list, Not(pred));
    assert Filter([added], Not(pred)) == [];
  }

  /** A product updated under an id the patch keeps is what a lookup by that
      id returns afterwards. */
  lemma UpdateThenGetProduct(st: Storage, id: string, patch: ProductPatch)
    requires patch.id.GetOr(id) == id
    ensures var (st1, updated) := UpdateProduct(st, id, patch);
            GetProduct(st1, id) == updated
  {
    var (st1, updated) := UpdateProduct(st, id, patch);
    if updated.Some? {
      var list := GetProducts(st);
      var i :| IsFirst(list, ProductHasId(id), i) && updated.value == patch.ApplyTo(list[i])
               && st1 == st.(products := Some(list[i := updated.value]));
      FindAfterReplaceFirst(list, ProductHasId(id), i, updated.value);
    }
  }

  /* ----------------------------------------------------------------------
     Rates
     ---------------------------------------------------------------------- */

  /** The fallback rates; `lastUpdated` is the instant the constants load. */
  function InitialRates(loadedAt: Timestamp): (r: GoldRates)
    ensures r.gold24k == 72000 && r.gold22k == 66000 && r.silver == 800 && r.lastUpdated == loadedAt
  {
    GoldRates(72000, 66000, 800, loadedAt)
  }

  function GetRates(st: Storage, loadedAt: Timestamp): (r: GoldRates)
    ensures st.rates.Some? ==> r == st.rates.value
    ensures st.rates.None? ==> r == InitialRates(loadedAt)
  {
    st.rates.GetOr(InitialRates(loadedAt))
  }

  /** Stores the record as given, answering it back; products are untouched. */
  function UpdateRates(st: Storage, rates: GoldRates): (r: (Storage, GoldRates))
    ensures r.1 == rates
    ensures r.0.products == st.products
    ensures r.0.rates == Some(rates)
  {
    (st.(rates := Some(rates)), rates)
  }

  /** What was last written is what is read back, whatever was there before. */
  lemma RatesRoundTrip(st: Storage, rates: GoldRates, loadedAt: Timestamp)
    ensures GetRates(UpdateRates(st, rates).0, loadedAt) == rates
  {
  }

  /** Until the first write, reads fall back to the initial rates. */
  lemma FreshRatesAreInitial(loadedAt: Timestamp)
    ensures var r := GetRates(Seed(EmptyStorage), loadedAt);
            r.gold24k == 72000 && r.gold22k == 66000 && r.silver == 800 && r.lastUpdated == loadedAt
  {
  }

  /* ----------------------------------------------------------------------
     Forwarding to the content store
     ---------------------------------------------------------------------- */

  /** The whole backend: browser storage and the in-memory content. */
  datatype Backend = Backend(storage: Storage, cms: CMSContent)

  /** The content-store methods `api` exposes, with their arguments. */
  datatype CmsCall =
    | GetBannersCall
    | AddBannerCall(banner: Banner, now: Timestamp)
    | UpdateBannerCall(id: string, bannerPatch: BannerPatch, now: Timestamp)
    | DeleteBannerCall(id: string)
    | GetCategoriesCall
    | AddCategoryCall(category: CategoryContent, now: Timestamp)
    | UpdateCategoryCall(id: string, categoryPatch: CategoryPatch, now: Timestamp)
    | DeleteCategoryCall(id: string)
    | GetTrendingProductsCall
    | AddTrendingProductCall(productId: string, now: Timestamp)
    | UpdateTrendingProductCall(productId: string, trendingPatch: TrendingPatch, now: Timestamp)
    | RemoveTrendingProductCall(productId: string)
    | GetAboutContentCall
    | UpdateAboutContentCall(aboutPatch: AboutPatch, now: Timestamp)
    | GetContactContentCall
    | UpdateContactContentCall(contactPatch: ContactPatch, now: Timestamp)
    | GetReviewsCall
    | AddReviewCall(review: Review, now: Timestamp)
    | UpdateReviewCall(id: string, reviewPatch: ReviewPatch, now: Timestamp)
    | DeleteReviewCall(id: string)
  {
    predicate IsRead() {
      || GetBannersCall? || GetCategoriesCall? || GetTrendingProductsCall?
      || GetAboutContentCall? || GetContactContentCall? || GetReviewsCall?
    }

    /** The part of the content the call is about. */
    function Target(): Part {
      if GetBannersCall? || AddBannerCall? || UpdateBannerCall? || DeleteBannerCall? then BannersPart
      else if GetCategoriesCall? || AddCategoryCall? || UpdateCategoryCall? || DeleteCategoryCall? then CategoriesPart
      else if GetTrendingProductsCall? || AddTrendingProductCall? || UpdateTrendingProductCall? || RemoveTrendingProductCall? then TrendingPart
      else if GetAboutContentCall? || UpdateAboutContentCall? then AboutPart
      else if GetContactContentCall? || UpdateContactContentCall? then ContactPart
      else ReviewsPart
    }
  }

  datatype Part = BannersPart | CategoriesPart | TrendingPart | AboutPart | ContactPart | ReviewsPart

  /** `c'` differs from `c` at most in the named part. */
  predicate SameExcept(c: CMSContent, c': CMSContent, part: Part) {
    && (part != BannersPart ==> c'.banners == c.banners)
    && (part != CategoriesPart ==> c'.categories == c.categories)
    && (part != TrendingPart ==> c'.trendingProducts == c.trendingProducts)
    && (part != AboutPart ==> c'.aboutContent == c.aboutContent)
    && (part != ContactPart ==> c'.contactContent == c.contactContent)
    && (part != ReviewsPart ==> c'.reviews == c.reviews)
  }

  /** What a forwarded call resolves to. */
  datatype CmsAnswer =
    | Banners(banners: seq<Banner>)
    | OneBanner(banner: Option<Banner>)
    | Categories(categories: seq<CategoryContent>)
    | OneCategory(category: Option<CategoryContent>)
    | Links(links: seq<TrendingProduct>)
    | OneLink(link: Option<TrendingProduct>)
    | About(about: Option<AboutContent>)
    | Contact(contact: Option<ContactContent>)
    | Reviews(reviews: seq<Review>)
    | OneReview(review: Option<Review>)
    | Done(done: bool)

  /**
    Every content method of `api` resolves to what the content store answers
    for the same arguments. Browser storage is never touched, reads change
    nothing, and each call changes only its own part of the content.
   */
  function ForwardCms(b: Backend, call: CmsCall): (r: (Backend, CmsAnswer))
    ensures r.0.storage == b.storage
    ensures call.IsRead() ==> r.0 == b
    ensures SameExcept(b.cms, r.0.cms, call.Target())
    ensures call.GetBannersCall? ==> r.1 == Banners(CmsService.GetBanners(b.cms))
    ensures call.AddBannerCall? ==> var (c', v) := CmsService.AddBanner(b.cms, call.banner, call.now);
              r.0.cms == c' && r.1 == OneBanner(Some(v))
    ensures call.UpdateBannerCall? ==> var (c', v) := CmsService.UpdateBanner(b.cms, call.id, call.bannerPatch, call.now);
              r.0.cms == c' && r.1 == OneBanner(v)
    ensures call.DeleteBannerCall? ==> var (c', v) := CmsService.DeleteBanner(b.cms, call.id);
              r.0.cms == c' && r.1 == Done(v)
    ensures call.GetCategoriesCall? ==> r.1 == Categories(CmsService.GetCategories(b.cms))
    ensures call.AddCategoryCall? ==> var (c', v) := CmsService.AddCategory(b.cms, call.category, call.now);
              r.0.cms == c' && r.1 == OneCategory(Some(v))
    ensures call.UpdateCategoryCall? ==> var (c', v) := CmsService.UpdateCategory(b.cms, call.id, call.categoryPatch, call.now);
              r.0.cms == c' && r.1 == OneCategory(v)
    ensures call.DeleteCategoryCall? ==> var (c', v) := CmsService.DeleteCategory(b.cms, call.id);
              r.0.cms == c' && r.1 == Done(v)
    ensures call.GetTrendingProductsCall? ==> r.1 == Links(CmsService.GetTrendingProducts(b.cms))
    ensures call.AddTrendingProductCall? ==> var (c', v) := CmsService.AddTrendingProduct(b.cms, call.productId, call.now);
              r.0.cms == c' && r.1 == OneLink(Some(v))
    ensures call.UpdateTrendingProductCall? ==>
              var (c', v) := CmsService.UpdateTrendingProduct(b.cms, call.productId, call.trendingPatch, call.now);
              r.0.cms == c' && r.1 == OneLink(v)
    ensures call.RemoveTrendingProductCall? ==> var (c', v) := CmsService.RemoveTrendingProduct(b.cms, call.productId);
              r.0.cms == c' && r.1 == Done(v)
    ensures call.GetAboutContentCall? ==> r.1 == About(CmsService.GetAboutContent(b.cms))
    ensures call.UpdateAboutContentCall? ==> var (c', v) := CmsService.UpdateAboutContent(b.cms, call.aboutPatch, call.now);
              r.0.cms == c' && r.1 == About(Some(v))
    ensures call.GetContactContentCall? ==> r.1 == Contact(CmsService.GetContactContent(b.cms))
    ensures call.UpdateContactContentCall? ==> var (c', v) := CmsService.UpdateContactContent(b.cms, call.contactPatch, call.now);
              r.0.cms == c' && r.1 == Contact(Some(v))
    ensures call.GetReviewsCall? ==> r.1 == Reviews(CmsService.GetReviews(b.cms))
    ensures call.AddReviewCall? ==> var (c', v) := CmsService.AddReview(b.cms, call.review, call.now);
              r.0.cms == c' && r.1 == OneReview(Some(v))
    ensures call.UpdateReviewCall? ==> var (c', v) := CmsService.UpdateReview(b.cms, call.id, call.reviewPatch, call.now);
              r.0.cms == c' && r.1 == OneReview(v)
    ensures call.DeleteReviewCall? ==> var (c', v) := CmsService.DeleteReview(b.cms, call.id);
              r.0.cms == c' && r.1 == Done(v)
  {
    var (c', answer) := match call.Target()
      case BannersPart => ForwardBannerCall(b.cms, call)
      case CategoriesPart => ForwardCategoryCall(b.cms, call)
      case TrendingPart => ForwardTrendingCall(b.cms, call)
      case AboutPart => ForwardAboutCall(b.cms, call)
      case ContactPart => ForwardContactCall(b.cms, call)
      case ReviewsPart => ForwardReviewCall(b.cms, call);
    (b.(cms := c'), answer)
  }

  function ForwardBannerCall(c: CMSContent, call: CmsCall): (r: (CMSContent, CmsAnswer))
    requires call.Target() == BannersPart
    ensures SameExcept(c, r.0, BannersPart)
    ensures call.IsRead() ==> r.0 == c
    ensures call.DeleteBannerCall? ==> r.1 == Done(Any(c.banners, CmsService.BannerHasId(call.id)))
    ensures call.GetBannersCall? ==> r.1 == Banners(CmsService.GetBanners(c))
    ensures call.AddBannerCall? ==> var (c', v) := CmsService.AddBanner(c, call.banner, call.now);
              r.0 == c' && r.1 == OneBanner(Some(v))
    ensures call.UpdateBannerCall? ==> var (c', v) := CmsService.UpdateBanner(c, call.id, call.bannerPatch, call.now);
              r.0 == c' && r.1 == OneBanner(v)
    ensures call.DeleteBannerCall? ==> var (c', v) := CmsService.DeleteBanner(c, call.id);
              r.0 == c' && r.1 == Done(v)
  {
    match call
    case AddBannerCall(x, now) =>
      var (c', v) := CmsService.AddBanner(c, x, now); (c', OneBanner(Some(v)))
    case UpdateBannerCall(id, patch, now) =>
      var (c', v) := CmsService.UpdateBanner(c, id, patch, now); (c', OneBanner(v))
    case DeleteBannerCall(id) =>
      var (c', v) := CmsService.DeleteBanner(c, id); (c', Done(v))
    case _ => (c, Banners(CmsService.GetBanners(c)))
  }

  function ForwardCategoryCall(c: CMSContent, call: CmsCall): (r: (CMSContent, CmsAnswer))
    requires call.Target() == CategoriesPart
    ensures SameExcept(c, r.0, CategoriesPart)
    ensures call.IsRead() ==> r.0 == c
    ensures call.DeleteCategoryCall? ==> r.1 == Done(Any(c.categories, CmsService.CategoryHasId(call.id)))
    ensures call.GetCategoriesCall? ==> r.1 == Categories(CmsService.GetCategories(c))
    ensures call.AddCategoryCall? ==> var (c', v) := CmsService.AddCategory(c, call.category, call.now);
              r.0 == c' && r.1 == OneCategory(Some(v))
    ensures call.UpdateCategoryCall? ==> var (c', v) := CmsService.UpdateCategory(c, call.id, call.categoryPatch, call.now);
              r.0 == c' && r.1 == OneCategory(v)
    ensures call.DeleteCategoryCall? ==> var (c', v) := CmsService.DeleteCategory(c, call.id);
              r.0 == c' && r.1 == Done(v)
  {
    match call
    case AddCategoryCall(x, now) =>
      var (c', v) := CmsService.AddCategory(c, x, now); (c', OneCategory(Some(v)))
    case UpdateCategoryCall(id, patch, now) =>
      var (c', v) := CmsService.UpdateCategory(c, id, patch, now); (c', OneCategory(v))
    case DeleteCategoryCall(id) =>
      var (c', v) := CmsService.DeleteCategory(c, id); (c', Done(v))
    case _ => (c, Categories(CmsService.GetCategories(c)))
  }

  function ForwardTrendingCall(c: CMSContent, call: CmsCall): (r: (CMSContent, CmsAnswer))
    requires call.Target() == TrendingPart
    ensures SameExcept(c, r.0, TrendingPart)
    ensures call.IsRead() ==> r.0 == c
    ensures call.RemoveTrendingProductCall? ==>
              r.1 == Done(Any(c.trendingProducts, CmsService.HasProductId(call.productId)))
    ensures call.GetTrendingProductsCall? ==> r.1 == Links(CmsService.GetTrendingProducts(c))
    ensures call.AddTrendingProductCall? ==> var (c', v) := CmsService.AddTrendingProduct(c, call.productId, call.now);
              r.0 == c' && r.1 == OneLink(Some(v))
    ensures call.UpdateTrendingProductCall? ==>
              var (c', v) := CmsService.UpdateTrendingProduct(c, call.productId, call.trendingPatch, call.now);
              r.0 == c' && r.1 == OneLink(v)
    ensures call.RemoveTrendingProductCall? ==> var (c', v) := CmsService.RemoveTrendingProduct(c, call.productId);
              r.0 == c' && r.1 == Done(v)
  {
    match call
    case AddTrendingProductCall(productId, now) =>
      var (c', v) := CmsService.AddTrendingProduct(c, productId, now); (c', OneLink(Some(v)))
    case UpdateTrendingProductCall(productId, patch, now) =>
      var (c', v) := CmsService.UpdateTrendingProduct(c, productId, patch, now); (c', OneLink(v))
    case RemoveTrendingProductCall(productId) =>
      var (c', v) := CmsService.RemoveTrendingProduct(c, productId); (c', Done(v))
    case _ => (c, Links(CmsService.GetTrendingProducts(c)))
  }

  function ForwardAboutCall(c: CMSContent, call: CmsCall): (r: (CMSContent, CmsAnswer))
    requires call.Target() == AboutPart
    ensures SameExcept(c, r.0, AboutPart)
    ensures call.IsRead() ==> r.0 == c
    ensures call.UpdateAboutContentCall? ==> r.1.About? && r.1.about.Some? && r.0.aboutContent == r.1.about
    ensures call.GetAboutContentCall? ==> r.1 == About(CmsService.GetAboutContent(c))
    ensures call.UpdateAboutContentCall? ==> var (c', v) := CmsService.UpdateAboutContent(c, call.aboutPatch, call.now);
              r.0 == c' && r.1 == About(Some(v))
  {
    match call
    case UpdateAboutContentCall(patch, now) =>
      var (c', v) := CmsService.UpdateAboutContent(c, patch, now); (c', About(Some(v)))
    case _ => (c, About(CmsService.GetAboutContent(c)))
  }

  function ForwardContactCall(c: CMSContent, call: CmsCall): (r: (CMSContent, CmsAnswer))
    requires call.Target() == ContactPart
    ensures SameExcept(c, r.0, ContactPart)
    ensures call.IsRead() ==> r.0 == c
    ensures call.UpdateContactContentCall? ==> r.1.Contact? && r.1.contact.Some? && r.0.contactContent == r.1.contact
    ensures call.GetContactContentCall? ==> r.1 == Contact(CmsService.GetContactContent(c))
    ensures call.UpdateContactContentCall? ==> var (c', v) := CmsService.UpdateContactContent(c, call.contactPatch, call.now);
              r.0 == c' && r.1 == Contact(Some(v))
  {
    match call
    case UpdateContactContentCall(patch, now) =>
      var (c', v) := CmsService.UpdateContactContent(c, patch, now); (c', Contact(Some(v)))
    case _ => (c, Contact(CmsService.GetContactContent(c)))
  }

  function ForwardReviewCall(c: CMSContent, call: CmsCall): (r: (CMSContent, CmsAnswer))
    requires call.Target() == ReviewsPart
    ensures SameExcept(c, r.0, ReviewsPart)
    ensures call.IsRead() ==> r.0 == c
    ensures call.DeleteReviewCall? ==> r.1 == Done(Any(c.reviews, CmsService.ReviewHasId(call.id)))
    ensures call.GetReviewsCall? ==> r.1 == Reviews(CmsService.GetReviews(c))
    ensures call.AddReviewCall? ==> var (c', v) := CmsService.AddReview(c, call.review, call.now);
              r.0 == c' && r.1 == OneReview(Some(v))
    ensures call.UpdateReviewCall? ==> var (c', v) := CmsService.UpdateReview(c, call.id, call.reviewPatch, call.now);
              r.0 == c' && r.1 == OneReview(v)
    ensures call.DeleteReviewCall? ==> var (c', v) := CmsService.DeleteReview(c, call.id);
              r.0 == c' && r.1 == Done(v)
  {
    match call
    case AddReviewCall(x, now) =>
      var (c', v) := CmsService.AddReview(c, x, now); (c', OneReview(Some(v)))
    case UpdateReviewCall(id, patch, now) =>
      var (c', v) := CmsService.UpdateReview(c, id, patch, now); (c', OneReview(v))
    case DeleteReviewCall(id) =>
      var (c', v) := CmsService.DeleteReview(c, id); (c', Done(v))
    case _ => (c, Reviews(CmsService.GetReviews(c)))
  }

  /** A forwarded delete repeated at once answers `false` the second time. */
  lemma ForwardedDeleteTwice(b: Backend, call: CmsCall)
    requires call.DeleteBannerCall? || call.DeleteCategoryCall? || call.RemoveTrendingProductCall? || call.DeleteReviewCall?
    ensures ForwardCms(ForwardCms(b, call).0, call) == (ForwardCms(b, call).0, Done(false))
  {
  }
}

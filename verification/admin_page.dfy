/**
  The pure helpers of the admin dashboard (`app/admin/page.tsx`): new-draft
  defaults, the trending badge and removal, the bullet-point editors of the
  about form, and the star rendering of a review.

  The dashboard's own lists are what the public reads return (enabled
  records only, sorted), so its banner list is `GetBanners` of the content
  and its trending list is `GetTrendingProducts`.
 */
module AdminPage {
  import opened Wrappers
  import opened Types
  import opened Lists
  import opened Decimal
  import CmsService
  import Api
  import TrendingView
  import CmsLaws

  /* ----------------------------------------------------------------------
     New drafts
     ---------------------------------------------------------------------- */

  /** The form the "add banner" button opens: an enabled banner with the
      default call to action, placed after the listed ones, whose id is the
      numeral of the clock. */
  function NewBannerDraft(listed: seq<Banner>, now: Timestamp): (d: Banner)
    ensures d.id == NatToString(now) && d.enabled && d.displayOrder == |listed| + 1
    ensures d.title == "" && d.subtitle == "" && d.imageUrl == ""
    ensures d.ctaText == "Shop Now" && d.ctaUrl == "/products"
    ensures d.createdAt == now && d.updatedAt == now
  {
    Banner(NatToString(now), "", "", "", "Shop Now", "/products", true, |listed| + 1, now, now)
  }

  /** The form the "add category" button opens, numbered the same way. */
  function NewCategoryDraft(listed: seq<CategoryContent>, now: Timestamp): (d: CategoryContent)
    ensures d.id == NatToString(now) && d.enabled && d.displayOrder == |listed| + 1
    ensures d.name == "" && d.imageUrl == ""
    ensures d.createdAt == now && d.updatedAt == now
  {
    CategoryContent(NatToString(now), "", "", true, |listed| + 1, now, now)
  }

  /**
    While the listed banners are numbered within 1 to their count, adding an
    enabled banner whose order is the draft's (the count plus one) puts it
    after all of them in the public list.
   */
  lemma NewBannerShownLast(c: CMSContent, b: Banner, t: Timestamp, now: Timestamp)
    requires var listed := CmsService.GetBanners(c);
             forall i :: 0 <= i < |listed| ==> listed[i].displayOrder <= |listed|
    requires b.enabled && b.displayOrder == NewBannerDraft(CmsService.GetBanners(c), t).displayOrder
    ensures var (c', added) := CmsService.AddBanner(c, b, now);
            CmsService.GetBanners(c') == CmsService.GetBanners(c) + [added]
  {
    var added := CmsService.AddBanner(c, b, now).1;
    AppendedAfterView(c.banners, added, CmsService.BannerEnabled, CmsService.BannerOrder);
  }

  lemma NewCategoryShownLast(c: CMSContent, cat: CategoryContent, t: Timestamp, now: Timestamp)
    requires var listed := CmsService.GetCategories(c);
             forall i :: 0 <= i < |listed| ==> listed[i].displayOrder <= |listed|
    requires cat.enabled && cat.displayOrder == NewCategoryDraft(CmsService.GetCategories(c), t).displayOrder
    ensures var (c', added) := CmsService.AddCategory(c, cat, now);
            CmsService.GetCategories(c') == CmsService.GetCategories(c) + [added]
  {
    var added := CmsService.AddCategory(c, cat, now).1;
    AppendedAfterView(c.categories, added, CmsService.CategoryEnabled, CmsService.CategoryOrder);
  }

  /** An enabled record appended with an order no smaller than any listed
      one is listed last. */
  lemma AppendedAfterView<T(!new)>(s: seq<T>, x: T, enabled: T -> bool, order: T -> int)
    requires enabled(x)
    requires var listed := FilterSortBy(s, enabled, order);
             forall i :: 0 <= i < |listed| ==> order(listed[i]) <= order(x)
    ensures FilterSortBy(s + [x], enabled, order) == FilterSortBy(s, enabled, order) + [x]
  {
    var f := Filter(s, enabled);
    var listed := FilterSortBy(s, enabled, order);
    assert listed == SortBy(f, order);
    FilterConcat(s, [x], enabled);
    assert Filter([x], enabled) == [x] by { assert [x][1..] == []; }
    forall i | 0 <= i < |f|
      ensures order(f[i]) <= order(x)
    {
      assert f[i] in multiset(f);
      assert f[i] in multiset(listed);
      var k :| 0 <= k < |listed| && listed[k] == f[i];
    }
    SortAppendLargest(f, x, order);
  }

  /* ----------------------------------------------------------------------
     Saving the banner and category forms
     ---------------------------------------------------------------------- */

  /** The whole form passed as the `Partial` patch of an update: every field
      is carried, so the merge yields the form itself. */
  function BannerFormPatch(b: Banner): (p: BannerPatch)
    ensures forall stored :: p.ApplyTo(stored) == b
  {
    BannerPatch(Some(b.id), Some(b.title), Some(b.subtitle), Some(b.imageUrl), Some(b.ctaText),
                Some(b.ctaUrl), Some(b.enabled), Some(b.displayOrder), Some(b.createdAt), Some(b.updatedAt))
  }

  function CategoryFormPatch(cat: CategoryContent): (p: CategoryPatch)
    ensures forall stored :: p.ApplyTo(stored) == cat
  {
    CategoryPatch(Some(cat.id), Some(cat.name), Some(cat.imageUrl), Some(cat.enabled),
                  Some(cat.displayOrder), Some(cat.createdAt), Some(cat.updatedAt))
  }

  /** A draft's id is a bare numeral, so it never carries a minted prefix. */
  lemma NumeralHasNoPrefix(t: Timestamp, prefix: string)
    requires |prefix| > 0 && !IsDigit(prefix[0])
    ensures !(prefix <= NatToString(t))
  {
    assert IsDigit(NatToString(t)[0]);
  }

  /** No stored record carries a bare numeral as its id while every stored id
      has a minted prefix. */
  lemma NumeralIsNoStoredBanner(banners: seq<Banner>, t: Timestamp)
    requires forall i :: 0 <= i < |banners| ==> CmsService.BannerPrefix <= banners[i].id
    ensures !Any(banners, CmsService.BannerHasId(NatToString(t)))
  {
    forall i | 0 <= i < |banners| ensures banners[i].id != NatToString(t) {
      assert banners[i].id[0] == 'b';
      assert IsDigit(NatToString(t)[0]);
    }
  }

  lemma NumeralIsNoStoredCategory(categories: seq<CategoryContent>, t: Timestamp)
    requires forall i :: 0 <= i < |categories| ==> CmsService.CategoryPrefix <= categories[i].id
    ensures !Any(categories, CmsService.CategoryHasId(NatToString(t)))
  {
    forall i | 0 <= i < |categories| ensures categories[i].id != NatToString(t) {
      assert categories[i].id[0] == 'c';
      assert IsDigit(NatToString(t)[0]);
    }
  }

  /**
    The banner branch of `handleSave` as written: a form whose id starts with
    `banner-` is sent to `addBanner`, any other to `updateBanner` with the
    whole form as the patch.
   */
  function SaveBannerAsWritten(c: CMSContent, form: Banner, now: Timestamp): (r: (CMSContent, Option<Banner>))
    ensures CmsService.BannerPrefix <= form.id ==> r.1.Some? && |r.0.banners| == |c.banners| + 1
    ensures !(CmsService.BannerPrefix <= form.id) ==> (r.1.None? <==> !Any(c.banners, CmsService.BannerHasId(form.id)))
    ensures r.0.categories == c.categories
  {
    if CmsService.BannerPrefix <= form.id then
      var (c', added) := CmsService.AddBanner(c, form, now); (c', Some(added))
    else CmsService.UpdateBanner(c, form.id, BannerFormPatch(form), now)
  }

  /** As written, saving a new banner form stores nothing and answers `null`:
      its numeral id is sent to `updateBanner`, which finds no such banner. */
  lemma DraftBannerSaveIsLost(c: CMSContent, form: Banner, t: Timestamp, now: Timestamp)
    requires forall i :: 0 <= i < |c.banners| ==> CmsService.BannerPrefix <= c.banners[i].id
    requires form.id == NewBannerDraft(CmsService.GetBanners(c), t).id
    ensures SaveBannerAsWritten(c, form, now) == (c, None)
  {
    NumeralHasNoPrefix(t, CmsService.BannerPrefix);
    NumeralIsNoStoredBanner(c.banners, t);
  }

  /** As written, saving an edited stored banner adds a second banner and
      leaves the stored one as it was. */
  lemma EditedBannerSavedAsCopy(c: CMSContent, i: int, form: Banner, now: Timestamp)
    requires 0 <= i < |c.banners| && CmsService.BannerPrefix <= c.banners[i].id
    requires form.id == c.banners[i].id
    ensures var (c', r) := SaveBannerAsWritten(c, form, now);
            && r.Some? && r.value.title == form.title && r.value.displayOrder == form.displayOrder
            && c'.banners == c.banners + [r.value]
  {
  }

  /** The evident intent: a form whose id has no `banner-` prefix is a new
      draft and is added; a stored banner's form is an update. */
  function SaveBanner(c: CMSContent, form: Banner, now: Timestamp): (r: (CMSContent, Option<Banner>))
    ensures !(CmsService.BannerPrefix <= form.id) ==> r.1.Some? && |r.0.banners| == |c.banners| + 1
    ensures CmsService.BannerPrefix <= form.id ==> (r.1.None? <==> !Any(c.banners, CmsService.BannerHasId(form.id)))
    ensures r.0.categories == c.categories
  {
    if !(CmsService.BannerPrefix <= form.id) then
      var (c', added) := CmsService.AddBanner(c, form, now); (c', Some(added))
    else CmsService.UpdateBanner(c, form.id, BannerFormPatch(form), now)
  }

  /** With the intended routing a saved draft is stored and listed last. */
  lemma SavedBannerDraftShownLast(c: CMSContent, form: Banner, t: Timestamp, now: Timestamp)
    requires var listed := CmsService.GetBanners(c);
             forall i :: 0 <= i < |listed| ==> listed[i].displayOrder <= |listed|
    requires var draft := NewBannerDraft(CmsService.GetBanners(c), t);
             form.id == draft.id && form.enabled && form.displayOrder == draft.displayOrder
    ensures var (c', r) := SaveBanner(c, form, now);
            r.Some? && CmsService.GetBanners(c') == CmsService.GetBanners(c) + [r.value]
  {
    NumeralHasNoPrefix(t, CmsService.BannerPrefix);
    NewBannerShownLast(c, form, t, now);
  }

  /** With the intended routing an edited stored banner is replaced in place:
      no banner is added and a lookup answers the saved form. */
  lemma EditedBannerUpdatedInPlace(c: CMSContent, i: int, form: Banner, now: Timestamp)
    requires 0 <= i < |c.banners| && CmsService.BannerPrefix <= c.banners[i].id
    requires form.id == c.banners[i].id
    ensures var (c', r) := SaveBanner(c, form, now);
            && r == Some(form.(updatedAt := now))
            && |c'.banners| == |c.banners|
            && CmsService.GetBanner(c', form.id) == r
  {
    var patch := BannerFormPatch(form);
    assert CmsService.BannerHasId(form.id)(c.banners[i]);
    CmsLaws.UpdateThenGetBanner(c, form.id, patch, now);
  }

  /** The category branch of `handleSave` as written, routed by `cat-`. */
  function SaveCategoryAsWritten(c: CMSContent, form: CategoryContent, now: Timestamp): (r: (CMSContent, Option<CategoryContent>))
    ensures CmsService.CategoryPrefix <= form.id ==> r.1.Some? && |r.0.categories| == |c.categories| + 1
    ensures !(CmsService.CategoryPrefix <= form.id) ==> (r.1.None? <==> !Any(c.categories, CmsService.CategoryHasId(form.id)))
    ensures r.0.banners == c.banners
  {
    if CmsService.CategoryPrefix <= form.id then
      var (c', added) := CmsService.AddCategory(c, form, now); (c', Some(added))
    else CmsService.UpdateCategory(c, form.id, CategoryFormPatch(form), now)
  }

  lemma DraftCategorySaveIsLost(c: CMSContent, form: CategoryContent, t: Timestamp, now: Timestamp)
    requires forall i :: 0 <= i < |c.categories| ==> CmsService.CategoryPrefix <= c.categories[i].id
    requires form.id == NewCategoryDraft(CmsService.GetCategories(c), t).id
    ensures SaveCategoryAsWritten(c, form, now) == (c, None)
  {
    NumeralHasNoPrefix(t, CmsService.CategoryPrefix);
    NumeralIsNoStoredCategory(c.categories, t);
  }

  lemma EditedCategorySavedAsCopy(c: CMSContent, i: int, form: CategoryContent, now: Timestamp)
    requires 0 <= i < |c.categories| && CmsService.CategoryPrefix <= c.categories[i].id
    requires form.id == c.categories[i].id
    ensures var (c', r) := SaveCategoryAsWritten(c, form, now);
            && r.Some? && r.value.name == form.name && r.value.displayOrder == form.displayOrder
            && c'.categories == c.categories + [r.value]
  {
  }

  /** The evident intent for categories, as for banners. */
  function SaveCategory(c: CMSContent, form: CategoryContent, now: Timestamp): (r: (CMSContent, Option<CategoryContent>))
    ensures !(CmsService.CategoryPrefix <= form.id) ==> r.1.Some? && |r.0.categories| == |c.categories| + 1
    ensures CmsService.CategoryPrefix <= form.id ==> (r.1.None? <==> !Any(c.categories, CmsService.CategoryHasId(form.id)))
    ensures r.0.banners == c.banners
  {
    if !(CmsService.CategoryPrefix <= form.id) then
      var (c', added) := CmsService.AddCategory(c, form, now); (c', Some(added))
    else CmsService.UpdateCategory(c, form.id, CategoryFormPatch(form), now)
  }

  lemma SavedCategoryDraftShownLast(c: CMSContent, form: CategoryContent, t: Timestamp, now: Timestamp)
    requires var listed := CmsService.GetCategories(c);
             forall i :: 0 <= i < |listed| ==> listed[i].displayOrder <= |listed|
    requires var draft := NewCategoryDraft(CmsService.GetCategories(c), t);
             form.id == draft.id && form.enabled && form.displayOrder == draft.displayOrder
    ensures var (c', r) := SaveCategory(c, form, now);
            r.Some? && CmsService.GetCategories(c') == CmsService.GetCategories(c) + [r.value]
  {
    NumeralHasNoPrefix(t, CmsService.CategoryPrefix);
    NewCategoryShownLast(c, form, t, now);
  }

  lemma EditedCategoryUpdatedInPlace(c: CMSContent, i: int, form: CategoryContent, now: Timestamp)
    requires 0 <= i < |c.categories| && CmsService.CategoryPrefix <= c.categories[i].id
    requires form.id == c.categories[i].id
    ensures var (c', r) := SaveCategory(c, form, now);
            && r == Some(form.(updatedAt := now))
            && |c'.categories| == |c.categories|
            && CmsService.GetCategory(c', form.id) == r
  {
    var patch := CategoryFormPatch(form);
    assert CmsService.CategoryHasId(form.id)(c.categories[i]);
    CmsLaws.UpdateThenGetCategory(c, form.id, patch, now);
  }

  /* ----------------------------------------------------------------------
     Trending badge and removal
     ---------------------------------------------------------------------- */

  /** The badge of a product row: some enabled link carries its id. */
  function IsTrending(links: seq<TrendingProduct>, productId: string): (r: bool)
    ensures r <==> exists i :: 0 <= i < |links| && links[i].productId == productId && links[i].enabled
  {
    Any(links, (tp: TrendingProduct) => tp.productId == productId && tp.enabled)
  }

  /** The dashboard's badge and the home page's grid agree on every product. */
  lemma BadgeAgreesWithGrid(c: CMSContent, products: seq<Product>, p: Product)
    requires p in products
    ensures IsTrending(CmsService.GetTrendingProducts(c), p.id) <==> p in TrendingView.TrendingGrid(c, products)
  {
    var view := CmsService.GetTrendingProducts(c);
    TrendingView.LinkIdsMembers(view, p.id);
    TrendingView.TrendingIdsAreEnabledLinks(c, p.id);
    TrendingView.ShownIffLinked(c, products, p);
  }

  /** After the trending add the product is trending; after the removal it is not. */
  lemma AddThenRemoveTrending(c: CMSContent, productId: string, now: Timestamp)
    ensures var c1 := CmsService.AddTrendingProduct(c, productId, now).0;
            && IsTrending(c1.trendingProducts, productId)
            && !IsTrending(CmsService.RemoveTrendingProduct(c1, productId).0.trendingProducts, productId)
  {
    var (c1, link) := CmsService.AddTrendingProduct(c, productId, now);
    var s := c.trendingProducts;
    if Any(s, CmsService.HasProductId(productId)) {
      var i :| IsFirst(s, CmsService.HasProductId(productId), i) && link == s[i].(enabled := true, updatedAt := now)
               && c1 == c.(trendingProducts := s[i := link]);
      assert c1.trendingProducts[i] == link;
    } else {
      assert c1.trendingProducts[|s|] == link;
    }
    var s2 := CmsService.RemoveTrendingProduct(c1, productId).0.trendingProducts;
    assert forall i :: 0 <= i < |s2| ==> !CmsService.HasProductId(productId)(s2[i]);
  }

  /** The dashboard's list after a removal: filtered only when the store
      reports success. */
  function RemoveLocally(local: seq<TrendingProduct>, productId: string, success: bool): (r: seq<TrendingProduct>)
    ensures success ==> IsSelection(r, local, Not(CmsService.HasProductId(productId)))
    ensures !success ==> r == local
  {
    if success then
      FilterIsSelection(local, Not(CmsService.HasProductId(productId)));
      Filter(local, Not(CmsService.HasProductId(productId)))
    else local
  }

  /** The removal handler: the forwarded store call, then the local update. */
  function HandleRemoveTrendingProduct(b: Api.Backend, local: seq<TrendingProduct>, productId: string)
    : (r: (Api.Backend, seq<TrendingProduct>))
    ensures r.0.storage == b.storage
    ensures r.0.cms == CmsService.RemoveTrendingProduct(b.cms, productId).0
    ensures Any(b.cms.trendingProducts, CmsService.HasProductId(productId)) ==>
              IsSelection(r.1, local, Not(CmsService.HasProductId(productId)))
    ensures !Any(b.cms.trendingProducts, CmsService.HasProductId(productId)) ==> r.1 == local
  {
    var (b', answer) := Api.ForwardCms(b, Api.RemoveTrendingProductCall(productId));
    (b', RemoveLocally(local, productId, answer.done))
  }

  /**
    When the dashboard's list is the store's public trending list, the
    removal leaves no badge for the product, whether or not the store held
    a link for it.
   */
  lemma RemovalClearsBadge(b: Api.Backend, productId: string)
    ensures var local := CmsService.GetTrendingProducts(b.cms);
            !IsTrending(HandleRemoveTrendingProduct(b, local, productId).1, productId)
  {
    var s, local := b.cms.trendingProducts, CmsService.GetTrendingProducts(b.cms);
    var p := CmsService.HasProductId(productId);
    var r := HandleRemoveTrendingProduct(b, local, productId).1;
    if Any(s, p) {
      NoneLeftAfterFilter(local, productId);
    } else {
      NoLinkNotListed(s, local, productId);
    }
  }

  lemma NoneLeftAfterFilter(local: seq<TrendingProduct>, productId: string)
    ensures !IsTrending(Filter(local, Not(CmsService.HasProductId(productId))), productId)
  {
    var r := Filter(local, Not(CmsService.HasProductId(productId)));
    assert forall i :: 0 <= i < |r| ==> Not(CmsService.HasProductId(productId))(r[i]);
  }

  lemma NoLinkNotListed(s: seq<TrendingProduct>, local: seq<TrendingProduct>, productId: string)
    requires !Any(s, CmsService.HasProductId(productId))
    requires forall i :: 0 <= i < |local| ==> local[i] in s
    ensures !IsTrending(local, productId)
  {
    forall i | 0 <= i < |local|
      ensures local[i].productId != productId
    {
      var k :| 0 <= k < |s| && s[k] == local[i];
      assert !CmsService.HasProductId(productId)(s[k]);
    }
  }

  /* ----------------------------------------------------------------------
     Bullet points of the about form
     ---------------------------------------------------------------------- */

  /**
    `copy[index] = value` on a JavaScript array: in range it replaces one
    entry, at the end it appends, and a negative index sets a property that
    is not an element. An index past the end would leave holes in the array,
    which a sequence cannot hold: that case answers `None`.
   */
  function ChangeBulletPoint(points: seq<string>, index: int, value: string): (r: Option<seq<string>>)
    ensures r.None? <==> index > |points|
    ensures index < 0 ==> r == Some(points)
    ensures 0 <= index <= |points| ==>
              && |r.value| == (if index == |points| then |points| + 1 else |points|)
              && r.value[index] == value
              && forall j :: 0 <= j < |points| && j != index ==> r.value[j] == points[j]
  {
    if index < 0 then Some(points)
    else if index < |points| then Some(points[index := value])
    else if index == |points| then Some(points + [value])
    else None
  }

  function AddBulletPoint(points: seq<string>): (r: seq<string>)
    ensures |r| == |points| + 1 && r[..|points|] == points && r[|points|] == ""
  {
    points + [""]
  }

  /** `points.filter((_, i) => i !== index)`, one entry at a time. */
  function RemoveBulletPoint(points: seq<string>, index: int): (r: seq<string>)
    ensures 0 <= index < |points| ==> r == points[..index] + points[index + 1..]
    ensures !(0 <= index < |points|) ==> r == points
    decreases |points|
  {
    if |points| == 0 then []
    else
      var rest := RemoveBulletPoint(points[1..], index - 1);
      assert points == [points[0]] + points[1..];
      if index == 0 then points[1..]
      else
        assert 0 < index < |points| ==> points[..index] == [points[0]] + points[1..][..index - 1];
        [points[0]] + rest
  }

  /** Writing an empty string just past the end is adding a bullet point. */
  lemma ChangeAtEndIsAdd(points: seq<string>)
    ensures ChangeBulletPoint(points, |points|, "") == Some(AddBulletPoint(points))
  {
  }

  /** Removing the bullet point just added gives the list back. */
  lemma RemoveUndoesAdd(points: seq<string>)
    ensures RemoveBulletPoint(AddBulletPoint(points), |points|) == points
  {
    assert AddBulletPoint(points)[..|points|] == points;
  }

  /** Removing an entry forgets whatever was written into it. */
  lemma RemoveForgetsChange(points: seq<string>, index: int, value: string)
    requires 0 <= index < |points|
    ensures RemoveBulletPoint(ChangeBulletPoint(points, index, value).value, index) == RemoveBulletPoint(points, index)
  {
    var changed := points[index := value];
    assert changed[..index] == points[..index];
    assert changed[index + 1..] == points[index + 1..];
  }

  /* ----------------------------------------------------------------------
     Star rating
     ---------------------------------------------------------------------- */

  const FilledStar: char := '\U{2605}'
  const EmptyStar: char := '\U{2606}'

  /** `c.repeat(n)` for a single-character string `c`. */
  function Repeat(c: char, n: nat): (r: string)
    ensures |r| == n
    ensures forall i :: 0 <= i < n ==> r[i] == c
  {
    if n == 0 then "" else [c] + Repeat(c, n - 1)
  }

  /**
    `'★'.repeat(rating) + '☆'.repeat(5 - rating)`. A negative count makes
    `repeat` throw a RangeError, so a rating outside 0 to 5 renders nothing
    (`None`); inside, five stars, the first `rating` of them filled.
   */
  function StarString(rating: int): (r: Option<string>)
    ensures r.Some? <==> 0 <= rating <= 5
    ensures r.Some? ==> |r.value| == 5
    ensures r.Some? ==> forall i :: 0 <= i < 5 ==> r.value[i] == if i < rating then FilledStar else EmptyStar
  {
    if 0 <= rating <= 5 then Some(Repeat(FilledStar, rating) + Repeat(EmptyStar, 5 - rating)) else None
  }

  lemma {:induction false} RepeatCounts(c: char, n: nat, d: char)
    ensures multiset(Repeat(c, n))[d] == if d == c then n else 0
  {
    if n > 0 {
      RepeatCounts(c, n - 1, d);
      assert Repeat(c, n) == [c] + Repeat(c, n - 1);
    }
  }

  /** The number of filled stars is the rating, and of empty ones the rest. */
  lemma StarsCountRating(rating: int)
    requires 0 <= rating <= 5
    ensures multiset(StarString(rating).value)[FilledStar] == rating
    ensures multiset(StarString(rating).value)[EmptyStar] == 5 - rating
  {
    RepeatCounts(FilledStar, rating, FilledStar);
    RepeatCounts(FilledStar, rating, EmptyStar);
    RepeatCounts(EmptyStar, 5 - rating, FilledStar);
    RepeatCounts(EmptyStar, 5 - rating, EmptyStar);
  }
}

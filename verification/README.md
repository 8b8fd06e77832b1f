# Ratannam Gold storefront: content store, product store and derived views

This Dafny project models the data core of the jewelry-web storefront, a Next.js shop.

- **The in-memory content store** (`services/cmsService.ts`) is one `CMSContent` aggregate. It holds four lists: banners, categories, trending links and reviews. It also holds two nullable singletons: the about record and the contact record. Operations on it:
  - public reads, which keep only the enabled records and sort them by `displayOrder`;
  - lookups by id;
  - adds that mint a prefixed, clock-derived id;
  - shallow-merge updates that answer `null` for an unknown id;
  - deletes that filter and report whether the list shrank;
  - the trending add, which re-enables an existing link instead of adding a duplicate;
  - singletons that are created from defaults on their first update.
- **The product and rates store** (`services/api.ts`) keeps a product list and a rates record in browser storage. It seeds eight sample products once. It offers CRUD over the products and a fallback for the rates. Its content methods forward to the content store.
- **The derived views:**
  - the trending grid of the home page (`components/TrendingProducts.tsx`);
  - the category tabs and filter of the catalogue (`app/products/page.tsx`);
  - the helpers of the admin dashboard (`app/admin/page.tsx`): draft defaults, the trending badge and removal, the bullet-point editors and the star rating.

Every store is a value. Each operation takes the current state and returns the new state together with the TypeScript method's answer. The clock is a parameter `now`: a count of milliseconds that stands for both `Date.now()` and `new Date().toISOString()`. Content ids are a kind prefix followed by the decimal numeral of `now` (`Decimal.Stamped`). Product ids are the bare numeral (`services/api.ts:50`), and so are the ids of the dashboard's new-record drafts. The numeral is proved injective. `Partial<T>` updates are patch datatypes whose `ApplyTo` is the object spread `{...stored, ...patch}`. `Array.prototype.sort` with a subtracting comparator is a stable insertion sort (`Lists.SortBy`). It is specified independently:
- it is a permutation;
- it is ascending;
- for every key, the records with that key keep their order (`WithKey`).

Files:
- `wrappers.dfy`: `Option`.
- `lists.dfy`: `filter`, `find`, `findIndex`, `indexOf`, `some` and the stable sort, with their specifications.
- `decimal.dfy`: numerals and minted ids.
- `types.dfy`: the record types and patches of `types.ts`.
- `cms_service.dfy`: the content store.
- `cms_laws.dfy`: properties that relate several content-store calls.
- `api.dfy`: storage, products, rates and forwarding.
- `trending_view.dfy`: the home page's trending grid.
- `products_page.dfy`: the catalogue page.
- `admin_page.dfy`: the dashboard helpers.

## Model

| member | source | states |
|---|---|---|
| `CmsService.GetBanners` | services/cmsService.ts:104-106 | The enabled banners, each as often as stored, and nothing else. They are ascending by `displayOrder`, and banners of equal order keep storage order. |
| `CmsService.GetCategories` | services/cmsService.ts:143-145 | The same public-view contract for categories: enabled only, a permutation of that subset, ascending and stable. |
| `CmsService.GetTrendingProducts` | services/cmsService.ts:182-184 | The same public-view contract for trending links. |
| `CmsService.GetReviews` | services/cmsService.ts:284-286 | Exactly the enabled reviews, as a subsequence in storage order, with no sorting. |
| `CmsService.GetBanner` | services/cmsService.ts:108-110 | Absent iff no banner has the id. Otherwise the first banner with it, enabled or not. |
| `CmsService.GetCategory` | services/cmsService.ts:147-149 | Absent iff no category has the id. Otherwise the first category with it, enabled or not. |
| `CmsService.GetReview` | services/cmsService.ts:288-290 | Absent iff no review has the id. Otherwise the first review with it, enabled or not. |
| `CmsService.GetAboutContent` | services/cmsService.ts:226-228 | Present iff the about record exists and is enabled, and then it is that record. |
| `CmsService.GetContactContent` | services/cmsService.ts:254-256 | Present iff the contact record exists and is enabled, and then it is that record. |
| `CmsService.AddBanner` | services/cmsService.ts:112-121 | Appends one banner. Its id is `banner-` plus the clock numeral, whatever the caller passed, and both timestamps are `now`. Its other fields are the caller's, and nothing else changes. |
| `CmsService.AddCategory` | services/cmsService.ts:151-160 | The same for categories, with the prefix `cat-`. |
| `CmsService.AddReview` | services/cmsService.ts:292-301 | The same for reviews, with the prefix `review-`. |
| `CmsService.UpdateBanner` | services/cmsService.ts:123-134 | Answers `None` iff no banner has the id, and then nothing changes. Otherwise only the first match is replaced, by the patch merged onto it with `updatedAt` forced to `now`. The merge does not protect `id` or `createdAt`. |
| `CmsService.UpdateCategory` | services/cmsService.ts:162-173 | The same merge-first-match contract for categories. |
| `CmsService.UpdateTrendingProduct` | services/cmsService.ts:206-217 | The same contract for trending links, keyed by `productId`. |
| `CmsService.UpdateReview` | services/cmsService.ts:303-314 | The same merge-first-match contract for reviews. |
| `CmsService.DeleteBanner` | services/cmsService.ts:136-140 | Removes every banner with the id and keeps the rest in order. Answers true iff one existed. Other parts are untouched, and on false nothing changes. |
| `CmsService.DeleteCategory` | services/cmsService.ts:175-179 | The same removal contract for categories. |
| `CmsService.RemoveTrendingProduct` | services/cmsService.ts:219-223 | The same removal contract for trending links, keyed by `productId`. |
| `CmsService.DeleteReview` | services/cmsService.ts:316-320 | The same removal contract for reviews. |
| `CmsService.AddTrendingProduct` | services/cmsService.ts:186-204 | If a link for the product exists, the first one is re-enabled in place with `updatedAt` refreshed and its order kept. Otherwise an enabled link is appended with order = old length + 1, where disabled links count too. |
| `CmsService.UpdateAboutContent` | services/cmsService.ts:230-251 | Never null. The patch is merged onto the stored record, or onto the default record (`about-1`, "About Us", no bullet points, enabled) when there is none. `updatedAt` is `now`. |
| `CmsService.UpdateContactContent` | services/cmsService.ts:258-281 | Never null. The patch is merged onto the stored record, or onto the default (`contact-1`, empty strings, enabled). `updatedAt` is `now`. |
| `CmsLaws.AddTrendingLeavesOneLink` | services/cmsService.ts:186-204 | With at most one link for a product beforehand, the add leaves exactly one link for it: the returned record. |
| `CmsLaws.AddTrendingTwice` | services/cmsService.ts:186-204 | With at most one link for the product beforehand, adding it twice leaves exactly one link for it, and that link is enabled. |
| `CmsLaws.UpdateTrendingKeepsOneLinkPerProduct` | services/cmsService.ts:206-217 | An update whose patch leaves `productId` alone, or sets it to the looked-up id, keeps one link per product. |
| `CmsLaws.UpdateCanDuplicateLink` | services/cmsService.ts:186-217 | One link per product is not an invariant of the store. An update that moves a link to another product's id breaks it, and two adds of that product then leave two links. |
| `CmsLaws.AddTrendingIdempotent` | services/cmsService.ts:186-204 | A second add of the same product at the same instant changes nothing. |
| `CmsLaws.AddTrendingKeepsOneLinkPerProduct` | services/cmsService.ts:186-204 | The add preserves the invariant of one link per product. |
| `CmsLaws.AddBannerIdIsFresh` | services/cmsService.ts:112-121 | If every stored banner id was minted before `now`, the new id matches no stored banner. Afterwards all ids were minted before `now + 1`. |
| `CmsLaws.AddCategoryIdIsFresh` | services/cmsService.ts:151-160 | The same freshness argument for category ids. |
| `CmsLaws.AddReviewIdIsFresh` | services/cmsService.ts:292-301 | The same freshness argument for review ids. |
| `CmsService.Initial` | services/cmsService.ts:12-100 | The seeded content: the about and contact records exist, with one banner, three categories, four trending links and one review. |
| `CmsService.SeedBanners` | services/cmsService.ts:13-26 | One enabled banner `banner-1` with order 1, stamped with the load instant. |
| `CmsService.SeedCategories` | services/cmsService.ts:27-55 | Three enabled categories, numbered 1 to 3 in storage order. |
| `CmsService.SeedTrending` | services/cmsService.ts:56-61 | Four enabled trending links, numbered 1 to 4 in storage order. |
| `CmsService.SeedAbout` | services/cmsService.ts:62-75 | The enabled `about-1` record with three bullet points. |
| `CmsService.SeedContact` | services/cmsService.ts:76-87 | The enabled `contact-1` record, whose phone and WhatsApp numbers are the same. |
| `CmsService.SeedReviews` | services/cmsService.ts:88-99 | One enabled five-star review `review-1`. |
| `CmsLaws.InitialReadsShowAll` | services/cmsService.ts:12-106 | Every public read of the seeded content returns all of the seeded records, in storage order. |
| `CmsLaws.SeededBannerIdsLookMinted` | services/cmsService.ts:13-26 | The seeded `banner-1` has the shape of an id minted at instant 1. |
| `CmsLaws.SeededCategoryIdsLookMinted` | services/cmsService.ts:27-55 | The seeded `cat-1` to `cat-3` have the shape of ids minted at instants 1 to 3. |
| `CmsLaws.SeededReviewIdsLookMinted` | services/cmsService.ts:88-99 | The seeded `review-1` has the shape of an id minted at instant 1. |
| `CmsLaws.SeededLinksOnePerProduct` | services/cmsService.ts:56-61 | The four seeded trending links are for four different products. |
| `CmsLaws.ReviewLifecycle` | services/cmsService.ts:284-320 | An added enabled review is publicly listed and deleting it answers true. It is then no longer listed, and a second delete answers false. |
| `CmsLaws.UpdateThenGetBanner` | services/cmsService.ts:108-134 | After an update whose patch keeps the id, looking the id up returns the record the update answered. That is `None` exactly when the id was unknown. |
| `CmsLaws.UpdateThenGetCategory` | services/cmsService.ts:147-173 | The same update-then-lookup round trip for categories. |
| `CmsLaws.UpdateThenGetReview` | services/cmsService.ts:288-314 | The same update-then-lookup round trip for reviews. |
| `CmsLaws.AboutCreatedOnFirstUpdate` | services/cmsService.ts:226-251 | The first update of a missing about record creates it from the defaults and the patch. The public read then returns it iff it is enabled. |
| `CmsLaws.ContactCreatedOnFirstUpdate` | services/cmsService.ts:254-281 | The same for the contact record. |
| `Decimal.NatToString` | services/api.ts:50 | The numeral of the clock: non-empty, all digits, with the last digit the units digit. |
| `Decimal.NatToStringInjective` | services/api.ts:50 | Different instants render to different numerals. |
| `Decimal.StampedInjective` | services/cmsService.ts:115 | Ids minted with one prefix at different instants differ. |
| `Lists.SortBy` | services/cmsService.ts:105 | The comparator sort: a permutation, ascending by key, and stable for every key. |
| `Lists.SelectionIsFilter` | services/cmsService.ts:285 | The order-preserving selection of exactly the matching elements is unique, and it is what `filter` returns. |
| `Lists.FindAfterReplaceFirst` | services/cmsService.ts:124-131 | Replacing the first match with another match keeps it the first match, so `find` returns it. |
| `Lists.FilterSortBy` | services/cmsService.ts:105 | `filter` then the comparator sort: a permutation of the kept elements, ascending and stable, and only kept members of the input. |
| `Lists.SortBySorted` | services/cmsService.ts:105 | Sorting a list that is already ascending gives it back. |
| `Lists.FilterPrefix` | services/cmsService.ts:285 | When exactly a prefix of the list passes, `filter` returns that prefix. |
| `Lists.FirstIndex` | services/cmsService.ts:124 | `findIndex`: the first matching position, or none iff nothing matches. |
| `Lists.IndexOf` | components/TrendingProducts.tsx:28-29 | `indexOf`: -1 iff absent, otherwise the first position of the value. |
| `Api.SampleProducts` | services/api.ts:11-20 | Eight products. The first four are featured and the rest are not, and every price is positive with a non-negative discount. |
| `Api.Seed` | services/api.ts:10-22 | Writes the eight samples only when the products key is absent. A stored list, even an empty one, and the rates are kept. |
| `Api.SeedIdempotent` | services/api.ts:10-22 | Seeding twice is seeding once. |
| `Api.SampleIds` | services/api.ts:11-20 | The samples are eight products with ids "1" to "8" in order, so their ids are distinct. |
| `Api.GetProducts` | services/api.ts:26-33 | The stored list, or the empty list when nothing is stored. |
| `Api.GetProduct` | services/api.ts:35-43 | Absent iff no product has the id. Otherwise the first product with it. |
| `Api.AddProduct` | services/api.ts:45-56 | Appends one product whose id is the clock numeral, overriding any given id. Earlier products and the rates are unchanged. |
| `Api.UpdateProduct` | services/api.ts:58-73 | Answers `None` iff no product has the id, and then storage is not written, so an absent key stays absent. Otherwise the first match is merged with no timestamp, and nothing else changes. |
| `Api.DeleteProduct` | services/api.ts:75-90 | Removes every product with the id and keeps the rest in order. Answers true iff one existed. On false, storage is left as it was. |
| `Api.AddProductRoundTrip` | services/api.ts:45-90 | A product added at a fresh instant is found by its new id. Deleting it answers true and restores the list. |
| `Api.UpdateThenGetProduct` | services/api.ts:35-73 | After an update whose patch keeps the id, looking the id up returns the product the update answered. |
| `Api.InitialRates` | constants.ts:3-8 | 72000 for 24k gold, 66000 for 22k gold and 800 for silver, stamped with the load instant. |
| `Api.GetRates` | services/api.ts:93-100 | The stored rates, or the initial rates when none are stored. |
| `Api.UpdateRates` | services/api.ts:102-109 | The new storage is the old one with the rates key set to the given rates, so the products key is untouched. The answer is the given rates. |
| `Api.RatesRoundTrip` | services/api.ts:93-109 | After an update, a read returns exactly the rates written. |
| `Api.FreshRatesAreInitial` | constants.ts:3-8 | With nothing written, the rates read 72000 (24k), 66000 (22k) and 800 (silver), stamped with the load instant. |
| `Api.ForwardCms` | services/api.ts:112-270 | For each of the twenty content methods, the new content and the answer are those of the content store's method of the same name with the same arguments. Browser storage is never touched, reads change nothing, and a call changes only its own part of the content. |
| `Api.ForwardBannerCall` | services/api.ts:112-142 | Banner calls touch only the banners, and a forwarded delete answers whether the id existed. |
| `Api.ForwardCategoryCall` | services/api.ts:144-174 | The same for category calls. |
| `Api.ForwardTrendingCall` | services/api.ts:176-206 | The same for trending calls, keyed by `productId`. |
| `Api.ForwardAboutCall` | services/api.ts:208-222 | About calls touch only the about record. The update always answers the stored record. |
| `Api.ForwardContactCall` | services/api.ts:224-238 | The same for the contact record. |
| `Api.ForwardReviewCall` | services/api.ts:240-270 | The same as for banners, for review calls. |
| `Api.ForwardedDeleteTwice` | services/api.ts:136-270 | Repeating a forwarded delete answers false and changes nothing. |
| `TrendingView.TrendingIds` | components/TrendingProducts.tsx:18-19 | One id per publicly listed trending link, in the listed order: the link's `productId`. |
| `TrendingView.LinkIdsMembers` | components/TrendingProducts.tsx:18-19 | An id is in the mapped id list iff some link carries it. |
| `TrendingView.TrendingIdsAreEnabledLinks` | components/TrendingProducts.tsx:18-19 | The ids the page asks for are exactly those of the enabled links in the store. |
| `TrendingView.Join` | components/TrendingProducts.tsx:24-31 | Every product whose id is listed, as often as stored, and nothing else, so dangling ids drop out. The result is ordered by the position of the id, and products under one id keep storage order. |
| `TrendingView.TrendingGrid` | components/TrendingProducts.tsx:18-31 | Only stored products whose id the page asked for, ordered by the position of that id in the list. |
| `TrendingView.ShownIffLinked` | components/TrendingProducts.tsx:18-31 | A stored product is in the grid iff an enabled link carries its id. |
| `TrendingView.ShowsPlaceholder` | components/TrendingProducts.tsx:44 | Shown while loading. Once loaded, shown iff the grid is empty. |
| `TrendingView.JoinOfListedPrefix` | components/TrendingProducts.tsx:24-31 | When the first products carry the listed ids in that order and no later product is listed, the grid is that prefix. |
| `TrendingView.SeededGrid` | components/TrendingProducts.tsx:18-31 | On the seeded content and the sample products, the grid is the first four samples, in order. |
| `TrendingView.PlaceholderIffNothingLinked` | components/TrendingProducts.tsx:44 | Once loaded, the placeholder shows iff no stored product has a listed id. |
| `ProductsPage.AllIsNoCategoryName` | app/products/page.tsx:23-26 | No category is named "All", so the catch-all tab is never mistaken for a category. |
| `ProductsPage.ShownFor` | app/products/page.tsx:22-28 | On "All", the whole list. Otherwise exactly the products of that category, in stored order. |
| `ProductsPage.Start` | app/products/page.tsx:9-11 | Nothing is loaded, nothing is shown and the "All" tab is selected, and the page is consistent. |
| `ProductsPage.Loaded` | app/products/page.tsx:15-28 | The loaded list is stored and the tab is kept. Because the filter effect re-runs on the new list, the page is consistent for every tab. On "All", the whole loaded list is shown. |
| `ProductsPage.Select` | app/products/page.tsx:22-28 | After choosing a tab, the shown list is the filter of the loaded list for that tab. |
| `ProductsPage.CategoryNames` | app/products/page.tsx:30 | The category of each product, position by position. |
| `ProductsPage.Tabs` | app/products/page.tsx:30 | "All", then each category that occurs, once, in order of first occurrence. |
| `ProductsPage.TabsShowSomething` | app/products/page.tsx:26-30 | Every category tab shows at least one product. |
| `ProductsPage.ShownUnderOwnTab` | app/products/page.tsx:26-30 | Every product's category has a tab, and the product is shown under it. |
| `AdminPage.NewBannerDraft` | app/admin/page.tsx:91-106 | The new-banner draft: its id is the bare clock numeral, it is enabled, its order is the listed count + 1, its texts are empty except "Shop Now" and "/products", and both timestamps are `now`. |
| `AdminPage.NewCategoryDraft` | app/admin/page.tsx:125-137 | The new-category draft: the bare clock numeral as id, enabled, empty name and image, order = listed count + 1. |
| `AdminPage.NewBannerShownLast` | app/admin/page.tsx:100 | While the listed banners are numbered within 1 to their count, adding an enabled banner with the draft's order (count + 1) through `AddBanner` lists it after all of them. |
| `AdminPage.NewCategoryShownLast` | app/admin/page.tsx:131 | The same for adding a new category through `AddCategory`. |
| `AdminPage.BannerFormPatch` | app/admin/page.tsx:269 | The whole form passed as the update patch: merged onto any stored banner, it yields the form. |
| `AdminPage.CategoryFormPatch` | app/admin/page.tsx:290 | The same for the category form. |
| `AdminPage.SaveBannerAsWritten` | app/admin/page.tsx:253-275 | The banner save as written: an id starting with `banner-` is added as a new banner, and any other id is an update that answers `None` iff no banner has it. |
| `AdminPage.DraftBannerSaveIsLost` | app/admin/page.tsx:93-100 | While every stored id is minted, saving a new draft as written stores nothing and answers `None`. |
| `AdminPage.EditedBannerSavedAsCopy` | app/admin/page.tsx:255-266 | As written, saving an edited stored banner appends a copy and leaves the stored one unchanged. |
| `AdminPage.SaveBanner` | app/admin/page.tsx:255-272 | The corrected routing: an id without the prefix is added, and a minted id is an update that answers `None` iff no banner has it. |
| `AdminPage.SavedBannerDraftShownLast` | app/admin/page.tsx:255-272 | With the corrected routing, a saved enabled draft is stored and listed after every listed banner. |
| `AdminPage.EditedBannerUpdatedInPlace` | app/admin/page.tsx:255-272 | With the corrected routing, saving an edited stored banner keeps the count, answers the form with `updatedAt` = `now`, and a lookup returns it. |
| `AdminPage.SaveCategoryAsWritten` | app/admin/page.tsx:277-296 | The category save as written, routed by the `cat-` prefix. |
| `AdminPage.DraftCategorySaveIsLost` | app/admin/page.tsx:127-131 | As written, saving a new category draft stores nothing and answers `None`. |
| `AdminPage.EditedCategorySavedAsCopy` | app/admin/page.tsx:279-287 | As written, saving an edited stored category appends a copy. |
| `AdminPage.SaveCategory` | app/admin/page.tsx:279-293 | The corrected category routing. |
| `AdminPage.SavedCategoryDraftShownLast` | app/admin/page.tsx:279-293 | With the corrected routing, a saved enabled category draft is listed last. |
| `AdminPage.EditedCategoryUpdatedInPlace` | app/admin/page.tsx:279-293 | With the corrected routing, an edited stored category is updated in place and found by its id. |
| `AdminPage.IsTrending` | app/admin/page.tsx:1250 | True iff some enabled link carries the product id. |
| `AdminPage.BadgeAgreesWithGrid` | app/admin/page.tsx:1250 | For every stored product, the dashboard's badge is on iff the home page's grid shows the product. |
| `AdminPage.AddThenRemoveTrending` | app/admin/page.tsx:1250 | After the trending add the product is trending. After the removal it is not. |
| `AdminPage.RemoveLocally` | app/admin/page.tsx:163-170 | On success, the dashboard list without that product's links, in order. Otherwise the list unchanged. |
| `AdminPage.HandleRemoveTrendingProduct` | app/admin/page.tsx:163-170 | The store removal, then the local filter exactly when the store held a link. Browser storage is untouched. |
| `AdminPage.RemovalClearsBadge` | app/admin/page.tsx:163-170 | Starting from the store's public list, no badge remains for the product, whether or not the store held a link. |
| `AdminPage.ChangeBulletPoint` | app/admin/page.tsx:392-401 | In range, one entry is replaced and the others are kept. At the end, the value is appended. A negative index changes nothing. Past the end the result is `None`. |
| `AdminPage.AddBulletPoint` | app/admin/page.tsx:403-410 | One empty entry is appended, and the existing ones are unchanged. |
| `AdminPage.RemoveBulletPoint` | app/admin/page.tsx:412-420 | In range, exactly that position is removed and the rest keep their order. Out of range, the list is unchanged. |
| `AdminPage.ChangeAtEndIsAdd` | app/admin/page.tsx:392-410 | Writing "" just past the end is the same as adding a bullet point. |
| `AdminPage.RemoveUndoesAdd` | app/admin/page.tsx:403-420 | Removing the bullet point just added gives the list back. |
| `AdminPage.RemoveForgetsChange` | app/admin/page.tsx:392-420 | Removing an entry discards whatever was written into it. |
| `AdminPage.Repeat` | app/admin/page.tsx:1451 | `repeat` of one character: that many copies of it. |
| `AdminPage.StarString` | app/admin/page.tsx:1451 | Defined iff the rating is 0 to 5, otherwise `repeat` throws. When defined, five stars, the first `rating` of them filled. |
| `AdminPage.StarsCountRating` | app/admin/page.tsx:1451 | The number of filled stars is the rating and the number of empty stars is 5 minus it. |

## Left out

- JSX rendering, hooks, modal state, and the purely presentational components and pages: none of them compute anything.
- The Promise and `setTimeout` wrapping in the product store, and the `Promise.all` loader of the dashboard: every call is synchronous here.
- The JSON `stringify`/`parse` round trip of browser storage: stored values are kept as values.
- ISO timestamp text: timestamps are millisecond counts.
- The source reads the clock several times within one call (the id, `createdAt`, `updatedAt`). The model reads it once per call, as `now`.
- Integers: JavaScript numbers are modelled as unbounded integers. Fractional ratings, orders and indices, `NaN` from a missing `displayOrder`, and floating-point behaviour are not modelled.
- The discounted price and `toLocaleString` formatting of the product card: floating point.
- `getAllContent`: it returns the whole content, which in a value model is the state itself.
- Patch fields that are present but `undefined`: the spread would copy `undefined` over the stored value. A patch here either carries a value or leaves the field alone.
- Aliasing: the trending add mutates the stored object in place, and the public reads return the stored objects. Here records are values, so a caller cannot change the store through an answer.
- `AdminPage.ChangeBulletPoint`: an index past the end creates holes in a JavaScript array, which a sequence cannot hold. That case answers `None` instead of a list with holes.
- The `if (currentAbout)` guard of the bullet-point handlers: with no draft open they do nothing. The model works on the bullet list of an open draft.
- The string-typed form edits of the dashboard and its local list updates after add and edit. These lists are component state and can differ from the store's public read: `[...banners, newBanner]` appends a new banner even when it is disabled, whatever its `displayOrder`.
- The product and review branches of the dashboard's save handler. The review branch routes by the `review-` prefix, like the banner and category branches under "## Findings". The product branch tests for `banner-` or `cat-`, which product ids never carry. So editing a product updates it in place, and only a new product draft, whose id is a numeral, is answered `null` and lost. Neither branch is modelled separately.
- CmsLaws.AddTrendingTwice: one link per product is not an invariant of the store, because `UpdateTrendingProduct` with a patch that sets another `productId` creates a second link for that product (`CmsLaws.UpdateCanDuplicateLink`). The lemma therefore assumes at most one link for the product beforehand.
- Browser effects: the WhatsApp link, `window.open`, `window.confirm`, the random avatar and scroll listeners.
- Unconditional id uniqueness: two adds in the same millisecond mint the same id. Freshness is proved only under the condition that earlier ids were minted earlier.
- Error paths of the pages (a failed fetch leaves the lists empty): the modelled calls do not fail.
- The review star glyphs: the source file shows them mis-decoded as three characters each. The model uses the single characters U+2605 and U+2606 that they stand for.

## Findings

| source | as written | input that shows it | evidently intended | confidence | as-written member | corrected member |
|---|---|---|---|---|---|---|
| app/admin/page.tsx:255 | A banner form whose id starts with `banner-` is added, and any other is updated. | A new draft has the bare numeral id from line 93, so it goes to `updateBanner`, which answers `null`, and nothing is stored. Editing the seeded `banner-1` adds a copy instead of changing it. | A draft without the prefix is added, and a stored `banner-` id is updated. | high, not executed | `AdminPage.DraftBannerSaveIsLost`, `AdminPage.EditedBannerSavedAsCopy` | `AdminPage.SaveBanner`, `AdminPage.SavedBannerDraftShownLast`, `AdminPage.EditedBannerUpdatedInPlace` |
| app/admin/page.tsx:279 | A category form whose id starts with `cat-` is added, and any other is updated. | A new draft has the bare numeral id from line 127, so the save answers `null`. Editing the seeded `cat-1` adds a copy. | A draft without the prefix is added, and a stored `cat-` id is updated. | high, not executed | `AdminPage.DraftCategorySaveIsLost`, `AdminPage.EditedCategorySavedAsCopy` | `AdminPage.SaveCategory`, `AdminPage.SavedCategoryDraftShownLast`, `AdminPage.EditedCategoryUpdatedInPlace` |

/**
  The record shapes of the storefront (`types.ts`), and, for each CMS record
  and for `Product`, the `Partial<...>` patch that `update` operations spread
  over a stored record.

  JavaScript numbers are modelled as `int` and ISO timestamp strings as
  `Timestamp`, a count of milliseconds (the ISO rendering is one-to-one and
  order-preserving, so nothing here depends on the text).
 */
module Types {
  import opened Wrappers

  type Timestamp = nat

  /** The four product categories; the enum's string values are its names. */
  datatype Category = Gold | Silver | Diamond | Artificial {
    function Name(): string {
      match this
      case Gold => "Gold"
      case Silver => "Silver"
      case Diamond => "Diamond"
      case Artificial => "Artificial"
    }
  }

  datatype Product = Product(
    id: string,
    name: string,
    description: string,
    price: int,
    category: Category,
    image: string,
    featured: bool,
    inStock: bool,
    discount: int)

  datatype GoldRates = GoldRates(
    gold24k: int,
    gold22k: int,
    silver: int,
    lastUpdated: Timestamp)

  datatype Banner = Banner(
    id: string,
    title: string,
    subtitle: string,
    imageUrl: string,
    ctaText: string,
    ctaUrl: string,
    enabled: bool,
    displayOrder: int,
    createdAt: Timestamp,
    updatedAt: Timestamp)

  datatype CategoryContent = CategoryContent(
    id: string,
    name: string,
    imageUrl: string,
    enabled: bool,
    displayOrder: int,
    createdAt: Timestamp,
    updatedAt: Timestamp)

  /** A trending link has no id of its own: it is identified by `productId`. */
  datatype TrendingProduct = TrendingProduct(
    productId: string,
    displayOrder: int,
    enabled: bool,
    createdAt: Timestamp,
    updatedAt: Timestamp)

  datatype AboutContent = AboutContent(
    id: string,
    title: string,
    description: string,
    imageUrl: string,
    bulletPoints: seq<string>,
    enabled: bool,
    createdAt: Timestamp,
    updatedAt: Timestamp)

  datatype ContactContent = ContactContent(
    id: string,
    address: string,
    email: string,
    phone: string,
    whatsapp: string,
    workingHours: string,
    mapEmbedUrl: string,
    enabled: bool,
    createdAt: Timestamp,
    updatedAt: Timestamp)

  /** `rating` is meant to be 1 to 5 stars; neither the type nor the store
      enforces it. */
  datatype Review = Review(
    id: string,
    name: string,
    comment: string,
    rating: int,
    customerType: string,
    enabled: bool,
    createdAt: Timestamp,
    updatedAt: Timestamp)

  /** The whole CMS aggregate: four lists and two nullable singletons. */
  datatype CMSContent = CMSContent(
    banners: seq<Banner>,
    categories: seq<CategoryContent>,
    trendingProducts: seq<TrendingProduct>,
    aboutContent: Option<AboutContent>,
    contactContent: Option<ContactContent>,
    reviews: seq<Review>)

  /* ----------------------------------------------------------------------
     Partial<T> patches. `ApplyTo(stored)` is `{...stored, ...patch}`: a field the
     patch carries wins, every other field keeps its stored value.
     ---------------------------------------------------------------------- */

  datatype ProductPatch = ProductPatch(
    id: Option<string>,
    name: Option<string>,
    description: Option<string>,
    price: Option<int>,
    category: Option<Category>,
    image: Option<string>,
    featured: Option<bool>,
    inStock: Option<bool>,
    discount: Option<int>)
  {
    function ApplyTo(stored: Product): Product {
      Product(
        id.GetOr(stored.id), name.GetOr(stored.name), description.GetOr(stored.description),
        price.GetOr(stored.price), category.GetOr(stored.category), image.GetOr(stored.image),
        featured.GetOr(stored.featured), inStock.GetOr(stored.inStock), discount.GetOr(stored.discount))
    }
  }

  datatype BannerPatch = BannerPatch(
    id: Option<string>,
    title: Option<string>,
    subtitle: Option<string>,
    imageUrl: Option<string>,
    ctaText: Option<string>,
    ctaUrl: Option<string>,
    enabled: Option<bool>,
    displayOrder: Option<int>,
    createdAt: Option<Timestamp>,
    updatedAt: Option<Timestamp>)
  {
    function ApplyTo(stored: Banner): Banner {
      Banner(
        id.GetOr(stored.id), title.GetOr(stored.title), subtitle.GetOr(stored.subtitle),
        imageUrl.GetOr(stored.imageUrl), ctaText.GetOr(stored.ctaText), ctaUrl.GetOr(stored.ctaUrl),
        enabled.GetOr(stored.enabled), displayOrder.GetOr(stored.displayOrder),
        createdAt.GetOr(stored.createdAt), updatedAt.GetOr(stored.updatedAt))
    }
  }

  datatype CategoryPatch = CategoryPatch(
    id: Option<string>,
    name: Option<string>,
    imageUrl: Option<string>,
    enabled: Option<bool>,
    displayOrder: Option<int>,
    createdAt: Option<Timestamp>,
    updatedAt: Option<Timestamp>)
  {
    function ApplyTo(stored: CategoryContent): CategoryContent {
      CategoryContent(
        id.GetOr(stored.id), name.GetOr(stored.name), imageUrl.GetOr(stored.imageUrl),
        enabled.GetOr(stored.enabled), displayOrder.GetOr(stored.displayOrder),
        createdAt.GetOr(stored.createdAt), updatedAt.GetOr(stored.updatedAt))
    }
  }

  datatype TrendingPatch = TrendingPatch(
    productId: Option<string>,
    displayOrder: Option<int>,
    enabled: Option<bool>,
    createdAt: Option<Timestamp>,
    updatedAt: Option<Timestamp>)
  {
    function ApplyTo(stored: TrendingProduct): TrendingProduct {
      TrendingProduct(
        productId.GetOr(stored.productId), displayOrder.GetOr(stored.displayOrder),
        enabled.GetOr(stored.enabled), createdAt.GetOr(stored.createdAt), updatedAt.GetOr(stored.updatedAt))
    }
  }

  datatype AboutPatch = AboutPatch(
    id: Option<string>,
    title: Option<string>,
    description: Option<string>,
    imageUrl: Option<string>,
    bulletPoints: Option<seq<string>>,
    enabled: Option<bool>,
    createdAt: Option<Timestamp>,
    updatedAt: Option<Timestamp>)
  {
    function ApplyTo(stored: AboutContent): AboutContent {
      AboutContent(
        id.GetOr(stored.id), title.GetOr(stored.title), description.GetOr(stored.description),
        imageUrl.GetOr(stored.imageUrl), bulletPoints.GetOr(stored.bulletPoints),
        enabled.GetOr(stored.enabled), createdAt.GetOr(stored.createdAt), updatedAt.GetOr(stored.updatedAt))
    }
  }

  datatype ContactPatch = ContactPatch(
    id: Option<string>,
    address: Option<string>,
    email: Option<string>,
    phone: Option<string>,
    whatsapp: Option<string>,
    workingHours: Option<string>,
    mapEmbedUrl: Option<string>,
    enabled: Option<bool>,
    createdAt: Option<Timestamp>,
    updatedAt: Option<Timestamp>)
  {
    function ApplyTo(stored: ContactContent): ContactContent {
      ContactContent(
        id.GetOr(stored.id), address.GetOr(stored.address), email.GetOr(stored.email),
        phone.GetOr(stored.phone), whatsapp.GetOr(stored.whatsapp), workingHours.GetOr(stored.workingHours),
        mapEmbedUrl.GetOr(stored.mapEmbedUrl), enabled.GetOr(stored.enabled),
        createdAt.GetOr(stored.createdAt), updatedAt.GetOr(stored.updatedAt))
    }
  }

  datatype ReviewPatch = ReviewPatch(
    id: Option<string>,
    name: Option<string>,
    comment: Option<string>,
    rating: Option<int>,
    customerType: Option<string>,
    enabled: Option<bool>,
    createdAt: Option<Timestamp>,
    updatedAt: Option<Timestamp>)
  {
    function ApplyTo(stored: Review): Review {
      Review(
        id.GetOr(stored.id), name.GetOr(stored.name), comment.GetOr(stored.comment),
        rating.GetOr(stored.rating), customerType.GetOr(stored.customerType),
        enabled.GetOr(stored.enabled), createdAt.GetOr(stored.createdAt), updatedAt.GetOr(stored.updatedAt))
    }
  }
}

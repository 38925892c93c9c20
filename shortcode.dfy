/**
 * The `[wpccs_carousel id="…"]` shortcode: which carousel, if any, a page
 * shows for the attributes it gives, and what a carousel shows after a save.
 */
module Shortcode {
  import opened Wrappers
  import opened Php
  import opened CarouselConfig
  import opened Selection

  /** The shortcode's attributes, by name, as the page wrote them. */
  type Atts = map<string, string>

  /**
   * What the shortcode renders: nothing, or a carousel of one kind with
   * the query arguments and slider settings it hands on.
   */
  datatype Carousel =
    | NoOutput
    | ProductsCarousel(id: int, products: ProductQuery, slider: Slider)
    | CategoriesCarousel(id: int, terms: TermQuery, slider: Slider)

  /** `intval($atts['id'])` after `shortcode_atts` fills in the default 0. */
  function ShortcodeId(atts: Atts): (id: int)
    ensures "id" !in atts ==> id == 0
    ensures "id" in atts ==> id == Intval(atts["id"])
    ensures MinInt <= id <= MaxInt
  {
    if "id" in atts then Intval(atts["id"]) else 0
  }

  /**
   * `generate_carousel_shortcode`: no output for id 0 or for an id without
   * a stored config; otherwise the products renderer exactly when the
   * stored type is "products", and the categories renderer for any other.
   */
  function GenerateCarouselShortcode(atts: Atts, store: Store): (o: Carousel)
    ensures o.NoOutput? <==> ShortcodeId(atts) == 0 || ShortcodeId(atts) !in store
    ensures o.ProductsCarousel? <==>
      ShortcodeId(atts) != 0 && ShortcodeId(atts) in store && store[ShortcodeId(atts)].carouselType == "products"
    ensures !o.NoOutput? ==> o.id == ShortcodeId(atts) && o.slider == SliderFor(store[o.id])
    ensures o.ProductsCarousel? ==> o.products == ProductQueryFor(store[o.id])
    ensures o.CategoriesCarousel? ==> o.terms == TermQueryFor(store[o.id])
  {
    var id := ShortcodeId(atts);
    if id == 0 || id !in store then NoOutput else Render(id, store[id])
  }

  /**
   * The renderer the stored type selects: products exactly when the type is
   * "products", categories for any other, each given the id, its kind's
   * query arguments and the slider settings.
   */
  function Render(id: int, config: Config): (o: Carousel)
    ensures !o.NoOutput? && o.id == id && o.slider == SliderFor(config)
    ensures o.ProductsCarousel? <==> config.carouselType == "products"
    ensures o.ProductsCarousel? ==> o.products == ProductQueryFor(config)
    ensures o.CategoriesCarousel? ==> o.terms == TermQueryFor(config)
  {
    if config.carouselType == "products" then ProductsCarousel(id, ProductQueryFor(config), SliderFor(config))
    else CategoriesCarousel(id, TermQueryFor(config), SliderFor(config))
  }

  /** After a save, the shortcode for the saved id renders the config just built. */
  lemma ShowsSaved(store: Store, post: Submission, sanitize: string -> string, inserted: int, atts: Atts)
    requires BuildConfig(post, sanitize).Ok? && SaveTarget(post, inserted) != 0
    requires ShortcodeId(atts) == SaveTarget(post, inserted)
    ensures GenerateCarouselShortcode(atts, SaveToStore(store, post, sanitize, inserted)) ==
      Render(ShortcodeId(atts), BuildConfig(post, sanitize).value)
  {
    var s := SaveToStore(store, post, sanitize, inserted);
    assert s[ShortcodeId(atts)] == BuildConfig(post, sanitize).value;
  }

  /**
   * After a save, the saved carousel is shown as what was submitted asked:
   * its kind, its counts, and each slider option on exactly when its
   * checkbox was submitted.
   */
  lemma SavedCarouselShows(store: Store, post: Submission, sanitize: string -> string, inserted: int, atts: Atts)
    requires BuildConfig(post, sanitize).Ok? && SaveTarget(post, inserted) != 0
    requires ShortcodeId(atts) == SaveTarget(post, inserted)
    ensures var o := GenerateCarouselShortcode(atts, SaveToStore(store, post, sanitize, inserted));
      && (o.ProductsCarousel? <==> IsProducts(post, sanitize))
      && (o.CategoriesCarousel? <==> !IsProducts(post, sanitize))
      && o.slider.slidesToShow == Number(post, ItemsDesktop)
      && o.slider.speed == Number(post, TransitionSpeed)
      && o.slider.responsive[0].slidesToShow == Number(post, ItemsLaptop)
      && o.slider.responsive[1].slidesToShow == Number(post, ItemsTablet)
      && o.slider.responsive[2].slidesToShow == Number(post, ItemsMobile)
      && (o.slider.autoplay <==> Submitted(post, Autoplay))
      && (o.slider.arrows <==> Submitted(post, ShowArrows))
      && (o.slider.dots <==> Submitted(post, ShowDots))
      && (o.slider.infinite <==> Submitted(post, InfiniteLoop))
  {
    ShowsSaved(store, post, sanitize, inserted, atts);
  }

  /**
   * A saved products carousel filters by category exactly when a non-empty
   * category list was submitted and by tag exactly when a non-empty tag list
   * was, with the ids as saved; its limit is the submitted total.
   */
  lemma ShortcodeQueryAfterProductsSave(store: Store, post: Submission, sanitize: string -> string, inserted: int, atts: Atts)
    requires BuildConfig(post, sanitize).Ok? && SaveTarget(post, inserted) != 0
    requires ShortcodeId(atts) == SaveTarget(post, inserted)
    requires IsProducts(post, sanitize)
    ensures var o := GenerateCarouselShortcode(atts, SaveToStore(store, post, sanitize, inserted));
      var categories := SubmittedIds(post, ProductCategories);
      var tags := SubmittedIds(post, ProductTags);
      && o.ProductsCarousel?
      && o.products.postsPerPage == Number(post, TotalItems)
      && (categories != [] <==> Submitted(post, ProductCategories) && post[ConfigField(ProductCategories)].items != [])
      && (tags != [] <==> Submitted(post, ProductTags) && post[ConfigField(ProductTags)].items != [])
      && (CategoryClause(IntList(categories)) in Clauses(o.products) <==> categories != [])
      && (TagClause(IntList(tags)) in Clauses(o.products) <==> tags != [])
      && (o.products.taxQuery.None? <==> categories == [] && tags == [])
  {
    ShowsSaved(store, post, sanitize, inserted, atts);
    assert !SaveFails(post, sanitize);
    SubmittedIdsNonEmpty(post, ProductCategories);
    SubmittedIdsNonEmpty(post, ProductTags);
    SavedProductQuery(post, sanitize);
  }

  /** The products query of a config saved as products, as the submission asked. */
  lemma SavedProductQuery(post: Submission, sanitize: string -> string)
    requires BuildConfig(post, sanitize).Ok? && IsProducts(post, sanitize)
    ensures var q := ProductQueryFor(BuildConfig(post, sanitize).value);
      var categories := SubmittedIds(post, ProductCategories);
      var tags := SubmittedIds(post, ProductTags);
      && q.postsPerPage == Number(post, TotalItems)
      && q.orderby == Some(Str(TextField(post, ProductsOrderby, sanitize)))
      && q.order == Some(Str(TextField(post, ProductsOrder, sanitize)))
      && (CategoryClause(IntList(categories)) in Clauses(q) <==> categories != [])
      && (TagClause(IntList(tags)) in Clauses(q) <==> tags != [])
      && (q.taxQuery.None? <==> categories == [] && tags == [])
  {
    SavedConfig(post, sanitize);
    SavedProductsVariant(post, sanitize);
    ProductQueryOfProducts(BuildConfig(post, sanitize).value);
  }

  /**
   * A saved categories carousel shows the submitted selection when it is
   * not empty and the top-level categories when it is, hiding empty
   * categories exactly when that checkbox was submitted.
   */
  lemma ShortcodeQueryAfterCategoriesSave(store: Store, post: Submission, sanitize: string -> string, inserted: int, atts: Atts)
    requires BuildConfig(post, sanitize).Ok? && SaveTarget(post, inserted) != 0
    requires ShortcodeId(atts) == SaveTarget(post, inserted)
    requires !IsProducts(post, sanitize)
    ensures var o := GenerateCarouselShortcode(atts, SaveToStore(store, post, sanitize, inserted));
      var selected := SubmittedIds(post, SelectedCategories);
      && o.CategoriesCarousel?
      && (o.terms.hideEmpty == Some(Int(1)) <==> Submitted(post, ShowOnlyWithProducts))
      && (o.terms.hideEmpty == Some(Int(0)) <==> !Submitted(post, ShowOnlyWithProducts))
      && (selected != [] ==> o.terms.includeIds == Some(IntList(selected)) && o.terms.parent.None?)
      && (selected == [] ==> o.terms.includeIds.None? && o.terms.parent == Some(0))
  {
    ShowsSaved(store, post, sanitize, inserted, atts);
    SavedTermQuery(post, sanitize);
  }

  /** The categories query of a config saved as categories, as the submission asked. */
  lemma SavedTermQuery(post: Submission, sanitize: string -> string)
    requires BuildConfig(post, sanitize).Ok? && !IsProducts(post, sanitize)
    ensures var q := TermQueryFor(BuildConfig(post, sanitize).value);
      var selected := SubmittedIds(post, SelectedCategories);
      && q.hideEmpty == Some(Int(Flag(post, ShowOnlyWithProducts)))
      && q.orderby == Some(Str(TextField(post, CategoriesOrderby, sanitize)))
      && q.order == Some(Str(TextField(post, CategoriesOrder, sanitize)))
      && (selected != [] ==> q.includeIds == Some(IntList(selected)) && q.parent.None?)
      && (selected == [] ==> q.includeIds.None? && q.parent == Some(0))
  {
    SavedCategoriesVariant(post, sanitize);
    TermQueryOfCategories(BuildConfig(post, sanitize).value);
  }

  /** Saving one carousel leaves what every other carousel's shortcode shows unchanged. */
  lemma SaveLeavesOthers(store: Store, post: Submission, sanitize: string -> string, inserted: int, atts: Atts)
    requires ShortcodeId(atts) != SaveTarget(post, inserted)
    ensures GenerateCarouselShortcode(atts, SaveToStore(store, post, sanitize, inserted)) ==
      GenerateCarouselShortcode(atts, store)
  {
    var s := SaveToStore(store, post, sanitize, inserted);
    var id := ShortcodeId(atts);
    assert id in s <==> id in store;
    if id in store {
      assert s[id] == store[id];
    }
  }
}

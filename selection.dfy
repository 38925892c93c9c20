/**
 * What the two renderers hand to WordPress and to the Slick widget, built
 * from a stored config: the `WP_Query` arguments of a products carousel,
 * the `get_terms` arguments of a categories carousel, and the slider
 * settings both kinds share. Entries the renderers copy without looking at
 * them are kept as the config entries they are (`Get`, null when absent).
 */
module Selection {
  import opened Wrappers
  import opened Php
  import opened CarouselConfig

  /** One `tax_query` clause: the terms of one taxonomy, by term id. */
  datatype TaxClause = TaxClause(taxonomy: string, field: string, terms: Value)

  /** The `WP_Query` arguments; `taxQuery` is `None` when the key is not set. */
  datatype ProductQuery = ProductQuery(
    postType: string,
    postsPerPage: int,
    orderby: Option<Value>,
    order: Option<Value>,
    taxQuery: Option<seq<TaxClause>>)

  /**
   * The `get_terms` arguments; exactly one of `includeIds` (`include`) and `parent` is set
   * by the renderer, and `None` is a key that is not set.
   */
  datatype TermQuery = TermQuery(
    taxonomy: string,
    hideEmpty: Option<Value>,
    orderby: Option<Value>,
    order: Option<Value>,
    includeIds: Option<Value>,
    parent: Option<int>)

  /** One responsive entry: below `width` pixels, show `slidesToShow` items. */
  datatype Breakpoint = Breakpoint(width: int, slidesToShow: int)

  /** The `.slick({...})` settings. */
  datatype Slider = Slider(
    slidesToShow: int,
    slidesToScroll: int,
    autoplay: bool,
    speed: int,
    arrows: bool,
    dots: bool,
    infinite: bool,
    responsive: seq<Breakpoint>)

  /** The clauses of a query, none when `tax_query` is not set. */
  function Clauses(q: ProductQuery): seq<TaxClause> {
    if q.taxQuery.Some? then q.taxQuery.value else []
  }

  function CategoryClause(terms: Value): TaxClause {
    TaxClause("product_cat", "term_id", terms)
  }

  function TagClause(terms: Value): TaxClause {
    TaxClause("product_tag", "term_id", terms)
  }

  /**
   * The arguments `render_products_carousel` builds: the config's limit and
   * order, a category clause exactly when the categories entry is not
   * empty, a tag clause exactly when the tags entry is not empty, the
   * category clause first, and `tax_query` only when there is a clause.
   */
  function ProductQueryFor(c: Config): (q: ProductQuery)
    ensures q.postType == "product" && q.postsPerPage == c.totalItems
    ensures q.orderby == Get(c, ProductsOrderby) && q.order == Get(c, ProductsOrder)
    ensures q.taxQuery != Some([])
    ensures q.taxQuery.None? <==> Empty(Get(c, ProductCategories)) && Empty(Get(c, ProductTags))
    ensures |Clauses(q)| == (if Empty(Get(c, ProductCategories)) then 0 else 1) + (if Empty(Get(c, ProductTags)) then 0 else 1)
    ensures Truthy(Get(c, ProductCategories)) ==> Clauses(q)[0] == CategoryClause(Get(c, ProductCategories).value)
    ensures Truthy(Get(c, ProductTags)) ==> Clauses(q)[|Clauses(q)| - 1] == TagClause(Get(c, ProductTags).value)
  {
    var categories := if Empty(Get(c, ProductCategories)) then [] else [CategoryClause(Get(c, ProductCategories).value)];
    var tags := if Empty(Get(c, ProductTags)) then [] else [TagClause(Get(c, ProductTags).value)];
    var clauses := categories + tags;
    ProductQuery("product", c.totalItems, Get(c, ProductsOrderby), Get(c, ProductsOrder),
      if clauses == [] then None else Some(clauses))
  }

  /**
   * For a products config: its limit and order, a category clause with its
   * categories exactly when they are not empty, a tag clause with its tags
   * exactly when they are not empty, and no `tax_query` when both are.
   */
  lemma ProductQueryOfProducts(c: Config)
    requires c.variant.ProductsVariant?
    ensures var q := ProductQueryFor(c);
      var categories := c.variant.productCategories;
      var tags := c.variant.productTags;
      && q.postsPerPage == c.totalItems
      && q.orderby == Some(Str(c.variant.productsOrderby))
      && q.order == Some(Str(c.variant.productsOrder))
      && (CategoryClause(IntList(categories)) in Clauses(q) <==> categories != [])
      && (TagClause(IntList(tags)) in Clauses(q) <==> tags != [])
      && (q.taxQuery.None? <==> categories == [] && tags == [])
  {
    var categories := c.variant.productCategories;
    var tags := c.variant.productTags;
    var q := ProductQueryFor(c);
    if categories != [] && tags != [] {
      assert Clauses(q) == [CategoryClause(IntList(categories)), TagClause(IntList(tags))];
    }
  }

  /** Each clause is for one of the two taxonomies, and no taxonomy has two. */
  lemma ClausesAreDistinct(c: Config)
    ensures forall i :: 0 <= i < |Clauses(ProductQueryFor(c))| ==>
      Clauses(ProductQueryFor(c))[i].taxonomy in {"product_cat", "product_tag"} &&
      Clauses(ProductQueryFor(c))[i].field == "term_id"
    ensures forall i, j :: 0 <= i < j < |Clauses(ProductQueryFor(c))| ==>
      Clauses(ProductQueryFor(c))[i].taxonomy == "product_cat" &&
      Clauses(ProductQueryFor(c))[j].taxonomy == "product_tag"
  {
  }

  /**
   * `render_products_carousel`'s construction of `$args`: clauses appended
   * to `$tax_query` one at a time, then the key set when there is one.
   */
  method BuildProductQuery(c: Config) returns (q: ProductQuery)
    ensures q == ProductQueryFor(c)
  {
    q := ProductQuery("product", c.totalItems, Get(c, ProductsOrderby), Get(c, ProductsOrder), None);
    var taxQuery: seq<TaxClause> := [];
    if !Empty(Get(c, ProductCategories)) {
      taxQuery := taxQuery + [CategoryClause(Get(c, ProductCategories).value)];
    }
    assert taxQuery == if Empty(Get(c, ProductCategories)) then [] else [CategoryClause(Get(c, ProductCategories).value)];
    if !Empty(Get(c, ProductTags)) {
      taxQuery := taxQuery + [TagClause(Get(c, ProductTags).value)];
    }
    assert taxQuery == Clauses(ProductQueryFor(c));
    if taxQuery != [] {
      q := q.(taxQuery := Some(taxQuery));
    }
  }

  /**
   * The arguments `render_categories_carousel` builds: the config's
   * `hide_empty` and order, and either `include` with the selection, when
   * the selection is not empty, or `parent` 0, the top-level categories;
   * never both and never neither.
   */
  function TermQueryFor(c: Config): (q: TermQuery)
    ensures q.taxonomy == "product_cat" && q.hideEmpty == Get(c, ShowOnlyWithProducts)
    ensures q.orderby == Get(c, CategoriesOrderby) && q.order == Get(c, CategoriesOrder)
    ensures q.includeIds.Some? <==> Truthy(Get(c, SelectedCategories))
    ensures q.includeIds.Some? ==> q.includeIds == Get(c, SelectedCategories)
    ensures q.parent.Some? <==> q.includeIds.None?
    ensures q.parent.Some? ==> q.parent.value == 0
  {
    var q := TermQuery("product_cat", Get(c, ShowOnlyWithProducts), Get(c, CategoriesOrderby), Get(c, CategoriesOrder), None, None);
    if Empty(Get(c, SelectedCategories)) then q.(parent := Some(0))
    else q.(includeIds := Get(c, SelectedCategories))
  }

  /**
   * For a categories config: `hide_empty` is its stored flag, the order is
   * its stored order, and the query
   * includes its selection when that is not empty and asks for the
   * top-level categories when it is.
   */
  lemma TermQueryOfCategories(c: Config)
    requires c.variant.CategoriesVariant?
    ensures var q := TermQueryFor(c);
      var selected := c.variant.selectedCategories;
      && q.hideEmpty == Some(Int(c.variant.showOnlyWithProducts))
      && q.orderby == Some(Str(c.variant.categoriesOrderby))
      && q.order == Some(Str(c.variant.categoriesOrder))
      && (selected != [] ==> q.includeIds == Some(IntList(selected)) && q.parent.None?)
      && (selected == [] ==> q.includeIds.None? && q.parent == Some(0))
  {
  }

  /** `render_categories_carousel`'s construction of `$args`, one key at a time. */
  method BuildTermQuery(c: Config) returns (q: TermQuery)
    ensures q == TermQueryFor(c)
  {
    q := TermQuery("product_cat", Get(c, ShowOnlyWithProducts), Get(c, CategoriesOrderby), Get(c, CategoriesOrder), None, None);
    if !Empty(Get(c, SelectedCategories)) {
      q := q.(includeIds := Get(c, SelectedCategories));
    } else {
      q := q.(parent := Some(0));
    }
  }

  /** The responsive widths, in the order the settings list them. */
  const Widths: seq<int> := [1366, 1024, 767]

  /**
   * The slider settings both renderers print: the desktop count shown and
   * one item scrolled at a time, each option on exactly when its config
   * entry is not 0, and below 1366, 1024 and 767 pixels the laptop, tablet
   * and mobile counts.
   */
  function SliderFor(c: Config): (s: Slider)
    ensures s.slidesToShow == c.itemsDesktop && s.slidesToScroll == 1 && s.speed == c.transitionSpeed
    ensures s.autoplay == Truthy(Get(c, Autoplay)) && s.arrows == Truthy(Get(c, ShowArrows))
    ensures s.dots == Truthy(Get(c, ShowDots)) && s.infinite == Truthy(Get(c, InfiniteLoop))
    ensures |s.responsive| == |Widths|
    ensures forall i :: 0 <= i < |s.responsive| ==> s.responsive[i].width == Widths[i]
    ensures s.responsive[0].slidesToShow == c.itemsLaptop
    ensures s.responsive[1].slidesToShow == c.itemsTablet
    ensures s.responsive[2].slidesToShow == c.itemsMobile
  {
    Slider(c.itemsDesktop, 1, c.autoplay != 0, c.transitionSpeed,
      c.showArrows != 0, c.showDots != 0, c.infiniteLoop != 0,
      [Breakpoint(Widths[0], c.itemsLaptop), Breakpoint(Widths[1], c.itemsTablet), Breakpoint(Widths[2], c.itemsMobile)])
  }

  /**
   * The slider reads only the common entries: two configs that agree on
   * them get the same settings, whatever their kind.
   */
  lemma SliderIgnoresKind(c: Config, d: Config)
    requires forall k :: IsCommonKey(k) ==> Get(c, k) == Get(d, k)
    ensures SliderFor(c) == SliderFor(d)
  {
    assert Get(c, ItemsDesktop) == Get(d, ItemsDesktop);
    assert Get(c, ItemsLaptop) == Get(d, ItemsLaptop);
    assert Get(c, ItemsTablet) == Get(d, ItemsTablet);
    assert Get(c, ItemsMobile) == Get(d, ItemsMobile);
    assert Get(c, Autoplay) == Get(d, Autoplay);
    assert Get(c, TransitionSpeed) == Get(d, TransitionSpeed);
    assert Get(c, ShowArrows) == Get(d, ShowArrows);
    assert Get(c, ShowDots) == Get(d, ShowDots);
    assert Get(c, InfiniteLoop) == Get(d, InfiniteLoop);
  }
}

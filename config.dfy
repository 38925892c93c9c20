/**
 * The stored carousel configuration and `save_carousel`, which builds it
 * from a submitted form. The stored config is a record holding the eleven
 * common entries and the entries of one kind; `Get` reads it as the PHP
 * array it is stored as, key by key.
 */
module CarouselConfig {
  import opened Wrappers
  import opened Php

  /** The keys of a stored config array; `Name` gives each one's PHP array key. */
  datatype Key =
    | CarouselType | TotalItems | ItemsDesktop | ItemsLaptop | ItemsTablet | ItemsMobile
    | Autoplay | TransitionSpeed | ShowArrows | ShowDots | InfiniteLoop
    | ProductCategories | ProductTags | ProductsOrderby | ProductsOrder
    | SelectedCategories | ShowOnlyWithProducts | CategoriesOrderby | CategoriesOrder

  /** The PHP array key, which is also the name of the form field the entry is read from. */
  function Name(k: Key): string {
    match k
    case CarouselType => "carousel_type"
    case TotalItems => "total_items"
    case ItemsDesktop => "items_desktop"
    case ItemsLaptop => "items_laptop"
    case ItemsTablet => "items_tablet"
    case ItemsMobile => "items_mobile"
    case Autoplay => "autoplay"
    case TransitionSpeed => "transition_speed"
    case ShowArrows => "show_arrows"
    case ShowDots => "show_dots"
    case InfiniteLoop => "infinite_loop"
    case ProductCategories => "product_categories"
    case ProductTags => "product_tags"
    case ProductsOrderby => "products_orderby"
    case ProductsOrder => "products_order"
    case SelectedCategories => "selected_categories"
    case ShowOnlyWithProducts => "show_only_with_products"
    case CategoriesOrderby => "categories_orderby"
    case CategoriesOrder => "categories_order"
  }

  /**
   * The name of a submitted form field: the field a config entry is read
   * from (named `Name(key)`), the hidden `carousel_id`, or any other name
   * (`title`, `action`, the nonce, …), which the config does not read.
   */
  datatype FormKey = ConfigField(key: Key) | CarouselIdField | OtherField(name: string)

  /** A submitted form (`$_POST`), by field name. */
  type Submission = map<FormKey, Field>

  /**
   * A stored config (`wpccs_config`). The eleven common entries are fields
   * of every config; the variant holds the entries of exactly one kind.
   * Flags hold the 0 or 1 the save wrote.
   */
  datatype Config = Config(
    carouselType: string,
    totalItems: int,
    itemsDesktop: int,
    itemsLaptop: int,
    itemsTablet: int,
    itemsMobile: int,
    autoplay: int,
    transitionSpeed: int,
    showArrows: int,
    showDots: int,
    infiniteLoop: int,
    variant: Variant)

  datatype Variant =
    | ProductsVariant(productCategories: seq<int>, productTags: seq<int>, productsOrderby: string, productsOrder: string)
    | CategoriesVariant(selectedCategories: seq<int>, showOnlyWithProducts: int, categoriesOrderby: string, categoriesOrder: string)

  /** The stored configs by carousel id; an id without an entry has no config. */
  type Store = map<int, Config>

  predicate IsCommonKey(k: Key) {
    match k
    case CarouselType | TotalItems | ItemsDesktop | ItemsLaptop | ItemsTablet | ItemsMobile
       | Autoplay | TransitionSpeed | ShowArrows | ShowDots | InfiniteLoop => true
    case _ => false
  }

  /** The keys whose entry is `intval` of its field. */
  predicate IsNumberKey(k: Key) {
    k.TotalItems? || k.ItemsDesktop? || k.ItemsLaptop? || k.ItemsTablet? || k.ItemsMobile? || k.TransitionSpeed?
  }

  /** The keys whose entry records whether its checkbox was submitted. */
  predicate IsFlagKey(k: Key) {
    k.Autoplay? || k.ShowArrows? || k.ShowDots? || k.InfiniteLoop? || k.ShowOnlyWithProducts?
  }

  predicate IsProductsKey(k: Key) {
    k.ProductCategories? || k.ProductTags? || k.ProductsOrderby? || k.ProductsOrder?
  }

  predicate IsCategoriesKey(k: Key) {
    k.SelectedCategories? || k.ShowOnlyWithProducts? || k.CategoriesOrderby? || k.CategoriesOrder?
  }

  /**
   * The config read as the PHP array it is stored as: `$config[key]`, with
   * null (`None`) for a key the config does not have.
   */
  function Get(c: Config, k: Key): Option<Value> {
    match k
    case CarouselType => Some(Str(c.carouselType))
    case TotalItems => Some(Int(c.totalItems))
    case ItemsDesktop => Some(Int(c.itemsDesktop))
    case ItemsLaptop => Some(Int(c.itemsLaptop))
    case ItemsTablet => Some(Int(c.itemsTablet))
    case ItemsMobile => Some(Int(c.itemsMobile))
    case Autoplay => Some(Int(c.autoplay))
    case TransitionSpeed => Some(Int(c.transitionSpeed))
    case ShowArrows => Some(Int(c.showArrows))
    case ShowDots => Some(Int(c.showDots))
    case InfiniteLoop => Some(Int(c.infiniteLoop))
    case ProductCategories => if c.variant.ProductsVariant? then Some(IntList(c.variant.productCategories)) else None
    case ProductTags => if c.variant.ProductsVariant? then Some(IntList(c.variant.productTags)) else None
    case ProductsOrderby => if c.variant.ProductsVariant? then Some(Str(c.variant.productsOrderby)) else None
    case ProductsOrder => if c.variant.ProductsVariant? then Some(Str(c.variant.productsOrder)) else None
    case SelectedCategories => if c.variant.CategoriesVariant? then Some(IntList(c.variant.selectedCategories)) else None
    case ShowOnlyWithProducts => if c.variant.CategoriesVariant? then Some(Int(c.variant.showOnlyWithProducts)) else None
    case CategoriesOrderby => if c.variant.CategoriesVariant? then Some(Str(c.variant.categoriesOrderby)) else None
    case CategoriesOrder => if c.variant.CategoriesVariant? then Some(Str(c.variant.categoriesOrder)) else None
  }

  /** A config as the PHP array it is stored as has the eleven common keys and the keys of its own kind only. */
  lemma StoredKeys(c: Config, k: Key)
    ensures Get(c, k).Some? <==>
      IsCommonKey(k) || (if c.variant.ProductsVariant? then IsProductsKey(k) else IsCategoriesKey(k))
  {
  }

  /**
   * Why a save stops: `array_map('intval', …)` given a single value instead
   * of a list raises a TypeError, and nothing is stored.
   */
  datatype SaveError = ListExpected(key: Key)

  /** `$_POST[name]`: an absent field reads as null. */
  function Lookup(post: Submission, name: FormKey): Option<Field> {
    if name in post then Some(post[name]) else None
  }

  /** Whether the field an entry is read from was submitted (`isset`). */
  predicate Submitted(post: Submission, k: Key) {
    ConfigField(k) in post
  }

  /** `intval($_POST[key])`. */
  function Number(post: Submission, k: Key): (n: int)
    ensures MinInt <= n <= MaxInt
    ensures !Submitted(post, k) ==> n == 0
  {
    FieldIntval(Lookup(post, ConfigField(k)))
  }

  /** `isset($_POST[key]) ? 1 : 0`. */
  function Flag(post: Submission, k: Key): (b: int)
    ensures b == 1 <==> Submitted(post, k)
    ensures b == 0 <==> !Submitted(post, k)
  {
    if Submitted(post, k) then 1 else 0
  }

  /**
   * `sanitize_text_field($_POST[key])`; the cleaning itself is WordPress's
   * and is the parameter `sanitize`. An absent field reads as the empty
   * string and a list gives the empty string.
   */
  function TextField(post: Submission, k: Key, sanitize: string -> string): (t: string)
    ensures !Submitted(post, k) ==> t == sanitize("")
    ensures Submitted(post, k) && post[ConfigField(k)].Text? ==> t == sanitize(post[ConfigField(k)].s)
    ensures Submitted(post, k) && post[ConfigField(k)].Items? ==> t == ""
  {
    match Lookup(post, ConfigField(k))
    case None => sanitize("")
    case Some(Text(s)) => sanitize(s)
    case Some(Items(_)) => ""
  }

  /**
   * `isset($_POST[key]) ? array_map('intval', $_POST[key]) : array()`:
   * element by element, same length, no element dropped; a single value
   * where a list belongs is the TypeError.
   */
  function IntvalList(post: Submission, k: Key): (r: Result<seq<int>, SaveError>)
    ensures r.Err? <==> Submitted(post, k) && post[ConfigField(k)].Text?
    ensures r.Err? ==> r.error == ListExpected(k)
    ensures !Submitted(post, k) ==> r == Ok([])
    ensures r.Ok? && Submitted(post, k) ==>
      |r.value| == |post[ConfigField(k)].items| &&
      forall i :: 0 <= i < |r.value| ==> r.value[i] == Intval(post[ConfigField(k)].items[i])
  {
    match Lookup(post, ConfigField(k))
    case None => Ok([])
    case Some(Text(_)) => Err(ListExpected(k))
    case Some(Items(xs)) => Ok(seq(|xs|, i requires 0 <= i < |xs| => Intval(xs[i])))
  }

  /** The list a successful save stores under `k`. */
  function SubmittedIds(post: Submission, k: Key): seq<int> {
    var r := IntvalList(post, k);
    if r.Ok? then r.value else []
  }

  /**
   * The kind on record is products exactly when the cleaned type reads
   * "products"; anything else, "categories", an empty type or a list, is
   * categories.
   */
  function IsProducts(post: Submission, sanitize: string -> string): (b: bool)
    ensures b <==> TextField(post, CarouselType, sanitize) == "products"
    ensures Submitted(post, CarouselType) && post[ConfigField(CarouselType)].Items? ==> !b
  {
    TextField(post, CarouselType, sanitize) == "products"
  }

  /** Whether the save stops on a list field of the chosen kind that holds a single value. */
  predicate SaveFails(post: Submission, sanitize: string -> string) {
    if IsProducts(post, sanitize) then
      IntvalList(post, ProductCategories).Err? || IntvalList(post, ProductTags).Err?
    else
      IntvalList(post, SelectedCategories).Err?
  }

  /** The first list field of the chosen kind that holds a single value. */
  function FirstSaveError(post: Submission, sanitize: string -> string): SaveError
    requires SaveFails(post, sanitize)
  {
    if IsProducts(post, sanitize) then
      if IntvalList(post, ProductCategories).Err? then ListExpected(ProductCategories)
      else ListExpected(ProductTags)
    else
      ListExpected(SelectedCategories)
  }

  /**
   * The config `save_carousel` builds from a submission: the common entries
   * and the entries of the submitted kind, "products" or, for any other
   * type, categories. Numbers are `intval` of what was submitted, with no
   * clamping to the form's bounds; flags are 1 exactly when their field was
   * submitted; id lists are `intval` of each submitted element.
   */
  function BuildConfig(post: Submission, sanitize: string -> string): (r: Result<Config, SaveError>)
    ensures r.Err? <==> SaveFails(post, sanitize)
    ensures r.Err? ==> r.error == FirstSaveError(post, sanitize)
    ensures r.Ok? ==> r.value.carouselType == TextField(post, CarouselType, sanitize)
    ensures r.Ok? ==> (r.value.variant.ProductsVariant? <==> IsProducts(post, sanitize))
  {
    if SaveFails(post, sanitize) then Err(FirstSaveError(post, sanitize))
    else
      var variant :=
        if IsProducts(post, sanitize) then
          ProductsVariant(
            SubmittedIds(post, ProductCategories), SubmittedIds(post, ProductTags),
            TextField(post, ProductsOrderby, sanitize), TextField(post, ProductsOrder, sanitize))
        else
          CategoriesVariant(
            SubmittedIds(post, SelectedCategories), Flag(post, ShowOnlyWithProducts),
            TextField(post, CategoriesOrderby, sanitize), TextField(post, CategoriesOrder, sanitize));
      Ok(Config(
        TextField(post, CarouselType, sanitize),
        Number(post, TotalItems), Number(post, ItemsDesktop), Number(post, ItemsLaptop),
        Number(post, ItemsTablet), Number(post, ItemsMobile),
        Flag(post, Autoplay), Number(post, TransitionSpeed),
        Flag(post, ShowArrows), Flag(post, ShowDots), Flag(post, InfiniteLoop),
        variant))
  }

  /**
   * A saved config, read as the stored PHP array, has the eleven common keys
   * always, the keys of the submitted kind and no key of the other kind.
   */
  lemma SavedKeys(post: Submission, sanitize: string -> string, k: Key)
    requires BuildConfig(post, sanitize).Ok?
    ensures Get(BuildConfig(post, sanitize).value, k).Some? <==>
      IsCommonKey(k) || (if IsProducts(post, sanitize) then IsProductsKey(k) else IsCategoriesKey(k))
  {
    StoredKeys(BuildConfig(post, sanitize).value, k);
  }

  /**
   * A saved config holds, entry for entry, what its fields submitted: the
   * cleaned type, `intval` of each number field and the 0 or 1 of each
   * checkbox, next to the entries of its kind.
   */
  lemma SavedConfig(post: Submission, sanitize: string -> string)
    requires BuildConfig(post, sanitize).Ok?
    ensures var c := BuildConfig(post, sanitize).value;
      c == Config(
        TextField(post, CarouselType, sanitize),
        Number(post, TotalItems), Number(post, ItemsDesktop), Number(post, ItemsLaptop),
        Number(post, ItemsTablet), Number(post, ItemsMobile),
        Flag(post, Autoplay), Number(post, TransitionSpeed),
        Flag(post, ShowArrows), Flag(post, ShowDots), Flag(post, InfiniteLoop),
        c.variant)
  {
  }

  /** The products entries a save of the products kind stores. */
  lemma SavedProductsVariant(post: Submission, sanitize: string -> string)
    requires BuildConfig(post, sanitize).Ok? && IsProducts(post, sanitize)
    ensures BuildConfig(post, sanitize).value.variant == ProductsVariant(
      SubmittedIds(post, ProductCategories), SubmittedIds(post, ProductTags),
      TextField(post, ProductsOrderby, sanitize), TextField(post, ProductsOrder, sanitize))
  {
  }

  /** The categories entries a save of the categories kind stores. */
  lemma SavedCategoriesVariant(post: Submission, sanitize: string -> string)
    requires BuildConfig(post, sanitize).Ok? && !IsProducts(post, sanitize)
    ensures BuildConfig(post, sanitize).value.variant == CategoriesVariant(
      SubmittedIds(post, SelectedCategories), Flag(post, ShowOnlyWithProducts),
      TextField(post, CategoriesOrderby, sanitize), TextField(post, CategoriesOrder, sanitize))
  {
  }

  /** Each saved number is `intval` of its field, unclamped, and 0 when the field is absent. */
  lemma SavedNumbers(post: Submission, sanitize: string -> string, k: Key)
    requires BuildConfig(post, sanitize).Ok?
    requires IsNumberKey(k)
    ensures Get(BuildConfig(post, sanitize).value, k) == Some(Int(FieldIntval(Lookup(post, ConfigField(k)))))
    ensures !Submitted(post, k) ==> Get(BuildConfig(post, sanitize).value, k) == Some(Int(0))
  {
    var c := BuildConfig(post, sanitize).value;
    SavedConfig(post, sanitize);
    assert Get(c, k) == Some(Int(Number(post, k))) by {
      match k
      case TotalItems =>
      case ItemsDesktop =>
      case ItemsLaptop =>
      case ItemsTablet =>
      case ItemsMobile =>
      case TransitionSpeed =>
    }
  }

  /** Each saved flag is 1 when its checkbox was submitted and 0 when it was not. */
  lemma SavedFlags(post: Submission, sanitize: string -> string, k: Key)
    requires BuildConfig(post, sanitize).Ok?
    requires IsFlagKey(k) && Get(BuildConfig(post, sanitize).value, k).Some?
    ensures Get(BuildConfig(post, sanitize).value, k) == Some(Int(1)) <==> Submitted(post, k)
    ensures Get(BuildConfig(post, sanitize).value, k) == Some(Int(0)) <==> !Submitted(post, k)
  {
    var c := BuildConfig(post, sanitize).value;
    SavedConfig(post, sanitize);
    if k.ShowOnlyWithProducts? {
      SavedCategoriesVariant(post, sanitize);
    }
    assert Get(c, k) == Some(Int(Flag(post, k))) by {
      match k
      case Autoplay =>
      case ShowArrows =>
      case ShowDots =>
      case InfiniteLoop =>
      case ShowOnlyWithProducts =>
    }
  }

  /**
   * Each stored id list is the submitted list with `intval` applied to every
   * element (same length, nothing dropped, a non-numeric id becoming 0), or
   * empty when none was submitted.
   */
  lemma SavedIdLists(post: Submission, sanitize: string -> string, k: Key)
    requires BuildConfig(post, sanitize).Ok?
    requires k == ProductCategories || k == ProductTags || k == SelectedCategories
    requires Get(BuildConfig(post, sanitize).value, k).Some?
    ensures var v := Get(BuildConfig(post, sanitize).value, k).value;
      && v.IntList?
      && (!Submitted(post, k) ==> v.xs == [])
      && (Submitted(post, k) ==>
            && post[ConfigField(k)].Items?
            && |v.xs| == |post[ConfigField(k)].items|
            && forall i :: 0 <= i < |v.xs| ==> v.xs[i] == Intval(post[ConfigField(k)].items[i]))
  {
    assert IntvalList(post, k).Ok?;
  }

  /** A list read without error is non-empty exactly when a non-empty list was submitted. */
  lemma SubmittedIdsNonEmpty(post: Submission, k: Key)
    requires IntvalList(post, k).Ok?
    ensures SubmittedIds(post, k) != [] <==> Submitted(post, k) && post[ConfigField(k)].items != []
  {
  }

  /**
   * `save_carousel`'s construction of `$config`: the common entries, then
   * the entries of the submitted kind, stopping at a list field that holds
   * a single value.
   */
  method SaveCarousel(post: Submission, sanitize: string -> string) returns (r: Result<Config, SaveError>)
    ensures r == BuildConfig(post, sanitize)
  {
    var carouselType := TextField(post, CarouselType, sanitize);
    var variant;
    if carouselType == "products" {
      var cats := IntvalList(post, ProductCategories);
      if cats.Err? { return Err(cats.error); }
      var tags := IntvalList(post, ProductTags);
      if tags.Err? { return Err(tags.error); }
      variant := ProductsVariant(
        cats.value, tags.value,
        TextField(post, ProductsOrderby, sanitize), TextField(post, ProductsOrder, sanitize));
    } else {
      var selected := IntvalList(post, SelectedCategories);
      if selected.Err? { return Err(selected.error); }
      variant := CategoriesVariant(
        selected.value, Flag(post, ShowOnlyWithProducts),
        TextField(post, CategoriesOrderby, sanitize), TextField(post, CategoriesOrder, sanitize));
    }
    r := Ok(Config(
      carouselType,
      Number(post, TotalItems), Number(post, ItemsDesktop), Number(post, ItemsLaptop),
      Number(post, ItemsTablet), Number(post, ItemsMobile),
      Flag(post, Autoplay), Number(post, TransitionSpeed),
      Flag(post, ShowArrows), Flag(post, ShowDots), Flag(post, InfiniteLoop),
      variant));
  }

  /**
   * The id a save writes to: the submitted `carousel_id` when it is not 0,
   * otherwise the id the host gives the newly inserted post (`inserted`, 0
   * when the insert fails).
   */
  function SaveTarget(post: Submission, inserted: int): (target: int)
    ensures FieldIntval(Lookup(post, CarouselIdField)) != 0 ==> target == FieldIntval(Lookup(post, CarouselIdField))
    ensures FieldIntval(Lookup(post, CarouselIdField)) == 0 ==> target == inserted
    ensures CarouselIdField !in post ==> target == inserted
    ensures target == 0 <==> FieldIntval(Lookup(post, CarouselIdField)) == 0 && inserted == 0
  {
    var id := FieldIntval(Lookup(post, CarouselIdField));
    if id != 0 then id else inserted
  }

  /**
   * The store after a save: the built config replaces whatever the target
   * id held and nothing else changes; a failed build or a 0 target leaves
   * the store as it was.
   */
  function SaveToStore(store: Store, post: Submission, sanitize: string -> string, inserted: int): (s: Store)
    ensures forall id :: id in store && id != SaveTarget(post, inserted) ==> id in s && s[id] == store[id]
    ensures forall id :: id in s ==> id in store || id == SaveTarget(post, inserted)
    ensures BuildConfig(post, sanitize).Ok? && SaveTarget(post, inserted) != 0 ==>
      SaveTarget(post, inserted) in s && s[SaveTarget(post, inserted)] == BuildConfig(post, sanitize).value
    ensures BuildConfig(post, sanitize).Err? || SaveTarget(post, inserted) == 0 ==> s == store
  {
    var config := BuildConfig(post, sanitize);
    var id := SaveTarget(post, inserted);
    if config.Ok? && id != 0 then store[id := config.value] else store
  }
}

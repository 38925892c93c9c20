/**
 * What the create/edit form (`new_carousel_page` and the two settings
 * panels) shows: each field's value, taken from the stored config when the
 * key is set and from the form's fallback when it is not, and which
 * checkboxes and select options are marked.
 */
module EditForm {
  import opened Wrappers
  import opened Php
  import opened CarouselConfig

  /** A product category or tag as the host lists it. */
  datatype Term = Term(id: int, name: string)

  /** `intval($_GET['id'])`, 0 when the page is opened without an id. */
  function EditId(query: map<string, string>): (id: int)
    ensures "id" !in query ==> id == 0
    ensures "id" in query ==> id == Intval(query["id"])
  {
    if "id" in query then Intval(query["id"]) else 0
  }

  /**
   * The config the form starts from: the stored one when an id is given
   * and has one, otherwise an empty array (`None`), whose every key is unset.
   */
  function FormConfig(store: Store, id: int): (c: Option<Config>)
    ensures c.Some? <==> id != 0 && id in store
    ensures c.Some? ==> c.value == store[id]
  {
    if id != 0 && id in store then Some(store[id]) else None
  }

  /** `$config[key]` as the form reads it; `isset` holds exactly when it is `Some`. */
  function Entry(c: Option<Config>, k: Key): Option<Value> {
    if c.Some? then Get(c.value, k) else None
  }

  /** The `min` attribute of a number input. */
  function InputMin(k: Key): int
    requires IsNumberKey(k)
  {
    if k.TransitionSpeed? then 100 else 1
  }

  /** The `max` attribute of a number input. */
  function InputMax(k: Key): int
    requires IsNumberKey(k)
  {
    match k
    case TotalItems => 50
    case ItemsDesktop => 6
    case ItemsLaptop => 5
    case ItemsTablet => 4
    case ItemsMobile => 2
    case TransitionSpeed => 3000
  }

  /** The value a number input shows when its key is unset, within the input's own bounds. */
  function NumberFallback(k: Key): (n: int)
    requires IsNumberKey(k)
    ensures InputMin(k) <= n <= InputMax(k)
  {
    match k
    case TotalItems => 12
    case ItemsDesktop => 4
    case ItemsLaptop => 3
    case ItemsTablet => 2
    case ItemsMobile => 1
    case TransitionSpeed => 300
  }

  /** The text of a number input: the stored entry printed, or the printed fallback. */
  function NumberShown(c: Option<Config>, k: Key): (text: string)
    requires IsNumberKey(k)
    ensures Entry(c, k).None? ==> text == IntToDecimal(NumberFallback(k))
    ensures Entry(c, k).Some? ==> text == PhpString(Entry(c, k).value)
  {
    match Entry(c, k)
    case Some(v) => PhpString(v)
    case None => IntToDecimal(NumberFallback(k))
  }

  /** Whether a checkbox starts checked when its key is unset: all but autoplay and "only with products". */
  function FlagFallback(k: Key): (on: bool)
    requires IsFlagKey(k)
    ensures on <==> k in {ShowArrows, ShowDots, InfiniteLoop}
    ensures !on <==> k in {Autoplay, ShowOnlyWithProducts}
  {
    !(k.Autoplay? || k.ShowOnlyWithProducts?)
  }

  /**
   * Whether a checkbox is checked: `checked($x)` prints the attribute when
   * `(string) $x` is "1", with `$x` the stored entry or the fallback.
   */
  function CheckboxShown(c: Option<Config>, k: Key): (checked: bool)
    requires IsFlagKey(k)
    ensures Entry(c, k).None? ==> (checked <==> FlagFallback(k))
    ensures Entry(c, k).Some? && Entry(c, k).value.Int? ==> (checked <==> Entry(c, k).value.i == 1)
    ensures Entry(c, k).Some? && Entry(c, k).value.IntList? ==> !checked
  {
    match Entry(c, k)
    case Some(v) => PhpString(v) == "1"
    case None => FlagFallback(k)
  }

  /** The type the form starts on: the stored type, or "products". */
  function TypeShown(c: Option<Config>): (t: string)
    ensures c.None? ==> t == "products"
    ensures c.Some? ==> t == c.value.carouselType
  {
    match Entry(c, CarouselType)
    case Some(v) => PhpString(v)
    case None => "products"
  }

  /**
   * The products panel is displayed when the type shown is "products": for
   * a new carousel, and for a stored one of that type.
   */
  function ProductsPanelShown(c: Option<Config>): (shown: bool)
    ensures c.None? ==> shown
    ensures c.Some? ==> (shown <==> c.value.carouselType == "products")
  {
    TypeShown(c) == "products"
  }

  /**
   * The categories panel is displayed when the type shown is "categories":
   * never for a new carousel, and never together with the products panel.
   */
  function CategoriesPanelShown(c: Option<Config>): (shown: bool)
    ensures c.None? ==> !shown
    ensures c.Some? ==> (shown <==> c.value.carouselType == "categories")
    ensures !(shown && ProductsPanelShown(c))
  {
    TypeShown(c) == "categories"
  }

  /** The options of the four order selects, the fallback first. */
  const ProductsOrderbyOptions: seq<string> := ["date", "title", "price", "popularity", "rand"]
  const ProductsOrderOptions: seq<string> := ["DESC", "ASC"]
  const CategoriesOrderbyOptions: seq<string> := ["name", "id", "count"]
  const CategoriesOrderOptions: seq<string> := ["ASC", "DESC"]
  /** The options of the type select. */
  const TypeOptions: seq<string> := ["products", "categories"]

  /**
   * Which options of an order select are marked. `selected($a, $b)` marks
   * an option when `(string) $a` and `(string) $b` are equal; the first
   * option compares the stored entry, or its own value when the key is
   * unset, and each other option compares the stored entry, or "".
   */
  function MarkedOptions(entry: Option<Value>, options: seq<string>): (marks: seq<bool>)
    requires options != []
    ensures |marks| == |options|
    ensures forall i :: 0 <= i < |marks| && entry.Some? ==> (marks[i] <==> PhpString(entry.value) == options[i])
    ensures entry.None? ==> marks[0]
    ensures forall i :: 0 < i < |marks| && entry.None? ==> (marks[i] <==> options[i] == "")
  {
    seq(|options|, i requires 0 <= i < |options| =>
      (match entry
       case Some(v) => PhpString(v)
       case None => if i == 0 then options[0] else "") == options[i])
  }

  predicate Distinct(options: seq<string>) {
    forall i, j :: 0 <= i < j < |options| ==> options[i] != options[j]
  }

  /** With distinct, non-empty options, a select never marks more than one. */
  lemma AtMostOneMarked(entry: Option<Value>, options: seq<string>, i: int, j: int)
    requires options != [] && Distinct(options)
    requires forall m :: 0 <= m < |options| ==> options[m] != ""
    requires 0 <= i < j < |options|
    ensures !(MarkedOptions(entry, options)[i] && MarkedOptions(entry, options)[j])
  {
  }

  /** Which options of the type select are marked: the one equal to the type shown. */
  function TypeMarks(c: Option<Config>): (marks: seq<bool>)
    ensures |marks| == |TypeOptions|
    ensures forall i :: 0 <= i < |marks| ==> (marks[i] <==> TypeShown(c) == TypeOptions[i])
  {
    seq(|TypeOptions|, i requires 0 <= i < |TypeOptions| => TypeShown(c) == TypeOptions[i])
  }

  /**
   * `isset($config[key]) && in_array($id, $config[key])`: true exactly when
   * the entry is a stored id list holding the id; an unset entry holds nothing.
   */
  function InList(entry: Option<Value>, id: int): (found: bool)
    ensures entry.None? ==> !found
    ensures entry.Some? && entry.value.IntList? ==> (found <==> id in entry.value.xs)
  {
    match entry
    case Some(IntList(xs)) => id in xs
    case _ => false
  }

  /** Which term checkboxes of a flat products list (categories or tags) are checked. */
  function TermMarks(c: Option<Config>, k: Key, terms: seq<Term>): (marks: seq<bool>)
    ensures |marks| == |terms|
    ensures forall i :: 0 <= i < |terms| ==> (marks[i] <==> InList(Entry(c, k), terms[i].id))
  {
    seq(|terms|, i requires 0 <= i < |terms| => InList(Entry(c, k), terms[i].id))
  }

  /** A number input left at its fallback reads back through `intval` as that fallback. */
  lemma FallbackReadsBack(k: Key)
    requires IsNumberKey(k)
    ensures Intval(NumberShown(None, k)) == NumberFallback(k)
  {
    var n := NumberFallback(k);
    assert NumberShown(None, k) == IntToDecimal(n);
    IntvalInverts(n);
  }

  /**
   * A new carousel (no config) starts with 12 items in total, 4, 3, 2 and 1
   * per screen and a 300 ms transition.
   */
  lemma NewCarouselNumbers()
    ensures Intval(NumberShown(None, TotalItems)) == 12
    ensures Intval(NumberShown(None, ItemsDesktop)) == 4
    ensures Intval(NumberShown(None, ItemsLaptop)) == 3
    ensures Intval(NumberShown(None, ItemsTablet)) == 2
    ensures Intval(NumberShown(None, ItemsMobile)) == 1
    ensures Intval(NumberShown(None, TransitionSpeed)) == 300
  {
    FallbackReadsBack(TotalItems);
    FallbackReadsBack(ItemsDesktop);
    FallbackReadsBack(ItemsLaptop);
    FallbackReadsBack(ItemsTablet);
    FallbackReadsBack(ItemsMobile);
    FallbackReadsBack(TransitionSpeed);
  }

  /**
   * A new carousel starts on the products panel, with arrows, dots and
   * looping on, autoplay and "only with products" off, and the first option
   * of every select marked.
   */
  lemma NewCarouselOptions()
    ensures ProductsPanelShown(None) && !CategoriesPanelShown(None)
    ensures CheckboxShown(None, ShowArrows) && CheckboxShown(None, ShowDots) && CheckboxShown(None, InfiniteLoop)
    ensures !CheckboxShown(None, Autoplay) && !CheckboxShown(None, ShowOnlyWithProducts)
    ensures MarkedOptions(None, ProductsOrderbyOptions) == [true, false, false, false, false]
    ensures MarkedOptions(None, ProductsOrderOptions) == [true, false]
    ensures MarkedOptions(None, CategoriesOrderbyOptions) == [true, false, false]
    ensures MarkedOptions(None, CategoriesOrderOptions) == [true, false]
    ensures TypeMarks(None) == [true, false]
  {
  }

  /**
   * Editing a saved carousel: each number input shows text that `intval`
   * reads back as the saved number, so saving the form unchanged stores the
   * same number again.
   */
  lemma NumberShownReadsBack(post: Submission, sanitize: string -> string, k: Key)
    requires BuildConfig(post, sanitize).Ok? && IsNumberKey(k)
    ensures Intval(NumberShown(Some(BuildConfig(post, sanitize).value), k)) == Number(post, k)
  {
    var c := BuildConfig(post, sanitize).value;
    var n := Number(post, k);
    SavedNumbers(post, sanitize, k);
    assert NumberShown(Some(c), k) == IntToDecimal(n);
    IntvalInverts(n);
  }

  /**
   * Editing a saved carousel: a checkbox of the saved kind is checked
   * exactly when it was submitted, so saving the form unchanged stores the
   * same flag again.
   */
  lemma CheckboxShowsSaved(post: Submission, sanitize: string -> string, k: Key)
    requires BuildConfig(post, sanitize).Ok? && IsFlagKey(k)
    requires Get(BuildConfig(post, sanitize).value, k).Some?
    ensures CheckboxShown(Some(BuildConfig(post, sanitize).value), k) <==> Submitted(post, k)
  {
    SavedFlags(post, sanitize, k);
  }

  /**
   * Editing a saved carousel: a term of a saved list is checked exactly
   * when its id was saved, whichever kind the config is.
   */
  lemma SavedTermsChecked(post: Submission, sanitize: string -> string, k: Key, terms: seq<Term>, i: int)
    requires BuildConfig(post, sanitize).Ok?
    requires k == ProductCategories || k == ProductTags || k == SelectedCategories
    requires Get(BuildConfig(post, sanitize).value, k).Some?
    requires 0 <= i < |terms|
    ensures TermMarks(Some(BuildConfig(post, sanitize).value), k, terms)[i] <==> terms[i].id in SubmittedIds(post, k)
  {
    SavedIdLists(post, sanitize, k);
  }

  /**
   * A saved config shows its own kind's panel when its type is "products"
   * or "categories", never both; the settings of the other kind are unset
   * and show their fallbacks.
   */
  lemma PanelsOfSavedKind(c: Config)
    requires c.carouselType == "products" <==> c.variant.ProductsVariant?
    ensures !(ProductsPanelShown(Some(c)) && CategoriesPanelShown(Some(c)))
    ensures ProductsPanelShown(Some(c)) <==> c.variant.ProductsVariant?
    ensures CategoriesPanelShown(Some(c)) ==> c.variant.CategoriesVariant?
    ensures c.variant.ProductsVariant? ==>
      && Entry(Some(c), CategoriesOrderby).None? && Entry(Some(c), CategoriesOrder).None?
      && !CheckboxShown(Some(c), ShowOnlyWithProducts)
    ensures c.variant.CategoriesVariant? ==>
      Entry(Some(c), ProductsOrderby).None? && Entry(Some(c), ProductsOrder).None?
  {
  }
}

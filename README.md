# WooCommerce products & categories carousel: a Dafny model

The plugin stores one configuration per carousel. It builds that configuration
from the create/edit form (`save_carousel`). The `[wpccs_carousel id="…"]`
shortcode turns a stored configuration into a Slick carousel, either of
products (a `WP_Query`) or of product categories (a `get_terms` call). The edit
form shows the stored values, or fallbacks for keys a configuration does not
have, and lists the category tree as an indented checklist.

This project models the deterministic core under the HTML, the JavaScript and
the WordPress glue, and proves what it promises:

- `wrappers.dfy`: `Option` and `Result`.
- `php.dfy`: a few PHP semantics the plugin relies on:
  - `intval` on strings: leading blanks, one sign, a digit prefix, saturated to 64 bits;
  - `intval` of an absent field (null) and of a list;
  - `empty()`;
  - the decimal text `echo` prints for an integer, and the fact that `intval` reads it back.
- `config.dfy`: the stored configuration and `save_carousel`.
  - The configuration is a record with the eleven common entries and a variant holding one kind's entries.
  - `Get` reads it as the PHP array it is stored as, with null for a missing key.
  - Also here: the save as a function and as an imperative method, and the store after a save.
- `selection.dfy`: the arguments the two renderers hand to the host (`WP_Query`, `get_terms`) and the `.slick({...})` settings.
  - Each argument record is built imperatively, as the source builds `$args`, and proved equal to a specification function.
- `shortcode.dfy`: `generate_carousel_shortcode`'s dispatch, and what a carousel shows after a save.
- `edit_form.dfy`: what `new_carousel_page`, `render_products_settings` and `render_categories_settings` display:
  - the fallbacks for missing keys;
  - which checkboxes and select options are marked;
  - which settings panel is shown.
- `category_tree.dfy`: `render_category_checkbox`'s recursive walk, as a recursive method with a loop over each category's subcategories.
  - The method is proved equal to a pair of mutually recursive functions. From those the model proves that the listing is pre-order and nests as the categories do.

The host's answers are inputs of the model:
- the subcategories `get_terms` returns, as a map from parent id to its children;
- the stored configurations, as a map from carousel id to configuration;
- the id `wp_insert_post` gives a new carousel;
- `sanitize_text_field`, as a function parameter.

The PHP semantics are those of PHP 8. In particular, `array_map('intval', …)` given a single value instead of a list throws a `TypeError`, so that save stops and stores nothing.

Facts about the code that the model keeps:
- the form's number inputs carry `min` and `max` attributes (lines 320-387), but the save stores `intval` of whatever was submitted, unclamped;
- a non-numeric id in a submitted list is stored as 0, not dropped;
- a flag is stored as 1 when its field was submitted and as 0 otherwise;
- any submitted type other than "products" saves a categories configuration;
- the category walk has no guard against cycles: it would recurse without end only if the host listed a category among its own descendants. WordPress's `get_terms` with `parent` lists the terms whose single parent column is that id, so every category the walk reaches descends from the top level and the walk ends. The model makes termination a precondition: a ghost ranking under which every subcategory in the host's listing ranks below its parent.

## Model

| member | source | states |
|---|---|---|
| `Php.Intval` | woocommerce-products-categories-carousel-slider.php:664-670 | `intval` of a string lies in the 64-bit range, is 0 for the empty string and 0 for a string that starts with anything but a blank, a sign or a digit |
| `Php.IntvalInverts` | woocommerce-products-categories-carousel-slider.php:317-387 | the number the form prints for an integer in the 64-bit range reads back through `intval` as that integer |
| `Php.IntvalOfDecimal` | woocommerce-products-categories-carousel-slider.php:664-670 | the printed integer followed by any text that does not start with a digit still reads back as the integer |
| `Php.IntPrintsDigit` | woocommerce-products-categories-carousel-slider.php:377-414 | an integer prints as a single digit, such as the "1" `checked()` compares against, exactly when it is that digit's value |
| `Php.FieldIntval` | woocommerce-products-categories-carousel-slider.php:657-670 | `intval` of a submitted field is in the 64-bit range; an absent field (null) gives 0, and a list gives 1 when it has an element and 0 when it is empty |
| `Php.Empty` | woocommerce-products-categories-carousel-slider.php:744-752 | `empty()` holds of null, of an empty list, and of a scalar that prints as "" or "0"; it guards the two clauses and, at line 829, the `include` |
| `Php.Truthy` | woocommerce-products-categories-carousel-slider.php:786-790 | an entry is true when it is an integer other than 0 or a non-empty list, and null is never true; this chooses `'true'` or `'false'` for each slider option |
| `Php.PhpString` | woocommerce-products-categories-carousel-slider.php:317-387 | `(string)` of an entry: a string is itself, a list prints "Array", and an integer never prints as "", and prints as "0" or "1" exactly when it is 0 or 1 |
| `CarouselConfig.BuildConfig` | woocommerce-products-categories-carousel-slider.php:657-689 | the save fails exactly when a list field of the chosen kind holds a single value, and then with the first such field; otherwise the type is the sanitized submitted type, and the config is of the products kind exactly when that type is "products" |
| `CarouselConfig.StoredKeys` | woocommerce-products-categories-carousel-slider.php:662-689 | a stored config has a key exactly when the key is one of the eleven common keys or a key of the config's own kind |
| `CarouselConfig.SavedKeys` | woocommerce-products-categories-carousel-slider.php:662-689 | a saved config has all eleven common keys and the keys of the submitted kind, and no key of the other kind |
| `CarouselConfig.SavedNumbers` | woocommerce-products-categories-carousel-slider.php:664-670 | each saved number is `intval` of its submitted field, with no clamping, and 0 when the field was absent |
| `CarouselConfig.SavedFlags` | woocommerce-products-categories-carousel-slider.php:669-673 | each saved flag, `show_only_with_products` included (line 686), is 1 iff its field was submitted and 0 iff it was not |
| `CarouselConfig.SavedIdLists` | woocommerce-products-categories-carousel-slider.php:678-685 | each saved id list is the submitted list with `intval` applied to every element, same length and none dropped, or empty when the field was absent |
| `CarouselConfig.IntvalList` | woocommerce-products-categories-carousel-slider.php:678-685 | `array_map('intval', …)` is an error exactly when a single value was submitted for the list; otherwise it maps element by element, and an absent field gives the empty list |
| `CarouselConfig.SavedConfig` | woocommerce-products-categories-carousel-slider.php:662-674 | a saved config holds the cleaned type, `intval` of each of the six number fields and the 0 or 1 of each of the four checkboxes, entry for entry |
| `CarouselConfig.SavedProductsVariant` | woocommerce-products-categories-carousel-slider.php:677-682 | a save of the products kind stores the two submitted id lists and the two cleaned order fields |
| `CarouselConfig.SavedCategoriesVariant` | woocommerce-products-categories-carousel-slider.php:684-689 | a save of the categories kind stores the submitted selection, the flag of its checkbox and the two cleaned order fields |
| `CarouselConfig.TextField` | woocommerce-products-categories-carousel-slider.php:658-688 | `sanitize_text_field($_POST[key])`: an absent field is cleaned as "", a single value is cleaned, and a list gives "" |
| `CarouselConfig.IsProducts` | woocommerce-products-categories-carousel-slider.php:676-677 | the products kind is chosen exactly when the cleaned type is "products"; a list submitted as the type never chooses it |
| `CarouselConfig.SubmittedIdsNonEmpty` | woocommerce-products-categories-carousel-slider.php:678-685 | a list read without error is non-empty exactly when the field was submitted with at least one element |
| `CarouselConfig.Number` | woocommerce-products-categories-carousel-slider.php:664-670 | `intval($_POST[key])` is in the 64-bit range, and 0 when the field is absent |
| `CarouselConfig.Flag` | woocommerce-products-categories-carousel-slider.php:669-673 | `isset($_POST[key]) ? 1 : 0` is 1 iff the field was submitted and 0 iff it was not |
| `CarouselConfig.SaveCarousel` | woocommerce-products-categories-carousel-slider.php:657-689 | the imperative construction of `$config`, one kind's entries at a time and stopping at the first bad list field, builds exactly `BuildConfig` |
| `CarouselConfig.SaveTarget` | woocommerce-products-categories-carousel-slider.php:657-703 | the save writes to the submitted `carousel_id` when it reads as non-zero, and otherwise, an absent id included, to the id of the newly inserted post; the target is 0 exactly when both are 0 |
| `CarouselConfig.SaveToStore` | woocommerce-products-categories-carousel-slider.php:698-708 | a save replaces the config under the target id and leaves every other id as it was; a failed build or a 0 target id leaves the whole store unchanged |
| `Selection.ProductQueryFor` | woocommerce-products-categories-carousel-slider.php:734-762 | the limit is `total_items` and the order is passed through; there is one clause per non-empty list, categories before tags; `tax_query` is set exactly when there is a clause, and never as an empty list |
| `Selection.ClausesAreDistinct` | woocommerce-products-categories-carousel-slider.php:743-758 | every clause filters one of the two taxonomies by term id, and a category clause always comes before a tag clause |
| `Selection.BuildProductQuery` | woocommerce-products-categories-carousel-slider.php:734-762 | appending the clauses to `$tax_query` one at a time and setting the key only when there is one gives exactly `ProductQueryFor` |
| `Selection.TermQueryFor` | woocommerce-products-categories-carousel-slider.php:821-834 | `hide_empty` is the stored flag and the order is passed through; `include` is the selection exactly when the selection is not empty, and otherwise `parent` is 0; exactly one of the two is set |
| `Selection.ProductQueryOfProducts` | woocommerce-products-categories-carousel-slider.php:734-762 | for a products config, the limit and the order are its stored ones; it has a category clause with its categories exactly when they are not empty, a tag clause with its tags exactly when they are not empty, and no `tax_query` when both are empty |
| `Selection.TermQueryOfCategories` | woocommerce-products-categories-carousel-slider.php:821-834 | for a categories config, `hide_empty` is its stored flag and the order its stored order, and the query includes its selection when that is not empty and asks for the top-level categories (`parent` 0) when it is empty |
| `Selection.BuildTermQuery` | woocommerce-products-categories-carousel-slider.php:821-834 | inserting `include` or `parent` into `$args` gives exactly `TermQueryFor` |
| `Selection.SliderFor` | woocommerce-products-categories-carousel-slider.php:783-810 | the desktop count is shown and one item is scrolled; each option is on exactly when its entry is not 0; below 1366, 1024 and 767 pixels the laptop, tablet and mobile counts are shown |
| `Selection.SliderIgnoresKind` | woocommerce-products-categories-carousel-slider.php:863-890 | the categories renderer's slider settings are the products renderer's: two configs that agree on the common entries get the same settings, whatever their kind |
| `Shortcode.ShortcodeId` | woocommerce-products-categories-carousel-slider.php:716-720 | the id is `intval` of the attribute, and 0 when the attribute is missing |
| `Shortcode.GenerateCarouselShortcode` | woocommerce-products-categories-carousel-slider.php:715-729 | no output exactly when the id is 0 or has no stored config; the products renderer exactly when the stored type is "products", and the categories renderer for any other type; each renderer gets the id and the config's query and slider settings |
| `Shortcode.Render` | woocommerce-products-categories-carousel-slider.php:724-728 | the products renderer exactly when the type is "products", the categories renderer for any other type, each with the id, its kind's query and the slider settings |
| `Shortcode.ShowsSaved` | woocommerce-products-categories-carousel-slider.php:657-729 | after a save, the shortcode for the saved id renders the config just built |
| `Shortcode.SavedCarouselShows` | woocommerce-products-categories-carousel-slider.php:657-729 | after a save, the carousel is of the submitted kind, shows the submitted counts, and has each slider option on exactly when its checkbox was submitted |
| `Shortcode.SavedProductQuery` | woocommerce-products-categories-carousel-slider.php:677-762 | a config saved as products queries the submitted total, in the cleaned submitted order, and filters by category, or by tag, exactly when a non-empty list of that kind was saved |
| `Shortcode.ShortcodeQueryAfterProductsSave` | woocommerce-products-categories-carousel-slider.php:677-762 | after a save of the products kind, the shortcode's query filters by category, or by tag, exactly when a non-empty list of that kind was submitted, using the ids as saved |
| `Shortcode.SavedTermQuery` | woocommerce-products-categories-carousel-slider.php:684-834 | a config saved as categories passes the submitted flag as `hide_empty` and the cleaned submitted order, and includes the saved selection when it is not empty; otherwise it asks for the top-level categories |
| `Shortcode.ShortcodeQueryAfterCategoriesSave` | woocommerce-products-categories-carousel-slider.php:684-834 | after a save of the categories kind, the shortcode hides empty categories exactly when that checkbox was submitted, and shows the selection, or the top-level categories when none was submitted |
| `Shortcode.SaveLeavesOthers` | woocommerce-products-categories-carousel-slider.php:694-729 | saving one carousel does not change what the shortcode shows for any other id |
| `EditForm.EditId` | woocommerce-products-categories-carousel-slider.php:261 | the edited id is `intval` of the `id` query argument, and 0 when the page is opened without one |
| `EditForm.FormConfig` | woocommerce-products-categories-carousel-slider.php:261-262 | the form starts from the stored config exactly when the id is not 0 and has one, and from an empty array otherwise |
| `EditForm.NumberFallback` | woocommerce-products-categories-carousel-slider.php:317-387 | every number fallback lies within its input's own `min` and `max` (12 in 1-50, 4 in 1-6, 3 in 1-5, 2 in 1-4, 1 in 1-2, 300 in 100-3000) |
| `EditForm.NumberShown` | woocommerce-products-categories-carousel-slider.php:317-387 | a number input shows the stored entry when the key is set, and the printed fallback when it is not |
| `EditForm.FlagFallback` | woocommerce-products-categories-carousel-slider.php:377-414 | an unset checkbox starts checked for arrows, dots and looping, and unchecked for autoplay and, at line 580, "only with products" |
| `EditForm.CheckboxShown` | woocommerce-products-categories-carousel-slider.php:372-414 | a checkbox is checked exactly when its stored entry is the integer 1, never for a list, and by its fallback when the key is unset |
| `EditForm.TypeShown` | woocommerce-products-categories-carousel-slider.php:263 | the form starts on the stored type, or on "products" for a new carousel |
| `EditForm.ProductsPanelShown` | woocommerce-products-categories-carousel-slider.php:302 | the products panel is displayed for a new carousel and for a stored one whose type is "products" |
| `EditForm.CategoriesPanelShown` | woocommerce-products-categories-carousel-slider.php:307 | the categories panel is displayed exactly for a stored type "categories", never for a new carousel, and never together with the products panel |
| `EditForm.MarkedOptions` | woocommerce-products-categories-carousel-slider.php:509-539 | an option is marked exactly when the stored entry prints as its value; when the key is unset, the first option is marked, and any other only if its value is empty |
| `EditForm.AtMostOneMarked` | woocommerce-products-categories-carousel-slider.php:590-614 | with distinct, non-empty option values a select never marks two options |
| `EditForm.TypeMarks` | woocommerce-products-categories-carousel-slider.php:289-296 | a type option is marked exactly when it equals the type shown |
| `EditForm.InList` | woocommerce-products-categories-carousel-slider.php:452-455 | `isset` and `in_array`: an unset entry holds no id, and a stored id list holds exactly its elements |
| `EditForm.TermMarks` | woocommerce-products-categories-carousel-slider.php:448-497 | a category or tag checkbox of the products panel is checked exactly when the stored list holds its id |
| `EditForm.FallbackReadsBack` | woocommerce-products-categories-carousel-slider.php:317-387 | a number input left at its fallback submits text that `intval` reads as that fallback |
| `EditForm.NewCarouselNumbers` | woocommerce-products-categories-carousel-slider.php:317-387 | a new carousel's form submits 12 items in total, 4, 3, 2 and 1 per screen, and a 300 ms transition |
| `EditForm.NewCarouselOptions` | woocommerce-products-categories-carousel-slider.php:289-614 | a new carousel starts on the products panel, with arrows, dots and looping checked, autoplay and "only with products" unchecked, products ordered by `date`/`DESC` and categories by `name`/`ASC` |
| `EditForm.NumberShownReadsBack` | woocommerce-products-categories-carousel-slider.php:317-387 | editing a saved carousel, each number input reads back through `intval` as the saved number, so an unchanged resubmission stores it again |
| `EditForm.CheckboxShowsSaved` | woocommerce-products-categories-carousel-slider.php:372-414 | editing a saved carousel, a checkbox of its kind is checked exactly when it was submitted at the save |
| `EditForm.SavedTermsChecked` | woocommerce-products-categories-carousel-slider.php:453-456 | editing a saved carousel, a term's box is checked exactly when its id was saved |
| `EditForm.PanelsOfSavedKind` | woocommerce-products-categories-carousel-slider.php:299-307 | a saved config shows the panel of its own kind and never both; the other kind's settings are unset and show their fallbacks |
| `CategoryTree.RowOfCategory` | woocommerce-products-categories-carousel-slider.php:623-633 | a category's row carries its id and name at the given depth, indented by depth × 20 pixels and checked exactly when the saved entry is an id list holding its id (`$selected`, lines 624-625) |
| `CategoryTree.Walk` | woocommerce-products-categories-carousel-slider.php:623-647 | a category's walk starts with its own row at its depth |
| `CategoryTree.ChildWalk` | woocommerce-products-categories-carousel-slider.php:637-646 | the walks of a category's subcategories start at that depth when there is one, and are empty when there is none |
| `CategoryTree.RenderCategoryCheckbox` | woocommerce-products-categories-carousel-slider.php:623-647 | the recursive method, with its loop over the subcategories, emits exactly the rows of `Walk` |
| `CategoryTree.CategoryChecklist` | woocommerce-products-categories-carousel-slider.php:556-566 | the checklist starts with a depth-0 row whenever there is a top-level category |
| `CategoryTree.RenderCategoriesSettings` | woocommerce-products-categories-carousel-slider.php:556-566 | the checklist emits exactly the walks of the top-level categories at depth 0, in order |
| `CategoryTree.WalkShape` | woocommerce-products-categories-carousel-slider.php:623-647 | in a walk, every row is indented by depth × 20 pixels and checked exactly when the saved selection holds its id; every row after the first is deeper than the first |
| `CategoryTree.ChecklistShape` | woocommerce-products-categories-carousel-slider.php:556-647 | every checklist row is indented by depth × 20 pixels and checked exactly when the saved selection holds its id |
| `CategoryTree.ChildrenInOrder` | woocommerce-products-categories-carousel-slider.php:637-646 | the rows one level below a category's row are its subcategories, each once, in the host's order |
| `CategoryTree.TopLevelInOrder` | woocommerce-products-categories-carousel-slider.php:556-566 | the depth-0 rows of the checklist are the top-level categories, each once, in the host's order |
| `CategoryTree.ChecklistIsPreOrder` | woocommerce-products-categories-carousel-slider.php:556-647 | from one row to the next the depth grows by at most one, so a category comes right before its first subcategory |
| `CategoryTree.ChecklistNests` | woocommerce-products-categories-carousel-slider.php:556-647 | each row is a subcategory of the nearest earlier shallower row, and a row with no shallower row before it is a top-level category |
| `CategoryTree.ChecklistShowsSaved` | woocommerce-products-categories-carousel-slider.php:623-631 | editing a saved categories carousel, a category's box is checked exactly when its id was in the submitted selection |

## Left out

- HTML, CSS and inline JavaScript output, and `ob_start` buffering: the model gives the argument and settings records the markup is printed from. How Slick behaves is out of scope.
- The renderers print nothing when the products query has no posts or the term list is empty. Both answers come from the host, and the model stops at the query arguments.
- A `WP_Error` returned by `get_terms` is not modelled. The host's subcategory lists are an input map.
- Running `WP_Query` and `get_terms` (filtering, `hide_empty`, ordering, limit) happens inside WordPress, which is not part of this model.
- Persistence: `get_post_meta` and `update_post_meta` become a map from id to configuration. The id `wp_insert_post` returns is the parameter `inserted`. The post title and `wp_update_post` are not modelled.
- A stored value that is not a configuration array, which `get_post_meta` could hand back, is not modelled. The store only holds configurations the save builds.
- `sanitize_text_field` and `esc_*` are WordPress functions. Sanitizing is the parameter `sanitize`, and escaping is not modelled.
- Nonce checks, `current_user_can`, `wp_redirect`/`exit`, translations, hook and menu registration, and the carousels list page are host plumbing.
- `Php.Intval`: reads leading blanks, one sign and the leading digits, saturated to 64 bits. A string PHP reads as a float (a `.` or an exponent after the digits, or 20 or more digits) goes through a double, and there the two can differ: the exponent applies ("1e3" gives 1000, the model 1), a fraction may round up ("0.99999999999999999" gives 1, the model 0), a long integer part is rounded to the nearest double, and a value beyond the double range (more than 308 digits) gives 0 where the model saturates.
- `CarouselConfig.IntvalList`: PHP 8's `TypeError` is assumed for a single value where a list belongs. Under PHP 7 `array_map` warns and returns null, and the save goes on and stores null under that key; that outcome is not modelled.
- `CarouselConfig.IntvalList`: a list element that is itself a list (a field such as `product_tags[0][]`) is not modelled, since a submitted list holds strings only here. PHP's `intval` of such an element is 0 or 1.
- `Shortcode.SaveLeavesOthers`: WordPress's metadata functions pass the post id through `absint`, so the ids `n` and `-n` reach the same stored config. The store here is keyed by the id as given, and that aliasing is not modelled.
- `CategoryTree.RenderCategoryCheckbox`: termination is proved only when the whole host listing is ranked, because the code has no cycle guard. A listing that puts a category among its own descendants, on which the plugin would recurse without end, is excluded. So is a loop of terms not connected to the top level, although the code never reaches such a loop and ends on it.
- `EditForm.InList`: `in_array` on a stored entry that is not a list cannot happen for configurations the save builds, so it reads as "not selected".
- `EditForm.PanelsOfSavedKind`: a saved type other than "products" or "categories" shows neither panel. The lemma states only the "never both" and own-kind facts.
- The products panel's flat category and tag lists come from the host (`get_terms`). The model takes them as a parameter of `EditForm.TermMarks`.

# Storefront cart and live search

A Dafny model of the cart and search logic of a single-page lighting
storefront (`script.js`). The page lists a fixed catalog of six products. The
visitor keeps a cart of products with quantities and can search the catalog
from an overlay. This model covers:

- the product catalog and the lookup by id;
- the cart operations `getCartItem`, `addToCart`, `removeFromCart` and
  `changeQty`;
- the two totals `getTotalCount` and `getTotalPrice`;
- the filter behind the live search field.

Everything else in the script drives the DOM and is left out.

Modules, one per concept:

- `Options`: the `Option` a JavaScript `find` returns.
- `Seqs`: the index behind `find`, `filter` over sequences, and the
  subsequence relation that states "kept in the original order".
- `Text`: `trim` with ECMAScript's full white-space set, `toLowerCase` on ASCII
  letters, and `includes`.
- `Catalog`: `Product` and the six catalog entries, as the `Products` constant.
- `Cart`: cart lines, the operations and totals, and the cart invariants:
  - `Valid`: ids are unique and every quantity is at least 1;
  - `Consistent`: every line holds the catalog's product for its id.
- `Search`: the live search query and filter.
- `Session`: the add, remove and quantity buttons as a sequence of actions
  applied to the cart.

The operations take the catalog as a parameter. The storefront always passes
`Catalog.Products`, so the lemmas hold for that catalog and for any other.
`Catalog.FindProductFirst` and `Search.LiveSearchCounts` pin the first-match
lookup and the search results down exactly, even for a catalog that repeats an
id or a product.

The cart is read back from browser storage without validation. So no
operation assumes the invariants: each lemma that needs them states them as a
precondition. Unique ids and positive quantities are guaranteed only for carts built
by these operations; a cart reloaded from storage need not satisfy them. `Session.RunFromEmpty` covers a first visit, where the stored
cart defaults to the empty list.

Two behaviours of the code are modelled exactly as written.

- `changeQty` changes the first line with the id. When the quantity drops to 0
  or below, it calls `removeFromCart`, which filters out every line with that
  id.
- `addToCart` on a product already in the cart increments the stored line and
  does not copy the product's fields from the catalog again. So the total price
  grows by the catalog price only when the stored lines agree with the catalog.
  `Cart.AddToCartPrice` assumes `Consistent` for this reason.

## Model

| member | source | states |
|---|---|---|
| Catalog.FindProduct | script.js:29 | returns a catalog product with the requested id; returns nothing exactly when no catalog product has that id |
| Catalog.FindProductFirst | script.js:29 | when product k is the first with the id, the lookup returns product k, even in a catalog that repeats ids |
| Seqs.FindIndex | script.js:25 | returns the index of the first element passing the test, with every earlier element failing it; returns nothing exactly when no element passes |
| Seqs.Filter | script.js:43 | keeps exactly the elements passing the test and never lengthens the input; when every element passes, returns the input unchanged |
| Seqs.FilterCounts | script.js:43 | each element passing the test occurs as often as in the input, and every other element is dropped |
| Seqs.FilterIsSubseq | script.js:240-243 | the filtered sequence keeps the input's order |
| Search.Query | script.js:235 | the query is the typed text, lower-cased, with exactly its leading and trailing white space cut away; it is no longer than the typed text, holds no upper-case ASCII letter, and neither starts nor ends with white space |
| Search.Matches | script.js:241-242 | a product matches exactly when the query occurs at some offset of its lower-cased name or of its lower-cased tag |
| Search.LiveSearchCounts | script.js:240-243 | for a query of at least 2 characters, each matching catalog product is listed as often as the catalog holds it and no other product is listed |
| Catalog.CatalogIdsUnique | script.js:6-13 | the six catalog products have pairwise distinct ids |
| Catalog.FindProductDomain | script.js:6-13 | an id names a catalog product exactly when it is 1 to 6, and id n finds the n-th product |
| Cart.GetCartItem | script.js:24-26 | returns nothing exactly when no line has the id; otherwise returns a line with that id and no earlier line has it |
| Cart.AddToCart | script.js:28-36 | an id outside the catalog leaves the cart unchanged; a product already in the cart gets one more unit on its first line while the length and every other line stay the same; a new product is appended at the end with quantity 1 |
| Cart.AddToCartValid | script.js:28-36 | adding keeps ids unique and quantities at least 1 |
| Cart.AddToCartConsistent | script.js:35 | adding keeps every line equal to the catalog's product for its id |
| Cart.AddTwiceIncrements | script.js:31-35 | adding the same catalog product twice leaves the number of lines unchanged and raises that product's quantity by one |
| Cart.AddToCartCount | script.js:59-61 | a successful add raises the item count by exactly 1 |
| Cart.AddToCartPrice | script.js:63-65 | when the cart agrees with the catalog, a successful add raises the total price by exactly the product's price |
| Cart.RemoveFromCart | script.js:42-46 | no line with the id remains, every remaining line was in the cart, and a cart without the id is returned unchanged |
| Cart.RemoveFromCartKeepsOthers | script.js:43 | every line with another id keeps its number of occurrences, and the result is a subsequence of the cart (original order) |
| Cart.RemoveFromCartIdempotent | script.js:43 | removing an id twice gives the same cart as removing it once |
| Cart.RemoveFromCartValid | script.js:43 | removing keeps ids unique and quantities at least 1 |
| Cart.RemoveFromCartConsistent | script.js:43 | removing keeps every line equal to the catalog's product for its id |
| Cart.RemoveFromCartTotals | script.js:59-65 | with unique ids, removing a product lowers the count by its quantity and the price by its price times quantity |
| Cart.ChangeQty | script.js:48-57 | an id not in the cart leaves it unchanged; when quantity plus delta is at most 0 the result is the removal of the id; otherwise the first line's quantity becomes quantity plus delta and the length and every other line stay the same |
| Cart.ChangeQtyValid | script.js:48-57 | changing a quantity keeps ids unique and quantities at least 1 |
| Cart.ChangeQtyConsistent | script.js:48-57 | changing a quantity keeps every line equal to the catalog's product for its id |
| Cart.ChangeQtyTotals | script.js:51-52 | with unique ids, the count moves by delta and the price by price times delta while the line survives; when the line is removed, both lose the whole line |
| Cart.GetTotalCount | script.js:59-61 | the left-to-right reduce returns the sum of the quantities of all lines |
| Cart.GetTotalPrice | script.js:63-65 | the left-to-right reduce returns the sum of price times quantity over all lines |
| Cart.TotalCountBounds | script.js:59-61 | when every quantity is at least 1, the count is at least the number of lines and is 0 exactly when the cart is empty |
| Cart.TotalRemove | script.js:43 | with unique ids, removing the id of line k lowers any per-line total by exactly line k's share |
| Text.Trim | script.js:235 | the result has no leading or trailing white space and is a contiguous part of the input with only white space cut away on either side |
| Text.TrimIdempotent | script.js:235 | trimming an already trimmed string changes nothing |
| Text.TrimAllSpace | script.js:235 | a string of white space alone trims to the empty string |
| Text.TrimLowerCommute | script.js:235 | trimming and lower-casing can be done in either order |
| Text.AsciiLower | script.js:235 | the result has the input's length and holds no upper-case ASCII letter; each upper-case letter maps to its lower-case form and every other character is kept |
| Text.LowerIdempotent | script.js:235 | lower-casing an already lower-cased string changes nothing |
| Text.Includes | script.js:241-242 | true exactly when the query occurs in the text at some offset |
| Search.LiveSearch | script.js:235-243 | a trimmed, lower-cased query shorter than 2 characters lists nothing; otherwise the list holds exactly the catalog products whose lower-cased name or tag contains the query, in catalog order |
| Search.LiveSearchIgnoresCase | script.js:235-243 | typing the query in any mix of letter cases gives the same results |
| Search.LiveSearchIgnoresPadding | script.js:235-243 | white space around the query does not change the results |
| Search.LiveSearchBlank | script.js:235-238 | a query of white space alone lists nothing |
| Session.StepPreserves | script.js:24-57 | every add, remove or quantity change keeps ids unique, quantities at least 1 and lines equal to the catalog's products |
| Session.RunPreserves | script.js:24-57 | any sequence of those actions, started from a cart with these invariants, ends in a cart that still has them |
| Session.RunFromEmpty | script.js:18 | every cart built up from the empty starting cart has unique ids, quantities at least 1 and catalog products |

## Left out

- Storage: `localStorage` reads and writes and the JSON round trip (script.js:18-22) are browser calls. The initial cart is a parameter, and the invariants are preconditions wherever a lemma needs them. The claim that a cart survives a reload unchanged is not modelled.
- Loaded values are not type-checked: a reloaded cart could hold lines whose fields are not numbers. The model types `qty` as an integer and `price` as a natural number.
- The DOM: `updateCartUI`, the HTML templates, every event listener and the `parseInt` of `data-*` attributes (script.js:70-134, 178-193, 250-270) drive the DOM. `Session.Action`, `Session.Step` and `Session.Run` stand in for the buttons' calls (script.js:116-130, 178-183, 264-265), with the ids already parsed.
- Price formatting with `toFixed(2)` (script.js:101, 132, 258) is floating-point text output. The catalog prices are whole dollars, so prices are natural numbers here.
- The drawer, overlay and mobile-menu toggles and the Escape key (script.js:142-162, 204-230, 282-303) only toggle classes.
- The toast and button-feedback timers, the newsletter form and the reveal animations (script.js:167-173, 354-383) depend on timers and browser observers.
- The navbar scroll-spy and smooth scrolling (script.js:311-349) depend on layout geometry.
- Cart.GetTotalCount: JavaScript numbers are doubles. The model's unbounded integers agree with them only while sums stay below 2^53.
- Cart.GetTotalPrice: the same double-precision bound applies.
- Text.AsciiLower: lower-cases only the letters A to Z, whereas `toLowerCase` follows the full Unicode case mapping. The catalog's names and tags are plain ASCII. Typed text can still differ: `toLowerCase` maps U+212A to "k" and U+0130 to two code units, which can change the two-character test. Neither case can change the listed products, because no catalog name or tag contains a "k" or U+0307.
- Search.LiveSearch: measures the query in characters, whereas `length` counts UTF-16 code units. The two differ only for characters outside the Basic Multilingual Plane.

# Catalogue filter and paginator of the Pokémon browsing page

This project models the client-side logic of the browsing page `Home`
(src/pages/Home.jsx) of a React front-end that lists Pokémon from a public API.
The page keeps a working set of Pokémon records, a filtered view of it, the
criteria of a filter form, the current page number and the menu of type labels.
It does four things with them:

- **Filter engine** (`applyFilters`). A record is kept when three tests all hold.
  The name test passes for an empty fragment, or when the record's name contains the
  lower-cased fragment (the name itself is not lower-cased). The type test passes for
  an empty type, or when one of the record's types equals it. The weight test passes
  for an empty minimum, or when `weight >= parseInt(minWeight)`. The result becomes
  the view and the page is reset to 1.
- **Paginator**. Page `p` is `view.slice(p*12 - 12, p*12)`. There are
  `Math.ceil(length / 12)` page buttons. `paginate` sets the page without a check.
- **Type registry cleanup** (`fetchTypes`). The labels `"stellar"` and `"unknown"`
  are dropped, the other names keep their order.
- **Initial state and loading**. After the catalogue is fetched, the working set and
  the view are the same sequence.

Modules, one per part:

- `Wrappers` (wrappers.dfy): `Option`.
- `Sequences` (sequences.dfy): `Retain`, the model of `Array.prototype.filter`, and
  the facts that determine it (order kept, counts kept, nothing else).
- `Text` (text.dfy): `includes` as `Contains`, `toLowerCase` as `Lower`.
- `JsNumber` (js_number.dfy): `parseInt` as ECMAScript defines it, with `None` for `NaN`.
- `Catalogue` (catalogue.dfy): records, criteria, the three tests and `Filter`.
- `TypeRegistry` (type_registry.dfy): `ValidTypes`.
- `Paginator` (paginator.dfy): `Slice` with JavaScript's negative indices, `Page`,
  `PageCount`.
- `Home` (home.dfy): the class `HomePage`, whose fields are the component's state and
  whose methods are its state setters.

The requests themselves are not modelled. Each fetch is a method that takes its
outcome as a parameter: `Some` with the fetched data, or `None` when a request failed.

Three consequences of the code as written:

- The name test is case-sensitive on the record's name: the code lower-cases only
  the fragment, so the name "Pikachu" does not match "pika"
  (`Catalogue.NameIsCaseSensitive`).
- A minimum weight that `parseInt` cannot read empties the view, because
  `weight >= NaN` is false (`Catalogue.FilterUnreadableMinWeight`).
- The page number is never bounded. `applyFilters` resets it to 1 and the page
  buttons offer only `1..count`, but `paginate` accepts any number.
  `HomePage.ApplyFilters` establishes `1 <= page <= count` for a non-empty view,
  `HomePage.Paginate` does not check it, and `Paginator.PageNonPositive` says what a
  page number of 0 or below shows.

## Model

| member | source | states |
|---|---|---|
| Sequences.Retain | src/pages/Home.jsx:63-68 | `Array.filter`: the result is no longer than the input and every element of it passes the predicate |
| Sequences.RetainIsSubsequence | src/pages/Home.jsx:63-68 | filtering keeps the input's order: the result is a subsequence of the input |
| Sequences.RetainCount | src/pages/Home.jsx:63-68 | every accepted element is kept as often as it occurs, every rejected one not at all |
| Sequences.RetainUnique | src/pages/Home.jsx:63-68 | an order-preserving selection with those counts is the filter's result, so the two facts determine it |
| Sequences.RetainCompose | src/pages/Home.jsx:63-67 | filtering by one predicate and then another equals filtering once by their conjunction |
| Text.Lower | src/pages/Home.jsx:64 | `toLowerCase` keeps the length and maps each character through the letter mapping |
| Text.Contains | src/pages/Home.jsx:64 | `includes`: the search text occurs in the string at some index, which always holds for the empty search text |
| Text.ContainsLower | src/pages/Home.jsx:64 | an occurrence found by `includes` is still found after both strings are lower-cased |
| JsNumber.ParseInt | src/pages/Home.jsx:66 | `parseInt` without a radix: skips leading white space, reads one sign, switches to base 16 after `0x`/`0X`, reads the longest digit run and ignores the rest; `None` (NaN) when the run is empty |
| JsNumber.TrimStartSpec | src/pages/Home.jsx:66 | `parseInt` skips exactly the leading white space: what is left starts with a non-space, everything removed was space |
| JsNumber.DigitRun | src/pages/Home.jsx:66 | `parseInt` reads the longest prefix made of digits: all of it digits, the next character not one |
| JsNumber.ParseIntShowNat | src/pages/Home.jsx:66 | the decimal numeral of every natural number, with any non-digit text after it (except `x` after `0`), reads as that number |
| JsNumber.ParseIntShow | src/pages/Home.jsx:66 | the decimal notation of every integer, negative ones with a leading minus, reads as that integer |
| JsNumber.ParseIntSkipsWhiteSpace | src/pages/Home.jsx:66 | leading white space does not change what `parseInt` reads |
| JsNumber.ParseIntLetter | src/pages/Home.jsx:66 | the empty text and text starting with a letter read as `NaN` |
| JsNumber.ParseIntBareHexPrefix | src/pages/Home.jsx:66 | `0x` with no hexadecimal digit after it reads as `NaN` |
| Catalogue.NameMatches | src/pages/Home.jsx:64 | the fragment is empty, or the record's name, as it is, contains the lower-cased fragment |
| Catalogue.TypeMatches | src/pages/Home.jsx:65 | the type criterion is empty, or some entry of the record's type list equals it exactly |
| Catalogue.WeightMatches | src/pages/Home.jsx:66 | the minimum is empty, or it reads as a number `m` and the weight is at least `m`; a minimum that reads as NaN fails |
| Catalogue.Matches | src/pages/Home.jsx:63-67 | the conjunction of the name, type and weight tests |
| Catalogue.Filter | src/pages/Home.jsx:63-68 | every record of the view passes all three tests, and the view is no longer than the working set |
| Catalogue.FilterSpec | src/pages/Home.jsx:63-68 | the view is a subsequence of the working set and holds each matching record as often as the working set, and no other record |
| Catalogue.FilterMember | src/pages/Home.jsx:63-68 | a record is in the view if and only if it is in the working set and passes all three tests |
| Catalogue.FilterCharacterised | src/pages/Home.jsx:63-68 | any order-preserving selection of the working set with exactly those counts is the view |
| Catalogue.FilterNoCriteria | src/pages/Home.jsx:64-67 | with name, type and minimum weight all empty the view is the working set itself |
| Catalogue.FilterUnreadableMinWeight | src/pages/Home.jsx:66 | a non-empty minimum weight that reads as `NaN` empties the view |
| Catalogue.FilterMinWeight | src/pages/Home.jsx:66 | a minimum weight that reads as `m` keeps, of what the name and type tests keep, exactly the records of weight `m` or more |
| Catalogue.FilterConjunction | src/pages/Home.jsx:64-67 | applying the name, type and weight criteria one after another gives the same view as applying them together |
| Catalogue.NameFragmentCase | src/pages/Home.jsx:64 | the case of the fragment does not matter, because it is lower-cased first |
| Catalogue.NameMatchesFolded | src/pages/Home.jsx:64 | a record the name test keeps also passes a test that lower-cases both sides; the two tests agree on records whose names are lower case |
| Catalogue.NameIsCaseSensitive | src/pages/Home.jsx:64 | the name "Pikachu" fails the test for "pika" though it matches it without regard to case |
| Catalogue.UnreadableMinWeightScenario | src/pages/Home.jsx:66 | a minimum weight of "abc" empties the view of every working set |
| Catalogue.PikachuScenario | src/pages/Home.jsx:63-68 | searching "Pika" among Bulbasaur, Pikachu and Raichu keeps only Pikachu |
| TypeRegistry.ValidTypes | src/pages/Home.jsx:52-55 | drops the entries named "stellar" or "unknown", then takes the names of the rest in order |
| TypeRegistry.Names | src/pages/Home.jsx:55 | `map(type => type.name)`: same length, each name taken from the entry at the same index |
| TypeRegistry.NamesRetain | src/pages/Home.jsx:52-55 | filtering the entries and then taking names equals taking names and then filtering them |
| TypeRegistry.ValidTypesSpec | src/pages/Home.jsx:52-55 | the type menu holds neither "stellar" nor "unknown", keeps the fetched order, and holds every other label as often as the fetched list |
| TypeRegistry.ValidTypesCharacterised | src/pages/Home.jsx:52-55 | any order-preserving selection of the fetched names with exactly those counts is the type menu |
| TypeRegistry.ValidTypesOfficial | src/pages/Home.jsx:52-55 | a fetched list without sentinel labels becomes the menu unchanged |
| Paginator.Slice | src/pages/Home.jsx:76 | `slice(start, end)`: both indices counted from the end when negative and clamped to the bounds; the elements from the start index up to the end index, empty when the end does not lie after the start |
| Paginator.SliceSplit | src/pages/Home.jsx:76 | the sequence is what lies before the start index, then the slice, then what lies after; the slice's length is the gap between the indices, or 0 |
| Paginator.Page | src/pages/Home.jsx:74-76 | page `p` is `slice(p*12 - 12, p*12)` of the view |
| Paginator.PageCount | src/pages/Home.jsx:133 | the number of page buttons is the least `r` with `length <= 12 * r`, so 0 for an empty view |
| Paginator.PageWindow | src/pages/Home.jsx:74-76 | page `p >= 1` is the view's indices `(p-1)*12` up to `min(p*12, length)`, at most twelve records |
| Paginator.PageNonPositive | src/pages/Home.jsx:74-78 | page 0 is empty, and a negative page number shows records counted from the end |
| Paginator.PageLength | src/pages/Home.jsx:74-76 | pages before the last button are full, the last one holds the rest and is not empty, pages after it are empty |
| Paginator.PagesPrefix | src/pages/Home.jsx:74-76 | pages 1 to `k` concatenated are the first `min(12k, length)` records |
| Paginator.PagesTile | src/pages/Home.jsx:74-76 | pages 1 to the page count concatenated are exactly the view, with no gap or overlap |
| Paginator.TwentyFiveRecords | src/pages/Home.jsx:133 | 25 records give three pages, the third holding only the 25th record |
| Home.HomePage.ViewSelectsWorkingSet | src/pages/Home.jsx:63-70 | in every valid state the view is a subsequence of the working set and holds exactly the working-set records matching the criteria last applied |
| Home.HomePage.constructor | src/pages/Home.jsx:5-10 | empty working set, view and type menu, empty criteria, page 1 |
| Home.HomePage.CurrentPokemons | src/pages/Home.jsx:74-76 | for a current page from 1 on, the records shown are the view's window for that page, at most twelve |
| Home.HomePage.PageButtons | src/pages/Home.jsx:133 | the button count is the ceiling of the view's length over twelve |
| Home.HomePage.PokemonsFetched | src/pages/Home.jsx:26-45 | on success the working set and the view both become the fetched records; on failure nothing changes |
| Home.HomePage.TypesFetched | src/pages/Home.jsx:47-59 | on success the type menu becomes the cleaned-up labels; on failure nothing changes |
| Home.HomePage.SetName | src/pages/Home.jsx:94 | only the name criterion changes; the view waits for the next apply |
| Home.HomePage.SetType | src/pages/Home.jsx:98 | only the type criterion changes |
| Home.HomePage.SetMinWeight | src/pages/Home.jsx:109 | only the minimum-weight criterion changes |
| Home.HomePage.ApplyFilters | src/pages/Home.jsx:62-72 | the view becomes the working set filtered by the form's criteria, the page becomes 1 (within the button range when the view is not empty), the first twelve records are shown, and the working set does not change |
| Home.HomePage.Paginate | src/pages/Home.jsx:78 | the page becomes the given number without a check, and nothing else changes |

Every `HomePage` method keeps `Valid()`: the view is the working set filtered by the
criteria last applied, or by no criteria after a load.

## Left out

- Network requests: the catalogue fetch of 150 summaries, the per-record detail
  requests and their `Promise.all` join, the type list request and JSON decoding are
  I/O. `HomePage.PokemonsFetched` and `HomePage.TypesFetched` take their outcome as a
  parameter, `None` standing for any rejected request.
- `console.log` and `console.error` calls: side effects only.
- The scroll listener, `showScrollTopBtn` and `scrollToTop`: they read and drive the
  browser window.
- Rendering: the JSX, capitalised display names, even/odd card classes, images and
  the `active` button class.
- Record fields that the logic does not read: `id`, `sprites`, type `slot` and `url`.
  A record is its name, its weight and the names of its types.
- React's batching of state updates and its re-rendering: each setter takes effect
  immediately, in the order the handlers call them.
- Text.Lower: maps only the ASCII letters `A`-`Z`; JavaScript's `toLowerCase`
  applies the full Unicode case mapping.
- JsNumber.ParseInt: yields exact integers; JavaScript returns a double, which is
  inexact above 2^53, and a negative zero, which compares like zero.
- Paginator.PageCount: computed on integers; `Math.ceil(length / 12)` on doubles agrees
  for every array length.
- The login, register and contact forms, the user context, the navigation bar and the
  layout are not part of this model: they are configurations of form, alert,
  authentication and routing libraries.

# Motion X gallery page — verified model

Motion X is a one-page promotional site for a fictional car dealership. Its
single React component (`src/App.jsx`) shows a splash screen while
"loading", then a hero title whose letters are painted with car photos, a
row of brand filter buttons, a grid of car cards and a detail overlay for
the selected car. This project models the logic of that component in Dafny:

- `Catalog` (catalog.dfy): the image assets as opaque tokens, the fifteen
  catalog entries `Car(name, brand, img)`, the four hero images, the title
  and the sentinel filter value `"All"`.
- `Gallery` (gallery.dfy): the grid's contents. `"All"` shows the whole
  catalog; any other value shows the entries whose brand equals it exactly,
  in catalog order. `MatchingIndices` is an independent reference
  definition (the ascending positions of the matches), and
  `FilterSelectsMatches` proves that the filter reads the catalog at exactly
  those positions.
- `CategoryList` (categories.dfy): the button values `["All", ...new
  Set(brands)]`. `InsertAll` models building a JavaScript `Set`, which keeps
  insertion order and ignores a value it already holds. `FirstSeen` is a
  reference definition (keep a value exactly where it does not occur
  earlier). The lemmas prove the two agree, and that the result holds each
  brand once, holds nothing else and is ordered by first appearance.
- `Hero` (hero.dfy): letter `i` of the title gets `heroImages[i % 4]`.
- `Ui` (ui.dfy): a pure `Render` function from the component state to what
  is on screen (splash, or page with buttons, cards and overlay), and the
  class `App`. Its fields `loading`, `selectedCar` and `filter` are the
  three `useState` values. Its methods are the event handlers: the loading
  timer's callback, a filter button click, a card click and the close icon.
  They keep the invariant `Valid()`: the filter holds a button's value and
  the selection is a catalog entry.

The page has no other interactive state: apart from these handlers, the
hero title and the cards only animate.

The lemmas named `Shipped*` compute the results for the shipped catalog. The
ones named `Shipped*Steps*` and `ShippedPatternSteps*` do this a few entries
at a time, so that each proof stays small. `Catalog.CatalogBrands` lists the
shipped brands position by position, and those lemmas start from it.

## Model

| member | source | states |
|---|---|---|
| `Catalog.ShippedCatalogFacts` | src/App.jsx:23-42 | The shipped catalog has 15 entries and none of them has the brand "All". The title has 16 characters and there are 4 hero images. |
| `Catalog.Brands` | src/App.jsx:146 | One brand per catalog entry, in catalog order: position i holds entry i's brand. |
| `Gallery.FilterByBrand` | src/App.jsx:98 | The brand filter's result is never longer than the catalog. `FilterMembers` states which entries it holds; `FilterSelectsMatches` states their order. |
| `Gallery.Visible` | src/App.jsx:95-98 | The grid is never longer than the catalog. `VisibleMembers` states its contents for "All" and for a brand. |
| `Gallery.FilterMembers` | src/App.jsx:98 | A car is in the brand filter's result exactly when it is in the catalog and its brand equals the filter value. Nothing else gets in and no match is dropped. |
| `Gallery.VisibleMembers` | src/App.jsx:95-98 | With "All" the grid is the catalog itself: same entries, same order. With any other value the grid holds exactly the catalog entries of that brand. It never holds a car from outside the catalog. |
| `Gallery.MatchingIndices` | src/App.jsx:98 | Reference definition: the positions of the entries with the given brand, strictly increasing, in range, and containing position i exactly when entry i matches. |
| `Gallery.FilterAppend` | src/App.jsx:98 | Filtering a catalog extended by one entry extends the result by that entry exactly when the entry matches. |
| `Gallery.FilterSelectsMatches` | src/App.jsx:98 | The filter result is the catalog read at the matching positions in increasing order. So it is an order-preserving subsequence that contains every match. |
| `Gallery.VisibleNonEmpty` | src/App.jsx:95-98 | The grid is non-empty for "All" on a non-empty catalog, and for any brand that some entry has. |
| `Gallery.FilterNone` | src/App.jsx:98 | Filtering by a brand that no entry has gives the empty list. |
| `Gallery.UnknownBrandShowsNothing` | src/App.jsx:95-98 | The match is exact: a value other than "All" that no entry has as its brand shows an empty grid. This includes one that differs only in letter case. |
| `Gallery.ShippedFilters` | src/App.jsx:95-98 | For the shipped catalog: "Audi" shows Audi A4 then Audi R8, "Land Rover" shows Defender then Range Rover Velar, "audi" shows nothing, and "All" shows the whole catalog. |
| `CategoryList.Distinct` | src/App.jsx:146 | A Set built from a list has at most as many members as the list has values. `DistinctIsFirstSeen` states the exact members. |
| `CategoryList.FirstSeen` | src/App.jsx:146 | Reference definition: it keeps at most one value per input position. Its members, order and lack of duplicates are stated by the `FirstSeen*` lemmas. |
| `CategoryList.Categories` | src/App.jsx:146 | The button list is never empty and starts with "All". `CategoriesSpec` states the rest of it. |
| `CategoryList.InsertAll` | src/App.jsx:146 | Inserting values into an insertion-ordered set never shrinks it, and adds at most one member per value inserted. |
| `CategoryList.InsertAllKeepsPrefix` | src/App.jsx:146 | Insertion never moves or drops a member already in the set: the old members stay, in order, as a prefix of the new ones. |
| `CategoryList.IndexOfInPrefix` | src/App.jsx:146 | The first occurrence of a value that occurs in a prefix lies in that prefix. |
| `CategoryList.FirstSeenMembers` | src/App.jsx:146 | The first-seen list has exactly the values of its input. |
| `CategoryList.FirstSeenNoDuplicates` | src/App.jsx:146 | The first-seen list holds no value twice. |
| `CategoryList.FirstSeenOrder` | src/App.jsx:146 | Values in the first-seen list are ordered by their first position in the input. |
| `CategoryList.InsertAllFirstSeen` | src/App.jsx:146 | Inserting q into the set already built from p gives the first-seen list of p + q. |
| `CategoryList.DistinctIsFirstSeen` | src/App.jsx:146 | A Set built from a list iterates its values once each, at their first occurrence. |
| `CategoryList.CategoriesSpec` | src/App.jsx:146 | The button list starts with "All". After that it holds every catalog brand once and nothing else, ordered by each brand's first appearance in the catalog. |
| `CategoryList.CategoriesDistinct` | src/App.jsx:146 | When no brand is spelled "All", no two buttons carry the same value. |
| `CategoryList.CategoryShowsCars` | src/App.jsx:146-149 | On a non-empty catalog, clicking any button selects a value whose grid is non-empty. |
| `CategoryList.ShippedCategories` | src/App.jsx:146 | The shipped catalog's buttons are All, Audi, Ferrari, BMW, Bugatti, Land Rover, Mercedes, Jaguar, Lamborghini, Toyota, McLaren and Rolls, in that order. |
| `Hero.LetterBackground` | src/App.jsx:127 | The background chosen for any letter position is one of the hero images, so the modulo index is always in range. |
| `Hero.HeroLetters` | src/App.jsx:122-134 | There is one letter per title character, carrying that character and a hero image as its background. |
| `Hero.BackgroundPeriod` | src/App.jsx:127 | Backgrounds repeat every four positions. |
| `Hero.HeroLettersCycle` | src/App.jsx:122-127 | The 16 title letters show the four hero images in order and then repeat them. The period is exactly four. |
| `Ui.FilterButtons` | src/App.jsx:146-152 | There is one button per category, carrying that category's value, in the same order. |
| `Ui.Render` | src/App.jsx:100-108 | The component renders the splash screen exactly while loading. |
| `Ui.RenderedPage` | src/App.jsx:161-178 | After loading, the page's grid is the filtered catalog and its buttons are the filter buttons for the current filter. The overlay is shown exactly when a car is selected, and it shows that car. Every card comes from the catalog. The hero has one letter per title character. |
| `Ui.OneActiveButton` | src/App.jsx:146-152 | A button is highlighted exactly when its value equals the filter. When no brand is spelled "All", at most one button is highlighted, and one is highlighted exactly when the filter is a button value. |
| `Ui.ButtonGridNonEmpty` | src/App.jsx:146-161 | When the filter is a button value of a non-empty catalog, the rendered grid has at least one card. |
| `Ui.App.FilteredCars` | src/App.jsx:95-98 | The grid shows only catalog entries, and never more cards than the catalog has. |
| `Ui.App.View` | src/App.jsx:100-178 | The component shows the splash exactly while loading. Otherwise the page's grid is the filtered catalog, its buttons are the filter buttons for the current filter, and its overlay shows the current selection. |
| `Ui.App.constructor` | src/App.jsx:45-47 | The initial state: loading, nothing selected, filter "All". The splash is on screen and the invariant holds. |
| `Ui.App.FinishLoading` | src/App.jsx:55 | The timer's callback clears the loading flag and changes nothing else. The page replaces the splash. |
| `Ui.App.ClickCategory` | src/App.jsx:149 | A button click sets the filter to that button's value and leaves loading and the selection alone. The grid is then non-empty, and exactly the clicked button is highlighted. |
| `Ui.App.ClickCard` | src/App.jsx:165 | A card click selects the car on that card, whatever was selected before. The car is a catalog entry, the overlay shows it, and the filter and loading flag do not change. |
| `Ui.App.CloseModal` | src/App.jsx:181 | The close icon clears the selection, which hides the overlay. The filter and loading flag do not change. |

No method sets `loading` back to true. Each handler either leaves it as it
was or, in `FinishLoading`, clears it. So once loading is over it stays over.

## Left out

- GSAP animations: the letter bounce and the explore button's gentle scale loop forever (`repeat: -1`), and the card hover tweens run once per mouseenter or mouseleave event. They are floating-point tweens of style properties, and none of them changes component state.
- The loading timer's 2000 ms delay and its `clearTimeout` cleanup: wall-clock scheduling is not modelled. `loading` is a flag that only the timer callback `FinishLoading` clears.
- The `addEventListener` loop over the card elements and the `cardRefs` array writes: browser plumbing that changes no component state.
- Markup, CSS classes, the navbar anchors, the footer, the close icon component and the image imports: presentation only. Images are opaque tokens.
- React's render scheduling and batching: each state setter is modelled as an immediate field update.
- Ui.App.constructor: it takes the catalog as a parameter that must be non-empty with no brand "All". The component itself always uses the module constant `carsData`, and `Ui.Session` mounts it with `CarsData` after proving those two facts.
- Ui.App.ClickCard: in the browser the overlay covers the grid, so a second card click only happens after closing the overlay. The handler itself replaces any earlier selection, and the model allows the click in either state.
- Clicks are modelled by the position of the clicked button or card among those rendered, and they require the page (not the splash) to be on screen.
- Strings are sequences of characters. JavaScript strings are UTF-16 and comparison is by code unit. The catalog and title are ASCII, so the two agree.

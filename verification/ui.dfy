/** The page component: its three pieces of state (the loading flag, the
    selected car and the filter value), the screen it renders from them,
    and the event handlers that change them. */
module Ui {
  import opened Catalog
  import opened Gallery
  import opened CategoryList
  import opened Hero

  /** A filter button and whether it is drawn highlighted. */
  datatype Button = Button(value: string, active: bool)

  /** What the component renders: the splash while loading, otherwise the
      page with its hero title, filter buttons, card grid and, when a car is
      selected, the detail overlay. */
  datatype Screen =
    | Splash
    | Page(hero: seq<Letter>, buttons: seq<Button>, cards: seq<Car>, modal: Option<Car>)

  /** The filter buttons for `filter`: one per category, highlighted when its
      value equals the filter. */
  function FilterButtons(cars: seq<Car>, filter: string): (bs: seq<Button>)
    ensures |bs| == |Categories(cars)|
    ensures forall i :: 0 <= i < |bs| ==> bs[i].value == Categories(cars)[i]
  {
    var cats := Categories(cars);
    seq(|cats|, i requires 0 <= i < |cats| => Button(cats[i], cats[i] == filter))
  }

  function Render(cars: seq<Car>, loading: bool, filter: string, selected: Option<Car>): (s: Screen)
    ensures s.Splash? <==> loading
  {
    if loading then Splash
    else Page(HeroLetters(), FilterButtons(cars, filter), Visible(cars, filter), selected)
  }

  /** After loading, the grid shows the filtered catalog and the buttons are
      the filter buttons; the overlay is on screen exactly when a car is
      selected, and it shows that car. */
  lemma RenderedPage(cars: seq<Car>, filter: string, selected: Option<Car>)
    ensures var s := Render(cars, false, filter, selected);
      && s.Page?
      && (s.modal.Some? <==> selected.Some?)
      && (selected.Some? ==> s.modal.value == selected.value)
      && s.cards == Visible(cars, filter)
      && s.buttons == FilterButtons(cars, filter)
      && (forall c :: c in s.cards ==> c in cars)
      && |s.hero| == |Title|
  {
    VisibleMembers(cars, filter);
  }

  /** At most one button is highlighted, and exactly one when the filter
      holds a button's value. */
  lemma OneActiveButton(cars: seq<Car>, filter: string)
    requires NoBrandIsAll(cars)
    ensures var bs := FilterButtons(cars, filter);
      && (forall i, j :: 0 <= i < j < |bs| ==> !(bs[i].active && bs[j].active))
      && (forall i :: 0 <= i < |bs| ==> (bs[i].active <==> bs[i].value == filter))
      && (filter in Categories(cars) <==> exists i :: 0 <= i < |bs| && bs[i].active)
  {
    var bs := FilterButtons(cars, filter);
    var cats := Categories(cars);
    CategoriesDistinct(cars);
    if filter in cats {
      var k :| 0 <= k < |cats| && cats[k] == filter;
      assert bs[k].active;
    }
  }

  /** Clicking a button never empties the grid. */
  lemma ButtonGridNonEmpty(cars: seq<Car>, filter: string, selected: Option<Car>)
    requires cars != [] && filter in Categories(cars)
    ensures Render(cars, false, filter, selected).cards != []
  {
    var k :| 0 <= k < |Categories(cars)| && Categories(cars)[k] == filter;
    CategoryShowsCars(cars, k);
  }

  /** The component's state, updated by its event handlers. */
  class App {
    /** The catalog the page shows; always the shipped one. */
    const catalog: seq<Car>
    var loading: bool
    var selectedCar: Option<Car>
    var filter: string

    /** The filter always holds a button's value and the selection is a
        catalog entry. */
    ghost predicate Valid()
      reads this
    {
      && catalog != []
      && NoBrandIsAll(catalog)
      && filter in Categories(catalog)
      && (selectedCar.Some? ==> selectedCar.value in catalog)
    }

    /** The cards currently in the grid. */
    function FilteredCars(): (r: seq<Car>)
      reads this
      ensures |r| <= |catalog|
      ensures forall c :: c in r ==> c in catalog
    {
      VisibleMembers(catalog, filter);
      Visible(catalog, filter)
    }

    /** What is on screen for the current state. */
    function View(): (s: Screen)
      reads this
      ensures s.Splash? <==> loading
      ensures s.Page? ==>
        && s.cards == FilteredCars()
        && s.buttons == FilterButtons(catalog, filter)
        && s.modal == selectedCar
    {
      Render(catalog, loading, filter, selectedCar)
    }

    /** The initial state: loading, nothing selected, filter "All". The page
        is mounted with the shipped catalog (see `Session`). */
    constructor (cars: seq<Car>)
      requires cars != [] && NoBrandIsAll(cars)
      ensures Valid()
      ensures catalog == cars
      ensures loading && selectedCar == None && filter == All
      ensures View() == Splash
    {
      catalog := cars;
      loading := true;
      selectedCar := None;
      filter := All;
    }

    /** The loading timer's callback: the splash gives way to the page. */
    method FinishLoading()
      requires Valid()
      modifies this
      ensures Valid()
      ensures !loading
      ensures selectedCar == old(selectedCar) && filter == old(filter)
      ensures View().Page?
    {
      loading := false;
    }

    /** A click on the filter button at position `k`. */
    method ClickCategory(k: nat)
      requires Valid() && !loading
      requires k < |Categories(catalog)|
      modifies this
      ensures Valid()
      ensures filter == Categories(catalog)[k]
      ensures loading == old(loading) && selectedCar == old(selectedCar)
      ensures FilteredCars() != []
      ensures var bs := View().buttons;
        forall i :: 0 <= i < |bs| ==> (bs[i].active <==> i == k)
    {
      filter := Categories(catalog)[k];
      CategoryShowsCars(catalog, k);
      OneActiveButton(catalog, filter);
      CategoriesDistinct(catalog);
    }

    /** A click on the card at position `k` of the grid: that car becomes the
        selection, replacing any earlier one. */
    method ClickCard(k: nat)
      requires Valid() && !loading
      requires k < |FilteredCars()|
      modifies this
      ensures Valid()
      ensures selectedCar == Some(old(FilteredCars())[k])
      ensures loading == old(loading) && filter == old(filter)
      ensures View().modal == selectedCar
    {
      VisibleMembers(catalog, filter);
      selectedCar := Some(FilteredCars()[k]);
    }

    /** A click on the overlay's close icon. */
    method CloseModal()
      requires Valid() && !loading
      requires selectedCar.Some?
      modifies this
      ensures Valid()
      ensures selectedCar == None
      ensures loading == old(loading) && filter == old(filter)
      ensures View().modal == None
    {
      selectedCar := None;
    }
  }

  /** A session: after loading, a button click, two card clicks and the close
      icon; the second card replaces the first and the filter stays as chosen. */
  method Session()
  {
    ShippedCatalogFacts();
    var app := new App(CarsData);
    app.FinishLoading();
    ShippedCategories();
    app.ClickCategory(1);
    assert app.filter == "Audi";
    ShippedFilters();
    assert app.FilteredCars() == [CarsData[0], CarsData[2]];
    app.ClickCard(1);
    assert app.selectedCar == Some(CarsData[2]);
    app.ClickCard(0);
    assert app.selectedCar == Some(CarsData[0]);
    app.CloseModal();
    assert app.View().Page? && app.View().modal == None && app.filter == "Audi";
  }
}

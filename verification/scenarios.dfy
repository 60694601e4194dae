/**
 * A two-product catalog and three selections over it, checked against the
 * filter and against the page's handlers.
 */
module CatalogScenarios {
  import opened AsciiText
  import opened FilterEngine
  import opened CatalogView

  const LimaBeans := Product("Lima Beans", "vegetables", 1.5, "a.png")
  const ChickenSoup := Product("Chicken Soup", "soup", 2.25, "b.png")
  const Catalog := [LimaBeans, ChickenSoup]

  /** Filtering a two-product catalog, one product at a time. */
  lemma FilterPair(a: Product, b: Product, category: string, searchTerm: string)
    ensures Filter([a, b], category, searchTerm)
            == (if Matches(a, category, searchTerm) then [a] else [])
             + (if Matches(b, category, searchTerm) then [b] else [])
  {
  }

  /** "Vegetables" with an empty search shows only the vegetable. */
  lemma VegetablesScenario()
    ensures Filter(Catalog, "Vegetables", "") == [LimaBeans]
  {
    VegetablesCategory();
    EmptySearchMatchesAll(LimaBeans);
    FilterPair(LimaBeans, ChickenSoup, "Vegetables", "");
  }

  /** Only the product stored as "vegetables" is in the "Vegetables" category. */
  lemma VegetablesCategory()
    ensures MatchesCategory(LimaBeans, "Vegetables")
    ensures !MatchesCategory(ChickenSoup, "Vegetables")
  {
  }

  /** "soup" occurs in "Chicken Soup" once both are lower-cased. */
  lemma ChickenSoupNameHasSoup()
    ensures MatchesSearchTerm(ChickenSoup, "soup")
  {
    assert ChickenSoup.name[8..12] == "Soup";
    IncludesIgnoringCaseAt(ChickenSoup.name, "soup", 8);
  }

  /** "Lima Beans" has no 'o' in either case, so "soup" does not occur in it. */
  lemma LimaBeansNameLacksSoup()
    ensures !MatchesSearchTerm(LimaBeans, "soup")
  {
    NotIncludedIgnoringCase(LimaBeans.name, "soup", 1);
  }

  /** "All" with search "soup" matches on the name, not the type. */
  lemma SoupSearchScenario()
    ensures Filter(Catalog, AllCategories, "soup") == [ChickenSoup]
  {
    ChickenSoupNameHasSoup();
    LimaBeansNameLacksSoup();
    FilterPair(LimaBeans, ChickenSoup, AllCategories, "soup");
  }

  /** "Meat" with search "lima" matches nothing: neither product is meat. */
  lemma MeatLimaScenario()
    ensures Filter(Catalog, "Meat", "lima") == []
  {
    MeatCategory();
    FilterPair(LimaBeans, ChickenSoup, "Meat", "lima");
  }

  /** Neither product is stored as "meat". */
  lemma MeatCategory()
    ensures !MatchesCategory(LimaBeans, "Meat") && !MatchesCategory(ChickenSoup, "Meat")
  {
    assert ToLower("Meat") == "meat";
  }

  /** Loading the catalog and choosing "Vegetables" leaves only the vegetable visible. */
  method ChooseVegetables() returns (visible: seq<Product>)
    ensures visible == [LimaBeans]
  {
    var app := new App();
    app.LoadProducts(Catalog);
    app.SetCategory("Vegetables");
    VegetablesScenario();
    visible := app.filteredProducts;
  }

  /** Choosing "Vegetables" before the catalog arrives gives the same visible list. */
  method ChooseVegetablesBeforeLoad() returns (visible: seq<Product>)
    ensures visible == [LimaBeans]
  {
    var app := new App();
    app.SetCategory("Vegetables");
    app.LoadProducts(Catalog);
    VegetablesScenario();
    visible := app.filteredProducts;
  }
}

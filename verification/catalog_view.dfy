/**
 * The catalog page's view state: the full catalog, the visible products and
 * the two selections, with the handlers that change them.
 */
module CatalogView {
  import opened FilterEngine

  /**
   * The four state fields of the page. Each handler models the settled state
   * after the framework has re-run the filter effect, so the visible list is
   * always the filter of the other three fields.
   */
  class App {
    var products: seq<Product>
    var filteredProducts: seq<Product>
    var category: string
    var searchTerm: string

    /** The visible list is the filter of the catalog under the current selection. */
    ghost predicate InSync()
      reads this
    {
      filteredProducts == Filter(products, category, searchTerm)
    }

    /** Initial state: no catalog yet, nothing visible, "All" and an empty search. */
    constructor ()
      ensures products == [] && filteredProducts == []
      ensures category == AllCategories && searchTerm == ""
      ensures InSync()
    {
      products := [];
      filteredProducts := [];
      category := AllCategories;
      searchTerm := "";
    }

    /** The filter effect: recompute the visible list from the three inputs. */
    method RunFilterEffect()
      modifies this`filteredProducts
      ensures InSync()
      ensures products == old(products) && category == old(category) && searchTerm == old(searchTerm)
    {
      filteredProducts := Filter(products, category, searchTerm);
    }

    /**
     * The catalog arrives: store it, show all of it, and let the filter effect
     * re-run because the catalog changed.
     */
    method LoadProducts(productData: seq<Product>)
      modifies this`products, this`filteredProducts
      ensures products == productData
      ensures category == old(category) && searchTerm == old(searchTerm)
      ensures InSync()
      ensures category == AllCategories && searchTerm == "" ==> filteredProducts == productData
    {
      products := productData;
      filteredProducts := productData;
      RunFilterEffect();
      FilterDefaultIsIdentity(productData);
    }

    /** The category selector's change handler, followed by the filter effect. */
    method SetCategory(value: string)
      modifies this`category, this`filteredProducts
      ensures category == value
      ensures products == old(products) && searchTerm == old(searchTerm)
      ensures InSync()
    {
      category := value;
      RunFilterEffect();
    }

    /** The search box's change handler, followed by the filter effect. */
    method SetSearchTerm(value: string)
      modifies this`searchTerm, this`filteredProducts
      ensures searchTerm == value
      ensures products == old(products) && category == old(category)
      ensures InSync()
    {
      searchTerm := value;
      RunFilterEffect();
    }
  }
}

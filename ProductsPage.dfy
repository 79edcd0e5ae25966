/** The public products page: a category filter over the fetched products. */
module ProductsPage {
  import Seqs

  datatype Product = Product(id: string, name: string, category: string)

  /** The category selected when the page opens. */
  const InitialCategory := "Handloom"

  /** An empty selection lets every product through. */
  function MatchesCategory(selected: string): Product -> bool {
    (p: Product) => selected == "" || p.category == selected
  }

  function FilteredProducts(products: seq<Product>, selected: string): (r: seq<Product>)
    ensures selected != "" ==> forall k :: 0 <= k < |r| ==> r[k].category == selected
    ensures forall k :: 0 <= k < |r| ==> r[k] in products
    ensures forall k :: 0 <= k < |products| && (selected == "" || products[k].category == selected) ==> products[k] in r
  {
    Seqs.Filter(products, MatchesCategory(selected))
  }

  /** The filter keeps the fetched order. */
  lemma FilteredInOrder(products: seq<Product>, selected: string)
    ensures Seqs.IsSubsequence(FilteredProducts(products, selected), products)
  {
    Seqs.FilterIsSubsequence(products, MatchesCategory(selected));
  }

  lemma {:induction false} EmptySelectionShowsAll(products: seq<Product>)
    ensures FilteredProducts(products, "") == products
  {
    if products != [] {
      EmptySelectionShowsAll(products[1..]);
      assert products == [products[0]] + products[1..];
    }
  }

  /** On opening, exactly the handloom products are shown, in order. */
  lemma InitialSelection(products: seq<Product>)
    ensures forall k :: 0 <= k < |FilteredProducts(products, InitialCategory)| ==>
      FilteredProducts(products, InitialCategory)[k].category == "Handloom"
    ensures forall k :: 0 <= k < |products| && products[k].category == "Handloom" ==>
      products[k] in FilteredProducts(products, InitialCategory)
  {
  }
}

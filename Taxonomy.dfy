/**
 * The global product taxonomy (`Product Category.json`) as the registration
 * form reads it. Its raw keys are `'Product Category '` and
 * `'Product Sub Category '` (with a trailing space), and every value is
 * trimmed before use. The data itself is a parameter.
 */
module Taxonomy {
  import Seqs
  import opened Text

  /** One JSON row: the raw, untrimmed category and sub-category values. */
  datatype TaxonomyRow = TaxonomyRow(productCategory: string, productSubCategory: string)

  function TrimmedCategory(p: TaxonomyRow): string { Trim(p.productCategory) }

  /** `productCategories.Products.map(p => p['Product Category '].trim())` */
  function TrimmedCategories(rows: seq<TaxonomyRow>): (r: seq<string>)
    ensures |r| == |rows| && forall k :: 0 <= k < |rows| ==> r[k] == TrimmedCategory(rows[k])
  {
    seq(|rows|, k requires 0 <= k < |rows| => TrimmedCategory(rows[k]))
  }

  /** `getUniqueCategories`: `Array.from(new Set(trimmed categories))`, not sorted. */
  function UniqueCategories(rows: seq<TaxonomyRow>): (r: seq<string>)
    ensures Seqs.NoDups(r)
    ensures forall k :: 0 <= k < |r| ==> exists j :: 0 <= j < |rows| && TrimmedCategory(rows[j]) == r[k]
    ensures forall j :: 0 <= j < |rows| ==> TrimmedCategory(rows[j]) in r
  {
    var cats := TrimmedCategories(rows);
    var r := Seqs.Dedupe(cats);
    assert forall k :: 0 <= k < |r| ==> r[k] in cats;
    r
  }

  /** The categories are listed in the order in which each first occurs in the data. */
  lemma UniqueCategoriesInFirstOccurrenceOrder(rows: seq<TaxonomyRow>)
    ensures var cats := TrimmedCategories(rows); var r := UniqueCategories(rows);
      forall i, j :: 0 <= i < j < |r| ==> Seqs.FirstIndex(cats, r[i]) < Seqs.FirstIndex(cats, r[j])
  {
    Seqs.DedupeFirstOccurrenceOrder(TrimmedCategories(rows));
  }

  /** The row belongs to category `c` once both are compared trimmed. */
  function InCategory(c: string): TaxonomyRow -> bool {
    p => TrimmedCategory(p) == c
  }

  /** `.map(p => p['Product Sub Category '].trim())` */
  function TrimmedSubCategories(rows: seq<TaxonomyRow>): (r: seq<string>)
    ensures |r| == |rows| && forall k :: 0 <= k < |rows| ==> r[k] == Trim(rows[k].productSubCategory)
  {
    seq(|rows|, k requires 0 <= k < |rows| => Trim(rows[k].productSubCategory))
  }

  /** `getProductsByCategory(c)`: the trimmed sub-category of every row of category `c`, in order. */
  function ProductsByCategory(rows: seq<TaxonomyRow>, c: string): (r: seq<string>)
    ensures |r| <= |rows|
  {
    TrimmedSubCategories(Seqs.Filter(rows, InCategory(c)))
  }

  /** Trimming sub-categories row by row commutes with concatenation. */
  lemma TrimmedSubCategoriesConcat(a: seq<TaxonomyRow>, b: seq<TaxonomyRow>)
    ensures TrimmedSubCategories(a + b) == TrimmedSubCategories(a) + TrimmedSubCategories(b)
  {
  }

  /** Products of a category are taken row by row, so the list of a concatenation is the concatenation of the lists. */
  lemma ProductsByCategoryConcat(a: seq<TaxonomyRow>, b: seq<TaxonomyRow>, c: string)
    ensures ProductsByCategory(a + b, c) == ProductsByCategory(a, c) + ProductsByCategory(b, c)
  {
    Seqs.FilterConcat(a, b, InCategory(c));
    TrimmedSubCategoriesConcat(Seqs.Filter(a, InCategory(c)), Seqs.Filter(b, InCategory(c)));
  }

  /** A single row contributes its trimmed sub-category exactly when its trimmed category is `c`. */
  lemma ProductsByCategoryOfRow(p: TaxonomyRow, c: string)
    ensures ProductsByCategory([p], c) == if Trim(p.productCategory) == c then [Trim(p.productSubCategory)] else []
  {
    assert [p][1..] == [];
  }

  /** Every product offered for `c` is the sub-category of a row whose trimmed category is `c`. */
  lemma ProductsByCategorySound(rows: seq<TaxonomyRow>, c: string, k: nat)
    requires k < |ProductsByCategory(rows, c)|
    ensures exists j :: (0 <= j < |rows| && Trim(rows[j].productCategory) == c
      && Trim(rows[j].productSubCategory) == ProductsByCategory(rows, c)[k])
  {
    var matching := Seqs.Filter(rows, InCategory(c));
    assert matching[k] in rows && InCategory(c)(matching[k]);
  }

  /** A category has products exactly when it is one of the unique categories. */
  lemma {:induction false} CategoryHasProductsIffListed(rows: seq<TaxonomyRow>, c: string)
    ensures ProductsByCategory(rows, c) != [] <==> c in UniqueCategories(rows)
  {
    var matching := Seqs.Filter(rows, InCategory(c));
    if c in UniqueCategories(rows) {
      var k :| 0 <= k < |UniqueCategories(rows)| && UniqueCategories(rows)[k] == c;
      var j :| 0 <= j < |rows| && TrimmedCategory(rows[j]) == c;
      assert InCategory(c)(rows[j]);
      assert rows[j] in matching;
    }
    if matching != [] {
      assert matching[0] in rows && InCategory(c)(matching[0]);
      var j :| 0 <= j < |rows| && rows[j] == matching[0];
      assert TrimmedCategory(rows[j]) in UniqueCategories(rows);
    }
  }
}

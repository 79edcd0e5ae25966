/**
 * The daily sales page: stall-scoped category and product options, sale rows
 * edited in place, validation, submission into the `dailySales` collection,
 * the per-stall history sorted by date, and in-place edits of a saved entry.
 * The collection is a sequence of documents, each a document id and its data.
 */
module DailySales {
  import opened Wrappers
  import Seqs
  import opened Text

  datatype SaleItem = SaleItem(productName: string, productCategory: string, quantitySold: int, salesValue: int)

  datatype DailySale = DailySale(id: string, exhibitionId: string, stallId: string, date: string, products: seq<SaleItem>)

  datatype StallItem = StallItem(productName: string, productCategory: string)

  datatype Stall = Stall(id: string, stallNumber: string, participantName: string, inventory: seq<StallItem>)

  /** A document of the `dailySales` collection: its id and the data stored in it. */
  datatype StoredSale = StoredSale(docId: string, data: DailySale)

  /** The field a sale-row handler writes. */
  datatype SaleField = Category(category: string) | ProductName(name: string) | QuantitySold(quantity: int) | SalesValue(value: int)

  datatype SubmitOutcome = Rejected | StoreFailed | Saved

  /** The row `addSaleItem` appends. */
  const BlankSaleItem: SaleItem := SaleItem("", "", 0, 0)

  // --------------------------------------------------------- stall products

  function StallKey(s: Stall): string { s.id }

  function TrimmedItem(i: StallItem): StallItem {
    StallItem(Trim(i.productName), Trim(i.productCategory))
  }

  /** The inventory of the first stall with that id, both fields trimmed; empty when no stall has it. */
  function StallProducts(stalls: seq<Stall>, stallId: string): (r: seq<StallItem>)
    ensures (forall j :: 0 <= j < |stalls| ==> stalls[j].id != stallId) ==> r == []
    ensures Seqs.FindIndex(stalls, StallKey, stallId).Some? ==>
      var inventory := stalls[Seqs.FindIndex(stalls, StallKey, stallId).value].inventory;
      |r| == |inventory| && forall k :: 0 <= k < |r| ==> r[k] == TrimmedItem(inventory[k])
    ensures forall k :: 0 <= k < |r| ==> Unpadded(r[k].productName) && Unpadded(r[k].productCategory)
  {
    match Seqs.FindIndex(stalls, StallKey, stallId)
    case None => []
    case Some(j) => TrimmedItems(stalls[j].inventory)
  }

  function TrimmedItems(items: seq<StallItem>): (r: seq<StallItem>)
    ensures |r| == |items| && forall k :: 0 <= k < |r| ==> r[k] == TrimmedItem(items[k])
    ensures forall k :: 0 <= k < |r| ==> Unpadded(r[k].productName) && Unpadded(r[k].productCategory)
  {
    seq(|items|, k requires 0 <= k < |items| => TrimmedItem(items[k]))
  }

  // ----------------------------------------------------------------- stalls

  /** A document of the `registrations` collection as the sales page reads it: its id, its exhibition and its data. */
  datatype StoredStall = StoredStall(docId: string, exhibitionId: string, data: Stall)

  /** `{ id: doc.id, ...doc.data() }` with the document id as the stall's id. */
  function StallView(d: StoredStall): Stall {
    d.data.(id := d.docId)
  }

  /** As written: the `id` the registration form stores in its data, `''`, overrides the document id. */
  function StallViewAsWritten(d: StoredStall): Stall {
    var withDocId := d.data.(id := d.docId);
    withDocId.(id := d.data.id)
  }

  function InExhibition(exhibitionId: string): StoredStall -> bool {
    (d: StoredStall) => d.exhibitionId == exhibitionId
  }

  /** `fetchStalls`: the registrations of one exhibition, in store order, each made a stall by `view`. */
  function StallsBy(view: StoredStall -> Stall, docs: seq<StoredStall>, exhibitionId: string): seq<Stall> {
    var f := Seqs.Filter(docs, InExhibition(exhibitionId));
    seq(|f|, k requires 0 <= k < |f| => view(f[k]))
  }

  function FetchStalls(docs: seq<StoredStall>, exhibitionId: string): seq<Stall> {
    StallsBy(StallView, docs, exhibitionId)
  }

  function FetchStallsAsWritten(docs: seq<StoredStall>, exhibitionId: string): seq<Stall> {
    StallsBy(StallViewAsWritten, docs, exhibitionId)
  }

  function StallDocId(d: StoredStall): string { d.docId }

  /** Registration document ids are non-empty and unique, as the store guarantees. */
  ghost predicate WellFormedRegistrations(docs: seq<StoredStall>) {
    (forall j :: 0 <= j < |docs| ==> docs[j].docId != "")
    && (forall i, j :: 0 <= i < j < |docs| ==> docs[i].docId != docs[j].docId)
  }

  /**
   * With document ids as stall ids, every stall option names a registration
   * of the chosen exhibition, no option shares the placeholder's value `''`,
   * and no two options share a value.
   */
  lemma FetchStallsIds(docs: seq<StoredStall>, exhibitionId: string)
    requires WellFormedRegistrations(docs)
    ensures forall k :: 0 <= k < |FetchStalls(docs, exhibitionId)| ==>
      FetchStalls(docs, exhibitionId)[k].id != ""
      && exists j :: 0 <= j < |docs| && docs[j].docId == FetchStalls(docs, exhibitionId)[k].id && docs[j].exhibitionId == exhibitionId
    ensures forall i, j :: 0 <= i < j < |FetchStalls(docs, exhibitionId)| ==>
      FetchStalls(docs, exhibitionId)[i].id != FetchStalls(docs, exhibitionId)[j].id
  {
    var f := Seqs.Filter(docs, InExhibition(exhibitionId));
    var r := FetchStalls(docs, exhibitionId);
    Seqs.FilterUniqueKeys(docs, InExhibition(exhibitionId), StallDocId);
    forall k | 0 <= k < |r|
      ensures r[k].id != "" && exists j :: 0 <= j < |docs| && docs[j].docId == r[k].id && docs[j].exhibitionId == exhibitionId
    {
      assert r[k] == StallView(f[k]);
      assert f[k] in docs && InExhibition(exhibitionId)(f[k]);
      var j :| 0 <= j < |docs| && docs[j] == f[k];
      assert docs[j].docId == r[k].id;
    }
    forall i, j | 0 <= i < j < |r| ensures r[i].id != r[j].id {
      assert r[i] == StallView(f[i]) && r[j] == StallView(f[j]);
      assert StallDocId(f[i]) != StallDocId(f[j]);
    }
  }

  /** Every registration the registration form writes stores `id: ''` in its data. */
  ghost predicate StallsWrittenByRegistrationForm(docs: seq<StoredStall>) {
    forall j :: 0 <= j < |docs| ==> docs[j].data.id == ""
  }

  /**
   * As written, every stall option of the sales page has the value `''`,
   * the value of the "Select Stall" placeholder: choosing any stall selects
   * none, so no history is loaded.
   */
  lemma AsWrittenStallOptionsBlank(docs: seq<StoredStall>, exhibitionId: string)
    requires StallsWrittenByRegistrationForm(docs)
    ensures forall k :: 0 <= k < |FetchStallsAsWritten(docs, exhibitionId)| ==> FetchStallsAsWritten(docs, exhibitionId)[k].id == ""
  {
    var f := Seqs.Filter(docs, InExhibition(exhibitionId));
    var r := FetchStallsAsWritten(docs, exhibitionId);
    forall k | 0 <= k < |r| ensures r[k].id == "" {
      assert r[k] == StallViewAsWritten(f[k]);
      assert f[k] in docs;
      var j :| 0 <= j < |docs| && docs[j] == f[k];
    }
  }

  // ---------------------------------------------------------- product options

  function Categories(products: seq<StallItem>): seq<string> {
    seq(|products|, k requires 0 <= k < |products| => products[k].productCategory)
  }

  function NonEmpty(s: string): bool { s != "" }

  /** The category selector's options: distinct, non-empty, sorted. */
  function CategoryOptions(products: seq<StallItem>): seq<string> {
    SortAsc(Seqs.Filter(Seqs.Dedupe(Categories(products)), NonEmpty))
  }

  lemma CategoryOptionsSpec(products: seq<StallItem>)
    ensures StrictlyAscending(CategoryOptions(products))
    ensures forall k :: 0 <= k < |CategoryOptions(products)| ==>
      CategoryOptions(products)[k] != "" && exists j :: 0 <= j < |products| && products[j].productCategory == CategoryOptions(products)[k]
    ensures forall j :: 0 <= j < |products| && products[j].productCategory != "" ==> products[j].productCategory in CategoryOptions(products)
  {
    var cats := Categories(products);
    var d := Seqs.Dedupe(cats);
    var f := Seqs.Filter(d, NonEmpty);
    var r := CategoryOptions(products);
    Seqs.FilterNoDups(d, NonEmpty);
    SortAscSorted(f);
    AscendingNoDupsStrict(r);
    forall k | 0 <= k < |r|
      ensures r[k] != "" && exists j :: 0 <= j < |products| && products[j].productCategory == r[k]
    {
      assert r[k] in multiset(r);
      assert r[k] in f;
      assert r[k] in d;
      assert r[k] in cats;
    }
    forall j | 0 <= j < |products| && products[j].productCategory != ""
      ensures products[j].productCategory in r
    {
      assert cats[j] == products[j].productCategory;
      assert cats[j] in d;
      assert cats[j] in f;
      assert cats[j] in multiset(r);
    }
  }

  function SameCategory(category: string): StallItem -> bool {
    (p: StallItem) => Trim(p.productCategory) == Trim(category)
  }

  /** The product selector's options for a row with that category. */
  function ProductOptions(products: seq<StallItem>, category: string): (r: seq<StallItem>)
    ensures category == "" ==> r == []
    ensures forall k :: 0 <= k < |r| ==> r[k] in products && Trim(r[k].productCategory) == Trim(category)
    ensures category != "" ==> forall k :: 0 <= k < |products| && Trim(products[k].productCategory) == Trim(category) ==> products[k] in r
  {
    if category == "" then [] else Seqs.Filter(products, SameCategory(category))
  }

  /** The product options keep the stall's inventory order. */
  lemma ProductOptionsInOrder(products: seq<StallItem>, category: string)
    ensures Seqs.IsSubsequence(ProductOptions(products, category), products)
  {
    if category != "" {
      Seqs.FilterIsSubsequence(products, SameCategory(category));
    }
  }

  /**
   * For trimmed products (as a stall's products are), a category is offered
   * exactly when it is a non-empty trimmed string with at least one product option.
   */
  lemma OfferedCategoryHasProducts(ps: seq<StallItem>, c: string)
    requires forall k :: 0 <= k < |ps| ==> Unpadded(ps[k].productCategory)
    ensures c in CategoryOptions(ps) <==> c != "" && Unpadded(c) && ProductOptions(ps, c) != []
  {
    CategoryOptionsSpec(ps);
    if c in CategoryOptions(ps) {
      var k :| 0 <= k < |CategoryOptions(ps)| && CategoryOptions(ps)[k] == c;
      var j :| 0 <= j < |ps| && ps[j].productCategory == c;
      TrimUnpadded(c);
      assert ps[j] in ProductOptions(ps, c);
    }
    if c != "" && Unpadded(c) && ProductOptions(ps, c) != [] {
      var p := ProductOptions(ps, c)[0];
      var j :| 0 <= j < |ps| && ps[j] == p;
      TrimUnpadded(c);
      TrimUnpadded(p.productCategory);
      assert ps[j].productCategory == c;
    }
  }

  // ------------------------------------------------------------- sale rows

  /** One handler call on a row: a category also clears the product; any other field changes alone. */
  function UpdateRow(item: SaleItem, f: SaleField): (r: SaleItem)
    ensures f.Category? ==>
      r.productCategory == f.category && r.productName == "" && r.quantitySold == item.quantitySold && r.salesValue == item.salesValue
    ensures f.ProductName? ==> r == item.(productName := f.name)
    ensures f.QuantitySold? ==> r == item.(quantitySold := f.quantity)
    ensures f.SalesValue? ==> r == item.(salesValue := f.value)
  {
    match f
    case Category(c) => item.(productCategory := c, productName := "")
    case ProductName(n) => item.(productName := n)
    case QuantitySold(q) => item.(quantitySold := q)
    case SalesValue(v) => item.(salesValue := v)
  }

  predicate ValidSaleItem(item: SaleItem) {
    item.productCategory != "" && item.productName != "" && item.quantitySold > 0 && item.salesValue > 0
  }

  predicate AllValid(rows: seq<SaleItem>) {
    forall k :: 0 <= k < |rows| ==> ValidSaleItem(rows[k])
  }

  /** A freshly added row and a row whose category was just changed do not pass validation. */
  lemma FreshRowsInvalid(rows: seq<SaleItem>, item: SaleItem, c: string)
    ensures !AllValid(rows + [BlankSaleItem])
    ensures !ValidSaleItem(UpdateRow(item, Category(c)))
  {
    assert (rows + [BlankSaleItem])[|rows|] == BlankSaleItem;
  }

  /** The handler's second call (clearing the product) adds nothing to the first. */
  lemma CategoryThenClearProduct(item: SaleItem, c: string)
    ensures UpdateRow(UpdateRow(item, Category(c)), ProductName("")) == UpdateRow(item, Category(c))
  {
  }

  /** The displayed total: a left fold adding up `salesValue`. */
  function Total(products: seq<SaleItem>): int
    decreases |products|
  {
    if products == [] then 0 else Total(products[..|products| - 1]) + products[|products| - 1].salesValue
  }

  lemma {:induction false} TotalAppend(a: seq<SaleItem>, b: seq<SaleItem>)
    ensures Total(a + b) == Total(a) + Total(b)
    decreases |b|
  {
    if b != [] {
      var b' := b[..|b| - 1];
      assert (a + b)[..|a + b| - 1] == a + b';
      TotalAppend(a, b');
    } else {
      assert a + b == a;
    }
  }

  /** Editing one row's value moves the total by exactly the difference. */
  lemma TotalReplace(s: seq<SaleItem>, i: nat, x: SaleItem)
    requires i < |s|
    ensures Total(s[i := x]) == Total(s) - s[i].salesValue + x.salesValue
  {
    assert s == s[..i] + [s[i]] + s[i + 1..];
    assert s[i := x] == s[..i] + [x] + s[i + 1..];
    TotalAppend(s[..i] + [s[i]], s[i + 1..]);
    TotalAppend(s[..i] + [x], s[i + 1..]);
    TotalAppend(s[..i], [s[i]]);
    TotalAppend(s[..i], [x]);
    assert Total([s[i]]) == s[i].salesValue by { assert [s[i]][..0] == []; }
    assert Total([x]) == x.salesValue by { assert [x][..0] == []; }
  }

  /** Rows that pass validation add up to at least one rupee per row. */
  lemma {:induction false} ValidRowsTotal(rows: seq<SaleItem>)
    requires AllValid(rows)
    ensures Total(rows) >= |rows|
    decreases |rows|
  {
    if rows != [] {
      ValidRowsTotal(rows[..|rows| - 1]);
    }
  }

  // --------------------------------------------------------------- history

  /** Dates compare as strings; the newest first. */
  predicate Descending(s: seq<DailySale>) {
    forall i, j :: 0 <= i < j < |s| ==> !Less(s[i].date, s[j].date)
  }

  function InsertByDate(x: DailySale, s: seq<DailySale>): (r: seq<DailySale>)
    ensures multiset(r) == multiset(s) + multiset{x}
    ensures |r| == |s| + 1
  {
    if s == [] then [x]
    else if Less(x.date, s[0].date) then
      assert s == [s[0]] + s[1..];
      [s[0]] + InsertByDate(x, s[1..])
    else [x] + s
  }

  lemma {:induction false} InsertByDateSorted(x: DailySale, s: seq<DailySale>)
    requires Descending(s)
    ensures Descending(InsertByDate(x, s))
  {
    var r := InsertByDate(x, s);
    if s != [] {
      if Less(x.date, s[0].date) {
        var t := InsertByDate(x, s[1..]);
        InsertByDateSorted(x, s[1..]);
        forall k | 0 <= k < |t| ensures !Less(s[0].date, t[k].date) {
          assert t[k] in multiset(t);
          if t[k] == x {
            LessAsymmetric(x.date, s[0].date);
          } else {
            assert t[k] in multiset(s[1..]);
            var j :| 0 <= j < |s[1..]| && s[1..][j] == t[k];
            assert s[j + 1] == t[k];
          }
        }
        assert forall k :: 1 <= k < |r| ==> r[k] == t[k - 1];
      } else {
        forall j | 0 <= j < |s| ensures !Less(x.date, s[j].date) {
          if Less(x.date, s[j].date) && j > 0 {
            if s[0].date != x.date {
              LessTotal(s[0].date, x.date);
              LessTransitive(s[0].date, x.date, s[j].date);
            }
          }
        }
        assert forall k :: 1 <= k < |r| ==> r[k] == s[k - 1];
      }
    }
  }

  /** `sort((a, b) => b.date.localeCompare(a.date))`. */
  function SortByDate(s: seq<DailySale>): (r: seq<DailySale>)
    ensures multiset(r) == multiset(s)
    ensures |r| == |s|
  {
    if s == [] then []
    else
      assert s == [s[0]] + s[1..];
      InsertByDate(s[0], SortByDate(s[1..]))
  }

  lemma {:induction false} SortByDateSorted(s: seq<DailySale>)
    ensures Descending(SortByDate(s))
  {
    if s != [] {
      SortByDateSorted(s[1..]);
      InsertByDateSorted(s[0], SortByDate(s[1..]));
    }
  }

  /** How a fetched document becomes a history entry: the document id is the entry's id. */
  function View(d: StoredSale): DailySale {
    d.data.(id := d.docId)
  }

  /**
   * `{ id: doc.id, ...doc.data() }` as written: the data's own `id` field,
   * which submission always stores, overrides the document id.
   */
  function ViewAsWritten(d: StoredSale): DailySale {
    var withDocId := d.data.(id := d.docId);
    withDocId.(id := d.data.id)
  }

  function Views(view: StoredSale -> DailySale, store: seq<StoredSale>): seq<DailySale> {
    seq(|store|, k requires 0 <= k < |store| => view(store[k]))
  }

  function OfStall(stallId: string): DailySale -> bool {
    (s: DailySale) => s.stallId == stallId
  }

  /** The documents of one stall, each made an entry by `view`, newest date first. */
  function HistoryBy(view: StoredSale -> DailySale, store: seq<StoredSale>, stallId: string): seq<DailySale> {
    SortByDate(Seqs.Filter(Views(view, store), OfStall(stallId)))
  }

  function History(store: seq<StoredSale>, stallId: string): seq<DailySale> {
    HistoryBy(View, store, stallId)
  }

  function HistoryAsWritten(store: seq<StoredSale>, stallId: string): seq<DailySale> {
    HistoryBy(ViewAsWritten, store, stallId)
  }

  /** History is sorted by date and holds exactly the stall's documents, each as often as stored. */
  lemma HistorySpec(view: StoredSale -> DailySale, store: seq<StoredSale>, stallId: string)
    ensures Descending(HistoryBy(view, store, stallId))
    ensures forall k :: 0 <= k < |HistoryBy(view, store, stallId)| ==> HistoryBy(view, store, stallId)[k].stallId == stallId
    ensures forall x: DailySale ::
      multiset(HistoryBy(view, store, stallId))[x] == (if x.stallId == stallId then multiset(Views(view, store))[x] else 0)
  {
    var f := Seqs.Filter(Views(view, store), OfStall(stallId));
    var r := HistoryBy(view, store, stallId);
    SortByDateSorted(f);
    forall x: DailySale ensures multiset(r)[x] == if x.stallId == stallId then multiset(Views(view, store))[x] else 0 {
      Seqs.FilterMultiset(Views(view, store), OfStall(stallId), x);
    }
    forall k | 0 <= k < |r| ensures r[k].stallId == stallId {
      assert r[k] in multiset(r);
      assert r[k] in f;
    }
  }

  predicate HasDoc(store: seq<StoredSale>, docId: string) {
    exists j :: 0 <= j < |store| && store[j].docId == docId
  }

  /** Document ids are non-empty and unique, as the store guarantees. */
  ghost predicate WellFormedStore(store: seq<StoredSale>) {
    (forall j :: 0 <= j < |store| ==> store[j].docId != "")
    && (forall i, j :: 0 <= i < j < |store| ==> store[i].docId != store[j].docId)
  }

  /** Every history entry is one of the fetched entries. */
  lemma HistoryFromViews(view: StoredSale -> DailySale, store: seq<StoredSale>, stallId: string)
    ensures forall x :: x in HistoryBy(view, store, stallId) ==> x in Views(view, store)
  {
    var f := Seqs.Filter(Views(view, store), OfStall(stallId));
    forall x | x in HistoryBy(view, store, stallId) ensures x in Views(view, store) {
      assert x in multiset(HistoryBy(view, store, stallId));
      assert x in f;
    }
  }

  ghost predicate Backed(store: seq<StoredSale>, h: seq<DailySale>) {
    forall k :: 0 <= k < |h| ==> HasDoc(store, h[k].id)
  }

  /** Every entry of the history is backed by a document of that id. */
  lemma HistoryIdsAreDocIds(store: seq<StoredSale>, stallId: string)
    ensures forall k :: 0 <= k < |History(store, stallId)| ==> HasDoc(store, History(store, stallId)[k].id)
  {
    var r := History(store, stallId);
    ViewIdsAreDocIds(store);
    HistoryFromViews(View, store, stallId);
    forall k | 0 <= k < |r| ensures HasDoc(store, r[k].id) {
      assert r[k] in r;
    }
  }

  lemma ViewIdsAreDocIds(store: seq<StoredSale>)
    ensures forall x :: x in Views(View, store) ==> HasDoc(store, x.id)
  {
    var v := Views(View, store);
    forall x | x in v ensures HasDoc(store, x.id) {
      var j :| 0 <= j < |v| && v[j] == x;
      assert v[j] == View(store[j]);
      assert store[j].docId == x.id;
    }
  }

  /** A reloaded history satisfies the page's invariant on its history. */
  lemma ReloadedHistory(store: seq<StoredSale>, stallId: string)
    ensures Descending(History(store, stallId)) && Backed(store, History(store, stallId))
  {
    SortByDateSorted(Seqs.Filter(Views(View, store), OfStall(stallId)));
    HistoryIdsAreDocIds(store, stallId);
  }

  /** Appending a document with a fresh, non-empty id keeps the store well formed. */
  lemma AppendFresh(store: seq<StoredSale>, d: StoredSale)
    requires WellFormedStore(store) && d.docId != "" && !HasDoc(store, d.docId)
    ensures WellFormedStore(store + [d])
  {
    var s := store + [d];
    forall i, j | 0 <= i < j < |s| ensures s[i].docId != s[j].docId {
      if j == |store| {
        assert s[i] == store[i];
      }
    }
  }

  /** With unique document ids, the fetched entries are pairwise distinct. */
  lemma ViewsDistinct(store: seq<StoredSale>)
    requires WellFormedStore(store)
    ensures Seqs.NoDups(Views(View, store))
  {
    var v := Views(View, store);
    forall i, j | 0 <= i < j < |v| ensures v[i] != v[j] {
      assert v[i] == View(store[i]) && v[j] == View(store[j]);
    }
  }

  lemma HistoryDistinct(store: seq<StoredSale>, stallId: string)
    requires WellFormedStore(store)
    ensures Seqs.NoDups(History(store, stallId))
  {
    var f := Seqs.Filter(Views(View, store), OfStall(stallId));
    var r := History(store, stallId);
    ViewsDistinct(store);
    Seqs.FilterNoDups(Views(View, store), OfStall(stallId));
    forall x ensures multiset(r)[x] <= 1 {
      Seqs.NoDupsAtMostOnce(f, x);
    }
    Seqs.AtMostOnceNoDups(r);
  }

  /** With unique document ids, no two history entries share an id. */
  lemma HistoryIdsUnique(store: seq<StoredSale>, stallId: string)
    requires WellFormedStore(store)
    ensures forall i, j :: 0 <= i < j < |History(store, stallId)| ==> History(store, stallId)[i].id != History(store, stallId)[j].id
  {
    var r := History(store, stallId);
    HistoryDistinct(store, stallId);
    HistoryFromViews(View, store, stallId);
    ViewIdsDetermineViews(store);
    forall i, j | 0 <= i < j < |r| ensures r[i].id != r[j].id {
      assert r[i] in r && r[j] in r;
      assert r[i] != r[j];
    }
  }

  /** With unique document ids, two fetched entries with the same id are the same entry. */
  lemma ViewIdsDetermineViews(store: seq<StoredSale>)
    requires WellFormedStore(store)
    ensures forall x, y :: x in Views(View, store) && y in Views(View, store) && x.id == y.id ==> x == y
  {
    var v := Views(View, store);
    forall x, y | x in v && y in v && x.id == y.id ensures x == y {
      var a :| 0 <= a < |v| && v[a] == x;
      var b :| 0 <= b < |v| && v[b] == y;
      assert v[a] == View(store[a]) && v[b] == View(store[b]);
      assert store[a].docId == store[b].docId;
    }
  }

  /** Replaces the rows of every entry with that id (at most one when ids are unique). */
  function ReplaceProducts(h: seq<DailySale>, saleId: string, products: seq<SaleItem>): (r: seq<DailySale>)
    ensures |r| == |h|
    ensures forall k :: 0 <= k < |r| ==> r[k].id == h[k].id && r[k].date == h[k].date && r[k].stallId == h[k].stallId
    ensures forall k :: 0 <= k < |r| && h[k].id != saleId ==> r[k] == h[k]
    ensures forall k :: 0 <= k < |r| && h[k].id == saleId ==> r[k].products == products
  {
    seq(|h|, k requires 0 <= k < |h| => if h[k].id == saleId then h[k].(products := products) else h[k])
  }

  /** `updateDoc(ref, { products })` on the store. */
  function UpdateStored(store: seq<StoredSale>, docId: string, products: seq<SaleItem>): (r: seq<StoredSale>)
    ensures |r| == |store|
    ensures forall k :: 0 <= k < |r| ==> r[k].docId == store[k].docId
    ensures forall k :: 0 <= k < |r| && store[k].docId != docId ==> r[k] == store[k]
    ensures forall k :: 0 <= k < |r| && store[k].docId == docId ==> r[k].data == store[k].data.(products := products)
  {
    seq(|store|, k requires 0 <= k < |store| =>
      if store[k].docId == docId then store[k].(data := store[k].data.(products := products)) else store[k])
  }

  /** Replacing rows keeps the history sorted. */
  lemma ReplaceProductsKeepsOrder(h: seq<DailySale>, saleId: string, products: seq<SaleItem>)
    requires Descending(h)
    ensures Descending(ReplaceProducts(h, saleId, products))
  {
  }

  /**
   * With document ids as entry ids, saving an edit of entry `i` changes that
   * entry's rows and no other entry, and the document it targets exists.
   */
  lemma SaveEditChangesExactlyOneEntry(store: seq<StoredSale>, stallId: string, i: nat, products: seq<SaleItem>)
    requires WellFormedStore(store) && i < |History(store, stallId)|
    ensures var h := History(store, stallId);
      var r := ReplaceProducts(h, h[i].id, products);
      HasDoc(store, h[i].id) && r[i] == h[i].(products := products)
      && forall k :: 0 <= k < |h| && k != i ==> r[k] == h[k]
  {
    HistoryIdsUnique(store, stallId);
    HistoryIdsAreDocIds(store, stallId);
  }

  /** Every document this page writes stores `id: ''` in its data. */
  ghost predicate WrittenByThisPage(store: seq<StoredSale>) {
    forall j :: 0 <= j < |store| ==> store[j].data.id == ""
  }

  /**
   * As written, every entry of the history has the id `''`: opening the edit
   * form on one entry opens it on all of them, and the update is addressed to
   * a document that does not exist, so an edit can never be saved.
   */
  lemma AsWrittenEditTargetsNoDocument(store: seq<StoredSale>, stallId: string, i: nat)
    requires WellFormedStore(store) && WrittenByThisPage(store) && i < |HistoryAsWritten(store, stallId)|
    ensures var h := HistoryAsWritten(store, stallId);
      !HasDoc(store, h[i].id) && forall k :: 0 <= k < |h| ==> h[k].id == h[i].id
  {
    var v := Views(ViewAsWritten, store);
    var f := Seqs.Filter(v, OfStall(stallId));
    var h := HistoryAsWritten(store, stallId);
    forall k | 0 <= k < |h| ensures h[k].id == "" {
      assert h[k] in multiset(h);
      assert h[k] in f;
      var j :| 0 <= j < |v| && v[j] == h[k];
    }
  }

  /** The smallest case: one saved document, and the entry built from it cannot be saved after an edit. */
  lemma AsWrittenSingleDocument()
    ensures var store := [StoredSale("d1", DailySale("", "e1", "s1", "2024-01-15", [SaleItem("Saree", "Handloom", 1, 500)]))];
      HistoryAsWritten(store, "s1") == [DailySale("", "e1", "s1", "2024-01-15", [SaleItem("Saree", "Handloom", 1, 500)])]
      && !HasDoc(store, "")
      && History(store, "s1") == [DailySale("d1", "e1", "s1", "2024-01-15", [SaleItem("Saree", "Handloom", 1, 500)])]
  {
    var store := [StoredSale("d1", DailySale("", "e1", "s1", "2024-01-15", [SaleItem("Saree", "Handloom", 1, 500)]))];
    var written := store[0].data;
    var corrected := store[0].data.(id := "d1");
    assert Views(ViewAsWritten, store) == [written];
    assert Views(View, store) == [corrected];
    assert Seqs.Filter([written], OfStall("s1")) == [written];
    assert Seqs.Filter([corrected], OfStall("s1")) == [corrected];
    assert SortByDate([written]) == [written];
    assert SortByDate([corrected]) == [corrected];
  }

  /** After a successful submission the refreshed history holds one more entry, the new one. */
  lemma HistoryAfterSubmit(store: seq<StoredSale>, d: StoredSale)
    ensures View(d) in History(store + [d], d.data.stallId)
    ensures |History(store + [d], d.data.stallId)| == |History(store, d.data.stallId)| + 1
  {
    var s := d.data.stallId;
    assert Views(View, store + [d]) == Views(View, store) + [View(d)];
    Seqs.FilterConcat(Views(View, store), [View(d)], OfStall(s));
    assert Seqs.Filter([View(d)], OfStall(s)) == [View(d)];
    assert View(d) in multiset(History(store + [d], s));
  }

  // ------------------------------------------------------------------ page

  class SalesPage {
    var stalls: seq<Stall>
    var selectedExhibition: string
    var selectedStall: string
    var saleDate: string
    var sales: seq<SaleItem>
    var historicalSales: seq<DailySale>
    var editingSaleId: Option<string>
    var editingProducts: seq<SaleItem>
    /** The `dailySales` collection. */
    var store: seq<StoredSale>

    /** The history shown is sorted, and each of its entries names a stored document. */
    ghost predicate Valid()
      reads this
    {
      WellFormedStore(store) && Descending(historicalSales) && Backed(store, historicalSales)
    }

    constructor (store: seq<StoredSale>, today: string)
      requires WellFormedStore(store)
      ensures Valid()
      ensures this.store == store && saleDate == today
      ensures stalls == [] && selectedExhibition == "" && selectedStall == "" && sales == []
      ensures historicalSales == [] && editingSaleId == None && editingProducts == []
    {
      this.store := store;
      saleDate := today;
      stalls, selectedExhibition, selectedStall := [], "", "";
      sales, historicalSales := [], [];
      editingSaleId, editingProducts := None, [];
    }

    /**
     * Choosing an exhibition loads its stalls from the `registrations`
     * collection, passed in as `registrations`, unless the choice is empty.
     */
    method SelectExhibition(exhibitionId: string, registrations: seq<StoredStall>)
      requires Valid()
      modifies this
      ensures Valid()
      ensures selectedExhibition == exhibitionId
      ensures stalls == if exhibitionId != "" then FetchStalls(registrations, exhibitionId) else old(stalls)
      ensures selectedStall == old(selectedStall) && sales == old(sales) && historicalSales == old(historicalSales)
      ensures editingSaleId == old(editingSaleId) && editingProducts == old(editingProducts)
      ensures store == old(store) && saleDate == old(saleDate)
    {
      selectedExhibition := exhibitionId;
      if exhibitionId != "" {
        stalls := FetchStalls(registrations, exhibitionId);
      }
    }

    /** Choosing a stall reloads its history unless the choice is empty. */
    method SelectStall(stallId: string)
      requires Valid()
      modifies this
      ensures Valid()
      ensures selectedStall == stallId
      ensures historicalSales == if stallId != "" then History(store, stallId) else old(historicalSales)
      ensures stalls == old(stalls) && selectedExhibition == old(selectedExhibition) && sales == old(sales)
      ensures editingSaleId == old(editingSaleId) && editingProducts == old(editingProducts)
      ensures store == old(store) && saleDate == old(saleDate)
    {
      selectedStall := stallId;
      if stallId != "" {
        ReloadedHistory(store, stallId);
        historicalSales := History(store, stallId);
      }
    }

    method SetSaleDate(date: string)
      requires Valid()
      modifies this`saleDate
      ensures Valid() && saleDate == date
    {
      saleDate := date;
    }

    method AddSaleItem()
      requires Valid()
      modifies this`sales
      ensures Valid()
      ensures sales == old(sales) + [BlankSaleItem]
    {
      sales := sales + [BlankSaleItem];
    }

    /** `updateSaleItem(index, field, value)`: only row `index` changes. */
    method UpdateSaleItem(index: nat, f: SaleField)
      requires Valid() && index < |sales|
      modifies this`sales
      ensures Valid()
      ensures |sales| == |old(sales)|
      ensures sales[index] == UpdateRow(old(sales[index]), f)
      ensures forall k :: 0 <= k < |sales| && k != index ==> sales[k] == old(sales[k])
    {
      sales := sales[index := UpdateRow(sales[index], f)];
    }

    /**
     * The category selector of a sale row: the trimmed choice becomes the
     * category and the product is cleared (the net effect of its two calls
     * and the delayed re-set).
     */
    method SelectSaleCategory(index: nat, choice: string)
      requires Valid() && index < |sales|
      modifies this`sales
      ensures Valid()
      ensures sales == old(sales)[index := UpdateRow(old(sales[index]), Category(Trim(choice)))]
    {
      UpdateSaleItem(index, Category(Trim(choice)));
    }

    /**
     * Submission: any invalid row rejects it and nothing changes; otherwise
     * one new document is appended (never merged with an entry of the same
     * date), the rows are cleared and the history is reloaded.
     */
    method Submit(newDocId: string, storeAccepts: bool) returns (outcome: SubmitOutcome)
      requires Valid() && newDocId != "" && !HasDoc(store, newDocId)
      modifies this`store, this`sales, this`historicalSales
      ensures Valid()
      ensures outcome == Rejected <==> !AllValid(old(sales))
      ensures outcome == StoreFailed <==> AllValid(old(sales)) && !storeAccepts
      ensures outcome != Saved ==> store == old(store) && sales == old(sales) && historicalSales == old(historicalSales)
      ensures outcome == Saved ==>
        store == old(store) + [StoredSale(newDocId, DailySale("", selectedExhibition, selectedStall, saleDate, old(sales)))]
        && sales == [] && historicalSales == History(store, selectedStall)
    {
      if !AllValid(sales) {
        return Rejected;
      }
      if !storeAccepts {
        return StoreFailed;
      }
      var saved := StoredSale(newDocId, DailySale("", selectedExhibition, selectedStall, saleDate, sales));
      var newStore := store + [saved];
      var reloaded := History(newStore, selectedStall);
      AppendFresh(store, saved);
      ReloadedHistory(newStore, selectedStall);
      store, sales, historicalSales := newStore, [], reloaded;
      outcome := Saved;
    }

    /** Opens the edit form on history entry `i` with a copy of its rows. */
    method StartEditing(i: nat)
      requires Valid() && i < |historicalSales|
      modifies this`editingSaleId, this`editingProducts
      ensures Valid()
      ensures editingSaleId == Some(historicalSales[i].id) && editingProducts == historicalSales[i].products
    {
      editingSaleId := Some(historicalSales[i].id);
      editingProducts := historicalSales[i].products;
    }

    method CancelEditing()
      requires Valid()
      modifies this`editingSaleId, this`editingProducts
      ensures Valid()
      ensures editingSaleId == None && editingProducts == []
    {
      editingSaleId, editingProducts := None, [];
    }

    /** `updateEditingProduct(index, field, value)`: only edit row `index` changes. */
    method UpdateEditingProduct(index: nat, f: SaleField)
      requires Valid() && index < |editingProducts|
      modifies this`editingProducts
      ensures Valid()
      ensures |editingProducts| == |old(editingProducts)|
      ensures editingProducts[index] == UpdateRow(old(editingProducts[index]), f)
      ensures forall k :: 0 <= k < |editingProducts| && k != index ==> editingProducts[k] == old(editingProducts[k])
    {
      editingProducts := editingProducts[index := UpdateRow(editingProducts[index], f)];
    }

    method SelectEditingCategory(index: nat, choice: string)
      requires Valid() && index < |editingProducts|
      modifies this`editingProducts
      ensures Valid()
      ensures editingProducts == old(editingProducts)[index := UpdateRow(old(editingProducts[index]), Category(Trim(choice)))]
    {
      UpdateEditingProduct(index, Category(Trim(choice)));
    }

    /**
     * Saves the edited rows, with no validation, into the document and the
     * history entry with that id, then closes the edit form. An update the
     * store refuses, or one addressed to no document, changes nothing.
     */
    method SaveSaleEdit(saleId: string, storeAccepts: bool)
      requires Valid()
      modifies this`store, this`historicalSales, this`editingSaleId, this`editingProducts
      ensures Valid()
      ensures storeAccepts && HasDoc(old(store), saleId) ==>
        store == UpdateStored(old(store), saleId, old(editingProducts))
        && historicalSales == ReplaceProducts(old(historicalSales), saleId, old(editingProducts))
        && editingSaleId == None && editingProducts == []
      ensures !(storeAccepts && HasDoc(old(store), saleId)) ==>
        store == old(store) && historicalSales == old(historicalSales)
        && editingSaleId == old(editingSaleId) && editingProducts == old(editingProducts)
    {
      if storeAccepts && HasDoc(store, saleId) {
        var oldStore := store;
        store := UpdateStored(store, saleId, editingProducts);
        historicalSales := ReplaceProducts(historicalSales, saleId, editingProducts);
        forall k | 0 <= k < |historicalSales| ensures HasDoc(store, historicalSales[k].id) {
          var j :| 0 <= j < |oldStore| && oldStore[j].docId == historicalSales[k].id;
          assert store[j].docId == historicalSales[k].id;
        }
        editingSaleId, editingProducts := None, [];
      }
    }
  }
}

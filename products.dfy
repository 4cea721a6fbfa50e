/** The product list page (app/view-products/page.jsx): the search, category
    and subcategory filters, the sort, the sort toggle, the "clear filters"
    button and the local removal of a deleted product. */
module Products {
  import opened Wrappers
  import opened Text
  import opened Seqs
  import opened Sorting

  /** A product as the backend sends it. `price` is what `parseFloat` makes of
      the product's price field (`None` for `NaN`); a missing description is
      `None`. */
  datatype Product = Product(
    id: int,
    name: string,
    description: Option<string>,
    category: string,
    subCategory: string,
    price: Option<real>,
    createdAt: string)

  /** The fields the page offers to sort by. */
  datatype SortField = ByName | ByPrice | ByCreatedAt

  /** The five pieces of query state the page keeps. */
  datatype Query = Query(
    searchTerm: string,
    category: string,
    subcategory: string,
    sortBy: SortField,
    sortOrder: Dir)

  /** The state the page starts in and that "clear filters" restores. */
  const DefaultQuery := Query("", "", "", ByName, Asc)

  /* ---------------- display helper ---------------- */

  /** `capitalizeDisplay`: a non-string (`None`) or empty string is returned
      as it is; otherwise the first character is upper-cased and every `_`
      after it becomes a space. */
  function CapitalizeDisplay(s: Option<string>): (r: Option<string>)
    ensures s.None? || s == Some("") ==> r == s
    ensures s.Some? && s.value != "" ==>
      && r.Some? && |r.value| == |s.value|
      && r.value[0] == UpperChar(s.value[0])
      && forall i :: 1 <= i < |s.value| ==> r.value[i] == (if s.value[i] == '_' then ' ' else s.value[i])
  {
    match s
    case None => None
    case Some(t) => if t == "" then s else Some([UpperChar(t[0])] + ReplaceAll(t[1..], '_', ' '))
  }

  /** Displaying a displayed label again changes nothing. */
  lemma CapitalizeDisplayIdempotent(s: Option<string>)
    ensures CapitalizeDisplay(CapitalizeDisplay(s)) == CapitalizeDisplay(s)
  {
    if s.Some? && s.value != "" {
      var r := CapitalizeDisplay(s).value;
      UpperCharIdempotent(s.value[0]);
      assert CapitalizeDisplay(Some(r)).value == r by {
        var rr := CapitalizeDisplay(Some(r)).value;
        assert |rr| == |r|;
        forall i | 0 <= i < |r| ensures rr[i] == r[i] {
          if i > 0 { assert r[i] != '_'; }
        }
      }
    }
  }

  /* ---------------- filter ---------------- */

  /** The search part of the filter: case-insensitive search in the name,
      and in the description when there is a non-empty one. */
  predicate MatchesSearch(p: Product, term: string) {
    || Contains(Lower(p.name), Lower(term))
    || (p.description.Some? && p.description.value != ""
        && Contains(Lower(p.description.value), Lower(term)))
  }

  /** The whole filter callback (lines 280-291). */
  predicate Keep(p: Product, q: Query) {
    && MatchesSearch(p, q.searchTerm)
    && (q.category == "" || p.category == q.category)
    && (q.subcategory == "" || p.subCategory == q.subcategory)
  }

  /* ---------------- sort ---------------- */

  /** The value the comparator compares: the price as a number (`0` when it
      does not parse, `parseFloat(v) || 0`), any other field lower-cased. */
  function SortKey(p: Product, f: SortField): Key {
    match f
    case ByPrice => Num(p.price.GetOr(0.0))
    case ByName => Str(Lower(p.name))
    case ByCreatedAt => Str(Lower(p.createdAt))
  }

  /** The comparator's key for a sort field, as a function on products. */
  function KeyOf(f: SortField): Product -> Key {
    p => SortKey(p, f)
  }

  /** The `.filter(...)` half of the pipeline; it reads only the search term
      and the two category filters of the query. */
  function Filtered(products: seq<Product>, q: Query): seq<Product> {
    var term, cat, sub := q.searchTerm, q.category, q.subcategory;
    Filter(products, p => Keep(p, Query(term, cat, sub, ByName, Asc)))
  }

  /** `filteredAndSortedProducts` */
  function FilterAndSort(products: seq<Product>, q: Query): seq<Product> {
    SortBy(Filtered(products, q), KeyOf(q.sortBy), q.sortOrder)
  }

  /** A product is displayed exactly when it is in the list and passes all
      three parts of the filter. */
  lemma DisplayedIff(products: seq<Product>, q: Query, x: Product)
    ensures x in FilterAndSort(products, q) <==>
      && x in products
      && (|| Contains(Lower(x.name), Lower(q.searchTerm))
          || (x.description.Some? && x.description.value != ""
              && Contains(Lower(x.description.value), Lower(q.searchTerm))))
      && (q.category == "" || x.category == q.category)
      && (q.subcategory == "" || x.subCategory == q.subcategory)
  {
    var kept := Filtered(products, q);
    var shown := FilterAndSort(products, q);
    assert multiset(shown) == multiset(kept);
    assert x in shown <==> x in multiset(shown);
    assert x in kept <==> x in multiset(kept);
    assert x in kept <==> x in products && Keep(x, Query(q.searchTerm, q.category, q.subcategory, ByName, Asc));
  }

  /** Sorting neither adds nor drops a product: the displayed list holds each
      product that passes the filter exactly as often as the full list does,
      and no other product. */
  lemma DisplayedPermutesFiltered(products: seq<Product>, q: Query, x: Product)
    ensures multiset(FilterAndSort(products, q))[x] ==
      if Keep(x, q) then multiset(products)[x] else 0
  {
    var q0 := Query(q.searchTerm, q.category, q.subcategory, ByName, Asc);
    FilterMultiset(products, p => Keep(p, q0), x);
  }

  /** With an empty search and no category or subcategory chosen, every
      product is displayed. */
  lemma EmptyQueryShowsAll(products: seq<Product>, q: Query)
    requires q.searchTerm == "" && q.category == "" && q.subcategory == ""
    ensures multiset(FilterAndSort(products, q)) == multiset(products)
  {
    var q0 := Query(q.searchTerm, q.category, q.subcategory, ByName, Asc);
    forall p | p in products ensures Keep(p, q0) {
      ContainsEmpty(Lower(p.name));
    }
    FilterAll(products, p => Keep(p, q0));
  }

  /** The displayed list is in order: ascending puts the smaller key first,
      descending the larger, where the key is the lower-cased name or
      creation time or the parsed price. */
  lemma DisplayedSorted(products: seq<Product>, q: Query)
    ensures var r := FilterAndSort(products, q);
      forall i, j :: 0 <= i < j < |r| ==>
        if q.sortOrder == Asc then KeyLe(SortKey(r[i], q.sortBy), SortKey(r[j], q.sortBy))
        else KeyLe(SortKey(r[j], q.sortBy), SortKey(r[i], q.sortBy))
  {
    SortBySorted(Filtered(products, q), KeyOf(q.sortBy), q.sortOrder);
  }

  /** When no two different displayed products share a key, the order is
      fully determined, and the descending list is the ascending one
      reversed. */
  lemma DistinctKeysDescendingReversesAscending(products: seq<Product>, q: Query)
    requires KeysIdentify(Filtered(products, q), KeyOf(q.sortBy))
    ensures FilterAndSort(products, q.(sortOrder := Desc)) == Reverse(FilterAndSort(products, q.(sortOrder := Asc)))
  {
    DescendingIsReversedAscending(Filtered(products, q), KeyOf(q.sortBy));
  }

  /* The comparator of lines 304-308 answers 1 or -1, never 0: two products
     with equal keys are each said to come before the other. */

  /** The comparator exactly as written: `aValue > bValue ? 1 : -1` ascending,
      `aValue < bValue ? 1 : -1` descending. */
  function CompareAsWritten(a: Key, b: Key, order: Dir): (r: int)
    ensures r == 1 || r == -1
  {
    if order == Asc then (if KeyLe(b, a) && a != b then 1 else -1)
    else (if KeyLe(a, b) && a != b then 1 else -1)
  }

  /** Two products with the same name: each compares below the other, which
      breaks the comparator contract of `Array.prototype.sort`, so the order
      the browser chooses for them is implementation-defined. */
  lemma CompareAsWrittenInconsistent()
    ensures var a := Product(1, "Mug", None, "", "", Some(5.0), "2025-01-01");
            var b := Product(2, "mug", None, "", "", Some(7.0), "2025-02-01");
            && CompareAsWritten(SortKey(a, ByName), SortKey(b, ByName), Asc) == -1
            && CompareAsWritten(SortKey(b, ByName), SortKey(a, ByName), Asc) == -1
  {
    var a := Product(1, "Mug", None, "", "", Some(5.0), "2025-01-01");
    var b := Product(2, "mug", None, "", "", Some(7.0), "2025-02-01");
    assert Lower("Mug") == "mug";
    assert SortKey(a, ByName) == SortKey(b, ByName);
  }

  /** The comparator as intended: equal keys compare as 0. */
  function Compare(a: Key, b: Key, order: Dir): (c: int)
    ensures a == b <==> c == 0
    ensures a != b ==> c == CompareAsWritten(a, b, order)
  {
    if a == b then 0 else CompareAsWritten(a, b, order)
  }

  /** The corrected comparator is consistent (swapping the arguments negates
      it) and agrees with `Before`, the order `SortBy` sorts by; so the
      model's stable sort yields an order this comparator accepts. */
  lemma CompareConsistent(a: Key, b: Key, order: Dir)
    ensures Compare(a, b, order) == -Compare(b, a, order)
    ensures Compare(a, b, order) <= 0 <==> Before(order, a, b)
  {
    KeyLeTotal(a, b);
    if KeyLe(a, b) && KeyLe(b, a) { KeyLeAntisymmetric(a, b); }
  }

  /* ---------------- the sort select ---------------- */

  /** The names the page uses for the sort fields and directions. */
  function FieldName(f: SortField): string {
    match f
    case ByName => "name"
    case ByPrice => "price"
    case ByCreatedAt => "created_at"
  }

  function DirName(d: Dir): string {
    match d
    case Asc => "asc"
    case Desc => "desc"
  }

  function ParseField(s: string): (r: Option<SortField>)
    ensures r.Some? ==> FieldName(r.value) == s
  {
    if s == "name" then Some(ByName)
    else if s == "price" then Some(ByPrice)
    else if s == "created_at" then Some(ByCreatedAt)
    else None
  }

  function ParseDir(s: string): (r: Option<Dir>)
    ensures r.Some? ==> DirName(r.value) == s
  {
    if s == "asc" then Some(Asc) else if s == "desc" then Some(Desc) else None
  }

  /** The value the sort select shows, `${sortBy}-${sortOrder}`. */
  function SortOptionValue(f: SortField, d: Dir): string {
    FieldName(f) + "-" + DirName(d)
  }

  /** The select's change handler reads a value as `value.split("-")` and
      takes the first two parts as field and direction. */
  function ParseSortOption(v: string): (r: Option<(SortField, Dir)>)
    ensures r.Some? ==>
      && |Split(v, '-')| >= 2
      && FieldName(r.value.0) == Split(v, '-')[0]
      && DirName(r.value.1) == Split(v, '-')[1]
  {
    var parts := Split(v, '-');
    if |parts| < 2 then None
    else match (ParseField(parts[0]), ParseDir(parts[1]))
      case (Some(f), Some(d)) => Some((f, d))
      case _ => None
  }

  /** The six options the select offers, in its order. */
  const SortOptions: seq<(SortField, Dir)> := [
    (ByName, Asc), (ByName, Desc), (ByPrice, Asc), (ByPrice, Desc), (ByCreatedAt, Desc), (ByCreatedAt, Asc)]

  /** Reading back the value the select shows gives the state it was made
      from, so choosing an option sets exactly that field and direction. */
  lemma SortOptionRoundTrip(f: SortField, d: Dir)
    ensures ParseSortOption(SortOptionValue(f, d)) == Some((f, d))
  {
    var parts := [FieldName(f), DirName(d)];
    assert Join(parts, '-') == SortOptionValue(f, d) by {
      assert parts[1..] == [DirName(d)];
    }
    assert '-' !in FieldName(f) && '-' !in DirName(d);
    SplitJoin(parts, '-');
  }

  /** Every option the select offers parses back to the field and direction
      it was rendered from, so the change handler's parse never fails on a
      value the select can produce. */
  lemma SortOptionsParse()
    ensures forall i :: 0 <= i < |SortOptions| ==>
      ParseSortOption(SortOptionValue(SortOptions[i].0, SortOptions[i].1)) == Some(SortOptions[i])
  {
    forall i | 0 <= i < |SortOptions|
      ensures ParseSortOption(SortOptionValue(SortOptions[i].0, SortOptions[i].1)) == Some(SortOptions[i])
    {
      SortOptionRoundTrip(SortOptions[i].0, SortOptions[i].1);
    }
  }

  /* ---------------- the clear button ---------------- */

  /** The Clear button is shown when any of the five values is set
      (lines 455-459): exactly when the query differs from the default. */
  function ShowClear(q: Query): (shown: bool)
    ensures shown <==> q != DefaultQuery
  {
    q.searchTerm != "" || q.category != "" || q.subcategory != ""
    || q.sortBy != ByName || q.sortOrder != Asc
  }

  /* ---------------- local removal after a delete ---------------- */

  /** `products.filter((p) => p.id !== productId)` */
  function WithoutProduct(products: seq<Product>, productId: int): (r: seq<Product>)
    ensures forall p :: p in r <==> p in products && p.id != productId
  {
    Filter(products, (p: Product) => p.id != productId)
  }

  /** After a delete no product with that id is left, every other product
      stays as often as before, and the survivors keep their order
      (removing from a concatenation removes from each part). */
  lemma WithoutProductRemovesExactlyThatId(products: seq<Product>, more: seq<Product>, productId: int, x: Product)
    ensures forall p :: p in WithoutProduct(products, productId) ==> p.id != productId
    ensures x.id != productId ==>
      multiset(WithoutProduct(products, productId))[x] == multiset(products)[x]
    ensures WithoutProduct(products + more, productId) ==
      WithoutProduct(products, productId) + WithoutProduct(more, productId)
  {
    FilterMultiset(products, (p: Product) => p.id != productId, x);
    FilterAppend(products, more, (p: Product) => p.id != productId);
  }

  /** A delete of an id no product has leaves the list as it was. */
  lemma WithoutAbsentProduct(products: seq<Product>, productId: int)
    requires forall p :: p in products ==> p.id != productId
    ensures WithoutProduct(products, productId) == products
  {
    FilterAll(products, (p: Product) => p.id != productId);
  }

  /* ---------------- the page state ---------------- */

  class ProductListPage {
    var products: seq<Product>
    var searchTerm: string
    var selectedCategory: string
    var selectedSubcategory: string
    var sortBy: SortField
    var sortOrder: Dir

    constructor ()
      ensures products == [] && CurrentQuery() == DefaultQuery
    {
      products := [];
      searchTerm, selectedCategory, selectedSubcategory := "", "", "";
      sortBy, sortOrder := ByName, Asc;
    }

    function CurrentQuery(): Query
      reads this
    {
      Query(searchTerm, selectedCategory, selectedSubcategory, sortBy, sortOrder)
    }

    /** The products the page shows, recomputed from the state. */
    function Displayed(): seq<Product>
      reads this
    {
      FilterAndSort(products, CurrentQuery())
    }

    /** `handleSort(field)` */
    method HandleSort(field: SortField)
      modifies this`sortBy, this`sortOrder
      ensures (sortBy, sortOrder) == ToggleSort(old(sortBy), old(sortOrder), field)
    {
      if sortBy == field {
        sortOrder := if sortOrder == Asc then Desc else Asc;
      } else {
        sortBy := field;
        sortOrder := Asc;
      }
    }

    /** The sort select's change handler, for a value of one of its
        options. */
    method HandleSortSelect(value: string)
      requires ParseSortOption(value).Some?
      modifies this`sortBy, this`sortOrder
      ensures (sortBy, sortOrder) == ParseSortOption(value).value
    {
      var parts := Split(value, '-');
      sortBy := ParseField(parts[0]).value;
      sortOrder := ParseDir(parts[1]).value;
    }

    /** `clearFilters()`: afterwards the Clear button is hidden and every
        product is displayed. */
    method ClearFilters()
      modifies this`searchTerm, this`selectedCategory, this`selectedSubcategory, this`sortBy, this`sortOrder
      ensures CurrentQuery() == DefaultQuery
      ensures !ShowClear(CurrentQuery())
      ensures multiset(Displayed()) == multiset(products)
    {
      searchTerm := "";
      selectedCategory := "";
      selectedSubcategory := "";
      sortBy := ByName;
      sortOrder := Asc;
      EmptyQueryShowsAll(products, CurrentQuery());
    }

    /** The list update of `handleDeleteProduct`: `deleted` says whether the
        DELETE request answered with an ok status; a failed request (a non-ok
        status or a network error) leaves the list as it was. */
    method HandleDeleteProduct(productId: int, deleted: bool)
      modifies this`products
      ensures products == if deleted then WithoutProduct(old(products), productId) else old(products)
    {
      if deleted {
        products := WithoutProduct(products, productId);
      }
    }
  }
}

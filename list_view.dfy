/** The list view's derived data: the single-axis filter over `type` and
    `transactionType`, and the sort of a copy by name, price or area.
    `nameLe(a, b)` stands for `a.localeCompare(b) <= 0`. */
module ListView {
  import opened Wrappers
  import opened PropertyRecord
  import Sequences

  /** The filter select's value that keeps everything. */
  const AllFilter: string := "all"

  /** The sort select's values that compare numbers. */
  const ByPrice: string := "price"
  const ByArea: string := "area"
  const ByName: string := "name"

  /** The filter callback: a recognised filter value constrains one field,
      `'all'` and any other value keep the record. */
  predicate Matches(filter: string, p: Property)
  {
    if filter == AllFilter then true
    else if filter == Rent then p.transactionType == Rent
    else if filter == Sale then p.transactionType == Sale
    else if filter == Apartment then p.propertyType == Apartment
    else if filter == House then p.propertyType == House
    else true
  }

  /** `properties.filter(...)`: the matching records, in order, each as often
      as in the input. */
  function FilterProperties(ps: seq<Property>, filter: string): (r: seq<Property>)
    ensures Sequences.IsSubsequence(r, ps)
    ensures forall p :: p in r ==> Matches(filter, p)
    ensures forall p :: multiset(r)[p] == if Matches(filter, p) then multiset(ps)[p] else 0
  {
    Sequences.Filter(ps, p => Matches(filter, p))
  }

  /** `'all'` and any value the select does not offer keep every record. */
  lemma UnconstrainedFilterKeepsAll(ps: seq<Property>, filter: string)
    requires filter == AllFilter || filter !in {Rent, Sale, Apartment, House}
    ensures FilterProperties(ps, filter) == ps
  {
    Sequences.FilterKeepsAll(ps, p => Matches(filter, p));
  }

  /** The transaction filters keep exactly the records of that transaction
      type, the type filters exactly those of that property type. */
  lemma FilterKeepsExactlyMatching(ps: seq<Property>, filter: string, p: Property)
    ensures filter == Rent || filter == Sale ==>
      (p in FilterProperties(ps, filter) <==> p in ps && p.transactionType == filter)
    ensures filter == Apartment || filter == House ==>
      (p in FilterProperties(ps, filter) <==> p in ps && p.propertyType == filter)
  {
    assert p in ps <==> multiset(ps)[p] > 0;
    assert p in FilterProperties(ps, filter) <==> multiset(FilterProperties(ps, filter))[p] > 0;
  }

  /** No record is both a house and an apartment. */
  lemma HouseThenApartmentIsEmpty(ps: seq<Property>)
    ensures FilterProperties(FilterProperties(ps, House), Apartment) == []
  {
    var r := FilterProperties(FilterProperties(ps, House), Apartment);
    assert forall p :: p !in r;
  }

  /** `a.price - b.price <= 0` read as an order: NaN is placed first. */
  predicate NumberLe(a: Option<real>, b: Option<real>)
  {
    a.None? || (b.Some? && a.value <= b.value)
  }

  /** The sort comparator, as "may come before". */
  predicate Precedes(sortBy: string, nameLe: (string, string) -> bool, a: Property, b: Property)
  {
    if sortBy == ByPrice then NumberLe(a.price, b.price)
    else if sortBy == ByArea then NumberLe(a.metrics.area, b.metrics.area)
    else nameLe(a.name, b.name)
  }

  function SortKey(sortBy: string, nameLe: (string, string) -> bool): (Property, Property) -> bool
  {
    (a, b) => Precedes(sortBy, nameLe, a, b)
  }

  /** `[...filtered].sort(comparator)`: a stable sort of a copy. */
  function SortProperties(ps: seq<Property>, sortBy: string, nameLe: (string, string) -> bool): (r: seq<Property>)
    ensures multiset(r) == multiset(ps)
  {
    Sequences.InsertionSort(ps, SortKey(sortBy, nameLe))
  }

  /** The numeric keys are total orders; the name key is one when the string
      comparison is. */
  lemma SortKeyTotal(sortBy: string, nameLe: (string, string) -> bool)
    requires sortBy == ByPrice || sortBy == ByArea || Sequences.Total(nameLe)
    ensures Sequences.Total(SortKey(sortBy, nameLe))
  {
    forall a, b ensures SortKey(sortBy, nameLe)(a, b) || SortKey(sortBy, nameLe)(b, a) {
      if sortBy != ByPrice && sortBy != ByArea {
        assert nameLe(a.name, b.name) || nameLe(b.name, a.name);
      }
    }
  }

  /** Each record of the sorted list may come before its successor. */
  lemma SortedBySortKey(ps: seq<Property>, sortBy: string, nameLe: (string, string) -> bool)
    requires sortBy == ByPrice || sortBy == ByArea || Sequences.Total(nameLe)
    ensures var r := SortProperties(ps, sortBy, nameLe);
      forall i :: 0 <= i < |r| - 1 ==> Precedes(sortBy, nameLe, r[i], r[i + 1])
  {
    SortKeyTotal(sortBy, nameLe);
    Sequences.InsertionSortSorted(ps, SortKey(sortBy, nameLe));
  }

  /** Sorted by price: adjacent prices do not decrease, NaN prices first. */
  lemma SortedByPrice(ps: seq<Property>, nameLe: (string, string) -> bool)
    ensures var r := SortProperties(ps, ByPrice, nameLe);
      forall i :: 0 <= i < |r| - 1 ==>
        (r[i + 1].price.None? ==> r[i].price.None?) &&
        (r[i].price.Some? && r[i + 1].price.Some? ==> r[i].price.value <= r[i + 1].price.value)
  {
    SortedBySortKey(ps, ByPrice, nameLe);
  }

  /** Sorted by area: adjacent areas do not decrease, NaN areas first. */
  lemma SortedByArea(ps: seq<Property>, nameLe: (string, string) -> bool)
    ensures var r := SortProperties(ps, ByArea, nameLe);
      forall i :: 0 <= i < |r| - 1 ==>
        (r[i + 1].metrics.area.None? ==> r[i].metrics.area.None?) &&
        (r[i].metrics.area.Some? && r[i + 1].metrics.area.Some? ==> r[i].metrics.area.value <= r[i + 1].metrics.area.value)
  {
    SortedBySortKey(ps, ByArea, nameLe);
  }

  /** `'name'` and every other value sort by the name comparison. */
  lemma OtherKeysSortByName(ps: seq<Property>, sortBy: string, nameLe: (string, string) -> bool)
    requires sortBy != ByPrice && sortBy != ByArea
    ensures SortProperties(ps, sortBy, nameLe) == SortProperties(ps, ByName, nameLe)
    ensures Sequences.Total(nameLe) ==>
      var r := SortProperties(ps, sortBy, nameLe);
      forall i :: 0 <= i < |r| - 1 ==> nameLe(r[i].name, r[i + 1].name)
  {
    Sequences.InsertionSortAgrees(ps, SortKey(sortBy, nameLe), SortKey(ByName, nameLe));
    if Sequences.Total(nameLe) {
      SortedBySortKey(ps, sortBy, nameLe);
    }
  }

  /** The records the list shows. */
  function DisplayedProperties(ps: seq<Property>, filter: string, sortBy: string, nameLe: (string, string) -> bool): (r: seq<Property>)
    ensures forall p :: multiset(r)[p] == if Matches(filter, p) then multiset(ps)[p] else 0
  {
    SortProperties(FilterProperties(ps, filter), sortBy, nameLe)
  }

  /** The empty-state message shows exactly when no record matches the
      filter. */
  lemma EmptyStateExactlyWhenNoMatch(ps: seq<Property>, filter: string, sortBy: string, nameLe: (string, string) -> bool)
    ensures |DisplayedProperties(ps, filter, sortBy, nameLe)| == 0 <==> forall p :: p in ps ==> !Matches(filter, p)
  {
    var r := DisplayedProperties(ps, filter, sortBy, nameLe);
    if r == [] {
      forall p | p in ps ensures !Matches(filter, p) {
        assert multiset(ps)[p] > 0;
        assert multiset(r)[p] == 0;
      }
    } else {
      assert multiset(r)[r[0]] > 0;
      assert r[0] in ps && Matches(filter, r[0]) by {
        assert multiset(ps)[r[0]] > 0;
      }
    }
  }
}

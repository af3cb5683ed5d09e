/** The leads analysis chart's search: a free-text search term and the
    seven advanced filters, applied one after another as a chain of
    conditional filters, each narrowing the previous result. */
module LeadsAnalysis {
  import opened Optional
  import opened Seqs
  import opened Text
  import opened AdvancedFilters
  import Pipeline

  /** A chart data point. Text fields may be missing; `caption` is the `label` field and `date` is the text
      handed to `new Date`. */
  datatype ChartItem = ChartItem(
    caption: Option<string>,
    leadName: Option<string>,
    employee: Option<string>,
    stage: Option<string>,
    date: Option<string>,
    value: real)

  /** What the chain reads: the search term, the advanced filters, and the
      two parsers it calls, `new Date` (to a millisecond value, `None` for an
      invalid date) and `parseFloat` (`None` for NaN). */
  datatype Criteria = Criteria(
    term: string,
    filters: Filters,
    parseDate: string -> Option<int>,
    parseNumber: string -> Option<real>)

  /** `field?.toLowerCase().includes(text.toLowerCase())`: a missing field
      never matches. */
  predicate FieldContains(field: Option<string>, text: string) {
    field.Some? && Contains(Lower(field.value), Lower(text))
  }

  predicate MatchesSearch(x: ChartItem, term: string) {
    FieldContains(x.caption, term) || FieldContains(x.leadName, term) || FieldContains(x.employee, term)
  }

  /** `new Date(item.date)`: a missing date is an invalid one. */
  function ItemDate(x: ChartItem, c: Criteria): Option<int> {
    if x.date.Some? then c.parseDate(x.date.value) else None
  }

  /** `itemDate >= fromDate`; an invalid date on either side compares false. */
  predicate OnOrAfter(d: Option<int>, bound: Option<int>) {
    d.Some? && bound.Some? && d.value >= bound.value
  }

  predicate OnOrBefore(d: Option<int>, bound: Option<int>) {
    d.Some? && bound.Some? && d.value <= bound.value
  }

  /** The eight links of the chain, in source order. */
  const Links: nat := 8

  /** Whether link `n` runs: its field is non-empty. */
  predicate Active(n: nat, c: Criteria) {
    match n
    case 0 => c.term != ""
    case 1 => c.filters.employee != ""
    case 2 => c.filters.stage != ""
    case 3 => c.filters.leadName != ""
    case 4 => c.filters.dateFrom != ""
    case 5 => c.filters.dateTo != ""
    case 6 => c.filters.valueMin != ""
    case 7 => c.filters.valueMax != ""
    case _ => false
  }

  /** What link `n` keeps when it runs. */
  predicate Condition(n: nat, x: ChartItem, c: Criteria) {
    match n
    case 0 => MatchesSearch(x, c.term)
    case 1 => x.employee == Some(c.filters.employee)
    case 2 => x.stage == Some(c.filters.stage)
    case 3 => FieldContains(x.leadName, c.filters.leadName)
    case 4 => OnOrAfter(ItemDate(x, c), c.parseDate(c.filters.dateFrom))
    case 5 => OnOrBefore(ItemDate(x, c), c.parseDate(c.filters.dateTo))
    case 6 => Pipeline.AtLeast(x.value, c.parseNumber(c.filters.valueMin))
    case 7 => Pipeline.AtMost(x.value, c.parseNumber(c.filters.valueMax))
    case _ => true
  }

  /** Item `x` gets past link `n`: the link does not run, or it keeps `x`. */
  predicate Passes(n: nat, x: ChartItem, c: Criteria) {
    !Active(n, c) || Condition(n, x, c)
  }

  /** Item `x` gets past the first `n` links. */
  predicate PassesFirst(n: nat, x: ChartItem, c: Criteria) {
    n == 0 || (PassesFirst(n - 1, x, c) && Passes(n - 1, x, c))
  }

  /** Item `x` gets through the whole chain. */
  predicate Kept(x: ChartItem, c: Criteria) {
    PassesFirst(Links, x, c)
  }

  lemma {:induction false} PassesFirstIff(n: nat, x: ChartItem, c: Criteria)
    ensures PassesFirst(n, x, c) <==> forall m :: 0 <= m < n ==> Passes(m, x, c)
  {
    if n > 0 {
      PassesFirstIff(n - 1, x, c);
    }
  }

  /** The whole chain as one condition: the conjunction of every running
      link's condition. */
  lemma KeptIff(x: ChartItem, c: Criteria)
    ensures Kept(x, c) <==> forall n :: 0 <= n < Links ==> Passes(n, x, c)
  {
    PassesFirstIff(Links, x, c);
  }

  /** The first `n` links, and link `n` alone, as filter predicates. */
  function Upto(n: nat, c: Criteria): ChartItem -> bool {
    (x: ChartItem) => PassesFirst(n, x, c)
  }

  function Link(n: nat, c: Criteria): ChartItem -> bool {
    (x: ChartItem) => Condition(n, x, c)
  }

  /** One more link of the chain: filtering the result of the first `n`
      links by link `n` (when it runs) gives the result of `n + 1` links. */
  lemma ChainLink(raw: seq<ChartItem>, n: nat, c: Criteria, current: seq<ChartItem>)
    requires current == Filter(raw, Upto(n, c))
    ensures Active(n, c) ==> Filter(current, Link(n, c)) == Filter(raw, Upto(n + 1, c))
    ensures !Active(n, c) ==> current == Filter(raw, Upto(n + 1, c))
  {
    if Active(n, c) {
      FilterAnd(raw, Upto(n, c), Link(n, c), Upto(n + 1, c));
    } else {
      FilterCongruent(raw, Upto(n, c), Upto(n + 1, c));
    }
  }

  /** One `if (field) filtered = filtered.filter(...)` step of the chain:
      link `n` narrows the result of the first `n` links when its field is
      non-empty and leaves it alone otherwise. */
  method ApplyLink(raw: seq<ChartItem>, n: nat, c: Criteria, current: seq<ChartItem>)
    returns (next: seq<ChartItem>)
    requires current == Filter(raw, Upto(n, c))
    ensures next == Filter(raw, Upto(n + 1, c))
  {
    ChainLink(raw, n, c, current);
    if Active(n, c) {
      next := Filter(current, Link(n, c));
    } else {
      next := current;
    }
  }

  /** `applyFilters`: the chain of conditional filters, which keeps exactly
      the items that get through every running link, in their input order. */
  method ApplyFilters(raw: seq<ChartItem>, c: Criteria) returns (filtered: seq<ChartItem>)
    ensures filtered == Filter(raw, (x: ChartItem) => Kept(x, c))
  {
    filtered := raw;
    FilterKeepsAll(raw, Upto(0, c));
    filtered := ApplyLink(raw, 0, c, filtered);  // search term over label, lead name and employee
    filtered := ApplyLink(raw, 1, c, filtered);  // employee, exact
    filtered := ApplyLink(raw, 2, c, filtered);  // stage, exact
    filtered := ApplyLink(raw, 3, c, filtered);  // lead name, substring
    filtered := ApplyLink(raw, 4, c, filtered);  // date from
    filtered := ApplyLink(raw, 5, c, filtered);  // date to
    filtered := ApplyLink(raw, 6, c, filtered);  // minimum value
    filtered := ApplyLink(raw, 7, c, filtered);  // maximum value
    FilterCongruent(raw, Upto(Links, c), (x: ChartItem) => Kept(x, c));
  }

  /** The result is an order-preserving subsequence of the input. */
  lemma KeptIsSubsequence(raw: seq<ChartItem>, c: Criteria)
    ensures IsSubsequence(Filter(raw, (x: ChartItem) => Kept(x, c)), raw)
  {
    FilterIsSubsequence(raw, (x: ChartItem) => Kept(x, c));
  }

  /** With no search term and every advanced field empty, nothing is
      removed. */
  lemma NoCriteriaKeepsAll(raw: seq<ChartItem>, c: Criteria)
    requires c.term == "" && c.filters == Cleared
    ensures Filter(raw, (x: ChartItem) => Kept(x, c)) == raw
  {
    forall x ensures Kept(x, c) {
      KeptIff(x, c);
    }
    FilterKeepsAll(raw, (x: ChartItem) => Kept(x, c));
  }

  /** What a kept item satisfies: the search term occurs in its label, lead
      name or employee, up to case; the employee and stage are equal to
      theirs; the value and date bounds hold inclusively; and an item whose
      date is missing or invalid does not pass a date bound. */
  lemma KeptMeans(x: ChartItem, c: Criteria)
    requires Kept(x, c)
    ensures c.term != "" ==> MatchesSearch(x, c.term)
    ensures c.filters.employee != "" ==> x.employee == Some(c.filters.employee)
    ensures c.filters.stage != "" ==> x.stage == Some(c.filters.stage)
    ensures c.filters.leadName != "" ==> FieldContains(x.leadName, c.filters.leadName)
    ensures c.filters.dateFrom != "" ==>
      ItemDate(x, c).Some? && c.parseDate(c.filters.dateFrom).Some?
      && ItemDate(x, c).value >= c.parseDate(c.filters.dateFrom).value
    ensures c.filters.dateTo != "" ==>
      ItemDate(x, c).Some? && c.parseDate(c.filters.dateTo).Some?
      && ItemDate(x, c).value <= c.parseDate(c.filters.dateTo).value
    ensures c.filters.valueMin != "" ==>
      c.parseNumber(c.filters.valueMin).Some? && x.value >= c.parseNumber(c.filters.valueMin).value
    ensures c.filters.valueMax != "" ==>
      c.parseNumber(c.filters.valueMax).Some? && x.value <= c.parseNumber(c.filters.valueMax).value
  {
    KeptIff(x, c);
    assert Passes(0, x, c) && Passes(1, x, c) && Passes(2, x, c) && Passes(3, x, c);
    assert Passes(4, x, c) && Passes(5, x, c) && Passes(6, x, c) && Passes(7, x, c);
  }

  /** Conversely, an item meeting every running condition is kept. */
  lemma KeptWhen(x: ChartItem, c: Criteria)
    requires forall n :: 0 <= n < Links && Active(n, c) ==> Condition(n, x, c)
    ensures Kept(x, c)
  {
    KeptIff(x, c);
  }

  /** An item with none of the three searched fields never matches a
      search term. */
  lemma SearchNeedsAField(x: ChartItem, c: Criteria)
    requires c.term != "" && x.caption.None? && x.leadName.None? && x.employee.None?
    ensures !Kept(x, c)
  {
    KeptIff(x, c);
    assert !Passes(0, x, c);
  }

  /** Any two links commute: applying them in either order keeps the same
      items in the same order. */
  lemma LinksCommute(s: seq<ChartItem>, i: nat, j: nat, c: Criteria)
    ensures Filter(Filter(s, (x: ChartItem) => Passes(i, x, c)), (x: ChartItem) => Passes(j, x, c))
      == Filter(Filter(s, (x: ChartItem) => Passes(j, x, c)), (x: ChartItem) => Passes(i, x, c))
  {
    var both := (x: ChartItem) => Passes(i, x, c) && Passes(j, x, c);
    FilterAnd(s, (x: ChartItem) => Passes(i, x, c), (x: ChartItem) => Passes(j, x, c), both);
    FilterAnd(s, (x: ChartItem) => Passes(j, x, c), (x: ChartItem) => Passes(i, x, c), both);
  }

  /** The chart's search state. */
  datatype SearchState = SearchState(term: string, filters: Filters)

  /** `clearAllFilters`: the search term and all seven fields emptied. */
  function ClearAll(s: SearchState): (r: SearchState)
    ensures r.term == "" && forall k :: Get(r.filters, k) == ""
  {
    SearchState("", Cleared)
  }

  /** After clearing, the chart shows all of its data again. */
  lemma ClearAllShowsEverything(s: SearchState, raw: seq<ChartItem>, pd: string -> Option<int>, pn: string -> Option<real>)
    ensures var r := ClearAll(s);
      Filter(raw, (x: ChartItem) => Kept(x, Criteria(r.term, r.filters, pd, pn))) == raw
  {
    var r := ClearAll(s);
    NoCriteriaKeepsAll(raw, Criteria(r.term, r.filters, pd, pn));
  }
}

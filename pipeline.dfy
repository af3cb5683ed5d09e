/** The pipeline analysis: a conjunctive filter over pipeline items, the
    per-stage aggregate behind the bar and pie charts, and the
    stage-by-employee pivot table. */
module Pipeline {
  import opened Optional
  import opened Seqs
  import opened Text
  import opened AdvancedFilters

  datatype Item = Item(
    date: string,
    employee: string,
    leadName: string,
    stage: string,
    value: real,
    prorated: real)

  /** The fixed stage labels (bar categories, pivot rows). */
  const StageLabels: seq<string> := ["New", "Qualified", "Proposal", "Negotiation", "Closed Won", "Closed Lost"]
  /** The fixed employee labels (pivot columns). */
  const SeriesLabels: seq<string> := ["Osama Sales", "Youssef Hemeda", "Ahmed Ibrahim", "Noura", "Ali"]

  // ---------------------------------------------------------------- filter

  /** JavaScript `a <= b` on strings: lexicographic character order. */
  predicate LexLe(a: string, b: string) {
    a == [] || (b != [] && (a[0] < b[0] || (a[0] == b[0] && LexLe(a[1..], b[1..]))))
  }

  lemma {:induction false} LexLeRefl(a: string)
    ensures LexLe(a, a)
  {
    if a != [] {
      LexLeRefl(a[1..]);
    }
  }

  lemma {:induction false} LexLeAntisym(a: string, b: string)
    requires LexLe(a, b) && LexLe(b, a)
    ensures a == b
  {
    if a != [] && b != [] {
      LexLeAntisym(a[1..], b[1..]);
      assert a == [a[0]] + a[1..];
      assert b == [b[0]] + b[1..];
    }
  }

  lemma {:induction false} LexLeTrans(a: string, b: string, c: string)
    requires LexLe(a, b) && LexLe(b, c)
    ensures LexLe(a, c)
  {
    if a != [] && b != [] && c != [] && a[0] == b[0] == c[0] {
      LexLeTrans(a[1..], b[1..], c[1..]);
    }
  }

  lemma {:induction false} LexLeTotal(a: string, b: string)
    ensures LexLe(a, b) || LexLe(b, a)
  {
    if a != [] && b != [] && a[0] == b[0] {
      LexLeTotal(a[1..], b[1..]);
    }
  }

  /** `item.value >= parseFloat(bound)`; a bound that parses to NaN
      (`None`) makes the comparison false. */
  predicate AtLeast(v: real, bound: Option<real>) {
    bound.Some? && v >= bound.value
  }

  predicate AtMost(v: real, bound: Option<real>) {
    bound.Some? && v <= bound.value
  }

  /** The quick search: a case-insensitive substring of the stage or of the
      lead name. */
  predicate MatchesQuery(item: Item, query: string) {
    query == ""
    || Contains(Lower(item.stage), Lower(query))
    || Contains(Lower(item.leadName), Lower(query))
  }

  /** The seven advanced filters; an empty field imposes nothing. */
  predicate MatchesFilters(item: Item, f: Filters, parse: string -> Option<real>) {
    (f.employee == "" || item.employee == f.employee)
    && (f.stage == "" || item.stage == f.stage)
    && (f.leadName == "" || Contains(Lower(item.leadName), Lower(f.leadName)))
    && (f.valueMin == "" || AtLeast(item.value, parse(f.valueMin)))
    && (f.valueMax == "" || AtMost(item.value, parse(f.valueMax)))
    && (f.dateFrom == "" || LexLe(f.dateFrom, item.date))
    && (f.dateTo == "" || LexLe(item.date, f.dateTo))
  }

  predicate Matches(item: Item, query: string, f: Filters, parse: string -> Option<real>) {
    MatchesQuery(item, query) && MatchesFilters(item, f, parse)
  }

  /** The filtered data: exactly the items meeting all eight conditions, in
      their input order. `parse` stands for `parseFloat`. */
  function FilteredData(data: seq<Item>, query: string, f: Filters, parse: string -> Option<real>): (r: seq<Item>)
    ensures IsSubsequence(r, data)
    ensures forall i :: 0 <= i < |r| ==> Matches(r[i], query, f, parse)
    ensures forall x :: x in data && Matches(x, query, f, parse) ==> x in r
    ensures forall x :: Matches(x, query, f, parse) ==> multiset(r)[x] == multiset(data)[x]
  {
    FilterIsSubsequence(data, (x: Item) => Matches(x, query, f, parse));
    FilterMultiset(data, (x: Item) => Matches(x, query, f, parse));
    Filter(data, (x: Item) => Matches(x, query, f, parse))
  }

  /** No query and no advanced filter: the data comes back unchanged. */
  lemma FilteredDataUnfiltered(data: seq<Item>, parse: string -> Option<real>)
    ensures FilteredData(data, "", Cleared, parse) == data
  {
    FilterKeepsAll(data, (x: Item) => Matches(x, "", Cleared, parse));
  }

  /** Each kept item meets every set condition: exact employee and stage,
      case-insensitive lead-name substring, inclusive value and date
      bounds. */
  lemma FilteredDataKept(data: seq<Item>, query: string, f: Filters, parse: string -> Option<real>, i: int)
    requires 0 <= i < |FilteredData(data, query, f, parse)|
    ensures var x := FilteredData(data, query, f, parse)[i];
      && (f.employee != "" ==> x.employee == f.employee)
      && (f.stage != "" ==> x.stage == f.stage)
      && (f.leadName != "" ==> Contains(Lower(x.leadName), Lower(f.leadName)))
      && (f.valueMin != "" ==> parse(f.valueMin).Some? && parse(f.valueMin).value <= x.value)
      && (f.valueMax != "" ==> parse(f.valueMax).Some? && x.value <= parse(f.valueMax).value)
      && (f.dateFrom != "" ==> LexLe(f.dateFrom, x.date))
      && (f.dateTo != "" ==> LexLe(x.date, f.dateTo))
      && (query != "" ==> Contains(Lower(x.stage), Lower(query)) || Contains(Lower(x.leadName), Lower(query)))
  {
  }

  /** The bounds are inclusive: an item sitting exactly on a value bound or
      a date bound passes that filter. */
  lemma BoundsInclusive(x: Item, s: string, parse: string -> Option<real>)
    requires s != "" && parse(s) == Some(x.value)
    ensures Matches(x, "", Cleared.(valueMin := s), parse)
    ensures Matches(x, "", Cleared.(valueMax := s), parse)
    ensures x.date != "" ==> Matches(x, "", Cleared.(dateFrom := x.date), parse)
    ensures x.date != "" ==> Matches(x, "", Cleared.(dateTo := x.date), parse)
  {
    LexLeRefl(x.date);
  }

  /** A value bound that is set but does not parse as a number excludes
      every item. */
  lemma UnparsableValueBoundExcludesAll(data: seq<Item>, query: string, f: Filters, parse: string -> Option<real>)
    requires (f.valueMin != "" && parse(f.valueMin).None?) || (f.valueMax != "" && parse(f.valueMax).None?)
    ensures FilteredData(data, query, f, parse) == []
  {
    FilterNone(data, (x: Item) => Matches(x, query, f, parse));
  }

  // ------------------------------------------------------------ aggregation

  datatype Measure = CountMeasure | ValueMeasure | ProratedMeasure
  datatype Aggregator = Sum | Avg | Min | Max

  /** A JavaScript number as the reductions can produce it: finite, or one
      of the two infinities the min/max seeds introduce. */
  datatype Ext = NegInf | Fin(r: real) | PosInf

  function MeasureOf(item: Item, m: Measure): real {
    match m
    case CountMeasure => 1.0
    case ValueMeasure => item.value
    case ProratedMeasure => item.prorated
  }

  /** The initial accumulator: +Infinity for min, -Infinity for max, else 0. */
  function Seed(agg: Aggregator): Ext {
    match agg
    case Min => PosInf
    case Max => NegInf
    case _ => Fin(0.0)
  }

  /** One reduction step, `sum + v`, `Math.min(sum, v)` or `Math.max(sum, v)`. */
  function Step(acc: Ext, v: real, agg: Aggregator): Ext {
    match agg
    case Min =>
      (match acc
       case PosInf => Fin(v)
       case NegInf => NegInf
       case Fin(x) => Fin(if x <= v then x else v))
    case Max =>
      (match acc
       case NegInf => Fin(v)
       case PosInf => PosInf
       case Fin(x) => Fin(if x >= v then x else v))
    case _ =>
      (match acc
       case Fin(x) => Fin(x + v)
       case _ => acc)
  }

  /** `items.reduce(step, acc)`, left to right. */
  function Reduce(items: seq<Item>, m: Measure, agg: Aggregator, acc: Ext): Ext
    decreases |items|
  {
    if items == [] then acc else Reduce(items[1..], m, agg, Step(acc, MeasureOf(items[0], m), agg))
  }

  /** Reference definition: the plain sum of the measure. */
  function Total(items: seq<Item>, m: Measure): real {
    if items == [] then 0.0 else MeasureOf(items[0], m) + Total(items[1..], m)
  }

  lemma {:induction false} TotalCount(items: seq<Item>)
    ensures Total(items, CountMeasure) == |items| as real
  {
    if items != [] {
      TotalCount(items[1..]);
    }
  }

  /** Sum and avg reduce to the seed plus the total. */
  lemma {:induction false} ReduceAdditive(items: seq<Item>, m: Measure, agg: Aggregator, a: real)
    requires agg == Sum || agg == Avg
    ensures Reduce(items, m, agg, Fin(a)) == Fin(a + Total(items, m))
  {
    if items != [] {
      ReduceAdditive(items[1..], m, agg, a + MeasureOf(items[0], m));
    }
  }

  /** Min reduces to a finite value below the accumulator and every item,
      attained by the accumulator or by some item; it stays +Infinity only
      for an empty list. */
  lemma {:induction false} ReduceMin(items: seq<Item>, m: Measure, acc: Ext)
    requires acc != NegInf
    ensures Reduce(items, m, Min, acc) != NegInf
    ensures Reduce(items, m, Min, acc) == PosInf <==> acc == PosInf && items == []
    ensures var res := Reduce(items, m, Min, acc);
      res.Fin? ==>
        && (forall j :: 0 <= j < |items| ==> res.r <= MeasureOf(items[j], m))
        && (acc.Fin? ==> res.r <= acc.r)
        && ((acc.Fin? && res.r == acc.r) || exists j :: 0 <= j < |items| && res.r == MeasureOf(items[j], m))
  {
    if items != [] {
      var acc' := Step(acc, MeasureOf(items[0], m), Min);
      ReduceMin(items[1..], m, acc');
      var res := Reduce(items, m, Min, acc);
      assert res == Reduce(items[1..], m, Min, acc');
      forall j | 1 <= j < |items| ensures res.r <= MeasureOf(items[j], m) {
        assert items[j] == items[1..][j - 1];
      }
      if res.r != acc'.r {
        var j :| 0 <= j < |items[1..]| && res.r == MeasureOf(items[1..][j], m);
        assert res.r == MeasureOf(items[j + 1], m);
      }
    }
  }

  /** The mirror image of `ReduceMin` for max. */
  lemma {:induction false} ReduceMax(items: seq<Item>, m: Measure, acc: Ext)
    requires acc != PosInf
    ensures Reduce(items, m, Max, acc) != PosInf
    ensures Reduce(items, m, Max, acc) == NegInf <==> acc == NegInf && items == []
    ensures var res := Reduce(items, m, Max, acc);
      res.Fin? ==>
        && (forall j :: 0 <= j < |items| ==> MeasureOf(items[j], m) <= res.r)
        && (acc.Fin? ==> acc.r <= res.r)
        && ((acc.Fin? && res.r == acc.r) || exists j :: 0 <= j < |items| && res.r == MeasureOf(items[j], m))
  {
    if items != [] {
      var acc' := Step(acc, MeasureOf(items[0], m), Max);
      ReduceMax(items[1..], m, acc');
      var res := Reduce(items, m, Max, acc);
      assert res == Reduce(items[1..], m, Max, acc');
      forall j | 1 <= j < |items| ensures MeasureOf(items[j], m) <= res.r {
        assert items[j] == items[1..][j - 1];
      }
      if res.r != acc'.r {
        var j :| 0 <= j < |items[1..]| && res.r == MeasureOf(items[1..][j], m);
        assert res.r == MeasureOf(items[j + 1], m);
      }
    }
  }

  /** The reduction from the seed is finite unless it is min or max over an
      empty list. */
  lemma ReduceFinite(items: seq<Item>, m: Measure, agg: Aggregator)
    requires agg == Sum || agg == Avg || items != []
    ensures Reduce(items, m, agg, Seed(agg)).Fin?
  {
    match agg
    case Sum => ReduceAdditive(items, m, agg, 0.0);
    case Avg => ReduceAdditive(items, m, agg, 0.0);
    case Min => ReduceMin(items, m, PosInf);
    case Max => ReduceMax(items, m, NegInf);
  }

  /** The items of one stage. */
  function Group(data: seq<Item>, name: string): seq<Item> {
    Filter(data, (it: Item) => it.stage == name)
  }

  /** The bar value of one stage: the reduction from the seed, divided by
      the group size for avg (0 for an empty group). */
  function StageAggregate(filtered: seq<Item>, name: string, m: Measure, agg: Aggregator): Ext {
    var g := Group(filtered, name);
    if agg == Avg then
      ReduceFinite(g, m, agg);
      if |g| > 0 then Fin(Reduce(g, m, agg, Seed(agg)).r / |g| as real) else Fin(0.0)
    else
      Reduce(g, m, agg, Seed(agg))
  }

  /** Fills one entry per name, then rewrites it for avg. */
  method AggregatedData(filtered: seq<Item>, labels: seq<string>, m: Measure, agg: Aggregator)
    returns (result: map<string, Ext>)
    ensures result.Keys == set n | n in labels
    ensures forall n :: n in labels ==> result[n] == StageAggregate(filtered, n, m, agg)
  {
    result := map[];
    for i := 0 to |labels|
      invariant result.Keys == set n | n in labels[..i]
      invariant forall n :: n in labels[..i] ==> result[n] == StageAggregate(filtered, n, m, agg)
    {
      var name := labels[i];
      var group := Filter(filtered, (it: Item) => it.stage == name);
      result := result[name := Reduce(group, m, agg, Seed(agg))];
      if agg == Avg {
        var count := |Filter(filtered, (it: Item) => it.stage == name)|;
        ReduceFinite(group, m, agg);
        result := result[name := if count > 0 then Fin(result[name].r / count as real) else Fin(0.0)];
      }
      assert labels[..i + 1] == labels[..i] + [name];
    }
    assert labels[..|labels|] == labels;
  }

  /** Count with sum (or avg's running sum) gives the number of filtered
      items in the stage; an empty stage gives 0 for sum and avg and keeps
      the infinite seed for min and max. */
  lemma StageCountAndEmpty(filtered: seq<Item>, name: string, m: Measure, agg: Aggregator)
    ensures StageAggregate(filtered, name, CountMeasure, Sum) == Fin(Count(filtered, (it: Item) => it.stage == name) as real)
    ensures Group(filtered, name) == [] ==>
      StageAggregate(filtered, name, m, agg) == (if agg == Min then PosInf else if agg == Max then NegInf else Fin(0.0))
  {
    var g := Group(filtered, name);
    ReduceAdditive(g, CountMeasure, Sum, 0.0);
    TotalCount(g);
  }

  /** Sum is the group total; avg is the group mean (0 for an empty
      group), so avg times the group size is the group sum. */
  lemma StageSumAvg(filtered: seq<Item>, name: string, m: Measure)
    ensures StageAggregate(filtered, name, m, Sum) == Fin(Total(Group(filtered, name), m))
    ensures Group(filtered, name) != [] ==>
      StageAggregate(filtered, name, m, Avg) == Fin(Total(Group(filtered, name), m) / |Group(filtered, name)| as real)
  {
    var g := Group(filtered, name);
    ReduceAdditive(g, m, Avg, 0.0);
    ReduceAdditive(g, m, Sum, 0.0);
  }

  /** For a non-empty stage, min and max are finite, attained by a member of
      the group, and bound every member. */
  lemma StageMinMax(filtered: seq<Item>, name: string, m: Measure)
    requires Group(filtered, name) != []
    ensures var g, lo := Group(filtered, name), StageAggregate(filtered, name, m, Min);
      lo.Fin?
      && (exists j :: 0 <= j < |g| && lo.r == MeasureOf(g[j], m))
      && (forall j :: 0 <= j < |g| ==> lo.r <= MeasureOf(g[j], m))
    ensures var g, hi := Group(filtered, name), StageAggregate(filtered, name, m, Max);
      hi.Fin?
      && (exists j :: 0 <= j < |g| && hi.r == MeasureOf(g[j], m))
      && (forall j :: 0 <= j < |g| ==> MeasureOf(g[j], m) <= hi.r)
  {
    var g := Group(filtered, name);
    ReduceMin(g, m, PosInf);
    ReduceMax(g, m, NegInf);
  }

  // ------------------------------------------------------------------ pivot

  /** The items of one (stage, employee) cell. */
  function CellItems(filtered: seq<Item>, stage: string, employee: string): seq<Item> {
    Filter(filtered, (it: Item) => it.stage == stage && it.employee == employee)
  }

  /** One pivot cell: avg divides by the cell size, and an empty cell is 0
      for min and max instead of the infinite seed. */
  function PivotCell(filtered: seq<Item>, stage: string, employee: string, m: Measure, agg: Aggregator): real {
    var items := CellItems(filtered, stage, employee);
    if items == [] && (agg == Min || agg == Max) then 0.0
    else
      ReduceFinite(items, m, agg);
      var v := Reduce(items, m, agg, Seed(agg)).r;
      if agg == Avg && |items| > 0 then v / |items| as real else v
  }

  /** `seriesLabels.map(employee => cell)`. */
  function RowValues(filtered: seq<Item>, stage: string, series: seq<string>, m: Measure, agg: Aggregator): (vs: seq<real>)
    ensures |vs| == |series|
  {
    if series == [] then []
    else [PivotCell(filtered, stage, series[0], m, agg)] + RowValues(filtered, stage, series[1..], m, agg)
  }

  datatype PivotRow = PivotRow(stage: string, values: seq<real>, total: real)

  /** `labels.map(stage => {stage, values, total})`. */
  function PivotRows(filtered: seq<Item>, labels: seq<string>, series: seq<string>, m: Measure, agg: Aggregator): (rows: seq<PivotRow>)
    ensures |rows| == |labels|
    ensures forall i :: 0 <= i < |rows| ==>
      rows[i].stage == labels[i] && |rows[i].values| == |series| && rows[i].total == SumReals(rows[i].values)
  {
    if labels == [] then []
    else
      var values := RowValues(filtered, labels[0], series, m, agg);
      [PivotRow(labels[0], values, SumReals(values))] + PivotRows(filtered, labels[1..], series, m, agg)
  }

  /** The bar chart keeps the infinite seed for an empty stage while the
      pivot shows 0 in each of its cells. */
  lemma EmptyStageSeedVersusPivot(filtered: seq<Item>, stage: string, employee: string, m: Measure)
    requires Group(filtered, stage) == []
    ensures StageAggregate(filtered, stage, m, Min) == PosInf
    ensures StageAggregate(filtered, stage, m, Max) == NegInf
    ensures PivotCell(filtered, stage, employee, m, Min) == 0.0
    ensures PivotCell(filtered, stage, employee, m, Max) == 0.0
  {
    assert forall x :: x in filtered ==> x.stage != stage;
    FilterNone(filtered, (it: Item) => it.stage == stage && it.employee == employee);
  }

  /** A sum cell is the cell total and a non-empty avg cell is the cell
      mean. */
  lemma PivotCellSumAvg(filtered: seq<Item>, stage: string, employee: string, m: Measure)
    ensures PivotCell(filtered, stage, employee, m, Sum) == Total(CellItems(filtered, stage, employee), m)
    ensures CellItems(filtered, stage, employee) != [] ==>
      PivotCell(filtered, stage, employee, m, Avg)
        == Total(CellItems(filtered, stage, employee), m) / |CellItems(filtered, stage, employee)| as real
  {
    var items := CellItems(filtered, stage, employee);
    ReduceAdditive(items, m, Avg, 0.0);
    ReduceAdditive(items, m, Sum, 0.0);
  }

  /** A count/sum cell is the number of items of that stage and employee. */
  lemma PivotCellCount(filtered: seq<Item>, stage: string, employee: string)
    ensures PivotCell(filtered, stage, employee, CountMeasure, Sum)
      == CountKey(Group(filtered, stage), (it: Item) => it.employee, employee) as real
  {
    var items := CellItems(filtered, stage, employee);
    ReduceAdditive(items, CountMeasure, Sum, 0.0);
    TotalCount(items);
    var byEmployee := (it: Item) => it.employee == employee;
    FilterAnd(filtered, (it: Item) => it.stage == stage, byEmployee,
      (it: Item) => it.stage == stage && it.employee == employee);
    CountKeyFilter(Group(filtered, stage), (it: Item) => it.employee, employee, byEmployee);
  }

  lemma {:induction false} RowValuesCount(filtered: seq<Item>, stage: string, series: seq<string>)
    ensures SumReals(RowValues(filtered, stage, series, CountMeasure, Sum))
      == SumCounts(Group(filtered, stage), (it: Item) => it.employee, series) as real
  {
    if series != [] {
      PivotCellCount(filtered, stage, series[0]);
      RowValuesCount(filtered, stage, series[1..]);
    }
  }

  /** With count/sum and distinct employee labels, a row total is the number
      of filtered items of that stage handled by one of the listed
      employees. */
  lemma PivotCountTotal(filtered: seq<Item>, labels: seq<string>, series: seq<string>, i: int)
    requires Distinct(series) && 0 <= i < |labels|
    ensures PivotRows(filtered, labels, series, CountMeasure, Sum)[i].total
      == |Filter(Group(filtered, labels[i]), (it: Item) => it.employee in series)| as real
  {
    PivotRowsAt(filtered, labels, series, CountMeasure, Sum, i);
    RowValuesCount(filtered, labels[i], series);
    SumCountsExact(Group(filtered, labels[i]), (it: Item) => it.employee, series, (it: Item) => it.employee in series);
  }

  lemma {:induction false} PivotRowsAt(filtered: seq<Item>, labels: seq<string>, series: seq<string>, m: Measure, agg: Aggregator, i: int)
    requires 0 <= i < |labels|
    ensures PivotRows(filtered, labels, series, m, agg)[i].values == RowValues(filtered, labels[i], series, m, agg)
  {
    if i > 0 {
      PivotRowsAt(filtered, labels[1..], series, m, agg, i - 1);
      var tail := PivotRows(filtered, labels[1..], series, m, agg);
      assert PivotRows(filtered, labels, series, m, agg)[i] == tail[i - 1];
      assert labels[1..][i - 1] == labels[i];
    }
  }
}

/** The seven-field advanced-search record shared by the pipeline analysis
    and the leads analysis chart, and the record replacements the two
    components perform on it. Every field is a text input; `''` means "not
    set". */
module AdvancedFilters {

  datatype Filters = Filters(
    employee: string,
    dateFrom: string,
    dateTo: string,
    valueMin: string,
    valueMax: string,
    stage: string,
    leadName: string)

  datatype Key = Employee | DateFrom | DateTo | ValueMin | ValueMax | Stage | LeadName

  function Get(f: Filters, k: Key): string {
    match k
    case Employee => f.employee
    case DateFrom => f.dateFrom
    case DateTo => f.dateTo
    case ValueMin => f.valueMin
    case ValueMax => f.valueMax
    case Stage => f.stage
    case LeadName => f.leadName
  }

  /** The state both `clearAllFilters` handlers install. */
  const Cleared: Filters := Filters("", "", "", "", "", "", "")

  lemma ClearedIsBlank(k: Key)
    ensures Get(Cleared, k) == ""
  {
  }

  /** `{...prev, [key]: value}`: one field replaced. */
  function Update(f: Filters, k: Key, v: string): (r: Filters)
    ensures Get(r, k) == v
    ensures forall k' :: k' != k ==> Get(r, k') == Get(f, k')
  {
    match k
    case Employee => f.(employee := v)
    case DateFrom => f.(dateFrom := v)
    case DateTo => f.(dateTo := v)
    case ValueMin => f.(valueMin := v)
    case ValueMax => f.(valueMax := v)
    case Stage => f.(stage := v)
    case LeadName => f.(leadName := v)
  }

  /** Updates of two different fields commute, and writing a field's own
      value back changes nothing. */
  lemma UpdateCommutes(f: Filters, k1: Key, v1: string, k2: Key, v2: string)
    requires k1 != k2
    ensures Update(Update(f, k1, v1), k2, v2) == Update(Update(f, k2, v2), k1, v1)
    ensures Update(f, k1, Get(f, k1)) == f
  {
  }

  /** Exchange the two date bounds. */
  function SwapDates(f: Filters): (r: Filters)
    ensures r.dateFrom == f.dateTo && r.dateTo == f.dateFrom
    ensures forall k :: k != DateFrom && k != DateTo ==> Get(r, k) == Get(f, k)
  {
    f.(dateFrom := f.dateTo, dateTo := f.dateFrom)
  }

  lemma SwapDatesInvolution(f: Filters)
    ensures SwapDates(SwapDates(f)) == f
  {
  }

  /** Empty the two date bounds only. */
  function ClearDateRange(f: Filters): (r: Filters)
    ensures r.dateFrom == "" && r.dateTo == ""
    ensures forall k :: k != DateFrom && k != DateTo ==> Get(r, k) == Get(f, k)
  {
    f.(dateFrom := "", dateTo := "")
  }

  /** Clearing the range is idempotent and makes a swap a no-op. */
  lemma ClearDateRangeAbsorbs(f: Filters)
    ensures ClearDateRange(ClearDateRange(f)) == ClearDateRange(f)
    ensures SwapDates(ClearDateRange(f)) == ClearDateRange(f)
  {
  }
}

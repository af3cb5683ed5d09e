/** The lead list both dashboards count from: the employee selection, the
    employee-and-date filter, the headline statistics and the rounded
    percentages shown on the stage cards. */
module DashboardLeads {
  import opened Optional
  import opened Seqs
  import opened Text
  import opened Leads
  import opened Arith

  /** `(selectedEmployee || selectedManager || '').trim()`: a non-empty
      employee choice wins over the manager choice even when it is blank. */
  function Selection(employee: string, manager: string): string {
    Trim(if employee != "" then employee else manager)
  }

  /** `(l.assignedTo || l.employee || '').trim()`. */
  function Assignee(l: Lead): string {
    Trim(FirstText(l.assignedTo, l.employee))
  }

  predicate MatchesEmployee(l: Lead, sel: string) {
    sel == "" || Assignee(l) == sel
  }

  predicate InRange(l: Lead, from: Option<Moment>, to: Option<Moment>) {
    InDayRange(LastAction(l), from, to)
  }

  predicate Keeps(l: Lead, sel: string, from: Option<Moment>, to: Option<Moment>) {
    MatchesEmployee(l, sel) && InRange(l, from, to)
  }

  /** The dashboard's `allLeads` filter: the leads of the selected employee
      (all leads when nobody is selected) whose last action falls in the
      date range, in their stored order. */
  function FilterLeads(leads: seq<Lead>, sel: string, from: Option<Moment>, to: Option<Moment>): (r: seq<Lead>)
    ensures IsSubsequence(r, leads)
    ensures forall i :: 0 <= i < |r| ==> MatchesEmployee(r[i], sel) && InRange(r[i], from, to)
    ensures forall l :: l in leads && MatchesEmployee(l, sel) && InRange(l, from, to) ==> l in r
    ensures forall l :: MatchesEmployee(l, sel) && InRange(l, from, to) ==> multiset(r)[l] == multiset(leads)[l]
  {
    FilterIsSubsequence(leads, (l: Lead) => Keeps(l, sel, from, to));
    FilterMultiset(leads, (l: Lead) => Keeps(l, sel, from, to));
    Filter(leads, (l: Lead) => Keeps(l, sel, from, to))
  }

  /** The combined filter is the employee filter followed by the date filter,
      and equally the date filter followed by the employee filter. */
  lemma FilterLeadsSplits(leads: seq<Lead>, sel: string, from: Option<Moment>, to: Option<Moment>)
    ensures FilterLeads(leads, sel, from, to)
      == Filter(Filter(leads, (l: Lead) => MatchesEmployee(l, sel)), (l: Lead) => InRange(l, from, to))
    ensures FilterLeads(leads, sel, from, to)
      == Filter(Filter(leads, (l: Lead) => InRange(l, from, to)), (l: Lead) => MatchesEmployee(l, sel))
  {
    FilterAnd(leads, (l: Lead) => MatchesEmployee(l, sel), (l: Lead) => InRange(l, from, to),
      (l: Lead) => Keeps(l, sel, from, to));
    FilterAnd(leads, (l: Lead) => InRange(l, from, to), (l: Lead) => MatchesEmployee(l, sel),
      (l: Lead) => Keeps(l, sel, from, to));
  }

  /** With no employee and no truthy date bound, every lead is counted. */
  lemma FilterLeadsUnconstrained(leads: seq<Lead>, from: Option<Moment>, to: Option<Moment>)
    requires !IsTruthy(from) && !IsTruthy(to)
    ensures FilterLeads(leads, "", from, to) == leads
  {
    FilterKeepsAll(leads, (l: Lead) => Keeps(l, "", from, to));
  }

  /** A blank-but-non-empty employee choice trims to nothing and hides the
      manager choice: no employee filter applies at all. */
  lemma BlankEmployeeHidesManager(employee: string, manager: string)
    requires employee != [] && forall i :: 0 <= i < |employee| ==> IsSpace(employee[i])
    ensures Selection(employee, manager) == ""
    ensures forall l :: MatchesEmployee(l, Selection(employee, manager))
  {
    TrimBlank(employee);
  }

  /** The selection never starts or ends with whitespace, so an assignee
      padded with spaces still matches its trimmed selection. */
  lemma SelectionMatchesPaddedAssignee(l: Lead, employee: string)
    requires employee != ""
    requires FirstText(l.assignedTo, l.employee) == "  " + employee + " "
    requires Trim(employee) == employee
    ensures Assignee(l) == Trim(employee)
    ensures MatchesEmployee(l, Selection(employee, ""))
  {
    TrimPadded(employee);
  }

  predicate IsNew(l: Lead) {
    l.stage == Some("new") || l.status == Some("new")
  }

  predicate IsPending(l: Lead) {
    l.stage == Some("in-progress") || l.status == Some("in-progress")
  }

  predicate IsColdCall(l: Lead) {
    l.source == Some("direct") || l.source == Some("cold-call")
  }

  datatype LeadsStats = LeadsStats(total: nat, newLeads: nat, duplicate: nat, pending: nat, coldCall: nat)

  /** `leadsStats`: the size of the list and how many of its leads are new,
      duplicates, in progress, and cold calls. */
  function Stats(leads: seq<Lead>): (s: LeadsStats)
    ensures s.total == |leads|
    ensures s.newLeads <= s.total && s.duplicate <= s.total && s.pending <= s.total && s.coldCall <= s.total
    ensures s.newLeads == |Filter(leads, IsNew)| && s.duplicate == |Filter(leads, (l: Lead) => l.isDuplicate)|
    ensures s.pending == |Filter(leads, IsPending)| && s.coldCall == |Filter(leads, IsColdCall)|
  {
    LeadsStats(|leads|, Count(leads, IsNew), Count(leads, (l: Lead) => l.isDuplicate),
      Count(leads, IsPending), Count(leads, IsColdCall))
  }

  function AddStats(a: LeadsStats, b: LeadsStats): LeadsStats {
    LeadsStats(a.total + b.total, a.newLeads + b.newLeads, a.duplicate + b.duplicate, a.pending + b.pending, a.coldCall + b.coldCall)
  }

  /** The statistics of two lists put together are the sums of theirs. */
  lemma StatsAdditive(a: seq<Lead>, b: seq<Lead>)
    ensures Stats(a + b) == AddStats(Stats(a), Stats(b))
  {
    FilterAppend(a, b, IsNew);
    FilterAppend(a, b, (l: Lead) => l.isDuplicate);
    FilterAppend(a, b, IsPending);
    FilterAppend(a, b, IsColdCall);
  }

  /** A lead cannot be new and in progress under the same field, so when
      every lead keeps stage and status equal the two counts share nothing. */
  lemma NewAndPendingDisjoint(leads: seq<Lead>)
    requires forall i :: 0 <= i < |leads| ==> leads[i].stage == leads[i].status
    ensures Stats(leads).newLeads + Stats(leads).pending <= |leads|
  {
    var both := (l: Lead) => IsNew(l) || IsPending(l);
    if leads != [] {
      NewAndPendingDisjoint(leads[1..]);
      assert Count(leads, IsNew) == (if IsNew(leads[0]) then 1 else 0) + Count(leads[1..], IsNew);
      assert Count(leads, IsPending) == (if IsPending(leads[0]) then 1 else 0) + Count(leads[1..], IsPending);
      assert !(IsNew(leads[0]) && IsPending(leads[0]));
    }
  }

  /** `Math.round(count / total * 100)` when `total > 0`, else 0: the
      percentage rounded to the nearest integer, halves up. */
  function Percent(count: nat, total: nat): (p: nat)
    ensures total == 0 ==> p == 0
    ensures total > 0 ==> 2 * total * p <= 200 * count + total < 2 * total * p + 2 * total
    ensures count <= total ==> p <= 100
  {
    if total > 0 then
      var q := (200 * count + total) / (2 * total);
      DivBounds(200 * count + total, 2 * total);
      assert count <= total ==> q <= 100 by {
        if count <= total {
          assert (2 * total) * q <= 200 * count + total;
          MulMono(200, count, total);
          assert (2 * total) * q < (2 * total) * 101;
          MulCancel(2 * total, q, 101);
        }
      }
      q
    else 0
  }

  /** The percentage grows with the count. */
  lemma PercentMonotone(a: nat, b: nat, total: nat)
    requires a <= b
    ensures Percent(a, total) <= Percent(b, total)
  {
    if total > 0 {
      var pa, pb := Percent(a, total), Percent(b, total);
      assert (2 * total) * pa < (2 * total) * (pb + 1);
      MulCancel(2 * total, pa, pb + 1);
    }
  }

  /** The whole list is 100 percent; none of it is 0 percent. */
  lemma PercentEnds(total: nat)
    requires total > 0
    ensures Percent(total, total) == 100 && Percent(0, total) == 0
  {
    var p, z := Percent(total, total), Percent(0, total);
    assert total * 201 < total * (2 * p + 2);
    MulCancel(total, 201, 2 * p + 2);
    assert total * (2 * p) < total * 202;
    MulCancel(total, 2 * p, 202);
    assert total * (2 * z) < total * 2;
    MulCancel(total, 2 * z, 2);
  }

  datatype Card = Card(count: nat, percent: nat)

  /** A quick-number card: how many leads satisfy `p`, and that count as a
      rounded percentage of all leads. */
  function CardOf(leads: seq<Lead>, p: Lead -> bool): (c: Card)
    ensures c.count == |Filter(leads, p)| && c.count <= |leads|
    ensures c.percent <= 100 && (leads == [] ==> c.percent == 0)
    ensures c.percent == Percent(c.count, |leads|)
  {
    var n := Count(leads, p);
    Card(n, Percent(n, |leads|))
  }
}

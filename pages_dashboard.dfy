/** The dashboard under `pages/`: it reads leads from `leadsData` only and
    shows one card per configured stage, counting the leads whose stage (or
    status, when the stage is empty) names it, ignoring case. */
module PagesDashboard {
  import opened Optional
  import opened Seqs
  import opened Text
  import opened Leads
  import opened DashboardLeads
  import opened StageDefs
  import opened QuickNumbers

  /** `allLeads`: the stored array (nothing when the key is missing, does not
      parse or holds something else) through the employee-and-date filter. */
  function AllLeads(stored: StorageValue<Lead>, sel: string, from: Option<Moment>, to: Option<Moment>): (r: seq<Lead>)
    ensures !stored.Array? ==> r == []
    ensures IsSubsequence(r, ReadArray(stored))
    ensures forall i :: 0 <= i < |r| ==> Keeps(r[i], sel, from, to)
  {
    FilterLeads(ReadArray(stored), sel, from, to)
  }

  /** `(l.stage || l.status || '').toLowerCase()`. */
  function StageKey(l: Lead): string {
    Lower(FirstText(l.stage, l.status))
  }

  predicate OnStage(l: Lead, name: string) {
    StageKey(l) == Lower(name)
  }

  /** A non-empty stage decides the card; the status counts only when the
      stage is missing or empty. */
  lemma StagePrecedence(l: Lead, name: string)
    ensures Str(l.stage) != "" ==> (OnStage(l, name) <==> EqualsIgnoreCase(Str(l.stage), name))
    ensures Str(l.stage) == "" ==> (OnStage(l, name) <==> EqualsIgnoreCase(Str(l.status), name))
  {
  }

  /** The card of one stage definition. */
  function StageCard(leads: seq<Lead>, def: StageDef): (c: Card)
    ensures c.count <= |leads| && c.percent <= 100
    ensures c.count == |Filter(leads, (l: Lead) => OnStage(l, def.name))|
  {
    CardOf(leads, (l: Lead) => OnStage(l, def.name))
  }

  /** One card per displayed stage, in order. */
  function StageCards(leads: seq<Lead>, defs: seq<StageDef>, v: View): (cards: seq<Card>)
    ensures |cards| == |DisplayedStages(defs, v)| <= |defs|
    ensures forall i :: 0 <= i < |cards| ==> cards[i] == StageCard(leads, defs[i])
  {
    var shown := DisplayedStages(defs, v);
    seq(|shown|, i requires 0 <= i < |shown| => StageCard(leads, shown[i]))
  }

  function Names(defs: seq<StageDef>): (names: seq<string>)
    ensures |names| == |defs| && forall i :: 0 <= i < |defs| ==> names[i] == defs[i].name
  {
    seq(|defs|, i requires 0 <= i < |defs| => defs[i].name)
  }

  function LowerNames(defs: seq<StageDef>): (names: seq<string>)
    ensures |names| == |defs| && forall i :: 0 <= i < |defs| ==> names[i] == Lower(defs[i].name)
  {
    seq(|defs|, i requires 0 <= i < |defs| => Lower(defs[i].name))
  }

  /** Sum of the counts on the cards of `defs`. */
  function StageCountSum(leads: seq<Lead>, defs: seq<StageDef>): nat {
    if defs == [] then 0 else StageCard(leads, defs[0]).count + StageCountSum(leads, defs[1..])
  }

  lemma {:induction false} StageCountSumIsSumCounts(leads: seq<Lead>, defs: seq<StageDef>)
    ensures StageCountSum(leads, defs) == SumCounts(leads, StageKey, LowerNames(defs))
  {
    if defs != [] {
      var k := Lower(defs[0].name);
      CountKeyFilter(leads, StageKey, k, (l: Lead) => OnStage(l, defs[0].name));
      assert LowerNames(defs)[0] == k;
      assert LowerNames(defs)[1..] == LowerNames(defs[1..]);
      StageCountSumIsSumCounts(leads, defs[1..]);
    }
  }

  /** With stage names distinct up to case, a lead lands on at most one
      card, so the cards together count no more leads than there are. */
  lemma StageCardsTotal(leads: seq<Lead>, defs: seq<StageDef>)
    requires DistinctIgnoreCase(Names(defs))
    ensures StageCountSum(leads, defs) <= |leads|
  {
    StageCountSumIsSumCounts(leads, defs);
    SumCountsBound(leads, StageKey, LowerNames(defs));
  }
}

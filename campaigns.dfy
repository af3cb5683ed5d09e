/** The active-campaigns card: the pie segments (optionally without the
    paused one), the number of active campaigns, the open-rate average of
    the top campaigns, and the status colour and caption. */
module Campaigns {
  import opened Optional
  import opened Seqs
  import opened Arith

  /** A pie segment; a missing value counts as 0 in the total. */
  datatype Segment = Segment(caption: string, value: Option<int>, color: string)

  /** The translations of the three segment captions. */
  datatype Captions = Captions(onTrack: string, atRisk: string, paused: string)

  function DefaultSegments(t: Captions): seq<Segment> {
    [Segment(t.onTrack, Some(12), "#22c55e"), Segment(t.atRisk, Some(5), "#f59e0b"), Segment(t.paused, Some(3), "#ef4444")]
  }

  /** `segments || defaults`: any given list, even an empty one, is used. */
  function AllSegments(segments: Option<seq<Segment>>, t: Captions): (r: seq<Segment>)
    ensures segments.Some? ==> r == segments.value
    ensures segments.None? ==> r == DefaultSegments(t)
  {
    if segments.Some? then segments.value else DefaultSegments(t)
  }

  predicate NotPaused(s: Segment, t: Captions) {
    s.caption != t.paused
  }

  /** `displaySegments`: everything while paused segments are shown, and
      otherwise exactly the segments not captioned Paused, in order. */
  function DisplaySegments(all: seq<Segment>, showPaused: bool, t: Captions): (r: seq<Segment>)
    ensures showPaused ==> r == all
    ensures !showPaused ==> IsSubsequence(r, all)
    ensures !showPaused ==> forall s :: s in r <==> s in all && s.caption != t.paused
  {
    if showPaused then all
    else
      FilterIsSubsequence(all, (s: Segment) => NotPaused(s, t));
      Filter(all, (s: Segment) => NotPaused(s, t))
  }

  /** `d.value || 0`. */
  function ValueOrZero(s: Segment): int {
    if s.value.Some? then s.value.value else 0
  }

  function SumValues(ss: seq<Segment>): int {
    if ss == [] then 0 else ValueOrZero(ss[0]) + SumValues(ss[1..])
  }

  predicate CountsAsActive(s: Segment, t: Captions) {
    s.caption == t.onTrack || s.caption == t.atRisk
  }

  predicate CountsAsInactive(s: Segment, t: Captions) {
    !CountsAsActive(s, t)
  }

  lemma {:induction false} SumValuesAppend(a: seq<Segment>, b: seq<Segment>)
    ensures SumValues(a + b) == SumValues(a) + SumValues(b)
  {
    if a == [] {
      assert a + b == b;
    } else {
      assert (a + b)[1..] == a[1..] + b;
      SumValuesAppend(a[1..], b);
    }
  }

  /** Each segment's value lands on exactly one side of a predicate. */
  lemma {:induction false} SumValuesPartition(all: seq<Segment>, t: Captions)
    ensures SumValues(Filter(all, (s: Segment) => CountsAsActive(s, t)))
      + SumValues(Filter(all, (s: Segment) => CountsAsInactive(s, t))) == SumValues(all)
  {
    if all != [] {
      SumValuesPartition(all[1..], t);
    }
  }

  /** `totalActive`: the values of the On Track and At Risk segments added
      up, which is the sum over all segments less the values of the other
      segments; with no such segment it is 0. */
  function TotalActive(all: seq<Segment>, t: Captions): (n: int)
    ensures n + SumValues(Filter(all, (s: Segment) => CountsAsInactive(s, t))) == SumValues(all)
    ensures (forall i :: 0 <= i < |all| ==> !CountsAsActive(all[i], t)) ==> n == 0
  {
    var active := Filter(all, (s: Segment) => CountsAsActive(s, t));
    SumValuesPartition(all, t);
    assert (forall i :: 0 <= i < |all| ==> !CountsAsActive(all[i], t)) ==> active == [] by {
      if active != [] {
        assert active[0] in all;
      }
    }
    SumValues(active)
  }

  /** The total over two lists of segments is the sum of their totals. */
  lemma TotalActiveAppend(a: seq<Segment>, b: seq<Segment>, t: Captions)
    ensures TotalActive(a + b, t) == TotalActive(a, t) + TotalActive(b, t)
  {
    var p := (s: Segment) => CountsAsActive(s, t);
    FilterAppend(a, b, p);
    SumValuesAppend(Filter(a, p), Filter(b, p));
  }

  /** With non-negative values, the total is at most the sum over all
      segments. */
  lemma {:induction false} TotalActiveAtMostSum(all: seq<Segment>, t: Captions)
    requires forall i :: 0 <= i < |all| ==> ValueOrZero(all[i]) >= 0
    ensures 0 <= TotalActive(all, t) <= SumValues(all)
  {
    if all != [] {
      TotalActiveAtMostSum(all[1..], t);
      assert all == [all[0]] + all[1..];
      TotalActiveAppend([all[0]], all[1..], t);
    }
  }

  /** The default segments give 12 + 5 = 17 active campaigns whenever the
      Paused caption differs from the other two. */
  lemma DefaultTotalActive(t: Captions)
    requires t.paused != t.onTrack && t.paused != t.atRisk
    ensures TotalActive(DefaultSegments(t), t) == 17
  {
    var d := DefaultSegments(t);
    var p := (s: Segment) => CountsAsActive(s, t);
    assert d == [d[0]] + ([d[1]] + [d[2]]);
    FilterAppend([d[0]], [d[1]] + [d[2]], p);
    FilterAppend([d[1]], [d[2]], p);
    assert Filter(d, p) == [d[0], d[1]];
    assert [d[0], d[1]][1..] == [d[1]] && [d[1]][1..] == [];
    assert SumValues([d[0], d[1]]) == 12 + SumValues([d[1]]) == 17;
  }

  // ---------------------------------------------------------------------
  // Top campaigns

  /** A campaign row; only the open rate is averaged here. */
  datatype Campaign = Campaign(name: string, status: string, openRate: int)

  /** The three listed campaigns, named in Arabic or English. */
  function TopCampaigns(arabic: bool): seq<Campaign> {
    [Campaign(if arabic then "حملة الصيف" else "Summer Promo", "onTrack", 32),
     Campaign(if arabic then "استرجاع العملاء" else "Winback Series", "atRisk", 18),
     Campaign(if arabic then "إطلاق المنتج" else "Product Launch", "paused", 0)]
  }

  predicate IsRunning(c: Campaign) {
    c.status != "paused"
  }

  /** `activeTop`: exactly the campaigns not marked paused, in order. */
  function ActiveTop(cs: seq<Campaign>): (r: seq<Campaign>)
    ensures IsSubsequence(r, cs)
    ensures forall c :: c in r <==> c in cs && c.status != "paused"
  {
    FilterIsSubsequence(cs, IsRunning);
    Filter(cs, IsRunning)
  }

  function SumOpenRates(cs: seq<Campaign>): int {
    if cs == [] then 0 else cs[0].openRate + SumOpenRates(cs[1..])
  }

  /** `avgOpenRate`: `Math.round` of the mean open rate, rounding halves up;
      no campaign gives `NaN`, here `None`. */
  function AvgOpenRate(cs: seq<Campaign>): (r: Option<int>)
    ensures r.Some? <==> |cs| > 0
    ensures r.Some? ==>
      2 * |cs| * r.value <= 2 * SumOpenRates(cs) + |cs| < 2 * |cs| * r.value + 2 * |cs|
  {
    if |cs| == 0 then None
    else
      var n := |cs|;
      var v := (2 * SumOpenRates(cs) + n) / (2 * n);
      DivBounds(2 * SumOpenRates(cs) + n, 2 * n);
      Some(v)
  }

  lemma {:induction false} SumOpenRatesBounds(cs: seq<Campaign>, lo: int, hi: int)
    requires forall i :: 0 <= i < |cs| ==> lo <= cs[i].openRate <= hi
    ensures |cs| * lo <= SumOpenRates(cs) <= |cs| * hi
  {
    if cs != [] {
      SumOpenRatesBounds(cs[1..], lo, hi);
      var m := |cs[1..]|;
      assert |cs| * lo == m * lo + lo && |cs| * hi == m * hi + hi;
    }
  }

  /** The average lies within the range of the averaged open rates. */
  lemma AvgOpenRateWithin(cs: seq<Campaign>, lo: int, hi: int)
    requires |cs| > 0
    requires forall i :: 0 <= i < |cs| ==> lo <= cs[i].openRate <= hi
    ensures lo <= AvgOpenRate(cs).value <= hi
  {
    var n := |cs|;
    SumOpenRatesBounds(cs, lo, hi);
    assert 2 * (n * AvgOpenRate(cs).value) == 2 * n * AvgOpenRate(cs).value;
    RoundedMeanWithin(n, SumOpenRates(cs), AvgOpenRate(cs).value, lo, hi);
  }

  /** Two running campaigns followed by a paused one average their own two
      rates. */
  lemma {:induction false} ActiveTopOfThree(a: Campaign, b: Campaign, c: Campaign)
    requires IsRunning(a) && IsRunning(b) && !IsRunning(c)
    ensures ActiveTop([a, b, c]) == [a, b]
  {
    var cs := [a, b, c];
    assert cs[1..] == [b, c] && cs[1..][1..] == [c] && cs[1..][1..][1..] == [];
    assert Filter([c], IsRunning) == [];
    assert Filter([b, c], IsRunning) == [b];
  }

  /** Rates of 32 and 18 average 25. */
  lemma AvgOfTwo(a: Campaign, b: Campaign)
    requires a.openRate == 32 && b.openRate == 18
    ensures AvgOpenRate([a, b]) == Some(25)
  {
    assert [a, b][1..] == [b] && [b][1..] == [];
    assert SumOpenRates([b]) == 18 + SumOpenRates([]);
    assert SumOpenRates([a, b]) == 32 + SumOpenRates([b]);
  }

  /** The listed campaigns average (32 + 18) / 2 = 25, in either language. */
  lemma DefaultAvgOpenRate(arabic: bool)
    ensures AvgOpenRate(ActiveTop(TopCampaigns(arabic))) == Some(25)
  {
    var cs := TopCampaigns(arabic);
    assert cs == [cs[0], cs[1], cs[2]];
    assert cs[0].openRate == 32 && cs[1].openRate == 18;
    assert cs[0].status[0] != 'p' && cs[1].status[0] != 'p' && "paused"[0] == 'p';
    ActiveTopOfThree(cs[0], cs[1], cs[2]);
    AvgOfTwo(cs[0], cs[1]);
  }

  // ---------------------------------------------------------------------
  // Status colour and caption

  /** The badge colour: emerald exactly for `onTrack`, amber exactly for
      `atRisk`, red for every other status. */
  function StatusColor(s: string): (c: string)
    ensures c == "bg-emerald-500" <==> s == "onTrack"
    ensures c == "bg-amber-500" <==> s == "atRisk"
    ensures c == "bg-red-500" <==> s != "onTrack" && s != "atRisk"
  {
    if s == "onTrack" then "bg-emerald-500"
    else if s == "atRisk" then "bg-amber-500"
    else "bg-red-500"
  }

  /** The badge caption: On Track for `onTrack`, At Risk for `atRisk`, and
      Paused for every other status, not only `paused`. */
  function StatusCaption(s: string, t: Captions): (r: string)
    ensures r in {t.onTrack, t.atRisk, t.paused}
    ensures s == "onTrack" ==> r == t.onTrack
    ensures s == "atRisk" ==> r == t.atRisk
    ensures s != "onTrack" && s != "atRisk" ==> r == t.paused
  {
    if s == "onTrack" then t.onTrack
    else if s == "atRisk" then t.atRisk
    else t.paused
  }

  /** Colour and caption agree: with distinct captions, the colour is red
      exactly when the caption is Paused, and any status other than the two
      named ones, not only `paused`, gets both. */
  lemma ColorMatchesCaption(s: string, t: Captions)
    requires t.onTrack != t.atRisk && t.onTrack != t.paused && t.atRisk != t.paused
    ensures StatusColor(s) == "bg-red-500" <==> StatusCaption(s, t) == t.paused
    ensures StatusColor(s) == "bg-emerald-500" <==> StatusCaption(s, t) == t.onTrack
    ensures s != "onTrack" && s != "atRisk" ==> StatusCaption(s, t) == t.paused
  {
  }

  /** A campaign with a status other than the three known ones is kept
      among the running campaigns (and so in the open-rate average) wherever
      it is listed, yet its badge is red and captioned Paused. */
  lemma UnknownStatusRunsButReadsPaused(cs: seq<Campaign>, c: Campaign, t: Captions)
    requires c in cs && c.status != "onTrack" && c.status != "atRisk" && c.status != "paused"
    ensures c in ActiveTop(cs)
    ensures StatusCaption(c.status, t) == t.paused && StatusColor(c.status) == "bg-red-500"
  {
  }
}

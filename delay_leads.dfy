/** The delayed-leads panel: which leads count as delayed, the category
    derived from their notes, the row projection, the stage-name list read
    from settings, the per-stage counts behind the filter buttons and the
    list shown for a selected button. `now` is a parameter. */
module DelayLeads {
  import opened Optional
  import opened Seqs
  import opened Text
  import opened Leads

  // ------------------------------------------------------------ stage names

  /** An element of the stored `crmStages` array: a plain string, an object
      with an optional `name`, or anything else (null, a number, ...). */
  datatype StageEntry = Plain(s: string) | Obj(name: Option<string>) | Other

  const DefaultStageNames: seq<string> := ["new", "qualified", "in-progress", "converted", "lost"]

  /** `typeof s === 'string' ? s : s?.name`. */
  function EntryName(e: StageEntry): Option<string> {
    match e
    case Plain(s) => Some(s)
    case Obj(name) => name
    case Other => None
  }

  /** `.map(EntryName)`, with a missing name read as `''`. */
  function EntryNames(entries: seq<StageEntry>): (r: seq<string>)
    ensures |r| == |entries| && forall i :: 0 <= i < |entries| ==> r[i] == Str(EntryName(entries[i]))
  {
    seq(|entries|, i requires 0 <= i < |entries| => Str(EntryName(entries[i])))
  }

  /** `Boolean` on a name. */
  predicate Truthy(x: string) {
    x != ""
  }

  /** `.map(EntryName).filter(Boolean)`, one entry at a time. */
  function KeepNamed(entries: seq<StageEntry>): (r: seq<string>)
    ensures r == Filter(EntryNames(entries), Truthy)
    ensures |r| <= |entries|
    ensures forall i :: 0 <= i < |r| ==> r[i] != ""
    ensures forall x :: x in r <==> x != "" && exists e :: e in entries && EntryName(e) == Some(x)
  {
    if entries == [] then []
    else
      var rest := KeepNamed(entries[1..]);
      assert forall e :: e in entries <==> e == entries[0] || e in entries[1..];
      assert EntryNames(entries)[1..] == EntryNames(entries[1..]);
      if Str(EntryName(entries[0])) != "" then [EntryName(entries[0]).value] + rest else rest
  }

  /** The stage names: the named entries of a non-empty stored array, else
      the five defaults. */
  function StageNames(stored: StorageValue<StageEntry>): (r: seq<string>)
    ensures stored.Array? && stored.elems != [] ==> r == KeepNamed(stored.elems)
    ensures !(stored.Array? && stored.elems != []) ==> r == DefaultStageNames
  {
    if stored.Array? && stored.elems != [] then KeepNamed(stored.elems) else DefaultStageNames
  }

  /** A stored list of non-empty plain strings is used as it is. */
  lemma {:induction false} KeepNamedPlain(entries: seq<StageEntry>)
    requires forall i :: 0 <= i < |entries| ==> entries[i].Plain? && entries[i].s != ""
    ensures |KeepNamed(entries)| == |entries|
    ensures forall i :: 0 <= i < |entries| ==> KeepNamed(entries)[i] == entries[i].s
  {
    if entries != [] {
      KeepNamedPlain(entries[1..]);
      var r, rest := KeepNamed(entries), KeepNamed(entries[1..]);
      assert EntryName(entries[0]) == Some(entries[0].s);
      assert r == [entries[0].s] + rest;
      forall i | 0 <= i < |entries| ensures r[i] == entries[i].s {
        if i > 0 {
          assert r[i] == rest[i - 1] && entries[1..][i - 1] == entries[i];
        }
      }
    }
  }

  /** A non-empty stored array whose entries all lack a usable name gives no
      stage names at all (the defaults are not used). */
  lemma {:induction false} KeepNamedNone(entries: seq<StageEntry>)
    requires forall i :: 0 <= i < |entries| ==> Str(EntryName(entries[i])) == ""
    ensures KeepNamed(entries) == []
  {
    if entries != [] {
      KeepNamedNone(entries[1..]);
    }
  }

  // --------------------------------------------------------------- category

  datatype Category = FollowUpAfterMeeting | RescheduleMeeting | NoAnswer1stCall | FollowUp

  predicate MentionsMeeting(t: string) {
    Contains(t, "meeting") || Contains(t, "اجتماع")
  }

  predicate MentionsReschedule(t: string) {
    Contains(t, "reschedule") || Contains(t, "إعادة")
  }

  predicate MentionsNoAnswer(t: string) {
    Contains(t, "no answer") || Contains(t, "لا يرد")
  }

  /** The first rule that matches the lowercased notes decides. */
  function DeriveCategory(notes: Option<string>): (c: Category)
    ensures var t := Lower(Str(notes));
      && (c == FollowUpAfterMeeting <==> MentionsMeeting(t))
      && (c == RescheduleMeeting <==> !MentionsMeeting(t) && MentionsReschedule(t))
      && (c == NoAnswer1stCall <==> !MentionsMeeting(t) && !MentionsReschedule(t) && MentionsNoAnswer(t))
  {
    var t := Lower(Str(notes));
    if MentionsMeeting(t) then FollowUpAfterMeeting
    else if MentionsReschedule(t) then RescheduleMeeting
    else if MentionsNoAnswer(t) then NoAnswer1stCall
    else FollowUp
  }

  /** The category ignores letter case. */
  lemma DeriveCategoryIgnoresCase(s: string)
    ensures DeriveCategory(Some(Lower(s))) == DeriveCategory(Some(s))
  {
    LowerIdempotent(s);
  }

  /** A note in which the Arabic word for "meeting" occurs is a meeting
      follow-up, whatever else it says (Arabic letters have no case). */
  lemma ArabicMeetingNote(note: string, i: int)
    requires OccursAt(note, "اجتماع", i)
    ensures DeriveCategory(Some(note)) == FollowUpAfterMeeting
  {
    var kw := "اجتماع";
    assert Lower(kw) == kw;
    var low := Lower(note);
    var w := low[i..i + |kw|];
    forall k | 0 <= k < |kw| ensures w[k] == kw[k] {
      assert note[i + k] == note[i..i + |kw|][k] == kw[k];
      assert w[k] == LowerChar(note[i + k]) == LowerChar(kw[k]) == Lower(kw)[k];
    }
    assert w == kw;
    assert OccursAt(low, kw, i);
  }

  /** The note of the first sample lead is a meeting follow-up; so is the
      note of the third, which is about rescheduling but mentions "the
      meeting", because the meeting rule is tried first. */
  lemma SampleNoteCategories(first: string, third: string)
    requires first == "اجتماع مؤجل؛ يحتاج متابعة"
    requires third == "إعادة جدولة الاجتماع الأسبوع القادم"
    ensures DeriveCategory(Some(first)) == FollowUpAfterMeeting
    ensures DeriveCategory(Some(third)) == FollowUpAfterMeeting
  {
    assert first[0..6] == "اجتماع";
    ArabicMeetingNote(first, 0);
    assert third[14..20] == "اجتماع";
    ArabicMeetingNote(third, 14);
  }

  // ---------------------------------------------------------------- delayed

  const ActiveStatuses: seq<string> := ["new", "qualified", "in-progress"]
  const DelayThresholdDays: int := 7

  /** Status exactly one of the active ones, a parseable last action, and
      more than seven whole days since it. */
  predicate IsDelayed(l: Lead, now: int) {
    l.status.Some? && l.status.value in ActiveStatuses
    && IsValid(LastAction(l))
    && (now - LastAction(l).value.ms) / MsPerDay > DelayThresholdDays
  }

  /** Delayed exactly when active, parseable, and at least eight full days
      (8 * 86400000 ms) have passed. */
  lemma IsDelayedCharacterised(l: Lead, now: int)
    ensures IsDelayed(l, now) <==>
      l.status in {Some("new"), Some("qualified"), Some("in-progress")}
      && IsValid(LastAction(l))
      && now - LastAction(l).value.ms >= 8 * MsPerDay
  {
    if IsValid(LastAction(l)) {
      var d := now - LastAction(l).value.ms;
      assert d / MsPerDay > 7 <==> d >= 8 * MsPerDay;
    }
  }

  /** Once delayed, a lead stays delayed as time goes on. */
  lemma IsDelayedMonotone(l: Lead, now: int, later: int)
    requires now <= later && IsDelayed(l, now)
    ensures IsDelayed(l, later)
  {
    IsDelayedCharacterised(l, now);
    IsDelayedCharacterised(l, later);
  }

  // ------------------------------------------------------------- projection

  datatype DelayRow = DelayRow(
    lead: Lead,
    leadName: Option<string>,
    mobile: string,
    stageDate: Option<Moment>,
    lastComment: string,
    category: Category)

  /** The masked phone: `(` + first three characters + `*****)`, or `''`
      without a phone. */
  function MaskPhone(phone: Option<string>): (r: string)
    ensures Str(phone) == "" <==> r == ""
    ensures r != "" ==>
      && |r| == 7 + (if |Str(phone)| < 3 then |Str(phone)| else 3)
      && r[0] == '(' && r[|r| - 6..] == "*****)"
      && r[1..|r| - 6] == Str(phone)[..|r| - 7]
  {
    var p := Str(phone);
    if p == "" then "" else "(" + p[..if |p| < 3 then |p| else 3] + "*****)"
  }

  /** The mask never shows more than three characters of the number. */
  lemma MaskPhoneRevealsAtMostThree(phone: Option<string>)
    ensures |MaskPhone(phone)| <= 10
    ensures MaskPhone(phone) != "" ==> StartsWith(Str(phone), MaskPhone(phone)[1..|MaskPhone(phone)| - 6])
  {
  }

  /** One table row: the lead itself (kept for the tooltip actions), its
      name, the masked phone, the last action as stage date, the notes or
      `''` as last comment, and the category of the notes. */
  function Project(l: Lead): (row: DelayRow)
    ensures row.lead == l && row.leadName == l.name
    ensures row.mobile == MaskPhone(l.phone)
    ensures row.mobile == "" <==> Str(l.phone) == ""
    ensures |row.mobile| <= 10
    ensures row.stageDate == LastAction(l)
    ensures row.lastComment == Str(l.notes)
    ensures row.lastComment == "" <==> Str(l.notes) == ""
    ensures row.category == DeriveCategory(l.notes)
  {
    MaskPhoneRevealsAtMostThree(l.phone);
    DelayRow(l, l.name, MaskPhone(l.phone), LastAction(l), Str(l.notes), DeriveCategory(l.notes))
  }

  /** The leads the rows were projected from. */
  function RowLeads(rows: seq<DelayRow>): (r: seq<Lead>)
    ensures |r| == |rows| && forall i :: 0 <= i < |rows| ==> r[i] == rows[i].lead
  {
    seq(|rows|, i requires 0 <= i < |rows| => rows[i].lead)
  }

  /** `.map(Project)`. */
  function ProjectAll(ls: seq<Lead>): (rows: seq<DelayRow>)
    ensures |rows| == |ls| && forall i :: 0 <= i < |ls| ==> rows[i] == Project(ls[i])
  {
    seq(|ls|, i requires 0 <= i < |ls| => Project(ls[i]))
  }

  /** Projecting keeps the leads, and every lead projected has a row. */
  lemma ProjectAllLeads(ls: seq<Lead>)
    ensures RowLeads(ProjectAll(ls)) == ls
    ensures forall x :: x in ls ==> exists i :: 0 <= i < |ls| && ProjectAll(ls)[i].lead == x
  {
    var rows := ProjectAll(ls);
    assert RowLeads(rows) == ls;
    forall x | x in ls ensures exists i :: 0 <= i < |ls| && rows[i].lead == x {
      var i :| 0 <= i < |ls| && ls[i] == x;
      assert rows[i].lead == x;
    }
  }

  /** The rows for the delayed leads: every row is the projection of a
      delayed lead of the input, every delayed lead has a row, and the rows
      follow the input order, one per delayed occurrence. */
  function DelayRows(leads: seq<Lead>, now: int): (rows: seq<DelayRow>)
    ensures RowLeads(rows) == Filter(leads, (l: Lead) => IsDelayed(l, now))
    ensures IsSubsequence(RowLeads(rows), leads)
    ensures forall i :: 0 <= i < |rows| ==>
      rows[i].lead in leads && IsDelayed(rows[i].lead, now) && rows[i] == Project(rows[i].lead)
    ensures forall x :: x in leads && IsDelayed(x, now) ==> exists i :: 0 <= i < |rows| && rows[i].lead == x
  {
    var delayed := Filter(leads, (l: Lead) => IsDelayed(l, now));
    FilterIsSubsequence(leads, (l: Lead) => IsDelayed(l, now));
    ProjectAllLeads(delayed);
    ProjectAll(delayed)
  }

  /** The leads read from storage, or the sample leads when storage gives
      none. */
  function AllLeads(stored: StorageValue<Lead>, sample: seq<Lead>): (r: seq<Lead>)
    ensures ReadArray(stored) != [] ==> r == stored.elems
    ensures ReadArray(stored) == [] ==> r == sample
  {
    var fromStorage := ReadArray(stored);
    if |fromStorage| > 0 then fromStorage else sample
  }

  // ---------------------------------------------------------- counts, list

  /** The rows whose stage date lies in the selected range. */
  function Ranged(rows: seq<DelayRow>, from: Option<Moment>, to: Option<Moment>): seq<DelayRow> {
    Filter(rows, (r: DelayRow) => InDayRange(r.stageDate, from, to))
  }

  /** `String(lead?.status || '').toLowerCase()`. */
  function StatusKey(r: DelayRow): string {
    Lower(Str(r.lead.status))
  }

  /** `names.find(n => n.toLowerCase() === key)`. */
  function FindIgnoreCase(names: seq<string>, key: string): (r: Option<string>)
    ensures r.Some? ==> r.value in names && Lower(r.value) == key
    ensures r.None? <==> forall n :: n in names ==> Lower(n) != key
    ensures r.Some? && DistinctIgnoreCase(names) ==> forall n :: n in names && Lower(n) == key ==> n == r.value
  {
    if names == [] then None
    else if Lower(names[0]) == key then
      assert forall n :: n in names[1..] ==> n in names;
      Some(names[0])
    else
      var r := FindIgnoreCase(names[1..], key);
      assert forall n :: n in names <==> n == names[0] || n in names[1..];
      assert DistinctIgnoreCase(names) ==> DistinctIgnoreCase(names[1..]) by {
        if DistinctIgnoreCase(names) {
          forall i, j | 0 <= i < j < |names[1..]| ensures Lower(names[1..][i]) != Lower(names[1..][j]) {
            assert names[1..][i] == names[i + 1] && names[1..][j] == names[j + 1];
          }
        }
      }
      r
  }

  /** The key a row increments: its first case-insensitive match among the
      names, when that is truthy. */
  function MatchKey(names: seq<string>, r: DelayRow): (k: Option<string>)
    ensures k.Some? ==> k.value in names && k.value != "" && Lower(k.value) == StatusKey(r)
  {
    var m := FindIgnoreCase(names, StatusKey(r));
    if m.Some? && m.value != "" then m else None
  }

  /** The number of rows credited to `n`. */
  function StageCount(ranged: seq<DelayRow>, names: seq<string>, n: string): nat {
    CountKey(ranged, (r: DelayRow) => MatchKey(names, r), Some(n))
  }

  /** One more row credited: the counter of its matched name, when it has
      one, goes up by one. */
  function Credited(counts: map<string, nat>, matched: Option<string>): map<string, nat> {
    if matched.Some? && matched.value in counts then counts[matched.value := counts[matched.value] + 1] else counts
  }

  lemma CreditStep(counts: map<string, nat>, names: seq<string>, ranged: seq<DelayRow>, i: int)
    requires 0 <= i < |ranged|
    requires forall n :: n in names ==> n in counts && counts[n] == StageCount(ranged[..i], names, n)
    ensures Credited(counts, MatchKey(names, ranged[i])).Keys == counts.Keys
    ensures forall n :: n in names ==> Credited(counts, MatchKey(names, ranged[i]))[n] == StageCount(ranged[..i + 1], names, n)
  {
    CountKeyPrefixStep(ranged, i, (r: DelayRow) => MatchKey(names, r));
  }

  /** One entry per stage name, starting at 0; each row adds one to the
      entry of its first case-insensitive match. */
  method StageCounts(names: seq<string>, ranged: seq<DelayRow>) returns (counts: map<string, nat>)
    ensures counts.Keys == set n | n in names
    ensures forall n :: n in names ==> counts[n] == StageCount(ranged, names, n)
  {
    counts := map n | n in names :: 0;
    ghost var keys := counts.Keys;
    assert keys == set n | n in names;
    for i := 0 to |ranged|
      invariant counts.Keys == keys
      invariant forall n :: n in names ==> n in counts && counts[n] == StageCount(ranged[..i], names, n)
    {
      CreditStep(counts, names, ranged, i);
      counts := Credited(counts, MatchKey(names, ranged[i]));
    }
    assert ranged[..|ranged|] == ranged;
  }

  function Somes(names: seq<string>): (r: seq<Option<string>>)
    ensures |r| == |names| && forall i :: 0 <= i < |r| ==> r[i] == Some(names[i])
  {
    seq(|names|, i requires 0 <= i < |names| => Some(names[i]))
  }

  /** Over distinct names, the counts add up to the number of rows whose
      status matches some name, and so to at most the number of rows. */
  lemma StageCountsTotal(ranged: seq<DelayRow>, names: seq<string>)
    requires Distinct(names)
    ensures SumCounts(ranged, (r: DelayRow) => MatchKey(names, r), Somes(names))
      == |Filter(ranged, (r: DelayRow) => MatchKey(names, r).Some?)|
    ensures SumCounts(ranged, (r: DelayRow) => MatchKey(names, r), Somes(names)) <= |ranged|
  {
    var ks := Somes(names);
    assert Distinct(ks);
    forall r: DelayRow ensures MatchKey(names, r).Some? == (MatchKey(names, r) in ks) {
      var k := MatchKey(names, r);
      if k.Some? {
        var i :| 0 <= i < |names| && names[i] == k.value;
        assert ks[i] == k;
      }
    }
    SumCountsExact(ranged, (r: DelayRow) => MatchKey(names, r), ks, (r: DelayRow) => MatchKey(names, r).Some?);
  }

  /** The list under the buttons: the ranged rows, narrowed to the selected
      stage (case-insensitively) when one is selected. */
  function FilteredLeads(rows: seq<DelayRow>, from: Option<Moment>, to: Option<Moment>, selected: Option<string>): (r: seq<DelayRow>)
    ensures IsSubsequence(r, Ranged(rows, from, to))
    ensures Str(selected) == "" ==> r == Ranged(rows, from, to)
    ensures forall i :: 0 <= i < |r| ==> InDayRange(r[i].stageDate, from, to)
    ensures Str(selected) != "" ==> forall i :: 0 <= i < |r| ==> StatusKey(r[i]) == Lower(Str(selected))
    ensures Str(selected) != "" ==>
      forall x :: x in r <==> x in Ranged(rows, from, to) && StatusKey(x) == Lower(Str(selected))
    ensures Str(selected) != "" ==> r == Filter(Ranged(rows, from, to), (x: DelayRow) => StatusKey(x) == Lower(Str(selected)))
  {
    var ranged := Ranged(rows, from, to);
    if Str(selected) != "" then
      FilterIsSubsequence(ranged, (x: DelayRow) => StatusKey(x) == Lower(Str(selected)));
      Filter(ranged, (x: DelayRow) => StatusKey(x) == Lower(Str(selected)))
    else
      IsSubsequenceRefl(ranged);
      ranged
  }

  /** When the stage names are distinct ignoring case, a button's count is
      the number of rows listed after clicking that button. */
  lemma ButtonCountMatchesList(rows: seq<DelayRow>, from: Option<Moment>, to: Option<Moment>, names: seq<string>, n: string)
    requires DistinctIgnoreCase(names) && n in names && n != ""
    ensures StageCount(Ranged(rows, from, to), names, n) == |FilteredLeads(rows, from, to, Some(n))|
  {
    var ranged := Ranged(rows, from, to);
    var p := (x: DelayRow) => StatusKey(x) == Lower(n);
    forall x: DelayRow ensures p(x) == (MatchKey(names, x) == Some(n)) {
      var m := FindIgnoreCase(names, StatusKey(x));
      if p(x) {
        assert m.Some?;
      }
    }
    CountKeyFilter(ranged, (r: DelayRow) => MatchKey(names, r), Some(n), p);
  }
}

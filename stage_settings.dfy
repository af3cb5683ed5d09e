/** The stage and status settings page: its own keyword defaults for the
    colour and icon of a new entry, the per-name lead counters, and adding
    (prepend, rejecting blanks and case-insensitive duplicates) and removing
    (case-insensitive) entries of the stage and status lists. */
module StageSettings {
  import opened Seqs
  import opened Text
  import opened Leads
  import StageDefs

  // --------------------------------------------------------------- defaults

  predicate IsWon(key: string) {
    Contains(key, "convert") || Contains(key, "won")
  }

  /** None of this page's keywords occurs. */
  predicate NoKeyword(key: string) {
    !Contains(key, "new") && !Contains(key, "qual") && !Contains(key, "progress") && !IsWon(key)
    && !Contains(key, "lost")
  }

  /** Default colour: the first of new, qual, progress, convert-or-won, lost
      found in the lowercased name. */
  function DefaultColor(name: string): (color: string)
    ensures var key := Lower(name);
      && (Contains(key, "new") ==> color == "#3b82f6")
      && (!Contains(key, "new") && Contains(key, "qual") ==> color == "#22c55e")
      && (!Contains(key, "new") && !Contains(key, "qual") && Contains(key, "progress") ==> color == "#f59e0b")
      && ((!Contains(key, "new") && !Contains(key, "qual") && !Contains(key, "progress")
          && IsWon(key)) ==> color == "#8b5cf6")
      && ((!Contains(key, "new") && !Contains(key, "qual") && !Contains(key, "progress")
          && !IsWon(key) && Contains(key, "lost")) ==> color == "#ef4444")
      && (NoKeyword(key) ==> color == "#2563eb")
  {
    var key := Lower(name);
    if Contains(key, "new") then "#3b82f6"
    else if Contains(key, "qual") then "#22c55e"
    else if Contains(key, "progress") then "#f59e0b"
    else if IsWon(key) then "#8b5cf6"
    else if Contains(key, "lost") then "#ef4444"
    else "#2563eb"
  }

  /** Default icon, by the same keywords in the same order. */
  function DefaultIcon(name: string): (icon: string)
    ensures var key := Lower(name);
      && (Contains(key, "new") ==> icon == "\U{1F195}")
      && (!Contains(key, "new") && Contains(key, "qual") ==> icon == "\U{2705}")
      && (!Contains(key, "new") && !Contains(key, "qual") && Contains(key, "progress") ==> icon == "\U{23F3}")
      && ((!Contains(key, "new") && !Contains(key, "qual") && !Contains(key, "progress")
          && IsWon(key)) ==> icon == "\U{1F389}")
      && ((!Contains(key, "new") && !Contains(key, "qual") && !Contains(key, "progress")
          && !IsWon(key) && Contains(key, "lost")) ==> icon == "\U{274C}")
      && (NoKeyword(key) ==> icon == "\U{1F4CA}")
  {
    var key := Lower(name);
    if Contains(key, "new") then "\U{1F195}"
    else if Contains(key, "qual") then "\U{2705}"
    else if Contains(key, "progress") then "\U{23F3}"
    else if IsWon(key) then "\U{1F389}"
    else if Contains(key, "lost") then "\U{274C}"
    else "\U{1F4CA}"
  }

  /** The defaults of an empty name: the fallbacks. */
  const BlankColor: string := "#2563eb"
  const BlankIcon: string := "\U{1F4CA}"

  lemma BlankDefaults()
    ensures DefaultColor("") == BlankColor && DefaultIcon("") == BlankIcon
  {
    assert Lower("") == "";
    assert NoKeyword("");
  }

  /** Names given the same icon are given the same colour. */
  lemma IconDeterminesColor(a: string, b: string)
    requires DefaultIcon(a) == DefaultIcon(b)
    ensures DefaultColor(a) == DefaultColor(b)
  {
  }

  /** The dashboards try "convert" first, this page tries "new" first: a
      name with both keywords gets different defaults in the two places. */
  lemma DefaultsDifferFromDashboards(name: string)
    requires Contains(Lower(name), "new") && Contains(Lower(name), "convert")
    ensures DefaultIcon(name) == "\U{1F195}" && StageDefs.DefaultIcon(name) == "\U{2705}"
    ensures DefaultColor(name) == "#3b82f6" && StageDefs.DefaultColor(name) == "#10b981"
  {
  }

  // ---------------------------------------------------------------- entries

  /** A stored stage or status: a legacy string, or an entry added here. */
  datatype Entry = Plain(s: string) | Named(name: string, nameAr: string, color: string, icon: string)

  /** `s.name || s`. */
  function NameOf(e: Entry): string {
    match e
    case Plain(s) => s
    case Named(name, _, _, _) => name
  }

  function KeyOf(e: Entry): string {
    Lower(NameOf(e))
  }

  /** No two entries share a name up to case. */
  predicate DistinctKeys(list: seq<Entry>) {
    forall i, j :: 0 <= i < j < |list| ==> KeyOf(list[i]) != KeyOf(list[j])
  }

  function KeysOf(list: seq<Entry>): (keys: seq<string>)
    ensures |keys| == |list| && forall i :: 0 <= i < |list| ==> keys[i] == KeyOf(list[i])
  {
    seq(|list|, i requires 0 <= i < |list| => KeyOf(list[i]))
  }

  /** `list.some(s => (s.name || s).toLowerCase() === name.toLowerCase())`. */
  predicate Exists(list: seq<Entry>, name: string) {
    list != [] && (KeyOf(list[0]) == Lower(name) || Exists(list[1..], name))
  }

  lemma {:induction false} ExistsIff(list: seq<Entry>, name: string)
    ensures Exists(list, name) <==> exists e :: e in list && KeyOf(e) == Lower(name)
  {
    if list != [] {
      ExistsIff(list[1..], name);
      assert forall e :: e in list <==> e == list[0] || e in list[1..];
    }
  }

  /** `handleAddStage` / `handleAddStatus`: the typed name trimmed; nothing
      changes when it is blank or already present up to case, otherwise a
      new entry with that name goes in front. */
  function Added(list: seq<Entry>, input: string, inputAr: string, color: string, icon: string): (r: seq<Entry>)
    ensures (Trim(input) == "" || exists e :: e in list && KeyOf(e) == Lower(Trim(input))) ==> r == list
    ensures (Trim(input) != "" && forall e :: e in list ==> KeyOf(e) != Lower(Trim(input))) ==>
      |r| == |list| + 1 && r[0] == Named(Trim(input), Trim(inputAr), color, icon) && r[1..] == list
  {
    var name := Trim(input);
    ExistsIff(list, name);
    if name == "" || Exists(list, name) then list
    else [Named(name, Trim(inputAr), color, icon)] + list
  }

  /** `handleRemoveStage` / `handleRemoveStatus`: keep the entries whose name
      differs from `name` up to case, in order. */
  function Removed(list: seq<Entry>, name: string): (r: seq<Entry>)
    ensures IsSubsequence(r, list)
    ensures forall e :: e in r <==> e in list && KeyOf(e) != Lower(name)
    ensures forall e :: multiset(r)[e] == if KeyOf(e) != Lower(name) then multiset(list)[e] else 0
  {
    FilterIsSubsequence(list, (e: Entry) => KeyOf(e) != Lower(name));
    FilterMultiset(list, (e: Entry) => KeyOf(e) != Lower(name));
    Filter(list, (e: Entry) => KeyOf(e) != Lower(name))
  }

  /** An add never introduces a duplicate name. */
  lemma AddedKeepsDistinct(list: seq<Entry>, input: string, inputAr: string, color: string, icon: string)
    requires DistinctKeys(list)
    ensures DistinctKeys(Added(list, input, inputAr, color, icon))
  {
    var r := Added(list, input, inputAr, color, icon);
    ExistsIff(list, Trim(input));
    if r != list {
      forall i, j | 0 <= i < j < |r| ensures KeyOf(r[i]) != KeyOf(r[j]) {
        if i == 0 {
          assert r[j] == list[j - 1] && r[j] in list;
        } else {
          assert r[i] == list[i - 1] && r[j] == list[j - 1];
        }
      }
    }
  }

  /** Removing is idempotent, and afterwards the name is gone. */
  lemma RemovedIdempotent(list: seq<Entry>, name: string)
    ensures Removed(Removed(list, name), name) == Removed(list, name)
    ensures !Exists(Removed(list, name), name)
  {
    var r := Removed(list, name);
    FilterKeepsAll(r, (e: Entry) => KeyOf(e) != Lower(name));
    ExistsIff(r, name);
  }

  /** Removing a name the list does not hold changes nothing. */
  lemma RemovedAbsent(list: seq<Entry>, name: string)
    requires !Exists(list, name)
    ensures Removed(list, name) == list
  {
    ExistsIff(list, name);
    FilterKeepsAll(list, (e: Entry) => KeyOf(e) != Lower(name));
  }

  /** Adding a fresh name and then removing it restores the list. */
  lemma AddThenRemove(list: seq<Entry>, input: string, inputAr: string, color: string, icon: string)
    requires Trim(input) != "" && !Exists(list, Trim(input))
    ensures Removed(Added(list, input, inputAr, color, icon), Trim(input)) == list
  {
    var p := (e: Entry) => KeyOf(e) != Lower(Trim(input));
    var r := Added(list, input, inputAr, color, icon);
    assert r == [r[0]] + list;
    assert !p(r[0]);
    RemovedAbsent(list, Trim(input));
  }

  // --------------------------------------------------------------- counters

  /** The key a lead is counted under on the stage side. */
  function StageField(l: Lead): string {
    Lower(Str(l.stage))
  }

  /** The key a lead is counted under on the status side. */
  function StatusField(l: Lead): string {
    Lower(Str(l.status))
  }

  function KeySet(list: seq<Entry>): set<string> {
    set e | e in list :: KeyOf(e)
  }

  /** The counters' starting point: a zero for every lowercased entry
      name. */
  method ZeroCounts(list: seq<Entry>) returns (counts: map<string, nat>)
    ensures counts.Keys == KeySet(list)
    ensures forall k :: k in counts ==> counts[k] == 0
  {
    counts := map[];
    for i := 0 to |list|
      invariant counts.Keys == KeySet(list[..i])
      invariant forall k :: k in counts ==> counts[k] == 0
    {
      assert list[..i + 1] == list[..i] + [list[i]];
      counts := counts[KeyOf(list[i]) := 0];
    }
    assert list[..|list|] == list;
  }

  /** One more lead counted: its key's counter, when there is one, goes up
      by one. */
  function Tallied(counts: map<string, nat>, key: string): map<string, nat> {
    if key in counts then counts[key := counts[key] + 1] else counts
  }

  lemma TallyStep(counts: map<string, nat>, leads: seq<Lead>, j: int, field: Lead -> string)
    requires 0 <= j < |leads|
    requires forall k :: k in counts ==> counts[k] == CountKey(leads[..j], field, k)
    ensures Tallied(counts, field(leads[j])).Keys == counts.Keys
    ensures forall k :: k in Tallied(counts, field(leads[j])) ==>
      Tallied(counts, field(leads[j]))[k] == CountKey(leads[..j + 1], field, k)
  {
    CountKeyPrefixStep(leads, j, field);
  }

  /** `countByStage` (with `StageField`) and `countByStatus` (with
      `StatusField`): a zero for every lowercased entry name, then one more
      for each lead whose key is one of them. */
  method CountByName(list: seq<Entry>, leads: seq<Lead>, field: Lead -> string) returns (counts: map<string, nat>)
    ensures counts.Keys == KeySet(list)
    ensures forall k :: k in counts ==> counts[k] == CountKey(leads, field, k)
  {
    counts := ZeroCounts(list);
    ghost var keys := counts.Keys;
    for j := 0 to |leads|
      invariant counts.Keys == keys
      invariant forall k :: k in counts ==> counts[k] == CountKey(leads[..j], field, k)
    {
      TallyStep(counts, leads, j, field);
      counts := Tallied(counts, field(leads[j]));
    }
    assert leads[..|leads|] == leads;
  }

  /** With entry names distinct up to case, each lead is counted under at
      most one name, so the counts add up to at most the number of leads. */
  lemma CountsBounded(list: seq<Entry>, leads: seq<Lead>, field: Lead -> string)
    requires DistinctKeys(list)
    ensures SumCounts(leads, field, KeysOf(list)) <= |leads|
  {
    SumCountsBound(leads, field, KeysOf(list));
  }

  // ------------------------------------------------------------------ page

  /** One add form: English name, Arabic name, colour and icon. */
  datatype Form = Form(name: string, nameAr: string, color: string, icon: string)

  /** The form as the page opens, and after a successful add: empty names
      and the defaults of the empty name (see `BlankDefaults`). */
  const BlankForm: Form := Form("", "", BlankColor, BlankIcon)

  /** Typing a name: when the name changes, the effect on it sets the
      colour and icon to its defaults; setting the name it already has runs
      no effect and leaves the form as it was. */
  function Typed(f: Form, text: string): (g: Form)
    ensures g.name == text && g.nameAr == f.nameAr
    ensures text == f.name ==> g == f
    ensures text != f.name ==> g.color == DefaultColor(text) && g.icon == DefaultIcon(text)
    ensures text != f.name && Lower(text) == Lower(f.name) ==>
      g.color == DefaultColor(f.name) && g.icon == DefaultIcon(f.name)
  {
    DefaultsIgnoreCaseAgree(text, f.name);
    if text == f.name then f else Form(text, f.nameAr, DefaultColor(text), DefaultIcon(text))
  }

  /** The three other inputs of a form. */
  datatype Field = NameAr | Color | Icon

  /** Typing into the Arabic-name, colour or icon input sets that field
      only; nothing else reacts to it. */
  function Edited(f: Form, field: Field, text: string): (g: Form)
    ensures g.name == f.name
    ensures g.nameAr == (if field == NameAr then text else f.nameAr)
    ensures g.color == (if field == Color then text else f.color)
    ensures g.icon == (if field == Icon then text else f.icon)
  {
    match field
    case NameAr => f.(nameAr := text)
    case Color => f.(color := text)
    case Icon => f.(icon := text)
  }

  /** A colour or icon edited by hand lasts until the name changes: typing
      a different name brings back that name's defaults. */
  lemma EditedThenTyped(f: Form, field: Field, text: string, name: string)
    requires name != f.name
    ensures Typed(Edited(f, field, text), name).color == DefaultColor(name)
    ensures Typed(Edited(f, field, text), name).icon == DefaultIcon(name)
    ensures Typed(Edited(f, field, text), name).nameAr == Edited(f, field, text).nameAr
  {
  }

  /** Names equal up to case get the same defaults. */
  lemma DefaultsIgnoreCaseAgree(a: string, b: string)
    ensures Lower(a) == Lower(b) ==> DefaultColor(a) == DefaultColor(b) && DefaultIcon(a) == DefaultIcon(b)
  {
  }

  /** One half of the page: a stored list and its add form. */
  datatype Panel = Panel(list: seq<Entry>, form: Form)

  /** Submitting the form: a rejected name changes nothing; an accepted one
      is stored in front of the list and the form is cleared. */
  function Submit(p: Panel): Panel {
    var next := Added(p.list, p.form.name, p.form.nameAr, p.form.color, p.form.icon);
    if |next| != |p.list| then Panel(next, BlankForm) else p
  }

  /** Submitting stores exactly `Added` of the form's fields; the form is
      cleared when the list grew and untouched when it did not. */
  lemma SubmitShape(p: Panel)
    ensures Submit(p).list == Added(p.list, p.form.name, p.form.nameAr, p.form.color, p.form.icon)
    ensures Submit(p).list == p.list ==> Submit(p).form == p.form
    ensures Submit(p).list != p.list ==> Submit(p).form == BlankForm
  {
  }

  /** The page's state: the stage panel and the status panel, which follow
      the same rules. */
  class SettingsPage {
    var stages: Panel
    var statuses: Panel

    constructor(stages0: seq<Entry>, statuses0: seq<Entry>)
      ensures stages == Panel(stages0, BlankForm) && statuses == Panel(statuses0, BlankForm)
    {
      stages, statuses := Panel(stages0, BlankForm), Panel(statuses0, BlankForm);
    }

    method TypeStageName(text: string)
      modifies this
      ensures stages == old(stages).(form := Typed(old(stages).form, text)) && statuses == old(statuses)
    {
      stages := stages.(form := Typed(stages.form, text));
    }

    method TypeStatusName(text: string)
      modifies this
      ensures statuses == old(statuses).(form := Typed(old(statuses).form, text)) && stages == old(stages)
    {
      statuses := statuses.(form := Typed(statuses.form, text));
    }

    /** Typing into the stage form's Arabic-name, colour or icon input. */
    method EditStageField(field: Field, text: string)
      modifies this
      ensures stages == old(stages).(form := Edited(old(stages).form, field, text)) && statuses == old(statuses)
    {
      stages := stages.(form := Edited(stages.form, field, text));
    }

    /** Typing into the status form's Arabic-name, colour or icon input. */
    method EditStatusField(field: Field, text: string)
      modifies this
      ensures statuses == old(statuses).(form := Edited(old(statuses).form, field, text)) && stages == old(stages)
    {
      statuses := statuses.(form := Edited(statuses.form, field, text));
    }

    /** `handleAddStage`. */
    method AddStage()
      modifies this
      ensures stages == Submit(old(stages)) && statuses == old(statuses)
    {
      stages := Submit(stages);
    }

    /** `handleAddStatus`. */
    method AddStatus()
      modifies this
      ensures statuses == Submit(old(statuses)) && stages == old(stages)
    {
      statuses := Submit(statuses);
    }

    /** `handleRemoveStage`. */
    method RemoveStage(name: string)
      modifies this
      ensures stages == old(stages).(list := Removed(old(stages).list, name)) && statuses == old(statuses)
    {
      stages := stages.(list := Removed(stages.list, name));
    }

    /** `handleRemoveStatus`. */
    method RemoveStatus(name: string)
      modifies this
      ensures statuses == old(statuses).(list := Removed(old(statuses).list, name)) && stages == old(stages)
    {
      statuses := statuses.(list := Removed(statuses.list, name));
    }
  }
}

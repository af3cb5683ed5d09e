/** The "Add New User" page: the form record and its field updates, the
    department choice that resets an invalid team, the custom-role
    permission toggles, validation, and the payload built on submit. */
module UserCreate {
  import opened Optional
  import opened Seqs
  import opened Text
  import opened OrgStructure

  /** The form state; `sendInvite` is the only non-text field. */
  datatype Form = Form(
    fullName: string,
    email: string,
    phone: string,
    username: string,
    password: string,
    sendInvite: bool,
    role: string,
    status: string,
    department: string,
    team: string)

  const InitialForm := Form("", "", "", "", "", true, "", "Active", "", "")

  /** The text fields `updateField` is called with. */
  datatype Field = FullName | Email | Phone | Username | Password | Role | Status | Department | Team

  function Get(f: Form, key: Field): string {
    match key
    case FullName => f.fullName
    case Email => f.email
    case Phone => f.phone
    case Username => f.username
    case Password => f.password
    case Role => f.role
    case Status => f.status
    case Department => f.department
    case Team => f.team
  }

  /** `updateField(key, value)`: exactly the one field changes. */
  function With(f: Form, key: Field, value: string): (r: Form)
    ensures Get(r, key) == value
    ensures forall k :: k != key ==> Get(r, k) == Get(f, k)
    ensures r.sendInvite == f.sendInvite
  {
    match key
    case FullName => f.(fullName := value)
    case Email => f.(email := value)
    case Phone => f.(phone := value)
    case Username => f.(username := value)
    case Password => f.(password := value)
    case Role => f.(role := value)
    case Status => f.(status := value)
    case Department => f.(department := value)
    case Team => f.(team := value)
  }

  /** The department select's change handler: the department is replaced,
      and the team survives only if the new department offers it. */
  function WithDepartment(f: Form, dept: string): (r: Form)
    ensures r.department == dept
    ensures r.team == f.team || r.team == ""
    ensures r.team != "" ==> r.team in TeamsForDept(dept)
    ensures f.team in TeamsForDept(dept) ==> r.team == f.team
    ensures r == f.(department := dept, team := r.team)
  {
    var teamValid := f.team in TeamsForDept(dept);
    f.(department := dept, team := if teamValid then f.team else "")
  }

  /** Choosing a name that is not a department always clears the team. */
  lemma UnknownDepartmentClearsTeam(f: Form, dept: string)
    requires dept !in TeamsByDepartment
    ensures WithDepartment(f, dept).team == ""
  {
  }

  /** Choosing the same department again changes nothing more. */
  lemma WithDepartmentIdempotent(f: Form, dept: string)
    ensures WithDepartment(WithDepartment(f, dept), dept) == WithDepartment(f, dept)
  {
    var once := WithDepartment(f, dept);
    assert once.team == "" || once.team in TeamsForDept(dept);
    if once.team == "" && "" in TeamsForDept(dept) {
      DepartmentsHaveTeams();
    }
  }

  // ---------------------------------------------------------------------
  // Permission toggles

  /** `Array.from(new Set(list))`: the first occurrence of each entry, in
      order. */
  function Dedup(s: seq<string>): (r: seq<string>)
    ensures Distinct(r)
    ensures forall x :: x in r <==> x in s
    ensures IsSubsequence(r, s)
  {
    if s == [] then []
    else
      var init := s[..|s| - 1];
      var last := s[|s| - 1];
      assert s == init + [last];
      var r := Dedup(init);
      IsSubsequenceSnoc(r, init, last);
      if last in r then r else r + [last]
  }

  lemma {:induction false} DedupDistinct(s: seq<string>)
    requires Distinct(s)
    ensures Dedup(s) == s
  {
    if s != [] {
      var init := s[..|s| - 1];
      assert Distinct(init);
      DedupDistinct(init);
      assert s[|s| - 1] !in init;
      assert s == init + [s[|s| - 1]];
    }
  }

  /** `list` with every `p` removed (`Set.prototype.delete`). */
  function Without(s: seq<string>, p: string): seq<string> {
    Filter(s, (x: string) => x != p)
  }

  /** `togglePerm` on one group's list: the permission is removed when
      present and appended when absent; the result never repeats an entry
      and every other permission keeps its membership. */
  function Toggled(list: seq<string>, perm: string): (r: seq<string>)
    ensures Distinct(r)
    ensures perm in r <==> perm !in list
    ensures forall x :: x != perm ==> (x in r <==> x in list)
    ensures perm !in list ==> r == Dedup(list) + [perm]
    ensures perm in list ==> IsSubsequence(r, Dedup(list))
  {
    var groupSet := Dedup(list);
    if perm in groupSet then
      FilterDistinct(groupSet, (x: string) => x != perm);
      FilterIsSubsequence(groupSet, (x: string) => x != perm);
      Without(groupSet, perm)
    else
      groupSet + [perm]
  }

  /** The toggle as the page performs it: a set is built from the stored
      list entry by entry, then `delete` or `add` is applied to it. */
  method ToggleMembership(list: seq<string>, perm: string) returns (groupSet: seq<string>)
    ensures groupSet == Toggled(list, perm)
  {
    groupSet := [];
    for i := 0 to |list|
      invariant groupSet == Dedup(list[..i])
    {
      assert list[..i + 1][..i] == list[..i];
      if list[i] !in groupSet {
        groupSet := groupSet + [list[i]];
      }
    }
    assert list[..|list|] == list;
    if perm in groupSet {
      groupSet := Without(groupSet, perm);
    } else {
      groupSet := groupSet + [perm];
    }
  }

  /** Toggling an absent permission twice gives back the list exactly. */
  lemma ToggleTwiceRestores(list: seq<string>, perm: string)
    requires Distinct(list) && perm !in list
    ensures Toggled(Toggled(list, perm), perm) == list
  {
    DedupDistinct(list);
    var once := list + [perm];
    assert Distinct(once);
    DedupDistinct(once);
    FilterAppend(list, [perm], (x: string) => x != perm);
    FilterKeepsAll(list, (x: string) => x != perm);
  }

  /** Toggling a present permission twice keeps the same permissions but
      moves that one to the end. */
  lemma ToggleTwiceMovesToEnd(list: seq<string>, perm: string)
    requires Distinct(list) && perm in list
    ensures Toggled(Toggled(list, perm), perm) == Without(list, perm) + [perm]
  {
    DedupDistinct(list);
    var once := Without(list, perm);
    FilterDistinct(list, (x: string) => x != perm);
    DedupDistinct(once);
  }

  /** `prev[group] || []`. */
  function GroupOf(perms: map<string, seq<string>>, group: string): seq<string> {
    if group in perms then perms[group] else []
  }

  // ---------------------------------------------------------------------
  // Validation

  datatype ErrorField = FullNameError | EmailError | RoleError | PasswordError

  /** Whether validation reports `k` for form `f`: blank (after trimming)
      name, email or role, or a password under 8 characters when no invite
      is sent. */
  predicate Fails(k: ErrorField, f: Form) {
    match k
    case FullNameError => |Trim(f.fullName)| == 0
    case EmailError => |Trim(f.email)| == 0
    case RoleError => |Trim(f.role)| == 0
    case PasswordError => !f.sendInvite && |f.password| < 8
  }

  function Message(k: ErrorField): string {
    match k
    case FullNameError => "Full Name is required"
    case EmailError => "Email is required"
    case RoleError => "Role is required"
    case PasswordError => "Password must be at least 8 characters"
  }

  predicate Reports(e: set<ErrorField>, f: Form, k: ErrorField) {
    k in e <==> Fails(k, f)
  }

  /** `e` holds exactly the failing fields. */
  predicate ReportsExactly(e: set<ErrorField>, f: Form) {
    Reports(e, f, FullNameError) && Reports(e, f, EmailError)
    && Reports(e, f, RoleError) && Reports(e, f, PasswordError)
  }

  /** `validate`'s error object, filled by one conditional assignment per
      field; the object's keys are the fields in `e`, and the text stored
      under key `k` is `Message(k)`. */
  method CollectErrors(f: Form) returns (e: set<ErrorField>)
    ensures ReportsExactly(e, f)
  {
    e := {};
    if |Trim(f.fullName)| == 0 {
      e := e + {FullNameError};
    }
    if |Trim(f.email)| == 0 {
      e := e + {EmailError};
    }
    if |Trim(f.role)| == 0 {
      e := e + {RoleError};
    }
    if !f.sendInvite && |f.password| < 8 {
      e := e + {PasswordError};
    }
  }

  /** The form is accepted (no error keys) exactly when the name, email and
      role are non-blank and, without an invite, the password has at least
      8 characters. */
  lemma ValidIff(e: set<ErrorField>, f: Form)
    requires ReportsExactly(e, f)
    ensures |e| == 0 <==>
      |Trim(f.fullName)| != 0 && |Trim(f.email)| != 0 && |Trim(f.role)| != 0
      && (f.sendInvite || |f.password| >= 8)
  {
    if |e| == 0 {
      assert FullNameError !in e && EmailError !in e && RoleError !in e && PasswordError !in e;
    } else {
      var k :| k in e;
      assert Fails(k, f);
    }
  }

  /** The untouched form fails on name, email and role, and not on the
      password, since an invite is sent by default. */
  lemma InitialFormErrors(e: set<ErrorField>)
    requires ReportsExactly(e, InitialForm)
    ensures e == {FullNameError, EmailError, RoleError}
  {
    assert |Trim("")| == 0;
    assert FullNameError in e && EmailError in e && RoleError in e && PasswordError !in e;
    forall k | k in e ensures k in {FullNameError, EmailError, RoleError} {
      assert k != PasswordError;
    }
  }

  // ---------------------------------------------------------------------
  // The page

  /** What submit hands on: the form and, for the Custom role only, the
      chosen permissions. */
  datatype Payload = Payload(form: Form, permissions: Option<map<string, seq<string>>>)

  class UserCreatePage {
    var form: Form
    var customPerms: map<string, seq<string>>
    var errors: set<ErrorField>

    constructor()
      ensures form == InitialForm && customPerms == map[] && errors == {}
    {
      form, customPerms, errors := InitialForm, map[], {};
    }

    /** `updateField(key, value)` for a text field. */
    method UpdateField(key: Field, value: string)
      modifies this
      ensures form == With(old(form), key, value)
      ensures customPerms == old(customPerms) && errors == old(errors)
    {
      form := With(form, key, value);
    }

    /** `updateField('sendInvite', checked)`. */
    method UpdateSendInvite(checked: bool)
      modifies this
      ensures form == old(form).(sendInvite := checked)
      ensures customPerms == old(customPerms) && errors == old(errors)
    {
      form := form.(sendInvite := checked);
    }

    /** The department select's change handler. */
    method SelectDepartment(dept: string)
      modifies this
      ensures form == WithDepartment(old(form), dept)
      ensures customPerms == old(customPerms) && errors == old(errors)
    {
      form := WithDepartment(form, dept);
    }

    /** `togglePerm(group, perm)`: only `group`'s list changes. */
    method TogglePerm(group: string, perm: string)
      modifies this
      ensures customPerms == old(customPerms)[group := Toggled(GroupOf(old(customPerms), group), perm)]
      ensures form == old(form) && errors == old(errors)
    {
      var groupSet := ToggleMembership(GroupOf(customPerms, group), perm);
      customPerms := customPerms[group := groupSet];
    }

    /** `validate`: records the errors and reports whether there are none. */
    method Validate() returns (ok: bool)
      modifies this
      ensures ReportsExactly(errors, form)
      ensures ok <==> |errors| == 0
      ensures form == old(form) && customPerms == old(customPerms)
    {
      var e := CollectErrors(form);
      errors := e;
      ok := |e| == 0;
    }

    /** `onSubmit`: nothing is sent unless validation passes; the payload
      carries the permissions only for the Custom role. */
    method Submit() returns (payload: Option<Payload>)
      modifies this
      ensures ReportsExactly(errors, form)
      ensures payload.Some? <==> |errors| == 0
      ensures payload.Some? ==> payload.value.form == form
      ensures payload.Some? ==> (payload.value.permissions.Some? <==> form.role == "Custom")
      ensures payload.Some? && form.role == "Custom" ==> payload.value.permissions == Some(customPerms)
      ensures form == old(form) && customPerms == old(customPerms)
    {
      var ok := Validate();
      if !ok {
        return None;
      }
      var isCustomRole := form.role == "Custom";
      payload := Some(Payload(form, if isCustomRole then Some(customPerms) else None));
    }
  }
}

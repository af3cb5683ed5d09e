/** The application-state provider: the signed-in profile (user, company,
    subscription, enabled modules), whether the subscription is active, and
    the module access check. */
module AppState {
  import opened Optional
  import opened Text

  /** A subscription as the provider reads it: a missing status is `""` and
      a missing end date is `""`. */
  datatype Subscription = Subscription(status: string, endDate: string)

  /** The user and company objects are passed through untouched. */
  type Record = map<string, string>

  /** The `activeModules` member of a profile payload: an array of module
      keys, or any other value. */
  datatype ModuleList = NotAnArray | Modules(keys: seq<string>)

  datatype Profile = Profile(
    user: Option<Record>,
    company: Option<Record>,
    subscription: Option<Subscription>,
    activeModules: ModuleList)

  /** `isSubscriptionActive`: a subscription whose status reads `active` in
      any letter case, and which either has no end date or ends at or after
      `now`; an end date that does not parse (`parseDate` gives `None`) is
      never in the future. */
  function IsSubscriptionActive(sub: Option<Subscription>, now: int, parseDate: string -> Option<int>): (r: bool)
    ensures r ==> sub.Some? && Lower(sub.value.status) == "active"
    ensures r && sub.value.endDate != "" ==>
      parseDate(sub.value.endDate).Some? && parseDate(sub.value.endDate).value >= now
    ensures sub.Some? && Lower(sub.value.status) == "active" && sub.value.endDate == "" ==> r
    ensures (sub.Some? && Lower(sub.value.status) == "active" && sub.value.endDate != ""
      && parseDate(sub.value.endDate).Some? && parseDate(sub.value.endDate).value >= now) ==> r
  {
    if sub.None? then false
    else
      var status := Lower(sub.value.status);
      if status != "active" then false
      else if sub.value.endDate == "" then true
      else
        var end := parseDate(sub.value.endDate);
        end.Some? && end.value >= now
  }

  /** Expiry is final: a subscription inactive at some moment stays inactive
      at every later moment. */
  lemma ExpiryIsFinal(sub: Option<Subscription>, t0: int, t1: int, parseDate: string -> Option<int>)
    requires t0 <= t1 && !IsSubscriptionActive(sub, t0, parseDate)
    ensures !IsSubscriptionActive(sub, t1, parseDate)
  {
  }

  /** The end date itself still counts as active. */
  lemma EndDateInclusive(sub: Subscription, now: int, parseDate: string -> Option<int>)
    requires Lower(sub.status) == "active" && sub.endDate != "" && parseDate(sub.endDate) == Some(now)
    ensures IsSubscriptionActive(Some(sub), now, parseDate)
  {
  }

  /** Only the letter case of the status is ignored. */
  lemma StatusIgnoresCase(a: Subscription, b: Subscription, now: int, parseDate: string -> Option<int>)
    requires EqualsIgnoreCase(a.status, b.status) && a.endDate == b.endDate
    ensures IsSubscriptionActive(Some(a), now, parseDate) == IsSubscriptionActive(Some(b), now, parseDate)
  {
  }

  /** `canAccess(moduleKey)`: a non-empty key among the enabled modules. */
  predicate CanAccess(activeModules: seq<string>, moduleKey: string) {
    moduleKey != "" && moduleKey in activeModules
  }

  /** The empty key is never granted, a granted key is an enabled module,
      and enabling more modules never revokes access. */
  lemma CanAccessOnlyEnabled(enabled: seq<string>, more: seq<string>, moduleKey: string)
    requires forall k :: k in enabled ==> k in more
    ensures !CanAccess(enabled, "")
    ensures CanAccess(enabled, moduleKey) ==> exists i :: 0 <= i < |enabled| && enabled[i] == moduleKey
    ensures CanAccess(enabled, moduleKey) ==> CanAccess(more, moduleKey)
  {
  }

  /** The enabled modules a payload installs: its array, or none. */
  function ModulesOf(m: ModuleList): (r: seq<string>)
    ensures m.NotAnArray? ==> r == []
    ensures m.Modules? ==> r == m.keys
  {
    match m
    case NotAnArray => []
    case Modules(keys) => keys
  }

  /** A payload whose `activeModules` is not an array grants no module. */
  lemma NonArrayGrantsNothing(p: Profile, moduleKey: string)
    requires p.activeModules.NotAnArray?
    ensures !CanAccess(ModulesOf(p.activeModules), moduleKey)
  {
  }

  /** The provider's state. `subscriptionActive` is the memoised
      `isSubscriptionActive`, recomputed only when the subscription is
      replaced, with the clock read at that time. */
  class AppStateProvider {
    var user: Option<Record>
    var company: Option<Record>
    var subscription: Option<Subscription>
    var activeModules: seq<string>
    var subscriptionActive: bool

    constructor()
      ensures user == None && company == None && subscription == None
      ensures activeModules == [] && !subscriptionActive
    {
      user, company, subscription := None, None, None;
      activeModules, subscriptionActive := [], false;
    }

    /** `setProfile(payload)`: a missing payload changes nothing; otherwise
        the four parts are replaced, missing ones by `null` and a non-array
        module list by no modules, and the memo is recomputed at `now`. */
    method SetProfile(payload: Option<Profile>, now: int, parseDate: string -> Option<int>)
      modifies this
      ensures payload.None? ==>
        user == old(user) && company == old(company) && subscription == old(subscription)
        && activeModules == old(activeModules) && subscriptionActive == old(subscriptionActive)
      ensures payload.Some? ==>
        user == payload.value.user && company == payload.value.company
        && subscription == payload.value.subscription
        && activeModules == ModulesOf(payload.value.activeModules)
        && subscriptionActive == IsSubscriptionActive(payload.value.subscription, now, parseDate)
    {
      if payload.None? {
        return;
      }
      var p := payload.value;
      user := p.user;
      company := p.company;
      subscription := p.subscription;
      activeModules := ModulesOf(p.activeModules);
      subscriptionActive := IsSubscriptionActive(subscription, now, parseDate);
    }
  }
}

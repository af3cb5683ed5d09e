/** The active-users card, in both of its versions: which user list is
    shown, the "last seen" texts, the active and inactive counts, and the
    heights that size the scrolling list. */
module ActiveUsers {
  import opened Optional
  import opened Seqs
  import opened Text

  /** A listed user; `lastSeen` is a millisecond timestamp. */
  datatype User = User(name: string, active: bool, lastSeen: int, role: string, avatar: string)

  /** `users.length ? users : defaultUsers`: the given list unless it is
      empty. */
  function DataUsers(users: seq<User>, defaults: seq<User>): (r: seq<User>)
    ensures |users| > 0 ==> r == users
    ensures |users| == 0 ==> r == defaults
  {
    if |users| > 0 then users else defaults
  }

  // ---------------------------------------------------------------------
  // Relative time

  const MsPerMinute: nat := 60000

  /** JavaScript's `a % b` for `b > 0`: the remainder takes the sign of
      `a`. */
  function JsRem(a: int, b: int): (r: int)
    requires b > 0
    ensures a >= 0 ==> r == a % b
    ensures a < 0 ==> -b < r <= 0
  {
    if a >= 0 then a % b else -((-a) % b)
  }

  /** The numbers `formatRelative` prints for an elapsed time `diff`. */
  datatype Elapsed = Elapsed(hours: int, rem: int)

  /** `mins = Math.floor(diff / 60000)`, `hours = Math.floor(mins / 60)`,
      `rem = mins % 60`. For a time in the past, the hours and the remaining
      minutes make up the whole minutes elapsed; a time in the future gives
      negative hours and a remainder in (-60, 0]. */
  function Split(diff: int): (e: Elapsed)
    ensures diff >= 0 ==> e.hours >= 0 && 0 <= e.rem < 60 && e.hours * 60 + e.rem == diff / MsPerMinute
    ensures diff < 0 ==> e.hours < 0 && -60 < e.rem <= 0
  {
    var mins := diff / MsPerMinute;
    assert diff < 0 ==> mins < 0;
    Elapsed(mins / 60, JsRem(mins, 60))
  }

  /** The hours form is used exactly from one full hour on. */
  lemma HoursShownIff(diff: int)
    ensures Split(diff).hours > 0 <==> diff >= 3600000
  {
    var mins := diff / MsPerMinute;
    if diff >= 3600000 {
      assert mins >= 60;
    } else {
      assert mins < 60;
    }
  }

  /** `formatRelative(lastSeen)` at time `now`, in Arabic or English. */
  function FormatRelative(now: int, lastSeen: int, arabic: bool): string {
    var e := Split(now - lastSeen);
    if arabic then
      if e.hours <= 0 then "قبل " + IntToString(e.rem) + " دقيقة"
      else "قبل " + IntToString(e.hours) + " ساعة و" + IntToString(e.rem) + " دقيقة"
    else
      if e.hours <= 0 then IntToString(e.rem) + " min ago"
      else IntToString(e.hours) + "h " + IntToString(e.rem) + "m ago"
  }

  /** Under an hour ago, the text is the whole minutes elapsed, in either
      language. */
  lemma RelativeUnderAnHour(now: int, lastSeen: int)
    requires 0 <= now - lastSeen < 3600000
    ensures var m := NatToString((now - lastSeen) / MsPerMinute);
      && FormatRelative(now, lastSeen, false) == m + " min ago"
      && FormatRelative(now, lastSeen, true) == "قبل " + m + " دقيقة"
  {
    HoursShownIff(now - lastSeen);
  }

  /** From an hour ago on, the text is the whole hours and the minutes left
      over, in either language. */
  lemma RelativeHoursAgo(now: int, lastSeen: int)
    requires now - lastSeen >= 3600000
    ensures var mins := (now - lastSeen) / MsPerMinute;
      var h, m := NatToString(mins / 60), NatToString(mins % 60);
      && FormatRelative(now, lastSeen, false) == h + "h " + m + "m ago"
      && FormatRelative(now, lastSeen, true) == "قبل " + h + " ساعة و" + m + " دقيقة"
  {
    HoursShownIff(now - lastSeen);
  }

  /** A last-seen time in the future still takes the minutes form, in
      either language, with a negative or zero count. */
  lemma RelativeFuture(now: int, lastSeen: int)
    requires now < lastSeen
    ensures exists k: int :: (-60 < k <= 0
      && FormatRelative(now, lastSeen, false) == IntToString(k) + " min ago"
      && FormatRelative(now, lastSeen, true) == "قبل " + IntToString(k) + " دقيقة")
  {
    var e := Split(now - lastSeen);
    assert FormatRelative(now, lastSeen, false) == IntToString(e.rem) + " min ago";
    assert FormatRelative(now, lastSeen, true) == "قبل " + IntToString(e.rem) + " دقيقة";
  }

  // ---------------------------------------------------------------------
  // Counts

  predicate IsActive(u: User) {
    u.active
  }

  predicate IsInactive(u: User) {
    !u.active
  }

  function ActiveCount(users: seq<User>): (n: nat)
    ensures n <= |users|
  {
    Count(users, IsActive)
  }

  /** Every user is either active or inactive. */
  lemma {:induction false} ActivePlusInactive(users: seq<User>)
    ensures Count(users, IsActive) + Count(users, IsInactive) == |users|
  {
    if users != [] {
      ActivePlusInactive(users[1..]);
    }
  }

  /** `totalCount - activeCount`, as shown in the footer: the number of
      inactive users. */
  function InactiveCount(users: seq<User>): (n: nat)
    ensures n == Count(users, IsInactive)
  {
    ActivePlusInactive(users);
    |users| - ActiveCount(users)
  }

  // ---------------------------------------------------------------------
  // List heights (dashboard version)

  const VisibleUsersCount: nat := 3
  const ItemHeight: nat := 60

  /** `measure`: the card height less header and footer, floored at 0, with
      0 read as "not measured" (`null`). Missing elements measure 0. */
  function ContentMaxH(cardH: nat, headH: nat, footH: nat): (r: Option<nat>)
    ensures r.None? <==> cardH <= headH + footH
    ensures r.Some? ==> r.value > 0 && r.value + headH + footH == cardH
  {
    var room := if cardH - headH - footH > 0 then cardH - headH - footH else 0;
    if room == 0 then None else Some(room)
  }

  /** The list's `maxHeight`: room for every row with at most three users,
      else the measured content height, else three rows. */
  function ListMaxHeight(userCount: nat, contentMaxH: Option<nat>): (r: nat)
    ensures userCount <= VisibleUsersCount ==> r == userCount * ItemHeight
    ensures userCount > VisibleUsersCount && contentMaxH.Some? ==> r == contentMaxH.value
    ensures userCount > VisibleUsersCount && contentMaxH.None? ==> r == VisibleUsersCount * ItemHeight
  {
    if userCount <= 3 then (if userCount < 3 then userCount else 3) * ItemHeight
    else if contentMaxH.Some? then contentMaxH.value
    else VisibleUsersCount * ItemHeight
  }

  /** Before the card is measured the list never exceeds three rows. */
  lemma UnmeasuredListAtMostThreeRows(userCount: nat)
    ensures ListMaxHeight(userCount, None) <= VisibleUsersCount * ItemHeight
  {
  }

  // ---------------------------------------------------------------------
  // Clock text (components version)

  /** The fallback of `formatHM`: hours and minutes, each padded to two
      digits, joined by a colon. */
  function FormatHMFallback(hours: nat, minutes: nat): string {
    PadStart2(IntToString(hours)) + ":" + PadStart2(IntToString(minutes))
  }

  /** A number below 100, padded, is two digits that read back as it. */
  lemma Pad2(n: nat)
    requires n < 100
    ensures var p := PadStart2(NatToString(n));
      |p| == 2 && AllDigits(p) && DigitsValue(p) == n
  {
    var s := NatToString(n);
    NatToStringRoundTrip(n);
    if n < 10 {
      var p := PadStart2(s);
      assert p == ['0'] + s;
      assert p[..1] == ['0'];
      assert DigitsValue(p[..1]) == DigitsValue([]) * 10 + 0;
    } else {
      assert NatToString(n / 10) == [DigitChar(n / 10)];
    }
  }

  /** For a clock time, the fallback text is `HH:MM` and reads back as the
      same hours and minutes. */
  lemma FormatHMFallbackReadsBack(hours: nat, minutes: nat)
    requires hours < 24 && minutes < 60
    ensures var r := FormatHMFallback(hours, minutes);
      |r| == 5 && r[2] == ':' && AllDigits(r[..2]) && AllDigits(r[3..])
      && DigitsValue(r[..2]) == hours && DigitsValue(r[3..]) == minutes
  {
    Pad2(hours);
    Pad2(minutes);
    var h, m := PadStart2(NatToString(hours)), PadStart2(NatToString(minutes));
    var r := FormatHMFallback(hours, minutes);
    assert r == h + ":" + m;
    assert r[..2] == h && r[3..] == m;
  }
}

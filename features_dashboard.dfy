/** The dashboard under `features/`: it merges the two stored lead lists by
    id before applying the shared employee-and-date filter, and shows four
    fixed quick-number cards next to the total. */
module FeaturesDashboard {
  import opened Optional
  import opened Seqs
  import opened Leads
  import opened DashboardLeads

  /** The key a record is stored under in the `byId` map: its id, or a fresh
      random number when the id is missing. A random key collides with no
      other key, which the position of the record stands for here. */
  datatype Key = Id(id: string) | Anon(pos: nat)

  function KeyAt(merged: seq<Lead>, i: nat): (k: Key)
    requires i < |merged|
    ensures merged[i].id.Some? <==> k.Id?
    ensures k.Id? ==> merged[i].id == Some(k.id)
    ensures k.Anon? ==> k.pos == i
  {
    if merged[i].id.Some? then Id(merged[i].id.value) else Anon(i)
  }

  /** Index of the last record among the first `n` stored under `k`, or -1. */
  function LastWith(merged: seq<Lead>, k: Key, n: nat): (r: int)
    requires n <= |merged|
    ensures -1 <= r < n
    ensures r >= 0 ==> KeyAt(merged, r) == k
  {
    if n == 0 then -1
    else if KeyAt(merged, n - 1) == k then n - 1
    else LastWith(merged, k, n - 1)
  }

  /** Index of the first record among the first `n` stored under `k`, or `n`
      when there is none. */
  function FirstWith(merged: seq<Lead>, k: Key, n: nat): (r: nat)
    requires n <= |merged|
    ensures r <= n
    ensures r < n ==> KeyAt(merged, r) == k
  {
    if n == 0 then 0
    else
      var f := FirstWith(merged, k, n - 1);
      if f < n - 1 then f
      else if KeyAt(merged, n - 1) == k then n - 1
      else n
  }

  /** No record after the last one under `k` is stored under `k`. */
  lemma {:induction false} LastWithIsLast(merged: seq<Lead>, k: Key, n: nat, j: nat)
    requires n <= |merged| && LastWith(merged, k, n) < j < n
    ensures KeyAt(merged, j) != k
  {
    if KeyAt(merged, n - 1) != k && j < n - 1 {
      LastWithIsLast(merged, k, n - 1, j);
    }
  }

  /** No record before the first one under `k` is stored under `k`. */
  lemma {:induction false} FirstWithIsFirst(merged: seq<Lead>, k: Key, n: nat, j: nat)
    requires n <= |merged| && j < FirstWith(merged, k, n) && j < n
    ensures KeyAt(merged, j) != k
  {
    if j < n - 1 {
      FirstWithIsFirst(merged, k, n - 1, j);
    }
  }

  lemma FirstWithStable(merged: seq<Lead>, k: Key, n: nat)
    requires n < |merged| && FirstWith(merged, k, n) < n
    ensures FirstWith(merged, k, n + 1) == FirstWith(merged, k, n)
  {
  }

  /** `order` lists the keys of `byId`, each once. */
  ghost predicate SameKeys(order: seq<Key>, byId: map<Key, Lead>) {
    Distinct(order) && forall k :: k in byId <==> k in order
  }

  /** Each key holds the last record stored under it among the first `i`. */
  ghost predicate HoldsLast(merged: seq<Lead>, i: nat, byId: map<Key, Lead>)
    requires i <= |merged|
  {
    forall k :: k in byId ==> 0 <= LastWith(merged, k, i) && byId[k] == merged[LastWith(merged, k, i)]
  }

  /** The keys are listed in the order of their first occurrence. */
  ghost predicate FirstOrder(merged: seq<Lead>, i: nat, order: seq<Key>)
    requires i <= |merged|
  {
    forall s, t :: 0 <= s < t < |order| ==> FirstWith(merged, order[s], i) < FirstWith(merged, order[t], i)
  }

  /** The state of the merge after the first `i` records. */
  ghost predicate MergeInv(merged: seq<Lead>, i: nat, order: seq<Key>, byId: map<Key, Lead>)
    requires i <= |merged|
  {
    && SameKeys(order, byId)
    && (forall j :: 0 <= j < i ==> KeyAt(merged, j) in byId)
    && HoldsLast(merged, i, byId)
    && (forall k :: k in byId ==> FirstWith(merged, k, i) < i)
    && FirstOrder(merged, i, order)
  }

  function Inserted(order: seq<Key>, byId: map<Key, Lead>, k: Key): seq<Key> {
    if k in byId then order else order + [k]
  }

  lemma SameKeysStep(order: seq<Key>, byId: map<Key, Lead>, k: Key, l: Lead)
    requires SameKeys(order, byId)
    ensures SameKeys(Inserted(order, byId, k), byId[k := l])
  {
    if k !in byId {
      var order' := order + [k];
      forall s, t | 0 <= s < t < |order'| ensures order'[s] != order'[t] {
        if t == |order| {
          assert order'[s] == order[s] && order[s] in byId;
        }
      }
    }
  }

  lemma HoldsLastStep(merged: seq<Lead>, i: nat, byId: map<Key, Lead>)
    requires i < |merged| && HoldsLast(merged, i, byId)
    ensures HoldsLast(merged, i + 1, byId[KeyAt(merged, i) := merged[i]])
  {
    var k := KeyAt(merged, i);
    forall c | c in byId && c != k ensures LastWith(merged, c, i + 1) == LastWith(merged, c, i) {
    }
  }

  /** A key not among the first `i` records first occurs at `i`. */
  lemma FirstWithNew(merged: seq<Lead>, i: nat)
    requires i < |merged|
    requires FirstWith(merged, KeyAt(merged, i), i) == i
    ensures FirstWith(merged, KeyAt(merged, i), i + 1) == i
  {
  }

  /** A record under a known key leaves the first occurrences alone. */
  lemma FirstOrderKnown(merged: seq<Lead>, i: nat, order: seq<Key>, byId: map<Key, Lead>)
    requires i < |merged| && SameKeys(order, byId) && FirstOrder(merged, i, order)
    requires forall k :: k in byId ==> FirstWith(merged, k, i) < i
    ensures FirstOrder(merged, i + 1, order)
  {
    forall s, t | 0 <= s < t < |order|
      ensures FirstWith(merged, order[s], i + 1) < FirstWith(merged, order[t], i + 1)
    {
      assert order[s] in byId && order[t] in byId;
      FirstWithStable(merged, order[s], i);
      FirstWithStable(merged, order[t], i);
    }
  }

  /** A record under a new key first occurs after every known key. */
  lemma FirstOrderNew(merged: seq<Lead>, i: nat, order: seq<Key>, byId: map<Key, Lead>)
    requires i < |merged| && SameKeys(order, byId) && FirstOrder(merged, i, order)
    requires KeyAt(merged, i) !in byId
    requires forall j :: 0 <= j < i ==> KeyAt(merged, j) in byId
    requires forall k :: k in byId ==> FirstWith(merged, k, i) < i
    ensures FirstOrder(merged, i + 1, order + [KeyAt(merged, i)])
  {
    FirstWithNew(merged, i);
    var order' := order + [KeyAt(merged, i)];
    forall s, t | 0 <= s < t < |order'|
      ensures FirstWith(merged, order'[s], i + 1) < FirstWith(merged, order'[t], i + 1)
    {
      assert order'[s] == order[s] && order[s] in byId;
      FirstWithStable(merged, order[s], i);
      if t < |order| {
        assert order'[t] == order[t] && order[t] in byId;
        FirstWithStable(merged, order[t], i);
      }
    }
  }

  /** Every stored key has occurred among the records seen so far. */
  lemma FirstSeenStep(merged: seq<Lead>, i: nat, byId: map<Key, Lead>, byId': map<Key, Lead>)
    requires i < |merged| && byId' == byId[KeyAt(merged, i) := merged[i]]
    requires forall k :: k in byId ==> FirstWith(merged, k, i) < i
    ensures forall k :: k in byId' ==> FirstWith(merged, k, i + 1) < i + 1
  {
    forall c | c in byId' ensures FirstWith(merged, c, i + 1) < i + 1 {
      if c in byId {
        FirstWithStable(merged, c, i);
      }
    }
  }

  /** Every record seen so far has its key stored. */
  lemma KeysCoveredStep(merged: seq<Lead>, i: nat, byId: map<Key, Lead>, byId': map<Key, Lead>)
    requires i < |merged| && byId' == byId[KeyAt(merged, i) := merged[i]]
    requires forall j :: 0 <= j < i ==> KeyAt(merged, j) in byId
    ensures forall j :: 0 <= j < i + 1 ==> KeyAt(merged, j) in byId'
  {
    forall j | 0 <= j < i + 1 ensures KeyAt(merged, j) in byId' {
      if j < i {
        assert KeyAt(merged, j) in byId;
      }
    }
  }

  /** Storing record `i` keeps the invariant. */
  lemma MergeStep(merged: seq<Lead>, i: nat, order: seq<Key>, byId: map<Key, Lead>)
    requires i < |merged| && MergeInv(merged, i, order, byId)
    ensures MergeInv(merged, i + 1, Inserted(order, byId, KeyAt(merged, i)), byId[KeyAt(merged, i) := merged[i]])
  {
    SameKeysStep(order, byId, KeyAt(merged, i), merged[i]);
    KeysCoveredStep(merged, i, byId, byId[KeyAt(merged, i) := merged[i]]);
    HoldsLastStep(merged, i, byId);
    FirstSeenStep(merged, i, byId, byId[KeyAt(merged, i) := merged[i]]);
    if KeyAt(merged, i) in byId {
      FirstOrderKnown(merged, i, order, byId);
    } else {
      FirstOrderNew(merged, i, order, byId);
    }
  }

  /** A key that none of the first `m` records carries first occurs at `m`. */
  lemma {:induction false} FirstWithNone(merged: seq<Lead>, k: Key, m: nat)
    requires m <= |merged|
    requires forall j :: 0 <= j < m ==> KeyAt(merged, j) != k
    ensures FirstWith(merged, k, m) == m
  {
    if m > 0 {
      FirstWithNone(merged, k, m - 1);
    }
  }

  /** The keys of the first `n` records, in the order a `Map` first inserts
      them. Every listed key has a record among the first `n`. */
  function MergedKeys(merged: seq<Lead>, n: nat): (ks: seq<Key>)
    requires n <= |merged|
    ensures forall t :: 0 <= t < |ks| ==> 0 <= LastWith(merged, ks[t], n)
  {
    if n == 0 then []
    else
      var ks := MergedKeys(merged, n - 1);
      if KeyAt(merged, n - 1) in ks then ks else ks + [KeyAt(merged, n - 1)]
  }

  /** `Array.from(byId.values())` after the merge: for each key, in
      first-insertion order, the last record stored under it. */
  function Merged(merged: seq<Lead>): (arr: seq<Lead>)
    ensures |arr| == |MergedKeys(merged, |merged|)|
    ensures forall t :: 0 <= t < |arr| ==>
      arr[t] == merged[LastWith(merged, MergedKeys(merged, |merged|)[t], |merged|)]
  {
    var ks := MergedKeys(merged, |merged|);
    seq(|ks|, t requires 0 <= t < |ks| => merged[LastWith(merged, ks[t], |merged|)])
  }

  /** What the merged keys of the first `n` records promise. */
  ghost predicate KeysOrdered(merged: seq<Lead>, n: nat, ks: seq<Key>)
    requires n <= |merged|
  {
    && Distinct(ks)
    && (forall j :: 0 <= j < n ==> KeyAt(merged, j) in ks)
    && (forall k :: k in ks ==> FirstWith(merged, k, n) < n)
    && FirstOrder(merged, n, ks)
  }

  /** A record under a key already listed leaves the keys in order. */
  lemma MergedKeysKnown(merged: seq<Lead>, n: nat, ks: seq<Key>)
    requires 0 < n <= |merged| && KeysOrdered(merged, n - 1, ks) && KeyAt(merged, n - 1) in ks
    ensures KeysOrdered(merged, n, ks)
  {
    forall c | c in ks ensures FirstWith(merged, c, n) == FirstWith(merged, c, n - 1) {
      FirstWithStable(merged, c, n - 1);
    }
    forall j | 0 <= j < n ensures KeyAt(merged, j) in ks {
      if j < n - 1 {
        assert KeyAt(merged, j) in ks;
      }
    }
    forall s, t | 0 <= s < t < |ks| ensures FirstWith(merged, ks[s], n) < FirstWith(merged, ks[t], n) {
      assert ks[s] in ks && ks[t] in ks;
    }
  }

  /** A record under a new key is listed once more, and every record seen
      so far has its key listed. */
  lemma MergedKeysNewCover(merged: seq<Lead>, n: nat, ks: seq<Key>)
    requires 0 < n <= |merged| && KeysOrdered(merged, n - 1, ks) && KeyAt(merged, n - 1) !in ks
    ensures Distinct(ks + [KeyAt(merged, n - 1)])
    ensures forall j :: 0 <= j < n ==> KeyAt(merged, j) in ks + [KeyAt(merged, n - 1)]
  {
    var ks' := ks + [KeyAt(merged, n - 1)];
    forall s, t | 0 <= s < t < |ks'| ensures ks'[s] != ks'[t] {
      assert ks'[s] == ks[s];
      if t < |ks| {
        assert ks'[t] == ks[t];
      }
    }
    forall j | 0 <= j < n ensures KeyAt(merged, j) in ks' {
      if j < n - 1 {
        assert KeyAt(merged, j) in ks;
      }
    }
  }

  /** A key new at record `n - 1` first occurs there, and the listed keys
      keep their first occurrences. */
  lemma MergedKeysNewFirst(merged: seq<Lead>, n: nat, ks: seq<Key>)
    requires 0 < n <= |merged| && KeysOrdered(merged, n - 1, ks) && KeyAt(merged, n - 1) !in ks
    ensures FirstWith(merged, KeyAt(merged, n - 1), n) == n - 1
    ensures forall c :: c in ks ==> FirstWith(merged, c, n) == FirstWith(merged, c, n - 1) < n - 1
  {
    var k := KeyAt(merged, n - 1);
    forall c | c in ks ensures FirstWith(merged, c, n) == FirstWith(merged, c, n - 1) {
      FirstWithStable(merged, c, n - 1);
    }
    forall j | 0 <= j < n - 1 ensures KeyAt(merged, j) != k {
      assert KeyAt(merged, j) in ks;
    }
    FirstWithNone(merged, k, n - 1);
  }

  /** A record under a new key first occurs after every listed key. */
  lemma MergedKeysNewOrder(merged: seq<Lead>, n: nat, ks: seq<Key>)
    requires 0 < n <= |merged| && KeysOrdered(merged, n - 1, ks) && KeyAt(merged, n - 1) !in ks
    ensures forall k :: k in ks + [KeyAt(merged, n - 1)] ==> FirstWith(merged, k, n) < n
    ensures FirstOrder(merged, n, ks + [KeyAt(merged, n - 1)])
  {
    var ks' := ks + [KeyAt(merged, n - 1)];
    MergedKeysNewFirst(merged, n, ks);
    forall s, t | 0 <= s < t < |ks'| ensures FirstWith(merged, ks'[s], n) < FirstWith(merged, ks'[t], n) {
      assert ks'[s] == ks[s] && ks[s] in ks;
      if t < |ks| {
        assert ks'[t] == ks[t] && ks[t] in ks;
        assert FirstWith(merged, ks[s], n - 1) < FirstWith(merged, ks[t], n - 1);
      }
    }
  }

  /** The merged keys are distinct, cover every record, and are listed in
      the order of their first occurrence. */
  lemma {:induction false} MergedKeysOrder(merged: seq<Lead>, n: nat)
    requires n <= |merged|
    ensures Distinct(MergedKeys(merged, n))
    ensures forall j :: 0 <= j < n ==> KeyAt(merged, j) in MergedKeys(merged, n)
    ensures forall k :: k in MergedKeys(merged, n) ==> FirstWith(merged, k, n) < n
    ensures FirstOrder(merged, n, MergedKeys(merged, n))
  {
    if n > 0 {
      var ks := MergedKeys(merged, n - 1);
      MergedKeysOrder(merged, n - 1);
      if KeyAt(merged, n - 1) in ks {
        MergedKeysKnown(merged, n, ks);
      } else {
        MergedKeysNewCover(merged, n, ks);
        MergedKeysNewOrder(merged, n, ks);
      }
    }
  }

  /** `merged.forEach(l => byId.set(key(l), l))` followed by
      `Array.from(byId.values())`: one entry per key, in the order keys were
      first inserted, each holding the last record stored under its key. */
  method MergeById(merged: seq<Lead>) returns (keys: seq<Key>, arr: seq<Lead>)
    ensures |keys| == |arr| && Distinct(keys)
    ensures forall i :: 0 <= i < |merged| ==> KeyAt(merged, i) in keys
    ensures forall t :: 0 <= t < |keys| ==>
      0 <= LastWith(merged, keys[t], |merged|) && arr[t] == merged[LastWith(merged, keys[t], |merged|)]
    ensures forall s, t :: 0 <= s < t < |keys| ==>
      FirstWith(merged, keys[s], |merged|) < FirstWith(merged, keys[t], |merged|)
    ensures keys == MergedKeys(merged, |merged|) && arr == Merged(merged)
  {
    var order: seq<Key> := [];
    var byId: map<Key, Lead> := map[];
    for i := 0 to |merged|
      invariant MergeInv(merged, i, order, byId)
      invariant order == MergedKeys(merged, i)
    {
      var k := KeyAt(merged, i);
      MergeStep(merged, i, order, byId);
      if k !in byId {
        order := order + [k];
      }
      byId := byId[k := merged[i]];
    }
    keys := order;
    arr := seq(|order|, t requires 0 <= t < |order| => byId[order[t]]);
  }

  /** What the merge promises about records: every id appears at most once,
      a record without an id is kept as it is, and a record with an id is
      replaced by the last record carrying that id. */
  lemma MergeByIdRecords(merged: seq<Lead>, keys: seq<Key>, arr: seq<Lead>)
    requires |keys| == |arr| && Distinct(keys)
    requires forall i :: 0 <= i < |merged| ==> KeyAt(merged, i) in keys
    requires forall t :: 0 <= t < |keys| ==>
      0 <= LastWith(merged, keys[t], |merged|) && arr[t] == merged[LastWith(merged, keys[t], |merged|)]
    ensures forall s, t :: 0 <= s < t < |arr| && arr[s].id.Some? ==> arr[s].id != arr[t].id
    ensures forall i :: 0 <= i < |merged| && merged[i].id.None? ==> merged[i] in arr
    ensures forall i :: 0 <= i < |merged| ==> merged[LastWith(merged, KeyAt(merged, i), |merged|)] in arr
  {
    forall s, t | 0 <= s < t < |arr| && arr[s].id.Some? ensures arr[s].id != arr[t].id {
      var ls, lt := LastWith(merged, keys[s], |merged|), LastWith(merged, keys[t], |merged|);
      assert KeyAt(merged, ls) == keys[s] && KeyAt(merged, lt) == keys[t];
    }
    forall i | 0 <= i < |merged| ensures merged[LastWith(merged, KeyAt(merged, i), |merged|)] in arr {
      var t :| 0 <= t < |keys| && keys[t] == KeyAt(merged, i);
      assert arr[t] == merged[LastWith(merged, keys[t], |merged|)];
    }
    forall i | 0 <= i < |merged| && merged[i].id.None? ensures merged[i] in arr {
      var k := KeyAt(merged, i);
      var l := LastWith(merged, k, |merged|);
      assert KeyAt(merged, l) == k;
      assert l == i;
    }
  }

  /** No later record is stored under the same key as record `i`. */
  predicate IsLastWithKey(merged: seq<Lead>, i: nat)
    requires i < |merged|
  {
    forall j :: i < j < |merged| ==> KeyAt(merged, j) != KeyAt(merged, i)
  }

  /** The last record under a key is the one LastWith finds. */
  lemma {:induction false} LastWithAt(merged: seq<Lead>, n: nat, i: nat)
    requires i < n <= |merged|
    requires forall j :: i < j < n ==> KeyAt(merged, j) != KeyAt(merged, i)
    ensures LastWith(merged, KeyAt(merged, i), n) == i
  {
    if i < n - 1 {
      assert KeyAt(merged, n - 1) != KeyAt(merged, i);
      LastWithAt(merged, n - 1, i);
    }
  }

  /** `l` is a stored record that no later record shares a key with. */
  predicate IsSurvivor(merged: seq<Lead>, l: Lead) {
    exists j :: 0 <= j < |merged| && IsLastWithKey(merged, j) && l == merged[j]
  }

  /** The merged records are exactly survivors of the merge: each is a
      stored record that no later record shares a key with. They keep ids
      apart, and every record without an id and every last record under its
      key is among them. */
  lemma Survivors(merged: seq<Lead>)
    ensures forall l :: l in Merged(merged) ==> IsSurvivor(merged, l)
    ensures IdsApart(Merged(merged))
    ensures forall l :: l in merged && l.id.None? ==> l in Merged(merged)
    ensures forall i :: 0 <= i < |merged| && IsLastWithKey(merged, i) ==> merged[i] in Merged(merged)
  {
    var keys, arr := MergedKeys(merged, |merged|), Merged(merged);
    MergedKeysOrder(merged, |merged|);
    MergeByIdRecords(merged, keys, arr);
    forall l | l in arr ensures IsSurvivor(merged, l) {
      var t :| 0 <= t < |arr| && arr[t] == l;
      var j := LastWith(merged, keys[t], |merged|);
      forall j' | j < j' < |merged| ensures KeyAt(merged, j') != KeyAt(merged, j) {
        LastWithIsLast(merged, keys[t], |merged|, j');
      }
      assert IsLastWithKey(merged, j);
    }
    forall l | l in merged && l.id.None? ensures l in arr {
      var i :| 0 <= i < |merged| && merged[i] == l;
    }
    forall i | 0 <= i < |merged| && IsLastWithKey(merged, i) ensures merged[i] in arr {
      LastWithAt(merged, |merged|, i);
    }
  }

  /** No id is carried by two records. */
  predicate IdsApart(arr: seq<Lead>) {
    forall s, t :: 0 <= s < t < |arr| && arr[s].id.Some? ==> arr[s].id != arr[t].id
  }

  /** A filter keeps ids apart when its input does. */
  lemma {:induction false} FilterKeepsIdsApart(arr: seq<Lead>, p: Lead -> bool)
    requires IdsApart(arr)
    ensures IdsApart(Filter(arr, p))
  {
    if arr != [] {
      var rest := Filter(arr[1..], p);
      var r := Filter(arr, p);
      FilterKeepsIdsApart(arr[1..], p);
      if p(arr[0]) {
        assert r == [arr[0]] + rest;
        forall s, t | 0 <= s < t < |r| && r[s].id.Some? ensures r[s].id != r[t].id {
          if s == 0 {
            assert r[t] == rest[t - 1] && r[t] in arr[1..];
            var j :| 0 <= j < |arr[1..]| && arr[1..][j] == r[t];
            assert arr[j + 1] == r[t];
          } else {
            assert r[s] == rest[s - 1] && r[t] == rest[t - 1];
          }
        }
      } else {
        assert r == rest;
      }
    }
  }

  /** The filter keeps only survivors, keeps ids apart, and keeps every
      survivor it accepts. */
  lemma FilteredSurvivors(merged: seq<Lead>, sel: string, from: Option<Moment>, to: Option<Moment>)
    ensures var r := FilterLeads(Merged(merged), sel, from, to);
      && (forall l :: l in r ==> l in merged && IsSurvivor(merged, l))
      && IdsApart(r)
      && (forall l :: l in merged && l.id.None? && Keeps(l, sel, from, to) ==> l in r)
      && (forall i :: 0 <= i < |merged| && IsLastWithKey(merged, i) && Keeps(merged[i], sel, from, to) ==> merged[i] in r)
  {
    var arr := Merged(merged);
    var r := FilterLeads(arr, sel, from, to);
    Survivors(merged);
    assert r == Filter(arr, (l: Lead) => Keeps(l, sel, from, to));
    FilterKeepsIdsApart(arr, (l: Lead) => Keeps(l, sel, from, to));
    forall l | l in r ensures l in merged && IsSurvivor(merged, l) {
      assert l in arr;
    }
  }

  /** `allLeads`: the records stored under `leadsData` followed by those under
      `leads`, merged by id, then passed through the employee-and-date
      filter. The result is the filter applied to the merged records, so
      only survivors of the merge are shown, in merge order: every lead shown
      is a stored record that the filter accepts and that no later record
      shares a key with, no id is shown twice, and a record that survives
      the merge (one without an id, or the last one with its id) is shown
      exactly when the filter accepts it. */
  method AllLeads(leadsData: seq<Lead>, leads: seq<Lead>, sel: string, from: Option<Moment>, to: Option<Moment>)
    returns (r: seq<Lead>)
    ensures r == FilterLeads(Merged(leadsData + leads), sel, from, to)
    ensures forall i :: 0 <= i < |r| ==> r[i] in leadsData + leads && Keeps(r[i], sel, from, to)
    ensures forall l :: l in r ==> IsSurvivor(leadsData + leads, l)
    ensures IdsApart(r)
    ensures forall l :: l in leadsData + leads && l.id.None? && Keeps(l, sel, from, to) ==> l in r
    ensures var merged := leadsData + leads;
      forall i :: 0 <= i < |merged| && IsLastWithKey(merged, i) && Keeps(merged[i], sel, from, to) ==> merged[i] in r
  {
    var merged := leadsData + leads;
    var keys, arr := MergeById(merged);
    FilteredSurvivors(merged, sel, from, to);
    r := FilterLeads(arr, sel, from, to);
  }

  /** `(l.isDuplicate || l.duplicateStatus === 'duplicate')`. */
  predicate IsDuplicateCard(l: Lead) {
    l.isDuplicate || l.duplicateStatus == Some("duplicate")
  }

  /** In progress under stage or status, or `status === 'pending'`. */
  predicate IsPendingCard(l: Lead) {
    IsPending(l) || l.status == Some("pending")
  }

  predicate IsFollowUp(l: Lead) {
    l.callType == Some("follow-up") || l.stage == Some("follow-up") || l.status == Some("follow-up")
  }

  /** The new, duplicate, pending and follow-up cards, in that order: each
      counts the leads its rule accepts and shows that count as a rounded
      percentage of all leads. */
  function FixedCards(leads: seq<Lead>): (cards: seq<Card>)
    ensures |cards| == 4
    ensures cards[0].count == Count(leads, IsNew)
    ensures cards[1].count == Count(leads, IsDuplicateCard)
    ensures cards[2].count == Count(leads, IsPendingCard)
    ensures cards[3].count == Count(leads, IsFollowUp)
    ensures forall i :: 0 <= i < 4 ==> cards[i].percent == Percent(cards[i].count, |leads|)
    ensures forall i :: 0 <= i < 4 ==> cards[i].count <= |leads| && cards[i].percent <= 100
  {
    [CardOf(leads, IsNew), CardOf(leads, IsDuplicateCard), CardOf(leads, IsPendingCard), CardOf(leads, IsFollowUp)]
  }

  /** The cards agree with `leadsStats` on new leads and count at least the
      duplicates and pending leads it counts; without any `pending` status
      the pending card equals the statistic. */
  lemma FixedCardsCoverStats(leads: seq<Lead>)
    ensures FixedCards(leads)[0].count == Stats(leads).newLeads
    ensures FixedCards(leads)[1].count >= Stats(leads).duplicate
    ensures FixedCards(leads)[2].count >= Stats(leads).pending
    ensures (forall i :: 0 <= i < |leads| ==> leads[i].status != Some("pending")) ==>
      FixedCards(leads)[2].count == Stats(leads).pending
  {
    var cards, st := FixedCards(leads), Stats(leads);
    assert cards[0].count == Count(leads, IsNew) == st.newLeads;
    assert cards[1].count == Count(leads, IsDuplicateCard) && st.duplicate == Count(leads, (l: Lead) => l.isDuplicate);
    CountMonotone(leads, (l: Lead) => l.isDuplicate, IsDuplicateCard);
    assert cards[2].count == Count(leads, IsPendingCard) && st.pending == Count(leads, IsPending);
    CountMonotone(leads, IsPending, IsPendingCard);
    if forall i :: 0 <= i < |leads| ==> leads[i].status != Some("pending") {
      FilterCongruent(leads, IsPending, IsPendingCard);
    }
  }
}

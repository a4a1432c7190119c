/**
 Deduplication of a scan result (main/wifi_manager.c, wifi_manager_filter_unique): one record per
 network is kept, with the strongest signal of its duplicates, and the list is compacted in place.
 */
module ApFilter {
  import opened Bytes

  /** `rest` stands for the fields of wifi_ap_record_t that the filter only copies or clears. */
  datatype ApRecord = ApRecord(ssid: seq<byte>, primary: int, rssi: int, authmode: int, rest: int)

  const ZERO_RECORD := ApRecord([], 0, 0, 0, 0)

  predicate SameNetwork(a: ApRecord, b: ApRecord) {
    a.ssid == b.ssid && a.authmode == b.authmode
  }

  // ------------------------------------------------------------------------
  // What the filter is for
  // ------------------------------------------------------------------------

  /** A named record with no earlier record of its network. */
  predicate FirstAt(s: seq<ApRecord>, i: nat)
    requires i < |s|
  {
    s[i].ssid != [] && forall j :: 0 <= j < i ==> !SameNetwork(s[j], s[i])
  }

  /** The strongest signal of the network of s[i] in s[i..n]. */
  function Strongest(s: seq<ApRecord>, i: nat, n: nat): int
    requires i < n <= |s|
  {
    if n == i + 1 then s[i].rssi
    else
      var m := Strongest(s, i, n - 1);
      if SameNetwork(s[i], s[n - 1]) && s[n - 1].rssi > m then s[n - 1].rssi else m
  }

  lemma {:induction false} StrongestIsMaximum(s: seq<ApRecord>, i: nat, n: nat) returns (j: nat)
    requires i < n <= |s|
    ensures forall l :: i <= l < n && SameNetwork(s[i], s[l]) ==> s[l].rssi <= Strongest(s, i, n)
    ensures i <= j < n && SameNetwork(s[i], s[j]) && s[j].rssi == Strongest(s, i, n)
  {
    if n == i + 1 {
      j := i;
    } else {
      j := StrongestIsMaximum(s, i, n - 1);
      if SameNetwork(s[i], s[n - 1]) && s[n - 1].rssi > Strongest(s, i, n - 1) {
        j := n - 1;
      }
    }
  }

  function Raised(s: seq<ApRecord>, i: nat): ApRecord
    requires i < |s|
  {
    s[i].(rssi := Strongest(s, i, |s|))
  }

  /** The positions below n of first occurrences, in order. */
  function Firsts(s: seq<ApRecord>, n: nat): (f: seq<nat>)
    requires n <= |s|
    ensures |f| <= n
    ensures forall k :: 0 <= k < |f| ==> f[k] < n && FirstAt(s, f[k])
    ensures forall k, l :: 0 <= k < l < |f| ==> f[k] < f[l]
    ensures forall i :: 0 <= i < n && FirstAt(s, i) ==> i in f
  {
    if n == 0 then []
    else Firsts(s, n - 1) + if FirstAt(s, n - 1) then [n - 1] else []
  }

  /** One record per network, at its first occurrence, with the strongest signal. */
  function Unique(s: seq<ApRecord>): (u: seq<ApRecord>)
    ensures |u| == |Firsts(s, |s|)| <= |s|
    ensures forall k :: 0 <= k < |u| ==> u[k] == Raised(s, Firsts(s, |s|)[k])
  {
    var f := Firsts(s, |s|);
    seq(|f|, k requires 0 <= k < |f| => Raised(s, f[k]))
  }

  /** What stays behind the kept records: nameless records that nothing was moved onto. */
  function Leftover(s: seq<ApRecord>): (t: seq<ApRecord>)
    ensures |t| == |s| - |Unique(s)|
  {
    var m := |Unique(s)|;
    seq(|s| - m, k requires 0 <= k < |s| - m =>
      if s[m + k].ssid == [] then s[m + k] else ZERO_RECORD)
  }

  // ------------------------------------------------------------------------
  // First loop nest: merge duplicates
  // ------------------------------------------------------------------------

  ghost predicate SeenBefore(s: seq<ApRecord>, i: nat, k: nat)
    requires k < |s| && i <= |s|
  {
    exists j :: 0 <= j < i && j < k && SameNetwork(s[j], s[k])
  }

  /** Record k once the networks first met below i have been merged. */
  ghost function Merged(s: seq<ApRecord>, i: nat, k: nat): ApRecord
    requires k < |s| && i <= |s|
  {
    if s[k].ssid == [] then s[k]
    else if SeenBefore(s, i, k) then ZERO_RECORD
    else if k < i then Raised(s, k)
    else s[k]
  }

  ghost function MergedList(s: seq<ApRecord>, i: nat): (m: seq<ApRecord>)
    requires i <= |s|
    ensures |m| == |s| && forall k :: 0 <= k < |s| ==> m[k] == Merged(s, i, k)
  {
    seq(|s|, k requires 0 <= k < |s| => Merged(s, i, k))
  }

  /** How merging the duplicates of s[i] takes one list to the next. */
  ghost predicate MergeStep(s: seq<ApRecord>, i: nat, before: seq<ApRecord>, after: seq<ApRecord>)
    requires i < |s| == |before| == |after|
  {
    && before[..i] == after[..i]
    && before[i] == s[i]
    && after[i] == Raised(s, i)
    && forall j :: i < j < |s| ==>
         if SameNetwork(s[i], s[j]) then before[j] == s[j] && after[j] == ZERO_RECORD
         else before[j] == after[j] && !SameNetwork(s[i], before[j])
  }

  lemma MergedListsStep(s: seq<ApRecord>, i: nat)
    requires i < |s| && FirstAt(s, i)
    ensures MergeStep(s, i, MergedList(s, i), MergedList(s, i + 1))
  {
    forall j | i < j < |s| && SameNetwork(s[i], s[j]) ensures !SeenBefore(s, i, j) {
      assert forall l :: 0 <= l < i ==> !SameNetwork(s[l], s[i]);
    }
  }

  /** The inner loop for one record that is the first of its network. */
  method MergeDuplicates(a: array<ApRecord>, n: nat, i: nat, ghost s: seq<ApRecord>, ghost after: seq<ApRecord>)
    requires i < n <= a.Length && |s| == |after| == n
    requires MergeStep(s, i, a[..n], after)
    modifies a
    ensures a[..n] == after
    ensures a[n..] == old(a[n..])
  {
    ghost var before := a[..n];
    for j := i + 1 to n
      invariant a[..i] == before[..i]
      invariant a[i] == s[i].(rssi := Strongest(s, i, j))
      invariant forall k :: i < k < j ==> a[k] == after[k]
      invariant forall k :: j <= k < n ==> a[k] == before[k]
      invariant a[n..] == old(a[n..])
    {
      if a[i].ssid == a[j].ssid && a[i].authmode == a[j].authmode {
        if a[j].rssi > a[i].rssi {
          a[i] := a[i].(rssi := a[j].rssi);
        }
        a[j] := ZERO_RECORD;
      }
    }
    assert forall k :: 0 <= k < i ==> a[k] == a[..i][k] == after[k];
  }

  method MergeAll(a: array<ApRecord>, n: nat)
    requires n <= a.Length
    modifies a
    ensures var s := old(a[..n]); forall k :: 0 <= k < n ==> a[k] == Merged(s, n, k)
    ensures a[n..] == old(a[n..])
  {
    ghost var s := a[..n];
    var i := 0;
    while i < n - 1
      invariant 0 <= i <= n && (n > 0 ==> i <= n - 1)
      invariant forall k :: 0 <= k < n ==> a[k] == Merged(s, i, k)
      invariant a[n..] == old(a[n..])
    {
      if a[i].ssid != [] {
        MergedListsStep(s, i);
        assert a[..n] == MergedList(s, i);
        MergeDuplicates(a, n, i, s, MergedList(s, i + 1));
        assert forall k :: 0 <= k < n ==> a[k] == a[..n][k];
      } else {
        SkipKeepsMerged(s, i);
      }
      i := i + 1;
    }
    forall k | 0 <= k < n ensures a[k] == Merged(s, n, k) {
      assert SeenBefore(s, n, k) <==> SeenBefore(s, i, k);
    }
  }

  /** A record already cleared, or nameless from the start, merges nothing. */
  lemma SkipKeepsMerged(s: seq<ApRecord>, i: nat)
    requires i < |s| && Merged(s, i, i).ssid == []
    ensures forall k :: 0 <= k < |s| ==> Merged(s, i + 1, k) == Merged(s, i, k)
  {
    forall k | 0 <= k < |s| && s[k].ssid != []
      ensures Merged(s, i + 1, k) == Merged(s, i, k)
    {
      if SeenBefore(s, i + 1, k) && !SeenBefore(s, i, k) {
        assert SameNetwork(s[i], s[k]);
        var j :| 0 <= j < i && SameNetwork(s[j], s[i]);
        assert SameNetwork(s[j], s[k]);
      }
    }
  }

  // ------------------------------------------------------------------------
  // Second loop: compaction
  // ------------------------------------------------------------------------

  /** The named records of t[..n], in order. */
  function Named(t: seq<ApRecord>, n: nat): (u: seq<ApRecord>)
    requires n <= |t|
    ensures |u| <= n
    ensures forall k :: 0 <= k < |u| ==> u[k].ssid != []
  {
    if n == 0 then []
    else Named(t, n - 1) + if t[n - 1].ssid != [] then [t[n - 1]] else []
  }

  /** What a slot that has been passed holds once its record, if named, has moved on. */
  function Vacated(r: ApRecord): ApRecord {
    if r.ssid != [] then ZERO_RECORD else r
  }

  method Compact(a: array<ApRecord>, n: nat) returns (total: nat)
    requires n <= a.Length
    modifies a
    ensures var t := old(a[..n]);
            && total == |Named(t, n)|
            && a[..total] == Named(t, n)
            && forall k :: total <= k < n ==> a[k] == Vacated(t[k])
    ensures a[n..] == old(a[n..])
  {
    ghost var t, u: seq<ApRecord> := a[..n], [];
    total := n;
    var firstFree: int := -1;
    for i := 0 to n
      invariant u == Named(t, i) && |u| <= i && total == n - i + |u|
      invariant forall k :: 0 <= k < |u| ==> a[k] == u[k]
      invariant forall k :: |u| <= k < i ==> a[k] == Vacated(t[k])
      invariant forall k :: i <= k < n ==> a[k] == t[k]
      invariant firstFree == if |u| == i then -1 else |u|
      invariant a[n..] == old(a[n..])
    {
      if a[i].ssid == [] {
        if firstFree == -1 {
          firstFree := i;
        }
        total := total - 1;
      } else {
        u := u + [t[i]];
        if firstFree != -1 {
          firstFree := MoveRecord(a, n, firstFree, i, u);
        }
      }
    }
    assert a[..total] == u;
  }

  /** One record moved onto the free slot, and the next free slot found. */
  method MoveRecord(a: array<ApRecord>, n: nat, free: nat, i: nat, ghost u: seq<ApRecord>) returns (next: nat)
    requires free < i < n <= a.Length && |u| == free + 1 && a[i].ssid != [] && u[free] == a[i]
    requires forall k :: 0 <= k < free ==> a[k] == u[k] && u[k].ssid != []
    requires forall k :: free <= k < i ==> a[k].ssid == []
    modifies a
    ensures next == free + 1
    ensures forall k :: 0 <= k < |u| ==> a[k] == u[k]
    ensures a[i] == ZERO_RECORD
    ensures forall k :: free < k < a.Length && k != i ==> a[k] == old(a[k])
  {
    a[free] := a[i];
    a[i] := ZERO_RECORD;
    next := FindFree(a, n, i, free + 1);
  }

  /** The search for the next free slot: the first nameless record of the whole list. */
  method FindFree(a: array<ApRecord>, n: nat, i: nat, ghost q: nat) returns (free: nat)
    requires i < n <= a.Length && a[i].ssid == [] && q <= i
    requires forall k :: 0 <= k < q ==> a[k].ssid != []
    requires forall k :: q <= k < i ==> a[k].ssid == []
    ensures free == q
  {
    free := 0;
    while a[free].ssid != []
      invariant free <= q
      decreases q - free
    {
      free := free + 1;
    }
  }

  // ------------------------------------------------------------------------
  // The filter
  // ------------------------------------------------------------------------

  /** u holds the raised records of the positions in f. */
  ghost predicate Raises(s: seq<ApRecord>, f: seq<nat>, u: seq<ApRecord>) {
    |u| == |f| && forall k :: 0 <= k < |f| ==> f[k] < |s| && u[k] == Raised(s, f[k])
  }

  lemma RaisesNext(s: seq<ApRecord>, f: seq<nat>, u: seq<ApRecord>, p: nat)
    requires Raises(s, f, u) && p < |s|
    ensures Raises(s, f + [p], u + [Raised(s, p)])
  {
  }

  lemma {:induction false} NamedMergedAreRaisedFirsts(s: seq<ApRecord>, t: seq<ApRecord>, n: nat)
    requires n <= |s| == |t|
    requires forall k :: 0 <= k < |s| ==> t[k] == Merged(s, |s|, k)
    ensures Raises(s, Firsts(s, n), Named(t, n))
  {
    if n > 0 {
      NamedMergedAreRaisedFirsts(s, t, n - 1);
      MergedIsNamedIff(s, n - 1);
      RaisesNext(s, Firsts(s, n - 1), Named(t, n - 1), n - 1);
    }
  }

  lemma RaisedFirstsAreUnique(s: seq<ApRecord>, u: seq<ApRecord>)
    requires Raises(s, Firsts(s, |s|), u)
    ensures u == Unique(s)
  {
  }

  /** After merging, the records with a name are the first ones of their networks, raised. */
  lemma MergedIsNamedIff(s: seq<ApRecord>, k: nat)
    requires k < |s|
    ensures Merged(s, |s|, k).ssid != [] <==> FirstAt(s, k)
    ensures FirstAt(s, k) ==> Merged(s, |s|, k) == Raised(s, k)
  {
    assert SeenBefore(s, |s|, k) || s[k].ssid == [] || FirstAt(s, k);
  }

  lemma VacatedMerged(s: seq<ApRecord>, k: nat)
    requires k < |s|
    ensures Vacated(Merged(s, |s|, k)) == if s[k].ssid == [] then s[k] else ZERO_RECORD
  {
  }

  lemma {:induction false} MergedAndCompacted(s: seq<ApRecord>, t: seq<ApRecord>, r: seq<ApRecord>)
    requires |s| == |t| == |r|
    requires forall k :: 0 <= k < |s| ==> t[k] == Merged(s, |s|, k)
    requires var total := |Named(t, |t|)|;
             r[..total] == Named(t, |t|) && forall k :: total <= k < |t| ==> r[k] == Vacated(t[k])
    ensures |Named(t, |t|)| == |Unique(s)| && r == Unique(s) + Leftover(s)
  {
    NamedMergedAreRaisedFirsts(s, t, |s|);
    RaisedFirstsAreUnique(s, Named(t, |t|));
    LeftoverIsVacated(s, t);
    Joined(r, Unique(s), Leftover(s));
  }

  lemma Joined(r: seq<ApRecord>, u: seq<ApRecord>, l: seq<ApRecord>)
    requires |r| == |u| + |l| && r[..|u|] == u
    requires forall k :: |u| <= k < |r| ==> r[k] == l[k - |u|]
    ensures r == u + l
  {
    assert r[|u|..] == l;
  }

  lemma LeftoverIsVacated(s: seq<ApRecord>, t: seq<ApRecord>)
    requires |s| == |t| && forall k :: 0 <= k < |s| ==> t[k] == Merged(s, |s|, k)
    ensures forall k :: |Unique(s)| <= k < |s| ==> Vacated(t[k]) == Leftover(s)[k - |Unique(s)|]
  {
    forall k | |Unique(s)| <= k < |s| ensures Vacated(t[k]) == Leftover(s)[k - |Unique(s)|] {
      VacatedMerged(s, k);
    }
  }

  /**
   The list a[..aps] is replaced by one record per network in first-occurrence order, followed by
   what is left over; the new length is returned.
   */
  method FilterUnique(a: array<ApRecord>, aps: nat) returns (total: nat)
    requires aps <= a.Length
    modifies a
    ensures total == |Unique(old(a[..aps]))|
    ensures a[..aps] == Unique(old(a[..aps])) + Leftover(old(a[..aps]))
    ensures a[aps..] == old(a[aps..])
  {
    ghost var s := a[..aps];
    MergeAll(a, aps);
    ghost var t := a[..aps];
    total := Compact(a, aps);
    MergedAndCompacted(s, t, a[..aps]);
  }

  // ------------------------------------------------------------------------
  // Properties of the result
  // ------------------------------------------------------------------------

  /** The earliest record of the network of s[i]. */
  lemma {:induction false} EarliestOf(s: seq<ApRecord>, i: nat) returns (j: nat)
    requires i < |s| && s[i].ssid != []
    ensures j <= i && FirstAt(s, j) && SameNetwork(s[j], s[i])
    decreases i
  {
    if FirstAt(s, i) {
      j := i;
    } else {
      var l :| 0 <= l < i && SameNetwork(s[l], s[i]);
      j := EarliestOf(s, l);
    }
  }

  /** Every named network of the scan is in the result. */
  lemma {:induction false} EveryNetworkIsListed(s: seq<ApRecord>, i: nat)
    requires i < |s| && s[i].ssid != []
    ensures exists k :: 0 <= k < |Unique(s)| && Unique(s)[k].ssid == s[i].ssid && Unique(s)[k].authmode == s[i].authmode
  {
    var j := EarliestOf(s, i);
    var k :| 0 <= k < |Firsts(s, |s|)| && Firsts(s, |s|)[k] == j;
    assert Unique(s)[k].ssid == s[i].ssid;
  }

  /** No two records of the result have the same SSID and authmode. */
  lemma {:induction false} NetworksAreDistinct(s: seq<ApRecord>, k: nat, l: nat)
    requires k < l < |Unique(s)|
    ensures Unique(s)[k].ssid != Unique(s)[l].ssid || Unique(s)[k].authmode != Unique(s)[l].authmode
  {
    var f := Firsts(s, |s|);
    assert f[k] < f[l] && FirstAt(s, f[l]);
    assert !SameNetwork(s[f[k]], s[f[l]]);
  }

  /** A result record is the first record of its network, but for its signal; the order is the scan's. */
  lemma {:induction false} RecordsAreFirstOccurrences(s: seq<ApRecord>, k: nat)
    requires k < |Unique(s)|
    ensures var p, u := Firsts(s, |s|)[k], Unique(s)[k];
            && u == s[p].(rssi := u.rssi) && u.ssid != []
            && (forall j :: 0 <= j < p ==> s[j].ssid != u.ssid || s[j].authmode != u.authmode)
            && (k > 0 ==> Firsts(s, |s|)[k - 1] < p)
  {
    var p := Firsts(s, |s|)[k];
    assert Unique(s)[k] == Raised(s, p) && FirstAt(s, p);
    forall j | 0 <= j < p ensures s[j].ssid != Unique(s)[k].ssid || s[j].authmode != Unique(s)[k].authmode {
      assert !SameNetwork(s[j], s[p]);
    }
  }

  /** The signal of a result record is the strongest of its network in the whole scan. */
  lemma {:induction false} SignalIsStrongest(s: seq<ApRecord>, k: nat)
    requires k < |Unique(s)|
    ensures var u := Unique(s)[k];
            && (forall i :: 0 <= i < |s| && s[i].ssid == u.ssid && s[i].authmode == u.authmode ==> s[i].rssi <= u.rssi)
            && (exists i :: 0 <= i < |s| && s[i].ssid == u.ssid && s[i].authmode == u.authmode && s[i].rssi == u.rssi)
  {
    var p := Firsts(s, |s|)[k];
    assert Unique(s)[k] == Raised(s, p) && FirstAt(s, p);
    var j := StrongestIsMaximum(s, p, |s|);
    forall i | 0 <= i < |s| && s[i].ssid == s[p].ssid && s[i].authmode == s[p].authmode
      ensures s[i].rssi <= Unique(s)[k].rssi
    {
      assert SameNetwork(s[i], s[p]) && SameNetwork(s[p], s[i]);
      assert i >= p;
    }
    assert s[j].rssi == Unique(s)[k].rssi;
  }

  lemma {:induction false} AllFirst(s: seq<ApRecord>, n: nat)
    requires n <= |s| && forall i :: 0 <= i < n ==> FirstAt(s, i)
    ensures |Firsts(s, n)| == n && forall i :: 0 <= i < n ==> Firsts(s, n)[i] == i
  {
    if n > 0 {
      AllFirst(s, n - 1);
    }
  }

  /** Filtering a filtered list changes nothing. */
  lemma {:induction false} FilterIsIdempotent(s: seq<ApRecord>)
    ensures Unique(Unique(s)) == Unique(s)
    ensures Leftover(Unique(s)) == []
  {
    var u := Unique(s);
    forall i, j | 0 <= j < i < |u| ensures !SameNetwork(u[j], u[i]) {
      NetworksAreDistinct(s, j, i);
    }
    forall i | 0 <= i < |u| ensures FirstAt(u, i) {
      RecordsAreFirstOccurrences(s, i);
    }
    AllFirst(u, |u|);
    forall i | 0 <= i < |u| ensures Unique(u)[i] == u[i] {
      assert Unique(u)[i] == Raised(u, i);
      var j := StrongestIsMaximum(u, i, |u|);
      assert j == i;
    }
    assert |Leftover(u)| == 0;
  }

  ghost predicate StrongestFirst(s: seq<ApRecord>) {
    forall i, j :: 0 <= i < j < |s| ==> s[i].rssi >= s[j].rssi
  }

  /** A scan ordered by signal stays ordered; no signal has to be raised then. */
  lemma {:induction false} OrderIsKept(s: seq<ApRecord>)
    requires StrongestFirst(s)
    ensures StrongestFirst(Unique(s))
    ensures forall k :: 0 <= k < |Unique(s)| ==> Unique(s)[k] == s[Firsts(s, |s|)[k]]
  {
    var u, f := Unique(s), Firsts(s, |s|);
    forall k | 0 <= k < |u| ensures u[k] == s[f[k]] {
      var p := f[k];
      var j := StrongestIsMaximum(s, p, |s|);
      assert s[j].rssi <= s[p].rssi;
    }
    forall i, j | 0 <= i < j < |u| ensures u[i].rssi >= u[j].rssi {
      assert f[i] < f[j];
    }
  }

  /** The first occurrences below n: one for each network. */
  ghost function Networks(s: seq<ApRecord>, n: nat): set<nat>
    requires n <= |s|
  {
    set i: nat | i < n && FirstAt(s, i)
  }

  lemma NetworksNext(s: seq<ApRecord>, n: nat)
    requires 0 < n <= |s|
    ensures |Networks(s, n)| == |Networks(s, n - 1)| + if FirstAt(s, n - 1) then 1 else 0
  {
    var before := Networks(s, n - 1);
    assert n - 1 !in before;
    assert Networks(s, n) == if FirstAt(s, n - 1) then before + {n - 1} else before;
  }

  lemma {:induction false} FirstsCount(s: seq<ApRecord>, n: nat)
    requires n <= |s|
    ensures |Firsts(s, n)| == |Networks(s, n)|
  {
    if n == 0 {
      assert Networks(s, 0) == {};
    } else {
      FirstsCount(s, n - 1);
      NetworksNext(s, n);
    }
  }

  /**
   Once the list is filtered, the slots behind as many as there are networks are all zero if and only
   if every nameless record that was not zero lay before them: one further back is left as it was.
   */
  lemma {:induction false} TailIsZeroIff(s: seq<ApRecord>, r: seq<ApRecord>)
    requires r == Unique(s) + Leftover(s)
    ensures (forall k :: |Networks(s, |s|)| <= k < |r| ==> r[k] == ZERO_RECORD)
       <==> (forall i :: 0 <= i < |s| && s[i].ssid == [] && s[i] != ZERO_RECORD ==> i < |Networks(s, |s|)|)
  {
    FirstsCount(s, |s|);
    var m := |Unique(s)|;
    forall k | m <= k < |s| ensures r[k] == (if s[k].ssid == [] then s[k] else ZERO_RECORD) {
      LeftoverAt(s, r, k);
    }
    TailIsZeroFrom(s, r, m);
  }

  lemma LeftoverAt(s: seq<ApRecord>, r: seq<ApRecord>, k: nat)
    requires r == Unique(s) + Leftover(s) && |Unique(s)| <= k < |s|
    ensures r[k] == if s[k].ssid == [] then s[k] else ZERO_RECORD
  {
    assert r[k] == Leftover(s)[k - |Unique(s)|];
  }

  lemma TailIsZeroFrom(s: seq<ApRecord>, r: seq<ApRecord>, m: nat)
    requires |r| == |s| && forall k :: m <= k < |s| ==> r[k] == (if s[k].ssid == [] then s[k] else ZERO_RECORD)
    ensures (forall k :: m <= k < |r| ==> r[k] == ZERO_RECORD)
       <==> (forall i :: 0 <= i < |s| && s[i].ssid == [] && s[i] != ZERO_RECORD ==> i < m)
  {
  }

  /** A hidden network behind a named one: its record is still there after filtering. */
  lemma HiddenNetworkStays(a: ApRecord, b: ApRecord)
    requires a.ssid != [] && b.ssid == [] && b != ZERO_RECORD
    ensures |Unique([a, b])| == 1 && Leftover([a, b]) == [b]
  {
    var s := [a, b];
    assert FirstAt(s, 0) && !FirstAt(s, 1);
    assert Firsts(s, 1) == Firsts(s, 0) + [0];
    assert Firsts(s, 2) == Firsts(s, 1) + [];
    assert Leftover(s)[0] == s[1];
  }
}

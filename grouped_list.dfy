/** The grouped transaction list: transactions gathered by day (the date
    before its 'T'), in first-seen order while gathering, then shown with
    the newest day first. */
module GroupedList {

  import opened Types
  import opened Seqs
  import opened IsoDates
  import opened Sorting

  /** `transaction.date.split("T")[0]`. */
  function DayKey(t: Transaction): string { DatePart(t.date) }

  function DayIs(k: string): Transaction -> bool {
    (t: Transaction) => DayKey(t) == k
  }

  /** The rows of one day, in input order. */
  function Members(ts: seq<Transaction>, k: string): (r: seq<Transaction>)
    ensures forall t :: t in r ==> t in ts && DayKey(t) == k
    ensures IsSubsequence(r, ts)
  {
    FilterIsSubsequence(ts, DayIs(k));
    Filter(ts, DayIs(k))
  }

  /** The day keys in the order the gathering first meets them. */
  function FirstSeenKeys(ts: seq<Transaction>): (keys: seq<string>)
    ensures Distinct(keys)
    ensures forall k :: k in keys <==> exists j :: 0 <= j < |ts| && DayKey(ts[j]) == k
  {
    if ts == [] then []
    else
      var init := ts[..|ts| - 1];
      var p := FirstSeenKeys(init);
      var k := DayKey(ts[|ts| - 1]);
      assert forall j :: 0 <= j < |init| ==> init[j] == ts[j];
      if k in p then p
      else
        var r := p + [k];
        assert forall i :: 0 <= i < |p| ==> r[i] == p[i];
        r
  }

  /** A day no row has has no members. */
  lemma MembersEmpty(ts: seq<Transaction>, k: string)
    requires k !in FirstSeenKeys(ts)
    ensures Members(ts, k) == []
  {
    FilterNone(ts, DayIs(k));
  }

  /** One more row joins the members of its own day only. */
  lemma MembersSnoc(ts: seq<Transaction>, t: Transaction, k: string)
    ensures Members(ts + [t], k) == Members(ts, k) + (if DayKey(t) == k then [t] else [])
  {
    FilterAppend(ts, [t], DayIs(k));
    assert [t][1..] == [];
  }

  /** The accumulator after one more row: its day's list created if the day
      is new, then the row pushed onto it. */
  function Push(grouped: map<string, seq<Transaction>>, t: Transaction): (g: map<string, seq<Transaction>>)
    ensures DayKey(t) in g
  {
    var k := DayKey(t);
    var start := if k in grouped then grouped[k] else [];
    grouped[k := start + [t]]
  }

  /** One more row adds its day at the end of the first-seen keys when the
      day is new. */
  lemma FirstSeenSnoc(ts: seq<Transaction>, t: Transaction)
    ensures FirstSeenKeys(ts + [t]) ==
      if DayKey(t) in FirstSeenKeys(ts) then FirstSeenKeys(ts) else FirstSeenKeys(ts) + [DayKey(t)]
  {
    assert (ts + [t])[..|ts|] == ts;
  }

  /** Pushing a row keeps each list of the accumulator equal to the members
      of its day among the rows seen so far. */
  lemma PushMembers(ts: seq<Transaction>, t: Transaction, grouped: map<string, seq<Transaction>>)
    requires forall k :: k in grouped <==> k in FirstSeenKeys(ts)
    requires forall k :: k in grouped ==> grouped[k] == Members(ts, k)
    ensures forall k :: k in Push(grouped, t) ==> Push(grouped, t)[k] == Members(ts + [t], k)
  {
    var k := DayKey(t);
    if k !in grouped {
      MembersEmpty(ts, k);
    }
    forall k' | k' in Push(grouped, t) ensures Push(grouped, t)[k'] == Members(ts + [t], k') {
      MembersSnoc(ts, t, k');
    }
  }

  /** Pushing a row adds its day to the keys exactly when the day is new. */
  lemma PushKeys(grouped: map<string, seq<Transaction>>, keys: seq<string>, t: Transaction)
    requires forall k :: k in grouped <==> k in keys
    ensures var keys' := if DayKey(t) in grouped then keys else keys + [DayKey(t)];
      forall k :: k in Push(grouped, t) <==> k in keys'
  {
  }

  /** The accumulator and its key order after the rows `seen`: the keys in
      first-seen order, and each key's list the members of its day. */
  ghost predicate Grouped(seen: seq<Transaction>, grouped: map<string, seq<Transaction>>, keys: seq<string>) {
    keys == FirstSeenKeys(seen) &&
    (forall k :: k in grouped <==> k in keys) &&
    (forall k :: k in grouped ==> grouped[k] == Members(seen, k))
  }

  /** One step of the reduce keeps the accumulator grouped. */
  lemma GroupStep(seen: seq<Transaction>, t: Transaction, grouped: map<string, seq<Transaction>>, keys: seq<string>)
    requires Grouped(seen, grouped, keys)
    ensures Grouped(seen + [t], Push(grouped, t), if DayKey(t) in grouped then keys else keys + [DayKey(t)])
  {
    FirstSeenSnoc(seen, t);
    PushMembers(seen, t, grouped);
    PushKeys(grouped, keys, t);
  }

  /** The reduce: each row pushed onto its day's list in the accumulator,
      a list created the first time its day is met. `keys` is the order of
      the accumulator's keys, that of their insertion. */
  method GroupByDay(ts: seq<Transaction>) returns (grouped: map<string, seq<Transaction>>, keys: seq<string>)
    ensures keys == FirstSeenKeys(ts)
    ensures forall k :: k in grouped <==> k in keys
    ensures forall k :: k in grouped ==> grouped[k] == Members(ts, k)
  {
    grouped := map[];
    keys := [];
    var i := 0;
    while i < |ts|
      invariant 0 <= i <= |ts|
      invariant Grouped(ts[..i], grouped, keys)
    {
      assert ts[..i + 1] == ts[..i] + [ts[i]];
      GroupStep(ts[..i], ts[i], grouped, keys);
      if DayKey(ts[i]) !in grouped {
        keys := keys + [DayKey(ts[i])];
      }
      grouped := Push(grouped, ts[i]);
      i := i + 1;
    }
    assert ts[..|ts|] == ts;
  }

  /** The number of rows over a list of days. */
  function GroupSizes(keys: seq<string>, ts: seq<Transaction>): nat {
    if keys == [] then 0 else |Members(ts, keys[0])| + GroupSizes(keys[1..], ts)
  }

  lemma {:induction false} GroupSizesAppend(keys: seq<string>, k: string, ts: seq<Transaction>)
    ensures GroupSizes(keys + [k], ts) == GroupSizes(keys, ts) + |Members(ts, k)|
  {
    if keys != [] {
      assert (keys + [k])[1..] == keys[1..] + [k];
      GroupSizesAppend(keys[1..], k, ts);
    } else {
      assert (keys + [k])[1..] == [];
    }
  }

  /** One more row adds one to the count over distinct days that include its
      day, and nothing otherwise. */
  lemma {:induction false} GroupSizesSnoc(keys: seq<string>, ts: seq<Transaction>, t: Transaction)
    requires Distinct(keys)
    ensures GroupSizes(keys, ts + [t]) == GroupSizes(keys, ts) + (if DayKey(t) in keys then 1 else 0)
  {
    if keys != [] {
      MembersSnoc(ts, t, keys[0]);
      assert Distinct(keys[1..]) by {
        forall i, j | 0 <= i < j < |keys[1..]| ensures keys[1..][i] != keys[1..][j] {
          assert keys[1..][i] == keys[i + 1] && keys[1..][j] == keys[j + 1];
        }
      }
      GroupSizesSnoc(keys[1..], ts, t);
      HeadNotInTail(keys);
      assert DayKey(t) in keys <==> DayKey(t) == keys[0] || DayKey(t) in keys[1..] by {
        assert keys == [keys[0]] + keys[1..];
      }
    }
  }

  /** Every row lands in exactly one group: the groups together hold as many
      rows as the input. */
  lemma {:induction false} GroupingKeepsCount(ts: seq<Transaction>)
    ensures GroupSizes(FirstSeenKeys(ts), ts) == |ts|
  {
    if ts != [] {
      var init := ts[..|ts| - 1];
      var t := ts[|ts| - 1];
      assert ts == init + [t];
      GroupingKeepsCount(init);
      var p := FirstSeenKeys(init);
      GroupSizesSnoc(p, init, t);
      if DayKey(t) !in p {
        GroupSizesAppend(p, DayKey(t), ts);
        MembersEmpty(init, DayKey(t));
        MembersSnoc(init, t, DayKey(t));
      }
    }
  }

  /** A row belongs to the group of its own day and to no other. */
  lemma RowInItsOwnGroupOnly(ts: seq<Transaction>, t: Transaction, k: string)
    requires t in ts
    ensures t in Members(ts, k) <==> k == DayKey(t)
    ensures DayKey(t) in FirstSeenKeys(ts)
  {
    FilterMultiset(ts, DayIs(k));
    assert t in multiset(ts);
    var j :| 0 <= j < |ts| && ts[j] == t;
  }

  function Identity(k: string): string { k }

  datatype DayGroup = DayGroup(day: string, rows: seq<Transaction>)

  /** What the list renders: the empty state, or the day groups in order. */
  datatype View = EmptyState | Days(groups: seq<DayGroup>)

  function GroupsFor(days: seq<string>, grouped: map<string, seq<Transaction>>): (r: seq<DayGroup>)
    requires forall k :: k in days ==> k in grouped
    ensures |r| == |days|
    ensures forall i :: 0 <= i < |days| ==> r[i] == DayGroup(days[i], grouped[days[i]])
  {
    if days == [] then [] else [DayGroup(days[0], grouped[days[0]])] + GroupsFor(days[1..], grouped)
  }

  /** The day keys sorted newest first: the same distinct keys, strictly
      descending. */
  lemma SortedDays(keys: seq<string>)
    requires Distinct(keys)
    ensures var s := SortBy(keys, Identity, true);
      |s| == |keys| && (forall k :: k in s <==> k in keys) &&
      (forall i, j :: 0 <= i < j < |s| ==> LexLt(s[j], s[i]))
  {
    var s := SortBy(keys, Identity, true);
    SortDistinct(keys, Identity, true);
    assert |s| == |keys| by {
      assert |multiset(s)| == |multiset(keys)|;
    }
    forall k ensures k in s <==> k in keys {
      assert k in s <==> k in multiset(s);
      assert k in keys <==> k in multiset(keys);
    }
    assert UniqueBy(s, Identity);
    StrictlySorted(s, Identity, true);
  }

  /** Groups over days that are exactly the days of the rows: every row's
      day has a group, and each group holds the members of its day. */
  lemma GroupsCoverRows(ts: seq<Transaction>, days: seq<string>, grouped: map<string, seq<Transaction>>)
    requires forall k :: k in days <==> k in FirstSeenKeys(ts)
    requires forall k :: k in days ==> k in grouped && grouped[k] == Members(ts, k)
    ensures var groups := GroupsFor(days, grouped);
      (forall i :: 0 <= i < |groups| ==> groups[i].rows == Members(ts, groups[i].day)) &&
      (forall i :: 0 <= i < |groups| ==> groups[i].day in FirstSeenKeys(ts)) &&
      (forall t :: t in ts ==> exists i :: 0 <= i < |groups| && groups[i].day == DayKey(t))
  {
    var groups := GroupsFor(days, grouped);
    forall t | t in ts ensures exists i :: 0 <= i < |groups| && groups[i].day == DayKey(t) {
      RowInItsOwnGroupOnly(ts, t, DayKey(t));
      var i :| 0 <= i < |days| && days[i] == DayKey(t);
      assert groups[i].day == DayKey(t);
    }
  }

  /** The component: the empty state for no rows; otherwise one group per
      day, days distinct and strictly newest first, each group holding the
      rows of its day in input order. */
  method Render(ts: seq<Transaction>) returns (v: View)
    ensures v.EmptyState? <==> ts == []
    ensures v.Days? ==> |v.groups| == |FirstSeenKeys(ts)|
    ensures v.Days? ==> forall i, j :: 0 <= i < j < |v.groups| ==> LexLt(v.groups[j].day, v.groups[i].day)
    ensures v.Days? ==> forall i :: 0 <= i < |v.groups| ==> v.groups[i].rows == Members(ts, v.groups[i].day)
    ensures v.Days? ==> forall i :: 0 <= i < |v.groups| ==> v.groups[i].day in FirstSeenKeys(ts)
    ensures v.Days? ==> forall t :: t in ts ==> exists i :: 0 <= i < |v.groups| && v.groups[i].day == DayKey(t)
  {
    if |ts| == 0 {
      return EmptyState;
    }
    var grouped, keys := GroupByDay(ts);
    var sortedDates := SortBy(keys, Identity, true);
    SortedDays(keys);
    GroupsCoverRows(ts, sortedDates, grouped);
    v := Days(GroupsFor(sortedDates, grouped));
  }
}

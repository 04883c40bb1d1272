/** Group-by aggregations used by the detectors: the number of rows per
    (IP, minute) bucket, and the set of distinct country codes per user.
    As in a pandas group-by, a row whose key is missing belongs to no group,
    and only groups with at least one row exist. */
module Grouping {
  import opened Records
  import opened Filtering

  /** A volumetric group key: one source IP during one minute. */
  datatype Bucket = Bucket(ip: string, minute: int)

  /** The bucket of a row, or None when its IP or minute is missing. */
  function BucketOf(e: Event): (b: Option<Bucket>)
    ensures b.Some? <==> e.ip.Some? && e.minute.Some?
    ensures b.Some? ==> b.value.ip == e.ip.value && b.value.minute == e.minute.value
  {
    if e.ip.Some? && e.minute.Some? then Some(Bucket(e.ip.value, e.minute.value)) else None
  }

  /** The row at position `i` lies in bucket `b`. */
  predicate InBucket(rows: seq<Event>, i: int, b: Bucket) {
    0 <= i < |rows| && BucketOf(rows[i]) == Some(b)
  }

  /** Size of every non-empty bucket (`groupby([ip, minute]).size()`). */
  function GroupSizes(rows: seq<Event>): (sizes: map<Bucket, nat>)
    ensures forall b :: b in sizes <==> exists i :: InBucket(rows, i, b)
    decreases |rows|
  {
    if |rows| == 0 then map[]
    else
      var init, last := rows[..|rows| - 1], rows[|rows| - 1];
      var sizes := GroupSizes(init);
      assert forall i, b :: InBucket(init, i, b) ==> InBucket(rows, i, b);
      assert forall i, b :: InBucket(rows, i, b) && i < |init| ==> InBucket(init, i, b);
      match BucketOf(last)
      case None => sizes
      case Some(b) =>
        assert InBucket(rows, |init|, b);
        sizes[b := if b in sizes then sizes[b] + 1 else 1]
  }

  /** Reference definition: positions of the rows that `keep` selects and
      that fall in bucket `b`. */
  function KeptInBucket(rows: seq<Event>, keep: Event -> bool, b: Bucket): set<int> {
    set i | 0 <= i < |rows| && keep(rows[i]) && BucketOf(rows[i]) == Some(b)
  }

  /** Reference count: how many selected rows fall in bucket `b`. */
  function BucketCount(rows: seq<Event>, keep: Event -> bool, b: Bucket): nat {
    |KeptInBucket(rows, keep, b)|
  }

  /** Appending one row adds one to its own bucket's count (when selected)
      and leaves every other count as it was. */
  lemma BucketCountSnoc(rows: seq<Event>, x: Event, keep: Event -> bool, b: Bucket)
    ensures BucketCount(rows + [x], keep, b) ==
            BucketCount(rows, keep, b) + (if keep(x) && BucketOf(x) == Some(b) then 1 else 0)
  {
    var s := rows + [x];
    var before := KeptInBucket(rows, keep, b);
    var after := KeptInBucket(s, keep, b);
    assert forall i :: 0 <= i < |rows| ==> s[i] == rows[i];
    var extra := if keep(x) && BucketOf(x) == Some(b) then {|rows|} else {};
    forall i | i in after ensures i in before + extra {
      if i < |rows| {
        assert s[i] == rows[i];
      }
    }
    forall i | i in before + extra ensures i in after {
      if i < |rows| {
        assert s[i] == rows[i];
      }
    }
    assert after == before + extra;
    assert |rows| !in before;
  }

  /** Appending one row to a table increments its bucket's size (creating
      the group when needed); a row without a bucket changes nothing. */
  lemma GroupSizesSnoc(s: seq<Event>, x: Event)
    ensures BucketOf(x).None? ==> GroupSizes(s + [x]) == GroupSizes(s)
    ensures BucketOf(x).Some? ==>
              var g, b := GroupSizes(s), BucketOf(x).value;
              GroupSizes(s + [x]) == g[b := if b in g then g[b] + 1 else 1]
  {
    assert (s + [x])[..|s|] == s;
  }

  /** One bucket of the group-by over the selected rows: the group exists
      exactly when some selected row falls in the bucket, and its size is
      the number of such rows. */
  lemma {:induction false} GroupSizeOfFilterAt(rows: seq<Event>, keep: Event -> bool, b: Bucket)
    ensures b in GroupSizes(Filter(rows, keep)) <==> BucketCount(rows, keep, b) > 0
    ensures b in GroupSizes(Filter(rows, keep)) ==>
              GroupSizes(Filter(rows, keep))[b] == BucketCount(rows, keep, b)
    decreases |rows|
  {
    if |rows| == 0 {
      assert KeptInBucket(rows, keep, b) == {};
    } else {
      var init, last := rows[..|rows| - 1], rows[|rows| - 1];
      assert rows == init + [last];
      GroupSizeOfFilterAt(init, keep, b);
      FilterSnoc(init, last, keep);
      BucketCountSnoc(init, last, keep, b);
      var f := Filter(init, keep);
      if keep(last) {
        GroupSizesSnoc(f, last);
      } else {
        assert Filter(rows, keep) == f + [] == f;
      }
    }
  }

  /** The group-by over the selected rows (`df[mask].groupby(...).size()`)
      has a group for exactly the buckets with a selected row, and each
      group's size is the number of selected rows in that bucket. */
  lemma GroupSizesOfFilter(rows: seq<Event>, keep: Event -> bool)
    ensures forall b :: b in GroupSizes(Filter(rows, keep)) <==> BucketCount(rows, keep, b) > 0
    ensures forall b :: b in GroupSizes(Filter(rows, keep)) ==>
              GroupSizes(Filter(rows, keep))[b] == BucketCount(rows, keep, b)
  {
    forall b
      ensures b in GroupSizes(Filter(rows, keep)) <==> BucketCount(rows, keep, b) > 0
      ensures b in GroupSizes(Filter(rows, keep)) ==>
                GroupSizes(Filter(rows, keep))[b] == BucketCount(rows, keep, b)
    {
      GroupSizeOfFilterAt(rows, keep, b);
    }
  }

  /** With no row filter (`df.groupby(...).size()`), every group's size is
      the number of rows in its bucket. */
  lemma GroupSizesCount(rows: seq<Event>)
    ensures forall b :: b in GroupSizes(rows) <==> BucketCount(rows, AnyRow, b) > 0
    ensures forall b :: b in GroupSizes(rows) ==> GroupSizes(rows)[b] == BucketCount(rows, AnyRow, b)
  {
    FilterAll(rows, AnyRow);
    GroupSizesOfFilter(rows, AnyRow);
  }

  /** The filter that keeps every row. */
  predicate AnyRow(e: Event) {
    true
  }

  /** The row at position `i` belongs to user `u`. */
  predicate OfUser(rows: seq<Event>, i: int, u: string) {
    0 <= i < |rows| && rows[i].uid == Some(u)
  }

  /** Country codes seen per user (`groupby(uid)[country]`, missing codes
      dropped). A user whose rows carry no code still has a (empty) group. */
  function CountrySets(rows: seq<Event>): (m: map<string, set<string>>)
    ensures forall u :: u in m <==> exists i :: OfUser(rows, i, u)
    decreases |rows|
  {
    if |rows| == 0 then map[]
    else
      var init, last := rows[..|rows| - 1], rows[|rows| - 1];
      var m := CountrySets(init);
      assert forall i, u :: OfUser(init, i, u) ==> OfUser(rows, i, u);
      assert forall i, u :: OfUser(rows, i, u) && i < |init| ==> OfUser(init, i, u);
      match last.uid
      case None => m
      case Some(u) =>
        assert OfUser(rows, |init|, u);
        var seen := if u in m then m[u] else {};
        m[u := if last.country.Some? then seen + {last.country.value} else seen]
  }

  /** Reference definition: the distinct non-missing country codes on the
      rows of user `u`. */
  function Countries(rows: seq<Event>, u: string): set<string> {
    set i | 0 <= i < |rows| && rows[i].uid == Some(u) && rows[i].country.Some? :: rows[i].country.value
  }

  /** A user with a country code has a row. */
  lemma CountriesHaveRows(rows: seq<Event>, u: string)
    ensures Countries(rows, u) != {} ==> exists i :: OfUser(rows, i, u)
  {
    if c :| c in Countries(rows, u) {
      var i :| 0 <= i < |rows| && rows[i].uid == Some(u) && rows[i].country.Some? && rows[i].country.value == c;
      assert OfUser(rows, i, u);
    }
  }

  /** Appending one row adds its country code to its own user's set only. */
  lemma CountriesSnoc(rows: seq<Event>, x: Event, u: string)
    ensures Countries(rows + [x], u) ==
            Countries(rows, u) + (if x.uid == Some(u) && x.country.Some? then {x.country.value} else {})
  {
    var s := rows + [x];
    assert forall i :: 0 <= i < |rows| ==> s[i] == rows[i];
    assert s[|rows|] == x;
  }

  /** The per-user group-by collects exactly the user's distinct country
      codes. */
  lemma {:induction false} CountrySetsCorrect(rows: seq<Event>)
    ensures forall u :: u in CountrySets(rows) ==> CountrySets(rows)[u] == Countries(rows, u)
    decreases |rows|
  {
    if |rows| > 0 {
      var init, last := rows[..|rows| - 1], rows[|rows| - 1];
      assert rows == init + [last];
      CountrySetsCorrect(init);
      forall u ensures Countries(rows, u) ==
                       Countries(init, u) + (if last.uid == Some(u) && last.country.Some? then {last.country.value} else {}) {
        CountriesSnoc(init, last, u);
      }
      forall u | u !in CountrySets(init)
        ensures Countries(init, u) == {}
      {
        CountriesHaveRows(init, u);
      }
    }
  }

  /** Number of distinct country codes per user (`nunique()`). */
  function CountryCounts(rows: seq<Event>): (counts: map<string, nat>)
    ensures forall u :: u in counts <==> exists i :: OfUser(rows, i, u)
    ensures forall u :: u in counts ==> counts[u] == |Countries(rows, u)|
  {
    CountrySetsCorrect(rows);
    var m := CountrySets(rows);
    map u | u in m :: |m[u]|
  }
}

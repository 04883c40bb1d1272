/** The per-platform summary of one detector's output: the number of flagged
    rows per platform, in ascending platform order (a sorted group-by), each
    tagged with the attack name. */
module Summary {
  import opened Records

  // ---------------------------------------------------------------------
  // String order
  // ---------------------------------------------------------------------

  /** Strict string order by code points, a proper prefix first (the order
      in which group keys are sorted). */
  predicate LexLess(a: string, b: string)
    decreases |a|
  {
    |b| > 0 && (|a| == 0 || a[0] < b[0] || (a[0] == b[0] && LexLess(a[1..], b[1..])))
  }

  /** No string is below itself. */
  lemma {:induction false} LexLessIrreflexive(a: string)
    ensures !LexLess(a, a)
    decreases |a|
  {
    if |a| > 0 {
      LexLessIrreflexive(a[1..]);
    }
  }

  /** The order is transitive. */
  lemma {:induction false} LexLessTransitive(a: string, b: string, c: string)
    requires LexLess(a, b) && LexLess(b, c)
    ensures LexLess(a, c)
    decreases |a|
  {
    if |a| > 0 && a[0] == b[0] && b[0] == c[0] {
      LexLessTransitive(a[1..], b[1..], c[1..]);
    }
  }

  /** Two different strings are ordered one way or the other. */
  lemma {:induction false} LexLessTotal(a: string, b: string)
    requires a != b
    ensures LexLess(a, b) || LexLess(b, a)
    decreases |a|
  {
    if |a| > 0 && |b| > 0 && a[0] == b[0] {
      assert a == [a[0]] + a[1..] && b == [b[0]] + b[1..];
      LexLessTotal(a[1..], b[1..]);
    }
  }

  // ---------------------------------------------------------------------
  // Tally: sorted (platform, count) entries
  // ---------------------------------------------------------------------

  /** One group of the tally. */
  datatype Entry = Entry(platform: string, count: nat)

  /** Platforms strictly ascending, hence pairwise different. */
  ghost predicate Sorted(t: seq<Entry>) {
    forall i, j :: 0 <= i < j < |t| ==> LexLess(t[i].platform, t[j].platform)
  }

  /** Every group holds at least one row. */
  ghost predicate Positive(t: seq<Entry>) {
    forall i :: 0 <= i < |t| ==> t[i].count >= 1
  }

  /** Platforms of the entries. */
  function Keys(t: seq<Entry>): set<string> {
    set i | 0 <= i < |t| :: t[i].platform
  }

  /** Count of the first entry for platform `p`, 0 when there is none. */
  function CountOf(t: seq<Entry>, p: string): nat {
    if |t| == 0 then 0
    else if t[0].platform == p then t[0].count
    else CountOf(t[1..], p)
  }

  /** Sum of the counts. */
  function Total(t: seq<Entry>): nat {
    if |t| == 0 then 0 else t[0].count + Total(t[1..])
  }

  /** A platform without an entry counts 0. */
  lemma {:induction false} CountOfAbsent(t: seq<Entry>, p: string)
    requires p !in Keys(t)
    ensures CountOf(t, p) == 0
  {
    if |t| > 0 {
      assert t[0].platform in Keys(t);
      assert Keys(t[1..]) <= Keys(t) by {
        forall q | q in Keys(t[1..]) ensures q in Keys(t) {
          var i :| 0 <= i < |t[1..]| && t[1..][i].platform == q;
          assert t[i + 1].platform == q;
        }
      }
      CountOfAbsent(t[1..], p);
    }
  }

  /** The platforms of a non-empty tally are its head's plus its tail's. */
  lemma KeysCons(t: seq<Entry>)
    requires |t| > 0
    ensures Keys(t) == {t[0].platform} + Keys(t[1..])
  {
    forall q | q in Keys(t) ensures q in {t[0].platform} + Keys(t[1..]) {
      var i :| 0 <= i < |t| && t[i].platform == q;
      if i > 0 {
        assert t[1..][i - 1].platform == q;
      }
    }
    forall q | q in Keys(t[1..]) ensures q in Keys(t) {
      var i :| 0 <= i < |t[1..]| && t[1..][i].platform == q;
      assert t[i + 1].platform == q;
    }
  }

  /** Adds one row of platform `p` to a tally: the platform's entry is
      incremented, or a new entry with count 1 is placed before the first
      larger platform. */
  function Insert(t: seq<Entry>, p: string): seq<Entry>
    decreases |t|
  {
    if |t| == 0 then [Entry(p, 1)]
    else if t[0].platform == p then [Entry(p, t[0].count + 1)] + t[1..]
    else if LexLess(p, t[0].platform) then [Entry(p, 1)] + t
    else [t[0]] + Insert(t[1..], p)
  }

  /** Inserting adds exactly the platform to the tally's platforms and one
      to its total. */
  lemma {:induction false} InsertKeysTotal(t: seq<Entry>, p: string)
    ensures Keys(Insert(t, p)) == Keys(t) + {p}
    ensures Total(Insert(t, p)) == Total(t) + 1
    ensures |Insert(t, p)| > 0
    decreases |t|
  {
    var r := Insert(t, p);
    if |t| == 0 {
      KeysCons(r);
      assert r[1..] == [];
    } else if t[0].platform == p {
      assert r[1..] == t[1..];
      KeysCons(r);
      KeysCons(t);
    } else if LexLess(p, t[0].platform) {
      assert r[1..] == t;
      KeysCons(r);
    } else {
      InsertKeysTotal(t[1..], p);
      assert r[1..] == Insert(t[1..], p);
      KeysCons(r);
      KeysCons(t);
    }
  }

  /** A platform below the first entry of a sorted tally has no entry. */
  lemma BelowHeadAbsent(t: seq<Entry>, p: string)
    requires Sorted(t) && |t| > 0 && LexLess(p, t[0].platform)
    ensures p !in Keys(t)
  {
    forall i | 0 <= i < |t| ensures t[i].platform != p {
      if i > 0 {
        LexLessTransitive(p, t[0].platform, t[i].platform);
      }
      LexLessIrreflexive(p);
    }
  }

  /** Inserting into a sorted tally of positive counts keeps it sorted and
      positive. */
  lemma {:induction false} InsertSorted(t: seq<Entry>, p: string)
    requires Sorted(t) && Positive(t)
    ensures Sorted(Insert(t, p)) && Positive(Insert(t, p))
    decreases |t|
  {
    var r := Insert(t, p);
    if |t| == 0 {
    } else if t[0].platform == p {
      assert r[1..] == t[1..];
    } else if LexLess(p, t[0].platform) {
      PrependSorted(t, p);
    } else {
      LexLessTotal(p, t[0].platform);
      InsertSorted(t[1..], p);
      InsertKeysTotal(t[1..], p);
      ConsSorted(t[0], Insert(t[1..], p), t[1..], p);
    }
  }

  /** A new first entry below the old first one keeps the tally sorted. */
  lemma PrependSorted(t: seq<Entry>, p: string)
    requires Sorted(t) && Positive(t) && |t| > 0 && LexLess(p, t[0].platform)
    ensures Sorted([Entry(p, 1)] + t) && Positive([Entry(p, 1)] + t)
  {
    var r := [Entry(p, 1)] + t;
    forall i, j | 0 <= i < j < |r| ensures LexLess(r[i].platform, r[j].platform) {
      if i == 0 && j > 1 {
        LexLessTransitive(p, t[0].platform, t[j - 1].platform);
      }
    }
  }

  /** Putting back an entry below every platform of a sorted tail (the old
      tail's platforms plus `p`) keeps the tally sorted. */
  lemma ConsSorted(head: Entry, rest: seq<Entry>, tail: seq<Entry>, p: string)
    requires Sorted(rest) && Positive(rest) && head.count >= 1
    requires Keys(rest) == Keys(tail) + {p}
    requires LexLess(head.platform, p)
    requires forall k :: 0 <= k < |tail| ==> LexLess(head.platform, tail[k].platform)
    ensures Sorted([head] + rest) && Positive([head] + rest)
  {
    var r := [head] + rest;
    forall j | 0 < j < |r| ensures LexLess(head.platform, r[j].platform) {
      assert r[j] == rest[j - 1];
      assert r[j].platform in Keys(rest);
      if r[j].platform != p {
        var k :| 0 <= k < |tail| && tail[k].platform == r[j].platform;
      }
    }
  }

  /** Inserting `p` into a sorted tally raises the count of `p` by one and
      leaves every other platform's count unchanged. */
  lemma {:induction false} InsertCount(t: seq<Entry>, p: string, q: string)
    requires Sorted(t)
    ensures CountOf(Insert(t, p), q) == CountOf(t, q) + (if q == p then 1 else 0)
    decreases |t|
  {
    var r := Insert(t, p);
    if |t| == 0 {
    } else if t[0].platform == p {
      assert r[1..] == t[1..];
    } else if LexLess(p, t[0].platform) {
      assert r[1..] == t;
      BelowHeadAbsent(t, p);
      CountOfAbsent(t, p);
    } else {
      InsertCount(t[1..], p, q);
      assert r[1..] == Insert(t[1..], p);
    }
  }

  // ---------------------------------------------------------------------
  // Reference counts over the rows
  // ---------------------------------------------------------------------

  /** Positions of the rows that carry platform `p`. */
  function RowsOfPlatform(rows: seq<Event>, p: string): set<int> {
    set i | 0 <= i < |rows| && rows[i].platform == p
  }

  /** Reference definition: how many rows carry platform `p`. */
  function PlatformCount(rows: seq<Event>, p: string): nat {
    |RowsOfPlatform(rows, p)|
  }

  /** The platforms that occur in the rows. */
  function Platforms(rows: seq<Event>): set<string> {
    set i | 0 <= i < |rows| :: rows[i].platform
  }

  /** Appending one row raises its own platform's count by one. */
  lemma PlatformCountSnoc(rows: seq<Event>, x: Event, p: string)
    ensures PlatformCount(rows + [x], p) == PlatformCount(rows, p) + (if x.platform == p then 1 else 0)
  {
    var s := rows + [x];
    var before := RowsOfPlatform(rows, p);
    var after := RowsOfPlatform(s, p);
    assert forall i :: 0 <= i < |rows| ==> s[i] == rows[i];
    if x.platform == p {
      assert after == before + {|rows|};
    } else {
      assert after == before;
    }
  }

  /** Appending one row adds its platform to the platform set. */
  lemma PlatformsSnoc(rows: seq<Event>, x: Event)
    ensures Platforms(rows + [x]) == Platforms(rows) + {x.platform}
  {
    var s := rows + [x];
    assert forall i :: 0 <= i < |rows| ==> s[i] == rows[i];
    assert s[|rows|] == x;
  }

  /** The group-by over the platform column, as a sorted tally whose counts
      are the number of rows of each platform. */
  function Tally(rows: seq<Event>): (t: seq<Entry>)
    ensures Sorted(t) && Positive(t)
    ensures Keys(t) == Platforms(rows)
    ensures Total(t) == |rows|
    ensures forall q :: CountOf(t, q) == PlatformCount(rows, q)
    decreases |rows|
  {
    if |rows| == 0 then
      assert forall q :: RowsOfPlatform(rows, q) == {};
      []
    else
      var init, last := rows[..|rows| - 1], rows[|rows| - 1];
      assert rows == init + [last];
      PlatformsSnoc(init, last);
      assert forall q :: PlatformCount(rows, q) == PlatformCount(init, q) + (if last.platform == q then 1 else 0) by {
        forall q ensures PlatformCount(rows, q) == PlatformCount(init, q) + (if last.platform == q then 1 else 0) {
          PlatformCountSnoc(init, last, q);
        }
      }
      var t := Tally(init);
      InsertKeysTotal(t, last.platform);
      InsertSorted(t, last.platform);
      assert forall q :: CountOf(Insert(t, last.platform), q) == CountOf(t, q) + (if q == last.platform then 1 else 0) by {
        forall q ensures CountOf(Insert(t, last.platform), q) == CountOf(t, q) + (if q == last.platform then 1 else 0) {
          InsertCount(t, last.platform, q);
        }
      }
      Insert(t, last.platform)
  }

  /** In a sorted tally, each entry is the first one for its platform. */
  lemma {:induction false} CountOfAt(t: seq<Entry>, i: int)
    requires Sorted(t) && 0 <= i < |t|
    ensures CountOf(t, t[i].platform) == t[i].count
  {
    if i > 0 {
      LexLessIrreflexive(t[i].platform);
      assert t[0].platform != t[i].platform;
      assert t[1..][i - 1] == t[i];
      CountOfAt(t[1..], i - 1);
    }
  }

  /** A sorted tally has as many entries as platforms. */
  lemma {:induction false} SortedKeysCard(t: seq<Entry>)
    requires Sorted(t)
    ensures |Keys(t)| == |t|
  {
    if |t| > 0 {
      KeysCons(t);
      SortedKeysCard(t[1..]);
      if t[0].platform in Keys(t[1..]) {
        var i :| 0 <= i < |t[1..]| && t[1..][i].platform == t[0].platform;
        assert LexLess(t[0].platform, t[i + 1].platform);
        LexLessIrreflexive(t[0].platform);
      }
    }
  }

  // ---------------------------------------------------------------------
  // Summary rows
  // ---------------------------------------------------------------------

  /** One summary line: platform, number of suspicious requests, attack. */
  datatype SummaryRow = SummaryRow(platform: string, requests: nat, attackType: string)

  /** Sum of the request counts of summary lines. */
  function SumRequests(s: seq<SummaryRow>): nat {
    if |s| == 0 then 0 else s[0].requests + SumRequests(s[1..])
  }

  /** Request totals add up over concatenated summaries. */
  lemma {:induction false} SumRequestsConcat(a: seq<SummaryRow>, b: seq<SummaryRow>)
    ensures SumRequests(a + b) == SumRequests(a) + SumRequests(b)
    decreases |a|
  {
    if |a| > 0 {
      assert (a + b)[0] == a[0];
      assert (a + b)[1..] == a[1..] + b;
      SumRequestsConcat(a[1..], b);
      assert SumRequests(a + b) == a[0].requests + SumRequests(a[1..] + b);
    } else {
      assert a + b == b;
    }
  }

  /** Tags every tally entry with the attack name. */
  function Tag(name: string, t: seq<Entry>): (s: seq<SummaryRow>)
    ensures |s| == |t|
    ensures forall i :: 0 <= i < |t| ==> s[i] == SummaryRow(t[i].platform, t[i].count, name)
    ensures SumRequests(s) == Total(t)
    decreases |t|
  {
    if |t| == 0 then []
    else
      var s := [SummaryRow(t[0].platform, t[0].count, name)] + Tag(name, t[1..]);
      assert s[1..] == Tag(name, t[1..]);
      s
  }

  /** The summary of one detector output: one line per distinct platform
      of the flagged rows, ascending, each with that platform's number of
      flagged rows (at least one) and the attack name; the counts add up to
      the number of flagged rows, and no rows give no lines. */
  function Summarize(name: string, rows: seq<Event>): (s: seq<SummaryRow>)
    ensures forall i :: 0 <= i < |s| ==> s[i].attackType == name
    ensures forall i :: 0 <= i < |s| ==> s[i].requests == PlatformCount(rows, s[i].platform) >= 1
    ensures forall p :: p in Platforms(rows) <==> exists i :: 0 <= i < |s| && s[i].platform == p
    ensures forall i, j :: 0 <= i < j < |s| ==> LexLess(s[i].platform, s[j].platform)
    ensures |s| == |Platforms(rows)|
    ensures SumRequests(s) == |rows|
    ensures rows == [] <==> s == []
  {
    var t := Tally(rows);
    forall i | 0 <= i < |t| ensures t[i].count == PlatformCount(rows, t[i].platform) {
      CountOfAt(t, i);
    }
    SortedKeysCard(t);
    Tag(name, t)
  }
}

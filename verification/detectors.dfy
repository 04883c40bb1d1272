/** The four rule-based attack detectors. Each one returns the rows of the
    normalised table that it flags, in table order; brute force, DDoS and
    geo-switch flag a whole key (IP or user) and return every row of it. */
module Detectors {
  import opened Records
  import opened Text
  import opened Filtering
  import opened Grouping

  /** The word that marks an authentication request path. */
  const LoginKeyword: string := "login"

  /** The path holds the login keyword, ignoring case; a missing path never
      matches. */
  predicate IsLoginRow(e: Event) {
    e.path.Some? && ContainsFold(e.path.value, LoginKeyword)
  }

  /** IPs of the groups whose size is over the threshold (`unique()` of the
      IP column after the count filter). */
  function HotIps(sizes: map<Bucket, nat>, threshold: nat): (ips: set<string>)
    ensures forall ip :: ip in ips <==> exists m :: Bucket(ip, m) in sizes && sizes[Bucket(ip, m)] > threshold
  {
    var ips := set b | b in sizes && sizes[b] > threshold :: b.ip;
    assert forall ip, m :: Bucket(ip, m) in sizes && sizes[Bucket(ip, m)] > threshold ==> ip in ips;
    ips
  }

  /** The row's IP is one of `ips` (`isin`; a missing IP is in no set). */
  predicate FromIps(e: Event, ips: set<string>) {
    e.ip.Some? && e.ip.value in ips
  }

  /** The `isin` mask for a set of IPs. */
  function IpMask(ips: set<string>): Event -> bool {
    e => FromIps(e, ips)
  }

  /** The `isin` mask for a set of users. */
  function UserMask(users: set<string>): Event -> bool {
    e => FromUsers(e, users)
  }

  /** The row's user is one of `users` (`isin`; a missing user is in no set). */
  predicate FromUsers(e: Event, users: set<string>) {
    e.uid.Some? && e.uid.value in users
  }

  // ---------------------------------------------------------------------
  // Reference rules
  // ---------------------------------------------------------------------

  /** Some minute bucket of `ip` holds more than `threshold` selected rows. */
  ghost predicate Burst(df: seq<Event>, keep: Event -> bool, ip: string, threshold: nat) {
    exists m :: BucketCount(df, keep, Bucket(ip, m)) > threshold
  }

  /** The brute-force rule for a row: its IP sent more than `threshold`
      login requests within one minute. */
  ghost predicate BruteForceSuspect(df: seq<Event>, threshold: nat, e: Event) {
    e.ip.Some? && Burst(df, IsLoginRow, e.ip.value, threshold)
  }

  /** The DDoS rule for a row: its IP sent more than `threshold` requests
      of any kind within one minute. */
  ghost predicate DdosSuspect(df: seq<Event>, threshold: nat, e: Event) {
    e.ip.Some? && Burst(df, AnyRow, e.ip.value, threshold)
  }

  /** The geo-switch rule for a row: its user appears with more than
      `threshold` distinct country codes over the whole table. */
  ghost predicate GeoSuspect(df: seq<Event>, threshold: nat, e: Event) {
    e.uid.Some? && |Countries(df, e.uid.value)| > threshold
  }

  /** The bot rule for a row, stated over windows of the user agent: some
      token appears in it ignoring case, or the duration is under the
      cut-off. */
  ghost predicate BotSuspect(tokens: seq<string>, cutoff: real, e: Event) {
    || (e.userAgent.Some? && exists k, i :: 0 <= k < |tokens| && FoldsAt(e.userAgent.value, tokens[k], i))
    || (e.duration.Some? && e.duration.value < cutoff)
  }

  // ---------------------------------------------------------------------
  // Detectors
  // ---------------------------------------------------------------------

  /** Brute force: login rows counted per (IP, minute); every row of an IP
      with a bucket over the threshold is returned. A row is returned
      exactly when its IP has a minute with more than `threshold` login
      rows, every copy of it is returned, and table order is kept. */
  function BruteForce(df: seq<Event>, threshold: nat): (r: seq<Event>)
    ensures forall e :: e in r <==> e in df && BruteForceSuspect(df, threshold, e)
    ensures forall e :: multiset(r)[e] == if BruteForceSuspect(df, threshold, e) then multiset(df)[e] else 0
    ensures SubSeq(r, df)
  {
    var ips := HotIps(GroupSizes(Filter(df, IsLoginRow)), threshold);
    HotIpsOfFilter(df, IsLoginRow, threshold);
    FilterSelects(df, IpMask(ips), e => BruteForceSuspect(df, threshold, e));
    Filter(df, IpMask(ips))
  }

  /** DDoS: all rows counted per (IP, minute); every row of an IP with a
      bucket over the threshold is returned. A row is returned exactly when
      its IP has a minute with more than `threshold` rows of any path, with
      all its copies, in table order. */
  function Ddos(df: seq<Event>, threshold: nat): (r: seq<Event>)
    ensures forall e :: e in r <==> e in df && DdosSuspect(df, threshold, e)
    ensures forall e :: multiset(r)[e] == if DdosSuspect(df, threshold, e) then multiset(df)[e] else 0
    ensures SubSeq(r, df)
  {
    var ips := HotIps(GroupSizes(df), threshold);
    FilterAll(df, AnyRow);
    HotIpsOfFilter(df, AnyRow, threshold);
    FilterSelects(df, IpMask(ips), e => DdosSuspect(df, threshold, e));
    Filter(df, IpMask(ips))
  }

  /** Users whose distinct-country count is over the threshold. */
  function FlaggedUsers(counts: map<string, nat>, threshold: nat): (users: set<string>)
    ensures forall u :: u in users <==> u in counts && counts[u] > threshold
  {
    set u | u in counts && counts[u] > threshold
  }

  /** The users flagged from the per-user country counts are exactly the
      users that occur in the table with more than `threshold` distinct
      non-missing country codes. */
  lemma FlaggedUsersCorrect(df: seq<Event>, threshold: nat)
    ensures forall u :: u in FlaggedUsers(CountryCounts(df), threshold) <==>
                        (exists i :: OfUser(df, i, u)) && |Countries(df, u)| > threshold
  {
  }

  /** Every user with more than `threshold` distinct country codes is
      flagged: such a user has a row, hence a group. */
  lemma GeoSuspectFlagged(df: seq<Event>, threshold: nat, e: Event)
    requires GeoSuspect(df, threshold, e)
    ensures FromUsers(e, FlaggedUsers(CountryCounts(df), threshold))
  {
    CountriesHaveRows(df, e.uid.value);
  }

  /** VPN / geo switch: every row of a user seen from more than `threshold`
      distinct countries. A row is returned exactly when it has a user with
      more than `threshold` distinct non-missing country codes over the
      whole table, with all its copies, in table order. */
  function VpnGeo(df: seq<Event>, threshold: nat): (r: seq<Event>)
    ensures forall e :: e in r <==> e in df && GeoSuspect(df, threshold, e)
    ensures forall e :: multiset(r)[e] == if GeoSuspect(df, threshold, e) then multiset(df)[e] else 0
    ensures SubSeq(r, df)
  {
    var users := FlaggedUsers(CountryCounts(df), threshold);
    assert forall e :: GeoSuspect(df, threshold, e) ==> FromUsers(e, users) by {
      forall e | GeoSuspect(df, threshold, e) ensures FromUsers(e, users) {
        GeoSuspectFlagged(df, threshold, e);
      }
    }
    FilterSelects(df, UserMask(users), e => GeoSuspect(df, threshold, e));
    Filter(df, UserMask(users))
  }

  /** Per-row bot test: the user agent holds an automation token ignoring
      case (a missing agent never does), or the duration is below the
      cut-off (a missing duration never is). */
  predicate IsBotLike(e: Event, tokens: seq<string>, cutoff: real) {
    || (e.userAgent.Some? && MatchesAnyToken(e.userAgent.value, tokens))
    || (e.duration.Some? && e.duration.value < cutoff)
  }

  /** The bot mask. */
  function BotMask(tokens: seq<string>, cutoff: real): Event -> bool {
    e => IsBotLike(e, tokens, cutoff)
  }

  /** The bot test agrees with the window-level reference rule. */
  lemma IsBotLikeCorrect(e: Event, tokens: seq<string>, cutoff: real)
    ensures IsBotLike(e, tokens, cutoff) <==> BotSuspect(tokens, cutoff, e)
  {
    if e.userAgent.Some? {
      var ua := e.userAgent.value;
      forall k | 0 <= k < |tokens|
        ensures ContainsFold(ua, tokens[k]) <==> exists i :: FoldsAt(ua, tokens[k], i)
      {
        ContainsFoldCorrect(ua, tokens[k]);
      }
    }
  }

  /** The bot mask agrees with the reference rule on every row. */
  lemma BotMaskCorrect(tokens: seq<string>, cutoff: real)
    ensures forall e :: BotMask(tokens, cutoff)(e) <==> BotSuspect(tokens, cutoff, e)
  {
    forall e ensures IsBotLike(e, tokens, cutoff) <==> BotSuspect(tokens, cutoff, e) {
      IsBotLikeCorrect(e, tokens, cutoff);
    }
  }

  /** Bot-like: the rows that pass the per-row bot test. A row is returned
      exactly when one of the tokens occurs in its user agent ignoring case,
      or its duration is below the cut-off (either condition suffices),
      with all its copies, in table order. */
  function Bots(df: seq<Event>, tokens: seq<string>, cutoff: real): (r: seq<Event>)
    ensures forall e :: e in r <==> e in df && BotSuspect(tokens, cutoff, e)
    ensures forall e :: multiset(r)[e] == if BotSuspect(tokens, cutoff, e) then multiset(df)[e] else 0
    ensures SubSeq(r, df)
  {
    BotMaskCorrect(tokens, cutoff);
    FilterSelects(df, BotMask(tokens, cutoff), e => BotSuspect(tokens, cutoff, e));
    Filter(df, BotMask(tokens, cutoff))
  }

  // ---------------------------------------------------------------------
  // Soundness and completeness
  // ---------------------------------------------------------------------

  /** The hot IPs of a group-by over selected rows are exactly the IPs with
      a burst of selected rows. */
  lemma HotIpsOfFilter(df: seq<Event>, keep: Event -> bool, threshold: nat)
    ensures forall ip :: ip in HotIps(GroupSizes(Filter(df, keep)), threshold) <==> Burst(df, keep, ip, threshold)
  {
    GroupSizesOfFilter(df, keep);
  }

  /** The path test agrees with the window-level reference: a row is a
      login row exactly when its path is present and some window of it
      equals `login` after lower-casing. */
  lemma IsLoginRowCorrect(e: Event)
    ensures IsLoginRow(e) <==> e.path.Some? && exists i :: FoldsAt(e.path.value, LoginKeyword, i)
  {
    if e.path.Some? {
      ContainsFoldCorrect(e.path.value, LoginKeyword);
    }
  }

  /** The keyed detectors flag whole keys: when a row is returned, every
      row of the table with the same IP (brute force, DDoS) or the same user
      (geo switch) is returned too, including the IP's non-login rows. */
  lemma WholeKeyReturned(df: seq<Event>, threshold: nat)
    ensures forall e, e' :: e in BruteForce(df, threshold) && e' in df && e'.ip == e.ip ==>
                            e' in BruteForce(df, threshold)
    ensures forall e, e' :: e in Ddos(df, threshold) && e' in df && e'.ip == e.ip ==>
                            e' in Ddos(df, threshold)
    ensures forall e, e' :: e in VpnGeo(df, threshold) && e' in df && e'.uid == e.uid ==>
                            e' in VpnGeo(df, threshold)
  {
  }

  // ---------------------------------------------------------------------
  // Monotonicity
  // ---------------------------------------------------------------------

  /** A higher brute-force threshold returns a subsequence of the rows. */
  lemma BruteForceMono(df: seq<Event>, low: nat, high: nat)
    requires low <= high
    ensures SubSeq(BruteForce(df, high), BruteForce(df, low))
  {
    var g := GroupSizes(Filter(df, IsLoginRow));
    var hi, lo := HotIps(g, high), HotIps(g, low);
    FilterMono(df, IpMask(hi), IpMask(lo));
  }

  /** A higher DDoS threshold returns a subsequence of the rows. */
  lemma DdosMono(df: seq<Event>, low: nat, high: nat)
    requires low <= high
    ensures SubSeq(Ddos(df, high), Ddos(df, low))
  {
    var g := GroupSizes(df);
    var hi, lo := HotIps(g, high), HotIps(g, low);
    FilterMono(df, IpMask(hi), IpMask(lo));
  }

  /** A higher geo-switch threshold returns a subsequence of the rows. */
  lemma VpnGeoMono(df: seq<Event>, low: nat, high: nat)
    requires low <= high
    ensures SubSeq(VpnGeo(df, high), VpnGeo(df, low))
  {
    var c := CountryCounts(df);
    var hi, lo := FlaggedUsers(c, high), FlaggedUsers(c, low);
    FilterMono(df, UserMask(hi), UserMask(lo));
  }

  /** A lower duration cut-off, or a token list that keeps only some of the
      tokens, returns a subsequence of the bot rows. */
  lemma BotsMono(df: seq<Event>, tokens: seq<string>, more: seq<string>, low: real, high: real)
    requires low <= high
    requires forall k :: 0 <= k < |tokens| ==> tokens[k] in more
    ensures SubSeq(Bots(df, tokens, low), Bots(df, more, high))
  {
    forall e | IsBotLike(e, tokens, low)
      ensures IsBotLike(e, more, high)
    {
      if e.userAgent.Some? && MatchesAnyToken(e.userAgent.value, tokens) {
        MatchesAnyTokenMono(e.userAgent.value, tokens, more);
      }
    }
    FilterMono(df, BotMask(tokens, low), BotMask(more, high));
  }

  // ---------------------------------------------------------------------
  // Buckets: what counts, and the exact threshold boundary
  // ---------------------------------------------------------------------

  /** A row that is not selected, or has no IP or no minute, falls in no
      bucket: adding it to the table changes no bucket count, so no burst
      appears or disappears. */
  lemma UncountedRowChangesNoBurst(df: seq<Event>, x: Event, keep: Event -> bool, threshold: nat)
    requires !keep(x) || x.ip.None? || x.minute.None?
    ensures forall b :: BucketCount(df + [x], keep, b) == BucketCount(df, keep, b)
    ensures forall ip :: Burst(df + [x], keep, ip, threshold) <==> Burst(df, keep, ip, threshold)
  {
    forall b ensures BucketCount(df + [x], keep, b) == BucketCount(df, keep, b) {
      BucketCountSnoc(df, x, keep, b);
    }
  }

  /** Rows with a missing path, or with a missing minute (unparsable start
      time), never contribute to a brute-force bucket. */
  lemma BruteForceIgnoresUncounted(df: seq<Event>, x: Event, threshold: nat)
    requires x.path.None? || x.minute.None?
    ensures forall ip :: Burst(df + [x], IsLoginRow, ip, threshold) <==> Burst(df, IsLoginRow, ip, threshold)
  {
    UncountedRowChangesNoBurst(df, x, IsLoginRow, threshold);
  }

  /** Rows with a missing minute never contribute to a DDoS bucket. */
  lemma DdosIgnoresNullMinute(df: seq<Event>, x: Event, threshold: nat)
    requires x.minute.None?
    ensures forall ip :: Burst(df + [x], AnyRow, ip, threshold) <==> Burst(df, AnyRow, ip, threshold)
  {
    UncountedRowChangesNoBurst(df, x, AnyRow, threshold);
  }

  /** When every row is selected and lies in bucket `b`, that bucket counts
      every row and every other bucket counts none. */
  lemma {:induction false} SingleBucketCount(df: seq<Event>, keep: Event -> bool, b: Bucket)
    requires forall i :: 0 <= i < |df| ==> keep(df[i]) && BucketOf(df[i]) == Some(b)
    ensures BucketCount(df, keep, b) == |df|
    ensures forall b' :: b' != b ==> BucketCount(df, keep, b') == 0
    decreases |df|
  {
    if |df| == 0 {
      forall b' ensures KeptInBucket(df, keep, b') == {} { }
    } else {
      var init, last := df[..|df| - 1], df[|df| - 1];
      assert df == init + [last];
      SingleBucketCount(init, keep, b);
      BucketCountSnoc(init, last, keep, b);
      forall b' | b' != b ensures BucketCount(df, keep, b') == 0 {
        BucketCountSnoc(init, last, keep, b');
      }
    }
  }

  /** A table whose rows all fall in one selected bucket flags its IP exactly
      when it has more rows than the threshold. */
  lemma SingleBucketBurst(df: seq<Event>, keep: Event -> bool, b: Bucket, threshold: nat)
    requires forall i :: 0 <= i < |df| ==> keep(df[i]) && BucketOf(df[i]) == Some(b)
    ensures Burst(df, keep, b.ip, threshold) <==> |df| > threshold
  {
    SingleBucketCount(df, keep, b);
    if Burst(df, keep, b.ip, threshold) {
      var m :| BucketCount(df, keep, Bucket(b.ip, m)) > threshold;
      assert Bucket(b.ip, m) == b;
    }
    assert b == Bucket(b.ip, b.minute);
  }

  /** Brute-force boundary: `n` login requests from one IP within one
      minute are all returned when `n` exceeds the threshold, and none is
      returned otherwise (so at the default 10, ten requests pass and eleven
      are flagged). */
  lemma BruteForceBoundary(df: seq<Event>, ip: string, m: int, threshold: nat)
    requires forall i :: 0 <= i < |df| ==> IsLoginRow(df[i]) && df[i].ip == Some(ip) && df[i].minute == Some(m)
    ensures BruteForce(df, threshold) == if |df| > threshold then df else []
  {
    SingleBucketBurst(df, IsLoginRow, Bucket(ip, m), threshold);
    var ips := HotIps(GroupSizes(Filter(df, IsLoginRow)), threshold);
    HotIpsOfFilter(df, IsLoginRow, threshold);
    if |df| > threshold {
      FilterAll(df, IpMask(ips));
    } else {
      FilterNone(df, IpMask(ips));
    }
  }

  /** DDoS boundary: `n` requests from one IP within one minute are all
      returned when `n` exceeds the threshold, none otherwise (at the
      default 100, a hundred requests pass and a hundred and one are
      flagged). */
  lemma DdosBoundary(df: seq<Event>, ip: string, m: int, threshold: nat)
    requires forall i :: 0 <= i < |df| ==> df[i].ip == Some(ip) && df[i].minute == Some(m)
    ensures Ddos(df, threshold) == if |df| > threshold then df else []
  {
    SingleBucketBurst(df, AnyRow, Bucket(ip, m), threshold);
    var ips := HotIps(GroupSizes(df), threshold);
    FilterAll(df, AnyRow);
    HotIpsOfFilter(df, AnyRow, threshold);
    if |df| > threshold {
      FilterAll(df, IpMask(ips));
    } else {
      FilterNone(df, IpMask(ips));
    }
  }
}

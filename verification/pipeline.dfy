/** One detection run: load the rows, run the four detectors with their
    thresholds, and concatenate the four per-platform summaries. */
module Pipeline {
  import opened Records
  import opened Text
  import opened Filtering
  import opened Grouping
  import opened Detectors
  import opened Summary

  /** The tunable parameters of the detectors. */
  datatype Config = Config(
    bruteThreshold: nat,
    ddosThreshold: nat,
    geoThreshold: nat,
    botTokens: seq<string>,
    botCutoff: real)

  /** The automation tokens searched for in user agents by default. */
  const DefaultBotTokens: seq<string> := ["bot", "curl", "python", "scrapy", "wget"]

  /** The values the dashboard uses. */
  const Defaults: Config := Config(10, 100, 2, DefaultBotTokens, 0.3)

  const BruteForceName: string := "Brute Force"
  const GeoName: string := "VPN/Geo Switch"
  const BotName: string := "Bot-like"
  const DdosName: string := "DDoS"

  /** The rows flagged by each detector. */
  datatype Detection = Detection(
    bruteForce: seq<Event>,
    vpnGeo: seq<Event>,
    bots: seq<Event>,
    ddos: seq<Event>)

  /** Runs the four independent detectors on the same table. Each output
      holds exactly the rows meeting that detector's rule, every copy of
      them, in table order. */
  function RunDetectors(df: seq<Event>, cfg: Config): (d: Detection)
    ensures SubSeq(d.bruteForce, df) && SubSeq(d.vpnGeo, df)
    ensures SubSeq(d.bots, df) && SubSeq(d.ddos, df)
    ensures forall e :: e in d.bruteForce <==> e in df && BruteForceSuspect(df, cfg.bruteThreshold, e)
    ensures forall e :: e in d.vpnGeo <==> e in df && GeoSuspect(df, cfg.geoThreshold, e)
    ensures forall e :: e in d.bots <==> e in df && BotSuspect(cfg.botTokens, cfg.botCutoff, e)
    ensures forall e :: e in d.ddos <==> e in df && DdosSuspect(df, cfg.ddosThreshold, e)
    ensures forall e :: multiset(d.bruteForce)[e] ==
                        if BruteForceSuspect(df, cfg.bruteThreshold, e) then multiset(df)[e] else 0
    ensures forall e :: multiset(d.vpnGeo)[e] ==
                        if GeoSuspect(df, cfg.geoThreshold, e) then multiset(df)[e] else 0
    ensures forall e :: multiset(d.bots)[e] ==
                        if BotSuspect(cfg.botTokens, cfg.botCutoff, e) then multiset(df)[e] else 0
    ensures forall e :: multiset(d.ddos)[e] ==
                        if DdosSuspect(df, cfg.ddosThreshold, e) then multiset(df)[e] else 0
  {
    Detection(BruteForce(df, cfg.bruteThreshold), VpnGeo(df, cfg.geoThreshold),
              Bots(df, cfg.botTokens, cfg.botCutoff), Ddos(df, cfg.ddosThreshold))
  }

  /** No detector returns more rows than the table has. */
  lemma DetectionBounded(df: seq<Event>, cfg: Config)
    ensures var d := RunDetectors(df, cfg);
            |d.bruteForce| <= |df| && |d.vpnGeo| <= |df| && |d.bots| <= |df| && |d.ddos| <= |df|
  {
    var d := RunDetectors(df, cfg);
    SubSeqMultiset(d.bruteForce, df);
    SubSeqMultiset(d.vpnGeo, df);
    SubSeqMultiset(d.bots, df);
    SubSeqMultiset(d.ddos, df);
    assert |d.bruteForce| <= |df| by { assert |multiset(d.bruteForce)| <= |multiset(df)|; }
    assert |d.vpnGeo| <= |df| by { assert |multiset(d.vpnGeo)| <= |multiset(df)|; }
    assert |d.bots| <= |df| by { assert |multiset(d.bots)| <= |multiset(df)|; }
    assert |d.ddos| <= |df| by { assert |multiset(d.ddos)| <= |multiset(df)|; }
  }

  /** The attack names of the four detectors. */
  const AttackNames: set<string> := {BruteForceName, GeoName, BotName, DdosName}

  /** Position of each attack's block in the concatenated summary. */
  function Rank(name: string): nat {
    if name == BruteForceName then 0
    else if name == GeoName then 1
    else if name == BotName then 2
    else 3
  }

  /** Selects the summary lines of one attack. */
  function NameMask(name: string): SummaryRow -> bool {
    (r: SummaryRow) => r.attackType == name
  }

  /** The summary lines that carry attack name `name`, in order. */
  function Lines(s: seq<SummaryRow>, name: string): seq<SummaryRow> {
    Filter(s, NameMask(name))
  }

  /** Every line carries one of the attack names and a positive count. */
  ghost predicate WellTagged(s: seq<SummaryRow>) {
    forall i :: 0 <= i < |s| ==> s[i].attackType in AttackNames && s[i].requests >= 1
  }

  /** The lines appear attack by attack, in the order of `Rank`. */
  ghost predicate RankOrdered(s: seq<SummaryRow>) {
    forall i, j :: 0 <= i < j < |s| ==> Rank(s[i].attackType) <= Rank(s[j].attackType)
  }

  /** No line ranks after attack number `k`. */
  ghost predicate RanksAtMost(s: seq<SummaryRow>, k: nat) {
    forall i :: 0 <= i < |s| ==> Rank(s[i].attackType) <= k
  }

  /** The summary of one detector is well tagged. */
  lemma SummarizeWellTagged(name: string, rows: seq<Event>)
    requires name in AttackNames
    ensures WellTagged(Summarize(name, rows))
    ensures SumRequests(Summarize(name, rows)) == |rows|
  {
  }

  /** Concatenation keeps summaries well tagged and adds their totals. */
  lemma ConcatWellTagged(a: seq<SummaryRow>, b: seq<SummaryRow>)
    requires WellTagged(a) && WellTagged(b)
    ensures WellTagged(a + b)
    ensures SumRequests(a + b) == SumRequests(a) + SumRequests(b)
  {
    SumRequestsConcat(a, b);
    forall i | 0 <= i < |a + b|
      ensures (a + b)[i].attackType in AttackNames && (a + b)[i].requests >= 1
    {
      if i >= |a| {
        assert (a + b)[i] == b[i - |a|];
      }
    }
  }

  /** Appending a block of attack number `k` after lines ranked at most `k`
      keeps the attack order. */
  lemma AppendBlock(a: seq<SummaryRow>, b: seq<SummaryRow>, k: nat)
    requires RankOrdered(a) && RanksAtMost(a, k)
    requires forall j :: 0 <= j < |b| ==> Rank(b[j].attackType) == k
    ensures RankOrdered(a + b) && RanksAtMost(a + b, k)
  {
    forall i | 0 <= i < |a + b| ensures Rank((a + b)[i].attackType) <= k {
      if i >= |a| {
        assert (a + b)[i] == b[i - |a|];
      }
    }
    forall i, j | 0 <= i < j < |a + b|
      ensures Rank((a + b)[i].attackType) <= Rank((a + b)[j].attackType)
    {
      if j >= |a| {
        assert (a + b)[j] == b[j - |a|];
      }
    }
  }

  /** The lines of a block tagged with one attack name under some attack
      name: all of them for its own name, none for another. */
  lemma LinesOfTagged(s: seq<SummaryRow>, name: string, n: string)
    requires forall i :: 0 <= i < |s| ==> s[i].attackType == name
    ensures Lines(s, n) == if n == name then s else []
  {
    if n == name {
      FilterAll(s, NameMask(n));
    } else {
      FilterNone(s, NameMask(n));
    }
  }

  /** Selecting one attack's lines distributes over four blocks. */
  lemma LinesOfBlocks(a: seq<SummaryRow>, b: seq<SummaryRow>, c: seq<SummaryRow>, e: seq<SummaryRow>, n: string)
    ensures Lines(a + b + c + e, n) == Lines(a, n) + Lines(b, n) + Lines(c, n) + Lines(e, n)
  {
    FilterConcat(a + b + c, e, NameMask(n));
    FilterConcat(a + b, c, NameMask(n));
    FilterConcat(a, b, NameMask(n));
  }

  /** In four blocks tagged with the four attack names, the lines of each
      name are exactly its own block. */
  lemma AttackLines(a: seq<SummaryRow>, b: seq<SummaryRow>, c: seq<SummaryRow>, e: seq<SummaryRow>)
    requires forall i :: 0 <= i < |a| ==> a[i].attackType == BruteForceName
    requires forall i :: 0 <= i < |b| ==> b[i].attackType == GeoName
    requires forall i :: 0 <= i < |c| ==> c[i].attackType == BotName
    requires forall i :: 0 <= i < |e| ==> e[i].attackType == DdosName
    ensures Lines(a + b + c + e, BruteForceName) == a
    ensures Lines(a + b + c + e, GeoName) == b
    ensures Lines(a + b + c + e, BotName) == c
    ensures Lines(a + b + c + e, DdosName) == e
  {
    var s := a + b + c + e;
    assert Lines(s, BruteForceName) == a by {
      LinesOfBlocks(a, b, c, e, BruteForceName);
      LinesOfTagged(a, BruteForceName, BruteForceName);
      LinesOfTagged(b, GeoName, BruteForceName);
      LinesOfTagged(c, BotName, BruteForceName);
      LinesOfTagged(e, DdosName, BruteForceName);
      assert a + [] + [] + [] == a;
    }
    assert Lines(s, GeoName) == b by {
      LinesOfBlocks(a, b, c, e, GeoName);
      LinesOfTagged(a, BruteForceName, GeoName);
      LinesOfTagged(b, GeoName, GeoName);
      LinesOfTagged(c, BotName, GeoName);
      LinesOfTagged(e, DdosName, GeoName);
      assert [] + b + [] + [] == b;
    }
    assert Lines(s, BotName) == c by {
      LinesOfBlocks(a, b, c, e, BotName);
      LinesOfTagged(a, BruteForceName, BotName);
      LinesOfTagged(b, GeoName, BotName);
      LinesOfTagged(c, BotName, BotName);
      LinesOfTagged(e, DdosName, BotName);
      assert [] + [] + c + [] == c;
    }
    assert Lines(s, DdosName) == e by {
      LinesOfBlocks(a, b, c, e, DdosName);
      LinesOfTagged(a, BruteForceName, DdosName);
      LinesOfTagged(b, GeoName, DdosName);
      LinesOfTagged(c, BotName, DdosName);
      LinesOfTagged(e, DdosName, DdosName);
      assert [] + [] + [] + e == e;
    }
  }

  /** Four blocks tagged with the four attack names, in this order, are in
      attack order. */
  lemma BlocksInOrder(a: seq<SummaryRow>, b: seq<SummaryRow>, c: seq<SummaryRow>, e: seq<SummaryRow>)
    requires forall i :: 0 <= i < |a| ==> a[i].attackType == BruteForceName
    requires forall i :: 0 <= i < |b| ==> b[i].attackType == GeoName
    requires forall i :: 0 <= i < |c| ==> c[i].attackType == BotName
    requires forall i :: 0 <= i < |e| ==> e[i].attackType == DdosName
    ensures RankOrdered(a + b + c + e)
  {
    AppendBlock([], a, 0);
    assert [] + a == a;
    AppendBlock(a, b, 1);
    AppendBlock(a + b, c, 2);
    AppendBlock(a + b + c, e, 3);
  }

  /** Four blocks tagged with the four attack names, one after the other:
      each name selects exactly its own block, and the totals add up. */
  function Blocks(a: seq<SummaryRow>, b: seq<SummaryRow>, c: seq<SummaryRow>, e: seq<SummaryRow>): (s: seq<SummaryRow>)
    requires forall i :: 0 <= i < |a| ==> a[i].attackType == BruteForceName
    requires forall i :: 0 <= i < |b| ==> b[i].attackType == GeoName
    requires forall i :: 0 <= i < |c| ==> c[i].attackType == BotName
    requires forall i :: 0 <= i < |e| ==> e[i].attackType == DdosName
    ensures Lines(s, BruteForceName) == a && Lines(s, GeoName) == b
    ensures Lines(s, BotName) == c && Lines(s, DdosName) == e
    ensures SumRequests(s) == SumRequests(a) + SumRequests(b) + SumRequests(c) + SumRequests(e)
  {
    AttackLines(a, b, c, e);
    SumRequestsConcat(a, b);
    SumRequestsConcat(a + b, c);
    SumRequestsConcat(a + b + c, e);
    a + b + c + e
  }

  /** The four summaries one after the other (`pd.concat`). The lines of
      each attack name are exactly that detector's summary, and the request
      counts add up to the number of flagged rows over the four detectors. */
  function AttackSummary(d: Detection): (s: seq<SummaryRow>)
    ensures Lines(s, BruteForceName) == Summarize(BruteForceName, d.bruteForce)
    ensures Lines(s, GeoName) == Summarize(GeoName, d.vpnGeo)
    ensures Lines(s, BotName) == Summarize(BotName, d.bots)
    ensures Lines(s, DdosName) == Summarize(DdosName, d.ddos)
    ensures SumRequests(s) == |d.bruteForce| + |d.vpnGeo| + |d.bots| + |d.ddos|
  {
    Blocks(Summarize(BruteForceName, d.bruteForce), Summarize(GeoName, d.vpnGeo),
           Summarize(BotName, d.bots), Summarize(DdosName, d.ddos))
  }

  /** The attack summary's blocks come in the order brute force, geo
      switch, bots, DDoS, and every line carries one of the four names and
      a positive count. */
  lemma AttackSummaryOrder(d: Detection)
    ensures forall i, j :: 0 <= i < j < |AttackSummary(d)| ==>
              Rank(AttackSummary(d)[i].attackType) <= Rank(AttackSummary(d)[j].attackType)
    ensures forall i :: 0 <= i < |AttackSummary(d)| ==>
              AttackSummary(d)[i].attackType in AttackNames && AttackSummary(d)[i].requests >= 1
  {
    var a := Summarize(BruteForceName, d.bruteForce);
    var b := Summarize(GeoName, d.vpnGeo);
    var c := Summarize(BotName, d.bots);
    var e := Summarize(DdosName, d.ddos);
    assert AttackSummary(d) == a + b + c + e;
    BlocksInOrder(a, b, c, e);
    SummarizeWellTagged(BruteForceName, d.bruteForce);
    SummarizeWellTagged(GeoName, d.vpnGeo);
    SummarizeWellTagged(BotName, d.bots);
    SummarizeWellTagged(DdosName, d.ddos);
    ConcatWellTagged(a, b);
    ConcatWellTagged(a + b, c);
    ConcatWellTagged(a + b + c, e);
  }

  /** The whole run from raw rows: the loaded table's flagged rows per
      detector, exactly the rows meeting that detector's rule with every
      copy, and the attack summary, whose lines under each attack name are
      that detector's per-platform summary, which totals the flagged rows, reports at most four suspicious
      requests per log row (each detector flags each row at most once), and
      is empty for an empty log. */
  function Analyse(raws: seq<RawRecord>, cfg: Config): (r: (Detection, seq<SummaryRow>))
    ensures var df, d := ReadData(raws), r.0;
            && (forall e :: e in d.bruteForce <==> e in df && BruteForceSuspect(df, cfg.bruteThreshold, e))
            && (forall e :: e in d.vpnGeo <==> e in df && GeoSuspect(df, cfg.geoThreshold, e))
            && (forall e :: e in d.bots <==> e in df && BotSuspect(cfg.botTokens, cfg.botCutoff, e))
            && (forall e :: e in d.ddos <==> e in df && DdosSuspect(df, cfg.ddosThreshold, e))
    ensures var df, d := ReadData(raws), r.0;
            && (forall e :: multiset(d.bruteForce)[e] ==
                            if BruteForceSuspect(df, cfg.bruteThreshold, e) then multiset(df)[e] else 0)
            && (forall e :: multiset(d.vpnGeo)[e] ==
                            if GeoSuspect(df, cfg.geoThreshold, e) then multiset(df)[e] else 0)
            && (forall e :: multiset(d.bots)[e] ==
                            if BotSuspect(cfg.botTokens, cfg.botCutoff, e) then multiset(df)[e] else 0)
            && (forall e :: multiset(d.ddos)[e] ==
                            if DdosSuspect(df, cfg.ddosThreshold, e) then multiset(df)[e] else 0)
    ensures Lines(r.1, BruteForceName) == Summarize(BruteForceName, r.0.bruteForce)
    ensures Lines(r.1, GeoName) == Summarize(GeoName, r.0.vpnGeo)
    ensures Lines(r.1, BotName) == Summarize(BotName, r.0.bots)
    ensures Lines(r.1, DdosName) == Summarize(DdosName, r.0.ddos)
    ensures SumRequests(r.1) == |r.0.bruteForce| + |r.0.vpnGeo| + |r.0.bots| + |r.0.ddos|
    ensures SumRequests(r.1) <= 4 * |raws|
    ensures raws == [] ==> r.1 == []
  {
    var df := ReadData(raws);
    var d := RunDetectors(df, cfg);
    DetectionBounded(df, cfg);
    (d, AttackSummary(d))
  }

  // ---------------------------------------------------------------------
  // Scenarios at the default thresholds
  // ---------------------------------------------------------------------

  /** A login request from 10.0.0.1 at 12:00:30 on a mixed-case path. */
  const LoginRequest: Event := Event(Some(43230), Some(43200), Some("10.0.0.1"), Some("u1"),
    Some("/api/v1/LogIn"), Some("Mozilla/5.0"), Some(1.5), Some("IN"), None, "web")

  /** The mixed-case path is recognised as a login path. */
  lemma LoginRequestIsLogin()
    ensures IsLoginRow(LoginRequest)
  {
    var path := "/api/v1/LogIn";
    assert LowerStr(path[8..13]) == LowerStr(LoginKeyword);
    ContainsFoldAt(path, LoginKeyword, 8);
  }

  /** Ten login requests from one IP within one minute are not flagged as
      brute force at the default threshold; eleven are. */
  lemma BruteForceTenVersusEleven()
    ensures BruteForce(seq(10, _ => LoginRequest), Defaults.bruteThreshold) == []
    ensures BruteForce(seq(11, _ => LoginRequest), Defaults.bruteThreshold) == seq(11, _ => LoginRequest)
  {
    LoginRequestIsLogin();
    BruteForceBoundary(seq(10, _ => LoginRequest), "10.0.0.1", 43200, 10);
    BruteForceBoundary(seq(11, _ => LoginRequest), "10.0.0.1", 43200, 10);
  }

  /** A hundred requests from one IP within one minute are not flagged as
      DDoS at the default threshold; a hundred and one are. */
  lemma DdosHundredVersusHundredOne(e: Event)
    requires e.ip.Some? && e.minute.Some?
    ensures Ddos(seq(100, _ => e), Defaults.ddosThreshold) == []
    ensures Ddos(seq(101, _ => e), Defaults.ddosThreshold) == seq(101, _ => e)
  {
    DdosBoundary(seq(100, _ => e), e.ip.value, e.minute.value, 100);
    DdosBoundary(seq(101, _ => e), e.ip.value, e.minute.value, 100);
  }

  /** A request of user u7 from the given country. */
  function FromCountry(c: string): Event {
    Event(Some(0), Some(0), Some("10.0.0.2"), Some("u7"), Some("/feed"), Some("Mozilla/5.0"),
          Some(2.0), Some(c), Some("ios"), "ios")
  }

  /** The three rows of u7 carry three distinct codes. */
  lemma ThreeCountriesOfU7()
    ensures |Countries([FromCountry("IN"), FromCountry("US"), FromCountry("DE")], "u7")| == 3
  {
    var a, b, c := FromCountry("IN"), FromCountry("US"), FromCountry("DE");
    CountriesSnoc([], a, "u7");
    CountriesSnoc([a], b, "u7");
    CountriesSnoc([a, b], c, "u7");
    assert [] + [a] == [a] && [a] + [b] == [a, b] && [a, b] + [c] == [a, b, c];
    assert Countries([], "u7") == {};
    var s := Countries([a, b, c], "u7");
    assert s == {"IN"} + {"US"} + {"DE"};
    assert "IN" != "US" && "US" != "DE" && "IN" != "DE";
    assert |{"IN"} + {"US"}| == 2;
  }

  /** A user seen from three distinct countries is flagged as a geo switch
      at the default threshold: every row of the user is returned. */
  lemma GeoThreeCountries()
    ensures var df := [FromCountry("IN"), FromCountry("US"), FromCountry("DE")];
            VpnGeo(df, Defaults.geoThreshold) == df
  {
    var a, b, c := FromCountry("IN"), FromCountry("US"), FromCountry("DE");
    var df := [a, b, c];
    ThreeCountriesOfU7();
    var counts := CountryCounts(df);
    assert OfUser(df, 0, "u7");
    assert counts["u7"] == 3;
    var users := FlaggedUsers(counts, 2);
    assert "u7" in users;
    FilterAll(df, UserMask(users));
  }

  /** The three rows of u7 carry only two distinct codes. */
  lemma TwoCountriesOfU7()
    ensures |Countries([FromCountry("IN"), FromCountry("US"), FromCountry("IN")], "u7")| == 2
  {
    var a, b := FromCountry("IN"), FromCountry("US");
    CountriesSnoc([], a, "u7");
    CountriesSnoc([a], b, "u7");
    CountriesSnoc([a, b], a, "u7");
    assert [] + [a] == [a] && [a] + [b] == [a, b] && [a, b] + [a] == [a, b, a];
    assert Countries([], "u7") == {};
    var s := Countries([a, b, a], "u7");
    assert s == {"IN"} + {"US"};
    assert "IN" != "US";
  }

  /** A user seen from only two distinct countries is not flagged as a geo
      switch at the default threshold. */
  lemma GeoTwoCountries()
    ensures var df := [FromCountry("IN"), FromCountry("US"), FromCountry("IN")];
            VpnGeo(df, Defaults.geoThreshold) == []
  {
    var a, b := FromCountry("IN"), FromCountry("US");
    var df := [a, b, a];
    TwoCountriesOfU7();
    var counts := CountryCounts(df);
    var users := FlaggedUsers(counts, 2);
    assert "u7" !in users;
    FilterNone(df, UserMask(users));
  }

  /** A request whose user agent names a scripting library is bot-like
      whatever its duration, even a missing one. */
  lemma BotByUserAgent(d: Option<real>)
    ensures var e := Event(Some(0), Some(0), Some("10.0.0.3"), None, Some("/home"),
                           Some("python-requests/2.31"), d, None, None, "web");
            Bots([e], Defaults.botTokens, Defaults.botCutoff) == [e]
  {
    var ua := "python-requests/2.31";
    var e := Event(Some(0), Some(0), Some("10.0.0.3"), None, Some("/home"),
                   Some(ua), d, None, None, "web");
    assert LowerStr(ua[0..6]) == LowerStr(DefaultBotTokens[2]);
    ContainsFoldAt(ua, DefaultBotTokens[2], 0);
    assert MatchesAnyToken(ua, DefaultBotTokens);
    FilterAll([e], BotMask(DefaultBotTokens, 0.3));
  }

  /** A very short request from a browser is bot-like too (either condition
      suffices). */
  lemma BotByDuration()
    ensures var e := Event(Some(0), Some(0), Some("10.0.0.4"), None, Some("/home"),
                           Some("Mozilla/5.0"), Some(0.1), None, None, "android");
            Bots([e], Defaults.botTokens, Defaults.botCutoff) == [e]
  {
    var e := Event(Some(0), Some(0), Some("10.0.0.4"), None, Some("/home"),
                   Some("Mozilla/5.0"), Some(0.1), None, None, "android");
    FilterAll([e], BotMask(DefaultBotTokens, 0.3));
  }

  /** A request with no user agent and a normal duration is not bot-like:
      a missing agent matches only through the duration. */
  lemma NoUserAgentNormalDuration()
    ensures var e := Event(Some(0), Some(0), Some("10.0.0.5"), None, Some("/home"),
                           None, Some(1.0), None, None, "web");
            Bots([e], Defaults.botTokens, Defaults.botCutoff) == []
  {
    var e := Event(Some(0), Some(0), Some("10.0.0.5"), None, Some("/home"),
                   None, Some(1.0), None, None, "web");
    FilterNone([e], BotMask(DefaultBotTokens, 0.3));
  }
}

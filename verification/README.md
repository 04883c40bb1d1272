# Rule-based API attack detection, modelled in Dafny

This project models the detection core of the "360° API Attack Detection"
dashboard. An operator uploads one day of API access logs. The dashboard
normalises the rows, runs four rule-based detectors over them, and shows a
per-platform summary of the suspicious requests.

- **Normalisation** (`read_data`): the parsed start time is floored to its
  minute; an unparsable start time leaves both missing. The platform column
  is the source platform, or `"web"` when that cell is missing.
- **Brute force**: rows whose request path contains `login`, ignoring case,
  are counted per (IP, minute). Every row of an IP with a bucket above 10
  is returned.
- **DDoS**: all rows are counted per (IP, minute). Every row of an IP with a
  bucket above 100 is returned.
- **VPN / geo switch**: distinct non-missing country codes are counted per
  user over the whole table. Every row of a user with more than 2 is
  returned.
- **Bot-like**: a per-row test. The user agent contains one of
  `bot|curl|python|scrapy|wget` ignoring case, OR the duration is below 0.3.
- **Summary**: each detector's rows are counted per platform, in ascending
  platform order, and tagged with the attack name. The four summaries are
  concatenated.

The model is a pure pipeline over sequences of immutable rows. Missing
cells (pandas NaN/NaT) are `None`. A group-by drops rows whose key is
missing. The values the detectors pass to `isin` come from such group-bys
(app.py:22-23, app.py:27-28, app.py:37-38), so they never include a missing
key, and a row with a missing key is never selected by `isin`. The thresholds (10, 100, 2),
the token list and the duration cut-off (0.3) are parameters;
`Pipeline.Defaults` holds the dashboard's values. Each detector is stated
twice:
- as the source computes it: mask, then group-by size or `nunique`, then
  threshold, then `unique`, then `isin`;
- as an independent reference rule over index sets of the table.

The contract of each detector function connects the two, in both
directions and with every copy of a row.

Files, one module each: `records.dfy` (rows and normalisation), `text.dfy`
(case-insensitive substring search), `filtering.dfy` (boolean-mask selection
and the subsequence relation), `grouping.dfy` (group-by sizes and per-user
country sets), `detectors.dfy` (the four rules), `summary.dfy` (per-platform
summary), `pipeline.dfy` (configuration, the full run, concrete scenarios).

What the dashboard does not do, and the model does not either:
- Detectors return the flagged rows, not a separate flag set.
- The dashboard has no top-N ranking, no cross-detector de-duplication, no
  per-detector column check and no degrade-on-missing-column behaviour.
- The platform default replaces missing cells only. The CSV reader already
  turns empty cells into missing ones.

## Model

| member | source | states |
|---|---|---|
| Records.FloorToMinute | app.py:16 | the minute is aligned to 60 s and holds the time: `m <= t < m + 60`, for negative times too |
| Records.BucketIsUnique | app.py:16 | a time lies in exactly one minute bucket: any aligned start whose half-open minute holds `t` is the floor of `t` |
| Records.MinuteOf | app.py:15-16 | the minute is missing exactly when the start time is missing; otherwise it is aligned and holds the time |
| Records.Normalise | app.py:13-18 | every raw column is kept; the minute is missing iff the time is; the minute holds the time; the platform is the source value or `"web"` |
| Records.ReadData | app.py:13-18 | loading keeps one row per raw row, in order, with every raw column unchanged; the minute is missing iff the start time is, and otherwise is aligned to 60 s and holds the start time; the platform is the source value, or `"web"` when missing |
| Records.ReadDataBuckets | app.py:15-16 | after loading, the unique aligned minute holding a row's start time is that row's minute |
| Text.Lower | app.py:21 | ASCII case folding of one character: a capital becomes the small letter at the same alphabet position, other characters are unchanged, no capital remains |
| Text.LowerStr | app.py:21 | folding a string keeps its length, folds each character, and leaves no capital |
| Text.LowerStrIdempotent | app.py:21 | folding twice is folding once |
| Text.CaseFolds | app.py:21 | a small letter and its capital fold to the same character |
| Text.SearchCorrect | app.py:21 | the left-to-right search succeeds exactly when the needle occurs at some position |
| Text.ContainsFoldCorrect | app.py:21 | case-insensitive `contains` holds exactly when some window of the text equals the needle after lower-casing both |
| Text.ContainsFoldAt | app.py:21 | one matching window is enough for case-insensitive containment |
| Text.MatchesAnyTokenMono | app.py:32 | a text matching a token list still matches any list that holds all of those tokens |
| Filtering.Filter | app.py:24 | the masked table is no longer than the table and holds only rows of the table that pass the mask |
| Filtering.FilterSnoc | app.py:24 | a mask over a table with one more row keeps that row exactly when it passes |
| Filtering.FilterConcat | app.py:24 | masking a concatenation masks each part |
| Filtering.FilterMultiset | app.py:24 | a masked table keeps every copy of a passing row and no copy of a failing row |
| Filtering.FilterMono | app.py:24 | a mask that passes more rows gives a table of which the smaller result is a subsequence |
| Filtering.FilterSelects | app.py:24 | a mask equal on every row to a reference predicate keeps exactly the rows meeting it: all their copies, in order, as a subsequence |
| Filtering.FilterSubSeq | app.py:34 | masking creates no rows and does not reorder them |
| Filtering.FilterAll | app.py:24 | a mask that passes every row returns the table unchanged |
| Filtering.FilterNone | app.py:24 | a mask that passes no row returns the empty table |
| Filtering.FilterExt | app.py:24 | two masks that agree on every row select the same rows |
| Filtering.SubSeqMultiset | app.py:24 | a subsequence holds only rows of the table and never more copies of one |
| Grouping.GroupSizes | app.py:37 | the group-by has a group for exactly the buckets that some row falls in |
| Grouping.BucketCountSnoc | app.py:22 | one more row raises its own bucket's count by one, when the row is selected, and no other count |
| Grouping.GroupSizesSnoc | app.py:37 | one more row increments its bucket's size, creating the group if needed; a row without a bucket changes nothing |
| Grouping.GroupSizeOfFilterAt | app.py:21-22 | over the login rows, a bucket's group exists iff some selected row is in it, and its size is the number of selected rows in it |
| Grouping.GroupSizesOfFilter | app.py:21-22 | the same for every bucket at once |
| Grouping.GroupSizesCount | app.py:37 | without a mask, every group's size is the number of rows in its bucket, and only non-empty buckets have groups |
| Grouping.CountrySets | app.py:27 | the per-user group-by has a group for exactly the users that occur, including users with no country code |
| Grouping.CountriesHaveRows | app.py:27 | a user with a country code has a row |
| Grouping.CountriesSnoc | app.py:27 | one more row adds its country code to its own user's set only |
| Grouping.CountrySetsCorrect | app.py:27 | each user's collected set is exactly the user's distinct non-missing country codes |
| Grouping.CountryCounts | app.py:27 | `nunique` per user is the number of the user's distinct non-missing country codes, for exactly the users present |
| Detectors.FlaggedUsersCorrect | app.py:27-28 | the flagged users are exactly the users that occur in the table with more than `threshold` distinct non-missing country codes |
| Detectors.GeoSuspectFlagged | app.py:27-29 | a row whose user has more than `threshold` distinct country codes passes the `isin` mask of the flagged users |
| Detectors.IsLoginRowCorrect | app.py:21 | a row is a login row iff its path is present and some window of it equals `login` after lower-casing |
| Detectors.HotIpsOfFilter | app.py:21-23 | the selected IPs are exactly those with some minute holding more selected rows than the threshold |
| Detectors.BruteForce | app.py:20-24 | a row is returned iff its IP is present and has a minute with more than `threshold` login rows; every copy of it is returned, in table order |
| Detectors.Ddos | app.py:36-39 | a row is returned iff its IP is present and has a minute with more than `threshold` rows of any path; every copy, in table order |
| Detectors.VpnGeo | app.py:26-29 | a row is returned iff its user is present and has more than `threshold` distinct non-missing country codes in the whole table; every copy, in table order |
| Detectors.WholeKeyReturned | app.py:24-39 | brute force and DDoS return every row of a flagged IP, including its non-login rows; geo switch returns every row of a flagged user |
| Detectors.IsBotLikeCorrect | app.py:32-33 | the bot test holds iff some token matches a window of the present user agent ignoring case, or the present duration is below the cut-off |
| Detectors.BotMaskCorrect | app.py:32-34 | the bot mask agrees on every row with the window-level reference rule |
| Detectors.Bots | app.py:31-34 | a row is returned iff a token occurs in its present user agent ignoring case or its present duration is below the cut-off (either suffices); every copy, in table order |
| Detectors.BruteForceMono | app.py:23-24 | a higher brute-force threshold returns a subsequence of the rows |
| Detectors.DdosMono | app.py:38-39 | a higher DDoS threshold returns a subsequence of the rows |
| Detectors.VpnGeoMono | app.py:28-29 | a higher geo threshold returns a subsequence of the rows |
| Detectors.BotsMono | app.py:32-34 | a lower duration cut-off, or a smaller token list, returns a subsequence of the bot rows |
| Detectors.UncountedRowChangesNoBurst | app.py:21-22 | a row that is not selected, or lacks an IP or minute, changes no bucket count and so no burst |
| Detectors.BruteForceIgnoresUncounted | app.py:21-22 | rows with a missing path or a missing minute never contribute to a brute-force bucket |
| Detectors.DdosIgnoresNullMinute | app.py:37 | rows with a missing minute never contribute to a DDoS bucket |
| Detectors.SingleBucketCount | app.py:22 | when every row is selected and in one bucket, that bucket counts all rows and every other bucket counts none |
| Detectors.SingleBucketBurst | app.py:22-23 | such a table has a burst iff it has more rows than the threshold |
| Detectors.BruteForceBoundary | app.py:21-24 | `n` login rows from one IP in one minute are all returned when `n > threshold` and none otherwise |
| Detectors.DdosBoundary | app.py:37-39 | `n` rows from one IP in one minute are all returned when `n > threshold` and none otherwise |
| Summary.LexLessIrreflexive | app.py:42 | the group-key string order is irreflexive |
| Summary.LexLessTransitive | app.py:42 | the group-key string order is transitive |
| Summary.LexLessTotal | app.py:42 | any two different strings are ordered |
| Summary.CountOfAbsent | app.py:42 | a platform without an entry counts zero |
| Summary.KeysCons | app.py:42 | the platforms of a tally are its first entry's plus the rest's |
| Summary.InsertKeysTotal | app.py:42 | adding a row adds exactly its platform to the key set and one to the total |
| Summary.BelowHeadAbsent | app.py:42 | a platform below a sorted tally's first key has no entry |
| Summary.InsertSorted | app.py:42 | adding a row keeps the tally strictly ascending with positive counts |
| Summary.PrependSorted | app.py:42 | a new first entry below the old first keeps the tally ascending |
| Summary.ConsSorted | app.py:42 | restoring the first entry before a sorted grown tail keeps the tally ascending |
| Summary.InsertCount | app.py:42 | adding a row raises its own platform's count by one and no other |
| Summary.PlatformCountSnoc | app.py:42 | one more row raises its own platform's reference count by one |
| Summary.PlatformsSnoc | app.py:42 | one more row adds its platform to the platform set |
| Summary.Tally | app.py:42 | the platform group-by is ascending with one positive entry per occurring platform; each count is that platform's number of rows; the counts sum to the number of rows |
| Summary.CountOfAt | app.py:42 | in a sorted tally each entry is the only one for its platform |
| Summary.SortedKeysCard | app.py:42 | a sorted tally has as many entries as distinct platforms |
| Summary.SumRequestsConcat | app.py:62-67 | request totals add over concatenated summaries |
| Summary.Tag | app.py:43 | tagging keeps each entry's platform and count, adds the attack name, and keeps the total |
| Summary.Summarize | app.py:41-44 | one ascending line per distinct platform of the rows, each with that platform's row count (at least 1) and the attack name; the counts sum to the number of rows; no rows give no lines |
| Pipeline.RunDetectors | app.py:57-60 | each detector's output is a subsequence of the table; a row is in it iff it meets that detector's reference rule, and then with every copy the table holds |
| Pipeline.DetectionBounded | app.py:57-60 | no detector returns more rows than the table has |
| Pipeline.SummarizeWellTagged | app.py:41-44 | a detector's summary carries a known attack name and positive counts on every line, and totals its rows |
| Pipeline.ConcatWellTagged | app.py:62-67 | concatenating summaries keeps them well tagged and adds their totals |
| Pipeline.LinesOfTagged | app.py:43 | the lines of a block tagged with one name are all selected by that name and none by another |
| Pipeline.LinesOfBlocks | app.py:62-67 | selecting one attack's lines distributes over the concatenated blocks |
| Pipeline.AttackLines | app.py:62-67 | in four blocks tagged with the four names, each name selects exactly its own block |
| Pipeline.AppendBlock | app.py:62-67 | appending a block of a later attack keeps the lines in attack order |
| Pipeline.BlocksInOrder | app.py:62-67 | the blocks tagged brute force, geo switch, bots, DDoS, in this order, are in attack order |
| Pipeline.Blocks | app.py:62-67 | the concatenation of four tagged blocks gives each name exactly its own block and adds up their totals |
| Pipeline.AttackSummary | app.py:62-67 | the lines named "Brute Force", "VPN/Geo Switch", "Bot-like" and "DDoS" are exactly the summaries of the matching detectors' rows; the totals add up to the four detectors' row counts |
| Pipeline.AttackSummaryOrder | app.py:62-67 | the summary lists the brute force, geo switch, bot and DDoS blocks in this order; every line carries one of the four names and a positive count |
| Pipeline.Analyse | app.py:48-67 | on the loaded table each detector returns exactly the rows meeting its rule, with every copy; the lines under each attack name are that detector's per-platform summary; the summary totals the flagged rows, reports at most four requests per log row, and is empty for an empty log |
| Pipeline.LoginRequestIsLogin | app.py:21 | a mixed-case `/api/v1/LogIn` path counts as a login path |
| Pipeline.BruteForceTenVersusEleven | app.py:21-24 | at the default threshold, 10 login rows from one IP in one minute are not flagged and 11 are all returned |
| Pipeline.DdosHundredVersusHundredOne | app.py:37-39 | at the default threshold, 100 rows from one IP in one minute are not flagged and 101 are all returned |
| Pipeline.ThreeCountriesOfU7 | app.py:27 | the three-country example user has three distinct codes |
| Pipeline.TwoCountriesOfU7 | app.py:27 | the two-country example user has two distinct codes |
| Pipeline.GeoThreeCountries | app.py:26-29 | at the default threshold, a user seen from three countries has all rows returned |
| Pipeline.GeoTwoCountries | app.py:26-29 | at the default threshold, a user seen from two countries is not flagged |
| Pipeline.BotByUserAgent | app.py:32-34 | a `python-requests/2.31` agent is bot-like whatever its duration, missing included |
| Pipeline.BotByDuration | app.py:33-34 | a 0.1 s request from a browser agent is bot-like |
| Pipeline.NoUserAgentNormalDuration | app.py:32-34 | a row without a user agent and with a 1.0 s duration is not bot-like |

## Left out

- The page layout, upload widget, buttons, tables, `head(...)` previews and
  result caching (app.py:5-12, app.py:46-84) are presentation only. The
  concatenation of the four summaries at app.py:62-67 is modelled.
- CSV reading and date parsing (app.py:14-15) are outside the model. A start
  time arrives as whole seconds, or `None` when it could not be parsed.
  Sub-second precision and time zones are not modelled. Flooring
  nanoseconds to the minute gives the same minute as flooring whole seconds.
- The conversion of the duration column to float (app.py:33) is not
  modelled: a duration is a `real`, or `None` for a missing cell (NaN, which
  is never below the cut-off). Binary floating-point rounding is not
  modelled; durations are compared as exact decimals.
- Text.ContainsFold: folds ASCII letters only. Python's case-insensitive
  regular expressions also pair a few non-ASCII letters with ASCII ones
  (for example the dotless `ı` with `i`). Such letters in a path or user
  agent are not treated as matches.
- Detectors.IsBotLike: tokens are plain words searched as substrings, as
  the dashboard's `bot|curl|python|scrapy|wget` pattern is. Regular-expression
  syntax inside a configured token is not interpreted.
- Detectors.IsLoginRow, Detectors.IsBotLike: a text column whose every
  cell is empty, or whose cells are all numbers, is loaded by the CSV reader
  as a numeric column. `.str.contains` on it (app.py:21, app.py:32) then
  raises and the run stops. The model has no column types: such a column
  is a column of missing or non-matching cells, and the detector returns
  no row through it (a one-row log without a user agent, as in
  Pipeline.NoUserAgentNormalDuration, would make the source raise).
- A column missing from the uploaded file makes the source raise; every
  modelled row carries every column, possibly as a missing value.
- Key columns (IP, user id, country code, platform) are strings. Numeric or mixed-type
  cells, whose equality pandas decides by dtype, are not modelled.
- model.py (signup spike and bot detection) is not part of this model. Its
  detection delegates to an isolation-forest model whose behaviour is not
  visible, and its chat feature calls an external language-model service.

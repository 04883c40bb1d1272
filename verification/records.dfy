/** Log rows before and after the light normalisation applied when a log file
    is loaded: the start time is floored to its minute and the platform column
    gets a default. */
module Records {

  /** A possibly missing cell of the table (pandas NaN / NaT). */
  datatype Option<+T> = None | Some(value: T)

  /** Seconds in one time bucket. */
  const MinuteWidth: int := 60

  /** The platform given to rows whose source platform is missing. */
  const DefaultPlatform: string := "web"

  /** One row of the uploaded log, with its start time already parsed to whole
      seconds (None when the text could not be parsed). */
  datatype RawRecord = RawRecord(
    startTime: Option<int>,
    ip: Option<string>,
    uid: Option<string>,
    path: Option<string>,
    userAgent: Option<string>,
    duration: Option<real>,
    country: Option<string>,
    srcPlatform: Option<string>)

  /** A normalised row: the raw columns plus the derived minute and platform. */
  datatype Event = Event(
    startTime: Option<int>,
    minute: Option<int>,
    ip: Option<string>,
    uid: Option<string>,
    path: Option<string>,
    userAgent: Option<string>,
    duration: Option<real>,
    country: Option<string>,
    srcPlatform: Option<string>,
    platform: string)

  /** Start of the minute containing second `t` (floor toward minus infinity,
      also for times before the epoch). */
  function FloorToMinute(t: int): (m: int)
    ensures m % MinuteWidth == 0
    ensures m <= t < m + MinuteWidth
  {
    t - t % MinuteWidth
  }

  /** A time lies in exactly one minute bucket: any minute-aligned start whose
      half-open interval holds `t` is the floor of `t`. */
  lemma BucketIsUnique(t: int, m: int)
    requires m % MinuteWidth == 0
    requires m <= t < m + MinuteWidth
    ensures m == FloorToMinute(t)
  {
    var f := FloorToMinute(t);
    assert f % MinuteWidth == 0 && f <= t < f + MinuteWidth;
    assert m - f < MinuteWidth && f - m < MinuteWidth;
    assert (m - f) % MinuteWidth == 0 by {
      assert m == (m / MinuteWidth) * MinuteWidth;
      assert f == (f / MinuteWidth) * MinuteWidth;
      assert m - f == (m / MinuteWidth - f / MinuteWidth) * MinuteWidth;
    }
  }

  /** The minute column: missing exactly when the start time is missing. */
  function MinuteOf(t: Option<int>): (m: Option<int>)
    ensures m.None? <==> t.None?
    ensures m.Some? ==> m.value % MinuteWidth == 0
    ensures m.Some? ==> m.value <= t.value < m.value + MinuteWidth
  {
    match t
    case None => None
    case Some(s) => Some(FloorToMinute(s))
  }

  /** The platform column: the source platform, or the default when missing. */
  function PlatformOf(src: Option<string>): (p: string)
    ensures src.Some? ==> p == src.value
    ensures src.None? ==> p == DefaultPlatform
  {
    match src
    case Some(s) => s
    case None => DefaultPlatform
  }

  /** Normalisation of one row: every raw column is kept, minute and
      platform are added. */
  function Normalise(raw: RawRecord): (e: Event)
    ensures e.startTime == raw.startTime && e.ip == raw.ip && e.uid == raw.uid
    ensures e.path == raw.path && e.userAgent == raw.userAgent
    ensures e.duration == raw.duration && e.country == raw.country
    ensures e.srcPlatform == raw.srcPlatform
    ensures e.minute.None? <==> raw.startTime.None?
    ensures e.minute.Some? ==> e.minute.value % MinuteWidth == 0
    ensures e.minute.Some? ==> e.minute.value <= raw.startTime.value < e.minute.value + MinuteWidth
    ensures raw.srcPlatform.Some? ==> e.platform == raw.srcPlatform.value
    ensures raw.srcPlatform.None? ==> e.platform == DefaultPlatform
  {
    Event(raw.startTime, MinuteOf(raw.startTime), raw.ip, raw.uid, raw.path,
          raw.userAgent, raw.duration, raw.country, raw.srcPlatform,
          PlatformOf(raw.srcPlatform))
  }

  /** The whole table after loading: one row per raw row, in order. Every
      raw column is kept; the minute is missing exactly when the start time
      is, and otherwise is the aligned minute that holds it; the platform is
      the source platform, or the default when that cell is missing. */
  function ReadData(raws: seq<RawRecord>): (df: seq<Event>)
    ensures |df| == |raws|
    ensures forall i :: 0 <= i < |raws| ==>
              && df[i].startTime == raws[i].startTime && df[i].ip == raws[i].ip
              && df[i].uid == raws[i].uid && df[i].path == raws[i].path
              && df[i].userAgent == raws[i].userAgent && df[i].duration == raws[i].duration
              && df[i].country == raws[i].country && df[i].srcPlatform == raws[i].srcPlatform
    ensures forall i :: 0 <= i < |raws| ==> (df[i].minute.None? <==> raws[i].startTime.None?)
    ensures forall i :: 0 <= i < |raws| && df[i].minute.Some? ==>
              && df[i].minute.value % MinuteWidth == 0
              && df[i].minute.value <= raws[i].startTime.value < df[i].minute.value + MinuteWidth
    ensures forall i :: 0 <= i < |raws| ==>
              df[i].platform == if raws[i].srcPlatform.Some? then raws[i].srcPlatform.value else DefaultPlatform
  {
    seq(|raws|, i requires 0 <= i < |raws| => Normalise(raws[i]))
  }

  /** After loading, a row's minute is aligned and holds its start time, and
      is the only aligned minute that does. */
  lemma ReadDataBuckets(raws: seq<RawRecord>, i: int, m: int)
    requires 0 <= i < |raws|
    requires raws[i].startTime.Some?
    requires m % MinuteWidth == 0
    requires m <= raws[i].startTime.value < m + MinuteWidth
    ensures ReadData(raws)[i].minute == Some(m)
  {
    BucketIsUnique(raws[i].startTime.value, m);
  }
}

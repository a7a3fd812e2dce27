/**
 `RateHistory` (task_8/myapp/utils/history.py): a per-currency-code series of
 (timestamp, value) points. Every write appends one point and then prunes that
 code's series to the last 120 days; reads return the points of a trailing
 window. The wall clock is the explicit parameter `now`.
 */
module History {
  import opened Wrappers
  import opened Seqs

  /** Instants are integer microseconds, the resolution of Python's `datetime`. */
  type Instant = int

  /** `timedelta(days=1)` in microseconds. */
  const DAY: int := 86_400_000_000

  /** `_prune` keeps this many days of history. */
  const RETENTION_DAYS: int := 120

  /** Default window of `last_n_days`. */
  const DEFAULT_WINDOW_DAYS: int := 90

  datatype Point = Point(t: Instant, v: real)

  type Series = seq<Point>

  /** `self._data`: code -> list of points. */
  datatype RateHistory = RateHistory(data: map<string, Series>)

  /** `RateHistory()` */
  function Empty(): (r: RateHistory)
    ensures r.data.Keys == {}
    ensures forall code :: SeriesOf(r, code) == [] && LastNDays(r, code, DEFAULT_WINDOW_DAYS, 0) == []
  {
    RateHistory(map[])
  }

  /** `self._data.get(code, [])` */
  function SeriesOf(h: RateHistory, code: string): Series {
    if code in h.data then h.data[code] else []
  }

  /** `now - timedelta(days=days)` */
  function Cutoff(now: Instant, days: int): Instant {
    now - days * DAY
  }

  /** `[(t, v) for (t, v) in s if t >= cutoff]` */
  function Since(s: Series, cutoff: Instant): (r: Series)
    ensures Subseq(r, s)
    ensures forall p :: p in r <==> p in s && p.t >= cutoff
    ensures forall p :: multiset(r)[p] == if p.t >= cutoff then multiset(s)[p] else 0
  {
    Filter(s, (p: Point) => p.t >= cutoff)
  }

  /** `_prune(code)`: drops the points of `code` older than the retention horizon. */
  function Prune(h: RateHistory, code: string, now: Instant): (r: RateHistory)
    ensures r.data.Keys == h.data.Keys + {code}
    ensures forall c :: c in h.data && c != code ==> r.data[c] == h.data[c]
    ensures Subseq(r.data[code], SeriesOf(h, code))
    ensures forall p :: p in r.data[code] <==> p in SeriesOf(h, code) && p.t >= now - RETENTION_DAYS * DAY
    ensures forall p :: multiset(r.data[code])[p]
                        == if p.t >= Cutoff(now, RETENTION_DAYS) then multiset(SeriesOf(h, code))[p] else 0
  {
    RateHistory(h.data[code := Since(SeriesOf(h, code), Cutoff(now, RETENTION_DAYS))])
  }

  /** The timestamp `add` records: `ts or datetime.now()`. */
  function Stamp(ts: Option<Instant>, now: Instant): Instant {
    ts.GetOr(now)
  }

  /**
   `add(code, value, ts)`: appends `(ts, value)` to the series of `code` and
   prunes that series. The new series holds exactly the old points and the new
   one that are not older than the horizon, in their original order; every other
   code's series is untouched (and is not pruned).
   */
  function Add(h: RateHistory, code: string, value: real, ts: Option<Instant>, now: Instant): (r: RateHistory)
    ensures r.data.Keys == h.data.Keys + {code}
    ensures forall c :: c in h.data && c != code ==> r.data[c] == h.data[c]
    ensures Subseq(r.data[code], SeriesOf(h, code) + [Point(Stamp(ts, now), value)])
    ensures forall p :: multiset(r.data[code])[p]
                        == if p.t >= Cutoff(now, RETENTION_DAYS)
                           then multiset(SeriesOf(h, code) + [Point(Stamp(ts, now), value)])[p]
                           else 0
    ensures forall p :: p in r.data[code] <==>
                        && (p in SeriesOf(h, code) || p == Point(Stamp(ts, now), value))
                        && p.t >= Cutoff(now, RETENTION_DAYS)
    ensures forall p :: p in r.data[code] ==> p.t >= now - RETENTION_DAYS * DAY
    ensures ts.None? ==> Point(now, value) in r.data[code]
  {
    var appended := RateHistory(h.data[code := SeriesOf(h, code) + [Point(Stamp(ts, now), value)]]);
    assert SeriesOf(appended, code) == SeriesOf(h, code) + [Point(Stamp(ts, now), value)];
    Prune(appended, code, now)
  }

  /**
   `last_n_days(code, days)`: the stored points of `code` not older than
   `days` days, in stored order; an unknown code gives the empty list.
   */
  function LastNDays(h: RateHistory, code: string, days: int, now: Instant): (r: Series)
    ensures Subseq(r, SeriesOf(h, code))
    ensures forall p :: multiset(r)[p] == if p.t >= Cutoff(now, days) then multiset(SeriesOf(h, code))[p] else 0
    ensures forall p :: p in r <==> p in SeriesOf(h, code) && p.t >= now - days * DAY
    ensures code !in h.data ==> r == []
  {
    Since(SeriesOf(h, code), Cutoff(now, days))
  }

  /** Timestamps never decrease along the series. */
  ghost predicate Chronological(s: Series) {
    forall i, j :: 0 <= i < j < |s| ==> s[i].t <= s[j].t
  }

  /** A filter of a chronological series is chronological. */
  lemma FilterChronological(s: Series, keep: Point -> bool)
    requires Chronological(s)
    ensures Chronological(Filter(s, keep))
  {
    FilterPairwise(s, keep, (p: Point, q: Point) => p.t <= q.t);
  }

  /** What `add` stores for `code` depends only on the series of `code` before it. */
  lemma AddDependsOnlyOnItsSeries(h1: RateHistory, h2: RateHistory, code: string, value: real, ts: Option<Instant>, now: Instant)
    requires SeriesOf(h1, code) == SeriesOf(h2, code)
    ensures SeriesOf(Add(h1, code, value, ts, now), code) == SeriesOf(Add(h2, code, value, ts, now), code)
  {
  }

  /**
   While the clock does not go backwards, `add` keeps a chronological series
   chronological. The source does not sort, so a timestamp older than the last
   one stored would break the order.
   */
  lemma AddKeepsChronological(h: RateHistory, code: string, value: real, ts: Option<Instant>, now: Instant)
    requires Chronological(SeriesOf(h, code))
    requires forall p :: p in SeriesOf(h, code) ==> p.t <= Stamp(ts, now)
    ensures Chronological(Add(h, code, value, ts, now).data[code])
  {
    var s := SeriesOf(h, code) + [Point(Stamp(ts, now), value)];
    assert Chronological(s) by {
      forall i, j | 0 <= i < j < |s|
        ensures s[i].t <= s[j].t
      {
        if j == |s| - 1 {
          assert s[i] in SeriesOf(h, code);
        }
      }
    }
    FilterChronological(s, (p: Point) => p.t >= Cutoff(now, RETENTION_DAYS));
  }

  /** The first `add` of a code with the default timestamp stores exactly that one point. */
  lemma AddToEmpty(h: RateHistory, code: string, value: real, now: Instant)
    requires code !in h.data
    ensures SeriesOf(Add(h, code, value, None, now), code) == [Point(now, value)]
  {
    var s := SeriesOf(h, code) + [Point(now, value)];
    assert s == [Point(now, value)];
    assert s[0].t >= Cutoff(now, RETENTION_DAYS);
    FilterKeepsAll(s, (p: Point) => p.t >= Cutoff(now, RETENTION_DAYS));
  }

  /** A window that reaches back past every stored point of `code` returns the whole series. */
  lemma {:induction false} WindowCoversAll(h: RateHistory, code: string, days: int, now: Instant)
    requires forall p :: p in SeriesOf(h, code) ==> p.t >= Cutoff(now, days)
    ensures LastNDays(h, code, days, now) == SeriesOf(h, code)
  {
    var s := SeriesOf(h, code);
    forall k | 0 <= k < |s|
      ensures s[k].t >= Cutoff(now, days)
    {
      assert s[k] in s;
    }
    FilterKeepsAll(s, (p: Point) => p.t >= Cutoff(now, days));
  }

  /**
   Every point of a series pruned at `now` lies inside a window of 120 days or
   more, so such a window returns the whole series: asking for more than the
   retention horizon gives no more than the horizon.
   */
  lemma WindowBeyondRetention(h: RateHistory, code: string, days: int, now: Instant)
    requires forall p :: p in SeriesOf(h, code) ==> p.t >= Cutoff(now, RETENTION_DAYS)
    requires days >= RETENTION_DAYS
    ensures LastNDays(h, code, days, now) == SeriesOf(h, code)
  {
    assert days * DAY >= RETENTION_DAYS * DAY;
    WindowCoversAll(h, code, days, now);
  }

  /**
   Right after `add(code, value)` (timestamp defaulted to `now`), any window of
   zero days or more shows the new point, and a window of 120 days or more
   shows the whole retained series.
   */
  lemma AddThenWindow(h: RateHistory, code: string, value: real, days: int, now: Instant)
    requires days >= 0
    ensures Point(now, value) in LastNDays(Add(h, code, value, None, now), code, days, now)
    ensures days >= RETENTION_DAYS ==>
              LastNDays(Add(h, code, value, None, now), code, days, now) == Add(h, code, value, None, now).data[code]
  {
    var h' := Add(h, code, value, None, now);
    if days >= RETENTION_DAYS {
      WindowBeyondRetention(h', code, days, now);
    }
  }
}

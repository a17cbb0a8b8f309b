/** Gap filling: a record is covered when the other series has a point close enough in time. */
module EspGap {
  import opened Common
  import opened EspThin

  const WINDOW_MS := 90000

  predicate Ascending(times: seq<int>) {
    forall i, j :: 0 <= i < j < |times| ==> times[i] <= times[j]
  }

  /** The first index whose time is not before `x`. */
  function BisectLeft(times: seq<int>, x: int): (i: nat)
    ensures i <= |times|
    ensures forall j :: 0 <= j < i ==> times[j] < x
    ensures i < |times| ==> times[i] >= x
  {
    if times == [] || times[0] >= x then 0 else 1 + BisectLeft(times[1..], x)
  }

  predicate Covered(times: seq<int>, ts: int) {
    var i := BisectLeft(times, ts - WINDOW_MS);
    i < |times| && times[i] <= ts + WINDOW_MS
  }

  predicate Near(times: seq<int>, ts: int) {
    exists t :: t in times && ts - WINDOW_MS <= t <= ts + WINDOW_MS
  }

  /** On a sorted series the one bisection decides whether any point is near, both ends included. */
  lemma CoveredIsNear(times: seq<int>, ts: int)
    requires Ascending(times)
    ensures Covered(times, ts) <==> Near(times, ts)
  {
    var i := BisectLeft(times, ts - WINDOW_MS);
    if Near(times, ts) {
      var t :| t in times && ts - WINDOW_MS <= t <= ts + WINDOW_MS;
      var k :| 0 <= k < |times| && times[k] == t;
      assert i <= k;
    }
    if Covered(times, ts) {
      assert times[i] in times;
    }
  }

  /** The points of a series within a queried range. */
  function TimesIn(times: seq<int>, lo: int, hi: int): (r: seq<int>)
    ensures forall t :: t in r <==> t in times && lo <= t <= hi
    ensures Ascending(times) ==> Ascending(r)
  {
    if times == [] then []
    else
      var rest := TimesIn(times[1..], lo, hi);
      assert forall t :: t in times <==> t == times[0] || t in times[1..];
      assert Ascending(times) ==> forall j :: 0 <= j < |rest| ==> times[0] <= rest[j] by {
        assert forall j :: 0 <= j < |rest| ==> rest[j] in rest;
      }
      if lo <= times[0] <= hi then [times[0]] + rest else rest
  }

  /** A query reaching a window beyond the record on both sides answers for the whole series. */
  lemma QueryDecides(times: seq<int>, lo: int, hi: int, ts: int)
    requires Ascending(times) && lo <= ts - WINDOW_MS && ts + WINDOW_MS <= hi
    ensures Covered(TimesIn(times, lo, hi), ts) <==> Covered(times, ts)
  {
    CoveredIsNear(times, ts);
    CoveredIsNear(TimesIn(times, lo, hi), ts);
  }

  type Series = map<Fn, seq<int>>

  predicate SeriesOk(s: Series) {
    forall f :: f in s ==> Ascending(s[f])
  }

  function TimesOf(s: Series, f: Fn): seq<int> {
    if f in s then s[f] else []
  }

  /** The listing a range query returns: only functions with points in range. */
  function Query(s: Series, lo: int, hi: int): Series {
    map f | f in s && TimesIn(s[f], lo, hi) != [] :: TimesIn(s[f], lo, hi)
  }

  function Earliest(points: seq<Point>): (m: int)
    requires points != []
    ensures forall p :: p in points ==> m <= p.ts
  {
    if |points| == 1 then points[0].ts else Min(points[0].ts, Earliest(points[1..]))
  }

  function Latest(points: seq<Point>): (m: int)
    requires points != []
    ensures forall p :: p in points ==> p.ts <= m
  {
    if |points| == 1 then points[0].ts else Max(points[0].ts, Latest(points[1..]))
  }

  /** The one query of a batch decides every point of it as the whole series would. */
  lemma BatchQueryDecides(s: Series, batch: seq<Point>, p: Point)
    requires SeriesOk(s) && p in batch
    ensures var have := Query(s, Earliest(batch) - WINDOW_MS, Latest(batch) + WINDOW_MS);
            Covered(TimesOf(have, p.fn), p.ts) <==> Covered(TimesOf(s, p.fn), p.ts)
  {
    var lo, hi := Earliest(batch) - WINDOW_MS, Latest(batch) + WINDOW_MS;
    if p.fn in s {
      QueryDecides(s[p.fn], lo, hi, p.ts);
    }
  }
}

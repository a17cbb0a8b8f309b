/** What gap filling writes: the points the other series has none near, thinned, and no others. */
module EspFilling {
  import opened Common
  import opened EspTime
  import opened EspThin
  import opened EspGap
  import opened EspHistory
  import opened EspIngest
  import opened EspSlots

  /** A point of its function lies within the window. */
  predicate Has(foreign: Series, p: Point) {
    p.fn in foreign && exists t :: t in foreign[p.fn] && p.ts - WINDOW_MS <= t <= p.ts + WINDOW_MS
  }

  /** The points the other series lacks, in order. */
  function Missing(foreign: Series, points: seq<Point>): (m: seq<Point>)
    ensures forall p :: p in m <==> p in points && !Has(foreign, p)
    decreases |points|
  {
    if points == [] then []
    else
      var front, p := points[..|points| - 1], points[|points| - 1];
      assert points == front + [p];
      if Has(foreign, p) then Missing(foreign, front) else Missing(foreign, front) + [p]
  }

  function Calls(foreign: Series, points: seq<Point>): (calls: seq<Call>)
    ensures |calls| == |points|
    decreases |points|
  {
    if points == [] then []
    else
      var p := points[|points| - 1];
      Calls(foreign, points[..|points| - 1]) + [if Has(foreign, p) then CloseCall(p.ts) else Gap(p)]
  }

  lemma CoveredIsHad(foreign: Series, p: Point)
    requires SeriesOk(foreign)
    ensures Covered(TimesOf(foreign, p.fn), p.ts) <==> Has(foreign, p)
  {
    CoveredIsNear(TimesOf(foreign, p.fn), p.ts);
  }

  /** Offering a batch is running its missing points through the thinning, the others closing slots. */
  lemma {:induction false} OfferedIsRun(foreign: Series, thin: Thin, points: seq<Point>)
    requires SeriesOk(foreign)
    ensures var r := RunCalls(thin, Calls(foreign, points));
            OfferAll(foreign, thin, points) == Emitted(r.thin, r.emitted) && r.inputs == Missing(foreign, points)
    decreases |points|
  {
    hide CloseAt, ThinPoint, Covered, SeriesOk;
    if points == [] {
      OfferNone(foreign, thin);
    } else {
      var n := |points| - 1;
      var front, p := points[..n], points[n];
      assert points == front + [p];
      OfferedIsRun(foreign, thin, front);
      OfferConcat(foreign, thin, front, [p]);
      OfferOne(foreign, OfferAll(foreign, thin, front).thin, p);
      CoveredIsHad(foreign, p);
      assert Calls(foreign, points)[..n] == Calls(foreign, front);
    }
  }

  function Kept(r: Emitted, f: Fn): seq<Point> {
    OfFn(r.points, f) + PendOf(r.thin, f)
  }

  /** For every function: what is written or pending, with what was dropped, is what was missing; the codes
      it shows follow one another as in what was missing; and each of it is a missing point. */
  ghost predicate Fills(missing: seq<Point>, kept: seq<Point>, dropped: seq<Point>) {
    && multiset(missing) == multiset(kept) + multiset(dropped)
    && Destutter(CodesOf(kept)) == Destutter(CodesOf(missing))
    && (missing != [] ==> kept != [] && kept[|kept| - 1] == missing[|missing| - 1])
    && forall p :: p in kept || p in dropped ==> p in missing
  }

  lemma GapsFilled(foreign: Series, thin: Thin, points: seq<Point>, f: Fn) returns (dropped: seq<Point>)
    requires SeriesOk(foreign) && thin.pending == map[]
    ensures Fills(OfFn(Missing(foreign, points), f), Kept(OfferAll(foreign, thin, points), f), dropped)
    ensures TimesRise(Missing(foreign, points)) ==> forall d :: d in dropped ==> Replaced(Missing(foreign, points), d)
  {
    hide CloseAt, ThinPoint, Covered, SeriesOk, Has, Destutter, OfferAll, RunCalls, Calls;
    var calls := Calls(foreign, points);
    OfferedIsRun(foreign, thin, points);
    HistoryPreserved(thin, calls, f);
    var r := RunCalls(thin, calls);
    dropped := OfFn(r.dropped, f);
    var missing, kept := OfFn(r.inputs, f), OfFn(r.emitted, f) + PendOf(r.thin, f);
    InBags(missing, kept, dropped);
    if TimesRise(r.inputs) {
      forall d | d in dropped
        ensures Replaced(r.inputs, d)
      {
        OfFnMember(r.dropped, f, d);
        DroppedAreReplaced(thin, calls, d);
      }
    }
  }

  lemma InBags(missing: seq<Point>, kept: seq<Point>, dropped: seq<Point>)
    requires multiset(missing) == multiset(kept) + multiset(dropped)
    ensures forall p :: p in kept || p in dropped ==> p in missing
  {
    forall p | p in kept || p in dropped
      ensures p in missing
    {
      assert p in multiset(kept) || p in multiset(dropped);
      assert p in multiset(missing);
    }
  }

  // ----- Over the card -------------------------------------------------------------------------

  /** The points of the first `n` records, before gap filling. */
  function Decoded<P>(w: World<P>, n: nat): seq<Point>
    requires n <= |w.card|
  {
    Decode(w.env, w.env.start, Canon(w, 0, n)).points
  }

  /** The ingest writes, of the first `n` records, for every function what the other series lacks, but for
      what is dropped for a later repeat and the point still pending. */
  lemma CardFilled<P>(w: World<P>, n: nat, f: Fn) returns (dropped: seq<Point>)
    requires Sane(w) && n <= |w.card|
    ensures var missing := Missing(w.env.foreign, Decoded(w, n));
            && Fills(OfFn(missing, f), OfFn(PointsTo(w, n), f) + PendOf(StateAfter(w, n).thin, f), dropped)
            && (TimesRise(missing) ==> forall d :: d in dropped ==> Replaced(missing, d))
  {
    hide OfferAll, Decode, Contiguous, SeriesOk, Missing, Destutter, Fills;
    dropped := GapsFilled(w.env.foreign, Fresh(w).thin, Decoded(w, n), f);
  }

  lemma CallsInOrder(foreign: Series, points: seq<Point>)
    requires TimesRise(points)
    ensures CallsRise(Calls(foreign, points))
  {
    CallTimes(foreign, points);
  }

  lemma {:induction false} CallTimes(foreign: Series, points: seq<Point>)
    ensures forall i :: 0 <= i < |points| ==> TimeOf(Calls(foreign, points)[i]) == points[i].ts
    decreases |points|
  {
    hide Has;
    if points != [] {
      CallTimes(foreign, points[..|points| - 1]);
    }
  }

  /** And of one function and slot it writes only changes of the codes and the last point. */
  lemma CardThinned<P>(w: World<P>, n: nat, f: Fn)
    requires Sane(w) && n <= |w.card| && TimesRise(Decoded(w, n))
    ensures Spaced(OfFn(PointsTo(w, n), f) + PendOf(StateAfter(w, n).thin, f))
  {
    hide OfferAll, Decode, Contiguous, SeriesOk, Calls, Spaced, RunCalls;
    var points := Decoded(w, n);
    CallsInOrder(w.env.foreign, points);
    OfferedIsRun(w.env.foreign, Fresh(w).thin, points);
    OnePerSlot(Calls(w.env.foreign, points), f);
  }

  lemma {:induction false} OfFnHas(points: seq<Point>, p: Point)
    requires p in points
    ensures p in OfFn(points, p.fn)
    decreases |points|
  {
    var n := |points| - 1;
    if p != points[n] {
      OfFnHas(points[..n], p);
    }
  }

  /** No written point is one the other series has. */
  lemma OnlyMissingWritten<P>(w: World<P>, n: nat, p: Point)
    requires Sane(w) && n <= |w.card| && p in PointsTo(w, n)
    ensures p in Decoded(w, n) && !Has(w.env.foreign, p)
  {
    hide OfferAll, Decode, Contiguous, SeriesOk, Has, PointsTo, Decoded, Destutter;
    var dropped := CardFilled(w, n, p.fn);
    OfFnHas(PointsTo(w, n), p);
    OfFnMember(Missing(w.env.foreign, Decoded(w, n)), p.fn, p);
  }
}

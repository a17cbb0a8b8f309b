/** The resumable ingest: page by page, written before the cursor is saved, and the same final
    database whatever the crashes. */
module EspIngest {
  import opened Common
  import opened EspTime
  import opened EspThin
  import opened EspGap
  import opened EspHistory

  // ----- What a run computes -------------------------------------------------------------------

  datatype Reading = Reading(fn: Fn, interp: Interp)

  /** The decoder of frames, a deterministic step of its own state, and the other series' points. */
  datatype Env<!P> = Env(start: P, process: (P, Rec, int) -> (P, seq<Reading>), foreign: Series)

  /** What rides in the cursor file beside the record number. */
  datatype Saved<P> = Saved(decoder: P, thin: Thin)

  function PointsAt(readings: seq<Reading>, ts: int): (p: seq<Point>)
    ensures |p| == |readings|
  {
    seq(|readings|, i requires 0 <= i < |readings| => Point(readings[i].fn, ts, readings[i].interp))
  }

  datatype Batch<P> = Batch(decoder: P, points: seq<Point>)

  /** The readings of the timed records in order; the others are skipped. */
  function Decode<P>(env: Env<P>, decoder: P, done: seq<Timed>): Batch<P>
    decreases |done|
  {
    if done == [] then Batch(decoder, [])
    else if done[0].ts.None? then Decode(env, decoder, done[1..])
    else
      var (d, readings) := env.process(decoder, done[0].rec, done[0].ts.value);
      var rest := Decode(env, d, done[1..]);
      Batch(rest.decoder, PointsAt(readings, done[0].ts.value) + rest.points)
  }

  /** One point: covered ones only move time on, the others are thinned. */
  function Offer(foreign: Series, thin: Thin, p: Point): Emitted {
    if Covered(TimesOf(foreign, p.fn), p.ts) then CloseAt(thin, p.ts)
    else var r := ThinPoint(thin, p); Emitted(r.thin, r.points)
  }

  function OfferAll(foreign: Series, thin: Thin, points: seq<Point>): Emitted
    decreases |points|
  {
    if points == [] then Emitted(thin, [])
    else
      var first := Offer(foreign, thin, points[0]);
      var rest := OfferAll(foreign, first.thin, points[1..]);
      Emitted(rest.thin, first.points + rest.points)
  }

  datatype Outcome<P> = Outcome(saved: Saved<P>, points: seq<Point>)

  /** The points a stretch of records makes, and the state after it. */
  function Replayed<P>(env: Env<P>, saved: Saved<P>, done: seq<Timed>): Outcome<P> {
    var b := Decode(env, saved.decoder, done);
    var e := OfferAll(env.foreign, saved.thin, b.points);
    Outcome(Saved(b.decoder, e.thin), e.points)
  }

  lemma {:induction false} DecodeConcat<P>(env: Env<P>, decoder: P, a: seq<Timed>, b: seq<Timed>)
    ensures var first := Decode(env, decoder, a); var second := Decode(env, first.decoder, b);
            Decode(env, decoder, a + b) == Batch(second.decoder, first.points + second.points)
    decreases |a|
  {
    if a == [] {
      assert a + b == b;
    } else {
      assert (a + b)[1..] == a[1..] + b;
      if a[0].ts.None? {
        DecodeConcat(env, decoder, a[1..], b);
      } else {
        var (d, readings) := env.process(decoder, a[0].rec, a[0].ts.value);
        DecodeConcat(env, d, a[1..], b);
      }
    }
  }

  lemma {:induction false} OfferConcat(foreign: Series, thin: Thin, a: seq<Point>, b: seq<Point>)
    ensures var first := OfferAll(foreign, thin, a); var second := OfferAll(foreign, first.thin, b);
            OfferAll(foreign, thin, a + b) == Emitted(second.thin, first.points + second.points)
    decreases |a|
  {
    hide Offer;
    if a == [] {
      assert a + b == b;
    } else {
      assert (a + b)[1..] == a[1..] + b;
      OfferConcat(foreign, Offer(foreign, thin, a[0]).thin, a[1..], b);
    }
  }

  /** Two stretches one after the other are one stretch. */
  lemma ReplayedConcat<P>(env: Env<P>, saved: Saved<P>, a: seq<Timed>, b: seq<Timed>)
    ensures var first := Replayed(env, saved, a); var second := Replayed(env, first.saved, b);
            Replayed(env, saved, a + b) == Outcome(second.saved, first.points + second.points)
  {
    DecodeConcat(env, saved.decoder, a, b);
    OfferConcat(env.foreign, saved.thin, Decode(env, saved.decoder, a).points,
                Decode(env, Decode(env, saved.decoder, a).decoder, b).points);
  }

  // ----- The database --------------------------------------------------------------------------

  type Key = (Fn, int)
  type Db = map<Key, Interp>

  function KeyOf(p: Point): Key {
    (p.fn, p.ts)
  }

  /** Same series and time: the later write stands. */
  function Written(db: Db, points: seq<Point>): Db
    decreases |points|
  {
    if points == [] then db
    else Written(db[KeyOf(points[0]) := points[0].interp], points[1..])
  }

  predicate Touches(points: seq<Point>, key: Key) {
    exists p :: p in points && KeyOf(p) == key
  }

  predicate Agree(a: Db, b: Db, key: Key) {
    (key in a <==> key in b) && (key in a ==> a[key] == b[key])
  }

  lemma {:induction false} WrittenConcat(db: Db, a: seq<Point>, b: seq<Point>)
    ensures Written(db, a + b) == Written(Written(db, a), b)
    decreases |a|
  {
    if a == [] {
      assert a + b == b;
    } else {
      assert (a + b)[1..] == a[1..] + b;
      WrittenConcat(db[KeyOf(a[0]) := a[0].interp], a[1..], b);
    }
  }

  /** Writing makes two databases agree where they did before and wherever it writes. */
  lemma {:induction false} WrittenAgree(a: Db, b: Db, points: seq<Point>, key: Key)
    requires Agree(a, b, key) || Touches(points, key)
    ensures Agree(Written(a, points), Written(b, points), key)
    decreases |points|
  {
    if points != [] {
      var k := KeyOf(points[0]);
      if Touches(points, key) && k != key {
        var p :| p in points && KeyOf(p) == key;
        assert p in points[1..];
      }
      WrittenAgree(a[k := points[0].interp], b[k := points[0].interp], points[1..], key);
    }
  }

  lemma {:induction false} WrittenElsewhere(db: Db, points: seq<Point>, key: Key)
    requires !Touches(points, key)
    ensures Agree(Written(db, points), db, key)
    decreases |points|
  {
    if points != [] {
      assert points[0] in points;
      forall p | p in points[1..]
        ensures KeyOf(p) != key
      {
        assert p in points;
      }
      WrittenElsewhere(db[KeyOf(points[0]) := points[0].interp], points[1..], key);
    }
  }

  lemma {:induction false} WrittenKeys(db: Db, points: seq<Point>)
    ensures forall key :: key in Written(db, points) <==> key in db || Touches(points, key)
    decreases |points|
  {
    if points != [] {
      var db' := db[KeyOf(points[0]) := points[0].interp];
      WrittenKeys(db', points[1..]);
      forall key
        ensures Touches(points, key) <==> key == KeyOf(points[0]) || Touches(points[1..], key)
      {
        assert forall p :: p in points <==> p == points[0] || p in points[1..];
      }
    }
  }

  // ----- The card and the canonical run --------------------------------------------------------

  /** The card as it will be in the end, and the boot running then. */
  datatype World<!P> = World(env: Env<P>, card: seq<Rec>, last: int, db0: Db)

  /** Records are numbered upwards from above 0, boots are contiguous, the other series is sorted. */
  predicate Sane<P>(w: World<P>) {
    && (forall i, j :: 0 <= i < j < |w.card| ==> w.card[i].num < w.card[j].num)
    && (forall i :: 0 <= i < |w.card| ==> w.card[i].num > 0)
    && Contiguous(w.card)
    && SeriesOk(w.env.foreign)
  }

  function Total<P>(w: World<P>): (n: nat)
    ensures n <= |w.card|
  {
    DoneCount(w.card, w.last, true)
  }

  /** The records `lo` to `hi` with the times one call on the whole card gives them. */
  function Canon<P>(w: World<P>, lo: nat, hi: nat): (t: seq<Timed>)
    requires lo <= hi <= |w.card|
    ensures |t| == hi - lo
  {
    TimedRange(w.card, lo, hi, w.last, true)
  }

  function Fresh<P>(w: World<P>): Saved<P> {
    Saved(w.env.start, Thin(map[], map[]))
  }

  /** The replay state, and all points written, after the first `n` records in one go. */
  function StateAfter<P>(w: World<P>, n: nat): Saved<P>
    requires n <= |w.card|
  {
    Replayed(w.env, Fresh(w), Canon(w, 0, n)).saved
  }

  function PointsTo<P>(w: World<P>, n: nat): seq<Point>
    requires n <= |w.card|
  {
    Replayed(w.env, Fresh(w), Canon(w, 0, n)).points
  }

  function PointsBetween<P>(w: World<P>, a: nat, b: nat): seq<Point>
    requires a <= b <= |w.card|
  {
    Replayed(w.env, StateAfter(w, a), Canon(w, a, b)).points
  }

  function CursorAt<P>(w: World<P>, n: nat): int
    requires n <= |w.card|
  {
    if n == 0 then 0 else w.card[n - 1].num
  }

  lemma StateAdvances<P>(w: World<P>, a: nat, b: nat)
    requires a <= b <= |w.card|
    ensures Replayed(w.env, StateAfter(w, a), Canon(w, a, b)) == Outcome(StateAfter(w, b), PointsBetween(w, a, b))
    ensures PointsTo(w, b) == PointsTo(w, a) + PointsBetween(w, a, b)
  {
    hide Replayed;
    assert Canon(w, 0, b) == Canon(w, 0, a) + Canon(w, a, b);
    ReplayedConcat(w.env, Fresh(w), Canon(w, 0, a), Canon(w, a, b));
  }

  lemma BetweenConcat<P>(w: World<P>, a: nat, b: nat, c: nat)
    requires a <= b <= c <= |w.card|
    ensures PointsBetween(w, a, c) == PointsBetween(w, a, b) + PointsBetween(w, b, c)
  {
    hide Replayed;
    StateAdvances(w, a, b);
    assert Canon(w, a, c) == Canon(w, a, b) + Canon(w, b, c);
    ReplayedConcat(w.env, StateAfter(w, a), Canon(w, a, b), Canon(w, b, c));
  }

  // ----- What is on disk -----------------------------------------------------------------------

  /** The database and the cursor file. `done` is how many records the cursor stands for, `ahead` how
      far writes may have gone beyond it before a crash. */
  class Store<P> {
    var db: Db
    var cursor: int
    var saved: Saved<P>
    ghost var done: nat
    ghost var ahead: nat

    /** Nothing ingested yet. */
    constructor (w: World<P>)
      requires Sane(w)
      ensures Consistent(w) && done == 0 && db == w.db0
    {
      db, cursor, saved, done, ahead := w.db0, 0, Fresh(w), 0, 0;
      new;
      NothingYet(w);
    }

    /** The cursor and the saved state match `done` records, every point up to there is written, and
        only keys that will be written again may hold newer points. */
    ghost predicate Consistent(w: World<P>)
      reads this
    {
      && done <= ahead <= Total(w)
      && cursor == CursorAt(w, done)
      && saved == StateAfter(w, done)
      && DbConsistent(w, db, done, ahead)
    }
  }

  ghost predicate DbConsistent<P>(w: World<P>, db: Db, done: nat, ahead: nat)
    requires done <= ahead <= |w.card|
  {
    var target := Written(w.db0, PointsTo(w, done));
    && (forall key :: !Touches(PointsBetween(w, done, ahead), key) ==> Agree(db, target, key))
    && (forall key :: key in target ==> key in db)
  }

  lemma NothingYet<P>(w: World<P>)
    ensures StateAfter(w, 0) == Fresh(w) && DbConsistent(w, w.db0, 0, 0)
  {
  }

  /** Writing the first `written` of the points of records `done` to `m` and crashing before the
      cursor is saved keeps the database consistent with the old cursor. */
  lemma CrashKeeps<P>(w: World<P>, db: Db, done: nat, ahead: nat, m: nat, written: nat)
    requires done <= ahead <= |w.card| && done <= m <= |w.card| && DbConsistent(w, db, done, ahead)
    requires written <= |PointsBetween(w, done, m)|
    ensures var far := if ahead <= m then m else ahead;
            DbConsistent(w, Written(db, PointsBetween(w, done, m)[..written]), done, far)
  {
    hide PointsTo, PointsBetween, Written;
    var far := if ahead <= m then m else ahead;
    var points := PointsBetween(w, done, m);
    var part := points[..written];
    BetweenConcat(w, done, m, far);
    BetweenConcat(w, done, ahead, far);
    WrittenKeys(db, part);
    var target := Written(w.db0, PointsTo(w, done));
    forall key | !Touches(PointsBetween(w, done, far), key)
      ensures Agree(Written(db, part), target, key)
    {
      TouchesPart(points, PointsBetween(w, m, far), written, key);
      TouchesPart(PointsBetween(w, done, ahead), PointsBetween(w, ahead, far), 0, key);
      WrittenElsewhere(db, part, key);
    }
  }

  lemma TouchesPart(a: seq<Point>, b: seq<Point>, n: nat, key: Key)
    requires n <= |a|
    ensures !Touches(a + b, key) ==> !Touches(a, key) && !Touches(a[..n], key) && !Touches(b, key)
  {
    assert forall p :: p in a + b <==> p in a || p in b;
    assert forall p :: p in a[..n] ==> p in a;
  }

  /** Writing all of them and saving the cursor makes the database consistent with the new one. */
  lemma SaveKeeps<P>(w: World<P>, db: Db, done: nat, ahead: nat, m: nat)
    requires done <= ahead <= |w.card| && done <= m <= |w.card| && DbConsistent(w, db, done, ahead)
    ensures var far := if ahead <= m then m else ahead;
            DbConsistent(w, Written(db, PointsBetween(w, done, m)), m, far)
  {
    hide PointsTo, PointsBetween, Written;
    var far := if ahead <= m then m else ahead;
    var points := PointsBetween(w, done, m);
    var before, target := Written(w.db0, PointsTo(w, done)), Written(w.db0, PointsTo(w, m));
    StateAdvances(w, done, m);
    WrittenConcat(w.db0, PointsTo(w, done), points);
    BetweenConcat(w, done, m, far);
    BetweenConcat(w, done, ahead, far);
    WrittenKeys(db, points);
    WrittenKeys(before, points);
    forall key | !Touches(PointsBetween(w, m, far), key)
      ensures Agree(Written(db, points), target, key)
    {
      if !Touches(points, key) {
        assert !Touches(PointsBetween(w, done, ahead), key) by {
          TouchesEither(points, PointsBetween(w, m, far), key);
          TouchesPart(PointsBetween(w, done, ahead), PointsBetween(w, ahead, far), 0, key);
        }
      }
      WrittenAgree(db, before, points, key);
    }
  }

  lemma TouchesEither(a: seq<Point>, b: seq<Point>, key: Key)
    ensures Touches(a + b, key) <==> Touches(a, key) || Touches(b, key)
  {
    assert forall p :: p in a + b <==> p in a || p in b;
  }

  /** With nothing written ahead the database is exactly the canonical one. */
  lemma ConsistentIsExact<P>(w: World<P>, db: Db, n: nat)
    requires n <= |w.card| && DbConsistent(w, db, n, n)
    ensures db == Written(w.db0, PointsTo(w, n))
  {
    hide Written, PointsTo, Agree;
    var target := Written(w.db0, PointsTo(w, n));
    NothingBetween(w, n);
    forall key
      ensures Agree(db, target, key)
    {
      assert !Touches(PointsBetween(w, n, n), key);
    }
    AgreeEverywhere(db, target);
  }

  lemma NothingBetween<P>(w: World<P>, n: nat)
    requires n <= |w.card|
    ensures PointsBetween(w, n, n) == []
  {
  }

  lemma AgreeEverywhere(a: Db, b: Db)
    requires forall key :: Agree(a, b, key)
    ensures a == b
  {
    forall key
      ensures key in a <==> key in b
      ensures key in a ==> a[key] == b[key]
    {
      assert Agree(a, b, key);
    }
  }

  // ----- Fetching ------------------------------------------------------------------------------

  /** Records numbered up to `since`. */
  function Passed(card: seq<Rec>, since: int): (n: nat)
    ensures n <= |card|
    ensures forall i :: 0 <= i < n ==> card[i].num <= since
    ensures n < |card| ==> card[n].num > since
  {
    if card == [] || card[0].num > since then 0 else 1 + Passed(card[1..], since)
  }

  datatype Fetched = Fetched(recs: seq<Rec>, next: int, more: bool)

  /** At most `max` of the records shown so far, after number `since`. */
  function Fetch(shown: seq<Rec>, since: int, max: nat): Fetched {
    var k := Passed(shown, since);
    var e := Min(k + max, |shown|);
    Fetched(shown[k..e], if k < e then shown[e - 1].num else since, e < |shown|)
  }

  lemma PassedIs(shown: seq<Rec>, since: int, n: nat)
    requires n <= |shown| && forall i :: 0 <= i < |shown| ==> (shown[i].num <= since <==> i < n)
    ensures Passed(shown, since) == n
  {
    var k := Passed(shown, since);
    assert k < |shown| ==> shown[k].num > since;
    assert k > 0 ==> shown[k - 1].num <= since;
  }

  lemma NumbersRise<P>(w: World<P>, e: nat, i: nat)
    requires Sane(w) && e <= |w.card| && i < |w.card|
    ensures w.card[i].num <= CursorAt(w, e) <==> i < e
  {
    hide Contiguous, SeriesOk;
    assert e > 0 && e - 1 < i ==> w.card[e - 1].num < w.card[i].num;
    assert i < e - 1 ==> w.card[i].num < w.card[e - 1].num;
  }

  /** Fetching after the number of record `e - 1` gives the records from `e` on. */
  lemma FetchContinues<P>(w: World<P>, visible: nat, e: nat, max: nat)
    requires Sane(w) && e <= visible <= |w.card|
    ensures var e' := Min(e + max, visible);
            Fetch(w.card[..visible], CursorAt(w, e), max) == Fetched(w.card[e..e'], CursorAt(w, e'), e' < visible)
  {
    hide Sane, Passed;
    var shown := w.card[..visible];
    forall i | 0 <= i < visible
      ensures shown[i].num <= CursorAt(w, e) <==> i < e
    {
      NumbersRise(w, e, i);
    }
    PassedIs(shown, CursorAt(w, e), e);
    SliceOfPrefix(w.card, visible, e, Min(e + max, visible));
  }

  lemma SliceOfPrefix(s: seq<Rec>, n: nat, a: nat, b: nat)
    requires a <= b <= n <= |s|
    ensures s[..n][a..b] == s[a..b]
  {
    forall i | 0 <= i < b - a
      ensures s[..n][a..b][i] == s[a..b][i]
    {
    }
  }

  // ----- One run -------------------------------------------------------------------------------

  /** How a page ends: the process dies after writing some of its points, before or after saving the
      cursor, or goes on. */
  datatype Fate = DiesWriting(points: nat) | DiesAfterSave | GoesOn

  /** What the satellite shows at one request, and what becomes of the page. */
  datatype Visit = Visit(visible: nat, boot: int, fate: Fate)

  /** The card only grows, and the running boot it tells is honest. */
  predicate VisitsOk<P>(w: World<P>, visits: seq<Visit>, from: nat) {
    && (forall v :: v in visits ==> from <= v.visible <= |w.card| && BootHonest(w.card, v.visible, v.boot, w.last))
    && (forall i, j :: 0 <= i < j < |visits| ==> visits[i].visible <= visits[j].visible)
  }

  function LastSeen(visits: seq<Visit>, start: nat): nat {
    if visits == [] then start else visits[|visits| - 1].visible
  }

  lemma SettledWithin<P>(w: World<P>, c: nat, k: nat)
    requires c <= Total(w) && c <= k <= |w.card|
    requires forall j :: c <= j < k ==> !StampAt(w.card, j, w.last, true).Open?
    ensures k <= Total(w)
  {
  }

  /** The part of the buffer that a page settles is the next stretch of the canonical run. */
  lemma PageIsCanonical<P>(w: World<P>, c: nat, e: nat, boot: int, final: bool)
    requires Sane(w) && c <= Total(w) && c <= e <= |w.card|
    requires final ==> BootHonest(w.card, e, boot, w.last)
    ensures var n := DoneCount(w.card[c..e], boot, final);
            && c + n <= Total(w)
            && Resolution(w.card[c..e], boot, final) == Resolved(Canon(w, c, c + n), w.card[c + n..e])
  {
    hide StampAt, Sane, BootHonest, Total;
    var buf := w.card[c..e];
    var n := DoneCount(buf, boot, final);
    forall j | c <= j < c + n
      ensures StampAt(w.card, j, w.last, true) == StampAt(buf, j - c, boot, final)
      ensures !StampAt(w.card, j, w.last, true).Open?
    {
      PageVerdict(w, c, e, j, boot, final);
    }
    SettledWithin(w, c, c + n);
    assert buf[n..] == w.card[c + n..e];
    assert TimedRange(buf, 0, n, boot, final) == Canon(w, c, c + n);
  }

  lemma PageVerdict<P>(w: World<P>, c: nat, e: nat, j: nat, boot: int, final: bool)
    requires Sane(w) && c <= j < e <= |w.card| && (final ==> BootHonest(w.card, e, boot, w.last))
    requires !StampAt(w.card[c..e], j - c, boot, final).Open?
    ensures StampAt(w.card, j, w.last, true) == StampAt(w.card[c..e], j - c, boot, final)
  {
    hide StampAt, Contiguous, SeriesOk, BootHonest;
    assert w.card[..e][c..] == w.card[c..e];
    StampSuffix(w.card[..e], c, j, boot, final);
    VerdictStands(w.card, e, j, boot, final, w.last);
  }

  /** A final page on the whole card, told the boot running at the end, settles all there is. */
  lemma LastPageSettlesAll<P>(w: World<P>, c: nat)
    requires Sane(w) && c <= Total(w)
    ensures c + DoneCount(w.card[c..], w.last, true) == Total(w)
  {
    hide StampOf, Contiguous, SeriesOk;
    var buf := w.card[c..];
    var n := Total(w) - c;
    forall i | 0 <= i < |buf|
      ensures StampAt(buf, i, w.last, true) == StampAt(w.card, c + i, w.last, true)
    {
      StampSuffix(w.card, c, c + i, w.last, true);
    }
    assert n < |buf| ==> StampAt(w.card, c + n, w.last, true).Open?;
    DoneCountUnique(buf, w.last, true, n);
  }

  // ----- The source's loops --------------------------------------------------------------------

  lemma OfferKeyed(foreign: Series, thin: Thin, p: Point)
    requires Keyed(thin)
    ensures Keyed(Offer(foreign, thin, p).thin)
  {
    hide CloseAt, ThinPoint, Covered;
    CloseKeeps(thin, p.ts, p.fn);
    ThinCounts(thin, p);
  }

  lemma {:induction false} OfferAllKeyed(foreign: Series, thin: Thin, points: seq<Point>)
    requires Keyed(thin)
    ensures Keyed(OfferAll(foreign, thin, points).thin)
    decreases |points|
  {
    hide Offer, Keyed;
    if points != [] {
      OfferKeyed(foreign, thin, points[0]);
      OfferAllKeyed(foreign, Offer(foreign, thin, points[0]).thin, points[1..]);
    }
  }

  lemma StateKeyed<P>(w: World<P>, n: nat)
    requires n <= |w.card|
    ensures Keyed(StateAfter(w, n).thin)
  {
    hide OfferAll, Decode;
    OfferAllKeyed(w.env.foreign, Fresh(w).thin, Decode(w.env, w.env.start, Canon(w, 0, n)).points);
  }

  /** The frames of a page, in order. */
  method DecodePage<P>(env: Env<P>, decoder0: P, done: seq<Timed>) returns (decoder: P, points: seq<Point>)
    ensures Batch(decoder, points) == Decode(env, decoder0, done)
  {
    decoder, points := decoder0, [];
    var i := 0;
    while i < |done|
      invariant 0 <= i <= |done|
      invariant Batch(decoder, points) == Decode(env, decoder0, done[..i])
    {
      assert done[..i + 1] == done[..i] + [done[i]];
      DecodeConcat(env, decoder0, done[..i], [done[i]]);
      DecodeOne(env, decoder, done[i]);
      if done[i].ts.Some? {
        var (d, readings) := env.process(decoder, done[i].rec, done[i].ts.value);
        decoder, points := d, points + PointsAt(readings, done[i].ts.value);
      }
      i := i + 1;
    }
    assert done[..i] == done;
  }

  lemma DecodeOne<P>(env: Env<P>, decoder: P, t: Timed)
    ensures Decode(env, decoder, [t]) ==
            if t.ts.None? then Batch(decoder, [])
            else Batch(env.process(decoder, t.rec, t.ts.value).0, PointsAt(env.process(decoder, t.rec, t.ts.value).1, t.ts.value))
  {
    assert [t][1..] == [];
  }

  /** Gap filling and thinning of a page's batch, against the one query that covers it. */
  method FillGaps(foreign: Series, replay: Replay, batch: seq<Point>) returns (points: seq<Point>)
    requires SeriesOk(foreign) && Keyed(replay.State())
    modifies replay
    ensures Emitted(replay.State(), points) == OfferAll(foreign, old(replay.State()), batch) && Keyed(replay.State())
  {
    hide CloseAt, ThinPoint, Covered, Earliest, Latest, Query, OfferAll;
    points := [];
    ghost var thin0 := replay.State();
    OfferNone(foreign, thin0);
    if batch == [] {
      return;
    }
    var have := Query(foreign, Earliest(batch) - WINDOW_MS, Latest(batch) + WINDOW_MS);
    var i := 0;
    assert batch[..0] == [];
    while i < |batch|
      invariant 0 <= i <= |batch| && Keyed(replay.State())
      invariant Emitted(replay.State(), points) == OfferAll(foreign, thin0, batch[..i])
    {
      var p := batch[i];
      BatchQueryDecides(foreign, batch, p);
      assert batch[..i + 1] == batch[..i] + [p];
      OfferConcat(foreign, thin0, batch[..i], [p]);
      OfferOne(foreign, replay.State(), p);
      var out;
      if Covered(TimesOf(have, p.fn), p.ts) {
        out := replay.Close(p.ts);
      } else {
        out := replay.ThinRecord(p);
      }
      points := points + out;
      i := i + 1;
    }
    assert batch[..i] == batch;
  }

  lemma OfferNone(foreign: Series, thin: Thin)
    ensures OfferAll(foreign, thin, []) == Emitted(thin, [])
  {
  }

  lemma OfferOne(foreign: Series, thin: Thin, p: Point)
    ensures OfferAll(foreign, thin, [p]) == Offer(foreign, thin, p)
  {
    assert [p][1..] == [];
    assert Offer(foreign, thin, p).points + [] == Offer(foreign, thin, p).points;
  }

  /** The points of a page go to the database, then the cursor is saved; the process may die between. */
  method SavePage<P>(w: World<P>, store: Store<P>, points: seq<Point>, seqNum: int, next: Saved<P>, fate: Fate,
                     ghost m: nat)
    requires Sane(w) && store.Consistent(w) && store.done < m <= Total(w)
    requires points == PointsBetween(w, store.done, m) && seqNum == CursorAt(w, m) && next == StateAfter(w, m)
    modifies store
    ensures store.Consistent(w)
    ensures if fate.DiesWriting? then store.done == old(store.done) && store.cursor == old(store.cursor)
            else store.done == m && store.saved == next
    ensures fate.DiesWriting? ==> store.db == Written(old(store.db), points[..Min(fate.points, |points|)])
    ensures !fate.DiesWriting? ==> store.db == Written(old(store.db), points)
  {
    hide CursorAt, StateAfter, Total, PointsBetween, DbConsistent, Sane, Written;
    if fate.DiesWriting? {
      var n := Min(fate.points, |points|);
      CrashKeeps(w, store.db, store.done, store.ahead, m, n);
      store.db := Written(store.db, points[..n]);
    } else {
      SaveKeeps(w, store.db, store.done, store.ahead, m);
      store.db := Written(store.db, points);
      store.cursor, store.saved, store.done := seqNum, next, m;
    }
    store.ahead := if store.ahead <= m then m else store.ahead;
  }

  /** What a page writes before the process dies, or all of it. */
  function PagePoints<P>(w: World<P>, c: nat, m: nat, fate: Fate): seq<Point>
    requires c <= m <= |w.card|
  {
    var points := PointsBetween(w, c, m);
    if fate.DiesWriting? then points[..Min(fate.points, |points|)] else points
  }

  lemma LastNumber<P>(w: World<P>, c: nat, m: nat)
    requires c < m <= |w.card|
    ensures Canon(w, c, m)[m - c - 1].rec.num == CursorAt(w, m)
  {
  }

  /** A page's timed records: decoded, gap-filled, thinned, written. */
  method SettlePage<P>(w: World<P>, store: Store<P>, replay: Replay, decoder0: P, done: seq<Timed>, fate: Fate,
                       ghost m: nat) returns (decoder: P)
    requires Sane(w) && store.Consistent(w) && store.done < m <= Total(w) && done == Canon(w, store.done, m)
    requires Saved(decoder0, replay.State()) == store.saved && Keyed(replay.State())
    modifies store, replay
    ensures store.Consistent(w)
    ensures if fate.DiesWriting? then store.done == old(store.done)
            else store.done == m && Saved(decoder, replay.State()) == store.saved && Keyed(replay.State())
    ensures store.db == Written(old(store.db), PagePoints(w, old(store.done), m, fate))
  {
    hide CursorAt, StateAfter, Total, PointsBetween, DbConsistent, Written, Canon, Decode, OfferAll, Keyed,
      Contiguous, SeriesOk, CloseAt, ThinPoint;
    ghost var c := store.done;
    var batch, points;
    decoder, batch := DecodePage(w.env, decoder0, done);
    points := FillGaps(w.env.foreign, replay, batch);
    StateAdvances(w, c, m);
    LastNumber(w, c, m);
    SavePage(w, store, points, done[|done| - 1].rec.num, Saved(decoder, replay.State()), fate, m);
  }

  /** What one fetched page leaves for the next: the buffer is again the stretch from the settled
      records to the fetched ones. */
  lemma PageStep<P>(w: World<P>, c: nat, e: nat, visible: nat, since: int, page: nat, boot: int, buf: seq<Rec>)
    requires Sane(w) && c <= e <= visible <= |w.card| && c <= Total(w) && BootHonest(w.card, visible, boot, w.last)
    requires since == CursorAt(w, e) && buf == w.card[c..e]
    ensures var got := Fetch(w.card[..visible], since, page);
            var e', all, final := Min(e + page, visible), buf + got.recs, !got.more;
            var m := c + DoneCount(all, boot, final);
            && got.next == CursorAt(w, e') && all == w.card[c..e'] && (final <==> e' == visible)
            && c <= m <= e' && m <= Total(w)
            && Resolution(all, boot, final) == Resolved(Canon(w, c, m), w.card[m..e'])
            && (final && visible == |w.card| && boot == w.last ==> m == Total(w))
  {
    hide BootHonest, CursorAt, Total, Canon, Resolution, Sane, Fetch, DoneCount;
    var e' := Min(e + page, visible);
    FetchContinues(w, visible, e, page);
    assert w.card[c..e] + w.card[e..e'] == w.card[c..e'];
    PageIsCanonical(w, c, e', boot, e' == visible);
    if e' == |w.card| {
      assert w.card[c..e'] == w.card[c..];
      LastPageSettlesAll(w, c);
    }
  }

  /** Fetching a page and resolving the buffer with it. */
  method FetchPage<P>(w: World<P>, visible: nat, boot: int, since: int, page: nat, buf: seq<Rec>, ghost c: nat, ghost e: nat)
    returns (next: int, final: bool, done: seq<Timed>, rest: seq<Rec>)
    requires Sane(w) && c <= e <= visible <= |w.card| && c <= Total(w) && BootHonest(w.card, visible, boot, w.last)
    requires since == CursorAt(w, e) && buf == w.card[c..e]
    ensures var e' := Min(e + page, visible); var m := Settled(w, c, e', boot, final);
            && next == CursorAt(w, e') && (final <==> e' == visible)
            && c <= m <= e' && m <= Total(w) && done == Canon(w, c, m) && rest == w.card[m..e']
            && (final && visible == |w.card| && boot == w.last ==> m == Total(w))
  {
    hide BootHonest, CursorAt, Total, Canon, Resolution, Sane, Fetch, DoneCount;
    PageStep(w, c, e, visible, since, page, boot, buf);
    var got := Fetch(w.card[..visible], since, page);
    next, final := got.next, !got.more;
    var r := Resolve(buf + got.recs, boot, final);
    done, rest := r.done, r.rest;
  }

  /** How far the records from `c` to `e` are settled. */
  function Settled<P>(w: World<P>, c: nat, e: nat, boot: int, final: bool): nat
    requires c <= e <= |w.card|
  {
    c + DoneCount(w.card[c..e], boot, final)
  }

  // ----- What a run leaves ---------------------------------------------------------------------

  /** The records fetched after `i` pages of a run that started at record `start`. */
  function Reached(visits: seq<Visit>, start: nat, page: nat, i: nat): nat
    requires i <= |visits|
  {
    if i == 0 then start else Min(start + i * page, visits[i - 1].visible)
  }

  /** Page `i` brings all the satellite shows. */
  predicate FinalAt(visits: seq<Visit>, start: nat, page: nat, i: nat)
    requires i < |visits|
  {
    visits[i].visible <= start + (i + 1) * page
  }

  /** The run ends with page `i`, by dying or by being complete. */
  predicate StopsAt(visits: seq<Visit>, start: nat, page: nat, i: nat)
    requires i < |visits|
  {
    !visits[i].fate.GoesOn? || FinalAt(visits, start, page, i)
  }

  /** How many pages the run reads in all, from page `i` on: up to the first it ends with. */
  function PagesRead(visits: seq<Visit>, start: nat, page: nat, i: nat): (n: nat)
    requires i <= |visits|
    ensures i <= n <= |visits| && forall j :: i <= j < n - 1 ==> !StopsAt(visits, start, page, j)
    ensures n < |visits| ==> i < n && StopsAt(visits, start, page, n - 1)
    decreases |visits| - i
  {
    if i == |visits| then i
    else if StopsAt(visits, start, page, i) then i + 1
    else PagesRead(visits, start, page, i + 1)
  }

  lemma ReachedWithin<P>(w: World<P>, visits: seq<Visit>, start: nat, page: nat, i: nat)
    requires VisitsOk(w, visits, start) && start <= |w.card| && i <= |visits|
    ensures start <= Reached(visits, start, page, i) <= LastSeen(visits, start) <= |w.card|
  {
    hide VisitsOk, BootHonest;
    if i > 0 {
      assert i * page >= 0;
      VisitAt(w, visits, start, i - 1);
      VisitAt(w, visits, start, |visits| - 1);
    } else if visits != [] {
      VisitAt(w, visits, start, |visits| - 1);
    }
  }

  /** The records settled after `i` pages: what one look at all of them settles. */
  function SettledAfter<P>(w: World<P>, visits: seq<Visit>, start: nat, page: nat, i: nat): (n: nat)
    requires VisitsOk(w, visits, start) && start <= |w.card| && i <= |visits|
    ensures start <= n <= Reached(visits, start, page, i) <= LastSeen(visits, start) <= |w.card|
  {
    ReachedWithin(w, visits, start, page, i);
    if i == 0 then start
    else Settled(w, start, Reached(visits, start, page, i), visits[i - 1].boot, FinalAt(visits, start, page, i - 1))
  }

  datatype Disk = Disk(db: Db, done: nat)

  /** What a run leaves on disk. The pages it read are settled as one, unless it died writing the last:
      then the cursor stays before that page, and only the first of its points are there. */
  function LeftBy<P>(w: World<P>, disk: Disk, visits: seq<Visit>, page: nat): (left: Disk)
    requires VisitsOk(w, visits, disk.done) && disk.done <= |w.card|
    ensures disk.done <= left.done <= LastSeen(visits, disk.done) <= |w.card|
  {
    var n := PagesRead(visits, disk.done, page, 0);
    var m := SettledAfter(w, visits, disk.done, page, n);
    var points := PointsBetween(w, disk.done, m);
    if n > 0 && visits[n - 1].fate.DiesWriting? then
      var before := SettledAfter(w, visits, disk.done, page, n - 1);
      var written := |PointsBetween(w, disk.done, before)| + visits[n - 1].fate.points;
      Disk(Written(disk.db, points[..Min(written, |points|)]), before)
    else Disk(Written(disk.db, points), m)
  }

  /** The visit that completes a run: the first to end it, if it brings all there is and kills nothing. */
  function CompletedBy(visits: seq<Visit>, start: nat, page: nat): Option<nat> {
    var n := PagesRead(visits, start, page, 0);
    if n > 0 && visits[n - 1].fate.GoesOn? && FinalAt(visits, start, page, n - 1) then Some(n - 1) else None
  }

  /** A record that is settled stays settled when more follows, whatever is then known of the boots. */
  lemma StaysSettled(buf: seq<Rec>, more: seq<Rec>, i: nat, boot: int, boot': int, final: bool)
    requires i < |buf| && !StampAt(buf, i, boot, false).Open?
    ensures !StampAt(buf + more, i, boot', final).Open?
  {
    var later := buf[i + 1..];
    assert (buf + more)[i + 1..] == later + more;
    AnchorAppend(later, more, buf[i].boot);
    if OtherBoot(later, buf[i].boot) {
      var k :| 0 <= k < |later| && later[k].boot != buf[i].boot;
      assert (later + more)[k].boot != buf[i].boot;
    }
  }

  lemma SliceInTwo(s: seq<Rec>, a: nat, b: nat, c: nat)
    requires a <= b <= c <= |s|
    ensures s[a..b] + s[b..c] == s[a..c]
  {
  }

  /** Settling a first part and then the rest with more reaches as far as settling it all at once. */
  lemma SettledTwice<P>(w: World<P>, c: nat, e: nat, e': nat, boot: int, boot': int, final: bool)
    requires c <= e <= e' <= |w.card|
    ensures Settled(w, Settled(w, c, e, boot, false), e', boot', final) == Settled(w, c, e', boot', final)
  {
    hide StampAt, DoneCount;
    var part, buf := w.card[c..e], w.card[c..e'];
    var m := DoneCount(part, boot, false);
    var n := DoneCount(buf[m..], boot', final);
    assert buf[m..] == w.card[c + m..e'];
    SliceInTwo(w.card, c, e, e');
    forall i | 0 <= i < m
      ensures !StampAt(buf, i, boot', final).Open?
    {
      StaysSettled(part, w.card[e..e'], i, boot, boot', final);
    }
    forall i | m <= i < |buf|
      ensures StampAt(buf, i, boot', final) == StampAt(buf[m..], i - m, boot', final)
    {
      StampSuffix(buf, m, i, boot', final);
    }
    DoneCountUnique(buf, boot', final, m + n);
  }

  /** One more page of a run that has not ended. */
  lemma PageOfRun<P>(w: World<P>, visits: seq<Visit>, start: nat, page: nat, i: nat)
    requires VisitsOk(w, visits, start) && start <= |w.card| && i < |visits|
    requires i > 0 ==> !StopsAt(visits, start, page, i - 1)
    ensures var e, e' := Reached(visits, start, page, i), Reached(visits, start, page, i + 1);
            var final := FinalAt(visits, start, page, i);
            && e == start + i * page && e' == Min(e + page, visits[i].visible) && (final <==> e' == visits[i].visible)
            && SettledAfter(w, visits, start, page, i) <= e <= e' <= |w.card|
            && Settled(w, SettledAfter(w, visits, start, page, i), e', visits[i].boot, final)
               == SettledAfter(w, visits, start, page, i + 1)
  {
    hide Settled;
    VisitAt(w, visits, start, i);
    PageOfPages(i, page);
    var e, e' := Reached(visits, start, page, i), Reached(visits, start, page, i + 1);
    if i > 0 {
      PageOfPages(i - 1, page);
      SettledTwice(w, start, e, e', visits[i - 1].boot, visits[i].boot, FinalAt(visits, start, page, i));
    }
  }

  /** The points written over a run, one more page of them written or begun. */
  lemma PageWrites<P>(w: World<P>, db: Db, start: nat, c: nat, m: nat, fate: Fate)
    requires start <= c <= m <= |w.card|
    ensures var points, written := PointsBetween(w, start, m), Written(db, PointsBetween(w, start, c));
            var n := |PointsBetween(w, start, c)| + if fate.DiesWriting? then fate.points else 0;
            Written(written, PagePoints(w, c, m, fate))
            == Written(db, if fate.DiesWriting? then points[..Min(n, |points|)] else points)
    ensures c == m ==> PagePoints(w, c, m, fate) == []
  {
    hide PointsBetween, Written;
    BetweenConcat(w, start, c, m);
    NothingBetween(w, c);
    var before, page := PointsBetween(w, start, c), PagePoints(w, c, m, fate);
    WrittenConcat(db, before, page);
    if fate.DiesWriting? {
      assert before + page == PointsBetween(w, start, m)[..|before| + |page|];
    }
  }

  lemma NoneWritten(db: Db)
    ensures Written(db, []) == db
  {
  }

  /** One ingest run: pages until there is no more or the process dies. Returns the index of the visit
      that completed it, if any, and how many records of the running boot are still held. */
  method Ingest<P>(w: World<P>, store: Store<P>, visits: seq<Visit>, page: nat) returns (completed: Option<nat>, held: nat)
    requires Sane(w) && store.Consistent(w) && VisitsOk(w, visits, store.done) && page > 0
    modifies store
    ensures store.Consistent(w) && store.done >= old(store.done)
    ensures Disk(store.db, store.done) == LeftBy(w, Disk(old(store.db), old(store.done)), visits, page)
    ensures completed == CompletedBy(visits, old(store.done), page)
    ensures completed.Some? ==> completed.value < |visits| && held == visits[completed.value].visible - store.done
    ensures completed.Some? && visits[completed.value].visible == |w.card| && visits[completed.value].boot == w.last ==>
              store.done == Total(w)
    ensures AllGoOn(visits) && |visits| * page > |w.card| - old(store.done) ==> completed.Some?
  {
    hide BootHonest, Decode, OfferAll, Total, PointsTo, PointsBetween, Canon, DbConsistent, Fetch, Resolution, Keyed,
      Contiguous, Written, StateAfter, CursorAt, SeriesOk, Sane, VisitsOk, Settled, SettledAfter, Reached, PagePoints,
      FinalAt;
    StartOfRun(w, store);
    ghost var start, db0 := store.done, store.db;
    NothingBetween(w, start);
    NoneWritten(db0);
    RunBegins(w, visits, start, page);
    var decoder := store.saved.decoder;
    var replay := new Replay(store.saved.thin);
    var since, buf := store.cursor, [];
    completed, held := None, 0;
    var i := 0;
    while i < |visits|
      invariant 0 <= i <= |visits| && completed.None?
      invariant store.Consistent(w) && store.done == SettledAfter(w, visits, start, page, i)
      invariant buf == w.card[store.done..Reached(visits, start, page, i)]
      invariant since == CursorAt(w, Reached(visits, start, page, i))
      invariant Saved(decoder, replay.State()) == store.saved && Keyed(replay.State()) && fresh(replay)
      invariant store.db == Written(db0, PointsBetween(w, start, store.done))
      invariant PagesRead(visits, start, page, i) == PagesRead(visits, start, page, 0)
      invariant i > 0 ==> !StopsAt(visits, start, page, i - 1)
    {
      var v := visits[i];
      VisitAt(w, visits, start, i);
      PageOfRun(w, visits, start, page, i);
      ghost var c, m := store.done, SettledAfter(w, visits, start, page, i + 1);
      var final, settled;
      since, final, settled, buf := FetchPage(w, v.visible, v.boot, since, page, buf, c, Reached(visits, start, page, i));
      PageWrites(w, db0, start, c, m, v.fate);
      NoneWritten(store.db);
      if settled != [] {
        decoder := SettlePage(w, store, replay, decoder, settled, v.fate, m);
        if v.fate.DiesWriting? {
          return;
        }
      }
      if !v.fate.GoesOn? {
        return;
      }
      if final {
        completed, held := Some(i), |buf|;
        return;
      }
      i := i + 1;
    }
    RunIsLong(w, visits, start, page);
  }

  lemma RunBegins<P>(w: World<P>, visits: seq<Visit>, start: nat, page: nat)
    requires VisitsOk(w, visits, start) && start <= |w.card|
    ensures SettledAfter(w, visits, start, page, 0) == Reached(visits, start, page, 0) == start
  {
  }

  /** Pages enough for the whole card bring it all. */
  lemma RunIsLong<P>(w: World<P>, visits: seq<Visit>, start: nat, page: nat)
    requires VisitsOk(w, visits, start) && start <= |w.card|
    ensures |visits| * page > |w.card| - start ==> visits != [] && FinalAt(visits, start, page, |visits| - 1)
  {
    if visits != [] {
      VisitAt(w, visits, start, |visits| - 1);
    }
  }

  /** No visit kills the process. */
  predicate AllGoOn(visits: seq<Visit>) {
    forall v :: v in visits ==> v.fate.GoesOn?
  }

  lemma PageOfPages(i: nat, page: nat)
    ensures (i + 1) * page == i * page + page
  {
  }

  lemma VisitAt<P>(w: World<P>, visits: seq<Visit>, start: nat, i: nat)
    requires VisitsOk(w, visits, start) && i < |visits|
    ensures var v := visits[i];
            && start <= v.visible <= |w.card| && BootHonest(w.card, v.visible, v.boot, w.last)
            && (i > 0 ==> visits[i - 1].visible <= v.visible)
            && v.visible <= visits[|visits| - 1].visible
  {
    assert visits[i] in visits;
  }

  lemma StartOfRun<P>(w: World<P>, store: Store<P>)
    requires store.Consistent(w)
    ensures Keyed(store.saved.thin) && store.done <= Total(w) <= |w.card| && store.cursor == CursorAt(w, store.done)
  {
    hide Keyed;
    StateKeyed(w, store.done);
  }

  // ----- Any schedule of runs ------------------------------------------------------------------

  /** The cursor never passes a record whose points are not in the database. */
  lemma CursorPassesNothingUnwritten<P>(w: World<P>, store: Store<P>, p: Point)
    requires store.Consistent(w) && p in PointsTo(w, store.done)
    ensures KeyOf(p) in store.db
  {
    hide PointsTo, Written, Total, CursorAt, StateAfter, PointsBetween;
    WrittenKeys(w.db0, PointsTo(w, store.done));
    assert Touches(PointsTo(w, store.done), KeyOf(p));
  }

  /** Once everything is settled nothing of an earlier crash is left in the database. */
  lemma SettledIsCanonical<P>(w: World<P>, store: Store<P>)
    requires store.Consistent(w) && store.done == Total(w)
    ensures store.db == Written(w.db0, PointsTo(w, Total(w)))
  {
    hide PointsTo, Written, Total, CursorAt, StateAfter, DbConsistent;
    ConsistentIsExact(w, store.db, store.done);
  }

  /** The card only grows from one run to the next too. */
  predicate RunsOk<P>(w: World<P>, runs: seq<seq<Visit>>, start: nat)
    decreases |runs|
  {
    runs == [] || (VisitsOk(w, runs[0], start) && RunsOk(w, runs[1..], LastSeen(runs[0], start)))
  }

  /** Nothing kills the run, the whole card and the last boot are shown, and there are pages enough for it
      all. */
  predicate RunsToTheEnd<P>(w: World<P>, visits: seq<Visit>, page: nat) {
    && AllGoOn(visits) && |visits| * page > |w.card|
    && forall v :: v in visits ==> v.visible == |w.card| && v.boot == w.last
  }

  /** What runs one after the other leave. */
  function AfterRuns<P>(w: World<P>, disk: Disk, runs: seq<seq<Visit>>, seen: nat, page: nat): Disk
    requires disk.done <= seen <= |w.card| && RunsOk(w, runs, seen)
    decreases |runs|
  {
    if runs == [] then disk
    else
      VisitsFrom(w, runs[0], seen, disk.done);
      ReachedWithin(w, runs[0], seen, page, 0);
      AfterRuns(w, LeftBy(w, disk, runs[0], page), runs[1..], LastSeen(runs[0], seen), page)
  }

  /** Runs started again and again, each possibly dying anywhere. Whatever they were, if the last one
      completes on the whole card the database is the one a single uninterrupted run makes; and a last
      run that nothing kills does complete. What is on disk is what the runs leave one after the other. */
  method Schedule<P>(w: World<P>, runs: seq<seq<Visit>>, page: nat) returns (store: Store<P>, completed: bool)
    requires Sane(w) && RunsOk(w, runs, 0) && page > 0
    ensures fresh(store) && store.Consistent(w)
    ensures completed ==> store.db == Written(w.db0, PointsTo(w, Total(w)))
    ensures runs != [] && RunsToTheEnd(w, runs[|runs| - 1], page) ==> completed
    ensures Disk(store.db, store.done) == AfterRuns(w, Disk(w.db0, 0), runs, 0, page)
  {
    hide BootHonest, Total, PointsTo, Written, StateAfter, CursorAt, DbConsistent, Sane, VisitsOk, LeftBy, CompletedBy;
    store := new Store(w);
    completed := false;
    var i := 0;
    ghost var seen: nat := 0;
    assert runs[0..] == runs;
    while i < |runs|
      invariant 0 <= i <= |runs| && fresh(store) && store.Consistent(w)
      invariant store.done <= seen <= |w.card| && RunsOk(w, runs[i..], seen)
      invariant AfterRuns(w, Disk(store.db, store.done), runs[i..], seen, page) == AfterRuns(w, Disk(w.db0, 0), runs, 0, page)
      invariant completed ==> store.db == Written(w.db0, PointsTo(w, Total(w)))
      invariant i > 0 && RunsToTheEnd(w, runs[i - 1], page) ==> completed
    {
      assert runs[i..][0] == runs[i] && runs[i..][1..] == runs[i + 1..];
      VisitsFrom(w, runs[i], seen, store.done);
      ReachedWithin(w, runs[i], seen, page, 0);
      var done, held := Ingest(w, store, runs[i], page);
      completed := done.Some? && runs[i][done.value].visible == |w.card| && runs[i][done.value].boot == w.last;
      if completed {
        SettledIsCanonical(w, store);
      }
      seen := LastSeen(runs[i], seen);
      i := i + 1;
    }
  }

  lemma VisitsFrom<P>(w: World<P>, visits: seq<Visit>, start: nat, earlier: nat)
    requires VisitsOk(w, visits, start) && earlier <= start
    ensures VisitsOk(w, visits, earlier)
  {
  }
}

/** What thinning keeps over any sequence of calls: nothing is lost but repeats, and the history of
    state codes survives. */
module EspHistory {
  import opened Common
  import opened EspThin

  datatype Call = Gap(p: Point) | CloseCall(ts: int)

  /** Everything that happened over a sequence of calls. */
  datatype Trace = Trace(thin: Thin, inputs: seq<Point>, emitted: seq<Point>, dropped: seq<Point>)

  function Advance(r: Trace, c: Call): Trace {
    match c
    case Gap(p) =>
      var s := ThinPoint(r.thin, p);
      Trace(s.thin, r.inputs + [p], r.emitted + s.points, r.dropped + s.dropped)
    case CloseCall(ts) =>
      var s := CloseAt(r.thin, ts);
      r.(thin := s.thin, emitted := r.emitted + s.points)
  }

  function RunCalls(t: Thin, calls: seq<Call>): Trace {
    if calls == [] then Trace(t, [], [], [])
    else Advance(RunCalls(t, calls[..|calls| - 1]), calls[|calls| - 1])
  }

  // ----- Views of one function -----------------------------------------------------------------

  function OfFn(points: seq<Point>, f: Fn): seq<Point> {
    if points == [] then []
    else
      var rest := OfFn(points[..|points| - 1], f);
      if points[|points| - 1].fn == f then rest + [points[|points| - 1]] else rest
  }

  function PendOf(t: Thin, f: Fn): seq<Point> {
    if f in t.pending then [t.pending[f]] else []
  }

  function CodesOf(points: seq<Point>): (c: seq<Codes>)
    ensures |c| == |points|
  {
    seq(|points|, i requires 0 <= i < |points| => StateCodes(points[i].interp))
  }

  /** The sequence without immediate repeats. */
  function Destutter(s: seq<Codes>): seq<Codes> {
    if |s| <= 1 then s
    else
      var d := Destutter(s[..|s| - 1]);
      if s[|s| - 1] == s[|s| - 2] then d else d + [s[|s| - 1]]
  }

  lemma {:induction false} OfFnAppend(a: seq<Point>, b: seq<Point>, f: Fn)
    ensures OfFn(a + b, f) == OfFn(a, f) + OfFn(b, f)
    decreases |b|
  {
    if b == [] {
      assert a + b == a;
    } else {
      var n := |b| - 1;
      assert (a + b)[..|a + b| - 1] == a + b[..n];
      OfFnAppend(a, b[..n], f);
    }
  }

  lemma OfFnOne(p: Point, f: Fn)
    ensures OfFn([p], f) == if p.fn == f then [p] else []
  {
    assert [p][..0] == [];
  }

  lemma {:induction false} OfFnMember(points: seq<Point>, f: Fn, p: Point)
    requires p in OfFn(points, f)
    ensures p in points && p.fn == f
    decreases |points|
  {
    var n := |points| - 1;
    if p in OfFn(points[..n], f) {
      OfFnMember(points[..n], f, p);
    }
  }

  lemma DestutterAppend(points: seq<Point>, p: Point)
    ensures var c := StateCodes(p.interp); var d := Destutter(CodesOf(points));
            Destutter(CodesOf(points + [p])) ==
            if points != [] && StateCodes(points[|points| - 1].interp) == c then d else d + [c]
  {
    var s := CodesOf(points + [p]);
    assert s[..|points|] == CodesOf(points);
  }

  // ----- One call ------------------------------------------------------------------------------

  /** Closing moves pending points to the output, and keeps every function's previous codes. */
  lemma {:induction false} EmitAllKeeps(t: Thin, fns: seq<Fn>, f: Fn)
    requires Keyed(t)
    ensures var r := EmitAll(t, fns);
            && Keyed(r.thin)
            && OfFn(r.points, f) + PendOf(r.thin, f) == PendOf(t, f)
            && PrevCodes(r.thin, f) == PrevCodes(t, f)
            && |r.points| + |r.thin.pending| == |t.pending|
    decreases |fns|
  {
    hide StateCodes, PrevCodes, OfFn, PendOf, Keyed, Emit;
    if fns != [] {
      if fns[0] !in t.pending {
        EmitAllKeeps(t, fns[1..], f);
      } else {
        var p := t.pending[fns[0]];
        EmitOne(t, fns[0], f);
        EmitAllKeeps(Emit(t, p), fns[1..], f);
        var r := EmitAll(Emit(t, p), fns[1..]);
        OfFnAppend([p], r.points, f);
        assert OfFn([p] + r.points, f) + PendOf(r.thin, f) == OfFn([p], f) + (OfFn(r.points, f) + PendOf(r.thin, f));
      }
    } else {
      NothingOf(f);
    }
  }

  /** Emitting the pending point of one function. */
  lemma EmitOne(t: Thin, fn: Fn, f: Fn)
    requires Keyed(t) && fn in t.pending
    ensures var p := t.pending[fn]; var next := Emit(t, p);
            && Keyed(next) && PrevCodes(next, f) == PrevCodes(t, f)
            && PendOf(t, f) == OfFn([p], f) + PendOf(next, f)
            && |t.pending| == |next.pending| + 1
  {
    hide StateCodes;
    var p := t.pending[fn];
    OfFnOne(p, f);
    assert t.pending == Emit(t, p).pending[p.fn := p];
  }

  /** A gap record joins its function's output and pending points at the end, or takes the place of
      a pending point of the same codes whose slot is not over. */
  predicate Joined(t: Thin, r: Thinned, p: Point) {
    var before, after := PendOf(t, p.fn), OfFn(r.points, p.fn) + PendOf(r.thin, p.fn);
    || (after == before + [p] && r.dropped == [])
    || (|before| == 1 && after == [p] && r.dropped == before
        && StateCodes(before[0].interp) == StateCodes(p.interp) && Slot(before[0].ts) >= Slot(p.ts))
  }

  lemma ThinOther(t: Thin, p: Point, f: Fn)
    requires Keyed(t) && f != p.fn
    ensures var r := ThinPoint(t, p);
            && OfFn(r.points, f) + PendOf(r.thin, f) == PendOf(t, f) && OfFn(r.dropped, f) == []
            && PrevCodes(r.thin, f) == PrevCodes(t, f)
  {
    hide StateCodes, CloseAt, OfFn;
    CloseKeeps(t, p.ts, f);
    var c := CloseAt(t, p.ts);
    NothingOf(f);
    OfFnParts(c.points, PendOf(c.thin, p.fn), p, f);
  }

  lemma OfFnParts(points: seq<Point>, left: seq<Point>, p: Point, f: Fn)
    requires |left| <= 1 && forall q :: q in left ==> q.fn == p.fn
    ensures OfFn(points + left + [p], f) == OfFn(points, f) + (if f == p.fn then left + [p] else [])
    ensures OfFn(left, f) == if f == p.fn then left else []
  {
    hide OfFn;
    OfFnAppend(points + left, [p], f);
    OfFnAppend(points, left, f);
    OfFnOne(p, f);
    OfFnLeft(left, p, f);
    if f == p.fn {
      assert OfFn(points, f) + left + [p] == OfFn(points, f) + (left + [p]);
    } else {
      assert OfFn(points, f) + [] + [] == OfFn(points, f) + [];
    }
  }

  lemma OfFnLeft(left: seq<Point>, p: Point, f: Fn)
    requires |left| <= 1 && forall q :: q in left ==> q.fn == p.fn
    ensures OfFn(left, f) == if f == p.fn then left else []
  {
    hide OfFn;
    if left == [] {
      NothingOf(f);
    } else {
      var q := left[0];
      assert q in left && left == [q];
      OfFnOne(q, f);
    }
  }

  lemma CloseKeeps(t: Thin, ts: int, f: Fn)
    requires Keyed(t)
    ensures var r := CloseAt(t, ts);
            && Keyed(r.thin) && PrevCodes(r.thin, f) == PrevCodes(t, f)
            && OfFn(r.points, f) + PendOf(r.thin, f) == PendOf(t, f)
            && |r.points| + |r.thin.pending| == |t.pending|
            && (f in r.thin.pending ==> Slot(r.thin.pending[f].ts) >= Slot(ts))
  {
    EmitAllKeeps(t, Sorted(Due(t, ts)), f);
    EmitAllTakes(t, Sorted(Due(t, ts)), f);
  }

  lemma {:induction false} EmitAllTakes(t: Thin, fns: seq<Fn>, f: Fn)
    requires Keyed(t)
    ensures var r := EmitAll(t, fns); f in r.thin.pending ==> f in t.pending && r.thin.pending[f] == t.pending[f] && f !in fns
    decreases |fns|
  {
    hide StateCodes;
    if fns != [] {
      var rest := fns[1..];
      assert f in fns <==> f == fns[0] || f in rest;
      EmitAllTakes(if fns[0] in t.pending then Emit(t, t.pending[fns[0]]) else t, rest, f);
    }
  }

  lemma ThinOwn(t: Thin, p: Point)
    requires Keyed(t)
    ensures var r := ThinPoint(t, p);
            Joined(t, r, p) && PrevCodes(r.thin, p.fn) == Some(StateCodes(p.interp))
  {
    hide StateCodes, CloseAt, OfFn;
    CloseKeeps(t, p.ts, p.fn);
    var c := CloseAt(t, p.ts);
    OfFnParts(c.points, PendOf(c.thin, p.fn), p, p.fn);
  }

  lemma Replacing(m: map<Fn, Point>, f: Fn, p: Point)
    ensures |m[f := p]| == (if f in m then |m| else |m| + 1)
    ensures |m - {f}| == (if f in m then |m| - 1 else |m|)
    ensures m - {f} - {f} == m - {f}
  {
    assert m[f := p].Keys == m.Keys + {f};
    assert (m - {f}).Keys == m.Keys - {f};
  }

  lemma ThinCounts(t: Thin, p: Point)
    requires Keyed(t)
    ensures var r := ThinPoint(t, p);
            Keyed(r.thin) && |r.points| + |r.dropped| + |r.thin.pending| == |t.pending| + 1
  {
    hide CloseAt, PrevCodes, OfFn, PendOf, Slot, Place;
    CloseKeeps(t, p.ts, p.fn);
    PlaceCounts(CloseAt(t, p.ts), p);
  }

  lemma PlaceCounts(c: Emitted, p: Point)
    requires Keyed(c.thin)
    ensures var r := Place(c, p);
            Keyed(r.thin) && |r.points| + |r.dropped| + |r.thin.pending| == |c.points| + |c.thin.pending| + 1
  {
    hide StateCodes, PrevCodes, Emit;
    var held := c.thin.pending;
    Replacing(held, p.fn, p);
    EmitDrops(c.thin, p);
    if p.fn in held {
      EmitDrops(c.thin, held[p.fn]);
      EmitDrops(Emit(c.thin, held[p.fn]), p);
    }
  }

  lemma EmitDrops(t: Thin, p: Point)
    ensures Emit(t, p).pending == t.pending - {p.fn}
  {
    hide StateCodes;
  }

  // ----- Any sequence of calls -----------------------------------------------------------------

  /** What function `f` has been given, and what it wrote followed by what it still holds. */
  function Given(r: Trace, f: Fn): seq<Point> {
    OfFn(r.inputs, f)
  }

  function Kept(r: Trace, f: Fn): seq<Point> {
    OfFn(r.emitted, f) + PendOf(r.thin, f)
  }

  /** The code history of `f` survives, and its points are conserved. */
  predicate Faithful(r: Trace, f: Fn) {
    var given, kept := Given(r, f), Kept(r, f);
    && (given == [] <==> kept == [])
    && (given != [] ==> kept[|kept| - 1] == given[|given| - 1]
                        && PrevCodes(r.thin, f) == Some(StateCodes(given[|given| - 1].interp)))
    && Destutter(CodesOf(kept)) == Destutter(CodesOf(given))
    && multiset(given) == multiset(kept) + multiset(OfFn(r.dropped, f))
  }

  lemma SameViewsFaithful(r: Trace, r': Trace, f: Fn)
    requires Faithful(r, f) && Given(r', f) == Given(r, f) && Kept(r', f) == Kept(r, f)
    requires OfFn(r'.dropped, f) == OfFn(r.dropped, f) && PrevCodes(r'.thin, f) == PrevCodes(r.thin, f)
    ensures Faithful(r', f)
  {
  }

  lemma AdvanceOther(r: Trace, c: Call, f: Fn)
    requires Keyed(r.thin) && Faithful(r, f) && (c.Gap? ==> c.p.fn != f)
    ensures Faithful(Advance(r, c), f)
  {
    hide StateCodes, CloseAt, ThinPoint, OfFn, Faithful, PrevCodes;
    var s := if c.Gap? then ThinPoint(r.thin, c.p).points else CloseAt(r.thin, c.ts).points;
    OfFnAppend(r.emitted, s, f);
    if c.Gap? {
      ThinOther(r.thin, c.p, f);
      OfFnAppend(r.inputs, [c.p], f);
      OfFnOne(c.p, f);
      OfFnAppend(r.dropped, ThinPoint(r.thin, c.p).dropped, f);
    } else {
      CloseKeeps(r.thin, c.ts, f);
    }
    var r' := Advance(r, c);
    assert Kept(r', f) == OfFn(r.emitted, f) + (OfFn(s, f) + PendOf(r'.thin, f));
    SameViewsFaithful(r, r', f);
  }

  /** One more point given: kept at the end, or kept in place of a dropped one of the same codes. */
  lemma GivenOneMore(given: seq<Point>, wrote: seq<Point>, held: seq<Point>, held': seq<Point>, d: seq<Point>, p: Point)
    requires given == [] <==> wrote + held == []
    requires given != [] ==> (wrote + held)[|wrote + held| - 1] == given[|given| - 1]
    requires Destutter(CodesOf(wrote + held)) == Destutter(CodesOf(given))
    requires || (d == [] && held' == held + [p])
             || (|held| == 1 && d == held && held' == [p] && StateCodes(d[0].interp) == StateCodes(p.interp))
    ensures wrote + held' != [] && (wrote + held')[|wrote + held'| - 1] == p
    ensures Destutter(CodesOf(wrote + held')) == Destutter(CodesOf(given + [p]))
  {
    hide StateCodes, Destutter;
    DestutterAppend(given, p);
    if d == [] {
      DestutterAppend(wrote + held, p);
      assert wrote + held' == wrote + held + [p];
    } else {
      assert CodesOf(wrote + [p]) == CodesOf(wrote + held);
    }
  }

  lemma BagsOneMore(given: seq<Point>, wrote: seq<Point>, held: seq<Point>, held': seq<Point>, dropped: seq<Point>, d: seq<Point>, p: Point)
    requires multiset(given) == multiset(wrote + held) + multiset(dropped)
    requires (d == [] && held' == held + [p]) || (d == held && held' == [p])
    ensures multiset(given + [p]) == multiset(wrote + held') + multiset(dropped + d)
  {
    assert multiset(held') + multiset(d) == multiset(held) + multiset([p]);
  }

  lemma AdvanceOwn(r: Trace, p: Point)
    requires Keyed(r.thin) && Faithful(r, p.fn)
    ensures Faithful(Advance(r, Gap(p)), p.fn)
  {
    hide StateCodes, CloseAt, ThinPoint, OfFn, Destutter, PrevCodes, CodesOf, PendOf;
    var f, s, r' := p.fn, ThinPoint(r.thin, p), Advance(r, Gap(p));
    var wrote, held' := OfFn(r.emitted, f), OfFn(s.points, f) + PendOf(s.thin, f);
    ThinOwn(r.thin, p);
    OfFnAppend(r.emitted, s.points, f);
    OfFnAppend(r.inputs, [p], f);
    OfFnOne(p, f);
    OfFnAppend(r.dropped, s.dropped, f);
    DroppedOwn(r.thin, p);
    assert Kept(r', f) == wrote + held';
    GivenOneMore(Given(r, f), wrote, PendOf(r.thin, f), held', s.dropped, p);
    BagsOneMore(Given(r, f), wrote, PendOf(r.thin, f), held', OfFn(r.dropped, f), s.dropped, p);
  }

  lemma DroppedOwn(t: Thin, p: Point)
    requires Keyed(t)
    ensures OfFn(ThinPoint(t, p).dropped, p.fn) == ThinPoint(t, p).dropped
  {
    hide StateCodes, CloseAt;
    CloseKeeps(t, p.ts, p.fn);
    var c := CloseAt(t, p.ts);
    if p.fn in c.thin.pending {
      OfFnOne(c.thin.pending[p.fn], p.fn);
    }
  }

  lemma NothingOf(f: Fn)
    ensures OfFn([], f) == []
  {
  }

  lemma {:induction false} RunKeyed(t: Thin, calls: seq<Call>)
    requires t.pending == map[]
    ensures var r := RunCalls(t, calls);
            Keyed(r.thin) && |r.inputs| == |r.emitted| + |r.dropped| + |r.thin.pending|
    decreases |calls|
  {
    hide CloseAt, ThinPoint;
    if calls != [] {
      var n := |calls| - 1;
      RunKeyed(t, calls[..n]);
      var before := RunCalls(t, calls[..n]);
      match calls[n]
      case Gap(p) => ThinCounts(before.thin, p);
      case CloseCall(ts) => CloseKeeps(before.thin, ts, 0);
    }
  }

  /** From nothing pending, over any calls and for every function: what was given is what was
      written, dropped or still pending, and written followed by pending shows the same succession
      of state codes as what was given. */
  lemma {:induction false} HistoryPreserved(t: Thin, calls: seq<Call>, f: Fn)
    requires t.pending == map[]
    ensures Faithful(RunCalls(t, calls), f)
    decreases |calls|
  {
    hide StateCodes, CloseAt, ThinPoint, Faithful, Advance;
    if calls == [] {
      EmptyFaithful(t, f);
    } else {
      var n := |calls| - 1;
      HistoryPreserved(t, calls[..n], f);
      RunKeyed(t, calls[..n]);
      if calls[n].Gap? && calls[n].p.fn == f {
        AdvanceOwn(RunCalls(t, calls[..n]), calls[n].p);
      } else {
        AdvanceOther(RunCalls(t, calls[..n]), calls[n], f);
      }
    }
  }

  lemma EmptyFaithful(t: Thin, f: Fn)
    requires t.pending == map[]
    ensures Faithful(Trace(t, [], [], []), f)
  {
  }

  predicate TimesRise(points: seq<Point>) {
    forall i, j :: 0 <= i < j < |points| ==> points[i].ts <= points[j].ts
  }

  /** A later input of the same function, slot and codes makes `d` redundant. */
  predicate Replaced(inputs: seq<Point>, d: Point) {
    exists i, j :: 0 <= i < j < |inputs| && inputs[i] == d && Repeats(d, inputs[j])
  }

  predicate Repeats(d: Point, later: Point) {
    later.fn == d.fn && Slot(later.ts) == Slot(d.ts) && StateCodes(later.interp) == StateCodes(d.interp)
  }

  /** With times that never go back, every dropped point has such a later input. */
  lemma {:induction false} DroppedAreReplaced(t: Thin, calls: seq<Call>, d: Point)
    requires t.pending == map[] && TimesRise(RunCalls(t, calls).inputs) && d in RunCalls(t, calls).dropped
    ensures Replaced(RunCalls(t, calls).inputs, d)
    decreases |calls|
  {
    hide StateCodes, CloseAt, ThinPoint, Slot;
    var n := |calls| - 1;
    var before, r := RunCalls(t, calls[..n]), RunCalls(t, calls);
    var m := |before.inputs|;
    assert before.inputs == r.inputs[..m];
    if d in before.dropped {
      DroppedAreReplaced(t, calls[..n], d);
      var i, j :| 0 <= i < j < m && before.inputs[i] == d && Repeats(d, before.inputs[j]);
      assert r.inputs[i] == d && Repeats(d, r.inputs[j]);
    } else {
      var p := calls[n].p;
      RunKeyed(t, calls[..n]);
      ThinOwn(before.thin, p);
      PendingWasGiven(t, calls[..n], p.fn);
      var i :| 0 <= i < m && before.inputs[i] == d;
      assert r.inputs[i] == d && r.inputs[m] == p;
      SlotMonotone(d.ts, p.ts);
      assert Repeats(d, r.inputs[m]);
    }
  }

  lemma SlotMonotone(a: int, b: int)
    requires a <= b
    ensures Slot(a) <= Slot(b)
  {
  }

  lemma PendingWasGiven(t: Thin, calls: seq<Call>, f: Fn)
    requires t.pending == map[] && f in RunCalls(t, calls).thin.pending
    ensures RunCalls(t, calls).thin.pending[f] in RunCalls(t, calls).inputs
    ensures RunCalls(t, calls).thin.pending[f].fn == f
  {
    hide StateCodes, CloseAt, ThinPoint, RunCalls, Destutter;
    var r := RunCalls(t, calls);
    RunKeyed(t, calls);
    HistoryPreserved(t, calls, f);
    var given, kept := Given(r, f), Kept(r, f);
    assert kept[|kept| - 1] == r.thin.pending[f];
    OfFnMember(r.inputs, f, given[|given| - 1]);
  }
}

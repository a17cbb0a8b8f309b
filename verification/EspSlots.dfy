/** That thinning thins: what is kept of one slot. */
module EspSlots {
  import opened Common
  import opened EspThin
  import opened EspHistory

  function TimeOf(c: Call): int {
    match c
    case Gap(p) => p.ts
    case CloseCall(ts) => ts
  }

  predicate CallsRise(calls: seq<Call>) {
    forall i, j :: 0 <= i < j < |calls| ==> TimeOf(calls[i]) <= TimeOf(calls[j])
  }

  predicate SameCodes(a: Point, b: Point) {
    StateCodes(a.interp) == StateCodes(b.interp)
  }

  /** Point `i` shows other codes than the one before it. */
  predicate Changed(kept: seq<Point>, i: nat)
    requires i < |kept|
  {
    i > 0 && !SameCodes(kept[i - 1], kept[i])
  }

  /** Two points in a row of one slot and the same codes are only kept where the first is a change of codes. */
  predicate Spaced(kept: seq<Point>) {
    forall i :: 0 <= i < |kept| - 1 && Slot(kept[i].ts) == Slot(kept[i + 1].ts) && SameCodes(kept[i], kept[i + 1]) ==>
      Changed(kept, i)
  }

  /** With nothing pending the last point was a change, or its slot is over. */
  predicate Settled(r: Trace, f: Fn, now: int) {
    var kept := Kept(r, f);
    && Spaced(kept)
    && (f !in r.thin.pending && kept != [] ==> Changed(kept, |kept| - 1) || Slot(kept[|kept| - 1].ts) < Slot(now))
    && (kept == [] ==> PrevCodes(r.thin, f) == None)
    && (f in r.thin.pending ==> Slot(r.thin.pending[f].ts) <= Slot(now))
  }

  /** A gap record of `f` itself: it leaves at once exactly if the codes change, and else is pending. */
  lemma ThinKinds(t: Thin, p: Point)
    requires Keyed(t)
    ensures var r, prev := ThinPoint(t, p), PrevCodes(t, p.fn);
            && (prev.Some? && prev.value != StateCodes(p.interp) ==> p.fn !in r.thin.pending && r.dropped == [])
            && (prev.None? || prev.value == StateCodes(p.interp) ==> p.fn in r.thin.pending && r.thin.pending[p.fn] == p)
            && (prev.Some? && prev.value == StateCodes(p.interp) && p.fn in t.pending && Slot(t.pending[p.fn].ts) == Slot(p.ts)
                ==> r.dropped == [t.pending[p.fn]])
  {
    hide StateCodes, EmitAll, OfFn;
    CloseKeeps(t, p.ts, p.fn);
    if p.fn in t.pending && Slot(t.pending[p.fn].ts) == Slot(p.ts) {
      NotDueStays(t, p.ts, p.fn);
    }
  }

  lemma NotDueStays(t: Thin, ts: int, f: Fn)
    requires Keyed(t) && f in t.pending && Slot(t.pending[f].ts) >= Slot(ts)
    ensures f in CloseAt(t, ts).thin.pending && CloseAt(t, ts).thin.pending[f] == t.pending[f]
  {
    hide StateCodes;
    EmitAllLeaves(t, Sorted(Due(t, ts)), f);
  }

  lemma {:induction false} EmitAllLeaves(t: Thin, fns: seq<Fn>, f: Fn)
    requires Keyed(t) && f in t.pending && f !in fns
    ensures var r := EmitAll(t, fns).thin; f in r.pending && r.pending[f] == t.pending[f]
    decreases |fns|
  {
    hide StateCodes;
    if fns != [] {
      assert fns[0] in fns && forall g :: g in fns[1..] ==> g in fns;
      EmitAllLeaves(if fns[0] in t.pending then Emit(t, t.pending[fns[0]]) else t, fns[1..], f);
    }
  }

  lemma SpacedOneMore(kept: seq<Point>, p: Point)
    requires Spaced(kept)
    requires kept != [] && Slot(kept[|kept| - 1].ts) == Slot(p.ts) && SameCodes(kept[|kept| - 1], p) ==> Changed(kept, |kept| - 1)
    ensures Spaced(kept + [p])
  {
    hide StateCodes;
    var more := kept + [p];
    assert forall i :: 0 <= i < |kept| ==> more[i] == kept[i];
    assert forall i :: 0 <= i < |kept| && Changed(kept, i) ==> Changed(more, i);
  }

  lemma SpacedReplaced(front: seq<Point>, d: Point, p: Point)
    requires Spaced(front + [d]) && Slot(d.ts) == Slot(p.ts) && SameCodes(d, p)
    ensures Spaced(front + [p])
  {
    hide StateCodes;
    var was, now := front + [d], front + [p];
    forall i | 0 <= i < |now| - 1 && Slot(now[i].ts) == Slot(now[i + 1].ts) && SameCodes(now[i], now[i + 1])
      ensures Changed(now, i)
    {
      assert Slot(was[i].ts) == Slot(was[i + 1].ts) && SameCodes(was[i], was[i + 1]);
      assert Changed(was, i);
    }
  }

  lemma AdvanceOwnSettled(r: Trace, p: Point, now: int)
    requires Keyed(r.thin) && Faithful(r, p.fn) && Settled(r, p.fn, now) && now <= p.ts
    ensures Settled(Advance(r, Gap(p)), p.fn, p.ts)
  {
    hide StateCodes, CloseAt, ThinPoint, OfFn, Spaced, PrevCodes, Slot, Faithful;
    var f, s := p.fn, ThinPoint(r.thin, p);
    var wrote, pend, kept := OfFn(r.emitted, f), PendOf(r.thin, f), Kept(r, f);
    ThinOwn(r.thin, p);
    ThinKinds(r.thin, p);
    SlotMonotone(now, p.ts);
    OfFnAppend(r.emitted, s.points, f);
    var r' := Advance(r, Gap(p));
    var after := OfFn(s.points, f) + PendOf(s.thin, f);
    assert Kept(r', f) == wrote + after;
    if after == pend + [p] && s.dropped == [] {
      assert Kept(r', f) == kept + [p];
      LastKept(r, f);
      SpacedOneMore(kept, p);
    } else {
      assert kept == wrote + [pend[0]] && Kept(r', f) == wrote + [p];
      SpacedReplaced(wrote, pend[0], p);
    }
  }

  /** The codes compared with are those of the last point kept. */
  lemma LastKept(r: Trace, f: Fn)
    requires Faithful(r, f)
    ensures var kept := Kept(r, f);
            kept != [] ==> PrevCodes(r.thin, f) == Some(StateCodes(kept[|kept| - 1].interp))
    ensures f in r.thin.pending ==> Kept(r, f) != [] && Kept(r, f)[|Kept(r, f)| - 1] == r.thin.pending[f]
  {
    hide StateCodes, Destutter, CodesOf;
  }

  lemma AdvanceOtherSettled(r: Trace, c: Call, f: Fn, now: int)
    requires Keyed(r.thin) && Settled(r, f, now) && now <= TimeOf(c) && (c.Gap? ==> c.p.fn != f)
    ensures Settled(Advance(r, c), f, TimeOf(c))
  {
    hide StateCodes, CloseAt, ThinPoint, OfFn, Spaced, PrevCodes;
    var s := if c.Gap? then ThinPoint(r.thin, c.p).points else CloseAt(r.thin, c.ts).points;
    OfFnAppend(r.emitted, s, f);
    SlotMonotone(now, TimeOf(c));
    if c.Gap? {
      ThinOther(r.thin, c.p, f);
      OtherPending(r.thin, c.p, f);
    } else {
      CloseKeeps(r.thin, c.ts, f);
      ClosedOrSame(r.thin, c.ts, f);
    }
    var r' := Advance(r, c);
    assert Kept(r', f) == OfFn(r.emitted, f) + (OfFn(s, f) + PendOf(r'.thin, f));
    LastPending(r, f);
  }

  lemma LastPending(r: Trace, f: Fn)
    ensures f in r.thin.pending ==> Kept(r, f) != [] && Kept(r, f)[|Kept(r, f)| - 1] == r.thin.pending[f]
  {
  }

  /** A pending point stays, or its slot is over. */
  lemma ClosedOrSame(t: Thin, ts: int, f: Fn)
    requires Keyed(t)
    ensures var r := CloseAt(t, ts).thin;
            && (f in r.pending ==> f in t.pending && r.pending[f] == t.pending[f])
            && (f in t.pending && f !in r.pending ==> Slot(t.pending[f].ts) < Slot(ts))
  {
    hide StateCodes;
    EmitAllTakes(t, Sorted(Due(t, ts)), f);
    if f in t.pending && Slot(t.pending[f].ts) >= Slot(ts) {
      NotDueStays(t, ts, f);
    }
  }

  lemma OtherPending(t: Thin, p: Point, f: Fn)
    requires Keyed(t) && f != p.fn
    ensures var r := ThinPoint(t, p).thin;
            && (f in r.pending ==> f in t.pending && r.pending[f] == t.pending[f])
            && (f in t.pending && f !in r.pending ==> Slot(t.pending[f].ts) < Slot(p.ts))
  {
    hide StateCodes, CloseAt;
    ClosedOrSame(t, p.ts, f);
    CloseKeeps(t, p.ts, p.fn);
  }

  lemma {:induction false} RunSettled(calls: seq<Call>, f: Fn)
    requires calls != [] && CallsRise(calls)
    ensures Settled(RunCalls(Thin(map[], map[]), calls), f, TimeOf(calls[|calls| - 1]))
    decreases |calls|
  {
    hide StateCodes, CloseAt, ThinPoint, Settled, Advance, Faithful;
    var t, n := Thin(map[], map[]), |calls| - 1;
    var front, c := calls[..n], calls[n];
    RunKeyed(t, front);
    HistoryPreserved(t, front, f);
    var now := if n == 0 then TimeOf(c) else TimeOf(calls[n - 1]);
    if n > 0 {
      RunSettled(front, f);
    } else {
      NothingSettled(f, now);
    }
    if c.Gap? && c.p.fn == f {
      AdvanceOwnSettled(RunCalls(t, front), c.p, now);
    } else {
      AdvanceOtherSettled(RunCalls(t, front), c, f, now);
    }
  }

  lemma NothingSettled(f: Fn, now: int)
    ensures Settled(RunCalls(Thin(map[], map[]), []), f, now)
  {
  }

  /** Over any calls whose times never go back, of one function and slot only changes of the codes and the
      last point are kept: two points in a row with the same codes only where the first is a change. */
  lemma OnePerSlot(calls: seq<Call>, f: Fn)
    requires CallsRise(calls)
    ensures Spaced(Kept(RunCalls(Thin(map[], map[]), calls), f))
  {
    hide StateCodes, CloseAt, ThinPoint;
    if calls == [] {
      NothingSettled(f, 0);
    } else {
      RunSettled(calls, f);
    }
  }

  /** A point that changes nothing is not written before its slot is over. */
  lemma NotYetWritten(t: Thin, p: Point)
    requires Keyed(t) && (PrevCodes(t, p.fn).Some? ==> PrevCodes(t, p.fn).value == StateCodes(p.interp))
    ensures p.fn in ThinPoint(t, p).thin.pending && ThinPoint(t, p).thin.pending[p.fn] == p
  {
    hide StateCodes;
    ThinKinds(t, p);
  }
}

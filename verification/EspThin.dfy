/** Lossy thinning of gap records: one point per function and 30 s slot, but never a lost change of
    the state codes. */
module EspThin {
  import opened Common

  const SLOT_MS := 30000

  /** A function, by its rank in name order. */
  type Fn = nat

  /** An interpreted frame: its numeric fields. */
  datatype Interp = Interp(fields: map<string, int>)

  /** A point of function `fn` at `ts`. */
  datatype Point = Point(fn: Fn, ts: int, interp: Interp)

  type Codes = map<string, int>

  function Slot(ts: int): int {
    ts / SLOT_MS
  }

  predicate EndsWith(s: string, suffix: string) {
    |suffix| <= |s| && s[|s| - |suffix|..] == suffix
  }

  /** The alert codes and the ignition: thinning must not lose a change of these. */
  function StateCodes(interp: Interp): Codes {
    map k | k in interp.fields && (EndsWith(k, "_code") || k == "ignition_on") :: interp.fields[k]
  }

  /** Two frames have the same codes exactly if they have the same fields named `..._code`, and the same
      ignition, with the same values. */
  lemma SameCodesExactly(a: Interp, b: Interp)
    ensures StateCodes(a) == StateCodes(b) <==>
              && SameField(a, b, "ignition_on")
              && forall prefix: string :: SameField(a, b, prefix + "_code")
  {
    forall prefix: string
      ensures EndsWith(prefix + "_code", "_code")
    {
      assert (prefix + "_code")[|prefix|..] == "_code";
    }
    if SameField(a, b, "ignition_on") && forall prefix: string :: SameField(a, b, prefix + "_code") {
      forall k: string | EndsWith(k, "_code")
        ensures SameField(a, b, k)
      {
        assert k == k[..|k| - 5] + "_code";
      }
    } else if StateCodes(a) == StateCodes(b) {
      forall k: string | EndsWith(k, "_code") || k == "ignition_on"
        ensures SameField(a, b, k)
      {
        assert k in StateCodes(a) <==> k in a.fields;
        assert k in StateCodes(b) <==> k in b.fields;
      }
    }
  }

  predicate SameField(a: Interp, b: Interp, k: string) {
    (k in a.fields <==> k in b.fields) && (k in a.fields ==> a.fields[k] == b.fields[k])
  }

  // ----- The thinning state as a value ---------------------------------------------------------

  /** Per function: the slot's pending point, and the codes of its last written one. */
  datatype Thin = Thin(pending: map<Fn, Point>, codes: map<Fn, Codes>)

  predicate Keyed(t: Thin) {
    forall f :: f in t.pending ==> t.pending[f].fn == f
  }

  function Emit(t: Thin, p: Point): Thin {
    Thin(t.pending - {p.fn}, t.codes[p.fn := StateCodes(p.interp)])
  }

  /** Functions whose pending slot ended before the slot of `ts`. */
  function Due(t: Thin, ts: int): set<Fn> {
    set f | f in t.pending && Slot(t.pending[f].ts) < Slot(ts)
  }

  function Least(s: set<Fn>): (m: Fn)
    requires s != {}
    ensures m in s && forall x :: x in s ==> m <= x
  {
    LeastExists(s);
    var m :| m in s && forall x :: x in s ==> m <= x;
    m
  }

  lemma {:induction false} LeastOf(s: set<Fn>) returns (m: Fn)
    requires s != {}
    ensures m in s && forall x :: x in s ==> m <= x
    decreases s
  {
    var y :| y in s;
    m := y;
    if s != {y} {
      m := LeastOf(s - {y});
      assert forall x :: x in s ==> x == y || x in s - {y};
      if y < m {
        m := y;
      }
    }
  }

  lemma LeastExists(s: set<Fn>)
    requires s != {}
    ensures exists m :: m in s && forall x :: x in s ==> m <= x
  {
    var m := LeastOf(s);
  }

  /** A set in ascending order. */
  function Sorted(s: set<Fn>): (r: seq<Fn>)
    ensures forall f :: f in r <==> f in s
    ensures forall i, j :: 0 <= i < j < |r| ==> r[i] < r[j]
    decreases s
  {
    if s == {} then [] else var m := Least(s); [m] + Sorted(s - {m})
  }

  datatype Emitted = Emitted(thin: Thin, points: seq<Point>)

  function EmitAll(t: Thin, fns: seq<Fn>): Emitted
    decreases |fns|
  {
    if fns == [] then Emitted(t, [])
    else if fns[0] !in t.pending then EmitAll(t, fns[1..])
    else
      var p := t.pending[fns[0]];
      var r := EmitAll(Emit(t, p), fns[1..]);
      Emitted(r.thin, [p] + r.points)
  }

  lemma EmitAllStep(t: Thin, fns: seq<Fn>)
    requires fns != [] && fns[0] in t.pending
    ensures var p := t.pending[fns[0]]; var r := EmitAll(Emit(t, p), fns[1..]);
            EmitAll(t, fns) == Emitted(r.thin, [p] + r.points)
  {
  }

  lemma EmitAllEnd(t: Thin, fns: seq<Fn>)
    requires fns == []
    ensures EmitAll(t, fns) == Emitted(t, [])
  {
  }

  function CloseAt(t: Thin, ts: int): Emitted {
    EmitAll(t, Sorted(Due(t, ts)))
  }

  datatype Thinned = Thinned(thin: Thin, points: seq<Point>, dropped: seq<Point>)

  /** The codes a new point is compared with. */
  function PrevCodes(t: Thin, fn: Fn): Option<Codes> {
    if fn in t.pending then Some(StateCodes(t.pending[fn].interp))
    else if fn in t.codes then Some(t.codes[fn]) else None
  }

  /** Once the finished slots are closed a gap record replaces its slot's pending point, or leaves at
      once when the codes change. */
  function Place(c: Emitted, p: Point): Thinned {
    var prev := PrevCodes(c.thin, p.fn);
    var left := if p.fn in c.thin.pending then [c.thin.pending[p.fn]] else [];
    if prev.Some? && StateCodes(p.interp) != prev.value then
      var flushed := if left == [] then c.thin else Emit(c.thin, left[0]);
      Thinned(Emit(flushed, p), c.points + left + [p], [])
    else
      Thinned(c.thin.(pending := c.thin.pending[p.fn := p]), c.points, left)
  }

  function ThinPoint(t: Thin, p: Point): Thinned {
    Place(CloseAt(t, p.ts), p)
  }

  // ----- The source's object -------------------------------------------------------------------

  /** The thinning half of the replay: its tables change in place. */
  class Replay {
    var pending: map<Fn, Point>
    var codes: map<Fn, Codes>
    var thinned: nat

    constructor (t: Thin)
      ensures State() == t && thinned == 0
    {
      pending, codes, thinned := t.pending, t.codes, 0;
    }

    function State(): Thin
      reads this
    {
      Thin(pending, codes)
    }

    method EmitPoint(p: Point) returns (out: Point)
      modifies this`codes
      ensures out == p && State() == Thin(old(pending), old(codes)[p.fn := StateCodes(p.interp)])
    {
      codes := codes[p.fn := StateCodes(p.interp)];
      out := p;
    }

    /** The pending points whose slot ended before `ts`, in name order. */
    method Close(ts: int) returns (out: seq<Point>)
      requires Keyed(State())
      modifies this`pending, this`codes
      ensures Emitted(State(), out) == CloseAt(old(State()), ts) && Keyed(State())
    {
      hide StateCodes, EmitAll, Sorted;
      var due := Sorted(Due(State(), ts));
      out := [];
      forall k | 0 <= k < |due|
        ensures due[k] in pending
      {
        assert due[k] in due && due[k] in Due(State(), ts);
      }
      assert due[0..] == due;
      ghost var all := EmitAll(State(), due);
      var i := 0;
      while i < |due|
        invariant 0 <= i <= |due| && Keyed(State())
        invariant forall k :: i <= k < |due| ==> due[k] in pending
        invariant all == Emitted(EmitAll(State(), due[i..]).thin, out + EmitAll(State(), due[i..]).points)
      {
        var p := pending[due[i]];
        EmitAllStep(State(), due[i..]);
        assert due[i..][1..] == due[i + 1..];
        pending := pending - {due[i]};
        var point := EmitPoint(p);
        out := out + [point];
        i := i + 1;
      }
      EmitAllEnd(State(), due[i..]);
    }

    /** One gap record; `thinned` counts the points dropped for it. */
    method ThinRecord(p: Point) returns (out: seq<Point>)
      requires Keyed(State())
      modifies this
      ensures var r := ThinPoint(old(State()), p);
              State() == r.thin && out == r.points && thinned == old(thinned) + |r.dropped| && Keyed(State())
    {
      hide StateCodes, CloseAt;
      out := Close(p.ts);
      var prev := PrevCodes(State(), p.fn);
      if prev.Some? && StateCodes(p.interp) != prev.value {
        if p.fn in pending {
          var held := pending[p.fn];
          pending := pending - {p.fn};
          held := EmitPoint(held);
          out := out + [held];
        }
        assert pending - {p.fn} == pending;
        var last := EmitPoint(p);
        out := out + [last];
        return;
      }
      thinned := thinned + if p.fn in pending then 1 else 0;
      pending := pending[p.fn := p];
    }
  }
}

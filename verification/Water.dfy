/** The water guard: the stale-latch rule, the ramp debounce in its pure Python and in-place C forms, and
    the holder that decides what is published. */
module Water {
  import opened Common

  const LATCH_MAX_L := 1

  /** An interpreted water reading: both tanks in litres, and the unit's measured-empty alarm. */
  datatype Reading = Reading(level: Option<int>, waste: Option<int>, empty: bool)

  datatype Candidate = Candidate(level: int, waste: Option<int>, since: int)

  function FreshOf(r: Option<Reading>): Option<int> {
    if r.Some? then r.value.level else None
  }

  function WasteOf(r: Option<Reading>): Option<int> {
    if r.Some? then r.value.waste else None
  }

  // ----- calictl/freshness.py ------------------------------------------------------------------

  predicate ImplausibleDrop(r: Reading, prev: Option<Reading>) {
    var nf, pf := r.level, FreshOf(prev);
    if nf.None? || pf.None? || r.empty then false
    else if nf == pf || nf.value > LATCH_MAX_L then false
    else
      var ng, pg := r.waste, WasteOf(prev);
      ng.None? || pg.None? || ng == pg
  }

  predicate SameLevels(r: Reading, prev: Option<Reading>) {
    r.level == FreshOf(prev) && r.waste == WasteOf(prev)
  }

  predicate IsCandidate(c: Candidate, r: Reading) {
    r.level == Some(c.level) && r.waste == c.waste
  }

  datatype Settled = Settled(adopt: bool, pending: Option<Candidate>)

  function Debounce(r: Reading, pending: Option<Candidate>, now: int, settle: nat): Settled
    requires r.level.Some?
  {
    var c := if pending.None? || !IsCandidate(pending.value, r) then Candidate(r.level.value, r.waste, now)
             else pending.value;
    if now - c.since >= settle then Settled(true, None) else Settled(false, Some(c))
  }

  function SettleWater(r: Reading, good: Option<Reading>, pending: Option<Candidate>, now: int, settle: nat): Settled {
    if r.level.None? then Settled(true, None)
    else if FreshOf(good).None? && r.level.value <= LATCH_MAX_L && !r.empty then Settled(false, None)
    else if FreshOf(good).Some? && ImplausibleDrop(r, good) then Settled(false, None)
    else if FreshOf(good).Some? && SameLevels(r, good) then Settled(true, None)
    else if r.empty then Settled(true, None)
    else Debounce(r, pending, now, settle)
  }

  // ----- csrc/ports.c --------------------------------------------------------------------------

  const U64 := 0x1_0000_0000_0000_0000

  /** The C arguments: values, and the presence bits that say which of them mean anything. */
  datatype Args = Args(nf: int, pf: int, ng: int, pg: int,
                       haveNf: bool, havePf: bool, haveNg: bool, havePg: bool, newEmpty: bool)

  /** The arguments spell this reading against this baseline. */
  predicate Spells(a: Args, r: Reading, good: Option<Reading>) {
    && r.level == (if a.haveNf then Some(a.nf) else None)
    && r.waste == (if a.haveNg then Some(a.ng) else None)
    && FreshOf(good) == (if a.havePf then Some(a.pf) else None)
    && WasteOf(good) == (if a.havePg then Some(a.pg) else None)
    && r.empty == a.newEmpty
  }

  /** The C ladder as a condition. */
  predicate CDrop(a: Args) {
    && a.haveNf && a.havePf && !a.newEmpty
    && a.nf != a.pf && a.nf <= LATCH_MAX_L
    && (a.haveNg && a.havePg ==> a.ng == a.pg)
  }

  lemma DropsAgree(a: Args, r: Reading, good: Option<Reading>)
    requires Spells(a, r, good)
    ensures CDrop(a) == ImplausibleDrop(r, good)
  {
  }

  /** Its early returns. */
  method CImplausibleDrop(a: Args) returns (latch: bool)
    ensures latch == CDrop(a)
  {
    if !a.haveNf || !a.havePf || a.newEmpty {
      return false;
    }
    if a.nf == a.pf || a.nf > LATCH_MAX_L {
      return false;
    }
    if !a.haveNg || !a.havePg {
      return true;
    }
    return a.ng == a.pg;
  }

  /** The caller's candidate as it lies in memory; the values mean nothing without their bits. */
  datatype Cand = Cand(level: int, waste: int, pending: bool, wasteKnown: bool, since: nat)

  const ZEROED := Cand(0, 0, false, false, 0)

  /** The Python candidate it stands for. */
  function View(c: Cand): Option<Candidate> {
    if c.pending then Some(Candidate(c.level, if c.wasteKnown then Some(c.waste) else None, c.since)) else None
  }

  datatype CSettled = CSettled(adopt: bool, cand: Cand)

  function Dropped(c: Cand): Cand {
    c.(pending := false, wasteKnown := false)
  }

  function CDebounce(c: Cand, a: Args, now: nat, settle: nat): CSettled {
    var c' := if !c.pending || c.level != a.nf || c.wasteKnown != a.haveNg || (a.haveNg && c.waste != a.ng)
              then Cand(a.nf, if a.haveNg then a.ng else 0, true, a.haveNg, now) else c;
    if (now - c'.since) % U64 >= settle then CSettled(true, Dropped(c')) else CSettled(false, c')
  }

  function CStep(c: Cand, a: Args, now: nat, settle: nat): CSettled {
    if !a.haveNf then CSettled(true, Dropped(c))
    else if !a.havePf && a.nf <= LATCH_MAX_L && !a.newEmpty then CSettled(false, Dropped(c))
    else if a.havePf && CDrop(a) then CSettled(false, Dropped(c))
    else if a.havePf && a.nf == a.pf && a.haveNg == a.havePg && (!a.haveNg || a.ng == a.pg) then CSettled(true, Dropped(c))
    else if a.newEmpty then CSettled(true, Dropped(c))
    else CDebounce(c, a, now, settle)
  }

  /** The caller's candidate, updated in place. */
  class CPending {
    var level: int
    var waste: int
    var pending: bool
    var wasteKnown: bool
    var since: nat

    /** Zero-initialised. */
    constructor ()
      ensures State() == ZEROED
    {
      level, waste, pending, wasteKnown, since := 0, 0, false, false, 0;
    }

    ghost function State(): Cand
      reads this
    {
      Cand(level, waste, pending, wasteKnown, since)
    }

    /** One settle call; the clock difference is unsigned 64-bit. */
    method Settle(a: Args, now: nat, settle: nat) returns (adopt: bool)
      modifies this
      ensures CSettled(adopt, State()) == CStep(old(State()), a, now, settle)
    {
      if !a.haveNf {
        pending, wasteKnown := false, false;
        return true;
      }
      var latch := CImplausibleDrop(a);
      if !a.havePf {
        if a.nf <= LATCH_MAX_L && !a.newEmpty {
          pending, wasteKnown := false, false;
          return false;
        }
      } else if latch {
        pending, wasteKnown := false, false;
        return false;
      } else if a.nf == a.pf && a.haveNg == a.havePg && (!a.haveNg || a.ng == a.pg) {
        pending, wasteKnown := false, false;
        return true;
      }
      if a.newEmpty {
        pending, wasteKnown := false, false;
        return true;
      }
      if !pending || level != a.nf || wasteKnown != a.haveNg || (a.haveNg && waste != a.ng) {
        level, waste, pending, wasteKnown, since := a.nf, if a.haveNg then a.ng else 0, true, a.haveNg, now;
      }
      if (now - since) % U64 >= settle {
        pending, wasteKnown := false, false;
        return true;
      }
      return false;
    }
  }

  // ----- The two steps -------------------------------------------------------------------------

  const U32 := 0x1_0000_0000

  /** Neither passed through nor held nor adopted before the debounce. */
  predicate ReachesDebounce(r: Reading, good: Option<Reading>) {
    && r.level.Some? && !r.empty
    && (FreshOf(good).None? ==> r.level.value > LATCH_MAX_L)
    && (FreshOf(good).Some? ==> !ImplausibleDrop(r, good) && !SameLevels(r, good))
  }

  /** The reading repeats a candidate first seen, by the clock, in the future, and not so far in it that
      the wrapped difference is below the settle time. */
  predicate WrapsAround(c: Cand, r: Reading, good: Option<Reading>, now: nat, settle: nat) {
    && ReachesDebounce(r, good)
    && View(c).Some? && IsCandidate(View(c).value, r)
    && now < c.since && c.since - now <= U64 - settle
  }

  /** The C step is the Python step exactly unless the clock difference wraps. */
  lemma StepsAgreeExactly(c: Cand, a: Args, r: Reading, good: Option<Reading>, now: nat, settle: nat)
    requires Spells(a, r, good) && now < U64 && c.since < U64 && settle < U32
    ensures var s := CStep(c, a, now, settle);
            Settled(s.adopt, View(s.cand)) == SettleWater(r, good, View(c), now, settle)
            <==> !WrapsAround(c, r, good, now, settle)
  {
    DropsAgree(a, r, good);
    Difference(now, c.since);
    if a.haveNf && ReachesDebounce(r, good) {
      DebouncesAgree(c, a, r, now, settle);
    }
  }

  lemma Difference(now: nat, since: nat)
    requires now < U64 && since < U64
    ensures (now - since) % U64 == if since <= now then now - since else U64 - (since - now)
  {
  }

  lemma DebouncesAgree(c: Cand, a: Args, r: Reading, now: nat, settle: nat)
    requires a.haveNf && r.level == Some(a.nf) && r.waste == (if a.haveNg then Some(a.ng) else None)
    requires now < U64 && c.since < U64 && settle < U32
    ensures var s := CDebounce(c, a, now, settle);
            Settled(s.adopt, View(s.cand)) == Debounce(r, View(c), now, settle)
            <==> !(View(c).Some? && IsCandidate(View(c).value, r) && now < c.since && c.since - now <= U64 - settle)
  {
    Difference(now, c.since);
  }

  /** One second back on the clock, and C adopts a 20 L that Python still holds. */
  lemma BackwardClockAdopts()
    ensures var c, r := Cand(20, 0, true, false, 10000), Reading(Some(20), None, false);
            var a := Args(20, 0, 0, 0, true, false, false, false, false);
            Spells(a, r, None) && CStep(c, a, 9000, 5000).adopt && !SettleWater(r, None, View(c), 9000, 5000).adopt
  {
    Difference(9000, 10000);
  }

  // ----- guard_water ---------------------------------------------------------------------------

  /** Python's `or`: 0 and nothing give way. */
  function Or(a: Option<int>, b: Option<int>): Option<int> {
    if a.Some? && a.value != 0 then a else b
  }

  /** Since when the published value is stale: not at all once a reading is adopted. */
  function Mark(mark: Option<int>, adopt: bool, staleFrom: Option<int>, wall: int): Option<int> {
    if adopt then None else Or(mark, Or(staleFrom, Some(wall)))
  }

  /** The guard's two values that later steps depend on. */
  datatype Guarded = Guarded(good: Option<Reading>, pending: Option<Candidate>)

  function GuardStep(g: Guarded, r: Reading, now: int, settle: nat): Guarded {
    if r.level.None? then g
    else
      var s := SettleWater(r, g.good, g.pending, now, settle);
      Guarded(if s.adopt then Some(r) else g.good, s.pending)
  }

  /** The holder of the guard's state. */
  class Holder {
    var good: Option<Reading>
    var pending: Option<Candidate>
    var measuredAt: Option<int>
    var staleSince: Option<int>

    constructor ()
      ensures Value() == Guarded(None, None) && staleSince == None && measuredAt == None
    {
      good, pending, measuredAt, staleSince := None, None, None, None;
    }

    ghost function Value(): Guarded
      reads this
    {
      Guarded(good, pending)
    }

    /** One read. `water` is the entry of the states; it comes back as what will be published. */
    method Guard(water: Option<Reading>, now: int, wall: int, settle: nat, staleFrom: Option<int>)
      returns (result: Option<bool>, published: Option<Reading>)
      modifies this
      ensures FreshOf(water).None? ==> result == None && published == water && unchanged(this)
      ensures FreshOf(water).Some? ==>
                && Value() == GuardStep(old(Value()), water.value, now, settle)
                && published == good
                && result == Some(SettleWater(water.value, old(good), old(pending), now, settle).adopt)
      ensures result == Some(true) ==> published == water && measuredAt == Some(wall) && staleSince == None
      ensures result == Some(false) ==>
                published == old(good) && measuredAt == old(measuredAt)
                && staleSince == Mark(old(staleSince), false, staleFrom, wall)
    {
      if FreshOf(water).None? {
        return None, water;
      }
      var base := good;
      var s := SettleWater(water.value, base, pending, now, settle);
      pending := s.pending;
      if s.adopt {
        good, measuredAt, staleSince := water, Some(wall), None;
        return Some(true), water;
      }
      if base.Some? {
        published := base;
      } else {
        published := None;
      }
      staleSince := Or(staleSince, Or(staleFrom, Some(wall)));
      result := Some(false);
    }
  }
}

/** The water guard over whole sequences of readings, from a cold start. */
module WaterRuns {
  import opened Common
  import opened Water

  datatype Tick = Tick(r: Reading, now: int)

  /** The guard after the first `n` ticks. */
  function After(ticks: seq<Tick>, settle: nat, n: nat): Guarded
    requires n <= |ticks|
  {
    if n == 0 then Guarded(None, None)
    else GuardStep(After(ticks, settle, n - 1), ticks[n - 1].r, ticks[n - 1].now, settle)
  }

  predicate InOrder(ticks: seq<Tick>) {
    forall i, j :: 0 <= i <= j < |ticks| ==> ticks[i].now <= ticks[j].now
  }

  // ----- The two forms run side by side --------------------------------------------------------

  /** A caller that hands every reading to the settle step, also one without a fresh level, so that the
      first branch of both forms is compared too; the guard, followed by `After`, keeps those back.
      Its baseline and candidate before tick `n`. */
  function PyRun(ticks: seq<Tick>, settle: nat, n: nat): Guarded
    requires n <= |ticks|
  {
    if n == 0 then Guarded(None, None)
    else
      var g, t := PyRun(ticks, settle, n - 1), ticks[n - 1];
      var s := SettleWater(t.r, g.good, g.pending, t.now, settle);
      Guarded(if s.adopt then Some(t.r) else g.good, s.pending)
  }

  function PyAdopts(ticks: seq<Tick>, settle: nat, i: nat): bool
    requires i < |ticks|
  {
    var g := PyRun(ticks, settle, i);
    SettleWater(ticks[i].r, g.good, g.pending, ticks[i].now, settle).adopt
  }

  /** The C caller's: the same baseline rule around the C step. */
  datatype CGuarded = CGuarded(good: Option<Reading>, cand: Cand)

  /** The arguments of one call. */
  function ArgsOf(r: Reading, good: Option<Reading>): (a: Args)
    ensures Spells(a, r, good)
  {
    Args(r.level.GetOr(0), FreshOf(good).GetOr(0), r.waste.GetOr(0), WasteOf(good).GetOr(0),
         r.level.Some?, FreshOf(good).Some?, r.waste.Some?, WasteOf(good).Some?, r.empty)
  }

  function CRun(ticks: seq<Tick>, settle: nat, n: nat): CGuarded
    requires n <= |ticks| && TimesFit(ticks)
  {
    if n == 0 then CGuarded(None, ZEROED)
    else
      var g, t := CRun(ticks, settle, n - 1), ticks[n - 1];
      var s := CStep(g.cand, ArgsOf(t.r, g.good), t.now, settle);
      CGuarded(if s.adopt then Some(t.r) else g.good, s.cand)
  }

  function CAdopts(ticks: seq<Tick>, settle: nat, i: nat): bool
    requires i < |ticks| && TimesFit(ticks)
  {
    var g := CRun(ticks, settle, i);
    CStep(g.cand, ArgsOf(ticks[i].r, g.good), ticks[i].now, settle).adopt
  }

  predicate TimesFit(ticks: seq<Tick>) {
    forall i :: 0 <= i < |ticks| ==> 0 <= ticks[i].now < U64
  }

  /** With the clock not going back both have the same baseline before every tick, the C candidate stands
      for the Python one, and both decide alike. */
  lemma {:induction false} CSimulatesPython(ticks: seq<Tick>, settle: nat, n: nat)
    requires n <= |ticks| && InOrder(ticks) && TimesFit(ticks) && settle < U32
    ensures var c, py := CRun(ticks, settle, n), PyRun(ticks, settle, n);
            && c.good == py.good && View(c.cand) == py.pending
            && c.cand.since <= (if n == 0 then 0 else ticks[n - 1].now)
    ensures forall i :: 0 <= i < n ==> CAdopts(ticks, settle, i) == PyAdopts(ticks, settle, i)
    decreases n
  {
    hide CStep, SettleWater, WrapsAround, InOrder;
    if n > 0 {
      CSimulatesPython(ticks, settle, n - 1);
      var c, t := CRun(ticks, settle, n - 1), ticks[n - 1];
      OrderedPair(ticks, n - 1);
      StepsAgreeExactly(c.cand, ArgsOf(t.r, c.good), t.r, c.good, t.now, settle);
      NoWrap(c.cand, t.r, c.good, t.now, settle);
      SinceKept(c.cand, ArgsOf(t.r, c.good), t.now, settle);
    }
  }

  lemma NoWrap(c: Cand, r: Reading, good: Option<Reading>, now: nat, settle: nat)
    requires c.since <= now
    ensures !WrapsAround(c, r, good, now, settle)
  {
  }

  lemma SinceKept(c: Cand, a: Args, now: nat, settle: nat)
    ensures CStep(c, a, now, settle).cand.since in {c.since, now}
  {
  }

  lemma OrderedPair(ticks: seq<Tick>, i: nat)
    requires InOrder(ticks) && i < |ticks|
    ensures i > 0 ==> ticks[i - 1].now <= ticks[i].now
  {
  }

  /** Both run over the same readings, the C form in place. */
  method RunBoth(ticks: seq<Tick>, settle: nat) returns (c: seq<bool>, py: seq<bool>, cand: CPending)
    requires InOrder(ticks) && TimesFit(ticks) && settle < U32
    ensures |c| == |py| == |ticks|
    ensures forall i :: 0 <= i < |ticks| ==> c[i] == CAdopts(ticks, settle, i) && py[i] == PyAdopts(ticks, settle, i)
    ensures c == py
    ensures cand.State() == CRun(ticks, settle, |ticks|).cand
    ensures View(cand.State()) == PyRun(ticks, settle, |ticks|).pending
  {
    hide CStep, SettleWater, InOrder;
    cand := new CPending();
    var good, pyGood: Option<Reading> := None, None;
    var pending: Option<Candidate> := None;
    c, py := [], [];
    var i := 0;
    while i < |ticks|
      invariant 0 <= i <= |ticks| && fresh(cand) && |c| == |py| == i
      invariant CGuarded(good, cand.State()) == CRun(ticks, settle, i)
      invariant Guarded(pyGood, pending) == PyRun(ticks, settle, i)
      invariant forall k :: 0 <= k < i ==> c[k] == CAdopts(ticks, settle, k) && py[k] == PyAdopts(ticks, settle, k)
    {
      var t := ticks[i];
      var adopt := cand.Settle(ArgsOf(t.r, good), t.now, settle);
      if adopt {
        good := Some(t.r);
      }
      var s := SettleWater(t.r, pyGood, pending, t.now, settle);
      pending := s.pending;
      if s.adopt {
        pyGood := Some(t.r);
      }
      c, py := c + [adopt], py + [s.adopt];
      i := i + 1;
    }
    CSimulatesPython(ticks, settle, |ticks|);
  }

  // ----- What is adopted -----------------------------------------------------------------------

  /** From `j` on, the readings with a fresh level all show these levels. */
  ghost predicate SteadyFrom(ticks: seq<Tick>, j: nat, n: nat, level: int, waste: Option<int>) {
    && j < n <= |ticks| && ticks[j].r.level == Some(level)
    && forall i :: j <= i < n && ticks[i].r.level.Some? ==> ticks[i].r.level.value == level && ticks[i].r.waste == waste
  }

  /** A candidate was first seen when it says, and everything since showed it. */
  lemma {:induction false} CandidateSteady(ticks: seq<Tick>, settle: nat, n: nat)
    requires n <= |ticks| && After(ticks, settle, n).pending.Some?
    ensures var c := After(ticks, settle, n).pending.value;
            exists j: nat :: SteadyFrom(ticks, j, n, c.level, c.waste) && ticks[j].now == c.since
  {
    var before, t := After(ticks, settle, n - 1), ticks[n - 1];
    var c := After(ticks, settle, n).pending.value;
    if before.pending == Some(c) {
      CandidateSteady(ticks, settle, n - 1);
      var j: nat :| SteadyFrom(ticks, j, n - 1, c.level, c.waste) && ticks[j].now == c.since;
      assert SteadyFrom(ticks, j, n, c.level, c.waste);
    } else {
      assert SteadyFrom(ticks, n - 1, n, c.level, c.waste);
    }
  }

  /** A changed level without the empty alarm becomes the baseline only after the readings have shown
      it, and nothing else, for the settle time. */
  lemma AdoptedIsSettled(ticks: seq<Tick>, settle: nat, n: nat)
    requires n < |ticks| && ticks[n].r.level.Some? && !ticks[n].r.empty
    requires After(ticks, settle, n + 1).good == Some(ticks[n].r)
    requires !SameLevels(ticks[n].r, After(ticks, settle, n).good)
    ensures exists j: nat :: SteadyFrom(ticks, j, n + 1, ticks[n].r.level.value, ticks[n].r.waste)
                        && ticks[n].now - ticks[j].now >= settle
  {
    var before, t := After(ticks, settle, n), ticks[n];
    if before.pending.Some? && IsCandidate(before.pending.value, t.r) {
      var c := before.pending.value;
      CandidateSteady(ticks, settle, n);
      var j: nat :| SteadyFrom(ticks, j, n, c.level, c.waste) && ticks[j].now == c.since;
      assert SteadyFrom(ticks, j, n + 1, c.level, c.waste);
    } else {
      assert SteadyFrom(ticks, n, n + 1, t.r.level.value, t.r.waste);
    }
  }

  ghost predicate Shown(g: Guarded, level: int, waste: Option<int>, since: int) {
    || (g.good.Some? && g.good.value.level == Some(level) && g.good.value.waste == waste)
    || (g.pending.Some? && g.pending.value.level == level && g.pending.value.waste == waste
        && g.pending.value.since <= since)
  }

  lemma SinceNotAhead(ticks: seq<Tick>, settle: nat, n: nat)
    requires InOrder(ticks) && n <= |ticks| && After(ticks, settle, n).pending.Some?
    ensures n > 0 && After(ticks, settle, n).pending.value.since <= ticks[n - 1].now
  {
    CandidateSteady(ticks, settle, n);
    var c := After(ticks, settle, n).pending.value;
    var j: nat :| SteadyFrom(ticks, j, n, c.level, c.waste) && ticks[j].now == c.since;
    assert ticks[j].now <= ticks[n - 1].now;
  }

  lemma {:induction false} SteadyShown(ticks: seq<Tick>, settle: nat, j: nat, n: nat, level: int, waste: Option<int>)
    requires InOrder(ticks) && SteadyFrom(ticks, j, n, level, waste) && level > LATCH_MAX_L
    ensures Shown(After(ticks, settle, n), level, waste, ticks[j].now)
    ensures ticks[n - 1].r.level.Some? && !After(ticks, settle, n).pending.None? ==>
              ticks[n - 1].now - After(ticks, settle, n).pending.value.since < settle
    decreases n
  {
    var before := After(ticks, settle, n - 1);
    if n - 1 > j {
      SteadyShown(ticks, settle, j, n - 1, level, waste);
    } else if before.pending.Some? {
      SinceNotAhead(ticks, settle, n - 1);
    }
  }

  /** The other way round: a level above the latch that stays for the settle time is the baseline. */
  lemma SteadyIsAdopted(ticks: seq<Tick>, settle: nat, j: nat, n: nat, level: int, waste: Option<int>)
    requires InOrder(ticks) && SteadyFrom(ticks, j, n, level, waste) && level > LATCH_MAX_L
    requires ticks[n - 1].r.level.Some? && ticks[n - 1].now - ticks[j].now >= settle
    ensures After(ticks, settle, n).good.Some? && SameLevels(ticks[n - 1].r, After(ticks, settle, n).good)
  {
    SteadyShown(ticks, settle, j, n, level, waste);
  }

  // ----- Cold start on the latch ---------------------------------------------------------------

  predicate NoAlarm(ticks: seq<Tick>) {
    forall t :: t in ticks ==> !t.r.empty
  }

  predicate GreyIs(ticks: seq<Tick>, grey: int) {
    forall t :: t in ticks && t.r.waste.Some? ==> t.r.waste.value == grey
  }

  /** Without the alarm and with grey never seen to move, the latch value never becomes the baseline. */
  lemma {:induction false} NeverOnTheLatch(ticks: seq<Tick>, settle: nat, grey: int, n: nat)
    requires n <= |ticks| && NoAlarm(ticks) && GreyIs(ticks, grey)
    ensures var good := After(ticks, settle, n).good;
            good.Some? ==> good.value.level.Some? && good.value.level.value > LATCH_MAX_L
                           && (good.value.waste.Some? ==> good.value.waste.value == grey)
  {
    if n > 0 {
      NeverOnTheLatch(ticks, settle, grey, n - 1);
      assert ticks[n - 1] in ticks;
    }
  }

  // ----- Since when it is stale ----------------------------------------------------------------

  /** One guarded read: whether it was adopted, since when its frame is stale if that is known, and the time. */
  datatype Read = Read(adopt: bool, staleFrom: Option<int>, wall: int)

  function MarkAfter(guarded: seq<Read>): Option<int>
    decreases |guarded|
  {
    if guarded == [] then None
    else
      var r := guarded[|guarded| - 1];
      Mark(MarkAfter(guarded[..|guarded| - 1]), r.adopt, r.staleFrom, r.wall)
  }

  /** Read `j` is held, as is every one after it, and it is the first of them. */
  predicate HeldSince(guarded: seq<Read>, j: nat) {
    && j < |guarded| && (j > 0 ==> guarded[j - 1].adopt)
    && forall i :: j <= i < |guarded| ==> !guarded[i].adopt
  }

  /** The mark is that of the first read held since the last one adopted, however many are held after it: the
      time its frame went stale if known, else its own time. */
  lemma {:induction false} MarkIsFirstHeld(guarded: seq<Read>, j: nat)
    requires HeldSince(guarded, j) && guarded[j].wall > 0
    ensures MarkAfter(guarded) ==
            if guarded[j].staleFrom.Some? && guarded[j].staleFrom.value != 0 then guarded[j].staleFrom else Some(guarded[j].wall)
    decreases |guarded|
  {
    var n := |guarded| - 1;
    if j < n {
      MarkIsFirstHeld(guarded[..n], j);
    }
  }

  /** And there is none exactly while the last read was adopted. */
  lemma NoMarkOnAdopted(guarded: seq<Read>)
    requires guarded != [] && forall r :: r in guarded ==> r.wall > 0
    ensures MarkAfter(guarded).None? <==> guarded[|guarded| - 1].adopt
  {
  }
}

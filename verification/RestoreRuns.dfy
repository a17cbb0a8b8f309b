/** The controller over whole runs from a fresh start. */
module RestoreRuns {
  import opened Common
  import opened Restore

  function After(events: seq<Event>, l: Limits): Camper
    decreases |events|
  {
    if events == [] then FRESH else Step(After(events[..|events| - 1], l), events[|events| - 1], l).to
  }

  /** The controller before event `i` of a run. */
  function Before(events: seq<Event>, i: nat, l: Limits): Camper
    requires i <= |events|
  {
    After(events[..i], l)
  }

  function WroteAt(events: seq<Event>, i: nat, l: Limits): Option<Config>
    requires i < |events|
  {
    Step(Before(events, i, l), events[i], l).wrote
  }

  predicate ArmsAt(events: seq<Event>, i: nat, l: Limits)
    requires i < |events|
  {
    events[i].Poll? && Before(events, i, l).enabled && Arms(Before(events, i, l), events[i].r)
  }

  lemma BeforeNext(events: seq<Event>, i: nat, l: Limits)
    requires i < |events|
    ensures Before(events, i + 1, l) == Step(Before(events, i, l), events[i], l).to
  {
    assert events[..i + 1][..i] == events[..i];
  }

  // ----- Every poll ----------------------------------------------------------------------------

  predicate Rises(c: Camper, r: Reading) {
    r.ignition == Some(true) && c.prevIgnition != Some(true)
  }

  predicate Parking(c: Camper, r: Reading) {
    r.ignition == Some(false) && c.prevIgnition == Some(true)
  }

  /** Camping goes off with the ignition off before and now. */
  predicate SwitchedOff(c: Camper, r: Reading) {
    r.ignition == Some(false) && c.prevIgnition != Some(true) && c.prevMaster == Some(true) && r.master == Some(false)
  }

  /** A debt begins: the engine starts over camping that was on, and none is owed. */
  predicate Begins(c: Camper, r: Reading) {
    Rises(c, r) && c.prevMaster == Some(true) && !c.owe
  }

  /** The window and the tries a poll works with: parking with a debt opens a new window. */
  function WindowAt(c: Camper, r: Reading, now: real, l: Limits): Option<real> {
    if SwitchedOff(c, r) || Begins(c, r) then None
    else if Parking(c, r) && c.owe then Some(now + l.window) else c.until
  }

  function TriesAt(c: Camper, r: Reading): int {
    if SwitchedOff(c, r) || Begins(c, r) || (Parking(c, r) && c.owe) then 0 else c.fails
  }

  /** A debt is being worked off: parked, with a window open. */
  predicate Trying(c: Camper, r: Reading, now: real, l: Limits) {
    c.owe && !SwitchedOff(c, r) && r.ignition == Some(false) && WindowAt(c, r, now, l).Some?
  }

  /** It ends without a write: late, camping back, battery low or warned, or no tries left. */
  predicate Ending(c: Camper, r: Reading, now: real, l: Limits) {
    && Trying(c, r, now, l)
    && (|| now > WindowAt(c, r, now, l).value || r.master == Some(true)
        || (r.soc.Some? && r.soc.value < l.minSoc) || r.warning || TriesAt(c, r) >= l.maxFails)
  }

  /** Camping reads on again in time. */
  predicate Succeeds(c: Camper, r: Reading, now: real, l: Limits) {
    Trying(c, r, now, l) && now <= WindowAt(c, r, now, l).value && r.master == Some(true)
  }

  /** A poll that reads both, with the rule on: when it writes and what, when a debt is owed after it, with
      which window and tries, and what is remembered. */
  lemma PollExactly(c: Camper, r: Reading, now: real, readOnly: bool, l: Limits)
    requires c.enabled && r.ignition.Some? && r.master.Some?
    ensures var s := Step(c, Poll(r, now, readOnly), l); var trying := Trying(c, r, now, l);
            && (s.wrote.Some? <==> trying && !Ending(c, r, now, l) && !readOnly)
            && (s.wrote.Some? ==> s.wrote.value == c.preDrive.GetOr(Config(false, false)))
            && (s.to.owe <==> Begins(c, r) || (c.owe && !SwitchedOff(c, r) && !Ending(c, r, now, l) && !(trying && readOnly)))
            && s.to.until == (if Ending(c, r, now, l) || (trying && readOnly) then None else WindowAt(c, r, now, l))
            && s.to.fails == (if Succeeds(c, r, now, l) then 0
                              else TriesAt(c, r) + if trying && !Ending(c, r, now, l) then 1 else 0)
            && s.to.preDrive == (if Begins(c, r) then Some(Config(c.prevUsb == Some(true), c.prevLights == Some(true))) else c.preDrive)
    ensures var to := Step(c, Poll(r, now, readOnly), l).to;
            && to.enabled && to.prevIgnition == r.ignition && to.prevMaster == r.master
            && to.prevUsb == Some(r.usb == Some(true)) && to.prevLights == Some(r.lights == Some(true))
  {
    KnownOff(r.ignition);
    KnownOff(r.master);
    var d := Decide(c, r, now, l);
    assert Some(On(r.ignition)) == r.ignition && Some(On(r.master)) == r.master;
  }

  /** Success is announced exactly when camping reads on again in time, and a notice exactly when a debt
      is settled one way or another; never on a read gap. */
  lemma RestoredExactly(c: Camper, r: Reading, now: real, l: Limits)
    ensures var d := Decide(c, r, now, l); var seen := r.ignition.Some? && r.master.Some?;
            && (d.restored <==> seen && Succeeds(c, r, now, l))
            && (d.notice <==> seen && Ending(c, r, now, l))
  {
    KnownOff(r.ignition);
    KnownOff(r.master);
  }

  /** The toggle: off forgets the debt and the tries, and keeps what is known of the van. */
  lemma ToggleExactly(c: Camper, on: bool, l: Limits)
    ensures var s := Step(c, Enable(on), l);
            && s.wrote.None? && s.to.enabled == on && s.to.preDrive == c.preDrive
            && (s.to.prevIgnition, s.to.prevMaster, s.to.prevUsb, s.to.prevLights)
               == (c.prevIgnition, c.prevMaster, c.prevUsb, c.prevLights)
            && (s.to.owe <==> on && c.owe) && (on ==> s.to == c.(enabled := true))
            && (!on ==> s.to.until.None? && s.to.fails == 0)
  {
  }

  /** While the rule is off a poll only takes in what it read, and writes nothing. */
  lemma OffOnlyTracks(c: Camper, r: Reading, now: real, readOnly: bool, l: Limits)
    requires !c.enabled
    ensures var s := Step(c, Poll(r, now, readOnly), l);
            && s.wrote.None?
            && s.to.prevIgnition == (if r.ignition.Some? then r.ignition else c.prevIgnition)
            && s.to.prevMaster == (if r.master.Some? then r.master else c.prevMaster)
            && s.to.prevUsb == (if r.usb.Some? then r.usb else c.prevUsb)
            && s.to.prevLights == (if r.lights.Some? then r.lights else c.prevLights)
            && s.to == c.(prevIgnition := s.to.prevIgnition, prevMaster := s.to.prevMaster,
                          prevUsb := s.to.prevUsb, prevLights := s.to.prevLights)
  {
  }

  // ----- Every write ---------------------------------------------------------------------------

  /** A write goes out only parked, with a debt, inside the window, with a healthy battery, tries left
      and camping off; and it writes the remembered config. */
  lemma WriteIsDue(c: Camper, e: Event, l: Limits)
    requires Step(c, e, l).wrote.Some? && (c.owe ==> c.preDrive.Some?) && c.fails >= 0
    ensures e.Poll? && c.enabled && !e.readOnly && c.owe
    ensures e.r.ignition == Some(false) && e.r.master == Some(false) && !BatteryProtects(e.r, l)
    ensures c.preDrive == Step(c, e, l).wrote
    ensures var s := Step(c, e, l).to; s.until.Some? && e.now <= s.until.value && s.owe && 1 <= s.fails <= l.maxFails
    ensures var s := Step(c, e, l).to;
            if Falls(c, e.r) then s.until == Some(e.now + l.window) && s.fails == 1
            else s.until == c.until && s.fails == c.fails + 1
  {
    KnownOff(e.r.ignition);
    KnownOff(e.r.master);
  }

  lemma KnownOff(o: Option<bool>)
    ensures o.Some? && !On(o) ==> o == Some(false)
  {
    if o.Some? {
      assert o == if o.value then Some(true) else Some(false);
    }
  }

  predicate Unchanged(was: Option<bool>, read: Option<bool>) {
    read.Some? ==> read == was
  }

  /** A read gap changes nothing exactly if the rule is on, or all that was read is what was known. */
  lemma GapChangesNothing(c: Camper, r: Reading, now: real, readOnly: bool, l: Limits)
    requires Gap(r)
    ensures Step(c, Poll(r, now, readOnly), l) == Stepped(c, None) <==>
              c.enabled || (Unchanged(c.prevIgnition, r.ignition) && Unchanged(c.prevMaster, r.master)
                            && Unchanged(c.prevUsb, r.usb) && Unchanged(c.prevLights, r.lights))
  {
  }

  /** With the rule off, a poll that misses the camping frame still takes the ignition in. */
  lemma GapTracksWhileOff(now: real, l: Limits)
    ensures var c, r := FRESH.(prevIgnition := Some(true)), Reading(Some(false), None, None, None, None, false);
            Gap(r) && Step(c, Poll(r, now, false), l) == Stepped(c.(prevIgnition := Some(false)), None)
  {
  }

  /** The window closes the debt: the first known parked reading after it settles the matter. */
  lemma WindowEnds(c: Camper, r: Reading, now: real, readOnly: bool, l: Limits)
    requires c.enabled && !Gap(r) && !On(r.ignition) && !Falls(c, r) && c.until.Some? && now > c.until.value
    ensures var s := Step(c, Poll(r, now, readOnly), l); s.wrote.None? && !s.to.owe
  {
  }

  // ----- Debts ---------------------------------------------------------------------------------

  /** A debt always has a config, the one that was on when the engine started. */
  lemma {:induction false} DebtIsRemembered(events: seq<Event>, l: Limits)
    requires After(events, l).owe
    ensures exists i: nat :: i < |events| && ArmsAt(events, i, l)
              && After(events, l).preDrive == Some(Remembered(Before(events, i, l)))
    decreases |events|
  {
    hide Remembered;
    var n := |events| - 1;
    var front, c := events[..n], After(events[..n], l);
    if c.owe {
      DebtIsRemembered(front, l);
      var i: nat :| i < |front| && ArmsAt(front, i, l) && c.preDrive == Some(Remembered(Before(front, i, l)));
      assert front[..i] == events[..i] && front[i] == events[i];
      assert ArmsAt(events, i, l);
    } else {
      assert ArmsAt(events, n, l);
    }
  }

  lemma {:induction false} FreshDebts(events: seq<Event>, l: Limits)
    ensures After(events, l).owe ==> After(events, l).preDrive.Some?
    ensures After(events, l).fails >= 0
    decreases |events|
  {
    if events != [] {
      FreshDebts(events[..|events| - 1], l);
    }
  }

  // ----- Bounded restores ----------------------------------------------------------------------

  /** The controller sees the ignition go off. */
  predicate Parks(c: Camper, e: Event) {
    e.Poll? && c.enabled && Falls(c, e.r)
  }

  /** Writes since it last did. */
  function WritesSincePark(events: seq<Event>, l: Limits): nat
    decreases |events|
  {
    if events == [] then 0
    else
      var n := |events| - 1;
      var c := After(events[..n], l);
      (if Parks(c, events[n]) then 0 else WritesSincePark(events[..n], l))
        + if Step(c, events[n], l).wrote.Some? then 1 else 0
  }

  lemma OneMore(c: Camper, e: Event, l: Limits, count: nat)
    requires count <= Max(l.maxFails, 0) && c.fails >= 0 && (c.owe && c.until.Some? ==> count <= c.fails)
    ensures var s := Step(c, e, l);
            var count' := (if Parks(c, e) then 0 else count) + if s.wrote.Some? then 1 else 0;
            count' <= Max(l.maxFails, 0) && (s.to.owe && s.to.until.Some? ==> count' <= s.to.fails)
  {
  }

  /** Between two falling edges at most `maxFails` restores are written. */
  lemma {:induction false} BoundedRestores(events: seq<Event>, l: Limits)
    ensures WritesSincePark(events, l) <= Max(l.maxFails, 0)
    ensures var c := After(events, l); c.owe && c.until.Some? ==> WritesSincePark(events, l) <= c.fails
    decreases |events|
  {
    hide Step;
    if events != [] {
      var n := |events| - 1;
      BoundedRestores(events[..n], l);
      FreshDebts(events[..n], l);
      OneMore(After(events[..n], l), events[n], l, WritesSincePark(events[..n], l));
    }
  }

  // ----- Manual off ----------------------------------------------------------------------------

  /** Without a debt nothing is written until the engine starts over camping that was on. */
  lemma {:induction false} NothingUntilArmed(events: seq<Event>, i: nat, j: nat, l: Limits)
    requires i <= j < |events| && !Before(events, i, l).owe
    requires forall k :: i <= k <= j ==> !ArmsAt(events, k, l)
    ensures WroteAt(events, j, l).None? && !Before(events, j + 1, l).owe
    decreases j
  {
    if i < j {
      NothingUntilArmed(events, i, j - 1, l);
    }
    BeforeNext(events, j, l);
    assert !ArmsAt(events, j, l);
  }

  /** So after a manual off nothing is written until then. */
  lemma ManualOffRespected(events: seq<Event>, i: nat, j: nat, l: Limits)
    requires i < j < |events| && events[i].Poll? && Before(events, i, l).enabled
    requires ManualOff(Before(events, i, l), events[i].r)
    requires forall k :: i < k <= j ==> !ArmsAt(events, k, l)
    ensures WroteAt(events, j, l).None?
  {
    BeforeNext(events, i, l);
    NothingUntilArmed(events, i + 1, j, l);
  }
}

/** What a session that is on does with each reading, told of one step: ends, stops, switches thermometers,
    regulates, or waits for its last command. */
module ThermostatGuards {
  import opened Common
  import opened Thermostat
  import opened ThermostatControl
  import opened ThermostatStops

  // ----- A session with no command on its way --------------------------------------------------

  predicate Idle(st: St, inp: Input) {
    IsOn(st) && st.pending.None? && !OffAsked(inp)
  }

  /** A fresh frame without a fault. */
  predicate Readable(inp: Input, cfg: Settings) {
    Fresh(inp, cfg) && !Faulty(inp.heater.value)
  }

  function ShownSnap(inp: Input, cfg: Settings): (s: Snap)
    requires Readable(inp, cfg)
  {
    FrameSays(inp, cfg);
    ViewOf(inp, cfg).snap.value
  }

  /** The heater does not burn otherwise than expected. */
  predicate Undisturbed(st: St, inp: Input, cfg: Settings)
    requires Readable(inp, cfg) && st.expected.Some?
  {
    Burns(ShownSnap(inp, cfg)) ==> Matches(ShownSnap(inp, cfg), st.expected.value)
  }

  /** The second battery has been low for the hold time. */
  predicate BatteryLowNow(inp: Input, cfg: Settings) {
    inp.batt2.Some? && inp.batt2.value < cfg.battMinDv
  }

  predicate BatteryFlat(st: St, inp: Input, cfg: Settings) {
    BatteryLowNow(inp, cfg) && inp.now - st.battLowSince.GetOr(inp.now) >= cfg.battHoldMs
  }

  /** The expected heater, its level filled in from a burning one if it was not known. */
  function Known(st: St, inp: Input, cfg: Settings): Snap
    requires Readable(inp, cfg) && st.expected.Some?
  {
    var e := st.expected.value;
    if e.level.None? && Burns(ShownSnap(inp, cfg)) then e.(level := ShownSnap(inp, cfg).level) else e
  }

  /** Rule 1 and 2 hand an idle session on as it is. */
  lemma IdleGoesOn(st: St, inp: Input, cfg: Settings)
    requires WellFormed(st) && Idle(st, inp)
    ensures Step(inp, cfg, st) == Finish(OnRules(Returned(st, inp, cfg, ViewOf(inp, cfg)), [], None, inp, cfg, ViewOf(inp, cfg)))
  {
    hide OwnerRule, OnRules, Returned, WaitingRule, StoppingRule;
    OwnerGoesOn(st, [], None, inp, cfg, ViewOf(inp, cfg));
  }

  /** Without a fresh frame the session stays as it is, silent. */
  lemma UnreadHolds(st: St, inp: Input, cfg: Settings)
    requires WellFormed(st) && Idle(st, inp) && !Fresh(inp, cfg)
    ensures var (st', out) := Step(inp, cfg, st);
            out == Out([], Some(HeaterUnknown)) && st' == st.(active := st'.active, ctl := st'.ctl)
  {
    hide ViewOf, Returned, Stop, BatteryRule, ReferenceRule, ControlRule;
    FrameSays(inp, cfg);
    IdleGoesOn(st, inp, cfg);
  }

  /** A heater that burns otherwise than expected was changed by somebody else: it is left to them. */
  lemma ForeignChangeLeaves(st: St, inp: Input, cfg: Settings)
    requires WellFormed(st) && Idle(st, inp) && Readable(inp, cfg) && !Undisturbed(st, inp, cfg)
    ensures var (st', out) := Step(inp, cfg, st); LeavesHeater(st', out.cmds) && out.reason == Some(ForeignChange)
  {
    hide ViewOf, Returned, Stop, BatteryRule, ReferenceRule, ControlRule;
    FrameSays(inp, cfg);
    IdleGoesOn(st, inp, cfg);
  }

  /** What is left of rules 3 to 6 for a readable, undisturbed heater. */
  lemma ReadableGoesOn(st: St, inp: Input, cfg: Settings)
    requires WellFormed(st) && Idle(st, inp) && Readable(inp, cfg) && Undisturbed(st, inp, cfg)
    ensures var v := ViewOf(inp, cfg);
            var s := Returned(st, inp, cfg, v).(expected := Some(Known(st, inp, cfg)));
            GuardRules(Returned(st, inp, cfg, v), [], None, inp, cfg, v) == BatteryRule(s, [], None, inp, cfg, v)
  {
    hide ViewOf, Returned, Stop, BatteryRule;
    FrameSays(inp, cfg);
  }

  /** A second battery low for the hold time stops the heater; else one that does not burn any more ends the
      session. */
  lemma BatteryOrEnd(st: St, inp: Input, cfg: Settings)
    requires WellFormed(st) && Idle(st, inp) && Readable(inp, cfg) && Undisturbed(st, inp, cfg)
    requires BatteryFlat(st, inp, cfg) || !Burns(ShownSnap(inp, cfg))
    ensures var (st', out) := Step(inp, cfg, st);
            if BatteryFlat(st, inp, cfg) then
              && StopsHeater(st', out.cmds, Known(st, inp, cfg), inp.link, inp.now, CauseBatteryLow)
              && out.reason == Some(BatteryLow)
            else
              && LeavesHeater(st', out.cmds)
              && out.reason == Some(if st.expected.value.permanent then ContinuousEnded else RunEnded)
  {
    hide ViewOf, Returned, Stop, GuardRules, ReferenceRule, ControlRule, StopsHeater, Undisturbed;
    FrameSays(inp, cfg);
    IdleGoesOn(st, inp, cfg);
    ReadableGoesOn(st, inp, cfg);
    var v := ViewOf(inp, cfg);
    var s := Returned(st, inp, cfg, v).(expected := Some(Known(st, inp, cfg)));
    var s' := s.(battLowSince := Some(st.battLowSince.GetOr(inp.now)));
    StopStops(s', inp.link, inp.now, CauseBatteryLow);
  }

  /** An idle session whose heater burns as expected, the battery not flat. */
  predicate Burning(st: St, inp: Input, cfg: Settings)
    requires WellFormed(st)
  {
    && Idle(st, inp) && Readable(inp, cfg) && Undisturbed(st, inp, cfg)
    && Burns(ShownSnap(inp, cfg)) && !BatteryFlat(st, inp, cfg)
  }

  /** The session as rule 7 gets it: the battery clock runs while it is low. */
  function Guarded(st: St, inp: Input, cfg: Settings): St
    requires WellFormed(st) && Burning(st, inp, cfg)
  {
    Returned(st, inp, cfg, ViewOf(inp, cfg)).
    (expected := Some(Known(st, inp, cfg)),
     battLowSince := if BatteryLowNow(inp, cfg) then Some(st.battLowSince.GetOr(inp.now)) else None)
  }

  lemma GuardedShape(st: St, inp: Input, cfg: Settings)
    requires WellFormed(st) && Burning(st, inp, cfg)
    ensures var s := Guarded(st, inp, cfg);
            && IsOn(s) && s.mode == st.mode && s.pending.None? && s.expected == Some(Known(st, inp, cfg))
            && s.lastCtl == st.lastCtl && s.lastCtl.Some? && ViewOk(ViewOf(inp, cfg), inp, cfg) && CleanUp(s) == s
  {
    hide ViewOf, Known, Undisturbed, BatteryFlat;
  }

  lemma BurningGoesOn(st: St, inp: Input, cfg: Settings)
    requires WellFormed(st) && Burning(st, inp, cfg)
    ensures var v, s := ViewOf(inp, cfg), Guarded(st, inp, cfg);
            var f := ReferenceRule(s, [], None, inp, cfg, v);
            Step(inp, cfg, st) == Finish(if f.Done? then f else ControlRule(f.st, f.cmds, f.reason, inp, cfg, v))
  {
    hide ViewOf, Returned, Stop, GuardRules, ReferenceRule, ControlRule, Undisturbed;
    FrameSays(inp, cfg);
    IdleGoesOn(st, inp, cfg);
    ReadableGoesOn(st, inp, cfg);
  }

  // ----- Thermometers --------------------------------------------------------------------------

  /** A level is sent and remembered as pending and expected; the dwell restarts. */
  predicate SendsLevel(st: St, st': St, cmds: seq<Cmd>, level: int, before: Option<int>, now: int) {
    && cmds == [Level(level)] && st'.mode == st.mode
    && st'.pending == Some(Pending(Level(level), now, 1, now, before, None))
    && st'.expected.Some? && st'.expected.value.level == Some(level) && st'.ctl.lastChange == now
  }

  /** The controller is started over so that its next demand is the current level. */
  predicate ResumesAt(st: St, st': St, level: Option<int>, tRef: int, target: int, cfg: Settings) {
    if level.None? then st'.ctl == st.ctl
    else
      && st'.ctl == st.ctl.(i := st'.ctl.i)
      && Proportional(tRef, target, cfg) + st'.ctl.i + st'.ctl.uOut.GetOr(0) == 1000 * level.value
  }

  /** A lost thermometer gives way to the other if that is valid; with none the heater goes to the minimum
      level, and the session is degraded until a thermometer is back. */
  lemma LostThermometer(st: St, inp: Input, cfg: Settings)
    requires WellFormed(st) && Burning(st, inp, cfg)
    ensures var s, v := Guarded(st, inp, cfg), ViewOf(inp, cfg);
            var (st', out) := Step(inp, cfg, st);
            var ref, backup := ValidReading(inp.reference, cfg), ValidReading(inp.backup, cfg);
            && (s.active.UseReference? && !ref && backup ==>
                  && st'.mode.Auto? && st'.active.UseBackup? && out == Out([], Some(BackupSelected)) && st'.lastCtl == Some(inp.now)
                  && ResumesAt(s, st', v.level, inp.backup.value.val.value, inp.target, cfg))
            && (s.active.UseBackup? && !backup && ref ==>
                  && st'.mode.Auto? && st'.active.UseReference? && out == Out([], Some(ReferenceSelected)) && st'.lastCtl == Some(inp.now)
                  && ResumesAt(s, st', v.level, inp.reference.value.val.value, inp.target, cfg))
            && (!ref && !backup ==>
                  && st'.mode.Degraded? && out.reason == Some(ReferenceLost) && st'.active == s.active
                  && if v.level != Some(cfg.minLevel) && inp.link then
                       SendsLevel(s.(mode := Degraded), st', out.cmds, cfg.minLevel, v.level, inp.now)
                     else out.cmds == [] && st'.pending.None? && st'.ctl == s.ctl)
  {
    hide ViewOf, Guarded, Proportional, ControlRule, ReferenceRule, Burning, Known, ValidReading;
    BurningGoesOn(st, inp, cfg);
    GuardedShape(st, inp, cfg);
    LostRule(Guarded(st, inp, cfg), inp, cfg, ViewOf(inp, cfg));
  }

  /** Rule 7 with the active thermometer lost. */
  lemma LostRule(s: St, inp: Input, cfg: Settings, v: View)
    requires IsOn(s) && s.expected.Some? && s.pending.None?
    ensures var f := ReferenceRule(s, [], None, inp, cfg, v);
            var ref, backup := ValidReading(inp.reference, cfg), ValidReading(inp.backup, cfg);
            && (s.active.UseReference? && !ref && backup ==>
                  && f.Done? && f.st.mode.Auto? && f.st.active.UseBackup? && f.cmds == [] && f.reason == Some(BackupSelected)
                  && f.st.lastCtl == Some(inp.now) && ResumesAt(s, f.st, v.level, inp.backup.value.val.value, inp.target, cfg))
            && (s.active.UseBackup? && !backup && ref ==>
                  && f.Done? && f.st.mode.Auto? && f.st.active.UseReference? && f.cmds == [] && f.reason == Some(ReferenceSelected)
                  && f.st.lastCtl == Some(inp.now) && ResumesAt(s, f.st, v.level, inp.reference.value.val.value, inp.target, cfg))
            && (!ref && !backup ==>
                  && f.Done? && f.st.mode.Degraded? && f.reason == Some(ReferenceLost) && f.st.active == s.active
                  && if v.level != Some(cfg.minLevel) && inp.link then
                       SendsLevel(s.(mode := Degraded), f.st, f.cmds, cfg.minLevel, v.level, inp.now)
                     else f.cmds == [] && f.st.pending.None? && f.st.ctl == s.ctl)
  {
    hide Proportional;
  }

  function ActiveTemp(s: St, inp: Input, cfg: Settings): Option<int> {
    var r := if s.active.UseReference? then inp.reference else inp.backup;
    if ValidReading(r, cfg) then r.value.val else None
  }

  /** A thermometer that is back ends the degraded mode, from the current level. */
  lemma ThermometerBack(st: St, inp: Input, cfg: Settings)
    requires WellFormed(st) && Burning(st, inp, cfg) && st.mode.Degraded?
    requires ActiveTemp(Guarded(st, inp, cfg), inp, cfg).Some?
    ensures var s, v := Guarded(st, inp, cfg), ViewOf(inp, cfg);
            var (st', out) := Step(inp, cfg, st);
            && out == Out([], Some(AutoOn)) && st'.mode.Auto? && st'.active == s.active && st'.lastCtl == Some(inp.now)
            && ResumesAt(s, st', v.level, ActiveTemp(s, inp, cfg).value, inp.target, cfg)
  {
    hide ViewOf, Guarded, Proportional, ControlRule, LostReferenceRule, Burning;
    BurningGoesOn(st, inp, cfg);
    GuardedShape(st, inp, cfg);
  }

  // ----- Regulating ----------------------------------------------------------------------------

  /** The session regulates: on with a valid thermometer. */
  predicate Regulated(st: St, inp: Input, cfg: Settings)
    requires WellFormed(st)
  {
    Burning(st, inp, cfg) && st.mode.Auto? && ActiveTemp(Guarded(st, inp, cfg), inp, cfg).Some?
  }

  lemma RegulatedGoesOn(st: St, inp: Input, cfg: Settings)
    requires WellFormed(st) && Regulated(st, inp, cfg)
    ensures var v, s := ViewOf(inp, cfg), Guarded(st, inp, cfg);
            && ValidReading(ActiveReading(s, inp), cfg) && s.lastCtl == st.lastCtl && s.expected == Some(Known(st, inp, cfg))
            && s.mode.Auto? && s.pending.None? && s.lastCtl.Some?
            && Step(inp, cfg, st) == Finish(ControlRule(s, [], None, inp, cfg, v))
  {
    hide ViewOf, Guarded, ControlRule, LostReferenceRule, Burning, Known;
    BurningGoesOn(st, inp, cfg);
    GuardedShape(st, inp, cfg);
  }

  /** Within the period nothing is decided. */
  lemma WithinPeriod(st: St, inp: Input, cfg: Settings)
    requires WellFormed(st) && Regulated(st, inp, cfg) && inp.now - st.lastCtl.value < cfg.periodMs
    ensures var (st', out) := Step(inp, cfg, st); st' == Guarded(st, inp, cfg) && out == Out([], Some(AutoOn))
  {
    hide ViewOf, Guarded, Regulated, ApplyControl, ControlStep, ValidReading;
    RegulatedGoesOn(st, inp, cfg);
    UnwaitedStays(st, inp, cfg);
  }

  lemma UnwaitedStays(st: St, inp: Input, cfg: Settings)
    requires WellFormed(st) && Regulated(st, inp, cfg)
    ensures CleanUp(Guarded(st, inp, cfg)) == Guarded(st, inp, cfg)
  {
    hide ViewOf, Burning, Known;
  }

  /** What the law is given. */
  function SampleOf(st: St, inp: Input, cfg: Settings): Sample
    requires WellFormed(st) && Regulated(st, inp, cfg)
  {
    Sample(ActiveTemp(Guarded(st, inp, cfg), inp, cfg).value, ViewOf(inp, cfg).tOut, inp.target, inp.now - st.lastCtl.value,
           ViewOf(inp, cfg).level, inp.now)
  }

  /** Its answer to the session's controller. */
  function AnswerTo(st: St, inp: Input, cfg: Settings): Control
    requires WellFormed(st) && Regulated(st, inp, cfg)
  {
    var s := SampleOf(st, inp, cfg);
    ControlStep(s.tRef, s.tOut, s.target, s.dt, Guarded(st, inp, cfg).ctl, cfg, s.level, s.now)
  }

  predicate TooHot(st: St, inp: Input, cfg: Settings)
    requires WellFormed(st) && Regulated(st, inp, cfg)
  {
    var s := SampleOf(st, inp, cfg);
    || s.tRef > s.target + cfg.overheat
    || (TooWarm(s, cfg) && s.now - Guarded(st, inp, cfg).ctl.hotSince.GetOr(s.now) >= cfg.hotHoldMs)
  }

  /** Past the period the law decides. Too hot stops a heater that runs, with its cause; continuous heating,
      which only the panel could start again, is held at the minimum level instead. Else a level the law asks
      for is sent if the link is up, and without one the old time of the last change stays. */
  lemma PeriodOver(st: St, inp: Input, cfg: Settings)
    requires WellFormed(st) && Regulated(st, inp, cfg) && inp.now - st.lastCtl.value >= cfg.periodMs
    ensures var s, c, v := Guarded(st, inp, cfg), AnswerTo(st, inp, cfg), ViewOf(inp, cfg);
            var (st', out) := Step(inp, cfg, st);
            && st'.lastCtl == Some(inp.now) && (st'.ctl.i, st'.ctl.u, st'.ctl.uOut, st'.ctl.hotSince) == (c.ctl.i, c.ctl.u, c.ctl.uOut, c.ctl.hotSince)
            && if TooHot(st, inp, cfg) && !ShownSnap(inp, cfg).permanent then
                 var over := SampleOf(st, inp, cfg).tRef > inp.target + cfg.overheat;
                 && StopsHeater(st', out.cmds, s.expected.value, inp.link, inp.now, if over then CauseOverheat else CauseTargetExceeded)
                 && out.reason == Some(if over then Overheat else TargetExceeded)
               else if TooHot(st, inp, cfg) then
                 && st'.mode.Auto? && out.reason == Some(HoldAtMinLevel)
                 && if v.level != Some(cfg.minLevel) && inp.link then SendsLevel(s, st', out.cmds, cfg.minLevel, v.level, inp.now)
                    else out.cmds == [] && st'.pending.None?
               else if c.level.Some? && c.level != v.level && inp.link then
                 SendsLevel(s, st', out.cmds, c.level.value, v.level, inp.now) && out.reason == Some(c.reason)
               else
                 && st'.mode.Auto? && out.cmds == [] && st'.pending.None? && st'.ctl.lastChange == s.ctl.lastChange
                 && out.reason == Some(if inp.outsideOn && v.tOut.None? then OutsideInactive else Hold)
  {
    hide ViewOf, Guarded, ControlStep, ValidReading, ApplyControl, StopsHeater, SendsLevel, Burning, TooWarm;
    RegulatedGoesOn(st, inp, cfg);
    BurningShows(st, inp, cfg);
    GuardedShape(st, inp, cfg);
    AnswersExactly(SampleOf(st, inp, cfg), Guarded(st, inp, cfg).ctl, cfg);
    Decided(Guarded(st, inp, cfg), AnswerTo(st, inp, cfg), inp, cfg, ViewOf(inp, cfg));
  }

  /** The controller's answer carried out. */
  lemma Decided(s: St, c: Control, inp: Input, cfg: Settings, v: View)
    requires s.mode.Auto? && s.expected.Some? && s.pending.None?
    ensures var f := ApplyControl(s, c, [], inp, cfg, v); var st' := CleanUp(f.st);
            var hot := c.reason.Overheat? || c.reason.TargetExceeded?;
            && f.Done? && st'.lastCtl == Some(inp.now)
            && (st'.ctl.i, st'.ctl.u, st'.ctl.uOut, st'.ctl.hotSince) == (c.ctl.i, c.ctl.u, c.ctl.uOut, c.ctl.hotSince)
            && if hot && !v.hs.Continuous? then
                 && StopsHeater(st', f.cmds, s.expected.value, inp.link, inp.now, if c.reason.Overheat? then CauseOverheat else CauseTargetExceeded)
                 && f.reason == Some(c.reason)
               else if hot then
                 && st'.mode.Auto? && f.reason == Some(HoldAtMinLevel)
                 && if v.level != Some(cfg.minLevel) && inp.link then SendsLevel(s, st', f.cmds, cfg.minLevel, v.level, inp.now)
                    else f.cmds == [] && st'.pending.None?
               else if c.level.Some? && c.level != v.level && inp.link then
                 SendsLevel(s, st', f.cmds, c.level.value, v.level, inp.now) && f.reason == Some(c.reason)
               else
                 && st'.mode.Auto? && f.cmds == [] && st'.pending.None? && st'.ctl.lastChange == s.ctl.lastChange
                 && f.reason == Some(if inp.outsideOn && v.tOut.None? then OutsideInactive else Hold)
  {
    hide Stop, StopsHeater;
    StopStops(s.(ctl := c.ctl, lastCtl := Some(inp.now)), inp.link, inp.now,
              if c.reason.Overheat? then CauseOverheat else CauseTargetExceeded);
    StopKeepsCtl(s.(ctl := c.ctl, lastCtl := Some(inp.now)), inp.link, inp.now,
                 if c.reason.Overheat? then CauseOverheat else CauseTargetExceeded);
  }

  lemma StopKeepsCtl(st: St, canSend: bool, now: int, why: Cause)
    ensures Stop(st, canSend, now, why).0.ctl == st.ctl && Stop(st, canSend, now, why).0.lastCtl == st.lastCtl
  {
  }

  lemma BurningShows(st: St, inp: Input, cfg: Settings)
    requires WellFormed(st) && Regulated(st, inp, cfg)
    ensures Readable(inp, cfg) && Burns(ShownSnap(inp, cfg)) && IsHeating(ViewOf(inp, cfg).hs)
    ensures ShownSnap(inp, cfg).permanent <==> ViewOf(inp, cfg).hs.Continuous?
  {
    hide ViewOf, Undisturbed;
    FrameSays(inp, cfg);
  }
}

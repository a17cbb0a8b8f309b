/** The owner's AUTO: which check refuses it, and what an accepted one does, told of one step. */
module ThermostatEntry {
  import opened Common
  import opened Thermostat
  import opened ThermostatControl
  import opened ThermostatStops
  import opened ThermostatGuards

  // ----- Refusals ------------------------------------------------------------------------------

  /** The order of the entry checks. */
  function Place(check: Reason): nat {
    match check
    case RefusedDisabled => 0
    case RefusedNoLink => 1
    case RefusedStaleHeater => 2
    case RefusedNotInstalled => 3
    case RefusedFault => 4
    case RefusedTimerArmed => 5
    case RefusedNoCamping => 6
    case RefusedIgnition => 7
    case RefusedNoReference => 8
    case RefusedWarm => 9
    case _ => 10
  }

  /** The frame shows a heater that is off with a timer armed. */
  predicate TimerSet(d: RawHeater) {
    !Faulty(d) && d.permanent.GetOr(0) == 0 && d.normal.GetOr(0) == 0 && d.operationMode == Some(3)
  }

  /** The check fails, if all before it hold. */
  predicate FailsCheck(r: Reason, inp: Input, cfg: Settings) {
    match r
    case RefusedDisabled => !inp.enabled
    case RefusedNoLink => !inp.link
    case RefusedStaleHeater => !Fresh(inp, cfg)
    case RefusedNotInstalled => Fresh(inp, cfg) && inp.heater.value.installed == Some(0)
    case RefusedFault => Fresh(inp, cfg) && Faulty(inp.heater.value)
    case RefusedTimerArmed => Fresh(inp, cfg) && TimerSet(inp.heater.value)
    case RefusedNoCamping => !inp.camping && !inp.shore
    case RefusedIgnition => inp.ignition != Some(false)
    case RefusedNoReference => !ValidReading(inp.reference, cfg)
    case RefusedWarm =>
      && !inp.night && Readable(inp, cfg) && !Burns(ShownSnap(inp, cfg))
      && ValidReading(inp.reference, cfg) && inp.reference.value.val.value > inp.target + cfg.bandHi
    case _ => false
  }

  lemma FramesChecked(inp: Input, cfg: Settings)
    ensures var v := ViewOf(inp, cfg);
            && (v.code == -1 && Fresh(inp, cfg) && inp.heater.value.errorCode.GetOr(0) != -1 ==> inp.heater.value.installed == Some(0))
            && (Fresh(inp, cfg) && inp.heater.value.installed == Some(0) ==> v.code == -1)
            && (v.hs.TimerArmed? <==> Fresh(inp, cfg) && TimerSet(inp.heater.value))
            && (v.hs.HeaterOff? <==> Readable(inp, cfg) && !Burns(ShownSnap(inp, cfg)) && !TimerSet(inp.heater.value))
            && (IsFault(v.hs) <==> Fresh(inp, cfg) && Faulty(inp.heater.value))
  {
    hide ViewOf;
    FrameSays(inp, cfg);
  }

  /** Error codes are bytes. */
  predicate CodeOk(inp: Input) {
    inp.heater.Some? ==> inp.heater.value.errorCode.GetOr(0) >= 0
  }

  /** A refusal is the first check that fails, and there is none exactly if all hold. */
  lemma RefusedByFirst(inp: Input, cfg: Settings)
    requires CodeOk(inp)
    ensures var why := Refusal(inp, cfg, ViewOf(inp, cfg));
            && (why.None? <==> forall check :: !FailsCheck(check, inp, cfg))
            && (why.Some? ==> FailsCheck(why.value, inp, cfg))
            && (why.Some? ==> forall check :: Place(check) < Place(why.value) ==> !FailsCheck(check, inp, cfg))
  {
    hide ViewOf, ValidReading, TimerSet;
    FramesChecked(inp, cfg);
    FrameSays(inp, cfg);
    var why := Refusal(inp, cfg, ViewOf(inp, cfg));
    if why.None? {
      forall check
        ensures !FailsCheck(check, inp, cfg)
      {
      }
    } else {
      assert FailsCheck(why.value, inp, cfg);
    }
  }

  /** A request that is refused, or asked for while a safety stop is carried out, starts nothing and changes
      nothing but what the pending stop's own answer changes. */
  lemma RefusedStartsNothing(st: St, inp: Input, cfg: Settings)
    requires WellFormed(st) && CodeOk(inp) && inp.request.RequestAuto? && st.mode.Off? && st.pending.None?
    requires Refusal(inp, cfg, ViewOf(inp, cfg)).Some?
    ensures Step(inp, cfg, st) == (st, Out([], Refusal(inp, cfg, ViewOf(inp, cfg))))
  {
    hide ViewOf, Refusal, EnterAuto;
  }

  // ----- What an accepted request does ---------------------------------------------------------

  /** The level a demand from a fresh controller asks for: the minimum where it is too hot to heat. */
  function FirstLevel(c: Control, cfg: Settings): int {
    if c.reason.Overheat? then cfg.minLevel else LevelOf(c.ctl.u, cfg)
  }

  /** The law's answer to a controller that starts at zero, with no level known and no time passed. */
  function FirstAnswer(lastChange: int, inp: Input, cfg: Settings): Control
    requires ValidReading(inp.reference, cfg)
  {
    ControlStep(inp.reference.value.val.value, ViewOf(inp, cfg).tOut, inp.target, 0, Ctl(0, lastChange, None, 0, Some(0)),
                cfg, None, inp.now)
  }

  /** The heater is taken as it is, with a controller that starts at zero; its first level leaves at once, if
      the heater is not at it. */
  predicate TakesOver(st: St, st': St, cmds: seq<Cmd>, inp: Input, cfg: Settings)
    requires Readable(inp, cfg) && ValidReading(inp.reference, cfg)
  {
    var c, shown := FirstAnswer(st.ctl.lastChange, inp, cfg), ShownSnap(inp, cfg);
    var level := FirstLevel(c, cfg);
    && st'.lastCtl == Some(inp.now) && (st'.ctl.i, st'.ctl.u, st'.ctl.uOut) == (c.ctl.i, c.ctl.u, c.ctl.uOut)
    && st'.expected.Some? && (st'.expected.value.normal, st'.expected.value.permanent) == (shown.normal, shown.permanent)
    && if shown.level == Some(level) || !inp.link then
         cmds == [] && st'.pending.None? && st'.expected.value.level == shown.level && st'.ctl.lastChange == st.ctl.lastChange
       else
         && cmds == [Level(level)] && st'.expected.value.level == Some(level) && st'.ctl.lastChange == inp.now
         && st'.pending == Some(Pending(Level(level), inp.now, 1, inp.now, shown.level, None))
  }

  /** The owner's request is taken: not on, no entry check fails, and what is being stopped, if anything, the
      owner stopped. */
  ghost predicate Accepted(st: St, inp: Input, cfg: Settings) {
    && inp.request.RequestAuto? && (st.mode.Off? || st.mode.Stopping?) && st.pending.None?
    && (st.stopSnap.Some? ==> st.stopSnap.value.why == UserOff)
    && forall check :: !FailsCheck(check, inp, cfg)
  }

  /** From an off heater it starts a run: run time, level and one power-on, in this order; from a burning one
      it takes over. At night only continuous heating is taken over: an off heater gets its level set, a run
      is left alone, and the session waits. */
  lemma EntersExactly(st: St, inp: Input, cfg: Settings)
    requires WellFormed(st) && CodeOk(inp) && LevelsOk(cfg) && Accepted(st, inp, cfg)
    ensures Readable(inp, cfg) && ValidReading(inp.reference, cfg)
    ensures var (st', out) := Step(inp, cfg, st);
            var shown := ShownSnap(inp, cfg);
            var level := FirstLevel(FirstAnswer(inp.now, inp, cfg), cfg);
            && st'.active.UseReference? && st'.battLowSince.None? && st'.stopSnap.None? && st'.night == inp.night
            && st'.lastCtl == Some(inp.now)
            && if inp.night && !shown.permanent then
                 && st'.mode.Waiting? && st'.waitUntil == Some(inp.now + cfg.nightWaitMs) && st'.contSince.None?
                 && out.reason == Some(WaitingForContinuous)
                 && if Burns(shown) then out.cmds == [] && st'.pending.None? && st'.expected == Some(shown)
                    else TakesOver(st, st', out.cmds, inp, cfg)
               else if Burns(shown) then
                 && st'.mode.Auto? && TakesOver(st, st', out.cmds, inp, cfg)
                 && out.reason == Some(if shown.permanent then AdoptContinuous else AdoptRun)
               else
                 && st'.mode.Auto? && out == Out([Runtime(inp.runtimeMin), Level(level), PowerOn], Some(Start))
                 && st'.expected == Some(Snap(true, false, Some(level))) && st'.ctl == FirstAnswer(inp.now, inp, cfg).ctl
                 && st'.pending == Some(Pending(PowerOn, inp.now, 1, inp.now, None, None))
  {
    hide ViewOf, FailsCheck, ControlStep, StartLevel, TakesOver, ValidReading, LevelOf;
    RefusedByFirst(inp, cfg);
    AcceptedReads(inp, cfg);
    AcceptedGoesOn(st, inp, cfg);
    var v := ViewOf(inp, cfg);
    var s := st.(mode := Auto, active := UseReference, pending := None, battLowSince := None, stopSnap := None,
                 lastCtl := Some(inp.now), night := inp.night);
    TakeoverTakes(st, s, inp, cfg);
    TakeoverTakes(st, s.(mode := Waiting, waitUntil := Some(inp.now + cfg.nightWaitMs), contSince := None, expected := v.snap), inp, cfg);
    FirstLevelIs(inp.now, inp, cfg);
  }

  lemma AcceptedReads(inp: Input, cfg: Settings)
    requires forall check :: !FailsCheck(check, inp, cfg)
    ensures Readable(inp, cfg) && ValidReading(inp.reference, cfg) && inp.link
    ensures var v := ViewOf(inp, cfg);
            && v.snap == Some(ShownSnap(inp, cfg)) && v.level == ShownSnap(inp, cfg).level
            && (v.hs.HeaterOff? <==> !Burns(ShownSnap(inp, cfg))) && (v.hs.Continuous? <==> ShownSnap(inp, cfg).permanent)
  {
    hide ViewOf, ValidReading;
    assert !FailsCheck(RefusedStaleHeater, inp, cfg) && !FailsCheck(RefusedFault, inp, cfg) && !FailsCheck(RefusedNoLink, inp, cfg);
    assert !FailsCheck(RefusedTimerArmed, inp, cfg) && !FailsCheck(RefusedNoReference, inp, cfg);
    FrameSays(inp, cfg);
    FramesChecked(inp, cfg);
  }

  lemma AcceptedGoesOn(st: St, inp: Input, cfg: Settings)
    requires WellFormed(st) && Accepted(st, inp, cfg) && Refusal(inp, cfg, ViewOf(inp, cfg)).None?
    requires ViewOf(inp, cfg).snap.Some? && ValidReading(inp.reference, cfg)
    ensures Step(inp, cfg, st) == Finish(EnterAuto(st, [], inp, cfg, ViewOf(inp, cfg)))
  {
    hide ViewOf, FailsCheck, Refusal, ValidReading, Takeover, ControlStep;
  }

  lemma FirstLevelIs(lastChange: int, inp: Input, cfg: Settings)
    requires ValidReading(inp.reference, cfg) && LevelsOk(cfg)
    ensures StartLevel(FirstAnswer(lastChange, inp, cfg), cfg) == FirstLevel(FirstAnswer(lastChange, inp, cfg), cfg)
  {
    hide ViewOf, LevelOf, ControlStep;
    var s := Sample(inp.reference.value.val.value, ViewOf(inp, cfg).tOut, inp.target, 0, None, inp.now);
    var ctl := Ctl(0, lastChange, None, 0, Some(0));
    AnswersExactly(s, ctl, cfg);
    LevelOfBand(FirstAnswer(lastChange, inp, cfg).ctl.u, cfg);
  }

  lemma TakeoverTakes(st: St, s: St, inp: Input, cfg: Settings)
    requires Readable(inp, cfg) && ValidReading(inp.reference, cfg) && LevelsOk(cfg) && s.ctl == st.ctl
    ensures var v := ViewOf(inp, cfg);
            var (s', cmds) := Takeover(s, ShownSnap(inp, cfg), ShownSnap(inp, cfg).level, Some(inp.reference.value.val.value), v.tOut, inp, cfg);
            TakesOver(st, s', cmds, inp, cfg)
            && s' == s.(pending := s'.pending, expected := s'.expected, ctl := s'.ctl, lastCtl := s'.lastCtl)
  {
    hide ViewOf, ControlStep, StartLevel, FirstLevel, ShownSnap, Readable;
    FirstLevelIs(st.ctl.lastChange, inp, cfg);
    FirstAnswerKeepsChange(st.ctl.lastChange, inp, cfg);
  }

  lemma FirstAnswerKeepsChange(lastChange: int, inp: Input, cfg: Settings)
    requires ValidReading(inp.reference, cfg)
    ensures FirstAnswer(lastChange, inp, cfg).ctl.lastChange == lastChange
  {
    hide ViewOf, LevelOf, Integrate;
  }

  // ----- The night wait ------------------------------------------------------------------------

  predicate ShowsContinuous(inp: Input, cfg: Settings) {
    Readable(inp, cfg) && ShownSnap(inp, cfg).permanent
  }

  /** The wait goes on in silence, with its deadline. */
  predicate WaitsOn(st: St, st': St, out: Out, since: Option<int>) {
    && st'.mode.Waiting? && st'.waitUntil == st.waitUntil && st'.contSince == since && st'.ctl == st.ctl
    && out == Out([], Some(WaitingForContinuous))
  }

  /** A step of the night wait in which nobody asks for an end. A fault ends it; so does the deadline, unless
      continuous heating was seen before. Continuous heating is taken over once a frame read the confirm time
      after its first sight shows it; anything else forgets the sight. */
  lemma NightExactly(st: St, inp: Input, cfg: Settings)
    requires WellFormed(st) && LevelsOk(cfg) && st.mode.Waiting? && !OffAsked(inp)
    ensures var (st', out) := Step(inp, cfg, st);
            var late, since := inp.now >= st.waitUntil.value, st.contSince.GetOr(inp.now);
            if Fresh(inp, cfg) && Faulty(inp.heater.value) then
              && LeavesHeater(st', out.cmds)
              && (out.reason == Some(BatteryLow) <==> ViewOf(inp, cfg).code == 1)
            else if !ShowsContinuous(inp, cfg) then
              if late then LeavesHeater(st', out.cmds) && out.reason == Some(NightWaitEnded) else WaitsOn(st, st', out, None)
            else if late && st.contSince.None? then LeavesHeater(st', out.cmds) && out.reason == Some(NightWaitEnded)
            else if inp.now - inp.heaterAge.value - since < cfg.nightConfirmMs then WaitsOn(st, st', out, Some(since))
            else
              && st'.mode.Auto? && out.reason == Some(AdoptContinuous)
              && if ValidReading(inp.reference, cfg) then TakesOver(st, st', out.cmds, inp, cfg)
                 else out.cmds == [] && st'.pending.None? && st'.expected == Some(ShownSnap(inp, cfg)) && st'.lastCtl == Some(inp.now)
  {
    hide ViewOf, PresetRule, ContinuousRule, TakesOver, ControlStep, ValidReading, Stop;
    FrameSays(inp, cfg);
    PresetKeeps(st, inp, cfg);
    if ShowsContinuous(inp, cfg) {
      var st1 := PresetRule(st, inp, cfg, ViewOf(inp, cfg)).(expected := ViewOf(inp, cfg).snap);
      ContinuousExactly(st, st1, inp, cfg);
    }
  }

  lemma PresetKeeps(st: St, inp: Input, cfg: Settings)
    requires WellFormed(st) && st.mode.Waiting?
    ensures var s := PresetRule(st, inp, cfg, ViewOf(inp, cfg)); s == st.(pending := s.pending)
  {
    hide ViewOf;
  }

  lemma ContinuousExactly(st: St, st1: St, inp: Input, cfg: Settings)
    requires WellFormed(st) && LevelsOk(cfg) && st.mode.Waiting? && ShowsContinuous(inp, cfg)
    requires st1 == st.(pending := st1.pending, expected := ViewOf(inp, cfg).snap)
    requires ViewOf(inp, cfg).snap == Some(ShownSnap(inp, cfg))
    ensures var f := ContinuousRule(st1, inp, cfg, ViewOf(inp, cfg)); var st' := CleanUp(f.st);
            var late, since := inp.now >= st.waitUntil.value, st.contSince.GetOr(inp.now);
            f.Done? &&
            if late && st.contSince.None? then LeavesHeater(st', f.cmds) && f.reason == Some(NightWaitEnded)
            else if inp.now - inp.heaterAge.value - since < cfg.nightConfirmMs then WaitsOn(st, st', Out(f.cmds, f.reason), Some(since))
            else
              && st'.mode.Auto? && f.reason == Some(AdoptContinuous)
              && if ValidReading(inp.reference, cfg) then TakesOver(st, st', f.cmds, inp, cfg)
                 else f.cmds == [] && st'.pending.None? && st'.expected == Some(ShownSnap(inp, cfg)) && st'.lastCtl == Some(inp.now)
  {
    hide ViewOf, ControlStep, StartLevel, FirstLevel, ShownSnap;
    FrameSays(inp, cfg);
    ShownLevel(inp, cfg);
    var s := st1.(contSince := Some(st.contSince.GetOr(inp.now)), mode := Auto);
    if ValidReading(inp.reference, cfg) {
      TakeoverTakes(st, s, inp, cfg);
    }
  }

  lemma ShownLevel(inp: Input, cfg: Settings)
    requires Readable(inp, cfg)
    ensures ViewOf(inp, cfg).snap == Some(ShownSnap(inp, cfg)) && ViewOf(inp, cfg).level == ShownSnap(inp, cfg).level
  {
    hide ViewOf;
    FrameSays(inp, cfg);
  }
}

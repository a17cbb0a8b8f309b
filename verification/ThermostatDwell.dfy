/** No chatter: over a whole run, level changes keep the dwell and need the demand to move. */
module ThermostatDwell {
  import opened Common
  import opened Thermostat
  import opened ThermostatControl
  import opened ThermostatRuns
  import opened ThermostatSafety

  /** The level a batch of commands sends, if any. */
  function LevelIn(cmds: seq<Cmd>): Option<int> {
    if cmds == [] then None else if cmds[0].Level? then Some(cmds[0].level) else LevelIn(cmds[1..])
  }

  predicate IsChange(r: Option<Reason>) {
    r == Some(LevelUp) || r == Some(LevelDown)
  }

  /** Between two points of a step: the time of the last level command moves to now exactly when a
      level joins the commands. */
  predicate ChangeTimed(st: St, cmds: seq<Cmd>, f: Flow, now: int) {
    f.st.ctl.lastChange == if LevelIn(cmds).None? && LevelIn(f.cmds).Some? then now else st.ctl.lastChange
  }

  /** A change at a known level kept the dwell, and the demand left every demand that level answers. */
  ghost predicate ChangeEarned(st: St, f: Flow, inp: Input, cfg: Settings, v: View) {
    IsChange(f.reason) && v.level.Some? ==>
      && inp.now - st.ctl.lastChange >= cfg.minDwellMs
      && LevelIn(f.cmds).Some?
      && forall u0 :: v.level.value == LevelOf(u0, cfg) ==> Abs(f.st.ctl.u - u0) >= cfg.hyst
  }

  ghost predicate RuleTimed(st: St, cmds: seq<Cmd>, f: Flow, inp: Input, cfg: Settings, v: View) {
    && ChangeTimed(st, cmds, f, inp.now)
    && ChangeEarned(st, f, inp, cfg, v)
    && (f.Go? ==> !IsChange(f.reason) && f.cmds == cmds && (f.st.pending == st.pending))
  }

  // ----- The helpers ---------------------------------------------------------------------------

  lemma StopsNoLevel(st: St, canSend: bool, now: int, why: Cause)
    ensures var (s, cmds) := Stop(st, canSend, now, why); LevelIn(cmds).None? && s.ctl == st.ctl
  {
  }

  lemma SendLevelTimed(st: St, lvl: int, ctl: Ctl, before: Option<int>, now: int)
    requires st.expected.Some?
    ensures var (s, cmds) := SendLevel(st, lvl, ctl, before, now);
            LevelIn(cmds) == Some(lvl) && s.ctl == ctl.(lastChange := now)
  {
  }

  lemma StartLevelKept(tRef: int, tOut: Option<int>, target: int, ctl: Ctl, cfg: Settings, now: int)
    ensures ControlStep(tRef, tOut, target, 0, ctl, cfg, None, now).ctl.lastChange == ctl.lastChange
  {
    hide Integrate, RDiv, LevelOf;
  }

  lemma TakeoverTimed(st: St, snap: Snap, level: Option<int>, tRef: Option<int>, tOut: Option<int>, inp: Input, cfg: Settings)
    ensures var (s, cmds) := Takeover(st, snap, level, tRef, tOut, inp, cfg);
            s.ctl.lastChange == if LevelIn(cmds).Some? then inp.now else st.ctl.lastChange
  {
    hide ControlStep, SendLevel;
    var base := TakeoverBase(st, snap, inp.now);
    if tRef.Some? {
      StartLevelKept(tRef.value, tOut, inp.target, base.ctl, cfg, inp.now);
      var c := ControlStep(tRef.value, tOut, inp.target, 0, base.ctl, cfg, None, inp.now);
      SendLevelTimed(base, StartLevel(c, cfg), c.ctl, level, inp.now);
    }
  }

  lemma StartBatchLevel(minutes: int, lvl: int)
    ensures LevelIn([Runtime(minutes), Level(lvl), PowerOn]) == Some(lvl)
  {
    assert [Runtime(minutes), Level(lvl), PowerOn][1..] == [Level(lvl), PowerOn];
  }

  // ----- The rules -----------------------------------------------------------------------------

  lemma FirstRuleTimed(st: St, inp: Input, cfg: Settings)
    requires WellFormed(st)
    ensures var f := FirstRule(st, inp, cfg, ViewOf(inp, cfg));
            f.st.ctl == st.ctl && !IsChange(f.reason) && (f.Done? ==> f.cmds == [])
            && (f.Go? && f.cmds != [] ==> f.st.pending.Some?)
            && (f.Go? ==> f.st.mode == st.mode)
            && (f.Go? && !IsOn(st) ==> LevelIn(f.cmds).None?)
  {
    hide ReadHeater, Same, Applied, StartRetryOk;
  }

  lemma WaitingRuleTimed(st: St, inp: Input, cfg: Settings, v: View)
    requires WellFormed(st) && st.mode.Waiting? && ViewOk(v, inp, cfg)
    ensures var f := WaitingRule(st, inp, cfg, v); ChangeTimed(st, [], f, inp.now) && !IsChange(f.reason)
  {
    hide Stop, Takeover;
    var s := if v.snap.Some? then st.(expected := v.snap) else st;
    StopsNoLevel(s, inp.link && v.snap.Some?, inp.now, if inp.enabled then UserOff else Disabled);
    if v.snap.Some? {
      TakeoverTimed(s.(contSince := Some(s.contSince.GetOr(inp.now)), mode := Auto), v.snap.value, v.level,
                    if ValidReading(inp.reference, cfg) then inp.reference.value.val else None, v.tOut, inp, cfg);
    }
  }

  lemma EnterAutoTimed(st: St, cmds: seq<Cmd>, inp: Input, cfg: Settings, v: View)
    requires v.snap.Some? && ValidReading(inp.reference, cfg) && LevelIn(cmds).None?
    ensures var f := EnterAuto(st, cmds, inp, cfg, v); f.Done? && ChangeTimed(st, cmds, f, inp.now) && !IsChange(f.reason)
  {
    hide Takeover, ControlStep;
    var tRef := inp.reference.value.val.value;
    var s := st.(mode := Auto, active := UseReference, pending := None, battLowSince := None,
                 stopSnap := None, lastCtl := Some(inp.now), night := inp.night);
    var w := s.(mode := Waiting, waitUntil := Some(inp.now + cfg.nightWaitMs), contSince := None, expected := v.snap);
    var ctl0 := Ctl(0, inp.now, None, 0, Some(0));
    StartLevelKept(tRef, v.tOut, inp.target, ctl0, cfg, inp.now);
    StartBatchLevel(inp.runtimeMin, StartLevel(ControlStep(tRef, v.tOut, inp.target, 0, ctl0, cfg, None, inp.now), cfg));
    TakeoverTimed(if inp.night && !v.hs.Continuous? then w else s, v.snap.value, v.level, Some(tRef), v.tOut, inp, cfg);
  }

  lemma OwnerRuleTimed(st: St, cmds: seq<Cmd>, reason: Option<Reason>, inp: Input, cfg: Settings, v: View)
    requires WellFormed(st) && ViewOk(v, inp, cfg) && !IsChange(reason) && (!IsOn(st) ==> LevelIn(cmds).None?)
    ensures var f := OwnerRule(st, cmds, reason, inp, cfg, v);
            ChangeTimed(st, cmds, f, inp.now) && !IsChange(f.reason)
            && (f.Go? ==> f.cmds == cmds && f.st.pending == st.pending && f.st.mode == st.mode)
  {
    hide Stop, EnterAuto, Proportional, HeldStop;
    StopsNoLevel(st, inp.link && v.snap.Some?, inp.now, if inp.enabled then UserOff else Disabled);
    if v.snap.Some? && ValidReading(inp.reference, cfg) && LevelIn(cmds).None? {
      EnterAutoTimed(st, cmds, inp, cfg, v);
    }
  }

  lemma StoppingRuleTimed(st: St, cmds: seq<Cmd>, inp: Input, cfg: Settings, v: View)
    requires st.mode.Stopping? && st.stopSnap.Some? && ViewOk(v, inp, cfg) && LevelIn(cmds).None?
    ensures var f := StoppingRule(st, cmds, inp, cfg, v); ChangeTimed(st, cmds, f, inp.now) && !IsChange(f.reason)
  {
    hide Stop, Same, ViewOk;
    StopsNoLevel(st.(mode := Off, stopSnap := None, expected := Some(st.stopSnap.value.snap)), true, inp.now, st.stopSnap.value.why);
  }

  lemma BatteryRuleTimed(st: St, cmds: seq<Cmd>, reason: Option<Reason>, inp: Input, cfg: Settings, v: View)
    requires st.expected.Some? && !IsChange(reason)
    ensures RuleTimed(st, cmds, BatteryRule(st, cmds, reason, inp, cfg, v), inp, cfg, v)
  {
    hide Stop;
    StopsNoLevel(st.(battLowSince := Some(st.battLowSince.GetOr(inp.now))), inp.link, inp.now, CauseBatteryLow);
  }

  lemma GuardRulesTimed(st: St, cmds: seq<Cmd>, reason: Option<Reason>, inp: Input, cfg: Settings, v: View)
    requires IsOn(st) && st.expected.Some? && ViewOk(v, inp, cfg) && !IsChange(reason)
    ensures RuleTimed(st, cmds, GuardRules(st, cmds, reason, inp, cfg, v), inp, cfg, v)
  {
    hide Stop, BatteryRule, Same, ViewOk, LevelOf;
    StopsNoLevel(st, inp.link, inp.now, CauseBatteryLow);
    var st1 := if st.pending.None? && IsHeating(v.hs) && st.expected.value.level.None?
               then st.(expected := Some(st.expected.value.(level := v.level))) else st;
    BatteryRuleTimed(st1, cmds, reason, inp, cfg, v);
  }

  lemma ReferenceRuleTimed(st: St, cmds: seq<Cmd>, reason: Option<Reason>, inp: Input, cfg: Settings, v: View)
    requires IsOn(st) && st.expected.Some? && !IsChange(reason) && (cmds != [] ==> st.pending.Some?)
    ensures var f := ReferenceRule(st, cmds, reason, inp, cfg, v);
            RuleTimed(st, cmds, f, inp, cfg, v) && (f.Go? ==> f.st == st)
  {
    hide SendLevel, Proportional;
    SendLevelTimed(st.(mode := Degraded), cfg.minLevel, st.ctl, v.level, inp.now);
  }

  lemma ControlRuleTimed(st: St, cmds: seq<Cmd>, reason: Option<Reason>, inp: Input, cfg: Settings, v: View)
    requires IsOn(st) && st.expected.Some? && st.lastCtl.Some? && !IsChange(reason) && (cmds != [] ==> st.pending.Some?)
    requires ValidReading(ActiveReading(st, inp), cfg) && LevelsOk(cfg)
    ensures RuleTimed(st, cmds, ControlRule(st, cmds, reason, inp, cfg, v), inp, cfg, v)
  {
    hide ApplyControl, ControlStep, LevelOf;
    if st.pending.None? && !(inp.now - st.lastCtl.value < cfg.periodMs) {
      var s := Sample(ActiveReading(st, inp).value.val.value, v.tOut, inp.target, inp.now - st.lastCtl.value, v.level, inp.now);
      var c := ControlStep(s.tRef, s.tOut, s.target, s.dt, st.ctl, cfg, s.level, s.now);
      if v.level.Some? && Changes(c) {
        forall u0 | v.level.value == LevelOf(u0, cfg)
          ensures Abs(c.ctl.u - u0) >= cfg.hyst
        {
          ChangeNeedsMovement(s, st.ctl, cfg, v.level.value, u0);
        }
        ChangeNeedsMovement(s, st.ctl, cfg, v.level.value, 0);
      }
      ControlShape(s, st.ctl, cfg);
      ApplyControlTimed(st, c, inp, cfg, v);
    }
  }

  /** The law keeps the time of the last change unless it changes the level, which it then gives. */
  predicate ControlShaped(ctl: Ctl, c: Control) {
    && (c.reason.Overheat? || c.reason.TargetExceeded? || c.reason.Hold? || Changes(c))
    && (c.level.Some? <==> Changes(c))
    && (c.level.None? ==> c.ctl.lastChange == ctl.lastChange)
  }

  lemma ControlShape(s: Sample, ctl: Ctl, cfg: Settings)
    ensures ControlShaped(ctl, ControlStep(s.tRef, s.tOut, s.target, s.dt, ctl, cfg, s.level, s.now))
  {
    hide Integrate, RDiv, LevelOf;
  }

  lemma ApplyControlTimed(st: St, c: Control, inp: Input, cfg: Settings, v: View)
    requires st.expected.Some? && ControlShaped(st.ctl, c)
    requires v.level.Some? && Changes(c) ==>
               && inp.now - st.ctl.lastChange >= cfg.minDwellMs && c.level != v.level
               && forall u0 :: v.level.value == LevelOf(u0, cfg) ==> Abs(c.ctl.u - u0) >= cfg.hyst
    ensures RuleTimed(st, [], ApplyControl(st, c, [], inp, cfg, v), inp, cfg, v)
  {
    hide Stop, SendLevel, LevelOf;
    var st1 := st.(ctl := c.ctl, lastCtl := Some(inp.now));
    StopsNoLevel(st1, inp.link, inp.now, if c.reason.Overheat? then CauseOverheat else CauseTargetExceeded);
    SendLevelTimed(st1, cfg.minLevel, c.ctl, v.level, inp.now);
    if c.level.Some? {
      SendLevelTimed(st1, c.level.value, c.ctl, v.level, inp.now);
    }
  }

  lemma OnRulesTimed(st: St, cmds: seq<Cmd>, reason: Option<Reason>, inp: Input, cfg: Settings, v: View)
    requires IsOn(st) && st.expected.Some? && st.lastCtl.Some? && ViewOk(v, inp, cfg) && !IsChange(reason)
    requires (cmds != [] ==> st.pending.Some?) && LevelsOk(cfg)
    ensures var f := OnRules(st, cmds, reason, inp, cfg, v);
            ChangeTimed(st, cmds, f, inp.now) && ChangeEarned(st, f, inp, cfg, v)
  {
    hide GuardRules, ReferenceRule, ControlRule, ViewOk, LevelOf;
    GuardRulesTimed(st, cmds, reason, inp, cfg, v);
    var f3 := GuardRules(st, cmds, reason, inp, cfg, v);
    if f3.Go? {
      GuardsKeepOn(st, cmds, reason, inp, cfg, v);
      ReferenceRuleTimed(f3.st, f3.cmds, f3.reason, inp, cfg, v);
      var f7 := ReferenceRule(f3.st, f3.cmds, f3.reason, inp, cfg, v);
      if f7.Go? {
        ReferenceGoValid(f3.st, f3.cmds, f3.reason, inp, cfg, v);
        ControlRuleTimed(f7.st, f7.cmds, f7.reason, inp, cfg, v);
      }
    }
  }

  lemma LaterRulesTimed(st: St, cmds: seq<Cmd>, reason: Option<Reason>, inp: Input, cfg: Settings, v: View)
    requires WellFormed(st) && !st.mode.Waiting? && ViewOk(v, inp, cfg) && !IsChange(reason) && LevelsOk(cfg)
    requires (cmds != [] ==> st.pending.Some?) && (!IsOn(st) ==> LevelIn(cmds).None?)
    ensures var f := LaterRules(st, cmds, reason, inp, cfg, v);
            ChangeTimed(st, cmds, f, inp.now) && ChangeEarned(st, f, inp, cfg, v)
  {
    hide OwnerRule, StoppingRule, OnRules, ViewOk, LevelOf;
    OwnerRuleTimed(st, cmds, reason, inp, cfg, v);
    var f2 := OwnerRule(st, cmds, reason, inp, cfg, v);
    if f2.Go? {
      OwnerGoSound(st, cmds, reason, inp, cfg, v);
      if f2.st.mode.Stopping? {
        StoppingRuleTimed(f2.st, f2.cmds, inp, cfg, v);
      } else if IsOn(f2.st) {
        OnRulesTimed(f2.st, f2.cmds, f2.reason, inp, cfg, v);
      }
    }
  }

  // ----- The step and the run ------------------------------------------------------------------

  /** The step sends a level that is no re-send of the pending command. */
  predicate FreshLevel(st: St, inp: Input, cfg: Settings)
    requires WellFormed(st)
  {
    LevelIn(Step(inp, cfg, st).1.cmds).Some? && LevelIn(FirstRule(st, inp, cfg, ViewOf(inp, cfg)).cmds).None?
  }

  ghost predicate StepTimed(st: St, inp: Input, cfg: Settings, st': St, out: Out, sent: bool) {
    && st'.ctl.lastChange == (if sent then inp.now else st.ctl.lastChange)
    && (IsChange(out.reason) && ViewOf(inp, cfg).level.Some? ==>
          && inp.now - st.ctl.lastChange >= cfg.minDwellMs
          && LevelIn(out.cmds).Some?
          && forall u0 :: ViewOf(inp, cfg).level.value == LevelOf(u0, cfg) ==> Abs(st'.ctl.u - u0) >= cfg.hyst)
  }

  lemma StepIsTimed(st: St, inp: Input, cfg: Settings)
    requires WellFormed(st) && Ranged(st, cfg) && SettingsOk(cfg)
    ensures StepTimed(st, inp, cfg, Step(inp, cfg, st).0, Step(inp, cfg, st).1, FreshLevel(st, inp, cfg))
  {
    hide FirstRule, WaitingRule, LaterRules, ViewOf, LevelOf;
    var v := ViewOf(inp, cfg);
    FirstRuleTimed(st, inp, cfg);
    FirstRuleOk(st, inp, cfg, v);
    var f1 := FirstRule(st, inp, cfg, v);
    if f1.Go? {
      if f1.st.mode.Waiting? {
        WaitingRuleTimed(f1.st, inp, cfg, v);
      } else {
        LaterRulesTimed(f1.st, f1.cmds, f1.reason, inp, cfg, v);
      }
    }
  }

  predicate TimeForward(ins: seq<Input>) {
    forall i, j :: 0 <= i <= j < |ins| ==> ins[i].now <= ins[j].now
  }

  predicate FreshAt(ins: seq<Input>, cfg: Settings, k: nat)
    requires k < |ins| && SettingsOk(cfg)
  {
    FreshLevel(StateAt(ins, cfg, k), ins[k], cfg)
  }

  lemma TimedAt(ins: seq<Input>, cfg: Settings, k: nat)
    requires k < |ins| && SettingsOk(cfg)
    ensures StepTimed(StateAt(ins, cfg, k), ins[k], cfg, StateAt(ins, cfg, k + 1), OutAt(ins, cfg, k), FreshAt(ins, cfg, k))
  {
    hide Step, FreshLevel;
    StepIsTimed(StateAt(ins, cfg, k), ins[k], cfg);
  }

  /** The session remembers a time no earlier than that of any fresh level command before. */
  lemma {:induction false} LastChangeCovers(ins: seq<Input>, cfg: Settings, j: nat, k: nat)
    requires j < k <= |ins| && SettingsOk(cfg) && TimeForward(ins) && FreshAt(ins, cfg, j)
    ensures StateAt(ins, cfg, k).ctl.lastChange >= ins[j].now
    decreases k
  {
    hide StateAt, OutAt, FreshAt, ViewOf, LevelOf;
    TimedAt(ins, cfg, k - 1);
    if j < k - 1 {
      LastChangeCovers(ins, cfg, j, k - 1);
    }
  }

  /** Each LEVEL_UP or LEVEL_DOWN at a known level comes at least the dwell after every earlier fresh
      level command of any rule; and if the heater took such a level that was the controller's
      answer to its demand then, the demand has moved by at least the hysteresis since. */
  lemma NoChatter(ins: seq<Input>, cfg: Settings, j: nat, k: nat)
    requires j < k < |ins| && SettingsOk(cfg) && TimeForward(ins) && FreshAt(ins, cfg, j)
    requires IsChange(OutAt(ins, cfg, k).reason) && ViewOf(ins[k], cfg).level.Some?
    ensures ins[k].now - ins[j].now >= cfg.minDwellMs
    ensures var u0 := StateAt(ins, cfg, j + 1).ctl.u;
            LevelIn(OutAt(ins, cfg, j).cmds) == ViewOf(ins[k], cfg).level == Some(LevelOf(u0, cfg))
            ==> Abs(StateAt(ins, cfg, k + 1).ctl.u - u0) >= cfg.hyst
  {
    hide StateAt, OutAt, FreshAt, ViewOf, LevelOf;
    LastChangeCovers(ins, cfg, j, k);
    TimedAt(ins, cfg, k);
  }
}

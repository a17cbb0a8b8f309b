/** What every step of the thermostat session keeps: the reachable-state invariant and the
    conditions under which a command may leave. */
module ThermostatRuns {
  import opened Common
  import opened Thermostat

  // ----- Invariant and command conditions ------------------------------------------------------

  predicate Usable(level: int, cfg: Settings) {
    cfg.minLevel <= level <= 10
  }

  predicate SettingsOk(cfg: Settings) {
    LevelsOk(cfg) && cfg.heaterStaleMs >= 0
  }

  /** Pending levels and the level expected from a start are usable ones. */
  predicate Ranged(st: St, cfg: Settings) {
    st.pending.Some? ==>
      && (st.pending.value.cmd.Level? ==> Usable(st.pending.value.cmd.level, cfg))
      && (st.pending.value.cmd.PowerOn? && st.expected.Some? && st.expected.value.level.Some?
          ==> Usable(st.expected.value.level.value, cfg))
  }

  predicate Valid(st: St, cfg: Settings) {
    Sound(st) && NightSound(st) && Ranged(st, cfg)
  }

  /** The owner's entry conditions that a power-on needs. */
  predicate EntryHolds(inp: Input, cfg: Settings) {
    inp.enabled && (inp.camping || inp.shore) && inp.ignition == Some(false) && ValidReading(inp.reference, cfg)
  }

  predicate Live(inp: Input, v: View) {
    inp.link && v.snap.Some? && !IsFault(v.hs)
  }

  predicate SafeCmd(c: Cmd, inp: Input, cfg: Settings, v: View) {
    match c
    case PowerOff => true
    case PermanentOff => true
    case Runtime(_) => Live(inp, v)
    case Level(l) => Live(inp, v) && Usable(l, cfg)
    case PowerOn => Live(inp, v) && EntryHolds(inp, cfg)
  }

  predicate Safe(cmds: seq<Cmd>, inp: Input, cfg: Settings, v: View) {
    forall c :: c in cmds ==> SafeCmd(c, inp, cfg, v)
  }

  /** A command re-sent for the pending one. */
  predicate ResentCmd(c: Cmd, p: Pending, inp: Input, cfg: Settings) {
    && (IsStop(c) <==> IsStop(p.cmd))
    && (c.Level? ==> Usable(c.level, cfg))
    && (c.PowerOn? ==> p.cmd.PowerOn? && EntryHolds(inp, cfg) && inp.now - p.first <= cfg.heaterStaleMs)
  }

  /** The commands waiting to leave while the later rules still run: re-sends of the pending one. */
  predicate Queued(st: St, cmds: seq<Cmd>, inp: Input, cfg: Settings, v: View) {
    cmds != [] ==>
      && st.pending.Some? && inp.link && !IsFault(v.hs)
      && forall c :: c in cmds ==> ResentCmd(c, st.pending.value, inp, cfg)
  }

  predicate StartPending(st: St) {
    st.pending.Some? && st.pending.value.cmd.PowerOn?
  }

  /** A pending power-on is the one that was pending before. */
  predicate StartKept(st: St, st': St) {
    StartPending(st') ==> StartPending(st) && st.pending.value.first == st'.pending.value.first
  }

  /** A power-on leaves only while it is pending, soon after its first send. */
  predicate StartTimely(st: St, cmds: seq<Cmd>, inp: Input, cfg: Settings) {
    PowerOn in cmds ==> StartPending(st) && inp.now - st.pending.value.first <= cfg.heaterStaleMs
  }

  /** What a rule guarantees: the invariant, and of its commands what their place in the step asks. */
  predicate RuleOk(st: St, f: Flow, inp: Input, cfg: Settings, v: View) {
    && Valid(f.st, cfg)
    && StartKept(st, f.st)
    && (f.Done? ==> Safe(f.cmds, inp, cfg, v) && StartTimely(f.st, f.cmds, inp, cfg))
    && (f.Go? ==> Queued(f.st, f.cmds, inp, cfg, v) && f.st.mode == st.mode)
  }

  // ----- The helpers ---------------------------------------------------------------------------

  lemma StopKeeps(st: St, canSend: bool, now: int, why: Cause, cfg: Settings)
    requires st.stopSnap.None? && NightSound(st)
    ensures var (s, cmds) := Stop(st, canSend, now, why);
            Valid(s, cfg) && (s.mode.Off? || s.mode.Stopping?) && !StartPending(s) && forall c :: c in cmds ==> IsStop(c)
  {
  }

  lemma StartLevelUsable(c: Control, u: int, cfg: Settings)
    requires LevelsOk(cfg) && (c.level.Some? ==> c.level.value == LevelOf(u, cfg))
    ensures Usable(StartLevel(c, cfg), cfg)
  {
  }

  lemma ControlLevelUsable(tRef: int, tOut: Option<int>, target: int, dt: int, ctl: Ctl, cfg: Settings, curLevel: Option<int>, now: int)
    requires LevelsOk(cfg)
    ensures var c := ControlStep(tRef, tOut, target, dt, ctl, cfg, curLevel, now);
            (c.level.Some? ==> Usable(c.level.value, cfg)) && Usable(StartLevel(c, cfg), cfg)
  {
    var (_, u) := Integrate(tRef, tOut, target, dt, ctl, cfg, curLevel);
    StartLevelUsable(ControlStep(tRef, tOut, target, dt, ctl, cfg, curLevel, now), u, cfg);
  }

  lemma SendLevelKeeps(st: St, lvl: int, ctl: Ctl, before: Option<int>, inp: Input, cfg: Settings, v: View)
    requires st.expected.Some? && st.stopSnap.None? && NightSound(st) && Usable(lvl, cfg) && Live(inp, v)
    requires (IsOn(st) && st.lastCtl.Some?) || st.mode.Waiting?
    ensures var (s, cmds) := SendLevel(st, lvl, ctl, before, inp.now);
            Valid(s, cfg) && Safe(cmds, inp, cfg, v) && s.mode == st.mode && s.lastCtl == st.lastCtl && !StartPending(s) && PowerOn !in cmds
  {
  }

  lemma TakeoverKeeps(st: St, snap: Snap, tRef: Option<int>, inp: Input, cfg: Settings, v: View)
    requires st.stopSnap.None? && NightSound(st) && (st.mode.Auto? || st.mode.Waiting?) && LevelsOk(cfg)
    requires v.snap.Some? && !IsFault(v.hs)
    ensures var (s, cmds) := Takeover(st, snap, v.level, tRef, v.tOut, inp, cfg);
            Valid(s, cfg) && Safe(cmds, inp, cfg, v) && s.mode == st.mode && !StartPending(s) && PowerOn !in cmds
  {
    var base := TakeoverBase(st, snap, inp.now);
    if tRef.Some? {
      ControlLevelUsable(tRef.value, v.tOut, inp.target, 0, base.ctl, cfg, None, inp.now);
      var c := ControlStep(tRef.value, v.tOut, inp.target, 0, base.ctl, cfg, None, inp.now);
      if inp.link {
        SendLevelKeeps(base, StartLevel(c, cfg), c.ctl, v.level, inp, cfg, v);
      }
    }
  }

  // ----- The rules -----------------------------------------------------------------------------

  lemma RetryRuleOk(st: St, inp: Input, cfg: Settings, v: View)
    requires WellFormed(st) && Ranged(st, cfg) && st.pending.Some? && !st.mode.Waiting?
    requires v.snap.Some? && inp.link && !IsFault(v.hs)
    ensures RuleOk(st, RetryRule(st, inp, cfg, v), inp, cfg, v)
  {
  }

  lemma PendingRuleOk(st: St, inp: Input, cfg: Settings, v: View)
    requires WellFormed(st) && Ranged(st, cfg) && st.pending.Some? && !st.mode.Waiting? && ViewOk(v, inp, cfg)
    ensures RuleOk(st, PendingRule(st, inp, cfg, v), inp, cfg, v)
  {
    hide RetryRule;
    if v.snap.Some? && inp.link && !IsFault(v.hs) {
      RetryRuleOk(st, inp, cfg, v);
    }
  }

  lemma FirstRuleOk(st: St, inp: Input, cfg: Settings, v: View)
    requires WellFormed(st) && Ranged(st, cfg) && ViewOk(v, inp, cfg)
    ensures var f := FirstRule(st, inp, cfg, v);
            RuleOk(st, f, inp, cfg, v) && (f.Go? ==> WellFormed(f.st)) && (f.Go? && st.mode.Waiting? ==> f.cmds == [])
  {
    if !st.mode.Waiting? && st.pending.Some? {
      PendingRuleOk(st, inp, cfg, v);
    }
  }

  lemma ContinuousRuleOk(st: St, inp: Input, cfg: Settings, v: View)
    requires Valid(st, cfg) && st.mode.Waiting? && v.hs.Continuous? && ViewOk(v, inp, cfg) && LevelsOk(cfg)
    ensures RuleOk(st, ContinuousRule(st, inp, cfg, v), inp, cfg, v)
  {
    if !(st.contSince.None? && inp.now >= st.waitUntil.value) {
      var s1 := st.(contSince := Some(st.contSince.GetOr(inp.now)), mode := Auto);
      TakeoverKeeps(s1, v.snap.value, if ValidReading(inp.reference, cfg) then inp.reference.value.val else None, inp, cfg, v);
    }
  }

  lemma WaitingRuleOk(st: St, inp: Input, cfg: Settings, v: View)
    requires Valid(st, cfg) && st.mode.Waiting? && ViewOk(v, inp, cfg) && LevelsOk(cfg)
    ensures RuleOk(st, WaitingRule(st, inp, cfg, v), inp, cfg, v)
  {
    var s := if v.snap.Some? then st.(expected := v.snap) else st;
    if inp.request.RequestOff? || !inp.enabled {
      StopKeeps(s, inp.link && v.snap.Some?, inp.now, if inp.enabled then UserOff else Disabled, cfg);
    } else if v.hs.Continuous? {
      ContinuousRuleOk(s, inp, cfg, v);
    }
  }

  lemma EnterAutoOk(st: St, cmds: seq<Cmd>, inp: Input, cfg: Settings, v: View)
    requires WellFormed(st) && Ranged(st, cfg) && !IsOn(st) && !st.mode.Waiting?
    requires Queued(st, cmds, inp, cfg, v) && ViewOk(v, inp, cfg) && SettingsOk(cfg) && Refusal(inp, cfg, v).None?
    ensures var f := EnterAuto(st, cmds, inp, cfg, v);
            f.Done? && Valid(f.st, cfg) && Safe(f.cmds, inp, cfg, v) && StartTimely(f.st, f.cmds, inp, cfg)
            && (StartPending(f.st) ==> f.st.pending.value.first == inp.now)
  {
    hide ControlStep, Takeover;
    var tRef := inp.reference.value.val.value;
    var s := st.(mode := Auto, active := UseReference, pending := None, battLowSince := None,
                 stopSnap := None, lastCtl := Some(inp.now), night := inp.night);
    var w := s.(mode := Waiting, waitUntil := Some(inp.now + cfg.nightWaitMs), contSince := None, expected := v.snap);
    ControlLevelUsable(tRef, v.tOut, inp.target, 0, Ctl(0, inp.now, None, 0, Some(0)), cfg, None, inp.now);
    TakeoverKeeps(if inp.night && !v.hs.Continuous? then w else s, v.snap.value, Some(tRef), inp, cfg, v);
  }

  /** With only a stop pending, what is queued is safe whatever the heater shows. */
  lemma QueuedStopsSafe(st: St, cmds: seq<Cmd>, inp: Input, cfg: Settings, v: View)
    requires Sound(st) && Queued(st, cmds, inp, cfg, v) && (st.mode.Off? || st.mode.Stopping? || v.snap.Some?)
    ensures Safe(cmds, inp, cfg, v) && StartTimely(st, cmds, inp, cfg)
  {
  }

  /** A session that is on accepts no new start: a power-on pending after rule 2 was pending before. */
  lemma OwnerRuleOk(st: St, cmds: seq<Cmd>, reason: Option<Reason>, inp: Input, cfg: Settings, v: View)
    requires WellFormed(st) && Ranged(st, cfg) && !st.mode.Waiting?
    requires Queued(st, cmds, inp, cfg, v) && ViewOk(v, inp, cfg) && SettingsOk(cfg)
    ensures var f := OwnerRule(st, cmds, reason, inp, cfg, v);
            && RuleOk(if StartAccepted(st, inp, cfg, v) then f.st else st, f, inp, cfg, v)
            && (f.Go? ==> WellFormed(f.st))
            && (StartAccepted(st, inp, cfg, v) && StartPending(f.st) ==> f.st.pending.value.first == inp.now)
  {
    hide Stop, EnterAuto, Proportional;
    if IsOn(st) {
      StopKeeps(st, inp.link && v.snap.Some?, inp.now, if inp.enabled then UserOff else Disabled, cfg);
    } else {
      QueuedStopsSafe(st, cmds, inp, cfg, v);
      if StartAccepted(st, inp, cfg, v) {
        EnterAutoOk(st, cmds, inp, cfg, v);
      }
    }
  }

  /** An owner AUTO request that starts the session: not on, no safety stop held, no entry check failed. */
  predicate StartAccepted(st: St, inp: Input, cfg: Settings, v: View) {
    && inp.request.RequestAuto? && !IsOn(st)
    && (HeldStop(st).Some? ==> HeldStop(st).value == UserOff)
    && Refusal(inp, cfg, v).None?
  }

  lemma OwnerGoSound(st: St, cmds: seq<Cmd>, reason: Option<Reason>, inp: Input, cfg: Settings, v: View)
    requires WellFormed(st) && !st.mode.Waiting? && ViewOk(v, inp, cfg)
    ensures var f := OwnerRule(st, cmds, reason, inp, cfg, v); f.Go? ==> WellFormed(f.st)
  {
    hide ControlStep, Takeover, Stop, Proportional, Refusal;
  }

  lemma GuardsKeepOn(st: St, cmds: seq<Cmd>, reason: Option<Reason>, inp: Input, cfg: Settings, v: View)
    requires IsOn(st) && st.expected.Some? && st.lastCtl.Some? && ViewOk(v, inp, cfg)
    ensures var f := GuardRules(st, cmds, reason, inp, cfg, v);
            f.Go? ==> IsOn(f.st) && f.st.expected.Some? && f.st.lastCtl.Some?
  {
    hide Stop, Same, ViewOk;
  }

  lemma ReferenceGoValid(st: St, cmds: seq<Cmd>, reason: Option<Reason>, inp: Input, cfg: Settings, v: View)
    requires IsOn(st) && st.expected.Some?
    ensures var f := ReferenceRule(st, cmds, reason, inp, cfg, v); f.Go? ==> f.st == st && ValidReading(ActiveReading(st, inp), cfg)
  {
    hide Resume, SendLevel;
  }

  lemma FirstGoSound(st: St, inp: Input, cfg: Settings, v: View)
    requires WellFormed(st) && ViewOk(v, inp, cfg)
    ensures var f := FirstRule(st, inp, cfg, v); f.Go? ==> WellFormed(f.st) && f.st.mode == st.mode
  {
    hide Resend, Same, ViewOk;
  }

  lemma StoppingRuleOk(st: St, cmds: seq<Cmd>, inp: Input, cfg: Settings, v: View)
    requires WellFormed(st) && st.mode.Stopping? && Queued(st, cmds, inp, cfg, v) && ViewOk(v, inp, cfg)
    ensures RuleOk(st, StoppingRule(st, cmds, inp, cfg, v), inp, cfg, v) && StoppingRule(st, cmds, inp, cfg, v).Done?
  {
    QueuedStopsSafe(st, cmds, inp, cfg, v);
    StopKeeps(st.(mode := Off, stopSnap := None, expected := Some(st.stopSnap.value.snap)), true, inp.now, st.stopSnap.value.why, cfg);
  }

  lemma BatteryRuleOk(st: St, cmds: seq<Cmd>, reason: Option<Reason>, inp: Input, cfg: Settings, v: View)
    requires Valid(st, cfg) && IsOn(st) && Queued(st, cmds, inp, cfg, v) && v.snap.Some?
    ensures var f := BatteryRule(st, cmds, reason, inp, cfg, v);
            RuleOk(st, f, inp, cfg, v)
  {
    StopKeeps(st.(battLowSince := Some(st.battLowSince.GetOr(inp.now))), inp.link, inp.now, CauseBatteryLow, cfg);
  }

  lemma GuardRulesOk(st: St, cmds: seq<Cmd>, reason: Option<Reason>, inp: Input, cfg: Settings, v: View)
    requires Valid(st, cfg) && IsOn(st) && Queued(st, cmds, inp, cfg, v) && ViewOk(v, inp, cfg)
    ensures var f := GuardRules(st, cmds, reason, inp, cfg, v);
            RuleOk(st, f, inp, cfg, v) && (f.Go? ==> Live'(v))
  {
    hide Stop, BatteryRule, Same;
    StopKeeps(st, inp.link, inp.now, CauseBatteryLow, cfg);
    if v.snap.Some? && !IsFault(v.hs) {
      var st1 := if st.pending.None? && IsHeating(v.hs) && st.expected.value.level.None?
                 then st.(expected := Some(st.expected.value.(level := v.level))) else st;
      BatteryRuleOk(st1, cmds, reason, inp, cfg, v);
    }
  }

  /** A fresh, fault-free heater. */
  predicate Live'(v: View) {
    v.snap.Some? && !IsFault(v.hs)
  }

  lemma ResumeKeeps(st: St, sensor: Sensor, r: Reading, inp: Input, cfg: Settings, v: View)
    requires Valid(st, cfg) && IsOn(st) && r.val.Some?
    ensures var s := Resume(st, sensor, r, inp, cfg, v);
            Valid(s, cfg) && s.mode.Auto? && s.pending == st.pending && s.ctl.lastChange == st.ctl.lastChange
  {
  }

  lemma LostReferenceRuleOk(st: St, cmds: seq<Cmd>, inp: Input, cfg: Settings, v: View)
    requires Valid(st, cfg) && IsOn(st) && Queued(st, cmds, inp, cfg, v) && Live'(v) && LevelsOk(cfg)
    ensures RuleOk(st, LostReferenceRule(st, cmds, inp, cfg, v), inp, cfg, v)
  {
    QueuedStopsSafe(st, cmds, inp, cfg, v);
    if st.active.UseReference? && ValidReading(inp.backup, cfg) {
      ResumeKeeps(st, UseBackup, inp.backup.value, inp, cfg, v);
    } else if st.active.UseBackup? && ValidReading(inp.reference, cfg) {
      ResumeKeeps(st, UseReference, inp.reference.value, inp, cfg, v);
    } else if inp.link && st.pending.None? {
      SendLevelKeeps(st.(mode := Degraded), cfg.minLevel, st.ctl, v.level, inp, cfg, v);
    }
  }

  lemma ReferenceRuleOk(st: St, cmds: seq<Cmd>, reason: Option<Reason>, inp: Input, cfg: Settings, v: View)
    requires Valid(st, cfg) && IsOn(st) && Queued(st, cmds, inp, cfg, v) && Live'(v) && LevelsOk(cfg)
    ensures var f := ReferenceRule(st, cmds, reason, inp, cfg, v);
            RuleOk(st, f, inp, cfg, v) && (f.Go? ==> f.st == st)
  {
    if !ValidReading(ActiveReading(st, inp), cfg) {
      LostReferenceRuleOk(st, cmds, inp, cfg, v);
    } else {
      QueuedStopsSafe(st, cmds, inp, cfg, v);
      ResumeKeeps(st, st.active, ActiveReading(st, inp).value, inp, cfg, v);
    }
  }

  lemma ApplyControlOk(st: St, c: Control, cmds: seq<Cmd>, inp: Input, cfg: Settings, v: View)
    requires Valid(st, cfg) && IsOn(st) && st.pending.None? && cmds == [] && Live'(v) && LevelsOk(cfg)
    requires c.level.Some? ==> Usable(c.level.value, cfg)
    ensures RuleOk(st, ApplyControl(st, c, cmds, inp, cfg, v), inp, cfg, v)
  {
    var st1 := st.(ctl := c.ctl, lastCtl := Some(inp.now));
    StopKeeps(st1, inp.link, inp.now, if c.reason.Overheat? then CauseOverheat else CauseTargetExceeded, cfg);
    if inp.link {
      SendLevelKeeps(st1, cfg.minLevel, c.ctl, v.level, inp, cfg, v);
      if c.level.Some? {
        SendLevelKeeps(st1, c.level.value, c.ctl, v.level, inp, cfg, v);
      }
    }
  }

  lemma OnRulesOk(st: St, cmds: seq<Cmd>, reason: Option<Reason>, inp: Input, cfg: Settings, v: View)
    requires Valid(st, cfg) && IsOn(st) && Queued(st, cmds, inp, cfg, v) && ViewOk(v, inp, cfg) && LevelsOk(cfg)
    ensures RuleOk(st, OnRules(st, cmds, reason, inp, cfg, v), inp, cfg, v) && OnRules(st, cmds, reason, inp, cfg, v).Done?
  {
    GuardRulesOk(st, cmds, reason, inp, cfg, v);
    var f3 := GuardRules(st, cmds, reason, inp, cfg, v);
    if f3.Go? {
      ReferenceRuleOk(f3.st, f3.cmds, f3.reason, inp, cfg, v);
      var f7 := ReferenceRule(f3.st, f3.cmds, f3.reason, inp, cfg, v);
      if f7.Go? {
        ControlRuleOk(f7.st, f7.cmds, f7.reason, inp, cfg, v);
      }
    }
  }

  lemma ControlRuleOk(st: St, cmds: seq<Cmd>, reason: Option<Reason>, inp: Input, cfg: Settings, v: View)
    requires Valid(st, cfg) && IsOn(st) && Queued(st, cmds, inp, cfg, v) && Live'(v) && LevelsOk(cfg)
    requires ValidReading(ActiveReading(st, inp), cfg)
    ensures RuleOk(st, ControlRule(st, cmds, reason, inp, cfg, v), inp, cfg, v)
  {
    if st.pending.Some? || inp.now - st.lastCtl.value < cfg.periodMs {
      QueuedStopsSafe(st, cmds, inp, cfg, v);
    } else {
      var tRef, dt := ActiveReading(st, inp).value.val.value, inp.now - st.lastCtl.value;
      var c := ControlStep(tRef, v.tOut, inp.target, dt, st.ctl, cfg, v.level, inp.now);
      ControlLevelUsable(tRef, v.tOut, inp.target, dt, st.ctl, cfg, v.level, inp.now);
      ApplyControlOk(st, c, cmds, inp, cfg, v);
      assert ControlRule(st, cmds, reason, inp, cfg, v) == ApplyControl(st, c, cmds, inp, cfg, v);
    }
  }

  // ----- The whole step ------------------------------------------------------------------------

  /** This step accepts an owner AUTO request. */
  predicate AcceptedHere(st: St, inp: Input, cfg: Settings)
    requires WellFormed(st)
  {
    var v := ViewOf(inp, cfg);
    var f1 := FirstRule(st, inp, cfg, v);
    f1.Go? && !f1.st.mode.Waiting? && StartAccepted(f1.st, inp, cfg, v)
  }

  /** A power-on pending after a step was pending before it, or the step accepted the owner's request. */
  predicate StartExplained(st: St, st': St, inp: Input, cfg: Settings)
    requires WellFormed(st)
  {
    StartPending(st') ==>
      || (StartPending(st) && st.pending.value.first == st'.pending.value.first)
      || (AcceptedHere(st, inp, cfg) && st'.pending.value.first == inp.now)
  }

  lemma LaterRulesOk(st: St, cmds: seq<Cmd>, reason: Option<Reason>, inp: Input, cfg: Settings, v: View)
    requires WellFormed(st) && Ranged(st, cfg) && !st.mode.Waiting?
    requires Queued(st, cmds, inp, cfg, v) && ViewOk(v, inp, cfg) && SettingsOk(cfg)
    ensures var f := LaterRules(st, cmds, reason, inp, cfg, v);
            && Valid(f.st, cfg) && Safe(f.cmds, inp, cfg, v) && StartTimely(f.st, f.cmds, inp, cfg)
            && (StartPending(f.st) ==> StartKept(st, f.st) || (StartAccepted(st, inp, cfg, v) && f.st.pending.value.first == inp.now))
  {
    hide OwnerRule, StoppingRule, OnRules;
    OwnerRuleOk(st, cmds, reason, inp, cfg, v);
    var f2 := OwnerRule(st, cmds, reason, inp, cfg, v);
    if f2.Go? {
      if f2.st.mode.Stopping? {
        StoppingRuleOk(f2.st, f2.cmds, inp, cfg, v);
      } else if IsOn(f2.st) {
        OnRulesOk(f2.st, f2.cmds, f2.reason, inp, cfg, v);
      } else {
        QueuedStopsSafe(f2.st, f2.cmds, inp, cfg, v);
      }
    }
  }

  lemma StepFlowOk(inp: Input, cfg: Settings, st: St)
    requires WellFormed(st) && Ranged(st, cfg) && SettingsOk(cfg)
    ensures var f := StepFlow(inp, cfg, st);
            && Valid(f.st, cfg) && Safe(f.cmds, inp, cfg, ViewOf(inp, cfg)) && StartTimely(f.st, f.cmds, inp, cfg)
            && StartExplained(st, f.st, inp, cfg)
  {
    var v := ViewOf(inp, cfg);
    FirstRuleOk(st, inp, cfg, v);
    var f1 := FirstRule(st, inp, cfg, v);
    if f1.Go? {
      if f1.st.mode.Waiting? {
        WaitingRuleOk(f1.st, inp, cfg, v);
      } else {
        LaterRulesOk(f1.st, f1.cmds, f1.reason, inp, cfg, v);
      }
    }
  }

  lemma FinishKeeps(f: Flow, cfg: Settings)
    requires Valid(f.st, cfg)
    ensures WellFormed(Finish(f).0) && Ranged(Finish(f).0, cfg)
  {
  }

  /** One step from any well-formed session: the invariant again, only safe commands, a power-on only
      while its start is pending and recent, and a pending start only from an accepted request. */
  lemma StepOk(inp: Input, cfg: Settings, st: St)
    requires WellFormed(st) && Ranged(st, cfg) && SettingsOk(cfg)
    ensures var (st', out) := Step(inp, cfg, st);
            && WellFormed(st') && Ranged(st', cfg)
            && Safe(out.cmds, inp, cfg, ViewOf(inp, cfg)) && StartTimely(st', out.cmds, inp, cfg)
            && StartExplained(st, st', inp, cfg)
  {
    hide StepFlow, Safe, AcceptedHere;
    StepFlowOk(inp, cfg, st);
    FinishKeeps(StepFlow(inp, cfg, st), cfg);
  }
}

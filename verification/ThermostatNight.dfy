/** The night wait: bounded, honest about continuous heating, and silent but for stops. */
module ThermostatNight {
  import opened Common
  import opened Thermostat
  import opened ThermostatRuns
  import opened ThermostatSafety

  predicate IsAuto(st: St) {
    st.mode.Auto?
  }

  /** Staying in the wait is silent, and keeps the deadline and the first sight of continuous heating. */
  predicate WaitsOn(st: St, inp: Input, cfg: Settings, st': St, cmds: seq<Cmd>) {
    && cmds == []
    && st'.waitUntil == st.waitUntil
    && st'.contSince == (if ViewOf(inp, cfg).hs.Continuous? then Some(st.contSince.GetOr(inp.now)) else None)
  }

  /** Leaving it without an adoption sends at most a stop; an adoption needs continuous heating. */
  predicate WaitLeft(inp: Input, cfg: Settings, st': St, cmds: seq<Cmd>) {
    if IsAuto(st') then ViewOf(inp, cfg).hs.Continuous? && !inp.request.RequestOff? && inp.enabled
    else (st'.mode.Off? || st'.mode.Stopping?) && forall c :: c in cmds ==> IsStop(c)
  }

  predicate NightStep(st: St, inp: Input, cfg: Settings, st': St, cmds: seq<Cmd>) {
    if st'.mode.Waiting? then WaitsOn(st, inp, cfg, st', cmds) else WaitLeft(inp, cfg, st', cmds)
  }

  lemma StopIsWaitLeft(st: St, canSend: bool, why: Cause, inp: Input, cfg: Settings)
    ensures var (s, cmds) := Stop(st, canSend, inp.now, why); WaitLeft(inp, cfg, s, cmds)
  {
    hide ViewOf;
  }

  lemma WaitingRuleNight(st: St, inp: Input, cfg: Settings)
    requires WellFormed(st) && st.mode.Waiting?
    ensures var f := WaitingRule(st, inp, cfg, ViewOf(inp, cfg)); NightStep(st, inp, cfg, f.st, f.cmds)
  {
    hide ControlStep, ReadHeater;
    var v := ViewOf(inp, cfg);
    var s := if v.snap.Some? then st.(expected := v.snap) else st;
    if inp.request.RequestOff? || !inp.enabled {
      StopIsWaitLeft(s, inp.link && v.snap.Some?, if inp.enabled then UserOff else Disabled, inp, cfg);
    }
  }

  /** A step inside the wait goes on in silence or leaves; only the adoption sends more than stops. */
  lemma WaitingStep(st: St, inp: Input, cfg: Settings)
    requires WellFormed(st) && st.mode.Waiting?
    ensures var (st', out) := Step(inp, cfg, st); NightStep(st, inp, cfg, st', out.cmds)
  {
    hide WaitingRule, ViewOf;
    WaitingRuleNight(FirstRule(st, inp, cfg, ViewOf(inp, cfg)).st, inp, cfg);
  }

  /** At or after the deadline plus the confirm time plus the longest fresh age, no step stays. */
  lemma WaitEnds(st: St, inp: Input, cfg: Settings)
    requires WellFormed(st) && st.mode.Waiting? && cfg.nightConfirmMs >= 0 && cfg.heaterStaleMs >= 0
    requires inp.now >= st.waitUntil.value + cfg.nightConfirmMs + cfg.heaterStaleMs
    ensures !Step(inp, cfg, st).0.mode.Waiting?
  {
    hide ControlStep;
  }

  /** Adoption needs continuous heating first seen before the deadline, and a heater frame read at
      least the confirm time after that first sight. */
  lemma AdoptionStep(st: St, inp: Input, cfg: Settings)
    requires WellFormed(st) && st.mode.Waiting? && IsAuto(Step(inp, cfg, st).0)
    ensures ViewOf(inp, cfg).hs.Continuous? && inp.heaterAge.Some?
    ensures st.contSince.Some? ==>
              st.contSince.value < st.waitUntil.value && inp.now - inp.heaterAge.value - st.contSince.value >= cfg.nightConfirmMs
    ensures st.contSince.None? ==> inp.now < st.waitUntil.value && -inp.heaterAge.value >= cfg.nightConfirmMs
  {
    hide ControlStep;
  }

  // ----- Over a whole run ----------------------------------------------------------------------

  /** The session is in the wait before every input from `first` to `last`. */
  predicate WaitingThrough(ins: seq<Input>, cfg: Settings, first: nat, last: nat)
    requires first <= last <= |ins| && SettingsOk(cfg)
  {
    forall i :: first <= i <= last ==> StateAt(ins, cfg, i).mode.Waiting?
  }

  lemma WaitingAt(ins: seq<Input>, cfg: Settings, k: nat)
    requires k < |ins| && SettingsOk(cfg) && StateAt(ins, cfg, k).mode.Waiting?
    ensures NightStep(StateAt(ins, cfg, k), ins[k], cfg, StateAt(ins, cfg, k + 1), OutAt(ins, cfg, k).cmds)
  {
    WaitingStep(StateAt(ins, cfg, k), ins[k], cfg);
  }

  lemma {:induction false} DeadlineKept(ins: seq<Input>, cfg: Settings, first: nat, last: nat)
    requires first <= last <= |ins| && SettingsOk(cfg) && WaitingThrough(ins, cfg, first, last)
    ensures StateAt(ins, cfg, last).waitUntil == StateAt(ins, cfg, first).waitUntil
    decreases last
  {
    hide StateAt;
    if first < last {
      DeadlineKept(ins, cfg, first, last - 1);
      WaitingAt(ins, cfg, last - 1);
    }
  }

  /** A night wait entered at input `e` sees only silent inputs from then on, all of them before
      the entry time plus wait, confirm time and longest fresh age. */
  lemma NightWaitBounded(ins: seq<Input>, cfg: Settings, e: nat, k: nat)
    requires e < k < |ins| && SettingsOk(cfg) && cfg.nightConfirmMs >= 0
    requires !StateAt(ins, cfg, e).mode.Waiting? && WaitingThrough(ins, cfg, e + 1, k + 1)
    ensures ins[k].now < ins[e].now + cfg.nightWaitMs + cfg.nightConfirmMs + cfg.heaterStaleMs
    ensures OutAt(ins, cfg, k).cmds == []
  {
    hide StateAt, OutAt, Step;
    EntryDeadline(ins, cfg, e);
    DeadlineKept(ins, cfg, e + 1, k);
    WaitingAt(ins, cfg, k);
    if ins[k].now >= StateAt(ins, cfg, k).waitUntil.value + cfg.nightConfirmMs + cfg.heaterStaleMs {
      NextIsStep(ins, cfg, k);
      WaitEnds(StateAt(ins, cfg, k), ins[k], cfg);
    }
  }

  lemma NextIsStep(ins: seq<Input>, cfg: Settings, k: nat)
    requires k < |ins| && SettingsOk(cfg)
    ensures StateAt(ins, cfg, k + 1) == Step(ins[k], cfg, StateAt(ins, cfg, k)).0
  {
    hide Step;
  }

  lemma OnRulesStayOut(st: St, cmds: seq<Cmd>, reason: Option<Reason>, inp: Input, cfg: Settings, v: View)
    requires IsOn(st) && st.expected.Some? && st.lastCtl.Some? && ViewOk(v, inp, cfg)
    ensures !OnRules(st, cmds, reason, inp, cfg, v).st.mode.Waiting?
  {
    hide ControlStep, Track, ViewOk, Same;
    var f3 := GuardRules(st, cmds, reason, inp, cfg, v);
    assert !f3.st.mode.Waiting?;
    if f3.Go? {
      var f7 := ReferenceRule(f3.st, f3.cmds, f3.reason, inp, cfg, v);
      assert !f7.st.mode.Waiting?;
    }
  }

  predicate Entered(st: St, inp: Input, cfg: Settings) {
    st.mode.Waiting? ==> st.waitUntil == Some(inp.now + cfg.nightWaitMs) && st.contSince == None
  }

  lemma EnterAutoEntered(st: St, cmds: seq<Cmd>, inp: Input, cfg: Settings, v: View)
    requires v.snap.Some? && ValidReading(inp.reference, cfg)
    ensures Entered(EnterAuto(st, cmds, inp, cfg, v).st, inp, cfg)
  {
    hide ControlStep;
  }

  lemma OwnerRuleEntered(st: St, cmds: seq<Cmd>, reason: Option<Reason>, inp: Input, cfg: Settings, v: View)
    requires WellFormed(st) && !st.mode.Waiting? && ViewOk(v, inp, cfg)
    ensures var f := OwnerRule(st, cmds, reason, inp, cfg, v); Entered(f.st, inp, cfg) && (f.Go? ==> f.st.mode == st.mode)
  {
    hide ControlStep, Takeover, Proportional, HeldStop, PendingSound;
    if v.snap.Some? && ValidReading(inp.reference, cfg) {
      EnterAutoEntered(st, cmds, inp, cfg, v);
    }
  }

  lemma LaterRulesEntered(st: St, cmds: seq<Cmd>, reason: Option<Reason>, inp: Input, cfg: Settings, v: View)
    requires WellFormed(st) && !st.mode.Waiting? && ViewOk(v, inp, cfg)
    ensures Entered(LaterRules(st, cmds, reason, inp, cfg, v).st, inp, cfg)
  {
    hide OwnerRule, OnRules, ViewOk, Same;
    OwnerRuleEntered(st, cmds, reason, inp, cfg, v);
    OwnerGoSound(st, cmds, reason, inp, cfg, v);
    var f2 := OwnerRule(st, cmds, reason, inp, cfg, v);
    if f2.Go? && IsOn(f2.st) {
      OnRulesStayOut(f2.st, f2.cmds, f2.reason, inp, cfg, v);
    }
  }

  /** The only entry: an accepted request, with the deadline `nightWaitMs` away. */
  lemma EntryStep(st: St, inp: Input, cfg: Settings)
    requires WellFormed(st) && Ranged(st, cfg) && !st.mode.Waiting?
    ensures Entered(Step(inp, cfg, st).0, inp, cfg)
  {
    hide LaterRules, Resend, Same;
    var f1 := FirstRule(st, inp, cfg, ViewOf(inp, cfg));
    if f1.Go? {
      FirstRuleOk(st, inp, cfg, ViewOf(inp, cfg));
      LaterRulesEntered(f1.st, f1.cmds, f1.reason, inp, cfg, ViewOf(inp, cfg));
    }
  }

  lemma EntryDeadline(ins: seq<Input>, cfg: Settings, e: nat)
    requires e < |ins| && SettingsOk(cfg) && !StateAt(ins, cfg, e).mode.Waiting?
    ensures Entered(StateAt(ins, cfg, e + 1), ins[e], cfg)
  {
    hide StateAt, Step;
    NextIsStep(ins, cfg, e);
    EntryStep(StateAt(ins, cfg, e), ins[e], cfg);
  }

  predicate ContinuousAt(ins: seq<Input>, cfg: Settings, i: nat)
    requires i < |ins| && SettingsOk(cfg)
  {
    StateAt(ins, cfg, i).mode.Waiting? && ViewOf(ins[i], cfg).hs.Continuous?
  }

  /** The first sight of continuous heating is the time of an input since which every one saw it. */
  lemma {:induction false} FirstSight(ins: seq<Input>, cfg: Settings, k: nat) returns (j: nat)
    requires k <= |ins| && SettingsOk(cfg)
    requires StateAt(ins, cfg, k).mode.Waiting? && StateAt(ins, cfg, k).contSince.Some?
    ensures j < k && StateAt(ins, cfg, k).contSince == Some(ins[j].now)
    ensures forall i :: j <= i < k ==> ContinuousAt(ins, cfg, i)
  {
    hide StateAt, OutAt, ViewOf;
    StateLinks(ins, cfg, k);
    var before := StateAt(ins, cfg, k - 1);
    if !before.mode.Waiting? {
      EntryDeadline(ins, cfg, k - 1);
    }
    WaitingAt(ins, cfg, k - 1);
    if before.contSince.Some? {
      j := FirstSight(ins, cfg, k - 1);
    } else {
      j := k - 1;
    }
  }

  lemma AdoptedAt(ins: seq<Input>, cfg: Settings, k: nat)
    requires k < |ins| && SettingsOk(cfg)
    requires StateAt(ins, cfg, k).mode.Waiting? && IsAuto(StateAt(ins, cfg, k + 1))
    ensures ContinuousAt(ins, cfg, k) && ins[k].heaterAge.Some?
    ensures var st := StateAt(ins, cfg, k); var seen := st.contSince.GetOr(ins[k].now);
            seen < st.waitUntil.value && ins[k].now - ins[k].heaterAge.value - seen >= cfg.nightConfirmMs
  {
    hide StateAt, Step;
    NextIsStep(ins, cfg, k);
    AdoptionStep(StateAt(ins, cfg, k), ins[k], cfg);
  }

  /** Continuous heating is taken over only if some input of the wait saw it before the deadline,
      every input since saw it, and the frame of the adopting one was read at least the confirm
      time after that first sight. */
  lemma AdoptionHonest(ins: seq<Input>, cfg: Settings, k: nat) returns (j: nat)
    requires k < |ins| && SettingsOk(cfg)
    requires StateAt(ins, cfg, k).mode.Waiting? && IsAuto(StateAt(ins, cfg, k + 1))
    ensures j <= k && forall i :: j <= i <= k ==> ContinuousAt(ins, cfg, i)
    ensures ins[j].now < StateAt(ins, cfg, k).waitUntil.value
    ensures ins[k].heaterAge.Some? && ins[k].now - ins[k].heaterAge.value - ins[j].now >= cfg.nightConfirmMs
  {
    hide StateAt, ViewOf;
    AdoptedAt(ins, cfg, k);
    if StateAt(ins, cfg, k).contSince.Some? {
      j := FirstSight(ins, cfg, k);
    } else {
      j := k;
    }
  }
}

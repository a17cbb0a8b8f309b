/** Whole runs of the thermostat: when heating commands may leave, and that a safety stop holds. */
module ThermostatSafety {
  import opened Common
  import opened Thermostat
  import opened ThermostatRuns

  // ----- Runs ----------------------------------------------------------------------------------

  /** The session before input `k` of a run that starts at boot. */
  function StateAt(ins: seq<Input>, cfg: Settings, k: nat): (st: St)
    requires k <= |ins| && SettingsOk(cfg)
    ensures WellFormed(st) && Ranged(st, cfg)
    decreases k
  {
    if k == 0 then Initial()
    else
      StepOk(ins[k - 1], cfg, StateAt(ins, cfg, k - 1));
      Step(ins[k - 1], cfg, StateAt(ins, cfg, k - 1)).0
  }

  function OutAt(ins: seq<Input>, cfg: Settings, k: nat): Out
    requires k < |ins| && SettingsOk(cfg)
  {
    Step(ins[k], cfg, StateAt(ins, cfg, k)).1
  }

  // ----- Heating commands ----------------------------------------------------------------------

  predicate SafetyHeld(st: St) {
    HeldStop(st).Some? && HeldStop(st).value != UserOff
  }

  /** The owner asked for AUTO with every entry check passed, from a session that was neither on nor
      in the night wait, and after rule 1 no safety stop was being carried out. */
  predicate OwnerStart(st: St, inp: Input, cfg: Settings)
    requires WellFormed(st)
  {
    && inp.request.RequestAuto?
    && Refusal(inp, cfg, ViewOf(inp, cfg)).None?
    && (st.mode.Off? || st.mode.Stopping?)
    && !SafetyHeld(FirstRule(st, inp, cfg, ViewOf(inp, cfg)).st)
  }

  lemma AcceptedIsOwnerStart(st: St, inp: Input, cfg: Settings)
    requires WellFormed(st) && Ranged(st, cfg) && AcceptedHere(st, inp, cfg)
    ensures OwnerStart(st, inp, cfg)
  {
    FirstRuleOk(st, inp, cfg, ViewOf(inp, cfg));
  }

  /** How a pending start links two consecutive states: kept, or begun by the owner here. */
  predicate StartLink(st: St, inp: Input, cfg: Settings, st': St)
    requires WellFormed(st)
  {
    StartPending(st') ==>
      || (StartPending(st) && st.pending.value.first == st'.pending.value.first)
      || (OwnerStart(st, inp, cfg) && st'.pending.value.first == inp.now)
  }

  lemma StepLinksStart(st: St, inp: Input, cfg: Settings)
    requires WellFormed(st) && Ranged(st, cfg) && SettingsOk(cfg)
    ensures StartLink(st, inp, cfg, Step(inp, cfg, st).0)
  {
    StepOk(inp, cfg, st);
    if AcceptedHere(st, inp, cfg) {
      AcceptedIsOwnerStart(st, inp, cfg);
    }
  }

  lemma StateLinks(ins: seq<Input>, cfg: Settings, k: nat)
    requires k <= |ins| && SettingsOk(cfg)
    ensures StateAt(ins, cfg, 0) == Initial()
    ensures k > 0 ==> StartLink(StateAt(ins, cfg, k - 1), ins[k - 1], cfg, StateAt(ins, cfg, k))
  {
    if k > 0 {
      StepLinksStart(StateAt(ins, cfg, k - 1), ins[k - 1], cfg);
    }
  }

  /** A pending start goes back to one accepted owner request, pending ever since with its time. */
  lemma {:induction false} StartOrigin(ins: seq<Input>, cfg: Settings, k: nat) returns (j: nat)
    requires k <= |ins| && SettingsOk(cfg) && StartPending(StateAt(ins, cfg, k))
    ensures j < k && OwnerStart(StateAt(ins, cfg, j), ins[j], cfg)
    ensures forall i :: j < i <= k ==>
              StartPending(StateAt(ins, cfg, i)) && StateAt(ins, cfg, i).pending.value.first == ins[j].now
  {
    hide StateAt;
    StateLinks(ins, cfg, k);
    if OwnerStart(StateAt(ins, cfg, k - 1), ins[k - 1], cfg) && StateAt(ins, cfg, k).pending.value.first == ins[k - 1].now {
      j := k - 1;
    } else {
      j := StartOrigin(ins, cfg, k - 1);
    }
  }

  /** A heating command leaves only over a live link with a fresh, fault-free heater reading. */
  predicate HeatingLive(c: Cmd, inp: Input, cfg: Settings) {
    IsStop(c) || (inp.link && !ViewOf(inp, cfg).hs.Unknown? && !IsFault(ViewOf(inp, cfg).hs))
  }

  lemma HeatingCommandsLive(ins: seq<Input>, cfg: Settings, k: nat)
    requires k < |ins| && SettingsOk(cfg)
    ensures forall c :: c in OutAt(ins, cfg, k).cmds ==> HeatingLive(c, ins[k], cfg)
    ensures forall c :: c in OutAt(ins, cfg, k).cmds && c.Level? ==> cfg.minLevel <= c.level <= 10
  {
    var v := ViewOf(ins[k], cfg);
    StepOk(ins[k], cfg, StateAt(ins, cfg, k));
    forall c | c in OutAt(ins, cfg, k).cmds
      ensures HeatingLive(c, ins[k], cfg) && (c.Level? ==> cfg.minLevel <= c.level <= 10)
    {
      assert SafeCmd(c, ins[k], cfg, v);
    }
  }

  lemma PowerOnAt(ins: seq<Input>, cfg: Settings, k: nat)
    requires k < |ins| && SettingsOk(cfg) && PowerOn in OutAt(ins, cfg, k).cmds
    ensures EntryHolds(ins[k], cfg)
    ensures var st' := StateAt(ins, cfg, k + 1);
            StartPending(st') && ins[k].now - st'.pending.value.first <= cfg.heaterStaleMs
  {
    StepOk(ins[k], cfg, StateAt(ins, cfg, k));
    assert SafeCmd(PowerOn, ins[k], cfg, ViewOf(ins[k], cfg));
  }

  /** Every power-on of a run, re-sends included, meets the entry conditions and leaves at most
      `heaterStaleMs` after the accepted owner request that began it, pending ever since. */
  lemma PowerOnNeedsOwner(ins: seq<Input>, cfg: Settings, k: nat) returns (j: nat)
    requires k < |ins| && SettingsOk(cfg) && PowerOn in OutAt(ins, cfg, k).cmds
    ensures EntryHolds(ins[k], cfg)
    ensures j <= k && OwnerStart(StateAt(ins, cfg, j), ins[j], cfg)
    ensures ins[k].now - ins[j].now <= cfg.heaterStaleMs
    ensures forall i :: j < i <= k + 1 ==> StartPending(StateAt(ins, cfg, i))
  {
    hide StateAt, OutAt;
    PowerOnAt(ins, cfg, k);
    j := StartOrigin(ins, cfg, k + 1);
  }

  // ----- Safety stops --------------------------------------------------------------------------

  /** The only ways a stop being carried out ends: confirmed by a readback taken after its send,
      refused, dropped because the heater changed, or given up after its retry; and in STOPPING a
      fresh reading that shows the heater ended or changed. */
  predicate StopEnds(st: St, inp: Input, cfg: Settings)
    requires WellFormed(st)
  {
    var v := ViewOf(inp, cfg);
    if st.mode.Stopping? then
      inp.link && v.snap.Some? && (!IsHeating(v.hs) || !Same(v.snap.value, st.stopSnap.value.snap))
    else
      st.pending.Some?
      && var p := st.pending.value;
      var expired := ReadAfter(p, inp, v) && inp.link && inp.now - p.since >= cfg.verifyMs;
      var answered := ResultOf(inp) == Some(Busy) || ResultOf(inp) == Some(NotReady);
      || (ReadAfter(p, inp, v) && Applied(p.cmd, v.snap.value))
      || (!IsFault(v.hs) && ResultOf(inp) == Some(Refused))
      || (!IsFault(v.hs) && !(answered && inp.link) && expired
          && (p.tries >= 2 || !Same(v.snap.value, st.expected.value)))
  }

  lemma HeldPendingStep(st: St, inp: Input, cfg: Settings)
    requires WellFormed(st) && st.pending.Some? && SafetyHeld(st)
    ensures HeldStop(Step(inp, cfg, st).0) == (if StopEnds(st, inp, cfg) then None else HeldStop(st))
    ensures !StopEnds(st, inp, cfg) ==> forall c :: c in Step(inp, cfg, st).1.cmds ==> c == st.pending.value.cmd
  {
    hide ViewOf, OnRules, WaitingRule, ControlStep, Refusal;
    var v := ViewOf(inp, cfg);
    var f1 := PendingRule(st, inp, cfg, v);
    assert f1.Go? && f1.st.pending.Some? ==> f1.st.mode.Off? && HeldStop(f1.st) == HeldStop(st);
  }

  lemma HeldStoppingStep(st: St, inp: Input, cfg: Settings)
    requires WellFormed(st) && st.mode.Stopping? && SafetyHeld(st)
    ensures HeldStop(Step(inp, cfg, st).0) == (if StopEnds(st, inp, cfg) then None else HeldStop(st))
    ensures forall c :: c in Step(inp, cfg, st).1.cmds ==>
              && IsStop(c) && inp.link && ViewOf(inp, cfg).snap.Some?
              && Same(ViewOf(inp, cfg).snap.value, st.stopSnap.value.snap)
  {
  }

  /** A safety stop is carried out until one of its ends: no owner request, AUTO included, cancels it
      or changes its cause, and while it waits in STOPPING a command leaves only on a fresh reading
      that still matches the snapshot. */
  lemma SafetyStopStep(st: St, inp: Input, cfg: Settings)
    requires WellFormed(st) && SafetyHeld(st)
    ensures StopEnds(st, inp, cfg) <==> HeldStop(Step(inp, cfg, st).0) != HeldStop(st)
    ensures !StopEnds(st, inp, cfg) ==> forall c :: c in Step(inp, cfg, st).1.cmds ==> IsStop(c)
  {
    if st.pending.Some? {
      HeldPendingStep(st, inp, cfg);
    } else {
      HeldStoppingStep(st, inp, cfg);
    }
  }

  /** Over a whole run: held at `i` and not ended before `k`, it is still held at `k`, same cause. */
  lemma {:induction false} SafetyStopHolds(ins: seq<Input>, cfg: Settings, i: nat, k: nat)
    requires i <= k <= |ins| && SettingsOk(cfg) && SafetyHeld(StateAt(ins, cfg, i))
    requires forall m :: i <= m < k ==> !StopEnds(StateAt(ins, cfg, m), ins[m], cfg)
    ensures HeldStop(StateAt(ins, cfg, k)) == HeldStop(StateAt(ins, cfg, i))
    ensures forall m, c :: i <= m < k && c in OutAt(ins, cfg, m).cmds ==> IsStop(c)
    decreases k
  {
    hide StateAt, OutAt, StopEnds;
    if i < k {
      SafetyStopHolds(ins, cfg, i, k - 1);
      HeldAt(ins, cfg, k - 1);
    }
  }

  lemma HeldAt(ins: seq<Input>, cfg: Settings, m: nat)
    requires m < |ins| && SettingsOk(cfg) && SafetyHeld(StateAt(ins, cfg, m)) && !StopEnds(StateAt(ins, cfg, m), ins[m], cfg)
    ensures HeldStop(StateAt(ins, cfg, m + 1)) == HeldStop(StateAt(ins, cfg, m))
    ensures forall c :: c in OutAt(ins, cfg, m).cmds ==> IsStop(c)
  {
    SafetyStopStep(StateAt(ins, cfg, m), ins[m], cfg);
  }
}

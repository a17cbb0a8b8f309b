/** The session as the source runs it: a private copy of the state, updated rule by rule in place.
    Every method leaves exactly the state and commands its rule's function gives. */
module ThermostatSession {
  import opened Common
  import T = Thermostat
  import opened Thermostat
  import opened ThermostatRuns

  class Session {
    var mode: Mode
    var active: Sensor
    var ctl: Ctl
    var pending: Option<Pending>
    var expected: Option<Snap>
    var battLowSince: Option<int>
    var stopSnap: Option<StopSnap>
    var lastCtl: Option<int>
    var night: bool
    var waitUntil: Option<int>
    var contSince: Option<int>

    function State(): St
      reads this
    {
      St(mode, active, ctl, pending, expected, battLowSince, stopSnap, lastCtl, night, waitUntil, contSince)
    }

    /** A working copy of `st`. */
    constructor (st: St)
      ensures State() == st
    {
      mode, active, ctl, pending, expected := st.mode, st.active, st.ctl, st.pending, st.expected;
      battLowSince, stopSnap, lastCtl := st.battLowSince, st.stopSnap, st.lastCtl;
      night, waitUntil, contSince := st.night, st.waitUntil, st.contSince;
    }

    // ----- Helpers -----------------------------------------------------------------------------

    method Stop(canSend: bool, now: int, why: Cause) returns (cmds: seq<Cmd>)
      modifies this
      ensures (State(), cmds) == T.Stop(old(State()), canSend, now, why)
    {
      var e := expected.GetOr(Snap(false, false, None));
      pending, mode := None, Off;
      if !e.permanent && !e.normal {
        return [];
      }
      var what := if e.permanent then PermanentOff else PowerOff;
      if canSend {
        pending := Some(Pend(what, now, None, Some(why)));
        return [what];
      }
      mode, stopSnap := Stopping, Some(StopSnap(e, why));
      return [];
    }

    method End()
      modifies this
      ensures State() == T.End(old(State()))
    {
      mode, pending := Off, None;
    }

    method SendLevel(lvl: int, before: Option<int>, now: int) returns (cmds: seq<Cmd>)
      requires expected.Some?
      modifies this
      ensures (State(), cmds) == T.SendLevel(old(State()), lvl, old(ctl), before, now)
    {
      pending := Some(Pend(Level(lvl), now, before, None));
      expected := Some(expected.value.(level := Some(lvl)));
      ctl := ctl.(lastChange := now);
      return [Level(lvl)];
    }

    method Takeover(snap: Snap, level: Option<int>, tRef: Option<int>, tOut: Option<int>, inp: Input, cfg: Settings)
      returns (cmds: seq<Cmd>)
      modifies this
      ensures (State(), cmds) == T.Takeover(old(State()), snap, level, tRef, tOut, inp, cfg)
    {
      pending, expected, lastCtl := None, Some(snap), Some(inp.now);
      var ctl0 := Ctl(0, ctl.lastChange, None, 0, Some(0));
      ctl := ctl0;
      cmds := [];
      if tRef.Some? {
        var c := ControlStep(tRef.value, tOut, inp.target, 0, ctl0, cfg, None, inp.now);
        ctl := c.ctl;
        var lvl := StartLevel(c, cfg);
        if Some(lvl) != level && inp.link {
          cmds := SendLevel(lvl, level, inp.now);
        }
      }
    }

    // ----- Rules -------------------------------------------------------------------------------

    /** Rule 1: what became of the command sent last. */
    method Bookkeeping(inp: Input, cfg: Settings, v: View) returns (done: bool, cmds: seq<Cmd>, reason: Option<Reason>)
      requires WellFormed(State()) && ViewOk(v, inp, cfg)
      modifies this
      ensures FlowOf(done, State(), cmds, reason) == FirstRule(old(State()), inp, cfg, v)
    {
      done, cmds, reason := false, [], None;
      if pending.None? {
        return;
      }
      var p, res, ownerOff := pending.value, ResultOf(inp), OwnerOff(State(), inp);
      var shown := ReadAfter(p, inp, v) && Applied(p.cmd, v.snap.value);
      if mode.Waiting? {
        // one try for the level sent on entry, whatever becomes of it
        if shown || (res.Some? && !res.value.Ok?) || inp.now - p.since >= cfg.verifyMs {
          pending := None;
        }
        return;
      }
      var e := expected.value;
      if Moved(p, e, inp, v) {
        End();
        var offAtPanel := !v.snap.value.normal && !v.snap.value.permanent;
        return true, [], Some(if !offAtPanel then ForeignChange else if e.permanent then ContinuousEnded else RunEnded);
      }
      if shown {
        pending, expected := None, v.snap;
      } else if IsFault(v.hs) || (p.cmd.Level? && res == Some(Refused) && ownerOff) {
        // a later rule ends AUTO or stops the heater
      } else if res == Some(Refused) {
        pending := None;
        if !IsStop(p.cmd) {
          End();
        }
        return true, [], Some(Failure(p));
      } else if (res == Some(Busy) || res == Some(NotReady)) && inp.link {
        if p.cmd.PowerOn? && !StartRetryOk(p, inp, cfg) {
          End();
          return true, [], Some(Failure(p));
        }
        cmds, reason := Resend(p, State(), inp, !inp.attempt.value.kind.KindPower?), Some(Sending(p));
        pending := Some(p.(since := inp.now));
      } else if ReadAfter(p, inp, v) && inp.link && inp.now - p.since >= cfg.verifyMs {
        done, cmds, reason := Retry(inp, cfg, v);
      }
    }

    method Retry(inp: Input, cfg: Settings, v: View) returns (done: bool, cmds: seq<Cmd>, reason: Option<Reason>)
      requires WellFormed(State()) && pending.Some? && !mode.Waiting? && v.snap.Some?
      modifies this
      ensures FlowOf(done, State(), cmds, reason) == RetryRule(old(State()), inp, cfg, v)
    {
      var p, ownerOff := pending.value, OwnerOff(State(), inp);
      done, cmds, reason := false, [], None;
      if IsStop(p.cmd) && !Same(v.snap.value, expected.value) {
        pending := None;
        return true, [], Some(StopDropped);
      }
      if p.tries >= 2 || (p.cmd.PowerOn? && !StartRetryOk(p, inp, cfg)) {
        if !(p.cmd.Level? && ownerOff) {
          if !IsStop(p.cmd) {
            End();
          }
          pending := None;
          return true, [], Some(Failure(p));
        }
      } else {
        cmds, reason := Resend(p, State(), inp, false), Some(Sending(p));
        pending := Some(p.(since := inp.now, tries := 2));
      }
    }

    /** Rule W: the night wait. */
    method NightWait(inp: Input, cfg: Settings, v: View) returns (cmds: seq<Cmd>, reason: Option<Reason>)
      requires mode.Waiting? && waitUntil.Some? && ViewOk(v, inp, cfg)
      modifies this
      ensures Done(State(), cmds, reason) == WaitingRule(old(State()), inp, cfg, v)
    {
      if v.snap.Some? {
        expected := v.snap;
      }
      if inp.request.RequestOff? || !inp.enabled {
        cmds := Stop(inp.link && v.snap.Some?, inp.now, if inp.enabled then UserOff else Disabled);
        return cmds, Some(if mode.Stopping? then StoppingNow else if inp.enabled then UserOffDone else DisabledDone);
      }
      if IsFault(v.hs) {
        End();
        return [], Some(if v.code == 1 then BatteryLow else FaultReason(v.code));
      }
      if !v.hs.Continuous? {
        contSince := None;
        if inp.now >= waitUntil.value {
          End();
          return [], Some(NightWaitEnded);
        }
        return [], Some(WaitingForContinuous);
      }
      if contSince.None? {
        // a first sight past the deadline comes too late
        if inp.now >= waitUntil.value {
          End();
          return [], Some(NightWaitEnded);
        }
        contSince := Some(inp.now);
      }
      if inp.now - inp.heaterAge.value - contSince.value < cfg.nightConfirmMs {
        return [], Some(WaitingForContinuous);
      }
      mode := Auto;
      cmds := Takeover(v.snap.value, v.level, if ValidReading(inp.reference, cfg) then inp.reference.value.val else None, v.tOut, inp, cfg);
      return cmds, Some(AdoptContinuous);
    }

    method Enter(queued: seq<Cmd>, inp: Input, cfg: Settings, v: View) returns (cmds: seq<Cmd>, reason: Option<Reason>)
      requires v.snap.Some? && ValidReading(inp.reference, cfg)
      modifies this
      ensures Done(State(), cmds, reason) == EnterAuto(old(State()), queued, inp, cfg, v)
    {
      hide ControlStep, T.Takeover;
      // whatever re-send of a stop was queued, this request replaces it
      cmds := if pending.Some? then [] else queued;
      var tRef := inp.reference.value.val.value;
      mode, active, pending, battLowSince, stopSnap, lastCtl := Auto, UseReference, None, None, None, Some(inp.now);
      night := inp.night;
      if inp.night && !v.hs.Continuous? {
        mode, waitUntil, contSince, expected := Waiting, Some(inp.now + cfg.nightWaitMs), None, v.snap;
        if v.hs.HeaterOff? {
          // only the level leaves; the panel does the starting
          cmds := Takeover(v.snap.value, v.level, Some(tRef), v.tOut, inp, cfg);
        }
        return cmds, Some(WaitingForContinuous);
      }
      if v.hs.HeaterOff? {
        var c := ControlStep(tRef, v.tOut, inp.target, 0, Ctl(0, inp.now, None, 0, Some(0)), cfg, None, inp.now);
        ctl := c.ctl;
        var lvl := StartLevel(c, cfg);
        pending := Some(Pend(PowerOn, inp.now, None, None));
        expected := Some(Snap(true, false, Some(lvl)));
        return [Runtime(inp.runtimeMin), Level(lvl), PowerOn], Some(Start);
      }
      cmds := Takeover(v.snap.value, v.level, Some(tRef), v.tOut, inp, cfg);
      return cmds, Some(if v.hs.Continuous? then AdoptContinuous else AdoptRun);
    }

    /** Rule 2: the owner's request. */
    method Owner(queued: seq<Cmd>, soFar: Option<Reason>, inp: Input, cfg: Settings, v: View)
      returns (done: bool, cmds: seq<Cmd>, reason: Option<Reason>)
      requires ViewOk(v, inp, cfg)
      modifies this
      ensures FlowOf(done, State(), cmds, reason) == OwnerRule(old(State()), queued, soFar, inp, cfg, v)
    {
      done, cmds, reason := false, queued, soFar;
      var on := IsOn(State());
      var req := if on && !inp.enabled then RequestOff else inp.request;
      if req.RequestOff? && on {
        cmds := Stop(inp.link && v.snap.Some?, inp.now, if inp.enabled then UserOff else Disabled);
        return true, cmds, Some(if mode.Stopping? then StoppingNow else UserOffDone);
      }
      var held := HeldStop(State());
      if req.RequestAuto? && !on && held.Some? && held.value != UserOff {
        // only the owner's own stop gives way
        req, reason := NoRequest, Some(StoppingNow);
      }
      if req.RequestAuto? && !on {
        var why := Refusal(inp, cfg, v);
        if why.Some? {
          return true, cmds, why;
        }
        cmds, reason := Enter(queued, inp, cfg, v);
        return true, cmds, reason;
      }
      if req.RequestAuto? && on && active.UseBackup? && ValidReading(inp.reference, cfg) {
        active := UseReference;
        if v.level.Some? {
          ctl := Track(ctl, v.level.value, inp.reference.value.val.value, inp.target, cfg);
        }
      }
    }

    /** STOPPING: nothing until the heater can be reached and read; then the stop, if it is still the same run. */
    method AwaitStop(queued: seq<Cmd>, inp: Input, cfg: Settings, v: View) returns (cmds: seq<Cmd>, reason: Option<Reason>)
      requires mode.Stopping? && stopSnap.Some? && ViewOk(v, inp, cfg)
      modifies this
      ensures Done(State(), cmds, reason) == StoppingRule(old(State()), queued, inp, cfg, v)
    {
      var left := stopSnap.value;
      if !inp.link || v.snap.None? {
        return queued, Some(StoppingNow);
      }
      mode, stopSnap := Off, None;
      if !IsHeating(v.hs) {
        return queued, Some(if left.snap.permanent then ContinuousEnded else RunEnded);
      }
      if !Same(v.snap.value, left.snap) {
        return queued, Some(StopDropped);
      }
      expected := Some(left.snap);
      cmds := Stop(true, inp.now, left.why);
      return cmds, Some(StoppingNow);
    }

    /** Rules 3 to 6. */
    method Guards(queued: seq<Cmd>, soFar: Option<Reason>, inp: Input, cfg: Settings, v: View)
      returns (done: bool, cmds: seq<Cmd>, reason: Option<Reason>)
      requires IsOn(State()) && expected.Some? && ViewOk(v, inp, cfg)
      modifies this
      ensures FlowOf(done, State(), cmds, reason) == GuardRules(old(State()), queued, soFar, inp, cfg, v)
    {
      hide T.Stop, BatteryRule;
      if IsFault(v.hs) && v.code == 1 {
        cmds := Stop(inp.link, inp.now, CauseBatteryLow);
        return true, cmds, Some(BatteryLow);
      }
      if IsFault(v.hs) {
        End();
        return true, [], Some(FaultReason(v.code));
      }
      if v.snap.None? {
        return true, [], Some(HeaterUnknown);
      }
      if pending.None? && IsHeating(v.hs) {
        if !Same(v.snap.value, expected.value) {
          End();
          return true, [], Some(ForeignChange);
        }
        if expected.value.level.None? {
          expected := Some(expected.value.(level := v.level));
        }
      }
      done, cmds, reason := Battery(queued, soFar, inp, cfg, v);
    }

    method Battery(queued: seq<Cmd>, soFar: Option<Reason>, inp: Input, cfg: Settings, v: View)
      returns (done: bool, cmds: seq<Cmd>, reason: Option<Reason>)
      requires expected.Some?
      modifies this
      ensures FlowOf(done, State(), cmds, reason) == BatteryRule(old(State()), queued, soFar, inp, cfg, v)
    {
      hide T.Stop;
      var low := inp.batt2.Some? && inp.batt2.value < cfg.battMinDv;
      battLowSince := if low then Some(battLowSince.GetOr(inp.now)) else None;
      if low && inp.now - battLowSince.value >= cfg.battHoldMs {
        cmds := Stop(inp.link, inp.now, CauseBatteryLow);
        return true, cmds, Some(BatteryLow);
      }
      if pending.None? && !IsHeating(v.hs) {
        End();
        return true, [], Some(if expected.value.permanent then ContinuousEnded else RunEnded);
      }
      return false, queued, soFar;
    }

    method Resume(sensor: Sensor, r: Reading, inp: Input, cfg: Settings, v: View)
      requires r.val.Some?
      modifies this
      ensures State() == T.Resume(old(State()), sensor, r, inp, cfg, v)
    {
      active, mode, lastCtl := sensor, Auto, Some(inp.now);
      if v.level.Some? {
        ctl := Track(ctl, v.level.value, r.val.value, inp.target, cfg);
      }
    }

    /** Rule 7: reference validity. */
    method References(queued: seq<Cmd>, soFar: Option<Reason>, inp: Input, cfg: Settings, v: View)
      returns (done: bool, cmds: seq<Cmd>, reason: Option<Reason>)
      requires IsOn(State()) && expected.Some?
      modifies this
      ensures FlowOf(done, State(), cmds, reason) == ReferenceRule(old(State()), queued, soFar, inp, cfg, v)
    {
      var act := ActiveReading(State(), inp);
      cmds := queued;
      if !ValidReading(act, cfg) {
        if active.UseReference? && ValidReading(inp.backup, cfg) {
          Resume(UseBackup, inp.backup.value, inp, cfg, v);
          return true, cmds, Some(BackupSelected);
        }
        if active.UseBackup? && ValidReading(inp.reference, cfg) {
          Resume(UseReference, inp.reference.value, inp, cfg, v);
          return true, cmds, Some(ReferenceSelected);
        }
        mode := Degraded;
        if v.level != Some(cfg.minLevel) && pending.None? && inp.link {
          cmds := SendLevel(cfg.minLevel, v.level, inp.now);
        }
        return true, cmds, Some(ReferenceLost);
      }
      if mode.Degraded? {
        Resume(active, act.value, inp, cfg, v);
        return true, cmds, Some(AutoOn);
      }
      return false, cmds, soFar;
    }

    /** Rule 8: the controller's turn. */
    method Regulate(queued: seq<Cmd>, soFar: Option<Reason>, inp: Input, cfg: Settings, v: View)
      returns (cmds: seq<Cmd>, reason: Option<Reason>)
      requires IsOn(State()) && expected.Some? && lastCtl.Some? && ValidReading(ActiveReading(State(), inp), cfg)
      modifies this
      ensures Done(State(), cmds, reason) == ControlRule(old(State()), queued, soFar, inp, cfg, v)
    {
      cmds := queued;
      if pending.Some? || inp.now - lastCtl.value < cfg.periodMs {
        return cmds, Some(soFar.GetOr(AutoOn));
      }
      var oldChange := ctl.lastChange;
      var c := ControlStep(ActiveReading(State(), inp).value.val.value, v.tOut, inp.target, inp.now - lastCtl.value, ctl, cfg, v.level, inp.now);
      ctl, lastCtl := c.ctl, Some(inp.now);
      var hot := c.reason.Overheat? || c.reason.TargetExceeded?;
      if hot && v.hs.Continuous? {
        if v.level != Some(cfg.minLevel) && inp.link {
          cmds := SendLevel(cfg.minLevel, v.level, inp.now);
        }
        return cmds, Some(HoldAtMinLevel);
      }
      if hot {
        cmds := Stop(inp.link, inp.now, if c.reason.Overheat? then CauseOverheat else CauseTargetExceeded);
        return cmds, Some(c.reason);
      }
      if c.level.Some? && c.level != v.level && inp.link {
        cmds := SendLevel(c.level.value, v.level, inp.now);
        return cmds, Some(c.reason);
      }
      ctl := ctl.(lastChange := oldChange);
      return cmds, Some(if inp.outsideOn && v.tOut.None? then OutsideInactive else Hold);
    }

    /** The clean-up every step ends with. */
    method Close()
      modifies this
      ensures State() == CleanUp(old(State()))
    {
      if mode.Off? {
        night := false;
      }
      if !mode.Waiting? {
        waitUntil, contSince := None, None;
      }
    }

    /** All rules in order, on this working copy. */
    method Run(inp: Input, cfg: Settings) returns (out: Out)
      requires WellFormed(State())
      modifies this
      ensures (State(), out) == T.Step(inp, cfg, old(State()))
    {
      hide StepFlow;
      var cmds, reason := Rules(inp, cfg);
      Close();
      return Out(cmds, reason);
    }

    method Rules(inp: Input, cfg: Settings) returns (cmds: seq<Cmd>, reason: Option<Reason>)
      requires WellFormed(State())
      modifies this
      ensures var f := StepFlow(inp, cfg, old(State())); State() == f.st && cmds == f.cmds && reason == f.reason
    {
      hide FirstRule, WaitingRule, OwnerRule, StoppingRule, GuardRules, ReferenceRule, ControlRule, ViewOf, ViewOk;
      var v := ViewOf(inp, cfg);
      FirstGoSound(State(), inp, cfg, v);
      var done;
      done, cmds, reason := Bookkeeping(inp, cfg, v);
      if done {
        return;
      }
      if mode.Waiting? {
        cmds, reason := NightWait(inp, cfg, v);
        return;
      }
      OwnerGoSound(State(), cmds, reason, inp, cfg, v);
      done, cmds, reason := Owner(cmds, reason, inp, cfg, v);
      if done {
        return;
      }
      if mode.Stopping? {
        cmds, reason := AwaitStop(cmds, inp, cfg, v);
        return;
      }
      if !IsOn(State()) {
        return;
      }
      GuardsKeepOn(State(), cmds, reason, inp, cfg, v);
      done, cmds, reason := Guards(cmds, reason, inp, cfg, v);
      if done {
        return;
      }
      ReferenceGoValid(State(), cmds, reason, inp, cfg, v);
      done, cmds, reason := References(cmds, reason, inp, cfg, v);
      if done {
        return;
      }
      cmds, reason := Regulate(cmds, reason, inp, cfg, v);
    }
  }

  function FlowOf(done: bool, st: St, cmds: seq<Cmd>, reason: Option<Reason>): Flow {
    if done then Done(st, cmds, reason) else Go(st, cmds, reason)
  }

  /** One decision: the given state is copied, never modified, and the new one returned. */
  method Step(inp: Input, cfg: Settings, st: St) returns (st': St, out: Out)
    requires WellFormed(st)
    ensures (st', out) == T.Step(inp, cfg, st)
  {
    var session := new Session(st);
    out := session.Run(inp, cfg);
    st' := session.State();
  }
}

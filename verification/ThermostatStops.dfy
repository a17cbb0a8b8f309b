/** When a session stops its heater and what it then does, told of one step from its inputs. */
module ThermostatStops {
  import opened Common
  import opened Thermostat

  // ----- What the heater frame says ------------------------------------------------------------

  /** The frame is there and young enough. */
  predicate Fresh(inp: Input, cfg: Settings) {
    inp.heater.Some? && inp.heaterAge.Some? && inp.heaterAge.value <= cfg.heaterStaleMs
  }

  /** A fault on a fresh frame: not installed, an error code, or the trigger bit. */
  predicate Faulty(d: RawHeater) {
    d.installed == Some(0) || d.errorCode.GetOr(0) != 0 || d.faultTrigger.GetOr(0) != 0
  }

  /** Every state the frame can be read as, exactly; a fault is a fault whatever else the frame shows. */
  lemma FrameSays(inp: Input, cfg: Settings)
    ensures var v := ViewOf(inp, cfg); v.hs.Unknown? <==> !Fresh(inp, cfg)
    ensures !Fresh(inp, cfg) ==> var v := ViewOf(inp, cfg); v.snap.None? && v.level.None? && v.code == 0
    ensures Fresh(inp, cfg) ==>
              var v, d := ViewOf(inp, cfg), inp.heater.value;
              var permanent, normal := d.permanent.GetOr(0) != 0, d.normal.GetOr(0) != 0;
              && (IsFault(v.hs) <==> Faulty(d))
              && v.code == (if d.installed == Some(0) then -1 else d.errorCode.GetOr(0))
              && (v.hs.Locked? <==> v.code == 4) && (v.hs.Blocked? <==> v.code == 5)
              && (v.hs.Continuous? <==> !Faulty(d) && permanent)
              && (v.hs.Running? <==> !Faulty(d) && !permanent && normal)
              && (v.hs.TimerArmed? <==> !Faulty(d) && !permanent && !normal && d.operationMode == Some(3))
              && v.snap == Some(Snap(normal, permanent, v.level))
              && (v.level.Some? <==> d.installed != Some(0) && 1 <= d.heatingLevel.GetOr(0) <= 10)
              && (v.level.Some? ==> v.level == d.heatingLevel)
    ensures var v := ViewOf(inp, cfg);
            v.tOut.Some? <==> inp.outsideOn && inp.outside.Some? && inp.outside.value.val.Some?
                              && inp.outside.value.age.Some? && inp.outside.value.age.value <= cfg.staleAfterMs
    ensures ViewOf(inp, cfg).tOut.Some? ==> ViewOf(inp, cfg).tOut == inp.outside.value.val
  {
  }

  // ----- A stop --------------------------------------------------------------------------------

  predicate Burns(s: Snap) {
    s.normal || s.permanent
  }

  function OffCommand(s: Snap): Cmd {
    if s.permanent then PermanentOff else PowerOff
  }

  /** The session is over. What it left burning gets one stop, pending with its cause, if it can be reached;
      else nothing leaves and the stop waits with what it is for. Nothing burning, nothing is stopped. */
  predicate StopsHeater(st': St, cmds: seq<Cmd>, left: Snap, reached: bool, now: int, why: Cause) {
    if !Burns(left) then st'.mode.Off? && cmds == [] && st'.pending.None?
    else if reached then
      && st'.mode.Off? && cmds == [OffCommand(left)]
      && st'.pending == Some(Pending(OffCommand(left), now, 1, now, None, Some(why)))
    else
      && st'.mode.Stopping? && cmds == [] && st'.pending.None?
      && st'.stopSnap == Some(StopSnap(left, why))
  }

  /** The session ends and leaves the heater as it is. */
  predicate LeavesHeater(st': St, cmds: seq<Cmd>) {
    st'.mode.Off? && cmds == [] && st'.pending.None?
  }

  lemma StopStops(st: St, canSend: bool, now: int, why: Cause)
    requires st.expected.Some?
    ensures var (s, cmds) := Stop(st, canSend, now, why); StopsHeater(CleanUp(s), cmds, st.expected.value, canSend, now, why)
  {
  }

  // ----- The owner's OFF -----------------------------------------------------------------------

  predicate OffAsked(inp: Input) {
    inp.request.RequestOff? || !inp.enabled
  }

  function OffCause(inp: Input): Cause {
    if inp.enabled then UserOff else Disabled
  }

  /** The pending command's effect shows in a frame read after it was sent. */
  predicate Shown(st: St, inp: Input, cfg: Settings) {
    && Fresh(inp, cfg) && st.pending.Some? && inp.now - inp.heaterAge.value >= st.pending.value.since
    && var s := ViewOf(inp, cfg).snap;
       s.Some?
       && match st.pending.value.cmd
          case Level(l) => s.value.level == Some(l)
          case PowerOn => s.value.normal
          case PowerOff => !s.value.normal
          case PermanentOff => !s.value.permanent
          case Runtime(_) => false
  }

  /** What the session takes the heater to be: what it shows if it shows the pending command's effect, else what
      was expected. */
  function LeftBurning(st: St, inp: Input, cfg: Settings): Snap
    requires st.expected.Some?
  {
    if Shown(st, inp, cfg) then ViewOf(inp, cfg).snap.value else st.expected.value
  }

  /** Somebody else moved the heater while a level of ours was pending. */
  predicate Elsewhere(st: St, inp: Input, cfg: Settings)
    requires st.pending.Some? ==> st.expected.Some?
  {
    && Fresh(inp, cfg) && !Faulty(inp.heater.value) && st.pending.Some? && st.pending.value.cmd.Level?
    && inp.now - inp.heaterAge.value >= st.pending.value.since
    && var v, p, e := ViewOf(inp, cfg), st.pending.value, st.expected.value;
       v.snap.Some?
       && (|| (v.level.Some? && v.level != Some(p.cmd.level) && v.level != p.before)
           || v.snap.value.normal != e.normal || v.snap.value.permanent != e.permanent)
  }

  predicate AnswerIs(inp: Input, r: CmdResult) {
    inp.attempt.Some? && inp.attempt.value.result == r
  }

  /** The verify window of the pending command is over, and a frame read after it shows no effect. */
  predicate Overdue(st: St, inp: Input, cfg: Settings) {
    && Fresh(inp, cfg) && inp.link && st.pending.Some?
    && inp.now - inp.heaterAge.value >= st.pending.value.since && inp.now - st.pending.value.since >= cfg.verifyMs
  }

  /** A start may be sent again. */
  predicate MayRestart(p: Pending, inp: Input, cfg: Settings) {
    && inp.now - p.first <= cfg.heaterStaleMs && inp.enabled && (inp.camping || inp.shore)
    && inp.ignition == Some(false) && ValidReading(inp.reference, cfg)
  }

  /** A start without effect is given up: refused, or not to be sent again. */
  predicate StartGivenUp(st: St, inp: Input, cfg: Settings) {
    && st.pending.Some? && st.pending.value.cmd.PowerOn? && !Shown(st, inp, cfg)
    && !(Fresh(inp, cfg) && Faulty(inp.heater.value))
    && var p, busy := st.pending.value, (AnswerIs(inp, Busy) || AnswerIs(inp, NotReady)) && inp.link;
       || AnswerIs(inp, Refused)
       || (busy && !MayRestart(p, inp, cfg))
       || (!busy && Overdue(st, inp, cfg) && (p.tries >= 2 || !MayRestart(p, inp, cfg)))
  }

  /** Rule 1 of a session asked off: over, or on with what is left burning. */
  lemma FirstWhenOff(st: St, inp: Input, cfg: Settings)
    requires WellFormed(st) && IsOn(st) && OffAsked(inp)
    ensures var f := FirstRule(st, inp, cfg, ViewOf(inp, cfg));
            if Elsewhere(st, inp, cfg) || StartGivenUp(st, inp, cfg) then f.Done? && LeavesHeater(f.st, f.cmds)
            else f.Go? && IsOn(f.st) && f.st.expected == Some(LeftBurning(st, inp, cfg))
  {
    hide ViewOf;
    FrameSays(inp, cfg);
  }

  /** An owner OFF, or the feature disabled, ends a session that is on: with a stop of what it left burning,
      unless the heater was moved by somebody else or the start is given up, both of which leave it. */
  lemma OwnerOffStops(st: St, inp: Input, cfg: Settings)
    requires WellFormed(st) && IsOn(st) && OffAsked(inp)
    ensures var (st', out) := Step(inp, cfg, st);
            if Elsewhere(st, inp, cfg) || StartGivenUp(st, inp, cfg) then LeavesHeater(st', out.cmds)
            else StopsHeater(st', out.cmds, LeftBurning(st, inp, cfg), inp.link && Fresh(inp, cfg), inp.now, OffCause(inp))
                 && out.reason == Some(if st'.mode.Stopping? then StoppingNow else UserOffDone)
  {
    hide Stop, ViewOf, StopsHeater, FirstRule, OnRules, StoppingRule, Refusal, EnterAuto, Elsewhere, StartGivenUp, LeftBurning;
    FrameSays(inp, cfg);
    FirstWhenOff(st, inp, cfg);
    var v := ViewOf(inp, cfg);
    var f1 := FirstRule(st, inp, cfg, v);
    if f1.Go? {
      StopStops(f1.st, inp.link && v.snap.Some?, inp.now, OffCause(inp));
    }
  }

  // ----- The other stops -----------------------------------------------------------------------

  /** An AUTO request while on only brings the reference back as the active thermometer. */
  function Returned(st: St, inp: Input, cfg: Settings, v: View): (s: St)
    ensures s == st.(active := s.active, ctl := s.ctl)
  {
    if inp.request.RequestAuto? && st.active.UseBackup? && ValidReading(inp.reference, cfg) then
      st.(active := UseReference,
          ctl := if v.level.Some? then Track(st.ctl, v.level.value, inp.reference.value.val.value, inp.target, cfg) else st.ctl)
    else st
  }

  lemma OwnerGoesOn(st: St, cmds: seq<Cmd>, reason: Option<Reason>, inp: Input, cfg: Settings, v: View)
    requires ViewOk(v, inp, cfg) && IsOn(st) && !OffAsked(inp)
    ensures OwnerRule(st, cmds, reason, inp, cfg, v) == Go(Returned(st, inp, cfg, v), cmds, reason)
  {
    hide Stop, EnterAuto, Refusal, Track;
  }

  /** Rule 1 leaves a session that reads a fault as it is, but for a command whose effect shows. */
  lemma FirstWhenFaulty(st: St, inp: Input, cfg: Settings)
    requires WellFormed(st) && IsOn(st) && Fresh(inp, cfg) && Faulty(inp.heater.value)
    ensures var f := FirstRule(st, inp, cfg, ViewOf(inp, cfg));
            f.Go? && IsOn(f.st) && f.st.expected == Some(LeftBurning(st, inp, cfg))
  {
    hide ViewOf;
    FrameSays(inp, cfg);
  }

  /** A fault ends a session that is on. Error code 1, the unit's low battery, stops the heater; any other
      leaves it. */
  lemma FaultEnds(st: St, inp: Input, cfg: Settings)
    requires WellFormed(st) && IsOn(st) && !OffAsked(inp) && Fresh(inp, cfg) && Faulty(inp.heater.value)
    ensures var (st', out) := Step(inp, cfg, st);
            var d, code := inp.heater.value, inp.heater.value.errorCode.GetOr(0);
            if d.installed != Some(0) && code == 1 then
              && StopsHeater(st', out.cmds, LeftBurning(st, inp, cfg), inp.link, inp.now, CauseBatteryLow)
              && out.reason == Some(BatteryLow)
            else
              && LeavesHeater(st', out.cmds)
              && out.reason == Some(if d.installed == Some(0) then HeaterUnknown else if code == 4 then LockedOut
                                    else if 1 <= code <= 15 then FaultCode(code) else HeaterUnknown)
  {
    hide Stop, ViewOf, StopsHeater, FirstRule, OwnerRule, BatteryRule, StoppingRule, LeftBurning, Returned;
    FrameSays(inp, cfg);
    FirstWhenFaulty(st, inp, cfg);
    var v := ViewOf(inp, cfg);
    var f1 := FirstRule(st, inp, cfg, v);
    OwnerGoesOn(f1.st, f1.cmds, f1.reason, inp, cfg, v);
    StopStops(Returned(f1.st, inp, cfg, v), inp.link, inp.now, CauseBatteryLow);
  }

  /** An owner OFF, or the feature disabled, in the night wait stops what the last fresh reading showed. */
  lemma OffWhileWaiting(st: St, inp: Input, cfg: Settings)
    requires WellFormed(st) && st.mode.Waiting? && OffAsked(inp)
    ensures var (st', out) := Step(inp, cfg, st);
            var left := if Fresh(inp, cfg) then ViewOf(inp, cfg).snap.GetOr(st.expected.value) else st.expected.value;
            && StopsHeater(st', out.cmds, left, inp.link && Fresh(inp, cfg), inp.now, OffCause(inp))
            && out.reason == Some(if st'.mode.Stopping? then StoppingNow else if inp.enabled then UserOffDone else DisabledDone)
  {
    hide Stop, ViewOf, StopsHeater, ContinuousRule;
    FrameSays(inp, cfg);
    var v := ViewOf(inp, cfg);
    var st1 := PresetRule(st, inp, cfg, v);
    var st2 := if v.snap.Some? then st1.(expected := v.snap) else st1;
    StopStops(st2, inp.link && v.snap.Some?, inp.now, OffCause(inp));
  }

  /** Equal apart from a level unknown on either side. */
  predicate Matches(a: Snap, b: Snap) {
    a.normal == b.normal && a.permanent == b.permanent && (a.level.Some? && b.level.Some? ==> a.level == b.level)
  }

  /** A stop that waits goes out on the first fresh reading over the link, if the heater still burns as it was
      left; if not, it is dropped. */
  lemma WaitingStopGoesOut(st: St, inp: Input, cfg: Settings)
    requires WellFormed(st) && st.mode.Stopping? && (inp.request.RequestAuto? ==> st.stopSnap.value.why != UserOff)
    ensures var (st', out) := Step(inp, cfg, st);
            var left, v := st.stopSnap.value, ViewOf(inp, cfg);
            if !inp.link || !Fresh(inp, cfg) then
              st' == st && out == Out([], Some(StoppingNow))
            else if v.snap.Some? && Burns(v.snap.value) && !Faulty(inp.heater.value) && Matches(v.snap.value, left.snap) then
              StopsHeater(st', out.cmds, left.snap, true, inp.now, left.why) && out.reason == Some(StoppingNow)
            else
              && LeavesHeater(st', out.cmds)
              && out.reason == Some(if v.snap.Some? && Burns(v.snap.value) && !Faulty(inp.heater.value) then StopDropped
                                    else if left.snap.permanent then ContinuousEnded else RunEnded)
  {
    hide Stop, ViewOf, StopsHeater, EnterAuto, Refusal;
    FrameSays(inp, cfg);
    var left := st.stopSnap.value;
    StopStops(st.(mode := Off, stopSnap := None, expected := Some(left.snap)), true, inp.now, left.why);
  }
}

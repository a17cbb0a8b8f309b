/** What becomes of the command sent last, told of one step: confirmed, overtaken, re-sent, given up, or still
    on its way. */
module ThermostatPending {
  import opened Common
  import opened Thermostat
  import opened ThermostatStops
  import opened ThermostatGuards
  import opened ThermostatEntry

  /** A command whose effect shows is done with, and the heater shown is the one expected from then on; the
      rest of the step is as if none had been pending. */
  lemma ConfirmedGoesOn(st: St, inp: Input, cfg: Settings)
    requires WellFormed(st) && st.pending.Some? && !st.mode.Waiting? && Shown(st, inp, cfg) && !Elsewhere(st, inp, cfg)
    ensures WellFormed(st.(pending := None, expected := ViewOf(inp, cfg).snap))
    ensures Step(inp, cfg, st) == Step(inp, cfg, st.(pending := None, expected := ViewOf(inp, cfg).snap))
  {
    hide ViewOf, LaterRules, WaitingRule;
    FrameSays(inp, cfg);
  }

  /** A heater that somebody else moves during a level command of ours is theirs. */
  lemma MovedLeaves(st: St, inp: Input, cfg: Settings)
    requires WellFormed(st) && IsOn(st) && Elsewhere(st, inp, cfg)
    ensures var (st', out) := Step(inp, cfg, st);
            && LeavesHeater(st', out.cmds)
            && out.reason == Some(if Burns(ShownSnap(inp, cfg)) then ForeignChange
                                  else if st.expected.value.permanent then ContinuousEnded else RunEnded)
  {
    hide ViewOf, LaterRules;
    FrameSays(inp, cfg);
  }

  /** The level sent on entering the night wait is forgotten once it shows, is answered other than OK, or its
      window is over; it is never sent again, and changes nothing else. */
  lemma PresetForgotten(st: St, inp: Input, cfg: Settings)
    requires WellFormed(st) && st.mode.Waiting? && st.pending.Some?
    ensures var (st', out) := Step(inp, cfg, st);
            && (PresetOver(st, inp, cfg) ==> (st', out) == Step(inp, cfg, st.(pending := None)))
            && (!PresetOver(st, inp, cfg) && st'.mode.Waiting? ==> st'.pending == st.pending && out.cmds == [])
  {
    hide ViewOf, Shown, PresetRule, ControlStep, StartLevel;
    PresetIs(st, inp, cfg);
    PresetIs(st.(pending := None), inp, cfg);
  }

  predicate PresetOver(st: St, inp: Input, cfg: Settings) {
    st.pending.Some?
    && (Shown(st, inp, cfg) || inp.now - st.pending.value.since >= cfg.verifyMs
        || (inp.attempt.Some? && inp.attempt.value.result != Ok))
  }

  lemma PresetIs(st: St, inp: Input, cfg: Settings)
    requires WellFormed(st) && st.mode.Waiting?
    ensures PresetRule(st, inp, cfg, ViewOf(inp, cfg)) == if PresetOver(st, inp, cfg) then st.(pending := None) else st
  {
    hide ViewOf;
    FrameSays(inp, cfg);
  }

  // ----- Unconfirmed ---------------------------------------------------------------------------

  predicate AnsweredBusy(inp: Input) {
    (AnswerIs(inp, Busy) || AnswerIs(inp, NotReady)) && inp.link
  }

  /** How an unconfirmed command goes on. A refusal ends it. An answer to try again re-sends it, a start only
      while entry holds. One whose window is over without effect is sent a second time, once; a stop not if
      the heater has changed, a start not if entry no longer holds. */
  datatype Fate = GivenUp | Dropped | SentAgain(tries: int) | OnItsWay

  function FateOf(st: St, inp: Input, cfg: Settings): Fate
    requires st.pending.Some? && st.expected.Some?
  {
    var p := st.pending.value;
    var start := p.cmd.PowerOn? && !MayRestart(p, inp, cfg);
    if AnswerIs(inp, Refused) then GivenUp
    else if AnsweredBusy(inp) then if start then GivenUp else SentAgain(p.tries)
    else if !Overdue(st, inp, cfg) then OnItsWay
    else if IsStop(p.cmd) && !Matches(ViewOf(inp, cfg).snap.GetOr(st.expected.value), st.expected.value) then Dropped
    else if p.tries >= 2 || start then GivenUp else SentAgain(2)
  }

  /** What is sent again: the command, or the whole start if the batch had not got to its power-on. */
  function Batch(st: St, inp: Input): seq<Cmd>
    requires st.pending.Some? && st.expected.Some?
  {
    var cmd := st.pending.value.cmd;
    if cmd.PowerOn? && AnsweredBusy(inp) && !inp.attempt.value.kind.KindPower? then
      [Runtime(inp.runtimeMin), Level(st.expected.value.level.GetOr(0)), PowerOn]
    else [cmd]
  }

  function Awaiting(p: Pending, fate: Fate, now: int): Pending {
    if fate.SentAgain? then p.(since := now, tries := fate.tries) else p
  }

  /** A stop on its way, with no AUTO asked for: unless it shows, its fate is all that happens. A heater that
      reads a fault neither ends it nor sends it again. */
  lemma StopInFlight(st: St, inp: Input, cfg: Settings)
    requires WellFormed(st) && st.mode.Off? && st.pending.Some? && !inp.request.RequestAuto?
    ensures var p, faulty := st.pending.value, Fresh(inp, cfg) && Faulty(inp.heater.value);
            var fate := if faulty then OnItsWay else FateOf(st, inp, cfg);
            Step(inp, cfg, st) ==
              if Shown(st, inp, cfg) then (st.(pending := None, expected := ViewOf(inp, cfg).snap), Out([], None))
              else
                match fate
                case GivenUp => (st.(pending := None), Out([], Some(NotApplied)))
                case Dropped => (st.(pending := None), Out([], Some(StopDropped)))
                case SentAgain(_) => (st.(pending := Some(Awaiting(p, fate, inp.now))), Out([p.cmd], Some(StoppingNow)))
                case OnItsWay => (st, Out([], None))
  {
    hide ViewOf, OnRules, WaitingRule, EnterAuto, Refusal;
    FrameSays(inp, cfg);
  }

  /** Nothing else calls for a decision: a readable heater, the battery not flat, a valid thermometer, no request. */
  predicate Calm(st: St, inp: Input, cfg: Settings) {
    && st.mode.Auto? && inp.enabled && inp.request.NoRequest? && Readable(inp, cfg) && !BatteryFlat(st, inp, cfg)
    && ValidReading(if st.active.UseReference? then inp.reference else inp.backup, cfg)
  }

  /** A level or a start on its way in a calm session: its fate is all that happens. Given up, the session
      ends and leaves the heater. */
  lemma HeatingInFlight(st: St, inp: Input, cfg: Settings)
    requires WellFormed(st) && st.pending.Some? && Calm(st, inp, cfg)
    requires !Shown(st, inp, cfg) && !Elsewhere(st, inp, cfg)
    ensures var p, fate := st.pending.value, FateOf(st, inp, cfg);
            var (st', out) := Step(inp, cfg, st);
            var low := if BatteryLowNow(inp, cfg) then Some(st.battLowSince.GetOr(inp.now)) else None;
            match fate
            case GivenUp => LeavesHeater(st', out.cmds) && out.reason == Some(if p.cmd.PowerOn? then StartNotConfirmed else NotApplied)
            case _ =>
              && st' == st.(pending := Some(Awaiting(p, fate, inp.now)), battLowSince := low)
              && out == Out(if fate.SentAgain? then Batch(st, inp) else [], Some(AutoOn))
  {
    hide ViewOf, LaterRules, WaitingRule, FateOf, Overdue, Fresh;
    FrameSays(inp, cfg);
    HeatingFirst(st, inp, cfg);
    var fate := FateOf(st, inp, cfg);
    if !fate.GivenUp? {
      CalmGoesOn(st.(pending := Some(Awaiting(st.pending.value, fate, inp.now))), if fate.SentAgain? then Batch(st, inp) else [],
                 if fate.SentAgain? then Some(AutoOn) else None, inp, cfg);
    }
  }

  /** Rule 1 of it. */
  lemma HeatingFirst(st: St, inp: Input, cfg: Settings)
    requires WellFormed(st) && st.pending.Some? && Calm(st, inp, cfg)
    requires !Shown(st, inp, cfg) && !Elsewhere(st, inp, cfg)
    ensures var p, fate := st.pending.value, FateOf(st, inp, cfg);
            var f := FirstRule(st, inp, cfg, ViewOf(inp, cfg));
            match fate
            case GivenUp => f == Done(st.(mode := Off, pending := None), [], Some(if p.cmd.PowerOn? then StartNotConfirmed else NotApplied))
            case Dropped => false
            case SentAgain(_) => f == Go(st.(pending := Some(Awaiting(p, fate, inp.now))), Batch(st, inp), Some(AutoOn))
            case OnItsWay => f == Go(st, [], None)
  {
    hide ViewOf;
    FrameSays(inp, cfg);
  }

  /** The later rules of a calm session with a command on its way. */
  lemma CalmGoesOn(st: St, cmds: seq<Cmd>, reason: Option<Reason>, inp: Input, cfg: Settings)
    requires WellFormed(st) && st.pending.Some? && Calm(st, inp, cfg)
    ensures var low := if BatteryLowNow(inp, cfg) then Some(st.battLowSince.GetOr(inp.now)) else None;
            LaterRules(st, cmds, reason, inp, cfg, ViewOf(inp, cfg))
            == Done(st.(battLowSince := low), cmds, Some(reason.GetOr(AutoOn)))
  {
    hide ViewOf, Stop, Refusal, EnterAuto, ApplyControl, ControlStep, LostReferenceRule, StoppingRule, ValidReading;
    FrameSays(inp, cfg);
  }

  /** A second battery that has been low too long stops the heater with a command on its way, too, and a lost
      frame leaves that command pending. */
  lemma BatteryInFlight(st: St, inp: Input, cfg: Settings)
    requires WellFormed(st) && IsOn(st) && st.pending.Some? && inp.enabled && inp.request.NoRequest? && Readable(inp, cfg)
    requires !Shown(st, inp, cfg) && !Elsewhere(st, inp, cfg) && FateOf(st, inp, cfg).OnItsWay? && BatteryFlat(st, inp, cfg)
    ensures var (st', out) := Step(inp, cfg, st);
            && StopsHeater(st', out.cmds, st.expected.value, inp.link, inp.now, CauseBatteryLow)
            && out.reason == Some(BatteryLow)
  {
    hide ViewOf, Stop, StopsHeater, Refusal, EnterAuto, ControlRule, ReferenceRule, StoppingRule;
    FrameSays(inp, cfg);
    StopStops(st.(battLowSince := Some(st.battLowSince.GetOr(inp.now))), inp.link, inp.now, CauseBatteryLow);
  }

  lemma UnreadInFlight(st: St, inp: Input, cfg: Settings)
    requires WellFormed(st) && IsOn(st) && st.pending.Some? && inp.enabled && inp.request.NoRequest? && !Fresh(inp, cfg)
    requires FateOf(st, inp, cfg).OnItsWay?
    ensures Step(inp, cfg, st) == (st, Out([], Some(HeaterUnknown)))
  {
    hide ViewOf, Stop, Refusal, EnterAuto, BatteryRule, ControlRule, ReferenceRule, StoppingRule;
    FrameSays(inp, cfg);
  }

  // ----- AUTO over a stop that protects --------------------------------------------------------

  /** A stop the owner did not ask for is on its way, or waits. */
  predicate Protecting(st: St) {
    || (st.mode.Off? && st.pending.Some? && st.pending.value.why.Some? && st.pending.value.why != Some(UserOff))
    || (st.mode.Stopping? && st.stopSnap.Some? && st.stopSnap.value.why != UserOff)
  }

  /** An AUTO request does nothing to it: unless the stop is confirmed in this step, state and commands are
      those without the request. */
  lemma AutoIgnored(st: St, inp: Input, cfg: Settings)
    requires WellFormed(st) && Protecting(st) && inp.request.RequestAuto? && !(st.pending.Some? && Shown(st, inp, cfg))
    ensures var (st', out) := Step(inp, cfg, st); var (quiet, silent) := Step(inp.(request := NoRequest), cfg, st);
            st' == quiet && out.cmds == silent.cmds
  {
    hide ViewOf, FirstRule, EnterAuto, Refusal, StoppingRule, OnRules, Protecting, HeldStop;
    SameView(inp, cfg);
    FirstProtects(st, inp, cfg);
    var f := FirstRule(st, inp, cfg, ViewOf(inp, cfg));
    if f.Go? && f.st.mode.Stopping? {
      StoppingSame(f, inp, cfg);
    }
  }

  /** Rule 1 leaves such a stop what it is, whether AUTO is asked for or not. */
  lemma FirstProtects(st: St, inp: Input, cfg: Settings)
    requires WellFormed(st) && Protecting(st) && inp.request.RequestAuto? && !(st.pending.Some? && Shown(st, inp, cfg))
    ensures var f := FirstRule(st, inp, cfg, ViewOf(inp, cfg));
            && FirstRule(st, inp.(request := NoRequest), cfg, ViewOf(inp, cfg)) == f
            && (f.Go? ==> f.st.mode == st.mode && (st.mode.Off? || st.mode.Stopping?) && WellFormed(f.st)
                          && HeldStop(f.st).Some? && HeldStop(f.st) != Some(UserOff))
  {
    hide ViewOf;
    FrameSays(inp, cfg);
  }

  lemma StoppingSame(f: Flow, inp: Input, cfg: Settings)
    requires f.st.mode.Stopping? && f.st.stopSnap.Some?
    ensures StoppingRule(f.st, f.cmds, inp.(request := NoRequest), cfg, ViewOf(inp, cfg))
            == StoppingRule(f.st, f.cmds, inp, cfg, ViewOf(inp, cfg))
  {
    hide ViewOf, Stop;
  }

  lemma SameView(inp: Input, cfg: Settings)
    ensures ViewOf(inp.(request := NoRequest), cfg) == ViewOf(inp, cfg)
  {
  }

  // ----- AUTO over the owner's own stop --------------------------------------------------------

  /** The last owner request wins: an accepted AUTO drops the owner's own pending stop, whatever became of it,
      unless that ended in this step. */
  lemma LastRequestWins(st: St, inp: Input, cfg: Settings)
    requires WellFormed(st) && CodeOk(inp) && st.mode.Off? && st.pending.Some? && st.pending.value.why == Some(UserOff)
    requires Accepted(st.(pending := None), inp, cfg)
    requires Shown(st, inp, cfg) || FateOf(st, inp, cfg).SentAgain? || FateOf(st, inp, cfg).OnItsWay?
    ensures Step(inp, cfg, st) == Step(inp, cfg, st.(pending := None))
  {
    hide ViewOf, FailsCheck, ControlStep, StartLevel, ValidReading, Refusal, EnterAuto, FirstRule;
    RefusedByFirst(inp, cfg);
    AcceptedReads(inp, cfg);
    OwnStopFirst(st, inp, cfg);
    var v := ViewOf(inp, cfg);
    var f := FirstRule(st, inp, cfg, v);
    EnterForgets(f.st, st.(pending := None), f.cmds, inp, cfg, v);
    AcceptedGoesOn(st.(pending := None), inp, cfg);
  }

  /** Rule 1 leaves such a stop the owner's, and what it sends again is that stop. */
  lemma OwnStopFirst(st: St, inp: Input, cfg: Settings)
    requires WellFormed(st) && st.mode.Off? && st.pending.Some? && st.pending.value.why == Some(UserOff)
    requires Readable(inp, cfg)
    requires Shown(st, inp, cfg) || FateOf(st, inp, cfg).SentAgain? || FateOf(st, inp, cfg).OnItsWay?
    ensures var f := FirstRule(st, inp, cfg, ViewOf(inp, cfg));
            && f.Go? && f.st == st.(pending := f.st.pending, expected := f.st.expected)
            && (f.st.pending.Some? ==> f.st.pending.value.why == Some(UserOff)) && (f.st.pending.None? ==> f.cmds == [])
  {
    hide ViewOf;
    FrameSays(inp, cfg);
  }

  /** What was pending and expected plays no part in an entry. */
  lemma EnterForgets(a: St, b: St, cmds: seq<Cmd>, inp: Input, cfg: Settings, v: View)
    requires v.snap.Some? && ValidReading(inp.reference, cfg)
    requires a == b.(pending := a.pending, expected := a.expected) && b.pending.None? && (a.pending.None? ==> cmds == [])
    ensures EnterAuto(a, cmds, inp, cfg, v) == EnterAuto(b, [], inp, cfg, v) && EnterAuto(b, [], inp, cfg, v).Done?
  {
    hide ControlStep, StartLevel, ValidReading;
  }
}

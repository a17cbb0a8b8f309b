/** How often a start is sent: once by the owner's request, once more for a readback that does not show it,
    and again for every answer "busy" or "not ready". */
module ThermostatRetry {
  import opened Common
  import opened Thermostat
  import opened ThermostatRuns
  import opened ThermostatSafety

  function PowerOns(cmds: seq<Cmd>): nat {
    multiset(cmds)[PowerOn]
  }

  /** The runner was told to come back later, with the link up. */
  predicate AnsweredBusy(inp: Input) {
    inp.link && (ResultOf(inp) == Some(Busy) || ResultOf(inp) == Some(NotReady))
  }

  /** Such an answer is sent again at once, unless the heater cannot be read. */
  predicate BusyResend(inp: Input, cfg: Settings) {
    AnsweredBusy(inp) && !ViewOf(inp, cfg).hs.Unknown?
  }

  predicate Counted(st: St) {
    StartPending(st) ==> 1 <= st.pending.value.tries <= 2
  }

  // ----- One step ------------------------------------------------------------------------------

  lemma ResendOnce(p: Pending, st: St, inp: Input, full: bool)
    requires p.cmd.PowerOn? && st.expected.Some? && st.expected.value.level.Some?
    ensures PowerOns(Resend(p, st, inp, full)) == 1
  {
  }

  /** What rule 1 makes of a pending start: given up, confirmed, kept, or sent again. */
  ghost predicate FirstStartOk(st: St, f: Flow, inp: Input, v: View)
    requires StartPending(st)
  {
    && (f.Done? ==> !StartPending(f.st) && f.cmds == [])
    && (f.Go? && StartPending(f.st) ==>
          var p, p' := st.pending.value, f.st.pending.value;
          && p' == p.(since := p'.since, tries := p'.tries)
          && (IsFault(v.hs) ==> f.cmds == [])
          && (!IsFault(v.hs) && AnsweredBusy(inp) ==> p'.tries == p.tries && PowerOns(f.cmds) == 1)
          && (!IsFault(v.hs) && !AnsweredBusy(inp) ==>
                || (p'.tries == p.tries && f.cmds == [])
                || (p.tries < 2 == p'.tries && PowerOns(f.cmds) == 1 && !v.hs.Unknown?)))
    && (f.Go? && !StartPending(f.st) ==> f.cmds == [])
  }

  lemma FirstRuleStart(st: St, inp: Input, cfg: Settings, v: View)
    requires WellFormed(st) && StartPending(st) && ViewOk(v, inp, cfg)
    ensures !st.mode.Waiting? && IsOn(st)
    ensures FirstStartOk(st, FirstRule(st, inp, cfg, v), inp, v)
  {
    hide Resend;
    var p := st.pending.value;
    ResendOnce(p, st, inp, true);
    ResendOnce(p, st, inp, false);
  }

  /** The later rules keep a pending start and what rule 1 queued, or end it; with an unreadable heater
      nothing leaves. */
  lemma LaterRulesStart(st: St, cmds: seq<Cmd>, reason: Option<Reason>, inp: Input, cfg: Settings, v: View)
    requires WellFormed(st) && IsOn(st) && StartPending(st) && ViewOk(v, inp, cfg)
    ensures var f := LaterRules(st, cmds, reason, inp, cfg, v);
            StartPending(f.st) ==>
              !IsFault(v.hs) && f.st.pending == st.pending && f.cmds == (if v.hs.Unknown? then [] else cmds)
  {
    hide GuardRules, ReferenceRule, ControlRule, StoppingRule, EnterAuto, ViewOk;
    OwnerStartKept(st, cmds, reason, inp, cfg, v);
    var f2 := OwnerRule(st, cmds, reason, inp, cfg, v);
    if f2.Go? {
      GuardsStart(f2.st, f2.cmds, f2.reason, inp, cfg, v);
      var f3 := GuardRules(f2.st, f2.cmds, f2.reason, inp, cfg, v);
      if f3.Go? {
        TailStart(f3.st, f3.cmds, f3.reason, inp, cfg, v);
      }
    }
  }

  lemma OwnerStartKept(st: St, cmds: seq<Cmd>, reason: Option<Reason>, inp: Input, cfg: Settings, v: View)
    requires WellFormed(st) && IsOn(st) && StartPending(st) && ViewOk(v, inp, cfg)
    ensures var f := OwnerRule(st, cmds, reason, inp, cfg, v);
            && (f.Go? ==> WellFormed(f.st) && f.st.mode == st.mode && f.st.pending == st.pending && f.cmds == cmds)
            && (f.Done? ==> !StartPending(f.st))
  {
    hide ControlStep, Takeover, Proportional, Refusal;
  }

  lemma TailStart(st: St, cmds: seq<Cmd>, reason: Option<Reason>, inp: Input, cfg: Settings, v: View)
    requires IsOn(st) && st.expected.Some? && st.lastCtl.Some? && StartPending(st)
    ensures var f := ReferenceRule(st, cmds, reason, inp, cfg, v);
            && f.st.pending == st.pending && f.cmds == cmds
            && (f.Go? ==> f.st == st && ValidReading(ActiveReading(st, inp), cfg)
                          && ControlRule(st, cmds, f.reason, inp, cfg, v).st == st
                          && ControlRule(st, cmds, f.reason, inp, cfg, v).cmds == cmds)
  {
    hide ControlStep, Track;
  }

  lemma GuardsStart(st: St, cmds: seq<Cmd>, reason: Option<Reason>, inp: Input, cfg: Settings, v: View)
    requires ViewOk(v, inp, cfg)
    ensures IsOn(st) && st.expected.Some? && StartPending(st) ==>
              var f := GuardRules(st, cmds, reason, inp, cfg, v);
              && (StartPending(f.st) ==> !IsFault(v.hs) && f.st.pending == st.pending)
              && (f.Go? ==> StartPending(f.st) && f.cmds == cmds && f.st.mode == st.mode && !v.hs.Unknown?)
              && (f.Go? ==> f.st.expected.Some? && f.st.lastCtl == st.lastCtl)
              && (f.Done? && StartPending(f.st) ==> v.hs.Unknown? && f.cmds == [])
  {
  }

  lemma LaterRulesNoStart(st: St, cmds: seq<Cmd>, reason: Option<Reason>, inp: Input, cfg: Settings, v: View)
    requires WellFormed(st) && Ranged(st, cfg) && IsOn(st) && !StartPending(st)
    requires Queued(st, cmds, inp, cfg, v) && ViewOk(v, inp, cfg) && SettingsOk(cfg)
    ensures var f := LaterRules(st, cmds, reason, inp, cfg, v); !StartPending(f.st) && PowerOn !in f.cmds
  {
    hide Queued, LaterRules, Ranged, Safe;
    LaterRulesOk(st, cmds, reason, inp, cfg, v);
  }

  /** One step with a start pending: it ends in silence, or goes on; a busy answer sends it again without
      counting, any other step at most once in all. */
  lemma StartStep(st: St, inp: Input, cfg: Settings)
    requires WellFormed(st) && Ranged(st, cfg) && SettingsOk(cfg) && StartPending(st) && Counted(st)
    ensures var (st', out) := Step(inp, cfg, st);
            if StartPending(st') then
              var p, p' := st.pending.value, st'.pending.value;
              && p'.first == p.first && p.tries <= p'.tries <= 2
              && PowerOns(out.cmds) == p'.tries - p.tries + (if BusyResend(inp, cfg) then 1 else 0)
              && (AnsweredBusy(inp) ==> p'.tries == p.tries)
            else PowerOn !in out.cmds
  {
    hide ViewOf, FirstRule, LaterRules, Queued, Ranged, Safe;
    var v := ViewOf(inp, cfg);
    FirstRuleStart(st, inp, cfg, v);
    FirstRuleOk(st, inp, cfg, v);
    FirstGoSound(st, inp, cfg, v);
    var f1 := FirstRule(st, inp, cfg, v);
    if f1.Go? {
      if StartPending(f1.st) {
        LaterRulesStart(f1.st, f1.cmds, f1.reason, inp, cfg, v);
        StepTimely(st, inp, cfg);
      } else {
        LaterRulesNoStart(f1.st, f1.cmds, f1.reason, inp, cfg, v);
      }
    }
  }

  lemma StepTimely(st: St, inp: Input, cfg: Settings)
    requires WellFormed(st) && Ranged(st, cfg) && SettingsOk(cfg)
    ensures PowerOn in Step(inp, cfg, st).1.cmds ==> StartPending(Step(inp, cfg, st).0)
  {
    hide Step, Safe;
    StepOk(inp, cfg, st);
  }

  lemma EnterAutoBegins(st: St, cmds: seq<Cmd>, inp: Input, cfg: Settings, v: View)
    requires v.snap.Some? && ValidReading(inp.reference, cfg)
    ensures var f := EnterAuto(st, cmds, inp, cfg, v);
            f.Done? && (StartPending(f.st) ==> f.st.pending.value.tries == 1 && PowerOns(f.cmds) == 1)
  {
    hide ControlStep;
  }

  lemma LaterRulesBegin(st: St, cmds: seq<Cmd>, reason: Option<Reason>, inp: Input, cfg: Settings, v: View)
    requires WellFormed(st) && Ranged(st, cfg) && !st.mode.Waiting? && !StartPending(st)
    requires Queued(st, cmds, inp, cfg, v) && ViewOk(v, inp, cfg) && SettingsOk(cfg)
    ensures var f := LaterRules(st, cmds, reason, inp, cfg, v);
            StartPending(f.st) ==> f.st.pending.value.tries == 1 && PowerOns(f.cmds) == 1
  {
    hide Queued, Ranged, Safe, EnterAuto, StoppingRule, OnRules, Stop, Proportional;
    LaterRulesOk(st, cmds, reason, inp, cfg, v);
    if StartAccepted(st, inp, cfg, v) {
      assert v.snap.Some? && ValidReading(inp.reference, cfg);
      assert OwnerRule(st, cmds, reason, inp, cfg, v) == EnterAuto(st, cmds, inp, cfg, v);
      EnterAutoBegins(st, cmds, inp, cfg, v);
    }
  }

  /** A start begins with one power-on. */
  lemma StartBegins(st: St, inp: Input, cfg: Settings)
    requires WellFormed(st) && Ranged(st, cfg) && SettingsOk(cfg) && !StartPending(st)
    ensures var (st', out) := Step(inp, cfg, st);
            if StartPending(st') then st'.pending.value.tries == 1 && PowerOns(out.cmds) == 1 else PowerOn !in out.cmds
  {
    hide ViewOf, FirstRule, LaterRules, WaitingRule, Queued, Ranged, Safe;
    var v := ViewOf(inp, cfg);
    FirstRuleOk(st, inp, cfg, v);
    StepTimely(st, inp, cfg);
    var f1 := FirstRule(st, inp, cfg, v);
    if f1.Go? {
      if f1.st.mode.Waiting? {
        WaitingRuleOk(f1.st, inp, cfg, v);
      } else {
        LaterRulesBegin(f1.st, f1.cmds, f1.reason, inp, cfg, v);
      }
    }
  }

  // ----- Over a run ----------------------------------------------------------------------------

  /** The power-ons sent by the inputs from `j` to before `k`. */
  function Sent(ins: seq<Input>, cfg: Settings, j: nat, k: nat): nat
    requires k <= |ins| && SettingsOk(cfg)
    decreases k
  {
    if k <= j then 0 else Sent(ins, cfg, j, k - 1) + PowerOns(OutAt(ins, cfg, k - 1).cmds)
  }

  /** The busy answers sent again among the same inputs. */
  function BusyResends(ins: seq<Input>, cfg: Settings, j: nat, k: nat): nat
    requires k <= |ins|
    decreases k
  {
    if k <= j then 0 else BusyResends(ins, cfg, j, k - 1) + if BusyResend(ins[k - 1], cfg) then 1 else 0
  }

  lemma StepAt(ins: seq<Input>, cfg: Settings, k: nat)
    requires 0 < k <= |ins| && SettingsOk(cfg)
    ensures var st, st', cmds := StateAt(ins, cfg, k - 1), StateAt(ins, cfg, k), OutAt(ins, cfg, k - 1).cmds;
            && (StartPending(st) && Counted(st) && StartPending(st') ==>
                  && st.pending.value.tries <= st'.pending.value.tries <= 2
                  && PowerOns(cmds) == st'.pending.value.tries - st.pending.value.tries
                                       + (if BusyResend(ins[k - 1], cfg) then 1 else 0))
            && (!StartPending(st) && StartPending(st') ==> st'.pending.value.tries == 1 && PowerOns(cmds) == 1)
            && (!StartPending(st') ==> PowerOn !in cmds)
  {
    hide Step;
    var st := StateAt(ins, cfg, k - 1);
    StepTimely(st, ins[k - 1], cfg);
    if StartPending(st) {
      if Counted(st) {
        StartStep(st, ins[k - 1], cfg);
      }
    } else {
      StartBegins(st, ins[k - 1], cfg);
    }
  }

  function Tries(st: St): int {
    if StartPending(st) then st.pending.value.tries else 0
  }

  /** A start that begins with input `j` is pending ever since. */
  predicate PendingSince(ins: seq<Input>, cfg: Settings, j: nat, k: nat)
    requires j < k <= |ins| && SettingsOk(cfg)
  {
    !StartPending(StateAt(ins, cfg, j)) && forall i :: j < i <= k ==> StartPending(StateAt(ins, cfg, i))
  }

  /** The power-ons sent for a start still pending: the owner's, one for each busy answer sent again, and
      one if the verify window was retried, which happens at most once. */
  lemma {:induction false} StartCount(ins: seq<Input>, cfg: Settings, j: nat, k: nat)
    requires j < k <= |ins| && SettingsOk(cfg) && PendingSince(ins, cfg, j, k)
    ensures var tries := Tries(StateAt(ins, cfg, k));
            1 <= tries <= 2 && Sent(ins, cfg, j, k) == 1 + BusyResends(ins, cfg, j + 1, k) + (tries - 1)
    decreases k
  {
    hide StateAt, OutAt, PowerOns, BusyResend;
    StepAt(ins, cfg, k);
    if k > j + 1 {
      StartCount(ins, cfg, j, k - 1);
    } else {
      assert Sent(ins, cfg, j, j) == 0 && BusyResends(ins, cfg, j + 1, k) == 0;
    }
  }

  /** The step that ends a start sends none. */
  lemma StartEndsSilent(ins: seq<Input>, cfg: Settings, j: nat, k: nat)
    requires j <= k < |ins| && SettingsOk(cfg) && !StartPending(StateAt(ins, cfg, k + 1))
    ensures Sent(ins, cfg, j, k + 1) == Sent(ins, cfg, j, k)
  {
    hide StateAt, OutAt;
    StepAt(ins, cfg, k + 1);
  }

  /** For any start of a run: its owner request, and when at most two power-ons leave for it, namely
      exactly if its busy answers sent again and its one retry are together at most one. */
  lemma AtMostTwoExactly(ins: seq<Input>, cfg: Settings, k: nat) returns (j: nat)
    requires k <= |ins| && SettingsOk(cfg) && StartPending(StateAt(ins, cfg, k))
    ensures j < k && OwnerStart(StateAt(ins, cfg, j), ins[j], cfg)
    ensures PendingSince(ins, cfg, j, k)
    ensures var retried := Tries(StateAt(ins, cfg, k)) - 1;
            && 0 <= retried <= 1
            && Sent(ins, cfg, j, k) == 1 + BusyResends(ins, cfg, j + 1, k) + retried
            && (Sent(ins, cfg, j, k) <= 2 <==> BusyResends(ins, cfg, j + 1, k) + retried <= 1)
  {
    hide StateAt, OutAt, Sent, BusyResends;
    j := StartOrigin(ins, cfg, k);
    OwnerNotPending(StateAt(ins, cfg, j), ins[j], cfg);
    StartCount(ins, cfg, j, k);
  }

  lemma OwnerNotPending(st: St, inp: Input, cfg: Settings)
    requires WellFormed(st) && OwnerStart(st, inp, cfg)
    ensures !StartPending(st)
  {
  }

  // ----- Three power-ons from boot -------------------------------------------------------------

  /** Camping, ignition off, 18 degrees wanted 20, the heater read off just now. */
  function Evening(now: int, request: Request, attempt: Option<Attempt>): Input {
    Input(now, true, request, 2000, 120, Some(Reading(Some(1800), Some(0))), None, None, false,
          Some(RawHeater(Some(1), Some(0), Some(0), Some(0), Some(0), Some(5), Some(0))), Some(0), true,
          true, false, Some(false), None, attempt, false)
  }

  function Begin(): Input {
    Evening(0, RequestAuto, None)
  }

  function BusyAt(now: int): Input {
    Evening(now, NoRequest, Some(Attempt(KindPower, Busy)))
  }

  /** The session with the start pending, last sent at `since`. */
  function Started(since: int): St {
    St(Auto, UseReference, Ctl(0, 0, None, 3000, None), Some(Pending(PowerOn, since, 1, 0, None, None)),
       Some(Snap(true, false, Some(3))), None, None, Some(0), false, None, None)
  }

  lemma BeginStarts()
    ensures Step(Begin(), DEFAULTS, Initial()) == (Started(0), Out([Runtime(120), Level(3), PowerOn], Some(Start)))
  {
    BeginControl();
    hide ControlStep;
  }

  lemma BeginControl()
    ensures ControlStep(1800, None, 2000, 0, Ctl(0, 0, None, 0, Some(0)), DEFAULTS, None, 0)
            == Control(Some(3), Ctl(0, 0, None, 3000, None), LevelUp)
  {
    assert RDiv(300000, 100) == 3000;
    assert RDiv(0, 6000000) == 0;
    assert RDiv(3000, 1000) == 3;
  }

  /** Each "busy" sends the start again and leaves its one retry open. */
  lemma BusyIsNotCounted(since: int, now: int)
    requires 0 <= since < now <= 180000
    ensures WellFormed(Started(since))
    ensures Step(BusyAt(now), DEFAULTS, Started(since)) == (Started(now), Out([PowerOn], Some(AutoOn)))
  {
    hide ControlStep;
  }

  /** From boot, one request and two "busy" answers send three power-ons. */
  lemma ThreeSends()
    ensures var ins := [Begin(), BusyAt(1000), BusyAt(2000)];
            SettingsOk(DEFAULTS) && StateAt(ins, DEFAULTS, 3) == Started(2000) && Sent(ins, DEFAULTS, 0, 3) == 3
  {
    hide Step, Evening, Started, Initial;
    var ins := [Begin(), BusyAt(1000), BusyAt(2000)];
    BeginStarts();
    BusyIsNotCounted(0, 1000);
    BusyIsNotCounted(1000, 2000);
    RunStep(ins, 0);
    RunStep(ins, 1);
    RunStep(ins, 2);
    assert Sent(ins, DEFAULTS, 0, 1) == 1;
    assert Sent(ins, DEFAULTS, 0, 2) == 2;
  }

  lemma RunStep(ins: seq<Input>, k: nat)
    requires k < |ins| && SettingsOk(DEFAULTS)
    ensures StateAt(ins, DEFAULTS, 0) == Initial()
    ensures (StateAt(ins, DEFAULTS, k + 1), OutAt(ins, DEFAULTS, k)) == Step(ins[k], DEFAULTS, StateAt(ins, DEFAULTS, k))
  {
    hide Step;
  }
}

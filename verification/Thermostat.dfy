/** The cabin thermostat: entities, the integer control law and the session rules as functions.

    Times are integer milliseconds, temperatures centi-degrees, demands milli-levels. One call of
    the session is `Step`; it is the composition of the ordered rules of the source, each of which
    either ends the step (`Done`) or hands the working state on (`Go`). */
module Thermostat {
  import opened Common

  // ----- Settings, readings and inputs ---------------------------------------------------------

  datatype Settings = Settings(
    periodMs: int, kp: int, ki: int, ka: int, uOutMax: int, hyst: int, minDwellMs: int,
    bandHi: int, hotHoldMs: int, overheat: int, minLevel: int, staleAfterMs: int,
    heaterStaleMs: int, battMinDv: int, battHoldMs: int, verifyMs: int,
    nightWaitMs: int, nightConfirmMs: int)

  /** The settings as shipped. */
  const DEFAULTS := Settings(60000, 1500, 50, 100, 3000, 500, 300000, 200, 900000, 400, 1, 600000, 180000, 119, 300000,
                             10000, 300000, 30000)

  /** Levels the heater knows are 1..10; a usable minimum is one of them. */
  predicate LevelsOk(cfg: Settings) {
    1 <= cfg.minLevel <= 10
  }

  /** A sensor reading; the value or its age may be missing. */
  datatype Reading = Reading(val: Option<int>, age: Option<int>)

  /** The raw decoded air-heater frame; every field may be missing. */
  datatype RawHeater = RawHeater(
    installed: Option<int>, errorCode: Option<int>, faultTrigger: Option<int>,
    permanent: Option<int>, normal: Option<int>, heatingLevel: Option<int>,
    operationMode: Option<int>)

  datatype Request = NoRequest | RequestAuto | RequestOff
  datatype CmdKind = KindRuntime | KindLevel | KindPower | KindPermanent
  datatype CmdResult = Ok | Refused | Busy | NotReady | OtherResult

  /** The outcome of the last command the runner attempted. */
  datatype Attempt = Attempt(kind: CmdKind, result: CmdResult)

  datatype Input = Input(
    now: int, enabled: bool, request: Request, target: int, runtimeMin: int,
    reference: Option<Reading>, backup: Option<Reading>, outside: Option<Reading>,
    outsideOn: bool, heater: Option<RawHeater>, heaterAge: Option<int>, link: bool,
    camping: bool, shore: bool, ignition: Option<bool>, batt2: Option<int>,
    attempt: Option<Attempt>, night: bool)

  // ----- Session state -------------------------------------------------------------------------

  datatype Mode = Off | Auto | Degraded | Stopping | Waiting
  datatype Sensor = UseReference | UseBackup
  datatype Cause = UserOff | Disabled | CauseOverheat | CauseTargetExceeded | CauseBatteryLow

  datatype Cmd = Runtime(minutes: int) | Level(level: int) | PowerOn | PowerOff | PermanentOff

  predicate IsStop(c: Cmd) {
    c.PowerOff? || c.PermanentOff?
  }

  /** A command on its way: when it left last and first, how often, the level the heater had then, and
      for a stop its cause. */
  datatype Pending = Pending(cmd: Cmd, since: int, tries: int, first: int, before: Option<int>, why: Option<Cause>)

  datatype Snap = Snap(normal: bool, permanent: bool, level: Option<int>)
  datatype StopSnap = StopSnap(snap: Snap, why: Cause)
  datatype Ctl = Ctl(i: int, lastChange: int, hotSince: Option<int>, u: int, uOut: Option<int>)

  datatype St = St(
    mode: Mode, active: Sensor, ctl: Ctl, pending: Option<Pending>, expected: Option<Snap>,
    battLowSince: Option<int>, stopSnap: Option<StopSnap>, lastCtl: Option<int>, night: bool,
    waitUntil: Option<int>, contSince: Option<int>)

  function Initial(): St {
    St(Off, UseReference, Ctl(0, 0, None, 0, None), None, None, None, None, None, false, None, None)
  }

  datatype Reason =
    | AutoOn | RefusedDisabled | RefusedNoLink | RefusedStaleHeater | RefusedNotInstalled
    | RefusedFault | RefusedTimerArmed | RefusedNoCamping | RefusedIgnition | RefusedNoReference
    | RefusedWarm | Start | AdoptRun | AdoptContinuous | LevelUp | LevelDown | Hold
    | TargetExceeded | Overheat | BackupSelected | ReferenceSelected | ReferenceLost
    | OutsideInactive | FaultCode(code: int) | LockedOut | ForeignChange | NotApplied
    | StartNotConfirmed | RunEnded | ContinuousEnded | BatteryLow | HeaterUnknown
    | UserOffDone | DisabledDone | StoppingNow | StopDropped | WaitingForContinuous
    | NightWaitEnded | HoldAtMinLevel

  datatype Out = Out(cmds: seq<Cmd>, reason: Option<Reason>)

  // ----- Arithmetic ----------------------------------------------------------------------------

  /** The quotient of magnitudes, a half rounded up. */
  function RoundHalfUp(n: nat, m: nat): nat
    requires m > 0
  {
    if 2 * (n % m) >= m then n / m + 1 else n / m
  }

  /** Signed division to the nearest integer; a tie goes to the larger magnitude. */
  function RDiv(a: int, b: int): int
    requires b != 0
  {
    var n: int := RoundHalfUp(Abs(a), Abs(b));
    if (a < 0) == (b < 0) then n else -n
  }

  // ----- The heater as seen by a step ----------------------------------------------------------

  datatype HeaterState = HeaterOff | Running | Continuous | TimerArmed | Fault | Locked | Blocked | Unknown

  predicate Truthy(v: Option<int>) {
    v.Some? && v.value != 0
  }

  predicate IsFault(h: HeaterState) {
    h.Fault? || h.Locked? || h.Blocked?
  }

  predicate IsHeating(h: HeaterState) {
    h.Running? || h.Continuous?
  }

  /** State, level and error code of a raw frame of the given age. */
  function ReadHeater(heater: Option<RawHeater>, age: Option<int>, cfg: Settings): (HeaterState, Option<int>, int) {
    if heater.None? || age.None? || age.value > cfg.heaterStaleMs then (Unknown, None, 0)
    else
      var d := heater.value;
      if d.installed == Some(0) then (Fault, None, -1)
      else
        var level := if d.heatingLevel.Some? && 1 <= d.heatingLevel.value <= 10 then d.heatingLevel else None;
        var err := d.errorCode.GetOr(0);
        var state :=
          if err == 4 then Locked
          else if err == 5 then Blocked
          else if err != 0 || Truthy(d.faultTrigger) then Fault
          else if Truthy(d.permanent) then Continuous
          else if Truthy(d.normal) then Running
          else if d.operationMode == Some(3) then TimerArmed
          else HeaterOff;
        (state, level, err)
  }

  /** What one step derives from its inputs before any rule: heater state, level, error code, the
      snapshot of a fresh reading and the outside temperature in use. */
  datatype View = View(hs: HeaterState, level: Option<int>, code: int, snap: Option<Snap>, tOut: Option<int>)

  predicate ValidReading(r: Option<Reading>, cfg: Settings) {
    r.Some? && r.value.val.Some? && r.value.age.Some? && r.value.age.value <= cfg.staleAfterMs
  }

  /** A snapshot exists exactly for a fresh reading, and shows the level read. */
  predicate ViewOk(v: View, inp: Input, cfg: Settings) {
    && (v.snap.Some? <==> !v.hs.Unknown?)
    && (v.snap.Some? ==> inp.heaterAge.Some? && inp.heaterAge.value <= cfg.heaterStaleMs && v.snap.value.level == v.level)
    && (v.level.Some? ==> v.snap.Some? && 1 <= v.level.value <= 10)
  }

  function ViewOf(inp: Input, cfg: Settings): (v: View)
    ensures ViewOk(v, inp, cfg)
  {
    var (hs, level, code) := ReadHeater(inp.heater, inp.heaterAge, cfg);
    var snap := if hs.Unknown? then None
                else Some(Snap(Truthy(inp.heater.value.normal), Truthy(inp.heater.value.permanent), level));
    var tOut := if inp.outsideOn && ValidReading(inp.outside, cfg) then inp.outside.value.val else None;
    View(hs, level, code, snap, tOut)
  }

  // ----- The control law -----------------------------------------------------------------------

  function FeedForward(tOut: Option<int>, target: int, cfg: Settings): Option<int> {
    if tOut.None? then None
    else Some(Min(Max(RDiv(cfg.ka * Max(0, target - tOut.value), 100), 0), cfg.uOutMax))
  }

  function Proportional(tRef: int, target: int, cfg: Settings): int {
    RDiv(cfg.kp * (target - tRef), 100)
  }

  /** The integrator after the outside share has moved in or out of it. */
  function Bumpless(i: int, prev: Option<int>, uOut: Option<int>, curLevel: Option<int>): int {
    if curLevel.Some? && prev.None? != uOut.None? then i + prev.GetOr(0) - uOut.GetOr(0) else i
  }

  predicate Frozen(uOld: int, e: int, dt: int, cfg: Settings) {
    dt > 3 * cfg.periodMs || (uOld < cfg.minLevel * 1000 && e < 0) || (uOld > 10000 && e > 0)
  }

  /** The new integrator and demand of one control step. */
  function Integrate(tRef: int, tOut: Option<int>, target: int, dt: int, ctl: Ctl, cfg: Settings, curLevel: Option<int>): (int, int) {
    var e := target - tRef;
    var p := Proportional(tRef, target, cfg);
    var uOut := FeedForward(tOut, target, cfg);
    var i := Bumpless(ctl.i, ctl.uOut, uOut, curLevel);
    var ff := uOut.GetOr(0);
    var i' := if Frozen(p + i + ff, e, dt, cfg) then i else i + RDiv(cfg.ki * e * dt, 100 * 60000);
    (i', p + i' + ff)
  }

  /** The level of a demand, clamped to the heater's usable range. */
  function LevelOf(u: int, cfg: Settings): int {
    Min(Max(RDiv(u, 1000), cfg.minLevel), 10)
  }

  datatype Control = Control(level: Option<int>, ctl: Ctl, reason: Reason)

  function ControlStep(tRef: int, tOut: Option<int>, target: int, dt: int, ctl: Ctl, cfg: Settings, curLevel: Option<int>, now: int): Control {
    var (i, u) := Integrate(tRef, tOut, target, dt, ctl, cfg, curLevel);
    var hot := curLevel == Some(cfg.minLevel) && tRef > target + cfg.bandHi;
    var hotSince := if hot then Some(ctl.hotSince.GetOr(now)) else None;
    var next := Ctl(i, ctl.lastChange, hotSince, u, FeedForward(tOut, target, cfg));
    if tRef > target + cfg.overheat then Control(None, next, Overheat)
    else if hotSince.Some? && now - hotSince.value >= cfg.hotHoldMs then Control(None, next, TargetExceeded)
    else
      var level := LevelOf(u, cfg);
      if curLevel.None? then Control(Some(level), next, LevelUp)
      else if level == curLevel.value || Abs(u - curLevel.value * 1000) < 500 + cfg.hyst
              || now - ctl.lastChange < cfg.minDwellMs
      then Control(None, next, Hold)
      else Control(Some(level), next.(lastChange := now), if level > curLevel.value then LevelUp else LevelDown)
  }

  /** The controller whose next demand equals the current level. */
  function Track(ctl: Ctl, curLevel: int, tRef: int, target: int, cfg: Settings): Ctl {
    ctl.(i := curLevel * 1000 - Proportional(tRef, target, cfg) - ctl.uOut.GetOr(0))
  }

  // ----- Helpers of the session rules ----------------------------------------------------------

  /** Equal apart from a level unknown on either side. */
  predicate Same(a: Snap, b: Snap) {
    a.normal == b.normal && a.permanent == b.permanent
    && (a.level.None? || b.level.None? || a.level == b.level)
  }

  /** The readback shows the command's effect. */
  predicate Applied(c: Cmd, snap: Snap) {
    match c
    case Level(v) => snap.level == Some(v)
    case PermanentOff => !snap.permanent
    case PowerOn => snap.normal
    case PowerOff => !snap.normal
    case Runtime(_) => false
  }

  function Pend(cmd: Cmd, now: int, before: Option<int>, why: Option<Cause>): Pending {
    Pending(cmd, now, 1, now, before, why)
  }

  /** Entry still holds, soon after the first send. */
  predicate StartRetryOk(p: Pending, inp: Input, cfg: Settings) {
    inp.now - p.first <= cfg.heaterStaleMs && inp.enabled && (inp.camping || inp.shore)
    && inp.ignition == Some(false) && ValidReading(inp.reference, cfg)
  }

  function Resend(p: Pending, st: St, inp: Input, full: bool): seq<Cmd>
    requires p.cmd.PowerOn? ==> st.expected.Some? && st.expected.value.level.Some?
  {
    if full && p.cmd.PowerOn? then [Runtime(inp.runtimeMin), Level(st.expected.value.level.value), PowerOn]
    else [p.cmd]
  }

  function Stop(st: St, canSend: bool, now: int, why: Cause): (St, seq<Cmd>) {
    var e := st.expected.GetOr(Snap(false, false, None));
    var off := st.(pending := None, mode := Off);
    if !e.permanent && !e.normal then (off, [])
    else
      var what := if e.permanent then PermanentOff else PowerOff;
      if canSend then (off.(pending := Some(Pend(what, now, None, Some(why)))), [what])
      else (off.(mode := Stopping, stopSnap := Some(StopSnap(e, why))), [])
  }

  function End(st: St): St {
    st.(mode := Off, pending := None)
  }

  function FaultReason(code: int): Reason {
    if code == 4 then LockedOut else if 1 <= code <= 15 then FaultCode(code) else HeaterUnknown
  }

  /** The level to start from: a controller that gave none (overheat) starts at the minimum. */
  function StartLevel(c: Control, cfg: Settings): int {
    if c.level.Some? && c.level.value != 0 then c.level.value else cfg.minLevel
  }

  /** Send a level and remember it as pending and expected. */
  function SendLevel(st: St, lvl: int, ctl: Ctl, before: Option<int>, now: int): (St, seq<Cmd>)
    requires st.expected.Some?
  {
    (st.(pending := Some(Pend(Level(lvl), now, before, None)),
         expected := Some(st.expected.value.(level := Some(lvl))),
         ctl := ctl.(lastChange := now)),
     [Level(lvl)])
  }

  /** The session that takes the heater as it is, before its controller starts. */
  function TakeoverBase(st: St, snap: Snap, now: int): St {
    st.(pending := None, expected := Some(snap), lastCtl := Some(now),
        ctl := Ctl(0, st.ctl.lastChange, None, 0, Some(0)))
  }

  /** Adopt the heater as it runs, with a fresh controller whose level leaves unless it runs at it. */
  function Takeover(st: St, snap: Snap, level: Option<int>, tRef: Option<int>, tOut: Option<int>, inp: Input, cfg: Settings): (St, seq<Cmd>) {
    var base := TakeoverBase(st, snap, inp.now);
    if tRef.None? then (base, [])
    else
      var c := ControlStep(tRef.value, tOut, inp.target, 0, base.ctl, cfg, None, inp.now);
      var lvl := StartLevel(c, cfg);
      if Some(lvl) == level || !inp.link then (base.(ctl := c.ctl), [])
      else SendLevel(base, lvl, c.ctl, level, inp.now)
  }

  /** The first entry check an owner AUTO request fails. */
  function Refusal(inp: Input, cfg: Settings, v: View): Option<Reason> {
    if !inp.enabled then Some(RefusedDisabled)
    else if !inp.link then Some(RefusedNoLink)
    else if v.hs.Unknown? then Some(RefusedStaleHeater)
    else if v.code == -1 then Some(RefusedNotInstalled)
    else if IsFault(v.hs) then Some(RefusedFault)
    else if v.hs.TimerArmed? then Some(RefusedTimerArmed)
    else if !(inp.camping || inp.shore) then Some(RefusedNoCamping)
    else if inp.ignition != Some(false) then Some(RefusedIgnition)
    else if !ValidReading(inp.reference, cfg) then Some(RefusedNoReference)
    else if !inp.night && v.hs.HeaterOff? && inp.reference.value.val.value > inp.target + cfg.bandHi then Some(RefusedWarm)
    else None
  }

  // ----- The well-formed session ---------------------------------------------------------------

  predicate IsOn(st: St) {
    st.mode.Auto? || st.mode.Degraded?
  }

  /** A stop snapshot, of a heater running then, exists exactly in STOPPING, where nothing is
      pending; a pending stop, with its
      cause, exactly in OFF; in WAITING only a level is pending. */
  predicate Sound(st: St) {
    && (st.mode.Stopping? <==> st.stopSnap.Some?)
    && (st.mode.Stopping? ==> st.pending.None?)
    && (st.stopSnap.Some? ==> st.stopSnap.value.snap.normal || st.stopSnap.value.snap.permanent)
    && (st.pending.Some? ==> PendingSound(st.pending.value, st))
    && (IsOn(st) ==> st.expected.Some? && st.lastCtl.Some?)
    && (st.mode.Waiting? ==> st.expected.Some?)
  }

  predicate PendingSound(p: Pending, st: St) {
    && !p.cmd.Runtime?
    && (IsStop(p.cmd) <==> st.mode.Off?)
    && (IsStop(p.cmd) <==> p.why.Some?)
    && (st.mode.Waiting? ==> p.cmd.Level?)
    && st.expected.Some?
    && (p.cmd.PowerOn? ==> st.expected.value.level.Some?)
  }

  /** In WAITING there is a deadline, and continuous heating was first seen before it. */
  predicate NightSound(st: St) {
    st.mode.Waiting? ==> st.waitUntil.Some? && (st.contSince.Some? ==> st.contSince.value < st.waitUntil.value)
  }

  /** What every reachable session satisfies; it makes every rule's field accesses defined. Outside
      WAITING both night timers are cleared, and OFF clears the night setting. */
  predicate WellFormed(st: St) {
    && Sound(st)
    && NightSound(st)
    && (!st.mode.Waiting? ==> st.waitUntil.None? && st.contSince.None?)
    && (st.mode.Off? ==> !st.night)
  }

  // ----- The rules of one step -----------------------------------------------------------------

  /** A rule ends the step (`Done`) or hands the working state on (`Go`). */
  datatype Flow =
    | Done(st: St, cmds: seq<Cmd>, reason: Option<Reason>)
    | Go(st: St, cmds: seq<Cmd>, reason: Option<Reason>)

  /** The heater frame was read after the pending command was sent. */
  predicate ReadAfter(p: Pending, inp: Input, v: View)
    requires v.snap.Some? ==> inp.heaterAge.Some?
  {
    v.snap.Some? && inp.now - inp.heaterAge.value >= p.since
  }

  predicate OwnerOff(st: St, inp: Input) {
    IsOn(st) && (inp.request.RequestOff? || !inp.enabled)
  }

  function ResultOf(inp: Input): Option<CmdResult> {
    if inp.attempt.Some? then Some(inp.attempt.value.result) else None
  }

  /** While a level of ours is pending, a fresh reading shows a level or mode nobody here asked for. */
  predicate Moved(p: Pending, e: Snap, inp: Input, v: View)
    requires v.snap.Some? ==> inp.heaterAge.Some?
  {
    p.cmd.Level? && ReadAfter(p, inp, v) && !IsFault(v.hs)
    && (|| (v.level.Some? && v.level != Some(p.cmd.level) && v.level != p.before)
        || v.snap.value.normal != e.normal
        || v.snap.value.permanent != e.permanent)
  }

  /** Rule 1 in WAITING: the level sent on entry is forgotten once shown, answered or overdue. */
  function PresetRule(st: St, inp: Input, cfg: Settings, v: View): St
    requires ViewOk(v, inp, cfg)
  {
    if st.pending.None? then st
    else
      var p := st.pending.value;
      var res := ResultOf(inp);
      if || (ReadAfter(p, inp, v) && Applied(p.cmd, v.snap.value))
         || (res.Some? && !res.value.Ok?)
         || inp.now - p.since >= cfg.verifyMs
      then st.(pending := None) else st
  }

  /** Rule 1, nothing read back yet: an unanswered verify window is retried once, then given up. */
  function RetryRule(st: St, inp: Input, cfg: Settings, v: View): Flow
    requires WellFormed(st) && st.pending.Some? && !st.mode.Waiting? && v.snap.Some?
  {
    var p := st.pending.value;
    if IsStop(p.cmd) && !Same(v.snap.value, st.expected.value) then
      Done(st.(pending := None), [], Some(StopDropped))
    else if p.tries >= 2 || (p.cmd.PowerOn? && !StartRetryOk(p, inp, cfg)) then
      // an owner OFF in this step: rule 2 stops the heater instead
      if p.cmd.Level? && OwnerOff(st, inp) then Go(st, [], None)
      else Done(if IsStop(p.cmd) then st.(pending := None) else End(st), [], Some(Failure(p)))
    else Go(st.(pending := Some(p.(since := inp.now, tries := 2))), Resend(p, st, inp, false), Some(Sending(p)))
  }

  function Failure(p: Pending): Reason {
    if p.cmd.PowerOn? then StartNotConfirmed else NotApplied
  }

  function Sending(p: Pending): Reason {
    if IsStop(p.cmd) then StoppingNow else AutoOn
  }

  /** Rule 1 outside WAITING: what became of the command sent last. */
  function PendingRule(st: St, inp: Input, cfg: Settings, v: View): Flow
    requires WellFormed(st) && st.pending.Some? && !st.mode.Waiting?
    requires ViewOk(v, inp, cfg)
  {
    var p := st.pending.value;
    var res := ResultOf(inp);
    var e := st.expected.value;
    if Moved(p, e, inp, v) then
      Done(End(st), [],
           Some(if !v.snap.value.normal && !v.snap.value.permanent
                then (if e.permanent then ContinuousEnded else RunEnded) else ForeignChange))
    else if ReadAfter(p, inp, v) && Applied(p.cmd, v.snap.value) then
      Go(st.(pending := None, expected := v.snap), [], None)
    else if IsFault(v.hs) || (p.cmd.Level? && res == Some(Refused) && OwnerOff(st, inp)) then
      Go(st, [], None)
    else if res == Some(Refused) then
      Done(if IsStop(p.cmd) then st.(pending := None) else End(st), [], Some(Failure(p)))
    else if (res == Some(Busy) || res == Some(NotReady)) && inp.link then
      if p.cmd.PowerOn? && !StartRetryOk(p, inp, cfg) then Done(End(st), [], Some(Failure(p)))
      else Go(st.(pending := Some(p.(since := inp.now))),
              Resend(p, st, inp, !inp.attempt.value.kind.KindPower?), Some(Sending(p)))
    else if ReadAfter(p, inp, v) && inp.link && inp.now - p.since >= cfg.verifyMs then
      RetryRule(st, inp, cfg, v)
    else Go(st, [], None)
  }

  /** Rule W with continuous heating shown: taken over once a frame read long enough after the
      first sight, itself before the deadline, still shows it. */
  function ContinuousRule(st: St, inp: Input, cfg: Settings, v: View): Flow
    requires st.mode.Waiting? && st.waitUntil.Some? && v.snap.Some?
    requires ViewOk(v, inp, cfg)
  {
    if st.contSince.None? && inp.now >= st.waitUntil.value then
      Done(End(st), [], Some(NightWaitEnded))
    else
      var st1 := st.(contSince := Some(st.contSince.GetOr(inp.now)));
      if inp.now - inp.heaterAge.value - st1.contSince.value < cfg.nightConfirmMs then
        Done(st1, [], Some(WaitingForContinuous))
      else
        var tRef := if ValidReading(inp.reference, cfg) then inp.reference.value.val else None;
        var (s, cmds) := Takeover(st1.(mode := Auto), v.snap.value, v.level, tRef, v.tOut, inp, cfg);
        Done(s, cmds, Some(AdoptContinuous))
  }

  /** Rule W: silence but for a stop, until continuous heating is confirmed or time is up. */
  function WaitingRule(st0: St, inp: Input, cfg: Settings, v: View): Flow
    requires st0.mode.Waiting? && st0.waitUntil.Some?
    requires ViewOk(v, inp, cfg)
  {
    // should the owner stop now, this is what there is to stop
    var st := if v.snap.Some? then st0.(expected := v.snap) else st0;
    if inp.request.RequestOff? || !inp.enabled then
      var (s, cmds) := Stop(st, inp.link && v.snap.Some?, inp.now, if inp.enabled then UserOff else Disabled);
      Done(s, cmds, Some(if s.mode.Stopping? then StoppingNow else if inp.enabled then UserOffDone else DisabledDone))
    else if IsFault(v.hs) then
      Done(End(st), [], Some(if v.code == 1 then BatteryLow else FaultReason(v.code)))
    else if v.hs.Continuous? then ContinuousRule(st, inp, cfg, v)
    else if inp.now >= st.waitUntil.value then
      Done(End(st.(contSince := None)), [], Some(NightWaitEnded))
    else Done(st.(contSince := None), [], Some(WaitingForContinuous))
  }

  /** The cause of the stop the session is still carrying out. */
  function HeldStop(st: St): Option<Cause> {
    if st.pending.Some? then st.pending.value.why
    else if st.mode.Stopping? && st.stopSnap.Some? then Some(st.stopSnap.value.why)
    else None
  }

  /** An owner AUTO request that passed the entry checks. */
  function EnterAuto(st: St, cmds: seq<Cmd>, inp: Input, cfg: Settings, v: View): Flow
    requires v.snap.Some? && ValidReading(inp.reference, cfg)
  {
    var kept := if st.pending.Some? then [] else cmds;
    var tRef := inp.reference.value.val.value;
    var s := st.(mode := Auto, active := UseReference, pending := None, battLowSince := None,
                 stopSnap := None, lastCtl := Some(inp.now), night := inp.night);
    if inp.night && !v.hs.Continuous? then
      var w := s.(mode := Waiting, waitUntil := Some(inp.now + cfg.nightWaitMs), contSince := None, expected := v.snap);
      if v.hs.HeaterOff? then
        var (w', preset) := Takeover(w, v.snap.value, v.level, Some(tRef), v.tOut, inp, cfg);
        Done(w', preset, Some(WaitingForContinuous))
      else Done(w, kept, Some(WaitingForContinuous))
    else if v.hs.HeaterOff? then
      var c := ControlStep(tRef, v.tOut, inp.target, 0, Ctl(0, inp.now, None, 0, Some(0)), cfg, None, inp.now);
      var lvl := StartLevel(c, cfg);
      Done(s.(ctl := c.ctl, pending := Some(Pend(PowerOn, inp.now, None, None)),
              expected := Some(Snap(true, false, Some(lvl)))),
           [Runtime(inp.runtimeMin), Level(lvl), PowerOn], Some(Start))
    else
      var (s', take) := Takeover(s, v.snap.value, v.level, Some(tRef), v.tOut, inp, cfg);
      Done(s', take, Some(if v.hs.Continuous? then AdoptContinuous else AdoptRun))
  }

  /** Rule 2: what the owner asks for; disabling a session that is on asks for OFF. */
  function OwnerRule(st: St, cmds: seq<Cmd>, reason: Option<Reason>, inp: Input, cfg: Settings, v: View): Flow
    requires ViewOk(v, inp, cfg)
  {
    var on := IsOn(st);
    var req := if on && !inp.enabled then RequestOff else inp.request;
    var held := HeldStop(st);
    var safety := held.Some? && held.value != UserOff;
    if req.RequestOff? && on then
      var (s, stop) := Stop(st, inp.link && v.snap.Some?, inp.now, if inp.enabled then UserOff else Disabled);
      Done(s, stop, Some(if s.mode.Stopping? then StoppingNow else UserOffDone))
    else if req.RequestAuto? && !on && safety then
      Go(st, cmds, Some(StoppingNow))
    else if req.RequestAuto? && !on then
      var why := Refusal(inp, cfg, v);
      if why.Some? then Done(st, cmds, why) else EnterAuto(st, cmds, inp, cfg, v)
    else if req.RequestAuto? && st.active.UseBackup? && ValidReading(inp.reference, cfg) then
      var back := st.(active := UseReference);
      Go(if v.level.Some?
         then back.(ctl := Track(st.ctl, v.level.value, inp.reference.value.val.value, inp.target, cfg)) else back,
         cmds, reason)
    else Go(st, cmds, reason)
  }

  /** STOPPING: nothing until the heater can be reached and read; then the stop, if it is still the same run. */
  function StoppingRule(st: St, cmds: seq<Cmd>, inp: Input, cfg: Settings, v: View): Flow
    requires st.mode.Stopping? && st.stopSnap.Some?
    requires ViewOk(v, inp, cfg)
  {
    var left := st.stopSnap.value;
    if !inp.link || v.snap.None? then Done(st, cmds, Some(StoppingNow))
    else
      var off := st.(mode := Off, stopSnap := None);
      if !IsHeating(v.hs) then Done(off, cmds, Some(if left.snap.permanent then ContinuousEnded else RunEnded))
      else if !Same(v.snap.value, left.snap) then Done(off, cmds, Some(StopDropped))
      else
        var (s, stop) := Stop(off.(expected := Some(left.snap)), true, inp.now, left.why);
        Done(s, stop, Some(StoppingNow))
  }

  /** Rules 5 and 6: a second battery low for too long, and a heater no longer heating. */
  function BatteryRule(st: St, cmds: seq<Cmd>, reason: Option<Reason>, inp: Input, cfg: Settings, v: View): Flow
    requires st.expected.Some?
  {
    var low := inp.batt2.Some? && inp.batt2.value < cfg.battMinDv;
    var st1 := st.(battLowSince := if low then Some(st.battLowSince.GetOr(inp.now)) else None);
    if low && inp.now - st1.battLowSince.value >= cfg.battHoldMs then
      var (s, stop) := Stop(st1, inp.link, inp.now, CauseBatteryLow);
      Done(s, stop, Some(BatteryLow))
    else if st.pending.None? && !IsHeating(v.hs) then
      Done(End(st1), [], Some(if st.expected.value.permanent then ContinuousEnded else RunEnded))
    else Go(st1, cmds, reason)
  }

  /** Rules 3 to 6: faults, unknown heater, foreign change, then battery and run end. */
  function GuardRules(st: St, cmds: seq<Cmd>, reason: Option<Reason>, inp: Input, cfg: Settings, v: View): Flow
    requires IsOn(st) && st.expected.Some?
    requires ViewOk(v, inp, cfg)
  {
    if IsFault(v.hs) && v.code == 1 then
      var (s, stop) := Stop(st, inp.link, inp.now, CauseBatteryLow);
      Done(s, stop, Some(BatteryLow))
    else if IsFault(v.hs) then Done(End(st), [], Some(FaultReason(v.code)))
    else if v.snap.None? then Done(st, [], Some(HeaterUnknown))
    else if st.pending.None? && IsHeating(v.hs) && !Same(v.snap.value, st.expected.value) then
      Done(End(st), [], Some(ForeignChange))
    else
      var st1 := if st.pending.None? && IsHeating(v.hs) && st.expected.value.level.None?
                 then st.(expected := Some(st.expected.value.(level := v.level))) else st;
      BatteryRule(st1, cmds, reason, inp, cfg, v)
  }

  /** Switch the active sensor and resume from the current level. */
  function Resume(st: St, sensor: Sensor, r: Reading, inp: Input, cfg: Settings, v: View): St
    requires r.val.Some?
  {
    var s := st.(active := sensor, mode := Auto, lastCtl := Some(inp.now));
    if v.level.Some? then s.(ctl := Track(st.ctl, v.level.value, r.val.value, inp.target, cfg)) else s
  }

  /** Rule 7, active thermometer lost: the other valid one, else the minimum level (DEGRADED). */
  function LostReferenceRule(st: St, cmds: seq<Cmd>, inp: Input, cfg: Settings, v: View): Flow
    requires st.expected.Some?
  {
    if st.active.UseReference? && ValidReading(inp.backup, cfg) then
      Done(Resume(st, UseBackup, inp.backup.value, inp, cfg, v), cmds, Some(BackupSelected))
    else if st.active.UseBackup? && ValidReading(inp.reference, cfg) then
      Done(Resume(st, UseReference, inp.reference.value, inp, cfg, v), cmds, Some(ReferenceSelected))
    else if v.level != Some(cfg.minLevel) && st.pending.None? && inp.link then
      var (s, low) := SendLevel(st.(mode := Degraded), cfg.minLevel, st.ctl, v.level, inp.now);
      Done(s, low, Some(ReferenceLost))
    else Done(st.(mode := Degraded), cmds, Some(ReferenceLost))
  }

  function ActiveReading(st: St, inp: Input): Option<Reading> {
    if st.active.UseReference? then inp.reference else inp.backup
  }

  /** Rule 7: reference validity. */
  function ReferenceRule(st: St, cmds: seq<Cmd>, reason: Option<Reason>, inp: Input, cfg: Settings, v: View): Flow
    requires IsOn(st) && st.expected.Some?
  {
    var act := ActiveReading(st, inp);
    if !ValidReading(act, cfg) then LostReferenceRule(st, cmds, inp, cfg, v)
    else if st.mode.Degraded? then
      Done(Resume(st, st.active, act.value, inp, cfg, v), cmds, Some(AutoOn))
    else Go(st, cmds, reason)
  }

  /** The controller's verdict carried out. */
  function ApplyControl(st: St, c: Control, cmds: seq<Cmd>, inp: Input, cfg: Settings, v: View): Flow
    requires st.expected.Some?
  {
    var st1 := st.(ctl := c.ctl, lastCtl := Some(inp.now));
    var hot := c.reason.Overheat? || c.reason.TargetExceeded?;
    if hot && v.hs.Continuous? then
      // nobody but the panel could start it again, so too warm means lowest level
      if v.level != Some(cfg.minLevel) && inp.link then
        var (s, low) := SendLevel(st1, cfg.minLevel, c.ctl, v.level, inp.now);
        Done(s, low, Some(HoldAtMinLevel))
      else Done(st1, cmds, Some(HoldAtMinLevel))
    else if hot then
      var (s, stop) := Stop(st1, inp.link, inp.now, if c.reason.Overheat? then CauseOverheat else CauseTargetExceeded);
      Done(s, stop, Some(c.reason))
    else if c.level.Some? && c.level != v.level && inp.link then
      var (s, change) := SendLevel(st1, c.level.value, c.ctl, v.level, inp.now);
      Done(s, change, Some(c.reason))
    else
      // without a command the old change time stays
      Done(st1.(ctl := c.ctl.(lastChange := st.ctl.lastChange)), cmds,
           Some(if inp.outsideOn && v.tOut.None? then OutsideInactive else Hold))
  }

  /** Rule 8: with no command on its way and the period over, the controller decides. */
  function ControlRule(st: St, cmds: seq<Cmd>, reason: Option<Reason>, inp: Input, cfg: Settings, v: View): Flow
    requires IsOn(st) && st.expected.Some? && st.lastCtl.Some?
    requires ValidReading(ActiveReading(st, inp), cfg)
  {
    if st.pending.Some? || inp.now - st.lastCtl.value < cfg.periodMs then
      Done(st, cmds, Some(reason.GetOr(AutoOn)))
    else
      ApplyControl(st,
        ControlStep(ActiveReading(st, inp).value.val.value, v.tOut, inp.target, inp.now - st.lastCtl.value, st.ctl, cfg, v.level, inp.now),
        cmds, inp, cfg, v)
  }

  /** What the end of every step clears. */
  function CleanUp(st: St): St {
    var st1 := if st.mode.Off? then st.(night := false) else st;
    if st1.mode.Waiting? then st1 else st1.(waitUntil := None, contSince := None)
  }

  function Finish(f: Flow): (St, Out) {
    (CleanUp(f.st), Out(f.cmds, f.reason))
  }

  /** Rule 1 in every mode. */
  function FirstRule(st: St, inp: Input, cfg: Settings, v: View): Flow
    requires WellFormed(st)
    requires ViewOk(v, inp, cfg)
  {
    if st.mode.Waiting? then Go(PresetRule(st, inp, cfg, v), [], None)
    else if st.pending.Some? then PendingRule(st, inp, cfg, v)
    else Go(st, [], None)
  }

  /** Rules 3 to 8 for a session that is on. */
  function OnRules(st: St, cmds: seq<Cmd>, reason: Option<Reason>, inp: Input, cfg: Settings, v: View): Flow
    requires IsOn(st) && st.expected.Some? && st.lastCtl.Some?
    requires ViewOk(v, inp, cfg)
  {
    var f3 := GuardRules(st, cmds, reason, inp, cfg, v);
    if f3.Done? then f3
    else
      var f7 := ReferenceRule(f3.st, f3.cmds, f3.reason, inp, cfg, v);
      if f7.Done? then f7 else ControlRule(f7.st, f7.cmds, f7.reason, inp, cfg, v)
  }

  /** Rules 2 to 8: everything after the pending-command bookkeeping outside WAITING. */
  function LaterRules(st: St, cmds: seq<Cmd>, reason: Option<Reason>, inp: Input, cfg: Settings, v: View): Flow
    requires WellFormed(st) && !st.mode.Waiting?
    requires ViewOk(v, inp, cfg)
  {
    var f2 := OwnerRule(st, cmds, reason, inp, cfg, v);
    if f2.Done? then f2
    else if f2.st.mode.Stopping? then StoppingRule(f2.st, f2.cmds, inp, cfg, v)
    else if !IsOn(f2.st) then Done(f2.st, f2.cmds, f2.reason)
    else OnRules(f2.st, f2.cmds, f2.reason, inp, cfg, v)
  }

  /** The whole step before its closing clean-up. */
  function StepFlow(inp: Input, cfg: Settings, st: St): Flow
    requires WellFormed(st)
  {
    var v := ViewOf(inp, cfg);
    var f1 := FirstRule(st, inp, cfg, v);
    if f1.Done? then f1
    else if f1.st.mode.Waiting? then WaitingRule(f1.st, inp, cfg, v)
    else LaterRules(f1.st, f1.cmds, f1.reason, inp, cfg, v)
  }

  /** One decision of the session. */
  function Step(inp: Input, cfg: Settings, st: St): (St, Out)
    requires WellFormed(st)
  {
    Finish(StepFlow(inp, cfg, st))
  }
}

/** Restore camping after parking: the pure rule and the controller that keeps its state. */
module Restore {
  import opened Common

  /** What was on before the drive. */
  datatype Config = Config(usb: bool, lights: bool)

  datatype Reading = Reading(ignition: Option<bool>, master: Option<bool>, usb: Option<bool>, lights: Option<bool>,
                             soc: Option<int>, warning: bool)

  datatype Limits = Limits(minSoc: int, maxFails: int, window: real)

  datatype Camper = Camper(enabled: bool, prevIgnition: Option<bool>, prevMaster: Option<bool>,
                           prevUsb: Option<bool>, prevLights: Option<bool>,
                           owe: bool, preDrive: Option<Config>, until: Option<real>, fails: int)

  const FRESH := Camper(false, None, None, None, None, false, None, None, 0)

  predicate On(o: Option<bool>) {
    o == Some(true)
  }

  predicate Gap(r: Reading) {
    r.ignition.None? || r.master.None?
  }

  // ----- auto_camper_restore_decide ------------------------------------------------------------

  /** The rule's own state, threaded through its sections. */
  datatype Cycle = Cycle(owe: bool, preDrive: Option<Config>, until: Option<real>, fails: int)

  datatype Decision = Decision(actuate: bool, config: Option<Config>, restored: bool, notice: bool, cycle: Cycle,
                               prevIgnition: Option<bool>, prevMaster: Option<bool>,
                               prevUsb: Option<bool>, prevLights: Option<bool>)

  function CycleOf(c: Camper): Cycle {
    Cycle(c.owe, c.preDrive, c.until, c.fails)
  }

  /** The ignition comes on with camping on before, and nothing owed yet. */
  predicate Arms(c: Camper, r: Reading) {
    !Gap(r) && On(r.ignition) && !On(c.prevIgnition) && On(c.prevMaster) && !c.owe
  }

  predicate ManualOff(c: Camper, r: Reading) {
    !Gap(r) && !On(r.ignition) && !On(c.prevIgnition) && On(c.prevMaster) && !On(r.master)
  }

  predicate Falls(c: Camper, r: Reading) {
    !Gap(r) && !On(r.ignition) && On(c.prevIgnition)
  }

  function Remembered(c: Camper): Config {
    Config(On(c.prevUsb), On(c.prevLights))
  }

  function Armed(c: Camper, r: Reading): Cycle {
    if Arms(c, r) then Cycle(true, Some(Remembered(c)), None, 0) else CycleOf(c)
  }

  function Cancelled(c: Camper, r: Reading, y: Cycle): Cycle {
    if ManualOff(c, r) then y.(owe := false, until := None, fails := 0) else y
  }

  function Parked(c: Camper, r: Reading, y: Cycle, now: real, l: Limits): Cycle {
    if Falls(c, r) && y.owe then y.(until := Some(now + l.window), fails := 0) else y
  }

  predicate BatteryProtects(r: Reading, l: Limits) {
    (r.soc.Some? && r.soc.value < l.minSoc) || r.warning
  }

  function Decide(c: Camper, r: Reading, now: real, l: Limits): Decision {
    if Gap(r) then
      Decision(false, None, false, false, CycleOf(c), c.prevIgnition, c.prevMaster, c.prevUsb, c.prevLights)
    else
      var y := Parked(c, r, Cancelled(c, r, Armed(c, r)), now, l);
      var d := Decision(false, None, false, false, y, Some(On(r.ignition)), Some(On(r.master)), Some(On(r.usb)),
                        Some(On(r.lights)));
      if !(y.owe && y.until.Some? && !On(r.ignition)) then d
      else if now > y.until.value then d.(notice := true, cycle := y.(owe := false, until := None))
      else if On(r.master) then d.(notice := true, restored := true, cycle := y.(owe := false, until := None, fails := 0))
      else if BatteryProtects(r, l) then d.(notice := true, cycle := y.(owe := false, until := None))
      else if y.fails >= l.maxFails then d.(notice := true, cycle := y.(owe := false, until := None))
      else d.(actuate := true, config := y.preDrive, cycle := y.(fails := y.fails + 1))
  }

  // ----- AutoCamper ----------------------------------------------------------------------------

  /** The last known values: a missed read keeps them. */
  function Track(c: Camper, ignition: Option<bool>, master: Option<bool>, usb: Option<bool>, lights: Option<bool>): Camper {
    c.(prevIgnition := if ignition.Some? then ignition else c.prevIgnition,
       prevMaster := if master.Some? then master else c.prevMaster,
       prevUsb := if usb.Some? then usb else c.prevUsb,
       prevLights := if lights.Some? then lights else c.prevLights)
  }

  datatype Event = Poll(r: Reading, now: real, readOnly: bool) | Enable(on: bool)

  /** The state after an event, and the config written if any. */
  datatype Stepped = Stepped(to: Camper, wrote: Option<Config>)

  function StepPoll(c: Camper, r: Reading, now: real, readOnly: bool, l: Limits): Stepped {
    if !c.enabled then Stepped(Track(c, r.ignition, r.master, r.usb, r.lights), None)
    else
      var d := Decide(c, r, now, l);
      var c' := Track(c.(owe := d.cycle.owe, preDrive := d.cycle.preDrive, until := d.cycle.until, fails := d.cycle.fails),
                      d.prevIgnition, d.prevMaster, d.prevUsb, d.prevLights);
      if !d.actuate then Stepped(c', None)
      else if readOnly then Stepped(c'.(owe := false, until := None), None)
      else Stepped(c', Some(d.config.GetOr(Config(false, false))))
  }

  function Step(c: Camper, e: Event, l: Limits): Stepped {
    match e
    case Enable(on) => Stepped(if on then c.(enabled := true)
                               else c.(enabled := false, owe := false, until := None, fails := 0), None)
    case Poll(r, now, readOnly) => StepPoll(c, r, now, readOnly, l)
  }

  class AutoCamper {
    var enabled: bool
    var prevIgnition: Option<bool>
    var prevMaster: Option<bool>
    var prevUsb: Option<bool>
    var prevLights: Option<bool>
    var oweRestore: bool
    var preDrive: Option<Config>
    var restoreUntil: Option<real>
    var fails: int
    const limits: Limits

    constructor (limits: Limits)
      ensures View() == FRESH && this.limits == limits
    {
      this.limits := limits;
      enabled, prevIgnition, prevMaster, prevUsb, prevLights := false, None, None, None, None;
      oweRestore, preDrive, restoreUntil, fails := false, None, None, 0;
    }

    ghost function View(): Camper
      reads this
    {
      Camper(enabled, prevIgnition, prevMaster, prevUsb, prevLights, oweRestore, preDrive, restoreUntil, fails)
    }

    function Value(): (c: Camper)
      reads this
      ensures c == View()
    {
      Camper(enabled, prevIgnition, prevMaster, prevUsb, prevLights, oweRestore, preDrive, restoreUntil, fails)
    }

    method SetEnabled(on: bool) returns (now: bool)
      modifies this
      ensures View() == Step(old(View()), Enable(on), limits).to && now == on
    {
      enabled := on;
      if !enabled {
        oweRestore, restoreUntil, fails := false, None, 0;
      }
      return enabled;
    }

    method TrackPrev(ignition: Option<bool>, master: Option<bool>, usb: Option<bool>, lights: Option<bool>)
      modifies this
      ensures View() == Track(old(View()), ignition, master, usb, lights)
    {
      if ignition.Some? {
        prevIgnition := ignition;
      }
      if master.Some? {
        prevMaster := master;
      }
      if usb.Some? {
        prevUsb := usb;
      }
      if lights.Some? {
        prevLights := lights;
      }
    }

    /** One poll. Returns what is to be written, master first, then what the config asks for. */
    method OnPoll(r: Reading, now: real, readOnly: bool) returns (writes: Option<Config>)
      modifies this
      ensures Stepped(View(), writes) == Step(old(View()), Poll(r, now, readOnly), limits)
    {
      if !enabled {
        TrackPrev(r.ignition, r.master, r.usb, r.lights);
        return None;
      }
      var d := Decide(Value(), r, now, limits);
      oweRestore, preDrive, restoreUntil, fails := d.cycle.owe, d.cycle.preDrive, d.cycle.until, d.cycle.fails;
      TrackPrev(d.prevIgnition, d.prevMaster, d.prevUsb, d.prevLights);
      writes := None;
      if d.actuate {
        if readOnly {
          oweRestore, restoreUntil := false, None;
          return;
        }
        writes := Some(d.config.GetOr(Config(false, false)));
      }
    }
  }
}

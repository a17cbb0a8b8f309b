/** The protocol dictionary's control fields, as extracted and after the manual overrides. */
module Dictionary {
  import opened Common
  import opened FieldNames
  import opened Codec

  /** A dictionary row; what the extractor could not resolve is missing. */
  datatype DictField = DictField(name: Name, offset: Option<nat>, width: Option<nat>, default: Option<int>)

  type Places = map<Name, (nat, nat)>

  type Ranges = map<Name, set<int>>

  /** A row with the overrides applied: an unresolved place filled in, a curated range set. */
  function Applied(d: DictField, places: Places, ranges: Ranges): Entry {
    var valid := if d.name in ranges then Some(OneOf(ranges[d.name])) else None;
    if d.offset.Some? && d.width.Some? then Placed(Field(d.name, d.offset.value, d.width.value, d.default, valid))
    else if d.name in places then Placed(Field(d.name, places[d.name].0, places[d.name].1, d.default, valid))
    else Unplaced(d.name)
  }

  /** The control fields of a function as the Python codec sees them. */
  function Entries(rows: seq<DictField>, places: Places, ranges: Ranges): (entries: seq<Entry>)
    ensures |entries| == |rows| && forall i :: 0 <= i < |rows| ==> entries[i] == Applied(rows[i], places, ranges)
  {
    seq(|rows|, i requires 0 <= i < |rows| => Applied(rows[i], places, ranges))
  }

  // ----- The rows ------------------------------------------------------------------------------

  const AIRHEATER_ROWS: seq<DictField> := [
    DictField(NormalOperationRequest, Some(6), Some(2), Some(3)),
    DictField(PermanentOperationConfirmation, Some(4), Some(2), Some(3)),
    DictField(PermanentOperationRequest, Some(2), Some(2), Some(3)),
    DictField(AirDistribution, Some(0), Some(2), Some(0)),
    DictField(HeatingLevel, Some(12), Some(4), Some(11)),
    DictField(OperationModeAirHeater, Some(8), Some(4), Some(7)),
    DictField(OperationModeCombined, None, Some(4), Some(0)),
    DictField(RunningTime, None, Some(8), Some(127)),
    DictField(TimerHour, None, Some(8), Some(31)),
    DictField(TimerMin, None, Some(8), Some(63))
  ]

  const CAMPINGMODE_ROWS: seq<DictField> := [
    DictField(State, Some(6), Some(2), Some(3)),
    DictField(UsbCharger, None, Some(2), Some(3)),
    DictField(OutsideLight, None, Some(2), Some(3)),
    DictField(InteriorLight, None, Some(2), Some(3))
  ]

  const COOLER_ROWS: seq<DictField> := [
    DictField(State, Some(6), Some(2), Some(3)),
    DictField(TimerStart, Some(4), Some(2), Some(3)),
    DictField(TimerCancel, Some(2), Some(2), Some(3)),
    DictField(NightTimerSet, Some(0), Some(2), Some(3)),
    DictField(Level, Some(12), Some(4), Some(7)),
    DictField(Mode, Some(8), Some(4), Some(7)),
    DictField(TimerHour, None, Some(8), Some(30)),
    DictField(TimerMin, None, Some(8), Some(62)),
    DictField(NightTimerHourOn, None, Some(8), Some(31)),
    DictField(NightTimerHourOff, None, Some(8), Some(31))
  ]

  const ENERGY_ROWS: seq<DictField> := [
    DictField(EnergyModeSet, Some(2), Some(2), Some(3)),
    DictField(DisplayRefresh, Some(7), Some(1), Some(0))
  ]

  const LIGHTING_ROWS: seq<DictField> := [
    DictField(ProfileNumber, Some(4), Some(4), Some(14)),
    DictField(Mode, Some(8), Some(8), Some(0)),
    DictField(Timestamp, Some(16), Some(32), Some(0)),
    DictField(LightValue, Some(48), Some(16), Some(0)),
    DictField(BrightnessLOne, Some(68), Some(4), Some(14)),
    DictField(BrightnessLTwo, Some(64), Some(4), Some(14)),
    DictField(BrightnessLThree, Some(76), Some(4), Some(14)),
    DictField(BrightnessLFour, Some(72), Some(4), Some(14)),
    DictField(BrightnessLFive, Some(84), Some(4), Some(14)),
    DictField(BrightnessLSix, Some(80), Some(4), Some(14)),
    DictField(BrightnessLSeven, Some(92), Some(4), Some(14)),
    DictField(BrightnessLEight, Some(88), Some(4), Some(14)),
    DictField(BrightnessLNine, Some(100), Some(4), Some(14)),
    DictField(BrightnessLOneZero, Some(96), Some(4), Some(14)),
    DictField(BrightnessLOneOne, Some(108), Some(4), Some(14)),
    DictField(BrightnessLOneTwo, Some(104), Some(4), Some(14)),
    DictField(BrightnessLOneThree, Some(116), Some(4), Some(14)),
    DictField(BrightnessLOneFour, Some(112), Some(4), Some(14)),
    DictField(BrightnessLOneFive, Some(124), Some(4), Some(14)),
    DictField(BrightnessLOneSix, Some(120), Some(4), Some(14))
  ]

  const LIVINGROOMHEATER_ROWS: seq<DictField> := [
    DictField(StateAir, None, Some(2), Some(3)),
    DictField(StateWater, None, Some(2), Some(3)),
    DictField(TemperatureWater, None, Some(2), Some(3)),
    DictField(Mode, Some(12), Some(4), Some(5)),
    DictField(TemperatureAir, None, Some(8), Some(0))
  ]

  const ROOF_ROWS: seq<DictField> := [
    DictField(Up, Some(6), Some(2), Some(3)),
    DictField(Down, Some(4), Some(2), Some(3)),
    DictField(SafetyCounter, Some(8), Some(32), Some(0))
  ]

  const ROOFAIRCONDITION_ROWS: seq<DictField> := [
    DictField(State, Some(6), Some(2), Some(3)),
    DictField(FanSpeed, None, Some(4), Some(7)),
    DictField(Mode, None, Some(4), Some(7)),
    DictField(Temperature, None, Some(8), Some(0))
  ]

  const SATELLITEANTENNA_ROWS: seq<DictField> := [
    DictField(DishStop, None, None, None),
    DictField(Wlan, None, None, None),
    DictField(System, None, Some(2), Some(3)),
    DictField(Dish, None, Some(2), Some(0)),
    DictField(SatelliteSelection, Some(12), Some(4), Some(0))
  ]

  const STAIRS_ROWS: seq<DictField> := [
    DictField(OperationMode, None, Some(2), Some(3)),
    DictField(Movement, None, Some(2), Some(0))
  ]

  // ----- The overrides -------------------------------------------------------------------------

  const AIRHEATER_PLACES: Places := map[OperationModeCombined := (20, 4), RunningTime := (24, 8), TimerHour := (32, 8), TimerMin := (40, 8)]
  const CAMPINGMODE_PLACES: Places := map[InteriorLight := (0, 2), OutsideLight := (2, 2), UsbCharger := (4, 2)]
  const COOLER_PLACES: Places := map[TimerHour := (16, 8), TimerMin := (24, 8), NightTimerHourOn := (32, 8), NightTimerHourOff := (40, 8)]
  const LIGHTING_PLACES: Places := map[Timestamp := (16, 32)]
  const LIVINGROOMHEATER_PLACES: Places := map[TemperatureWater := (2, 2), StateWater := (4, 2), StateAir := (6, 2), TemperatureAir := (16, 8)]
  const ROOF_PLACES: Places := map[SafetyCounter := (8, 32)]
  const ROOFAIRCONDITION_PLACES: Places := map[Mode := (8, 4), FanSpeed := (12, 4), Temperature := (16, 8)]
  const SATELLITEANTENNA_PLACES: Places := map[Dish := (0, 2), System := (2, 2), Wlan := (6, 1), DishStop := (7, 1)]
  const STAIRS_PLACES: Places := map[OperationMode := (6, 2), Movement := (4, 2)]
  const NO_PLACES: Places := map[]

  const AIRHEATER_RANGES: Ranges := map[HeatingLevel := {1, 2, 3, 4, 5, 6, 7, 8, 9, 10, 11}]
  const COOLER_RANGES: Ranges := map[State := {0, 1, 3}]
  const LIGHTING_RANGES: Ranges := map[Mode := {0, 4, 6, 8, 12, 16, 20, 24, 28}]
  const NO_RANGES: Ranges := map[]
}

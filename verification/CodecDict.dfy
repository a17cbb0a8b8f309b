/** The generated control tables: that they say what the dictionary with its overrides says, and meet
    what the codec's theorems ask of a table. */
module CodecDict {
  import opened Common
  import opened Bits
  import opened FieldNames
  import opened Codec
  import opened CodecLaws
  import opened Dictionary

  const AIRHEATER_CTRL: seq<CField> := [
    CField(NormalOperationRequest, 6, 2, true, false, 3, 0),
    CField(PermanentOperationConfirmation, 4, 2, true, false, 3, 0),
    CField(PermanentOperationRequest, 2, 2, true, false, 3, 0),
    CField(AirDistribution, 0, 2, true, false, 0, 0),
    CField(HeatingLevel, 12, 4, true, true, 11, 0x00000ffe),
    CField(OperationModeAirHeater, 8, 4, true, false, 7, 0),
    CField(OperationModeCombined, 20, 4, true, false, 0, 0),
    CField(RunningTime, 24, 8, true, false, 127, 0),
    CField(TimerHour, 32, 8, true, false, 31, 0),
    CField(TimerMin, 40, 8, true, false, 63, 0)
  ]

  const CAMPINGMODE_CTRL: seq<CField> := [
    CField(State, 6, 2, true, false, 3, 0),
    CField(UsbCharger, 4, 2, true, false, 3, 0),
    CField(OutsideLight, 2, 2, true, false, 3, 0),
    CField(InteriorLight, 0, 2, true, false, 3, 0)
  ]

  const COOLER_CTRL: seq<CField> := [
    CField(State, 6, 2, true, true, 3, 0x0000000b),
    CField(TimerStart, 4, 2, true, false, 3, 0),
    CField(TimerCancel, 2, 2, true, false, 3, 0),
    CField(NightTimerSet, 0, 2, true, false, 3, 0),
    CField(Level, 12, 4, true, false, 7, 0),
    CField(Mode, 8, 4, true, false, 7, 0),
    CField(TimerHour, 16, 8, true, false, 30, 0),
    CField(TimerMin, 24, 8, true, false, 62, 0),
    CField(NightTimerHourOn, 32, 8, true, false, 31, 0),
    CField(NightTimerHourOff, 40, 8, true, false, 31, 0)
  ]

  const ENERGY_CTRL: seq<CField> := [
    CField(EnergyModeSet, 2, 2, true, false, 3, 0),
    CField(DisplayRefresh, 7, 1, true, false, 0, 0)
  ]

  const LIGHTING_CTRL: seq<CField> := [
    CField(ProfileNumber, 4, 4, true, false, 14, 0),
    CField(Mode, 8, 8, true, true, 0, 0x11111151),
    CField(Timestamp, 16, 32, true, false, 0, 0),
    CField(LightValue, 48, 16, true, false, 0, 0),
    CField(BrightnessLOne, 68, 4, true, false, 14, 0),
    CField(BrightnessLTwo, 64, 4, true, false, 14, 0),
    CField(BrightnessLThree, 76, 4, true, false, 14, 0),
    CField(BrightnessLFour, 72, 4, true, false, 14, 0),
    CField(BrightnessLFive, 84, 4, true, false, 14, 0),
    CField(BrightnessLSix, 80, 4, true, false, 14, 0),
    CField(BrightnessLSeven, 92, 4, true, false, 14, 0),
    CField(BrightnessLEight, 88, 4, true, false, 14, 0),
    CField(BrightnessLNine, 100, 4, true, false, 14, 0),
    CField(BrightnessLOneZero, 96, 4, true, false, 14, 0),
    CField(BrightnessLOneOne, 108, 4, true, false, 14, 0),
    CField(BrightnessLOneTwo, 104, 4, true, false, 14, 0),
    CField(BrightnessLOneThree, 116, 4, true, false, 14, 0),
    CField(BrightnessLOneFour, 112, 4, true, false, 14, 0),
    CField(BrightnessLOneFive, 124, 4, true, false, 14, 0),
    CField(BrightnessLOneSix, 120, 4, true, false, 14, 0)
  ]

  const LIVINGROOMHEATER_CTRL: seq<CField> := [
    CField(StateAir, 6, 2, true, false, 3, 0),
    CField(StateWater, 4, 2, true, false, 3, 0),
    CField(TemperatureWater, 2, 2, true, false, 3, 0),
    CField(Mode, 12, 4, true, false, 5, 0),
    CField(TemperatureAir, 16, 8, true, false, 0, 0)
  ]

  const ROOF_CTRL: seq<CField> := [
    CField(Up, 6, 2, true, false, 3, 0),
    CField(Down, 4, 2, true, false, 3, 0),
    CField(SafetyCounter, 8, 32, true, false, 0, 0)
  ]

  const ROOFAIRCONDITION_CTRL: seq<CField> := [
    CField(State, 6, 2, true, false, 3, 0),
    CField(FanSpeed, 12, 4, true, false, 7, 0),
    CField(Mode, 8, 4, true, false, 7, 0),
    CField(Temperature, 16, 8, true, false, 0, 0)
  ]

  const SATELLITEANTENNA_CTRL: seq<CField> := [
    CField(DishStop, 7, 1, false, false, 0, 0),
    CField(Wlan, 6, 1, false, false, 0, 0),
    CField(System, 2, 2, true, false, 3, 0),
    CField(Dish, 0, 2, true, false, 0, 0),
    CField(SatelliteSelection, 12, 4, true, false, 0, 0)
  ]

  const STAIRS_CTRL: seq<CField> := [
    CField(OperationMode, 6, 2, true, false, 3, 0),
    CField(Movement, 4, 2, true, false, 0, 0)
  ]

  /** A function's control frame: the C table, the dictionary rows with their overrides, the length. */
  datatype Control = Control(table: seq<CField>, rows: seq<DictField>, places: Places, ranges: Ranges, bytes: nat)

  const AIRHEATER := Control(AIRHEATER_CTRL, AIRHEATER_ROWS, AIRHEATER_PLACES, AIRHEATER_RANGES, 6)
  const CAMPINGMODE := Control(CAMPINGMODE_CTRL, CAMPINGMODE_ROWS, CAMPINGMODE_PLACES, NO_RANGES, 1)
  const COOLER := Control(COOLER_CTRL, COOLER_ROWS, COOLER_PLACES, COOLER_RANGES, 6)
  const ENERGY := Control(ENERGY_CTRL, ENERGY_ROWS, NO_PLACES, NO_RANGES, 1)
  const LIGHTING := Control(LIGHTING_CTRL, LIGHTING_ROWS, LIGHTING_PLACES, LIGHTING_RANGES, 16)
  const LIVINGROOMHEATER := Control(LIVINGROOMHEATER_CTRL, LIVINGROOMHEATER_ROWS, LIVINGROOMHEATER_PLACES, NO_RANGES, 3)
  const ROOF := Control(ROOF_CTRL, ROOF_ROWS, ROOF_PLACES, NO_RANGES, 5)
  const ROOFAIRCONDITION := Control(ROOFAIRCONDITION_CTRL, ROOFAIRCONDITION_ROWS, ROOFAIRCONDITION_PLACES, NO_RANGES, 3)
  const SATELLITEANTENNA := Control(SATELLITEANTENNA_CTRL, SATELLITEANTENNA_ROWS, SATELLITEANTENNA_PLACES, NO_RANGES, 2)
  const STAIRS := Control(STAIRS_CTRL, STAIRS_ROWS, STAIRS_PLACES, NO_RANGES, 1)

  /** The entries the Python codec works on. */
  function EntriesOf(control: Control): seq<Entry> {
    Entries(control.rows, control.places, control.ranges)
  }

  function PythonFields(control: Control): seq<Field> {
    PlacedOf(EntriesOf(control))
  }

  // ----- What a C row means --------------------------------------------------------------------

  /** A C row read as a field, with the curated set in place of its mask. */
  function FieldOf(c: CField, ranges: Ranges): Field {
    Field(c.name, c.offset, c.width, if c.hasDefault then Some(c.def) else None,
          if c.name in ranges then Some(OneOf(ranges[c.name])) else None)
  }

  function FieldsOf(table: seq<CField>, ranges: Ranges): (fields: seq<Field>)
    ensures |fields| == |table| && forall i :: 0 <= i < |table| ==> fields[i] == FieldOf(table[i], ranges)
  {
    seq(|table|, i requires 0 <= i < |table| => FieldOf(table[i], ranges))
  }

  /** Row by row the dictionary with its overrides says what the C table says. */
  predicate Mirrors(control: Control) {
    && |control.rows| == |control.table|
    && forall i :: 0 <= i < |control.rows| ==>
         Applied(control.rows[i], control.places, control.ranges) == Placed(FieldOf(control.table[i], control.ranges))
  }

  lemma MirroredFields(control: Control)
    requires Mirrors(control)
    ensures EntriesOf(control) == AllPlaced(FieldsOf(control.table, control.ranges))
    ensures PythonFields(control) == FieldsOf(control.table, control.ranges)
  {
    hide Applied;
    assert EntriesOf(control) == AllPlaced(FieldsOf(control.table, control.ranges));
    PlacedBack(FieldsOf(control.table, control.ranges));
  }

  // ----- What the theorems ask of a table ------------------------------------------------------

  /** In the frame, 1 to 32 bits wide, 32-bit default, ranged exactly where it has a mask. */
  predicate FieldOk(c: CField, ranges: Ranges, total: nat) {
    && 1 <= c.width <= 32 && c.offset + c.width <= total && c.def < WORD
    && (c.hasValid <==> c.name in ranges)
  }

  predicate PairOk(a: CField, b: CField) {
    a.name != b.name && (a.offset + a.width <= b.offset || b.offset + b.width <= a.offset)
  }

  predicate PairsOk(table: seq<CField>, i: nat)
    requires i < |table|
  {
    forall j :: i < j < |table| ==> PairOk(table[i], table[j])
  }

  /** Every mask is the curated set. */
  ghost predicate MasksMatch(table: seq<CField>, ranges: Ranges) {
    forall i, v: nat :: 0 <= i < |table| && table[i].name in ranges ==>
      (v in ranges[table[i].name] <==> MaskAllows(table[i].mask, v))
  }

  /** What the theorems ask of a table and its Python form: every dictionary entry is placed, and the two
      say the same, field by field. */
  ghost predicate Usable(control: Control) {
    var fields := PythonFields(control);
    && EntriesOf(control) == AllPlaced(fields)
    && control.table != [] && 1 <= control.bytes <= 32
    && SameTable(fields, control.table) && Disjoint(fields) && UniqueNames(fields)
    && forall i :: 0 <= i < |fields| ==> fields[i].Fits(8 * control.bytes)
  }

  lemma CheckedIsUsable(control: Control)
    requires Mirrors(control)
    requires forall i :: 0 <= i < |control.table| ==> FieldOk(control.table[i], control.ranges, 8 * control.bytes)
    requires forall i :: 0 <= i < |control.table| ==> PairsOk(control.table, i)
    requires control.table != [] && 1 <= control.bytes <= 32 && MasksMatch(control.table, control.ranges)
    ensures Usable(control)
  {
    hide MaskAllows, Mirrors, EntriesOf, PythonFields;
    MirroredFields(control);
    var table, total := control.table, 8 * control.bytes;
    var fields := FieldsOf(table, control.ranges);
    forall i | 0 <= i < |fields|
      ensures SameField(fields[i], table[i]) && fields[i].Fits(total)
    {
      assert FieldOk(table[i], control.ranges, total);
    }
    forall i, j | 0 <= i < j < |fields|
      ensures Apart(fields[i], fields[j]) && fields[i].name != fields[j].name
    {
      assert PairsOk(table, i) && PairOk(table[i], table[j]);
    }
  }

  lemma MasksOfUnranged(table: seq<CField>)
    ensures MasksMatch(table, NO_RANGES)
  {
  }

  // ----- The masks -----------------------------------------------------------------------------

  lemma Powers()
    ensures Pow2(0) == 1 && Pow2(1) == 2 && Pow2(2) == 4 && Pow2(3) == 8 && Pow2(4) == 16 && Pow2(5) == 32
    ensures Pow2(6) == 64 && Pow2(7) == 128 && Pow2(8) == 256 && Pow2(9) == 512 && Pow2(10) == 1024
    ensures Pow2(11) == 2048 && Pow2(12) == 4096 && Pow2(13) == 8192 && Pow2(14) == 16384 && Pow2(15) == 32768
    ensures Pow2(16) == 0x10000 && Pow2(17) == 0x20000 && Pow2(18) == 0x40000 && Pow2(19) == 0x80000
    ensures Pow2(20) == 0x100000 && Pow2(21) == 0x200000 && Pow2(22) == 0x400000 && Pow2(23) == 0x800000
    ensures Pow2(24) == 0x1000000 && Pow2(25) == 0x2000000 && Pow2(26) == 0x4000000 && Pow2(27) == 0x8000000
    ensures Pow2(28) == 0x10000000 && Pow2(29) == 0x20000000 && Pow2(30) == 0x40000000 && Pow2(31) == 0x80000000
  {
  }

  lemma CoolerMask(v: nat)
    ensures v in {0, 1, 3} <==> MaskAllows(0xb, v)
  {
    hide Shift, Pow2;
    Powers();
    ShiftDivides(0xb, v);
  }

  lemma AirheaterMask(v: nat)
    ensures v in {1, 2, 3, 4, 5, 6, 7, 8, 9, 10, 11} <==> MaskAllows(0xffe, v)
  {
    hide Shift, Pow2;
    Powers();
    ShiftDivides(0xffe, v);
  }

  lemma LightingMask(v: nat)
    ensures v in {0, 4, 6, 8, 12, 16, 20, 24, 28} <==> MaskAllows(0x11111151, v)
  {
    hide Shift, Pow2;
    Powers();
    ShiftDivides(0x11111151, v);
  }

  // ----- Every table ---------------------------------------------------------------------------

  lemma AirheaterFields()
    ensures |AIRHEATER_CTRL| == 10 && forall i :: 0 <= i < |AIRHEATER_CTRL| ==> FieldOk(AIRHEATER_CTRL[i], AIRHEATER_RANGES, 48)
  {
  }

  lemma AirheaterPairsFrom0()
    ensures forall i :: 0 <= i < 4 ==> PairsOk(AIRHEATER_CTRL, i)
  {
  }

  lemma AirheaterPairsFrom4()
    ensures forall i :: 4 <= i < 10 ==> PairsOk(AIRHEATER_CTRL, i)
  {
  }

  lemma AirheaterMasks()
    ensures MasksMatch(AIRHEATER_CTRL, AIRHEATER_RANGES)
  {
    forall v: nat
      ensures v in AIRHEATER_RANGES[HeatingLevel] <==> MaskAllows(0xffe, v)
    {
      AirheaterMask(v);
    }
  }

  /** The C table says what the dictionary says. */
  lemma AirheaterFromDictionary()
    ensures Mirrors(AIRHEATER)
  {
  }

  lemma AirheaterUsable()
    ensures Usable(AIRHEATER)
  {
    AirheaterFromDictionary();
    hide Mirrors, FieldOk, PairsOk, MasksMatch, Usable;
    AirheaterFields();
    AirheaterPairsFrom0();
    AirheaterPairsFrom4();
    AirheaterMasks();
    CheckedIsUsable(AIRHEATER);
  }

  lemma CoolerFields()
    ensures |COOLER_CTRL| == 10 && forall i :: 0 <= i < |COOLER_CTRL| ==> FieldOk(COOLER_CTRL[i], COOLER_RANGES, 48)
  {
  }

  lemma CoolerPairsFrom0()
    ensures forall i :: 0 <= i < 4 ==> PairsOk(COOLER_CTRL, i)
  {
  }

  lemma CoolerPairsFrom4()
    ensures forall i :: 4 <= i < 10 ==> PairsOk(COOLER_CTRL, i)
  {
  }

  lemma CoolerMasks()
    ensures MasksMatch(COOLER_CTRL, COOLER_RANGES)
  {
    forall v: nat
      ensures v in COOLER_RANGES[State] <==> MaskAllows(0xb, v)
    {
      CoolerMask(v);
    }
  }

  /** The C table says what the dictionary says. */
  lemma CoolerFromDictionary()
    ensures Mirrors(COOLER)
  {
  }

  lemma CoolerUsable()
    ensures Usable(COOLER)
  {
    CoolerFromDictionary();
    hide Mirrors, FieldOk, PairsOk, MasksMatch, Usable;
    CoolerFields();
    CoolerPairsFrom0();
    CoolerPairsFrom4();
    CoolerMasks();
    CheckedIsUsable(COOLER);
  }

  lemma LightingFields()
    ensures |LIGHTING_CTRL| == 20 && forall i :: 0 <= i < |LIGHTING_CTRL| ==> FieldOk(LIGHTING_CTRL[i], LIGHTING_RANGES, 128)
  {
  }

  /** Which row of the table a name is. */
  function LightingRow(name: Name): nat {
    match name
    case ProfileNumber => 0
    case Mode => 1
    case Timestamp => 2
    case LightValue => 3
    case BrightnessLOne => 4
    case BrightnessLTwo => 5
    case BrightnessLThree => 6
    case BrightnessLFour => 7
    case BrightnessLFive => 8
    case BrightnessLSix => 9
    case BrightnessLSeven => 10
    case BrightnessLEight => 11
    case BrightnessLNine => 12
    case BrightnessLOneZero => 13
    case BrightnessLOneOne => 14
    case BrightnessLOneTwo => 15
    case BrightnessLOneThree => 16
    case BrightnessLOneFour => 17
    case BrightnessLOneFive => 18
    case BrightnessLOneSix => 19
    case _ => 20
  }

  /** Where each row lies: from row 4 on the lamps, two to a byte, the second first. */
  predicate LightingPlace(f: CField, i: nat) {
    if i == 0 then f.offset == 4 && f.width == 4
    else if i == 1 then f.offset == 8 && f.width == 8
    else if i == 2 then f.offset == 16 && f.width == 32
    else if i == 3 then f.offset == 48 && f.width == 16
    else f.offset == 64 + 4 * (i - 4) + (if i % 2 == 0 then 4 else -4) && f.width == 4
  }

  lemma LightingNames(i: nat)
    requires i < |LIGHTING_CTRL|
    ensures LightingRow(LIGHTING_CTRL[i].name) == i
  {
  }

  lemma LightingPlaces(i: nat)
    requires i < |LIGHTING_CTRL|
    ensures LightingPlace(LIGHTING_CTRL[i], i)
  {
  }

  lemma LightingPairs(i: nat)
    requires i < |LIGHTING_CTRL|
    ensures PairsOk(LIGHTING_CTRL, i)
  {
    hide LIGHTING_CTRL, LightingRow;
    forall j | i < j < |LIGHTING_CTRL|
      ensures PairOk(LIGHTING_CTRL[i], LIGHTING_CTRL[j])
    {
      LightingNames(i);
      LightingNames(j);
      LightingPlaces(i);
      LightingPlaces(j);
    }
  }

  lemma LightingMasks()
    ensures MasksMatch(LIGHTING_CTRL, LIGHTING_RANGES)
  {
    forall v: nat
      ensures v in LIGHTING_RANGES[Mode] <==> MaskAllows(0x11111151, v)
    {
      LightingMask(v);
    }
  }

  /** The C table says what the dictionary says. */
  lemma LightingFromDictionary()
    ensures Mirrors(LIGHTING)
  {
  }

  lemma LightingUsable()
    ensures Usable(LIGHTING)
  {
    LightingFromDictionary();
    hide Mirrors, FieldOk, PairsOk, MasksMatch, Usable;
    LightingFields();
    forall i | 0 <= i < |LIGHTING_CTRL|
      ensures PairsOk(LIGHTING_CTRL, i)
    {
      LightingPairs(i);
    }
    LightingMasks();
    CheckedIsUsable(LIGHTING);
  }

  /** The C table says what the dictionary says. */
  lemma CampingmodeFromDictionary()
    ensures Mirrors(CAMPINGMODE)
  {
  }

  lemma CampingmodeUsable()
    ensures Usable(CAMPINGMODE)
  {
    CampingmodeFromDictionary();
    hide Mirrors, Usable, MasksMatch;
    MasksOfUnranged(CAMPINGMODE_CTRL);
    CheckedIsUsable(CAMPINGMODE);
  }

  /** The C table says what the dictionary says. */
  lemma EnergyFromDictionary()
    ensures Mirrors(ENERGY)
  {
  }

  lemma EnergyUsable()
    ensures Usable(ENERGY)
  {
    EnergyFromDictionary();
    hide Mirrors, Usable, MasksMatch;
    MasksOfUnranged(ENERGY_CTRL);
    CheckedIsUsable(ENERGY);
  }

  /** The C table says what the dictionary says. */
  lemma LivingroomheaterFromDictionary()
    ensures Mirrors(LIVINGROOMHEATER)
  {
  }

  lemma LivingroomheaterUsable()
    ensures Usable(LIVINGROOMHEATER)
  {
    LivingroomheaterFromDictionary();
    hide Mirrors, Usable, MasksMatch;
    MasksOfUnranged(LIVINGROOMHEATER_CTRL);
    CheckedIsUsable(LIVINGROOMHEATER);
  }

  /** The C table says what the dictionary says. */
  lemma RoofFromDictionary()
    ensures Mirrors(ROOF)
  {
  }

  lemma RoofUsable()
    ensures Usable(ROOF)
  {
    RoofFromDictionary();
    hide Mirrors, Usable, MasksMatch;
    MasksOfUnranged(ROOF_CTRL);
    CheckedIsUsable(ROOF);
  }

  /** The C table says what the dictionary says. */
  lemma RoofairconditionFromDictionary()
    ensures Mirrors(ROOFAIRCONDITION)
  {
  }

  lemma RoofairconditionUsable()
    ensures Usable(ROOFAIRCONDITION)
  {
    RoofairconditionFromDictionary();
    hide Mirrors, Usable, MasksMatch;
    MasksOfUnranged(ROOFAIRCONDITION_CTRL);
    CheckedIsUsable(ROOFAIRCONDITION);
  }

  /** The C table says what the dictionary says. */
  lemma SatelliteantennaFromDictionary()
    ensures Mirrors(SATELLITEANTENNA)
  {
  }

  lemma SatelliteantennaUsable()
    ensures Usable(SATELLITEANTENNA)
  {
    SatelliteantennaFromDictionary();
    hide Mirrors, Usable, MasksMatch;
    MasksOfUnranged(SATELLITEANTENNA_CTRL);
    CheckedIsUsable(SATELLITEANTENNA);
  }

  /** The C table says what the dictionary says. */
  lemma StairsFromDictionary()
    ensures Mirrors(STAIRS)
  {
  }

  lemma StairsUsable()
    ensures Usable(STAIRS)
  {
    StairsFromDictionary();
    hide Mirrors, Usable, MasksMatch;
    MasksOfUnranged(STAIRS_CTRL);
    CheckedIsUsable(STAIRS);
  }

  /** Every generated control table is disjoint, in its frame, uniquely named and says what the Python
      table says. */
  lemma ControlsUsable()
    ensures Usable(AIRHEATER) && Usable(CAMPINGMODE) && Usable(COOLER) && Usable(ENERGY) && Usable(LIGHTING)
    ensures Usable(LIVINGROOMHEATER) && Usable(ROOF) && Usable(ROOFAIRCONDITION)
    ensures Usable(SATELLITEANTENNA) && Usable(STAIRS)
  {
    hide Usable;
    AirheaterUsable();
    CampingmodeUsable();
    CoolerUsable();
    EnergyUsable();
    LightingUsable();
    LivingroomheaterUsable();
    RoofUsable();
    RoofairconditionUsable();
    SatelliteantennaUsable();
    StairsUsable();
  }
}

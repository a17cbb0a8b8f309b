/** The wake-up configuration packed into a lighting frame, sent through the codec, and latched again. */
module WakeupFrame {
  import opened Common
  import opened Bits
  import opened FieldNames
  import opened Codec
  import opened CodecPython
  import CodecParity
  import opened CodecDict
  import opened Dictionary
  import L = Lighting
  import opened Wakeup

  // ----- The packed light value ----------------------------------------------------------------

  /** One bit for each area. */
  function AreasMask(areas: set<nat>): nat {
    Num(1 in areas) + 2 * Num(2 in areas) + 4 * Num(3 in areas) + 8 * Num(4 in areas)
  }

  function PackLight(c: Wakeup): nat {
    Or(Or(Or(Or(c.colour * Pow2(12), AreasMask(c.areas) * Pow2(8)), c.brightness * Pow2(4)), c.ramp / 10 * Pow2(1)),
       Num(c.enabled))
  }

  function AreasOf(lv: nat): set<nat> {
    set a: nat | a in AREAS && HasBit(lv, 7 + a)
  }

  /** The latched wake-up configuration unpacked. */
  function Unpack(ts: nat, lv: nat): Wakeup {
    Wakeup(ts / 3600 % 24, ts / 60 % 60, lv / 4096 % 16, AreasOf(lv),
           lv / 16 % 16, lv % 16 / 2 * 10, lv % 2 == 1)
  }

  function WakeupConfig(latch: L.Latch): Option<Wakeup> {
    if L.WakeupTimestamp in latch && L.WakeupLightValue in latch then
      Some(Unpack(latch[L.WakeupTimestamp], latch[L.WakeupLightValue]))
    else None
  }

  lemma SmallPowers()
    ensures Pow2(1) == 2 && Pow2(4) == 16 && Pow2(8) == 256 && Pow2(12) == 4096 && Pow2(16) == 65536
    ensures Pow2(9) == 512 && Pow2(10) == 1024 && Pow2(11) == 2048
  {
    assert Pow2(2) == 4 && Pow2(3) == 8;
  }

  /** The fields do not overlap, so ORing them is adding them. */
  lemma PackedSum(c: Wakeup)
    requires InRange(c)
    ensures PackLight(c) == c.colour * 4096 + AreasMask(c.areas) * 256 + c.brightness * 16 + c.ramp / 10 * 2 + Num(c.enabled)
    ensures PackLight(c) < 65536
  {
    hide Or, Pow2;
    SmallPowers();
    var m := AreasMask(c.areas);
    OrShifted(c.colour, m * 256, 12);
    OrShifted(c.colour * 16 + m, c.brightness * 16, 8);
    OrShifted((c.colour * 16 + m) * 16 + c.brightness, c.ramp / 10 * 2, 4);
    OrShifted(((c.colour * 16 + m) * 16 + c.brightness) * 8 + c.ramp / 10, Num(c.enabled), 1);
  }

  lemma AreasBack(c: Wakeup, a: nat)
    requires InRange(c) && a in AREAS
    ensures HasBit(PackLight(c), 7 + a) <==> a in c.areas
  {
    hide Or, Pow2, PackLight, HasBit, AreasMask;
    PackedSum(c);
    SmallPowers();
    HighBits(c.colour * 16 + AreasMask(c.areas), c.brightness * 16 + c.ramp / 10 * 2 + Num(c.enabled), 8, a - 1);
    AreaBit(c.colour, c.areas, a);
  }

  lemma AreaBit(colour: nat, areas: set<nat>, a: nat)
    requires a in AREAS
    ensures HasBit(colour * 16 + AreasMask(areas), a - 1) <==> a in areas
  {
    hide HasBit;
    var s2, s3, s4 := Num(2 in areas), Num(3 in areas), Num(4 in areas);
    var v3 := colour * 2 + s4;
    var v2 := 2 * v3 + s3;
    var v1 := 2 * v2 + s2;
    var v := 2 * v1 + Num(1 in areas);
    HasBitZero(v);
    HasBitZero(v1);
    HasBitZero(v2);
    HasBitZero(v3);
    HasBitStep(v, 1);
    HasBitStep(v, 2);
    HasBitStep(v1, 1);
    HasBitStep(v, 3);
    HasBitStep(v1, 2);
    HasBitStep(v2, 1);
  }

  /** The four parts of the sum come apart again. */
  lemma PartsBack(colour: nat, m: nat, b: nat, r: nat, e: nat)
    requires m < 16 && b < 16 && colour < 16 && r < 8 && e < 2
    ensures var lv := colour * 4096 + m * 256 + b * 16 + r * 2 + e;
            lv / 4096 % 16 == colour && lv / 16 % 16 == b && lv % 16 / 2 == r && lv % 2 == e
  {
    var lv := colour * 4096 + m * 256 + b * 16 + r * 2 + e;
    assert lv / 16 == colour * 256 + m * 16 + b;
    assert lv % 16 == r * 2 + e;
  }

  /** Packing and unpacking a configuration, at any time of its hour and minute, gives it back. */
  lemma UnpackPack(c: Wakeup, ts: nat)
    requires InRange(c) && ts / 3600 % 24 == c.hour && ts / 60 % 60 == c.minute
    ensures Unpack(ts, PackLight(c)) == c
  {
    hide Or, Pow2, PackLight, HasBit;
    PackedSum(c);
    PartsBack(c.colour, AreasMask(c.areas), c.brightness, c.ramp / 10, Num(c.enabled));
    assert AreasOf(PackLight(c)) == c.areas by {
      forall a: nat
        ensures a in AreasOf(PackLight(c)) <==> a in c.areas
      {
        if a in AREAS {
          AreasBack(c, a);
        }
      }
    }
  }

  // ----- The next time -------------------------------------------------------------------------

  const DAY := 86400
  const MICROS := 1000000

  /** The next local `hour:minute` after `now`, in microseconds, as seconds of the local calendar. */
  function NextEpoch(hour: nat, minute: nat, now: int): int {
    var t := now / (DAY * MICROS) * DAY + hour * 3600 + minute * 60;
    if t * MICROS <= now then t + DAY else t
  }

  lemma NextIsNext(hour: nat, minute: nat, now: int)
    requires hour < 24 && minute < 60
    ensures var t := NextEpoch(hour, minute, now);
            && now < t * MICROS <= now + DAY * MICROS && t % 60 == 0
            && (t >= 0 ==> t / 3600 % 24 == hour && t / 60 % 60 == minute)
  {
    var d := now / (DAY * MICROS);
    assert d * (DAY * MICROS) <= now < (d + 1) * (DAY * MICROS);
    ClockOfDay(d, hour, minute);
    ClockOfDay(d + 1, hour, minute);
  }

  lemma ClockOfDay(d: int, hour: nat, minute: nat)
    requires hour < 24 && minute < 60
    ensures var t := d * DAY + hour * 3600 + minute * 60;
            t / 3600 % 24 == hour && t / 60 % 60 == minute
  {
    var t := d * DAY + hour * 3600 + minute * 60;
    assert t == 3600 * (24 * d + hour) + minute * 60;
    assert t / 3600 == 24 * d + hour;
    assert t == 60 * (60 * (24 * d + hour) + minute);
    assert t / 60 == 60 * (24 * d + hour) + minute;
  }

  // ----- The frame -----------------------------------------------------------------------------

  const UNCHANGED := 14
  const MODE_WAKEUP := 20

  const ZONES: set<Name> := {
    BrightnessLOne, BrightnessLTwo, BrightnessLThree, BrightnessLFour, BrightnessLFive, BrightnessLSix, BrightnessLSeven,
    BrightnessLEight, BrightnessLNine, BrightnessLOneZero, BrightnessLOneOne, BrightnessLOneTwo, BrightnessLOneThree,
    BrightnessLOneFour, BrightnessLOneFive, BrightnessLOneSix
  }

  function WakeupValues(c: Wakeup, now: int): Values {
    (map z | z in ZONES :: UNCHANGED)
      + map[ProfileNumber := UNCHANGED, Mode := MODE_WAKEUP, Timestamp := NextEpoch(c.hour, c.minute, now),
            LightValue := PackLight(c)]
  }

  /** The lighting control fields of the dictionary, one for each C row. */
  function LightingFields(): (fields: seq<Field>)
    ensures |fields| == |LIGHTING_CTRL|
  {
    LightingFromDictionary();
    MirroredFields(LIGHTING);
    PythonFields(LIGHTING)
  }

  predicate WidthIs(f: CField) {
    if f.name == Mode then f.width == 8
    else if f.name == Timestamp then f.width == 32
    else if f.name == LightValue then f.width == 16
    else f.width == 4 && (f.name == ProfileNumber || f.name in ZONES)
  }

  lemma Widths(i: nat)
    requires i < |LIGHTING_CTRL|
    ensures WidthIs(LIGHTING_CTRL[i])
  {
  }

  lemma Places()
    ensures |LIGHTING_CTRL| == 20 && LIGHTING_CTRL[0].name == ProfileNumber && LIGHTING_CTRL[1].name == Mode
    ensures LIGHTING_CTRL[2].name == Timestamp && LIGHTING_CTRL[3].name == LightValue
  {
  }

  /** Every field of the frame takes its value, if the time fits its 32 bits. */
  lemma FieldTakes(c: Wakeup, now: int, i: nat)
    requires InRange(c) && i < |LIGHTING_CTRL|
    ensures var f := LightingFields()[i];
            var values := WakeupValues(c, now);
            && f.name in values && Given(f, values) == Some(values[f.name])
            && (Choose(f, values, 128).Value? <==>
                  (f.name == Timestamp ==> 0 <= NextEpoch(c.hour, c.minute, now) < WORD))
  {
    hide PackLight, NextEpoch, Pow2, Or, Usable, LIGHTING_CTRL;
    Widths(i);
    PackedSum(c);
    SmallPowers();
    Pow2Of32();
    LightingUsable();
    FieldsFit(i);
  }

  lemma FieldsFit(i: nat)
    requires i < |LIGHTING_CTRL|
    ensures LightingFields()[i].Fits(128)
    ensures LightingFields()[i] == FieldOf(LIGHTING_CTRL[i], LIGHTING_RANGES)
  {
    hide LIGHTING_CTRL, LIGHTING_ROWS, Mirrors;
    LightingFromDictionary();
    MirroredFields(LIGHTING);
    LightingUsable();
  }

  /** What `decode_control` makes of a lighting frame. */
  function FrameOf(back: Values): L.Frame {
    L.Frame(Number(back, Mode), Number(back, ProfileNumber), Number(back, LightValue), Number(back, Timestamp), [])
  }

  function Number(back: Values, name: Name): Option<nat> {
    if name in back && back[name] >= 0 then Some(back[name]) else None
  }

  /** The frame is the one the lighting table builds of the configuration's values, and what is latched is
      what folding its decode over `prev` leaves. */
  ghost predicate SentAndLatched(c: Wakeup, now: int, prev: Option<L.Served>, sent: Encoded, latched: Option<Wakeup>) {
    match Build(LightingFields(), WakeupValues(c, now), 128)
    case Fail(why, at) => sent == Encoded.Refused(InField(why, at)) && latched == None
    case Frame(bits) =>
      && sent.Bytes? && |sent.bytes| == 16 && BitsIn(sent.bytes) == bits
      && latched == WakeupConfig(L.Merge(prev, L.Served(FrameOf(Decoded(LightingFields(), BitsIn(sent.bytes))), map[])).latch)
  }

  /** A wake-up configuration is sent whenever its time fits the frame, and the frame, decoded and folded
      over whatever was served before, is latched as exactly that configuration. */
  method SendWakeup(c: Wakeup, now: int, prev: Option<L.Served>) returns (sent: Encoded, latched: Option<Wakeup>)
    requires InRange(c)
    ensures SentAndLatched(c, now, prev, sent, latched)
    ensures sent.Bytes? <==> 0 <= NextEpoch(c.hour, c.minute, now) < WORD
    ensures sent.Bytes? ==> latched == Some(c)
  {
    hide PackLight, NextEpoch, Pow2, Or, Usable, LIGHTING_CTRL, WakeupValues, Given, Choose, Unpack, LightingFields,
      Build, Decoded;
    var fields, values := LightingFields(), WakeupValues(c, now);
    LightingHypotheses();
    NamesInPlace();
    var back;
    sent, back := CodecParity.RoundTrip(fields, values, 16);
    forall i | 0 <= i < |fields|
      ensures fields[i].name in values && Given(fields[i], values) == Some(values[fields[i].name])
      ensures Choose(fields[i], values, 128).Value? <==>
                (fields[i].name == Timestamp ==> 0 <= NextEpoch(c.hour, c.minute, now) < WORD)
    {
      FieldTakes(c, now, i);
    }
    assert fields[2].name == Timestamp;
    latched := None;
    if sent.Bytes? {
      assert fields[0].name in back && fields[1].name in back && fields[2].name in back && fields[3].name in back;
      ValuesAre(c, now);
      var merged := L.Merge(prev, L.Served(FrameOf(back), map[]));
      latched := WakeupConfig(merged.latch);
      NextIsNext(c.hour, c.minute, now);
      UnpackPack(c, NextEpoch(c.hour, c.minute, now));
    }
  }

  lemma UnpackInRange(ts: nat, lv: nat)
    ensures InRange(Unpack(ts, lv))
  {
    assert lv % 16 / 2 * 10 / 10 == lv % 16 / 2;
  }

  /** The whole command: words over what is latched, sent, and latched as what the words ask for. */
  method Command(words: seq<Word>, last: L.Served, now: int)
    returns (asked: Option<Wakeup>, sent: Option<Encoded>, latched: Option<Wakeup>)
    ensures var cur := WakeupConfig(L.Config(None, last));
            && (asked.Some? <==>
                  words != [] && ClocksOk(words) && (cur.Some? || Timed(words)) && PositionalsOk(Positionals(words)))
            && (asked.Some? ==> InRange(asked.value) && Obeys(asked.value, words, cur))
    ensures asked.None? ==> sent == None && latched == None
    ensures asked.Some? ==>
              var c := asked.value;
              && sent.Some? && SentAndLatched(c, now, Some(last), sent.value, latched)
              && (sent.value.Bytes? <==> 0 <= NextEpoch(c.hour, c.minute, now) < WORD)
              && (sent.value.Bytes? ==> latched == asked)
  {
    hide Obeys, ClocksOk, Timed, PositionalsOk, Positionals, Unpack, InRange, SentAndLatched, NextEpoch;
    var config := L.LightingConfig(None, last);
    var cur := WakeupConfig(config);
    if cur.Some? {
      UnpackInRange(config[L.WakeupTimestamp], config[L.WakeupLightValue]);
    }
    var answer := Request(words, cur);
    if answer.Refused? {
      return None, None, None;
    }
    asked := Some(answer.c);
    var frame;
    frame, latched := SendWakeup(answer.c, now, Some(last));
    sent := Some(frame);
  }

  lemma LightingHypotheses()
    ensures Disjoint(LightingFields()) && UniqueNames(LightingFields())
  {
    hide LIGHTING_CTRL, LIGHTING_ROWS, PythonFields;
    LightingUsable();
  }

  lemma NamesInPlace()
    ensures var fields := LightingFields();
            && |fields| == |LIGHTING_CTRL| == 20 && fields[0].name == ProfileNumber && fields[1].name == Mode
            && fields[2].name == Timestamp && fields[3].name == LightValue
  {
    Places();
    hide LIGHTING_CTRL, LIGHTING_ROWS, Mirrors;
    LightingFromDictionary();
    MirroredFields(LIGHTING);
  }

  lemma ValuesAre(c: Wakeup, now: int)
    ensures var values := WakeupValues(c, now);
            && Mode in values && values[Mode] == MODE_WAKEUP
            && Timestamp in values && values[Timestamp] == NextEpoch(c.hour, c.minute, now)
            && LightValue in values && values[LightValue] == PackLight(c)
  {
  }
}

/** Lighting frames folded into the served decode: the lamps, and the configuration that is latched. */
module Lighting {
  import opened Common
  import opened Bits

  // ----- Data model ----------------------------------------------------------------------------

  datatype Key = WakeupTimestamp | WakeupLightValue | DoorContact | FavouritesStored

  const CONFIG_KEYS := [WakeupTimestamp, WakeupLightValue, DoorContact, FavouritesStored]

  type Latch = map<Key, nat>

  /** A decoded frame: its kind, and the lamp levels as they come. */
  datatype Frame = Frame(mode: Option<nat>, profile: Option<nat>, lightValue: Option<nat>, timestamp: Option<nat>,
                         lamps: seq<nat>)

  /** A decode as served: a frame and the latch keys merged into it. A frame from the unit has none. */
  datatype Served = Served(frame: Frame, latch: Latch)

  // ----- The kinds of frame --------------------------------------------------------------------

  predicate IsWakeup(f: Frame) {
    f.mode == Some(20) && f.lightValue.Some? && f.timestamp.Some?
  }

  predicate IsDoor(f: Frame) {
    f.mode == Some(16) && f.profile == Some(8) && f.lightValue.Some?
  }

  /** Profile 13 is the request itself, not a reply. */
  predicate IsReply(f: Frame) {
    f.mode == Some(12) && f.lightValue.Some? && f.profile != Some(13)
  }

  predicate IsSaveAck(f: Frame) {
    f.mode == Some(4) && f.profile.Some? && 1 <= f.profile.value <= 7
  }

  predicate ReportsState(f: Frame) {
    if f.mode == Some(4) then !(f.profile.Some? && 1 <= f.profile.value <= 7)
    else f.mode == Some(16) && f.profile != Some(8)
  }

  // ----- lighting_config, lighting_merge -------------------------------------------------------

  /** The frame's own news over what was latched. */
  function Updated(out: Latch, f: Frame): Latch {
    if IsWakeup(f) then out[WakeupTimestamp := f.timestamp.value][WakeupLightValue := f.lightValue.value]
    else if IsDoor(f) then out[DoorContact := f.lightValue.value]
    else if IsReply(f) then out[FavouritesStored := f.lightValue.value % 128]
    else if IsSaveAck(f) && FavouritesStored in out then
      out[FavouritesStored := Or(out[FavouritesStored], Pow2(f.profile.value - 1))]
    else out
  }

  function LatchOf(prev: Option<Served>): Latch {
    if prev.Some? then prev.value.latch else map[]
  }

  function Config(prev: Option<Served>, s: Served): Latch {
    Updated(LatchOf(prev) + s.latch, s.frame)
  }

  /** The source's loops over the two decodes and the keys. */
  method LightingConfig(prev: Option<Served>, s: Served) returns (out: Latch)
    ensures out == Config(prev, s)
  {
    hide Or;
    out := map[];
    var sources := [LatchOf(prev), s.latch];
    var i := 0;
    while i < |sources|
      invariant 0 <= i <= |sources|
      invariant out == if i == 0 then map[] else if i == 1 then LatchOf(prev) else LatchOf(prev) + s.latch
    {
      ghost var was := out;
      var k := 0;
      while k < |CONFIG_KEYS|
        invariant 0 <= k <= |CONFIG_KEYS|
        invariant forall key :: key in out <==> key in was || (key in sources[i] && key in CONFIG_KEYS[..k])
        invariant forall key :: key in out ==>
                    out[key] == if key in sources[i] && key in CONFIG_KEYS[..k] then sources[i][key] else was[key]
      {
        var key := CONFIG_KEYS[k];
        if key in sources[i] {
          out := out[key := sources[i][key]];
        }
        assert CONFIG_KEYS[..k + 1] == CONFIG_KEYS[..k] + [key];
        k := k + 1;
      }
      AllKeys();
      assert out == was + sources[i];
      i := i + 1;
    }
    var f := s.frame;
    if f.mode == Some(20) && f.lightValue.Some? && f.timestamp.Some? {
      out := out[WakeupTimestamp := f.timestamp.value][WakeupLightValue := f.lightValue.value];
    } else if f.mode == Some(16) && f.profile == Some(8) && f.lightValue.Some? {
      out := out[DoorContact := f.lightValue.value];
    } else if f.mode == Some(12) && f.lightValue.Some? && f.profile != Some(13) {
      out := out[FavouritesStored := f.lightValue.value % 128];
    } else if f.mode == Some(4) && f.profile.Some? && 1 <= f.profile.value <= 7 && FavouritesStored in out {
      out := out[FavouritesStored := Or(out[FavouritesStored], Pow2(f.profile.value - 1))];
    }
  }

  lemma AllKeys()
    ensures forall key: Key :: key in CONFIG_KEYS[..|CONFIG_KEYS|]
  {
    forall key: Key
      ensures key in CONFIG_KEYS[..|CONFIG_KEYS|]
    {
      assert CONFIG_KEYS[..|CONFIG_KEYS|] == CONFIG_KEYS;
      match key
      case WakeupTimestamp => assert CONFIG_KEYS[0] == key;
      case WakeupLightValue => assert CONFIG_KEYS[1] == key;
      case DoorContact => assert CONFIG_KEYS[2] == key;
      case FavouritesStored => assert CONFIG_KEYS[3] == key;
    }
  }

  function Merge(prev: Option<Served>, s: Served): Served {
    var keep := prev.Some? && ReportsState(prev.value.frame) && !ReportsState(s.frame);
    Served(if keep then prev.value.frame else s.frame, Config(prev, s))
  }

  // ----- Which frame says what, by its numbers -------------------------------------------------

  /** A door contact, a save acknowledged, a configuration reply or request, a wake-up, a clock. */
  predicate ConfigOrAck(f: Frame) {
    f.mode.Some?
    && match f.mode.value
       case 4 => f.profile.Some? && f.profile.value in {1, 2, 3, 4, 5, 6, 7}
       case 16 => f.profile == Some(8)
       case m => m in {6, 8, 12, 20, 24}
  }

  /** No such frame changes the lamps, mode or profile served once a lamp state is; a live change of mode 4 or
      16 does, and so does any frame before the first. */
  lemma LampsByMode(prev: Option<Served>, f: Frame)
    requires prev.Some? ==> prev.value.frame.mode.Some?
    ensures var lamps := (g: Frame) => g.mode in {Some(4), Some(16)} && !ConfigOrAck(g);
            Merge(prev, Served(f, map[])).frame ==
              if prev.Some? && lamps(prev.value.frame) && !lamps(f) then prev.value.frame else f
  {
    hide Config;
  }

  /** What each frame latches: a wake-up its time and light value, a door contact its value, a reply the seven
      stored bits; a save adds its bit where the bits are known; every other key stays as it was. */
  lemma LatchByMode(prev: Option<Served>, f: Frame)
    ensures var was, now := LatchOf(prev), Config(prev, Served(f, map[]));
            var wakeup := f.mode == Some(20) && f.lightValue.Some? && f.timestamp.Some?;
            var door := f.mode == Some(16) && f.profile == Some(8) && f.lightValue.Some?;
            var reply := f.mode == Some(12) && f.lightValue.Some? && f.profile != Some(13);
            var save := f.mode == Some(4) && ConfigOrAck(f) && FavouritesStored in was;
            && (wakeup ==> WakeupTimestamp in now && now[WakeupTimestamp] == f.timestamp.value
                           && WakeupLightValue in now && now[WakeupLightValue] == f.lightValue.value)
            && (door ==> DoorContact in now && now[DoorContact] == f.lightValue.value)
            && (reply ==> FavouritesStored in now && now[FavouritesStored] == f.lightValue.value % 128)
            && (save ==> FavouritesStored in now
                         && now[FavouritesStored] == Or(was[FavouritesStored], Pow2(f.profile.value - 1)))
            && forall key: Key ::
                 (match key
                  case WakeupTimestamp => !wakeup
                  case WakeupLightValue => !wakeup
                  case DoorContact => !door
                  case FavouritesStored => !reply && !save)
                 ==> (key in now <==> key in was) && (key in was ==> now[key] == was[key])
  {
    hide Or, Pow2;
  }

  // ----- Folding -------------------------------------------------------------------------------

  /** The served decode after the unit sent these frames. */
  function Folded(frames: seq<Frame>): Option<Served>
    decreases |frames|
  {
    if frames == [] then None
    else Some(Merge(Folded(frames[..|frames| - 1]), Served(frames[|frames| - 1], map[])))
  }

  /** The index after the last frame of a kind, 0 if there is none. */
  function AfterLast(frames: seq<Frame>, kind: Frame -> bool): (n: nat)
    ensures n <= |frames|
    ensures n > 0 ==> kind(frames[n - 1])
    ensures forall i :: n <= i < |frames| ==> !kind(frames[i])
    decreases |frames|
  {
    if frames == [] then 0
    else if kind(frames[|frames| - 1]) then |frames|
    else AfterLast(frames[..|frames| - 1], kind)
  }

  lemma LastOfFront(frames: seq<Frame>, kind: Frame -> bool)
    requires frames != [] && !kind(frames[|frames| - 1])
    ensures AfterLast(frames, kind) == AfterLast(frames[..|frames| - 1], kind)
  {
  }

  /** The lamps are those of the last lamp-state frame once there was one, else the last frame's. */
  lemma {:induction false} LampsFromLastState(frames: seq<Frame>)
    requires frames != []
    ensures var n := AfterLast(frames, ReportsState);
            Folded(frames).value.frame == frames[if n > 0 then n - 1 else |frames| - 1]
    decreases |frames|
  {
    hide Config;
    var front := frames[..|frames| - 1];
    if front != [] {
      LampsFromLastState(front);
    }
  }

  /** What the latch says of the wake-up and the door is what the last frame of that kind said. */
  lemma {:induction false} ConfigFromLastOfKind(frames: seq<Frame>)
    ensures var latch := LatchOf(Folded(frames));
            var w, d := AfterLast(frames, IsWakeup), AfterLast(frames, IsDoor);
            && (WakeupTimestamp in latch <==> w > 0) && (WakeupLightValue in latch <==> w > 0)
            && (w > 0 ==> latch[WakeupTimestamp] == frames[w - 1].timestamp.value
                          && latch[WakeupLightValue] == frames[w - 1].lightValue.value)
            && (DoorContact in latch <==> d > 0)
            && (d > 0 ==> latch[DoorContact] == frames[d - 1].lightValue.value)
    decreases |frames|
  {
    hide Or, Folded;
    LatchOfNothing();
    if frames != [] {
      var front := frames[..|frames| - 1];
      ConfigFromLastOfKind(front);
      LatchOneMore(frames);
    }
  }

  lemma LatchOfNothing()
    ensures LatchOf(Folded([])) == map[]
  {
  }

  lemma LatchOneMore(frames: seq<Frame>)
    requires frames != []
    ensures LatchOf(Folded(frames)) == Updated(LatchOf(Folded(frames[..|frames| - 1])), frames[|frames| - 1])
  {
    hide Updated;
    var before := LatchOf(Folded(frames[..|frames| - 1]));
    assert before + map[] == before;
  }

  predicate SavedSince(frames: seq<Frame>, n: nat, k: nat)
    requires n <= |frames|
  {
    exists i :: n <= i < |frames| && IsSaveAck(frames[i]) && frames[i].profile.value == k + 1
  }

  lemma NoneSaved(frames: seq<Frame>, k: nat)
    ensures !SavedSince(frames, |frames|, k)
  {
  }

  /** Favourite `k + 1` is stored exactly if the last configuration reply said so or it was saved since;
      nothing is known before a reply. */
  lemma {:induction false} FavouritesFromReplyAndSaves(frames: seq<Frame>, k: nat)
    ensures var latch := LatchOf(Folded(frames));
            var n := AfterLast(frames, IsReply);
            && (FavouritesStored in latch <==> n > 0)
            && (n > 0 ==> (HasBit(latch[FavouritesStored], k) <==>
                             HasBit(frames[n - 1].lightValue.value % 128, k) || SavedSince(frames, n, k)))
    decreases |frames|
  {
    hide Or, HasBit, Pow2, Folded, SavedSince;
    LatchOfNothing();
    NoneSaved(frames, k);
    if frames != [] {
      var front, f := frames[..|frames| - 1], frames[|frames| - 1];
      FavouritesFromReplyAndSaves(front, k);
      LatchOneMore(frames);
      if !IsReply(f) {
        LastOfFront(frames, IsReply);
        var n, latch := AfterLast(frames, IsReply), LatchOf(Folded(front));
        SavedOneMore(front, f, n, k);
        assert front + [f] == frames;
        if IsSaveAck(f) && FavouritesStored in latch {
          OrBits(latch[FavouritesStored], Pow2(f.profile.value - 1), k);
          Pow2Bit(f.profile.value - 1, k);
        }
      }
    }
  }

  lemma SavedOneMore(front: seq<Frame>, f: Frame, n: nat, k: nat)
    requires n <= |front|
    ensures SavedSince(front + [f], n, k) <==> SavedSince(front, n, k) || (IsSaveAck(f) && f.profile.value == k + 1)
  {
    var all := front + [f];
    assert all[|front|] == f;
    if SavedSince(front, n, k) {
      var i :| n <= i < |front| && IsSaveAck(front[i]) && front[i].profile.value == k + 1;
      assert all[i] == front[i];
    }
    if SavedSince(all, n, k) {
      var i :| n <= i < |all| && IsSaveAck(all[i]) && all[i].profile.value == k + 1;
      assert i < |front| ==> all[i] == front[i];
    }
  }
}

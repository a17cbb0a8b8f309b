/** The wake-up command: from words to a configuration. */
module Wakeup {
  import opened Common

  datatype Wakeup = Wakeup(hour: nat, minute: nat, colour: nat, areas: set<nat>, brightness: nat, ramp: nat, enabled: bool)

  const DEFAULT := Wakeup(0, 0, 1, {1}, 0, 0, false)
  const AREAS: set<nat> := {1, 2, 3, 4}
  const RAMPS: set<int> := {0, 10, 20, 30}

  /** What the packed form has room for. */
  predicate InRange(c: Wakeup) {
    && c.hour < 24 && c.minute < 60 && c.colour < 16 && c.areas <= AREAS
    && c.brightness < 16 && c.ramp % 10 == 0 && c.ramp / 10 < 8
  }

  // ----- wakeup_request ------------------------------------------------------------------------

  /** A word of the command, split at its commas or at its colon; a part that is no number is `None`. */
  datatype Word = Switch(on: bool) | Clock(parts: seq<Option<int>>) | Positional(parts: seq<Option<int>>)

  datatype Answer = Config(c: Wakeup) | Refused

  predicate ClockOk(parts: seq<Option<int>>) {
    && |parts| == 2 && parts[0].Some? && parts[1].Some?
    && 0 <= parts[0].value <= 23 && 0 <= parts[1].value <= 59
  }

  predicate AreasOk(parts: seq<Option<int>>) {
    forall p :: p in parts ==> p.Some? && 1 <= p.value <= 4
  }

  function AreaSet(parts: seq<Option<int>>): set<nat>
    requires AreasOk(parts)
  {
    set p | p in parts :: p.value
  }

  predicate IsNumber(parts: seq<Option<int>>) {
    |parts| == 1 && parts[0].Some?
  }

  /** The positionals, in order: areas, brightness, ramp. */
  predicate PositionalsOk(pos: seq<seq<Option<int>>>) {
    && |pos| <= 3
    && (|pos| > 0 ==> AreasOk(pos[0]))
    && (|pos| > 1 ==> IsNumber(pos[1]) && 0 <= pos[1][0].value <= 10)
    && (|pos| > 2 ==> IsNumber(pos[2]) && pos[2][0].value in RAMPS)
  }

  function Positionals(words: seq<Word>): seq<seq<Option<int>>>
    decreases |words|
  {
    if words == [] then []
    else
      var n := |words| - 1;
      if words[n].Positional? then Positionals(words[..n]) + [words[n].parts] else Positionals(words[..n])
  }

  predicate ClocksOk(words: seq<Word>) {
    forall w :: w in words && w.Clock? ==> ClockOk(w.parts)
  }

  predicate Timed(words: seq<Word>) {
    exists w :: w in words && w.Clock?
  }

  /** The last switch given, else what it was. */
  function SwitchOf(words: seq<Word>, was: bool): bool
    decreases |words|
  {
    if words == [] then was
    else
      match words[|words| - 1]
      case Switch(on) => on
      case _ => SwitchOf(words[..|words| - 1], was)
  }

  /** The last time given, else what it was. */
  function ClockOf(words: seq<Word>, was: (int, int)): (int, int)
    decreases |words|
  {
    if words == [] then was
    else
      match words[|words| - 1]
      case Clock(parts) => if ClockOk(parts) then (parts[0].value, parts[1].value) else was
      case _ => ClockOf(words[..|words| - 1], was)
  }

  /** The switch and the time are the last ones given, the rest the positionals; what is not given stays
      as it was latched, the switch off if nothing was. */
  predicate Obeys(c: Wakeup, words: seq<Word>, cur: Option<Wakeup>) {
    var pos, was := Positionals(words), cur.GetOr(DEFAULT);
    && PositionalsOk(pos)
    && c.enabled == SwitchOf(words, cur.Some? && cur.value.enabled)
    && (c.hour, c.minute) == ClockOf(words, (was.hour, was.minute))
    && c.colour == was.colour
    && c.areas == (if |pos| > 0 then AreaSet(pos[0]) else was.areas)
    && c.brightness == (if |pos| > 1 then pos[1][0].value else was.brightness)
    && c.ramp == (if |pos| > 2 then pos[2][0].value else was.ramp)
  }

  /** The words over the latched configuration. */
  method Request(words: seq<Word>, cur: Option<Wakeup>) returns (answer: Answer)
    requires cur.Some? ==> InRange(cur.value)
    ensures answer.Config? <==>
              words != [] && ClocksOk(words) && (cur.Some? || Timed(words)) && PositionalsOk(Positionals(words))
    ensures answer.Config? ==> InRange(answer.c) && Obeys(answer.c, words, cur)
    ensures answer.Config? ==>
              var given := |Positionals(words)|;
              && given <= 3 && (given > 1 ==> answer.c.brightness <= 10) && (given > 2 ==> answer.c.ramp in {0, 10, 20, 30})
  {
    hide Positionals, SwitchOf, ClockOf, Timed, ClocksOk, InRange, PositionalsOk;
    if words == [] {
      return Refused;
    }
    var c := cur.GetOr(DEFAULT);
    DefaultInRange();
    ghost var was := c;
    c := c.(enabled := cur.Some? && cur.value.enabled);
    SwitchKeepsRange(was, c);
    var ok, timed, pos;
    ok, c, timed, pos := Scan(words, c);
    if !ok {
      return Refused;
    }
    if cur.None? && !timed {
      return Refused;
    }
    answer := ApplyPositionals(c, pos);
  }

  lemma DefaultInRange()
    ensures InRange(DEFAULT)
  {
  }

  lemma SwitchKeepsRange(a: Wakeup, b: Wakeup)
    requires InRange(a) && b.(enabled := a.enabled) == a
    ensures InRange(b)
  {
  }

  /** One pass over the words. */
  method Scan(words: seq<Word>, start: Wakeup) returns (ok: bool, c: Wakeup, timed: bool, pos: seq<seq<Option<int>>>)
    requires InRange(start)
    ensures ok <==> ClocksOk(words)
    ensures ok ==> InRange(c) && timed == Timed(words) && pos == Positionals(words)
    ensures ok ==> c.enabled == SwitchOf(words, start.enabled)
                   && (c.hour, c.minute) == ClockOf(words, (start.hour, start.minute))
                   && c == start.(enabled := c.enabled, hour := c.hour, minute := c.minute)
  {
    hide Positionals, SwitchOf, ClockOf, Timed, ClocksOk;
    c, timed, pos := start, false, [];
    var i := 0;
    NoWords(start);
    assert words[..0] == [];
    while i < |words|
      invariant 0 <= i <= |words| && InRange(c)
      invariant pos == Positionals(words[..i]) && timed == Timed(words[..i]) && ClocksOk(words[..i])
      invariant c.enabled == SwitchOf(words[..i], start.enabled)
      invariant (c.hour, c.minute) == ClockOf(words[..i], (start.hour, start.minute))
      invariant c == start.(enabled := c.enabled, hour := c.hour, minute := c.minute)
    {
      var w := words[i];
      assert words[..i + 1] == words[..i] + [w];
      OneMoreWord(words[..i], w, start.enabled, (start.hour, start.minute));
      match w {
        case Switch(on) => c := c.(enabled := on);
        case Clock(parts) =>
          if !ClockOk(parts) {
            BadClock(words, i);
            return false, c, timed, pos;
          }
          c, timed := c.(hour := parts[0].value, minute := parts[1].value), true;
        case Positional(parts) => pos := pos + [parts];
      }
      i := i + 1;
    }
    assert words[..i] == words;
    ok := true;
  }

  lemma NoWords(c: Wakeup)
    ensures Positionals([]) == [] && !Timed([]) && ClocksOk([])
    ensures SwitchOf([], c.enabled) == c.enabled && ClockOf([], (c.hour, c.minute)) == (c.hour, c.minute)
  {
  }

  lemma BadClock(words: seq<Word>, i: nat)
    requires i < |words| && words[i].Clock? && !ClockOk(words[i].parts)
    ensures !ClocksOk(words)
  {
    assert words[i] in words;
  }

  lemma OneMoreWord(words: seq<Word>, w: Word, on: bool, time: (int, int))
    ensures Positionals(words + [w]) == if w.Positional? then Positionals(words) + [w.parts] else Positionals(words)
    ensures Timed(words + [w]) <==> Timed(words) || w.Clock?
    ensures ClocksOk(words + [w]) <==> ClocksOk(words) && (w.Clock? ==> ClockOk(w.parts))
    ensures SwitchOf(words + [w], on) == if w.Switch? then w.on else SwitchOf(words, on)
    ensures w.Clock? && ClockOk(w.parts) ==> ClockOf(words + [w], time) == (w.parts[0].value, w.parts[1].value)
    ensures !w.Clock? ==> ClockOf(words + [w], time) == ClockOf(words, time)
  {
    var all := words + [w];
    assert all[|words|] == w && all[..|words|] == words;
    assert forall x :: x in all <==> x in words || x == w;
  }

  /** Areas, brightness and ramp, as far as given. */
  method ApplyPositionals(c0: Wakeup, pos: seq<seq<Option<int>>>) returns (answer: Answer)
    requires InRange(c0)
    ensures answer.Config? <==> PositionalsOk(pos)
    ensures answer.Config? ==> InRange(answer.c)
    ensures answer.Config? ==>
              |pos| <= 3 && (|pos| > 1 ==> answer.c.brightness <= 10) && (|pos| > 2 ==> answer.c.ramp in {0, 10, 20, 30})
    ensures answer.Config? ==>
              answer.c == c0.(areas := if |pos| > 0 then AreaSet(pos[0]) else c0.areas,
                              brightness := if |pos| > 1 then pos[1][0].value else c0.brightness,
                              ramp := if |pos| > 2 then pos[2][0].value else c0.ramp)
  {
    var c := c0;
    if |pos| > 3 {
      return Refused;
    }
    if |pos| > 0 {
      if !AreasOk(pos[0]) {
        return Refused;
      }
      c := c.(areas := AreaSet(pos[0]));
    }
    if |pos| > 1 {
      if !IsNumber(pos[1]) || !(0 <= pos[1][0].value <= 10) {
        return Refused;
      }
      c := c.(brightness := pos[1][0].value);
    }
    if |pos| > 2 {
      if !IsNumber(pos[2]) || pos[2][0].value !in RAMPS {
        return Refused;
      }
      c := c.(ramp := pos[2][0].value);
    }
    return Config(c);
  }

  // ----- Spelling a configuration --------------------------------------------------------------

  /** What the words can ask for. */
  predicate Askable(c: Wakeup) {
    && c.hour < 24 && c.minute < 60 && c.areas <= {1, 2, 3, 4} && c.areas != {}
    && c.brightness <= 10 && c.ramp in {0, 10, 20, 30}
  }

  function Listed(areas: set<nat>, a: nat): seq<Option<int>> {
    if a in areas then [Some(a)] else []
  }

  function Listing(areas: set<nat>): seq<Option<int>> {
    Listed(areas, 1) + Listed(areas, 2) + Listed(areas, 3) + Listed(areas, 4)
  }

  /** The words for it: switch, time, areas, brightness and ramp. */
  function Spelled(c: Wakeup): seq<Word> {
    [Switch(c.enabled), Clock([Some(c.hour), Some(c.minute)]), Positional(Listing(c.areas)),
     Positional([Some(c.brightness)]), Positional([Some(c.ramp)])]
  }

  lemma ListingIs(areas: set<nat>)
    requires areas <= {1, 2, 3, 4}
    ensures AreasOk(Listing(areas)) && AreaSet(Listing(areas)) == areas
  {
    var parts := Listing(areas);
    assert forall p :: p in parts <==> p.Some? && p.value in {1, 2, 3, 4} && p.value in areas;
    forall a: nat
      ensures a in AreaSet(parts) <==> a in areas
    {
      if a in areas {
        assert Some(a) in parts;
      }
    }
  }

  /** Whatever can be asked for can be spelled: its words are accepted over anything latched, and what obeys
      them is the configuration itself, in the colour there was. */
  lemma SpelledIsAsked(c: Wakeup, d: Wakeup, cur: Option<Wakeup>)
    requires Askable(c)
    ensures var words := Spelled(c);
            && ClocksOk(words) && Timed(words) && PositionalsOk(Positionals(words))
            && (Obeys(d, words, cur) <==> d == c.(colour := cur.GetOr(DEFAULT).colour))
  {
    hide AreaSet, Listing, AreasOk;
    ListingIs(c.areas);
    SpelledParts(c, cur);
  }

  lemma SpelledParts(c: Wakeup, cur: Option<Wakeup>)
    ensures var words := Spelled(c);
            && Positionals(words) == [Listing(c.areas), [Some(c.brightness)], [Some(c.ramp)]]
            && SwitchOf(words, cur.Some? && cur.value.enabled) == c.enabled
            && (c.hour < 24 && c.minute < 60 ==>
                  ClocksOk(words) && ClockOf(words, (cur.GetOr(DEFAULT).hour, cur.GetOr(DEFAULT).minute)) == (c.hour, c.minute))
            && Timed(words)
  {
    hide Listing;
    var words := Spelled(c);
    assert words[1].Clock? && words[1] in words;
    var on, was := cur.Some? && cur.value.enabled, (cur.GetOr(DEFAULT).hour, cur.GetOr(DEFAULT).minute);
    assert words[..4][..3] == words[..3] && words[..3][..2] == words[..2] && words[..2][..1] == words[..1] && words[..1][..0] == [];
    assert Positionals(words[..0]) == [];
    assert Positionals(words[..1]) == [];
    assert Positionals(words[..2]) == [];
    assert SwitchOf(words[..1], on) == SwitchOf(words[..2], on) == SwitchOf(words[..3], on) == c.enabled;
    assert Positionals(words[..3]) == [Listing(c.areas)];
    assert Positionals(words[..4]) == [Listing(c.areas), [Some(c.brightness)]];
    assert c.hour < 24 && c.minute < 60 ==> ClockOf(words[..2], was) == ClockOf(words[..3], was) == (c.hour, c.minute);
  }
}

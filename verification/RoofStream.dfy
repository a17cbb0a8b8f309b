/** The SafetyCounter stream: direction switches between ticks repeat the counter, ticks advance it. */
module RoofStream {
  const WORD := 0x1_0000_0000
  const TICK_MS := 500

  /** The time-derived counter. */
  function SafetyCounter(seed: nat, elapsedMs: nat): nat {
    (seed + elapsedMs / TICK_MS) % WORD
  }

  datatype Frame = Frame(dir: nat, ctr: nat)

  datatype Stream = Stream(dir: nat, ctr: nat, sent: bool, alive: bool, frames: seq<Frame>)

  /** What happens to the stream under its lock; `gone` says that the write found the link gone. */
  datatype Op = Set(dir: nat, gone: bool) | Tick(gone: bool) | Close

  function Opened(dir: nat, seed: nat): Stream {
    Stream(dir, seed % WORD, false, true, [])
  }

  function Wrote(s: Stream, gone: bool): Stream {
    s.(sent := true, alive := s.alive && !gone, frames := s.frames + [Frame(s.dir, s.ctr)])
  }

  /** The ticker runs from the first frame on, while the stream is alive. */
  predicate Ticks(s: Stream) {
    s.sent && s.alive
  }

  function Step(s: Stream, op: Op): Stream {
    match op
    case Set(dir, gone) => if s.sent && dir == s.dir then s else Wrote(s.(dir := dir), gone)
    case Tick(gone) => if Ticks(s) then Wrote(s.(ctr := (s.ctr + 1) % WORD), gone) else s
    case Close => s.(alive := false)
  }

  function After(s: Stream, ops: seq<Op>): Stream
    decreases |ops|
  {
    if ops == [] then s else Step(After(s, ops[..|ops| - 1]), ops[|ops| - 1])
  }

  /** How many ticks wrote a frame. */
  function LiveTicks(s: Stream, ops: seq<Op>): nat
    decreases |ops|
  {
    if ops == [] then 0
    else
      var front := ops[..|ops| - 1];
      LiveTicks(s, front) + if ops[|ops| - 1].Tick? && Ticks(After(s, front)) then 1 else 0
  }

  // ----- The class -----------------------------------------------------------------------------

  class Ticker {
    var dir: nat
    var ctr: nat
    var sent: bool
    var alive: bool
    ghost var frames: seq<Frame>

    constructor (frame: nat, seed: nat)
      ensures View() == Opened(frame, seed)
    {
      dir, ctr, sent, alive, frames := frame, seed % WORD, false, true, [];
    }

    ghost function View(): Stream
      reads this
    {
      Stream(dir, ctr, sent, alive, frames)
    }

    /** One frame of the current direction and counter. */
    method Write(gone: bool)
      modifies this
      ensures View() == Wrote(old(View()), gone)
    {
      frames := frames + [Frame(dir, ctr)];
      sent := true;
      if gone {
        alive := false;
      }
    }

    /** A switch of direction, written at once; nothing if that direction already went out. */
    method Switch(frame: nat, gone: bool)
      modifies this
      ensures View() == Step(old(View()), Set(frame, gone))
    {
      if sent && frame == dir {
        return;
      }
      dir := frame;
      Write(gone);
    }

    /** The ticker's period is over. */
    method OnTick(gone: bool)
      requires sent
      modifies this
      ensures View() == Step(old(View()), Tick(gone))
    {
      if alive {
        ctr := (ctr + 1) % WORD;
        Write(gone);
      }
    }

    method Shut()
      modifies this
      ensures View() == Step(old(View()), Close)
    {
      alive := false;
    }
  }

  // ----- What the unit sees --------------------------------------------------------------------

  /** After `k` ticks the counter is the time-derived one at `500 k` ms. */
  lemma {:induction false} CounterIsTime(dir: nat, seed: nat, ops: seq<Op>)
    ensures After(Opened(dir, seed), ops).ctr
            == SafetyCounter(seed % WORD, TICK_MS * LiveTicks(Opened(dir, seed), ops))
    decreases |ops|
  {
    var s := Opened(dir, seed);
    if ops != [] {
      var front := ops[..|ops| - 1];
      CounterIsTime(dir, seed, front);
      var k := LiveTicks(s, front);
      assert TICK_MS * k / TICK_MS == k && TICK_MS * (k + 1) / TICK_MS == k + 1;
      NextCounter(seed % WORD, k);
    } else {
      assert LiveTicks(s, ops) == 0;
    }
  }

  lemma NextCounter(seed: nat, k: nat)
    ensures ((seed + k) % WORD + 1) % WORD == (seed + k + 1) % WORD
  {
  }

  /** Between two frames the counter stands still or advances by one, and it stands still exactly when the
      direction changed. */
  predicate Follows(a: Frame, b: Frame) {
    && (b.ctr == a.ctr || b.ctr == (a.ctr + 1) % WORD)
    && (b.ctr == a.ctr <==> b.dir != a.dir)
  }

  ghost predicate WireOk(s: Stream) {
    && 0 <= s.ctr < WORD && (s.sent <==> s.frames != [])
    && (s.sent ==> s.frames[|s.frames| - 1] == Frame(s.dir, s.ctr))
    && forall i :: 0 < i < |s.frames| ==> Follows(s.frames[i - 1], s.frames[i])
  }

  lemma {:induction false} FramesFollow(dir: nat, seed: nat, ops: seq<Op>)
    ensures WireOk(After(Opened(dir, seed), ops))
    decreases |ops|
  {
    if ops != [] {
      FramesFollow(dir, seed, ops[..|ops| - 1]);
    }
  }

  /** The operation closes the stream, or writes a frame and finds the link gone. */
  predicate Kills(s: Stream, op: Op) {
    match op
    case Close => true
    case Set(dir, gone) => gone && !(s.sent && dir == s.dir)
    case Tick(gone) => gone && s.sent && s.alive
  }

  /** A stream lives exactly while no operation has ended it. */
  lemma {:induction false} LivesExactly(dir: nat, seed: nat, ops: seq<Op>)
    ensures After(Opened(dir, seed), ops).alive <==>
              forall i :: 0 <= i < |ops| ==> !Kills(After(Opened(dir, seed), ops[..i]), ops[i])
    decreases |ops|
  {
    hide After;
    var s, n := Opened(dir, seed), |ops| - 1;
    if ops != [] {
      LivesExactly(dir, seed, ops[..n]);
      assert forall i :: 0 <= i < n ==> ops[..n][..i] == ops[..i];
      AfterLast(s, ops);
    } else {
      NothingYet(s);
    }
  }

  lemma AfterLast(s: Stream, ops: seq<Op>)
    requires ops != []
    ensures After(s, ops) == Step(After(s, ops[..|ops| - 1]), ops[|ops| - 1])
  {
  }

  lemma NothingYet(s: Stream)
    ensures After(s, []) == s
  {
  }

  /** Only from its first frame on and while it lives a tick writes: one frame, with the next counter. */
  lemma TickWritesWhileAlive(s: Stream, gone: bool)
    ensures var s' := Step(s, Tick(gone));
            if s.sent && s.alive then s'.frames == s.frames + [Frame(s.dir, (s.ctr + 1) % WORD)] && s'.ctr == (s.ctr + 1) % WORD
            else s' == s
  {
  }

  /** A switch reaches the wire at once, dead stream or not: the last frame has the direction asked for. */
  lemma SwitchIsWritten(dir: nat, seed: nat, ops: seq<Op>, next: nat, gone: bool)
    ensures var s := After(Opened(dir, seed), ops + [Set(next, gone)]);
            s.frames != [] && s.frames[|s.frames| - 1].dir == next && s.dir == next
            && s.ctr == After(Opened(dir, seed), ops).ctr
  {
    assert (ops + [Set(next, gone)])[..|ops|] == ops;
    FramesFollow(dir, seed, ops);
  }
}

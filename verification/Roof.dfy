/** Hold-to-move roof presses: stop tokens, the one lock, and the move's stream, under every interleaving
    of presses, releases, lock grants, failures and cancellations. */
module Roof {
  import opened Common

  /** Where one press's coroutine is. `Sending` and `Ending` wait for the stream's own lock to write the
      first move frame and the final STOP; `Cleaning` is the exception path that writes a STOP if the link
      is up. */
  datatype Pc = Waiting | Opening | Sending | Streaming | Ending | Settling | Cleaning | Over

  datatype Press = Press(pc: Pc, moved: bool)

  /** Who owns the radio. */
  datatype Owner = Free | Moving(p: nat) | Stopping | Other

  datatype Dir = Move | Stop

  /** `tokens[p]` says whether the stop token of press `p` is set; `newest` is the one the server keeps.
      `stops` counts the standalone STOPs still queued. `dir` is the direction of the stream on the link
      once it has written; `cut` records that a final STOP was cancelled while it was queued. */
  datatype State = State(presses: seq<Press>, tokens: seq<bool>, newest: Option<nat>, owner: Owner, stops: nat,
                         link: bool, dir: Option<Dir>, cut: bool)

  datatype Event =
    | Arrive(refused: bool) | Release | Leave
    | Grant(p: nat) | Start(p: nat) | SendMove(p: nat) | Loop(p: nat) | Break(p: nat) | SendStop(p: nat)
    | Finish(p: nat) | Raise(p: nat) | Cancel(p: nat) | Cleanup(p: nat)
    | GrantStop | WriteStop | EndStop | OtherTakes | OtherGives | LinkDown | LinkUp

  const INITIAL := State([], [], None, Free, 0, false, None, false)

  predicate Holding(pc: Pc) {
    pc != Waiting && pc != Over
  }

  function SetToken(s: State): State
    requires |s.tokens| == |s.presses|
  {
    if s.newest.Some? && s.newest.value < |s.tokens| then s.(tokens := s.tokens[s.newest.value := true]) else s
  }

  function At(s: State, p: nat, pc: Pc): State
    requires p < |s.presses|
  {
    s.(presses := s.presses[p := s.presses[p].(pc := pc)])
  }

  /** The end of a press: its token is set and the lock, if it had it, is given up. */
  function Ended(s: State, p: nat): State
    requires p < |s.presses| == |s.tokens|
  {
    At(s, p, Over).(tokens := s.tokens[p := true], owner := if s.owner == Moving(p) then Free else s.owner)
  }

  predicate TokenUnset(s: State) {
    s.newest.Some? && s.newest.value < |s.tokens| && !s.tokens[s.newest.value]
  }

  predicate Is(s: State, p: nat, pc: Pc) {
    p < |s.presses| == |s.tokens| && s.presses[p].pc == pc
  }

  predicate Enabled(s: State, e: Event) {
    && |s.presses| == |s.tokens|
    && match e
       case Arrive(_) => true
       case Release => true
       case Leave => true
       case Grant(p) => Is(s, p, Waiting) && s.owner == Free
       case Start(p) => Is(s, p, Opening)
       case SendMove(p) => Is(s, p, Sending)
       case Loop(p) => Is(s, p, Streaming) && !s.tokens[p]
       case Break(p) => Is(s, p, Streaming)
       case SendStop(p) => Is(s, p, Ending)
       case Finish(p) => Is(s, p, Settling)
       case Raise(p) => Is(s, p, Opening) || Is(s, p, Sending) || Is(s, p, Streaming)
       case Cancel(p) => p < |s.presses| && s.presses[p].pc != Over
       case Cleanup(p) => Is(s, p, Cleaning)
       case GrantStop => s.stops > 0 && s.owner == Free
       case WriteStop => s.owner == Stopping
       case EndStop => s.owner == Stopping
       case OtherTakes => s.owner == Free
       case OtherGives => s.owner == Other
       case LinkDown => s.link
       case LinkUp => !s.link && (s.owner.Moving? ==> Is(s, s.owner.p, Opening))
  }

  /** The cancellation of a press, by where it is: a queued final STOP is lost. */
  function Cancelled(s: State, p: nat): State
    requires p < |s.presses| == |s.tokens|
  {
    match s.presses[p].pc
    case Waiting => Ended(s, p)
    case Opening => At(s, p, Cleaning)
    case Sending => At(s, p, Cleaning)
    case Streaming => At(s, p, Cleaning)
    case Ending => Ended(s, p).(cut := s.cut || s.dir == Some(Move))
    case Cleaning => Ended(s, p).(cut := s.cut || s.dir == Some(Move))
    case Settling => Ended(s, p)
    case Over => s
  }

  function Next(s: State, e: Event): State
    requires Enabled(s, e)
  {
    match e
    case Arrive(refused) =>
      if refused then s
      else
        SetToken(s).(presses := s.presses + [Press(Waiting, false)], tokens := SetToken(s).tokens + [false],
                     newest := Some(|s.presses|))
    case Release => if TokenUnset(s) then SetToken(s) else SetToken(s).(stops := s.stops + 1)
    case Leave => SetToken(s)
    case Grant(p) => if s.tokens[p] then Ended(s, p) else At(s, p, Opening).(owner := Moving(p))
    case Start(p) => At(s, p, if s.tokens[p] then Ending else Sending)
    case SendMove(p) => s.(presses := s.presses[p := Press(Streaming, true)], dir := Some(Move))
    case Loop(_) => s
    case Break(p) => At(s, p, Ending)
    case SendStop(p) => At(s, p, Settling).(dir := Some(Stop), cut := false)
    case Finish(p) => Ended(s, p)
    case Raise(p) => At(s, p, Cleaning)
    case Cancel(p) => Cancelled(s, p)
    case Cleanup(p) => if s.link then Ended(s, p).(dir := Some(Stop), cut := false) else Ended(s, p)
    case GrantStop => s.(owner := Stopping, stops := s.stops - 1)
    case WriteStop => s.(dir := Some(Stop), cut := false)
    case EndStop => s.(owner := Free)
    case OtherTakes => s.(owner := Other)
    case OtherGives => s.(owner := Free)
    case LinkDown => s.(link := false)
    case LinkUp => s.(link := true, dir := None, cut := false)
  }

  // ----- What every step keeps -----------------------------------------------------------------

  /** At most one token is unset, and it is the newest press's. */
  predicate TokensOk(s: State) {
    && |s.tokens| == |s.presses| && (s.newest.Some? ==> s.newest.value < |s.presses|)
    && forall p :: 0 <= p < |s.tokens| && !s.tokens[p] ==> s.newest == Some(p) && s.presses[p].pc != Over
  }

  /** A press past the queue has the lock, and only one does. */
  predicate LockOk(s: State) {
    && (s.owner.Moving? ==> s.owner.p < |s.presses| && Holding(s.presses[s.owner.p].pc))
    && forall p :: 0 <= p < |s.presses| && Holding(s.presses[p].pc) ==> s.owner == Moving(p)
  }

  predicate OwnerAt(s: State, pcs: set<Pc>) {
    s.owner.Moving? && s.owner.p < |s.presses| && s.presses[s.owner.p].pc in pcs
  }

  /** On a live link the stream drives only inside a move that will still stop it, unless a queued STOP
      was cancelled and it drives since. */
  predicate DrivingOk(s: State) {
    && (s.link && !s.cut && s.dir == Some(Move) ==> OwnerAt(s, {Streaming, Ending, Cleaning}))
    && (s.cut ==> s.dir == Some(Move))
  }

  /** And a move that settles has stopped it. */
  predicate StreamOk(s: State) {
    && DrivingOk(s)
    && (OwnerAt(s, {Settling}) ==> s.dir == Some(Stop))
  }

  /** A press that streams has written a move frame, and one that has is past its first look. */
  predicate MovedOk(s: State) {
    forall p :: 0 <= p < |s.presses| ==>
      && (s.presses[p].moved ==> s.presses[p].pc in {Streaming, Ending, Settling, Cleaning, Over})
      && (s.presses[p].pc == Streaming ==> s.presses[p].moved)
  }

  predicate Inv(s: State) {
    TokensOk(s) && LockOk(s) && StreamOk(s) && MovedOk(s)
  }

  function PressOf(e: Event): Option<nat> {
    match e
    case Grant(p) => Some(p)
    case Start(p) => Some(p)
    case SendMove(p) => Some(p)
    case Loop(p) => Some(p)
    case Break(p) => Some(p)
    case SendStop(p) => Some(p)
    case Finish(p) => Some(p)
    case Raise(p) => Some(p)
    case Cancel(p) => Some(p)
    case Cleanup(p) => Some(p)
    case _ => None
  }

  /** What a step of a press leaves alone, and how it moves the press, its token and the lock. */
  ghost predicate OwnStepOk(s: State, s': State, p: nat) {
    && p < |s.presses| == |s'.presses| == |s'.tokens| == |s.tokens| && s'.newest == s.newest
    && (forall q :: 0 <= q < |s.presses| && q != p ==> s'.presses[q] == s.presses[q])
    && (forall q :: 0 <= q < |s.tokens| && q != p ==> s'.tokens[q] == s.tokens[q])
    && (s.tokens[p] ==> s'.tokens[p])
    && (s'.presses[p].pc == Over ==> s'.tokens[p])
    && (if Holding(s'.presses[p].pc) then
          (Holding(s.presses[p].pc) && s'.owner == s.owner) || (s.owner == Free && s'.owner == Moving(p))
        else s'.owner == if s.owner == Moving(p) then Free else s.owner)
  }

  lemma OwnStep(s: State, e: Event, p: nat)
    requires TokensOk(s) && Enabled(s, e) && PressOf(e) == Some(p)
    ensures OwnStepOk(s, Next(s, e), p)
  {
    hide At, Ended;
    EndedStep(s, p);
    if e.Start? || e.Break? || e.SendStop? || e.Raise? || e.Cancel? {
      if Holding(s.presses[p].pc) {
        AtStep(s, p, Ending);
        AtStep(s, p, Sending);
        AtStep(s, p, Settling);
        AtStep(s, p, Cleaning);
      }
    } else if e.Grant? {
      GrantedStep(s, p);
    }
  }

  lemma EndedStep(s: State, p: nat)
    requires p < |s.presses| == |s.tokens|
    ensures OwnStepOk(s, Ended(s, p), p)
  {
  }

  lemma AtStep(s: State, p: nat, pc: Pc)
    requires p < |s.presses| == |s.tokens| && Holding(s.presses[p].pc) && Holding(pc)
    ensures OwnStepOk(s, At(s, p, pc), p)
  {
  }

  lemma GrantedStep(s: State, p: nat)
    requires p < |s.presses| == |s.tokens| && s.owner == Free
    ensures OwnStepOk(s, At(s, p, Opening).(owner := Moving(p)), p)
  {
  }

  lemma OwnStepKeepsTokens(s: State, s': State, p: nat)
    requires TokensOk(s) && OwnStepOk(s, s', p)
    ensures TokensOk(s')
  {
    forall q | 0 <= q < |s'.tokens| && !s'.tokens[q]
      ensures s'.newest == Some(q) && s'.presses[q].pc != Over
    {
      assert !s.tokens[q];
    }
  }

  lemma OwnStepKeepsLock(s: State, s': State, p: nat)
    requires LockOk(s) && OwnStepOk(s, s', p)
    ensures LockOk(s')
  {
    forall q | 0 <= q < |s'.presses| && Holding(s'.presses[q].pc)
      ensures s'.owner == Moving(q)
    {
      if q != p {
        assert Holding(s.presses[q].pc);
      }
    }
  }

  lemma WorldStepKeepsTokens(s: State, e: Event)
    requires TokensOk(s) && Enabled(s, e) && PressOf(e) == None
    ensures TokensOk(Next(s, e))
  {
  }

  lemma WorldStepKeepsLock(s: State, e: Event)
    requires TokensOk(s) && LockOk(s) && Enabled(s, e) && PressOf(e) == None
    ensures LockOk(Next(s, e))
  {
  }

  lemma StepKeepsTokensAndLock(s: State, e: Event)
    requires TokensOk(s) && LockOk(s) && Enabled(s, e)
    ensures TokensOk(Next(s, e)) && LockOk(Next(s, e))
  {
    hide TokensOk, LockOk, Enabled, Next, OwnStepOk;
    match PressOf(e)
    case Some(p) =>
      OwnStep(s, e, p);
      OwnStepKeepsTokens(s, Next(s, e), p);
      OwnStepKeepsLock(s, Next(s, e), p);
    case None =>
      WorldStepKeepsTokens(s, e);
      WorldStepKeepsLock(s, e);
  }

  lemma StepKeepsStream(s: State, e: Event)
    requires TokensOk(s) && LockOk(s) && StreamOk(s) && Enabled(s, e)
    ensures StreamOk(Next(s, e))
  {
    hide OwnerAt, Next, Enabled, TokensOk, LockOk;
    StepKeepsDriving(s, e);
    StepKeepsStopped(s, e);
  }

  lemma StepKeepsDriving(s: State, e: Event)
    requires TokensOk(s) && LockOk(s) && StreamOk(s) && Enabled(s, e)
    ensures DrivingOk(Next(s, e))
  {
    hide DrivingOk, Next, Enabled, TokensOk, LockOk, StreamOk;
    match PressOf(e)
    case Some(_) => OwnStepDriving(s, e);
    case None => WorldStepDriving(s, e);
  }

  lemma OwnStepDriving(s: State, e: Event)
    requires TokensOk(s) && LockOk(s) && StreamOk(s) && Enabled(s, e) && PressOf(e).Some?
    ensures DrivingOk(Next(s, e))
  {
  }

  lemma WorldStepDriving(s: State, e: Event)
    requires TokensOk(s) && LockOk(s) && StreamOk(s) && Enabled(s, e) && PressOf(e).None?
    ensures DrivingOk(Next(s, e))
  {
  }

  lemma StepKeepsStopped(s: State, e: Event)
    requires TokensOk(s) && LockOk(s) && StreamOk(s) && Enabled(s, e)
    ensures OwnerAt(Next(s, e), {Settling}) ==> Next(s, e).dir == Some(Stop)
  {
  }

  lemma StepKeepsMoved(s: State, e: Event)
    requires MovedOk(s) && Enabled(s, e)
    ensures MovedOk(Next(s, e))
  {
  }

  lemma StepKeeps(s: State, e: Event)
    requires Inv(s) && Enabled(s, e)
    ensures Inv(Next(s, e))
  {
    hide TokensOk, LockOk, StreamOk, MovedOk, Enabled, Next;
    StepKeepsTokensAndLock(s, e);
    StepKeepsStream(s, e);
    StepKeepsMoved(s, e);
  }

  // ----- Runs ----------------------------------------------------------------------------------

  /** The events happen one after the other from `s`. */
  predicate Possible(s: State, events: seq<Event>)
    decreases |events|
  {
    events == [] || (Enabled(s, events[0]) && Possible(Next(s, events[0]), events[1..]))
  }

  function After(s: State, events: seq<Event>): State
    requires Possible(s, events)
    decreases |events|
  {
    if events == [] then s else After(Next(s, events[0]), events[1..])
  }

  lemma {:induction false} RunKeeps(s: State, events: seq<Event>)
    requires Inv(s) && Possible(s, events)
    ensures Inv(After(s, events))
    decreases |events|
  {
    hide Inv, Enabled, Next;
    if events != [] {
      StepKeeps(s, events[0]);
      RunKeeps(Next(s, events[0]), events[1..]);
    }
  }

  /** In every reachable state at most one token is unset, and only the press that owns the radio is past
      the queue. */
  lemma OneTokenOneMove(events: seq<Event>, p: nat, q: nat)
    requires Possible(INITIAL, events)
    ensures var s := After(INITIAL, events);
            && (p < |s.tokens| && !s.tokens[p] ==> s.newest == Some(p))
            && (p < |s.presses| && q < |s.presses| && Holding(s.presses[p].pc) && Holding(s.presses[q].pc) ==> p == q)
  {
    RunKeeps(INITIAL, events);
  }

  // ----- Presses released in time --------------------------------------------------------------

  /** The token is set and the press is not past its last look at it. */
  predicate Doomed(s: State, p: nat) {
    && p < |s.presses| == |s.tokens| && s.tokens[p] && !s.presses[p].moved
    && s.presses[p].pc != Sending && s.presses[p].pc != Streaming
  }

  lemma StepKeepsDoomed(s: State, e: Event, p: nat)
    requires Doomed(s, p) && Enabled(s, e)
    ensures Doomed(Next(s, e), p)
  {
    hide Doomed, Enabled, Next;
    match PressOf(e)
    case Some(q) =>
      if q == p {
        OwnStepDoomed(s, e, p);
      } else {
        OtherStepDoomed(s, e, p, q);
      }
    case None => WorldStepDoomed(s, e, p);
  }

  lemma OwnStepDoomed(s: State, e: Event, p: nat)
    requires Doomed(s, p) && Enabled(s, e) && PressOf(e) == Some(p)
    ensures Doomed(Next(s, e), p)
  {
  }

  lemma OtherStepDoomed(s: State, e: Event, p: nat, q: nat)
    requires Doomed(s, p) && Enabled(s, e) && PressOf(e) == Some(q) && q != p
    ensures Doomed(Next(s, e), p)
  {
  }

  lemma WorldStepDoomed(s: State, e: Event, p: nat)
    requires Doomed(s, p) && Enabled(s, e) && PressOf(e) == None
    ensures Doomed(Next(s, e), p)
  {
  }

  /** A press whose token is set before it looks at it for the last time never writes a move frame. */
  lemma {:induction false} ReleasedInTimeNeverMoves(s: State, events: seq<Event>, p: nat)
    requires Doomed(s, p) && Possible(s, events)
    ensures p < |After(s, events).presses| && !After(s, events).presses[p].moved
    decreases |events|
  {
    hide Enabled, Next;
    if events != [] {
      StepKeepsDoomed(s, events[0], p);
      ReleasedInTimeNeverMoves(Next(s, events[0]), events[1..], p);
    }
  }

  /** Released while it still waits for the lock. */
  predicate ReleasedInQueue(s: State, p: nat) {
    && p < |s.presses| == |s.tokens| && s.tokens[p]
    && (s.presses[p].pc == Waiting || s.presses[p].pc == Over)
  }

  lemma StepKeepsReleased(s: State, e: Event, p: nat)
    requires TokensOk(s) && ReleasedInQueue(s, p) && Enabled(s, e)
    ensures ReleasedInQueue(Next(s, e), p)
    ensures e == Grant(p) ==> Next(s, e).presses[p].pc == Over && Next(s, e).owner == Free
  {
    match PressOf(e)
    case Some(q) =>
      if q != p {
        hide Next, Enabled;
        OwnStep(s, e, q);
      }
    case None => WorldStepReleased(s, e, p);
  }

  lemma WorldStepReleased(s: State, e: Event, p: nat)
    requires TokensOk(s) && ReleasedInQueue(s, p) && Enabled(s, e) && PressOf(e) == None
    ensures ReleasedInQueue(Next(s, e), p)
  {
  }

  /** A press released in the queue never opens the stream: granted the lock it is over and gives it back. */
  lemma {:induction false} ReleasedNeverOpens(s: State, events: seq<Event>, p: nat)
    requires Inv(s) && ReleasedInQueue(s, p) && Possible(s, events)
    ensures ReleasedInQueue(After(s, events), p)
    decreases |events|
  {
    hide Enabled, Next, ReleasedInQueue, LockOk, StreamOk, MovedOk;
    if events != [] {
      StepKeepsReleased(s, events[0], p);
      StepKeeps(s, events[0]);
      ReleasedNeverOpens(Next(s, events[0]), events[1..], p);
    }
  }

  /** The link as the stream sees it: gone it is gone, and a new one has nothing written. */
  lemma LinkChanges(s: State)
    ensures Enabled(s, LinkDown) ==> Next(s, LinkDown) == s.(link := false)
    ensures Enabled(s, LinkUp) ==> Next(s, LinkUp) == s.(link := true, dir := None, cut := false)
  {
  }

  ghost predicate MayMove(s: State, p: nat) {
    exists events ::
      Possible(s, events) && p < |After(s, events).presses| && After(s, events).presses[p].moved
  }

  /** Exactly when a set token comes too late for a press that has not moved: some continuation writes a
      move frame if and only if the press is past its last look, waiting to write the first one. */
  lemma MovesExactly(s: State, p: nat)
    requires Inv(s) && p < |s.presses| && s.tokens[p] && !s.presses[p].moved
    ensures MayMove(s, p) <==> s.presses[p].pc == Sending
  {
    if s.presses[p].pc == Sending {
      Prepend(s, SendMove(p), []);
      assert [SendMove(p)] + [] == [SendMove(p)];
      assert After(s, [SendMove(p)]).presses[p].moved;
    } else {
      forall events | Possible(s, events)
        ensures p < |After(s, events).presses| && !After(s, events).presses[p].moved
      {
        ReleasedInTimeNeverMoves(s, events, p);
      }
    }
  }

  /** A release between the last look and the first frame, while another write holds the stream, is too
      late: the frame goes out, and the STOP after it. */
  lemma LateReleaseStillMoves()
    ensures var events := [Arrive(false), Grant(0), Start(0), Release, SendMove(0)];
            && Possible(INITIAL, events)
            && var s := After(INITIAL, events); |s.presses| == 1 && s.presses[0].moved
  {
    var s1 := Next(INITIAL, Arrive(false));
    var s2 := Next(s1, Grant(0));
    var s3 := Next(s2, Start(0));
    var s4 := Next(s3, Release);
    var s5 := Next(s4, SendMove(0));
    assert s5.presses == [Press(Streaming, true)];
    hide Enabled, Next;
    Prepend(s4, SendMove(0), []);
    Prepend(s3, Release, [SendMove(0)]);
    Prepend(s2, Start(0), [Release, SendMove(0)]);
    Prepend(s1, Grant(0), [Start(0), Release, SendMove(0)]);
    Prepend(INITIAL, Arrive(false), [Grant(0), Start(0), Release, SendMove(0)]);
  }

  // ----- A release ends the move ---------------------------------------------------------------

  predicate AllSet(tokens: seq<bool>) {
    forall p :: 0 <= p < |tokens| ==> tokens[p]
  }

  /** A release that finds an unset token sets it, and no standalone STOP is queued; else one is. */
  lemma ReleaseSetsToken(s: State)
    requires Inv(s)
    ensures var s' := Next(s, Release);
            && AllSet(s'.tokens)
            && s'.stops == (if AllSet(s.tokens) then s.stops + 1 else s.stops)
            && s'.(tokens := s.tokens, stops := s.stops) == s
  {
  }

  /** Leaving the roof view sets every token too, and queues no STOP of its own. */
  lemma LeaveSetsToken(s: State)
    requires Inv(s)
    ensures var s' := Next(s, Leave); AllSet(s'.tokens) && s'.(tokens := s.tokens) == s
  {
  }

  /** A press that is not refused supersedes all before it: theirs are set, its own is not. */
  lemma ArriveSupersedes(s: State, refused: bool)
    requires Inv(s)
    ensures var s', n := Next(s, Arrive(refused)), |s.presses|;
            if refused then s' == s
            else
              && AllSet(s'.tokens[..n]) && s'.tokens[n..] == [false] && s'.newest == Some(n)
              && s'.presses == s.presses + [Press(Waiting, false)]
              && s'.(presses := s.presses, tokens := s.tokens, newest := s.newest) == s
  {
  }

  function Rank(s: State, p: nat): nat {
    if p >= |s.presses| then 0
    else
      match s.presses[p].pc
      case Waiting => 6
      case Opening => 5
      case Sending => 4
      case Streaming => 3
      case Ending => 2
      case Settling => 1
      case Cleaning => 1
      case Over => 0
  }

  /** Once a token is set each own step of its press brings the end nearer, and nothing undoes it. */
  lemma SetTokenRunsDown(s: State, e: Event, p: nat)
    requires TokensOk(s) && Enabled(s, e) && p < |s.tokens| && s.tokens[p]
    ensures p < |Next(s, e).tokens| && Next(s, e).tokens[p]
    ensures if PressOf(e) == Some(p) then Rank(Next(s, e), p) < Rank(s, p) else Rank(Next(s, e), p) == Rank(s, p)
  {
    match PressOf(e)
    case Some(q) =>
      if q == p {
        OwnStepRunsDown(s, e, p);
      } else {
        hide Next, Enabled;
        OwnStep(s, e, q);
      }
    case None => WorldStepLeaves(s, e, p);
  }

  lemma OwnStepRunsDown(s: State, e: Event, p: nat)
    requires TokensOk(s) && Enabled(s, e) && p < |s.tokens| && s.tokens[p] && PressOf(e) == Some(p)
    ensures p < |Next(s, e).tokens| && Next(s, e).tokens[p] && Rank(Next(s, e), p) < Rank(s, p)
  {
  }

  lemma WorldStepLeaves(s: State, e: Event, p: nat)
    requires TokensOk(s) && Enabled(s, e) && p < |s.tokens| && s.tokens[p] && PressOf(e) == None
    ensures p < |Next(s, e).tokens| && Next(s, e).tokens[p] && Rank(Next(s, e), p) == Rank(s, p)
  {
  }

  function OwnSteps(events: seq<Event>, p: nat): nat {
    if events == [] then 0 else (if PressOf(events[0]) == Some(p) then 1 else 0) + OwnSteps(events[1..], p)
  }

  /** So the press is over after at most six of its own steps, whatever else happens in between. */
  lemma {:induction false} SetTokenEnds(s: State, events: seq<Event>, p: nat)
    requires Inv(s) && Possible(s, events) && p < |s.tokens| && s.tokens[p]
    ensures Rank(After(s, events), p) + OwnSteps(events, p) <= Rank(s, p) <= 6
    decreases |events|
  {
    hide Enabled, Next, LockOk, StreamOk, MovedOk;
    if events != [] {
      SetTokenRunsDown(s, events[0], p);
      StepKeeps(s, events[0]);
      SetTokenEnds(Next(s, events[0]), events[1..], p);
    }
  }

  /** Leaving the view ends a held move likewise: its press has at most six own steps left, then it is over. */
  lemma LeaveEndsMove(s: State, events: seq<Event>, p: nat)
    requires Inv(s) && Possible(s, [Leave] + events) && p < |s.presses|
    ensures OwnSteps(events, p) <= 6
    ensures p < |After(s, [Leave] + events).presses|
    ensures OwnSteps(events, p) == 6 ==> After(s, [Leave] + events).presses[p].pc == Over
  {
    hide Enabled, Next;
    assert ([Leave] + events)[1..] == events;
    LeaveSetsToken(s);
    StepKeeps(s, Leave);
    SetTokenEnds(Next(s, Leave), events, p);
    PressesStay(Next(s, Leave), events);
  }

  lemma {:induction false} PressesStay(s: State, events: seq<Event>)
    requires Inv(s) && Possible(s, events)
    ensures |After(s, events).presses| >= |s.presses|
    decreases |events|
  {
    hide Inv, Enabled, Next;
    if events != [] {
      StepKeeps(s, events[0]);
      PressStays(s, events[0]);
      PressesStay(Next(s, events[0]), events[1..]);
    }
  }

  lemma PressStays(s: State, e: Event)
    requires Inv(s) && Enabled(s, e)
    ensures |Next(s, e).presses| >= |s.presses|
  {
  }

  /** And it is never stuck: a press that is not over has a step of its own, once the radio is free. */
  lemma NeverStuck(s: State, p: nat)
    requires Inv(s) && p < |s.presses| && s.presses[p].pc != Over
    requires s.presses[p].pc == Waiting ==> s.owner == Free
    ensures exists e :: Enabled(s, e) && PressOf(e) == Some(p) && !e.Cancel? && !e.Raise?
  {
    match s.presses[p].pc
    case Waiting => assert Enabled(s, Grant(p)) && PressOf(Grant(p)) == Some(p);
    case Opening => assert Enabled(s, Start(p)) && PressOf(Start(p)) == Some(p);
    case Sending => assert Enabled(s, SendMove(p)) && PressOf(SendMove(p)) == Some(p);
    case Streaming => assert Enabled(s, Break(p)) && PressOf(Break(p)) == Some(p);
    case Ending => assert Enabled(s, SendStop(p)) && PressOf(SendStop(p)) == Some(p);
    case Settling => assert Enabled(s, Finish(p)) && PressOf(Finish(p)) == Some(p);
    case Cleaning => assert Enabled(s, Cleanup(p)) && PressOf(Cleanup(p)) == Some(p);
  }

  /** A standalone STOP that is queued gets the free lock, can write, and leaves the stream stopped. */
  lemma QueuedStopRuns(s: State)
    requires Inv(s) && s.stops > 0 && s.owner == Free
    ensures Possible(s, [GrantStop, WriteStop, EndStop])
    ensures var s' := After(s, [GrantStop, WriteStop, EndStop]);
            s'.dir == Some(Stop) && !s'.cut && s'.owner == Free && s'.stops == s.stops - 1
  {
    var s1 := Next(s, GrantStop);
    var s2 := Next(s1, WriteStop);
    Prepend(s2, EndStop, []);
    Prepend(s1, WriteStop, [EndStop]);
    Prepend(s, GrantStop, [WriteStop, EndStop]);
    assert [GrantStop] + [WriteStop, EndStop] == [GrantStop, WriteStop, EndStop];
    assert [WriteStop] + [EndStop] == [WriteStop, EndStop] && [EndStop] + [] == [EndStop];
  }

  // ----- Giving up the lock --------------------------------------------------------------------

  /** When a move gives up the lock on a live link, the stream is left driving exactly if it was and the
      step is the cancellation of a queued final STOP. */
  lemma GivesUpStopped(s: State, e: Event, p: nat)
    requires Inv(s) && Enabled(s, e) && s.owner == Moving(p) && Next(s, e).owner != Moving(p)
    requires s.link
    ensures Next(s, e).dir == Some(Move) <==>
              e == Cancel(p) && s.dir == Some(Move) && (s.presses[p].pc == Ending || s.presses[p].pc == Cleaning)
  {
  }

  /** It can happen. */
  lemma CutStopLeavesItDriving()
    ensures var events := [Arrive(false), Grant(0), LinkUp, Start(0), SendMove(0), Break(0), Cancel(0)];
            && Possible(INITIAL, events)
            && var s := After(INITIAL, events); s.link && s.owner == Free && s.dir == Some(Move)
  {
    var s4 := State([Press(Sending, false)], [false], Some(0), Moving(0), 0, true, None, false);
    var last := [SendMove(0), Break(0), Cancel(0)];
    CutFromSending(s4);
    OpenedMove(s4);
    var s1 := Next(INITIAL, Arrive(false));
    var s2 := Next(s1, Grant(0));
    hide Enabled, Next;
    Prepend(Next(s2, LinkUp), Start(0), last);
    Prepend(s2, LinkUp, [Start(0)] + last);
    Prepend(s1, Grant(0), [LinkUp, Start(0)] + last);
    Prepend(INITIAL, Arrive(false), [Grant(0), LinkUp, Start(0)] + last);
    assert [Arrive(false)] + ([Grant(0), LinkUp, Start(0)] + last)
        == [Arrive(false), Grant(0), LinkUp, Start(0), SendMove(0), Break(0), Cancel(0)];
  }

  lemma OpenedMove(s4: State)
    requires s4 == State([Press(Sending, false)], [false], Some(0), Moving(0), 0, true, None, false)
    ensures var s1 := Next(INITIAL, Arrive(false));
            && Enabled(s1, Grant(0)) && Enabled(Next(s1, Grant(0)), LinkUp)
            && Enabled(Next(Next(s1, Grant(0)), LinkUp), Start(0))
            && Next(Next(Next(s1, Grant(0)), LinkUp), Start(0)) == s4
  {
    var s1 := Next(INITIAL, Arrive(false));
    assert s1 == State([Press(Waiting, false)], [false], Some(0), Free, 0, false, None, false);
    var s2 := Next(s1, Grant(0));
    assert s2 == State([Press(Opening, false)], [false], Some(0), Moving(0), 0, false, None, false);
    var s3 := Next(s2, LinkUp);
    assert s3 == State([Press(Opening, false)], [false], Some(0), Moving(0), 0, true, None, false);
  }

  lemma CutFromSending(s4: State)
    requires s4 == State([Press(Sending, false)], [false], Some(0), Moving(0), 0, true, None, false)
    ensures var events := [SendMove(0), Break(0), Cancel(0)];
            && Possible(s4, events)
            && var s := After(s4, events); s.link && s.owner == Free && s.dir == Some(Move)
  {
    var s5 := Next(s4, SendMove(0));
    assert s5 == State([Press(Streaming, true)], [false], Some(0), Moving(0), 0, true, Some(Move), false);
    var s6 := Next(s5, Break(0));
    assert s6 == State([Press(Ending, true)], [false], Some(0), Moving(0), 0, true, Some(Move), false);
    Prepend(s6, Cancel(0), []);
    Prepend(s5, Break(0), [Cancel(0)]);
    Prepend(s4, SendMove(0), [Break(0), Cancel(0)]);
  }

  lemma Prepend(s: State, e: Event, events: seq<Event>)
    requires Enabled(s, e) && Possible(Next(s, e), events)
    ensures Possible(s, [e] + events) && After(s, [e] + events) == After(Next(s, e), events)
  {
    assert ([e] + events)[1..] == events;
  }
}

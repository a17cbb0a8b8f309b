/** The server's and the move loop's steps in place, each the step of the transition system. */
module RoofServer {
  import opened Common
  import opened Roof

  /** The stop tokens and the lock as the coroutines leave them between two awaits. */
  class Server {
    var presses: seq<Press>
    var tokens: seq<bool>
    var roofStop: Option<nat>
    var owner: Owner
    var standalone: nat
    var link: bool
    var dir: Option<Dir>
    var cut: bool

    constructor ()
      ensures View() == INITIAL
    {
      presses, tokens, roofStop, owner, standalone, link, dir, cut := [], [], None, Free, 0, false, None, false;
    }

    ghost function View(): State
      reads this
    {
      State(presses, tokens, roofStop, owner, standalone, link, dir, cut)
    }

    /** A press up to its wait for the lock: it supersedes the one before. */
    method MoveCommand(refused: bool) returns (press: Option<nat>)
      requires TokensOk(View())
      modifies this
      ensures View() == Next(old(View()), Arrive(refused))
      ensures press == if refused then None else Some(|old(presses)|)
    {
      if refused {
        return None;
      }
      if roofStop.Some? {
        tokens := tokens[roofStop.value := true];
      }
      presses, tokens := presses + [Press(Waiting, false)], tokens + [false];
      roofStop := Some(|presses| - 1);
      press := roofStop;
    }

    /** A release: lock-free, at once. Says whether a standalone STOP must follow. */
    method StopCommand() returns (standaloneStop: bool)
      requires TokensOk(View())
      modifies this
      ensures View() == Next(old(View()), Release)
      ensures standaloneStop == AllSet(old(tokens)) && AllSet(tokens)
    {
      var moving := roofStop.Some? && !tokens[roofStop.value];
      if roofStop.Some? {
        tokens := tokens[roofStop.value := true];
      }
      if moving {
        return false;
      }
      standalone := standalone + 1;
      return true;
    }

    /** Leaving the roof view. */
    method LeaveView()
      requires TokensOk(View())
      modifies this
      ensures View() == Next(old(View()), Leave)
      ensures AllSet(tokens) && |tokens| == |old(tokens)| && standalone == old(standalone) && presses == old(presses)
    {
      if roofStop.Some? {
        tokens := tokens[roofStop.value := true];
      }
    }

    /** The lock is granted: a press already released ends without a frame. */
    method LockGranted(p: nat) returns (starts: bool)
      requires TokensOk(View()) && Enabled(View(), Grant(p))
      modifies this
      ensures View() == Next(old(View()), Grant(p)) && starts == !old(tokens)[p]
    {
      if tokens[p] {
        MoveOver(p);
        return false;
      }
      owner, presses := Moving(p), presses[p := presses[p].(pc := Opening)];
      return true;
    }

    /** The move's first look at its token. */
    method FirstLook(p: nat)
      requires TokensOk(View()) && Enabled(View(), Start(p))
      modifies this
      ensures View() == Next(old(View()), Start(p))
    {
      if !tokens[p] {
        presses := presses[p := presses[p].(pc := Sending)];
      } else {
        presses := presses[p := presses[p].(pc := Ending)];
      }
    }

    /** The way out of every press, taken or not: its token is set and the lock given up. */
    method MoveOver(p: nat)
      requires p < |presses| == |tokens|
      modifies this
      ensures View() == Ended(old(View()), p)
    {
      if owner == Moving(p) {
        owner := Free;
      }
      presses := presses[p := presses[p].(pc := Over)];
      tokens := tokens[p := true];
    }
  }
}

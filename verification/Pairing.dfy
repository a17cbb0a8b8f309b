/** The guided-pairing state machine. */
module Pairing {
  datatype St = Idle | Scanning | Connecting | WaitingPasskey | PairingNow | Verifying | Bonded | Failed | Resetting

  datatype Ev =
    | Start | DeviceFound | Connected | PasskeyRequested | PasskeyEntered | PairOk | PairFail | VerifyOk | VerifyFail
    | Timeout | Cancel | Reset | ResetDone | ConnectFail

  datatype Act = StartScan | StopScan | Connect | Pair | SendPasskey | Verify | PersistBond | Disconnect | RemoveBond

  datatype Err = NoError | TimedOut | PairError | VerifyError | ConnectError

  const MAX_ATTEMPTS := 3

  datatype Pairing = Pairing(st: St, attempts: nat, error: Err)

  datatype Stepped = Stepped(to: Pairing, acts: seq<Act>)

  predicate OnLink(st: St) {
    st in {Connecting, WaitingPasskey, PairingNow, Verifying}
  }

  predicate Timed(st: St) {
    st == Scanning || OnLink(st) || st == Resetting
  }

  function Cleanup(st: St): seq<Act> {
    if st == Scanning then [StopScan] else if OnLink(st) then [Disconnect] else []
  }

  function Retry(ps: Pairing, error: Err): Stepped {
    var attempts := ps.attempts + 1;
    if attempts < MAX_ATTEMPTS then Stepped(Pairing(Scanning, attempts, NoError), [Disconnect, StartScan])
    else Stepped(Pairing(Failed, attempts, error), [Disconnect])
  }

  function Step(ps: Pairing, ev: Ev): Stepped {
    var st := ps.st;
    if ev == Cancel then Stepped(Pairing(Idle, 0, NoError), Cleanup(st))
    else if ev == Timeout && Timed(st) then Stepped(Pairing(Failed, ps.attempts, TimedOut), Cleanup(st))
    else if ev == Reset && st in {Bonded, Failed, Idle} then Stepped(Pairing(Resetting, 0, NoError), [RemoveBond])
    else if st in {Idle, Failed} && ev == Start then Stepped(Pairing(Scanning, 0, NoError), [StartScan])
    else if st == Scanning && ev == DeviceFound then Stepped(Pairing(Connecting, ps.attempts, NoError), [StopScan, Connect])
    else if st == Connecting && ev == Connected then Stepped(Pairing(PairingNow, ps.attempts, NoError), [Pair])
    else if st == PairingNow && ev == PasskeyRequested then Stepped(Pairing(WaitingPasskey, ps.attempts, NoError), [])
    else if st == WaitingPasskey && ev == PasskeyEntered then
      Stepped(Pairing(PairingNow, ps.attempts, NoError), [SendPasskey])
    else if st == PairingNow && ev == PairOk then Stepped(Pairing(Verifying, ps.attempts, NoError), [Verify])
    else if st == PairingNow && ev == PairFail then Retry(ps, PairError)
    else if st == Connecting && ev == ConnectFail then Retry(ps, ConnectError)
    else if st == Verifying && ev == VerifyOk then Stepped(Pairing(Bonded, ps.attempts, NoError), [PersistBond])
    else if st == Verifying && ev == VerifyFail then Stepped(Pairing(Failed, ps.attempts, VerifyError), [Disconnect])
    else if st == Resetting && ev == ResetDone then Stepped(Pairing(Idle, 0, NoError), [])
    else Stepped(ps, [])
  }

  // ----- Runs ----------------------------------------------------------------------------------

  /** What the actions have left running on the transport. */
  datatype Transport = Transport(scanning: bool, link: bool)

  function Did(t: Transport, acts: seq<Act>): Transport
    decreases |acts|
  {
    if acts == [] then t
    else
      var t' := match acts[0]
                case StartScan => t.(scanning := true)
                case StopScan => t.(scanning := false)
                case Connect => t.(link := true)
                case Disconnect => t.(link := false)
                case _ => t;
      Did(t', acts[1..])
  }

  datatype Run = Run(ps: Pairing, t: Transport)

  /** One event handled: the actions in order, and at the end of a flow the transport is closed. */
  function Handle(r: Run, ev: Ev): Run {
    var s := Step(r.ps, ev);
    var t := Did(r.t, s.acts);
    Run(s.to, if s.to != r.ps && s.to.st in {Bonded, Failed, Idle} then t.(link := false) else t)
  }

  function After(evs: seq<Ev>): Run
    decreases |evs|
  {
    if evs == [] then Run(Pairing(Idle, 0, NoError), Transport(false, false))
    else Handle(After(evs[..|evs| - 1]), evs[|evs| - 1])
  }

  /** At every point of every run the machine scans exactly in SCANNING and holds a link exactly between
      CONNECTING and VERIFYING, and it gives up after three attempts, never later. */
  ghost predicate RunOk(r: Run) {
    && (r.t.scanning <==> r.ps.st == Scanning)
    && (r.t.link <==> OnLink(r.ps.st))
    && r.ps.attempts <= MAX_ATTEMPTS
    && (r.ps.attempts == MAX_ATTEMPTS ==> r.ps.st == Failed && r.ps.error in {PairError, ConnectError})
    && (r.ps.error != NoError <==> r.ps.st == Failed)
  }

  /** What each list of actions leaves running. */
  lemma DidAll(t: Transport)
    ensures Did(t, []) == t && Did(t, [StartScan]) == t.(scanning := true) && Did(t, [StopScan]) == t.(scanning := false)
    ensures Did(t, [Disconnect]) == t.(link := false)
    ensures forall a :: a in {Pair, SendPasskey, Verify, PersistBond, RemoveBond} ==> Did(t, [a]) == t
    ensures Did(t, [StopScan, Connect]) == Transport(false, true)
    ensures Did(t, [Disconnect, StartScan]) == Transport(true, false)
  {
    assert [StopScan, Connect][1..] == [Connect] && [Disconnect, StartScan][1..] == [StartScan];
    assert Did(t.(scanning := false), [Connect]) == Transport(false, true);
    assert Did(t.(link := false), [StartScan]) == Transport(true, false);
  }

  lemma HandleKeeps(r: Run, ev: Ev)
    requires RunOk(r)
    ensures RunOk(Handle(r, ev))
  {
    hide Did;
    DidAll(r.t);
  }

  lemma {:induction false} TransportFollows(evs: seq<Ev>)
    ensures RunOk(After(evs))
    decreases |evs|
  {
    hide RunOk, Handle;
    if evs != [] {
      TransportFollows(evs[..|evs| - 1]);
      HandleKeeps(After(evs[..|evs| - 1]), evs[|evs| - 1]);
    } else {
      StartOk();
    }
  }

  lemma StartOk()
    ensures RunOk(After([]))
  {
  }

  // ----- How a bond comes about ----------------------------------------------------------------

  /** How far a flow has come. */
  function Phase(st: St): nat {
    match st
    case Scanning => 1
    case Connecting => 2
    case PairingNow => 3
    case WaitingPasskey => 3
    case Verifying => 4
    case Bonded => 5
    case _ => 0
  }

  /** The event that takes a flow on from each phase. */
  function Onward(phase: nat): Ev {
    match phase
    case 1 => DeviceFound
    case 2 => Connected
    case 3 => PairOk
    case _ => VerifyOk
  }

  /** A flow moves on one phase at a time, and only by that event. */
  lemma OnePhaseOn(ps: Pairing, ev: Ev)
    ensures var st' := Step(ps, ev).to.st;
            Phase(st') >= 2 && Phase(st') != Phase(ps.st) ==> Phase(ps.st) == Phase(st') - 1 && ev == Onward(Phase(ps.st))
    ensures Step(ps, ev).to.st == Verifying && ps.st != Verifying ==> ps.st == PairingNow
    ensures PersistBond in Step(ps, ev).acts <==> ps.st == Verifying && ev == VerifyOk
    ensures Step(ps, ev).to.st == Bonded && ps.st != Bonded <==> ps.st == Verifying && ev == VerifyOk
  {
  }

  function StateAt(evs: seq<Ev>, i: nat): St
    requires i <= |evs|
  {
    After(evs[..i]).ps.st
  }

  /** Where a run came into the phase it is in. */
  lemma {:induction false} CameIn(evs: seq<Ev>, k: nat) returns (i: nat)
    requires k <= |evs| && Phase(StateAt(evs, k)) >= 2
    ensures i < k && evs[i] == Onward(Phase(StateAt(evs, i))) && Phase(StateAt(evs, i)) == Phase(StateAt(evs, k)) - 1
    ensures forall j :: i < j <= k ==> Phase(StateAt(evs, j)) == Phase(StateAt(evs, k))
    decreases k
  {
    hide Step, Handle, Phase;
    PhaseOfNothing(evs);
    assert evs[..k][..k - 1] == evs[..k - 1] && evs[..k][k - 1] == evs[k - 1];
    NextState(evs, k - 1);
    OnePhaseOn(After(evs[..k - 1]).ps, evs[k - 1]);
    if Phase(StateAt(evs, k - 1)) == Phase(StateAt(evs, k)) {
      i := CameIn(evs, k - 1);
    } else {
      i := k - 1;
    }
  }

  lemma PhaseOfNothing(evs: seq<Ev>)
    ensures Phase(StateAt(evs, 0)) == 0
  {
  }

  lemma NextState(evs: seq<Ev>, k: nat)
    requires k < |evs|
    ensures After(evs[..k + 1]).ps == Step(After(evs[..k]).ps, evs[k]).to
  {
    assert evs[..k + 1][..k] == evs[..k] && evs[..k + 1][k] == evs[k];
  }

  /** A run that is bonded scanned, found the unit, connected, paired and verified, in this order, each in the
      state that the one before left. */
  lemma BondedInOrder(evs: seq<Ev>) returns (found: nat, connected: nat, paired: nat, verified: nat)
    requires After(evs).ps.st == Bonded
    ensures found < connected < paired < verified < |evs|
    ensures evs[found] == DeviceFound && StateAt(evs, found) == Scanning
    ensures evs[connected] == Connected && StateAt(evs, connected) == Connecting
    ensures evs[paired] == PairOk && StateAt(evs, paired) == PairingNow
    ensures evs[verified] == VerifyOk && StateAt(evs, verified) == Verifying
    ensures forall j :: found < j <= |evs| ==> Phase(StateAt(evs, j)) >= 2
  {
    hide After, Onward, Step;
    assert evs[..|evs|] == evs;
    verified := CameIn(evs, |evs|);
    paired := CameIn(evs, verified);
    connected := CameIn(evs, paired);
    found := CameIn(evs, connected);
    OnwardEvents();
    NextState(evs, paired);
    assert Phase(StateAt(evs, paired + 1)) == 4;
    OnePhaseOn(After(evs[..paired]).ps, evs[paired]);
  }

  lemma OnwardEvents()
    ensures Onward(1) == DeviceFound && Onward(2) == Connected && Onward(3) == PairOk && Onward(4) == VerifyOk
  {
  }

  /** And each event that takes a flow on does so, with its actions and the tries kept; the passkey is asked
      for and sent between. So the straight flow bonds. */
  lemma FlowGoesOn(n: nat, idle: Pairing)
    requires idle.st in {Idle, Failed}
    ensures Step(idle, Start) == Stepped(Pairing(Scanning, 0, NoError), [StartScan])
    ensures Step(Pairing(Scanning, n, NoError), DeviceFound) == Stepped(Pairing(Connecting, n, NoError), [StopScan, Connect])
    ensures Step(Pairing(Connecting, n, NoError), Connected) == Stepped(Pairing(PairingNow, n, NoError), [Pair])
    ensures Step(Pairing(PairingNow, n, NoError), PasskeyRequested) == Stepped(Pairing(WaitingPasskey, n, NoError), [])
    ensures Step(Pairing(WaitingPasskey, n, NoError), PasskeyEntered) == Stepped(Pairing(PairingNow, n, NoError), [SendPasskey])
    ensures Step(Pairing(PairingNow, n, NoError), PairOk) == Stepped(Pairing(Verifying, n, NoError), [Verify])
    ensures Step(Pairing(Verifying, n, NoError), VerifyOk) == Stepped(Pairing(Bonded, n, NoError), [PersistBond])
  {
    hide Step;
    GoesToPairing(n, idle);
    GoesToBond(n);
  }

  lemma GoesToPairing(n: nat, idle: Pairing)
    requires idle.st in {Idle, Failed}
    ensures Step(idle, Start) == Stepped(Pairing(Scanning, 0, NoError), [StartScan])
    ensures Step(Pairing(Scanning, n, NoError), DeviceFound) == Stepped(Pairing(Connecting, n, NoError), [StopScan, Connect])
    ensures Step(Pairing(Connecting, n, NoError), Connected) == Stepped(Pairing(PairingNow, n, NoError), [Pair])
    ensures Step(Pairing(PairingNow, n, NoError), PasskeyRequested) == Stepped(Pairing(WaitingPasskey, n, NoError), [])
  {
    hide Cleanup, Retry, Timed;
  }

  lemma GoesToBond(n: nat)
    ensures Step(Pairing(WaitingPasskey, n, NoError), PasskeyEntered) == Stepped(Pairing(PairingNow, n, NoError), [SendPasskey])
    ensures Step(Pairing(PairingNow, n, NoError), PairOk) == Stepped(Pairing(Verifying, n, NoError), [Verify])
    ensures Step(Pairing(Verifying, n, NoError), VerifyOk) == Stepped(Pairing(Bonded, n, NoError), [PersistBond])
  {
    hide Cleanup, Retry, Timed;
  }

  // ----- What ends or restarts a flow ----------------------------------------------------------

  predicate FailsTry(st: St, ev: Ev) {
    (st == PairingNow && ev == PairFail) || (st == Connecting && ev == ConnectFail)
  }

  /** An event that means something in this state. */
  predicate Expected(st: St, ev: Ev) {
    match ev
    case Cancel => true
    case Timeout => st !in {Idle, Bonded, Failed}
    case Reset => st in {Idle, Bonded, Failed}
    case Start => st in {Idle, Failed}
    case DeviceFound => st == Scanning
    case Connected => st == Connecting
    case ConnectFail => st == Connecting
    case PasskeyRequested => st == PairingNow
    case PasskeyEntered => st == WaitingPasskey
    case PairOk => st == PairingNow
    case PairFail => st == PairingNow
    case VerifyOk => st == Verifying
    case VerifyFail => st == Verifying
    case ResetDone => st == Resetting
  }

  /** Any other event changes nothing. A cancel is back at the start from anywhere; a timeout, a failed
      verification and the third failed try fail the flow, each with its error; a failed try before that
      scans again. The count of tries is otherwise kept until a start, a cancel or a reset clears it. */
  lemma EndsExactly(ps: Pairing, ev: Ev)
    ensures var s := Step(ps, ev);
            && (!Expected(ps.st, ev) ==> s == Stepped(ps, []))
            && (ev == Cancel ==> s.to == Pairing(Idle, 0, NoError))
            && (s.to.st == Failed && ps.st != Failed <==>
                  || (ev == Timeout && Expected(ps.st, ev))
                  || (ps.st == Verifying && ev == VerifyFail)
                  || (FailsTry(ps.st, ev) && ps.attempts + 1 >= MAX_ATTEMPTS))
            && (s.to.st == Failed && ps.st != Failed ==>
                  s.to.error == (if ev == Timeout then TimedOut else if ev == VerifyFail then VerifyError
                                 else if ev == PairFail then PairError else ConnectError))
            && (FailsTry(ps.st, ev) && ps.attempts + 1 < MAX_ATTEMPTS ==> s.to == Pairing(Scanning, ps.attempts + 1, NoError))
            && s.to.attempts == (if !Expected(ps.st, ev) then ps.attempts
                                 else if ev in {Start, Cancel, Reset, ResetDone} then 0
                                 else if FailsTry(ps.st, ev) then ps.attempts + 1 else ps.attempts)
            && (Stepped(ps, []) != s && s.to.st in {Idle, Failed} && ps.st != Resetting ==>
                  (StopScan in s.acts <==> ps.st == Scanning)
                  && (Disconnect in s.acts <==> ps.st in {Connecting, WaitingPasskey, PairingNow, Verifying}))
            && (ev == Reset && Expected(ps.st, ev) ==> s == Stepped(Pairing(Resetting, 0, NoError), [RemoveBond]))
            && (ps.st == Resetting && ev == ResetDone ==> s == Stepped(Pairing(Idle, 0, NoError), []))
  {
  }
}

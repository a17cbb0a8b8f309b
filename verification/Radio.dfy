/** Who reads the radio: polls and the pairing flow under every interleaving. */
module Radio {
  import opened Pairing

  /** `Reading` and `Starting` hold the lock for a poll's read and for the start of a flow. */
  datatype Owner = Free | Reading | Starting | Other

  /** `polls` and `starts` count the coroutines that wait for the lock. */
  datatype Desk = Desk(ps: Pairing, pending: bool, owner: Owner, polls: nat, starts: nat)

  /** `Flow` is anything that happens to the machine but a start: the user's or the transport's events. */
  datatype Event =
    | PollBegins | PollGranted | PollEnds
    | StartQueued | StartGranted | StartEnds | StartAbandoned | PendingCleared
    | Flow(ev: Ev) | OtherTakes | OtherGives

  const INITIAL := Desk(Pairing(Idle, 0, NoError), false, Free, 0, 0)

  predicate FlowActive(st: St) {
    st == Scanning || OnLink(st)
  }

  /** A start is pending or the machine is not idle, bonded or failed. */
  predicate PairingOwnsRadio(d: Desk) {
    d.pending || d.ps.st !in {Idle, Bonded, Failed}
  }

  predicate Enabled(d: Desk, e: Event) {
    match e
    case PollBegins => true
    case PollGranted => d.polls > 0 && d.owner == Free
    case PollEnds => d.owner == Reading
    case StartQueued => true
    case StartGranted => d.starts > 0 && d.owner == Free
    case StartEnds => d.owner == Starting
    case StartAbandoned => d.starts > 0
    case PendingCleared => true
    case Flow(ev) => ev != Start
    case OtherTakes => d.owner == Free
    case OtherGives => d.owner == Other
  }

  function Next(d: Desk, e: Event): Desk
    requires Enabled(d, e)
  {
    match e
    case PollBegins => if PairingOwnsRadio(d) then d else d.(polls := d.polls + 1)
    case PollGranted => d.(polls := d.polls - 1, owner := if PairingOwnsRadio(d) then Free else Reading)
    case PollEnds => d.(owner := Free)
    case StartQueued => d.(pending := true, starts := d.starts + 1)
    case StartGranted =>
      if d.pending then d.(starts := d.starts - 1, owner := Starting, ps := Step(d.ps, Start).to)
      else d.(starts := d.starts - 1)
    case StartEnds => d.(owner := Free, pending := false)
    case StartAbandoned => d.(starts := d.starts - 1, pending := false)
    case PendingCleared => d.(pending := false)
    case Flow(ev) => d.(ps := Step(d.ps, ev).to)
    case OtherTakes => d.(owner := Other)
    case OtherGives => d.(owner := Free)
  }

  predicate Possible(d: Desk, events: seq<Event>)
    decreases |events|
  {
    events == [] || (Enabled(d, events[0]) && Possible(Next(d, events[0]), events[1..]))
  }

  function After(d: Desk, events: seq<Event>): Desk
    requires Possible(d, events)
    decreases |events|
  {
    if events == [] then d else After(Next(d, events[0]), events[1..])
  }

  /** Nothing but a start makes an inactive flow active. */
  lemma OnlyStartActivates(ps: Pairing, ev: Ev)
    requires !FlowActive(ps.st) && FlowActive(Step(ps, ev).to.st)
    ensures ev == Start && ps.st in {Idle, Failed}
  {
  }

  lemma StepKeepsApart(d: Desk, e: Event)
    requires (d.owner == Reading ==> !FlowActive(d.ps.st)) && Enabled(d, e)
    ensures Next(d, e).owner == Reading ==> !FlowActive(Next(d, e).ps.st)
  {
    if e.Flow? && d.owner == Reading && FlowActive(Step(d.ps, e.ev).to.st) {
      OnlyStartActivates(d.ps, e.ev);
    }
  }

  /** In no interleaving is a poll reading while a flow scans, connects, pairs or verifies. */
  lemma {:induction false} NeverTogether(d: Desk, events: seq<Event>)
    requires (d.owner == Reading ==> !FlowActive(d.ps.st)) && Possible(d, events)
    ensures After(d, events).owner == Reading ==> !FlowActive(After(d, events).ps.st)
    decreases |events|
  {
    hide Next, Enabled, FlowActive;
    if events != [] {
      StepKeepsApart(d, events[0]);
      NeverTogether(Next(d, events[0]), events[1..]);
    }
  }

  /** Forgetting the bond takes no lock: a read can be going on in RESETTING. */
  lemma ResetCanOverlap()
    ensures var events := [PollBegins, PollGranted, Flow(Reset)];
            && Possible(INITIAL, events)
            && After(INITIAL, events).owner == Reading && After(INITIAL, events).ps.st == Resetting
  {
    var d1 := Next(INITIAL, PollBegins);
    var d2 := Next(d1, PollGranted);
    var events := [PollBegins, PollGranted, Flow(Reset)];
    assert events[1..] == [PollGranted, Flow(Reset)] && events[1..][1..] == [Flow(Reset)];
    assert Possible(d2, [Flow(Reset)]) && After(d2, [Flow(Reset)]) == Next(d2, Flow(Reset));
  }

  predicate Overlap(d: Desk) {
    d.owner == Reading && d.ps.st == Resetting
  }

  /** Such an overlap begins exactly when a reset comes while a poll reads, from a machine that takes it. */
  lemma OverlapBeginsExactly(d: Desk, e: Event)
    requires Enabled(d, e) && !Overlap(d)
    ensures Overlap(Next(d, e)) <==> d.owner == Reading && e == Flow(Reset) && d.ps.st in {Idle, Bonded, Failed}
  {
  }

  /** A desk that the run passes where a reset comes while a poll reads. */
  ghost predicate ResetsWhileReading(d: Desk, events: seq<Event>)
    requires Possible(d, events)
    decreases |events|
  {
    events != []
    && ((d.owner == Reading && events[0] == Flow(Reset) && d.ps.st in {Idle, Bonded, Failed})
        || ResetsWhileReading(Next(d, events[0]), events[1..]))
  }

  /** Over a run an overlap goes back to such a reset. */
  lemma {:induction false} OverlapOrigin(d: Desk, events: seq<Event>)
    requires !Overlap(d) && Possible(d, events) && Overlap(After(d, events))
    ensures ResetsWhileReading(d, events)
    decreases |events|
  {
    hide Next, Enabled;
    if events != [] {
      OverlapBeginsExactly(d, events[0]);
      if !Overlap(Next(d, events[0])) {
        OverlapOrigin(Next(d, events[0]), events[1..]);
      }
    }
  }

  /** And while one is accepted or under way no new poll starts reading. */
  lemma OwnedRadioIsNotRead(d: Desk, e: Event)
    requires PairingOwnsRadio(d) && d.owner != Reading && Enabled(d, e)
    ensures Next(d, e).owner != Reading
  {
  }

  // ----- The second look -----------------------------------------------------------------------

  /** The same without the look under the lock. */
  function NextUnchecked(d: Desk, e: Event): Desk
    requires Enabled(d, e)
  {
    if e == PollGranted then d.(polls := d.polls - 1, owner := Reading) else Next(d, e)
  }

  /** Without it the first look does not help a poll that queued before the start. */
  lemma SecondLookNeeded()
    ensures Enabled(INITIAL, PollBegins) && Enabled(Next(INITIAL, PollBegins), StartQueued)
    ensures var d := Next(Next(Next(Next(INITIAL, PollBegins), StartQueued), StartGranted), StartEnds);
            && Enabled(d, PollGranted) && Next(d, PollGranted).owner != Reading
            && NextUnchecked(d, PollGranted).owner == Reading && FlowActive(NextUnchecked(d, PollGranted).ps.st)
  {
  }
}

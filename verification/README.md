# Verification of calictl's control logic

Dafny models of the parts of calictl that decide what is sent to a camper van, and proofs of what they
promise over every input, every run and every interleaving. Times are integers, temperatures
centi-degrees, demands milli-levels; settings are parameters. Functions say what a rule or a codec
computes; where the source changes state, methods on classes and arrays do it step by step and are proved
to leave exactly what the functions give.

| files | what they model |
|---|---|
| `Thermostat*.dfy` | the cabin thermostat: the integer control law, the session's ordered rules, the session in place, what one step does with every request, reading and answer, and whole-run safety, bounded night wait, no chatter, anti-windup |
| `Esp*.dfy` | the satellite's log: time resolution, gap filling, thinning, the resumable ingest with crashes, and what it writes |
| `Bits.dfy`, `Codec*.dfy`, `Dictionary.dfy`, `FieldNames.dfy` | the frame codec in Python and in C, the dictionary's control fields with their overrides, and the generated control tables |
| `Water*.dfy` | the water guard in Python, in C, and its holder |
| `Roof*.dfy` | hold-to-move presses, releases and stop tokens, and the counter stream |
| `Lighting.dfy`, `Wakeup*.dfy` | the lighting fold, and the wake-up command through the codec |
| `Pairing.dfy`, `Radio.dfy` | the pairing machine, and polls against pairing on one radio |
| `Restore*.dfy` | restoring camping after parking |

`dafny verify dfyconfig.toml` checks everything.

## Where the source differs from what it says

- The thermostat's requirement text allows one retry of a power-on. The code re-sends it on every BUSY or
  NOT_READY answer without counting; `heater_stale_ms` after the first send is the only bound
  (`AtMostTwoExactly`, `ThreeSends`).
- `csrc/codec.h` says an entry's `supplied` flag chooses between its value and the default. `codec_encode`
  never reads it: an entry present counts (`FlagIgnored`) and can displace the default
  (`UnflaggedDisplaces`); the header holds exactly if no unflagged entry changes what a field is given
  (`FlagHeededExactly`, `FlagHeededRefusal`).
- A comment in `csrc/codec.c` speaks of 15 functions; there are 14.
- A function without control fields is an error in C and a frame of zeros in Python, and where fields
  overlap Python clears bits that C keeps. For frames of 0 or more than 32 bytes C refuses;
  Python derives the length or goes on. `EncodeBoth` says exactly when they agree.
- The C water guard subtracts clocks without sign: behind a candidate's start it adopts at once
  (`StepsAgreeExactly`, `BackwardClockAdopts`).
- A roof press looks at its token before it queues for the stream's own lock: a release in between does not
  keep the first move frame back, only ends it (`MovesExactly`, `LateReleaseStillMoves`).
- The move loop marks its final STOP as done before it has the stream's lock. Cancelled while it waits
  there, it leaves a viewed stream driving (`GivesUpStopped`, `CutStopLeavesItDriving`).
- Forgetting a bond takes no lock, so a poll's read can be going on in RESETTING (`ResetCanOverlap`),
  exactly after a reset that came while the poll was reading (`OverlapBeginsExactly`, `OverlapOrigin`); the
  exclusion holds for the states that scan, connect, pair or verify.
- A read gap changes nothing only while the restore rule is on; while off, the known half of a gap is
  still tracked (`GapChangesNothing`, `GapTracksWhileOff`).
- The anti-windup bound holds while the outside reading stays present or absent; switching it moves its
  share into the integrator, without bound in the end (`OutsideSwitchingDrifts`) but by no more than the
  shares moved (`AntiWindupSwitching`).

## Model

| member | source | states |
|---|---|---|
| `ThermostatRuns.StepOk` | calictl/thermostat.py:540-824 | one step from any well-formed session, whatever the inputs: every field a rule reads is there, the new session is well-formed again with levels in minimum..10, only safe commands leave, and a pending start comes only from an accepted owner request |
| `ThermostatSafety.StateAt` | calictl/thermostat.py:241-258 | every session reachable from boot by any inputs is well-formed: STOPPING exactly with a snapshot and then nothing pending, night timers only in WAITING with a deadline there, a pending stop exactly in OFF, `expect` known wherever it is read, OFF clears the night setting |
| `ThermostatSafety.HeatingCommandsLive` | calictl/thermostat.py:587-640 | over a whole run, any runtime, level or power-on leaves only with the link up and a fresh, fault-free heater reading, and a level is in minimum..10 |
| `ThermostatSafety.PowerOnNeedsOwner` | calictl/thermostat.py:684-714 | every power-on of a run, re-sends included, meets the entry conditions and leaves at most `heater_stale_ms` after one accepted owner request, the start pending ever since |
| `ThermostatSafety.StartOrigin` | calictl/thermostat.py:298-304 | a pending start goes back to one accepted owner request and keeps its time |
| `ThermostatSafety.StepLinksStart` | calictl/thermostat.py:587-640 | one step keeps a pending start, drops it, or begins it at an owner request with all checks passed |
| `ThermostatSafety.SafetyStopStep` | calictl/thermostat.py:680-683 | a held safety stop ends in a step exactly by confirmation, refusal, exhausted retry or a changed heater, and until then only stops leave |
| `ThermostatSafety.SafetyStopHolds` | calictl/thermostat.py:318-332 | over a whole run a safety stop not ended keeps its cause, whatever the owner asks |
| `ThermostatSafety.HeldPendingStep` | calictl/thermostat.py:609-638 | a pending safety stop: the exact condition that ends it, and that nothing but its own command is sent meanwhile |
| `ThermostatSafety.HeldStoppingStep` | calictl/thermostat.py:722-734 | a stop waiting in STOPPING is sent only over the link on a fresh reading that still matches the snapshot, with its cause |
| `ThermostatStops.OwnerOffStops` | calictl/thermostat.py:674-679 | an owner OFF, or the feature disabled, ends any session that is on: what it left burning gets exactly one stop, pending with its cause, if link and reading allow, else the stop waits with its snapshot; it is left alone exactly if somebody else moved the heater during our level command or the start is given up in this step |
| `ThermostatStops.FaultEnds` | calictl/thermostat.py:738-747 | any fault ends a session that is on; only error code 1 stops the heater, with cause and command, every other leaves it and gives its reason |
| `ThermostatStops.OffWhileWaiting` | calictl/thermostat.py:644-653 | an OFF in the night wait stops what the last fresh reading showed, now or from STOPPING, and nothing if nothing burns |
| `ThermostatStops.WaitingStopGoesOut` | calictl/thermostat.py:722-735 | a stop that waits goes out on the first fresh reading over the link exactly if the heater burns as it was left; else it is dropped; until then nothing changes |
| `ThermostatStops.FrameSays` | calictl/thermostat.py:112-142 | every state, level, code and snapshot a raw frame is read as, exactly, in terms of its fields and age |
| `ThermostatGuards.BatteryOrEnd` | calictl/thermostat.py:757-771 | a second battery low for the hold time stops the heater; else a heater that no longer burns ends the session without a command |
| `ThermostatGuards.ForeignChangeLeaves` | calictl/thermostat.py:749-755 | a heater that burns otherwise than expected ends the session and is left alone |
| `ThermostatGuards.UnreadHolds` | calictl/thermostat.py:745-747 | without a fresh frame the session stays as it is and sends nothing |
| `ThermostatGuards.LostThermometer` | calictl/thermostat.py:773-794 | a lost thermometer gives way to the other, resuming at the current level; with neither the minimum level is sent and the session is degraded |
| `ThermostatGuards.ThermometerBack` | calictl/thermostat.py:795-799 | a thermometer that is back ends the degraded mode, resuming at the current level |
| `ThermostatGuards.WithinPeriod` | calictl/thermostat.py:800-802 | within the period nothing is decided or sent |
| `ThermostatGuards.PeriodOver` | calictl/thermostat.py:803-824 | past it, too hot stops a running heater with its cause and holds a continuous one at the minimum level; else exactly the level the law asks for is sent, if the link is up, and the dwell restarts only then |
| `ThermostatEntry.RefusedByFirst` | calictl/thermostat.py:440-461 | a refusal is the first entry check that fails, in the source's order, in terms of the raw inputs; none exactly if all hold |
| `ThermostatEntry.RefusedStartsNothing` | calictl/thermostat.py:687-689 | a refused request changes nothing and sends nothing |
| `ThermostatEntry.EntersExactly` | calictl/thermostat.py:684-717 | what an accepted request does for every heater and setting: run time, level and one power-on from off; a take-over from burning; at night a level at most, and the wait |
| `ThermostatEntry.NightExactly` | calictl/thermostat.py:655-672 | every step of the wait nobody ends: fault, deadline, sight of continuous heating, confirmation and take-over |
| `ThermostatPending.StopInFlight` | calictl/thermostat.py:587-640 | a stop on its way: confirmed, given up, dropped, sent again or left, exactly, for every answer and reading |
| `ThermostatPending.HeatingInFlight` | calictl/thermostat.py:587-640 | a level or start on its way in a session with nothing else to decide: the same, with what is sent again and what is then remembered |
| `ThermostatPending.ConfirmedGoesOn` | calictl/thermostat.py:607-608 | a confirmed command is done with: the step is the one of the session with the heater shown as expected and nothing pending |
| `ThermostatPending.MovedLeaves` | calictl/thermostat.py:593-606 | a heater moved by somebody else during a level command is left, with the reason it shows |
| `ThermostatPending.PresetForgotten` | calictl/thermostat.py:577-586 | the night pre-set is forgotten exactly once shown, answered other than OK or overdue, and never sent again |
| `ThermostatPending.BatteryInFlight` | calictl/thermostat.py:757-764 | the battery stop also takes over from a command on its way |
| `ThermostatPending.UnreadInFlight` | calictl/thermostat.py:745-747 | an unread heater leaves a command on its way as it is |
| `ThermostatPending.LastRequestWins` | calictl/thermostat.py:684-692 | an accepted AUTO drops the owner's own pending stop: the step is the one without it |
| `ThermostatPending.AutoIgnored` | calictl/thermostat.py:680-683 | an AUTO request does nothing to a stop the owner did not ask for: state and commands are those without it |
| `ThermostatRetry.AtMostTwoExactly` | calictl/thermostat.py:587-640 | over a run the power-ons sent for a pending start are the owner's, one for each BUSY or NOT_READY answer re-sent over the link to a readable heater, and at most one unanswered retry; so at most two leave exactly if those are together at most one |
| `ThermostatRetry.StartCount` | calictl/thermostat.py:620-638 | the same count for any start that begins with an input and is pending since |
| `ThermostatRetry.StartStep` | calictl/thermostat.py:587-640 | one step with a start pending ends it in silence, or sends it once for a busy answer without counting, or once for the retry |
| `ThermostatRetry.StartBegins` | calictl/thermostat.py:708-714 | a start begins with exactly one power-on and no retry used |
| `ThermostatRetry.StartEndsSilent` | calictl/thermostat.py:587-640 | the step that ends a start sends none |
| `ThermostatRetry.ThreeSends` | calictl/thermostat.py:620-625 | from boot, one request and two busy answers send three power-ons |
| `ThermostatRetry.BusyIsNotCounted` | calictl/thermostat.py:620-625 | the step of that run: a busy answer re-sends the start and leaves the retry count where it was |
| `ThermostatNight.WaitingStep` | calictl/thermostat.py:642-672 | a step in WAITING sends nothing but stops unless it takes continuous heating over, and keeps the deadline |
| `ThermostatNight.WaitEnds` | calictl/thermostat.py:655-668 | at or after deadline + confirm time + longest fresh age no step stays in WAITING |
| `ThermostatNight.NightWaitBounded` | calictl/thermostat.py:700-707 | over a whole run a night wait is silent and over before entry + wait + confirm + longest fresh age |
| `ThermostatNight.AdoptionStep` | calictl/thermostat.py:661-672 | a step that takes continuous heating over saw it before the deadline and in a frame read the confirm time later |
| `ThermostatNight.AdoptionHonest` | calictl/thermostat.py:642-672 | over a whole run: first seen before the deadline, seen by every step since, and still shown by a frame read the confirm time later |
| `ThermostatNight.FirstSight` | calictl/thermostat.py:655-665 | the remembered first sight is the time of an input since which every one saw continuous heating |
| `ThermostatNight.EntryStep` | calictl/thermostat.py:700-707 | a step enters WAITING only with the deadline one wait after now and no sight of continuous heating |
| `ThermostatControl.RDivNearest` | calictl/thermostat.py:99-109 | the rounding rule gives a nearest integer to the exact quotient, a tie away from zero |
| `ThermostatControl.NearestUnique` | calictl/thermostat.py:99-109 | and that integer is the only one, so the rule is pinned for every sign |
| `ThermostatControl.RDivMonotone` | calictl/thermostat.py:99-109 | rounded division is monotone |
| `ThermostatControl.AnswersExactly` | calictl/thermostat.py:203-220 | the law answers OVERHEAT exactly above target + overheat, TARGET_EXCEEDED exactly after the hold time too warm at the minimum level, and a level exactly when hysteresis and dwell allow; else it holds |
| `ThermostatControl.DemandIs` | calictl/thermostat.py:185-202 | the demand is proportional part + integrator + outside share, each the nearest integer to its formula, and the integrator stands still exactly after a long gap or where the error drives the demand further out |
| `ThermostatControl.ShareOfOutside` | calictl/thermostat.py:187-191 | the outside share: nearest to its formula below the cap, the cap from there on, 0 where it is not colder outside, none without a reading |
| `ThermostatControl.HotSinceOverRun` | calictl/thermostat.py:203-205 | over a run of the law the remembered time is that of the sample since which all were too warm, and there is one exactly while the last was |
| `ThermostatControl.ExceededAfterHold` | calictl/thermostat.py:209-210 | so over a run TARGET_EXCEEDED needs the hold time without a break |
| `ThermostatControl.AntiWindup` | calictl/thermostat.py:192-202 | over any run of the law with bounded error and constant outside presence the integrator stays in the demand band widened by one step and the outside share, or where it started |
| `ThermostatControl.IntegratorStep` | calictl/thermostat.py:185-202 | the same bound for one step |
| `ThermostatControl.AntiWindupSwitching` | calictl/thermostat.py:192-202 | over any run with bounded error, however the outside reading comes and goes, the integrator leaves that band below by at most the shares moved out and above by at most those moved in |
| `ThermostatControl.OutsideSwitchingDrifts` | calictl/thermostat.py:192-196 | why presence must be constant: an outside reading that comes cold and leaves warm takes 2000 off the integrator each time, without any error |
| `ThermostatControl.OutsideSwitchBumpless` | calictl/thermostat.py:193-202 | when the outside reading appears or disappears at a known level, the new demand is the old demand plus only this step's integration |
| `ThermostatControl.TrackIsExact` | calictl/thermostat.py:223-234 | after tracking, for any controller, level and settings, proportional + integrator + outside share is exactly 1000 times the level, and nothing but the integrator has changed |
| `ThermostatControl.TrackHolds` | calictl/thermostat.py:223-234 | with the outside share as before and no time passed, the next demand after tracking is exactly the level, and the law keeps it |
| `ThermostatControl.ChangeNeedsMovement` | calictl/thermostat.py:206-220 | a level change keeps the dwell, leaves the band, and needs the demand to have moved by the hysteresis since the level answered it, at the clamps too |
| `ThermostatControl.LevelOfBand` | calictl/thermostat.py:210-212 | a level is in minimum..10 and is the rounded demand except at the clamps |
| `ThermostatDwell.StepIsTimed` | calictl/thermostat.py:800-824 | one step restarts the dwell exactly when a fresh level is sent, by any rule, and changes a known level only after the dwell |
| `ThermostatDwell.LastChangeCovers` | calictl/thermostat.py:351-366 | the remembered change is never earlier than any fresh level command before |
| `ThermostatDwell.NoChatter` | calictl/thermostat.py:201-220 | over a run with time not going back, each LEVEL_UP or LEVEL_DOWN at a known level comes at least the dwell after every earlier fresh level command, and the demand has moved by the hysteresis since the level taken |
| `ThermostatSession.Step` | calictl/thermostat.py:464-541 | the whole step run in place on a working copy is the composition of the rules the theorems are about |
| `ThermostatSession.Session.constructor` | calictl/thermostat.py:540 | the working copy holds every field of the session |
| `ThermostatSession.Session.Stop` | calictl/thermostat.py:318-332 | in place: the stop of what the session left running, or its snapshot |
| `ThermostatSession.Session.End` | calictl/thermostat.py:335-337 | in place: the end without a command |
| `ThermostatSession.Session.SendLevel` | calictl/thermostat.py:817-822 | in place: a level sent, pending and expected |
| `ThermostatSession.Session.Takeover` | calictl/thermostat.py:344-366 | in place: taking over a running heater |
| `ThermostatSession.Session.Bookkeeping` | calictl/thermostat.py:575-640 | in place: rule 1 |
| `ThermostatSession.Session.Retry` | calictl/thermostat.py:626-638 | in place: the verify window of rule 1 |
| `ThermostatSession.Session.NightWait` | calictl/thermostat.py:642-672 | in place: rule W |
| `ThermostatSession.Session.Enter` | calictl/thermostat.py:684-716 | in place: an accepted AUTO request |
| `ThermostatSession.Session.Owner` | calictl/thermostat.py:674-720 | in place: rule 2 |
| `ThermostatSession.Session.AwaitStop` | calictl/thermostat.py:722-734 | in place: STOPPING |
| `ThermostatSession.Session.Guards` | calictl/thermostat.py:738-771 | in place: rules 3 to 6 |
| `ThermostatSession.Session.Battery` | calictl/thermostat.py:757-771 | in place: rules 5 and 6 |
| `ThermostatSession.Session.Resume` | calictl/thermostat.py:776-785 | in place: switching the sensor |
| `ThermostatSession.Session.References` | calictl/thermostat.py:773-798 | in place: rule 7 |
| `ThermostatSession.Session.Regulate` | calictl/thermostat.py:800-824 | in place: rule 8 |
| `ThermostatSession.Session.Close` | calictl/thermostat.py:552-556 | in place: what leaving the step clears |
| `ThermostatSession.Session.Run` | calictl/thermostat.py:540-556 | in place: the rules and then the clearing |
| `ThermostatSession.Session.Rules` | calictl/thermostat.py:575-824 | in place: the order of the rules |
| `EspTime.Resolve` | calictl/esp_ingest.py:178-203 | the backward pass over anchors and boots gives each record the verdict defined from the records after it, and splits off the leading ones that are not open |
| `EspTime.PageSplitIndependent` | calictl/esp_ingest.py:528-541 | for a log with contiguous boots any page split with the carried buffer gives the same times and the same held tail as one call |
| `EspTime.ResolveInTwo` | calictl/esp_ingest.py:178-203 | resolving a part and then its rest with more is resolving the whole |
| `EspTime.TimesResolved` | calictl/esp_ingest.py:189-203 | by indices: a record keeps its own time; one without is set back from the next stamped record of its boot by the uptime between them; none exactly if there is no such record |
| `EspTime.UptimesApart` | calictl/esp_ingest.py:196-197 | two records timed from one anchor lie their uptimes apart |
| `EspTime.ResolvedExactly` | calictl/esp_ingest.py:198-203 | the records resolved are all up to the first whose boot may still bring an anchor |
| `EspTime.VerdictStands` | calictl/esp_ingest.py:189-203 | a verdict reached on part of the card stands on the whole card |
| `EspTime.SplitMattersWhenBootsReturn` | calictl/esp_ingest.py:198-199 | why contiguity is needed: a boot that comes back |
| `EspTime.HeldTail` | calictl/esp_ingest.py:184-187 | what is held is unstamped and of one boot, the running one on the final call |
| `EspGap.CoveredIsNear` | calictl/esp_ingest.py:387-390 | on a sorted series the bisection finds a point exactly if one lies within the window, both ends included |
| `EspGap.BatchQueryDecides` | calictl/esp_ingest.py:565-587 | the one query of a batch decides each of its points as the whole series would |
| `EspThin.Replay.constructor` | calictl/esp_ingest.py:214-227 | in place: the thinning tables from the saved state |
| `EspThin.Replay.EmitPoint` | calictl/esp_ingest.py:264-266 | in place: a written point's codes |
| `EspThin.Replay.Close` | calictl/esp_ingest.py:242-246 | in place: the pending points of finished slots, in name order |
| `EspThin.Replay.ThinRecord` | calictl/esp_ingest.py:248-262 | in place: one gap record, and the count of points dropped |
| `EspThin.SameCodesExactly` | calictl/esp_ingest.py:293-297 | two frames have the same state codes exactly if they agree on every field named with `_code` at the end and on the ignition |
| `EspHistory.HistoryPreserved` | calictl/esp_ingest.py:242-266 | over any calls, for every function: inputs = written + dropped + pending as multisets, and the succession of distinct state codes written (then pending) is that of the inputs |
| `EspHistory.DroppedAreReplaced` | calictl/esp_ingest.py:248-262 | with times not going back every dropped point has a later input of the same function, slot and codes |
| `EspHistory.RunKeyed` | calictl/esp_ingest.py:585-592 | counts over any calls: inputs = written + dropped + pending |
| `EspHistory.ThinCounts` | calictl/esp_ingest.py:248-262 | one gap record conserves the count |
| `EspHistory.CloseKeeps` | calictl/esp_ingest.py:242-246 | closing only moves pending points to the output and keeps every function's previous codes |
| `EspSlots.OnePerSlot` | calictl/esp_ingest.py:242-266 | over any calls with times not going back: of one function and slot two points in a row with the same codes are kept only where the first is a change of the codes |
| `EspSlots.NotYetWritten` | calictl/esp_ingest.py:248-262 | a point that changes nothing waits for the end of its slot |
| `EspFilling.CardFilled` | calictl/esp_ingest.py:564-592 | over the first n records, for every function: what is written or pending, with what was dropped for a later repeat, is exactly what the other series has nothing near, with its succession of codes |
| `EspFilling.OnlyMissingWritten` | calictl/esp_ingest.py:585-592 | no written point is one the other series has |
| `EspFilling.GapsFilled` | calictl/esp_ingest.py:585-592 | the same for any batch from nothing pending |
| `EspFilling.CardThinned` | calictl/esp_ingest.py:242-266 | and of one slot the card writes only changes of the codes and the last point |
| `EspIngest.Schedule` | calictl/esp_ingest.py:519-605 | runs started again and again, each dying anywhere, also between the write and the cursor save: what is on disk is what they leave one after the other; if the last completes on the whole card, the database is the one a single uninterrupted run makes; and a last run that nothing kills, shown the whole card for enough pages, completes |
| `EspIngest.Ingest` | calictl/esp_ingest.py:519-605 | one run leaves exactly what one look at all records it read settles and the points of those in the database; dying in the write of a page it leaves the cursor before that page and the first of its points written; which visit ends and which completes it is exact; the disk stays consistent, and completing on the whole card settles all there is |
| `EspIngest.SettledTwice` | calictl/esp_ingest.py:538-541 | settling what earlier pages brought and then the held records with more reaches as far as settling all of them at once, whatever boot was told in between |
| `EspIngest.PageOfRun` | calictl/esp_ingest.py:528-541 | one more page of a run not ended: how far it reaches, and that its settled records are those one look at all pages settles |
| `EspIngest.PageWrites` | calictl/esp_ingest.py:593-596 | the pages of a run written one by one, the last whole or begun, leave what writing all their points at once leaves, cut where the process died |
| `EspIngest.CursorPassesNothingUnwritten` | calictl/esp_ingest.py:593-596 | the cursor never passes a record whose points are not in the database |
| `EspIngest.SettledIsCanonical` | calictl/esp_ingest.py:593-596 | once all is settled nothing of an earlier crash is left |
| `EspIngest.CrashKeeps` | calictl/esp_ingest.py:593-596 | a crash after part of the write keeps the database consistent with the old cursor |
| `EspIngest.SaveKeeps` | calictl/esp_ingest.py:593-596 | the whole write and the cursor save make it consistent with the new one |
| `EspIngest.SavePage` | calictl/esp_ingest.py:593-596 | in place: write, then save, or die between |
| `EspIngest.SettlePage` | calictl/esp_ingest.py:542-596 | in place: decode, fill gaps, thin, write, save |
| `EspIngest.FetchPage` | calictl/esp_ingest.py:528-541 | the fetched page and the carried buffer settle the next stretch of the canonical run |
| `EspIngest.PageIsCanonical` | calictl/esp_ingest.py:538-541 | what a page settles is what one call on the whole card says of those records |
| `EspIngest.DecodePage` | calictl/esp_ingest.py:545-564 | the frames of a page in order, the untimed skipped, equal the decoder fold |
| `EspIngest.FillGaps` | calictl/esp_ingest.py:564-592 | the batch loop against the one query equals offering every point to the whole series |
| `EspIngest.ReplayedConcat` | calictl/esp_ingest.py:230-240 | replaying two stretches with the state dumped and loaded between is replaying one |
| `EspIngest.FetchContinues` | calictl/esp_ingest.py:528-538 | fetching after the last record's number continues with the next record |
| `EspIngest.LastPageSettlesAll` | calictl/esp_ingest.py:538-541 | a final page on the whole card settles all there is |
| `EspIngest.Store.constructor` | calictl/esp_ingest.py:483-489 | an empty cursor file stands for nothing ingested |
| `CodecParity.EncodeBoth` | csrc/codec.c:59-94 | each does what its tables say; with 32-bit values they give the same bytes or the same class of error exactly when the table has a field and, in frames of 1 to 32 bytes, no bit is cleared by a later field, or, in others, a field is beyond Python's frame too |
| `CodecParity.DecodeBoth` | csrc/codec.c:40-54 | each decodes what its table says of a state frame, and C's list is Python's mapping |
| `CodecParity.RoundTrip` | calictl/protocol.py:197-229 | encoding gives the bytes the table builds, exactly if every field has an acceptable value; in what those bytes decode to each field holds the value given or its default, and all other bits are 0 |
| `CodecLaws.AgreeExactly` | csrc/codec.c:66-91 | ORing into zeroed bytes and slice assignment build the same bits exactly if no bit set by one field is cleared by the last one over it |
| `CodecLaws.CBuildsTheSame` | csrc/codec.c:66-91 | so on disjoint tables they always do, or fail at the same first field for the same reason |
| `CodecLaws.FailAlike` | csrc/codec.c:69-89 | both fail at the same first field for the same reason, overlapping or not |
| `CodecLaws.FlagHeededExactly` | csrc/codec.c:72-84 | a frame is the one the entries flagged as supplied give, as the header has it, exactly if leaving the others out changes nothing that any field is given |
| `CodecLaws.FlagHeededRefusal` | csrc/codec.c:66-92 | a refusal is the one the flagged entries give exactly if those fail at the same field for the same reason and at none before |
| `CodecLaws.UnflaggedDisplaces` | csrc/codec.c:72-84 | a table with default 3 and an unflagged entry 5: the flagged entries alone send 3, the code sends 5 |
| `CodecLaws.FrameTellsGiven` | csrc/codec.c:72-92 | on a disjoint table what the frame has at each field is the value the field was given, or its default |
| `CodecLaws.FlagIgnored` | csrc/codec.c:72-79 | an entry counts whether flagged as supplied or not |
| `CodecLaws.DecodedSupplied` | csrc/codec.c:40-54 | a decoded list marks every entry as supplied, so that as the encoder's input none of it is left out |
| `CodecLaws.OverlapDiffers` | csrc/codec.c:23-30 | a concrete overlap in which they differ |
| `CodecLaws.FailsAtFirst` | calictl/protocol.py:214-228 | encoding fails exactly at the first field without an acceptable value, for its reason |
| `Codec.RangeIsSet` | calictl/protocol.py:153-158 | a curated range allows its values, both ends included, and no other |
| `CodecLaws.ChosenExactly` | calictl/protocol.py:214-228 | a field takes the value given or its default exactly if it is placed in the frame, has one, fits and is allowed; else the reason is the first of these that fails |
| `CodecLaws.MaxEndIs` | calictl/protocol.py:211 | the length of an unpinned frame is reached by a field and passed by none |
| `CodecLaws.EncodedSpells` | calictl/protocol.py:214-228 | with disjoint fields every value stands where its field is and no other bit is set |
| `CodecLaws.DecodeEncode` | calictl/control.py:1218-1226 | decoding an encoded frame gives back every value |
| `CodecLaws.EncodeDecode` | calictl/protocol.py:197-229 | encoding what a clean frame decodes to gives that frame |
| `CodecLaws.TruncationRestricts` | calictl/protocol.py:186-194 | a truncated frame decodes to what the full one says of the fields that are left |
| `CodecLaws.ShortFrame` | calictl/protocol.py:186-194 | the same counted in bytes |
| `CodecLaws.CDecodesTheSame` | csrc/codec.c:43-53 | the two decodings agree field by field, repeated names included |
| `CodecLaws.SameChoice` | csrc/codec.c:69-89 | one field's checks agree: frame, presence, width, allowed values |
| `CodecPython.ToBits` | calictl/protocol.py:133-139 | in loops: the bits of the bytes, most significant first |
| `CodecPython.GetField` | calictl/protocol.py:142-146 | in a loop: the value of a slice |
| `CodecPython.Pack` | calictl/protocol.py:178-183 | in a loop: bytes whose bits are the frame's, padded with zeros |
| `CodecPython.CheckValue` | calictl/protocol.py:161-175 | width first, then the curated values, exactly |
| `CodecPython.Decode` | calictl/protocol.py:186-194 | in a loop: the placed fields that lie within the frame |
| `CodecPython.Encode` | calictl/protocol.py:197-229 | in a loop: the frame the table says, or the first reason not to; unresolved fields first |
| `CodecC.GetBits` | csrc/codec.c:14-20 | in a 32-bit word: the value of a field of at most 32 bits, nothing lost |
| `CodecC.PutBits` | csrc/codec.c:23-30 | in place: the value's bits ORed in, nothing else touched |
| `CodecC.Decode` | csrc/codec.c:40-54 | in place: the list of fields that lie within the frame |
| `CodecC.Find` | csrc/codec.c:72-79 | the first entry of a name |
| `CodecC.ChooseField` | csrc/codec.c:69-89 | the checks of one field in the source's order |
| `CodecC.Fill` | csrc/codec.c:66-91 | in place: the zeroed frame filled field by field, or the first error; the rest of the buffer untouched |
| `CodecC.Encode` | csrc/codec.c:59-94 | in place: empty table, frame length, then the frame or the first error |
| `CodecDict.ControlsUsable` | csrc/codec_dict.h:49-284 | every generated control table says field by field what the dictionary with its overrides says, all of it placed; it is disjoint, within its frame, uniquely named and 1 to 32 bits a field |
| `CodecDict.MirroredFields` | calictl/overrides.py:120-137 | what the overrides make of matching rows is the field list of the C table |
| `CodecDict.AirheaterFromDictionary` | protocol/dictionary.yaml:11-20 | row by row the dictionary with its overrides says what the C table of the air heater says |
| `CodecDict.AirheaterUsable` | csrc/codec_dict.h:49-60 | disjoint, in its frame, uniquely named, and the Python table: the air heater, its level mask being 1..11 |
| `CodecDict.CampingmodeFromDictionary` | protocol/dictionary.yaml:40-43 | row by row the dictionary with its overrides says what the C table of camping mode says |
| `CodecDict.CampingmodeUsable` | csrc/codec_dict.h:69-74 | disjoint, in its frame, uniquely named, and the Python table: camping mode |
| `CodecDict.CoolerFromDictionary` | protocol/dictionary.yaml:55-64 | row by row the dictionary with its overrides says what the C table of the cooler says |
| `CodecDict.CoolerUsable` | csrc/codec_dict.h:91-102 | disjoint, in its frame, uniquely named, and the Python table: the cooler, its state mask being 0, 1, 3 |
| `CodecDict.EnergyFromDictionary` | protocol/dictionary.yaml:88-89 | row by row the dictionary with its overrides says what the C table of energy says |
| `CodecDict.EnergyUsable` | csrc/codec_dict.h:141-144 | disjoint, in its frame, uniquely named, and the Python table: energy |
| `CodecDict.LightingFromDictionary` | protocol/dictionary.yaml:196-215 | row by row the dictionary with its overrides says what the C table of the lights says |
| `CodecDict.LightingUsable` | csrc/codec_dict.h:195-216 | disjoint, in its frame, uniquely named, and the Python table: the lights, their mode mask being the enumeration |
| `CodecDict.LivingroomheaterFromDictionary` | protocol/dictionary.yaml:241-245 | row by row the dictionary with its overrides says what the C table of the living-room heater says |
| `CodecDict.LivingroomheaterUsable` | csrc/codec_dict.h:227-233 | disjoint, in its frame, uniquely named, and the Python table: the living-room heater |
| `CodecDict.RoofFromDictionary` | protocol/dictionary.yaml:259-261 | row by row the dictionary with its overrides says what the C table of the roof says |
| `CodecDict.RoofUsable` | csrc/codec_dict.h:240-244 | disjoint, in its frame, uniquely named, and the Python table: the roof |
| `CodecDict.RoofairconditionFromDictionary` | protocol/dictionary.yaml:271-274 | row by row the dictionary with its overrides says what the C table of the roof air condition says |
| `CodecDict.RoofairconditionUsable` | csrc/codec_dict.h:253-258 | disjoint, in its frame, uniquely named, and the Python table: the roof air condition |
| `CodecDict.SatelliteantennaFromDictionary` | protocol/dictionary.yaml:286-290 | row by row the dictionary with its overrides says what the C table of the antenna says |
| `CodecDict.SatelliteantennaUsable` | csrc/codec_dict.h:267-273 | disjoint, in its frame, uniquely named, and the Python table: the antenna |
| `CodecDict.StairsFromDictionary` | protocol/dictionary.yaml:302-303 | row by row the dictionary with its overrides says what the C table of the stairs says |
| `CodecDict.StairsUsable` | csrc/codec_dict.h:281-284 | disjoint, in its frame, uniquely named, and the Python table: the stairs |
| `Bits.BitsOfAt` | calictl/protocol.py:149-150 | bit `k` from the left is the value shifted right by the places after it |
| `Bits.ValueOfBitsOf` | calictl/protocol.py:142-150 | reading the bits of a value that fits gives the value |
| `Bits.BitsOfValueOf` | calictl/protocol.py:142-150 | writing the value of some bits gives those bits |
| `Bits.SetBitSets` | calictl/protocol.py:178-183 | ORing one mask sets exactly one bit |
| `WaterRuns.CSimulatesPython` | csrc/ports.c:22-57 | over any readings with the clock not going back the C run has the Python run's baseline before every tick, its candidate stands for the Python one, and both decide alike |
| `WaterRuns.RunBoth` | csrc/ports.c:22-57 | both run over the same readings, the C form in place: each list holds its own run's decisions, the lists are equal, and the candidates left correspond |
| `WaterRuns.AdoptedIsSettled` | calictl/freshness.py:140-150 | a changed level without the empty alarm becomes the baseline only after every reading with a level showed it for the settle time |
| `WaterRuns.SteadyIsAdopted` | calictl/freshness.py:140-150 | and a level above the latch shown for the settle time is the baseline |
| `WaterRuns.NeverOnTheLatch` | calictl/freshness.py:101-150 | from a cold start, without the alarm and with every known grey reading equal, the baseline is never at or below 1 L |
| `WaterRuns.CandidateSteady` | calictl/freshness.py:145-150 | a candidate was first seen when it says, and everything since showed it |
| `Water.CPending.Settle` | csrc/ports.c:22-57 | in place: one call is the C step, for any clock |
| `Water.CPending.constructor` | csrc/ports.c:22-24 | a zeroed candidate is none |
| `Water.CImplausibleDrop` | csrc/ports.c:8-18 | the C ladder of returns as one condition |
| `Water.DropsAgree` | calictl/freshness.py:74-84 | which is the Python one on the reading the arguments spell |
| `Water.StepsAgreeExactly` | csrc/ports.c:22-57 | for any clock the C step is the Python step exactly unless the reading reaches the debounce, repeats a candidate ahead of the clock, and the wrapped difference reaches the settle time |
| `Water.BackwardClockAdopts` | csrc/ports.c:52-55 | a concrete step with the clock one second back in which C adopts and Python holds |
| `Water.Holder.Guard` | calictl/serve.py:118-150 | in place: a reading with a fresh level is published as the baseline or not at all, adopted clears the stale mark, held sets it once; one without is passed on and changes nothing |
| `WaterRuns.MarkIsFirstHeld` | calictl/serve.py:143-149 | however many reads are held, the stale mark is that of the first since the last adopted one |
| `WaterRuns.NoMarkOnAdopted` | calictl/serve.py:143-149 | and there is none exactly while the last read was adopted |
| `Water.Holder.constructor` | calictl/serve.py:430-440 | a cold start |
| `Roof.OneTokenOneMove` | calictl/serve.py:1042-1056 | in every reachable state at most one token is unset and it is the newest press's, and at most one press is past the queue |
| `Roof.RunKeeps` | calictl/serve.py:1021-1084 | tokens, lock, stream and move marks are kept over every run |
| `Roof.StepKeeps` | calictl/serve.py:1021-1084 | and by every step |
| `Roof.ReleasedInTimeNeverMoves` | calictl/device.py:812-813 | a press whose token is set before its last look at it never writes a move frame, whatever follows |
| `Roof.ReleasedNeverOpens` | calictl/serve.py:1046-1052 | a press released in the queue never opens the stream: granted the lock it is over and gives it back |
| `Roof.MovesExactly` | calictl/device.py:812-813 | with its token set and no move frame written, a press can still write one exactly if it is past that look, waiting to write the first |
| `Roof.LateReleaseStillMoves` | calictl/device.py:812-813 | a run from the start in which it does |
| `Roof.ReleaseSetsToken` | calictl/serve.py:1066-1070 | after a release every token is set; a standalone STOP is queued exactly if none was unset |
| `Roof.LeaveSetsToken` | calictl/serve.py:1107-1112 | after leaving the view every token is set, and nothing else changes |
| `Roof.LeaveEndsMove` | calictl/serve.py:1107-1112 | so a held move is over after at most six more of its own steps, whatever happens in between |
| `Roof.ArriveSupersedes` | calictl/serve.py:1032-1045 | a press that is not refused sets the tokens of all before it and waits with its own unset; a refused one changes nothing |
| `Roof.QueuedStopRuns` | calictl/serve.py:1072-1084 | a queued standalone STOP can take the free lock and leaves the stream stopped |
| `Roof.SetTokenEnds` | calictl/serve.py:1048-1056 | once its token is set a press is over after at most six of its own steps, whatever else happens |
| `Roof.SetTokenRunsDown` | calictl/device.py:816-858 | each own step of a press with a set token brings its end nearer, no other step touches it |
| `Roof.NeverStuck` | calictl/serve.py:1048-1056 | a press that is not over has a step of its own once the radio is free |
| `Roof.GivesUpStopped` | calictl/device.py:859-882 | when a move gives up the lock on a live link the stream is left driving exactly if the step cancels a queued final STOP |
| `Roof.CutStopLeavesItDriving` | calictl/device.py:859-882 | a concrete run in which it is |
| `RoofServer.Server.constructor` | calictl/serve.py:1042-1045 | no press, no lock |
| `RoofServer.Server.MoveCommand` | calictl/serve.py:1036-1047 | in place: a press up to its wait for the lock supersedes the one before |
| `RoofServer.Server.StopCommand` | calictl/serve.py:1066-1072 | in place: a release sets the token and says whether a standalone STOP must follow |
| `RoofServer.Server.LeaveView` | calictl/serve.py:1108-1111 | in place: leaving the view ends a held move |
| `RoofServer.Server.LockGranted` | calictl/serve.py:1048-1052 | in place: a press already released ends without a frame |
| `RoofServer.Server.FirstLook` | calictl/device.py:812-813 | in place: the look at the token before the first frame |
| `RoofServer.Server.MoveOver` | calictl/serve.py:1053-1056 | in place: the way out of every press |
| `RoofStream.CounterIsTime` | calictl/device.py:196-199 | after `k` ticks the counter is the time-derived one at 500 k ms |
| `RoofStream.FramesFollow` | calictl/device.py:248-293 | under every interleaving consecutive frames differ in the counter by 0 or 1 modulo 2^32, by 0 exactly when the direction changed |
| `RoofStream.SwitchIsWritten` | calictl/device.py:267-277 | after a switch the last frame has the direction asked for and the counter of before, on a dead stream too |
| `RoofStream.LivesExactly` | calictl/device.py:257-265 | over any operations the stream lives exactly while none has closed it or found the link gone in a write |
| `RoofStream.TickWritesWhileAlive` | calictl/device.py:279-293 | a tick writes one frame with the next counter exactly from the first frame on and while the stream lives |
| `RoofStream.Ticker.constructor` | calictl/device.py:243-255 | in place: a new stream |
| `RoofStream.Ticker.Write` | calictl/device.py:257-265 | in place: one frame, and whether the link is gone |
| `RoofStream.Ticker.Switch` | calictl/device.py:267-277 | in place: a switch of direction |
| `RoofStream.Ticker.OnTick` | calictl/device.py:279-293 | in place: one tick |
| `RoofStream.Ticker.Shut` | calictl/device.py:295-298 | in place: no more ticks |
| `Lighting.LampsFromLastState` | calictl/semantics.py:439-460 | over any frames the lamps are those of the last lamp-state frame once there was one, else the last frame's |
| `Lighting.LampsByMode` | calictl/semantics.py:421-460 | by the frame numbers: no door, save, request, wake-up or clock frame changes the lamps served once a lamp state is |
| `Lighting.LatchByMode` | calictl/semantics.py:404-418 | by the frame numbers: what each frame latches, and that every other key stays |
| `Lighting.ConfigFromLastOfKind` | calictl/semantics.py:387-418 | over any frames wake-up and door are what the last frame of that kind said, and unknown before one |
| `Lighting.FavouritesFromReplyAndSaves` | calictl/semantics.py:412-417 | over any frames a favourite is stored exactly if the last reply said so or it was saved since; unknown before a reply |
| `Lighting.LightingConfig` | calictl/semantics.py:404-418 | in loops: the latch of one frame over what was known |
| `Wakeup.Request` | calictl/control.py:121-162 | the request is refused exactly on the source's conditions; else the last switch and time given, the positionals, and the rest as latched |
| `Wakeup.SpelledIsAsked` | calictl/control.py:121-162 | every time, area, brightness and ramp that may be asked for can be spelled: its words are accepted over anything latched, and only that configuration obeys them |
| `Wakeup.Scan` | calictl/control.py:145-155 | in a loop: switch, time and positionals of the words |
| `Wakeup.ApplyPositionals` | calictl/control.py:156-165 | areas, brightness, ramp, refused out of range |
| `WakeupFrame.Command` | calictl/control.py:811-821 | the whole command: accepted exactly on the source's conditions, the frame is the one the table builds, sent exactly if its time fits, and folding its decode latches what the words ask for |
| `WakeupFrame.SendWakeup` | calictl/control.py:811-821 | the frame is the one the lighting table builds, sent exactly if the time fits 32 bits, and what folding its decode over any served state latches is the same hour, minute, areas, brightness, ramp, colour and switch |
| `WakeupFrame.UnpackPack` | calictl/semantics.py:463-486 | packing and unpacking a configuration, at any time of its hour and minute, gives it back |
| `WakeupFrame.PackedSum` | calictl/control.py:115-118 | the packed parts do not overlap and fit 16 bits |
| `WakeupFrame.NextIsNext` | calictl/control.py:98-112 | the packed time is after now by at most a day, on the full minute, and shows the hour and minute |
| `WakeupFrame.UnpackInRange` | calictl/semantics.py:463-486 | whatever is latched unpacks to a configuration that packs |
| `Radio.NeverTogether` | calictl/serve.py:801-817 | in no interleaving is a poll reading while a flow scans, connects, pairs or verifies |
| `Radio.OnlyStartActivates` | calictl/pairing.py:88-131 | only a start, from idle or failed, makes an inactive flow active |
| `Radio.OwnedRadioIsNotRead` | calictl/serve.py:785-790 | while a start is pending or a flow under way no poll starts reading |
| `Radio.SecondLookNeeded` | calictl/serve.py:813-815 | without the look under the lock a poll queued before a start would read during the flow |
| `Radio.ResetCanOverlap` | calictl/serve.py:728-733 | forgetting the bond takes no lock: a read can be going on in RESETTING |
| `Radio.OverlapBeginsExactly` | calictl/serve.py:728-733 | from a desk without such an overlap one step makes it exactly if a reset comes while a poll reads, from a machine that is idle, bonded or failed |
| `Radio.OverlapOrigin` | calictl/serve.py:728-733 | over any run an overlap goes back to a reset that came while a poll read |
| `Pairing.TransportFollows` | calictl/pairing.py:88-131 | over any events the machine scans exactly in SCANNING, holds a link exactly from CONNECTING to VERIFYING, and fails at the third attempt |
| `Pairing.HandleKeeps` | calictl/pairing.py:78-131 | the same kept by one event |
| `Pairing.BondedInOrder` | calictl/pairing.py:88-131 | a run that is bonded found the unit, connected, paired and verified, in this order, each in the state the one before left |
| `Pairing.OnePhaseOn` | calictl/pairing.py:98-131 | a flow moves on one phase at a time, only by its event, and a bond is kept only after a verification |
| `Pairing.FlowGoesOn` | calictl/pairing.py:98-124 | each such event takes the flow on, with its actions and the tries kept |
| `Pairing.EndsExactly` | calictl/pairing.py:78-131 | what ends, fails or restarts a flow, with which error and count of tries; any other event changes nothing |
| `RestoreRuns.BoundedRestores` | calictl/automation.py:149-177 | from a fresh controller at most `max_fails` restores are written between two falling edges it sees |
| `RestoreRuns.WriteIsDue` | calictl/automation.py:154-177 | a write goes out only parked, with a debt, inside the window, battery healthy, camping off and tries left, and writes the remembered config |
| `RestoreRuns.PollExactly` | calictl/automation.py:127-177 | one poll that reads both, with the rule on: exactly when and what it writes, when a debt is owed after it, with which window and tries, and what it remembers |
| `RestoreRuns.RestoredExactly` | calictl/automation.py:154-177 | success is announced exactly when camping is back in time, a notice exactly when a debt is settled |
| `RestoreRuns.ToggleExactly` | calictl/automation.py:240-246 | off forgets debt, window and tries and keeps what is known of the van |
| `RestoreRuns.OffOnlyTracks` | calictl/automation.py:248-259 | while off a poll only takes in what it read |
| `RestoreRuns.DebtIsRemembered` | calictl/automation.py:134-142 | a debt always carries the config that was on when the engine started |
| `RestoreRuns.GapChangesNothing` | calictl/automation.py:111-125 | a read gap changes nothing exactly if the rule is on or all that was read is what was known |
| `RestoreRuns.GapTracksWhileOff` | calictl/automation.py:248-259 | a concrete gap that changes what is known while the rule is off |
| `RestoreRuns.WindowEnds` | calictl/automation.py:154-158 | the first known parked reading after the window closes the debt |
| `RestoreRuns.NothingUntilArmed` | calictl/automation.py:134-142 | without a debt nothing is written until the engine starts over camping that was on |
| `RestoreRuns.ManualOffRespected` | calictl/automation.py:144-147 | after a manual off nothing is written until then |
| `Restore.AutoCamper.constructor` | calictl/automation.py:213-238 | in place: a fresh controller |
| `Restore.AutoCamper.SetEnabled` | calictl/automation.py:240-246 | in place: the toggle; off clears the debt |
| `Restore.AutoCamper.TrackPrev` | calictl/automation.py:248-259 | in place: last known values |
| `Restore.AutoCamper.OnPoll` | calictl/automation.py:261-352 | in place: one poll |

## Left out

- The thermostat's status record, `blocked` and `eta`, and log texts: they decide nothing that is sent.
- `Replay.process` is an arbitrary deterministic step of its own state; diagnostics and `ext` records, summary counters, `dry_run`, `from_seq` and the verify reports of the ingest are not modelled.
- The other series queried by the ingest is fixed and sorted, and the card only grows; records deleted from a full card are not modelled.
- Saving the cursor file is one step, and what `dump` writes is what is loaded.
- Field names are an enumeration, and a Python value or default that is no integer ("UNKNOWN") is none.
- The state tables of `csrc/codec_dict.h`: the decoding theorems hold for any table, only the control tables are written out.
- The presence bits of the C water guard are booleans, and 32-bit litres are integers.
- Roof: clocks, counter validation and limit polls are any reason to stop; the owner's refusal just after a standalone STOP is any refusal; a write under the stream's own lock is one step, and one stream stands for the link's. Cancellation may hit any wait.
- Radio: interleavings are modelled on values, not on an object; commands other than polls and pairing only take and give the lock.
- Words of the wake-up command come split at commas and colons; number parsing is not modelled. Dates are seconds of the local calendar.
- Restore: `load` of a persisted state; runs start fresh. The three writes of one restore are one, and a failed write counts as an attempt, as in the source.
- Frame builders other than the wake-up, dictionary parsing, Bluetooth, MQTT, InfluxDB and HTTP.

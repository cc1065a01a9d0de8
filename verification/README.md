# Hardware test payload: verified models

Dafny models of the parts of a Nintendo Switch hardware test payload that carry state, loops or
arithmetic worth a proof, with the hardware replaced by an arbitrary environment: any USB-C
controller, any DisplayPort sink, any second processor, any byte stream, any clock.

- **USB-C dock handshake.** `DockSpec` is one poll of the 24-state machine as a function, `DockMachine`
  the object that `dock_step` updates in place, proved equal to it. `DockMoves` says what single moves
  do, `DockSafety` what every reachable state keeps, `DockProgress` how long a run can last,
  `DockHubLoop` the one loop that does not end. `DockPartners` encodes what can sit at the other end and
  how it answers, and `DockStories` is the whole run with each of them, byte by byte. `PowerProfiles` is
  the choice of a power profile and the request made for it.
- **DisplayPort bring-up.** `AuxChannel` is the AUX transfer with its two retry budgets and the
  fragmented reads, `LinkParams` the transfer-unit arithmetic and its registers, `DriveLevels` the lane
  levels and their tables, `LinkTraining` the training and the loop that raises the swing floor and
  lowers the rate.
- **Two processors and a mailbox.** `Supervisor` is the stall rule, `CpuStub` the other processor's
  program on its timeline, `StallRule` exactly when the rule is wrong about it, `HalfStep` a
  run for which it is, `Handoff` the boots, the clearing and the power, `HealthyHandoff` both together.
- **GPT checksum.** `Crc32`, `CrcResidue` and `Gpt`: which CRC-32 it is, what it detects over buffers of any
  length, and which tables pass.
- **Bluetooth H4 reader, pager, UART ring, line drawing, square root.** `H4Reader`, `Pager`, `UartRing`,
  `GfxLine`, `Isqrt`.

`Bits` and `Division` are shared words and arithmetic. `dafny verify dfyconfig.toml` checks everything.

Code that works in place is a class or a method here, proved equal to a pure function or given its
result outright; the theorems are about that function. Four guarantees the code seems to intend do
not hold as written. Each is stated with an input that shows it and the exact condition under which it
holds:

- the hub's retry counter is cleared by the move that retries (`usbpd.c:507-515`): the hub is asked again
  exactly when it says it is busy (`DockHubLoop`);
- the operating current is subtracted below the USB reserve (`usbpd.c:645`): it is within the profile
  exactly when the profile covers the reserve (`PowerProfiles`);
- a byte handed back goes behind the bytes already queued (`core.c:220-224`): the stream is restored
  exactly when nothing different was queued behind it (`UartRing`);
- a poll between two stores that belong together can call a healthy stub dead (`probe_wifi.c:538-540`):
  exactly when it finds the last heartbeat older than the window of the stage it sees (`StallRule`).

Two more properties fail only at inputs this program never passes, and their conditions are stated too. A
Bluetooth event buffer of one or two bytes loses the header (`probe_bt.c:228-231`); the program's
buffers have 72 bytes (`probe_bt.c:600`). The transfer-unit search can keep nothing, after which the
symbol count wraps (`dpout.c:1019`); the program only ever computes it for its one mode
(`dpout.c:1693`, `dpout.c:1814`), for which it always keeps an exact unit.

## Model

| member | source | states |
|---|---|---|
| `DockSafety.StatesOfEveryRun` | usbpd.c:705-1002 | In every state of every run from the start, failed ones included, whatever the controller answers: from the power request on the pick indexes an offered, admissible profile and is the one the choice rule names; from identity discovery on this side is the data host; from the HPD wait on lanes is 2 or 4 and DisplayPort is entered; the dock stages only with the dock and its mode; a finished run is in DisplayPort unless the other end is a Nintendo charger, which never is |
| `DockSafety.WireOfEveryRun` | usbpd.c:540-602 | What went to the controller by then: the enter command exactly when the flag is set, never twice, and no exit; every eight-byte dock message only with the dock in its own mode; a lane configuration only in DisplayPort mode, naming the assignment of the lanes settled on in the byte the other end reads; every request word names the pick |
| `DockSafety.RunKeeps` | usbpd.c:712-1002 | The invariant behind both is kept by any number of polls with any answers |
| `DockSafety.NextKeeps` | usbpd.c:712-1002 | One poll keeps it, through every branch of every state |
| `DockSafety.StopMatches` | usbpd.c:1023-1037 | Stopping leaves DisplayPort exactly when the flag is set, puts the light out exactly when it was lit, enters nothing, and a second stop changes nothing |
| `DockSafety.RunThenStopBalances` | usbpd.c:1023-1037 | After any run and a stop, DisplayPort was left as often as it was entered |
| `DockSafety.RestartBalancesIff` | usbpd.c:705-710 | The claim is per run: over a run left without a stop and a next one stopped, the wire balances exactly when the first had not entered DisplayPort |
| `DockProgress.OnePoll` | usbpd.c:712-1002 | With a cable in, a poll ends the handshake, moves it to a later phase, asks the hub again, or leaves it where it is; and it stays past the 2.5 s timeout only on a completion reported while the chip is busy |
| `DockProgress.SettledStays` | usbpd.c:717-741 | Idle and failed never change; done becomes failed exactly when the cable goes or a fault is reported |
| `DockProgress.TimeBound` | usbpd.c:533-560 | From any state, the time a run that is not over has lasted is at most the time its phases have left, one poll more for each busy completion and two phases for each hub request sent again |
| `DockProgress.HandshakeEnds` | usbpd.c:551-560 | From the start with a cable in, the handshake is over within 23 timeouts of 2.5 s and a poll each, busy completions and hub retries added |
| `DockHubLoop.HubAskedAgainIff` | usbpd.c:975-992 | In every reachable state the hub is asked again exactly when its reply says busy: the retry counter, which `_go` clears, never decides |
| `DockHubLoop.BusyHubNeverEnds` | usbpd.c:507-515 | The endless run, from the start and step by step: a dock that answers at once and whose hub stays busy is asked again at every second poll for ever, with no busy completion and no poll late |
| `DockPartners.OnIdentity` | usbpd.c:829-854 | Who the identity names decides what follows: the dock's mode for 057E:2003 of type 5, the end for 057E:2004, the list of modes for anything else |
| `DockPartners.OnNinMode` | usbpd.c:856-870 | DisplayPort is entered for the dock exactly on the acknowledgement 44 81 7E 05; any other answer fails with nothing sent |
| `DockPartners.OnSvids` | usbpd.c:872-884 | DisplayPort's modes are asked for exactly on an acknowledged list, 42 |
| `DockPartners.OnMode` | usbpd.c:886-899 | DisplayPort is entered for an adapter exactly on an answer 43 for FF01, longer than its header, with bits 0 and 2 of its first byte; any other answer fails with nothing sent |
| `DockPartners.OnEntered` | usbpd.c:666-703 | The configuration in bytes for a four-byte answer: assignment D with two lanes, else C with four, from the receptacle's byte for a dock or a receptacle and the plug's otherwise, sent in the byte the other end reads; neither fails |
| `DockPartners.OnHub` | usbpd.c:975-992 | The hub is asked again exactly on a reply for its request with the busy bit; any other answer ends it, and a reply without the bit says the hub is up |
| `DockStories.DockRun` | usbpd.c:705-1002 | Against a Nintendo dock described by its identity, its capability word and how often its hub is busy, from the start and at any pace of half a second or more: it ends in Done or fails exactly where it refuses its mode or offers neither assignment C nor D, and the whole list of messages and commands in bytes, the hub asked once more than it says it is busy |
| `DockStories.AdapterRun` | usbpd.c:705-1002 | Against any partner that is neither dock nor charger: Done with DisplayPort entered exactly when it lists modes, lists FF01 and answers for it with a word that has the sink and DisplayPort bits, and then offers C or D in the byte for its connector; else where it fails; and the whole list of messages and commands in bytes |
| `DockStories.ChargerRun` | usbpd.c:705-1002 | Against a Nintendo charger: Done after its identity, nothing more sent and DisplayPort not entered |
| `DockStories.NoPowerRun` | usbpd.c:744-766 | Against an offer with nothing to take: failed at the second poll with nothing sent |
| `DockStories.SoFar` | usbpd.c:712-1002 | What was sent by any poll of such a run begins what is sent by any later one, so those lists give the whole course |
| `DockMachine.Handshake.Begin` | usbpd.c:705-710 | Everything forgotten, waiting for a plug; the invariant holds |
| `DockMachine.Handshake.Step` | usbpd.c:712-1002 | The object after a poll is the step function of the object before it, and the invariant is kept |
| `DockMachine.Handshake.End` | usbpd.c:1023-1037 | The object after a stop is the stop function of it |
| `DockMachine.Handshake.Session` | usbpd.c:705-1037 | A run polled in place and stopped ends idle with as many exits as enters |
| `DockMoves.CommandMoves` | usbpd.c:538-547 | A command goes out behind all before it with no earlier completion left to count for it, the other alerts as they were, and DisplayPort entered exactly by its one command |
| `DockMoves.CompletionAnswers` | usbpd.c:551-560 | Complete, refused and no answer each come from exactly one combination of alert, busy bit, last status and time; the alert never counts twice |
| `DockMoves.ConfigureMoves` | usbpd.c:666-703 | The lanes are configured exactly when the answer has four bytes and offers assignment C or D: two lanes when D is offered, else four, the configuration for them before the command; else failure with nothing sent |
| `DockMoves.HubMoves` | usbpd.c:975-992 | A busy hub is asked again while the counter is below ten, which leaves the counter at zero; any other completed answer ends the handshake, and a reply decides whether the hub is up |
| `DockMoves.ContractMoves` | usbpd.c:767-782 | The contract's alert is taken once, the contract is read exactly when the register holds four bytes of it, and the sink is declared ready |
| `DockMoves.BadAnswers` | usbpd.c:551-572 | In every state that waits for a command: a completion while the chip is busy is taken and waited out, a refused command and one without an answer fail, with nothing sent |
| `DockMoves.PulledOrFaulty` | usbpd.c:724-741 | A pulled cable in any state past the wait for one, and a fault in any state, fail with nothing sent |
| `DockMoves.MessageMoves` | usbpd.c:574-584 | A message goes out before the command to send it; one that could not be written fails and nothing is sent |
| `DockMoves.RegisterBits` | usbpd.h:27-51 | The plug, fault, last-command, busy and signal bits of the registers, and the three alerts, by their masks |
| `DockMoves.RoleIs` | usbpd.h:32-35 | The two role bits: 2 is the data host, 1 the device, anything else neither |
| `DockMoves.WaitsUntil2500` | usbpd.c:533-560 | In every state that waits for a reply, a contract or a completion, a poll that brings none of it changes nothing up to 2500 ms and fails after, with nothing sent |
| `DockMoves.OtherWaits` | usbpd.c:744-753 | No profiles are read in the 300 ms after the plug; hot plug is waited for exactly 1500 ms and the lit light exactly 500 ms |
| `DockMoves.StopInBytes` | usbpd.c:1004-1037 | What stopping sends, byte by byte: the light-off message when it was lit and the acceptance of its reply when one came, then the exit command when DisplayPort was entered |
| `PowerProfiles.ReadPdos` | usbpd.c:213-234 | The block read gives its profiles in order, at most seven, none when the read fails |
| `PowerProfiles.DecodeReadsFixedSupply` | usbpd.c:213-234 | A fixed supply object laid out as section 6.4.1 of USB Power Delivery R3.0 has it decodes to its voltage and current |
| `PowerProfiles.OffersReadBack` | usbpd.c:213-234 | Any offer of up to seven profiles put into the block as section 6.4.1 has it is read back as it was |
| `PowerProfiles.ChooseProfile` | usbpd.c:614-638 | The loop computes the choice function, and says whether it was the dock offer |
| `PowerProfiles.ChoosePicks` | usbpd.c:614-638 | For every list: the two-profile dock offer, or the first admissible profile of greatest power, or the first idle 5 V one when none has power, or nothing |
| `PowerProfiles.PickUnique` | usbpd.c:614-638 | That rule leaves one answer |
| `PowerProfiles.ChoiceInFigures` | usbpd.c:614-638 | The choice in figures: for exactly two profiles of which the first is 5 V at 500 mA, the second if it is 15 V at 2600 to 3000 mA and else none; otherwise the most power at 5, 9, 12 or 15 V and at most 3 A, the first of equals |
| `PowerProfiles.OperatingCurrent` | usbpd.c:642-653 | The loop computes the operating current |
| `PowerProfiles.OperatingInFigures` | usbpd.c:642-653 | For every admissible profile that covers the reserve (500, 500, 375, 300 mA at 5, 9, 12, 15 V): the greatest of the eight steps within the current less the reserve and within 2000, 2000, 1500, 1200 mA, or 100 when none is; below the reserve that cap itself |
| `PowerProfiles.DockIsAskedFor1200` | usbpd.c:642-653 | Any dock offer is taken at 15 V and asked for 1200 mA |
| `PowerProfiles.StepIsGreatest` | usbpd.c:649-652 | It is the greatest allowed step within the limit, or the smallest of all |
| `PowerProfiles.OperatingWithinProfile` | usbpd.c:642-653 | For every admissible profile it is an allowed step, and no more than the profile offers exactly when that covers the USB reserve |
| `PowerProfiles.ReserveWraps` | usbpd.c:645 | Below the reserve the subtraction wraps: 5 V at 400 mA is asked for 2 A |
| `PowerProfiles.RdoReadsBack` | usbpd.c:655-664 | The whole request word, and that it reads back to position, operating and maximum current and the USB bit (section 6.4.2) |
| `PowerProfiles.RequestNamesTheProfile` | usbpd.c:655-664 | For any block read, the request made names the chosen profile and its current |
| `AuxChannel.TransferExplained` | dpout.c:148-205 | A size of 0 or above 16 gives 1 and an unplugged sink 2, both without a transaction; a transfer to a plugged sink takes at most eight transactions, goes on only over errors and defers, succeeds exactly when the one that ended it was acknowledged, fails with 6 exactly on the second error and with 5 exactly on the seventh defer |
| `AuxChannel.PatienceSuffices` | dpout.c:169-204 | A sink that acknowledges after at most one error and six defers, in any order, is always heard out |
| `AuxChannel.ReadReassembles` | dpout.c:292-306 | However a read is cut into fragments, the bytes are the registers in order without gap or overlap, the code is 0 exactly when all came, and n bytes take at most 8 n transactions |
| `AuxChannel.Aux.Transfer` | dpout.c:148-205 | The bytes land at the offset asked for, the rest of the buffer is untouched, and the code is that of the transfer function |
| `AuxChannel.Aux.Read` | dpout.c:292-306 | The buffer is filled from its start with what the read function says and is untouched behind it |
| `LinkParams.LinkCalc` | dpout.c:957-1035 | The loop over unit sizes from 64 down to 32 keeps the declared choice; for any mode that fits with a ratio of at least one, unit 32 to 64, fraction 1 to 15, watermark at most 30, and count at most 63 exactly when a candidate was kept |
| `LinkParams.ChosenUnique` | dpout.c:1007-1015 | The choice is determined: the first unit without error, else the overestimate of least error, the largest unit of those |
| `LinkParams.CandidateBounds` | dpout.c:971-999 | Every candidate counts fewer symbols than its unit and has a fraction of at most 15, and one that ends with polarity 0 is an overestimate or exact |
| `LinkParams.FracRange` | dpout.c:986-992 | The fraction never reaches 16: no whole distance has an inverse of exactly fifteen at this precision |
| `LinkParams.EligibleIff` | dpout.c:995-1007 | A candidate of one symbol or more is worth keeping exactly when it does not end with polarity 1 and its error is below the first bound: the polarity 1 formula always underestimates there |
| `LinkParams.ParamsInRange` | dpout.c:1017-1035 | The ranges of all four fields; with no candidate kept the count wraps to all ones; what is kept is an overestimate or has no error |
| `LinkParams.KeptIff` | dpout.c:1007-1019 | For every ratio and line: a candidate is kept, and the count stays within 63, exactly when some unit has an error below the first bound and a remainder in the lower half or next to the whole number above, or carries less than one symbol and is approximated from above |
| `LinkParams.WorthFromOneSymbol` | dpout.c:980-999 | From a thirty-second of the link on that is: a unit whose remainder ends with polarity 0 and whose error is below the first bound |
| `LinkParams.ScreenModeIsKept` | dpout.c:645 | On every link the console's own mode fits, some unit is exact, so a candidate is always kept |
| `LinkParams.ScreenParams` | dpout.c:957-1035 | The parameters of all six widths of link the console's mode fits, in figures: unit, count, fraction, polarity and watermark; no larger unit is exact |
| `LinkParams.SomeModeKeepsNothing` | dpout.c:1007-1019 | Other modes need not be: 53.595 MHz on one lane at the lowest rate keeps nothing |
| `LinkParams.RatioBelowOne` | dpout.c:965-969 | A mode that fits takes less than the whole link, and the 32-bit products do not wrap |
| `LinkParams.RegistersReadBack` | dpout.c:1046-1061 | For parameters in range every packed field reads back in both words, the constant bits and the framing bit are set and all other bits are the old ones |
| `LinkParams.WrappedCountOverruns` | dpout.c:1019 | The wrapped count sets the fraction and the polarity to ones whatever they were |
| `DriveLevels.PopulatedIff` | dpout.c:601-635 | A lookup in any of the four tables hits an entry exactly when swing and pre-emphasis make at most 3 and the post cursor is at most 3 |
| `DriveLevels.Entries` | dpout.c:601-635 | Entries of the four tables in figures: the order of the indices, and Mariko's own three at full swing without post cursor 3 |
| `DriveLevels.LaneSetReadsBack` | dpout.c:1147-1151 | The byte told to the sink reads back, and both its maximum flags are set exactly when swing and pre-emphasis make 3 |
| `DriveLevels.GrantedIsOk` | dpout.c:1163-1173 | Whatever is asked, the levels granted keep the floor and the sum, and a request that keeps them is granted as it is |
| `DriveLevels.DriveLaneByLane` | dpout.c:1129-1152 | Every lane gets its own table entries and its own byte, and the pull-up is the largest over the lanes |
| `LinkTraining.Trainer.Config` | dpout.c:1129-1157 | One setting of all lanes, added to those made so far |
| `LinkTraining.Trainer.Adjust` | dpout.c:1159-1180 | Each lane gets the levels for its own four request bits in the exchange read, the swing held to the floor and the pre-emphasis to 3 less the swing, and its own two post-cursor bits from the exchange after when the third pattern is in use |
| `LinkTraining.Trainer.CrDone` | dpout.c:1189-1196 | True exactly when every lane in use reports its clock |
| `LinkTraining.Trainer.EqDone` | dpout.c:1198-1207 | True exactly when every lane is equalized and in lock and the lanes are aligned |
| `LinkTraining.StatusInBits` | dpout.c:1189-1207 | Locked and equalized in the bits of the three status bytes, for one, two and four lanes |
| `LinkTraining.StartRateIsFastest` | dpout.c:1686 | The starting rate is the fastest of the three that is not above the sink's |
| `LinkTraining.Trainer.Recover` | dpout.c:1243-1275 | Clock recovery stops within 20 settings, earlier without success only when the swings stood still over the last five. The first setting has the levels it began with; every later one follows a status without a clock on every lane, and has the levels for the request bits read in the exchange right after that status |
| `LinkTraining.Trainer.Equalize` | dpout.c:1280-1312 | Up to three further settings, each after a look that had every clock but was not equalized, with the levels for the request bits read in the exchange right after it; it fails after three such settings or a lost clock, and success is a status with every lane equalized and aligned |
| `LinkTraining.Trainer.Train` | dpout.c:1209-1316 | Which of the four endings and the status that decided it. The first setting is swing = floor, no pre-emphasis, no post cursor; all later ones of both patterns follow the request read right after the status that refused the one before; all keep the lanes in range |
| `LinkTraining.Trainer.Start` | dpout.c:1680-1820 | From what the sink can do: the parameters are computed first, nothing is trained exactly when the mode does not fit, which is one lane at the lowest rate, and otherwise the loop ends as it should |
| `LinkTraining.Trainer.BringUp` | dpout.c:1778-1820 | The loop ends for every sink within nine trainings, whose settings all follow the sink's requests. With the link up: the last training worked at the current rate and floor, no margin errors or floor 2, and the parameters are those computed for that rate; 9 only at the lowest rate, 2 only when the mode does not fit. The margin errors of every training that worked are the low fifteen bits of the two counters in the second reading after it |
| `LinkTraining.ScheduleInFigures` | dpout.c:1778-1820 | What follows what: one swing floor up, to at most 2, at the same rate after a training with errors; from 5.4 to 2.7 to 1.62 Gb/s at floor 0 after one that failed |
| `LinkTraining.ScheduleBounded` | dpout.c:1778-1820 | Any sequence of trainings made by the rule is bounded by the measure of rate and floors left, at most nine |
| `LinkTraining.NothingTriedTwice` | dpout.c:1796-1811 | No rate and floor are ever tried twice |
| `LinkTraining.ParamsForInRange` | dpout.c:1814-1818 | Whatever rate the loop settles on, the registers can hold its parameters, and which they are in figures |
| `Supervisor.WaitForCpu` | probe_wifi.c:513-543 | The poll loop computes the wait function: alive or not, and finished, stalled or run out |
| `StallRule.NoFalseStall` | probe_wifi.c:518-543 | A timeline whose heartbeats keep their windows is never called stalled by polls that see whole steps, from any point of the wait |
| `StallRule.HealthyStubFinishes` | probe_wifi.c:518-543 | Such a stub that ends within the 20 s ceiling is seen to finish |
| `StallRule.MailboxIsDetermined` | cpu_stub/stub.c:447-454 | What a poll shows at a time is determined by the stores made |
| `StallRule.StalledIff` | probe_wifi.c:518-543 | A stub that keeps its windows is called stalled exactly when some poll before it is done lands between two stores that belong together, sees the magic, and finds the last heartbeat noted longer ago than the window of the stage it sees |
| `StallRule.MagicAloneStalls` | probe_wifi.c:523-540 | The gap before the first heartbeat: a poll that sees the magic alone, more than a window after the wait began, calls the stub stalled |
| `HalfStep.CompletedStallsOnlyInTwoPlaces` | probe_wifi.c:530-540 | A run of the stub whose accesses complete can be called stalled only there, or inside the step that ends the wait for the link |
| `HalfStep.MailboxShows` | cpu_stub/stub.c:447-454 | Every timeline has something to show at every time |
| `HalfStep.HalfAStepStalls` | probe_wifi.c:538-540 | A run from the first stage to the last that keeps every bound, with 0.8 s of waiting for the link: of all polls one sees half a step, and it is called stalled |
| `StallRule.DeadStubIsCaught` | probe_wifi.c:525-541 | A stub that has reported in and stores nothing more is always called stalled, within its window (2 s before stage 10, 0.3 s from it on) and one poll of the last heartbeat noted |
| `StallRule.SilentRunsOut` | probe_wifi.c:513-543 | A stub that never reports in is waited for through all 40000 polls and not called stalled |
| `CpuStub.Cpu0.WaitBit` | cpu_stub/stub.c:256-271 | True exactly when a look showed the bit, at that look; false only after the whole time, with a look every millisecond and none that showed it; and at most two accesses are added to the time since the last heartbeat, however often it looks |
| `CpuStub.Cpu0.WriteAndVerify` | cpu_stub/stub.c:468-489 | At most 25 rounds, ended early only by a read that agrees, done within 0.55 s, the last heartbeat never more than 45 ms back on the way and 25 ms at the end |
| `CpuStub.Cpu0.WaitForLink` | cpu_stub/stub.c:744-773 | Two waits of at most 200 looks 2 ms apart: how many showed nothing, which look ended each, and that the second is made only when the first saw the link; the last look decides whether it is up; no heartbeat is stored, and all of it lasts 2 ms a vain look at least and 1.2 s at most when accesses complete within half a millisecond |
| `CpuStub.Cpu0.TryPort0` | cpu_stub/stub.c:659-703 | Three tries, done within 2.2 s, the last heartbeat never more than 75 ms back on the way and 30 ms at the end |
| `CpuStub.Cpu0.Run` | cpu_stub/stub.c:491-1008 | When every access completes within half a millisecond, heartbeats are at most 1.21 s apart while the link is waited for, 45 ms from the configuration stage on and 75 ms before, which leaves a poll to spare in every window; the whole program takes at most six seconds; the breadcrumbs come in order, none left out but by the three ways to the last one, which say what was found; and the port has its 22 ms of datasheet waits before its link is waited for |
| `CpuStub.CompletedIsSeenToFinish` | probe_wifi.c:516-543 | Such a run is seen to finish by every supervisor whose polls see whole steps, unless CPU0 took over 13 s to start |
| `Handoff.AliveMeansWritten` | probe_wifi.c:516-524 | Over every interleaving of CPU0's stores and the polls, an attempt is called alive exactly when CPU0 wrote the magic during that very boot by the last poll, and finished exactly when it wrote the end, which it had not by the poll before |
| `Handoff.MailIsStored` | probe_wifi.c:513-543 | At every poll of a boot the mailbox is what the stores of that boot put into a cleared one: the last store of every word |
| `Handoff.StaleMailboxLooksAlive` | probe_wifi.c:582-590 | A mailbox that was not cleared would be alive at the first poll of a boot that stored nothing |
| `Handoff.Supervision.Wait` | probe_wifi.c:513-543 | Polled in place with CPU0 storing between the polls, the verdict is the wait function's and the mailbox is what the stores made it |
| `Handoff.Supervision.BootChecked` | probe_wifi.c:435-449 | A boot is made only on a cluster that is down, and one that fails leaves it down |
| `Handoff.Supervision.HandOver` | probe_wifi.c:503-864 | At most three boots; none on a cluster that is up, each attempt's on a mailbox just cleared; every attempt was judged by its wait and every one before the last was alive and did not finish; the cluster is down at every exit. A finished last attempt is reported by the words CPU0 stored last in that boot: not decoding, no link, the device 14E4:43EC or another one, each exactly when. A diagnostic boot is made exactly when the third attempt hung with a breadcrumb of 10 or more and no latched error |
| `HealthyHandoff.OneBootIsEnough` | probe_wifi.c:503-864 | When CPU0 comes up, every access of its program completes and the polls see whole steps, the handoff makes one boot, no diagnostic one, and reports exactly what the words stored last in that boot say |
| `Crc32.GptCrc32` | probe_storage.c:432-443 | The loop computes the checksum function of the bytes it is given |
| `CrcResidue.Residue` | probe_storage.c:432-443 | Any message followed by its own sum, low byte first, leaves the register at DEBB20E3: the residue of the polynomial |
| `CrcResidue.CheckValue` | probe_storage.c:432-443 | The sum of nothing is 0 and of the nine digits CBF43926 |
| `Crc32.FeedIsBitSerial` | probe_storage.c:436-440 | Feeding bytes is feeding their bits one at a time |
| `Crc32.FeedingBitsIsOneXor` | probe_storage.c:437-439 | Up to 32 bits fed one at a time, so four bytes too, are one exclusive or of the whole word and that many shifts |
| `Crc32.ShiftIsABijection` | probe_storage.c:439 | The shift step is a bijection on 32-bit states |
| `Crc32.BurstDetected` | probe_storage.c:432-443 | Two buffers of any equal length whose differences lie within 32 consecutive bits have different checksums |
| `Crc32.FourByteBurstDetected` | probe_storage.c:432-443 | So do two whose differences lie within four consecutive bytes, anywhere |
| `Gpt.ProbeGpt` | probe_storage.c:1265-1335 | The outcome for every sector content: no table, a suspicious size, or the two checksum verdicts, the second only over entries that were read |
| `Gpt.ProbeVerdict` | probe_storage.c:1290-1335 | A table passes exactly when signature and size are good, the header sum is right with its own field read as zero, and the entry sum is right if the entries were read |
| `Gpt.PassesInFigures` | probe_storage.c:1265-1335 | The verdict with the offsets and bounds of signature, size and header sum in figures |
| `Gpt.EntriesInFigures` | probe_storage.c:1308-1328 | When the entry sum is checked and over which bytes, in figures |
| `Gpt.Le32ReadsBack` | probe_storage.c:1265-1335 | A number stored low byte first reads back |
| `Gpt.SealedPasses` | probe_storage.c:1265-1335 | A table written by the rules passes: any header size, first sector, count and entry size within the bounds, the entry sum stored at 88 and then the header sum at 16 |
| `Gpt.HeaderCorruptionFails` | probe_storage.c:1297-1306 | A passing table with at most four consecutive header bytes changed, outside the stored sum and the size, does not pass |
| `Gpt.StoredChecksumCorruptionFails` | probe_storage.c:1300-1306 | Nor does one whose stored sum changed |
| `Gpt.EntryCorruptionFails` | probe_storage.c:1315-1328 | Nor does one with at most four consecutive bytes of its entries changed |
| `GfxLine.Line` | gfx/gfx.c:497-520 | The loop ends for all endpoints and plots exactly the reference line: as many pixels as the longer axis and one |
| `GfxLine.LineEnds` | gfx/gfx.c:497-520 | The line begins and ends where it was asked to |
| `GfxLine.HalfPixel` | gfx/gfx.c:497-520 | Every pixel is within half a pixel of the ideal line |
| `GfxLine.OneStep` | gfx/gfx.c:506-519 | Each step moves one pixel on the longer axis towards the end, and none or one on the other |
| `GfxLine.InsideBox` | gfx/gfx.c:497-520 | Every pixel lies in the rectangle of the two ends |
| `Isqrt.ISqrtFrom` | gui/gui_jcmotion.c:57-72 | Both loops end with the integer square root, from any power of four large enough as the first bit, and no sum in it reaches four times that bit |
| `Isqrt.ISqrt` | gui/gui_jcmotion.c:57-72 | For every 32-bit argument, with the source's own first bit |
| `Isqrt.RootUnique` | gui/gui_jcmotion.c:57-72 | An integer square root is unique |
| `H4Reader.Line.WaitEvent` | probe_bt.c:189-247 | The reader, in place: the buffer holds the cut of what the line function finds, exactly its bytes were taken, and the raw log is a prefix of them |
| `H4Reader.PacketsInBytes` | probe_bt.c:189-247 | The packets in bytes: 00, 31, 34 alone, 07 with 63 more, 04 for an event |
| `H4Reader.FindsTheEvent` | probe_bt.c:189-247 | Behind any run of skippable vendor packets and stray bytes, whatever their payloads hold, exactly the event is found and no byte past it is taken |
| `H4Reader.TimesOutBehind` | probe_bt.c:197-221 | With nothing complete behind them the reader times out |
| `H4Reader.EveryLineSplits` | probe_bt.c:195-246 | Every line is such a run and then an event header or a cut: the two cases are all |
| `H4Reader.OutputIsTheEventCut` | probe_bt.c:226-241 | The event comes cut to the buffer exactly when the buffer is empty or has room for the header, or the parameters happen to begin as the header does; one or two bytes get the first parameters |
| `H4Reader.ShortBufferLosesTheHeader` | probe_bt.c:228-231 | A one-byte buffer gets a parameter instead of the event's first byte |
| `H4Reader.ResetVerdict` | probe_bt.c:254-258 | In a buffer of seven bytes or more the verdict is exactly that a Command Complete for HCI_Reset with status zero arrived |
| `Pager.PageStep` | main.c:98-107 | The loop computes the search function |
| `Pager.StepFinds` | main.c:98-107 | For any page count with page 0 enabled, the step goes to the nearest enabled page in its direction |
| `Pager.NeighbourPages` | main.c:98-107 | With every page enabled a forward step shows the next page and a back step the one before, around both ends |
| `Pager.StepsAreInverse` | main.c:98-107 | On enabled pages forward and backward undo each other |
| `Pager.ApplyDelta` | main.c:387-388 | The two loops apply the net of a batch |
| `Pager.BatchIsEachInTurn` | main.c:366-389 | Applying the net of any batch of navigation keys reaches the page that the keys reach one at a time |
| `Pager.DisabledPageBreaksTheBatch` | main.c:366-389 | From a page that is not enabled it need not |
| `Pager.EnabledPages` | core.c:152-155 | Page 0 is enabled under every mask, any other exactly when its group shares a bit with it |
| `UartRing.Uart.Getc` | core.c:209-217 | The oldest queued byte, or the next on the wire, or minus one; the counters may wrap |
| `UartRing.Uart.Ungetc` | core.c:220-224 | The byte goes behind what is queued, or is dropped when sixteen are |
| `UartRing.Uart.PollReboot` | core.c:265-273 | An R anywhere on the wire is reached whatever is queued; without one the queue and the wire become one queue, cut to sixteen |
| `UartRing.Uart.NavBatch` | main.c:366-389 | A batch read through the ring ends on the page its keys reach in turn, and what is left of the stream is known exactly |
| `UartRing.Keys` | main.c:366-389 | n and space go forward, p and b back, R restarts, and the queue holds sixteen bytes |
| `UartRing.BatchKeepsEveryByte` | main.c:375-386 | No byte that is not a key of the batch is lost or made up |
| `UartRing.HandingBackRestores` | main.c:380-385 | Handing the byte back restores the stream exactly when nothing different was queued behind it |
| `UartRing.HandingBackSwaps` | main.c:380-385 | With two different keys queued it does not: they come out the other way round |
| `UartRing.Uart.StrayKeysSwap` | main.c:375-386 | The same on the ring: two keys come in, a poll for R queues them, a batch that stops at the first leaves them swapped |

## Left out

- Times: clocks count without wrapping, and every 32-bit subtraction of two of them is written out. A
  poll of the dock reads one time before any wait in it and one after; a bus access of the stub takes
  at most half a millisecond, mailbox stores no time of their own.
- The mailbox is seen as one snapshot a poll: its polled fields share a cache line that each poll
  invalidates. Cache maintenance, store buffers and exception capture are not part of this model.
- Register maps, clock and pad programming, regulators and the display head: only the replies they
  give and the time they take are modelled. DPCD writes other than the lane levels, the rate and the
  width only move the count of exchanges.
- Texts: failure reasons, logs and on-screen status, and with them the fields kept only for display
  (`dp_caps`, `dock_state`, the second status word, the quiet-controller diagnosis).
- The audio blanking symbol counts of the link parameters, and the post-cursor report byte at DPCD 10Fh.
- I2C over AUX, EDID reads and AUX writes: the same retry pattern without the reassembly.
- AuxChannel.ReadReassembles: register addresses are not reduced modulo 2 to the 32, because DPCD
  addresses have 20 bits.
- Gpt.HeaderCorruptionFails: does not claim detection when the changed bytes touch the stored sum or
  the header size, because then the bytes summed are no longer the same; a changed size can also turn
  the check off.
- StallRule.HealthyStubFinishes: polls that see half a step are excluded, because for them it is false;
  `StallRule.StalledIff` says exactly which of them and `HalfStep.HalfAStepStalls` shows one.
- DockStories.DockRun: the partner answers by the next poll; later answers change nothing until the timeout
  (`DockMoves.WaitsUntil2500`), which the runs do not mix in.
- Handoff.Supervision.HandOver: the outcome reads the mailbox as the last poll left it, not once more behind it;
  and how a hang is described (a fault, a hung endpoint, the stage) is not part of the outcome.
- HealthyHandoff.OneBootIsEnough: that the mailbox shows the stub's timeline at every poll is its
  hypothesis; the stores themselves are not replayed between the polls.
- DockProgress.HandshakeEnds: a cable is in at every poll, because the wait for one has no bound and a
  pulled one ends the run at once; and no run is longer than 2 to the 32 milliseconds.
- Framebuffer addressing and 32-bit overflow of screen coordinates in the line drawing.
- The stub's size check before the first boot, and the diagnostic boot's own result, which only selects
  what is printed.
- The straight-line probes, menus, reports, the keyed diagnosis table and the verdict maximum: easy
  members that would add nothing hard.
- PRODINFO, key files, file systems, the RAM test, the loader and the host viewer are not part of this
  model.

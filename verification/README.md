# The machine state of rusty_box, modelled in Dafny

rusty_box is a Rust port of the Bochs PC emulator. This project models the state
machines in it that the rest of the emulator trusts without checking, and proves what
they promise: over every run, every input, or every byte stream, not for examples.

`dafny verify dfyconfig.toml` checks the whole project.

## What is modelled

**The timer wheel** (`rusty_box/src/pc_system.rs`). The wheel skips time in
countdown-sized jumps and only looks at its timers when the countdown runs out.
`Wheel` gives each operation as a function on states; `PcSystem` is the object itself,
with its arrays, loops and updates in place, every method proved to compute its function.
`WheelRefinement` proves the jumps equal to a wheel that looks at every timer on every
tick. `WheelRuns` proves that no mix of operations leaves a timer overdue.
`WheelAccounts` proves fires conserved exactly while their counts fit, and that the fire
queue cannot overflow; `WheelLoss` has a run in which one is lost. `WheelSchedule` says
which tick each arming operation arms a timer for, and `WheelArming` how often it then
fires over any run that leaves it alone, and that a disarmed one is silent. `WheelSnapshot` proves the hand-written state validator exact, and
`WheelCodec` the save format a bijection onto its valid states.

**The interrupt controllers** (`rusty_box/src/pic.rs`). `Pic8259` has one chip, its
wrap-around scans proved against the rotated-priority meaning of the Intel 8259A;
`PicPair` the cascaded pair and the object; `PicRuns` that no interrupt is lost across
the cascade; `PicNesting` that fully nested service is a stack; `PicAcknowledge` that the
vector answered names the line that goes into service, from the block of eight written as
ICW2; `PicCommands` what the ends of interrupt, rotations and mask writes mean; `PicCodec`
the save format; `PicVectors` which restored vector bases are safe.

**The snapshot container** (`rusty_box/src/snapshot.rs`, `rusty_box_core/src/snap.rs`).
`Wire` has the scalars, `Container` the printer and parser with the exact set of streams
accepted, `ContainerIO` the readers and writers that count down their bounds,
`MemorySection` the residency map, and `Snapshot` a whole machine through all of them.
`Layouts` says at which byte each field of them stands.

**The DMA controllers** (`rusty_box/src/dma.rs`). `Dma8237` has the two chips as
functions; `DmaController` the object; `DmaLines` how requests reach the CPU and which
channel a hold serves; `DmaConservation` what a channel moves over a whole run;
`DmaPages` what becomes of a block that crosses its page; `DmaWords` what a 16-bit channel
moves; `DmaDriver` what a driver's port writes come to; `DmaStranding` short runs that
leave a request waiting.

**Smaller cores.** `Crc` proves the table-driven CRC-32 (`rusty_box/src/crc.rs`) to be
the remainder of polynomial division. `PageTables` proves the tables that
`setup_flat_long64` writes (`rusty_box/src/emulator_api.rs`) to be an identity map under
the 4-level walk of section 4.5 of the Intel SDM, volume 3A. `Clock` covers the tick and
microsecond conversions (`rusty_box_core/src/time.rs`) and `GpaPlan` the acceptance of
guest-physical plans (`rusty_box_core/src/engine.rs`).

`Base`, `Arith` and `Sets` hold what the others share; `TimerTypes` and `TimerWire` the
wheel's records and the wire codes of its owners.

Integers are unbounded in the model, so 8-, 16-, 32- and 64-bit wrap-around, truncation and
saturation are written out wherever the code has them. Sets of interrupt lines or DMA
channels stand for bit masks. A run of the wheel has one demand, because the code adds
ticks without a check: for the ticks asked for, the clock with its longest jump, and the
next deadline of each continuous timer that comes due, stay below 2^64 (`Headroom`).

## Where the code does not do what one might expect

Each of these is a lemma. Where the expectation holds in part, the lemma says exactly when.

- `initialize` on a wheel in use moves the next event without looking at the timers
  (`WheelRuns.InitializeMidRun`).
- A count of fires that outgrows 32 bits between two drains loses fires
  (`WheelAccounts.FiresAreConserved`, `WheelLoss.FireLostReachably`).
- The registration discipline has to include timer names without an interior zero byte,
  or the machine can no longer be saved (`WheelAccounts.DisciplineIsExact`, `CleanNames`).
- Leaving an acknowledge through the slave's spurious vector can strand a request at the
  master, and so can a set-priority command (`PicRuns.SlaveSpuriousStrandsUnlessSilenced`,
  `PicRuns.SetPriorityStrandsUnlessOutranked`).
- Initializing either controller while the slave asserts INT leaves the slave's INT and its
  line at the master out of step, as does driving line 2 against it; initializing the master
  so loses the slave's request (`PicRuns.WiresExactly`, `PicRuns.Icw1Exactly`,
  `PicRuns.ReprogrammingLosesReachably`).
- INT stays high for a line that its device withdraws, or that is masked, while another
  waits; the acknowledge then still takes that line and answers its vector
  (`PicAcknowledge.FreshExactly`, `PicAcknowledge.StaleLineIsTakenReachably`).
- A rotating non-specific end of interrupt turns the order by one line. It makes the level
  it retires the least urgent only if that was the most urgent line of all
  (`PicCommands.RotatingEndTurnsByOne`, `PicCommands.RotationMissesReachably`).
- Restoring the controllers does not check their vector bases
  (`PicVectors.RestoredVectorsFitExactly`).
- A DMA1 request that is masked after it was passed on leaves the cascade requested. It
  wins arbitration and has nothing to serve, so channels 5 to 7 are not
  granted, although HRQ is high, until that request is dropped or unmasked
  (`DmaLines.NoLostRequest`, `DmaStranding.MaskedRequestStarves`).
- Withdrawing channel 4's request while DMA1 waits, from a device, through the request
  register or by clearing DMA2, leaves DMA1 waiting for nothing
  (`DmaLines.StepKeepsLines`, `DmaStranding.CascadeWithdrawnStrands`).
- A DMA count that expires withdraws the hold request although other channels of that
  chip still wait; the next request change on the chip makes it good
  (`DmaLines.ExpiryStrandsUnlessAlone`, `DmaLines.NextRequestRecovers`).
- A DMA count of 0xFFFF moves nothing (`DmaConservation.FullCountNeverMoves`), and a
  grant that begins past the end of its 64 KiB page goes to the start of the same page
  (`DmaConservation.GrantGoesTo`). Over a run every byte is in its place iff each grant that
  moved anything began within the page (`DmaPages.InPlaceExactly`,
  `DmaPages.CrossingIsReachable`).
- A DMA2 block of 32768 words or more never completes: its length is computed in 16 bits of
  bytes, and with 32768 words left the device is asked for none
  (`DmaWords.AskedUntilComplete`, `DmaWords.WordConservation`, `DmaWords.LargeBlockStalls`).
- A DMA2 write moves its registers by words but writes as many bytes, so half of the data
  does not reach memory (`DmaWords.HalfIsWritten`, `DmaWords.GrantsLeaveGaps`).
- `clock_reading_micros` is documented to read back exactly; it does so for every time
  exactly on machines faster than 1 MHz (`Clock.ReadsBackAlways`).
- A window that runs off the address space is documented as rejected; a plan with no
  other window accepts it (`GpaPlan.LoneWindowMayRunOff`).

## Model

| member | source | states |
|---|---|---|
| `WheelRefinement.FiresAgree` | rusty_box/src/pc_system.rs:789-803 | with no timer overdue the `>=` test is `==` and the catch-up loop runs once |
| `WheelRefinement.EventKeepsInv` | rusty_box/src/pc_system.rs:771-841 | a countdown event leaves a countdown that skips no active deadline |
| `WheelRefinement.Tick1Refines` | rusty_box/src/pc_system.rs:760-768 | one tick of the countdown wheel is one tick of the wheel that visits every timer |
| `WheelRefinement.TicksRefine` | rusty_box/src/pc_system.rs:745-862 | any number of ticks gives the clock, the timers and the fire queue of the reference wheel |
| `WheelRefinement.TicksCoast` | rusty_box/src/pc_system.rs:745-757 | short of the next event ticking changes nothing but the countdown |
| `WheelRefinement.TicksToEvent` | rusty_box/src/pc_system.rs:745-768 | ticking once for every count left is exactly one countdown event, so a jump is as good as single ticks |
| `WheelRefinement.TicksAdd` | rusty_box/src/pc_system.rs:745-757 | ticking is the same however it is split into calls |
| `WheelRefinement.ContinuousTimerKeepsPhase` | rusty_box/src/pc_system.rs:789-803 | on the reference wheel a continuous timer's deadline is always its first plus whole periods, the least one ahead |
| `WheelRefinement.FiresOnPhase` | rusty_box/src/pc_system.rs:789-803 | a timer in phase is reached by the next tick iff that tick is a whole number of periods past the first deadline |
| `WheelRuns.NewRuns` | rusty_box/src/pc_system.rs:610-672 | a new and an initialized wheel satisfy the run invariant |
| `WheelRuns.StepRuns` | rusty_box/src/pc_system.rs:1096-1329 | every operation, successful or refused, keeps the run invariant |
| `WheelRuns.NeverOverdue` | rusty_box/src/pc_system.rs:771-841 | in every run the countdown is between 1 and its period and no active timer is due before the next event |
| `WheelRuns.InitializeMidRun` | rusty_box/src/pc_system.rs:655-672 | initializing a wheel in use keeps the invariant iff no device timer is armed before the null timer's first deadline |
| `WheelRuns.InitializeMidRunIsReachable` | rusty_box/src/pc_system.rs:655-672 | one registration with a nearer deadline, then initializing again, breaks it |
| `WheelRuns.StepRearms` | rusty_box/src/pc_system.rs:1165-1308 | arming operations touch nothing but their own timer and the countdown, never the registry or the queue |
| `WheelRuns.UndisturbedTimerKeepsPhase` | rusty_box/src/pc_system.rs:789-803 | over any run that does not name it, a continuous timer fires at its first deadline plus whole periods |
| `WheelRuns.UndisturbedTimerFires` | rusty_box/src/pc_system.rs:789-803 | after any such run the next tick fires it iff that tick is a whole number of periods past the first deadline |
| `WheelArming.TimerFiresWhenDue` | rusty_box/src/pc_system.rs:743-862 | over any run that does not name it, a timer is reached by as many ticks as it is armed for: none, one once its deadline is passed, or one at the deadline and every period after |
| `WheelArming.OwnerHearsSlot` | rusty_box/src/pc_system.rs:843-862 | over disciplined runs the deadlines an owner's timers reach are those of its one timer |
| `WheelArming.OwnerGetsItsFires` | rusty_box/src/pc_system.rs:843-862 | so its owner is dispatched or has queued exactly those fires, iff they can be counted |
| `WheelSchedule.ArmingSchedules` | rusty_box/src/pc_system.rs:1165-1287 | each arming operation arms for the tick its arguments mean: from now, absolute, from the last deadline, or a span in whole ticks; it is refused without change iff a time does not fit in 64 bits |
| `WheelSchedule.NamesOnlySlotsInUse` | rusty_box/src/pc_system.rs:1056-1067 | an operation is refused by slot iff the slot is out of range, the null timer or not in use, each with its own error |
| `WheelSchedule.ArmedTimerFires` | rusty_box/src/pc_system.rs:1165-1287 | after arming, over any run that leaves the slot alone, the timer fires first on that tick, then never or every period |
| `WheelSchedule.ArmedTimerKeepsPhase` | rusty_box/src/pc_system.rs:1165-1287 | a continuous timer keeps the phase of the tick it was armed for |
| `WheelSchedule.RegistrationSchedules` | rusty_box/src/pc_system.rs:1096-1163 | registering takes the lowest free slot, first tick one period from now; refused without change iff no slot is free or a time does not fit |
| `WheelSchedule.RegisteredTimerFires` | rusty_box/src/pc_system.rs:1096-1163 | a timer registered armed fires first one period later; one registered unarmed is silent |
| `WheelSchedule.NameKept` | rusty_box/src/pc_system.rs:1096-1141 | of a name up to 31 bytes are kept, then zeros |
| `WheelSchedule.DisarmedStaysSilent` | rusty_box/src/pc_system.rs:1304-1312 | after disarming, over any run that leaves the slot alone, no tick reaches it, and it can be withdrawn at any point |
| `WheelSchedule.DisarmedOwnerHearsNothing` | rusty_box/src/pc_system.rs:1304-1312 | under the discipline its owner's timers reach nothing |
| `WheelSchedule.WithdrawsSlot` | rusty_box/src/pc_system.rs:1314-1332 | withdrawing is taken iff the slot is in use and not armed; the slot is then the lowest free one unless a lower is |
| `WheelAccounts.QueueNeverFull` | rusty_box/src/pc_system.rs:843-862 | every queued owner holds a slot besides the null timer's, so the full-queue branch is unreachable |
| `WheelAccounts.StepTidy` | rusty_box/src/pc_system.rs:1096-1137 | every disciplined operation keeps owners unique, names clean and queued fires owned |
| `WheelAccounts.RunTidy` | rusty_box/src/pc_system.rs:843-862 | over every disciplined run the books stay tidy and the queue has room |
| `WheelAccounts.DisciplineIsExact` | rusty_box/src/pc_system.rs:1096-1137 | a successful operation keeps the books tidy iff it is disciplined |
| `WheelAccounts.CleanNames` | rusty_box/src/pc_system.rs:347-363 | which names leave no byte after an interior zero once padded |
| `WheelAccounts.FiresAreConserved` | rusty_box/src/pc_system.rs:843-862 | over every run, fires drained for an owner plus those queued never exceed those queued at first plus the deadlines its timers reached, and equal them iff no count between drains outgrows 32 bits |
| `WheelAccounts.QueueKeepsOrder` | rusty_box/src/pc_system.rs:843-862 | ticking adds owners at the end of the queue and never reorders those that wait |
| `WheelLoss.FireLostReachably` | rusty_box/src/pc_system.rs:843-862 | a disciplined run from power-on that loses a fire: a timer for every tick, then two calls of together 2^32 ticks or more with no drain between |
| `WheelLoss.NewTidy` | rusty_box/src/pc_system.rs:610-672 | a new wheel's registry and queue are in order, so disciplined runs start there |
| `WheelSnapshot.ValidatorIsExact` | rusty_box/src/pc_system.rs:373-530 | the validator accepts a state with no timer mid-dispatch iff it satisfies all that runs preserve |
| `WheelSnapshot.ReachableStatesValidate` | rusty_box/src/pc_system.rs:373-530 | every state a disciplined run reaches can be saved, stale countdowns included |
| `TimerWire.OwnerWireBijection` | rusty_box/src/pc_system.rs:222-344 | owners and their wire codes correspond one to one, out-of-range codes refused |
| `WheelCodec.SaveThenRestore` | rusty_box/src/pc_system.rs:1527-1680 | every valid state, saved and restored at the same rate, comes back, with following bytes untouched |
| `WheelCodec.RestoreThenSave` | rusty_box/src/pc_system.rs:1581-1680 | every accepted payload is a valid state of that rate and exactly the bytes saving it writes |
| `WheelCodec.PayloadLength` | rusty_box/src/pc_system.rs:1476-1525 | the payload has exactly the announced length |
| `PcSystem.PcSystem.constructor` | rusty_box/src/pc_system.rs:610-653 | a new object is the new wheel, with one null timer |
| `PcSystem.PcSystem.RecordFiredOwner` | rusty_box/src/pc_system.rs:843-862 | one more fire for an owner: merged, appended, saturated or dropped as the queue requires |
| `PcSystem.PcSystem.AdvanceDeadline` | rusty_box/src/pc_system.rs:795-801 | the catch-up loop lands on the least deadline past the clock |
| `PcSystem.PcSystem.ScanTimers` | rusty_box/src/pc_system.rs:783-818 | one pass over the registered prefix fires every due timer, flags it and finds the earliest deadline left |
| `PcSystem.PcSystem.RecordTriggered` | rusty_box/src/pc_system.rs:828-840 | the flagged range yields the fires of all due timers in slot order |
| `PcSystem.PcSystem.CountdownEvent` | rusty_box/src/pc_system.rs:771-841 | the event in place is the event on values |
| `PcSystem.PcSystem.Tick1` | rusty_box/src/pc_system.rs:760-768 | one tick in place, with the invariant kept |
| `PcSystem.PcSystem.TickN` | rusty_box/src/pc_system.rs:745-757 | the jump loop ends in the state of n single ticks and of the reference wheel |
| `PcSystem.PcSystem.TakeFiredTimers` | rusty_box/src/pc_system.rs:1452-1463 | draining hands over exactly the queued fires in order and empties the queue |
| `PcSystem.PcSystem.ShortenCountdownTo` | rusty_box/src/pc_system.rs:1077-1090 | the countdown is shortened to a nearer deadline and the clock does not move |
| `PcSystem.PcSystem.ActivateTimerAtTicks` | rusty_box/src/pc_system.rs:1165-1190 | arming at a deadline, with each refusal |
| `PcSystem.PcSystem.ActivateTimerAtTicksWithPeriod` | rusty_box/src/pc_system.rs:1193-1206 | arming with a separate period |
| `PcSystem.PcSystem.ActivateTimer` | rusty_box/src/pc_system.rs:1209-1223 | arming a period from now, in place, as `ArmingSchedules` means it |
| `PcSystem.PcSystem.ActivateTimerIn` | rusty_box/src/pc_system.rs:1226-1265 | arming in microseconds or nanoseconds, in place, overflow reported, as `ArmingSchedules` means it |
| `PcSystem.PcSystem.ReactivateTimerRelative` | rusty_box/src/pc_system.rs:1268-1287 | re-arming from the last deadline |
| `PcSystem.PcSystem.DeactivateTimer` | rusty_box/src/pc_system.rs:1304-1312 | disarming in place: the timer is not armed, nothing else changed, as `DisarmedStaysSilent` needs it |
| `PcSystem.PcSystem.UnregisterTimer` | rusty_box/src/pc_system.rs:1314-1331 | withdrawing frees the slot and trims the registered prefix |
| `PcSystem.PcSystem.RegisterTimer` | rusty_box/src/pc_system.rs:1096-1137 | registering takes the first free slot, or fails without change |
| `PcSystem.PcSystem.Save` | rusty_box/src/pc_system.rs:1527-1578 | a payload of the announced length iff the state validates |
| `PcSystem.PcSystem.Restore` | rusty_box/src/pc_system.rs:1581-1680 | an accepted payload becomes the state; a refused one leaves the object unchanged |
| `Pic8259.ClearHighestInterrupt` | rusty_box/src/pic.rs:280-300 | the wrap-around loop clears exactly the most urgent bit in service, if any |
| `Pic8259.BlockingLine` | rusty_box/src/pic.rs:312-339 | the scan for the first line in service finds where requests stop being eligible |
| `Pic8259.ScanRequests` | rusty_box/src/pic.rs:340-377 | the scan finds the most urgent eligible request, or none |
| `Pic8259.Service` | rusty_box/src/pic.rs:312-377 | INT is raised iff something is eligible, for the rotated-highest such line; dropped when nothing is unmasked |
| `Pic8259.LinesOfByte` | rusty_box/src/pic.rs:1094-1129 | sets of lines and register bytes correspond |
| `PicRuns.ServeSettles` | rusty_box/src/pic.rs:312-377 | servicing any chip leaves it with INT high or nothing eligible |
| `PicRuns.StepKeeps` | rusty_box/src/pic.rs:506-536 | every permitted operation keeps slave INT equal to master request 2, and settled chips settled unless the slave-spurious exit strands a request |
| `PicRuns.WiresExactly` | rusty_box/src/pic.rs:506-536 | apart from set-priority, an operation keeps slave INT equal to master request 2 iff it is permitted: line 2 follows the slave, stays edge triggered, and nothing is initialized while the slave asserts |
| `PicRuns.Icw1Exactly` | rusty_box/src/pic.rs:625-657 | initializing either chip keeps the wires in step iff the slave does not assert |
| `PicRuns.ReprogrammingLosesReachably` | rusty_box/src/pic.rs:625-657 | from power-on, initializing the master loses the slave's request |
| `PicRuns.RunKeeps` | rusty_box/src/pic.rs:871-940 | the same over every permitted run; after a stranding, until any step services or empties the master |
| `PicRuns.NoLostInterrupt` | rusty_box/src/pic.rs:989-1079 | in every permitted run an eligible slave request is at the master, and an eligible master request has INT raised |
| `PicRuns.QuietExactlyWhenOutranked` | rusty_box/src/pic.rs:312-377 | nothing is eligible iff nothing is requested unmasked or the first in service outranks the first request |
| `PicRuns.SlaveSpuriousStrandsUnlessSilenced` | rusty_box/src/pic.rs:1040-1056 | after the slave-spurious exit the master is settled iff the cascade silences all that was eligible |
| `PicRuns.SlaveSpuriousIsReachable` | rusty_box/src/pic.rs:1040-1056 | a short run from power-on reaches a state where it does not |
| `PicRuns.SetPriorityStrandsUnlessOutranked` | rusty_box/src/pic.rs:706-790 | a set-priority command leaves a chip settled iff INT was high, nothing was requested unmasked, or in the new order service outranks the requests (in special mask mode: all of them were in service) |
| `PicRuns.SetPriorityStrandsReachably` | rusty_box/src/pic.rs:706-790 | five steps from power-on end in such a stranding |
| `PicRuns.ServicedIsSettled` | rusty_box/src/pic.rs:506-536 | the master is settled after every step that services or empties it, a new request through the cascade included |
| `PicNesting.StepNests` | rusty_box/src/pic.rs:720-737 | every operation that keeps fixed priority moves the in-service register as its stack |
| `PicNesting.RunNests` | rusty_box/src/pic.rs:989-1079 | the same over every such run |
| `PicNesting.ServiceIsAStack` | rusty_box/src/pic.rs:280-300 | an acknowledge pushes a level above all in service; a non-specific EOI retires exactly the latest |
| `PicAcknowledge.MasterVector` | rusty_box/src/pic.rs:989-1079 | answered by the master, the vector is its base plus the line it took, and the slave is untouched |
| `PicAcknowledge.SlaveVector` | rusty_box/src/pic.rs:1039-1065 | answered by the slave, the vector is its base plus the line it took, and the master took line 2 |
| `PicAcknowledge.VectorNamesTheLine` | rusty_box/src/pic.rs:989-1079 | a line that comes into service, or whose request is taken off, is the one the vector names |
| `PicAcknowledge.SpuriousVector` | rusty_box/src/pic.rs:1010-1050 | with nothing to deliver the vector is seven past the base, and nothing goes into service |
| `PicAcknowledge.LatchesMostUrgent` | rusty_box/src/pic.rs:312-374 | INT rises iff something is eligible, for an eligible line that none outranks |
| `PicAcknowledge.PromptVector` | rusty_box/src/pic.rs:989-1079 | acknowledged at once, the vector is of that line |
| `PicAcknowledge.RaisedLineIsAnswered` | rusty_box/src/pic.rs:871-940 | on an idle pair the acknowledge of a raised line answers it: 0 to 7 from the master's base, 8 to 15 from the slave's |
| `PicAcknowledge.SequenceInitializes` | rusty_box/src/pic.rs:625-657 | the words ICW1 to ICW4 leave a chip initialized, its base the multiple of eight ICW2 lies in, and the other chip's program alone |
| `PicAcknowledge.ProgrammedVectors` | rusty_box/src/pic.rs:818-857 | both chips initialized, then any run that initializes neither: every acknowledge answers from the block of its ICW2, with the line taken or the last of the block |
| `PicAcknowledge.FreshExactly` | rusty_box/src/pic.rs:312-374 | INT stays high only for lines that wait, until exactly a step that withdraws or masks the latched line |
| `PicAcknowledge.AcknowledgesWhatWaits` | rusty_box/src/pic.rs:989-1079 | over runs without such a step, an acknowledge of a raised INT is not spurious and takes a line that is requested and unmasked |
| `PicAcknowledge.StaleLineIsTakenReachably` | rusty_box/src/pic.rs:989-1079 | from power-on, a line withdrawn while another waits is still taken and answered |
| `PicCommands.EndRetiresMostUrgent` | rusty_box/src/pic.rs:718-737 | 0x20 retires exactly the most urgent level in service |
| `PicCommands.SpecificEndRetires` | rusty_box/src/pic.rs:742-776 | 0x60 to 0x67 retire the level named; 0xE0 to 0xE7 also make it the least urgent |
| `PicCommands.SetPriorityMakesLast` | rusty_box/src/pic.rs:754-762 | 0xC0 to 0xC7 make the line named the least urgent and retire nothing |
| `PicCommands.RotatingEndTurnsByOne` | rusty_box/src/pic.rs:718-737 | 0xA0 retires the most urgent level and turns the order by one; that level becomes the least urgent iff it was the most urgent line of all |
| `PicCommands.RotationMissesReachably` | rusty_box/src/pic.rs:718-737 | from power-on, 0xA0 with line 3 in service makes line 0 the least urgent |
| `PicCommands.AutomaticRotation` | rusty_box/src/pic.rs:708-716 | 0x80 and 0x00 switch rotation, which makes the line taken the least urgent under automatic EOI |
| `PicCommands.MaskReadsBack` | rusty_box/src/pic.rs:795-816 | line l is masked iff bit l of the byte is set, and the mask reads back as written |
| `PicCommands.SelectsRegister` | rusty_box/src/pic.rs:659-698 | 0x0A selects the requests for reading, 0x0B the levels in service |
| `PicCommands.SwitchesSpecialMask` | rusty_box/src/pic.rs:659-698 | 0x68 enters special mask mode and 0x48 leaves it |
| `PicPair.Controller.Raise` | rusty_box/src/pic.rs:871-902 | raising a line in place, with the edge reported to the IOAPIC |
| `PicPair.Controller.Lower` | rusty_box/src/pic.rs:920-942 | lowering a line in place, without a service |
| `PicPair.Controller.ServicePicDispatch` | rusty_box/src/pic.rs:506-527 | servicing a chip and following its INT through the cascade |
| `PicPair.Controller.WriteOcw2` | rusty_box/src/pic.rs:706-790 | every end-of-interrupt and priority command |
| `PicPair.Controller.WriteCommand` | rusty_box/src/pic.rs:625-703 | command writes: ICW1, OCW3 or OCW2 |
| `PicPair.Controller.WriteDataPort` | rusty_box/src/pic.rs:794-868 | data writes: the next ICW or the mask |
| `PicPair.Controller.Read` | rusty_box/src/pic.rs:544-591 | port reads, the polled acknowledge included |
| `PicPair.Controller.InterruptAcknowledge` | rusty_box/src/pic.rs:989-1079 | the acknowledge cycle through both chips in place, both spurious exits included, its vector as `ProgrammedVectors` means it |
| `PicCodec.RunStaysProgrammed` | rusty_box/src/pic.rs:818-868 | in every run vector bases stay multiples of eight, the ICW phase coherent, and every vector fits a byte |
| `PicCodec.SaveThenRestore` | rusty_box/src/pic.rs:1094-1198 | every pair whose ICW phase is coherent comes back unchanged, following bytes untouched |
| `PicCodec.PayloadIs66Bytes` | rusty_box/src/pic.rs:1087-1092 | the section is 66 bytes |
| `PicCodec.ReachablePairsRoundTrip` | rusty_box/src/pic.rs:1131-1198 | every pair a run reaches can be restored |
| `PicCodec.RestoreInto` | rusty_box/src/pic.rs:1131-1198 | an accepted section becomes the controllers' state; a refused one leaves them unchanged |
| `PicVectors.RestoredVectorsFitExactly` | rusty_box/src/pic.rs:1131-1198 | any base is restored as saved, and no run from the restored pair asks for a vector beyond a byte iff both bases are at most 248 |
| `PicVectors.MasterOverflows` | rusty_box/src/pic.rs:1000-1018 | with a larger master base, ICW1 and an acknowledge do |
| `PicVectors.SlaveOverflows` | rusty_box/src/pic.rs:1036-1050 | with a larger slave base, a request withdrawn before its acknowledge does |
| `Wire.ReadsWhatWasWritten` | rusty_box_core/src/snap.rs:68-165 | any record of scalars is read back from the bytes written for it, and nothing beyond |
| `Wire.WritesWhatWasRead` | rusty_box_core/src/snap.rs:109-165 | whatever is read is exactly what writing it makes; booleans other than 0 and 1 are refused |
| `Wire.DigitAt` | rusty_box_core/src/snap.rs:82-100 | byte i of an integer written is its digit of weight 256^i |
| `Wire.ReadsItsWorth` | rusty_box_core/src/snap.rs:134-160 | an integer read is the sum of its bytes at those weights |
| `Wire.FieldValue` | rusty_box_core/src/snap.rs:67-101 | a field of a record stands right after those before it, and its bytes are worth its value |
| `Container.ParsesWhatItPrints` | rusty_box/src/snapshot.rs:545-682 | each known section gets exactly its own bytes, unknown sections anywhere are ignored |
| `Container.AcceptsExactlyWhatIsPrinted` | rusty_box/src/snapshot.rs:545-682 | a stream is accepted iff it is a header and framed sections, known ones once each in order, bodies bounded and consumed exactly, nothing after |
| `ContainerIO.BoundedReader.ReadBytes` | rusty_box/src/snapshot.rs:309-319 | a read within the bound takes exactly its bytes; any other takes none |
| `ContainerIO.BoundedReader.Discard` | rusty_box/src/snapshot.rs:295-303 | the chunked loop skips exactly the rest of the section |
| `ContainerIO.DecodeSection` | rusty_box/src/snapshot.rs:279-307 | a section is accepted iff bounded, present and consumed exactly |
| `ContainerIO.LoadSection` | rusty_box/src/snapshot.rs:565-676 | one turn of the section loop |
| `ContainerIO.RestoreSnapshot` | rusty_box/src/snapshot.rs:545-682 | the loop accepts exactly what the parser accepts |
| `ContainerIO.BoundedWriter.WriteBytes` | rusty_box/src/snapshot.rs:322-331 | a write beyond the announced length is refused whole |
| `ContainerIO.WriteSection` | rusty_box/src/snapshot.rs:335-364 | a section is written iff its body has exactly the announced, bounded length; which error otherwise |
| `MemorySection.PayloadLength` | rusty_box/src/snapshot.rs:378-393 | the payload is 44 + 5 per block + guest memory, because block lengths sum to guest memory |
| `MemorySection.CheckedAsItComes` | rusty_box/src/snapshot.rs:428-443 | checking each slot against those seen before accepts exactly the maps that are injective and fit |
| `MemorySection.CountMeansExact` | rusty_box/src/snapshot.rs:444 | the final count test holds iff the slots taken are exactly those below the count |
| `MemorySection.RestoreBlocks` | rusty_box/src/snapshot.rs:424-444 | the loop accepts iff residents map one to one onto slots 0 to used-1, each inside host memory |
| `MemorySection.RestoreMemory` | rusty_box/src/snapshot.rs:414-446 | the whole section is accepted iff its geometry matches too |
| `MemorySection.SaveThenRestore` | rusty_box/src/snapshot.rs:399-446 | memory comes back block for block and slot for slot |
| `Snapshot.MachineRoundTrip` | rusty_box/src/snapshot.rs:482-682 | a valid machine's snapshot is accepted and memory, timers and interrupt controllers come back as saved |
| `Snapshot.MachineRestores` | rusty_box/src/snapshot.rs:545-682 | the same with the three section codecs written out |
| `Snapshot.RunningMachineIsValid` | rusty_box/src/snapshot.rs:482-504 | every machine whose timers and controllers got there by running is such a machine |
| `Snapshot.OneBlockIsValid` | rusty_box/src/snapshot.rs:420-446 | a machine of one resident block, whatever it holds, is such a machine as far as memory goes |
| `Layouts.ContainerLayout` | rusty_box/src/snapshot.rs:335-355 | magic, version and count from bytes 0, 8 and 12, then each section after those before it: number, length, bytes |
| `Layouts.TimerParts` | rusty_box/src/pc_system.rs:1527-1575 | the timer payload is clock, lines, counts, timers and queue, from bytes 0, 44, 60, 72 and 72 + 54 per timer |
| `Layouts.ClockLayout` | rusty_box/src/pc_system.rs:1527-1537 | version and rate from bytes 0 and 4 |
| `Layouts.CountdownLayout` | rusty_box/src/pc_system.rs:1527-1537 | countdown and its period from bytes 12 and 16 |
| `Layouts.TimeLayout` | rusty_box/src/pc_system.rs:1527-1537 | ticks and the two microsecond marks from bytes 20, 28 and 36 |
| `Layouts.LineLayout` | rusty_box/src/pc_system.rs:1537-1550 | A20, its mask and the hold requests from bytes 44, 45, 53 and 54 |
| `Layouts.FlagLayout` | rusty_box/src/pc_system.rs:1537-1550 | the pending flags and the reset reason from byte 55 |
| `Layouts.CountLayout` | rusty_box/src/pc_system.rs:1550-1553 | slots, slots below which all in use lie, and the timer being dispatched from bytes 60, 64 and 68 |
| `Layouts.TimerRecordAt` | rusty_box/src/pc_system.rs:1553-1562 | timer i is 54 bytes at 54 i |
| `Layouts.TimerLayout` | rusty_box/src/pc_system.rs:1553-1562 | flags, period, deadline, owner code and argument from bytes 0, 1, 9, 17 and 18 |
| `Layouts.NameLayout` | rusty_box/src/pc_system.rs:1553-1562 | the name from byte 22 |
| `Layouts.QueueLayout` | rusty_box/src/pc_system.rs:1562-1571 | the number of queued fires, then nine bytes each: owner code, argument and count |
| `Layouts.PairLayout` | rusty_box/src/pic.rs:1094-1129 | version, master, slave and pending signals from bytes 0, 4, 32 and 60 |
| `Layouts.ChipParts` | rusty_box/src/pic.rs:1100-1122 | a chip is 28 bytes: base, registers, levels and phase from bytes 0, 6, 13 and 21 |
| `Layouts.ChipBase` | rusty_box/src/pic.rs:1100-1122 | role, base, modes and automatic EOI |
| `Layouts.ChipRegisters` | rusty_box/src/pic.rs:1100-1122 | mask, service and requests a bit a line, then what is read, latched, lowest and INT |
| `Layouts.ChipLevels` | rusty_box/src/pic.rs:1100-1122 | a byte a line |
| `Layouts.ChipPhase` | rusty_box/src/pic.rs:1100-1122 | where initialization has got to, the modes, and the trigger of each line |
| `Layouts.GeometryLayout` | rusty_box/src/snapshot.rs:399-403 | version and the length of guest memory from bytes 0 and 4 |
| `Layouts.HostLayout` | rusty_box/src/snapshot.rs:399-403 | the lengths of host memory and of a block from bytes 12 and 20 |
| `Layouts.BlockCountLayout` | rusty_box/src/snapshot.rs:399-403 | blocks, slots, slots used and next to swap out from bytes 28, 32, 36 and 40 |
| `Layouts.BlocksLayout` | rusty_box/src/snapshot.rs:404-410 | each block after those before it: whether resident, in which slot, then its bytes |
| `DmaLines.ControlSettles` | rusty_box/src/dma.rs:400-434 | re-examining a chip passes on, or has heard, whatever waits on it |
| `DmaLines.RaiseReachesCpu` | rusty_box/src/dma.rs:345-434 | raising a request on DMA1 files HRQ high iff both chips are enabled, the cascade is wired and something on each is unmasked |
| `DmaLines.DropLastFilesLow` | rusty_box/src/dma.rs:345-434 | dropping the last request of the pair, on either chip, files HRQ low |
| `DmaLines.GrantIsLowest` | rusty_box/src/dma.rs:444-475 | a hold serves the lowest requested unmasked channel, DMA1 only through channel 4 |
| `DmaLines.NoLostRequest` | rusty_box/src/dma.rs:400-475 | on a coherent pair a waiting request has HRQ high, and the hold serves a channel iff DMA1 has something eligible or has nothing passed on |
| `DmaStranding.MaskedRequestStarves` | rusty_box/src/dma.rs:400-475 | a tame run from power-on in which a request passed on and then masked keeps every hold from channel 5 |
| `DmaLines.StepKeepsLines` | rusty_box/src/dma.rs:345-624 | an operation, registering a device among them, keeps requests passed on and heard iff it is tame: it does not withdraw the cascade's request while DMA1 waits, nor expire a count while its chip waits |
| `DmaStranding.CascadeWithdrawnStrands` | rusty_box/src/dma.rs:345-434 | a tame run from power-on after which each way to withdraw channel 4's request leaves DMA1 unheard |
| `DmaLines.RunKeepsLines` | rusty_box/src/dma.rs:345-624 | the same over every tame run, levels collected at any time |
| `DmaLines.InitializedIsCoherent` | rusty_box/src/dma.rs:189-260 | a pair just created and initialized starts such a run |
| `DmaLines.ExpiryStrandsUnlessAlone` | rusty_box/src/dma.rs:595-621 | an expiring count keeps requests heard iff nothing else waits on its chip |
| `DmaStranding.ExpiryStrandsReachably` | rusty_box/src/dma.rs:595-621 | a tame run from power-on in which a one-byte transfer strands a second channel |
| `DmaLines.NextRequestRecovers` | rusty_box/src/dma.rs:345-398 | the next request change on the chip restores what an expiry left |
| `DmaConservation.Conservation` | rusty_box/src/dma.rs:444-624 | over every run the registers agree with how many bytes were delivered, within a page those are at consecutive addresses from the block's start, and the count expires once a lap, or without autoinit exactly when the block is complete |
| `DmaConservation.GrantGoesTo` | rusty_box/src/dma.rs:477-484 | a grant begins where the last one ended, or past the end of the page at the page's start; it is in its place iff it begins within the page |
| `DmaPages.InPlaceExactly` | rusty_box/src/dma.rs:477-593 | over every run of a freshly programmed channel, each byte is at the address its place in the block calls for iff every grant that moved anything began within the page |
| `DmaPages.CrossingIsReachable` | rusty_box/src/dma.rs:477-593 | from power-on, two bytes from the last one of a page, delivered one a grant: the second goes to the start of the page |
| `DmaConservation.FreshBlock` | rusty_box/src/dma.rs:764-795 | a freshly programmed channel starts such a run |
| `DmaConservation.ExpiryCompletesBlock` | rusty_box/src/dma.rs:595-621 | at expiry exactly the whole block has moved, and the channel is masked or back at its base |
| `DmaConservation.OnceEachLap` | rusty_box/src/dma.rs:577-593 | an address is written again iff a whole number of laps lie between, and without autoinit never |
| `DmaConservation.RunFillsMemory` | rusty_box/src/dma.rs:513-534 | where no other channel writes, memory holds the last bytes delivered, as many as the block has, each in its place |
| `DmaConservation.WholeStreamHeld` | rusty_box/src/dma.rs:595-621 | without autoinit those are all of them, and the whole block iff the count expired |
| `DmaConservation.FullCountMovesNothing` | rusty_box/src/dma.rs:486-500 | a grant of a channel with count 0xFFFF moves nothing and expires |
| `DmaConservation.FullCountNeverMoves` | rusty_box/src/dma.rs:486-500 | so over every run such a channel moves nothing |
| `DmaController.RegistersLoad` | rusty_box/src/dma.rs:764-795 | address and count written low byte then high after clearing the flip-flop are loaded whole, whatever was there |
| `DmaController.HalvesRebuild` | rusty_box/src/dma.rs:653-678 | two reads from a clear flip-flop give low and high halves that rebuild the register, and change nothing |
| `DmaDriver.DriverPrograms` | rusty_box/src/dma.rs:742-903 | port writes alone, flip-flop, mode, page, address, count and mask, leave any channel of either chip programmed and open, whatever was there, and the other channels and masks as they were |
| `DmaDriver.DriverStartsBlock` | rusty_box/src/dma.rs:742-903 | so for every block and slot of DMA1 they lead to its start |
| `DmaDriver.DriverIsGranted` | rusty_box/src/dma.rs:400-475 | with the cascade opened at its port and nothing more urgent, the device's request brings the hold to the channel |
| `DmaDriver.DriverTransfers` | rusty_box/src/dma.rs:444-624 | and over any run that then leaves its registers alone the block goes to memory |
| `DmaDriver.MaskWrite` | rusty_box/src/dma.rs:820-833 | k written to the mask port opens channel k and 4 + k masks it, no other |
| `DmaDriver.AllMasksPortSets` | rusty_box/src/dma.rs:861-880 | bit k of the all-masks port masks channel k; the clear-masks port opens all |
| `DmaDriver.CommandPortSets` | rusty_box/src/dma.rs:788-799 | bit 2 of the command disables the chip |
| `DmaDriver.RequestPortSets` | rusty_box/src/dma.rs:801-818 | 4 + k requests channel k and k withdraws that |
| `DmaDriver.ClearPortClears` | rusty_box/src/dma.rs:855-859 | a clear masks all, forgets requests, enables, and touches no channel |
| `DmaDriver.WideWrites` | rusty_box/src/dma.rs:736-756 | a word to port 0x0B sets the mode and clears the flip-flop; any other counts by its low byte |
| `DmaWords.WordsAsked` | rusty_box/src/dma.rs:481-497 | a device is asked for no more words than are left, and for some iff some are left, but not 32768 |
| `DmaWords.WordAddress` | rusty_box/src/dma.rs:477-479 | an even page holds 65536 words and an odd one 32768 |
| `DmaWords.WordConservation` | rusty_box/src/dma.rs:444-624 | over every run the registers agree with the words moved, the count expires once a lap, or without autoinit exactly when the block is complete, and a block of 32768 or more words never expires |
| `DmaWords.HalfIsWritten` | rusty_box/src/dma.rs:524-530 | as many bytes are written as words are moved: all of the data iff none was |
| `DmaWords.GrantsLeaveGaps` | rusty_box/src/dma.rs:583-593 | within a page the next grant begins twice as far on as was written |
| `DmaWords.AskedUntilComplete` | rusty_box/src/dma.rs:481-497 | a device is asked until the block is complete iff it has fewer than 32768 words |
| `DmaWords.WideRequestIsGranted` | rusty_box/src/dma.rs:345-475 | a request on channel 5, 6 or 7 brings the hold to it if nothing more urgent waits, the cascade included |
| `DmaWords.WideDriverTransfers` | rusty_box/src/dma.rs:742-903 | the same through the ports of DMA2 |
| `DmaWords.LargeBlockStalls` | rusty_box/src/dma.rs:481-497 | a block of 32768 words programmed through the ports moves nothing over any run |
| `DmaController.ScanRequests` | rusty_box/src/dma.rs:420-433 | the scan finds the lowest requested unmasked channel |
| `DmaController.Controller.SetDrq` | rusty_box/src/dma.rs:345-398 | a request change in place, through the mutual recursion |
| `DmaController.Controller.ControlHrq` | rusty_box/src/dma.rs:400-434 | re-examining a chip in place |
| `DmaController.Controller.RaiseHlda` | rusty_box/src/dma.rs:444-624 | one acknowledged hold in place: the transfer made and the whole new state |
| `DmaController.Controller.WritePort` | rusty_box/src/dma.rs:760-903 | every port write of a byte, in place, as `DriverPrograms` and the port lemmas beside it mean it |
| `DmaController.Controller.Write` | rusty_box/src/dma.rs:742-760 | wide writes: the word split at port 0x0B, the low byte of any other |
| `DmaController.Controller.Register` | rusty_box/src/dma.rs:278-328 | a device takes a free channel, or is refused without change |
| `Crc.ShiftsAreLinear` | rusty_box/src/crc.rs:20-31 | shifting any number of steps distributes over exclusive or |
| `Crc.BitPlace` | rusty_box/src/crc.rs:20-33 | the bits of a word, most significant first |
| `Crc.MessagePlace` | rusty_box/src/crc.rs:52-59 | the message is fed symbol by symbol in order, most significant bit first |
| `Crc.LookUpIsSteps` | rusty_box/src/crc.rs:55-58 | one table look-up does eight register steps |
| `Crc.DivisionIsUnique` | rusty_box/src/crc.rs:16-36 | quotient and remainder by the generator are the only ones, and long division computes them |
| `Crc.RegisterIsRemainder` | rusty_box/src/crc.rs:53-60 | the register fed bit by bit holds the remainder of long division |
| `Crc.ChecksumIsTheRemainder` | rusty_box/src/crc.rs:47-60 | the checksum is the one word whose complement is the remainder of the preset message |
| `Crc.BuildTable` | rusty_box/src/crc.rs:16-36 | every entry is its index shifted through the generator |
| `Crc.Register` | rusty_box/src/crc.rs:53-60 | the look-up loop computes the checksum of every message, for every generator and symbol width |
| `Crc.Crc32` | rusty_box/src/crc.rs:53-60 | the code's generator and bytes compute the Ethernet checksum |
| `PageTables.WriteWord` | rusty_box/src/emulator_api.rs:624-636 | a 64-bit write lands whole, byte i the digit of weight 256^i, or fails |
| `PageTables.BuildTables` | rusty_box/src/emulator_api.rs:1154-1177 | the nested loops write all entries of all levels and overwrite none, iff memory reaches past them |
| `PageTables.SetupFlatLong64` | rusty_box/src/emulator_api.rs:1154-1212 | the descriptors written afterwards leave the tables alone; no other byte changes |
| `PageTables.IdentityBelow4G` | rusty_box/src/emulator_api.rs:1154-1184 | the walk maps every linear address below 4 GiB to itself, writable, supervisor only |
| `PageTables.NothingAbove4G` | rusty_box/src/emulator_api.rs:1154-1184 | on clear memory nothing from 4 GiB up is mapped |
| `Clock.ArmingReadsBack` | rusty_box_core/src/time.rs:71-134 | a span of u units is over iff the clock reads at least u; at the last tick iff the span does not saturate |
| `Clock.DeadlineNeverEarly` | rusty_box_core/src/time.rs:285-295 | a deadline is later and reads no less than u microseconds later |
| `Clock.DeadlineIsFirst` | rusty_box_core/src/time.rs:285-295 | any earlier tick reads less |
| `Clock.FloorNeverLate` | rusty_box_core/src/time.rs:136-148 | a deadline rounded down never reads more than asked, and one tick more overshoots |
| `Clock.PhaseIsExact` | rusty_box_core/src/time.rs:101-118 | micros * hz + remainder is ticks * 10^6 iff the reading does not saturate |
| `Clock.SyncsLoseNothing` | rusty_box/src/iodev/pit.rs:1107-1155 | however often the timer chip is synchronized on the way, its cursor ends at the clock's absolute reading |
| `Clock.ReadsBackExactly` | rusty_box/src/pc_system.rs:721-732 | a clock set to u reads u iff the rounding is under a microsecond |
| `Clock.ReadsBackAlways` | rusty_box/src/pc_system.rs:721-732 | it does so for every representable time iff the machine is faster than 1 MHz |
| `GpaPlan.OverlapIsSharing` | rusty_box_core/src/engine.rs:164-175 | windows that end overlap iff they share an address |
| `GpaPlan.New` | rusty_box_core/src/engine.rs:212-238 | a plan is accepted iff all windows are sound and none overlap; otherwise the first offence is named |
| `GpaPlan.OrderDoesNotMatter` | rusty_box_core/src/engine.rs:212-238 | acceptance does not depend on window order |
| `GpaPlan.AtMostOne` | rusty_box_core/src/engine.rs:148-153 | at most one window of an accepted plan contains an address |
| `GpaPlan.WindowAtIsTheOne` | rusty_box_core/src/engine.rs:264-267 | the window found is the one that contains the address, wherever it stands |
| `GpaPlan.NoneRunsOff` | rusty_box_core/src/engine.rs:164-175 | in a plan of two or more windows none runs off the address space |
| `GpaPlan.TotalNeverOverflows` | rusty_box_core/src/engine.rs:257-260 | the total of an accepted plan never overflows |
| `GpaPlan.TotalIsMapped` | rusty_box_core/src/engine.rs:257-260 | the total is the number of addresses mapped iff no window reaches past the last one |
| `GpaPlan.ServedIsContained` | rusty_box_core/src/engine.rs:148-153 | the addresses counted for a window are those it contains |
| `GpaPlan.LoneWindowMayRunOff` | rusty_box_core/src/engine.rs:167-173 | a lone window that runs off is accepted |

## Left out

- Which `SnapError` a refused payload is reported with, and how far reading got; a refusal is `None`.
- The sections of the snapshot other than memory, timers and interrupt controllers: each is an arbitrary decoder that cannot read past its window.
- `finish_snapshot_restore` and the checks between devices after all sections are read.
- PicCodec.SaveThenRestore: the list of IOAPIC edges a restore collects is empty on this path and is otherwise not interpreted.
- The byte-per-line `irq_in` array of the interrupt controllers is a set of raised lines.
- DmaConservation.Conservation: is about incrementing write channels of DMA1; those of DMA2, the count 0xFFFF and blocks that cross their page have their own lemmas, and grants of every other kind are steps of the model.
- DMA port reads other than current address and count, and withdrawing a registered channel.
- DMA handlers are their answers: a buffer and a length no greater than asked for.
- Guest memory behind DMA is a byte at every address; where guest memory ends is not modelled there.
- The CPU state `setup_flat_long64` sets besides memory, and the encoding of segment descriptors.
- Tracing, host errors, and the GUI, CPU, disk and display code of the emulator.

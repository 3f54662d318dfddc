# Verified models of an Android device tree

This project models the self-contained algorithms of an Android device tree (a Motorola OMAP3 phone) in Dafny
and proves what they are for. Values and pure steps are datatypes and functions; the code that works in place
(linked list, ring buffers, pixel loops, boot tags, screen rows, patched code) is modelled by classes and
methods over fields and arrays, each proved equal to its specification function. The main results are lemmas
about those functions, for every input and every run.

- **Charger** (`Alarms.dfy`, `AlarmList.dfy`, `Charger.dfy`, `ChargerRuns.dfy`): the timer queue of charge-only
  mode, whose callbacks arm and cancel alarms while it is being drained, the event loop around it, and what a
  user sees of it over a run.
- **Sensors** (`InputEventReader.dfy`, `SensorAK8973.dfy`, `SensorKXTF9.dfy`, `SensorReadings.dfy`,
  `PollContext.dfy`): the mirrored ring buffer, the demultiplexer that may stop in the middle of a SYN group, what
  is reported, and the poll loop.
- **Boot loader** (`Crc32.dfy`, `Images.dfy`, `Vsprintf.dfy`, `Printf.dfy`, `Formats.dfy`, `Atag.dfy`): the CRC and
  its gate, the formatter, and the tag list handed to the kernel.
- **Boot menu** (`FontRle.dfy`, `ScreenLog.dfy`): the font codec and the text overlay.
- **Camera** (`CameraFrames.dfy`, `Yv12.dfy`): the back-pressure and ownership of recording frames, and the
  preview conversion.
- **Backlight module** (`HookCode.dfy`, `Backlight.dfy`): ARM code patching, its trampoline, and the flag that
  guards it.

`Basics.dfy` holds the few types that several modules share. `dafny verify dfyconfig.toml` checks everything.

## Where the code does not do what it seems to promise

The named lemmas show each failure, and give the exact condition under which the promise holds where there is
one; the last two points are how the model treats two odd screen sizes.

- A sensor's buffered events can be stranded by the poll loop: a made-up temperature (or proximity, light)
  event that does not fill the request drops the POLLIN flag while real events are still buffered, and the next
  call sleeps on them (`PollContext.StrandingExample`, from a context just made). `PollContext.VisitStrandsIff`
  has the exact condition for one driver's turn, `PollContext.PollStrandsIff` for a whole call, and
  `PollContext.NeverStrandedIff` what a caller can tell before it.
- The flag that keeps buffered events from being stranded can itself put a call to sleep. The input devices are
  opened without O_NONBLOCK (`libsensors/SensorBase.cpp:105`), and every readEvents calls read() if there is a
  free slot, whatever is buffered (`libsensors/InputEventReader.cpp:52-53`). So a driver that filled a request
  exactly keeps its flag, and the next call sleeps in its read() if the device has nothing: with an event
  buffered (`PollContext.LeftoverFlagSleeps`), or already collected (`PollContext.SleepsWithEventCollected`).
  `PollContext.CallSleepsInReadIff` has the exact condition. With events owed, the next call returns, and with an
  event, exactly if it comes to no such read() (`PollContext.PollDelivers`).
- `hook_exit` undoes `hook_init` exactly if no two table entries share a function, because both loops run
  forward (`Backlight.RoundTripRestoresIff`). The table of this module has one entry.
- `hook` flushes the instruction cache for the patched word only. Old contents of the trampoline's own two
  words run instead of it (`HookCode.StaleTrampolineHangs`). The trampoline works exactly if the instruction side
  has cached nothing of the two, or for the first the moved word and for the second a jump or branch back
  (`HookCode.HookWorksIff`).
- A first instruction that depends on its place does not survive the move: a branch never does, and
  `LDR PC, [PC, #-4]` only in front of another such word (`HookCode.PlacedFirstWord`).
- The recovery flag in the last boot tag is one byte, `tag_size` rounds it away, and `ATAG_NONE` overwrites it:
  it reads back exactly if it was 0 (`Atag.CidReadsBackIff`).
- A `*` width in a format is not skipped by `vsprintf`: it ends the directive, is printed as `%*`, and the
  argument is lost; a precision's star goes the same way (`Printf.StarIsPrinted`, `Printf.StarPrecisionIsPrinted`).
- `ui_print_overwrite` on a screen one column wide formats into a buffer of size 0 and then prints whatever the
  buffer held; the model passes that text in as `stale`.
- With a one-row screen `text_top` stays 1 instead of (`text_row` + 1) mod rows (`ScreenLog.EveryRunHolds`
  says both); rows are still read correctly, because readers reduce modulo the row count, and
  `ScreenLog.ScreenShowsEnd` covers every size.

## Model

| member | source | states |
|---|---|---|
| Alarms.BeforeIsOrderOfTotals | charge_only_mode/alarm.c:50-54 | for normalised times, the comparison by seconds and then microseconds is the order of total microseconds |
| Alarms.DeadlineIsClockPlusDelay | charge_only_mode/alarm.c:81-86 | the carry keeps a deadline normalised and exactly ms milliseconds after the clock |
| Alarms.MillisUntilWithinOne | charge_only_mode/alarm.c:62-73 | the returned delay differs from the true remaining time by strictly less than one millisecond |
| Alarms.InsertOrdered | charge_only_mode/alarm.c:90-109 | arming keeps the queue in deadline order, the new alarm behind all with the same deadline, and adds it and nothing else |
| Alarms.WithoutMembers | charge_only_mode/alarm.c:113-135 | cancelling removes exactly the alarms of that callback |
| Alarms.ApplyWellFormed | charge_only_mode/alarm.c:75-135 | arming and cancelling keep the queue's invariant |
| Alarms.DueIsExpired | charge_only_mode/alarm.c:49-55 | on an ordered queue, the prefix the loop takes is exactly the set of expired alarms |
| Alarms.CallbackKeepsDue | charge_only_mode/alarm.c:49-59 | a callback that only arms alarms for later leaves strictly fewer expired alarms, so the drain ends |
| Alarms.DrainFiresExactlyDue | charge_only_mode/alarm.c:43-60 | as long as callbacks arm alarms only for later than the drain's clock (`RearmsLater`; the four callbacks do, by Charger.CallbacksRearmLater), a drain fires exactly the alarms expired at its start and not cancelled by an earlier callback, in deadline order with ties in arming order |
| Alarms.DrainLeavesReplay | charge_only_mode/alarm.c:43-60 | under the same hypothesis, what stays behind is the unexpired queue with all calls replayed in order, and nothing in it is expired |
| AlarmList.AlarmList.SetRelative | charge_only_mode/alarm.c:75-111 | the heap list becomes the queue with the alarm inserted; earlier nodes stay allocated and linked |
| AlarmList.AlarmList.Cancel | charge_only_mode/alarm.c:113-135 | the heap list becomes the queue without that callback; the result is how many were removed, each freed once |
| AlarmList.AlarmList.TimeUntilNext | charge_only_mode/alarm.c:62-73 | the truncated millisecond difference to the head, or 0x7fffffff |
| AlarmList.AlarmList.TakeDue | charge_only_mode/alarm.c:49-55 | an expired head, and only that, is unlinked and becomes the caller's to free |
| AlarmList.AlarmList.Free | charge_only_mode/alarm.c:58 | only a node that is unlinked and not yet freed can be freed |
| Charger.CallbacksRearmLater | charge_only_mode/main.c:51-103 | every alarm the four callbacks arm lies after the drain's clock |
| Charger.FireBalanced | charge_only_mode/main.c:51-103 | each callback takes balanced alarm counts to balanced ones |
| Charger.DrainKeepsInvariant | charge_only_mode/alarm.c:43-60 | a drain with these callbacks keeps the invariant of the whole program |
| Charger.PowerEventKeepsInvariant | charge_only_mode/main.c:105-127 | a battery check keeps it |
| Charger.WakeupKeyKeepsInvariant | charge_only_mode/main.c:129-138 | the power key's toggle keeps it |
| Charger.WakeupKey2KeepsInvariant | charge_only_mode/main.c:140-146 | the other keys' restart keeps it |
| Charger.StepKeepsInvariant | charge_only_mode/main.c:164-208 | every turn of the main loop keeps it |
| Charger.EveryRunKeepsInvariant | charge_only_mode/main.c:148-208 | over every run from program start: the animation alarm is armed as often as the two brightness alarms together, which is once while the display is lit and the power key's alarm has not run, else never; power-off was asked for if and only if the charger was found unplugged |
| Charger.UnpluggingPowersOff | charge_only_mode/main.c:120-126 | the first check that finds the charger unplugged darkens the display, disarms its three alarms and asks for power-off, once |
| Charger.LoopMeetsDeadlines | charge_only_mode/main.c:164-171 | the loop never sleeps when the head has expired, a full sleep overshoots by less than 1 ms, and it drains only within 1 ms of a deadline, never with no alarm pending |
| ChargerRuns.KeyUpDisarms | charge_only_mode/main.c:183-186 | letting the power key go leaves none of its alarms pending, in any state |
| ChargerRuns.DrainPowerKey | charge_only_mode/main.c:50-103 | no callback arms or cancels the power key's alarm: a drain fires it exactly if its time has come, and keeps it otherwise |
| ChargerRuns.LongPressIff | charge_only_mode/main.c:164-187 | over every run, the power key's alarm goes off in a drain exactly if the key went down on a good battery at least one second earlier, has not come up since, and the alarm has not gone off for that press already |
| ChargerRuns.NothingHeldAtStart | charge_only_mode/main.c:160-162 | the program starts with no press pending |
| ChargerRuns.GlobalsIff | charge_only_mode/main.c:87-127 | over every run, powerup is set exactly if a battery check has found the voltage good, shutdown exactly if one has found the charger unplugged, and the loop is over exactly if it was told to quit or a restart did not fail |
| ChargerRuns.KeysSwitchDisplay | charge_only_mode/main.c:129-146 | volume and camera keys always start the display cycle anew; the power key does so unless the display is in its bright part, and then darkens it and, with the charger gone, requests power-off again |
| ChargerRuns.HandleArms | charge_only_mode/main.c:78-85 | an event arms the display alarms 5 s and 0.5 s ahead when it relights, the power key's alarm 1 s ahead, and nothing else; relighting leaves no older display alarm |
| ChargerRuns.DrainTimed | charge_only_mode/main.c:50-76 | in a drain only the animation re-arms itself, 0.5 s after its callback's clock, and the first brightness alarm arms the second, 10 s after |
| ChargerRuns.DisplayStaysLit | charge_only_mode/main.c:57-85 | over every run from program start the display dims no earlier than 5 s and goes dark by its timer no earlier than 15 s after its cycle was last started |
| ChargerRuns.RunEndsAt | charge_only_mode/main.c:164-208 | the turn-by-turn states of these theorems are those of the loop |
| Charger.Daemon.constructor | charge_only_mode/main.c:148-162 | start-up leaves the globals and the queue as the run's start state |
| Charger.Daemon.DimAlarm | charge_only_mode/main.c:57-69 | its effect on the globals and the heap list |
| Charger.Daemon.CheckPower | charge_only_mode/main.c:105-127 | its effect on the globals and the heap list |
| Charger.Daemon.StartBrightness | charge_only_mode/main.c:78-85 | its effect on the globals and the heap list |
| Charger.Daemon.RebootAlarm | charge_only_mode/main.c:87-103 | its effect on the globals and the heap list |
| Charger.Daemon.Call | charge_only_mode/alarm.c:57 | the indirect call runs the callback of the alarm |
| Charger.Daemon.FireNext | charge_only_mode/alarm.c:49-59 | if the head has expired, it alone is unlinked, called and freed; otherwise nothing happens |
| Charger.Daemon.AlarmProcess | charge_only_mode/alarm.c:43-60 | the loop over the heap list, re-entered by the callbacks, ends in exactly the state of the drain; every node it unlinked is freed once |
| Charger.Daemon.WakeupKeyPressed | charge_only_mode/main.c:129-138 | its effect, which depends on how many alarms the cancellation found |
| Charger.Daemon.WakeupKey2Pressed | charge_only_mode/main.c:140-146 | its effect on the globals and the heap list |
| Charger.Daemon.HandleEvent | charge_only_mode/main.c:177-207 | each key and battery event has the effect of its handler |
| Charger.Daemon.LoopOnce | charge_only_mode/main.c:164-208 | one turn drains or handles an event, as the delay says |
| Charger.Daemon.MainLoop | charge_only_mode/main.c:164-208 | the whole loop reaches the state of the run |
| InputEventReader.Reader.constructor | libsensors/InputEventReader.cpp:35-42 | an empty FIFO of the given capacity |
| InputEventReader.Reader.Fill | libsensors/InputEventReader.cpp:49-72 | whatever the kernel returns, the FIFO is extended by exactly the whole events read, or the read's error is returned and nothing changes; no unread event is overwritten |
| InputEventReader.Reader.ReadEvent | libsensors/InputEventReader.cpp:74-79 | the slot holds the oldest unread event, if there is one |
| InputEventReader.Reader.Next | libsensors/InputEventReader.cpp:81-88 | the oldest event leaves the FIFO, with the head resting at the end or not |
| SensorAK8973.TargetsDistinct | libsensors/SensorAK8973.cpp:257-336 | two different event codes never write the same field |
| SensorAK8973.AxisEventsIndependent | libsensors/SensorAK8973.cpp:253-337 | events of different axes commute |
| SensorAK8973.PassConcat | libsensors/SensorAK8973.cpp:207-240 | one pass over a stream is a pass over its front and then its rest |
| SensorAK8973.SweepConserves | libsensors/SensorAK8973.cpp:218-231 | a sweep cut short by lack of room delivers the front of what the whole SYN delivers, and the rest is still pending |
| SensorAK8973.ReadConserves | libsensors/SensorAK8973.cpp:207-240 | what a call delivers, followed by what the leftovers would, is what an unbounded pass delivers |
| SensorAK8973.ReadReaches | libsensors/SensorAK8973.cpp:207-240 | the leftovers reach the same pending readings as the unbounded pass |
| SensorAK8973.ReadStopsFull | libsensors/SensorAK8973.cpp:207-242 | a call delivers no more than there is room for, and stops early only with an empty buffer |
| SensorAK8973.SlicingIsInvisible | libsensors/SensorAK8973.cpp:187-243 | however requests are sliced and events arrive, the outputs strung together with what the leftovers would still emit are one unbounded pass over the stream |
| SensorAK8973.OutputsArePrefix | libsensors/SensorAK8973.cpp:187-243 | so the outputs are a prefix of that pass, and all of it once the buffer is empty |
| SensorAK8973.ShortCallDrains | libsensors/SensorAK8973.cpp:207-242 | a call that returns less than asked has delivered everything that arrived |
| SensorAK8973.Sensor.HandleAxis | libsensors/SensorAK8973.cpp:253-337 | the switch over the axis codes, with its clipping of azimuth and roll, writes in place what the table of codes and fields says |
| SensorAK8973.Sensor.SweepSensors | libsensors/SensorAK8973.cpp:218-231 | the inner loop delivers and clears exactly what the sweep says |
| SensorAK8973.Sensor.Deliver | libsensors/SensorAK8973.cpp:204-242 | the outer loop over the ring buffer delivers, keeps pending and leaves buffered exactly what the read says |
| SensorAK8973.Sensor.ReadEvents | libsensors/SensorAK8973.cpp:187-243 | the whole call with its error returns: if the read does not fail, output and state are those of `Served`, the value that the poll loop uses, which reports a made-up temperature event alone and first |
| SensorReadings.EmittedIsReports | libsensors/SensorAK8973.cpp:207-336 | over any stream each SYN reports, in the order of their numbers, the sensors that are on and have had an axis event since the SYN before; each field is the converted last value of its axis code, or what was there before, and the time is the SYN's |
| SensorReadings.SlicedReports | libsensors/SensorAK8973.cpp:187-243 | however a caller slices its requests, it gets a prefix of these reports, and all of them once the buffer is empty |
| SensorReadings.ReportsAreTimed | libsensors/SensorAK8973.cpp:217-227 | every delivered event has the time of a SYN and is of a sensor that is on |
| SensorReadings.RollStaysInRange | libsensors/SensorAK8973.cpp:312-319 | roll is reported within -90 and 90 degrees, if it starts within them |
| SensorReadings.MadeUpIsExtra | libsensors/SensorAK8973.cpp:192-198 | the made-up event is the last temperature at the clock's time, alone, and changes nothing that is reported later |
| SensorReadings.AllIsSamples | libsensors/SensorKXTF9.cpp:113-160 | the accelerometer reports at every SYN the converted last value of each of its three axes, with the SYN's time |
| SensorKXTF9.ConsumesByGroups | libsensors/SensorKXTF9.cpp:113-132 | a call stops right behind the SYN that fills its room or at the end of the buffer, and delivers one event for each SYN it consumes |
| SensorKXTF9.AllConcat | libsensors/SensorKXTF9.cpp:113-132 | the output does not depend on where a stream is cut |
| SensorKXTF9.Sensor.ReadEvents | libsensors/SensorKXTF9.cpp:101-135 | if the read does not fail, output and state are those of `Sampled`, the value that the poll loop uses: exactly the events of what the call consumes, the rest stays buffered |
| PollContext.ShortReadDrains | libsensors/nusensors.cpp:178-183 | a driver that delivers less than the room, with nothing made up, has an empty buffer |
| PollContext.BeatsAreSyns | libsensors/LightSensor.cpp:104-108 | light and proximity report every SYN once, in order and at its time |
| PollContext.RingNeverOverflows | libsensors/InputEventReader.cpp:49-72 | whatever a device has, a read leaves at most 32 events in a driver's ring, 4 for proximity and light |
| PollContext.ReadEventsConserves | libsensors/nusensors.cpp:178 | what any of the four drivers delivers, followed by what it then emits on any later events, is one unbounded pass |
| PollContext.VisitStrandsIff | libsensors/nusensors.cpp:176-187 | the exact condition under which a visit leaves buffered events without their POLLIN flag |
| PollContext.CallSleepsInReadIff | libsensors/nusensors.cpp:166-215 | if poll() flags only devices that have something, a call sleeps in the read() of a driver exactly if its first round comes to it with room left while it is flagged, has nothing made up, a free slot and an empty device |
| PollContext.FirstReadSleepsIff | libsensors/nusensors.cpp:173-178 | for the first driver that is to be read this needs nothing of the course of the call: its state and its device decide |
| PollContext.LeftoverFlagSleeps | libsensors/nusensors.cpp:171-188 | it happens: two SYNs, two calls for one event each, and the second sleeps on the empty device while the other SYN is buffered |
| PollContext.SleepsWithEventCollected | libsensors/nusensors.cpp:171-188 | it also happens to a call that has already collected an event of another driver |
| PollContext.WaitingHasNothing | libsensors/nusensors.cpp:190-212 | a call that sleeps in poll() has nothing to return and has used up every answer of poll() |
| PollContext.GoesOnWhileReady | libsensors/nusensors.cpp:190-212 | a call takes another round for every answer of poll() that finds something; if it ends with room left and not in a read(), poll() finds nothing more, and it returns exactly if it has events, leaving no flag, and otherwise sleeps |
| PollContext.RoundReadsAll | libsensors/nusensors.cpp:173-188 | a round that gets through with room left reads exactly the drivers that are flagged or have something made up, in ascending order, and any other round the first few of these |
| PollContext.PollStrandsIff | libsensors/nusensors.cpp:166-215 | a whole call strands a flagged driver exactly if its made-up event comes up in the first round while events are buffered, does not fill the room left for it, and no later poll() of the call finds the device ready |
| PollContext.NeverStrandedIff | libsensors/nusensors.cpp:166-215 | before the call: no request and no kernel whose poll() is truthful strands a flagged driver exactly if it has nothing made up or nothing buffered |
| PollContext.StrandingExample | libsensors/nusensors.cpp:166-215 | it happens from a context just made: a call for one event cuts a SYN of the compass, temperature is switched on, a call for two returns one, and although the buffer owes a reading the next call sleeps in poll() |
| PollContext.PollKeepsSafe | libsensors/nusensors.cpp:166-215 | however a call ends, a driver that was flagged and had nothing made up is so again; and its buffer is empty if there is room left, unless the call sleeps in a read() |
| PollContext.AccelerometerOwes | libsensors/SensorKXTF9.cpp:113-132 | the accelerometer's buffer owes one event for every SYN in it |
| PollContext.PollDelivers | libsensors/nusensors.cpp:166-215 | if such a driver's buffer owes an event, the next call never waits in poll(): it returns exactly if its first round comes to no read() that sleeps, and then with at least one event |
| PollContext.EveryRunKeeps | libsensors/nusensors.cpp:166-215 | over every run of calls and activations, a driver never given a made-up event is safe at each call boundary, and its part of all outputs with what it still owes is one unbounded pass over all that arrived for it |
| PollContext.EveryRunDelivers | libsensors/nusensors.cpp:166-215 | so each such driver that starts with nothing buffered has a prefix of its unbounded pass delivered, all of it once its buffer is empty, and what is owed makes the next call return an event unless it comes to a read() that sleeps; the other drivers may start with made-up events, as light and proximity do |
| PollContext.Context.ReadDriver | libsensors/nusensors.cpp:176-187 | driver, flag and output after one turn of the inner loop |
| PollContext.Context.ReadDrivers | libsensors/nusensors.cpp:173-188 | the inner loop is one round over the drivers in order, each with the room that is left, up to a read() that sleeps |
| PollContext.Context.PollEvents | libsensors/nusensors.cpp:166-215 | state, output, visits in order and the way the call ends are exactly those of the call as a value, and the output fits the request |
| Crc32.TableIsEightShifts | bootstrap/hboot/crc32.c:4-38 | each of the 256 table words is eight steps of the bitwise register from its index |
| Crc32.EightShiftsSplit | bootstrap/hboot/crc32.c:48 | eight bitwise steps of a word are the table word of its low byte combined with its upper bytes |
| Crc32.StepIsEightShifts | bootstrap/hboot/crc32.c:45-50 | one table step is eight bitwise steps after taking the byte in |
| Crc32.UpdateConcat | bootstrap/hboot/crc32.c:45-50 | updating with a and then b is updating with a followed by b |
| Crc32.FeedIsShift | bootstrap/hboot/crc32.c:45-50 | feeding up to 32 bits one at a time is feeding their word at once |
| Crc32.TableCrcIsBitwise | bootstrap/hboot/crc32.c:45-66 | for every message and register the table-driven CRC is the bit-at-a-time reflected CRC with polynomial 0xEDB88320 (section 8 of RFC 1952) |
| Crc32.ShiftTimesInjective | bootstrap/hboot/crc32.c:48 | register steps lose nothing |
| Crc32.WindowChangesRegister | bootstrap/hboot/crc32.c:45-50 | two bit streams that differ only within 32 bits leave different registers |
| Crc32.BurstsAreDetected | bootstrap/hboot/crc32.c:57-66 | two messages of equal length that differ only within any 32 consecutive bits, aligned to bytes or not, have different checksums |
| Crc32.ChecksumIsBitwise | bootstrap/hboot/crc32.c:57-66 | the checksum is the complement of feeding the message's bits to a register of ones |
| Crc32.CheckValue | bootstrap/hboot/crc32.c:45-66 | the checksum of "123456789" is 0xCBF43926, the check value of CRC-32 |
| Crc32.CrcUpdate | bootstrap/hboot/crc32.c:45-50 | the loop computes the update of its register |
| Crc32.ComputeCrc | bootstrap/hboot/crc32.c:57-66 | initial and final complement around the update |
| Images.GateStopsBursts | bootstrap/hboot/images.c:73-102 | an error burst of at most 32 bits in a verified completed image makes image_complete fail and hides the image; an intact one is still found |
| Images.GateIff | bootstrap/hboot/images.c:73-102 | behind the gate an image is found, as it was loaded, exactly if it is complete and is the boot loader's own, not to be verified, or of the right checksum; every other entry stays, and the gate fails exactly if it stops one |
| Images.ImageList.ImageFind | bootstrap/hboot/images.c:42-54 | the image's place and size if the tag is known and completed, else nothing |
| Images.ImageList.ImageComplete | bootstrap/hboot/images.c:73-102 | exactly the corrupt images change state, and the result is 1 exactly if there is one |
| FontRle.RoundTrip | bootstrap/splashmenu/minui/mkfont.c:27-50 | decoding the encoding of any bitmap gives the bitmap back |
| FontRle.TailIsNoLonger | bootstrap/splashmenu/minui/mkfont.c:32-48 | dropping the first pixel never lengthens the encoding |
| FontRle.EncodingIsShortest | bootstrap/splashmenu/minui/mkfont.c:27-50 | no byte string that decodes to a bitmap is shorter than its encoding |
| FontRle.MakeFont | bootstrap/splashmenu/minui/mkfont.c:12-50 | the loop prints the greedy run encoding of the image's first colour and a terminating zero |
| FontRle.InitFont | bootstrap/splashmenu/minui/graphics.c:715-720 | the loop fills the bitmap with exactly the pixels of the bytes before the terminator and leaves the rest alone |
| FontRle.FontRoundTrip | bootstrap/splashmenu/minui/mkfont.c:27-50 | what the encoder prints has no zero before its terminator and decodes to every pixel of the image |
| Vsprintf.DigitsValue | bootstrap/hboot/vsprintf.c:86-91 | the digits found spell the number |
| Vsprintf.DigitsFitScratch | bootstrap/hboot/vsprintf.c:60 | 32 bits never need more than 32 digits, in any base |
| Vsprintf.LayoutLength | bootstrap/hboot/vsprintf.c:78-94 | exactly max(width, sign + prefix + max(precision, digits)) characters are printed |
| Vsprintf.LayoutShape | bootstrap/hboot/vsprintf.c:95-117 | whatever the flags, the output is blanks, sign, prefix, a numeral and blanks |
| Vsprintf.PrintedNumberReadsBack | bootstrap/hboot/vsprintf.c:57-119 | for every 32-bit value, the most negative included, base 8, 10 or 16, and any width, precision and flags, an ordinary reader gets the value back |
| Vsprintf.DoDiv | bootstrap/hboot/vsprintf.c:46-55 | quotient and remainder make up the number, the remainder below the base |
| Vsprintf.Scratch | bootstrap/hboot/vsprintf.c:86-91 | the scratch buffer holds the digits backwards and is never exceeded |
| Vsprintf.Number | bootstrap/hboot/vsprintf.c:57-119 | the loops print the layout; a base outside 2 to 36 is refused |
| Printf.NumberIsSkipped | bootstrap/hboot/vsprintf.c:28-35 | skip_atoi reads any number back and stops behind it |
| Printf.DirectiveIsScanned | bootstrap/hboot/vsprintf.c:145-205 | a directive with any flags, width, precision and qualifier is scanned as it is meant, up to its conversion |
| Printf.FormatIsMeant | bootstrap/hboot/vsprintf.c:137-280 | a format of any number of pieces prints what they mean, piece by piece, and uses the arguments in order |
| Printf.DecimalReadsBack | bootstrap/hboot/vsprintf.c:258-264 | the output of any signed decimal directive reads back as its argument |
| Formats.FlagsIff | bootstrap/hboot/vsprintf.c:145-166 | each of the five flags is set exactly if its character is given, however often and where |
| Formats.TextIsPlaced | bootstrap/hboot/vsprintf.c:209-233 | %c and %s print the character, or the string up to the precision, with blanks up to the width behind it if there is a '-' and in front of it otherwise |
| Formats.NumberReadsBack | bootstrap/hboot/vsprintf.c:235-264 | every numeric directive prints a text that reads back, in its base, as its argument: signed for %d and %i, 32 unsigned bits for %o, %u, %x, %X and %p |
| Formats.NumberIsPlaced | bootstrap/hboot/vsprintf.c:57-119 | sign, prefix and digits by the flags given, the digits in the conversion's case and no more zeros than the precision asks for; blanks behind, zeros between or blanks in front up to the width, and a pointer without a width filled to 8 |
| Formats.OtherConversions | bootstrap/hboot/vsprintf.c:266-278 | %% prints one, %n stores the length so far, and an unknown conversion prints itself |
| Printf.StarIsPrinted | bootstrap/hboot/vsprintf.c:172-181 | a width given by a star is printed as text and its argument is lost |
| Printf.StarPrecisionIsPrinted | bootstrap/hboot/vsprintf.c:184-197 | so is a precision given by a star, with or without a width in front |
| Printf.Atoi | bootstrap/hboot/vsprintf.c:28-35 | the loop is skip_atoi |
| Printf.ScanDirective | bootstrap/hboot/vsprintf.c:145-205 | flags, width, precision and qualifier are scanned in place |
| Printf.PrintChar | bootstrap/hboot/vsprintf.c:209-216 | one character padded to the width on the flagged side |
| Printf.PrintString | bootstrap/hboot/vsprintf.c:218-233 | a string cut to the precision and padded to the width on the flagged side |
| Printf.Print | bootstrap/hboot/vsprintf.c:207-279 | the switch over conversions |
| Printf.VsprintfTo | bootstrap/hboot/vsprintf.c:121-283 | the loop prints the format from its start, and returns the length |
| Atag.WalkRecovers | bootstrap/hboot/atag_priv.h:383-387 | a walk over tags lying one behind the other finds exactly these, in order, and stops at ATAG_NONE |
| Atag.ListedStays | bootstrap/hboot/atag.c:17-107 | writing behind the tags so far does not change them |
| Atag.CmdlineFits | bootstrap/hboot/atag.c:34-42 | the command line and its terminator fit the words counted for them |
| Atag.PutImageCmdline | bootstrap/hboot/atag.c:30-35 | the text is copied and a newline at its end becomes the terminator, an empty image included |
| Atag.PutCmdline | bootstrap/hboot/atag.c:24-44 | the command line's tag is added behind the others |
| Atag.PutFields | bootstrap/hboot/atag.c:17-22 | a tag of 32-bit fields is added behind the others |
| Atag.PutBattery | bootstrap/hboot/atag.c:90-94 | the half-word tag is added behind the others |
| Atag.PutCid | bootstrap/hboot/atag.c:97-101 | the one-byte tag is added, its byte behind its counted size |
| Atag.AtagBuild | bootstrap/hboot/atag.c:11-107 | memory holds all tags in order and ATAG_NONE, and nothing behind that is written |
| Atag.KernelFindsTags | bootstrap/hboot/atag.c:11-107 | the walk over what atag_build wrote finds its tags and no others, with their contents |
| Atag.KernelReadsWhatIsTold | bootstrap/hboot/atag.c:11-107 | tag by tag, by identifier and payload offset, the kernel reads the page size, the command line, the two versions, address and size of device tree and initramfs if they are loaded, the powerup reason and the battery status, and nothing else |
| Atag.CmdlineReadsBack | bootstrap/hboot/atag.c:24-45 | a command line of any length reads back from its tag, without one newline at its end and up to its first zero byte if it has one |
| Atag.CidReadsBackIff | bootstrap/hboot/atag.c:97-104 | the recovery byte reads back exactly if it is 0 |
| ScreenLog.WrappedAppend | bootstrap/splashmenu/ui.c:298-304 | one more character at the end of a wrapped text |
| ScreenLog.AppendAllIsWrapped | bootstrap/splashmenu/ui.c:297-305 | printing character by character gives the lines of wrapping the last line together with the whole text |
| ScreenLog.ChunksCutEvenly | bootstrap/splashmenu/ui.c:297-305 | a paragraph is cut into full lines and a last one without losing or adding anything |
| ScreenLog.PrintsAreOneText | bootstrap/splashmenu/ui.c:281-305 | messages of up to 511 characters reach the log whole: after any number of calls it is their whole text, wrapped |
| ScreenLog.OverwriteReplacesLine | bootstrap/splashmenu/ui.c:312-338 | a message that fits the line but for two columns replaces the last line |
| ScreenLog.LongMessagesAreCut | bootstrap/splashmenu/ui.c:283-317 | longer ones are cut to 511 characters, and to the columns less two |
| ScreenLog.FeedHolds | bootstrap/splashmenu/ui.c:298-304 | one character keeps the ring the end of the log |
| ScreenLog.EveryRunHolds | bootstrap/splashmenu/ui.c:281-344 | after any calls on a screen of any size the ring holds the last lines, and text_top is (text_row + 1) mod rows from two rows on |
| ScreenLog.ScreenShowsEnd | bootstrap/splashmenu/ui.c:158-160 | read from text_top, the rows are the last lines of the unbounded wrapped log, oldest first |
| ScreenLog.Overlay.UiInit | bootstrap/splashmenu/ui.c:231-242 | as many rows and columns as fit the frame buffer, at most 50 and 95, and an empty ring |
| ScreenLog.Overlay.PutChar | bootstrap/splashmenu/ui.c:298-304 | the array after one character |
| ScreenLog.Overlay.UiPrint | bootstrap/splashmenu/ui.c:281-310 | the array after a call is the ring after it, every row terminated |
| ScreenLog.Overlay.UiPrintOverwrite | bootstrap/splashmenu/ui.c:312-344 | the same for the call that starts the line again |
| ScreenLog.Overlay.RowText | bootstrap/splashmenu/ui.c:158-160 | the string read from the array for a screen row is that line of the wrapped log of all calls |
| CameraFrames.StepConserves | libcamera/cameraHal.cpp:361-465 | every event keeps each block in exactly one place |
| CameraFrames.ArrivalKeepsPolicy | libcamera/cameraHal.cpp:398-414 | an arriving frame is treated as the thresholds say |
| CameraFrames.StepKeepsInvariant | libcamera/cameraHal.cpp:361-758 | every callback and client call keeps all invariants |
| CameraFrames.EveryRunKeepsInvariant | libcamera/cameraHal.cpp:361-758 | in every run the backlog stays within 15, no block is lost or released twice, nothing is dropped up to the soft threshold, two frames of a recording in a row only above the hard one, and the driver gets back each frame dropped or sent, once |
| CameraFrames.ReleaseReleasesAll | libcamera/cameraHal.cpp:746-758 | after camera_release every block ever allocated has been released, each once |
| CameraFrames.EveryFrameReturned | libcamera/cameraHal.cpp:392-433 | if the callbacks are set and memory is granted whenever a frame arrives, the driver gets back every frame that arrived, once and in order |
| CameraFrames.ReleaseIsOfFirstMatch | libcamera/cameraHal.cpp:654-671 | releasing an address releases the first sent frame there and it alone, and keeps the others in order; at the null address or an unknown one nothing happens |
| CameraFrames.DisablingEmptiesQueue | libcamera/cameraHal.cpp:579-588 | disabling video frames releases all queued frames in order and leaves none |
| CameraFrames.DataReachesClient | libcamera/cameraHal.cpp:361-376 | after a wanted data callback the client holds the new block, or none if memory was refused, and the one before is released; an unwanted one changes nothing |
| CameraFrames.PromptClientSeesNoDrop | libcamera/cameraHal.cpp:392-433 | in every run in which the client never holds more than ten frames when another arrives none is dropped, and the client's own account of the frames it holds is the device's |
| CameraFrames.EveryRunCounts | libcamera/cameraHal.cpp:398-411 | the drop counter is the number of frames of the current recording that were dropped |
| CameraFrames.ThrottledIff | libcamera/cameraHal.cpp:398-414 | the preview is throttled from an arrival at more than five queued frames to the next at fewer, or to the start or end of a recording |
| CameraFrames.Device.GenClientData | libcamera/cameraHal.cpp:335-359 | a new block, or nothing when memory is refused |
| CameraFrames.Device.OnDataCallback | libcamera/cameraHal.cpp:361-376 | the client's block is released and replaced |
| CameraFrames.Device.OnTimestampCallback | libcamera/cameraHal.cpp:392-433 | the books after an arriving frame |
| CameraFrames.Device.ReleaseCameraFrames | libcamera/cameraHal.cpp:454-465 | all sent frames are released, in order |
| CameraFrames.Device.ReleaseRecordingFrame | libcamera/cameraHal.cpp:654-671 | the first frame at the address is released, or nothing happens |
| CameraFrames.Device.DisableMsgType | libcamera/cameraHal.cpp:579-588 | disabling video frames releases the stale ones |
| CameraFrames.Device.StartRecording | libcamera/cameraHal.cpp:626-636 | the drop state is reset |
| CameraFrames.Device.StopRecording | libcamera/cameraHal.cpp:638-645 | the throttle is lifted |
| CameraFrames.Device.Release | libcamera/cameraHal.cpp:746-758 | everything held is released |
| Yv12.LumaPlaced | libcamera/cameraHal.cpp:213-221 | every luma sample is at row * stride + col, and padding is as before |
| Yv12.ChromaPlaced | libcamera/cameraHal.cpp:223-245 | byte 1 of every group of four in the even rows is in the first chroma plane, byte 3 in the second, at half the stride, the planes apart |
| Yv12.BehindUntouched | libcamera/cameraHal.cpp:203-246 | nothing is written from stride * height * 3 / 2 on |
| Yv12.CopyLumaRow | libcamera/cameraHal.cpp:215-219 | one row of luma in place |
| Yv12.CopyChromaRow | libcamera/cameraHal.cpp:228-241 | one row of both chroma planes in place |
| Yv12.CopyLuma | libcamera/cameraHal.cpp:213-221 | the luma plane in place, padding kept |
| Yv12.CopyChroma | libcamera/cameraHal.cpp:223-245 | both chroma planes in place, padding and the rest kept |
| Yv12.Yuv422iToYV12 | libcamera/cameraHal.cpp:203-246 | the loops end and the buffer is exactly the conversion |
| HookCode.BranchReachesIff | modules/sources/backlight/hook.c:72 | the patched word is always an ARM B (section A8.8.18 of ARM DDI 0406C), and goes to the replacement exactly if newfunc - (target + 8) is a multiple of 4 in [-2^25, 2^25) |
| HookCode.HookDiverts | modules/sources/backlight/hook.c:66-80 | a call of the hooked function runs the replacement, whatever the instruction side had cached |
| HookCode.HookTrampolines | modules/sources/backlight/hook.c:66-84 | what hook leaves in its entry is the moved word and a jump to the word behind it, and nothing else changed, if nothing harmful is cached |
| HookCode.TrampolineIsOriginal | modules/sources/backlight/hook.h:27-34 | a run from the trampoline is, for any number of steps, the unpatched function's run, if the first instruction does not depend on its place and the run stays clear of the changed words |
| HookCode.EntersIff | modules/sources/backlight/hook.h:27-34 | for every instruction set and state, the trampoline gets where the function's first instruction gets exactly if the processor fetches the moved word and then a word that goes back |
| HookCode.HookWorksIff | modules/sources/backlight/hook.c:66-84 | the same on the state before hook: exactly if the instruction side has nothing harmful cached of the entry |
| HookCode.PlacedFirstWord | modules/sources/backlight/hook.c:66-84 | a first instruction that is a branch always goes elsewhere from the trampoline; LDR PC, [PC, #-4] goes to the same place exactly if the function's second word is that instruction, too |
| HookCode.StaleTrampolineHangs | modules/sources/backlight/hook.c:74-84 | one way to fail, at either of the trampoline's instructions: a cached branch to itself hangs |
| Backlight.RoundTripText | modules/sources/backlight/hook.c:104-131 | after hooking and unhooking everything, each word is what the last entry for it had saved |
| Backlight.RoundTripRestoresIff | modules/sources/backlight/hook.c:104-131 | hook_exit undoes hook_init exactly if no two entries share a function |
| Backlight.StepKeepsInvariant | modules/sources/backlight/cpcap-bright.c:167-184 | a write to the file, of any kind, keeps flag, code and table in step |
| Backlight.EveryRunFollowsMode | modules/sources/backlight/cpcap-bright.c:167-184 | over every run of writes, the flag follows the last number written, and the code is the original or has exactly the hooked words replaced, also when symbols cannot be bound |
| Backlight.UnloadingRestores | modules/sources/backlight/cpcap-bright.c:269-277 | unloading after any run leaves the code as it was, in memory and on the instruction side |
| Backlight.HookedRunDiverts | modules/sources/backlight/cpcap-bright.c:167-184 | after any run that ends hooked, calls of a hooked function run its replacement |
| Backlight.HookedRunInvokesOriginal | modules/sources/backlight/hook.h:58 | and with nothing harmful cached of the entry, HOOK_INVOKE does, state for state, what the function did before the module was loaded |
| Backlight.Module.Hook | modules/sources/backlight/hook.c:47-89 | the memory and the entry afterwards, -1 for an unknown symbol |
| Backlight.Module.Unhook | modules/sources/backlight/hook.c:91-99 | the saved word is back, if the entry was resolved |
| Backlight.Module.HookAll | modules/sources/backlight/hook.c:104-122 | every entry up to the end mark is hooked in order, or none and -ENODEV |
| Backlight.Module.UnhookAll | modules/sources/backlight/hook.c:124-131 | every entry up to the end mark is unhooked in order |
| Backlight.Module.ProcHookWrite | modules/sources/backlight/cpcap-bright.c:167-184 | the state after a write and its return code |
| Backlight.Module.BacklightInit | modules/sources/backlight/cpcap-bright.c:235-267 | loading hooks if asked to |
| Backlight.Module.BacklightExit | modules/sources/backlight/cpcap-bright.c:269-277 | unloading unhooks if hooked |

## Left out

- AlarmList.AlarmList.SetRelative: `ms * 1000` is not cut to 32 bits (the delays in use are far below), the cookie is always NULL and not stored, and allocation succeeds.
- Charger.Daemon.CheckPower: drawing, the battery LED and the reading of the battery files are not modelled; the values read are parameters.
- Charger.Daemon.DimAlarm: a reboot call that returns counts as one more request for power-off; one that succeeds ends the run.
- InputEventReader.Reader.ReadEvent: the event pointer handed out is an index into the buffer.
- SensorAK8973.SlicingIsInvisible: a fixed enable mask and no made-up temperature event (`SensorReadings.MadeUpIsExtra` says that one changes nothing else); enable and setDelay with their ioctls are not modelled, and conversions are over real numbers.
- SensorAK8973.Sensor.ReadEvents: the caller's array is returned as a sequence.
- PollContext.Context.PollEvents: the answers of poll() are a script, and once it has run out nothing is ready any more; drivers return no errors and poll() does not fail, and only the POLLIN bit of revents is kept; the proximity and light drivers are a relay whose payload values are not modelled.
- PollContext.CallSleepsInReadIff: poll() is taken to flag a device only if it has events, and nobody else reads it. A call that sleeps is the end of the modelled call: one that is woken later is a call whose device had, or whose poll() found, what woke it. What a device holds is given anew for every read.
- PollContext.EveryRunKeeps: activations come between calls, and switching a sensor off is not an event of a run.
- Images.ImageList.ImageComplete: a buffer's bytes are part of its entry; image_unpack and unpack_buffer are not modelled.
- Vsprintf.Number: width and precision do not wrap at 32 bits, and the output is appended to a sequence instead of written through a pointer.
- Printf.VsprintfTo: the same, skip_atoi does not wrap either; arguments are functions from their index, and what %n stores is a list.
- FontRle.MakeFont: line breaks between the printed bytes are not modelled; an empty image is outside, since the encoder always reads one pixel.
- Yv12.Yuv422iToYV12: width, height and stride are even; with an odd width or height the loops of the original run past zero.
- CameraFrames.Device.OnDataCallback: the preview conversion is a module of its own (`Yv12.dfy`); overlay, preview window and the mutex are not modelled, and callbacks are atomic steps.
- HookCode.TrampolineIsOriginal: code and the data that instructions work on are separate, so a function that reads or writes its own code or the trampoline as data is outside; all instructions but B and LDR PC, [PC, #-4] are one parameter.
- HookCode.HookDiverts: words that are not mapped read as 0, and caches are modelled on the instruction side only.
- Backlight.EveryRunFollowsMode: kallsyms gives the same address each time it is asked, and nobody else patches the code.
- ScreenLog.Overlay.UiPrint: vsnprintf's formatting, stdout and drawing; the message is given formatted. A call of ui_print_overwrite before ui_init formats with a size of almost 2^32 and is taken to print nothing.
- ScreenLog.Overlay.UiInit: called once, as the program does.
- Atag.AtagBuild: the images' addresses are numbers and do not overlap the tags; printf has no effect; the half word behind the battery status is whatever memory held.
- brightness_to_cpcap, the fading animation and the LED lookup of cpcap-bright.c: finite or device effects.
- Yuv420spToRgb565 and Yuv422iToRgb565 of cameraHal.cpp: not called.
- 2nd-init, the audio policy, Bluetooth, lights and the init programs: delegation, device effects or data.

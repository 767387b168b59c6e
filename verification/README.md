# Verified models of the embedded-Linux course programs

Dafny models of the stateful programs of this repository, with proofs of what they
guarantee over whole runs. `dafny verify dfyconfig.toml` checks everything.

| file | what it models |
|---|---|
| `CInt.dfy`, `Seqs.dfy` | 32-bit wrapping and C's truncating division; two facts about sequences |
| `SysfsText.dfy` | the decimal text between the daemon and the kernel module: printf, kstrtouint, kstrtoint, fscanf |
| `Sensor.dfy` | the raw temperature register, read_temp, and the thresholds of automatic mode |
| `Regulator.dfy` | the kernel module's mode and period, its callbacks and sysfs handlers, as a class |
| `Daemon.dfy` | the daemon's sysfs calls, period and mode operations, and IPC dispatch, as a class over the kernel object |
| `RegulatorRuns.dfy` | all interleavings of the regulator thread and any number of client threads, under regulator_lock and app_lock |
| `RegulatorLinear.dfy`, `RegulatorOverlap.dfy` | when those interleavings amount to a sequential execution; the second lets overlapping writes change places |
| `LockOrder.dfy` | every mutex of daemon and kernel, every call path, any number of threads: no deadlock, no data race |
| `Handshake.dfy` | the two kernel threads on two wait queues, and their shutdown |
| `Animation.dfy` | the condition-variable queue of button pulses |
| `CharDevice.dfy`, `DeviceRuns.dfy` | the character device: buffers written in place, then any interleaving of users |
| `Font.dfy`, `Display.dfy` | the SSD1306 text driver and the display controller it drives |
| `LedTimer.dfy`, `LedPolling.dfy` | the timer-driven and the polling LED controller, and their relation |
| `AlphaList.dfy` | the heap-linked list with two static counters |
| `Hosts.dfy`, `Threshold.dfy` | the optimised exercises against their simple forms |

Sequential code that updates state is a class or a loop proved against functions; the
threads of a concurrent program are a transition system over values that uses the same
functions, one action per lock-protected region, and every theorem about it holds for all
finite action sequences, without any fairness assumption.

## Promises that hold only under a condition

* In Manual mode the period is not always the last manual value: an automatic pass that
  read the mode before the switch still writes. `ManualValueSticksIff` gives the exact
  condition for every such state, `StalePassIsReachable` a run that gets there, and
  `AtMostOneStaleWrite` bounds the damage to one write.
* Increase, decrease and toggle are atomic as long as there is no direct write and no
  stale pass (`CallsAreAtomic`). A direct or stale automatic write that lands between the
  read and the store of an increase or decrease can be lost. Taking the writes in the
  order in which they land, `ExplainedIffNotTorn` gives the exact condition: the call has
  a place among them unless it stores, in Manual mode, a positive period that is neither
  the one it finds nor the one it would compute from it. `ExplainedInTimeIff` gives the
  exact condition, while the mode stays Manual, when writes whose calls overlap may also
  change places; `TornButExplained` is a run where that makes the difference. A toggle
  always has a place. `Linearizable` orders whole runs without torn stores; `LostInAnyOrder`
  and `TornByPass` are runs from the initial state with one.
* A hotter reading does not always give a period that is at most as long: past raw value
  1872 the temperature is negative and wraps, so a cold sensor gets the fastest period
  (`HotterIsNeverSlower`, an equivalence).
* The LED's half period is half the period only up to INT_MAX ms (`HalfSleepExactness`).
* Sets and resets of the trigger alternate until thread 2 is asked to stop. They do so
  afterwards if and only if, at that moment, the trigger is set or thread 2 is neither in
  its wait nor about to reset (`StopKeepsAlternationIff`; `StopBreaksAlternation` is a run
  from the start that breaks it).
* The two LED controllers toggle together exactly for multiples of 100 ms
  (`SameTogglesIff`). The buttons keep the timer-driven one on multiples of 200, so it
  never runs with another period; the polling one takes its period from the command line.

Where code and text differ the model follows the code: the comments of `temp.c` put the
formula switch at 70 degrees, but raw 0x501, on the colder side of it, reads 70.433; the
report `doc/lab05-optimization/main.typ` has random numbers between 0 and 512, and the
programs draw 0 to 511.

## Model

| member | source | states |
|---|---|---|
| RegulatorRuns.ReachableStates | src/06-mini-project/kernel/regulator/regulator.c:12-68 | in every reachable state of any number of threads both locks have at most the one holder their data shows, the mode is 0 or 1 and the period a positive uint32; with regulator_lock free the blink period is the period's int image |
| RegulatorRuns.RunInv | src/06-mini-project/kernel/regulator/regulator.c:34-106 | the same invariant is kept by every run from any state that has it |
| RegulatorRuns.RegionsAreCallbacks | src/06-mini-project/kernel/regulator/regulator.c:52-106 | the two halves into which a period region is cut compose to cb_set_period and to the write of process_auto_mode |
| RegulatorRuns.RegionsExclude | src/06-mini-project/kernel/regulator/regulator.c:26-68 | while a thread holds regulator_lock no step of another changes mode or period, and none that is about to read or write them gets on |
| RegulatorRuns.PassStoresBand | src/06-mini-project/kernel/regulator/regulator.c:81-106 | a pass that reads raw value r writes 50 ms up to 1494, 100 up to 1536, 200 up to 1578, 500 up to 1872, and 50 past it |
| RegulatorRuns.PassRuns | src/06-mini-project/kernel/regulator/regulator.c:109-121 | from any reachable state between passes the regulator's steps alone make one turn of its thread: the period of the reading's band in Auto, nothing in Manual |
| RegulatorRuns.PeriodIsLastWritten | src/06-mini-project/kernel/regulator/regulator.c:52-106 | after any run the period is the last value any thread wrote |
| RegulatorRuns.StaleWrites | src/06-mini-project/kernel/regulator/regulator.c:109-121 | while the mode stays Manual there is no automatic write if no pass was in flight, and at most one if there was |
| RegulatorRuns.AtMostOneStaleWrite | src/06-mini-project/kernel/regulator/regulator.c:109-121 | any stretch of any run from the initial state that stays Manual contains at most one automatic write |
| RegulatorRuns.ManualPeriod | src/06-mini-project/kernel/regulator/regulator.c:52-121 | while Manual the period is the last accepted manual value, or the automatic value that the pass in flight at the start has written, which is the one it had computed if it had |
| RegulatorRuns.ManualValueSticksIff | src/06-mini-project/kernel/regulator/regulator.c:97-118 | every continuation in Manual keeps the last manual value if and only if no automatic pass is in flight, or the pass writes the period that is there and no client can get to write another one without leaving Manual |
| RegulatorRuns.LostManualValue | src/06-mini-project/kernel/regulator/regulator.c:97-118 | from every Manual state with a pass about to write and a client that is or can become idle there is a run in which an accepted manual value is overwritten |
| RegulatorRuns.LostToSensor | src/06-mini-project/kernel/regulator/regulator.c:81-106 | a pass in flight that has not read the sensor, or read another period, overwrites the period without any client |
| RegulatorRuns.AutoPeriodSettles | src/06-mini-project/kernel/regulator/regulator.c:81-106 | while Auto only passes change the period, and once one has written it is 500, 200, 100 or 50 |
| RegulatorLinear.Linearizable | src/06-mini-project/daemon/application/app.c:20-65 | every run from the initial state without torn stores, direct writes and automatic passes included, has a sequential order, each call between its read and its store, that gives its mode and period |
| RegulatorLinear.ExplainedIffNotTorn | src/06-mini-project/daemon/application/app.c:36-65 | a call that has read, whatever lands before its store, has a place among the writes, taken in the order in which they landed, if and only if it does not store in Manual mode a positive period that is neither the one it finds nor the one it would compute from it |
| RegulatorOverlap.ExplainedInTimeIff | src/06-mini-project/daemon/application/app.c:28-50 | in a Manual stretch, with writes whose calls overlap free to change places, a call has the outcome of some order if and only if its store is not torn, or a write that can come last wrote what the call stores or what the call would have computed that from |
| RegulatorOverlap.LostInAnyOrder | src/06-mini-project/daemon/application/app.c:28-41 | a run from the initial state in which a direct write lands in an increase, and no order at all gives the outcome |
| RegulatorOverlap.TornButExplained | src/06-mini-project/daemon/application/app.c:28-41 | a run from the initial state with a torn increase that an exchange of two overlapping direct writes explains |
| RegulatorLinear.CallsAreAtomic | src/06-mini-project/daemon/application/app.c:36-65 | with no direct write and no pass that changes the period in Manual mode inside an increase or decrease, no store is torn, and increase, decrease and toggle calls and passes executed one at a time, in the order of their last access, give the run's mode and period |
| RegulatorLinear.NoPassNoInterruption | src/06-mini-project/kernel/regulator/regulator.c:97-106 | a run without automatic writes has no such pass |
| RegulatorLinear.LostUpdateIsReachable | src/06-mini-project/daemon/application/app.c:28-41 | a run from the initial state in which a direct write lands in an increase, which then has no place before or after it |
| RegulatorLinear.TornByPass | src/06-mini-project/kernel/regulator/regulator.c:97-118 | a run from the initial state in which a stale automatic write lands in an increase that is then torn |
| RegulatorLinear.StalePassIsReachable | src/06-mini-project/kernel/regulator/regulator.c:109-121 | a run from the initial state to a Manual state with a pass in flight, from which a manual value can be lost |
| RegulatorLinear.ManualRun | src/06-mini-project/daemon/application/app.c:36-50 | concurrent increases and decreases in Manual sum up to 50 per increase minus 50 per decrease whose guard passed, and the period is never 0 |
| RegulatorLinear.ManualTally | src/06-mini-project/daemon/application/app.c:36-50 | the same sum for a sequence of atomic calls |
| RegulatorLinear.ToggleParity | src/06-mini-project/daemon/application/app.c:60-65 | in every run in which nobody writes the mode directly the mode flips by the parity of the toggles carried out, torn calls, direct periods and passes included |
| RegulatorLinear.EachCallOnce | src/06-mini-project/daemon/application/app.c:28-65 | in every run, what a thread's calls did, in order, is what it called for, in order, kind and argument included, but for at most one call under way |
| RegulatorLinear.EveryCallCompletes | src/06-mini-project/daemon/application/app.c:28-65 | from every reachable state an idle client can make any call with any argument of its type and get it returned, having taken effect once, without anybody making a new call |
| LockOrder.EveryPathIsRanked | src/06-mini-project/daemon/application/app.c:36-110 | every call path of daemon and kernel, the LED sections of the animation worker included, nests its locks in strictly rising rank |
| LockOrder.EveryAccessIsGuarded | src/06-mini-project/daemon/application/app.c:36-139 | every call path uses each piece of shared data under the lock of that data only |
| LockOrder.CallsUse | src/06-mini-project/daemon/application/app.c:36-65 | what the code of each call uses, in order: an update reads and writes the regulator within one app_lock section |
| LockOrder.CallsRunTheirPaths | src/06-mini-project/daemon/gpio/button.c:165-190 | in every run a thread executes exactly the code of the calls it makes, in order, but for what remains of the last |
| LockOrder.NoRace | src/06-mini-project/daemon/application/app.c:75-139 | in every reachable state at most one thread is at an access to any one piece of data |
| LockOrder.RankedIsOrdered | src/06-mini-project/daemon/ipc/ipc_server.c:24-56 | a path that nests by rank, run while holding lower locks, never acquires downwards and gives back exactly what it took |
| LockOrder.RunInv | src/06-mini-project/daemon/application/sysfs.c:50-91 | mutual exclusion and the lock discipline hold in every reachable state |
| LockOrder.NoWaitCycle | src/06-mini-project/kernel/sysfs/sysfs.c:20-88 | no chain of threads, of any length, each waiting for a lock the next one holds, closes on itself; and no chain has more than six threads |
| LockOrder.SomeoneMoves | src/06-mini-project/daemon/gpio/button.c:177-186 | from every unfinished thread the chain of lock holders it waits for ends at a thread that can step |
| LockOrder.NoDeadlock | src/06-mini-project/daemon/gpio/button.c:177-186 | in every reachable state some thread can step unless all are between calls |
| LockOrder.AllSchedulesFinish | src/06-mini-project/kernel/temperature/temp.c:49-75 | without new calls every schedule completes all calls after exactly the remaining number of steps |
| LockOrder.EveryCallCompletes | src/06-mini-project/daemon/gpio/button.c:177-186 | from every reachable state a thread between calls can make any call and execute exactly its code to the end |
| Handshake.Reachable | src/01-skeleton/kernel-module/s02e07-sleeping.c:19-61 | until thread 2 is told to stop, sets and resets strictly alternate and differ by the trigger, which is 0 or 1; the threads are never both blocked and no wake-up is lost |
| Handshake.EachSetIsTimed | src/01-skeleton/kernel-module/s02e07-sleeping.c:24-42 | thread 1 sets the trigger once for every sleep it has finished, but for one set about to be made |
| Handshake.RunInv | src/01-skeleton/kernel-module/s02e07-sleeping.c:19-90 | the invariant behind it, shutdown included, is kept by every run |
| Handshake.NeverStuck | src/01-skeleton/kernel-module/s02e07-sleeping.c:24-58 | some step is possible until both threads have returned |
| Handshake.KeepsBeating | src/01-skeleton/kernel-module/s02e07-sleeping.c:24-58 | under any schedule the trigger changes at least once every 18 steps before exit, the first time after at most 17 |
| Handshake.ExitTerminates | src/01-skeleton/kernel-module/s02e07-sleeping.c:85-90 | once thread 1 is flagged, every schedule has at most 109 more steps and can only stop with both threads returned |
| Handshake.StopKeepsAlternationIff | src/01-skeleton/kernel-module/s02e07-sleeping.c:50-90 | when thread 2 is told to stop, every continuation keeps sets and resets alternating if and only if the trigger is set or thread 2 is neither in its wait nor about to reset |
| Handshake.StopBreaksAlternation | src/01-skeleton/kernel-module/s02e07-sleeping.c:50-57 | a run from the start in which a stopped thread resets a trigger that is already 0 |
| Animation.NoPulseLost | src/06-mini-project/daemon/application/app.c:75-139 | in every run, spurious wake-ups included, pulses triggered are pulses pending plus taken, pending is never negative, and with the lock free a sleeping worker has nothing to do |
| Animation.OnePulseEach | src/06-mini-project/daemon/application/app.c:75-139 | every call of trigger_pulse adds one pulse and every turn of the worker takes one; the pending ones are calls less turns, up to one call and one turn under way |
| Animation.EveryCallReturns | src/06-mini-project/daemon/application/app.c:127-139 | from every reachable state a thread can call trigger_pulse and have it return |
| Animation.FromStart | src/06-mini-project/daemon/application/app.c:19-139 | the invariant holds in every state reachable with any number of callers |
| Animation.QueueDrains | src/06-mini-project/daemon/application/app.c:84-101 | once triggers stop, n pending pulses are gone after at most 4n steps of any schedule, the worker being able to step until then |
| SysfsText.LineRoundTrip | src/06-mini-project/daemon/application/sysfs.c:58-88 | a printed number parses back to itself in the kernel and in the daemon, and kstrtoint refuses exactly what exceeds an int |
| SysfsText.LineIsCanonical | src/06-mini-project/kernel/sysfs/sysfs.c:34-73 | a printed line is the number's digits without a leading zero and one newline |
| SysfsText.ValueOfConcat | src/06-mini-project/kernel/sysfs/sysfs.c:47-88 | a digit string is read positionally, leading zeros included |
| SysfsText.KstrtouintIff | src/06-mini-project/kernel/sysfs/sysfs.c:76-88 | the period file accepts a text if and only if it is plain digits of a number below 2^32, after at most one plus and before at most one newline |
| SysfsText.KstrtointIff | src/06-mini-project/kernel/sysfs/sysfs.c:47-60 | the mode file accepts a text if and only if it is such digits, or a minus and digits, of a number in the range of an int |
| SysfsText.ScanStops | src/06-mini-project/daemon/application/sysfs.c:34-78 | the daemon reads the digits at the front, whatever follows, and nothing if there are none |
| SysfsText.TemperatureRoundTrip | src/06-mini-project/kernel/sysfs/sysfs.c:20-31 | the temperature line decodes to the exact millidegree value |
| SysfsText.TemperatureLineShape | src/06-mini-project/kernel/sysfs/sysfs.c:30 | the line is whole degrees, a point, exactly three digits of millidegrees and a newline |
| SysfsText.TemperatureLineInjective | src/06-mini-project/kernel/sysfs/sysfs.c:30 | different temperatures print differently |
| Sensor.ReadingExactness | src/06-mini-project/kernel/temperature/temp.c:61-71 | the uint32 reading is the signed temperature if and only if raw is at most 1872, and an enormous value otherwise |
| Sensor.ReadingOfFormula | src/06-mini-project/kernel/temperature/temp.c:65-71 | up to raw 1872 the reading is the formula's value rounded up to a millidegree |
| Sensor.PeriodBands | src/06-mini-project/kernel/regulator/regulator.c:82-95 | the automatic period by raw value: the four bands and the wrapped range past 1872 |
| CInt.TruncExactness | src/06-mini-project/kernel/temperature/temp.c:67-71 | quotient and remainder make up the dividend, the remainder small and of the dividend's sign |
| CInt.ToInt32Exactness | src/06-mini-project/kernel/blink/blink.c:61-64 | the int image is the one int congruent modulo 2^32, and the value itself exactly if it is an int |
| Sensor.SignedTempMonotone | src/06-mini-project/kernel/temperature/temp.c:65-71 | a larger raw value is never a higher temperature, also across the formula switch |
| Sensor.HotterIsNeverSlower | src/06-mini-project/kernel/regulator/regulator.c:82-95 | no hotter reading gets a longer period than raw value b if and only if b is at most 1872 |
| Regulator.HalfSleepExactness | src/06-mini-project/kernel/blink/blink.c:54-63 | the blink thread sleeps half the period if and only if the period fits an int, and half of it plus 2^31 ms otherwise |
| Regulator.StepExactness | src/06-mini-project/daemon/application/app.c:36-50 | an atomic increase or decrease in numbers: 50 ms in Manual, wrapping at 2^32 but never to 0, the decrease from 51 on; nothing in Auto |
| Regulator.Regulator.constructor | src/06-mini-project/kernel/regulator/regulator.c:12-13 | the initial state is Auto at 1000 ms with the blink period equal |
| Regulator.Regulator.CbSetMode | src/06-mini-project/kernel/regulator/regulator.c:34-42 | the mode becomes the argument exactly for 0 and 1; period and blink period stay |
| Regulator.Regulator.CbSetPeriod | src/06-mini-project/kernel/regulator/regulator.c:52-68 | period and blink period change together, exactly in Manual mode and for a positive value |
| Regulator.Regulator.ProcessAutoMode | src/06-mini-project/kernel/regulator/regulator.c:81-106 | period and blink period become 500 below 35 degrees, 200 below 40, 100 below 45 and 50 from there, of the reading as unsigned |
| Regulator.Regulator.ThreadPass | src/06-mini-project/kernel/regulator/regulator.c:110-120 | an undisturbed pass sets the period of the raw value's band in Auto and changes nothing in Manual |
| Regulator.Regulator.ModeShow | src/06-mini-project/kernel/sysfs/sysfs.c:34-44 | scanning the text gives the mode |
| Regulator.Regulator.ModeStore | src/06-mini-project/kernel/sysfs/sysfs.c:47-60 | text that kstrtoint refuses changes nothing; otherwise the mode callback's effect |
| Regulator.Regulator.PeriodStatusShow | src/06-mini-project/kernel/sysfs/sysfs.c:63-73 | scanning the text gives the period |
| Regulator.Regulator.PeriodSetStore | src/06-mini-project/kernel/sysfs/sysfs.c:76-88 | text that kstrtouint refuses changes nothing; otherwise the period callback's effect |
| Regulator.Regulator.TemperatureShow | src/06-mini-project/kernel/sysfs/sysfs.c:20-31 | decoding the text gives the reading |
| Daemon.App.SysfsGetMode | src/06-mini-project/daemon/application/sysfs.c:34-48 | the daemon reads the kernel's mode through the text |
| Daemon.App.SysfsSetMode | src/06-mini-project/daemon/application/sysfs.c:50-62 | through the text, the kernel's mode changes exactly for 0 and 1, any other int or uint32 changes nothing |
| Daemon.App.SysfsGetPeriod | src/06-mini-project/daemon/application/sysfs.c:64-78 | the daemon reads the kernel's period through the text |
| Daemon.App.SysfsSetPeriod | src/06-mini-project/daemon/application/sysfs.c:80-91 | through the text, every uint32 arrives unchanged at cb_set_period |
| Daemon.App.SetThenGet | src/06-mini-project/daemon/application/sysfs.c:64-91 | written, printed and read back, an accepted period is the one written |
| Daemon.App.IncreasePeriod | src/06-mini-project/daemon/application/app.c:36-41 | undisturbed, the call is the atomic increase, uint32 wrap-around included |
| Daemon.App.DecreasePeriod | src/06-mini-project/daemon/application/app.c:43-50 | undisturbed, the call is the atomic decrease with its guard |
| Daemon.App.ModeToggle | src/06-mini-project/daemon/application/app.c:60-65 | the mode becomes the other one and the period stays |
| Daemon.App.ProcessMessage | src/06-mini-project/daemon/ipc/ipc_server.c:24-56 | command 10 sets mode 0 or 1, 20 a positive period in Manual, 30 increases, 40 decreases, any other changes nothing |
| DeviceRuns.MinorsAreIndependent | src/02-driver/character-oriented/skeleton.c:39-110 | removing all calls on other minors from any run changes neither a minor's buffer, nor its files' offsets, nor a reply |
| DeviceRuns.RepliesTellTheOffset | src/02-driver/character-oriented/skeleton.c:74-110 | a write returns how far the offset moved, short only at 300, or -28 there with nothing changed; a read returns the bytes from the offset on, short only at 300 |
| DeviceRuns.OpenReplies | src/02-driver/character-oriented/skeleton.c:39-65 | opening a missing minor returns -14 and changes nothing, another one starts a file at offset 0 and changes no buffer |
| DeviceRuns.LastWriteWins | src/02-driver/character-oriented/skeleton.c:93-110 | for any number of writers through any files, a byte of a buffer is what the last write that covered it put there |
| DeviceRuns.ChunkedWrite | src/02-driver/character-oriented/skeleton.c:93-110 | any cutting of the data into writes, whatever others open and read on the same minor and do on other minors in between, leaves the buffer and offset of one write |
| DeviceRuns.ReissuedPart | src/02-driver/character-oriented/skeleton.c:93-110 | a client that issues again what the return values of short writes say is left, the only writer on its minor, has at any moment the buffer of one write of the part accepted so far |
| DeviceRuns.ReissuedWrite | src/02-driver/character-oriented/skeleton.c:93-110 | once nothing is left or the buffer is full, it is that of one write of everything |
| DeviceRuns.ChunkedRead | src/02-driver/character-oriented/skeleton.c:74-91 | any cutting into reads, with other files reading the same minor in between, returns the buffer's bytes from the offset on |
| DeviceRuns.WriteThenRead | src/02-driver/character-oriented/skeleton.c:39-110 | what one writer wrote in pieces from offset 0 comes back in pieces after opening again, whoever else opens and reads, followed by the old bytes if more is asked |
| DeviceRuns.OffsetsInRange | src/02-driver/character-oriented/skeleton.c:78-109 | no run takes an offset past 300 |
| CharDevice.WriteIsBytewise | src/02-driver/character-oriented/skeleton.c:97-109 | the block copy is the byte-after-byte write with the bytes past the end dropped |
| CharDevice.StoredTwice | src/02-driver/character-oriented/skeleton.c:93-110 | two successive writes are the write of the concatenation, also when the first is short |
| CharDevice.Device.constructor | src/02-driver/character-oriented/skeleton.c:149-154 | each instance gets its own zeroed buffer of 300 bytes |
| CharDevice.Device.Open | src/02-driver/character-oriented/skeleton.c:39-65 | a missing minor is -14, another one gives its buffer at offset 0 |
| CharDevice.Device.Read | src/02-driver/character-oriented/skeleton.c:74-91 | the reply is the buffer from the old offset to the new one, shorter than asked only when the new one is at least 300 |
| CharDevice.Device.Write | src/02-driver/character-oriented/skeleton.c:93-110 | from offset 300 on it returns -28; otherwise the offset moves by the return value, which is short only at 300, and the array holds that much of the data; other minors are unchanged |
| CharDevice.Device.WriteUntilError | solutions/03_drivers/exercice04/main.c:30-33 | the loop ends with the offset at 300 and the buffer that one write of the repeated block leaves |
| CharDevice.Device.ReadUntilEnd | solutions/03_drivers/exercice04/main.c:36-43 | the loop ends with the offset at 300, having returned exactly the remaining bytes |
| Display.PositionExactness | src/06-mini-project/daemon/oled/ssd1306.c:177-182 | on a page 0 to 7 the two nibbles give column 8c if and only if c is less than 16 |
| Display.DataLands | src/06-mini-project/daemon/oled/ssd1306.c:166-175 | bytes that fit on the line land side by side on the current page and change no other byte |
| Display.CommandsOfDatasheet | src/06-mini-project/daemon/oled/ssd1306.c:177-182 | the effect of the codes 0xAE, 0xAF, 0xB0 to 0xB7 and the two nibble commands |
| Display.PrintLands | src/06-mini-project/daemon/oled/ssd1306.c:177-200 | positioning and printing places exactly the glyphs of the text and changes no other byte |
| Display.RenderAt | src/06-mini-project/daemon/oled/ssd1306.c:184-200 | byte k of rendered text is column k mod 8 of the glyph of character k div 8 |
| Display.Driver.SetPosition | src/06-mini-project/daemon/oled/ssd1306.c:177-182 | on a page 0 to 7 the pointer goes to that page, to column 8c if and only if c is less than 16, and no byte of the RAM changes |
| Display.Driver.Putc | src/06-mini-project/daemon/oled/ssd1306.c:184-194 | the controller receives the eight columns of entry c - 32 for the codes 32 to 127, of entry 0 for the others, and the index is in range |
| Font.EntryInRow | src/06-mini-project/daemon/oled/ssd1306.c:24-121 | the entries run row by row, sixteen to a row |
| Font.TwoGlyphs | src/06-mini-project/daemon/oled/ssd1306.c:24-121 | the entries of 'A' and 'z' |
| Display.Driver.Puts | src/06-mini-project/daemon/oled/ssd1306.c:196-200 | the controller receives the glyphs of the string up to its first zero byte |
| Display.TextEndsAtZero | src/06-mini-project/daemon/oled/ssd1306.c:196-200 | the printed text is the string's prefix up to its first zero byte |
| Display.Driver.PrintAt | src/06-mini-project/daemon/oled/ssd1306.c:177-200 | the same on the driver's own state, for every text that fits on the line |
| Display.Driver.ClearDisplay | src/06-mini-project/daemon/oled/ssd1306.c:202-212 | from any contents all 1024 bytes are 0, the display is on and the pointer home |
| Display.InitLeavesNoArgumentDue | src/06-mini-project/daemon/oled/ssd1306.c:124-151 | every opcode of the init table is followed by exactly its arguments, and none is due at the end |
| Display.Driver.Init | src/06-mini-project/daemon/oled/ssd1306.c:214-233 | after the init table and the clearing the RAM is 0, the display on and the pointer home |
| LedTimer.TimerSpecExactness | src/03-led-controller/timer.c:25-36 | the split is the requested time; it is normalised exactly for non-negative and arms exactly for non-zero requests |
| LedTimer.DutyExactness | src/03-led-controller/main.c:171-172 | the duty is 2 percent if and only if the period is a multiple of 100, and on plus off is the period |
| LedTimer.TickArms | src/03-led-controller/main.c:171-185 | a tick arms the requested delay if and only if it fits an int, and then stops the timer only when it switches on with a period below 100 ms |
| LedTimer.NeverDisarmed | src/03-led-controller/main.c:104-185 | over every run of buttons and ticks the period stays a positive multiple of 200 and the timer armed with exactly the delay last requested |
| LedTimer.FromStart | src/03-led-controller/main.c:197-201 | the same from the start, for up to ten million increases |
| LedTimer.Waveform | src/03-led-controller/main.c:156-187 | for every period from 100 ms to INT_MAX, left alone, the n-th expiry after LED-on falls at the n-th flip of its waveform, and the timer is never disarmed |
| LedTimer.Controller.OnEdge | src/03-led-controller/main.c:104-136 | only if the file reads 1, the first button adds 200 ms, the second gives 1000, the third takes 200 with 200 as the least; LED and timer stay |
| LedTimer.Controller.OnTick | src/03-led-controller/main.c:171-185 | the LED flips; for a period that is a positive multiple of 200 and fits an int, the timer is armed with 2 percent of it when the LED goes on and 98 percent when it goes off |
| LedPolling.Poll | solutions/04_system/silly/silly_led_control.c:73-100 | on any clock readings each toggle is at the first reading at which the running phase has its nominal length |
| LedPolling.MarksAreDetermined | solutions/04_system/silly/silly_led_control.c:84-100 | that description leaves one outcome for given readings |
| LedPolling.PhaseLength | solutions/04_system/silly/silly_led_control.c:88-93 | on a monotone clock a phase lasts at least its nominal length and less than that plus the largest gap |
| LedPolling.ExactToggles | solutions/04_system/silly/silly_led_control.c:84-100 | read every nanosecond, the clock gives toggles exactly at the cumulated nominal lengths |
| LedPolling.SameTogglesIff | src/03-led-controller/main.c:156-187 | the polling loop, read every nanosecond, toggles when the timer expires if and only if the period is a multiple of 100 ms |
| LedPolling.SameWaveform | solutions/04_system/silly/silly_led_control.c:84-100 | the ideal flip times of the two agree if and only if the period is a multiple of 100 ms, and otherwise differ at the first flip |
| LedPolling.PollingRefinesTimer | src/03-led-controller/main.c:156-187 | for every reachable period the polling loop, read every nanosecond, toggles when the timer expires |
| AlphaList.List.Append | solutions/01_environment/memory_leaks/mem_leaks.c:49-58 | the search for the tail ends and the new cell is the last of a chain without repetition |
| AlphaList.List.Dealloc | solutions/01_environment/memory_leaks/mem_leaks.c:87-92 | the head leaves the chain; an empty list stays empty |
| AlphaList.Allocator.Alloc1 | solutions/01_environment/memory_leaks/mem_leaks.c:45-59 | the first allocator appends its own counter |
| AlphaList.Allocator.Alloc2 | solutions/01_environment/memory_leaks/mem_leaks.c:61-75 | the second allocator appends its own counter |
| AlphaList.Allocator.Alloc | solutions/01_environment/memory_leaks/mem_leaks.c:77-85 | in any interleaving the list is the window of the allocation history in which allocation k carries k div 2 |
| AlphaList.Allocator.Dealloc | solutions/01_environment/memory_leaks/mem_leaks.c:87-92 | the window loses its oldest entry |
| AlphaList.WindowAt | solutions/01_environment/memory_leaks/mem_leaks.c:77-85 | entry i of the window is the attribute of the allocation d + i |
| Hosts.Hostname | src/05-optimization/ex03/ApacheAccessLogAnalyzer.cpp:29-31 | the host is the longest prefix of the line without a space |
| Hosts.HostCounter.NotifyHost | src/05-optimization/ex03/HostCounter.cpp:14-21 | the host joins the set |
| Hosts.ProcessFile | src/05-optimization/ex03/ApacheAccessLogAnalyzer.cpp:24-37 | the count is the number of distinct first fields of the lines |
| Hosts.HostIff | src/05-optimization/ex03/ApacheAccessLogAnalyzer.cpp:27-34 | a host is counted if and only if it is the first field of some line |
| Hosts.LinearHostCounter.IsNewHost | solutions/06_optimization/ex03/HostCounter.cpp:9-12 | std::find, comparing one by one, finds a host if and only if it is there |
| Hosts.ProcessFileLinear | solutions/06_optimization/ex03/HostCounter.cpp:9-26 | counting by linear search gives the same number for every log |
| Hosts.OnlyTheLinesMatter | src/05-optimization/ex03/ApacheAccessLogAnalyzer.cpp:27-34 | logs with the same lines, in any order and multiplicity, have the same hosts |
| Threshold.Total | src/05-optimization/ex02/basic.c:15-22 | the nested loops compute the rounds times the sum of the elements from 256 on |
| Threshold.SumAddsUp | src/05-optimization/ex02/basic.c:15-22 | the sum adds up over any division of the data, an element counting with its value from 256 on and not at all below |
| Threshold.OrderDoesNotMatter | src/05-optimization/ex02/optimized.c:19-29 | every permutation of the data has the same thresholded sum, so sorting does not change the output |
| Threshold.SortedTotal | src/05-optimization/ex02/optimized.c:19-29 | the loops run on the sorted array give the total of the unsorted one |
| Threshold.OneSwitch | src/05-optimization/ex02/optimized.c:25 | over sorted data the branch changes at most once, from not taken to taken |
| Threshold.TotalFits | src/05-optimization/ex02/optimized.c:22-29 | for data in 0 to 511 every partial total, after whole rounds and any part of the next, fits a signed 64-bit accumulator |

## Left out

- LockOrder, Handshake, Animation, RegulatorRuns, DeviceRuns: interleavings are modelled on values; the updates in place are in the classes that share their functions.
- RegulatorRuns: clients exchange numbers with the kernel directly; that the text in between loses nothing is proved for the sequential calls in `Daemon.dfy`.
- Regulator.Regulator.TemperatureShow: the daemon's reading of this text into a float is not modelled; the decoder works on exact decimals.
- RegulatorOverlap.ExplainedInTimeIff: a stretch in which the mode is written is covered by `ExplainedIffNotTorn` only, with the writes in landing order; exchanges with what landed before the read are not considered.
- RegulatorLinear.ManualRun: does not model wrap-around past 2^32; the atomic increase it sums does.
- Handshake: the two reads of a wait condition, the trigger and then the stop flag, are one step.
- DeviceRuns: a read or write call is taken as atomic; the driver has no lock, so two calls on the same minor can in fact overlap.
- Hosts.LinearHostCounter: the solution declares a std::set; the order in which it keeps its hosts is not modelled.
- Animation: `keep_running` is never cleared by the program, so its exit branches are not modelled; neither is an overflow of the int counter.
- LedTimer.NeverDisarmed: a button handler is atomic; the timer thread's unlocked read between the decrement and its repair is not modelled, nor is overflow of the long period.
- Threshold.OrderDoesNotMatter: qsort is represented by an arbitrary permutation, sorted for `OneSwitch`.
- Display: opcodes that change the addressing mode, which the driver never sends; a row of 8 or more; the I2C write and its error message.
- SysfsText.LineRoundTrip: signs and leading blanks in fscanf, and its behaviour on numbers that do not fit, which the kernel never prints.
- LedPolling.Poll: the endless loop is modelled on any finite sequence of clock readings.
- button.c: epoll, the ten-slot registration of buttons, and the debouncing read; only the locks of a callback are modelled.
- Failures of fopen, copy_to_user, copy_from_user, kzalloc, gpio_request, kthread_run, and the unwinding around them: assumed to succeed.
- An uninitialised temperature sensor, whose reading is 0.
- Sockets, GPIO paths, I2C, timerfd and epoll calls, printk and syslog, and the numeric formatting of the OLED screen.
- The other course exercises (procstat, daemons, signals, cgroups, perf demos, Fibonacci, device-tree skeletons): plumbing or textbook loops.

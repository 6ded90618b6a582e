# Airthings Wave bridges, modelled in Dafny

This project models two small bridges that read Airthings Wave radon
monitors over Bluetooth LE and publish the readings over MQTT.

**`wave/app.py`** is a scheduler with two periodic tasks.
- Every 24 hours, *Discovery* scans for devices and replaces the device list.
- Every 30 minutes, *Read Wave* reads every listed device. It publishes one
  JSON sample per device on `wave/<serial>/sample`, or a `connection-failed`
  error on `wave/<serial>/error`.
- When the list is empty, the read first waits for devices. It rescans once a
  minute and gives up after three scan failures in a row.
- An update loop sleeps until the earlier of the two tasks' next-run times,
  then runs whichever tasks are due.

**`airthingswave-mqtt/airthingswave.py`** reads a YAML list of waves.
- A wave whose `version` prints as `2` is a Wave Plus; any other wave is a
  first-generation Wave.
- Every wave connects with three attempts, reads, and disconnects.
- A first-generation Wave reads four characteristics. A Wave Plus reads one
  20-byte record, which is unpacked with the `struct` format `<xbxbHHHHHHxxxx`.
- Each reading is published on `<name>/<key>`. Then `<name>/online` carries
  `ON` or `OFF`, saying whether the read succeeded.

## Model structure

- `Wrappers`: `Option`.
- `WaveTask`: `Task` is a class with a mutable next-run time and a ghost
  trace of its invocations. Time is an explicit `real` argument.
- `WaveDevices`, `WavePublish` and `WaveBackoff` hold the value-level parts
  of `App`:
  - the device list that a scan produces;
  - the messages for a list of samples;
  - the discovery-wait retry policy, as a function of a script of scan outcomes.
- `WaveApp`: `App` is a class. Its `devices`, `published` (MQTT messages) and
  `slept` (sleep durations) fields are updated by methods. Each method is proved
  against the functions above. `TasksAfter` gives one tick of the update loop
  on a `Snapshot` of the app and its two tasks. `RunTasks` and `UpdateLoopStep`
  are proved against it.
- `WavePlusRecord`: the pure 20-byte record decoder, with its inverse `Pack`.
- `AirthingsDevice`: the sensor table, the connect-retry policy, and
  `get_readings` for both models. Device I/O is given as parameters:
  connection attempts, characteristic reads, and the record handle.
- `AirthingsBridge`: config dispatch, and a `Bridge` class whose `log` holds
  every publish and device effect.

Outside effects are parameters or logs:
- A scan is one element of a finite script.
- A device read is a function from the device to its outcome.
- Clock readings are `real` arguments.
- MQTT publishes and sleeps are appended to sequences.

The model follows the code where the code's behaviour is surprising:
- A scan that finds nothing empties the device list (`wave/app.py:159`).
  Nothing logs the disappearance.
- `__read` iterates the list it captured before waiting. So a read that had to
  wait for discovery publishes nothing, even when the wait found devices.
- The exception that ends the discovery wait after three failures is caught by
  `Task.run` (`wave/app.py:48-51`). It therefore never stops the update loop.
  The task is rescheduled as usual, 30 minutes later.
- `get_next_run` reschedules a due task from `now`, even though the task has
  not run.

## Model

| member | source | states |
|---|---|---|
| WaveTask.PeekedNextRun | wave/app.py:75-79 | the time reported after peeking: `now` plus the interval when due, the stored time when not, and so later than `now` for a positive interval |
| WaveTask.Due | wave/app.py:62-69 | a task that has never run is due at every clock reading; a task with a stored time is due exactly from that time on |
| WaveTask.PeekIsIdempotent | wave/app.py:62-79 | after one peek a task is no longer due at the same instant, so peeking again reports the same time |
| WaveTask.Task.constructor | wave/app.py:25-32 | a new task has no next-run time, has never run, and is due at every clock reading |
| WaveTask.Task.IsPastNextRun | wave/app.py:62-69 | the same on the task's stored next-run time: due when it never ran, and otherwise exactly from the stored time on |
| WaveTask.Task.ScheduleNextRun | wave/app.py:59-60 | the next run is set to `t` plus the interval |
| WaveTask.Task.Run | wave/app.py:41-57 | the action is invoked exactly once, whatever it raises is absorbed, and the task is due again exactly from `finishedAt` plus the interval |
| WaveTask.Task.MaybeRun | wave/app.py:71-73 | the action runs if and only if the task was due at `now`; otherwise nothing changes |
| WaveTask.Task.GetNextRun | wave/app.py:75-79 | a due task is rescheduled from `now` and a task that is not due keeps its time; the reported time is the stored one, and for a positive interval it is after `now` and the task is no longer due |
| WaveTask.PeekTwice | wave/app.py:75-79 | two consecutive peeks at one instant report the same time and invoke nothing |
| WaveDevices.SampleOf | wave/app.py:124-134 | a device's sample is present exactly when its read succeeded, and it is that read's sample |
| WaveDevices.CollectedIsIsolated | wave/app.py:123-134 | the pair recorded for a device depends only on that device's own read |
| WaveDevices.Dedup | wave/app.py:152 | the device list built from the scan has no duplicates, holds exactly the scanned devices, and is no longer than the scan |
| WaveDevices.AfterScan | wave/app.py:150-159 | after a scan the list holds exactly the scanned devices without duplicates, an empty scan empties it, and a scan that raises leaves it unchanged |
| WaveDevices.DiscoveryDiff | wave/app.py:143-146 | a device is added exactly when it was found and not listed before, and removed exactly when it was listed and not found |
| WaveDevices.DiscoveryDiffIsExact | wave/app.py:138-148 | added and removed devices are disjoint, a device seen in both scans is in neither, and each side of the diff rebuilds the other device set |
| WaveDevices.DiscoveryDiffExample | wave/app.py:143-146 | previous {x, y} and found {y, z} give added {z} and removed {x} |
| WavePublish.ErrorPayload | wave/app.py:220-224 | the error object has exactly the keys `error` and `message`, holding the given values |
| WavePublish.Messages | wave/app.py:98-115 | one message per sample, in order: the sample topic with QoS 1 and retain for a sample, the error topic with the helper defaults otherwise |
| WavePublish.TopicDetermines | wave/app.py:105-113 | a `sample` or `error` topic determines both the serial number and the topic kind |
| WavePublish.SampleMessageTopicDetermines | wave/app.py:101-115 | equal topics mean the same device and the same kind of message (sample or error) |
| WavePublish.SampleMessagesCountSamples | wave/app.py:98-115 | the number of sample messages equals the number of devices that gave a sample |
| WavePublish.ReadCycleExample | wave/app.py:117-136 | a device that answers and one that times out give one sample message followed by one `connection-failed` error |
| WaveBackoff.WaitFrom | wave/app.py:161-182 | the wait never consumes more scans than the script holds; it is still waiting only once the script is exhausted, and otherwise it used at least one more scan |
| WaveBackoff.WaitStep | wave/app.py:165-182 | a scan that neither finds devices nor makes a third failure in a row lets the loop go on with the failure streak tracked |
| WaveBackoff.WaitEnds | wave/app.py:165-182 | the loop ends at a scan that finds devices (discovered) or at a third failure in a row (aborted) |
| WaveBackoff.WaitUntilDecisive | wave/app.py:165-182 | the loop stops exactly at the first scan that finds devices or completes three failures in a row |
| WaveBackoff.WaitWithoutDecisive | wave/app.py:165-182 | without such a scan the loop goes through the whole script and is still waiting with no devices |
| WaveBackoff.WaitStopsAtFirstDecisive | wave/app.py:161-182 | the wait makes j+1 scans and j one-minute sleeps, ending at the first decisive scan j: discovered with exactly that scan's devices, or aborted with none |
| WaveBackoff.WaitNeverStops | wave/app.py:161-182 | with no decisive scan, every scan is followed by a one-minute sleep and the wait is still going |
| WaveBackoff.WaitReturnsOnlyWithDevices | wave/app.py:176-179 | the wait reports discovery exactly when the device list is non-empty |
| WaveBackoff.SuccessResetsStreak | wave/app.py:175-176 | a scan that returns normally resets the failure streak: two failures, an empty scan, two failures do not abort |
| WaveBackoff.ThreeRaisesAbort | wave/app.py:169-172 | three failing scans in a row abort after two one-minute sleeps, whatever follows |
| WaveApp.ReadSamples | wave/app.py:123-134 | one pair per device, in the list's order, each holding that device's own sample or nothing |
| WaveApp.App.constructor | wave/app.py:85-96 | a new app has the two tasks with their names and intervals, no devices, is not running, and has published and slept nothing |
| WaveApp.App.PublishSamples | wave/app.py:98-115 | the published log grows by exactly the messages for the samples, in order |
| WaveApp.App.Discover | wave/app.py:150-159 | the device list becomes the deduplicated scan, or stays as it was when the scan raises; the reported diff is the exact added/removed sets |
| WaveApp.App.WaitUntilDiscover | wave/app.py:161-182 | result, devices and one-minute sleeps are those of the retry policy; it reports discovery exactly when the list became non-empty |
| WaveApp.App.Read | wave/app.py:117-136 | with devices, every device is read and its message published; with none, the wait runs and nothing is published, whatever it found |
| WaveApp.App.RunTasks | wave/app.py:184-186 | the state afterwards is exactly `TasksAfter` of the state before: both schedules, both invocation traces, the device list, the published log and the sleeps; new sleeps are one minute each |
| WaveApp.TasksAfterFacts | wave/app.py:117-186 | discovery runs first when due; the read runs exactly when due and reads the list discovery left; with devices it publishes their messages and reschedules; with none it waits, publishes nothing, keeps the wait's devices and one-minute sleeps, and stays scheduled while the wait goes on |
| WaveApp.TasksAfterGrows | wave/app.py:184-186 | one `__run_tasks` only appends to the published log, and only one-minute sleeps to the sleep log |
| WaveApp.App.UpdateLoopStep | wave/app.py:195-203 | the sleep is the earlier of the two peeked next-run times minus `now` and always positive; the tasks then run exactly as in `TasksAfter`, from the state with both tasks peeked at `now` and the sleep logged, so the read runs exactly when its peeked time has come |
| WaveApp.App.UpdateLoop | wave/app.py:195-203 | the state after the loop is exactly `LoopAfter`: pass after pass of peek, sleep and due tasks, until the ticks run out or the read task is left waiting |
| WaveApp.LoopAfterExtends | wave/app.py:195-203 | the loop only appends to the published and sleep logs, and every sleep it adds is positive |
| WaveApp.RunAfterExtends | wave/app.py:188-203 | a whole run, start-up pass included, only appends to the logs, and every sleep it adds is positive |
| WaveApp.PeekedSleepPositive | wave/app.py:195-197 | the loop's sleep, the nearer peeked time minus `now`, is positive |
| WaveApp.App.Run | wave/app.py:188-212 | a second concurrent run is refused without effect; otherwise the state afterwards is exactly `RunAfter`: the start-up `__run_tasks`, then the loop over the ticks; the running flag is restored and every sleep logged is positive |
| WaveApp.Create | wave/app.py:85-87 | an app is built exactly when the MQTT client is connected |
| WaveApp.StartupSleep | wave/app.py:188-203 | after the first run on a fresh app with a device that answers, the loop sleeps for 30 minutes, until the next read |
| WavePlusRecord.Signed8 | airthingswave-mqtt/airthingswave.py:93-94 | a `b` field is the byte read as a signed 8-bit integer, congruent to it mod 256 |
| WavePlusRecord.U16LE | airthingswave-mqtt/airthingswave.py:93-94 | an `H` field is a little-endian unsigned 16-bit integer made of its two bytes |
| WavePlusRecord.Unpack | airthingswave-mqtt/airthingswave.py:93-94 | unpacking succeeds exactly for 20-byte values, and each field is then in its type's range |
| WavePlusRecord.UnpackPack | airthingswave-mqtt/airthingswave.py:93-94 | unpacking a packed record gives the record and its padding back |
| WavePlusRecord.PackUnpack | airthingswave-mqtt/airthingswave.py:93-94 | every 20-byte value is the packing of its own fields and padding |
| WavePlusRecord.Decode | airthingswave-mqtt/airthingswave.py:93-104 | decoding succeeds exactly for 20-byte values |
| WavePlusRecord.ScaledKeys | airthingswave-mqtt/airthingswave.py:95-104 | the readings are always the eight keys humidity to voc, in dict order and distinct |
| WavePlusRecord.Scaled | airthingswave-mqtt/airthingswave.py:95-104 | eight readings, the radon averages as integers and the rest as floats; multiplying back by 2, 100 and 50 gives humidity, temperature and pressure, and light, CO2 and VOC are unchanged |
| WavePlusRecord.ScaledIsInjective | airthingswave-mqtt/airthingswave.py:95-104 | the scaled readings determine every raw field |
| WavePlusRecord.DecodeRoundTrip | airthingswave-mqtt/airthingswave.py:93-104 | decoding a packed record gives its scaled readings |
| WavePlusRecord.DecodeDeterminesFields | airthingswave-mqtt/airthingswave.py:93-104 | two records decode alike exactly when their unpacked fields agree |
| WavePlusRecord.DecodeExample | airthingswave-mqtt/airthingswave.py:93-104 | a concrete record decodes to 20 % humidity, 23.5 degrees, 1005 hPa, 600 ppm CO2 and its other values |
| AirthingsDevice.RetryFromCharacterized | airthingswave-mqtt/airthingswave.py:42-57 | from any point of the attempt loop, the result is the first connection or non-BTLE error, or after all BTLE failures the last of them chained to the earlier ones |
| AirthingsDevice.RetryCharacterized | airthingswave-mqtt/airthingswave.py:42-57 | connection on the first successful attempt; a non-BTLE error escapes at once; after all attempts fail the last BTLE error is raised with the earlier ones as causes; no attempts at all raises `None` |
| AirthingsDevice.PeripheralWithRetries | airthingswave-mqtt/airthingswave.py:42-57 | the loop's result and its one-second sleeps are those of the retry policy |
| AirthingsDevice.Decode16 | airthingswave-mqtt/airthingswave.py:30 | `H` gives the little-endian unsigned value of the two bytes; `h` gives the signed 16-bit value congruent to it modulo 65536 |
| AirthingsDevice.SensorRead | airthingswave-mqtt/airthingswave.py:25-31 | a read succeeds exactly when the characteristic is unreadable or holds two bytes; it then gives one reading under the sensor's name, absent when unreadable and otherwise the decoded value times the scale; a missing characteristic, a read error and a wrong length each raise their own error |
| AirthingsDevice.ReadSensorsFailureSticks | airthingswave-mqtt/airthingswave.py:79-85 | once a sensor read raises, the later sensors are not read and the exception is the result |
| AirthingsDevice.ReadSensorsShape | airthingswave-mqtt/airthingswave.py:79-85 | on success there is one reading per sensor, in table order, each that sensor's own read |
| AirthingsDevice.ReadSensorsSucceedsIff | airthingswave-mqtt/airthingswave.py:79-85 | the sensor loop succeeds exactly when every sensor's characteristic is unreadable or holds two bytes |
| AirthingsDevice.PlusReadingsKeys | airthingswave-mqtt/airthingswave.py:89-104 | a Wave Plus read succeeds exactly on a 20-byte value, giving the eight keys in order with the record's scaled fields |
| AirthingsDevice.PeripheralReleased | airthingswave-mqtt/airthingswave.py:71-77 | the peripheral is disconnected exactly when it was obtained, as the last effect and even when the read raises; at most three one-second sleeps |
| AirthingsDevice.ReadingsOf | airthingswave-mqtt/airthingswave.py:71-104 | a read that could not connect fails with the connection error; the disconnect is the last effect exactly when the peripheral was obtained |
| AirthingsDevice.V1ReadingsKeys | airthingswave-mqtt/airthingswave.py:34-39 | a first-generation read succeeds exactly when it connected and every sensor answered (unreadable or two bytes); it then gives temperature, humidity, radon_short and radon_long, in that order |
| AirthingsDevice.ReadV1Sensors | airthingswave-mqtt/airthingswave.py:79-85 | the loop gives the readings of the sensor table, stopping at the first exception |
| AirthingsDevice.GetReadings | airthingswave-mqtt/airthingswave.py:71-104 | readings and effects (sleeps, disconnect) are those of the model's `get_readings` |
| AirthingsBridge.SelectsWavePlusIff | airthingswave-mqtt/airthingswave.py:122-125 | the version selects a Wave Plus exactly when it is the integer 2 or the string "2" |
| AirthingsBridge.MissingVersionIsV1 | airthingswave-mqtt/airthingswave.py:122 | an entry without a version is a first-generation Wave |
| AirthingsBridge.ReadingEntriesIndex | airthingswave-mqtt/airthingswave.py:161-163 | reading k is published on `<name>/<key k>` with QoS 1 and retain |
| AirthingsBridge.TranscriptStatus | airthingswave-mqtt/airthingswave.py:165-180 | a wave's transcript holds exactly one status message, its last entry, ON exactly when the read succeeded |
| AirthingsBridge.StatusesOfLog | airthingswave-mqtt/airthingswave.py:165-180 | the statuses of the whole log are one per wave, in wave order |
| AirthingsBridge.OneStatusPerWave | airthingswave-mqtt/airthingswave.py:165-180 | one ON/OFF status per configured wave, in order, each decided only by that wave's own read: a failing wave never stops the others |
| AirthingsBridge.ReadingsPublished | airthingswave-mqtt/airthingswave.py:158-163 | after a successful read, the k-th reading is published right after the device effects |
| AirthingsBridge.Bridge.constructor | airthingswave-mqtt/airthingswave.py:110-118 | a bridge starts with no waves and nothing published |
| AirthingsBridge.Bridge.ParseConfig | airthingswave-mqtt/airthingswave.py:117-127 | one wave per entry, in order, a Wave Plus exactly when the version selects it; a missing `waves`, `name` or `addr` raises KeyError, keeping the waves built before it |
| AirthingsBridge.Bridge.PublishEvent | airthingswave-mqtt/airthingswave.py:154-156 | exactly one message is appended, with QoS 1 and retain |
| AirthingsBridge.Bridge.PublishValues | airthingswave-mqtt/airthingswave.py:161-163 | one retained QoS 1 message per reading, in order |
| AirthingsBridge.Bridge.PublishWaveReadings | airthingswave-mqtt/airthingswave.py:158-163 | success exactly when the read succeeded; the log gains the device effects and the readings, and no readings when the read raised |
| AirthingsBridge.Bridge.PublishWave | airthingswave-mqtt/airthingswave.py:166-180 | one loop iteration appends the wave's transcript: effects, readings, then its status |
| AirthingsBridge.Bridge.PublishReadings | airthingswave-mqtt/airthingswave.py:165-180 | the log grows by every wave's transcript, in configuration order |

## Left out

- Bluetooth LE scanning, connection and GATT reads are parameters rather than I/O:
  - a scan outcome script for `WaveFinder.scan`;
  - a per-device read outcome for `_read_device_sample`;
  - per-attempt connection outcomes, characteristic outcomes and the record handle's outcome, given to `publish_readings` per position in the configured wave list.
- The sample protocol of `wave/` (`device.py`, `protocols.py`, `discovery.py`, `events.py`) is not part of this model. A sample is a map from names to values.
- MQTT is a log of messages.
  - A publish is assumed to succeed; broker failures are not modelled.
  - JSON serialisation and `publish_json_message` are not modelled beyond the topic, payload object and delivery options.
  - `mqtt_connect`, `mqtt_disconnect` and the YAML file loading in `AirthingsWave_mqtt.__init__` are not modelled. A `Bridge` is built empty and then given a parsed configuration.
- Logging and `print` are left out, since they change no state. `__log_discovery`'s added/removed sets are returned as a value.
- The 60-second `timeout_interrupt` is not modelled as a timer. A read that times out is one of the outcomes the read parameter can give.
- The clock: `time.time()` values are explicit arguments, and `time.sleep` appends to a log. `WaveApp.App.RunTasks` models `__run_tasks`' `maybe_run()` calls with the clock readings `Tick.discoverCheck` and `Tick.readCheck`. `get_next_run()` with `now` omitted is not modelled: on a due task it raises TypeError (`None + interval`, `wave/app.py:77` and `60`), and the source never calls it that way.
- The two infinite loops are bounded by their inputs:
  - the discovery wait by the finite scan script, ending as still waiting when it runs out;
  - `__update_loop` by a finite sequence of ticks. It also stops after a pass whose read is still waiting for devices, because the source would still be inside that wait. `WaveApp.RunAfter` states the state at that point.
- Python sets have no defined iteration order. The device list keeps the first occurrence of each scanned device, in scan order. Devices are equal when their serial numbers are.
- Floating point is exact `real` arithmetic.
  - `str()` of a scaled first-generation value is the `real` itself (`FloatText`), not its decimal text.
  - A version that is a YAML float, boolean or null is one "other" scalar. None of these prints as "2" (`2.0` prints as "2.0"), so the model tells only ints and strings apart.
- `struct.unpack("h", …)` and `"H"` without a prefix use the platform's native byte order. The model fixes it to little-endian.
- `AirthingsDevice.ReadSensors` distinguishes three errors:
  - the IndexError of `getCharacteristics(...)[0]` when no characteristic matches is `NoCharacteristic`;
  - an exception raised by the read is `ReadError`;
  - a value that is not two bytes long is `UnpackFailed`.

  Exception texts are not kept.
- `AirthingsBridge.Bridge.ParseConfig`: a `waves` value that is not a list (such as YAML `null`) is not modelled. The configuration is a list or absent.
- Exceptions other than the ones named in the source are not modelled, for example a publish raising inside `publish_readings`.

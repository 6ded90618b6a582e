/**
 * The orchestrator of wave/app.py: the device list, the read and discovery
 * tasks, the read cycle with its publishes, the discovery backoff and the
 * update loop. The finder's scans, the per-device reads and the clock are
 * inputs; publishes and sleeps are appended to logs.
 */
module WaveApp {
  import opened Wrappers
  import opened WaveTask
  import opened WaveDevices
  import opened WavePublish
  import opened WaveBackoff

  const SecondsPerMinute: real := 60.0
  const SecondsPerHour: real := 60.0 * SecondsPerMinute
  const ReadInterval: real := 30.0 * SecondsPerMinute
  const DiscoveryInterval: real := 24.0 * SecondsPerHour

  /** How far an action got: it finished (returned or raised), or it is still inside the discovery wait. */
  datatype Progress = Finished(outcome: ActionOutcome) | Blocked

  /**
   * The world during one `__run_tasks`: the clock when each task is checked and
   * when it finishes, what the discovery task's scan does, the scans the
   * backoff makes if the read task has to wait, and what reading each device does.
   */
  datatype Tick = Tick(
    discoverCheck: real, scan: ScanOutcome, discoverDone: real,
    readCheck: real, waitScans: seq<ScanOutcome>, readDevice: Device -> ReadOutcome, readDone: real)

  /** `time.sleep` calls of `seconds` each, `n` times. */
  function Repeat(seconds: real, n: nat): seq<real> {
    seq(n, _ => seconds)
  }

  function Min(a: real, b: real): real {
    if a <= b then a else b
  }

  /** What `__read` amounts to when it had to wait first: the wait's re-raise propagates out of it. */
  function WaitProgress(r: WaitResult): Progress {
    match r
    case Discovered => Finished(Returned)
    case Aborted => Finished(Raised)
    case StillWaiting => Blocked
  }

  /** The loop of `__read`: one pair per device, in list order, each from that device's own read. */
  method ReadSamples(devices: seq<Device>, readDevice: Device -> ReadOutcome)
    returns (samples: seq<(Device, Option<Sample>)>)
    ensures |samples| == |devices|
    ensures forall i :: 0 <= i < |devices| ==>
              samples[i].0 == devices[i] && (samples[i].1.Some? <==> readDevice(devices[i]).ReadOk?)
    ensures samples == Collected(devices, readDevice)
  {
    samples := [];
    for i := 0 to |devices|
      invariant |samples| == i
      invariant forall k :: 0 <= k < i ==> samples[k] == (devices[k], SampleOf(readDevice(devices[k])))
    {
      var sample: Option<Sample> := None;
      match readDevice(devices[i]) {
        case ReadOk(s) => sample := Some(s);
        case ReadTimeout =>    // logged; no sample
        case ReadFailure =>    // logged; no sample
      }
      assert sample == SampleOf(readDevice(devices[i]));
      samples := samples + [(devices[i], sample)];
    }
  }

  /** What of an `App` the update loop can change: both tasks, the device list and the two logs. */
  datatype Snapshot = Snapshot(
    readAt: Option<real>, readRuns: seq<ActionOutcome>,
    discoverAt: Option<real>, discoverRuns: seq<ActionOutcome>,
    devices: seq<Device>, published: seq<Message>, slept: seq<real>)

  /** The device list the read task sees in a tick: discovery's result when discovery was due. */
  function Seen(t: Tick, s: Snapshot): seq<Device> {
    if Due(s.discoverAt, t.discoverCheck) then AfterScan(s.devices, t.scan) else s.devices
  }

  /** The state after discovery's `maybe_run` in tick `t`. */
  function AfterDiscovery(t: Tick, s: Snapshot): Snapshot {
    if Due(s.discoverAt, t.discoverCheck) then
      s.(devices := AfterScan(s.devices, t.scan),
         discoverAt := Some(t.discoverDone + DiscoveryInterval),
         discoverRuns := s.discoverRuns + [if t.scan.ScanRaised? then Raised else Returned])
    else s
  }

  /**
   * `__run_tasks` in tick `t` from state `s`: the state afterwards, and how far
   * the read task got (None when it was not due).
   */
  function TasksAfter(t: Tick, s: Snapshot): (Snapshot, Option<Progress>) {
    var d := AfterDiscovery(t, s);
    if !Due(d.readAt, t.readCheck) then (d, None)
    else if d.devices != [] then
      (d.(published := d.published + Messages(Collected(d.devices, t.readDevice)),
          readAt := Some(t.readDone + ReadInterval), readRuns := d.readRuns + [Returned]),
       Some(Finished(Returned)))
    else
      var w := Wait(t.waitScans);
      var p := WaitProgress(w.result);
      var waited := d.(devices := w.devices, slept := d.slept + Repeat(SecondsPerMinute, Sleeps(w)));
      if p.Finished? then
        (waited.(readAt := Some(t.readDone + ReadInterval), readRuns := waited.readRuns + [p.outcome]), Some(p))
      else (waited, Some(p))
  }

  /** The state once both tasks were peeked at `now` and the loop slept `sleepTime`. */
  function Peeked(s: Snapshot, now: real, sleepTime: real): Snapshot {
    s.(readAt := Some(PeekedNextRun(s.readAt, ReadInterval, now)),
       discoverAt := Some(PeekedNextRun(s.discoverAt, DiscoveryInterval, now)),
       slept := s.slept + [sleepTime])
  }

  /** The sleep of one loop pass at `now`: until the nearer of the two peeked next-run times. */
  function SleepAt(s: Snapshot, now: real): real {
    Min(PeekedNextRun(s.readAt, ReadInterval, now), PeekedNextRun(s.discoverAt, DiscoveryInterval, now)) - now
  }

  /**
   * The `while True` of `__update_loop` over clock readings `ticks`, from
   * state `s` after a pass whose read got as far as `read`: each pass peeks,
   * sleeps and runs the due tasks, until the ticks run out or the read task is
   * left waiting for devices.
   */
  function LoopAfter(ticks: seq<(real, Tick)>, s: Snapshot, read: Option<Progress>): Snapshot
    decreases |ticks|
  {
    if ticks == [] || read == Some(Blocked) then s
    else
      var next := TasksAfter(ticks[0].1, Peeked(s, ticks[0].0, SleepAt(s, ticks[0].0)));
      LoopAfter(ticks[1..], next.0, next.1)
  }

  /** `__update_loop`: the tasks run once at start-up with clock readings `first`, then the loop. */
  function RunAfter(first: Tick, ticks: seq<(real, Tick)>, s: Snapshot): Snapshot {
    var start := TasksAfter(first, s);
    LoopAfter(ticks, start.0, start.1)
  }

  /**
   * The update loop only adds to the logs: what was published and slept
   * before stays a prefix, every new sleep is positive, and every new
   * message is one the read task produced for a list of samples.
   */
  lemma {:induction false} LoopAfterExtends(ticks: seq<(real, Tick)>, s: Snapshot, read: Option<Progress>)
    ensures var a := LoopAfter(ticks, s, read);
      |a.published| >= |s.published| && a.published[..|s.published|] == s.published &&
      |a.slept| >= |s.slept| && a.slept[..|s.slept|] == s.slept &&
      forall k :: |s.slept| <= k < |a.slept| ==> a.slept[k] > 0.0
    decreases |ticks|
  {
    if ticks != [] && read != Some(Blocked) {
      var now := ticks[0].0;
      var p := Peeked(s, now, SleepAt(s, now));
      var next := TasksAfter(ticks[0].1, p);
      TasksAfterGrows(ticks[0].1, p);
      PeekedSleepPositive(s, now);
      LoopAfterExtends(ticks[1..], next.0, next.1);
      var a := LoopAfter(ticks[1..], next.0, next.1);
      assert a.published[..|s.published|] == a.published[..|next.0.published|][..|s.published|];
      assert a.slept[..|s.slept|] == a.slept[..|next.0.slept|][..|s.slept|];
      forall k | |s.slept| <= k < |a.slept|
        ensures a.slept[k] > 0.0
      {
        if k < |next.0.slept| {
          assert a.slept[k] == next.0.slept[k];
        }
      }
    }
  }

  /** A whole run of the update loop only appends to the logs, and every sleep it adds is positive. */
  lemma RunAfterExtends(first: Tick, ticks: seq<(real, Tick)>, s: Snapshot)
    ensures var a := RunAfter(first, ticks, s);
      |a.published| >= |s.published| && a.published[..|s.published|] == s.published &&
      |a.slept| >= |s.slept| && a.slept[..|s.slept|] == s.slept &&
      forall k :: |s.slept| <= k < |a.slept| ==> a.slept[k] > 0.0
  {
    var start := TasksAfter(first, s);
    TasksAfterGrows(first, s);
    LoopAfterExtends(ticks, start.0, start.1);
    var a := LoopAfter(ticks, start.0, start.1);
    assert a.published[..|s.published|] == a.published[..|start.0.published|][..|s.published|];
    assert a.slept[..|s.slept|] == a.slept[..|start.0.slept|][..|s.slept|];
    forall k | |s.slept| <= k < |a.slept|
      ensures a.slept[k] > 0.0
    {
      if k < |start.0.slept| {
        assert a.slept[k] == start.0.slept[k];
      }
    }
  }

  /** One `__run_tasks` only appends: to the published log, and one-minute sleeps to the sleep log. */
  lemma TasksAfterGrows(t: Tick, s: Snapshot)
    ensures var a := TasksAfter(t, s).0;
      |a.published| >= |s.published| && a.published[..|s.published|] == s.published &&
      |a.slept| >= |s.slept| && a.slept[..|s.slept|] == s.slept &&
      forall k :: |s.slept| <= k < |a.slept| ==> a.slept[k] == SecondsPerMinute
  {
    TasksAfterFacts(t, s);
  }

  /** The loop's sleep is positive, since both peeked times are after `now`. */
  lemma PeekedSleepPositive(s: Snapshot, now: real)
    ensures SleepAt(s, now) > 0.0
  {
  }

  /**
   * One `__run_tasks`: discovery runs first when due and leaves its result as
   * the device list; the read runs when due. It reads and publishes the list
   * discovery left when that list is non-empty; otherwise it waits, publishes
   * nothing, and keeps the wait's devices and one-minute sleeps. The read task
   * is rescheduled unless the wait is still going.
   */
  lemma TasksAfterFacts(t: Tick, s: Snapshot)
    ensures var (a, read) := TasksAfter(t, s);
      var due := Due(s.discoverAt, t.discoverCheck);
      var seen := Seen(t, s);
      var waits := read.Some? && seen == [];
      a.discoverRuns == s.discoverRuns + (if due then [if t.scan.ScanRaised? then Raised else Returned] else []) &&
      a.discoverAt == (if due then Some(t.discoverDone + DiscoveryInterval) else s.discoverAt) &&
      (read.Some? <==> Due(s.readAt, t.readCheck)) &&
      a.devices == (if waits then Wait(t.waitScans).devices else seen) &&
      a.slept == s.slept + (if waits then Repeat(SecondsPerMinute, Sleeps(Wait(t.waitScans))) else []) &&
      (read.Some? && seen != [] ==>
         read == Some(Finished(Returned)) && a.published == s.published + Messages(Collected(seen, t.readDevice))) &&
      (!(read.Some? && seen != []) ==> a.published == s.published) &&
      (waits ==> read == Some(WaitProgress(Wait(t.waitScans).result))) &&
      (read.None? || read == Some(Blocked) ==> a.readRuns == s.readRuns && a.readAt == s.readAt) &&
      (read.Some? && read.value.Finished? ==>
         a.readRuns == s.readRuns + [read.value.outcome] && a.readAt == Some(t.readDone + ReadInterval))
  {
  }

  class App {
    const readTask: Task
    const discoverTask: Task
    var devices: seq<Device>
    var updateLoopRunning: bool
    /** Every message published so far, oldest first. */
    var published: seq<Message>
    /** Every `time.sleep` so far, in seconds. */
    var slept: seq<real>

    ghost predicate Valid()
      reads this
    {
      readTask != discoverTask &&
      readTask.name == "Read Wave" && readTask.runInterval == ReadInterval &&
      discoverTask.name == "Discovery" && discoverTask.runInterval == DiscoveryInterval &&
      NoDuplicates(devices)
    }

    ghost function Snap(): Snapshot
      reads this, readTask, discoverTask
    {
      Snapshot(readTask.nextRunAt, readTask.invocations, discoverTask.nextRunAt, discoverTask.invocations,
               devices, published, slept)
    }

    /** `__init__` with a connected client: both tasks never run, no devices. */
    constructor ()
      ensures Valid() && fresh(readTask) && fresh(discoverTask)
      ensures devices == [] && !updateLoopRunning && published == [] && slept == []
      ensures readTask.nextRunAt == None && discoverTask.nextRunAt == None
      ensures readTask.invocations == [] && discoverTask.invocations == []
    {
      readTask := new Task("Read Wave", ReadInterval);
      discoverTask := new Task("Discovery", DiscoveryInterval);
      devices := [];
      updateLoopRunning := false;
      published := [];
      slept := [];
    }

    /** `__publish_samples`: one message per pair, in order. */
    method PublishSamples(samples: seq<(Device, Option<Sample>)>)
      modifies this`published
      ensures published == old(published) + Messages(samples)
    {
      for i := 0 to |samples|
        invariant published == old(published) + Messages(samples[..i])
      {
        assert samples[..i + 1][..i] == samples[..i];
        published := published + [SampleMessage(samples[i].0, samples[i].1)];
      }
      assert samples[..|samples|] == samples;
    }

    /**
     * `__discover`: a raising scan leaves the list alone; a returning scan
     * replaces it, even when it found nothing. The diff `__log_discovery`
     * reports is computed only when the scan found devices.
     */
    method Discover(scan: ScanOutcome) returns (outcome: ActionOutcome, diff: Option<DeviceDiff>)
      requires Valid()
      modifies this`devices
      ensures Valid()
      ensures devices == AfterScan(old(devices), scan)
      ensures outcome == (if scan.ScanRaised? then Raised else Returned)
      ensures diff == if FindsDevices(scan) then Some(DiscoveryDiff(Elems(old(devices)), Elems(scan.found))) else None
    {
      match scan
      case ScanRaised =>
        outcome, diff := Raised, None;
      case Scanned(found) =>
        diff := if found != [] then Some(DiscoveryDiff(Elems(devices), Elems(found))) else None;
        devices := Dedup(found);
        outcome := Returned;
    }

    /** `__wait_until_discover`, started with an empty list as `__read` does. */
    method WaitUntilDiscover(scans: seq<ScanOutcome>) returns (result: WaitResult)
      requires Valid() && devices == []
      modifies this`devices, this`slept
      ensures Valid()
      ensures result == Wait(scans).result && devices == Wait(scans).devices
      ensures slept == old(slept) + Repeat(SecondsPerMinute, Sleeps(Wait(scans)))
      ensures result == Discovered <==> devices != []
    {
      WaitReturnsOnlyWithDevices(scans, 0, 0);
      result := StillWaiting;
      var failStreak: nat := 0;
      var i := 0;
      while i < |scans|
        invariant 0 <= i <= |scans| && failStreak < MaxFailStreak
        invariant Valid() && devices == []
        invariant WaitFrom(devices, scans, i, failStreak) == Wait(scans)
        invariant slept == old(slept) + Repeat(SecondsPerMinute, i)
      {
        var outcome, _ := Discover(scans[i]);
        i := i + 1;
        if outcome == Raised {
          failStreak := failStreak + 1;
          if failStreak >= MaxFailStreak {
            result := Aborted;
            return;
          }
        } else {
          failStreak := 0;
        }
        if devices != [] {
          result := Discovered;
          return;
        }
        slept := slept + [SecondsPerMinute];
      }
    }

    /**
     * `__read`. The list is captured on entry; when it is empty the backoff
     * runs first, and the captured (empty) list is still what is read, so
     * nothing is published after waiting.
     */
    method Read(waitScans: seq<ScanOutcome>, readDevice: Device -> ReadOutcome) returns (progress: Progress)
      requires Valid()
      modifies this`devices, this`published, this`slept
      ensures Valid()
      ensures old(devices) != [] ==>
                progress == Finished(Returned) && devices == old(devices) && slept == old(slept) &&
                published == old(published) + Messages(Collected(old(devices), readDevice))
      ensures old(devices) == [] ==>
                progress == WaitProgress(Wait(waitScans).result) && devices == Wait(waitScans).devices &&
                slept == old(slept) + Repeat(SecondsPerMinute, Sleeps(Wait(waitScans))) &&
                published == old(published)
    {
      var captured := devices;
      if captured == [] {
        var result := WaitUntilDiscover(waitScans);
        if result == Aborted {
          return Finished(Raised);
        } else if result == StillWaiting {
          return Blocked;
        }
      }
      var samples := ReadSamples(captured, readDevice);
      PublishSamples(samples);
      progress := Finished(Returned);
    }

    /**
     * `__run_tasks`: the discovery task is checked and run first, then the read
     * task, so a read in the same tick sees the list discovery just produced.
     * Whatever an action raised is swallowed by its task. `read` is None when
     * the read task was not due.
     */
    method RunTasks(t: Tick) returns (read: Option<Progress>)
      requires Valid()
      modifies this`devices, this`published, this`slept, readTask, discoverTask
      ensures Valid()
      ensures (Snap(), read) == TasksAfter(t, old(Snap()))
      ensures |slept| >= |old(slept)| && slept[..|old(slept)|] == old(slept)
      ensures forall k :: |old(slept)| <= k < |slept| ==> slept[k] == SecondsPerMinute
    {
      // `Task.MaybeRun` takes the action's outcome as given; here the action is
      // this object's own `Discover`/`Read`, which must run only when the task
      // is due, so the check is made here and `Task.Run` records the invocation.
      if discoverTask.IsPastNextRun(t.discoverCheck) {
        var outcome, _ := Discover(t.scan);
        discoverTask.Run(outcome, t.discoverDone);
      }
      assert Snap() == AfterDiscovery(t, old(Snap()));
      read := None;
      if readTask.IsPastNextRun(t.readCheck) {
        var progress := Read(t.waitScans, t.readDevice);
        if progress.Finished? {
          readTask.Run(progress.outcome, t.readDone);
        }
        read := Some(progress);
      }
    }

    /**
     * One pass of the `while True` in `__update_loop`: peek at both tasks,
     * sleep until the nearer one, then run the tasks that are due from the
     * peeked state. The sleep is always positive.
     */
    method UpdateLoopStep(now: real, t: Tick) returns (sleepTime: real, read: Option<Progress>)
      requires Valid()
      modifies this`devices, this`published, this`slept, readTask, discoverTask
      ensures Valid()
      ensures sleepTime == Min(PeekedNextRun(old(readTask.nextRunAt), ReadInterval, now),
                               PeekedNextRun(old(discoverTask.nextRunAt), DiscoveryInterval, now)) - now
      ensures sleepTime > 0.0
      ensures (Snap(), read) == TasksAfter(t, Peeked(old(Snap()), now, sleepTime))
      ensures read.Some? <==> t.readCheck >= PeekedNextRun(old(readTask.nextRunAt), ReadInterval, now)
      ensures |slept| > |old(slept)| && slept[..|old(slept)|] == old(slept) && slept[|old(slept)|] == sleepTime
      ensures forall k :: |old(slept)| <= k < |slept| ==> slept[k] > 0.0
    {
      var readNext := readTask.GetNextRun(now);
      var discoverNext := discoverTask.GetNextRun(now);
      sleepTime := Min(readNext, discoverNext) - now;
      slept := slept + [sleepTime];
      read := RunTasks(t);
    }

    /**
     * The `while True` of `__update_loop` after its start-up pass, whose read
     * got as far as `read`. The source loop never ends by itself; here it
     * leaves when the ticks run out or the read task is still waiting.
     */
    method UpdateLoop(ticks: seq<(real, Tick)>, read: Option<Progress>)
      requires Valid()
      modifies this`devices, this`published, this`slept, readTask, discoverTask
      ensures Valid()
      ensures Snap() == LoopAfter(ticks, old(Snap()), read)
    {
      var last := read;
      var i := 0;
      while i < |ticks| && last != Some(Blocked)
        invariant 0 <= i <= |ticks|
        invariant Valid()
        invariant LoopAfter(ticks[i..], Snap(), last) == LoopAfter(ticks, old(Snap()), read)
      {
        assert ticks[i..][1..] == ticks[i + 1..];
        ghost var before := Snap();
        var sleepTime;
        sleepTime, last := UpdateLoopStep(ticks[i].0, ticks[i].1);
        assert sleepTime == SleepAt(before, ticks[i].0);
        i := i + 1;
      }
    }

    /**
     * `run`: refuses (the assertion fails) while the loop is running; otherwise
     * sets the flag, runs the tasks once, then loops, and clears the flag on
     * the way out.
     */
    method Run(first: Tick, ticks: seq<(real, Tick)>) returns (refused: bool)
      requires Valid()
      modifies this, readTask, discoverTask
      ensures Valid()
      ensures refused == old(updateLoopRunning)
      ensures updateLoopRunning == old(updateLoopRunning)
      ensures refused ==> devices == old(devices) && published == old(published) && slept == old(slept) &&
                          unchanged(readTask, discoverTask)
      ensures !refused ==> Snap() == RunAfter(first, ticks, old(Snap()))
      ensures |slept| >= |old(slept)| && slept[..|old(slept)|] == old(slept)
      ensures forall k :: |old(slept)| <= k < |slept| ==> slept[k] > 0.0
    {
      refused := updateLoopRunning;
      if refused {
        return;
      }
      updateLoopRunning := true;
      assert Snap() == old(Snap());
      var read := RunTasks(first);
      UpdateLoop(ticks, read);
      RunAfterExtends(first, ticks, old(Snap()));
      ghost var final := Snap();
      updateLoopRunning := false;
      assert Snap() == final;
    }
  }

  /** `App(mqtt_client)`: a client that is not connected is rejected with a ValueError (None here). */
  method Create(clientConnected: bool) returns (app: Option<App>)
    ensures app.Some? <==> clientConnected
    ensures app.Some? ==> fresh(app.value) && app.value.Valid() && app.value.devices == [] &&
                          !app.value.updateLoopRunning && app.value.readTask.nextRunAt == None &&
                          app.value.discoverTask.nextRunAt == None
  {
    if !clientConnected {
      return None;
    }
    var a := new App();
    app := Some(a);
  }

  /**
   * Start-up: both tasks are due, run once at clock 0 and finish instantly;
   * the first sleep of the loop is then the read interval, 1800 seconds.
   */
  method StartupSleep(d: Device, s: Sample, later: Tick) returns (sleepTime: real)
    ensures sleepTime == 1800.0
  {
    var app := new App();
    var start := Tick(0.0, Scanned([d]), 0.0, 0.0, [], _ => ReadOk(s), 0.0);
    assert d in Elems(AfterScan([], start.scan));
    var read := app.RunTasks(start);
    sleepTime, read := app.UpdateLoopStep(0.0, later);
  }
}

/**
 * Devices, samples and the outcomes of the two device-facing collaborators of
 * wave/app.py (the per-device read and the finder's scan), with the device-list
 * bookkeeping that `__discover` and `__log_discovery` do.
 */
module WaveDevices {
  import opened Wrappers

  /** A Wave device. Sets of devices compare devices by their serial number. */
  datatype Device = Device(serialNumber: string)

  /** A sample read from one device: sensor name to value. */
  datatype Sample = Sample(readings: map<string, real>)

  /** What reading one device did: a sample, the 60-second timeout, or any other exception. */
  datatype ReadOutcome = ReadOk(sample: Sample) | ReadTimeout | ReadFailure

  /** What one call of the finder's scan did: the devices it yielded (repeats allowed), or an exception. */
  datatype ScanOutcome = Scanned(found: seq<Device>) | ScanRaised

  /** The sample recorded for a device: present only when its read succeeded. */
  function SampleOf(o: ReadOutcome): (s: Option<Sample>)
    ensures s.Some? <==> o.ReadOk?
    ensures s.Some? ==> s.value == o.sample
  {
    match o
    case ReadOk(sample) => Some(sample)
    case ReadTimeout => None
    case ReadFailure => None
  }

  /** The (device, sample-or-None) pairs `__read` collects for `devices`. */
  function Collected(devices: seq<Device>, readDevice: Device -> ReadOutcome): seq<(Device, Option<Sample>)> {
    seq(|devices|, i requires 0 <= i < |devices| => (devices[i], SampleOf(readDevice(devices[i]))))
  }

  /**
   * Reads are isolated: the pair recorded for a device depends on that device's
   * own read and on nothing else, so a timeout or failure elsewhere never changes it.
   */
  lemma CollectedIsIsolated(devices: seq<Device>, read1: Device -> ReadOutcome, read2: Device -> ReadOutcome, i: nat)
    requires i < |devices|
    requires read1(devices[i]) == read2(devices[i])
    ensures Collected(devices, read1)[i] == Collected(devices, read2)[i]
  {
  }

  predicate NoDuplicates<T(==)>(s: seq<T>) {
    forall i, j :: 0 <= i < j < |s| ==> s[i] != s[j]
  }

  function Elems<T>(s: seq<T>): set<T> {
    set x | x in s
  }

  /** `list(set(found))`: every found device once. Python's order is unspecified; this one keeps first occurrences. */
  function Dedup(found: seq<Device>): (r: seq<Device>)
    ensures NoDuplicates(r)
    ensures Elems(r) == Elems(found)
    ensures |r| <= |found|
  {
    if found == [] then []
    else
      var init, last := found[..|found| - 1], found[|found| - 1];
      assert found == init + [last];
      assert Elems(found) == Elems(init) + {last};
      var rest := Dedup(init);
      assert Elems(rest + [last]) == Elems(rest) + {last};
      if last in rest then rest else rest + [last]
  }

  /** The device list after one call of `__discover`: replaced by any returned scan, even an empty one. */
  function AfterScan(devices: seq<Device>, scan: ScanOutcome): (r: seq<Device>)
    ensures scan.Scanned? ==> Elems(r) == Elems(scan.found) && NoDuplicates(r)
    ensures scan.Scanned? && scan.found == [] ==> r == []
    ensures scan.ScanRaised? ==> r == devices
  {
    match scan
    case Scanned(found) => Dedup(found)
    case ScanRaised => devices
  }

  /** What `__log_discovery` reports: devices new to the list and devices gone from it. */
  datatype DeviceDiff = DeviceDiff(added: set<Device>, removed: set<Device>)

  function DiscoveryDiff(previous: set<Device>, found: set<Device>): (diff: DeviceDiff)
    ensures forall d :: d in diff.added <==> d in found && d !in previous
    ensures forall d :: d in diff.removed <==> d in previous && d !in found
  {
    DeviceDiff(found - previous, previous - found)
  }

  /**
   * The diff accounts for the whole change: added and removed are disjoint,
   * devices in both sets appear in neither, and applying the diff to the old
   * set gives the new one.
   */
  lemma DiscoveryDiffIsExact(previous: set<Device>, found: set<Device>)
    ensures DiscoveryDiff(previous, found).added * DiscoveryDiff(previous, found).removed == {}
    ensures forall d :: d in previous && d in found ==>
              d !in DiscoveryDiff(previous, found).added && d !in DiscoveryDiff(previous, found).removed
    ensures (previous - DiscoveryDiff(previous, found).removed) + DiscoveryDiff(previous, found).added == found
    ensures (found - DiscoveryDiff(previous, found).added) + DiscoveryDiff(previous, found).removed == previous
  {
  }

  /** The scenario {X, Y} then {Y, Z}: X is removed, Z is added, Y is in neither. */
  lemma DiscoveryDiffExample(x: Device, y: Device, z: Device)
    requires x != y && y != z && x != z
    ensures DiscoveryDiff({x, y}, {y, z}) == DeviceDiff({z}, {x})
  {
  }
}

/**
 * The discovery backoff of wave/app.py (`__wait_until_discover`): scan until
 * some device is known, tolerating up to two raising scans in a row. The
 * source loops forever; here the successive scan outcomes are a finite
 * script, and a script that runs out before the loop ends leaves it waiting.
 */
module WaveBackoff {
  import opened WaveDevices

  const MaxFailStreak: nat := 3

  /** How the wait ended: devices known, the third raise in a row re-raised, or still scanning when the script ran out. */
  datatype WaitResult = Discovered | Aborted | StillWaiting

  /** The result, the device list afterwards, and how many scans were made. */
  datatype WaitRun = WaitRun(result: WaitResult, devices: seq<Device>, scansMade: nat)

  /** Minute-long sleeps the loop took: one after every scan that did not end it. */
  function Sleeps(w: WaitRun): nat {
    if w.result == StillWaiting then w.scansMade
    else if w.scansMade == 0 then 0
    else w.scansMade - 1
  }

  /** The loop from the scan at index `i` on, with `devices` and the current fail streak. */
  function WaitFrom(devices: seq<Device>, scans: seq<ScanOutcome>, i: nat, streak: nat): (w: WaitRun)
    requires i <= |scans|
    ensures i <= w.scansMade <= |scans|
    ensures w.result == StillWaiting ==> w.scansMade == |scans|
    ensures w.result != StillWaiting ==> w.scansMade > i
    decreases |scans| - i
  {
    if i == |scans| then WaitRun(StillWaiting, devices, i)
    else
      var devices' := AfterScan(devices, scans[i]);
      var streak' := if scans[i].ScanRaised? then streak + 1 else 0;
      if scans[i].ScanRaised? && streak' >= MaxFailStreak then WaitRun(Aborted, devices', i + 1)
      else if devices' != [] then WaitRun(Discovered, devices', i + 1)
      else WaitFrom(devices', scans, i + 1, streak')
  }

  /** The wait as `__read` starts it: empty device list, no failures yet. */
  function Wait(scans: seq<ScanOutcome>): WaitRun {
    WaitFrom([], scans, 0, 0)
  }

  predicate FindsDevices(scan: ScanOutcome) {
    scan.Scanned? && scan.found != []
  }

  /** The scan at `j` ends the wait: it finds devices, or it is the third raise in a row. */
  predicate Decisive(scans: seq<ScanOutcome>, j: nat)
    requires j < |scans|
  {
    FindsDevices(scans[j]) ||
    (j >= 2 && scans[j - 2].ScanRaised? && scans[j - 1].ScanRaised? && scans[j].ScanRaised?)
  }

  /** The number of raising scans immediately before index `i`. */
  function TrailingRaises(scans: seq<ScanOutcome>, i: nat): nat
    requires i <= |scans|
  {
    if i == 0 || !scans[i - 1].ScanRaised? then 0 else 1 + TrailingRaises(scans, i - 1)
  }

  /** Two trailing raises means the two scans just before `i` both raised. */
  lemma TwoTrailingRaises(scans: seq<ScanOutcome>, i: nat)
    requires i <= |scans|
    ensures TrailingRaises(scans, i) >= 2 <==> i >= 2 && scans[i - 1].ScanRaised? && scans[i - 2].ScanRaised?
  {
    if i >= 1 && scans[i - 1].ScanRaised? {
      assert TrailingRaises(scans, i) == 1 + TrailingRaises(scans, i - 1);
    }
  }

  /** One scan that does not end the wait: the list stays empty and the streak becomes the new trailing-raise count. */
  lemma WaitStep(scans: seq<ScanOutcome>, i: nat)
    requires i < |scans| && !Decisive(scans, i)
    requires TrailingRaises(scans, i) <= 2
    ensures TrailingRaises(scans, i + 1) <= 2
    ensures WaitFrom([], scans, i, TrailingRaises(scans, i)) == WaitFrom([], scans, i + 1, TrailingRaises(scans, i + 1))
  {
    TwoTrailingRaises(scans, i);
    assert AfterScan([], scans[i]) == [];
  }

  /** The decisive scan itself ends the wait. */
  lemma WaitEnds(scans: seq<ScanOutcome>, i: nat)
    requires i < |scans| && Decisive(scans, i)
    requires TrailingRaises(scans, i) <= 2
    ensures WaitFrom([], scans, i, TrailingRaises(scans, i)) ==
            if FindsDevices(scans[i]) then WaitRun(Discovered, Dedup(scans[i].found), i + 1)
            else WaitRun(Aborted, [], i + 1)
  {
    TwoTrailingRaises(scans, i);
    if FindsDevices(scans[i]) {
      assert Elems(Dedup(scans[i].found)) != {} by {
        assert scans[i].found[0] in Elems(scans[i].found);
      }
    }
  }

  /** Invariant of the loop before a decisive scan: the list is empty and the streak counts the trailing raises. */
  lemma {:induction false} WaitUntilDecisive(scans: seq<ScanOutcome>, i: nat, j: nat)
    requires i <= j < |scans|
    requires Decisive(scans, j)
    requires forall k :: i <= k < j ==> !Decisive(scans, k)
    requires TrailingRaises(scans, i) <= 2
    ensures WaitFrom([], scans, i, TrailingRaises(scans, i)) ==
            if FindsDevices(scans[j]) then WaitRun(Discovered, Dedup(scans[j].found), j + 1)
            else WaitRun(Aborted, [], j + 1)
    decreases j - i
  {
    if i < j {
      WaitStep(scans, i);
      WaitUntilDecisive(scans, i + 1, j);
    } else {
      WaitEnds(scans, i);
    }
  }

  /** Invariant of the loop when no scan is decisive: nothing ends the wait. */
  lemma {:induction false} WaitWithoutDecisive(scans: seq<ScanOutcome>, i: nat)
    requires i <= |scans|
    requires forall k :: i <= k < |scans| ==> !Decisive(scans, k)
    requires TrailingRaises(scans, i) <= 2
    ensures WaitFrom([], scans, i, TrailingRaises(scans, i)) == WaitRun(StillWaiting, [], |scans|)
    decreases |scans| - i
  {
    if i < |scans| {
      WaitStep(scans, i);
      WaitWithoutDecisive(scans, i + 1);
    }
  }

  /**
   * The wait stops at the first decisive scan: it returns with that scan's
   * devices when the scan found some, and re-raises when it was the third
   * raise in a row; every earlier scan was followed by a one-minute sleep.
   */
  lemma WaitStopsAtFirstDecisive(scans: seq<ScanOutcome>, j: nat)
    requires j < |scans| && Decisive(scans, j)
    requires forall k :: 0 <= k < j ==> !Decisive(scans, k)
    ensures Wait(scans).scansMade == j + 1 && Sleeps(Wait(scans)) == j
    ensures Wait(scans).result == (if FindsDevices(scans[j]) then Discovered else Aborted)
    ensures Wait(scans).result == Discovered ==> Elems(Wait(scans).devices) == Elems(scans[j].found)
    ensures Wait(scans).result == Aborted ==> Wait(scans).devices == []
  {
    WaitUntilDecisive(scans, 0, j);
  }

  /** Without a decisive scan the wait never ends: it sleeps after every scan and the list stays empty. */
  lemma WaitNeverStops(scans: seq<ScanOutcome>)
    requires forall k :: 0 <= k < |scans| ==> !Decisive(scans, k)
    ensures Wait(scans) == WaitRun(StillWaiting, [], |scans|)
    ensures Sleeps(Wait(scans)) == |scans|
  {
    WaitWithoutDecisive(scans, 0);
  }

  /** Returning from the wait means devices are known; otherwise the list is still empty. */
  lemma {:induction false} WaitReturnsOnlyWithDevices(scans: seq<ScanOutcome>, i: nat, streak: nat)
    requires i <= |scans|
    ensures WaitFrom([], scans, i, streak).result == Discovered <==> WaitFrom([], scans, i, streak).devices != []
    decreases |scans| - i
  {
    if i < |scans| {
      var devices' := AfterScan([], scans[i]);
      if devices' == [] {
        WaitReturnsOnlyWithDevices(scans, i + 1, if scans[i].ScanRaised? then streak + 1 else 0);
      }
    }
  }

  /** Fail, fail, empty success, fail, fail: the success resets the streak, so the wait never aborts. */
  lemma SuccessResetsStreak()
    ensures Wait([ScanRaised, ScanRaised, Scanned([]), ScanRaised, ScanRaised]).result == StillWaiting
  {
    var scans := [ScanRaised, ScanRaised, Scanned([]), ScanRaised, ScanRaised];
    forall k | 0 <= k < |scans| ensures !Decisive(scans, k) {
    }
    WaitNeverStops(scans);
  }

  /** Three raising scans: the wait re-raises after the third, not before, having slept twice. */
  lemma ThreeRaisesAbort(rest: seq<ScanOutcome>)
    ensures Wait([ScanRaised, ScanRaised, ScanRaised] + rest) == WaitRun(Aborted, [], 3)
    ensures Sleeps(Wait([ScanRaised, ScanRaised, ScanRaised] + rest)) == 2
  {
    var scans := [ScanRaised, ScanRaised, ScanRaised] + rest;
    assert Decisive(scans, 2);
    assert !Decisive(scans, 0) && !Decisive(scans, 1);
    WaitStopsAtFirstDecisive(scans, 2);
  }
}

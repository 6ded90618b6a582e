/**
 * `AirthingsWave_mqtt` of airthingswave-mqtt/airthingswave.py: the wave list
 * built from the configuration, and the publish loop that sends every wave's
 * readings followed by its online status. MQTT publishes are an appended log.
 */
module AirthingsBridge {
  import opened Wrappers
  import opened AirthingsDevice

  /** A YAML scalar as far as `str(...) == "2"` can tell: an int, a string, or anything else (float, bool, null). */
  datatype Scalar = IntScalar(i: int) | StrScalar(s: string) | OtherScalar

  /** One entry of the "waves" list; a key that is absent is None. */
  datatype WaveEntry = WaveEntry(name: Option<string>, addr: Option<string>, version: Option<Scalar>)

  datatype Config = Config(waves: Option<seq<WaveEntry>>)

  /** The KeyError a missing key raises. */
  datatype ConfigError = MissingKey(key: string)

  function DecimalDigit(d: int): char
    requires 0 <= d < 10
  {
    "0123456789"[d]
  }

  /** `str(n)` for an int. */
  function DecimalText(n: int): (s: string)
    ensures |s| >= 1
    ensures n >= 10 ==> |s| >= 2
    ensures n < 0 ==> s[0] == '-'
    decreases if n < 0 then 1 - n else n
  {
    if n < 0 then "-" + DecimalText(-n)
    else if n < 10 then [DecimalDigit(n)]
    else DecimalText(n / 10) + [DecimalDigit(n % 10)]
  }

  /**
   * `str(version) == "2"`. Floats print with a point or an exponent, booleans as
   * True/False and null as None, so only ints and strings can match.
   */
  predicate SelectsWavePlus(version: Scalar) {
    match version
    case IntScalar(i) => DecimalText(i) == "2"
    case StrScalar(s) => s == "2"
    case OtherScalar => false
  }

  /** Exactly the int 2 and the string "2" select the Wave Plus. */
  lemma SelectsWavePlusIff(version: Scalar)
    ensures SelectsWavePlus(version) <==> version == IntScalar(2) || version == StrScalar("2")
  {
    if version.IntScalar? {
      var i := version.i;
      if DecimalText(i) == "2" && 0 <= i < 10 {
        assert "0123456789"[i] == '2';
      }
    }
  }

  /** The version of an entry, "1" when absent. */
  function VersionOf(e: WaveEntry): Scalar {
    e.version.GetOr(StrScalar("1"))
  }

  /** The KeyError an entry raises: "name" is looked up before "addr". */
  function EntryError(e: WaveEntry): Option<ConfigError> {
    if e.name.None? then Some(MissingKey("name"))
    else if e.addr.None? then Some(MissingKey("addr"))
    else None
  }

  function WaveOf(e: WaveEntry): Wave
    requires EntryError(e).None?
  {
    Wave(e.name.value, e.addr.value, if SelectsWavePlus(VersionOf(e)) then WavePlus else WaveV1)
  }

  /** A missing version builds a plain `Wave`. */
  lemma MissingVersionIsV1(e: WaveEntry)
    requires EntryError(e).None? && e.version.None?
    ensures WaveOf(e).model == WaveV1
  {
    SelectsWavePlusIff(VersionOf(e));
  }

  datatype Payload = ReadingPayload(reading: Reading) | StatusPayload(text: string)

  datatype LogEntry = Published(topic: string, payload: Payload, qos: nat, retain: bool) | DeviceEffect(effect: Effect)

  function EffectEntries(effects: seq<Effect>): (entries: seq<LogEntry>)
    ensures |entries| == |effects|
  {
    if effects == [] then []
    else EffectEntries(effects[..|effects| - 1]) + [DeviceEffect(effects[|effects| - 1])]
  }

  /** `_publish_readings`' messages: one per reading, topic `<name>/<key>`, QoS 1, retained. */
  function ReadingEntries(name: string, values: seq<(string, Reading)>): (entries: seq<LogEntry>)
    ensures |entries| == |values|
  {
    if values == [] then []
    else
      var (key, value) := values[|values| - 1];
      ReadingEntries(name, values[..|values| - 1]) + [Published(name + "/" + key, ReadingPayload(value), 1, true)]
  }

  function StatusEntry(name: string, success: bool): LogEntry {
    Published(name + "/online", StatusPayload(if success then "ON" else "OFF"), 1, true)
  }

  /** What is logged for a wave named `name` whose read gave `r` with side effects `effects`. */
  function TranscriptOf(name: string, r: Readings, effects: seq<Effect>): seq<LogEntry> {
    EffectEntries(effects) +
    (if r.Readings? then ReadingEntries(name, r.values) else []) +
    [StatusEntry(name, r.Readings?)]
  }

  /** A read's result and the sleeps and disconnect that came with it. */
  type ReadResult = (Readings, seq<Effect>)

  /** Everything that happens for one wave in `publish_readings`. */
  function WaveTranscript(wave: Wave, env: DeviceEnv): seq<LogEntry> {
    var out := ReadingsOf(wave, env);
    TranscriptOf(wave.name, out.0, out.1)
  }

  /** Each wave's read, decided by the devices answering at that entry's position in the list. */
  function Outcomes(waves: seq<Wave>, env: nat -> DeviceEnv): (outs: seq<ReadResult>)
    ensures |outs| == |waves|
    ensures forall i :: 0 <= i < |waves| ==> outs[i] == ReadingsOf(waves[i], env(i))
  {
    seq(|waves|, i requires 0 <= i < |waves| => ReadingsOf(waves[i], env(i)))
  }

  /** The waves' transcripts one after another, given each wave's read. */
  function LogOf(waves: seq<Wave>, outs: seq<ReadResult>): seq<LogEntry>
    requires |outs| == |waves|
  {
    if waves == [] then []
    else LogOf(waves[..|waves| - 1], outs[..|waves| - 1]) +
         TranscriptOf(waves[|waves| - 1].name, outs[|waves| - 1].0, outs[|waves| - 1].1)
  }

  /** `publish_readings` over a list of waves. */
  function Transcripts(waves: seq<Wave>, env: nat -> DeviceEnv): seq<LogEntry> {
    LogOf(waves, Outcomes(waves, env))
  }

  /** One entry per effect, in order. */
  lemma {:induction false} EffectEntriesIndex(effects: seq<Effect>)
    ensures forall k :: 0 <= k < |effects| ==> EffectEntries(effects)[k] == DeviceEffect(effects[k])
  {
    if effects != [] {
      EffectEntriesIndex(effects[..|effects| - 1]);
    }
  }

  /** One message per reading, in order, under `<name>/<key>`. */
  lemma {:induction false} ReadingEntriesIndex(name: string, values: seq<(string, Reading)>)
    ensures forall k :: 0 <= k < |values| ==>
              ReadingEntries(name, values)[k] == Published(name + "/" + values[k].0, ReadingPayload(values[k].1), 1, true)
  {
    if values != [] {
      ReadingEntriesIndex(name, values[..|values| - 1]);
    }
  }

  /** The status messages of a log. */
  function Statuses(log: seq<LogEntry>): seq<LogEntry> {
    if log == [] then []
    else Statuses(log[..|log| - 1]) +
         (if log[|log| - 1].Published? && log[|log| - 1].payload.StatusPayload? then [log[|log| - 1]] else [])
  }

  lemma {:induction false} StatusesOfConcat(a: seq<LogEntry>, b: seq<LogEntry>)
    ensures Statuses(a + b) == Statuses(a) + Statuses(b)
    decreases |b|
  {
    if b == [] {
      assert a + b == a;
    } else {
      var b' := b[..|b| - 1];
      assert (a + b)[..|a + b| - 1] == a + b';
      StatusesOfConcat(a, b');
    }
  }

  lemma {:induction false} NoStatusInEffects(effects: seq<Effect>)
    ensures Statuses(EffectEntries(effects)) == []
  {
    if effects != [] {
      var init := effects[..|effects| - 1];
      var prefix := EffectEntries(init);
      assert (prefix + [DeviceEffect(effects[|effects| - 1])])[..|prefix|] == prefix;
      NoStatusInEffects(init);
    }
  }

  lemma {:induction false} NoStatusInReadings(name: string, values: seq<(string, Reading)>)
    ensures Statuses(ReadingEntries(name, values)) == []
  {
    if values != [] {
      var init := values[..|values| - 1];
      var prefix := ReadingEntries(name, init);
      var (key, value) := values[|values| - 1];
      assert (prefix + [Published(name + "/" + key, ReadingPayload(value), 1, true)])[..|prefix|] == prefix;
      NoStatusInReadings(name, init);
    }
  }

  /** A wave's transcript holds exactly one status, its last entry: ON iff its readings were obtained. */
  lemma TranscriptStatus(name: string, r: Readings, effects: seq<Effect>)
    ensures Statuses(TranscriptOf(name, r, effects)) == [StatusEntry(name, r.Readings?)]
    ensures TranscriptOf(name, r, effects)[|TranscriptOf(name, r, effects)| - 1] == StatusEntry(name, r.Readings?)
  {
    var rs := if r.Readings? then ReadingEntries(name, r.values) else [];
    NoStatusInEffects(effects);
    if r.Readings? {
      NoStatusInReadings(name, r.values);
    }
    assert Statuses(rs) == [];
    var status := StatusEntry(name, r.Readings?);
    StatusesOfConcat(EffectEntries(effects), rs);
    StatusesOfConcat(EffectEntries(effects) + rs, [status]);
    assert Statuses([status]) == [status] by {
      assert [status][..0] == [];
    }
  }

  /** The status `publish_readings` sends for `wave`: ON exactly when its readings were obtained. */
  function WaveStatus(wave: Wave, env: DeviceEnv): LogEntry {
    StatusEntry(wave.name, ReadingsOf(wave, env).0.Readings?)
  }

  lemma AppendAssoc<T>(a: seq<T>, b: seq<T>, c: seq<T>)
    ensures (a + b) + c == a + (b + c)
  {
  }

  lemma LogOfPrefixStep(waves: seq<Wave>, outs: seq<ReadResult>, i: nat)
    requires |outs| == |waves| && i < |waves|
    ensures LogOf(waves[..i + 1], outs[..i + 1]) == LogOf(waves[..i], outs[..i]) + TranscriptOf(waves[i].name, outs[i].0, outs[i].1)
  {
    assert waves[..i + 1][..i] == waves[..i];
    assert outs[..i + 1][..i] == outs[..i];
  }

  /** A log holding the first `i` transcripts, extended by the next, holds the first `i + 1`. */
  lemma LogOfStep(start: seq<LogEntry>, waves: seq<Wave>, outs: seq<ReadResult>, i: nat)
    requires |outs| == |waves| && i < |waves|
    ensures start + LogOf(waves[..i], outs[..i]) + TranscriptOf(waves[i].name, outs[i].0, outs[i].1)
            == start + LogOf(waves[..i + 1], outs[..i + 1])
  {
    LogOfPrefixStep(waves, outs, i);
    AppendAssoc(start, LogOf(waves[..i], outs[..i]), TranscriptOf(waves[i].name, outs[i].0, outs[i].1));
  }

  /** The statuses expected for reads `outs`: one per wave, in order. */
  function StatusesFor(waves: seq<Wave>, outs: seq<ReadResult>): (st: seq<LogEntry>)
    requires |outs| == |waves|
    ensures |st| == |waves|
  {
    seq(|waves|, i requires 0 <= i < |waves| => StatusEntry(waves[i].name, outs[i].0.Readings?))
  }

  lemma StatusesForStep(waves: seq<Wave>, outs: seq<ReadResult>)
    requires |outs| == |waves| && waves != []
    ensures StatusesFor(waves, outs) ==
            StatusesFor(waves[..|waves| - 1], outs[..|waves| - 1]) +
            [StatusEntry(waves[|waves| - 1].name, outs[|waves| - 1].0.Readings?)]
  {
  }

  /** The statuses of a log built from reads `outs`: one per wave, in order. */
  lemma {:induction false} StatusesOfLog(waves: seq<Wave>, outs: seq<ReadResult>)
    requires |outs| == |waves|
    ensures Statuses(LogOf(waves, outs)) == StatusesFor(waves, outs)
  {
    if waves != [] {
      var n := |waves| - 1;
      StatusesOfLog(waves[..n], outs[..n]);
      TranscriptStatus(waves[n].name, outs[n].0, outs[n].1);
      StatusesOfConcat(LogOf(waves[..n], outs[..n]), TranscriptOf(waves[n].name, outs[n].0, outs[n].1));
      StatusesForStep(waves, outs);
    }
  }

  /**
   * One status per wave, in wave order, each ON exactly when that wave's own
   * readings were obtained: a failing wave never stops or changes the ones after it.
   */
  lemma OneStatusPerWave(waves: seq<Wave>, env: nat -> DeviceEnv)
    ensures |Statuses(Transcripts(waves, env))| == |waves|
    ensures forall i :: 0 <= i < |waves| ==> Statuses(Transcripts(waves, env))[i] == WaveStatus(waves[i], env(i))
  {
    StatusesOfLog(waves, Outcomes(waves, env));
  }

  /** When a wave's readings are obtained, every reading is published under `<name>/<key>` with QoS 1, retained. */
  lemma ReadingsPublished(wave: Wave, env: DeviceEnv, k: nat)
    requires ReadingsOf(wave, env).0.Readings? && k < |ReadingsOf(wave, env).0.values|
    ensures var (r, effects) := ReadingsOf(wave, env);
      WaveTranscript(wave, env)[|effects| + k] ==
        Published(wave.name + "/" + r.values[k].0, ReadingPayload(r.values[k].1), 1, true)
  {
    var out := ReadingsOf(wave, env);
    EffectEntriesIndex(out.1);
    ReadingEntriesIndex(wave.name, out.0.values);
    assert WaveTranscript(wave, env) == TranscriptOf(wave.name, out.0, out.1);
  }

  class Bridge {
    var waves: seq<Wave>
    /** Every publish and device effect so far, oldest first. */
    var log: seq<LogEntry>

    constructor ()
      ensures waves == [] && log == []
    {
      waves := [];
      log := [];
    }

    /**
     * `__parse_config`: one wave per entry, in order, a `WavePlus` exactly when
     * the entry's version prints as "2". A missing key raises KeyError, leaving
     * the waves built before it.
     */
    method ParseConfig(conf: Config) returns (error: Option<ConfigError>)
      modifies this`waves
      ensures conf.waves.None? ==> error == Some(MissingKey("waves")) && waves == []
      ensures conf.waves.Some? ==>
                var entries := conf.waves.value;
                |waves| <= |entries| &&
                (forall i :: 0 <= i < |waves| ==> EntryError(entries[i]).None? && waves[i] == WaveOf(entries[i])) &&
                (error.None? <==> |waves| == |entries|) &&
                (error.Some? ==> error == EntryError(entries[|waves|]))
    {
      waves := [];
      if conf.waves.None? {
        return Some(MissingKey("waves"));
      }
      var entries := conf.waves.value;
      for i := 0 to |entries|
        invariant |waves| == i
        invariant forall k :: 0 <= k < i ==> EntryError(entries[k]).None? && waves[k] == WaveOf(entries[k])
      {
        var e := entries[i];
        if e.name.None? {
          return Some(MissingKey("name"));
        }
        if e.addr.None? {
          return Some(MissingKey("addr"));
        }
        var wave: Wave;
        if SelectsWavePlus(VersionOf(e)) {
          wave := Wave(e.name.value, e.addr.value, WavePlus);
        } else {
          wave := Wave(e.name.value, e.addr.value, WaveV1);
        }
        waves := waves + [wave];
      }
      error := None;
    }

    /** `_publish_event`: publish with QoS 1, retained, and wait for it. */
    method PublishEvent(topic: string, payload: Payload)
      modifies this`log
      ensures log == old(log) + [Published(topic, payload, 1, true)]
    {
      log := log + [Published(topic, payload, 1, true)];
    }

    /** The loop of `_publish_readings`: one retained message per reading, in order. */
    method PublishValues(name: string, values: seq<(string, Reading)>)
      modifies this`log
      ensures log == old(log) + ReadingEntries(name, values)
    {
      for i := 0 to |values|
        invariant log == old(log) + ReadingEntries(name, values[..i])
      {
        assert values[..i + 1][..i] == values[..i];
        PublishEvent(name + "/" + values[i].0, ReadingPayload(values[i].1));
      }
      assert values[..|values|] == values;
    }

    /** `_publish_readings`: read the wave, then publish each reading; the read's exception escapes before any publish. */
    method PublishWaveReadings(wave: Wave, env: DeviceEnv) returns (success: bool)
      modifies this`log
      ensures var out := ReadingsOf(wave, env);
              success == out.0.Readings? &&
              log + [StatusEntry(wave.name, success)] == old(log) + TranscriptOf(wave.name, out.0, out.1)
    {
      var r, effects := GetReadings(wave, env);
      log := log + EffectEntries(effects);
      if r.ReadingsFailed? {
        return false;
      }
      PublishValues(wave.name, r.values);
      success := true;
    }

    /** One iteration of `publish_readings`: the wave's readings, then its ON/OFF status. */
    method PublishWave(wave: Wave, env: DeviceEnv, ghost out: ReadResult)
      requires out == ReadingsOf(wave, env)
      modifies this`log
      ensures log == old(log) + TranscriptOf(wave.name, out.0, out.1)
    {
      var success := PublishWaveReadings(wave, env);
      var status := if success then "ON" else "OFF";
      PublishEvent(wave.name + "/online", StatusPayload(status));
      assert log == old(log) + TranscriptOf(wave.name, out.0, out.1);
    }

    /** `publish_readings`: every wave in turn, each followed by its ON/OFF status. */
    method PublishReadings(env: nat -> DeviceEnv)
      modifies this`log
      ensures log == old(log) + Transcripts(waves, env)
    {
      ghost var outs := Outcomes(waves, env);
      for i := 0 to |waves|
        invariant log == old(log) + LogOf(waves[..i], outs[..i])
      {
        PublishWave(waves[i], env(i), outs[i]);
        LogOfStep(old(log), waves, outs, i);
      }
      assert outs[..|waves|] == outs;
      assert waves[..|waves|] == waves;
    }
  }
}

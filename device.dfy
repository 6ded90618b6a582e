/**
 * The device layer of airthingswave-mqtt/airthingswave.py: the V1 sensors, the
 * connection retry loop, the peripheral scope that always disconnects, and
 * `get_readings` of `Wave` and `WavePlus`. The BLE stack is an oracle: what
 * each connection attempt does and what each characteristic read returns.
 */
module AirthingsDevice {
  import opened Wrappers
  import opened WavePlusRecord

  datatype Uuid = Uuid16(n: int) | Uuid128(text: string)

  /** Struct formats "h" (signed) and "H" (unsigned): 16 bits, least significant byte first. */
  datatype Format = I16 | U16

  datatype Sensor = Sensor(name: string, uuid: Uuid, format: Format, scale: real)

  const SensorsV1: seq<Sensor> := [
    Sensor("temperature", Uuid16(0x2A6E), I16, 1.0 / 100.0),
    Sensor("humidity", Uuid16(0x2A6F), U16, 1.0 / 100.0),
    Sensor("radon_short", Uuid128("b42e01aa-ade7-11e4-89d3-123b93f75cba"), U16, 1.0),
    Sensor("radon_long", Uuid128("b42e0a4c-ade7-11e4-89d3-123b93f75cba"), U16, 1.0)
  ]

  const ConnectRetries: int := 3

  /** What one `Peripheral(addr)` call does. */
  datatype ConnectOutcome = Connects | BtleFails(message: string) | OtherFails(message: string)

  /** The exceptions the device layer raises. */
  datatype DeviceError =
    | BtleError(message: string, causes: seq<string>)  // the last BTLEException; `causes` are the earlier ones, oldest first
    | OtherError(message: string)                      // any other exception from Peripheral(addr)
    | NothingToRaise                                   // `raise None` when no attempt was made: a TypeError
    | NoCharacteristic                                 // IndexError: no characteristic with the UUID
    | UnpackFailed                                     // struct.error: the value has the wrong size
    | ReadError                                        // reading the characteristic raised

  /** The outcome of `peripheral_with_retries`, with the number of attempts made. */
  datatype Connection = Connected(attempts: nat) | NotConnected(error: DeviceError, attempts: nat)

  function MessageOf(o: ConnectOutcome): string {
    match o
    case Connects => ""
    case BtleFails(m) => m
    case OtherFails(m) => m
  }

  /** The retry loop from attempt `k` on, the messages of the BTLE failures so far in `failures`. */
  function RetryFrom(attempt: nat -> ConnectOutcome, retries: int, k: nat, failures: seq<string>): Connection
    decreases if k < retries then retries - k else 0
  {
    if k >= retries then
      if failures == [] then NotConnected(NothingToRaise, k)
      else NotConnected(BtleError(failures[|failures| - 1], failures[..|failures| - 1]), k)
    else
      match attempt(k)
      case Connects => Connected(k + 1)
      case OtherFails(m) => NotConnected(OtherError(m), k + 1)
      case BtleFails(m) => RetryFrom(attempt, retries, k + 1, failures + [m])
  }

  function Retry(attempt: nat -> ConnectOutcome, retries: int): Connection {
    RetryFrom(attempt, retries, 0, [])
  }

  /** One second of sleep follows every BTLE failure. */
  function RetrySleeps(c: Connection): nat {
    match c
    case Connected(n) => if n == 0 then 0 else n - 1
    case NotConnected(e, n) => if e.OtherError? && n > 0 then n - 1 else n
  }

  /**
   * What `peripheral_with_retries` promises: at most `retries` attempts; the
   * first attempt that connects is returned; a non-BTLE exception escapes at
   * once; when every attempt fails with a BTLEException the last one is raised,
   * chained to the earlier ones; with no attempt at all, `raise None` fails
   * with a TypeError.
   */
  predicate RetryOutcome(attempt: nat -> ConnectOutcome, retries: int, c: Connection) {
    (retries <= 0 ==> c == NotConnected(NothingToRaise, 0)) &&
    (retries > 0 ==> 1 <= c.attempts <= retries) &&
    (forall j :: 0 <= j < c.attempts - 1 ==> attempt(j).BtleFails?) &&
    (c.Connected? ==> attempt(c.attempts - 1) == Connects) &&
    (c.NotConnected? && c.error.OtherError? ==> attempt(c.attempts - 1) == OtherFails(c.error.message)) &&
    (c.NotConnected? && c.error.BtleError? ==>
       c.attempts == retries && attempt(retries - 1) == BtleFails(c.error.message) &&
       c.error.causes == seq(retries - 1, j requires 0 <= j < retries - 1 => MessageOf(attempt(j)))) &&
    (c.NotConnected? ==> c.error.BtleError? || c.error.OtherError? || c.error.NothingToRaise?) &&
    (c.NotConnected? && c.error.NothingToRaise? ==> retries <= 0)
  }

  /** The loop has run out of attempts: `raise exc` with the last failure, or `raise None`. */
  lemma RetryFromEnds(attempt: nat -> ConnectOutcome, retries: int, k: nat, failures: seq<string>)
    requires |failures| == k && (k == 0 || k <= retries) && k >= retries
    requires forall j :: 0 <= j < k ==> attempt(j) == BtleFails(failures[j])
    ensures RetryOutcome(attempt, retries, RetryFrom(attempt, retries, k, failures))
  {
    if failures != [] {
      var causes := seq(retries - 1, j requires 0 <= j < retries - 1 => MessageOf(attempt(j)));
      assert failures[..|failures| - 1] == causes;
    }
  }

  lemma {:induction false} RetryFromCharacterized(attempt: nat -> ConnectOutcome, retries: int, k: nat, failures: seq<string>)
    requires |failures| == k && (k == 0 || k <= retries)
    requires forall j :: 0 <= j < k ==> attempt(j) == BtleFails(failures[j])
    ensures RetryOutcome(attempt, retries, RetryFrom(attempt, retries, k, failures))
    decreases if k < retries then retries - k else 0
  {
    if k >= retries {
      RetryFromEnds(attempt, retries, k, failures);
    } else {
      match attempt(k)
      case Connects =>
      case OtherFails(m) =>
      case BtleFails(m) =>
        RetryFromCharacterized(attempt, retries, k + 1, failures + [m]);
    }
  }

  /** `peripheral_with_retries` keeps the promises of `RetryOutcome`. */
  lemma RetryCharacterized(attempt: nat -> ConnectOutcome, retries: int)
    ensures RetryOutcome(attempt, retries, Retry(attempt, retries))
  {
    RetryFromCharacterized(attempt, retries, 0, []);
  }

  /** The loop of `peripheral_with_retries`; `sleeps` counts its one-second sleeps. */
  method PeripheralWithRetries(attempt: nat -> ConnectOutcome, retries: int) returns (c: Connection, sleeps: nat)
    ensures c == Retry(attempt, retries)
    ensures sleeps == RetrySleeps(c)
  {
    var failures: seq<string> := [];
    var k: nat := 0;
    sleeps := 0;
    while k < retries
      invariant |failures| == k && sleeps == k
      invariant k == 0 || k <= retries
      invariant RetryFrom(attempt, retries, k, failures) == Retry(attempt, retries)
      decreases retries - k
    {
      match attempt(k) {
        case Connects =>
          return Connected(k + 1), sleeps;
        case OtherFails(m) =>
          return NotConnected(OtherError(m), k + 1), sleeps;
        case BtleFails(m) =>
          failures := failures + [m];
      }
      sleeps := sleeps + 1;
      k := k + 1;
    }
    if failures == [] {
      c := NotConnected(NothingToRaise, k);
    } else {
      c := NotConnected(BtleError(failures[|failures| - 1], failures[..|failures| - 1]), k);
    }
  }

  /** A published reading: None, a number, or the text `str()` makes of a V1 float (its formatting is not modelled). */
  datatype Reading = NoValue | Num(n: Number) | FloatText(x: real)

  /** What looking up and reading one characteristic does. */
  datatype CharOutcome = NoSuchCharacteristic | NotReadable | Readable(data: seq<byte>) | ReadRaises

  /** What `readCharacteristic(0x000d)` does. */
  datatype HandleOutcome = HandleData(data: seq<byte>) | HandleRaises

  /** One device as the BLE stack presents it. */
  datatype DeviceEnv = DeviceEnv(
    connect: nat -> ConnectOutcome, characteristic: Uuid -> CharOutcome, record: HandleOutcome)

  datatype Model = WaveV1 | WavePlus

  datatype Wave = Wave(name: string, addr: string, model: Model)

  /** Observable side effects of talking to a device. */
  datatype Effect = Slept(seconds: int) | Disconnected(addr: string)

  /** The readings dict in insertion order, or the exception `get_readings` raised. */
  datatype Readings = Readings(values: seq<(string, Reading)>) | ReadingsFailed(error: DeviceError)

  function Decode16(format: Format, lo: byte, hi: byte): (v: int)
    ensures format == U16 ==> IsU16(v) && v == U16LE(lo, hi)
    ensures format == I16 ==> -0x8000 <= v < 0x8000 && (v - U16LE(lo, hi)) % 0x1_0000 == 0
  {
    var u := U16LE(lo, hi);
    if format == I16 && u >= 0x8000 then u - 0x1_0000 else u
  }

  /** The sensor's value: the 16-bit number in its format, times its scale. */
  function ScaledValue(sensor: Sensor, lo: byte, hi: byte): real {
    (Decode16(sensor.format, lo, hi) as real) * sensor.scale
  }

  /** A characteristic `Sensor.read` gets through: present, and unreadable or holding exactly one 16-bit value. */
  predicate Answers(o: CharOutcome) {
    o.NotReadable? || (o.Readable? && |o.data| == 2)
  }

  /** `Sensor.read`: None when the characteristic cannot be read, otherwise the scaled value. */
  function SensorRead(sensor: Sensor, o: CharOutcome): (r: Readings)
    ensures r.Readings? <==> Answers(o)
    ensures r.Readings? ==> |r.values| == 1 && r.values[0].0 == sensor.name
    ensures o == NotReadable ==> r == Readings([(sensor.name, NoValue)])
    ensures o.Readable? && |o.data| == 2 ==>
              r.values[0].1 == FloatText(ScaledValue(sensor, o.data[0], o.data[1]))
    ensures o == NoSuchCharacteristic ==> r == ReadingsFailed(NoCharacteristic)
    ensures o == ReadRaises ==> r == ReadingsFailed(ReadError)
    ensures o.Readable? && |o.data| != 2 ==> r == ReadingsFailed(UnpackFailed)
  {
    match o
    case NoSuchCharacteristic => ReadingsFailed(NoCharacteristic)
    case NotReadable => Readings([(sensor.name, NoValue)])
    case ReadRaises => ReadingsFailed(ReadError)
    case Readable(data) =>
      if |data| != 2 then ReadingsFailed(UnpackFailed)
      else Readings([(sensor.name, FloatText(ScaledValue(sensor, data[0], data[1])))])
  }

  /** The loop of `Wave.get_readings`: one entry per sensor in order, or the first exception. */
  function ReadSensors(sensors: seq<Sensor>, characteristic: Uuid -> CharOutcome): Readings {
    if sensors == [] then Readings([])
    else
      match ReadSensors(sensors[..|sensors| - 1], characteristic)
      case ReadingsFailed(e) => ReadingsFailed(e)
      case Readings(values) =>
        match SensorRead(sensors[|sensors| - 1], characteristic(sensors[|sensors| - 1].uuid))
        case ReadingsFailed(e) => ReadingsFailed(e)
        case Readings(one) => Readings(values + one)
  }

  /** A failure while reading a prefix of the sensors is the failure of the whole read. */
  lemma {:induction false} ReadSensorsFailureSticks(sensors: seq<Sensor>, characteristic: Uuid -> CharOutcome, i: nat)
    requires i <= |sensors|
    requires ReadSensors(sensors[..i], characteristic).ReadingsFailed?
    ensures ReadSensors(sensors, characteristic) == ReadSensors(sensors[..i], characteristic)
    decreases |sensors| - i
  {
    var n := |sensors|;
    if i < n {
      var init := sensors[..n - 1];
      if i < n - 1 {
        assert init[..i] == sensors[..i];
        ReadSensorsFailureSticks(init, characteristic, i);
      } else {
        assert init == sensors[..i];
      }
      assert ReadSensors(init, characteristic) == ReadSensors(sensors[..i], characteristic);
    } else {
      assert sensors[..i] == sensors;
    }
  }

  /** The loop gets through exactly when every sensor's own read does. */
  lemma {:induction false} ReadSensorsSucceedsIff(sensors: seq<Sensor>, characteristic: Uuid -> CharOutcome)
    ensures ReadSensors(sensors, characteristic).Readings? <==>
            forall i :: 0 <= i < |sensors| ==> Answers(characteristic(sensors[i].uuid))
  {
    if sensors != [] {
      var init := sensors[..|sensors| - 1];
      ReadSensorsSucceedsIff(init, characteristic);
      assert forall i :: 0 <= i < |init| ==> init[i] == sensors[i];
    }
  }

  /** On success, one entry per sensor, keyed by the sensor's name, in sensor order; None exactly for unreadable ones. */
  lemma {:induction false} ReadSensorsShape(sensors: seq<Sensor>, characteristic: Uuid -> CharOutcome)
    requires ReadSensors(sensors, characteristic).Readings?
    ensures var vs := ReadSensors(sensors, characteristic).values;
      |vs| == |sensors| &&
      forall i :: 0 <= i < |sensors| ==>
        SensorRead(sensors[i], characteristic(sensors[i].uuid)).Readings? &&
        vs[i] == SensorRead(sensors[i], characteristic(sensors[i].uuid)).values[0] &&
        vs[i].0 == sensors[i].name && (vs[i].1 == NoValue <==> characteristic(sensors[i].uuid) == NotReadable)
  {
    if sensors != [] {
      ReadSensorsShape(sensors[..|sensors| - 1], characteristic);
    }
  }

  /** `WavePlus.get_readings` after the peripheral is released: the record decoded, or the exception. */
  function PlusReadings(h: HandleOutcome): Readings {
    match h
    case HandleRaises => ReadingsFailed(ReadError)
    case HandleData(data) =>
      match Decode(data)
      case None => ReadingsFailed(UnpackFailed)
      case Some(values) => Readings(seq(|values|, i requires 0 <= i < |values| => (values[i].0, Num(values[i].1))))
  }

  /**
   * Wave Plus: the read succeeds exactly when the handle's value is a whole
   * 20-byte record, and then gives the eight readings in their dict order,
   * each the record's own scaled field.
   */
  lemma PlusReadingsKeys(h: HandleOutcome)
    ensures PlusReadings(h).Readings? <==> h.HandleData? && |h.data| == RecordSize
    ensures PlusReadings(h).Readings? ==>
              Keys(PlusReadings(h).values) == ["humidity", "light", "radon_short", "radon_long", "temperature", "pressure", "co2", "voc"] &&
              forall i :: 0 <= i < 8 ==> PlusReadings(h).values[i].1 == Num(Scaled(Unpack(h.data).record)[i].1)
  {
    if PlusReadings(h).Readings? {
      var r := Unpack(h.data).record;
      ScaledKeys(r);
      assert Keys(PlusReadings(h).values) == Keys(Scaled(r));
    }
  }

  /**
   * `get_readings` of either model: connect with three attempts; once connected,
   * the peripheral is disconnected whatever the read does.
   */
  function ReadingsOf(wave: Wave, env: DeviceEnv): (out: (Readings, seq<Effect>))
    ensures Retry(env.connect, ConnectRetries).NotConnected? ==>
              out.0 == ReadingsFailed(Retry(env.connect, ConnectRetries).error)
    ensures Retry(env.connect, ConnectRetries).Connected? <==>
              |out.1| > 0 && out.1[|out.1| - 1] == Disconnected(wave.addr)
  {
    var c := Retry(env.connect, ConnectRetries);
    var sleeps := seq(RetrySleeps(c), _ => Slept(1));
    if c.NotConnected? then (ReadingsFailed(c.error), sleeps)
    else
      var r := match wave.model
        case WaveV1 => ReadSensors(SensorsV1, env.characteristic)
        case WavePlus => PlusReadings(env.record);
      (r, sleeps + [Disconnected(wave.addr)])
  }

  /**
   * The peripheral is released exactly when it was obtained, as the last
   * effect, whether the readings succeeded or raised; there are at most two
   * one-second sleeps between the three attempts, plus one after a third failure.
   */
  lemma PeripheralReleased(wave: Wave, env: DeviceEnv)
    ensures var (r, effects) := ReadingsOf(wave, env);
      var connected := Retry(env.connect, ConnectRetries).Connected?;
      (connected <==> Disconnected(wave.addr) in effects) &&
      (connected ==> effects[|effects| - 1] == Disconnected(wave.addr) &&
                     forall i :: 0 <= i < |effects| - 1 ==> effects[i] == Slept(1)) &&
      (!connected ==> r.ReadingsFailed? && forall i :: 0 <= i < |effects| ==> effects[i] == Slept(1)) &&
      |effects| <= 3
  {
    RetryCharacterized(env.connect, ConnectRetries);
  }

  /**
   * V1: the read succeeds exactly when the device connects and each of the four
   * characteristics is present and unreadable or two bytes long; it then gives
   * the four V1 sensors, in order.
   */
  lemma V1ReadingsKeys(wave: Wave, env: DeviceEnv)
    requires wave.model == WaveV1
    ensures ReadingsOf(wave, env).0.Readings? <==>
              Retry(env.connect, ConnectRetries).Connected? &&
              forall i :: 0 <= i < |SensorsV1| ==> Answers(env.characteristic(SensorsV1[i].uuid))
    ensures ReadingsOf(wave, env).0.Readings? ==>
              var vs := ReadingsOf(wave, env).0.values;
              |vs| == 4 && vs[0].0 == "temperature" && vs[1].0 == "humidity" &&
              vs[2].0 == "radon_short" && vs[3].0 == "radon_long"
  {
    ReadSensorsSucceedsIff(SensorsV1, env.characteristic);
    if ReadingsOf(wave, env).0.Readings? {
      ReadSensorsShape(SensorsV1, env.characteristic);
    }
  }

  /** The V1 read loop: fills the readings sensor by sensor and stops at the first exception. */
  method ReadV1Sensors(characteristic: Uuid -> CharOutcome) returns (r: Readings)
    ensures r == ReadSensors(SensorsV1, characteristic)
  {
    var values: seq<(string, Reading)> := [];
    for i := 0 to |SensorsV1|
      invariant ReadSensors(SensorsV1[..i], characteristic) == Readings(values)
    {
      assert SensorsV1[..i + 1][..i] == SensorsV1[..i];
      match SensorRead(SensorsV1[i], characteristic(SensorsV1[i].uuid)) {
        case ReadingsFailed(e) =>
          ReadSensorsFailureSticks(SensorsV1, characteristic, i + 1);
          return ReadingsFailed(e);
        case Readings(one) =>
          values := values + one;
      }
    }
    assert SensorsV1[..|SensorsV1|] == SensorsV1;
    r := Readings(values);
  }

  /** `get_readings`, dispatched on the model as `WavePlus` overrides `Wave`. */
  method GetReadings(wave: Wave, env: DeviceEnv) returns (r: Readings, effects: seq<Effect>)
    ensures (r, effects) == ReadingsOf(wave, env)
  {
    var c, sleeps := PeripheralWithRetries(env.connect, ConnectRetries);
    effects := seq(sleeps, _ => Slept(1));
    if c.NotConnected? {
      return ReadingsFailed(c.error), effects;
    }
    match wave.model {
      case WaveV1 =>
        r := ReadV1Sensors(env.characteristic);
        effects := effects + [Disconnected(wave.addr)];
      case WavePlus =>
        // the record is read inside the peripheral scope and unpacked after it closes
        effects := effects + [Disconnected(wave.addr)];
        r := PlusReadings(env.record);
    }
  }
}

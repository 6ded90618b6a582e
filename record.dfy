/**
 * The Wave Plus sensor record of airthingswave-mqtt/airthingswave.py: 20 bytes
 * unpacked with the struct format "<xbxbHHHHHHxxxx" and scaled into readings.
 * Scaling is exact division of integers (the source's floating-point rounding
 * is not modelled).
 */
module WavePlusRecord {
  import opened Wrappers

  newtype byte = x: int | 0 <= x < 256

  const RecordSize: nat := 20

  /** The eight fields the format yields, in order. */
  datatype RawRecord = RawRecord(
    humidity: int, light: int, radonShort: int, radonLong: int,
    temperature: int, pressure: int, co2: int, voc: int)

  predicate IsI8(v: int) { -128 <= v < 128 }
  predicate IsU16(v: int) { 0 <= v < 0x1_0000 }

  predicate WellFormed(r: RawRecord) {
    IsI8(r.humidity) && IsI8(r.light) &&
    IsU16(r.radonShort) && IsU16(r.radonLong) && IsU16(r.temperature) &&
    IsU16(r.pressure) && IsU16(r.co2) && IsU16(r.voc)
  }

  /** Format "b": one byte as a two's-complement signed value. */
  function Signed8(b: byte): (v: int)
    ensures IsI8(v) && (v - b as int) % 256 == 0
  {
    if b < 128 then b as int else b as int - 256
  }

  /** Format "<H": two bytes, least significant first. */
  function U16LE(lo: byte, hi: byte): (v: int)
    ensures IsU16(v) && v % 256 == lo as int && v / 256 == hi as int
  {
    lo as int + 256 * hi as int
  }

  /** The outcome of `struct.unpack`: the fields, or struct.error for a buffer of the wrong size. */
  datatype Unpacked = Fields(record: RawRecord) | StructError

  /** Bytes 0, 2 and 16-19 are pad bytes ("x"); bytes 1 and 3 are signed; six u16 at offsets 4 to 14. */
  function Unpack(val: seq<byte>): (r: Unpacked)
    ensures r.Fields? <==> |val| == RecordSize
    ensures r.Fields? ==> WellFormed(r.record)
  {
    if |val| != RecordSize then StructError
    else Fields(RawRecord(
      Signed8(val[1]), Signed8(val[3]),
      U16LE(val[4], val[5]), U16LE(val[6], val[7]), U16LE(val[8], val[9]),
      U16LE(val[10], val[11]), U16LE(val[12], val[13]), U16LE(val[14], val[15])))
  }

  function I8Byte(v: int): byte
    requires IsI8(v)
  {
    if v < 0 then (v + 256) as byte else v as byte
  }

  function U16Bytes(v: int): seq<byte>
    requires IsU16(v)
  {
    [(v % 256) as byte, (v / 256) as byte]
  }

  /** The record as 20 bytes, with `pad` in the six pad positions 0, 2, 16, 17, 18, 19. */
  function Pack(r: RawRecord, pad: seq<byte>): (val: seq<byte>)
    requires WellFormed(r) && |pad| == 6
    ensures |val| == RecordSize
  {
    [pad[0], I8Byte(r.humidity), pad[1], I8Byte(r.light)] +
    U16Bytes(r.radonShort) + U16Bytes(r.radonLong) + U16Bytes(r.temperature) +
    U16Bytes(r.pressure) + U16Bytes(r.co2) + U16Bytes(r.voc) + pad[2..]
  }

  function Padding(val: seq<byte>): seq<byte>
    requires |val| == RecordSize
  {
    [val[0], val[2]] + val[16..]
  }

  lemma I8RoundTrip(v: int)
    requires IsI8(v)
    ensures Signed8(I8Byte(v)) == v
  {
  }

  lemma Signed8RoundTrip(b: byte)
    ensures I8Byte(Signed8(b)) == b
  {
  }

  lemma U16RoundTrip(v: int)
    requires IsU16(v)
    ensures U16LE(U16Bytes(v)[0], U16Bytes(v)[1]) == v
  {
  }

  lemma U16LERoundTrip(lo: byte, hi: byte)
    ensures U16Bytes(U16LE(lo, hi)) == [lo, hi]
  {
  }

  /** Unpacking a packed record gives the record back and the pad bytes are where they were put. */
  lemma UnpackPack(r: RawRecord, pad: seq<byte>)
    requires WellFormed(r) && |pad| == 6
    ensures Unpack(Pack(r, pad)) == Fields(r)
    ensures Padding(Pack(r, pad)) == pad
  {
    var val := Pack(r, pad);
    I8RoundTrip(r.humidity);
    I8RoundTrip(r.light);
    U16RoundTrip(r.radonShort);
    U16RoundTrip(r.radonLong);
    U16RoundTrip(r.temperature);
    U16RoundTrip(r.pressure);
    U16RoundTrip(r.co2);
    U16RoundTrip(r.voc);
    assert val[4..6] == U16Bytes(r.radonShort) && val[6..8] == U16Bytes(r.radonLong);
    assert val[8..10] == U16Bytes(r.temperature) && val[10..12] == U16Bytes(r.pressure);
    assert val[12..14] == U16Bytes(r.co2) && val[14..16] == U16Bytes(r.voc);
    assert val[16..] == pad[2..];
  }

  /** Every 20-byte buffer is the packing of what it unpacks to, with its own pad bytes: unpacking loses only the pad. */
  lemma PackUnpack(val: seq<byte>)
    requires |val| == RecordSize
    ensures Pack(Unpack(val).record, Padding(val)) == val
  {
    var r := Unpack(val).record;
    Signed8RoundTrip(val[1]);
    Signed8RoundTrip(val[3]);
    U16LERoundTrip(val[4], val[5]);
    U16LERoundTrip(val[6], val[7]);
    U16LERoundTrip(val[8], val[9]);
    U16LERoundTrip(val[10], val[11]);
    U16LERoundTrip(val[12], val[13]);
    U16LERoundTrip(val[14], val[15]);
    var p := Pack(r, Padding(val));
    assert p[4..6] == val[4..6] && p[6..8] == val[6..8] && p[8..10] == val[8..10];
    assert p[10..12] == val[10..12] && p[12..14] == val[12..14] && p[14..16] == val[14..16];
    assert p[16..] == val[16..];
    assert forall i :: 0 <= i < RecordSize ==> p[i] == val[i];
  }

  /** A value as Python holds it: an int, or a float (kept as an exact rational). */
  datatype Number = Int(i: int) | Float(x: real)

  /** The dict `get_readings` returns, in its insertion order. */
  function Scaled(r: RawRecord): (readings: seq<(string, Number)>)
    ensures |readings| == 8
    ensures forall i :: 0 <= i < |readings| ==> (readings[i].1.Int? <==> i == 2 || i == 3)
    ensures readings[2].1.i == r.radonShort && readings[3].1.i == r.radonLong
    ensures readings[0].1.x * 2.0 == r.humidity as real && readings[4].1.x * 100.0 == r.temperature as real
    ensures readings[5].1.x * 50.0 == r.pressure as real
    ensures readings[1].1.x == r.light as real && readings[6].1.x == r.co2 as real && readings[7].1.x == r.voc as real
  {
    [ ("humidity", Float(r.humidity as real / 2.0)),
      ("light", Float(r.light as real * 1.0)),
      ("radon_short", Int(r.radonShort)),
      ("radon_long", Int(r.radonLong)),
      ("temperature", Float(r.temperature as real / 100.0)),
      ("pressure", Float(r.pressure as real / 50.0)),
      ("co2", Float(r.co2 as real * 1.0)),
      ("voc", Float(r.voc as real * 1.0)) ]
  }

  function Keys<V>(entries: seq<(string, V)>): seq<string> {
    seq(|entries|, i requires 0 <= i < |entries| => entries[i].0)
  }

  /** The readings of a whole record, or None where `struct.unpack` raises. */
  function Decode(val: seq<byte>): (d: Option<seq<(string, Number)>>)
    ensures d.Some? <==> |val| == RecordSize
  {
    match Unpack(val)
    case Fields(r) => Some(Scaled(r))
    case StructError => None
  }

  /** Exactly eight distinct keys, always the same, in the same order. */
  lemma ScaledKeys(r: RawRecord)
    ensures Keys(Scaled(r)) == ["humidity", "light", "radon_short", "radon_long", "temperature", "pressure", "co2", "voc"]
    ensures forall i, j :: 0 <= i < j < |Scaled(r)| ==> Scaled(r)[i].0 != Scaled(r)[j].0
  {
  }

  /** Scaling loses nothing: two records with the same readings are the same record. */
  lemma ScaledIsInjective(r1: RawRecord, r2: RawRecord)
    requires Scaled(r1) == Scaled(r2)
    ensures r1 == r2
  {
    assert Scaled(r1)[0] == Scaled(r2)[0] && Scaled(r1)[4] == Scaled(r2)[4] && Scaled(r1)[5] == Scaled(r2)[5];
    assert r1.humidity as real == (r1.humidity as real / 2.0) * 2.0;
    assert r2.humidity as real == (r2.humidity as real / 2.0) * 2.0;
    assert r1.temperature as real == (r1.temperature as real / 100.0) * 100.0;
    assert r2.temperature as real == (r2.temperature as real / 100.0) * 100.0;
    assert r1.pressure as real == (r1.pressure as real / 50.0) * 50.0;
    assert r2.pressure as real == (r2.pressure as real / 50.0) * 50.0;
    assert Scaled(r1)[1] == Scaled(r2)[1] && Scaled(r1)[6] == Scaled(r2)[6] && Scaled(r1)[7] == Scaled(r2)[7];
  }

  /** The readings depend on the record's fields and on nothing in the pad bytes. */
  lemma DecodeRoundTrip(r: RawRecord, pad: seq<byte>)
    requires WellFormed(r) && |pad| == 6
    ensures Decode(Pack(r, pad)) == Some(Scaled(r))
  {
    UnpackPack(r, pad);
  }

  /** Two buffers decode alike exactly when they agree outside the pad bytes. */
  lemma DecodeDeterminesFields(a: seq<byte>, b: seq<byte>)
    requires |a| == RecordSize && |b| == RecordSize
    ensures Decode(a) == Decode(b) <==> Unpack(a) == Unpack(b)
  {
    if Decode(a) == Decode(b) {
      ScaledIsInjective(Unpack(a).record, Unpack(b).record);
    }
  }

  /** Humidity 40, light 10, radon 20 and 15, temperature 2350, pressure 50250, CO2 600, VOC 150. */
  lemma DecodeExample()
    ensures Decode([0, 40, 0, 10, 20, 0, 15, 0, 46, 9, 74, 196, 88, 2, 150, 0, 0, 0, 0, 0]) ==
            Some([ ("humidity", Float(20.0)), ("light", Float(10.0)),
                   ("radon_short", Int(20)), ("radon_long", Int(15)),
                   ("temperature", Float(23.5)), ("pressure", Float(1005.0)),
                   ("co2", Float(600.0)), ("voc", Float(150.0)) ])
  {
    var val: seq<byte> := [0, 40, 0, 10, 20, 0, 15, 0, 46, 9, 74, 196, 88, 2, 150, 0, 0, 0, 0, 0];
    var r := RawRecord(40, 10, 20, 15, 2350, 50250, 600, 150);
    assert U16LE(val[8], val[9]) == 2350 && U16LE(val[10], val[11]) == 50250 && U16LE(val[12], val[13]) == 600;
    assert Unpack(val) == Fields(r);
    assert Scaled(r)[4].1 == Float(23.5) && Scaled(r)[5].1 == Float(1005.0);
  }
}

/**
 * The MQTT messages wave/app.py publishes for a read cycle (`__publish_samples`
 * and `error_payload`). Publishing itself is an appended log of messages.
 */
module WavePublish {
  import opened Wrappers
  import opened WaveDevices

  /** A JSON payload: a sample's document, or a flat object of optional strings. */
  datatype Json = SampleDocument(sample: Sample) | JsonObject(fields: map<string, Option<string>>)

  /** Delivery settings: explicit QoS and retain flag, or whatever the publishing helper defaults to. */
  datatype Delivery = QosRetain(qos: nat, retain: bool) | HelperDefaults

  datatype Message = Message(topic: string, payload: Json, delivery: Delivery)

  /** `error_payload(error_type, message)`: a JSON object with exactly the keys "error" and "message". */
  function ErrorPayload(errorType: string, message: Option<string>): (p: map<string, Option<string>>)
    ensures p.Keys == {"error", "message"}
    ensures p["error"] == Some(errorType) && p["message"] == message
  {
    map["error" := Some(errorType), "message" := message]
  }

  function Topic(serial: string, kind: string): string {
    "wave/" + serial + "/" + kind
  }

  /** The one message published for a (device, sample-or-None) pair. */
  function SampleMessage(device: Device, sample: Option<Sample>): Message {
    match sample
    case Some(s) =>
      Message(Topic(device.serialNumber, "sample"), SampleDocument(s), QosRetain(1, true))
    case None =>
      Message(Topic(device.serialNumber, "error"),
              JsonObject(ErrorPayload("connection-failed", Some("Failed to connect to wave device"))),
              HelperDefaults)
  }

  /** Exactly one message per pair, in the order of the pairs. */
  function {:induction false} Messages(samples: seq<(Device, Option<Sample>)>): (ms: seq<Message>)
    ensures |ms| == |samples|
    ensures forall i :: 0 <= i < |samples| ==> ms[i] == SampleMessage(samples[i].0, samples[i].1)
  {
    if samples == [] then []
    else Messages(samples[..|samples| - 1]) + [SampleMessage(samples[|samples| - 1].0, samples[|samples| - 1].1)]
  }

  /**
   * A subscriber can tell from the topic alone which device a message is about
   * and whether it carries a sample or an error.
   */
  lemma TopicDetermines(s1: string, k1: string, s2: string, k2: string)
    requires k1 in {"sample", "error"} && k2 in {"sample", "error"}
    requires Topic(s1, k1) == Topic(s2, k2)
    ensures s1 == s2 && k1 == k2
  {
    var t := Topic(s1, k1);
    assert t[|t| - 1] == k1[|k1| - 1] == k2[|k2| - 1];
    assert k1 == k2;
    assert |s1| == |s2|;
    assert s1 == t[5..5 + |s1|];
    assert s2 == t[5..5 + |s2|];
  }

  /** Distinct message topics for distinct devices, and sample topics never collide with error topics. */
  lemma SampleMessageTopicDetermines(d1: Device, o1: Option<Sample>, d2: Device, o2: Option<Sample>)
    requires SampleMessage(d1, o1).topic == SampleMessage(d2, o2).topic
    ensures d1 == d2 && o1.Some? == o2.Some?
  {
    var k1 := if o1.Some? then "sample" else "error";
    var k2 := if o2.Some? then "sample" else "error";
    TopicDetermines(d1.serialNumber, k1, d2.serialNumber, k2);
  }

  function CountSampleMessages(ms: seq<Message>): nat {
    if ms == [] then 0
    else CountSampleMessages(ms[..|ms| - 1]) + (if ms[|ms| - 1].payload.SampleDocument? then 1 else 0)
  }

  function CountPresent(samples: seq<(Device, Option<Sample>)>): nat {
    if samples == [] then 0
    else CountPresent(samples[..|samples| - 1]) + (if samples[|samples| - 1].1.Some? then 1 else 0)
  }

  /** The number of sample messages equals the number of devices that gave a sample; the rest are error messages. */
  lemma {:induction false} SampleMessagesCountSamples(samples: seq<(Device, Option<Sample>)>)
    ensures CountSampleMessages(Messages(samples)) == CountPresent(samples)
  {
    if samples != [] {
      var init := samples[..|samples| - 1];
      SampleMessagesCountSamples(init);
      assert Messages(samples)[..|samples| - 1] == Messages(init);
    }
  }

  /**
   * Device A gives a sample and device B times out: exactly one sample message
   * for A, then exactly one error message for B, in list order.
   */
  lemma ReadCycleExample(a: Device, b: Device, s: Sample, read: Device -> ReadOutcome)
    requires a != b && read(a) == ReadOk(s) && read(b) == ReadTimeout
    ensures Messages(Collected([a, b], read)) ==
              [ Message("wave/" + a.serialNumber + "/sample", SampleDocument(s), QosRetain(1, true)),
                Message("wave/" + b.serialNumber + "/error",
                        JsonObject(map["error" := Some("connection-failed"),
                                       "message" := Some("Failed to connect to wave device")]),
                        HelperDefaults) ]
  {
    var ms := Messages(Collected([a, b], read));
    assert ms[0] == SampleMessage(a, Some(s));
    assert ms[1] == SampleMessage(b, None);
    assert Topic(a.serialNumber, "sample") == "wave/" + a.serialNumber + "/sample";
    assert Topic(b.serialNumber, "error") == "wave/" + b.serialNumber + "/error";
  }
}

/**
 * One measurement channel (RLNode.h:41-71, RLNode.cpp:66-168): its
 * configuration, the rule that derives Active and Status from the sample
 * rate, and the per-tick publish scheduler.
 */
module Channel {
  import opened Clock
  import opened Protocol

  /** Milliseconds a channel waits after activation before it publishes. */
  const SETTLE_DELAY: nat := 1000
  /** Size of the Status buffer (RLNode.h:28, 67). */
  const MAX_SHORT_STRING_LENGTH: nat := 10

  const IDLE: string := "Idle"
  const ONLINE: string := "Online"

  /** What the sensor function hands back on one call: the text to publish
      and whether it asks for a publish out of cadence. */
  datatype Reading = Reading(output: string, forcePublish: bool)

  /** The fields of an RLChannel. */
  datatype ChannelState = ChannelState(
    id: int,
    maxSampleRate: real,
    previousTime: U32,
    activationTime: U32,
    previousOutput: string,
    active: bool,
    publishTopic: string,
    sampleRate: real,
    k: real,
    m: real,
    channelType: string,
    status: string,
    sensorId: string,
    description: string,
    unit: string)

  function StatusFor(active: bool): (s: string)
    ensures |s| < MAX_SHORT_STRING_LENGTH
  {
    if active then ONLINE else IDLE
  }

  /** The invariant updateConfig establishes: a channel is active exactly when
      its sample rate is non-zero, an active rate is within (0, MaxSampleRate]
      and an inactive one is 0. */
  predicate Coherent(s: ChannelState) {
    (s.active <==> s.sampleRate != 0.0) &&
    (s.active ==> 0.0 < s.sampleRate <= s.maxSampleRate)
  }

  /** The test updateConfig applies to a received configuration. */
  predicate Accepts(cfg: Configuration, maxSampleRate: real) {
    cfg.publishTopic.Some? && |cfg.publishTopic.value| > 0 &&
    maxSampleRate >= cfg.sampleRate && 0.0 < cfg.sampleRate
  }

  /** The first half of updateConfig: copy an accepted configuration, or
      zero the sample rate of a rejected one. */
  function Adopt(s: ChannelState, cfg: Configuration): ChannelState {
    if Accepts(cfg, s.maxSampleRate) then
      s.(publishTopic := cfg.publishTopic.value, sampleRate := cfg.sampleRate,
         k := cfg.kValue, m := cfg.mValue, unit := cfg.unit,
         description := cfg.descriptor, sensorId := cfg.sensorId)
    else s.(sampleRate := 0.0)
  }

  /** The second half of updateConfig: derive Active and Status from the
      sample rate, stamping ActivationTime with `now` when active. */
  function Derive(s: ChannelState, now: U32): ChannelState {
    if s.sampleRate == 0.0 then s.(active := false, status := IDLE)
    else s.(active := true, status := ONLINE, activationTime := now)
  }

  /** updateConfig: copy an accepted configuration or zero the sample rate,
      then derive Active and Status, stamping ActivationTime with `now` when
      the channel is active. */
  function Configure(s: ChannelState, cfg: Configuration, now: U32): (r: ChannelState)
    ensures Coherent(r) && r.status == StatusFor(r.active)
    ensures r.active <==> Accepts(cfg, s.maxSampleRate)
    ensures r.active ==> r.activationTime == now && r.publishTopic == cfg.publishTopic.value &&
                         r.sampleRate == cfg.sampleRate && r.k == cfg.kValue && r.m == cfg.mValue &&
                         r.unit == cfg.unit && r.description == cfg.descriptor && r.sensorId == cfg.sensorId
    ensures !r.active ==> r == s.(sampleRate := 0.0, active := false, status := IDLE)
    ensures r.id == s.id && r.maxSampleRate == s.maxSampleRate && r.channelType == s.channelType
    ensures r.previousTime == s.previousTime && r.previousOutput == s.previousOutput
  {
    Derive(Adopt(s, cfg), now)
  }

  /** The period, in milliseconds, of a channel publishing at `rate`
      samples per second. */
  function Period(rate: real): real
    requires rate != 0.0
  {
    1000.0 / rate
  }

  /** The guard of publishData at time `now`. */
  predicate PublishDue(s: ChannelState, now: U32, force: bool)
    requires Coherent(s)
  {
    s.active &&
    Elapsed(now, s.activationTime) >= SETTLE_DELAY &&
    ((Elapsed(now, s.previousTime) as real) >= Period(s.sampleRate) || force)
  }

  /** publishData: given what the sensor returned, publish the output on the
      channel's topic when due, and then remember the time and the output. */
  function Publish(s: ChannelState, now: U32, reading: Reading): (r: (ChannelState, Option<Publication>))
    requires Coherent(s)
    ensures Coherent(r.0)
    ensures r.1.Some? <==> PublishDue(s, now, reading.forcePublish)
    ensures r.1.Some? ==> r.1.value == Publication(s.publishTopic, reading.output) &&
                          r.0 == s.(previousTime := now, previousOutput := reading.output)
    ensures r.1.None? ==> r.0 == s
  {
    if PublishDue(s, now, reading.forcePublish) then
      (s.(previousOutput := reading.output, previousTime := now),
       Some(Publication(s.publishTopic, reading.output)))
    else (s, None)
  }

  /** An inactive channel never publishes, and an active one publishes
      nothing during the settle delay after its activation. */
  lemma NoPublishWhileIdleOrSettling(s: ChannelState, now: U32, reading: Reading)
    requires Coherent(s)
    requires !s.active || Elapsed(now, s.activationTime) < SETTLE_DELAY
    ensures Publish(s, now, reading).1 == None
  {
  }

  /** A channel that has just published does not publish again at the same
      time unless the sensor forces it. */
  lemma NoSecondPublishAtSameTime(s: ChannelState, now: U32, r1: Reading, r2: Reading)
    requires Coherent(s) && Publish(s, now, r1).1.Some?
    requires !r2.forcePublish
    ensures Publish(Publish(s, now, r1).0, now, r2).1 == None
  {
    var s1 := Publish(s, now, r1).0;
    ElapsedSelf(now);
    assert Period(s1.sampleRate) > 0.0;
  }

  /** A settled active channel publishes on schedule: once a period has
      passed since its last publish it is due, even across a rollover of
      the clock. */
  lemma PublishesWhenPeriodElapsed(s: ChannelState, d: nat, reading: Reading)
    requires Coherent(s) && s.active
    requires d < WRAP && d as real >= Period(s.sampleRate)
    requires Elapsed(After(s.previousTime, d), s.activationTime) >= SETTLE_DELAY
    ensures Publish(s, After(s.previousTime, d), reading).1.Some?
  {
    ElapsedAfter(s.previousTime, d);
  }

  /** One tick of a channel: the clock reading and the sensor's answer. */
  datatype TickInput = TickInput(now: U32, reading: Reading)

  /** A publish that happened during a run: when, and whether it was forced. */
  datatype Sent = Sent(at: U32, forced: bool)

  /** The channel ticked through `ticks` with its configuration unchanged:
      the final state and the publishes, in order. */
  function Run(s: ChannelState, ticks: seq<TickInput>): (r: (ChannelState, seq<Sent>))
    requires Coherent(s)
    ensures Coherent(r.0)
    ensures r.0 == s.(previousTime := r.0.previousTime, previousOutput := r.0.previousOutput)
    decreases |ticks|
  {
    if ticks == [] then (s, [])
    else
      var t := ticks[|ticks| - 1];
      var before := Run(s, ticks[..|ticks| - 1]);
      var step := Publish(before.0, t.now, t.reading);
      (step.0, before.1 + if step.1.Some? then [Sent(t.now, t.reading.forcePublish)] else [])
  }

  /** The state remembers the time of the latest publish of a run. */
  lemma {:induction false} RunRemembersLastPublish(s: ChannelState, ticks: seq<TickInput>)
    requires Coherent(s)
    ensures Run(s, ticks).1 == [] ==> Run(s, ticks).0.previousTime == s.previousTime
    ensures Run(s, ticks).1 != [] ==> Run(s, ticks).0.previousTime == Run(s, ticks).1[|Run(s, ticks).1| - 1].at
    decreases |ticks|
  {
    if ticks != [] {
      RunRemembersLastPublish(s, ticks[..|ticks| - 1]);
    }
  }

  /** Every publish in `sent` that was not forced comes at least one period
      after the publish before it, or after `start` for the first. */
  predicate SpacedByPeriod(sent: seq<Sent>, start: U32, rate: real)
    requires rate != 0.0
  {
    forall i :: 0 <= i < |sent| && !sent[i].forced ==>
      Elapsed(sent[i].at, PreviousAt(sent, start, i)) as real >= Period(rate)
  }

  /** The time the publish before `sent[i]` happened, or `start`. */
  function PreviousAt(sent: seq<Sent>, start: U32, i: nat): U32
    requires i < |sent|
  {
    if i == 0 then start else sent[i - 1].at
  }

  lemma SpacedAt(sent: seq<Sent>, start: U32, rate: real, i: nat)
    requires rate != 0.0 && SpacedByPeriod(sent, start, rate)
    requires i < |sent| && !sent[i].forced
    ensures Elapsed(sent[i].at, PreviousAt(sent, start, i)) as real >= Period(rate)
  {
  }

  /** An active channel publishes at most once per period: over any run,
      publishes the sensor did not force are a full period apart, counted
      from the PreviousTime the run started with. */
  lemma {:induction false} RunPublishesAtMostOncePerPeriod(s: ChannelState, ticks: seq<TickInput>)
    requires Coherent(s) && s.active
    ensures SpacedByPeriod(Run(s, ticks).1, s.previousTime, s.sampleRate)
    decreases |ticks|
  {
    if ticks != [] {
      var prefix := ticks[..|ticks| - 1];
      var t := ticks[|ticks| - 1];
      RunPublishesAtMostOncePerPeriod(s, prefix);
      RunRemembersLastPublish(s, prefix);
      var before := Run(s, prefix);
      var step := Publish(before.0, t.now, t.reading);
      var sent := Run(s, ticks).1;
      assert sent == before.1 + if step.1.Some? then [Sent(t.now, t.reading.forcePublish)] else [];
      forall i | 0 <= i < |sent| && !sent[i].forced
        ensures Elapsed(sent[i].at, PreviousAt(sent, s.previousTime, i)) as real >= Period(s.sampleRate)
      {
        if i < |before.1| {
          assert sent[i] == before.1[i];
          assert PreviousAt(sent, s.previousTime, i) == PreviousAt(before.1, s.previousTime, i);
          SpacedAt(before.1, s.previousTime, s.sampleRate, i);
        } else {
          assert step.1.Some? && sent[i] == Sent(t.now, t.reading.forcePublish);
          assert i > 0 ==> sent[i - 1] == before.1[|before.1| - 1];
          assert before.0.sampleRate == s.sampleRate;
          assert PublishDue(before.0, t.now, t.reading.forcePublish);
          assert !t.reading.forcePublish;
          assert Elapsed(t.now, before.0.previousTime) as real >= Period(s.sampleRate);
          assert before.0.previousTime == PreviousAt(sent, s.previousTime, i);
        }
      }
      assert SpacedByPeriod(sent, s.previousTime, s.sampleRate);
    }
  }

  /** Nothing in a run is published unless the channel is active, nor
      before the settle delay has passed since its activation. */
  lemma {:induction false} RunRespectsSettleDelay(s: ChannelState, ticks: seq<TickInput>)
    requires Coherent(s)
    ensures Run(s, ticks).1 != [] ==> s.active
    ensures forall i :: 0 <= i < |Run(s, ticks).1| ==>
      Elapsed(Run(s, ticks).1[i].at, s.activationTime) >= SETTLE_DELAY
    decreases |ticks|
  {
    if ticks != [] {
      var prefix := ticks[..|ticks| - 1];
      var t := ticks[|ticks| - 1];
      RunRespectsSettleDelay(s, prefix);
      var before := Run(s, prefix);
      var step := Publish(before.0, t.now, t.reading);
      var sent := Run(s, ticks).1;
      assert sent == before.1 + if step.1.Some? then [Sent(t.now, t.reading.forcePublish)] else [];
      forall i | 0 <= i < |sent|
        ensures Elapsed(sent[i].at, s.activationTime) >= SETTLE_DELAY
      {
        if i < |before.1| {
          assert sent[i] == before.1[i];
        } else {
          assert PublishDue(before.0, t.now, t.reading.forcePublish);
        }
      }
    }
  }

  /** An RLChannel object. The sensor function is foreign code: each call of
      PublishData is handed what it returned, and SensorCalls records the
      calibration values it was called with. */
  class RLChannel {
    var ID: int
    var MaxSampleRate: real
    var PreviousTime: U32
    var ActivationTime: U32
    var PreviousOutputString: string
    var Active: bool
    var PublishTopic: string
    var SampleRate: real
    var CalibrationValueK: real
    var CalibrationValueM: real
    var Type: string
    var Status: string
    var SensorId: string
    var Description: string
    var Unit: string
    ghost var SensorCalls: seq<(real, real)>

    /** The channel as a value: the fields hold exactly its values, and it
        is coherent. */
    ghost var Model: ChannelState

    ghost predicate Valid()
      reads this
    {
      Mirrors(Model) && Coherent(Model)
    }

    /** The fields hold exactly the values of `s`. */
    ghost predicate Mirrors(s: ChannelState)
      reads this
    {
      s.id == ID && s.maxSampleRate == MaxSampleRate && s.previousTime == PreviousTime &&
      s.activationTime == ActivationTime && s.previousOutput == PreviousOutputString && s.active == Active &&
      s.publishTopic == PublishTopic && s.sampleRate == SampleRate && s.k == CalibrationValueK &&
      s.m == CalibrationValueM && s.channelType == Type && s.status == Status && s.sensorId == SensorId &&
      s.description == Description && s.unit == Unit
    }

    /** RLChannel(type, maxSampleRate, sensorFunction). ID, PreviousTime,
        ActivationTime and PreviousOutputString are left as they are. */
    constructor (channelType: string, maxSampleRate: real)
      ensures Valid()
      ensures !Active && Status == IDLE && SampleRate == 0.0 && PublishTopic == ""
      ensures CalibrationValueK == 0.0 && CalibrationValueM == 0.0
      ensures Type == channelType && MaxSampleRate == maxSampleRate
      ensures SensorId == "" && Description == "" && Unit == ""
      ensures SensorCalls == [] && Model.sensorId == "" && Model.description == "" && Model.unit == ""
    {
      MaxSampleRate := maxSampleRate;
      Active := false;
      PublishTopic := "";
      SampleRate := 0.0;
      CalibrationValueK := 0.0;
      CalibrationValueM := 0.0;
      Type := channelType;
      Status := IDLE;
      SensorId := "";
      Description := "";
      Unit := "";
      SensorCalls := [];
      Model := ChannelState(ID, MaxSampleRate, PreviousTime, ActivationTime, PreviousOutputString, Active,
                            PublishTopic, SampleRate, CalibrationValueK, CalibrationValueM, Type, Status,
                            SensorId, Description, Unit);
    }

    /** updateConfig, with the configuration of the current inbound document
        and the millis() reading it would take. Valid() afterwards follows
        from the contract of Configure. */
    method UpdateConfig(cfg: Configuration, now: U32)
      requires Valid()
      modifies this
      ensures Valid()
      ensures Model == Configure(old(Model), cfg, now)
      ensures SensorCalls == old(SensorCalls)
    {
      ghost var adopted := Adopt(Model, cfg);
      if Accepts(cfg, MaxSampleRate) {
        PublishTopic := cfg.publishTopic.value;
        SampleRate := cfg.sampleRate;
        CalibrationValueK := cfg.kValue;
        CalibrationValueM := cfg.mValue;
        Unit := cfg.unit;
        Description := cfg.descriptor;
        SensorId := cfg.sensorId;
      } else {
        SampleRate := 0.0;
      }
      assert Mirrors(adopted);
      if SampleRate == 0.0 {
        Active := false;
        Status := IDLE;
      } else {
        Active := true;
        Status := ONLINE;
        ActivationTime := now;
      }
      Model := Derive(adopted, now);
    }

    /** publishData at the node's Time `now`. The sensor is called once,
        whether or not the channel is active; what it returned is `reading`.
        The publish, if any, is returned for the node to hand to MQTT. */
    method PublishData(now: U32, reading: Reading) returns (sent: Option<Publication>)
      requires Valid()
      modifies this
      ensures Valid()
      ensures (Model, sent) == Publish(old(Model), now, reading)
      ensures SensorCalls == old(SensorCalls) + [(old(Model).k, old(Model).m)]
    {
      SensorCalls := SensorCalls + [(CalibrationValueK, CalibrationValueM)];
      var outputString := reading.output;
      var forcePublish := reading.forcePublish;
      if Active &&
         Elapsed(now, ActivationTime) >= SETTLE_DELAY &&
         ((Elapsed(now, PreviousTime) as real) >= 1000.0 / SampleRate || forcePublish)
      {
        sent := Some(Publication(PublishTopic, outputString));
        PreviousOutputString := outputString;
        PreviousTime := now;
        Model := Model.(previousOutput := outputString, previousTime := now);
      } else {
        sent := None;
      }
    }
  }
}
